/** The catalogue store: the category and movie repositories over their tables.
    Each table is the sequence of rows the database holds, in table order, with
    the `Id` column as primary key. */
module Catalogo {

  import opened Wrappers
  import opened Linq
  import opened Texto
  import opened Modelos

  /** `Guardar()`: `SaveChanges() >= 0`. The number of saved changes is what
      the database reports, passed in as `cambios`. */
  function Guardar(cambios: int): bool
  {
    cambios >= 0
  }

  /** `SaveChanges()` never reports a negative count (a save that fails
      throws instead, and exceptions are not modelled), so every count it
      can report is a success, zero changes included. The `!Guardar()`
      branches of the controllers are therefore dead in the program; the
      model reaches them only through a negative `cambios`, which no save
      produces. */
  lemma GuardarCuentaNoNegativa()
    ensures forall n: int :: n >= 0 ==> Guardar(n)
  {
  }

  // ---------------------------------------------------------------- row predicates

  function CategoriaConId(id: int): Categoria -> bool
  {
    (c: Categoria) => c.id == id
  }

  /** `c.Nombre.ToLower().Trim() == nombre.ToLower().Trim()`. */
  function CategoriaLlamada(nombre: string): Categoria -> bool
  {
    (c: Categoria) => Normalize(c.nombre) == Normalize(nombre)
  }

  function PeliculaConId(id: int): Pelicula -> bool
  {
    (p: Pelicula) => p.id == id
  }

  function PeliculaLlamada(nombre: string): Pelicula -> bool
  {
    (p: Pelicula) => Normalize(p.nombre) == Normalize(nombre)
  }

  /** `p.Nombre.ToLower().Trim().Contains(nombre.ToLower().Trim())`. */
  function PeliculaCuyoNombreContiene(nombre: string): Pelicula -> bool
  {
    (p: Pelicula) => Contains(Normalize(p.nombre), Normalize(nombre))
  }

  function PeliculaDeCategoria(catId: int): Pelicula -> bool
  {
    (p: Pelicula) => p.categoriaId == catId
  }

  // ---------------------------------------------------------------- categories

  class CategoriaRepositorio {

    /** `_bd.Categorias`. */
    var categorias: seq<Categoria>

    ghost predicate Valid()
      reads this
    {
      UniqueBy(categorias, IdDeCategoria)
    }

    constructor (tabla: seq<Categoria>)
      requires UniqueBy(tabla, IdDeCategoria)
      ensures Valid() && categorias == tabla
    {
      categorias := tabla;
    }

    /** `ExisteCategoria(int id)`. */
    predicate ExisteCategoria(id: int)
      reads this
      ensures ExisteCategoria(id) <==> exists i :: 0 <= i < |categorias| && categorias[i].id == id
    {
      Any(categorias, CategoriaConId(id))
    }

    /** `ExisteCategoria(string nombre)`: equality after lower-casing and
        trimming both names. */
    predicate ExisteCategoriaNombre(nombre: string)
      reads this
      ensures ExisteCategoriaNombre(nombre) <==>
                exists i :: 0 <= i < |categorias| && Normalize(categorias[i].nombre) == Normalize(nombre)
    {
      Any(categorias, CategoriaLlamada(nombre))
    }

    /** `GetCategoria(id)`: the first row with that id, or null. */
    function GetCategoria(id: int): (r: Option<Categoria>)
      reads this
      ensures r.None? <==> !ExisteCategoria(id)
      ensures r.Some? ==> exists i :: 0 <= i < |categorias| && categorias[i] == r.value && r.value.id == id
                                      && forall j :: 0 <= j < i ==> categorias[j].id != id
    {
      FirstOrDefault(categorias, CategoriaConId(id))
    }

    /** `GetCategorias()`: the whole table ordered by name. */
    function GetCategorias(): (r: seq<Categoria>)
      reads this
      ensures SortedBy(r, NombreDeCategoria)
      ensures multiset(r) == multiset(categorias)
      ensures |r| == |categorias|
    {
      OrderBy(categorias, NombreDeCategoria)
    }

    /** `CrearCategoria`: stamps the creation date on the argument, adds it to
        the table (where the database assigns its identity key `idAsignado`)
        and saves. `creada` is the argument as the call leaves it. */
    method CrearCategoria(c: Categoria, idAsignado: int, ahora: Fecha, cambios: int)
      returns (ok: bool, creada: Categoria)
      requires Valid() && !ExisteCategoria(idAsignado)
      modifies this
      ensures Valid()
      ensures creada == c.(id := idAsignado, fechaCreacion := ahora)
      ensures categorias == old(categorias) + [creada]
      ensures ok <==> cambios >= 0
    {
      creada := c.(id := idAsignado, fechaCreacion := ahora);
      categorias := categorias + [creada];
      ok := Guardar(cambios);
    }

    /** `ActualizarCategoria`: an upsert. The row with the same id, if any,
        takes all the values of the argument, whose date is refreshed first;
        otherwise the argument is inserted. */
    method ActualizarCategoria(c: Categoria, ahora: Fecha, cambios: int) returns (ok: bool)
      requires Valid()
      modifies this
      ensures Valid()
      ensures old(ExisteCategoria(c.id)) ==>
                categorias == ReplaceByKey(old(categorias), IdDeCategoria, c.(fechaCreacion := ahora))
      ensures !old(ExisteCategoria(c.id)) ==> categorias == old(categorias) + [c.(fechaCreacion := ahora)]
      ensures ok <==> cambios >= 0
    {
      var categoria := c.(fechaCreacion := ahora);
      var categoriaExistente := FirstOrDefault(categorias, CategoriaConId(categoria.id));
      if categoriaExistente.Some? {
        UniqueByReplace(categorias, IdDeCategoria, categoria);
        categorias := ReplaceByKey(categorias, IdDeCategoria, categoria);
      } else {
        categorias := categorias + [categoria];
      }
      ok := Guardar(cambios);
    }

    /** `BorrarCategoria`: removes the row with the argument's key. */
    method BorrarCategoria(c: Categoria, cambios: int) returns (ok: bool)
      requires Valid()
      modifies this
      ensures Valid()
      ensures categorias == RemoveByKey(old(categorias), IdDeCategoria, c.id)
      ensures ok <==> cambios >= 0
    {
      UniqueByWhere(categorias, IdDeCategoria, KeyIsNot(IdDeCategoria, c.id));
      categorias := RemoveByKey(categorias, IdDeCategoria, c.id);
      ok := Guardar(cambios);
    }
  }

  /** The upsert on an existing id overwrites that one row, refreshed date
      included, and no other. */
  lemma ActualizarCategoriaExistente(s: seq<Categoria>, c: Categoria, ahora: Fecha, i: int)
    requires UniqueBy(s, IdDeCategoria) && 0 <= i < |s| && s[i].id == c.id
    ensures ReplaceByKey(s, IdDeCategoria, c.(fechaCreacion := ahora)) == s[i := c.(fechaCreacion := ahora)]
  {
    ReplaceByKeyAt(s, IdDeCategoria, c.(fechaCreacion := ahora), i);
  }

  /** Deleting a stored category removes exactly its row and keeps the order of
      the others. */
  lemma BorrarCategoriaExacto(s: seq<Categoria>, i: int)
    requires UniqueBy(s, IdDeCategoria) && 0 <= i < |s|
    ensures RemoveByKey(s, IdDeCategoria, s[i].id) == s[..i] + s[i + 1..]
  {
    RemoveByKeyAt(s, IdDeCategoria, i);
  }

  // ---------------------------------------------------------------- movies

  class PeliculaRepositorio {

    /** `_bd.Peliculas`. */
    var peliculas: seq<Pelicula>

    ghost predicate Valid()
      reads this
    {
      UniqueBy(peliculas, IdDePelicula)
    }

    constructor (tabla: seq<Pelicula>)
      requires UniqueBy(tabla, IdDePelicula)
      ensures Valid() && peliculas == tabla
    {
      peliculas := tabla;
    }

    /** `ExistePelicula(int id)`. */
    predicate ExistePelicula(id: int)
      reads this
      ensures ExistePelicula(id) <==> exists i :: 0 <= i < |peliculas| && peliculas[i].id == id
    {
      Any(peliculas, PeliculaConId(id))
    }

    /** `ExistePelicula(string nombre)`: the same normalisation as categories. */
    predicate ExistePeliculaNombre(nombre: string)
      reads this
      ensures ExistePeliculaNombre(nombre) <==>
                exists i :: 0 <= i < |peliculas| && Normalize(peliculas[i].nombre) == Normalize(nombre)
    {
      Any(peliculas, PeliculaLlamada(nombre))
    }

    /** `GetPelicula(id)`: the first row with that id, or null. */
    function GetPelicula(id: int): (r: Option<Pelicula>)
      reads this
      ensures r.None? <==> !ExistePelicula(id)
      ensures r.Some? ==> exists i :: 0 <= i < |peliculas| && peliculas[i] == r.value && r.value.id == id
                                      && forall j :: 0 <= j < i ==> peliculas[j].id != id
    {
      FirstOrDefault(peliculas, PeliculaConId(id))
    }

    /** `GetPeliculas()`: the whole table ordered by name. */
    function GetPeliculas(): (r: seq<Pelicula>)
      reads this
      ensures SortedBy(r, NombreDePelicula)
      ensures multiset(r) == multiset(peliculas)
      ensures |r| == |peliculas|
    {
      OrderBy(peliculas, NombreDePelicula)
    }

    /** `BuscarPelicula(nombre)`: the movies whose normalised name contains the
        normalised query, in table order. */
    function BuscarPelicula(nombre: string): (r: seq<Pelicula>)
      reads this
      ensures forall p :: p in r <==> p in peliculas && Contains(Normalize(p.nombre), Normalize(nombre))
    {
      Where(peliculas, PeliculaCuyoNombreContiene(nombre))
    }

    /** `GetPeliculasEnCategoria(catId)`: the movies of that category, in table
        order. */
    function GetPeliculasEnCategoria(catId: int): (r: seq<Pelicula>)
      reads this
      ensures forall p :: p in r <==> p in peliculas && p.categoriaId == catId
    {
      Where(peliculas, PeliculaDeCategoria(catId))
    }

    /** A query that normalises to the empty string (empty or only white
        space) matches every movie. */
    lemma BuscarPeliculaVacia(nombre: string)
      requires AllWhiteSpace(nombre)
      ensures BuscarPelicula(nombre) == peliculas
    {
      NormalizeAllWhite(nombre);
      forall i | 0 <= i < |peliculas|
        ensures PeliculaCuyoNombreContiene(nombre)(peliculas[i])
      {
        ContainsEmpty(Normalize(peliculas[i].nombre));
      }
      WhereAll(peliculas, PeliculaCuyoNombreContiene(nombre));
    }

    /** `CrearPelicula`: stamps the creation date, adds the movie under the key
        the database assigns, and saves. */
    method CrearPelicula(p: Pelicula, idAsignado: int, ahora: Fecha, cambios: int)
      returns (ok: bool, creada: Pelicula)
      requires Valid() && !ExistePelicula(idAsignado)
      modifies this
      ensures Valid()
      ensures creada == p.(id := idAsignado, fechaCreacion := ahora)
      ensures peliculas == old(peliculas) + [creada]
      ensures ok <==> cambios >= 0
    {
      creada := p.(id := idAsignado, fechaCreacion := ahora);
      peliculas := peliculas + [creada];
      ok := Guardar(cambios);
    }

    /** `ActualizarPelicula`: stamps the date and replaces the row with the
        same id. An id not in the table leaves the table as it was; the
        handlers call this only for an id that exists. */
    method ActualizarPelicula(p: Pelicula, ahora: Fecha, cambios: int) returns (ok: bool)
      requires Valid()
      modifies this
      ensures Valid()
      ensures peliculas == ReplaceByKey(old(peliculas), IdDePelicula, p.(fechaCreacion := ahora))
      ensures ok <==> cambios >= 0
    {
      var pelicula := p.(fechaCreacion := ahora);
      UniqueByReplace(peliculas, IdDePelicula, pelicula);
      peliculas := ReplaceByKey(peliculas, IdDePelicula, pelicula);
      ok := Guardar(cambios);
    }

    /** `BorrarPelicula`: removes the row with the argument's key. */
    method BorrarPelicula(p: Pelicula, cambios: int) returns (ok: bool)
      requires Valid()
      modifies this
      ensures Valid()
      ensures peliculas == RemoveByKey(old(peliculas), IdDePelicula, p.id)
      ensures ok <==> cambios >= 0
    {
      UniqueByWhere(peliculas, IdDePelicula, KeyIsNot(IdDePelicula, p.id));
      peliculas := RemoveByKey(peliculas, IdDePelicula, p.id);
      ok := Guardar(cambios);
    }
  }

  /** Updating a stored movie replaces exactly its row. */
  lemma ActualizarPeliculaExacto(s: seq<Pelicula>, p: Pelicula, ahora: Fecha, i: int)
    requires UniqueBy(s, IdDePelicula) && 0 <= i < |s| && s[i].id == p.id
    ensures ReplaceByKey(s, IdDePelicula, p.(fechaCreacion := ahora)) == s[i := p.(fechaCreacion := ahora)]
  {
    ReplaceByKeyAt(s, IdDePelicula, p.(fechaCreacion := ahora), i);
  }

  /** Deleting a stored movie removes exactly its row. */
  lemma BorrarPeliculaExacto(s: seq<Pelicula>, i: int)
    requires UniqueBy(s, IdDePelicula) && 0 <= i < |s|
    ensures RemoveByKey(s, IdDePelicula, s[i].id) == s[..i] + s[i + 1..]
  {
    RemoveByKeyAt(s, IdDePelicula, i);
  }
}
