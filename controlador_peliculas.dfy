/** `PeliculasController`: the movie handlers over the movie repository, with
    the category repository consulted by the per-category listing. The guards
    run in a fixed order; a rejected request leaves the movie table as it was.
    `ModelState` is the list of validation errors (valid when empty); a
    missing body is `None`. */
module ControladorPeliculas {

  import opened Wrappers
  import opened Linq
  import opened Texto
  import opened Modelos
  import opened Catalogo

  class PeliculasController {

    const pelRepo: PeliculaRepositorio
    const catRepo: CategoriaRepositorio

    constructor (pelRepo: PeliculaRepositorio, catRepo: CategoriaRepositorio)
      ensures this.pelRepo == pelRepo && this.catRepo == catRepo
    {
      this.pelRepo := pelRepo;
      this.catRepo := catRepo;
    }

    /** The `foreach`/`Add` loop that maps a listing to DTOs, one per movie,
        in order. */
    static method MapearPeliculas(lista: seq<Pelicula>) returns (dtos: seq<PeliculaDto>)
      ensures dtos == Select(lista, PeliculaADto)
    {
      dtos := [];
      for i := 0 to |lista|
        invariant dtos == Select(lista[..i], PeliculaADto)
      {
        assert lista[..i + 1] == lista[..i] + [lista[i]];
        SelectSnoc(lista[..i], lista[i], PeliculaADto);
        dtos := dtos + [PeliculaADto(lista[i])];
      }
      assert lista[..|lista|] == lista;
    }

    /** `GET api/peliculas`: the name-ordered listing, one DTO per movie. */
    method GetPeliculas() returns (r: Resultado<seq<PeliculaDto>>)
      ensures r.Respuesta? && r.estado == Status200OK && r.cuerpo.Some? && r.mensajes == []
      ensures |r.cuerpo.value| == |pelRepo.peliculas|
      ensures forall i :: 0 <= i < |r.cuerpo.value| ==> r.cuerpo.value[i] == PeliculaADto(pelRepo.GetPeliculas()[i])
      ensures SortedBy(r.cuerpo.value, NombreDePeliculaDto)
    {
      var listaPeliculas := pelRepo.GetPeliculas();
      var listaPeliculasDto := MapearPeliculas(listaPeliculas);
      return Ok(listaPeliculasDto);
    }

    /** `GET api/peliculas/{id}`. */
    method GetPelicula(idPelicula: int) returns (r: Resultado<PeliculaDto>)
      ensures r == NotFound([]) <==> !pelRepo.ExistePelicula(idPelicula)
      ensures pelRepo.ExistePelicula(idPelicula) ==>
                r.Respuesta? && r.estado == Status200OK &&
                exists i :: 0 <= i < |pelRepo.peliculas| && pelRepo.peliculas[i].id == idPelicula &&
                            r.cuerpo == Some(PeliculaADto(pelRepo.peliculas[i]))
    {
      var itemPelicula := pelRepo.GetPelicula(idPelicula);
      if itemPelicula.None? {
        return NotFound([]);
      }
      return Ok(PeliculaADto(itemPelicula.value));
    }

    /** `POST api/peliculas`. */
    method CrearPelicula(modelState: seq<string>, dto: Option<CrearPeliculaDto>,
                         idAsignado: int, ahora: Fecha, cambios: int)
      returns (r: Resultado<Pelicula>)
      requires pelRepo.Valid() && !pelRepo.ExistePelicula(idAsignado)
      modifies pelRepo
      ensures pelRepo.Valid()
      ensures modelState != [] ==> r == BadRequest(modelState) && unchanged(pelRepo)
      ensures modelState == [] && dto.None? ==> r == BadRequest([]) && unchanged(pelRepo)
      ensures modelState == [] && dto.Some? && old(pelRepo.ExistePeliculaNombre(dto.value.nombre)) ==>
                r == StatusCode(Status404NotFound, [MsgPeliculaExiste]) && unchanged(pelRepo)
      ensures modelState == [] && dto.Some? && !old(pelRepo.ExistePeliculaNombre(dto.value.nombre)) ==>
                var creada := Pelicula(idAsignado, dto.value.nombre, None, None, dto.value.categoriaId, ahora);
                pelRepo.peliculas == old(pelRepo.peliculas) + [creada] &&
                r == (if cambios >= 0 then CreatedAtRoute(creada)
                      else StatusCode(Status404NotFound, [MsgErrorGuardando(dto.value.nombre)]))
    {
      if modelState != [] {
        return BadRequest(modelState);
      }
      if dto.None? {
        return BadRequest(modelState);
      }
      if pelRepo.ExistePeliculaNombre(dto.value.nombre) {
        return StatusCode(Status404NotFound, [MsgPeliculaExiste]);
      }
      var pelicula := CrearDtoAPelicula(dto.value);
      var ok;
      ok, pelicula := pelRepo.CrearPelicula(pelicula, idAsignado, ahora, cambios);
      if !ok {
        return StatusCode(Status404NotFound, [MsgErrorGuardando(pelicula.nombre)]);
      }
      return CreatedAtRoute(pelicula);
    }

    /** `PATCH api/peliculas/{id}`. */
    method ActualizarPatchPelicula(modelState: seq<string>, idPelicula: int, dto: Option<PeliculaDto>,
                                   ahora: Fecha, cambios: int)
      returns (r: Resultado<Pelicula>)
      requires pelRepo.Valid()
      modifies pelRepo
      ensures pelRepo.Valid()
      ensures modelState != [] ==> r == BadRequest(modelState) && unchanged(pelRepo)
      ensures modelState == [] && (dto.None? || dto.value.id != idPelicula) ==>
                r == BadRequest([]) && unchanged(pelRepo)
      ensures modelState == [] && dto.Some? && dto.value.id == idPelicula &&
              !old(pelRepo.ExistePelicula(idPelicula)) ==>
                r == NotFound([MsgPeliculaNoEncontrada(idPelicula)]) && unchanged(pelRepo)
      ensures modelState == [] && dto.Some? && dto.value.id == idPelicula &&
              old(pelRepo.ExistePelicula(idPelicula)) ==>
                pelRepo.peliculas == ReplaceByKey(old(pelRepo.peliculas), IdDePelicula,
                                                  DtoAPelicula(dto.value).(fechaCreacion := ahora)) &&
                r == (if cambios >= 0 then NoContent()
                      else StatusCode(Status500InternalServerError, [MsgErrorActualizando(dto.value.nombre)]))
    {
      if modelState != [] {
        return BadRequest(modelState);
      }
      if dto.None? || idPelicula != dto.value.id {
        return BadRequest(modelState);
      }
      if !pelRepo.ExistePelicula(idPelicula) {
        return NotFound([MsgPeliculaNoEncontrada(idPelicula)]);
      }
      var pelicula := DtoAPelicula(dto.value);
      var ok := pelRepo.ActualizarPelicula(pelicula, ahora, cambios);
      if !ok {
        return StatusCode(Status500InternalServerError, [MsgErrorActualizando(pelicula.nombre)]);
      }
      return NoContent();
    }

    /** `DELETE api/peliculas/{id}`. */
    method BorrarPelicula(idPelicula: int, cambios: int) returns (r: Resultado<Pelicula>)
      requires pelRepo.Valid()
      modifies pelRepo
      ensures pelRepo.Valid()
      ensures !old(pelRepo.ExistePelicula(idPelicula)) ==> r == NotFound([]) && unchanged(pelRepo)
      ensures old(pelRepo.ExistePelicula(idPelicula)) ==>
                pelRepo.peliculas == RemoveByKey(old(pelRepo.peliculas), IdDePelicula, idPelicula) &&
                r == (if cambios >= 0 then NoContent()
                      else StatusCode(Status404NotFound,
                                      [MsgErrorBorrando(old(pelRepo.GetPelicula(idPelicula)).value.nombre)]))
    {
      if !pelRepo.ExistePelicula(idPelicula) {
        return NotFound([]);
      }
      var pelicula := pelRepo.GetPelicula(idPelicula).value;
      var ok := pelRepo.BorrarPelicula(pelicula, cambios);
      if !ok {
        return StatusCode(Status404NotFound, [MsgErrorBorrando(pelicula.nombre)]);
      }
      return NoContent();
    }

    /** `GET api/peliculas/BuscarPeliculaByCategoria/{id}`: 400 for a
        non-positive id, then 404 for an unknown category, then 404 when the
        category has no movie, otherwise 200 with the category's movies in
        table order. */
    method BuscarPeliculaByCategoria(idCategoria: int) returns (r: Resultado<seq<PeliculaDto>>)
      ensures idCategoria <= 0 ==> r == BadRequest([])
      ensures idCategoria > 0 && !catRepo.ExisteCategoria(idCategoria) ==> r == NotFound([])
      ensures idCategoria > 0 && catRepo.ExisteCategoria(idCategoria) &&
              pelRepo.GetPeliculasEnCategoria(idCategoria) != [] ==>
                r == Ok(Select(pelRepo.GetPeliculasEnCategoria(idCategoria), PeliculaADto))
      ensures idCategoria > 0 && catRepo.ExisteCategoria(idCategoria) ==>
                (r == NotFound([]) <==> pelRepo.GetPeliculasEnCategoria(idCategoria) == [])
      ensures r.Respuesta? && r.estado == Status200OK ==>
                r.cuerpo.Some? && r.cuerpo.value != [] &&
                r.cuerpo.value == Select(pelRepo.GetPeliculasEnCategoria(idCategoria), PeliculaADto) &&
                forall d :: d in r.cuerpo.value ==> d.categoriaId == idCategoria
    {
      if idCategoria <= 0 {
        return BadRequest([]);
      }
      if !catRepo.ExisteCategoria(idCategoria) {
        return NotFound([]);
      }
      var listaPeliculas := pelRepo.GetPeliculasEnCategoria(idCategoria);
      if |listaPeliculas| == 0 {
        return NotFound([]);
      }
      var listAuxPeliculas := MapearPeliculas(listaPeliculas);
      return Ok(listAuxPeliculas);
    }

    /** `GET api/peliculas/BuscarPelicula?nombrePelicula=q`: 404 when no
        movie name contains the query, otherwise 200 with one DTO per match in
        table order. */
    method BuscarPelicula(nombrePelicula: string) returns (r: Resultado<seq<PeliculaDto>>)
      ensures r == NotFound([]) <==> pelRepo.BuscarPelicula(nombrePelicula) == []
      ensures r != NotFound([]) ==>
                r.Respuesta? && r.estado == Status200OK && r.cuerpo.Some? &&
                r.cuerpo.value == Select(pelRepo.BuscarPelicula(nombrePelicula), PeliculaADto)
    {
      var resultado := pelRepo.BuscarPelicula(nombrePelicula);
      if |resultado| == 0 {
        return NotFound([]);
      }
      var listaPeliculasDto := MapearPeliculas(resultado);
      return Ok(listaPeliculasDto);
    }
  }

  function NombreDePeliculaDto(d: PeliculaDto): string { d.nombre }
}
