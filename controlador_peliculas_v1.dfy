/** `V1.PeliculasController`: the versioned movie handlers. Create and update
    take a form with an optional image; the image is written under
    `wwwroot/ImagenesPeliculas/` and the movie records both its local path
    and its public URL, or the placeholder URL when there is no image. The
    file write itself is not modelled; the GUID and the request's base URL
    are parameters. Unlike the unversioned controller, create and update do
    not look at the repository's result. */
module ControladorPeliculasV1 {

  import opened Wrappers
  import opened Linq
  import opened Texto
  import opened Modelos
  import opened Catalogo

  const CarpetaLocal := "wwwroot/ImagenesPeliculas/"
  const CarpetaPublica := "/ImagenesPeliculas/"
  const ImagenPorDefecto := "https://placehold.co/600x400"

  function MsgSinPeliculasEnCategoria(id: int): string
  {
    "No se encontraron películas en la categoría con ID " + IntToString(id) + "."
  }

  function MsgSinPeliculasConNombre(nombre: string): string
  {
    "No se encontraron películas con el nombre " + nombre + "."
  }

  // ---------------------------------------------------------------- image paths

  /** `pelicula.Id + Guid.NewGuid().ToString() + Path.GetExtension(FileName)`. */
  function NombreArchivo(id: int, guid: string, imagen: Archivo): string
  {
    IntToString(id) + guid + GetExtension(imagen.fileName)
  }

  /** `rutaArchivo`, the path relative to the working directory. */
  function RutaLocal(nombreArchivo: string): string
  {
    CarpetaLocal + nombreArchivo
  }

  /** The public URL under the request's scheme, host and path base. */
  function RutaPublica(baseUrl: string, nombreArchivo: string): string
  {
    baseUrl + CarpetaPublica + nombreArchivo
  }

  /** The stored file keeps the extension of the uploaded one (a GUID's text
      has no dot). */
  lemma NombreArchivoConservaExtension(id: int, guid: string, imagen: Archivo)
    requires forall k :: 0 <= k < |guid| ==> guid[k] != '.'
    ensures GetExtension(NombreArchivo(id, guid, imagen)) == GetExtension(imagen.fileName)
  {
    var a := IntToString(id) + guid;
    forall k | 0 <= k < |a|
      ensures a[k] != '.'
    {
      if k >= |IntToString(id)| {
        assert a[k] == guid[k - |IntToString(id)|];
      }
    }
    GetExtensionAppended(a, imagen.fileName);
  }

  /** The public URL is the local path with the `wwwroot` prefix replaced by
      the base URL: the static files are served from `wwwroot`. */
  lemma RutaPublicaSirveRutaLocal(baseUrl: string, nombreArchivo: string)
    ensures RutaPublica(baseUrl, nombreArchivo) == baseUrl + "/" + RutaLocal(nombreArchivo)[|"wwwroot/"|..]
  {
    assert RutaLocal(nombreArchivo)[|"wwwroot/"|..] == "ImagenesPeliculas/" + nombreArchivo;
  }

  /** The local path and the public URL end in the same file name. */
  lemma RutasMismoArchivo(baseUrl: string, nombreArchivo: string)
    ensures RutaLocal(nombreArchivo)[|CarpetaLocal|..] == nombreArchivo
    ensures RutaPublica(baseUrl, nombreArchivo)[|baseUrl + CarpetaPublica|..] == nombreArchivo
  {
    assert RutaLocal(nombreArchivo) == CarpetaLocal + nombreArchivo;
  }

  /** On create the name is built before the database assigns the key, from
      the mapped entity's default id 0: every stored name starts with '0'. */
  lemma NombreArchivoAlCrear(guid: string, imagen: Archivo)
    ensures NombreArchivo(0, guid, imagen)[0] == '0'
  {
    assert IntToString(0) == [DigitChar(0)];
  }

  class PeliculasController {

    const pelRepo: PeliculaRepositorio
    const catRepo: CategoriaRepositorio

    constructor (pelRepo: PeliculaRepositorio, catRepo: CategoriaRepositorio)
      ensures this.pelRepo == pelRepo && this.catRepo == catRepo
    {
      this.pelRepo := pelRepo;
      this.catRepo := catRepo;
    }

    /** Sets the image fields of `pelicula` field by field, as both create and
        update do before calling the repository. */
    static method AsignarImagen(pelicula: Pelicula, imagen: Option<Archivo>, guid: string, baseUrl: string)
      returns (p: Pelicula)
      ensures p.id == pelicula.id && p.nombre == pelicula.nombre && p.categoriaId == pelicula.categoriaId
      ensures p.fechaCreacion == pelicula.fechaCreacion
      ensures imagen.None? ==> p.rutaImagen == Some(ImagenPorDefecto) && p.rutaLocalImagen == pelicula.rutaLocalImagen
      ensures imagen.Some? ==>
                var nombreArchivo := NombreArchivo(pelicula.id, guid, imagen.value);
                p.rutaLocalImagen == Some(RutaLocal(nombreArchivo)) &&
                p.rutaImagen == Some(RutaPublica(baseUrl, nombreArchivo))
    {
      p := pelicula;
      if imagen.Some? {
        var nombreArchivo := IntToString(p.id) + guid + GetExtension(imagen.value.fileName);
        var rutaArchivo := CarpetaLocal + nombreArchivo;
        p := p.(rutaImagen := Some(baseUrl + CarpetaPublica + nombreArchivo));
        p := p.(rutaLocalImagen := Some(rutaArchivo));
      } else {
        p := p.(rutaImagen := Some(ImagenPorDefecto));
      }
    }

    /** `GET api/v1/peliculas`. */
    method GetPeliculas() returns (r: Resultado<seq<PeliculaDto>>)
      ensures r.Respuesta? && r.estado == Status200OK && r.cuerpo.Some? && r.mensajes == []
      ensures |r.cuerpo.value| == |pelRepo.peliculas|
      ensures forall i :: 0 <= i < |r.cuerpo.value| ==> r.cuerpo.value[i] == PeliculaADto(pelRepo.GetPeliculas()[i])
    {
      var listaPeliculas := pelRepo.GetPeliculas();
      var listaPeliculasDto: seq<PeliculaDto> := [];
      for i := 0 to |listaPeliculas|
        invariant |listaPeliculasDto| == i
        invariant forall j :: 0 <= j < i ==> listaPeliculasDto[j] == PeliculaADto(listaPeliculas[j])
      {
        listaPeliculasDto := listaPeliculasDto + [PeliculaADto(listaPeliculas[i])];
      }
      return Ok(listaPeliculasDto);
    }

    /** `GET api/v1/peliculas/{id}`. */
    method GetPelicula(idPelicula: int) returns (r: Resultado<PeliculaDto>)
      ensures r == NotFound([]) <==> !pelRepo.ExistePelicula(idPelicula)
      ensures pelRepo.ExistePelicula(idPelicula) ==>
                r.Respuesta? && r.estado == Status200OK &&
                exists i :: 0 <= i < |pelRepo.peliculas| && pelRepo.peliculas[i].id == idPelicula &&
                            r.cuerpo == Some(PeliculaADto(pelRepo.peliculas[i]))
    {
      var itemPelicula := pelRepo.GetPelicula(idPelicula);
      if itemPelicula.None? {
        return NotFound([]);
      }
      return Ok(PeliculaADto(itemPelicula.value));
    }

    /** `POST api/v1/peliculas`: past the duplicate check the movie is always
        stored and the answer is always 201, whatever the save reports. */
    method CrearPelicula(modelState: seq<string>, dto: Option<CrearPeliculaDto>, guid: string, baseUrl: string,
                         idAsignado: int, ahora: Fecha, cambios: int)
      returns (r: Resultado<Pelicula>)
      requires pelRepo.Valid() && !pelRepo.ExistePelicula(idAsignado)
      modifies pelRepo
      ensures pelRepo.Valid()
      ensures modelState != [] ==> r == BadRequest(modelState) && unchanged(pelRepo)
      ensures modelState == [] && dto.None? ==> r == BadRequest([]) && unchanged(pelRepo)
      ensures modelState == [] && dto.Some? && old(pelRepo.ExistePeliculaNombre(dto.value.nombre)) ==>
                r == StatusCode(Status404NotFound, [MsgPeliculaExiste]) && unchanged(pelRepo)
      ensures modelState == [] && dto.Some? && !old(pelRepo.ExistePeliculaNombre(dto.value.nombre)) ==>
                |pelRepo.peliculas| == |old(pelRepo.peliculas)| + 1 &&
                pelRepo.peliculas[..|old(pelRepo.peliculas)|] == old(pelRepo.peliculas) &&
                var c := pelRepo.peliculas[|old(pelRepo.peliculas)|];
                r == CreatedAtRoute(c) &&
                c.id == idAsignado && c.nombre == dto.value.nombre && c.categoriaId == dto.value.categoriaId &&
                c.fechaCreacion == ahora &&
                (dto.value.imagen.None? ==> c.rutaImagen == Some(ImagenPorDefecto) && c.rutaLocalImagen == None) &&
                (dto.value.imagen.Some? ==>
                   c.rutaLocalImagen == Some(RutaLocal(NombreArchivo(0, guid, dto.value.imagen.value))) &&
                   c.rutaImagen == Some(RutaPublica(baseUrl, NombreArchivo(0, guid, dto.value.imagen.value))))
    {
      if modelState != [] {
        return BadRequest(modelState);
      }
      if dto.None? {
        return BadRequest(modelState);
      }
      if pelRepo.ExistePeliculaNombre(dto.value.nombre) {
        return StatusCode(Status404NotFound, [MsgPeliculaExiste]);
      }
      var pelicula := CrearDtoAPelicula(dto.value);
      pelicula := AsignarImagen(pelicula, dto.value.imagen, guid, baseUrl);
      var _, creada := pelRepo.CrearPelicula(pelicula, idAsignado, ahora, cambios);
      return CreatedAtRoute(creada);
    }

    /** `PATCH api/v1/peliculas/{id}`: past the existence check the row is
        always replaced and the answer is always 204. Without an image the
        stored URL becomes the placeholder and the local path is cleared, even
        when the movie had an image. */
    method ActualizarPatchPelicula(modelState: seq<string>, idPelicula: int, dto: Option<ActualizarPeliculaDto>,
                                   guid: string, baseUrl: string, ahora: Fecha, cambios: int)
      returns (r: Resultado<Pelicula>)
      requires pelRepo.Valid()
      modifies pelRepo
      ensures pelRepo.Valid()
      ensures modelState != [] ==> r == BadRequest(modelState) && unchanged(pelRepo)
      ensures modelState == [] && (dto.None? || dto.value.id != idPelicula) ==>
                r == BadRequest([]) && unchanged(pelRepo)
      ensures modelState == [] && dto.Some? && dto.value.id == idPelicula &&
              !old(pelRepo.ExistePelicula(idPelicula)) ==>
                r == NotFound([MsgPeliculaNoEncontrada(idPelicula)]) && unchanged(pelRepo)
      ensures modelState == [] && dto.Some? && dto.value.id == idPelicula &&
              old(pelRepo.ExistePelicula(idPelicula)) ==>
                r == NoContent() &&
                exists p: Pelicula ::
                  pelRepo.peliculas == ReplaceByKey(old(pelRepo.peliculas), IdDePelicula, p) &&
                  p.id == idPelicula && p.nombre == dto.value.nombre && p.categoriaId == dto.value.categoriaId &&
                  p.fechaCreacion == ahora &&
                  (dto.value.imagen.None? ==> p.rutaImagen == Some(ImagenPorDefecto) && p.rutaLocalImagen == None) &&
                  (dto.value.imagen.Some? ==>
                     p.rutaLocalImagen == Some(RutaLocal(NombreArchivo(idPelicula, guid, dto.value.imagen.value))) &&
                     p.rutaImagen == Some(RutaPublica(baseUrl, NombreArchivo(idPelicula, guid, dto.value.imagen.value))))
    {
      if modelState != [] {
        return BadRequest(modelState);
      }
      if dto.None? || idPelicula != dto.value.id {
        return BadRequest(modelState);
      }
      if !pelRepo.ExistePelicula(idPelicula) {
        return NotFound([MsgPeliculaNoEncontrada(idPelicula)]);
      }
      var pelicula := ActualizarDtoAPelicula(dto.value);
      pelicula := AsignarImagen(pelicula, dto.value.imagen, guid, baseUrl);
      var _ := pelRepo.ActualizarPelicula(pelicula, ahora, cambios);
      return NoContent();
    }

    /** `DELETE api/v1/peliculas/{id}`. */
    method BorrarPelicula(idPelicula: int, cambios: int) returns (r: Resultado<Pelicula>)
      requires pelRepo.Valid()
      modifies pelRepo
      ensures pelRepo.Valid()
      ensures !old(pelRepo.ExistePelicula(idPelicula)) ==> r == NotFound([]) && unchanged(pelRepo)
      ensures old(pelRepo.ExistePelicula(idPelicula)) ==>
                pelRepo.peliculas == RemoveByKey(old(pelRepo.peliculas), IdDePelicula, idPelicula) &&
                r == (if cambios >= 0 then NoContent()
                      else StatusCode(Status404NotFound,
                                      [MsgErrorBorrando(old(pelRepo.GetPelicula(idPelicula)).value.nombre)]))
    {
      if !pelRepo.ExistePelicula(idPelicula) {
        return NotFound([]);
      }
      var pelicula := pelRepo.GetPelicula(idPelicula).value;
      var ok := pelRepo.BorrarPelicula(pelicula, cambios);
      if !ok {
        return StatusCode(Status404NotFound, [MsgErrorBorrando(pelicula.nombre)]);
      }
      return NoContent();
    }

    /** `GET api/v1/peliculas/BuscarPeliculaByCategoria/{id}`: as the
        unversioned handler, but the empty category's 404 names the id. */
    method BuscarPeliculaByCategoria(idCategoria: int) returns (r: Resultado<seq<PeliculaDto>>)
      ensures idCategoria <= 0 ==> r == BadRequest([])
      ensures idCategoria > 0 && !catRepo.ExisteCategoria(idCategoria) ==> r == NotFound([])
      ensures idCategoria > 0 && catRepo.ExisteCategoria(idCategoria) &&
              pelRepo.GetPeliculasEnCategoria(idCategoria) != [] ==>
                r == Ok(Select(pelRepo.GetPeliculasEnCategoria(idCategoria), PeliculaADto))
      ensures idCategoria > 0 && catRepo.ExisteCategoria(idCategoria) ==>
                (r == NotFound([MsgSinPeliculasEnCategoria(idCategoria)]) <==>
                 pelRepo.GetPeliculasEnCategoria(idCategoria) == [])
      ensures r.Respuesta? && r.estado == Status200OK ==>
                r.cuerpo.Some? && r.cuerpo.value != [] &&
                r.cuerpo.value == Select(pelRepo.GetPeliculasEnCategoria(idCategoria), PeliculaADto) &&
                forall d :: d in r.cuerpo.value ==> d.categoriaId == idCategoria
    {
      if idCategoria <= 0 {
        return BadRequest([]);
      }
      if !catRepo.ExisteCategoria(idCategoria) {
        return NotFound([]);
      }
      var listaPeliculas := pelRepo.GetPeliculasEnCategoria(idCategoria);
      if |listaPeliculas| == 0 {
        return NotFound([MsgSinPeliculasEnCategoria(idCategoria)]);
      }
      var itemPelicula := Select(listaPeliculas, PeliculaADto);
      return Ok(itemPelicula);
    }

    /** `GET api/v1/peliculas/BuscarPelicula?nombrePelicula=q`: the 404 names
        the query as it was sent. */
    method BuscarPelicula(nombrePelicula: string) returns (r: Resultado<seq<PeliculaDto>>)
      ensures r == NotFound([MsgSinPeliculasConNombre(nombrePelicula)]) <==>
                pelRepo.BuscarPelicula(nombrePelicula) == []
      ensures pelRepo.BuscarPelicula(nombrePelicula) != [] ==>
                r == Ok(Select(pelRepo.BuscarPelicula(nombrePelicula), PeliculaADto))
    {
      var resultado := pelRepo.BuscarPelicula(nombrePelicula);
      if |resultado| == 0 {
        return NotFound([MsgSinPeliculasConNombre(nombrePelicula)]);
      }
      var peliculasDto := Select(resultado, PeliculaADto);
      return Ok(peliculasDto);
    }
  }
}
