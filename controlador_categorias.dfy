/** `CategoriasController`: the HTTP handlers over the category repository.
    Each handler runs its guards in a fixed order and maps each outcome to a
    status code; a rejected request leaves the table as it was. `ModelState`
    is the list of validation errors the framework found in the body (valid
    when empty); a missing body is `None`. Past the validity guard the list
    is empty, so a handler that adds one error answers with exactly that one. */
module ControladorCategorias {

  import opened Wrappers
  import opened Linq
  import opened Texto
  import opened Modelos
  import opened Catalogo

  const MsgCategoriaExiste := "La categoría ya existe"

  function MsgCategoriaNoEncontrada(id: int): string
  {
    "No se encontró la categoría con ID " + IntToString(id)
  }

  class CategoriasController {

    const ctRepo: CategoriaRepositorio

    constructor (ctRepo: CategoriaRepositorio)
      ensures this.ctRepo == ctRepo
    {
      this.ctRepo := ctRepo;
    }

    /** `GET api/categorias`: one DTO per category of the name-ordered listing,
        in that order. */
    method GetCategorias() returns (r: Resultado<seq<CategoriaDto>>)
      ensures r.Respuesta? && r.estado == Status200OK && r.cuerpo.Some? && r.mensajes == []
      ensures |r.cuerpo.value| == |ctRepo.categorias|
      ensures forall i :: 0 <= i < |r.cuerpo.value| ==> r.cuerpo.value[i] == CategoriaADto(ctRepo.GetCategorias()[i])
      ensures SortedBy(r.cuerpo.value, NombreDeCategoriaDto)
    {
      var listaCategorias := ctRepo.GetCategorias();
      var listaCategoriasDto: seq<CategoriaDto> := [];
      for i := 0 to |listaCategorias|
        invariant |listaCategoriasDto| == i
        invariant forall j :: 0 <= j < i ==> listaCategoriasDto[j] == CategoriaADto(listaCategorias[j])
      {
        listaCategoriasDto := listaCategoriasDto + [CategoriaADto(listaCategorias[i])];
      }
      return Ok(listaCategoriasDto);
    }

    /** `GET api/categorias/{id}`: 404 without body when no category has that
        id, otherwise 200 with the DTO of the first one that has it. */
    method GetCategoria(idCategoria: int) returns (r: Resultado<CategoriaDto>)
      ensures r == NotFound([]) <==> !ctRepo.ExisteCategoria(idCategoria)
      ensures ctRepo.ExisteCategoria(idCategoria) ==>
                r.Respuesta? && r.estado == Status200OK &&
                exists i :: 0 <= i < |ctRepo.categorias| && ctRepo.categorias[i].id == idCategoria &&
                            r.cuerpo == Some(CategoriaADto(ctRepo.categorias[i]))
    {
      var itemCategoria := ctRepo.GetCategoria(idCategoria);
      if itemCategoria.None? {
        return NotFound([]);
      }
      return Ok(CategoriaADto(itemCategoria.value));
    }

    /** `POST api/categorias`. */
    method CrearCategoria(modelState: seq<string>, dto: Option<CrearCategoriaDto>,
                          idAsignado: int, ahora: Fecha, cambios: int)
      returns (r: Resultado<Categoria>)
      requires ctRepo.Valid() && !ctRepo.ExisteCategoria(idAsignado)
      modifies ctRepo
      ensures ctRepo.Valid()
      // 1. an invalid model is rejected first, with its errors
      ensures modelState != [] ==> r == BadRequest(modelState) && unchanged(ctRepo)
      // 2. then a missing body
      ensures modelState == [] && dto.None? ==> r == BadRequest([]) && unchanged(ctRepo)
      // 3. then a name that collides after lower-casing and trimming
      ensures modelState == [] && dto.Some? && old(ctRepo.ExisteCategoriaNombre(dto.value.nombre)) ==>
                r == StatusCode(Status404NotFound, [MsgCategoriaExiste]) && unchanged(ctRepo)
      // 4. otherwise the category is stored, and the save result decides 201 or 404
      ensures modelState == [] && dto.Some? && !old(ctRepo.ExisteCategoriaNombre(dto.value.nombre)) ==>
                var creada := Categoria(idAsignado, dto.value.nombre, ahora);
                ctRepo.categorias == old(ctRepo.categorias) + [creada] &&
                r == (if cambios >= 0 then CreatedAtRoute(creada)
                      else StatusCode(Status404NotFound, [MsgErrorGuardando(dto.value.nombre)]))
    {
      if modelState != [] {
        return BadRequest(modelState);
      }
      if dto.None? {
        return BadRequest(modelState);
      }
      if ctRepo.ExisteCategoriaNombre(dto.value.nombre) {
        return StatusCode(Status404NotFound, [MsgCategoriaExiste]);
      }
      var categoria := CrearDtoACategoria(dto.value);
      var ok;
      ok, categoria := ctRepo.CrearCategoria(categoria, idAsignado, ahora, cambios);
      if !ok {
        return StatusCode(Status404NotFound, [MsgErrorGuardando(categoria.nombre)]);
      }
      return CreatedAtRoute(categoria);
    }

    /** `DELETE api/categorias/{id}`. */
    method BorrarCategoria(idCategoria: int, cambios: int) returns (r: Resultado<Categoria>)
      requires ctRepo.Valid()
      modifies ctRepo
      ensures ctRepo.Valid()
      ensures !old(ctRepo.ExisteCategoria(idCategoria)) ==> r == NotFound([]) && unchanged(ctRepo)
      ensures old(ctRepo.ExisteCategoria(idCategoria)) ==>
                ctRepo.categorias == RemoveByKey(old(ctRepo.categorias), IdDeCategoria, idCategoria) &&
                r == (if cambios >= 0 then NoContent()
                      else StatusCode(Status404NotFound,
                                      [MsgErrorBorrando(old(ctRepo.GetCategoria(idCategoria)).value.nombre)]))
    {
      if !ctRepo.ExisteCategoria(idCategoria) {
        return NotFound([]);
      }
      var categoria := ctRepo.GetCategoria(idCategoria).value;
      var ok := ctRepo.BorrarCategoria(categoria, cambios);
      if !ok {
        return StatusCode(Status404NotFound, [MsgErrorBorrando(categoria.nombre)]);
      }
      return NoContent();
    }

    /** `PATCH api/categorias/{id}`. */
    method ActualizarPatchCategoria(modelState: seq<string>, idCategoria: int, dto: Option<CategoriaDto>,
                                    ahora: Fecha, cambios: int)
      returns (r: Resultado<Categoria>)
      requires ctRepo.Valid()
      modifies ctRepo
      ensures ctRepo.Valid()
      ensures modelState != [] ==> r == BadRequest(modelState) && unchanged(ctRepo)
      // a route id that differs from the body id is rejected before any lookup
      ensures modelState == [] && (dto.None? || dto.value.id != idCategoria) ==>
                r == BadRequest([]) && unchanged(ctRepo)
      ensures modelState == [] && dto.Some? && dto.value.id == idCategoria &&
              !old(ctRepo.ExisteCategoria(idCategoria)) ==>
                r == NotFound([MsgCategoriaNoEncontrada(idCategoria)]) && unchanged(ctRepo)
      ensures modelState == [] && dto.Some? && dto.value.id == idCategoria &&
              old(ctRepo.ExisteCategoria(idCategoria)) ==>
                ctRepo.categorias == ReplaceByKey(old(ctRepo.categorias), IdDeCategoria,
                                                  DtoACategoria(dto.value).(fechaCreacion := ahora)) &&
                r == (if cambios >= 0 then NoContent()
                      else StatusCode(Status500InternalServerError, [MsgErrorActualizando(dto.value.nombre)]))
    {
      if modelState != [] {
        return BadRequest(modelState);
      }
      if dto.None? || idCategoria != dto.value.id {
        return BadRequest(modelState);
      }
      if !ctRepo.ExisteCategoria(idCategoria) {
        return NotFound([MsgCategoriaNoEncontrada(idCategoria)]);
      }
      var categoria := DtoACategoria(dto.value);
      var ok := ctRepo.ActualizarCategoria(categoria, ahora, cambios);
      if !ok {
        return StatusCode(Status500InternalServerError, [MsgErrorActualizando(categoria.nombre)]);
      }
      return NoContent();
    }

    /** `PUT api/categorias/{id}`: the same guards, in the same order, with the
        same outcomes as the PATCH handler. */
    method ActualizarPutCategoria(modelState: seq<string>, idCategoria: int, dto: Option<CategoriaDto>,
                                  ahora: Fecha, cambios: int)
      returns (r: Resultado<Categoria>)
      requires ctRepo.Valid()
      modifies ctRepo
      ensures ctRepo.Valid()
      ensures modelState != [] ==> r == BadRequest(modelState) && unchanged(ctRepo)
      ensures modelState == [] && (dto.None? || dto.value.id != idCategoria) ==>
                r == BadRequest([]) && unchanged(ctRepo)
      ensures modelState == [] && dto.Some? && dto.value.id == idCategoria &&
              !old(ctRepo.ExisteCategoria(idCategoria)) ==>
                r == NotFound([MsgCategoriaNoEncontrada(idCategoria)]) && unchanged(ctRepo)
      ensures modelState == [] && dto.Some? && dto.value.id == idCategoria &&
              old(ctRepo.ExisteCategoria(idCategoria)) ==>
                ctRepo.categorias == ReplaceByKey(old(ctRepo.categorias), IdDeCategoria,
                                                  DtoACategoria(dto.value).(fechaCreacion := ahora)) &&
                r == (if cambios >= 0 then NoContent()
                      else StatusCode(Status500InternalServerError, [MsgErrorActualizando(dto.value.nombre)]))
    {
      if modelState != [] {
        return BadRequest(modelState);
      }
      if dto.None? || idCategoria != dto.value.id {
        return BadRequest(modelState);
      }
      if !ctRepo.ExisteCategoria(idCategoria) {
        return NotFound([MsgCategoriaNoEncontrada(idCategoria)]);
      }
      var categoria := DtoACategoria(dto.value);
      var ok := ctRepo.ActualizarCategoria(categoria, ahora, cambios);
      if !ok {
        return StatusCode(Status500InternalServerError, [MsgErrorActualizando(categoria.nombre)]);
      }
      return NoContent();
    }
  }

  function NombreDeCategoriaDto(d: CategoriaDto): string { d.nombre }

  /** The not-found message names the id that was asked for: two different ids
      give two different messages. */
  lemma MsgCategoriaNoEncontradaInyectiva(a: int, b: int)
    requires MsgCategoriaNoEncontrada(a) == MsgCategoriaNoEncontrada(b)
    ensures a == b
  {
    var p := "No se encontró la categoría con ID ";
    assert MsgCategoriaNoEncontrada(a)[|p|..] == IntToString(a);
    assert MsgCategoriaNoEncontrada(b)[|p|..] == IntToString(b);
    IntToStringRoundTrip(a);
    IntToStringRoundTrip(b);
  }
}
