/** Entities, DTOs and the response shapes of the catalogue API. Entities are
    values: a repository stores them in a table and hands back copies. */
module Modelos {

  import opened Wrappers
  import Texto

  /** A clock reading (`DateTime`), in seconds. */
  type Fecha = int

  /** The `DateTime` a freshly mapped entity carries before it is stamped. */
  const FechaPorDefecto: Fecha := 0

  // ---------------------------------------------------------------- categories

  datatype Categoria = Categoria(id: int, nombre: string, fechaCreacion: Fecha)

  datatype CategoriaDto = CategoriaDto(id: int, nombre: string, fechaCreacion: Fecha)

  datatype CrearCategoriaDto = CrearCategoriaDto(nombre: string)

  function IdDeCategoria(c: Categoria): int { c.id }

  function NombreDeCategoria(c: Categoria): string { c.nombre }

  /** `_mapper.Map<CategoriaDto>(categoria)`: field by field. */
  function CategoriaADto(c: Categoria): CategoriaDto
  {
    CategoriaDto(c.id, c.nombre, c.fechaCreacion)
  }

  /** `_mapper.Map<Categoria>(categoriaDto)`, the reverse map. */
  function DtoACategoria(d: CategoriaDto): Categoria
  {
    Categoria(d.id, d.nombre, d.fechaCreacion)
  }

  /** `_mapper.Map<Categoria>(crearCategoriaDto)`: only the name is carried. */
  function CrearDtoACategoria(d: CrearCategoriaDto): Categoria
  {
    Categoria(0, d.nombre, FechaPorDefecto)
  }

  /** The two category maps are inverse to each other. */
  lemma CategoriaMapeoInverso(c: Categoria, d: CategoriaDto)
    ensures DtoACategoria(CategoriaADto(c)) == c
    ensures CategoriaADto(DtoACategoria(d)) == d
  {
  }

  // ---------------------------------------------------------------- movies

  /** An uploaded file (`IFormFile`); only its client-side name is modelled. */
  datatype Archivo = Archivo(fileName: string)

  datatype Pelicula = Pelicula(
    id: int,
    nombre: string,
    rutaImagen: Option<string>,
    rutaLocalImagen: Option<string>,
    categoriaId: int,
    fechaCreacion: Fecha)

  datatype PeliculaDto = PeliculaDto(
    id: int,
    nombre: string,
    rutaImagen: Option<string>,
    rutaLocalImagen: Option<string>,
    categoriaId: int,
    fechaCreacion: Fecha)

  datatype CrearPeliculaDto = CrearPeliculaDto(nombre: string, categoriaId: int, imagen: Option<Archivo>)

  datatype ActualizarPeliculaDto = ActualizarPeliculaDto(id: int, nombre: string, categoriaId: int, imagen: Option<Archivo>)

  function IdDePelicula(p: Pelicula): int { p.id }

  function NombreDePelicula(p: Pelicula): string { p.nombre }

  function PeliculaADto(p: Pelicula): PeliculaDto
  {
    PeliculaDto(p.id, p.nombre, p.rutaImagen, p.rutaLocalImagen, p.categoriaId, p.fechaCreacion)
  }

  function DtoAPelicula(d: PeliculaDto): Pelicula
  {
    Pelicula(d.id, d.nombre, d.rutaImagen, d.rutaLocalImagen, d.categoriaId, d.fechaCreacion)
  }

  /** The uploaded file has no counterpart on the entity: image paths start null. */
  function CrearDtoAPelicula(d: CrearPeliculaDto): Pelicula
  {
    Pelicula(0, d.nombre, None, None, d.categoriaId, FechaPorDefecto)
  }

  function ActualizarDtoAPelicula(d: ActualizarPeliculaDto): Pelicula
  {
    Pelicula(d.id, d.nombre, None, None, d.categoriaId, FechaPorDefecto)
  }

  /** The two movie maps are inverse to each other. */
  lemma PeliculaMapeoInverso(p: Pelicula, d: PeliculaDto)
    ensures DtoAPelicula(PeliculaADto(p)) == p
    ensures PeliculaADto(DtoAPelicula(d)) == d
  {
  }

  // ---------------------------------------------------------------- users

  /** `AppUsuario`: the Identity user with the display name added. */
  datatype AppUsuario = AppUsuario(
    id: string,
    userName: string,
    email: string,
    normalizedEmail: string,
    nombre: string)

  /** The public view of a user returned by login and registration. */
  datatype UsuarioDatosDto = UsuarioDatosDto(id: string, userName: string, nombre: string)

  /** The view listed by `GetUsuarios`. */
  datatype UsuarioDto = UsuarioDto(id: string, userName: string, nombre: string)

  datatype UsuarioRegistroDto = UsuarioRegistroDto(nombreUsuario: string, nombre: string, password: string)

  datatype UsuarioLoginDto = UsuarioLoginDto(nombreUsuario: string, password: string)

  function UserNameDe(u: AppUsuario): string { u.userName }

  function UsuarioADatos(u: AppUsuario): UsuarioDatosDto
  {
    UsuarioDatosDto(u.id, u.userName, u.nombre)
  }

  function UsuarioADto(u: AppUsuario): UsuarioDto
  {
    UsuarioDto(u.id, u.userName, u.nombre)
  }

  /** A claim of the token: its type URI and its value. */
  datatype Claim = Claim(tipo: string, valor: string)

  const ClaimTypesName := "http://schemas.xmlsoap.org/ws/2005/05/identity/claims/name"
  const ClaimTypesRole := "http://schemas.microsoft.com/ws/2008/06/identity/claims/role"

  /** The bearer token: the empty string of a failed login, or the claims and
      expiry of a token signed with the configured secret. */
  datatype Token = TokenVacio | Jwt(claims: seq<Claim>, expira: Fecha)

  datatype UsuarioLoginRespuesta = UsuarioLoginRespuesta(token: Token, usuario: Option<UsuarioDatosDto>)

  /** Seven days, the lifetime of a token, in clock units (seconds). */
  const SieteDias: Fecha := 7 * 24 * 60 * 60

  /** An `IdentityResult`: success, or the descriptions of its errors in order. */
  datatype ResultadoIdentity = Exito | Fallo(errores: seq<string>)

  /** The `(UsuarioDatosDto Usuario, List<string> Errores)` pair of a
      registration; `None` stands for null. */
  datatype ResultadoRegistro = ResultadoRegistro(usuario: Option<UsuarioDatosDto>, errores: Option<seq<string>>)

  /** How a call ends: it returns a value or throws. */
  datatype Completado<T> = Devuelve(valor: T) | Lanza

  /** The envelope the V2 user controller answers with. */
  class RespuestaAPI {
    var statusCode: int
    var isSuccess: bool
    var errorMessages: seq<string>
    var result: Option<UsuarioLoginRespuesta>

    constructor ()
      ensures statusCode == 0 && isSuccess && errorMessages == [] && result == None
    {
      statusCode := 0;
      isSuccess := true;
      errorMessages := [];
      result := None;
    }
  }

  // ---------------------------------------------------------------- responses

  const Status200OK := 200
  const Status201Created := 201
  const Status204NoContent := 204
  const Status400BadRequest := 400
  const Status404NotFound := 404
  const Status500InternalServerError := 500

  /** An `IActionResult`: a status code, an optional body and the messages the
      body carries (the ModelState errors or a plain text), or an exception that
      escaped the handler, which the framework answers with a 500. */
  datatype Resultado<T> =
    | Respuesta(estado: int, cuerpo: Option<T>, mensajes: seq<string>)
    | Excepcion

  function Ok<T>(x: T): Resultado<T> { Respuesta(Status200OK, Some(x), []) }

  function CreatedAtRoute<T>(x: T): Resultado<T> { Respuesta(Status201Created, Some(x), []) }

  function NoContent<T>(): Resultado<T> { Respuesta(Status204NoContent, None, []) }

  function BadRequest<T>(modelState: seq<string>): Resultado<T> { Respuesta(Status400BadRequest, None, modelState) }

  function NotFound<T>(mensajes: seq<string>): Resultado<T> { Respuesta(Status404NotFound, None, mensajes) }

  function StatusCode<T>(estado: int, mensajes: seq<string>): Resultado<T> { Respuesta(estado, None, mensajes) }

  // ---------------------------------------------------------------- messages shared by the catalogue handlers

  function MsgErrorGuardando(nombre: string): string
  {
    "Algo salió mal guardando el registro " + nombre
  }

  function MsgErrorBorrando(nombre: string): string
  {
    "Algo salió mal borrando el registro " + nombre
  }

  function MsgErrorActualizando(nombre: string): string
  {
    "Algo salió mal actualizando el registro " + nombre
  }

  const MsgPeliculaExiste := "La película ya existe"

  function MsgPeliculaNoEncontrada(id: int): string
  {
    "No se encontró la película con ID " + Texto.IntToString(id)
  }
}
