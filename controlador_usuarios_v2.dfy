/** `V2.UsuariosV2Controller`: registration, login and the user listing. The
    controller is built per request and carries one `RespuestaAPI` object,
    which the handlers fill in field by field and send as the body. */
module ControladorUsuariosV2 {

  import opened Wrappers
  import opened Linq
  import opened Modelos
  import opened RepositorioUsuarios

  const MsgUsuarioExiste := "El nombre de usuario ya existe"
  const MsgErrorRegistro := "Error en el registro"
  const MsgCredenciales := "El nombre de usuario o password son incorrectos"

  /** A `Task` object: what an `async` method hands back when it is called
      without `await`. */
  class Tarea<T> {
    const resultado: T

    constructor (resultado: T)
      ensures this.resultado == resultado
    {
      this.resultado := resultado;
    }
  }

  /** Whether a login answer is the failure the controller looks for. */
  predicate LoginRechazado(res: UsuarioLoginRespuesta)
  {
    res.usuario.None? || res.token == TokenVacio
  }

  class UsuariosV2Controller {

    const usRepo: UsuarioRepositorio
    const respuestaAPI: RespuestaAPI

    constructor (usRepo: UsuarioRepositorio)
      ensures this.usRepo == usRepo && fresh(respuestaAPI)
      ensures respuestaAPI.isSuccess && respuestaAPI.errorMessages == [] && respuestaAPI.result == None
    {
      this.usRepo := usRepo;
      this.respuestaAPI := new RespuestaAPI();
    }

    /** `GET api/v2/usuarios`: one DTO per user of the name-ordered listing,
        in that order. */
    method GetUsuarios() returns (r: Resultado<seq<UsuarioDto>>)
      ensures r.Respuesta? && r.estado == Status200OK && r.cuerpo.Some? && r.mensajes == []
      ensures |r.cuerpo.value| == |usRepo.usuarios|
      ensures forall i :: 0 <= i < |r.cuerpo.value| ==> r.cuerpo.value[i] == UsuarioADto(usRepo.GetUsuarios()[i])
    {
      var listaUsuarios := usRepo.GetUsuarios();
      var listaUsuariosDto: seq<UsuarioDto> := [];
      for i := 0 to |listaUsuarios|
        invariant |listaUsuariosDto| == i
        invariant forall j :: 0 <= j < i ==> listaUsuariosDto[j] == UsuarioADto(listaUsuarios[j])
      {
        listaUsuariosDto := listaUsuariosDto + [UsuarioADto(listaUsuarios[i])];
      }
      return Ok(listaUsuariosDto);
    }

    /** `POST api/v2/usuarios/Registro`, as written: the repository call is
        not awaited, so `usuario` is the task object, which is never null.
        Every name that passes the uniqueness check is answered 200 with
        `IsSuccess`, whether or not the user could be created. */
    method Registro(dto: UsuarioRegistroDto, idNuevo: string, creacion: ResultadoIdentity)
      returns (r: Resultado<RespuestaAPI>)
      requires usRepo.Valid()
      modifies usRepo, respuestaAPI
      ensures usRepo.Valid()
      ensures r == Respuesta(respuestaAPI.statusCode, Some(respuestaAPI), [])
      ensures respuestaAPI.result == old(respuestaAPI.result)
      ensures !old(usRepo.IsUniqueUser(dto.nombreUsuario)) ==>
                respuestaAPI.statusCode == Status400BadRequest && !respuestaAPI.isSuccess &&
                respuestaAPI.errorMessages == old(respuestaAPI.errorMessages) + [MsgUsuarioExiste] &&
                unchanged(usRepo)
      ensures old(usRepo.IsUniqueUser(dto.nombreUsuario)) ==>
                respuestaAPI.statusCode == Status200OK && respuestaAPI.isSuccess &&
                respuestaAPI.errorMessages == old(respuestaAPI.errorMessages) &&
                (creacion.Fallo? ==> unchanged(usRepo)) &&
                (creacion.Exito? ==> usRepo.usuarios == old(usRepo.usuarios) + [NuevoUsuario(dto, idNuevo)] &&
                                     RolAdmin in RolesEn(usRepo.rolesDe, idNuevo))
    {
      var validarNombreUsuarioUnico := usRepo.IsUniqueUser(dto.nombreUsuario);
      if !validarNombreUsuarioUnico {
        respuestaAPI.statusCode := Status400BadRequest;
        respuestaAPI.isSuccess := false;
        respuestaAPI.errorMessages := respuestaAPI.errorMessages + [MsgUsuarioExiste];
        return Respuesta(Status400BadRequest, Some(respuestaAPI), []);
      }
      var resultado := usRepo.Registro(dto, idNuevo, creacion);
      var usuario: Tarea?<ResultadoRegistro> := new Tarea(resultado);
      if usuario == null {
        // the "Error en el registro" answer: no task object is null
        assert false;
      }
      respuestaAPI.statusCode := Status200OK;
      respuestaAPI.isSuccess := true;
      return Respuesta(Status200OK, Some(respuestaAPI), []);
    }

    /** The registration with the repository call awaited: a creation that
        fails is answered 400 with "Error en el registro". */
    method RegistroEsperado(dto: UsuarioRegistroDto, idNuevo: string, creacion: ResultadoIdentity)
      returns (r: Resultado<RespuestaAPI>)
      requires usRepo.Valid()
      modifies usRepo, respuestaAPI
      ensures usRepo.Valid()
      ensures r == Respuesta(respuestaAPI.statusCode, Some(respuestaAPI), [])
      ensures respuestaAPI.result == old(respuestaAPI.result)
      ensures respuestaAPI.isSuccess <==> respuestaAPI.statusCode == Status200OK
      ensures respuestaAPI.isSuccess <==> old(usRepo.IsUniqueUser(dto.nombreUsuario)) && creacion.Exito?
      ensures !old(usRepo.IsUniqueUser(dto.nombreUsuario)) ==>
                respuestaAPI.statusCode == Status400BadRequest &&
                respuestaAPI.errorMessages == old(respuestaAPI.errorMessages) + [MsgUsuarioExiste] &&
                unchanged(usRepo)
      ensures old(usRepo.IsUniqueUser(dto.nombreUsuario)) && creacion.Fallo? ==>
                respuestaAPI.statusCode == Status400BadRequest &&
                respuestaAPI.errorMessages == old(respuestaAPI.errorMessages) + [MsgErrorRegistro] &&
                unchanged(usRepo)
      ensures old(usRepo.IsUniqueUser(dto.nombreUsuario)) && creacion.Exito? ==>
                respuestaAPI.errorMessages == old(respuestaAPI.errorMessages) &&
                usRepo.usuarios == old(usRepo.usuarios) + [NuevoUsuario(dto, idNuevo)] &&
                RolAdmin in RolesEn(usRepo.rolesDe, idNuevo)
    {
      var validarNombreUsuarioUnico := usRepo.IsUniqueUser(dto.nombreUsuario);
      if !validarNombreUsuarioUnico {
        respuestaAPI.statusCode := Status400BadRequest;
        respuestaAPI.isSuccess := false;
        respuestaAPI.errorMessages := respuestaAPI.errorMessages + [MsgUsuarioExiste];
        return Respuesta(Status400BadRequest, Some(respuestaAPI), []);
      }
      var usuario := usRepo.Registro(dto, idNuevo, creacion);
      if usuario.usuario.None? {
        respuestaAPI.statusCode := Status400BadRequest;
        respuestaAPI.isSuccess := false;
        respuestaAPI.errorMessages := respuestaAPI.errorMessages + [MsgErrorRegistro];
        return Respuesta(Status400BadRequest, Some(respuestaAPI), []);
      }
      respuestaAPI.statusCode := Status200OK;
      respuestaAPI.isSuccess := true;
      return Respuesta(Status200OK, Some(respuestaAPI), []);
    }

    /** `POST api/v2/usuarios/Login`: a missing user or an empty token is
        answered 400 with one more message; otherwise 200 with the login
        answer as `Result`. An exception of the repository escapes. */
    method Login(dto: UsuarioLoginDto, claveCorrecta: (AppUsuario, string) -> bool, ahoraUtc: Fecha)
      returns (r: Resultado<RespuestaAPI>)
      modifies respuestaAPI
      ensures old(usRepo.Login(dto, claveCorrecta, ahoraUtc)).Lanza? ==> r == Excepcion && unchanged(respuestaAPI)
      ensures old(usRepo.Login(dto, claveCorrecta, ahoraUtc)).Devuelve? ==>
                r == Respuesta(respuestaAPI.statusCode, Some(respuestaAPI), [])
      ensures old(usRepo.Login(dto, claveCorrecta, ahoraUtc)).Devuelve? &&
              LoginRechazado(old(usRepo.Login(dto, claveCorrecta, ahoraUtc)).valor) ==>
                respuestaAPI.statusCode == Status400BadRequest && !respuestaAPI.isSuccess &&
                respuestaAPI.errorMessages == old(respuestaAPI.errorMessages) + [MsgCredenciales] &&
                respuestaAPI.result == old(respuestaAPI.result)
      ensures old(usRepo.Login(dto, claveCorrecta, ahoraUtc)).Devuelve? &&
              !LoginRechazado(old(usRepo.Login(dto, claveCorrecta, ahoraUtc)).valor) ==>
                respuestaAPI.statusCode == Status200OK && respuestaAPI.isSuccess &&
                respuestaAPI.errorMessages == old(respuestaAPI.errorMessages) &&
                respuestaAPI.result == Some(old(usRepo.Login(dto, claveCorrecta, ahoraUtc)).valor)
    {
      var completado := usRepo.Login(dto, claveCorrecta, ahoraUtc);
      if completado.Lanza? {
        return Excepcion;
      }
      var respuestaLogin := completado.valor;
      if respuestaLogin.usuario.None? || respuestaLogin.token == TokenVacio {
        respuestaAPI.statusCode := Status400BadRequest;
        respuestaAPI.isSuccess := false;
        respuestaAPI.errorMessages := respuestaAPI.errorMessages + [MsgCredenciales];
        return Respuesta(Status400BadRequest, Some(respuestaAPI), []);
      }
      respuestaAPI.statusCode := Status200OK;
      respuestaAPI.isSuccess := true;
      respuestaAPI.result := Some(respuestaLogin);
      return Respuesta(Status200OK, Some(respuestaAPI), []);
    }
  }

  /** A login request as the framework serves it, with a controller built for
      it: a refused login carries exactly one message, an accepted one none. */
  method AtenderLogin(usRepo: UsuarioRepositorio, dto: UsuarioLoginDto,
                      claveCorrecta: (AppUsuario, string) -> bool, ahoraUtc: Fecha)
    returns (r: Resultado<RespuestaAPI>)
    ensures usRepo.Login(dto, claveCorrecta, ahoraUtc).Lanza? <==> r == Excepcion
    ensures r.Respuesta? ==> r.cuerpo.Some? && r.estado == r.cuerpo.value.statusCode
    ensures r.Respuesta? && r.estado == Status400BadRequest ==>
              r.cuerpo.value.errorMessages == [MsgCredenciales] && !r.cuerpo.value.isSuccess &&
              r.cuerpo.value.result == None
    ensures r.Respuesta? && r.estado != Status400BadRequest ==>
              r.estado == Status200OK && r.cuerpo.value.errorMessages == [] &&
              r.cuerpo.value.result == Some(usRepo.Login(dto, claveCorrecta, ahoraUtc).valor) &&
              usRepo.Login(dto, claveCorrecta, ahoraUtc).valor.token.Jwt?
  {
    var controlador := new UsuariosV2Controller(usRepo);
    r := controlador.Login(dto, claveCorrecta, ahoraUtc);
  }

  /** A registration request as written, served with a controller built for
      it: a duplicate name is refused with exactly the duplicate message, and
      every other name is answered 200 with no message. */
  method AtenderRegistro(usRepo: UsuarioRepositorio, dto: UsuarioRegistroDto, idNuevo: string,
                         creacion: ResultadoIdentity)
    returns (r: Resultado<RespuestaAPI>)
    requires usRepo.Valid()
    modifies usRepo
    ensures usRepo.Valid()
    ensures r.Respuesta? && r.cuerpo.Some? && r.estado == r.cuerpo.value.statusCode
    ensures r.estado == Status400BadRequest <==> !old(usRepo.IsUniqueUser(dto.nombreUsuario))
    ensures !old(usRepo.IsUniqueUser(dto.nombreUsuario)) ==>
              !r.cuerpo.value.isSuccess && r.cuerpo.value.errorMessages == [MsgUsuarioExiste]
    ensures old(usRepo.IsUniqueUser(dto.nombreUsuario)) ==>
              r.estado == Status200OK && r.cuerpo.value.isSuccess && r.cuerpo.value.errorMessages == []
  {
    var controlador := new UsuariosV2Controller(usRepo);
    r := controlador.Registro(dto, idNuevo, creacion);
  }

  /** The same request with the repository call awaited: a refusal carries
      exactly one message, the duplicate one or the registration error. */
  method AtenderRegistroEsperado(usRepo: UsuarioRepositorio, dto: UsuarioRegistroDto, idNuevo: string,
                                 creacion: ResultadoIdentity)
    returns (r: Resultado<RespuestaAPI>)
    requires usRepo.Valid()
    modifies usRepo
    ensures usRepo.Valid()
    ensures r.Respuesta? && r.cuerpo.Some? && r.estado == r.cuerpo.value.statusCode
    ensures r.estado == Status200OK <==> old(usRepo.IsUniqueUser(dto.nombreUsuario)) && creacion.Exito?
    ensures !old(usRepo.IsUniqueUser(dto.nombreUsuario)) ==>
              r.estado == Status400BadRequest && !r.cuerpo.value.isSuccess &&
              r.cuerpo.value.errorMessages == [MsgUsuarioExiste]
    ensures old(usRepo.IsUniqueUser(dto.nombreUsuario)) && creacion.Fallo? ==>
              r.estado == Status400BadRequest && !r.cuerpo.value.isSuccess &&
              r.cuerpo.value.errorMessages == [MsgErrorRegistro]
    ensures r.estado == Status200OK ==> r.cuerpo.value.errorMessages == [] && r.cuerpo.value.isSuccess
  {
    var controlador := new UsuariosV2Controller(usRepo);
    r := controlador.RegistroEsperado(dto, idNuevo, creacion);
  }

  /** The registration as written, on an empty store, with a password the
      identity store refuses: no user is stored, yet the answer is 200 with
      `IsSuccess` and no message. */
  method RegistroConClaveRechazada() returns (r: Resultado<RespuestaAPI>, usRepo: UsuarioRepositorio)
    ensures usRepo.usuarios == []
    ensures r.Respuesta? && r.estado == Status200OK && r.cuerpo.Some?
    ensures r.cuerpo.value.isSuccess && r.cuerpo.value.errorMessages == []
  {
    usRepo := new UsuarioRepositorio([], {}, map[]);
    var controlador := new UsuariosV2Controller(usRepo);
    var dto := UsuarioRegistroDto("ana", "Ana", "abc");
    r := controlador.Registro(dto, "7c9e6679-7425-40de-944b-e07fc1f90ae7",
                              Fallo(["Passwords must be at least 6 characters."]));
  }
}
