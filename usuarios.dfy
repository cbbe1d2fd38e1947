/** `UsuarioRepositorio`: the user store of the Identity database with its
    role store. Password checking is a predicate passed in, the outcome of
    `UserManager.CreateAsync` and the new user's GUID are parameters, and the
    token is the record of its claims and expiry (signing is not modelled). */
module RepositorioUsuarios {

  import opened Wrappers
  import opened Linq
  import opened Texto
  import opened Modelos

  const RolAdmin := "Admin"
  const RolRegistrado := "Registrado"

  function UserNameEs(nombre: string): AppUsuario -> bool
  {
    (u: AppUsuario) => u.userName == nombre
  }

  /** `u.UserName.ToLower() == nombre.ToLower()`. */
  function UserNameSinMayusculas(nombre: string): AppUsuario -> bool
  {
    (u: AppUsuario) => ToLower(u.userName) == ToLower(nombre)
  }

  /** `GetRolesAsync`: the roles of a user, in the order they were given. */
  function RolesEn(rolesDe: map<string, seq<string>>, id: string): seq<string>
  {
    if id in rolesDe then rolesDe[id] else []
  }

  /** `AddToRoleAsync`: a user already in the role is left as is. */
  function AgregarARol(rolesDe: map<string, seq<string>>, id: string, rol: string): (r: map<string, seq<string>>)
    ensures rol in RolesEn(r, id)
    ensures forall otro :: otro != id ==> RolesEn(r, otro) == RolesEn(rolesDe, otro)
    ensures forall x :: x in RolesEn(rolesDe, id) ==> x in RolesEn(r, id)
    ensures forall x :: x in RolesEn(r, id) ==> x in RolesEn(rolesDe, id) || x == rol
  {
    if rol in RolesEn(rolesDe, id) then rolesDe else rolesDe[id := RolesEn(rolesDe, id) + [rol]]
  }

  /** Adding a user to a role twice is adding it once. */
  lemma AgregarARolIdempotente(rolesDe: map<string, seq<string>>, id: string, rol: string)
    ensures AgregarARol(AgregarARol(rolesDe, id, rol), id, rol) == AgregarARol(rolesDe, id, rol)
  {
  }

  /** Adding a user to a role the role store holds keeps every assigned
      role in the store. */
  lemma AgregarARolConservaRoles(rolesDe: map<string, seq<string>>, roles: set<string>, id: string, rol: string)
    requires forall u, x :: u in rolesDe && x in rolesDe[u] ==> x in roles
    requires rol in roles
    ensures var r := AgregarARol(rolesDe, id, rol);
            forall u, x :: u in r && x in r[u] ==> x in roles
  {
    var r := AgregarARol(rolesDe, id, rol);
    forall u, x | u in r && x in r[u] ensures x in roles {
      assert r[u] == RolesEn(r, u);
      if u != id {
        assert RolesEn(r, u) == RolesEn(rolesDe, u);
      }
    }
  }

  /** The user record `Registro` builds from the form: the user name doubles
      as e-mail, and the normalised e-mail is its upper-case form. */
  function NuevoUsuario(dto: UsuarioRegistroDto, id: string): (u: AppUsuario)
    ensures u.userName == dto.nombreUsuario && u.email == dto.nombreUsuario && u.nombre == dto.nombre
    ensures |u.normalizedEmail| == |dto.nombreUsuario|
    ensures forall i :: 0 <= i < |u.normalizedEmail| ==> u.normalizedEmail[i] == ToUpperChar(dto.nombreUsuario[i])
  {
    AppUsuario(id, dto.nombreUsuario, dto.nombreUsuario, ToUpper(dto.nombreUsuario), dto.nombre)
  }

  /** The answer of a failed login: an empty token and no user. */
  const LoginFallido := UsuarioLoginRespuesta(TokenVacio, None)

  class UsuarioRepositorio {

    /** `_bd.Usuarios`, in table order. */
    var usuarios: seq<AppUsuario>
    /** The names of the roles the role store holds. */
    var roles: set<string>
    /** The roles of each user, by user id. */
    var rolesDe: map<string, seq<string>>

    /** Every role a user holds exists in the role store. */
    ghost predicate Valid()
      reads this
    {
      forall id, rol :: id in rolesDe && rol in rolesDe[id] ==> rol in roles
    }

    constructor (usuarios: seq<AppUsuario>, roles: set<string>, rolesDe: map<string, seq<string>>)
      requires forall id, rol :: id in rolesDe && rol in rolesDe[id] ==> rol in roles
      ensures Valid()
      ensures this.usuarios == usuarios && this.roles == roles && this.rolesDe == rolesDe
    {
      this.usuarios := usuarios;
      this.roles := roles;
      this.rolesDe := rolesDe;
    }

    /** `GetUsuarios()`: every user, ordered by user name. */
    function GetUsuarios(): (r: seq<AppUsuario>)
      reads this
      ensures SortedBy(r, UserNameDe)
      ensures multiset(r) == multiset(usuarios)
      ensures |r| == |usuarios|
    {
      OrderBy(usuarios, UserNameDe)
    }

    /** `IsUniqueUser(usuario)`: no stored user name equals `usuario`
        exactly; the comparison is case-sensitive. */
    predicate IsUniqueUser(usuario: string)
      reads this
      ensures IsUniqueUser(usuario) <==> forall i :: 0 <= i < |usuarios| ==> usuarios[i].userName != usuario
    {
      var usuarioBd := FirstOrDefault(usuarios, UserNameEs(usuario));
      usuarioBd.None?
    }

    /** The lookup of `Login`: the first user whose name equals the given
        one once both are lower-cased. */
    function BuscarParaLogin(nombre: string): (r: Option<AppUsuario>)
      reads this
      ensures r.None? <==> forall i :: 0 <= i < |usuarios| ==> ToLower(usuarios[i].userName) != ToLower(nombre)
      ensures r.Some? ==> r.value in usuarios && ToLower(r.value.userName) == ToLower(nombre)
    {
      FirstOrDefault(usuarios, UserNameSinMayusculas(nombre))
    }

    /** `Login(dto)`. An unknown name or a wrong password gives the failed
        answer. Otherwise the token carries the user name and the user's first
        role, and expires seven days after `ahoraUtc`; a user without any role
        makes `new Claim(ClaimTypes.Role, null)` throw. */
    function Login(dto: UsuarioLoginDto, claveCorrecta: (AppUsuario, string) -> bool, ahoraUtc: Fecha)
      : (r: Completado<UsuarioLoginRespuesta>)
      reads this
      ensures BuscarParaLogin(dto.nombreUsuario).None? ==> r == Devuelve(LoginFallido)
      ensures BuscarParaLogin(dto.nombreUsuario).Some? ==>
                var u := BuscarParaLogin(dto.nombreUsuario).value;
                (!claveCorrecta(u, dto.password) ==> r == Devuelve(LoginFallido)) &&
                (claveCorrecta(u, dto.password) && RolesEn(rolesDe, u.id) == [] ==> r == Lanza) &&
                (claveCorrecta(u, dto.password) && RolesEn(rolesDe, u.id) != [] ==>
                   r.Devuelve? && r.valor.usuario == Some(UsuarioADatos(u)) &&
                   r.valor.token == Jwt([Claim(ClaimTypesName, u.userName),
                                         Claim(ClaimTypesRole, RolesEn(rolesDe, u.id)[0])],
                                        ahoraUtc + SieteDias))
    {
      var usuario := BuscarParaLogin(dto.nombreUsuario);
      var isValid := usuario.Some? && claveCorrecta(usuario.value, dto.password);
      if !isValid then Devuelve(LoginFallido)
      else
        var roles := RolesEn(rolesDe, usuario.value.id);
        if roles == [] then Lanza
        else
          var claims := [Claim(ClaimTypesName, usuario.value.userName), Claim(ClaimTypesRole, roles[0])];
          Devuelve(UsuarioLoginRespuesta(Jwt(claims, ahoraUtc + SieteDias), Some(UsuarioADatos(usuario.value))))
    }

    /** `Registro(dto)`. A failed creation returns its errors and changes
        nothing. Otherwise the user is stored, the two roles are created where
        missing, the user is added to "Admin", and the answer is the view of
        the first stored user with that exact name. */
    method Registro(dto: UsuarioRegistroDto, idNuevo: string, creacion: ResultadoIdentity)
      returns (r: ResultadoRegistro)
      requires Valid()
      modifies this
      ensures Valid()
      ensures creacion.Fallo? ==> r == ResultadoRegistro(None, Some(creacion.errores)) && unchanged(this)
      ensures creacion.Exito? ==>
                usuarios == old(usuarios) + [NuevoUsuario(dto, idNuevo)] &&
                roles == old(roles) + {RolAdmin, RolRegistrado} &&
                rolesDe == AgregarARol(old(rolesDe), idNuevo, RolAdmin) &&
                r.errores == None && r.usuario.Some? &&
                exists i :: 0 <= i < |usuarios| && usuarios[i].userName == dto.nombreUsuario &&
                            r.usuario.value == UsuarioADatos(usuarios[i]) &&
                            forall j :: 0 <= j < i ==> usuarios[j].userName != dto.nombreUsuario
    {
      var usuario := NuevoUsuario(dto, idNuevo);
      if creacion.Fallo? {
        var errores := creacion.errores;
        return ResultadoRegistro(None, Some(errores));
      }
      usuarios := usuarios + [usuario];
      if RolAdmin !in roles {
        roles := roles + {RolAdmin};
      }
      if RolRegistrado !in roles {
        roles := roles + {RolRegistrado};
      }
      AgregarARolConservaRoles(rolesDe, roles, usuario.id, RolAdmin);
      rolesDe := AgregarARol(rolesDe, usuario.id, RolAdmin);
      assert usuarios[|usuarios| - 1].userName == dto.nombreUsuario;
      var usuarioRetornado := FirstOrDefault(usuarios, UserNameEs(dto.nombreUsuario)).value;
      return ResultadoRegistro(Some(UsuarioADatos(usuarioRetornado)), None);
    }
  }

  /** A name that is not unique is always found by the login lookup: exact
      equality implies equality after lower-casing. */
  lemma NoUnicoEncontradoEnLogin(repo: UsuarioRepositorio, nombre: string)
    requires !repo.IsUniqueUser(nombre)
    ensures repo.BuscarParaLogin(nombre).Some?
  {
    var i :| 0 <= i < |repo.usuarios| && repo.usuarios[i].userName == nombre;
    assert ToLower(repo.usuarios[i].userName) == ToLower(nombre);
  }

  /** The converse fails: with "Ana" stored, "ana" passes the uniqueness
      check and still logs in as "Ana". */
  lemma UnicidadDistingueMayusculas(repo: UsuarioRepositorio)
    requires repo.usuarios == [AppUsuario("1", "Ana", "Ana", "ANA", "Ana")]
    ensures repo.IsUniqueUser("ana")
    ensures repo.BuscarParaLogin("ana") == Some(repo.usuarios[0])
  {
    assert "Ana" != "ana" by {
      assert "Ana"[0] != "ana"[0];
    }
    assert ToLower("Ana") == ToLower("ana") by {
      assert ToLowerChar('A') == 'a';
      assert |ToLower("Ana")| == 3 && |ToLower("ana")| == 3;
    }
  }

  /** Both fields of a login answer agree: the token is empty exactly when
      there is no user. */
  lemma LoginFallidoCompleto(repo: UsuarioRepositorio, dto: UsuarioLoginDto,
                             claveCorrecta: (AppUsuario, string) -> bool, ahoraUtc: Fecha)
    requires repo.Login(dto, claveCorrecta, ahoraUtc).Devuelve?
    ensures var res := repo.Login(dto, claveCorrecta, ahoraUtc).valor;
            res.token == TokenVacio <==> res.usuario == None
  {
  }

  /** The role claim names a role the role store holds, and the name claim
      names a user found case-insensitively. */
  lemma LoginRolExiste(repo: UsuarioRepositorio, dto: UsuarioLoginDto,
                       claveCorrecta: (AppUsuario, string) -> bool, ahoraUtc: Fecha)
    requires repo.Valid()
    requires repo.Login(dto, claveCorrecta, ahoraUtc).Devuelve?
    requires repo.Login(dto, claveCorrecta, ahoraUtc).valor.token.Jwt?
    ensures var t := repo.Login(dto, claveCorrecta, ahoraUtc).valor.token;
            |t.claims| == 2 && t.claims[1].tipo == ClaimTypesRole && t.claims[1].valor in repo.roles &&
            t.claims[0].tipo == ClaimTypesName && ToLower(t.claims[0].valor) == ToLower(dto.nombreUsuario) &&
            t.expira == ahoraUtc + SieteDias
  {
    var u := repo.BuscarParaLogin(dto.nombreUsuario).value;
    var rs := RolesEn(repo.rolesDe, u.id);
    assert rs[0] in repo.rolesDe[u.id];
  }
}
