/**
 * `models/usuario.py`: the rules of `UsuarioSchema` and the UPDATE built by
 * `UsuarioDAO.actualizar`.
 */
module Usuario {
  import opened Base
  import opened Text
  import opened CharMaps
  import opened Schema
  import opened Sql

  /** `ROLES_USUARIO` from `config/settings.py`. */
  const Roles: seq<String> := ["admin", "supervisor", "operador"]

  const RolInvalidoMsg: String := "Rol inválido. Permitidos: " + Join(", ", Roles)

  /** `validar_rol`: the role must be one of the configured roles. */
  function ValidarRol(v: String): (r: Result<String>)
    ensures r.Ok? <==> v in Roles
    ensures r.Ok? ==> r.value == v
  {
    if v !in Roles then Err(RolInvalidoMsg) else Ok(v)
  }

  /** `validar_username`: surrounding blanks removed, lower case. */
  function ValidarUsername(v: String): (r: String)
    ensures |r| <= |v|
  {
    ToLower(Strip(v))
  }

  /** The arguments of `UsuarioSchema(...)`, with their defaults already applied. */
  datatype UsuarioInput = UsuarioInput(username: String, passwordHash: String, nombreCompleto: String, rol: String, activo: bool)

  /** The role a schema gets when none is passed. */
  const DefaultRol: String := "operador"

  /** `UsuarioSchema(...)`: every failing field, in declaration order, or the model. */
  function UsuarioSchema(inp: UsuarioInput): (r: Checked<UsuarioInput>)
  {
    var errs := LengthErrors("username", inp.username, 3, 50)
      + MinLengthErrors("password_hash", inp.passwordHash, 1)
      + LengthErrors("nombre_completo", inp.nombreCompleto, 2, 200)
      + RolErrors(inp.rol);
    if errs != [] then Rejected(errs)
    else Accepted(inp.(username := ValidarUsername(inp.username)))
  }

  function RolErrors(rol: String): (es: seq<FieldError>)
    ensures es == [] <==> rol in Roles
  {
    match ValidarRol(rol)
    case Ok(_) => []
    case Err(m) => [FieldError("rol", ValueError(m))]
  }

  /**
   * The schema accepts exactly the inputs whose raw username has 3 to 50 characters, whose
   * hash is non-empty, whose full name has 2 to 200 characters and whose role is known;
   * the username it keeps is the stripped, lower-cased one.
   */
  lemma UsuarioSchemaAcceptsIff(inp: UsuarioInput)
    ensures UsuarioSchema(inp).Accepted? <==>
      3 <= |inp.username| <= 50 && |inp.passwordHash| >= 1 && 2 <= |inp.nombreCompleto| <= 200 && inp.rol in Roles
    ensures UsuarioSchema(inp).Accepted? ==>
      UsuarioSchema(inp).value == inp.(username := ToLower(Strip(inp.username)))
  {
  }

  /**
   * The length limits apply to the username as typed, before blanks are removed: a
   * two-letter name padded with a blank passes and is kept as a two-letter username.
   */
  lemma UsernameCheckedBeforeStrip(u: String, inp: UsuarioInput)
    requires |u| == 2 && Trimmed(u) && ToLower(u) == u
    requires inp.username == u + [' '] && |inp.passwordHash| >= 1 && 2 <= |inp.nombreCompleto| <= 200
    requires inp.rol in Roles
    ensures UsuarioSchema(inp).Accepted? && UsuarioSchema(inp).value.username == u
    ensures |UsuarioSchema(inp).value.username| < 3
  {
    StripTrailingBlank(u);
  }

  lemma StripTrailingBlank(u: String)
    requires u != [] && Trimmed(u)
    ensures Strip(u + [' ']) == u
  {
    var s := u + [' '];
    assert s[0] == u[0] && s[|u| - 1] == u[|u| - 1] && IsSpace(s[|u|]);
    assert SkipBlanks(s, 0) == 0 && s[0..] == s;
    assert TrailStart(s, |s|) == |u|;
    assert s[..|u|] == u;
  }

  /** Usernames the schema produces are already normalised. */
  lemma ValidarUsernameIdempotent(v: String)
    ensures ValidarUsername(ValidarUsername(v)) == ValidarUsername(v)
  {
    var s := Strip(v);
    StripTrimmed(v);
    LowerKeepsTrimmed(s);
    StripOfTrimmed(ToLower(s));
    LowerIdempotent(s);
  }

  lemma LowerKeepsTrimmed(s: String)
    requires Trimmed(s)
    ensures Trimmed(ToLower(s))
  {
    if s != [] {
      LowerKeepsSpace(s[0]);
      LowerKeepsSpace(s[|s| - 1]);
    }
  }

  lemma LowerKeepsSpace(c: char)
    ensures IsSpace(LowerChar(c)) <==> IsSpace(c)
  {
  }

  lemma LowerIdempotent(s: String)
    ensures ToLower(ToLower(s)) == ToLower(s)
  {
  }

  // ---------------------------------------------------------------- actualizar

  /** The columns `actualizar` can set, in the order it checks its arguments. */
  const UsuarioColumns: seq<String> := ["nombre_completo", "rol", "activo", "password_hash"]

  /** The arguments that are not `None`, keyed by column, converted as `actualizar` converts them. */
  function GivenArgs(nombreCompleto: Option<String>, rol: Option<String>, activo: Option<bool>, passwordHash: Option<String>): (m: map<String, Value>)
  {
    var m0: map<String, Value> := map[];
    var m1 := if nombreCompleto.Some? then m0["nombre_completo" := VStr(Strip(nombreCompleto.value))] else m0;
    var m2 := if rol.Some? then m1["rol" := VStr(rol.value)] else m1;
    var m3 := if activo.Some? then m2["activo" := VInt(if activo.value then 1 else 0)] else m2;
    if passwordHash.Some? then m3["password_hash" := VStr(passwordHash.value)] else m3
  }

  function Keep(c: String, v: Value): Value { v }

  /**
   * `UsuarioDAO.actualizar(user_id, ...)`: one assignment per argument that is not `None`,
   * in the order nombre_completo, rol, activo, password_hash, with the name stripped and
   * `activo` as 1/0; `None` where it returns `False` without touching the database.
   */
  function ActualizarUsuario(userId: int, nombreCompleto: Option<String>, rol: Option<String>, activo: Option<bool>, passwordHash: Option<String>): (r: Option<Update>)
  {
    WhitelistUpdate(UsuarioColumns, GivenArgs(nombreCompleto, rol, activo, passwordHash), Keep, VInt(userId))
  }

  /**
   * No statement exactly when no argument is given; otherwise the statement has one
   * placeholder per parameter and `user_id` is the last parameter.
   */
  lemma ActualizarUsuarioSpec(userId: int, nombreCompleto: Option<String>, rol: Option<String>, activo: Option<bool>, passwordHash: Option<String>)
    ensures var r := ActualizarUsuario(userId, nombreCompleto, rol, activo, passwordHash);
      (r.None? <==> nombreCompleto.None? && rol.None? && activo.None? && passwordHash.None?)
      && (r.Some? ==> Marks(UpdateText("usuarios", r.value, KeyWhere("WHERE id = ", ""))) == |r.value.params|
                      && r.value.params[|r.value.params| - 1] == VInt(userId))
  {
    var datos := GivenArgs(nombreCompleto, rol, activo, passwordHash);
    GivenArgsKeys(nombreCompleto, rol, activo, passwordHash);
    ColumnsWithoutMarks();
    KeyWhereMarks("WHERE id = ", "");
    WhitelistUpdateMarks(UsuarioColumns, datos, Keep, VInt(userId), "usuarios", KeyWhere("WHERE id = ", ""));
  }

  lemma GivenArgsKeys(nombreCompleto: Option<String>, rol: Option<String>, activo: Option<bool>, passwordHash: Option<String>)
    ensures var m := GivenArgs(nombreCompleto, rol, activo, passwordHash);
      ("nombre_completo" in m <==> nombreCompleto.Some?) && ("rol" in m <==> rol.Some?)
      && ("activo" in m <==> activo.Some?) && ("password_hash" in m <==> passwordHash.Some?)
  {
  }

  lemma ColumnsWithoutMarks()
    ensures forall c :: c in UsuarioColumns ==> '?' !in c
  {
  }
}
