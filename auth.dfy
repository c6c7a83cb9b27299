/**
 * `controllers/auth_controller.py`: the role table of `SessionInfo.tiene_permiso` and the
 * login lockout state machine of `AuthController`. The `usuarios` rows the controller reads
 * and updates through `UsuarioDAO` are a map from username to row; the clock is a parameter
 * `now` in whole seconds, and bcrypt's check is a function parameter.
 */
module Auth {
  import opened Base
  import opened Text
  import opened Exceptions
  import opened Encryption
  import opened Usuario

  // ---------------------------------------------------------------- tiene_permiso

  /** `permisos_por_rol`: the permissions of each known role. */
  function PermisosPorRol(rol: String): seq<String>
  {
    if rol == "admin" then ["admin", "escritura", "lectura", "eliminar", "configurar", "exportar"]
    else if rol == "supervisor" then ["escritura", "lectura", "exportar"]
    else if rol == "operador" then ["escritura", "lectura"]
    else []
  }

  /** `SessionInfo.tiene_permiso`: the permission is listed for the role; unknown roles have none. */
  predicate TienePermiso(rol: String, permiso: String)
  {
    permiso in PermisosPorRol(rol)
  }

  /**
   * Each role can do everything the role below it can: operador's permissions are
   * supervisor's, supervisor's are admin's; a role outside the table can do nothing, and
   * only admin can administer, delete or configure.
   */
  lemma PermisosNested(permiso: String, rol: String)
    ensures TienePermiso("operador", permiso) ==> TienePermiso("supervisor", permiso)
    ensures TienePermiso("supervisor", permiso) ==> TienePermiso("admin", permiso)
    ensures rol !in Roles ==> !TienePermiso(rol, permiso)
    ensures permiso in ["admin", "eliminar", "configurar"] ==> (TienePermiso(rol, permiso) <==> rol == "admin")
  {
    assert Roles == ["admin", "supervisor", "operador"];
  }

  // ---------------------------------------------------------------- the lockout state

  /** `MAX_LOGIN_ATTEMPTS` and `LOCKOUT_DURATION_MINUTES` from `config/settings.py`. */
  const MaxLoginAttempts: nat := 3
  const LockoutDurationMinutes: nat := 15

  /** A `usuarios` row as `login` reads it; the lock end is in seconds. */
  datatype User = User(
    id: int,
    username: String,
    nombreCompleto: String,
    rol: String,
    activo: bool,
    passwordHash: String,
    intentos: int,
    bloqueadoHasta: Option<int>)

  /** `SessionInfo` (its `login_time` is left out). */
  datatype SessionInfo = SessionInfo(userId: int, username: String, nombreCompleto: String, rol: String)

  /** How `login` ends: a session, one of the authentication errors, or a `ValueError`. */
  datatype LoginResult = LoggedIn(session: SessionInfo) | Raised(error: Error) | ValueErr(msg: String)

  /** The users table and the controller's `_session`. */
  datatype AuthState = AuthState(users: map<String, User>, session: Option<SessionInfo>)

  /** The state after a call and what it returned or raised. */
  datatype Step = Step(state: AuthState, result: LoginResult)

  const InvalidCredentialsMsg: String := "Usuario o contraseña incorrectos"
  const AccountDisabledMsg: String := "Cuenta deshabilitada. Contacte al administrador"
  const AccountLockedMsg: String := "Cuenta bloqueada temporalmente"

  function BadCredentials(): Error { Simple(Exceptions.InvalidCredentials, InvalidCredentialsMsg) }
  function Disabled(): Error { Simple(Exceptions.AccountDisabled, AccountDisabledMsg) }
  function Locked(minutes: int): Error { AccountLockedError(AccountLockedMsg, minutes) }

  /** `int((bloqueado_hasta - now).total_seconds() / 60) + 1` for whole seconds. */
  function MinutesLeft(now: int, hasta: int): int
  {
    (hasta - now) / 60 + 1
  }

  /** A lock still running stays announced for at least a minute, and never over-states by a minute or more. */
  lemma MinutesLeftBounds(now: int, hasta: int)
    requires now < hasta
    ensures var m := MinutesLeft(now, hasta);
      1 <= m && (m - 1) * 60 <= hasta - now < m * 60
  {
  }

  /** `resetear_intentos`: no failed attempts and no lock. */
  function Reset(u: User): User
  {
    u.(intentos := 0, bloqueadoHasta := None)
  }

  /** The row's lock has not run out at time `now`. */
  predicate LockRunning(u: User, now: int)
  {
    u.bloqueadoHasta.Some? && now < u.bloqueadoHasta.value
  }

  /** An expired lock found on the row is cleared, with the counter (`resetear_intentos`). */
  function Unlock(st: AuthState, name: String): AuthState
    requires name in st.users
  {
    if st.users[name].bloqueadoHasta.Some? then st.(users := st.users[name := Reset(st.users[name])]) else st
  }

  /**
   * `incrementar_intentos_fallidos` and what follows it: one more failure on the row; the
   * third locks the account until fifteen minutes from `now`.
   */
  function FailedAttempt(st: AuthState, name: String, now: int): Step
    requires name in st.users
  {
    var n := st.users[name].intentos + 1;
    var counted := st.users[name].(intentos := n);
    if n >= MaxLoginAttempts then
      Step(st.(users := st.users[name := counted.(bloqueadoHasta := Some(now + LockoutDurationMinutes * 60))]),
           Raised(Locked(LockoutDurationMinutes)))
    else Step(st.(users := st.users[name := counted]), Raised(BadCredentials()))
  }

  /** The password check against the hash of the row `user` read before any reset. */
  function PasswordStep(st: AuthState, name: String, user: User, password: String, now: int, checkpw: (String, String) -> bool): Step
    requires name in st.users
  {
    match VerifyPassword(password, user.passwordHash, checkpw)
    case Err(m) => Step(st, ValueErr(m))
    case Ok(false) => FailedAttempt(st, name, now)
    case Ok(true) =>
      var session := SessionInfo(user.id, user.username, user.nombreCompleto, user.rol);
      Step(AuthState(st.users[name := Reset(st.users[name])], Some(session)), LoggedIn(session))
  }

  /**
   * `AuthController.login(username, password)` at time `now`: look the user up by the
   * stripped, lower-cased name; refuse a disabled account, then a running lock (clearing an
   * expired one); then check the password.
   */
  function LoginStep(st: AuthState, username: String, password: String, now: int, checkpw: (String, String) -> bool): Step
  {
    var name := ValidarUsername(username);
    if name !in st.users then Step(st, Raised(BadCredentials()))
    else
      var user := st.users[name];
      if !user.activo then Step(st, Raised(Disabled()))
      else if LockRunning(user, now) then Step(st, Raised(Locked(MinutesLeft(now, user.bloqueadoHasta.value))))
      else PasswordStep(Unlock(st, name), name, user, password, now, checkpw)
  }

  /** Past the lookup, the disabled check and a running lock, login is the password step. */
  lemma LoginReachesPassword(st: AuthState, username: String, password: String, now: int, checkpw: (String, String) -> bool)
    requires ValidarUsername(username) in st.users
    requires var u := st.users[ValidarUsername(username)]; u.activo && !LockRunning(u, now)
    ensures var name := ValidarUsername(username);
      LoginStep(st, username, password, now, checkpw) == PasswordStep(Unlock(st, name), name, st.users[name], password, now, checkpw)
  {
  }

  /** `logout`: the session is closed; without one nothing happens. */
  function LogoutStep(st: AuthState): (r: AuthState)
    ensures r.session.None? && r.users == st.users
    ensures st.session.None? ==> r == st
  {
    if st.session.Some? then st.(session := None) else st
  }

  // ---------------------------------------------------------------- the controller

  class AuthController {
    /** The `usuarios` rows, by username. */
    var users: map<String, User>
    /** `_session`. */
    var session: Option<SessionInfo>

    /** `AuthController()`: no session. */
    constructor (users0: map<String, User>)
      ensures users == users0 && session.None?
    {
      users := users0;
      session := None;
    }

    /** `is_authenticated`. */
    predicate IsAuthenticated()
      reads this
    {
      session.Some?
    }

    /** `login`, updating the rows and the session as `LoginStep` says. */
    method Login(username: String, password: String, now: int, checkpw: (String, String) -> bool) returns (r: LoginResult)
      modifies this
      ensures Step(AuthState(users, session), r) == LoginStep(AuthState(old(users), old(session)), username, password, now, checkpw)
    {
      ghost var st0 := AuthState(users, session);
      var name := ValidarUsername(username);
      if name !in users {
        return Raised(BadCredentials());
      }
      var user := users[name];
      if !user.activo {
        return Raised(Disabled());
      }
      if user.bloqueadoHasta.Some? {
        if now < user.bloqueadoHasta.value {
          return Raised(Locked(MinutesLeft(now, user.bloqueadoHasta.value)));
        }
        users := users[name := Reset(users[name])];
      }
      ghost var st1 := AuthState(users, session);
      LoginReachesPassword(st0, username, password, now, checkpw);
      assert st1 == Unlock(st0, name);
      r := CheckPassword(name, user, password, now, checkpw);
    }

    /** The password check of `login`, against the hash of the row read before any reset. */
    method CheckPassword(name: String, user: User, password: String, now: int, checkpw: (String, String) -> bool) returns (r: LoginResult)
      requires name in users
      modifies this
      ensures Step(AuthState(users, session), r) == PasswordStep(AuthState(old(users), old(session)), name, user, password, now, checkpw)
    {
      var ok := VerifyPassword(password, user.passwordHash, checkpw);
      if ok.Err? {
        return ValueErr(ok.msg);
      }
      if !ok.value {
        r := CountFailure(name, now);
        return;
      }
      users := users[name := Reset(users[name])];
      session := Some(SessionInfo(user.id, user.username, user.nombreCompleto, user.rol));
      r := LoggedIn(session.value);
    }

    /** `incrementar_intentos_fallidos`, then the lock once the third failure is counted. */
    method CountFailure(name: String, now: int) returns (r: LoginResult)
      requires name in users
      modifies this
      ensures Step(AuthState(users, session), r) == FailedAttempt(AuthState(old(users), old(session)), name, now)
    {
      var intentos := users[name].intentos + 1;
      users := users[name := users[name].(intentos := intentos)];
      if intentos >= MaxLoginAttempts {
        ghost var counted := users;
        users := users[name := users[name].(bloqueadoHasta := Some(now + LockoutDurationMinutes * 60))];
        assert users == old(users)[name := counted[name].(bloqueadoHasta := Some(now + LockoutDurationMinutes * 60))];
        return Raised(Locked(LockoutDurationMinutes));
      }
      r := Raised(BadCredentials());
    }

    /** `logout`. */
    method Logout()
      modifies this
      ensures AuthState(users, session) == LogoutStep(AuthState(old(users), old(session)))
    {
      if session.Some? {
        session := None;
      }
    }
  }

  // ---------------------------------------------------------------- properties of login

  /** The counter and the lock of one row agree: fewer than three failures and no lock, or three and a lock. */
  predicate Consistent(u: User)
  {
    0 <= u.intentos <= MaxLoginAttempts && (u.intentos == MaxLoginAttempts <==> u.bloqueadoHasta.Some?)
  }

  predicate AllConsistent(users: map<String, User>)
  {
    forall k :: k in users ==> Consistent(users[k])
  }

  /** The rows of `b` are those of `a`, except perhaps the row `name`. */
  predicate OnlyRowChanged(a: map<String, User>, b: map<String, User>, name: String)
  {
    b.Keys == a.Keys && forall k :: k in a && k != name ==> b[k] == a[k]
  }

  /** Login keeps every row consistent, and touches no row but the one it looked up. */
  lemma LoginKeepsConsistent(st: AuthState, username: String, password: String, now: int, checkpw: (String, String) -> bool)
    requires AllConsistent(st.users)
    ensures var s := LoginStep(st, username, password, now, checkpw).state;
      AllConsistent(s.users) && OnlyRowChanged(st.users, s.users, ValidarUsername(username))
  {
    var name := ValidarUsername(username);
    if name in st.users {
      var user := st.users[name];
      if user.activo && !LockRunning(user, now) {
        var st1 := Unlock(st, name);
        UnlockConsistent(st, name);
        PasswordStepConsistent(st1, name, user, password, now, checkpw);
      }
    }
  }

  lemma UnlockConsistent(st: AuthState, name: String)
    requires name in st.users && AllConsistent(st.users)
    ensures var s := Unlock(st, name);
      AllConsistent(s.users) && OnlyRowChanged(st.users, s.users, name)
      && s.users[name].bloqueadoHasta.None? && s.session == st.session
  {
    assert Consistent(st.users[name]);
  }

  lemma PasswordStepConsistent(st: AuthState, name: String, user: User, password: String, now: int, checkpw: (String, String) -> bool)
    requires name in st.users && AllConsistent(st.users) && st.users[name].bloqueadoHasta.None?
    ensures var s := PasswordStep(st, name, user, password, now, checkpw).state;
      AllConsistent(s.users) && OnlyRowChanged(st.users, s.users, name)
  {
    assert Consistent(st.users[name]);
    var s := PasswordStep(st, name, user, password, now, checkpw).state;
    assert Consistent(s.users[name]);
  }

  /** An unknown user gets invalid credentials and nothing changes. */
  lemma UnknownUserRefused(st: AuthState, username: String, password: String, now: int, checkpw: (String, String) -> bool)
    requires ValidarUsername(username) !in st.users
    ensures LoginStep(st, username, password, now, checkpw) == Step(st, Raised(BadCredentials()))
    ensures BadCredentials().code == "AUTH_INVALID_CREDENTIALS"
  {
    CodeIsOwnClass(InvalidCredentialsMsg, [], 0, [], Exceptions.InvalidCredentials);
  }

  /**
   * A disabled account is refused before its lock and its password are looked at: the
   * answer and the (unchanged) state are the same for any password at any time.
   */
  lemma DisabledCheckedFirst(st: AuthState, username: String, p1: String, p2: String, t1: int, t2: int, checkpw: (String, String) -> bool)
    requires ValidarUsername(username) in st.users && !st.users[ValidarUsername(username)].activo
    ensures LoginStep(st, username, p1, t1, checkpw) == Step(st, Raised(Disabled()))
    ensures LoginStep(st, username, p1, t1, checkpw) == LoginStep(st, username, p2, t2, checkpw)
  {
  }

  /**
   * While a lock runs, login refuses with the minutes left, whatever the password, and
   * neither the counter nor anything else changes.
   */
  lemma LockedRefusesAnyPassword(st: AuthState, username: String, p1: String, p2: String, now: int, checkpw: (String, String) -> bool)
    requires ValidarUsername(username) in st.users
    requires var u := st.users[ValidarUsername(username)];
      u.activo && LockRunning(u, now)
    ensures var u := st.users[ValidarUsername(username)];
      var r := LoginStep(st, username, p1, now, checkpw);
      r.state == st && r.result.Raised? && r.result.error.kind == Exceptions.AccountLocked
      && r.result.error.minutesRemaining == MinutesLeft(now, u.bloqueadoHasta.value) >= 1
      && r == LoginStep(st, username, p2, now, checkpw)
  {
  }

  /**
   * With the account active and no lock running, a wrong password counts one more
   * failure; the third locks the account for fifteen minutes from now and says so, earlier
   * ones report invalid credentials. An expired lock is cleared first, so the count
   * starts again from one.
   */
  lemma WrongPasswordCounts(st: AuthState, username: String, password: String, now: int, checkpw: (String, String) -> bool)
    requires ValidarUsername(username) in st.users
    requires var u := st.users[ValidarUsername(username)];
      u.activo && !LockRunning(u, now)
      && password != [] && u.passwordHash != [] && !checkpw(password, u.passwordHash)
    ensures var name := ValidarUsername(username);
      var u := st.users[name];
      var n := (if u.bloqueadoHasta.Some? then 0 else u.intentos) + 1;
      var r := LoginStep(st, username, password, now, checkpw);
      r.state.session == st.session && OnlyRowChanged(st.users, r.state.users, name)
      && name in r.state.users && r.state.users[name].intentos == n
      && r.state.users[name].activo && r.state.users[name].passwordHash == u.passwordHash
      && (n >= MaxLoginAttempts ==>
            r.state.users[name].bloqueadoHasta == Some(now + 900)
            && r.result == Raised(Locked(15)) && Locked(15).minutesRemaining == 15)
      && (n < MaxLoginAttempts ==>
            r.state.users[name].bloqueadoHasta == None && r.result == Raised(BadCredentials()))
  {
    var name := ValidarUsername(username);
    var u := st.users[name];
    LoginReachesPassword(st, username, password, now, checkpw);
    var st1 := Unlock(st, name);
    assert st1.users[name].intentos == (if u.bloqueadoHasta.Some? then 0 else u.intentos);
    assert PasswordStep(st1, name, u, password, now, checkpw) == FailedAttempt(st1, name, now);
    FailedAttemptRow(st1, name, now);
  }

  /** One failure changes only the row `name`: its counter goes up by one and it locks at the third. */
  lemma FailedAttemptRow(st: AuthState, name: String, now: int)
    requires name in st.users && st.users[name].bloqueadoHasta.None?
    ensures var u := st.users[name];
      var n := u.intentos + 1;
      var r := FailedAttempt(st, name, now);
      r.state.session == st.session && OnlyRowChanged(st.users, r.state.users, name)
      && r.state.users[name] == u.(intentos := n, bloqueadoHasta := if n >= MaxLoginAttempts then Some(now + 900) else None)
      && r.result == (if n >= MaxLoginAttempts then Raised(Locked(15)) else Raised(BadCredentials()))
  {
  }

  /** A right password opens the session with the user's row and clears the counter and the lock. */
  lemma RightPasswordLogsIn(st: AuthState, username: String, password: String, now: int, checkpw: (String, String) -> bool)
    requires ValidarUsername(username) in st.users
    requires var u := st.users[ValidarUsername(username)];
      u.activo && !LockRunning(u, now)
      && password != [] && u.passwordHash != [] && checkpw(password, u.passwordHash)
    ensures var name := ValidarUsername(username);
      var u := st.users[name];
      var r := LoginStep(st, username, password, now, checkpw);
      r.result == LoggedIn(SessionInfo(u.id, u.username, u.nombreCompleto, u.rol))
      && r.state.session == Some(r.result.session)
      && r.state.users[name] == Reset(u)
  {
  }

  /** Only a successful login changes the session. */
  lemma FailedLoginKeepsSession(st: AuthState, username: String, password: String, now: int, checkpw: (String, String) -> bool)
    ensures var r := LoginStep(st, username, password, now, checkpw);
      !r.result.LoggedIn? ==> r.state.session == st.session
    ensures var r := LoginStep(st, username, password, now, checkpw);
      r.result.LoggedIn? ==> r.state.session == Some(r.result.session)
  {
    var name := ValidarUsername(username);
    if name in st.users && st.users[name].activo && !LockRunning(st.users[name], now) {
      LoginReachesPassword(st, username, password, now, checkpw);
      PasswordStepSession(Unlock(st, name), name, st.users[name], password, now, checkpw);
    }
  }

  lemma PasswordStepSession(st: AuthState, name: String, user: User, password: String, now: int, checkpw: (String, String) -> bool)
    requires name in st.users
    ensures var r := PasswordStep(st, name, user, password, now, checkpw);
      (!r.result.LoggedIn? ==> r.state.session == st.session)
      && (r.result.LoggedIn? ==> r.state.session == Some(r.result.session))
  {
  }

  /**
   * Three wrong passwords in a row on an account with no failures and no lock lock it:
   * the first two report invalid credentials, the third the fifteen-minute lock, and a
   * fourth attempt within the lock is refused even with the right password.
   */
  lemma ThreeFailuresLock(st: AuthState, username: String, bad: String, good: String, now: int, checkpw: (String, String) -> bool)
    requires ValidarUsername(username) in st.users
    requires var u := st.users[ValidarUsername(username)];
      u.activo && u.intentos == 0 && u.bloqueadoHasta.None? && bad != [] && u.passwordHash != []
      && !checkpw(bad, u.passwordHash)
    ensures var s1 := LoginStep(st, username, bad, now, checkpw);
      var s2 := LoginStep(s1.state, username, bad, now, checkpw);
      var s3 := LoginStep(s2.state, username, bad, now, checkpw);
      var s4 := LoginStep(s3.state, username, good, now + 899, checkpw);
      s1.result == Raised(BadCredentials()) && s2.result == Raised(BadCredentials())
      && s3.result == Raised(Locked(15))
      && s4.result.Raised? && s4.result.error.kind == Exceptions.AccountLocked
      && s4.state == s3.state
  {
    var name := ValidarUsername(username);
    var hash := st.users[name].passwordHash;
    var s1 := LoginStep(st, username, bad, now, checkpw);
    assert name in s1.state.users && s1.state.users[name].intentos == 1
      && s1.state.users[name].activo && s1.state.users[name].passwordHash == hash
      && s1.state.users[name].bloqueadoHasta.None? && s1.result == Raised(BadCredentials()) by {
      WrongPasswordCounts(st, username, bad, now, checkpw);
    }
    var s2 := LoginStep(s1.state, username, bad, now, checkpw);
    assert name in s2.state.users && s2.state.users[name].intentos == 2
      && s2.state.users[name].activo && s2.state.users[name].passwordHash == hash
      && s2.state.users[name].bloqueadoHasta.None? && s2.result == Raised(BadCredentials()) by {
      WrongPasswordCounts(s1.state, username, bad, now, checkpw);
    }
    var s3 := LoginStep(s2.state, username, bad, now, checkpw);
    assert name in s3.state.users && s3.state.users[name].activo
      && s3.state.users[name].bloqueadoHasta == Some(now + 900) && s3.result == Raised(Locked(15)) by {
      WrongPasswordCounts(s2.state, username, bad, now, checkpw);
    }
    LockedRefusesAnyPassword(s3.state, username, good, good, now + 899, checkpw);
  }
}
