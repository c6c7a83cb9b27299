/**
 * Password rules of `utils/encryption.py`: the five strength rules checked in a fixed
 * order, and the empty-input guards in front of bcrypt. bcrypt's `hashpw`/`checkpw` are
 * passed in as functions.
 */
module Encryption {
  import opened Base
  import opened Text

  const MinLength: nat := 8

  /** The characters that count as special. */
  predicate SpecialChar(c: char)
  {
    c == '!' || c == '@' || c == '#' || c == '$' || c == '%' || c == '^'
    || c == '&' || c == '*' || c == '.' || c == ',' || c == '_' || c == '-'
  }

  /** The strength rules, in the order they are checked. */
  datatype Rule = Length | Upper | Lower | Digit | Special

  function Ordinal(r: Rule): nat
  {
    match r
    case Length => 0
    case Upper => 1
    case Lower => 2
    case Digit => 3
    case Special => 4
  }

  predicate HasChar(p: String, rule: Rule)
  {
    exists i :: 0 <= i < |p| && CharFor(rule, p[i])
  }

  predicate CharFor(rule: Rule, c: char)
  {
    match rule
    case Length => true
    case Upper => IsUpper(c)
    case Lower => IsLower(c)
    case Digit => IsDigit(c)
    case Special => SpecialChar(c)
  }

  /** Whether `p` passes `rule`. */
  predicate Holds(rule: Rule, p: String)
  {
    if rule == Length then |p| >= MinLength else HasChar(p, rule)
  }

  function Message(rule: Rule): String
  {
    match rule
    case Length => "Debe tener al menos 8 caracteres"
    case Upper => "Debe contener al menos una letra mayúscula"
    case Lower => "Debe contener al menos una letra minúscula"
    case Digit => "Debe contener al menos un número"
    case Special => "Debe contener al menos un carácter especial (!@#$%^&*.,_-)"
  }

  /** The rules `p` fails, one entry per rule, in checking order. */
  function FailedRules(p: String): (fs: seq<Rule>)
  {
    (if Holds(Length, p) then [] else [Length])
    + (if Holds(Upper, p) then [] else [Upper])
    + (if Holds(Lower, p) then [] else [Lower])
    + (if Holds(Digit, p) then [] else [Digit])
    + (if Holds(Special, p) then [] else [Special])
  }

  function Messages(fs: seq<Rule>): (ms: seq<String>)
    ensures |ms| == |fs|
    ensures forall i :: 0 <= i < |fs| ==> ms[i] == Message(fs[i])
  {
    if fs == [] then [] else [Message(fs[0])] + Messages(fs[1..])
  }

  /** `validate_password_strength(password)`: whether it is valid, and the errors. */
  function ValidatePasswordStrength(password: String): (r: (bool, seq<String>))
    ensures r.0 <==> r.1 == []
  {
    var errors := Messages(FailedRules(password));
    (|errors| == 0, errors)
  }

  /** A rule appears among the failures exactly when the password breaks it. */
  lemma FailedRulesExact(p: String, rule: Rule)
    ensures rule in FailedRules(p) <==> !Holds(rule, p)
  {
  }

  /** The failures are listed at most once each, in checking order, so there are at most five. */
  lemma FailedRulesOrdered(p: String)
    ensures forall i, j :: 0 <= i < j < |FailedRules(p)| ==> Ordinal(FailedRules(p)[i]) < Ordinal(FailedRules(p)[j])
    ensures |FailedRules(p)| <= 5
  {
    var fs := FailedRules(p);
    forall i, j | 0 <= i < j < |fs| ensures Ordinal(fs[i]) < Ordinal(fs[j]) {
      OrdinalIncreasing(p, i, j);
    }
  }

  lemma OrdinalIncreasing(p: String, i: nat, j: nat)
    requires i < j < |FailedRules(p)|
    ensures Ordinal(FailedRules(p)[i]) < Ordinal(FailedRules(p)[j])
  {
    var a := if Holds(Length, p) then [] else [Length];
    var b := if Holds(Upper, p) then [] else [Upper];
    var c := if Holds(Lower, p) then [] else [Lower];
    var d := if Holds(Digit, p) then [] else [Digit];
    var e := if Holds(Special, p) then [] else [Special];
    var fs := a + b + c + d + e;
    assert FailedRules(p) == fs;
    assert forall k :: 0 <= k < |fs| ==> Ordinal(fs[k]) >= (if k < |a| then 0 else if k < |a + b| then 1
      else if k < |a + b + c| then 2 else if k < |a + b + c + d| then 3 else 4);
    assert forall k :: 0 <= k < |fs| ==> Ordinal(fs[k]) <= (if k < |a| then 0 else if k < |a + b| then 1
      else if k < |a + b + c| then 2 else if k < |a + b + c + d| then 3 else 4);
  }

  /** Distinct rules have distinct messages, so the error list names each failed rule. */
  lemma MessageInjective(r1: Rule, r2: Rule)
    requires r1 != r2
    ensures Message(r1) != Message(r2)
  {
  }

  /**
   * The password is valid exactly when it has at least eight characters, an upper-case
   * letter, a lower-case letter, a digit and a special character.
   */
  lemma StrengthValidIff(p: String)
    ensures ValidatePasswordStrength(p).0 <==>
      |p| >= 8 && (exists i :: 0 <= i < |p| && IsUpper(p[i])) && (exists i :: 0 <= i < |p| && IsLower(p[i]))
      && (exists i :: 0 <= i < |p| && IsDigit(p[i])) && (exists i :: 0 <= i < |p| && SpecialChar(p[i]))
  {
    assert HasChar(p, Upper) <==> exists i :: 0 <= i < |p| && IsUpper(p[i]);
    assert HasChar(p, Lower) <==> exists i :: 0 <= i < |p| && IsLower(p[i]);
    assert HasChar(p, Digit) <==> exists i :: 0 <= i < |p| && IsDigit(p[i]);
    assert HasChar(p, Special) <==> exists i :: 0 <= i < |p| && SpecialChar(p[i]);
  }

  // ---------------------------------------------------------------- bcrypt guards

  const EmptyPasswordMsg := "La contraseña no puede estar vacía"
  const EmptyVerifyMsg := "La contraseña y el hash no pueden estar vacíos"

  /** The `RuntimeError` `hash_password` raises in place of any failure of the hashing. */
  const HashFailedMsg := "Error al procesar la contraseña"

  /**
   * `hash_password`: `ValueError` on an empty password, before any hashing; then the hash,
   * or `RuntimeError` when encoding, salting or hashing raises (`hashpw` gives `None` then).
   */
  function HashPassword(password: String, hashpw: String -> Option<String>): (r: Result<String>)
    ensures r.Err? <==> password == [] || hashpw(password).None?
    ensures password == [] ==> r == Err(EmptyPasswordMsg)
    ensures password != [] && hashpw(password).None? ==> r == Err(HashFailedMsg)
    ensures r.Ok? ==> hashpw(password) == Some(r.value)
  {
    if password == [] then Err(EmptyPasswordMsg)
    else match hashpw(password)
      case None => Err(HashFailedMsg)
      case Some(h) => Ok(h)
  }

  /** `verify_password`: `ValueError` when either argument is empty, before any checking. */
  function VerifyPassword(password: String, hash: String, checkpw: (String, String) -> bool): (r: Result<bool>)
    ensures r.Err? <==> password == [] || hash == []
    ensures r.Ok? ==> r.value == checkpw(password, hash)
    ensures r.Err? ==> r.msg == EmptyVerifyMsg
  {
    if password == [] || hash == [] then Err(EmptyVerifyMsg) else Ok(checkpw(password, hash))
  }

  /**
   * When bcrypt hashes a password to a non-empty hash that its own check accepts, it verifies
   * against the hash `hash_password` made of it. bcrypt's own round trip is the second
   * `requires`, not something proved here: what this lemma adds is only that the two
   * empty-input guards let such a password and its hash through.
   */
  lemma HashThenVerify(password: String, hashpw: String -> Option<String>, checkpw: (String, String) -> bool)
    requires password != []
    requires hashpw(password).Some? && hashpw(password).value != [] && checkpw(password, hashpw(password).value)
    ensures HashPassword(password, hashpw).Ok?
    ensures VerifyPassword(password, HashPassword(password, hashpw).value, checkpw) == Ok(true)
  {
  }
}
