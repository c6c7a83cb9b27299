/**
 * The exception hierarchy of `utils/exceptions.py` as records. Each constructor computes the
 * message, the code and the extra attributes once; a subclass that overrides the code does
 * so after its parent's constructor has set `message` and `code`.
 */
module Exceptions {
  import opened Text
  import opened Numerals

  /** The exception classes. */
  datatype Kind =
    | ScahBase | Database | DatabaseConnection | Migration
    | Authentication | InvalidCredentials | AccountLocked | AccountDisabled | UserNotFound
    | Validation | DuplicateRecord
    | ImportFile | InvalidFileFormat | MissingColumns
    | PermissionDenied

  /** The class each class derives from; the base class has none. */
  function Parent(k: Kind): Kind
  {
    match k
    case ScahBase => ScahBase
    case Database | Authentication | Validation | ImportFile | PermissionDenied => ScahBase
    case DatabaseConnection | Migration => Database
    case InvalidCredentials | AccountLocked | AccountDisabled | UserNotFound => Authentication
    case DuplicateRecord => Validation
    case InvalidFileFormat | MissingColumns => ImportFile
  }

  /** `k` is `anc` or derives from it, as `isinstance` sees it. */
  predicate IsA(k: Kind, anc: Kind)
  {
    k == anc || (k != ScahBase && (Parent(k) == anc || (Parent(k) != ScahBase && Parent(Parent(k)) == anc)))
  }

  /** An exception object: its class, `message`, `code`, and the attributes some classes add. */
  datatype Error = Error(
    kind: Kind,
    message: String,
    code: String,
    field: String,
    minutesRemaining: int,
    missingColumns: seq<String>)

  /** The code a class's constructor leaves in `code`. */
  function CodeOf(k: Kind): String
  {
    match k
    case ScahBase => "SCAH_ERROR"
    case Database => "DB_ERROR"
    case DatabaseConnection => "DB_CONNECTION_ERROR"
    case Migration => "DB_MIGRATION_ERROR"
    case Authentication => "AUTH_ERROR"
    case InvalidCredentials => "AUTH_INVALID_CREDENTIALS"
    case AccountLocked => "AUTH_ACCOUNT_LOCKED"
    case AccountDisabled => "AUTH_ACCOUNT_DISABLED"
    case UserNotFound => "AUTH_USER_NOT_FOUND"
    case Validation => "VALIDATION_ERROR"
    case DuplicateRecord => "VALIDATION_DUPLICATE"
    case ImportFile => "IMPORT_ERROR"
    case InvalidFileFormat => "IMPORT_INVALID_FORMAT"
    case MissingColumns => "IMPORT_MISSING_COLUMNS"
    case PermissionDenied => "PERMISSION_DENIED"
  }

  /** `SCAHBaseError(message, code)`. */
  function ScahBaseError(message: String, code: String): (e: Error)
    ensures e.message == message && e.code == code
  {
    Error(ScahBase, message, code, [], 0, [])
  }

  /** A class whose constructor takes only a message: the base constructor, then its own code. */
  function Simple(k: Kind, message: String): (e: Error)
    requires k != ScahBase && k != AccountLocked && k != Validation && k != DuplicateRecord && k != MissingColumns
    ensures e.kind == k && e.message == message
  {
    var base := ScahBaseError(message, CodeOf(ParentCodeSetter(k)));
    base.(kind := k, code := CodeOf(k))
  }

  /** The class whose `super().__init__(message, code)` call first sets the code. */
  function ParentCodeSetter(k: Kind): Kind
  {
    if k != ScahBase && Parent(k) != ScahBase then Parent(k) else k
  }

  /** `AccountLockedError(message, minutes_remaining)`. */
  function AccountLockedError(message: String, minutes: int): (e: Error)
    ensures e.kind == AccountLocked && e.minutesRemaining == minutes
    ensures minutes <= 0 ==> e.message == message
  {
    var msg := if minutes > 0 then LockedMessage(minutes) else message;
    Error(AccountLocked, msg, CodeOf(AccountLocked), [], minutes, [])
  }

  function LockedMessage(minutes: nat): String
  {
    "Cuenta bloqueada. Intente nuevamente en " + NatToString(minutes) + " minutos"
  }

  /** `ValidationError(message, field)`: a non-empty field is named in front of the message. */
  function ValidationError(message: String, field: String): (e: Error)
    ensures e.kind == Validation && e.field == field
    ensures field == [] ==> e.message == message
  {
    var msg := if field != [] then FieldMessage(field, message) else message;
    Error(Validation, msg, CodeOf(Validation), field, 0, [])
  }

  function FieldMessage(field: String, message: String): String
  {
    "Campo '" + field + "': " + message
  }

  /** `DuplicateRecordError(message, field)`. */
  function DuplicateRecordError(message: String, field: String): (e: Error)
    ensures e.kind == DuplicateRecord && e.field == field
  {
    ValidationError(message, field).(kind := DuplicateRecord, code := CodeOf(DuplicateRecord))
  }

  /** `MissingColumnsError(message, missing)`. */
  function MissingColumnsError(message: String, missing: seq<String>): (e: Error)
    ensures e.kind == MissingColumns && e.missingColumns == missing
    ensures missing == [] ==> e.message == message
  {
    var msg := if missing != [] then "Columnas faltantes: " + Join(", ", missing) else message;
    Error(MissingColumns, msg, CodeOf(ImportFile), [], 0, missing).(code := CodeOf(MissingColumns))
  }

  /** Every constructor leaves in `code` the code of the class it builds, not its parent's. */
  lemma CodeIsOwnClass(message: String, field: String, minutes: int, missing: seq<String>, k: Kind)
    requires k != ScahBase && k != AccountLocked && k != Validation && k != DuplicateRecord && k != MissingColumns
    ensures Simple(k, message).code == CodeOf(k)
    ensures AccountLockedError(message, minutes).code == "AUTH_ACCOUNT_LOCKED"
    ensures ValidationError(message, field).code == "VALIDATION_ERROR"
    ensures DuplicateRecordError(message, field).code == "VALIDATION_DUPLICATE"
    ensures MissingColumnsError(message, missing).code == "IMPORT_MISSING_COLUMNS"
  {
  }

  /** Each class has its own code, so the code tells the class. */
  lemma CodesDistinct(k1: Kind, k2: Kind)
    requires k1 != k2
    ensures CodeOf(k1) != CodeOf(k2)
  {
  }

  /**
   * A duplicate-record error reads exactly like the validation error for the same field
   * and message; only its code differs.
   */
  lemma DuplicateKeepsMessage(message: String, field: String)
    ensures DuplicateRecordError(message, field).message == ValidationError(message, field).message
    ensures DuplicateRecordError(message, field).code != ValidationError(message, field).code
    ensures IsA(DuplicateRecord, Validation)
  {
    CodesDistinct(DuplicateRecord, Validation);
  }

  /** A field name shows in the message, in front of the original text. */
  lemma ValidationNamesField(message: String, field: String)
    requires field != []
    ensures var m := ValidationError(message, field).message;
      OccursAt(m, field, 7) && EndsWith(m, message)
  {
    var m := ValidationError(message, field).message;
    assert m == "Campo '" + field + "': " + message;
    assert m[7..7 + |field|] == field;
    assert m[|m| - |message|..] == message;
  }

  /** Every missing column is named in the message of a missing-columns error. */
  lemma MissingColumnsNamed(message: String, missing: seq<String>, i: nat)
    requires i < |missing|
    ensures Contains(MissingColumnsError(message, missing).message, missing[i])
  {
    var pre := "Columnas faltantes: ";
    var m := MissingColumnsError(message, missing).message;
    assert m == pre + Join(", ", missing);
    var k := JoinContains(", ", missing, i);
    assert m[|pre| + k..|pre| + k + |missing[i]|] == Join(", ", missing)[k..k + |missing[i]|];
    assert OccursAt(m, missing[i], |pre| + k);
  }

  /** Where the `i`-th part starts in `Join(sep, parts)`. */
  lemma {:induction false} JoinContains(sep: String, parts: seq<String>, i: nat) returns (k: nat)
    requires i < |parts|
    ensures OccursAt(Join(sep, parts), parts[i], k)
    decreases |parts|
  {
    if |parts| == 1 {
      k := 0;
      assert Join(sep, parts) == parts[0];
    } else {
      var rest := Join(sep, parts[1..]);
      assert Join(sep, parts) == parts[0] + sep + rest;
      if i == 0 {
        k := 0;
        assert (parts[0] + sep + rest)[..|parts[0]|] == parts[0];
      } else {
        var k1 := JoinContains(sep, parts[1..], i - 1);
        k := |parts[0]| + |sep| + k1;
        assert (parts[0] + sep + rest)[k..k + |parts[i]|] == rest[k1..k1 + |parts[i]|];
      }
    }
  }

  /** A lock with minutes left always names the minutes, whatever message was passed. */
  lemma LockedNamesMinutes(message: String, minutes: nat)
    requires minutes > 0
    ensures var m := AccountLockedError(message, minutes).message;
      OccursAt(m, NatToString(minutes), 40)
  {
    var m := AccountLockedError(message, minutes).message;
    var pre := "Cuenta bloqueada. Intente nuevamente en ";
    assert |pre| == 40;
    assert m == pre + NatToString(minutes) + " minutos";
    assert m[40..40 + |NatToString(minutes)|] == NatToString(minutes);
  }
}
