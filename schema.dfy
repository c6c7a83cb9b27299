/**
 * The part of pydantic's behaviour the schemas rely on. Fields are validated in declaration
 * order and every failing field is reported. A length constraint is checked on the value
 * as given; a field validator in "after" mode runs only when that check passed, on the raw
 * value, and its result is what the model keeps. A model validator runs only when every
 * field passed.
 */
module Schema {
  import opened Base
  import opened Text

  /** Why a field was rejected. */
  datatype Problem = TooShort(min: nat) | TooLong(max: nat) | NotGreater(bound: int) | NotLess(bound: int) | ValueError(msg: String)

  /** One entry of a pydantic `ValidationError`; the model validator reports field `""`. */
  datatype FieldError = FieldError(field: String, problem: Problem)

  /** The validated model, or every error found. */
  datatype Checked<T> = Accepted(value: T) | Rejected(errors: seq<FieldError>)

  /** An optional argument: not passed, passed as `None`, or passed with a value. */
  datatype Arg<T> = Missing | Null | Given(value: T)

  /** `Field(min_length=lo, max_length=hi)` on a string. */
  function LengthErrors(field: String, v: String, lo: nat, hi: nat): (es: seq<FieldError>)
    ensures es == [] <==> lo <= |v| <= hi
    ensures |es| <= 1
  {
    if |v| < lo then [FieldError(field, TooShort(lo))]
    else if |v| > hi then [FieldError(field, TooLong(hi))]
    else []
  }

  /** `Field(min_length=lo)` on a string. */
  function MinLengthErrors(field: String, v: String, lo: nat): (es: seq<FieldError>)
    ensures es == [] <==> lo <= |v|
  {
    if |v| < lo then [FieldError(field, TooShort(lo))] else []
  }

  /** `Field(max_length=hi)` on an optional string: `None` is not checked. */
  function OptLengthErrors(field: String, v: Option<String>, hi: nat): (es: seq<FieldError>)
    ensures es == [] <==> v.None? || |v.value| <= hi
  {
    match v
    case None => []
    case Some(s) => LengthErrors(field, s, 0, hi)
  }
}
