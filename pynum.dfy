/**
 * Python's `int(text)` and `int(float(text))` over ASCII text.
 *
 * Both strip surrounding blanks and accept one optional sign. Digit groups may hold single
 * underscores between digits. `float` also accepts a fractional part, an exponent and the
 * words `inf`, `infinity`, `nan` in any case; `int()` of an infinite float raises
 * `OverflowError` and of a NaN raises `ValueError`. The decimal value is truncated
 * exactly below the bound where a double turns infinite (binary rounding is not modelled).
 * Conversions between `int` and decimal text are refused past CPython's default limit of
 * 4300 digits, in both directions.
 */
module PyNum {
  import opened Base
  import opened Text
  import opened CharMaps
  import opened Numerals

  /** A digit group: digits, with single underscores allowed between two digits. */
  predicate DigitGroup(t: String)
  {
    |t| > 0 && IsDigit(t[0]) && IsDigit(t[|t| - 1])
    && (forall i :: 0 <= i < |t| ==> IsDigit(t[i]) || t[i] == '_')
    && (forall i :: 0 <= i < |t| - 1 && t[i] == '_' ==> t[i + 1] != '_')
  }

  function GroupValue(t: String): nat
    requires DigitGroup(t)
  {
    var d := RemoveChar(t, '_');
    assert forall i :: 0 <= i < |d| ==> IsDigit(d[i]) by {
      forall i | 0 <= i < |d| ensures IsDigit(d[i]) {
        assert d[i] in t;
      }
    }
    DigitsValue(d)
  }

  lemma GroupOfDigits(t: String)
    requires AllDigits(t)
    ensures DigitGroup(t) && GroupValue(t) == DigitsValue(t)
  {
  }

  /** A leading sign, if any, and the rest of the text. */
  function Sign(t: String): (r: (bool, String))
    ensures |r.1| <= |t|
  {
    if t != [] && t[0] == '-' then (true, t[1..])
    else if t != [] && t[0] == '+' then (false, t[1..])
    else (false, t)
  }

  /**
   * `sys.get_int_max_str_digits()` as CPython sets it by default: `int()` of text with more
   * digits, and `str()` of an integer with more digits, raise `ValueError`.
   */
  const MaxStrDigits: nat := 4300

  /** The digits of a group that count against the limit: underscores do not. */
  function DigitCount(t: String): nat
  {
    |RemoveChar(t, '_')|
  }

  /** `str(n)` raises: the magnitude of `n` has more digits than the limit allows. */
  predicate StrTooLong(n: int)
  {
    |NatToString(if n < 0 then -n else n)| > MaxStrDigits
  }

  /** `str(n)` raises exactly from `10^4300` up in magnitude. */
  lemma StrTooLongIff(n: int)
    ensures StrTooLong(n) <==> n <= -(Pow10(MaxStrDigits) as int) || Pow10(MaxStrDigits) <= n
  {
    NatToStringLength(if n < 0 then -n else n, MaxStrDigits);
  }

  /** `int(text)` for a string argument; `None` where Python raises `ValueError`. */
  function PyInt(text: String): (r: Option<int>)
    ensures r.Some? ==> !IsBlank(text)
    ensures r.Some? ==> DigitCount(Sign(Strip(text)).1) <= MaxStrDigits
  {
    var sb := Sign(Strip(text));
    if DigitGroup(sb.1) && DigitCount(sb.1) <= MaxStrDigits then
      var v: int := GroupValue(sb.1);
      Some(if sb.0 then -v else v)
    else None
  }

  /** `int()` of a Python float: a truncated value, or the exception it raises. */
  datatype Truncated = Value(n: int) | OverflowErr | ValueErr

  /** The mantissa and, after the first `e` or `E`, the exponent text. */
  function SplitExponent(b: String): (r: (String, Option<String>))
  {
    var lb := ToLower(b);
    if 'e' in lb then (b[..IndexOf(lb, 'e')], Some(b[IndexOf(lb, 'e') + 1..])) else (b, None)
  }

  /** The digits before and after the first `.` of a mantissa. */
  function SplitPoint(m: String): (r: (String, String))
  {
    if '.' in m then (m[..IndexOf(m, '.')], m[IndexOf(m, '.') + 1..]) else (m, [])
  }

  /** The value of an optional signed exponent; 0 when there is none. */
  function Exponent(x: Option<String>): (r: Option<int>)
  {
    match x
    case None => Some(0)
    case Some(t) =>
      var sb := Sign(t);
      if DigitGroup(sb.1) then
        var ev: int := GroupValue(sb.1);
        Some(if sb.0 then -ev else ev)
      else None
  }

  /** Digits on at least one side of the point, each side a digit group or empty. */
  predicate MantissaOk(ip: String, fp: String)
  {
    (ip != [] || fp != []) && (ip == [] || DigitGroup(ip)) && (fp == [] || DigitGroup(fp))
  }

  /** `ip.fp` times `10^e`, truncated toward zero. */
  function TruncValue(ip: String, fp: String, e: int): nat
    requires MantissaOk(ip, fp)
  {
    var ipv := if ip == [] then 0 else GroupValue(ip);
    var fpv := if fp == [] then 0 else GroupValue(fp);
    var fdigits := |RemoveChar(fp, '_')|;
    Scale(ShiftUp(ipv, fdigits) + fpv, e - fdigits)
  }

  /**
   * The unsigned decimal literal `ip[.fp][e[sign]exp]` truncated toward zero, or
   * `None` when the text is not such a literal.
   */
  function DecimalTrunc(b: String): (r: Option<nat>)
  {
    var me := SplitExponent(b);
    var pt := SplitPoint(me.0);
    var e := Exponent(me.1);
    if !MantissaOk(pt.0, pt.1) || e.None? then None
    else Some(TruncValue(pt.0, pt.1, e.value))
  }

  /** `m * 10^k`, truncated toward zero when `k` is negative. */
  function Scale(m: nat, k: int): nat
  {
    if k >= 0 then ShiftUp(m, k) else ShiftDown(m, -k)
  }

  /** `m * 10^k`. */
  function ShiftUp(m: nat, k: nat): (r: nat)
    ensures m <= r
  {
    if k == 0 then m else 10 * ShiftUp(m, k - 1)
  }

  /** `m // 10^k`: `k` decimal digits dropped from the right. */
  function ShiftDown(m: nat, k: nat): (r: nat)
    ensures r <= m
  {
    if k == 0 then m else ShiftDown(m / 10, k - 1)
  }

  /** `inf` or `infinity`, written out character by character. */
  predicate InfWord(w: String)
  {
    |w| >= 3 && w[0] == 'i' && w[1] == 'n' && w[2] == 'f'
    && (|w| == 3 || (|w| == 8 && w[3] == 'i' && w[4] == 'n' && w[5] == 'i' && w[6] == 't' && w[7] == 'y'))
  }

  /** `nan`, written out character by character. */
  predicate NanWord(w: String)
  {
    |w| == 3 && w[0] == 'n' && w[1] == 'a' && w[2] == 'n'
  }

  lemma SpecialWords(w: String)
    ensures InfWord(w) <==> w == "inf" || w == "infinity"
    ensures NanWord(w) <==> w == "nan"
  {
  }

  /**
   * `2^1024 - 2^970`: the least magnitude a decimal rounds up from to an infinite double
   * (halfway between the largest finite double, `2^1024 - 2^971`, and `2^1024`, where the
   * tie goes to the even neighbour). Being whole, a decimal reaches it exactly when its
   * truncation does.
   */
  const InfBound: nat := 179769313486231580793728971405303415079934132710037826936173778980444968292764750946649017977587207096330286416692887910946555547851940402630657488671505820681908902000708383676273854845817711531764475730270069855571366959622842914819860834936475292719074168444365510704342711559699508093042880177904174497792

  /**
   * `int(float(text))`: `None` where `float(text)` raises `ValueError`, otherwise the
   * truncated value or the exception `int()` raises for infinity and NaN. A decimal too
   * large for a double reads as infinity, so its `int()` overflows too.
   */
  function PyIntOfFloat(text: String): (r: Option<Truncated>)
    ensures r.Some? ==> !IsBlank(text)
  {
    var sb := Sign(Strip(text));
    var lb := ToLower(sb.1);
    if InfWord(lb) then Some(OverflowErr)
    else if NanWord(lb) then Some(ValueErr)
    else match DecimalTrunc(sb.1)
      case None => None
      case Some(v) =>
        if v >= InfBound then Some(OverflowErr)
        else
          var n: int := v;
          Some(Value(if sb.0 then -n else n))
  }

  lemma ToLowerDigits(t: String)
    requires DigitGroup(t)
    ensures ToLower(t) == t
    ensures 'e' !in t && '.' !in t
  {
  }

  lemma DecimalTruncOfGroup(b: String)
    requires DigitGroup(b)
    ensures DecimalTrunc(b) == Some(GroupValue(b))
  {
    ToLowerDigits(b);
    assert SplitExponent(b) == (b, None);
    assert SplitPoint(b) == (b, []);
    assert RemoveChar([], '_') == [];
    assert TruncValue(b, [], 0) == GroupValue(b);
  }

  /** For text `int()` accepts, below the overflow bound, `int(float(text))` gives the same number. */
  lemma IntOfFloatAgrees(text: String)
    requires PyInt(text).Some? && -(InfBound as int) < PyInt(text).value < InfBound
    ensures PyIntOfFloat(text) == Some(Value(PyInt(text).value))
  {
    var sb := Sign(Strip(text));
    PyIntOfGroup(text, sb);
    NotSpecialWord(sb.1);
    DecimalTruncOfGroup(sb.1);
    PyIntOfFloatOfDecimal(text, sb, GroupValue(sb.1));
  }

  /** A decimal too large for a double overflows in `int()` like `inf` does. */
  lemma HugeDecimalOverflows(t: String)
    requires t != [] && AllDigits(t) && DigitsValue(t) >= InfBound
    ensures PyIntOfFloat(t) == Some(OverflowErr)
  {
    assert IsDigit(t[0]) && IsDigit(t[|t| - 1]);
    StripOfTrimmed(t);
    NotSpecialWord(t);
    GroupOfDigits(t);
    DecimalTruncOfGroup(t);
  }

  lemma PyIntOfGroup(text: String, sb: (bool, String))
    requires sb == Sign(Strip(text))
    ensures PyInt(text).Some? <==> DigitGroup(sb.1) && DigitCount(sb.1) <= MaxStrDigits
    ensures PyInt(text).Some? ==> var v: int := GroupValue(sb.1); PyInt(text) == Some(if sb.0 then -v else v)
  {
  }

  lemma PyIntOfFloatOfDecimal(text: String, sb: (bool, String), v: nat)
    requires sb == Sign(Strip(text))
    requires !InfWord(ToLower(sb.1)) && !NanWord(ToLower(sb.1))
    requires DecimalTrunc(sb.1) == Some(v) && v < InfBound
    ensures var n: int := v; PyIntOfFloat(text) == Some(Value(if sb.0 then -n else n))
  {
  }

  /** Text starting with a digit is none of `inf`, `infinity`, `nan`. */
  lemma NotSpecialWord(s: String)
    requires s != [] && IsDigit(s[0])
    ensures !InfWord(ToLower(s)) && !NanWord(ToLower(s))
    ensures Sign(s) == (false, s)
  {
    assert ToLower(s)[0] == s[0];
  }

  /** `int(str(n))` is `n` below `10^4300`; from there up `int()` refuses the text. */
  lemma PyIntOfNatToString(n: nat)
    ensures PyInt(NatToString(n)) == if n < Pow10(MaxStrDigits) then Some(n) else None
  {
    var s := NatToString(n);
    assert IsDigit(s[0]) && IsDigit(s[|s| - 1]);
    StripOfTrimmed(s);
    GroupOfDigits(s);
    NatToStringRoundTrip(n);
    PyIntOfPlainGroup(s);
    assert '_' !in s by {
      assert forall i :: 0 <= i < |s| ==> IsDigit(s[i]);
    }
    NatToStringLength(n, MaxStrDigits);
  }

  /** `int(float(str(n)))` is `n` below the overflow bound, with no digit limit, and overflows from there up. */
  lemma PyIntOfFloatOfNatToString(n: nat)
    ensures PyIntOfFloat(NatToString(n)) == if n >= InfBound then Some(OverflowErr) else Some(Value(n))
  {
    var s := NatToString(n);
    assert IsDigit(s[0]) && IsDigit(s[|s| - 1]);
    StripOfTrimmed(s);
    NotSpecialWord(s);
    GroupOfDigits(s);
    DecimalTruncOfGroup(s);
    NatToStringRoundTrip(n);
  }

  lemma PyIntOfPlainGroup(s: String)
    requires Strip(s) == s && DigitGroup(s)
    ensures PyInt(s) == if DigitCount(s) <= MaxStrDigits then Some(GroupValue(s)) else None
  {
    assert Sign(s) == (false, s);
  }
}
