/**
 * Python `datetime.date` values, `str(date)`, and `datetime.strptime` restricted to the
 * directives the importer uses (`%Y`, `%m`, `%d`, `%y`) in three-field formats with a
 * separator character between the fields.
 *
 * CPython compiles a format into a regular expression: `%Y` is four digits, `%m` is
 * `1[0-2]|0[1-9]|[1-9]`, `%d` is `3[01]|[12]\d|0[1-9]|[1-9]| [1-9]`, `%y` is two digits
 * (00-68 read as 20xx, 69-99 as 19xx). No field can contain a separator, so each field
 * runs up to the next separator; a field is accepted when it is a word of its
 * directive's language, and the whole text must be consumed. The resulting triple must
 * be a real calendar date with a year from 1 to 9999, otherwise `ValueError`.
 */
module Dates {
  import opened Base
  import opened Text
  import opened Numerals

  datatype Date = Date(year: int, month: int, day: int)

  predicate IsLeap(y: int) { (y % 4 == 0 && y % 100 != 0) || y % 400 == 0 }

  function DaysInMonth(y: int, m: int): (n: int)
    requires 1 <= m <= 12
    ensures 28 <= n <= 31
  {
    if m == 2 then (if IsLeap(y) then 29 else 28)
    else if m == 4 || m == 6 || m == 9 || m == 11 then 30
    else 31
  }

  /** The dates `datetime.date` can represent. */
  predicate ValidDate(d: Date)
  {
    1 <= d.year <= 9999 && 1 <= d.month <= 12 && 1 <= d.day <= DaysInMonth(d.year, d.month)
  }

  /** `a < b` on dates: year, then month, then day. */
  predicate Before(a: Date, b: Date)
  {
    a.year < b.year
    || (a.year == b.year && a.month < b.month)
    || (a.year == b.year && a.month == b.month && a.day < b.day)
  }

  /** Days since an arbitrary origin; `Before` is exactly the order of these numbers. */
  function DayNumber(d: Date): int
    requires ValidDate(d)
  {
    d.year * 372 + d.month * 31 + d.day
  }

  lemma BeforeIsDayOrder(a: Date, b: Date)
    requires ValidDate(a) && ValidDate(b)
    ensures Before(a, b) <==> DayNumber(a) < DayNumber(b)
  {
    if a.year < b.year {
      assert DayNumber(a) <= a.year * 372 + 12 * 31 + 31;
      assert (a.year + 1) * 372 <= b.year * 372;
    } else if a.year > b.year {
      assert DayNumber(b) <= b.year * 372 + 12 * 31 + 31;
      assert (b.year + 1) * 372 <= a.year * 372;
    }
  }

  /** Date comparison is a strict total order. */
  lemma BeforeTotalOrder(a: Date, b: Date, c: Date)
    ensures !Before(a, a)
    ensures Before(a, b) && Before(b, c) ==> Before(a, c)
    ensures a == b || Before(a, b) || Before(b, a)
  {
  }

  // ---------------------------------------------------------------- str(date)

  /** `n` written with exactly `width` digits, zero-padded on the left. */
  function Padded(n: nat, width: nat): (r: String)
    requires n < Pow10(width)
    ensures |r| == width
    ensures forall i :: 0 <= i < |r| ==> IsDigit(r[i])
    ensures DigitsValue(r) == n
  {
    if width == 0 then []
    else
      var r := Padded(n / 10, width - 1) + [DigitChar(n % 10)];
      assert r[..|r| - 1] == Padded(n / 10, width - 1);
      r
  }

  /** `str(d)` / `d.isoformat()`: `YYYY-MM-DD`. */
  function Iso(d: Date): (r: String)
    requires ValidDate(d)
    ensures |r| == 10 && r[4] == '-' && r[7] == '-'
  {
    Padded(d.year, 4) + "-" + Padded(d.month, 2) + "-" + Padded(d.day, 2)
  }

  // ---------------------------------------------------------------- strptime

  datatype Order = YMD | DMY | MDY

  /**
   * A format such as `%d/%m/%Y`: the order of the fields, the separator written between
   * them, and whether the year is `%y` (two digits) rather than `%Y`.
   */
  datatype Format = Format(order: Order, sep: char, shortYear: bool)

  predicate SeparatorChar(c: char) { c == '-' || c == '/' || c == '.' }

  function DigitVal(c: char): int
    requires IsDigit(c)
  {
    c as int - '0' as int
  }

  predicate NonZeroDigit(c: char) { '1' <= c <= '9' }

  /** `%Y`: four digits. */
  function ParseYear4(t: String): (r: Option<int>)
    ensures r.Some? ==> 0 <= r.value <= 9999
  {
    if |t| == 4 && AllDigits(t) then
      DigitsValueBound(t);
      Some(DigitsValue(t))
    else None
  }

  /** `%y`: two digits; 00-68 mean 2000-2068 and 69-99 mean 1969-1999. */
  function ParseYear2(t: String): (r: Option<int>)
    ensures r.Some? ==> 1969 <= r.value <= 2068
  {
    if |t| == 2 && AllDigits(t) then
      var v := DigitsValue(t);
      DigitsValueBound(t);
      Some(if v <= 68 then 2000 + v else 1900 + v)
    else None
  }

  /** `%m`: `1[0-2]|0[1-9]|[1-9]`. */
  function ParseMonth(t: String): (r: Option<int>)
    ensures r.Some? ==> 1 <= r.value <= 12
  {
    if |t| == 2 && t[0] == '1' && '0' <= t[1] <= '2' then Some(10 + DigitVal(t[1]))
    else if |t| == 2 && t[0] == '0' && NonZeroDigit(t[1]) then Some(DigitVal(t[1]))
    else if |t| == 1 && NonZeroDigit(t[0]) then Some(DigitVal(t[0]))
    else None
  }

  /** `%d`: `3[01]|[12]\d|0[1-9]|[1-9]| [1-9]`. */
  function ParseDay(t: String): (r: Option<int>)
    ensures r.Some? ==> 1 <= r.value <= 31
  {
    if |t| == 2 && t[0] == '3' && '0' <= t[1] <= '1' then Some(30 + DigitVal(t[1]))
    else if |t| == 2 && '1' <= t[0] <= '2' && IsDigit(t[1]) then Some(10 * DigitVal(t[0]) + DigitVal(t[1]))
    else if |t| == 2 && t[0] == '0' && NonZeroDigit(t[1]) then Some(DigitVal(t[1]))
    else if |t| == 1 && NonZeroDigit(t[0]) then Some(DigitVal(t[0]))
    else if |t| == 2 && t[0] == ' ' && NonZeroDigit(t[1]) then Some(DigitVal(t[1]))
    else None
  }

  /** The three fields of `s` around the first two occurrences of `sep`, if there are two. */
  function Fields(s: String, sep: char): (r: Option<(String, String, String)>)
    ensures r.Some? ==> r.value.0 + [sep] + r.value.1 + [sep] + r.value.2 == s
    ensures r.Some? ==> sep !in r.value.0 && sep !in r.value.1
  {
    if sep !in s then None
    else
      var i := IndexOf(s, sep);
      var rest := s[i + 1..];
      if sep !in rest then None
      else
        var j := IndexOf(rest, sep);
        SplitTwice(s, i, j);
        Some((s[..i], rest[..j], rest[j + 1..]))
  }

  lemma SplitTwice(s: String, i: nat, j: nat)
    requires i < |s| && j < |s| - i - 1
    ensures s == s[..i] + [s[i]] + s[i + 1..][..j] + [s[i + 1..][j]] + s[i + 1..][j + 1..]
  {
    var rest := s[i + 1..];
    assert rest == rest[..j] + [rest[j]] + rest[j + 1..];
    assert s == s[..i] + [s[i]] + rest;
  }

  /** `datetime.strptime(s, f).date()`, `None` where CPython raises `ValueError`. */
  function Strptime(s: String, f: Format): (r: Option<Date>)
    ensures r.Some? ==> ValidDate(r.value)
  {
    match Fields(s, f.sep)
    case None => None
    case Some((a, b, c)) =>
      var (yt, mt, dt) := match f.order
        case YMD => (a, b, c)
        case DMY => (c, b, a)
        case MDY => (c, a, b);
      var y := if f.shortYear then ParseYear2(yt) else ParseYear4(yt);
      var m := ParseMonth(mt);
      var d := ParseDay(dt);
      if y.Some? && m.Some? && d.Some? && ValidDate(Date(y.value, m.value, d.value))
      then Some(Date(y.value, m.value, d.value))
      else None
  }

  const IsoFormat := Format(YMD, '-', false)

  lemma TwoDigits(n: nat)
    requires n < 100
    ensures Padded(n, 2) == [DigitChar(n / 10), DigitChar(n % 10)]
  {
    assert Padded(n / 10, 1) == [DigitChar(n / 10)];
  }

  lemma DigitCharVal(n: nat)
    requires n < 10
    ensures IsDigit(DigitChar(n)) && DigitVal(DigitChar(n)) == n
  {
  }

  lemma ParseMonthPadded(m: int)
    requires 1 <= m <= 12
    ensures ParseMonth(Padded(m, 2)) == Some(m)
  {
    TwoDigits(m);
    DigitCharVal(m / 10);
    DigitCharVal(m % 10);
  }

  lemma ParseDayPadded(d: int)
    requires 1 <= d <= 31
    ensures ParseDay(Padded(d, 2)) == Some(d)
  {
    TwoDigits(d);
    DigitCharVal(d / 10);
    DigitCharVal(d % 10);
  }

  lemma IndexOfAfter(a: String, c: char, b: String)
    requires c !in a
    ensures IndexOf(a + [c] + b, c) == |a|
  {
    var s := a + [c] + b;
    assert s[|a|] == c;
    assert s[..|a|] == a;
  }

  /** Splitting text built from three separator-free parts gives the parts back. */
  lemma FieldsOfJoined(a: String, b: String, c: String, sep: char)
    requires sep !in a && sep !in b
    ensures Fields(a + [sep] + b + [sep] + c, sep) == Some((a, b, c))
  {
    var s := a + [sep] + b + [sep] + c;
    assert s == a + [sep] + (b + [sep] + c);
    IndexOfAfter(a, sep, b + [sep] + c);
    var rest := s[|a| + 1..];
    assert rest == b + [sep] + c;
    IndexOfAfter(b, sep, c);
    assert s[..|a|] == a;
    assert rest[..|b|] == b;
    assert rest[|b| + 1..] == c;
  }

  /** `strptime(str(d), "%Y-%m-%d")` gives `d` back for every valid date. */
  lemma IsoRoundTrip(d: Date)
    requires ValidDate(d)
    ensures Strptime(Iso(d), IsoFormat) == Some(d)
  {
    var y, m, dd := Padded(d.year, 4), Padded(d.month, 2), Padded(d.day, 2);
    assert Iso(d) == y + ['-'] + m + ['-'] + dd;
    assert '-' !in y;
    assert '-' !in m;
    FieldsOfJoined(y, m, dd, '-');
    ParseMonthPadded(d.month);
    ParseDayPadded(d.day);
    assert ParseYear4(y) == Some(d.year);
  }
}
