/**
 * The earlier validators embedded in `_rebuild_phase1.py`: `limpiar_dni`, the cleaning
 * `validar_dni`, the `int(float(...))` based `validar_edad`, and the test that decides
 * whether a failed migration statement may be skipped.
 */
module LegacyValidators {
  import opened Base
  import opened Text
  import opened CharMaps
  import opened Numerals
  import opened PyNum
  import opened Validators

  /** `.replace(".", "").replace("-", "").replace(" ", "")`. */
  function RemoveSeparators(s: String): (r: String)
    ensures '.' !in r && '-' !in r && ' ' !in r
    ensures |r| <= |s|
    ensures forall x :: x in r ==> x in s
  {
    RemoveChar(RemoveChar(RemoveChar(s, '.'), '-'), ' ')
  }

  /** Text made of digits only has no separator to remove. */
  lemma RemoveSeparatorsOfDigits(s: String)
    requires forall i :: 0 <= i < |s| ==> IsDigit(s[i])
    ensures RemoveSeparators(s) == s
  {
    assert '.' !in s && '-' !in s && ' ' !in s;
  }

  /** `t.endswith(".0")`: the text `str()` gives a whole number held as a float ends so. */
  predicate FloatSuffix(t: String) { |t| >= 2 && t[|t| - 2] == '.' && t[|t| - 1] == '0' }

  /**
   * `limpiar_dni` as written: the trailing `.0` of a number read as a float is looked
   * for only after every dot has been removed.
   */
  function LimpiarDniAsWritten(dni: String): (r: String)
    ensures '.' !in r && '-' !in r && ' ' !in r
  {
    if dni == [] then []
    else
      var limpio := RemoveSeparators(Strip(dni));
      if FloatSuffix(limpio) then DropFloatSuffix(limpio) else limpio
  }

  /** `t[:-2]`. */
  function DropFloatSuffix(t: String): (r: String)
    ensures |t| >= 2 ==> r == t[..|t| - 2]
  {
    if |t| >= 2 then t[..|t| - 2] else []
  }

  /** The `.0` branch of `limpiar_dni` can never be taken: the result is just the cleaned text. */
  lemma LimpiarDniSuffixBranchDead(dni: String)
    requires dni != []
    ensures !FloatSuffix(RemoveSeparators(Strip(dni)))
    ensures LimpiarDniAsWritten(dni) == RemoveSeparators(Strip(dni))
  {
    var limpio := RemoveSeparators(Strip(dni));
    if |limpio| >= 2 {
      assert limpio[|limpio| - 2] != '.';
    }
  }

  /** A document number read from a float cell, `"35123456.0"`, comes out with an extra `0`. */
  lemma LimpiarDniAsWrittenKeepsZero(d: String)
    requires AllDigits(d)
    ensures LimpiarDniAsWritten(d + ".0") == d + "0"
  {
    LimpiarDniAsWrittenOfFloatText(d, d + ".0");
    RemoveSeparatorsOfFloatText(d);
  }

  lemma LimpiarDniAsWrittenOfFloatText(d: String, s: String)
    requires AllDigits(d) && s == d + ".0"
    ensures LimpiarDniAsWritten(s) == RemoveSeparators(s)
  {
    FloatTextTrimmed(d, s);
    LimpiarDniAsWrittenOfTrimmed(s);
  }

  lemma LimpiarDniAsWrittenOfTrimmed(s: String)
    requires s != [] && Strip(s) == s
    ensures LimpiarDniAsWritten(s) == RemoveSeparators(s)
  {
    LimpiarDniSuffixBranchDead(s);
  }

  lemma RemoveSeparatorsOfFloatText(d: String)
    requires AllDigits(d)
    ensures RemoveSeparators(d + ".0") == d + "0"
  {
    RemoveSeparatorsAppend(d, ".0");
    RemoveSeparatorsOfDigits(d);
    assert RemoveSeparators(".0") == "0" by {
      assert RemoveChar(".0", '.') == "0" by {
        assert ".0"[1..] == "0";
      }
    }
  }

  /** `d + ".0"` has no blank at either end. */
  lemma FloatTextTrimmed(d: String, s: String)
    requires AllDigits(d) && s == d + ".0"
    ensures s != [] && Strip(s) == s
  {
    assert s[0] == d[0];
    assert s[|s| - 1] == '0';
    StripOfTrimmed(s);
  }

  lemma RemoveSeparatorsAppend(a: String, b: String)
    ensures RemoveSeparators(a + b) == RemoveSeparators(a) + RemoveSeparators(b)
  {
    RemoveCharAppend(a, b, '.');
    RemoveCharAppend(RemoveChar(a, '.'), RemoveChar(b, '.'), '-');
    RemoveCharAppend(RemoveChar(RemoveChar(a, '.'), '-'), RemoveChar(RemoveChar(b, '.'), '-'), ' ');
  }

  lemma RemoveCharIdempotentOnAbsent(a: String)
    requires '.' !in a
    ensures RemoveSeparators(a) == RemoveChar(RemoveChar(a, '-'), ' ')
  {
  }

  lemma RemoveCharAppend(a: String, b: String, c: char)
    ensures RemoveChar(a + b, c) == RemoveChar(a, c) + RemoveChar(b, c)
  {
    if a != [] {
      assert (a + b)[1..] == a[1..] + b;
      RemoveCharAppend(a[1..], b, c);
    } else {
      assert a + b == b;
    }
  }

  /**
   * `limpiar_dni` with the float suffix `.0` dropped from the stripped text before the
   * separators are removed.
   */
  function LimpiarDni(dni: String): (r: String)
    ensures '.' !in r && '-' !in r && ' ' !in r
    ensures |r| <= |dni|
  {
    if dni == [] then [] else CleanStripped(Strip(dni))
  }

  /** The part of `limpiar_dni` after `strip()`: the float suffix dropped, then the separators. */
  function CleanStripped(t: String): (r: String)
    ensures '.' !in r && '-' !in r && ' ' !in r
    ensures |r| <= |t|
  {
    RemoveSeparators(if FloatSuffix(t) then t[..|t| - 2] else t)
  }

  /** The corrected cleaning gives back the number written in a float cell. */
  lemma LimpiarDniOfFloatCell(n: nat)
    ensures LimpiarDni(NatToString(n) + ".0") == NatToString(n)
  {
    var d := NatToString(n);
    LimpiarDniOfFloatText(d, d + ".0");
    RemoveSeparatorsOfDigits(d);
  }

  lemma LimpiarDniOfFloatText(d: String, s: String)
    requires AllDigits(d) && s == d + ".0"
    ensures LimpiarDni(s) == RemoveSeparators(d)
  {
    FloatTextTrimmed(d, s);
    FloatTextSuffix(d, s);
    LimpiarDniOfTrimmedSuffixed(s);
  }

  lemma FloatTextSuffix(d: String, s: String)
    requires s == d + ".0"
    ensures FloatSuffix(s) && s[..|s| - 2] == d
  {
  }

  lemma LimpiarDniOfTrimmedSuffixed(s: String)
    requires Strip(s) == s && FloatSuffix(s)
    ensures LimpiarDni(s) == RemoveSeparators(s[..|s| - 2])
  {
    LimpiarDniUnfold(s);
  }

  lemma LimpiarDniUnfold(s: String)
    requires s != [] && Strip(s) == s
    ensures LimpiarDni(s) == CleanStripped(s)
  {
  }
  /** Without the float suffix both versions clean alike. */
  lemma LimpiarDniVersionsAgree(dni: String)
    requires !FloatSuffix(Strip(dni))
    ensures LimpiarDni(dni) == LimpiarDniAsWritten(dni)
  {
    if dni != [] {
      LimpiarDniSuffixBranchDead(dni);
    }
  }

  /**
   * `DNI_PATTERN.match(t)` with `^\d{7,8}$`: 7 or 8 digits, where `$` also matches just
   * before a final newline.
   */
  predicate DniPatternMatch(t: String)
  {
    DniShape(t) || (|t| > 0 && t[|t| - 1] == '\n' && DniShape(t[..|t| - 1]))
  }

  /**
   * The earlier `validar_dni`: blank is accepted, otherwise the text cleaned after the
   * strip must match the DNI pattern.
   */
  function ValidarDniLegacy(dni: String): (r: Check)
    ensures r.ok <==> IsBlank(dni) || DniPatternMatch(LimpiarDniAsWritten(dni))
    ensures r.msg == (if r.ok then "" else DniMsg)
  {
    StripBlank(dni);
    if Strip(dni) == [] then Valid
    else if DniPatternMatch(LimpiarDniAsWritten(dni)) then Valid
    else Check(false, DniMsg)
  }

  /**
   * A DNI followed by a newline and a separator, as in `1234567\n.`, is accepted: the strip
   * comes before the separator is removed, so the newline stays for `$` to match before. The
   * current validator, which strips last, refuses it.
   */
  lemma ValidarDniLegacyAcceptsNewline(d: String)
    requires DniShape(d)
    ensures ValidarDniLegacy(d + "\n.").ok
    ensures !ValidarDni(d + "\n.").ok
  {
    var s := d + "\n.";
    var t := d + "\n";
    LimpiarDniOfNewline(d);
    assert t[..|t| - 1] == d;
    assert DniPatternMatch(t);
    StripBlank(s);
    assert !DniShape(s) by {
      assert !IsDigit(s[|s| - 1]);
    }
  }

  /** `1234567\n.` is trimmed, and cleaning it removes only the final dot. */
  lemma LimpiarDniOfNewline(d: String)
    requires DniShape(d)
    ensures Strip(d + "\n.") == d + "\n."
    ensures LimpiarDniAsWritten(d + "\n.") == d + "\n"
  {
    var s := d + "\n.";
    assert Trimmed(s) by {
      assert s[0] == d[0] && IsDigit(d[0]);
      assert s[|s| - 1] == '.';
    }
    StripOfTrimmed(s);
    LimpiarDniAsWrittenOfTrimmed(s);
    SeparatorsOfNewline(d);
  }

  /** Removing the separators of `1234567\n.` leaves `1234567\n`. */
  lemma SeparatorsOfNewline(d: String)
    requires AllDigits(d)
    ensures RemoveSeparators(d + "\n.") == d + "\n"
  {
    assert d + "\n." == (d + "\n") + ".";
    RemoveSeparatorsAppend(d + "\n", ".");
    RemoveSeparatorsAppend(d, "\n");
    RemoveSeparatorsOfDigits(d);
    assert RemoveSeparators("\n") == "\n";
    assert RemoveSeparators(".") == "";
  }

  /** A DNI written with thousands dots, as in `35.123.456`, is accepted. */
  lemma ValidarDniLegacyAcceptsDotted(a: String, b: String, c: String)
    requires AllDigits(a) && AllDigits(b) && AllDigits(c)
    requires 1 <= |a| <= 2 && |b| == 3 && |c| == 3
    ensures ValidarDniLegacy(a + "." + b + "." + c).ok
  {
    var s := a + "." + b + "." + c;
    DottedTrimmed(a, b, c, s);
    LimpiarDniAsWrittenOfTrimmed(s);
    DottedSeparators(a, b, c);
    AllDigitsConcat(a, b, c, a + b + c);
  }

  /**
   * A number held as a float, `d + ".0"`, keeps its `0` as written: six or seven digits pass
   * as a DNI one digit longer, eight digits are refused.
   */
  lemma ValidarDniLegacyOfFloatText(d: String)
    requires AllDigits(d) && d != []
    ensures ValidarDniLegacy(d + ".0").ok <==> 6 <= |d| <= 7
  {
    LimpiarDniAsWrittenKeepsZero(d);
    var t := d + "0";
    assert forall i :: 0 <= i < |t| ==> IsDigit(t[i]);
    FloatTextTrimmed(d, d + ".0");
    assert !IsSpace((d + ".0")[0]);
    StripBlank(d + ".0");
  }

  lemma AllDigitsConcat(a: String, b: String, c: String, t: String)
    requires AllDigits(a) && AllDigits(b) && AllDigits(c) && t == a + b + c
    ensures AllDigits(t)
  {
    forall i | 0 <= i < |t| ensures IsDigit(t[i]) {
      if i < |a| {
        assert t[i] == a[i];
      } else if i < |a| + |b| {
        assert t[i] == b[i - |a|];
      } else {
        assert t[i] == c[i - |a| - |b|];
      }
    }
  }

  lemma LimpiarDniOfDotted(a: String, b: String, c: String, s: String)
    requires AllDigits(a) && AllDigits(b) && AllDigits(c) && |c| >= 2
    requires s == a + "." + b + "." + c
    ensures LimpiarDni(s) == a + b + c
  {
    DottedTrimmed(a, b, c, s);
    LimpiarDniNoSuffix(s);
    DottedSeparators(a, b, c);
  }

  lemma DottedTrimmed(a: String, b: String, c: String, s: String)
    requires AllDigits(a) && AllDigits(b) && AllDigits(c) && |c| >= 2
    requires s == a + "." + b + "." + c
    ensures Strip(s) == s && |s| >= 2 && s[|s| - 2] != '.'
  {
    assert s[0] == a[0];
    assert s[|s| - 1] == c[|c| - 1];
    assert s[|s| - 2] == c[|c| - 2];
    StripOfTrimmed(s);
  }

  lemma LimpiarDniNoSuffix(s: String)
    requires Strip(s) == s && |s| >= 2 && s[|s| - 2] != '.'
    ensures LimpiarDni(s) == RemoveSeparators(s)
  {
    LimpiarDniUnfold(s);
  }

  lemma DottedSeparators(a: String, b: String, c: String)
    requires AllDigits(a) && AllDigits(b) && AllDigits(c)
    ensures RemoveSeparators(a + "." + b + "." + c) == a + b + c
  {
    var dot := RemoveSeparators(".");
    assert dot == [] by {
      assert "."[1..] == [];
    }
    RemoveSeparatorsOfDigits(a);
    RemoveSeparatorsOfDigits(b);
    RemoveSeparatorsOfDigits(c);
    RemoveSeparatorsAppend(a, ".");
    RemoveSeparatorsAppend(a + ".", b);
    RemoveSeparatorsAppend(a + "." + b, ".");
    RemoveSeparatorsAppend(a + "." + b + ".", c);
  }

  /** The earlier validator accepts every DNI the current one accepts. */
  lemma ValidarDniLegacyWeaker(dni: String)
    requires ValidarDni(dni).ok
    ensures ValidarDniLegacy(dni).ok
  {
    StripBlank(dni);
    if !IsBlank(dni) {
      var t := Strip(dni);
      assert DniShape(t);
      LimpiarDniSuffixBranchDead(dni);
      RemoveSeparatorsOfDigits(t);
    }
  }

  const EdadRangeLegacyMsg := "La edad debe estar entre 0 y 150 años"

  /**
   * The earlier `validar_edad`: `None` or blank text is accepted; otherwise
   * `int(float(str(edad)))` must lie in 0..150. `ValueError` becomes a rejection, while
   * the `OverflowError` raised for an infinite value is not caught and leaves the
   * validator as an error. An integer of magnitude at least `InfBound` is such a value:
   * `float(str(n))` rounds it to an infinity. One of more than 4300 digits never gets that
   * far: `str(n)` raises `ValueError`, which is caught.
   */
  function ValidarEdadLegacy(edad: EdadArg): (r: Result<Check>)
    ensures edad.NoEdad? || (edad.EdadText? && IsBlank(edad.text)) ==> r == Ok(Valid)
    ensures edad.EdadInt? && StrTooLong(edad.n) ==> r == Ok(Check(false, EdadNotIntMsg))
    ensures edad.EdadInt? && !StrTooLong(edad.n) ==> (r.Err? <==> edad.n <= -(InfBound as int) || InfBound <= edad.n)
    ensures edad.EdadInt? && r.Ok? ==> (r.value.ok <==> 0 <= edad.n <= 150)
    ensures edad.EdadText? && !IsBlank(edad.text) ==>
              match PyIntOfFloat(edad.text)
              case None => r == Ok(Check(false, EdadNotIntMsg))
              case Some(ValueErr) => r == Ok(Check(false, EdadNotIntMsg))
              case Some(OverflowErr) => r.Err?
              case Some(Value(n)) => r.Ok? && (r.value.ok <==> 0 <= n <= 150)
    ensures r.Ok? ==> (r.value.ok <==> r.value.msg == "")
  {
    match edad
    case NoEdad => Ok(Valid)
    case EdadText(t) =>
      StripBlank(t);
      if Strip(t) == [] then Ok(Valid)
      else (match PyIntOfFloat(t)
        case None => Ok(Check(false, EdadNotIntMsg))
        case Some(ValueErr) => Ok(Check(false, EdadNotIntMsg))
        case Some(OverflowErr) => Err(EdadOverflowMsg)
        case Some(Value(n)) => Ok(EdadInRangeLegacy(n)))
    case EdadInt(n) =>
      if StrTooLong(n) then
        AgeFitsStr(n);
        Ok(Check(false, EdadNotIntMsg))
      else if n <= -(InfBound as int) || InfBound <= n then Err(EdadOverflowMsg)
      else Ok(EdadInRangeLegacy(n))
  }

  /** A plausible age has at most three digits, far within the limit of `str()`. */
  lemma AgeFitsStr(n: int)
    ensures 0 <= n <= 150 ==> !StrTooLong(n)
  {
    if 0 <= n <= 150 {
      NatToStringLength(n, 3);
      assert Pow10(3) == 1000;
    }
  }

  /** The `OverflowError` that escapes `validar_edad`. */
  const EdadOverflowMsg := "OverflowError: cannot convert float infinity to integer"

  function EdadInRangeLegacy(n: int): (r: Check)
    ensures r.ok <==> 0 <= n <= 150
    ensures r.msg == (if r.ok then "" else EdadRangeLegacyMsg)
  {
    if n < 0 || n > 150 then Check(false, EdadRangeLegacyMsg) else Valid
  }

  /** Every age the current validator accepts, the earlier one accepts too. */
  lemma ValidarEdadLegacyWeaker(edad: EdadArg)
    requires ValidarEdad(edad).ok
    ensures ValidarEdadLegacy(edad) == Ok(Valid)
  {
    if edad.EdadText? && !IsBlank(edad.text) {
      IntOfFloatAgrees(edad.text);
    }
  }

  /** Text such as `"30.9"` that the current validator rejects is accepted here (truncated to 30). */
  lemma ValidarEdadLegacyTruncates(ip: String, fp: String)
    requires AllDigits(ip) && AllDigits(fp)
    requires DigitsValue(ip) <= 150
    ensures PyInt(ip + "." + fp).None?
    ensures ValidarEdadLegacy(EdadText(ip + "." + fp)) == Ok(Valid)
  {
    var s := ip + "." + fp;
    FractionText(ip, fp, s);
    PyIntOfFraction(s);
    PyIntOfFloatOfFraction(ip, fp, s);
    ValidarEdadLegacyOfValue(s, DigitsValue(ip));
  }

  lemma ValidarEdadLegacyOfValue(s: String, n: int)
    requires !IsBlank(s) && PyIntOfFloat(s) == Some(Value(n)) && 0 <= n <= 150
    ensures ValidarEdadLegacy(EdadText(s)) == Ok(Valid)
  {
  }

  /** The facts about `ip.fp` the parsers look at. */
  lemma FractionText(ip: String, fp: String, s: String)
    requires AllDigits(ip) && AllDigits(fp) && s == ip + "." + fp
    ensures Strip(s) == s && !IsBlank(s) && IsDigit(s[0]) && !DigitGroup(s)
    ensures 'e' !in ToLower(s) && '.' in s && IndexOf(s, '.') == |ip|
    ensures s[..|ip|] == ip && s[|ip| + 1..] == fp
  {
    assert s[0] == ip[0];
    assert s[|s| - 1] == fp[|fp| - 1];
    StripOfTrimmed(s);
    assert s[|ip|] == '.';
    var lb := ToLower(s);
    forall i | 0 <= i < |lb| ensures lb[i] != 'e' {
      if i < |ip| {
        assert s[i] == ip[i];
      } else if i > |ip| {
        assert s[i] == fp[i - |ip| - 1];
      }
    }
    assert '.' !in ip;
    IndexOfAfterDot(ip, fp);
  }

  lemma PyIntOfFraction(s: String)
    requires Strip(s) == s && s != [] && IsDigit(s[0]) && !DigitGroup(s)
    ensures PyInt(s).None?
  {
    assert Sign(s) == (false, s);
  }

  lemma PyIntOfFloatOfFraction(ip: String, fp: String, s: String)
    requires AllDigits(ip) && AllDigits(fp) && s == ip + "." + fp && DigitsValue(ip) < InfBound
    requires Strip(s) == s && !IsBlank(s) && IsDigit(s[0]) && !DigitGroup(s)
    requires 'e' !in ToLower(s) && '.' in s && IndexOf(s, '.') == |ip|
    requires s[..|ip|] == ip && s[|ip| + 1..] == fp
    ensures PyIntOfFloat(s) == Some(Value(DigitsValue(ip)))
  {
    DecimalTruncOfFraction(ip, fp, s);
    NotSpecialWord(s);
  }

  lemma DecimalTruncOfFraction(ip: String, fp: String, s: String)
    requires AllDigits(ip) && AllDigits(fp) && s == ip + "." + fp
    requires 'e' !in ToLower(s) && '.' in s && IndexOf(s, '.') == |ip|
    requires s[..|ip|] == ip && s[|ip| + 1..] == fp
    ensures DecimalTrunc(s) == Some(DigitsValue(ip))
  {
    FractionValue(ip, fp);
    DecimalTruncOfPoint(s, ip, fp);
  }

  lemma FractionValue(ip: String, fp: String)
    requires AllDigits(ip) && AllDigits(fp)
    ensures DigitGroup(ip) && DigitGroup(fp)
    ensures |RemoveChar(fp, '_')| == |fp|
    ensures TruncValue(ip, fp, 0) == DigitsValue(ip)
  {
    GroupOfDigits(ip);
    GroupOfDigits(fp);
    assert '_' !in fp by {
      assert forall i :: 0 <= i < |fp| ==> IsDigit(fp[i]);
    }
    DigitsValueBound(fp);
    TruncValueOfDigits(ip, fp);
  }

  lemma TruncValueOfDigits(ip: String, fp: String)
    requires AllDigits(ip) && AllDigits(fp)
    requires DigitGroup(ip) && DigitGroup(fp) && RemoveChar(fp, '_') == fp
    requires GroupValue(ip) == DigitsValue(ip) && GroupValue(fp) == DigitsValue(fp)
    requires DigitsValue(fp) < Pow10(|fp|)
    ensures TruncValue(ip, fp, 0) == DigitsValue(ip)
  {
    TruncValueUnfold(ip, fp);
    FractionTruncates(DigitsValue(ip), DigitsValue(fp), |fp|);
  }

  lemma TruncValueUnfold(ip: String, fp: String)
    requires DigitGroup(ip) && DigitGroup(fp)
    ensures var k := |RemoveChar(fp, '_')|;
      TruncValue(ip, fp, 0) == ShiftDown(ShiftUp(GroupValue(ip), k) + GroupValue(fp), k)
  {
  }

  /** `DecimalTrunc` of a literal with a point and no exponent. */
  lemma DecimalTruncOfPoint(s: String, ip: String, fp: String)
    requires 'e' !in ToLower(s) && '.' in s
    requires s[..IndexOf(s, '.')] == ip && s[IndexOf(s, '.') + 1..] == fp
    requires DigitGroup(ip) && DigitGroup(fp)
    ensures DecimalTrunc(s) == Some(TruncValue(ip, fp, 0))
  {
    assert SplitExponent(s) == (s, None);
    assert SplitPoint(s) == (ip, fp);
  }

  lemma IndexOfAfterDot(ip: String, fp: String)
    requires '.' !in ip
    ensures IndexOf(ip + "." + fp, '.') == |ip|
  {
    var s := ip + "." + fp;
    assert s[|ip|] == '.';
    assert s[..|ip|] == ip;
  }

  /** Dropping `k` digits from `ipv` followed by a `k`-digit fraction leaves `ipv`. */
  lemma {:induction false} FractionTruncates(ipv: nat, fpv: nat, k: nat)
    requires fpv < Pow10(k)
    ensures ShiftDown(ShiftUp(ipv, k) + fpv, k) == ipv
  {
    if k > 0 {
      var up := ShiftUp(ipv, k - 1);
      assert (10 * up + fpv) / 10 == up + fpv / 10;
      FractionTruncates(ipv, fpv / 10, k - 1);
    }
  }

  // ---------------------------------------------------------------- migrations

  const DuplicateColumnMarker := "duplicate column name:"

  /**
   * `_is_skippable_migration_error`: the lower-cased error text says that a table already
   * exists or that a column is duplicated; failing that, it names the duplicated column.
   */
  function IsSkippableMigrationError(error: String): bool
  {
    var t := ToLower(error);
    if Contains(t, "already exists") || Contains(t, "duplicate column") then true
    else if Contains(t, DuplicateColumnMarker) then true
    else false
  }

  /** The test on the column-name marker adds nothing: it only holds when "duplicate column" does. */
  lemma SkippableMigrationErrorIff(error: String)
    ensures IsSkippableMigrationError(error)
            <==> Contains(ToLower(error), "already exists") || Contains(ToLower(error), "duplicate column")
  {
    var t := ToLower(error);
    if Contains(t, DuplicateColumnMarker) {
      var i :| 0 <= i <= |t| - |DuplicateColumnMarker| && OccursAt(t, DuplicateColumnMarker, i);
      assert t[i..i + 16] == t[i..i + |DuplicateColumnMarker|][..16];
      assert OccursAt(t, "duplicate column", i);
    }
  }
}
