/**
 * The value parsers of the earlier importer embedded in `_rebuild_phase2.py`: `_parse_date`,
 * `_parse_edad`, `_parse_documento` and `_split_apellido_nombre`. Each takes one spreadsheet
 * cell as pandas hands it over.
 */
module LegacyValues {
  import opened Base
  import opened Text
  import opened CharMaps
  import opened Numerals
  import opened Dates
  import opened PyNum
  import opened Validators
  import opened LegacyValidators
  import ExcelRow

  /** A date `datetime.date` can hold. */
  type CalendarDate = d: Date | ValidDate(d) witness Date(1, 1, 1)

  /**
   * A cell of a row: NaN (an empty cell), a value seen through its `str()` text, or a date
   * cell, which pandas reads as a `Timestamp` at midnight.
   */
  datatype Cell = Nan | Text(s: String) | Stamp(d: CalendarDate)

  /** What `str()` of a `Timestamp` at midnight adds after the date. */
  const Midnight: String := " 00:00:00"

  /** `str(valor)`. */
  function CellText(c: Cell): String
  {
    match c
    case Nan => "nan"
    case Text(s) => s
    case Stamp(d) => Iso(d) + Midnight
  }

  /** `valor is None or pd.isna(valor)`. */
  predicate Absent(v: Option<Cell>) { v.None? || v.value.Nan? }

  /** `nat`, written out character by character. */
  predicate NatWord(w: String) { |w| == 3 && w[0] == 'n' && w[1] == 'a' && w[2] == 't' }

  /** `none`, written out character by character. */
  predicate NoneWord(w: String) { |w| == 4 && w[0] == 'n' && w[1] == 'o' && w[2] == 'n' && w[3] == 'e' }

  // ---------------------------------------------------------------- _parse_date

  /** The formats `_parse_date` tries, in order: day first, then ISO, two-digit years, dots, US last. */
  const LegacyDateFormats: seq<Format> := [
    Format(DMY, '/', false), Format(DMY, '-', false), Format(YMD, '-', false),
    Format(DMY, '/', true), Format(DMY, '-', true), Format(DMY, '.', false),
    Format(DMY, '.', true), Format(YMD, '/', false), Format(MDY, '/', false)
  ]

  /** `_parse_date` on text: nothing for empty text and for `nat`, `nan`, `none`; else the first format that parses. */
  function ParseDateText(s: String): (r: Option<Date>)
    ensures r.Some? ==> ValidDate(r.value)
  {
    var texto := Strip(s);
    var low := ToLower(texto);
    if texto == [] || NatWord(low) || NanWord(low) || NoneWord(low) then None
    else ExcelRow.FirstFormat(texto, LegacyDateFormats)
  }

  /** `_parse_date(valor)` with a date cell turned into its date, as the code evidently means. */
  function ParseDateLegacy(v: Option<Cell>): (r: Option<Date>)
    ensures r.Some? ==> ValidDate(r.value)
  {
    match v
    case None => None
    case Some(Nan) => None
    case Some(Stamp(d)) => Some(d)
    case Some(Text(s)) => ParseDateText(s)
  }

  /** A parsed date as `_parse_date` returns it as written: a `date`, or a date cell's `Timestamp` itself. */
  datatype Moment = DateOnly(d: CalendarDate) | DateTime(d: CalendarDate)

  /** `str()` of the value: a `Timestamp` keeps its time of day. */
  function MomentText(m: Moment): String
  {
    match m
    case DateOnly(d) => Iso(d)
    case DateTime(d) => Iso(d) + Midnight
  }

  /**
   * `_parse_date` as written: a `Timestamp` is an instance of `date`, so the test meant to
   * call `.date()` on date-times returns the `Timestamp` unchanged.
   */
  function ParseDateLegacyAsWritten(v: Option<Cell>): (r: Option<Moment>)
  {
    match v
    case None => None
    case Some(Nan) => None
    case Some(Stamp(d)) => Some(DateTime(d))
    case Some(Text(s)) =>
      match ParseDateText(s)
      case None => None
      case Some(d) => Some(DateOnly(d))
  }

  /** Both versions agree on every cell that is not a date cell. */
  lemma ParseDateVersionsAgree(v: Option<Cell>)
    requires v.None? || !v.value.Stamp?
    ensures ParseDateLegacy(v).None? <==> ParseDateLegacyAsWritten(v).None?
    ensures ParseDateLegacy(v).Some? ==> ParseDateLegacyAsWritten(v) == Some(DateOnly(ParseDateLegacy(v).value))
  {
  }

  /** Text with digits at both ends is read by the format search alone. */
  lemma ParseDateOfDigitEnds(s: String)
    requires |s| >= 5 && IsDigit(s[0]) && IsDigit(s[|s| - 1])
    ensures ParseDateLegacy(Some(Text(s))) == ExcelRow.FirstFormat(s, LegacyDateFormats)
  {
    StripOfTrimmed(s);
  }

  /** No format whose separator is missing from the text parses it. */
  lemma StrptimeWithoutSep(s: String, f: Format)
    requires f.sep !in s
    ensures Strptime(s, f) == None
  {
  }

  /** Day first fails when the first field has four characters. */
  lemma DayFieldTooLong(s: String, a: String, b: String, c: String, sep: char, short: bool)
    requires Fields(s, sep) == Some((a, b, c)) && |a| == 4
    ensures Strptime(s, Format(DMY, sep, short)) == None
  {
  }

  /** Day first fails when the middle field is no month. */
  lemma MonthFieldNoMonth(s: String, a: String, b: String, c: String, sep: char, short: bool)
    requires Fields(s, sep) == Some((a, b, c)) && ParseMonth(b) == None
    ensures Strptime(s, Format(DMY, sep, short)) == None
  {
  }

  /** A two-digit year fails on a four-character last field. */
  lemma ShortYearTooLong(s: String, a: String, b: String, c: String, sep: char)
    requires Fields(s, sep) == Some((a, b, c)) && |c| == 4
    ensures Strptime(s, Format(DMY, sep, true)) == None
  {
  }

  /** Year first fails when the first field has two characters. */
  lemma YearFieldShort(s: String, a: String, b: String, c: String, sep: char)
    requires Fields(s, sep) == Some((a, b, c)) && |a| == 2
    ensures Strptime(s, Format(YMD, sep, false)) == None
  {
  }

  /** Year first fails when the last field is longer than a day. */
  lemma DayFieldLong(s: String, a: String, b: String, c: String, sep: char)
    requires Fields(s, sep) == Some((a, b, c)) && |c| > 2
    ensures Strptime(s, Format(YMD, sep, false)) == None
  {
  }

  /** `str(d)`: its three fields around `-`, no other separator, digits at both ends. */
  lemma IsoShape(d: Date)
    requires ValidDate(d)
    ensures Fields(Iso(d), '-') == Some((Padded(d.year, 4), Padded(d.month, 2), Padded(d.day, 2)))
    ensures '/' !in Iso(d) && IsDigit(Iso(d)[0]) && IsDigit(Iso(d)[9])
  {
    var y, m, dd := Padded(d.year, 4), Padded(d.month, 2), Padded(d.day, 2);
    assert Iso(d) == y + ['-'] + m + ['-'] + dd;
    JoinedDigits(y, m, dd, '-');
    FieldsOfJoined(y, m, dd, '-');
  }

  /** Three runs of digits joined by a separator: digits at both ends, nothing but digits and it. */
  lemma JoinedDigits(a: String, b: String, c: String, sep: char)
    requires AllDigits(a) && AllDigits(b) && AllDigits(c)
    ensures var s := a + [sep] + b + [sep] + c;
      IsDigit(s[0]) && IsDigit(s[|s| - 1]) && forall x :: x in s && x != sep ==> IsDigit(x)
    ensures !IsDigit(sep) ==> sep !in a && sep !in b
  {
    var s := a + [sep] + b + [sep] + c;
    forall x | x in s && x != sep
      ensures IsDigit(x)
    {
      var i :| 0 <= i < |s| && s[i] == x;
      if i < |a| {
        assert s[i] == a[i];
      } else if |a| < i < |a| + 1 + |b| {
        assert s[i] == b[i - |a| - 1];
      } else if |a| + 1 + |b| < i {
        assert s[i] == c[i - |a| - |b| - 2];
      }
    }
  }

  /** Text the two day-first formats fail on and the ISO format reads is read by the third format. */
  lemma IsoSearch(s: String, x: Date)
    requires Strptime(s, Format(DMY, '/', false)) == None && Strptime(s, Format(DMY, '-', false)) == None
    requires Strptime(s, IsoFormat) == Some(x)
    ensures ExcelRow.FirstFormat(s, LegacyDateFormats) == Some(x)
  {
    var fs := LegacyDateFormats;
    ExcelRow.FirstFormatIsFirst(s, fs);
    var i := ExcelRow.FirstFormatIndex(s, fs);
    assert fs[0] == Format(DMY, '/', false) && fs[1] == Format(DMY, '-', false) && fs[2] == IsoFormat;
    assert i != 0;
    assert i != 1;
    assert !(i > 2);
  }

  /** `str(d)` of a date, `YYYY-MM-DD`, reads back as `d`: the two day-first formats before it fail. */
  lemma ParseDateLegacyIso(d: Date)
    requires ValidDate(d)
    ensures ParseDateLegacy(Some(Text(Iso(d)))) == Some(d)
  {
    var s := Iso(d);
    IsoShape(d);
    ParseDateOfDigitEnds(s);
    StrptimeWithoutSep(s, Format(DMY, '/', false));
    DayFieldTooLong(s, Padded(d.year, 4), Padded(d.month, 2), Padded(d.day, 2), '-', false);
    IsoRoundTrip(d);
    IsoSearch(s, d);
  }

  /** `dd/mm/yyyy` reads day first with the first format. */
  lemma ParseDateLegacyDayFirst(d: Date)
    requires ValidDate(d)
    ensures ParseDateLegacy(Some(Text(ExcelRow.SlashedDayFirst(d)))) == Some(d)
  {
    var s := ExcelRow.SlashedDayFirst(d);
    ExcelRow.StrptimeDayFirst(d);
    assert s == Padded(d.day, 2) + "/" + Padded(d.month, 2) + "/" + Padded(d.year, 4);
    assert IsDigit(s[0]) && IsDigit(s[|s| - 1]);
    ParseDateOfDigitEnds(s);
    ExcelRow.FirstFormatIsFirst(s, LegacyDateFormats);
    assert LegacyDateFormats[0] == Format(DMY, '/', false);
    assert ExcelRow.FirstFormatIndex(s, LegacyDateFormats) == 0;
  }

  /** `mm/dd/yyyy` text: the US order of the last format. */
  function SlashedMonthFirst(d: Date): String
    requires ValidDate(d)
  {
    Padded(d.month, 2) + "/" + Padded(d.day, 2) + "/" + Padded(d.year, 4)
  }

  /** `mm/dd/yyyy`: its three fields around `/`, no other separator, digits at both ends. */
  lemma SlashedMonthFirstShape(d: Date)
    requires ValidDate(d)
    ensures Fields(SlashedMonthFirst(d), '/') == Some((Padded(d.month, 2), Padded(d.day, 2), Padded(d.year, 4)))
    ensures '-' !in SlashedMonthFirst(d) && '.' !in SlashedMonthFirst(d)
    ensures IsDigit(SlashedMonthFirst(d)[0]) && IsDigit(SlashedMonthFirst(d)[9])
  {
    var m, dd, y := Padded(d.month, 2), Padded(d.day, 2), Padded(d.year, 4);
    assert SlashedMonthFirst(d) == m + ['/'] + dd + ['/'] + y;
    JoinedDigits(m, dd, y, '/');
    FieldsOfJoined(m, dd, y, '/');
  }

  /** Two digits 13 to 31 are no month. */
  lemma NoMonth(n: int)
    requires 13 <= n <= 31
    ensures ParseMonth(Padded(n, 2)) == None
  {
    TwoDigits(n);
    DigitCharVal(n / 10);
    DigitCharVal(n % 10);
  }

  /** Month first on `mm/dd/yyyy` text gives the date. */
  lemma StrptimeMonthFirst(d: Date)
    requires ValidDate(d)
    ensures Strptime(SlashedMonthFirst(d), Format(MDY, '/', false)) == Some(d)
  {
    SlashedMonthFirstShape(d);
    ParseMonthPadded(d.month);
    ParseDayPadded(d.day);
    assert ParseYear4(Padded(d.year, 4)) == Some(d.year);
  }

  /** Text every format but the last fails on, and the last reads, is read month first. */
  lemma MonthFirstSearch(s: String, x: Date)
    requires Strptime(s, Format(DMY, '/', false)) == None && Strptime(s, Format(DMY, '-', false)) == None
    requires Strptime(s, Format(YMD, '-', false)) == None && Strptime(s, Format(DMY, '/', true)) == None
    requires Strptime(s, Format(DMY, '-', true)) == None && Strptime(s, Format(DMY, '.', false)) == None
    requires Strptime(s, Format(DMY, '.', true)) == None && Strptime(s, Format(YMD, '/', false)) == None
    requires Strptime(s, Format(MDY, '/', false)) == Some(x)
    ensures ExcelRow.FirstFormat(s, LegacyDateFormats) == Some(x)
  {
    var fs := LegacyDateFormats;
    ExcelRow.FirstFormatIsFirst(s, fs);
    var i := ExcelRow.FirstFormatIndex(s, fs);
    assert fs[0] == Format(DMY, '/', false) && fs[1] == Format(DMY, '-', false) && fs[2] == Format(YMD, '-', false);
    assert fs[3] == Format(DMY, '/', true) && fs[4] == Format(DMY, '-', true) && fs[5] == Format(DMY, '.', false);
    assert fs[6] == Format(DMY, '.', true) && fs[7] == Format(YMD, '/', false) && fs[8] == Format(MDY, '/', false);
    assert i != 0 && i != 1 && i != 2 && i != 3;
    assert i != 4 && i != 5 && i != 6 && i != 7;
    assert !(i > 8);
  }

  /** On `mm/dd/yyyy` text whose day exceeds 12 every format but the last fails. */
  lemma MonthFirstFailsBefore(d: Date)
    requires ValidDate(d) && 13 <= d.day
    ensures var s := SlashedMonthFirst(d);
      Strptime(s, Format(DMY, '/', false)) == None && Strptime(s, Format(DMY, '-', false)) == None
      && Strptime(s, Format(YMD, '-', false)) == None && Strptime(s, Format(DMY, '/', true)) == None
      && Strptime(s, Format(DMY, '-', true)) == None && Strptime(s, Format(DMY, '.', false)) == None
      && Strptime(s, Format(DMY, '.', true)) == None && Strptime(s, Format(YMD, '/', false)) == None
  {
    var s := SlashedMonthFirst(d);
    var m, dd, y := Padded(d.month, 2), Padded(d.day, 2), Padded(d.year, 4);
    SlashedMonthFirstShape(d);
    NoMonth(d.day);
    MonthFieldNoMonth(s, m, dd, y, '/', false);
    ShortYearTooLong(s, m, dd, y, '/');
    YearFieldShort(s, m, dd, y, '/');
    StrptimeWithoutSep(s, Format(DMY, '-', false));
    StrptimeWithoutSep(s, Format(YMD, '-', false));
    StrptimeWithoutSep(s, Format(DMY, '-', true));
    StrptimeWithoutSep(s, Format(DMY, '.', false));
    StrptimeWithoutSep(s, Format(DMY, '.', true));
  }

  /**
   * The US order is the last resort: `mm/dd/yyyy` text whose day exceeds 12 cannot be read
   * day first, and is read month first.
   */
  lemma ParseDateLegacyMonthFirst(d: Date)
    requires ValidDate(d) && 13 <= d.day
    ensures ParseDateLegacy(Some(Text(SlashedMonthFirst(d)))) == Some(d)
  {
    SlashedMonthFirstShape(d);
    ParseDateOfDigitEnds(SlashedMonthFirst(d));
    StrptimeMonthFirst(d);
    MonthFirstFailsBefore(d);
    MonthFirstSearch(SlashedMonthFirst(d), d);
  }

  /** The text of a `Timestamp` at midnight: no blank at either end, and no ISO date. */
  lemma StampTextUnreadable(d: Date)
    requires ValidDate(d)
    ensures Iso(d) + Midnight != [] && Strip(Iso(d) + Midnight) == Iso(d) + Midnight
    ensures Strptime(Iso(d) + Midnight, IsoFormat) == None
  {
    var y, m, dd := Padded(d.year, 4), Padded(d.month, 2), Padded(d.day, 2);
    var t := Iso(d) + Midnight;
    assert t == y + ['-'] + m + ['-'] + (dd + Midnight);
    assert IsDigit(t[0]) && t[|t| - 1] == '0';
    StripOfTrimmed(t);
    assert '-' !in y && '-' !in m;
    FieldsOfJoined(y, m, dd + Midnight, '-');
    DayFieldLong(t, y, m, dd + Midnight, '-');
  }

  /** Trimmed text that is no ISO date is refused by `validar_fecha_entrada` as badly formatted. */
  lemma UnreadableEntry(t: String, today: Date)
    requires t != [] && Strip(t) == t && Strptime(t, IsoFormat) == None
    ensures ValidarFechaEntrada(Some(DateText(t)), today) == Check(false, DateFormatMsg)
  {
    assert ReadDate(DateText(t)) == None;
  }

  /**
   * As written, a date cell comes back as a `Timestamp`, so the record's date text carries
   * ` 00:00:00`; `validar_fecha_entrada` would reject that text as badly formatted.
   */
  lemma StampAsWrittenKeepsClock(d: CalendarDate, today: Date)
    ensures ParseDateLegacyAsWritten(Some(Stamp(d))) == Some(DateTime(d))
    ensures MomentText(DateTime(d)) == Iso(d) + Midnight
    ensures ValidarFechaEntrada(Some(DateText(Iso(d) + Midnight)), today) == Check(false, DateFormatMsg)
  {
    StampTextRejected(d, today);
  }

  /** The text of a `Timestamp` at midnight is refused by `validar_fecha_entrada`. */
  lemma StampTextRejected(d: Date, today: Date)
    requires ValidDate(d)
    ensures ValidarFechaEntrada(Some(DateText(Iso(d) + Midnight)), today) == Check(false, DateFormatMsg)
  {
    var t := Iso(d) + Midnight;
    StampTextUnreadable(d);
    UnreadableEntry(t, today);
  }

  /** With `.date()` taken, a date cell gives the date, whose text `validar_fecha_entrada` reads back. */
  lemma StampIsDate(d: CalendarDate)
    ensures ParseDateLegacy(Some(Stamp(d))).Some? && ParseDateLegacy(Some(Stamp(d))).value == d
    ensures ReadDate(DateText(Iso(d))).Some? && ReadDate(DateText(Iso(d))).value == d
  {
    IsoTrimmed(d);
    IsoRoundTrip(d);
  }

  /** `str(d)` has no blank at either end. */
  lemma IsoTrimmed(d: Date)
    requires ValidDate(d)
    ensures Strip(Iso(d)) == Iso(d)
  {
    var s := Iso(d);
    var y, m, dd := Padded(d.year, 4), Padded(d.month, 2), Padded(d.day, 2);
    assert s[0] == y[0] && s[9] == dd[1];
    StripOfTrimmed(s);
  }

  // ---------------------------------------------------------------- _parse_edad

  /**
   * `_parse_edad(valor)`: `int(float(str(valor)))` kept when strictly between 0 and 150.
   * Only `ValueError` and `TypeError` are caught: the `OverflowError` of an infinite age
   * escapes to the caller.
   */
  function ParseEdad(v: Option<Cell>): (r: Result<Option<int>>)
    ensures r.Ok? && r.value.Some? ==> 0 < r.value.value < 150
  {
    if Absent(v) then Ok(None)
    else match PyIntOfFloat(CellText(v.value))
      case Some(Value(n)) => Ok(if 0 < n < 150 then Some(n) else None)
      case Some(OverflowErr) => Err(ExcelRow.InfinityMsg)
      case _ => Ok(None)
  }

  /**
   * A whole number written out is the age when it lies from 1 to 149 and no age otherwise,
   * unless it is too large for a double, when it raises like infinity.
   */
  lemma ParseEdadOfNumber(n: nat)
    ensures ParseEdad(Some(Text(NatToString(n))))
      == if n >= InfBound then Err(ExcelRow.InfinityMsg) else Ok(if 0 < n < 150 then Some(n) else None)
  {
    var s := NatToString(n);
    PyIntOfFloatOfNatToString(n);
    if n >= InfBound {
      ParseEdadOfOverflow(s);
    } else {
      ParseEdadOfValue(s, n);
    }
  }

  /** Text `int(float(...))` reads as `n` gives `n` when it is a plausible age, and nothing otherwise. */
  lemma ParseEdadOfValue(s: String, n: int)
    requires PyIntOfFloat(s) == Some(Value(n))
    ensures ParseEdad(Some(Text(s))) == Ok(if 0 < n < 150 then Some(n) else None)
  {
  }

  /** Text whose `int(float(...))` overflows raises the overflow. */
  lemma ParseEdadOfOverflow(s: String)
    requires PyIntOfFloat(s) == Some(OverflowErr)
    ensures ParseEdad(Some(Text(s))) == Err(ExcelRow.InfinityMsg)
  {
  }

  /** An infinite age is an error, not a missing age. */
  lemma ParseEdadInfinite()
    ensures ParseEdad(Some(Text("inf"))) == Err(ExcelRow.InfinityMsg)
  {
    ExcelRow.InfinityOverflows();
    ParseEdadOfOverflow("inf");
  }

  // ---------------------------------------------------------------- _parse_documento

  /** `texto.lower() in ("nan", "none", "")`. */
  predicate NullText(texto: String)
  {
    texto == [] || NanWord(ToLower(texto)) || NoneWord(ToLower(texto))
  }

  /**
   * The passport slot of `_parse_documento` as written: nothing, text, or the tuple
   * `(None, None)` that the operator precedence of its last line leaves there.
   */
  datatype PasSlot = NoPas | PasText(p: String) | PasPair

  /** Python truth of the slot: the tuple is a non-empty tuple, hence true. */
  predicate PasTruthy(p: PasSlot) { (p.PasText? && p.p != []) || p.PasPair? }

  /**
   * The classification of the cleaned text as the code means it: 7 or 8 digits is a DNI;
   * 5 to 15 letters and digits a passport; other digit strings are nothing when shorter
   * than 7 and a DNI cut to 8 digits otherwise; any other non-empty text a passport;
   * empty text nothing.
   */
  function ClassifyDocumento(limpio: String): (r: (Option<String>, Option<String>))
    ensures r.0.None? || r.1.None?
    ensures r.0.Some? ==> DniShape(r.0.value)
    ensures r.1.Some? ==> r.1.value == ToUpper(limpio) && limpio != []
  {
    if DniShape(limpio) then (Some(limpio), None)
    else if PasaporteShape(limpio) then (None, Some(ToUpper(limpio)))
    else if AllDigits(limpio) then (if |limpio| < 7 then (None, None) else (Some(limpio[..8]), None))
    else if limpio != [] then (None, Some(ToUpper(limpio)))
    else (None, None)
  }

  /** The classification as written: empty cleaned text leaves the tuple in the passport slot. */
  function ClassifyDocumentoAsWritten(limpio: String): (r: (Option<String>, PasSlot))
  {
    if DniShape(limpio) then (Some(limpio), NoPas)
    else if PasaporteShape(limpio) then (None, PasText(ToUpper(limpio)))
    else if AllDigits(limpio) then (if |limpio| < 7 then (None, NoPas) else (Some(limpio[..8]), NoPas))
    else if limpio != [] then (None, PasText(ToUpper(limpio)))
    else (None, PasPair)
  }

  /**
   * `_parse_documento(valor)` with the float suffix `.0` dropped before the separators go
   * and with nothing for text that cleans to nothing.
   */
  function ParseDocumento(v: Option<Cell>): (Option<String>, Option<String>)
  {
    if Absent(v) || NullText(Strip(CellText(v.value))) then (None, None)
    else ClassifyDocumento(LimpiarDni(CellText(v.value)))
  }

  /** `_parse_documento(valor)` as written. */
  function ParseDocumentoAsWritten(v: Option<Cell>): (Option<String>, PasSlot)
  {
    if Absent(v) || NullText(Strip(CellText(v.value))) then (None, NoPas)
    else ClassifyDocumentoAsWritten(LimpiarDniAsWritten(CellText(v.value)))
  }

  /**
   * Which document each cleaned text gives, by its digits and length: digit strings of
   * 1-4 give nothing, 5-6 a passport, 7-8 a DNI, 9-15 a passport, 16 or more a DNI of
   * their first 8 digits; other non-empty text is a passport; empty text gives nothing.
   */
  lemma ClassifyDocumentoTable(limpio: String)
    ensures AllDigits(limpio) && |limpio| < 5 ==> ClassifyDocumento(limpio) == (None, None)
    ensures AllDigits(limpio) && 5 <= |limpio| <= 6 ==> ClassifyDocumento(limpio) == (None, Some(limpio))
    ensures AllDigits(limpio) && 7 <= |limpio| <= 8 ==> ClassifyDocumento(limpio) == (Some(limpio), None)
    ensures AllDigits(limpio) && 9 <= |limpio| <= 15 ==> ClassifyDocumento(limpio) == (None, Some(limpio))
    ensures AllDigits(limpio) && 16 <= |limpio| ==> ClassifyDocumento(limpio) == (Some(limpio[..8]), None)
    ensures !AllDigits(limpio) && limpio != [] ==> ClassifyDocumento(limpio) == (None, Some(ToUpper(limpio)))
    ensures limpio == [] ==> ClassifyDocumento(limpio) == (None, None)
  {
    if AllDigits(limpio) {
      assert ToUpper(limpio) == limpio;
    }
    if !AllDigits(limpio) && limpio != [] {
      assert !DniShape(limpio);
    }
  }

  /** The two classifications differ only on empty cleaned text. */
  lemma ClassifyVersionsAgree(limpio: String)
    requires limpio != []
    ensures ClassifyDocumentoAsWritten(limpio).0 == ClassifyDocumento(limpio).0
    ensures ClassifyDocumento(limpio).1.Some? ==> ClassifyDocumentoAsWritten(limpio).1 == PasText(ClassifyDocumento(limpio).1.value)
    ensures ClassifyDocumento(limpio).1.None? ==> ClassifyDocumentoAsWritten(limpio).1 == NoPas
  {
  }

  /** A cell giving a DNI gives 7 or 8 digits and no passport; a passport is upper-case text. */
  lemma ParseDocumentoShape(v: Option<Cell>)
    ensures ParseDocumento(v).0.Some? ==> DniShape(ParseDocumento(v).0.value) && ParseDocumento(v).1.None?
    ensures ParseDocumento(v).1.Some? ==>
      !Absent(v) && ParseDocumento(v).1.value == ToUpper(LimpiarDni(CellText(v.value))) && ParseDocumento(v).1.value != []
  {
  }

  /** As written, a cell giving a DNI gives 7 or 8 digits and leaves the passport slot empty. */
  lemma ParseDocumentoAsWrittenShape(v: Option<Cell>)
    ensures ParseDocumentoAsWritten(v).0.Some? ==>
      DniShape(ParseDocumentoAsWritten(v).0.value) && ParseDocumentoAsWritten(v).1 == NoPas
    ensures ParseDocumentoAsWritten(v).1.PasText? ==>
      !Absent(v) && ParseDocumentoAsWritten(v).1.p == ToUpper(LimpiarDniAsWritten(CellText(v.value)))
      && ParseDocumentoAsWritten(v).1.p != []
  {
    if !(Absent(v) || NullText(Strip(CellText(v.value)))) {
      ClassifyAsWrittenShape(LimpiarDniAsWritten(CellText(v.value)));
    }
  }

  /** As written, a DNI comes with an empty passport slot; a passport text is the upper-cased input. */
  lemma ClassifyAsWrittenShape(limpio: String)
    ensures ClassifyDocumentoAsWritten(limpio).0.Some? ==>
      DniShape(ClassifyDocumentoAsWritten(limpio).0.value) && ClassifyDocumentoAsWritten(limpio).1 == NoPas
    ensures ClassifyDocumentoAsWritten(limpio).1.PasText? ==>
      ClassifyDocumentoAsWritten(limpio).1.p == ToUpper(limpio) && limpio != []
  {
    if !DniShape(limpio) && !PasaporteShape(limpio) && AllDigits(limpio) && |limpio| >= 7 {
      assert DniShape(limpio[..8]);
    }
  }

  /** Upper-casing digits changes nothing. */
  lemma ToUpperDigits(t: String)
    requires AllDigits(t)
    ensures ToUpper(t) == t
  {
  }

  /** A cell whose stripped text is no null word is classified on its cleaned text. */
  lemma ParseDocumentoOfText(s: String)
    requires !NullText(Strip(s))
    ensures ParseDocumento(Some(Text(s))) == ClassifyDocumento(LimpiarDni(s))
  {
  }

  /** The same, as written. */
  lemma ParseDocumentoAsWrittenOfText(s: String)
    requires !NullText(Strip(s))
    ensures ParseDocumentoAsWritten(Some(Text(s))) == ClassifyDocumentoAsWritten(LimpiarDniAsWritten(s))
  {
  }

  /** `d + ".0"` for digits `d` needs no stripping and is no null word. */
  lemma FloatTextNotNull(d: String)
    requires AllDigits(d)
    ensures !NullText(Strip(d + ".0"))
  {
    var t := d + ".0";
    FloatTextTrimmed(d, t);
    assert t[0] == d[0];
    DigitStartNotNull(t);
  }

  /** Text starting with a digit is no null word. */
  lemma DigitStartNotNull(t: String)
    requires t != [] && IsDigit(t[0])
    ensures !NullText(t)
  {
    assert ToLower(t)[0] == t[0];
  }

  /** Nine digits are a passport as written: letters and digits, 5 to 15 of them. */
  lemma ClassifyNineDigits(t: String)
    requires AllDigits(t) && |t| == 9
    ensures ClassifyDocumentoAsWritten(t) == (None, PasText(t))
  {
    ToUpperDigits(t);
  }

  /**
   * As written, an 8-digit DNI read from a float cell, `"35123456.0"`, loses only the dot
   * and comes out as the 9-character passport `"351234560"`.
   */
  lemma FloatDniAsWrittenIsPassport(d: String)
    requires DniShape(d) && |d| == 8
    ensures ParseDocumentoAsWritten(Some(Text(d + ".0"))) == (None, PasText(d + "0"))
  {
    FloatTextAsWritten(d);
    ZeroAppended(d);
    ClassifyNineDigits(d + "0");
  }

  /** As written, a 7-digit DNI read from a float cell becomes the wrong 8-digit DNI `d + "0"`. */
  lemma FloatShortDniAsWrittenIsWrongDni(d: String)
    requires DniShape(d) && |d| == 7
    ensures ParseDocumentoAsWritten(Some(Text(d + ".0"))) == (Some(d + "0"), NoPas)
  {
    FloatTextAsWritten(d);
    ZeroAppended(d);
  }

  /** As written, digits read from a float cell are classified with the `0` of the suffix kept. */
  lemma FloatTextAsWritten(d: String)
    requires AllDigits(d)
    ensures ParseDocumentoAsWritten(Some(Text(d + ".0"))) == ClassifyDocumentoAsWritten(d + "0")
  {
    FloatTextNotNull(d);
    ParseDocumentoAsWrittenOfText(d + ".0");
    LimpiarDniAsWrittenKeepsZero(d);
  }

  /** Digits with a `0` appended are digits, one longer. */
  lemma ZeroAppended(d: String)
    requires AllDigits(d)
    ensures AllDigits(d + "0") && |d + "0"| == |d| + 1
  {
  }

  /** With the suffix dropped first, a DNI read from a float cell is that DNI. */
  lemma FloatDniIsDni(d: String)
    requires DniShape(d)
    ensures ParseDocumento(Some(Text(d + ".0"))) == (Some(d), None)
  {
    FloatTextNotNull(d);
    ParseDocumentoOfText(d + ".0");
    LimpiarDniOfFloatText(d, d + ".0");
    RemoveSeparatorsOfDigits(d);
  }

  /** The cell `"-"`: nothing to strip, no null word, and nothing left once the separators go. */
  lemma DashCell()
    ensures !NullText(Strip("-"))
    ensures LimpiarDniAsWritten("-") == [] && LimpiarDni("-") == []
  {
    var s := "-";
    StripOfTrimmed(s);
    assert RemoveChar(s, '.') == s;
    assert RemoveChar(s, '-') == [];
    assert RemoveSeparators(s) == [];
    LimpiarDniAsWrittenOfTrimmed(s);
    LimpiarDniUnfold(s);
    assert !FloatSuffix(s);
  }

  /**
   * As written, a cell that is no null word but cleans to nothing, such as `"-"`, leaves the
   * true tuple `(None, None)` in the passport slot, so the row passes the document check.
   */
  lemma SeparatorsAsWrittenPassCheck(s: String)
    requires !NullText(Strip(s)) && LimpiarDniAsWritten(s) == []
    ensures ParseDocumentoAsWritten(Some(Text(s))) == (None, PasPair)
    ensures PasTruthy(ParseDocumentoAsWritten(Some(Text(s))).1)
  {
    ParseDocumentoAsWrittenOfText(s);
  }

  /** With empty cleaned text giving nothing, such a cell has no document. */
  lemma SeparatorsGiveNothing(s: String)
    requires !NullText(Strip(s)) && LimpiarDni(s) == []
    ensures ParseDocumento(Some(Text(s))) == (None, None)
  {
    ParseDocumentoOfText(s);
  }

  /** The cell `"-"` is such a cell, in both versions. */
  lemma DashCellPassesAsWritten()
    ensures ParseDocumentoAsWritten(Some(Text("-"))) == (None, PasPair)
    ensures ParseDocumento(Some(Text("-"))) == (None, None)
  {
    DashCell();
    SeparatorsAsWrittenPassCheck("-");
    SeparatorsGiveNothing("-");
  }

  // ---------------------------------------------------------------- _split_apellido_nombre

  /** `str()` of the `IndexError` that `palabras[-1]` raises on an empty list. */
  const IndexErrorMsg: String := "list index out of range"

  /**
   * `_split_apellido_nombre(valor)`: on the sanitized text, around the first comma when
   * there is one; otherwise the last word is the given name and the words before it the
   * surname. Text that sanitizes to blanks alone has no word to take and raises.
   */
  function SplitApellidoNombre(v: Option<Cell>): Result<(String, String)>
  {
    if Absent(v) then Ok(([], []))
    else SplitName(SanitizarTextoAsWritten(CellText(v.value)))
  }

  /** The split of the sanitized text. */
  function SplitName(texto: String): Result<(String, String)>
  {
    if texto == [] then Ok(([], []))
    else if ',' in texto then
      var i := IndexOf(texto, ',');
      Ok((Strip(texto[..i]), Strip(texto[i + 1..])))
    else if Words(texto) == [] then Err(IndexErrorMsg)
    else Ok(SurnameAndGiven(Words(texto)))
  }

  /** The comma-free branch: one word is the surname alone, otherwise the last word is the given name. */
  function SurnameAndGiven(palabras: seq<String>): (String, String)
    requires palabras != []
  {
    var n := |palabras|;
    if n == 1 then (palabras[0], [])
    else if n == 2 then (palabras[0], palabras[1])
    else (Join(" ", palabras[..n - 1]), palabras[n - 1])
  }

  /** With two words or more, surname, a space and given name join back to all the words. */
  lemma SurnameAndGivenByLast(ws: seq<String>)
    requires |ws| >= 2
    ensures SurnameAndGiven(ws).0 + " " + SurnameAndGiven(ws).1 == Join(" ", ws)
    ensures SurnameAndGiven(ws).1 == ws[|ws| - 1]
  {
    JoinSnoc(ws);
    if |ws| == 2 {
      assert ws[..1] == [ws[0]];
    }
  }

  /** Words joined by spaces: the last one is appended after a space to the join of the rest. */
  lemma {:induction false} JoinSnoc(ws: seq<String>)
    requires |ws| >= 2
    ensures Join(" ", ws) == Join(" ", ws[..|ws| - 1]) + " " + ws[|ws| - 1]
  {
    if |ws| > 2 {
      JoinSnoc(ws[1..]);
      assert ws[1..][..|ws| - 2] == ws[..|ws| - 1][1..];
    }
  }

  /** Text free of control characters sanitizes to the join, by single spaces, of its own words. */
  lemma SanitizedWords(x: String)
    requires NoControl(x)
    ensures SanitizarTextoAsWritten(x) == Join(" ", Words(SanitizarTextoAsWritten(x)))
  {
    SanitizarAsWrittenOfNoControl(x);
    WordsAllClean(Strip(x));
    WordsOfJoin(Words(Strip(x)));
  }

  /**
   * Without a comma and with two words or more, the split of sanitized text loses nothing:
   * surname, a space and given name are the text, and the given name is its last word.
   */
  lemma SplitNameByLastWord(texto: String)
    requires ',' !in texto && |Words(texto)| >= 2 && texto == Join(" ", Words(texto))
    ensures SplitName(texto).Ok?
    ensures SplitName(texto).value.0 + " " + SplitName(texto).value.1 == texto
    ensures SplitName(texto).value.1 == Words(texto)[|Words(texto)| - 1]
  {
    SurnameAndGivenByLast(Words(texto));
  }

  /** In the same case the given name is a single word: no blank inside, none around. */
  lemma SplitNameGivenIsWord(texto: String)
    requires ',' !in texto && |Words(texto)| >= 2
    ensures SplitName(texto).Ok? && IsWord(SplitName(texto).value.1)
  {
    var ws := Words(texto);
    SurnameAndGivenByLast(ws);
    WordsAreWords(texto);
    assert IsWord(ws[|ws| - 1]);
  }

  /** A single word is the surname, with no given name. */
  lemma SplitApellidoNombreOneWord(v: Option<Cell>)
    requires !Absent(v) && NoControl(CellText(v.value))
    requires ',' !in SanitizarTextoAsWritten(CellText(v.value)) && |Words(SanitizarTextoAsWritten(CellText(v.value)))| == 1
    ensures SplitApellidoNombre(v) == Ok((SanitizarTextoAsWritten(CellText(v.value)), []))
  {
    SanitizedWords(CellText(v.value));
  }

  /** With a comma, the stripped text on its left is the surname and on its right the given name. */
  lemma SplitApellidoNombreAtComma(v: Option<Cell>, a: String, b: String)
    requires !Absent(v) && SanitizarTextoAsWritten(CellText(v.value)) == a + [','] + b && ',' !in a
    ensures SplitApellidoNombre(v) == Ok((Strip(a), Strip(b)))
  {
    var t := a + [','] + b;
    assert t[|a|] == ',';
    IndexOfAfter(a, ',', b);
    assert t[..|a|] == a && t[|a| + 1..] == b;
  }

  /** A missing cell or one that sanitizes to nothing gives two empty names. */
  lemma SplitApellidoNombreEmpty(v: Option<Cell>)
    requires Absent(v) || SanitizarTextoAsWritten(CellText(v.value)) == []
    ensures SplitApellidoNombre(v) == Ok(([], []))
  {
  }

  /**
   * As written, a name made of control characters alone, `"\x00 \x01"`, sanitizes to a lone
   * blank, which has no word, so `palabras[-1]` raises.
   */
  lemma SplitOfControlsRaises(c1: char, c2: char)
    requires IsControl(c1) && !IsSpace(c1) && IsControl(c2) && !IsSpace(c2)
    ensures SplitApellidoNombre(Some(Text([c1, ' ', c2]))) == Err(IndexErrorMsg)
  {
    var s := [c1] + [' '] + [c2];
    assert [c1, ' ', c2] == s;
    WordsAroundBlank([c1], ' ', [c2]);
    assert SanitizarTextoAsWritten(s) == RemoveControls([c1] + " " + [c2]);
    RemoveControlsAppend([c1], " " + [c2]);
    RemoveControlsAppend(" ", [c2]);
    assert RemoveControls([c1]) == [] by {
      assert [c1][1..] == [];
    }
    assert RemoveControls([c2]) == [] by {
      assert [c2][1..] == [];
    }
    assert SanitizarTextoAsWritten(s) == " ";
    WordsEmptyIffBlank(" ");
  }

  /** With the corrected sanitizer the split never raises: clean text that is not empty has a word. */
  lemma SplitOfCorrectedNeverRaises(x: String)
    ensures SplitName(SanitizarTexto(x)).Ok?
  {
    var t := SanitizarTexto(x);
    SanitizarTextoClean(x);
    WordsEmptyIffBlank(t);
    if t != [] {
      assert !IsSpace(t[0]);
    }
  }
}
