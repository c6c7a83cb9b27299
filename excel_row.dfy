/**
 * `ExcelParser._process_row`, `_get_value` and `_parse_date` (`utils/excel_parser.py`): one
 * spreadsheet row, its columns already renamed to system fields, becomes a guest record, is
 * skipped, or is rejected with a message. This module holds the specification, stage by
 * stage; `ExcelRowMethod` builds the record step by step against it.
 */
module ExcelRow {
  import opened Base
  import opened Text
  import opened CharMaps
  import opened Dates
  import opened PyNum
  import opened Validators
  import opened LegacyValidators

  /** A row of the combined sheet: `(column header, str() of the cell)`, in column order. */
  type Row = seq<(String, String)>

  /** The keys `_process_row` and the batch loop write into a record. */
  datatype Field =
    | ApellidoNombre | Apellido | Nombre | Nacionalidad | Procedencia | Profesion
    | Establecimiento | Habitacion | Destino | Telefono | Vehiculo
    | Dni | Pasaporte | Edad | FechaNacimiento | FechaEntrada | FechaSalida
    | VehiculoTiene | VehiculoDatos | HojaOrigen

  /** The column header, after renaming, that holds a field. */
  function Key(f: Field): String
  {
    match f
    case ApellidoNombre => "apellido_nombre"
    case Apellido => "apellido"
    case Nombre => "nombre"
    case Nacionalidad => "nacionalidad"
    case Procedencia => "procedencia"
    case Profesion => "profesion"
    case Establecimiento => "establecimiento"
    case Habitacion => "habitacion"
    case Destino => "destino"
    case Telefono => "telefono"
    case Vehiculo => "vehiculo"
    case Dni => "dni"
    case Pasaporte => "pasaporte"
    case Edad => "edad"
    case FechaNacimiento => "fecha_nacimiento"
    case FechaEntrada => "fecha_entrada"
    case FechaSalida => "fecha_salida"
    case VehiculoTiene => "vehiculo_tiene"
    case VehiculoDatos => "vehiculo_datos"
    case HojaOrigen => "_hoja_origen"
  }

  /** The values a record holds: text, a whole number, a date or a flag. */
  datatype Value = Str(s: String) | Int(n: int) | Day(d: Date) | Flag(b: bool)

  type Record = map<Field, Value>

  /** `_process_row` returns a record, returns `None`, or raises `ValueError(msg)`. */
  datatype Outcome = Skip | Failure(msg: String) | Accepted(data: Record)

  const NoDocumentRowMsg := "Sin documento válido (DNI o Pasaporte)"

  /** `f"Campo obligatorio '{required}' vacío"`. */
  function RequiredMsg(f: Field): String
  {
    "Campo obligatorio '" + Key(f) + "' vacío"
  }

  /** `data[f]` is present and truthy: a non-empty text. */
  predicate Filled(data: Record, f: Field)
  {
    f in data && data[f] != Str([])
  }

  /** The value at a key, if any. */
  function At(data: Record, f: Field): Option<Value>
  {
    if f in data then Some(data[f]) else None
  }

  // ---------------------------------------------------------------- _get_value

  /** `row[header]`: the first cell under that header. */
  function Cell(row: Row, header: String): Option<String>
  {
    if row == [] then None
    else if row[0].0 == header then Some(row[0].1)
    else Cell(row[1..], header)
  }

  /** `_get_value(row, field)`: the stripped cell, or `None` when it is missing or blank. */
  function GetValue(row: Row, f: Field): Option<String>
  {
    match Cell(row, Key(f))
    case None => None
    case Some(v) => if Strip(v) == [] then None else Some(Strip(v))
  }

  /** A cell is found exactly when some column has the header; it is the first such column. */
  lemma {:induction false} CellIsFirst(row: Row, header: String)
    ensures Cell(row, header).None? <==> forall i :: 0 <= i < |row| ==> row[i].0 != header
    ensures Cell(row, header).Some? ==>
      exists i :: 0 <= i < |row| && row[i] == (header, Cell(row, header).value)
        && forall j :: 0 <= j < i ==> row[j].0 != header
  {
    if row != [] && row[0].0 != header {
      CellIsFirst(row[1..], header);
      if Cell(row[1..], header).Some? {
        var i :| 0 <= i < |row[1..]| && row[1..][i] == (header, Cell(row[1..], header).value)
          && forall j :: 0 <= j < i ==> row[1..][j].0 != header;
        assert row[i + 1] == row[1..][i];
        forall j | 0 <= j < i + 1
          ensures row[j].0 != header
        {
          if j > 0 { assert row[j] == row[1..][j - 1]; }
        }
      } else {
        forall j | 0 <= j < |row|
          ensures row[j].0 != header
        {
          if j > 0 { assert row[j] == row[1..][j - 1]; }
        }
      }
    } else if row != [] {
      assert row[0] == (header, Cell(row, header).value);
    }
  }

  /** `_get_value` gives a non-empty, stripped text exactly when the cell is there and not blank. */
  lemma GetValueSpec(row: Row, f: Field)
    ensures GetValue(row, f).None? <==> Cell(row, Key(f)).None? || IsBlank(Cell(row, Key(f)).value)
    ensures GetValue(row, f).Some? ==>
      GetValue(row, f).value != [] && Trimmed(GetValue(row, f).value)
      && GetValue(row, f).value == Strip(Cell(row, Key(f)).value)
  {
    if Cell(row, Key(f)).Some? {
      StripSpec(Cell(row, Key(f)).value);
    }
  }

  /** The number of columns of the row under `header`. */
  function HeaderCount(row: Row, header: String): nat
  {
    if row == [] then 0
    else (if row[0].0 == header then 1 else 0) + HeaderCount(row[1..], header)
  }

  /** No column has the header exactly when the count is 0; two columns have it exactly when it is at least 2. */
  lemma {:induction false} HeaderCountSpec(row: Row, header: String)
    ensures HeaderCount(row, header) == 0 <==> forall i :: 0 <= i < |row| ==> row[i].0 != header
    ensures HeaderCount(row, header) >= 2 <==>
      exists i, j :: 0 <= i < j < |row| && row[i].0 == header && row[j].0 == header
  {
    if row != [] {
      var rest := row[1..];
      HeaderCountSpec(rest, header);
      forall i | 1 <= i < |row|
        ensures row[i] == rest[i - 1]
      {
      }
      if exists i, j :: 0 <= i < j < |row| && row[i].0 == header && row[j].0 == header {
        var i, j :| 0 <= i < j < |row| && row[i].0 == header && row[j].0 == header;
        assert rest[j - 1].0 == header;
        if i > 0 {
          assert rest[i - 1].0 == header;
        }
      }
      if exists i, j :: 0 <= i < j < |rest| && rest[i].0 == header && rest[j].0 == header {
        var i, j :| 0 <= i < j < |rest| && rest[i].0 == header && rest[j].0 == header;
        assert row[i + 1].0 == header && row[j + 1].0 == header;
      }
      if row[0].0 == header && HeaderCount(rest, header) >= 1 {
        var j :| 0 <= j < |rest| && rest[j].0 == header;
        assert row[j + 1].0 == header;
      }
    }
  }

  /** `str()` of the `ValueError` that `bool()` of a pandas `Series` raises. */
  const AmbiguousMsg := "The truth value of a Series is ambiguous. " + "Use a.empty, a.bool(), a.item(), a.any() or a.all()."

  /**
   * `_get_value(row, field)` itself. When two columns of the row share the field's header
   * (`DNI` and `dni` both clean to `dni`, or a column renamed to a field another column
   * already bears), `row[field]` is a `Series` and `pd.notna(val) and …` raises.
   */
  function Lookup(row: Row, f: Field): Result<Option<String>>
  {
    if HeaderCount(row, Key(f)) >= 2 then Err(AmbiguousMsg) else Ok(GetValue(row, f))
  }

  /**
   * `_get_value` raises exactly when two columns bear the header; otherwise it gives nothing
   * when every such column is blank, and else the stripped text of the only such column.
   */
  lemma LookupSpec(row: Row, f: Field)
    ensures Lookup(row, f).Err? <==>
      exists i, j :: 0 <= i < j < |row| && row[i].0 == Key(f) && row[j].0 == Key(f)
    ensures Lookup(row, f).Err? ==> Lookup(row, f).msg == AmbiguousMsg
    ensures Lookup(row, f).Ok? ==>
      (Lookup(row, f).value.None? <==> forall i :: 0 <= i < |row| && row[i].0 == Key(f) ==> IsBlank(row[i].1))
    ensures Lookup(row, f).Ok? && Lookup(row, f).value.Some? ==>
      exists i :: 0 <= i < |row| && row[i].0 == Key(f)
        && Lookup(row, f).value.value == Strip(row[i].1) && Lookup(row, f).value.value != []
        && forall j :: 0 <= j < |row| && j != i ==> row[j].0 != Key(f)
  {
    var h := Key(f);
    HeaderCountSpec(row, h);
    CellIsFirst(row, h);
    GetValueSpec(row, f);
    if HeaderCount(row, h) < 2 && Cell(row, h).Some? {
      var i :| 0 <= i < |row| && row[i] == (h, Cell(row, h).value) && forall j :: 0 <= j < i ==> row[j].0 != h;
      forall j | 0 <= j < |row| && j != i
        ensures row[j].0 != h
      {
        if j > i {
          assert !(row[i].0 == h && row[j].0 == h);
        }
      }
    }
  }

  /** With every header of the row distinct, `_get_value` never raises. */
  lemma DistinctHeadersLookup(row: Row, f: Field)
    requires forall i, j :: 0 <= i < j < |row| ==> row[i].0 != row[j].0
    ensures Lookup(row, f) == Ok(GetValue(row, f))
  {
    HeaderCountSpec(row, Key(f));
  }

  // ---------------------------------------------------------------- combined name

  /**
   * The split of the combined "APELLIDO Y NOMBRE" text: around the first comma when there
   * is one, otherwise the first word is the surname and the rest the given names.
   */
  function SplitName(v: String): (String, String)
  {
    var texto := Strip(v);
    if ',' in texto then
      var i := IndexOf(texto, ',');
      var resto := Strip(texto[i + 1..]);
      (SanitizarTextoAsWritten(Strip(texto[..i])), if resto != [] then SanitizarTextoAsWritten(resto) else [])
    else SplitWords(texto)
  }

  /** Without a comma: the first word is the surname, the rest the given names, each sanitized. */
  function SplitWords(texto: String): (String, String)
  {
    var partes := SplitFirstWord(texto);
    (if |partes| > 0 then SanitizarTextoAsWritten(partes[0]) else [],
     if |partes| > 1 then SanitizarTextoAsWritten(partes[1]) else [])
  }

  /** The record after the combined column: surname and given names, when the column has text. */
  function NameFields(row: Row): (r: Record)
    ensures forall k :: k in r ==> NameField(k)
    ensures Apellido in r <==> GetValue(row, ApellidoNombre).Some?
  {
    match GetValue(row, ApellidoNombre)
    case None => map[]
    case Some(v) => map[Apellido := Str(SplitName(v).0), Nombre := Str(SplitName(v).1)]
  }

  /** With a comma, the text left of the first comma is the surname and the right the names. */
  lemma SplitNameAtComma(a: String, b: String)
    requires ',' !in a && Trimmed(a + [','] + b)
    ensures SplitName(a + [','] + b)
      == (SanitizarTextoAsWritten(Strip(a)), if IsBlank(b) then [] else SanitizarTextoAsWritten(Strip(b)))
  {
    var v := a + [','] + b;
    StripOfTrimmed(v);
    assert v[|a|] == ',';
    IndexOfAfter(a, ',', b);
    assert v[..|a|] == a && v[|a| + 1..] == b;
    StripBlank(b);
  }

  /** Sanitizing text free of control characters joins its words with single spaces. */
  lemma SanitizarOfClean(x: String)
    requires NoControl(x)
    ensures SanitizarTextoAsWritten(x) == Join(" ", Words(x))
  {
    SanitizarAsWrittenOfNoControl(x);
    WordsOfStrip(x);
  }

  /** A word sanitizes to itself. */
  lemma SanitizarWord(w: String)
    requires IsWord(w) && NoControl(w)
    ensures SanitizarTextoAsWritten(w) == w
  {
    SanitizarOfClean(w);
    WordsOfWordThen(w, []);
    assert w + [] == w;
    WordsFromEnd([], 0);
  }

  /** A character absent from a text is absent from its stripped form. */
  lemma StripKeepsAbsent(v: String, c: char)
    requires c !in v
    ensures c !in Strip(v)
  {
    StripLocation(v);
  }

  /** A tail of text free of control characters is free of them. */
  lemma SuffixNoControl(t: String, r: nat)
    requires NoControl(t) && r <= |t|
    ensures NoControl(t[r..])
  {
    assert forall k :: 0 <= k < |t[r..]| ==> t[r..][k] == t[r + k];
  }

  /** On clean text with words, the word split is the first word and the others single-spaced. */
  lemma SplitWordsSpec(t: String)
    requires NoControl(t) && !IsBlank(t)
    ensures Words(t) != [] && SplitWords(t) == (Words(t)[0], Join(" ", Words(t)[1..]))
  {
    WordsEmptyIffBlank(t);
    SplitFirstWordSpec(t);
    var partes := SplitFirstWord(t);
    var ws := Words(t);
    SanitizarFirstPart(t);
    if |partes| == 2 {
      SanitizarSecondPart(t);
    } else {
      assert ws[1..] == [];
    }
  }

  /** The first part of the split of clean text sanitizes to its first word. */
  lemma SanitizarFirstPart(t: String)
    requires NoControl(t) && !IsBlank(t)
    ensures |SplitFirstWord(t)| >= 1 && Words(t) != []
    ensures SanitizarTextoAsWritten(SplitFirstWord(t)[0]) == Words(t)[0]
  {
    WordsEmptyIffBlank(t);
    SplitFirstWordSpec(t);
    WordsNoControl(t, 0);
    SanitizarWord(SplitFirstWord(t)[0]);
  }

  /** The second part, when there is one, sanitizes to the remaining words single-spaced. */
  lemma SanitizarSecondPart(t: String)
    requires NoControl(t) && |SplitFirstWord(t)| == 2
    ensures |Words(t)| >= 1
    ensures SanitizarTextoAsWritten(SplitFirstWord(t)[1]) == Join(" ", Words(t)[1..])
  {
    SplitFirstWordSpec(t);
    var partes := SplitFirstWord(t);
    var r := SkipBlanks(t, WordEnd(t, SkipBlanks(t, 0)));
    assert partes[1] == t[r..];
    SuffixNoControl(t, r);
    SanitizarOfClean(partes[1]);
    assert Words(t)[1..] == Words(partes[1]);
  }

  /**
   * Without a comma, on text free of control characters, the first word is the surname and
   * the remaining words, single-spaced, are the given names.
   */
  lemma SplitNameByWords(v: String)
    requires ',' !in v && NoControl(v) && !IsBlank(v)
    ensures Words(v) != [] && SplitName(v) == (Words(v)[0], Join(" ", Words(v)[1..]))
  {
    var texto := Strip(v);
    StripKeepsAbsent(v, ',');
    StripNoControl(v);
    WordsOfStrip(v);
    WordsEmptyIffBlank(v);
    WordsEmptyIffBlank(texto);
    SplitWordsSpec(texto);
  }

  // ---------------------------------------------------------------- text fields

  /** The text fields, in the order `_process_row` reads them. */
  const TextFields: seq<Field> :=
    [Apellido, Nombre, Nacionalidad, Procedencia, Profesion, Establecimiento, Habitacion, Destino, Telefono, Vehiculo]

  predicate NameField(f: Field) { f == Apellido || f == Nombre }

  /** The fields that go through `sanitizar_texto`; the others are only stripped. */
  predicate Sanitized(f: Field) { f == Apellido || f == Nombre || f == Nacionalidad || f == Procedencia }

  /** One text field: a name taken from the combined column is kept, otherwise the column's text. */
  function TextField(data: Record, row: Row, f: Field): Record
  {
    TextFieldWith(data, f, GetValue(row, f))
  }

  /** One text field, given the cell's text when it has any. */
  function TextFieldWith(data: Record, f: Field, val: Option<String>): Record
  {
    if NameField(f) && Filled(data, f) then data
    else match val
      case None => data
      case Some(v) => data[f := Str(FieldText(f, v))]
  }

  /** A text field's cell text: sanitized for the names and places, stripped otherwise. */
  function FieldText(f: Field, v: String): String
  {
    if Sanitized(f) then SanitizarTextoAsWritten(v) else Strip(v)
  }

  /** The text fields of `fs`, in order, applied to `data`. */
  function TextFieldsFrom(data: Record, row: Row, fs: seq<Field>): Record
  {
    if fs == [] then data
    else TextField(TextFieldsFrom(data, row, fs[..|fs| - 1]), row, fs[|fs| - 1])
  }

  /** The record after the combined name and the text fields. */
  function Named(row: Row): Record
  {
    TextFieldsFrom(NameFields(row), row, TextFields)
  }

  /** The loop reads the cell of `f`: always, except for a name already taken from the combined column. */
  predicate Looked(data: Record, f: Field) { !(NameField(f) && Filled(data, f)) }

  /** One text field as the loop runs it: its cell is read with `_get_value`, which may raise. */
  function TextFieldChecked(data: Record, row: Row, f: Field): Result<Record>
  {
    if !Looked(data, f) then Ok(data)
    else match Lookup(row, f)
      case Err(m) => Err(m)
      case Ok(v) => Ok(TextFieldWith(data, f, v))
  }

  /** The text fields of `fs`, in order, until a lookup raises. */
  function TextFieldsChecked(data: Record, row: Row, fs: seq<Field>): Result<Record>
  {
    if fs == [] then Ok(data)
    else match TextFieldsChecked(data, row, fs[..|fs| - 1])
      case Err(m) => Err(m)
      case Ok(d) => TextFieldChecked(d, row, fs[|fs| - 1])
  }

  /** `_process_row` up to the skip check: the combined column, then the text fields. */
  function TextStage(row: Row): Result<Record>
  {
    match Lookup(row, ApellidoNombre)
    case Err(m) => Err(m)
    case Ok(_) => TextFieldsChecked(NameFields(row), row, TextFields)
  }

  /** A text field step touches its own key only, and reads nothing else of the record. */
  lemma TextFieldLocal(d1: Record, d2: Record, row: Row, f: Field, g: Field)
    requires At(d1, f) == At(d2, f)
    ensures At(TextField(d1, row, f), f) == At(TextField(d2, row, f), f)
    ensures g != f ==> At(TextField(d1, row, f), g) == At(d1, g)
  {
  }

  /** Each field of a list without repeats is set once, from the record as it was before. */
  lemma {:induction false} TextFieldsAt(data: Record, row: Row, fs: seq<Field>, f: Field)
    requires forall i, j :: 0 <= i < j < |fs| ==> fs[i] != fs[j]
    ensures At(TextFieldsFrom(data, row, fs), f)
      == if f in fs then At(TextField(data, row, f), f) else At(data, f)
  {
    if fs != [] {
      var front := fs[..|fs| - 1];
      var g := fs[|fs| - 1];
      SplitLast(fs);
      TextFieldsAt(data, row, front, f);
      var before := TextFieldsFrom(data, row, front);
      assert TextFieldsFrom(data, row, fs) == TextField(before, row, g);
      if g == f {
        TextFieldLocal(before, data, row, f, f);
      } else {
        TextFieldLocal(before, before, row, g, f);
      }
    }
  }

  /** A list without repeats: its front has none, its last entry is not in the front, and membership splits. */
  lemma SplitLast(fs: seq<Field>)
    requires fs != [] && forall i, j :: 0 <= i < j < |fs| ==> fs[i] != fs[j]
    ensures var front := fs[..|fs| - 1];
      (forall i, j :: 0 <= i < j < |front| ==> front[i] != front[j])
      && fs[|fs| - 1] !in front
      && forall x :: x in fs <==> x in front || x == fs[|fs| - 1]
  {
    var front := fs[..|fs| - 1];
    assert fs == front + [fs[|fs| - 1]];
    forall k | 0 <= k < |front|
      ensures front[k] != fs[|fs| - 1]
    {
      assert front[k] == fs[k];
    }
  }

  /**
   * The text steps as the loop runs them raise exactly when some field whose cell the loop
   * reads has a repeated header, and otherwise give the fold of the text steps.
   */
  lemma {:induction false} TextFieldsCheckedSpec(data: Record, row: Row, fs: seq<Field>)
    requires forall i, j :: 0 <= i < j < |fs| ==> fs[i] != fs[j]
    ensures TextFieldsChecked(data, row, fs).Ok? ==> TextFieldsChecked(data, row, fs).value == TextFieldsFrom(data, row, fs)
    ensures TextFieldsChecked(data, row, fs).Err? ==> TextFieldsChecked(data, row, fs).msg == AmbiguousMsg
    ensures TextFieldsChecked(data, row, fs).Err? <==> exists f :: f in fs && Looked(data, f) && Lookup(row, f).Err?
  {
    if fs != [] {
      var front := fs[..|fs| - 1];
      var g := fs[|fs| - 1];
      SplitLast(fs);
      TextFieldsCheckedSpec(data, row, front);
      if TextFieldsChecked(data, row, front).Ok? {
        var d := TextFieldsFrom(data, row, front);
        TextFieldsAt(data, row, front, g);
        assert Filled(d, g) == Filled(data, g) by {
          assert At(d, g) == At(data, g);
        }
        assert TextFieldsFrom(data, row, fs) == TextField(d, row, g);
      } else {
        var f :| f in front && Looked(data, f) && Lookup(row, f).Err?;
        assert f in fs;
      }
    }
  }

  /** The text steps add no key but the text fields. */
  lemma {:induction false} TextFieldsKeys(data: Record, row: Row, fs: seq<Field>)
    ensures forall k :: k in TextFieldsFrom(data, row, fs) ==> k in data || k in fs
  {
    if fs != [] {
      var front := fs[..|fs| - 1];
      assert fs == front + [fs[|fs| - 1]];
      TextFieldsKeys(data, row, front);
    }
  }

  /** The text fields are listed once each. */
  lemma TextFieldsDistinct()
    ensures forall i, j :: 0 <= i < j < |TextFields| ==> TextFields[i] != TextFields[j]
  {
  }

  /** After the text steps, a text field holds what its own step made of it; the rest is untouched. */
  lemma NamedAt(row: Row, f: Field)
    ensures At(Named(row), f)
      == if f in TextFields then At(TextField(NameFields(row), row, f), f) else At(NameFields(row), f)
  {
    TextFieldsDistinct();
    TextFieldsAt(NameFields(row), row, TextFields, f);
  }

  /** Every key after the text steps is a text field: no document, age, date or flag yet. */
  lemma NamedKeys(row: Row)
    ensures forall k :: k in Named(row) ==> k in TextFields
  {
    TextFieldsKeys(NameFields(row), row, TextFields);
  }

  /** In particular no document and no age is set by the text steps. */
  lemma NamedLacks(row: Row)
    ensures Dni !in Named(row) && Pasaporte !in Named(row) && Edad !in Named(row)
  {
    TextFieldsAbsent(NameFields(row), row, TextFields, Dni);
    TextFieldsAbsent(NameFields(row), row, TextFields, Pasaporte);
    TextFieldsAbsent(NameFields(row), row, TextFields, Edad);
  }

  /**
   * Up to the skip check `_process_row` raises exactly when the combined column or a text
   * field whose cell the loop reads has a repeated header; otherwise it has the record of
   * the text steps.
   */
  lemma TextStageSpec(row: Row)
    ensures TextStage(row).Ok? ==> TextStage(row).value == Named(row)
    ensures TextStage(row).Err? ==> TextStage(row).msg == AmbiguousMsg
    ensures TextStage(row).Err? <==>
      (Lookup(row, ApellidoNombre).Err? || exists f :: f in TextFields && Looked(NameFields(row), f) && Lookup(row, f).Err?)
  {
    TextFieldsDistinct();
    TextFieldsCheckedSpec(NameFields(row), row, TextFields);
  }

  /** A key that is neither in the record nor among the steps' fields stays out. */
  lemma TextFieldsAbsent(data: Record, row: Row, fs: seq<Field>, k: Field)
    requires k !in data && k !in fs
    ensures k !in TextFieldsFrom(data, row, fs)
  {
    TextFieldsKeys(data, row, fs);
  }

  /**
   * Surname and given names: a non-empty value from the combined column is not overridden;
   * otherwise the separate column, sanitized, is used when it has text.
   */
  lemma NameFieldSource(row: Row, f: Field)
    requires NameField(f)
    ensures Filled(NameFields(row), f) ==> At(Named(row), f) == At(NameFields(row), f)
    ensures !Filled(NameFields(row), f) && GetValue(row, f).Some? ==>
      At(Named(row), f) == Some(Str(SanitizarTextoAsWritten(GetValue(row, f).value)))
    ensures !Filled(NameFields(row), f) && GetValue(row, f).None? ==>
      At(Named(row), f) == At(NameFields(row), f)
  {
    NamedAt(row, f);
  }

  /** The other text fields hold the column's text, sanitized or stripped, when it has any. */
  lemma OtherFieldSource(row: Row, f: Field)
    requires f in TextFields && !NameField(f)
    ensures GetValue(row, f).None? ==> f !in Named(row)
    ensures GetValue(row, f).Some? ==>
      At(Named(row), f)
      == Some(Str(if Sanitized(f) then SanitizarTextoAsWritten(GetValue(row, f).value) else Strip(GetValue(row, f).value)))
  {
    NamedAt(row, f);
  }

  // ---------------------------------------------------------------- documents

  /** The document a cleaned value is taken for in the combined DNI/passport column. */
  datatype Doc = NoDoc | DniDoc(dni: String) | PassDoc(pasaporte: String)

  /** 7 or 8 digits is a DNI; otherwise 5 to 15 letters and digits is a passport, upper-cased. */
  function ClassifyCombined(cleaned: String): Doc
  {
    if DniShape(cleaned) then DniDoc(cleaned)
    else if PasaporteShape(cleaned) then PassDoc(ToUpper(cleaned))
    else NoDoc
  }

  /**
   * The cleaning of a document cell as written: stripped, dots, dashes and spaces removed,
   * and only then a trailing `.0` looked for, which can no longer be there.
   */
  function CleanDoc(v: String): String
  {
    LimpiarDniAsWritten(v)
  }

  /** The cleaning of a passport cell: stripped, upper-cased, spaces removed. */
  function CleanPassport(v: String): String
  {
    RemoveChar(ToUpper(Strip(v)), ' ')
  }

  predicate HasDoc(data: Record) { Dni in data || Pasaporte in data }

  /**
   * The document step on the cleaned cells: with a DNI value and no passport value the
   * value's shape decides its kind; otherwise each value is checked for its own kind.
   */
  function DocumentsOf(data: Record, dni: Option<String>, pas: Option<String>): Record
  {
    if dni.Some? && pas.None? then
      match ClassifyCombined(dni.value)
      case NoDoc => data
      case DniDoc(d) => data[Dni := Str(d)]
      case PassDoc(p) => data[Pasaporte := Str(p)]
    else
      var withDni := if dni.Some? && DniShape(dni.value) then data[Dni := Str(dni.value)] else data;
      if pas.Some? && PasaporteShape(pas.value) then withDni[Pasaporte := Str(pas.value)] else withDni
  }

  /** The document step of a row: its DNI and passport cells, cleaned, when they have text. */
  function Documents(data: Record, row: Row): Record
  {
    DocumentsOf(data, CleanedDni(row), CleanedPassport(row))
  }

  /** The DNI cell, cleaned, when it has text. */
  function CleanedDni(row: Row): Option<String>
  {
    match GetValue(row, Dni)
    case None => None
    case Some(v) => Some(CleanDoc(v))
  }

  /** The passport cell, cleaned, when it has text. */
  function CleanedPassport(row: Row): Option<String>
  {
    match GetValue(row, Pasaporte)
    case None => None
    case Some(v) => Some(CleanPassport(v))
  }

  /** The fallback scan: the first column not starting with `_` whose cleaned cell is 7 or 8 digits. */
  function FallbackDni(row: Row): (r: Option<String>)
    ensures r.Some? ==> DniShape(r.value)
  {
    if row == [] then None
    else if !StartsWith(row[0].0, "_") && DniShape(CleanDoc(row[0].1)) then Some(CleanDoc(row[0].1))
    else FallbackDni(row[1..])
  }

  /** The record after the documents and the fallback scan. */
  function WithDoc(row: Row): Record
  {
    WithFallback(Documents(Named(row), row), row)
  }

  /** The fallback scan runs only when the document step found nothing. */
  function WithFallback(d: Record, row: Row): (r: Record)
    ensures Dni in r && Dni !in d ==> r[Dni].Str? && DniShape(r[Dni].s)
    ensures Pasaporte in r ==> Pasaporte in d && r[Pasaporte] == d[Pasaporte]
    ensures forall k :: k != Dni ==> At(r, k) == At(d, k)
  {
    if HasDoc(d) then d
    else match FallbackDni(row)
      case None => d
      case Some(n) => d[Dni := Str(n)]
  }

  /** The fallback finds the first eligible column, and finds nothing only when there is none. */
  lemma {:induction false} FallbackDniIsFirst(row: Row)
    ensures FallbackDni(row).Some? ==>
      exists i :: 0 <= i < |row| && !StartsWith(row[i].0, "_") && CleanDoc(row[i].1) == FallbackDni(row).value
    ensures FallbackDni(row).None? ==>
      forall i :: 0 <= i < |row| ==> StartsWith(row[i].0, "_") || !DniShape(CleanDoc(row[i].1))
  {
    if row != [] && (StartsWith(row[0].0, "_") || !DniShape(CleanDoc(row[0].1))) {
      FallbackDniIsFirst(row[1..]);
      if FallbackDni(row).Some? {
        var i :| 0 <= i < |row[1..]| && !StartsWith(row[1..][i].0, "_") && CleanDoc(row[1..][i].1) == FallbackDni(row).value;
        assert row[i + 1] == row[1..][i];
      } else {
        forall i | 0 <= i < |row|
          ensures StartsWith(row[i].0, "_") || !DniShape(CleanDoc(row[i].1))
        {
          if i > 0 { assert row[i] == row[1..][i - 1]; }
        }
      }
    }
  }

  /** Upper-casing keeps letters-and-digits text and its length. */
  lemma ToUpperAlnum(s: String)
    requires AllAlnum(s)
    ensures AllAlnum(ToUpper(s)) && |ToUpper(s)| == |s|
  {
  }

  /** In the combined mode the shape of the cleaned value decides which document it is. */
  lemma ClassifyCombinedShape(cleaned: String)
    ensures ClassifyCombined(cleaned).DniDoc? ==> DniShape(ClassifyCombined(cleaned).dni)
    ensures ClassifyCombined(cleaned).PassDoc? ==>
      !DniShape(cleaned) && PasaporteShape(ClassifyCombined(cleaned).pasaporte)
    ensures ClassifyCombined(cleaned).NoDoc? <==> !DniShape(cleaned) && !PasaporteShape(cleaned)
  {
    if !DniShape(cleaned) && PasaporteShape(cleaned) {
      ToUpperAlnum(cleaned);
    }
  }

  /** The document step sets a DNI only in DNI shape and a passport only in passport shape. */
  lemma DocumentsOfShape(data: Record, dni: Option<String>, pas: Option<String>)
    ensures Dni in DocumentsOf(data, dni, pas) && Dni !in data ==>
      DocumentsOf(data, dni, pas)[Dni].Str? && DniShape(DocumentsOf(data, dni, pas)[Dni].s)
    ensures Pasaporte in DocumentsOf(data, dni, pas) && Pasaporte !in data ==>
      DocumentsOf(data, dni, pas)[Pasaporte].Str? && PasaporteShape(DocumentsOf(data, dni, pas)[Pasaporte].s)
    ensures forall k :: k != Dni && k != Pasaporte ==> At(DocumentsOf(data, dni, pas), k) == At(data, k)
  {
    if dni.Some? && pas.None? {
      ClassifyCombinedShape(dni.value);
    }
  }

  // ---------------------------------------------------------------- the float-cell document

  /**
   * As written, a DNI read from a float cell, `"35123456.0"`, loses its dot before the `.0`
   * test and is taken for the passport `"351234560"`.
   */
  lemma FloatDniAsWrittenIsPassport(d: String)
    requires DniShape(d) && |d| == 8
    ensures ClassifyCombined(CleanDoc(d + ".0")) == PassDoc(d + "0")
  {
    LimpiarDniAsWrittenKeepsZero(d);
    var t := d + "0";
    assert forall i :: 0 <= i < |t| ==> IsDigit(t[i]);
    assert ToUpper(t) == t;
  }

  /** A seven-digit DNI from a float cell, `"3512345.0"`, is taken as written for the DNI `"35123450"`. */
  lemma FloatDniAsWrittenGainsZero(d: String)
    requires DniShape(d) && |d| == 7
    ensures ClassifyCombined(CleanDoc(d + ".0")) == DniDoc(d + "0")
  {
    LimpiarDniAsWrittenKeepsZero(d);
    var t := d + "0";
    assert forall i :: 0 <= i < |t| ==> IsDigit(t[i]);
  }

  /** With the float suffix dropped before the separators, the same cell gives the DNI back. */
  lemma FloatDniIsDni(d: String)
    requires DniShape(d)
    ensures ClassifyCombined(LimpiarDni(d + ".0")) == DniDoc(d)
  {
    LimpiarDniOfFloatText(d, d + ".0");
    RemoveSeparatorsOfDigits(d);
  }

  // ---------------------------------------------------------------- _parse_date

  /** The formats `_parse_date` tries, in order. */
  const DateFormats: seq<Format> := [
    Format(YMD, '-', false), Format(DMY, '/', false), Format(DMY, '-', false),
    Format(DMY, '.', false), Format(MDY, '/', false), Format(YMD, '/', false)
  ]

  /** The date the first format that parses gives. */
  function FirstFormat(s: String, fmts: seq<Format>): (r: Option<Date>)
    ensures r.Some? ==> ValidDate(r.value)
  {
    if fmts == [] then None
    else match Strptime(s, fmts[0])
      case Some(d) => Some(d)
      case None => FirstFormat(s, fmts[1..])
  }

  /**
   * `_parse_date(value)`: nothing for missing or empty text, else the first format that
   * parses the stripped text, else what `pd.to_datetime` (the parameter) makes of it.
   */
  function ParseDate(value: Option<String>, toDatetime: String -> Option<Date>): Option<Date>
  {
    if value.None? || value.value == [] then None
    else match FirstFormat(Strip(value.value), DateFormats)
      case Some(d) => Some(d)
      case None => toDatetime(value.value)
  }

  /** The position of the first format that parses, `|fmts|` when none does. */
  function FirstFormatIndex(s: String, fmts: seq<Format>): nat
  {
    if fmts == [] || Strptime(s, fmts[0]).Some? then 0 else 1 + FirstFormatIndex(s, fmts[1..])
  }

  /** The date found comes from the earliest format that parses; none is found when none parses. */
  lemma {:induction false} FirstFormatIsFirst(s: String, fmts: seq<Format>)
    ensures FirstFormatIndex(s, fmts) <= |fmts|
    ensures forall j :: 0 <= j < FirstFormatIndex(s, fmts) ==> Strptime(s, fmts[j]).None?
    ensures FirstFormatIndex(s, fmts) < |fmts| ==>
      Strptime(s, fmts[FirstFormatIndex(s, fmts)]).Some?
      && FirstFormat(s, fmts) == Strptime(s, fmts[FirstFormatIndex(s, fmts)])
    ensures FirstFormatIndex(s, fmts) == |fmts| ==> FirstFormat(s, fmts).None?
  {
    if fmts != [] && Strptime(s, fmts[0]).None? {
      var k := FirstFormatIndex(s, fmts[1..]);
      FirstFormatIsFirst(s, fmts[1..]);
      forall j | 0 <= j < k + 1
        ensures Strptime(s, fmts[j]).None?
      {
        if j > 0 { assert fmts[j] == fmts[1..][j - 1]; }
      }
      if k < |fmts[1..]| {
        assert fmts[k + 1] == fmts[1..][k];
      }
    }
  }

  /** Missing or empty text gives no date. */
  lemma ParseDateEmpty(toDatetime: String -> Option<Date>)
    ensures ParseDate(None, toDatetime) == None && ParseDate(Some([]), toDatetime) == None
  {
  }

  /** `str(d)` parses back to `d` with the first format. */
  lemma ParseDateIso(d: Date, toDatetime: String -> Option<Date>)
    requires ValidDate(d)
    ensures ParseDate(Some(Iso(d)), toDatetime) == Some(d)
  {
    var s := Iso(d);
    assert IsDigit(s[0]) && IsDigit(s[9]);
    StripOfTrimmed(s);
    IsoRoundTrip(d);
  }

  /** `dd/mm/yyyy` text. */
  function SlashedDayFirst(d: Date): String
    requires ValidDate(d)
  {
    Padded(d.day, 2) + "/" + Padded(d.month, 2) + "/" + Padded(d.year, 4)
  }

  /** Digit-only text holds no separator. */
  lemma DigitsNoSeparator(t: String, c: char)
    requires forall i :: 0 <= i < |t| ==> IsDigit(t[i])
    requires !IsDigit(c)
    ensures c !in t
  {
  }

  /** `dd/mm/yyyy` text holds no dash and needs no stripping. */
  lemma SlashedDayFirstShape(d: Date)
    requires ValidDate(d)
    ensures '-' !in SlashedDayFirst(d) && Strip(SlashedDayFirst(d)) == SlashedDayFirst(d)
  {
    var dd, mm, yy := Padded(d.day, 2), Padded(d.month, 2), Padded(d.year, 4);
    var s := SlashedDayFirst(d);
    assert s == dd + ['/'] + mm + ['/'] + yy;
    DigitsNoSeparator(dd, '-');
    DigitsNoSeparator(mm, '-');
    DigitsNoSeparator(yy, '-');
    assert IsDigit(s[0]) && IsDigit(s[|s| - 1]);
    StripOfTrimmed(s);
  }

  /** `dd/mm/yyyy` text parses day first with the second format. */
  lemma StrptimeDayFirst(d: Date)
    requires ValidDate(d)
    ensures Strptime(SlashedDayFirst(d), Format(DMY, '/', false)) == Some(d)
  {
    var dd, mm, yy := Padded(d.day, 2), Padded(d.month, 2), Padded(d.year, 4);
    DigitsNoSeparator(dd, '/');
    DigitsNoSeparator(mm, '/');
    FieldsOfJoined(dd, mm, yy, '/');
    ParseMonthPadded(d.month);
    ParseDayPadded(d.day);
    assert ParseYear4(yy) == Some(d.year);
  }

  /** Day-first wins: `"01/02/2024"` is the first of February, never the second of January. */
  lemma ParseDateDayFirst(d: Date, toDatetime: String -> Option<Date>)
    requires ValidDate(d)
    ensures ParseDate(Some(SlashedDayFirst(d)), toDatetime) == Some(d)
  {
    var s := SlashedDayFirst(d);
    SlashedDayFirstShape(d);
    StrptimeDayFirst(d);
    assert Strptime(s, DateFormats[0]).None?;
    assert FirstFormat(s, DateFormats[1..]) == Some(d);
  }

  // ---------------------------------------------------------------- after the checks

  /** Defaults for the mandatory fields that are still missing. */
  function Defaults(data: Record): Record
  {
    var d1 := if Nacionalidad in data then data else data[Nacionalidad := Str("Argentina")];
    var d2 := if Procedencia in d1 then d1 else d1[Procedencia := Str("Sin especificar")];
    if Habitacion in d2 then d2 else d2[Habitacion := Str("S/N")]
  }

  /** `int(float(edad))` of the age cell, when it has text. */
  function AgeOf(row: Row): Option<Truncated>
  {
    match GetValue(row, Edad)
    case None => None
    case Some(e) => PyIntOfFloat(e)
  }

  /** The age: kept when strictly between 0 and 150; text that is no number is ignored. */
  function EdadStep(data: Record, age: Option<Truncated>): Record
  {
    match age
    case Some(Value(n)) => if 0 < n < 150 then data[Edad := Int(n)] else data
    case _ => data
  }

  /** `str()` of the `OverflowError` that `int(float("inf"))` raises. */
  const InfinityMsg := "cannot convert float infinity to integer"

  /**
   * The age step as written: only `ValueError` and `TypeError` are caught, so the
   * `OverflowError` of an infinite age escapes and rejects the whole row.
   */
  function EdadStepAsWritten(data: Record, age: Option<Truncated>): Result<Record>
  {
    match age
    case Some(Value(n)) => Ok(if 0 < n < 150 then data[Edad := Int(n)] else data)
    case Some(OverflowErr) => Err(InfinityMsg)
    case _ => Ok(data)
  }

  /** `int(float("inf"))` raises `OverflowError`. */
  lemma InfinityOverflows()
    ensures PyIntOfFloat("inf") == Some(OverflowErr)
  {
    StripOfTrimmed("inf");
    assert ToLower("inf") == "inf";
  }

  /** An age cell `inf` rejects the row as written; the corrected step just leaves the age out. */
  lemma InfiniteEdad(data: Record, row: Row)
    requires GetValue(row, Edad) == Some("inf")
    ensures EdadStepAsWritten(data, AgeOf(row)) == Err(InfinityMsg)
    ensures EdadStep(data, AgeOf(row)) == data
  {
    InfinityOverflows();
    var age := AgeOf(row);
    assert age == PyIntOfFloat(GetValue(row, Edad).value);
    OverflowingEdad(data, age);
  }

  /** An overflowing age rejects the row as written and is left out by the corrected step. */
  lemma OverflowingEdad(data: Record, age: Option<Truncated>)
    requires age == Some(OverflowErr)
    ensures EdadStepAsWritten(data, age) == Err(InfinityMsg)
    ensures EdadStep(data, age) == data
  {
  }

  /** The age steps agree on every value that is not infinite. */
  lemma EdadStepsAgree(data: Record, age: Option<Truncated>)
    requires age != Some(OverflowErr)
    ensures EdadStepAsWritten(data, age) == Ok(EdadStep(data, age))
  {
  }

  /** The dates: birth date when it parses, entry date or `today`, exit date when it parses. */
  function DatesStep(data: Record, nacimiento: Option<Date>, entrada: Option<Date>, salida: Option<Date>, today: Date): Record
  {
    var d1 := if nacimiento.Some? then data[FechaNacimiento := Day(nacimiento.value)] else data;
    var d2 := d1[FechaEntrada := Day(if entrada.Some? then entrada.value else today)];
    if salida.Some? then d2[FechaSalida := Day(salida.value)] else d2
  }

  /** The date a row's column gives, through `_parse_date`. */
  function DateOf(row: Row, f: Field, toDatetime: String -> Option<Date>): Option<Date>
  {
    ParseDate(GetValue(row, f), toDatetime)
  }

  /** `data.pop("vehiculo")` becomes the flag and, when there was text, the vehicle data. */
  function VehicleStep(data: Record): Record
  {
    var rest := data - {Vehiculo};
    if Filled(data, Vehiculo) then rest[VehiculoTiene := Flag(true)][VehiculoDatos := data[Vehiculo]]
    else rest[VehiculoTiene := Flag(false)]
  }

  /** A date column whose lookup raises. */
  predicate DateLookupRaises(row: Row)
  {
    Lookup(row, FechaNacimiento).Err? || Lookup(row, FechaEntrada).Err? || Lookup(row, FechaSalida).Err?
  }

  /**
   * The steps after the checks, in order: the age cell is read first, and the date cells
   * only once the age step has passed, so a repeated date column matters only then.
   */
  function Finish(data: Record, row: Row, today: Date, toDatetime: String -> Option<Date>): Result<Record>
  {
    match Lookup(row, Edad)
    case Err(m) => Err(m)
    case Ok(_) =>
      match FinishWith(data, AgeOf(row), DateOf(row, FechaNacimiento, toDatetime), DateOf(row, FechaEntrada, toDatetime),
        DateOf(row, FechaSalida, toDatetime), today)
      case Err(m) => Err(m)
      case Ok(r) => if DateLookupRaises(row) then Err(AmbiguousMsg) else Ok(r)
  }

  /**
   * The steps after the checks, given the age and the dates the row's cells give; the
   * overflow the age step lets escape ends the row before the dates are read.
   */
  function FinishWith(data: Record, age: Option<Truncated>, nacimiento: Option<Date>, entrada: Option<Date>,
                      salida: Option<Date>, today: Date): Result<Record>
  {
    match EdadStepAsWritten(Defaults(data), age)
    case Err(m) => Err(m)
    case Ok(d) => Ok(VehicleStep(DatesStep(d, nacimiento, entrada, salida, today)))
  }

  /** The steps after the checks fail exactly on an overflowing age, and then with its message. */
  lemma FinishFails(data: Record, age: Option<Truncated>, nac: Option<Date>, ent: Option<Date>, sal: Option<Date>, today: Date)
    ensures FinishWith(data, age, nac, ent, sal, today).Err? <==> age == Some(OverflowErr)
    ensures FinishWith(data, age, nac, ent, sal, today).Err? ==> FinishWith(data, age, nac, ent, sal, today).msg == InfinityMsg
    ensures FinishWith(data, age, nac, ent, sal, today).Ok? ==>
      FinishWith(data, age, nac, ent, sal, today).value == VehicleStep(DatesStep(EdadStep(Defaults(data), age), nac, ent, sal, today))
  {
    if age != Some(OverflowErr) {
      EdadStepsAgree(Defaults(data), age);
    }
  }

  /**
   * The steps after the checks fail on a repeated age column, then on an overflowing age,
   * then on a repeated date column, with the overflow's message only for the overflow;
   * otherwise they give the record of the defaults, age, date and vehicle steps.
   */
  lemma FinishSpec(data: Record, row: Row, today: Date, toDatetime: String -> Option<Date>)
    ensures var r := Finish(data, row, today, toDatetime);
      (r.Err? <==> Lookup(row, Edad).Err? || AgeOf(row) == Some(OverflowErr) || DateLookupRaises(row))
      && (r.Err? ==> r.msg == if Lookup(row, Edad).Ok? && AgeOf(row) == Some(OverflowErr) then InfinityMsg else AmbiguousMsg)
      && (r.Ok? ==> r == FinishWith(data, AgeOf(row), DateOf(row, FechaNacimiento, toDatetime),
                            DateOf(row, FechaEntrada, toDatetime), DateOf(row, FechaSalida, toDatetime), today))
  {
    FinishFails(data, AgeOf(row), DateOf(row, FechaNacimiento, toDatetime), DateOf(row, FechaEntrada, toDatetime),
      DateOf(row, FechaSalida, toDatetime), today);
  }

  // ---------------------------------------------------------------- _process_row

  /**
   * The checks in order, given the record after the text steps (`named`) and after the
   * document steps (`data`): no name at all skips the row; no document reports the row when
   * both names are there and skips it otherwise; an empty name rejects it.
   */
  function Decide(named: Record, data: Record, finish: Result<Record>): Outcome
  {
    if Apellido !in named && Nombre !in named then Skip
    else if !HasDoc(data) then
      if Apellido in data && Nombre in data then Failure(NoDocumentRowMsg) else Skip
    else if !Filled(data, Apellido) then Failure(RequiredMsg(Apellido))
    else if !Filled(data, Nombre) then Failure(RequiredMsg(Nombre))
    else match finish
      case Err(m) => Failure(m)
      case Ok(f) => Accepted(f)
  }

  /** The DNI or the passport lookup raises. */
  predicate DocLookupRaises(row: Row)
  {
    Lookup(row, Dni).Err? || Lookup(row, Pasaporte).Err?
  }

  /**
   * `_process_row(row)`, with `date.today()` and `pd.to_datetime` as parameters: the text
   * stage, the skip check, the two document lookups, then the checks and later steps.
   */
  function ProcessRow(row: Row, today: Date, toDatetime: String -> Option<Date>): Outcome
  {
    match TextStage(row)
    case Err(m) => Failure(m)
    case Ok(named) =>
      if Apellido !in named && Nombre !in named then Skip
      else if DocLookupRaises(row) then Failure(AmbiguousMsg)
      else Decide(named, WithDoc(row), Finish(WithDoc(row), row, today, toDatetime))
  }

  /** A row with a document and both names passes the checks and reaches the later steps. */
  predicate PassesChecks(row: Row)
  {
    HasDoc(WithDoc(row)) && Filled(Named(row), Apellido) && Filled(Named(row), Nombre)
  }

  /**
   * `_process_row` reaches the lookup of a repeated header before it returns or raises for
   * another reason: in the text stage; for the documents once the row has a name; for the
   * age once the checks pass; for the dates when, besides, the age does not overflow.
   */
  predicate ReachesRepeated(row: Row)
  {
    TextStage(row).Err?
    || ((Apellido in Named(row) || Nombre in Named(row)) && DocLookupRaises(row))
    || (PassesChecks(row) && (Lookup(row, Edad).Err? || (AgeOf(row) != Some(OverflowErr) && DateLookupRaises(row))))
  }

  // ---------------------------------------------------------------- what the stages keep

  /** The document stages touch the two document keys only. */
  lemma WithDocKeeps(row: Row, k: Field)
    requires k != Dni && k != Pasaporte
    ensures At(WithDoc(row), k) == At(Named(row), k)
  {
    DocumentsOfShape(Named(row), CleanedDni(row), CleanedPassport(row));
  }

  /** A document in the record has its shape: 7 or 8 digits, or 5 to 15 letters and digits. */
  lemma WithDocShape(row: Row)
    ensures Dni in WithDoc(row) ==> WithDoc(row)[Dni].Str? && DniShape(WithDoc(row)[Dni].s)
    ensures Pasaporte in WithDoc(row) ==> WithDoc(row)[Pasaporte].Str? && PasaporteShape(WithDoc(row)[Pasaporte].s)
  {
    NamedLacks(row);
    DocumentsOfShape(Named(row), CleanedDni(row), CleanedPassport(row));
  }

  /** Defaults fill the three mandatory fields that are missing and keep every value present. */
  lemma DefaultsAt(data: Record, k: Field)
    ensures Nacionalidad in Defaults(data) && Procedencia in Defaults(data) && Habitacion in Defaults(data)
    ensures k in data ==> At(Defaults(data), k) == At(data, k)
    ensures k !in data && k == Nacionalidad ==> Defaults(data)[k] == Str("Argentina")
    ensures k !in data && k == Procedencia ==> Defaults(data)[k] == Str("Sin especificar")
    ensures k !in data && k == Habitacion ==> Defaults(data)[k] == Str("S/N")
    ensures k != Nacionalidad && k != Procedencia && k != Habitacion ==> At(Defaults(data), k) == At(data, k)
  {
  }

  /** The age stage sets nothing but an age strictly between 0 and 150. */
  lemma EdadStepAt(data: Record, age: Option<Truncated>, k: Field)
    ensures k != Edad ==> At(EdadStep(data, age), k) == At(data, k)
    ensures Edad in EdadStep(data, age) && Edad !in data ==>
      EdadStep(data, age)[Edad].Int? && 0 < EdadStep(data, age)[Edad].n < 150
  {
  }

  /** The date stage always sets the entry date, `today` when the column gives none. */
  lemma DatesStepAt(data: Record, nacimiento: Option<Date>, entrada: Option<Date>, salida: Option<Date>, today: Date, k: Field)
    ensures k != FechaNacimiento && k != FechaEntrada && k != FechaSalida ==>
      At(DatesStep(data, nacimiento, entrada, salida, today), k) == At(data, k)
    ensures DatesStep(data, nacimiento, entrada, salida, today)[FechaEntrada]
      == Day(if entrada.Some? then entrada.value else today)
  {
  }

  /** The vehicle text becomes a flag, and the vehicle data exactly when there was text. */
  lemma VehicleStepAt(data: Record, k: Field)
    ensures Vehiculo !in VehicleStep(data) && VehiculoTiene in VehicleStep(data)
    ensures VehicleStep(data)[VehiculoTiene] == Flag(Filled(data, Vehiculo))
    ensures Filled(data, Vehiculo) ==> VehicleStep(data)[VehiculoDatos] == data[Vehiculo]
    ensures k != Vehiculo && k != VehiculoTiene && k != VehiculoDatos ==> At(VehicleStep(data), k) == At(data, k)
  {
  }

  /** The stages after the checks leave the names and the documents as the checks saw them. */
  lemma FinishKeeps(data: Record, age: Option<Truncated>, nac: Option<Date>, ent: Option<Date>, sal: Option<Date>, today: Date, k: Field)
    requires k == Apellido || k == Nombre || k == Dni || k == Pasaporte
    requires FinishWith(data, age, nac, ent, sal, today).Ok?
    ensures At(FinishWith(data, age, nac, ent, sal, today).value, k) == At(data, k)
  {
    FinishFails(data, age, nac, ent, sal, today);
    var d1 := Defaults(data);
    var d2 := EdadStep(d1, age);
    var d3 := DatesStep(d2, nac, ent, sal, today);
    DefaultsAt(data, k);
    EdadStepAt(d1, age, k);
    DatesStepAt(d2, nac, ent, sal, today, k);
    VehicleStepAt(d3, k);
  }

  /**
   * After the checks: the three mandatory fields, an entry date, the vehicle flag in place
   * of the vehicle text, and an age only strictly between 0 and 150.
   */
  lemma FinishShape(data: Record, age: Option<Truncated>, nac: Option<Date>, ent: Option<Date>, sal: Option<Date>, today: Date)
    requires Edad !in data && FinishWith(data, age, nac, ent, sal, today).Ok?
    ensures var r := FinishWith(data, age, nac, ent, sal, today).value;
      Nacionalidad in r && Procedencia in r && Habitacion in r && FechaEntrada in r
      && Vehiculo !in r && VehiculoTiene in r
      && (Edad in r ==> r[Edad].Int? && 0 < r[Edad].n < 150)
  {
    var d1 := Defaults(data);
    var d2 := EdadStep(d1, age);
    var d3 := DatesStep(d2, nac, ent, sal, today);
    FinishFails(data, age, nac, ent, sal, today);
    DefaultsAt(data, Edad);
    EdadStepAt(d1, age, Edad);
    EdadStepAt(d1, age, Nacionalidad);
    EdadStepAt(d1, age, Procedencia);
    EdadStepAt(d1, age, Habitacion);
    DatesStepAt(d2, nac, ent, sal, today, Edad);
    DatesStepAt(d2, nac, ent, sal, today, Nacionalidad);
    DatesStepAt(d2, nac, ent, sal, today, Procedencia);
    DatesStepAt(d2, nac, ent, sal, today, Habitacion);
    VehicleStepAt(d3, Edad);
    VehicleStepAt(d3, Nacionalidad);
    VehicleStepAt(d3, Procedencia);
    VehicleStepAt(d3, Habitacion);
    VehicleStepAt(d3, FechaEntrada);
  }

  // ---------------------------------------------------------------- outcomes

  /** The checks, on any records whose names agree, with the later steps failing only on the age. */
  lemma DecideOutcome(named: Record, data: Record, finish: Result<Record>)
    requires At(data, Apellido) == At(named, Apellido) && At(data, Nombre) == At(named, Nombre)
    requires finish.Err? ==>
      finish.msg != NoDocumentRowMsg && finish.msg != RequiredMsg(Apellido) && finish.msg != RequiredMsg(Nombre)
    ensures var out := Decide(named, data, finish);
      (out.Accepted? <==> HasDoc(data) && Filled(named, Apellido) && Filled(named, Nombre) && finish.Ok?)
      && (out.Accepted? ==> out.data == finish.value)
      && (finish.Err? ==> (out == Failure(finish.msg) <==> HasDoc(data) && Filled(named, Apellido) && Filled(named, Nombre)))
      && (out == Failure(NoDocumentRowMsg) <==> !HasDoc(data) && Apellido in named && Nombre in named)
      && (out == Failure(RequiredMsg(Apellido)) <==>
          HasDoc(data) && (Apellido in named || Nombre in named) && !Filled(named, Apellido))
      && (out == Failure(RequiredMsg(Nombre)) <==>
          HasDoc(data) && (Apellido in named || Nombre in named) && Filled(named, Apellido) && !Filled(named, Nombre))
      && (out == Skip <==>
          (Apellido !in named && Nombre !in named) || (!HasDoc(data) && (Apellido !in named || Nombre !in named)))
  {
    assert RequiredMsg(Apellido) != RequiredMsg(Nombre) by {
      assert RequiredMsg(Apellido)[19] != RequiredMsg(Nombre)[19];
    }
    assert NoDocumentRowMsg != RequiredMsg(Apellido) && NoDocumentRowMsg != RequiredMsg(Nombre) by {
      assert NoDocumentRowMsg[0] != RequiredMsg(Apellido)[0];
      assert NoDocumentRowMsg[0] != RequiredMsg(Nombre)[0];
    }
  }

  /** The messages a row can be rejected with differ from one another. */
  lemma RowMessagesDiffer()
    ensures AmbiguousMsg != InfinityMsg
    ensures AmbiguousMsg != NoDocumentRowMsg && AmbiguousMsg != RequiredMsg(Apellido) && AmbiguousMsg != RequiredMsg(Nombre)
    ensures InfinityMsg != NoDocumentRowMsg && InfinityMsg != RequiredMsg(Apellido) && InfinityMsg != RequiredMsg(Nombre)
  {
    assert AmbiguousMsg[0] == 'T';
    assert InfinityMsg[0] == 'c';
    assert NoDocumentRowMsg[0] == 'S' && RequiredMsg(Apellido)[0] == 'C' && RequiredMsg(Nombre)[0] == 'C';
  }

  /**
   * The outcomes of a row: reaching the lookup of a repeated header rejects it with pandas'
   * message; otherwise a row with a name but no document is reported only when both names
   * are there, and a row with a document is rejected when either name is empty or the age
   * overflows, and accepted otherwise.
   */
  lemma ProcessRowOutcome(row: Row, today: Date, toDatetime: String -> Option<Date>)
    ensures var named := Named(row);
      var out := ProcessRow(row, today, toDatetime);
      var amb := ReachesRepeated(row);
      (out == Failure(AmbiguousMsg) <==> amb)
      && (out.Accepted? <==> !amb && PassesChecks(row) && AgeOf(row) != Some(OverflowErr))
      && (out == Failure(InfinityMsg) <==> !amb && PassesChecks(row) && AgeOf(row) == Some(OverflowErr))
      && (out == Failure(NoDocumentRowMsg) <==> !amb && !HasDoc(WithDoc(row)) && Apellido in named && Nombre in named)
      && (out == Skip <==>
          (!amb && ((Apellido !in named && Nombre !in named) || (!HasDoc(WithDoc(row)) && (Apellido !in named || Nombre !in named)))))
  {
    TextStageSpec(row);
    RowMessagesDiffer();
    if TextStage(row).Ok? && (Apellido in Named(row) || Nombre in Named(row)) && !DocLookupRaises(row) {
      WithDocKeeps(row, Apellido);
      WithDocKeeps(row, Nombre);
      FinishSpec(WithDoc(row), row, today, toDatetime);
      DecideOutcome(Named(row), WithDoc(row), Finish(WithDoc(row), row, today, toDatetime));
    }
  }

  /**
   * A row without surname and without given names is not a data row: it is skipped, unless
   * a lookup of the text stage raises first.
   */
  lemma SkipWithoutNames(row: Row, today: Date, toDatetime: String -> Option<Date>)
    requires GetValue(row, ApellidoNombre).None? && GetValue(row, Apellido).None? && GetValue(row, Nombre).None?
    ensures ProcessRow(row, today, toDatetime) == if TextStage(row).Err? then Failure(AmbiguousMsg) else Skip
  {
    NameFieldSource(row, Apellido);
    NameFieldSource(row, Nombre);
    TextStageSpec(row);
  }

  /**
   * A row with a surname whose DNI or passport header is repeated, as when the columns `DNI`
   * and `dni` both clean to `dni`, is rejected with pandas' message.
   */
  lemma RepeatedDocumentRejects(row: Row, today: Date, toDatetime: String -> Option<Date>, i: nat, j: nat)
    requires i < j < |row| && row[i].0 == row[j].0 && (row[i].0 == Key(Dni) || row[i].0 == Key(Pasaporte))
    requires GetValue(row, Apellido).Some?
    ensures ProcessRow(row, today, toDatetime) == Failure(AmbiguousMsg)
  {
    LookupSpec(row, Dni);
    LookupSpec(row, Pasaporte);
    TextStageSpec(row);
    NameFieldSource(row, Apellido);
  }

  /** On a row whose headers are all distinct no lookup raises. */
  lemma DistinctHeadersReachNothing(row: Row)
    requires forall i, j :: 0 <= i < j < |row| ==> row[i].0 != row[j].0
    ensures TextStage(row) == Ok(Named(row))
    ensures !ReachesRepeated(row)
  {
    forall f: Field
      ensures Lookup(row, f).Ok?
    {
      DistinctHeadersLookup(row, f);
    }
    TextStageSpec(row);
  }

  /**
   * An accepted row passed the checks, and its record is what the steps after the checks
   * made of the record with its documents.
   */
  lemma AcceptedIsFinish(row: Row, today: Date, toDatetime: String -> Option<Date>)
    requires ProcessRow(row, today, toDatetime).Accepted?
    ensures var fw := FinishWith(WithDoc(row), AgeOf(row), DateOf(row, FechaNacimiento, toDatetime),
        DateOf(row, FechaEntrada, toDatetime), DateOf(row, FechaSalida, toDatetime), today);
      fw.Ok? && ProcessRow(row, today, toDatetime).data == fw.value
      && HasDoc(WithDoc(row)) && Filled(Named(row), Apellido) && Filled(Named(row), Nombre)
  {
    var d := WithDoc(row);
    TextStageSpec(row);
    var fin := Finish(d, row, today, toDatetime);
    assert ProcessRow(row, today, toDatetime) == Decide(Named(row), d, fin);
    assert HasDoc(d) && Filled(d, Apellido) && Filled(d, Nombre) && fin.Ok?;
    FinishSpec(d, row, today, toDatetime);
    WithDocKeeps(row, Apellido);
    WithDocKeeps(row, Nombre);
  }

  /**
   * An accepted record has a document of the right shape, both names as the text steps
   * gave them, the three mandatory fields, an entry date, the vehicle flag in place of the
   * vehicle text, and an age only when it lies strictly between 0 and 150.
   */
  lemma AcceptedShape(row: Row, today: Date, toDatetime: String -> Option<Date>)
    requires ProcessRow(row, today, toDatetime).Accepted?
    ensures var r := ProcessRow(row, today, toDatetime).data;
      (Dni in r || Pasaporte in r)
      && (Dni in r ==> r[Dni].Str? && DniShape(r[Dni].s))
      && (Pasaporte in r ==> r[Pasaporte].Str? && PasaporteShape(r[Pasaporte].s))
      && Filled(r, Apellido) && Filled(r, Nombre)
      && At(r, Apellido) == At(Named(row), Apellido) && At(r, Nombre) == At(Named(row), Nombre)
      && Nacionalidad in r && Procedencia in r && Habitacion in r && FechaEntrada in r
      && Vehiculo !in r && VehiculoTiene in r
      && (Edad in r ==> r[Edad].Int? && 0 < r[Edad].n < 150)
  {
    var d := WithDoc(row);
    AcceptedIsFinish(row, today, toDatetime);
    WithDocShape(row);
    NamedLacks(row);
    WithDocKeeps(row, Edad);
    WithDocKeeps(row, Apellido);
    WithDocKeeps(row, Nombre);
    var age, nac, ent, sal := AgeOf(row), DateOf(row, FechaNacimiento, toDatetime), DateOf(row, FechaEntrada, toDatetime),
      DateOf(row, FechaSalida, toDatetime);
    FinishShape(d, age, nac, ent, sal, today);
    FinishKeeps(d, age, nac, ent, sal, today, Apellido);
    FinishKeeps(d, age, nac, ent, sal, today, Nombre);
    FinishKeeps(d, age, nac, ent, sal, today, Dni);
    FinishKeeps(d, age, nac, ent, sal, today, Pasaporte);
  }
}
