/**
 * The row stage of the earlier importer embedded in `_rebuild_phase2.py`: `_procesar_fila`
 * turns one row of the frame into a guest record, or skips it, or raises, and
 * `procesar_dataframe` collects the records and the rows that raised.
 */
module LegacyRows {
  import opened Base
  import opened Text
  import opened Numerals
  import opened Dates
  import opened Validators
  import opened LegacyValidators
  import opened LegacyMapping
  import opened LegacyValues
  import ExcelRow

  /** A row of the frame: column name to cell; `row.get(col)` is `None` for a column it lacks. */
  type Row = map<String, Cell>

  /** `campo_a_col`: internal field name to spreadsheet column. */
  type ColumnOf = map<String, String>

  const ApellidoNombreField: String := "apellido_nombre"
  const ApellidoField: String := "apellido"
  const NombreField: String := "nombre"
  const DniField: String := "dni"
  const PasaporteField: String := "pasaporte"
  const EntradaField: String := "fecha_entrada"
  const SalidaField: String := "fecha_salida"
  const NacimientoField: String := "fecha_nacimiento"
  const NacionalidadField: String := "nacionalidad"
  const ProcedenciaField: String := "procedencia"
  const ProfesionField: String := "profesion"
  const EdadField: String := "edad"
  const EstablecimientoField: String := "establecimiento"
  const HabitacionField: String := "habitacion"
  const TelefonoField: String := "telefono"
  const DestinoField: String := "destino"
  const VehiculoField: String := "vehiculo"

  const DefaultNacionalidad: String := "Argentina"
  const DefaultProcedencia: String := "S/D"
  const DefaultHabitacion: String := "S/N"

  // ---------------------------------------------------------------- campo_a_col

  /** `{campo: col for col, campo in mapeo.items()}`: a later column for the same field wins. */
  function Invert(mapeo: Items): ColumnOf
  {
    if mapeo == [] then map[]
    else
      var n := |mapeo| - 1;
      Invert(mapeo[..n])[mapeo[n].1 := mapeo[n].0]
  }

  /** The inverted mapping has exactly the mapped fields as keys. */
  lemma {:induction false} InvertKeys(mapeo: Items)
    ensures Invert(mapeo).Keys == Values(mapeo)
  {
    if mapeo != [] {
      var n := |mapeo| - 1;
      InvertKeys(mapeo[..n]);
      assert mapeo == mapeo[..n] + [mapeo[n]];
      assert Values(mapeo) == Values(mapeo[..n]) + {mapeo[n].1} by {
        forall e | e in mapeo
          ensures e in mapeo[..n] || e == mapeo[n]
        {
          var i :| 0 <= i < |mapeo| && mapeo[i] == e;
          if i < n {
            assert mapeo[..n][i] == e;
          }
        }
      }
    }
  }

  /** A field is sent to the last column mapped to it. */
  lemma {:induction false} InvertLastWins(mapeo: Items, i: nat)
    requires i < |mapeo|
    requires forall j :: i < j < |mapeo| ==> mapeo[j].1 != mapeo[i].1
    ensures mapeo[i].1 in Invert(mapeo) && Invert(mapeo)[mapeo[i].1] == mapeo[i].0
  {
    var n := |mapeo| - 1;
    if i < n {
      var init := mapeo[..n];
      assert init[i] == mapeo[i];
      forall j | i < j < |init|
        ensures init[j].1 != init[i].1
      {
        assert init[j] == mapeo[j];
      }
      InvertLastWins(init, i);
    }
  }

  /** When no two columns share a field, as `detectar_mapeo` guarantees, every pair is recovered. */
  lemma InvertOfDistinct(mapeo: Items, i: nat)
    requires i < |mapeo|
    requires forall j, k :: 0 <= j < k < |mapeo| ==> mapeo[j].1 != mapeo[k].1
    ensures mapeo[i].1 in Invert(mapeo) && Invert(mapeo)[mapeo[i].1] == mapeo[i].0
  {
    InvertLastWins(mapeo, i);
  }

  // ---------------------------------------------------------------- get_val

  /** `get_val(campo)`: the cell of the field's column, with a missing column and NaN both `None`. */
  function GetVal(row: Row, c: ColumnOf, campo: String): (v: Option<Cell>)
    ensures v.Some? ==> !v.value.Nan?
  {
    if campo !in c then None
    else if c[campo] !in row then None
    else if row[c[campo]].Nan? then None
    else Some(row[c[campo]])
  }

  /** Python truthiness of a value `get_val` returns: `None` and the empty string are false. */
  predicate Truthy(v: Option<Cell>) { v.Some? && v.value != Text([]) }

  /** Truthiness of an optional string. */
  predicate Present(s: Option<String>) { s.Some? && s.value != [] }

  /** `sanitizar_texto(str(val))` where the value is truthy, and the raw value otherwise. */
  function Optional(v: Option<Cell>): (r: Option<String>)
    ensures r.Some? <==> v.Some?
    ensures Truthy(v) ==> r == Some(SanitizarTextoAsWritten(CellText(v.value)))
    ensures v.Some? && !Truthy(v) ==> r == Some([])
  {
    if v.None? then None
    else if Truthy(v) then Some(SanitizarTextoAsWritten(CellText(v.value)))
    else Some(CellText(v.value))
  }

  /** `sanitizar_texto(str(get_val(campo) or default))`. */
  function OrDefault(v: Option<Cell>, default: String): String
  {
    SanitizarTextoAsWritten(if Truthy(v) then CellText(v.value) else default)
  }

  // ---------------------------------------------------------------- stages of _procesar_fila

  /**
   * The names: split from the combined column when it is mapped, which may raise, then each
   * separate column that is mapped and truthy takes over its half.
   */
  function Nombres(row: Row, c: ColumnOf): Result<(String, String)>
  {
    var both := if ApellidoNombreField in c then SplitApellidoNombre(GetVal(row, c, ApellidoNombreField)) else Ok(("", ""));
    match both
    case Err(m) => Err(m)
    case Ok(pair) =>
      var ap := GetVal(row, c, ApellidoField);
      var no := GetVal(row, c, NombreField);
      Ok((if ApellidoField in c && Truthy(ap) then SanitizarTextoAsWritten(CellText(ap.value)) else pair.0,
          if NombreField in c && Truthy(no) then SanitizarTextoAsWritten(CellText(no.value)) else pair.1))
  }

  /** The names fail only where the combined column is mapped and its split raises. */
  lemma NombresErr(row: Row, c: ColumnOf)
    ensures Nombres(row, c).Err? <==>
      ApellidoNombreField in c && SplitApellidoNombre(GetVal(row, c, ApellidoNombreField)).Err?
    ensures Nombres(row, c).Err? ==> Nombres(row, c).msg == IndexErrorMsg
  {
    if ApellidoNombreField in c {
      SplitRaisesIndexError(GetVal(row, c, ApellidoNombreField));
    }
  }

  /** The split raises nothing but the `IndexError`. */
  lemma SplitRaisesIndexError(v: Option<Cell>)
    ensures SplitApellidoNombre(v).Err? ==> SplitApellidoNombre(v).msg == IndexErrorMsg
  {
  }

  /**
   * The documents as written: both read from the DNI column when it is mapped, then a truthy
   * passport slot found in a truthy passport column replaces the one found there.
   */
  function Documentos(row: Row, c: ColumnOf): (Option<String>, PasSlot)
  {
    var fromDni := if DniField in c then ParseDocumentoAsWritten(GetVal(row, c, DniField)) else (None, NoPas);
    var pv := GetVal(row, c, PasaporteField);
    var pas := if PasaporteField in c && Truthy(pv) then ParseDocumentoAsWritten(pv).1 else NoPas;
    (fromDni.0, if PasTruthy(pas) then pas else fromDni.1)
  }

  /** `not dni and not pasaporte`. */
  predicate NoDocument(docs: (Option<String>, PasSlot)) { !Present(docs.0) && !PasTruthy(docs.1) }

  /** `ref.year - nac.year`, less one when `(ref.month, ref.day)` comes before the birthday. */
  function AgeAt(ref: Date, nac: Date): int
  {
    var early := ref.month < nac.month || (ref.month == nac.month && ref.day < nac.day);
    ref.year - nac.year - (if early then 1 else 0)
  }

  /** The age is the number of whole years: its birthday has come by `ref`, the next one has not. */
  lemma AgeAtWholeYears(ref: Date, nac: Date)
    ensures var n := AgeAt(ref, nac);
      !Before(ref, Date(nac.year + n, nac.month, nac.day)) && Before(ref, Date(nac.year + n + 1, nac.month, nac.day))
  {
  }

  function SinDocumentoMsg(fila: nat): String
  {
    "Fila " + NatToString(fila) + ": sin documento válido (DNI o Pasaporte)"
  }

  function EntradaMsg(fila: nat): String
  {
    "Fila " + NatToString(fila) + ": fecha de entrada inválida o ausente"
  }

  /**
   * The dictionary `_procesar_fila` returns, with dates as their `str()` text and the
   * passport slot as `_parse_documento` left it.
   */
  datatype Registro = Registro(
    nacionalidad: String, procedencia: String, apellido: String, nombre: String,
    dni: Option<String>, pasaporte: PasSlot, fechaNacimiento: Option<String>,
    profesion: Option<String>, telefono: Option<String>, establecimiento: Option<String>,
    habitacion: String, edad: Option<int>, fechaEntrada: String, fechaSalida: Option<String>,
    destino: Option<String>, vehiculoTiene: bool, vehiculoDatos: Option<String>)

  /** A row is skipped (`None`), raises with a message, or gives a record. */
  datatype RowResult = Skip | Fail(msg: String) | Reg(reg: Registro)

  /** `str(d) if d else None` for a parsed date. */
  function DateStr(d: Option<Moment>): Option<String>
  {
    if d.Some? then Some(MomentText(d.value)) else None
  }

  /** The age kept from the age column, or else counted from the birth date up to the entry date. */
  function EdadOf(edad: Option<int>, nacimiento: Option<Moment>, entrada: Moment): Option<int>
  {
    if edad.None? && nacimiento.Some? then Some(AgeAt(entrada.d, nacimiento.value.d)) else edad
  }

  /** The record's remaining fields, once names, documents and the entry date are known. */
  function Build(row: Row, c: ColumnOf, apellido: String, nombre: String, dni: Option<String>,
                 pasaporte: PasSlot, entrada: Moment, edad: Option<int>): Registro
  {
    var salida := ParseDateLegacyAsWritten(GetVal(row, c, SalidaField));
    var nacimiento := ParseDateLegacyAsWritten(GetVal(row, c, NacimientoField));
    var habitacion := Optional(GetVal(row, c, HabitacionField));
    var vehiculo := GetVal(row, c, VehiculoField);
    Registro(
      OrDefault(GetVal(row, c, NacionalidadField), DefaultNacionalidad),
      OrDefault(GetVal(row, c, ProcedenciaField), DefaultProcedencia),
      apellido, nombre, dni, pasaporte, DateStr(nacimiento),
      Optional(GetVal(row, c, ProfesionField)), Optional(GetVal(row, c, TelefonoField)),
      Optional(GetVal(row, c, EstablecimientoField)),
      if Present(habitacion) then habitacion.value else DefaultHabitacion,
      EdadOf(edad, nacimiento, entrada), MomentText(entrada), DateStr(salida),
      Optional(GetVal(row, c, DestinoField)),
      Truthy(vehiculo), if Truthy(vehiculo) then Some(SanitizarTextoAsWritten(CellText(vehiculo.value))) else None)
  }

  /**
   * `_procesar_fila(row, campo_a_col, fila_num)`: a combined name that cannot be split
   * raises; no name skips the row; then a missing document, then a missing entry date,
   * then an infinite age raise, in that order.
   */
  function ProcesarFila(row: Row, c: ColumnOf, fila: nat): RowResult
  {
    match Nombres(row, c)
    case Err(m) => Fail(m)
    case Ok(names) =>
      if names.0 == [] && names.1 == [] then Skip
      else
        var docs := Documentos(row, c);
        if NoDocument(docs) then Fail(SinDocumentoMsg(fila))
        else
          var entrada := ParseDateLegacyAsWritten(GetVal(row, c, EntradaField));
          if entrada.None? then Fail(EntradaMsg(fila))
          else match ParseEdad(GetVal(row, c, EdadField))
            case Err(e) => Fail(e)
            case Ok(edad) => Reg(Build(row, c, names.0, names.1, docs.0, docs.1, entrada.value, edad))
  }

  /** The outcome of a row, case by case: skip, each error in its order, or a record. */
  lemma ProcesarFilaCases(row: Row, c: ColumnOf, fila: nat)
    ensures var r := ProcesarFila(row, c, fila);
      var names := Nombres(row, c);
      var docs := Documentos(row, c);
      var entrada := ParseDateLegacyAsWritten(GetVal(row, c, EntradaField));
      var edad := ParseEdad(GetVal(row, c, EdadField));
      && (r == Fail(IndexErrorMsg) <==> names.Err?)
      && (r.Skip? <==> names.Ok? && names.value.0 == [] && names.value.1 == [])
      && (r == Fail(SinDocumentoMsg(fila)) <==> names.Ok? && !r.Skip? && NoDocument(docs))
      && (r == Fail(EntradaMsg(fila)) <==> names.Ok? && !r.Skip? && !NoDocument(docs) && entrada.None?)
      && (r.Fail? ==> r.msg in {IndexErrorMsg, SinDocumentoMsg(fila), EntradaMsg(fila), ExcelRow.InfinityMsg})
      && (r.Reg? <==> names.Ok? && !r.Skip? && !NoDocument(docs) && entrada.Some? && edad.Ok?)
  {
    MessagesDiffer(fila);
    NombresErr(row, c);
    var edad := ParseEdad(GetVal(row, c, EdadField));
    if edad.Err? {
      ParseEdadErr(GetVal(row, c, EdadField));
    }
  }

  /** The row messages differ from each other, from the age error and from the split error. */
  lemma MessagesDiffer(fila: nat)
    ensures SinDocumentoMsg(fila) != EntradaMsg(fila)
    ensures SinDocumentoMsg(fila) != ExcelRow.InfinityMsg && EntradaMsg(fila) != ExcelRow.InfinityMsg
    ensures IndexErrorMsg !in {SinDocumentoMsg(fila), EntradaMsg(fila), ExcelRow.InfinityMsg}
  {
    var f := NatToString(fila);
    var k := 5 + |f| + 2;
    assert SinDocumentoMsg(fila)[k] == 's';
    assert EntradaMsg(fila)[k] == 'f';
    assert SinDocumentoMsg(fila)[0] == 'F' && EntradaMsg(fila)[0] == 'F';
    assert ExcelRow.InfinityMsg[0] == 'c';
    assert IndexErrorMsg[0] == 'l';
  }

  /** The age parser raises only with the infinity message. */
  lemma ParseEdadErr(v: Option<Cell>)
    requires ParseEdad(v).Err?
    ensures ParseEdad(v).msg == ExcelRow.InfinityMsg
  {
  }

  // ---------------------------------------------------------------- records

  /** The text of a valid date reads back as that date with `validar_fecha_entrada`'s format. */
  lemma IsoReadsBack(d: Date)
    requires ValidDate(d)
    ensures ReadDate(DateText(Iso(d))) == Some(d)
  {
    var cd: CalendarDate := d;
    StampIsDate(cd);
  }

  /**
   * A record has a name and a document; a DNI, when there is one, has 7 or 8 digits and
   * leaves the passport slot to the passport column.
   */
  lemma RegistroIdentity(row: Row, c: ColumnOf, fila: nat)
    requires ProcesarFila(row, c, fila).Reg?
    ensures var g := ProcesarFila(row, c, fila).reg;
      && Nombres(row, c) == Ok((g.apellido, g.nombre)) && (g.apellido != [] || g.nombre != [])
      && (g.dni, g.pasaporte) == Documentos(row, c) && (Present(g.dni) || PasTruthy(g.pasaporte))
      && (g.dni.Some? ==> DniShape(g.dni.value))
  {
    ParseDocumentoAsWrittenShape(GetVal(row, c, DniField));
  }

  /**
   * A record's entry date text is the `str()` of what the entry cell parsed to: text that
   * parsed reads back as its date, while a date cell keeps its time of day, so its text
   * is no `%Y-%m-%d` date and `validar_fecha_entrada` would refuse it.
   */
  lemma RegistroEntrada(row: Row, c: ColumnOf, fila: nat, today: Date)
    requires ProcesarFila(row, c, fila).Reg?
    ensures var entrada := ParseDateLegacyAsWritten(GetVal(row, c, EntradaField));
      var g := ProcesarFila(row, c, fila).reg;
      && entrada.Some? && g.fechaEntrada == MomentText(entrada.value)
      && (entrada.value.DateOnly? ==> ReadDate(DateText(g.fechaEntrada)).Some? && ReadDate(DateText(g.fechaEntrada)).value == entrada.value.d)
      && (entrada.value.DateTime? ==>
            ValidarFechaEntrada(Some(DateText(g.fechaEntrada)), today) == Check(false, DateFormatMsg))
  {
    var entrada := ParseDateLegacyAsWritten(GetVal(row, c, EntradaField));
    var g := ProcesarFila(row, c, fila).reg;
    RegistroEntradaText(row, c, fila);
    if entrada.value.DateOnly? {
      IsoReadsBack(entrada.value.d);
    } else {
      StampTextRejected(entrada.value.d, today);
    }
  }

  /** A record's entry date text is the `str()` of what the entry cell parsed to. */
  lemma RegistroEntradaText(row: Row, c: ColumnOf, fila: nat)
    requires ProcesarFila(row, c, fila).Reg?
    ensures var entrada := ParseDateLegacyAsWritten(GetVal(row, c, EntradaField));
      entrada.Some? && ProcesarFila(row, c, fila).reg.fechaEntrada == MomentText(entrada.value)
  {
  }

  /** A record's room is never empty, and its vehicle flag says whether vehicle data is there. */
  lemma RegistroDefaults(row: Row, c: ColumnOf, fila: nat)
    requires ProcesarFila(row, c, fila).Reg?
    ensures var g := ProcesarFila(row, c, fila).reg;
      g.habitacion != [] && (g.vehiculoTiene <==> g.vehiculoDatos.Some?)
  {
    var names := Nombres(row, c).value;
    var docs := Documentos(row, c);
    var entrada := ParseDateLegacyAsWritten(GetVal(row, c, EntradaField));
    var edad := ParseEdad(GetVal(row, c, EdadField));
    BuildDefaults(row, c, names.0, names.1, docs.0, docs.1, entrada.value, edad.value);
  }

  /** Whatever else it is given, a built record has a room and a vehicle flag that matches its data. */
  lemma BuildDefaults(row: Row, c: ColumnOf, apellido: String, nombre: String, dni: Option<String>,
                      pasaporte: PasSlot, entrada: Moment, edad: Option<int>)
    ensures var g := Build(row, c, apellido, nombre, dni, pasaporte, entrada, edad);
      g.habitacion != [] && (g.vehiculoTiene <==> g.vehiculoDatos.Some?)
  {
  }

  /**
   * The age: a value of the age column strictly between 0 and 150 is kept; with none, a
   * birth date gives the whole years from birth to the entry date; otherwise there is none.
   */
  lemma RegistroEdad(row: Row, c: ColumnOf, fila: nat)
    requires ProcesarFila(row, c, fila).Reg?
    ensures var g := ProcesarFila(row, c, fila).reg;
      var entrada := ParseDateLegacyAsWritten(GetVal(row, c, EntradaField));
      var nacimiento := ParseDateLegacyAsWritten(GetVal(row, c, NacimientoField));
      var col := ParseEdad(GetVal(row, c, EdadField));
      && col.Ok? && entrada.Some?
      && (col.value.Some? ==> g.edad == col.value && 0 < g.edad.value < 150)
      && (col.value.None? && nacimiento.Some? ==> g.edad == Some(AgeAt(entrada.value.d, nacimiento.value.d)))
      && (col.value.None? && nacimiento.None? ==> g.edad.None?)
  {
  }

  /**
   * As written, a DNI column cell that cleans to nothing, such as `"-"`, passes the document
   * check with the tuple `(None, None)` in the passport slot, and a named row with an entry
   * date becomes a record.
   */
  lemma DashDocumentPasses(row: Row, c: ColumnOf, fila: nat)
    requires DniField in c && c[DniField] in row && row[c[DniField]] == Text("-")
    requires PasaporteField !in c
    ensures Documentos(row, c) == (None, PasPair) && !NoDocument(Documentos(row, c))
  {
    DashCellPassesAsWritten();
  }

  // ---------------------------------------------------------------- procesar_dataframe

  /** `{col: str(row.get(col, "")) for col in mapeo.keys()}`. */
  function Datos(row: Row, mapeo: Items): (datos: Items)
    ensures |datos| == |mapeo|
    ensures forall i :: 0 <= i < |mapeo| ==> datos[i].0 == mapeo[i].0
  {
    seq(|mapeo|, i requires 0 <= i < |mapeo| =>
      (mapeo[i].0, if mapeo[i].0 in row then CellText(row[mapeo[i].0]) else ""))
  }

  /** A row that raised: its number, its mapped cells as text, and the exception's text. */
  datatype ErrorRow = ErrorRow(fila: nat, datos: Items, errores: seq<String>)

  /** The spreadsheet row number of the `idx`-th frame row: row 1 is the header. */
  function FilaNum(idx: nat): nat { idx + 2 }

  /** What `_procesar_fila` makes of each row of the frame, numbered `idx + 2`. */
  function Outcomes(rows: seq<Row>, mapeo: Items): (outs: seq<RowResult>)
    ensures |outs| == |rows|
  {
    seq(|rows|, k requires 0 <= k < |rows| => ProcesarFila(rows[k], Invert(mapeo), FilaNum(k)))
  }

  /**
   * The records and the failed rows, given each row's outcome, in row order: a record is
   * appended, a row that raised is logged with its number, a skipped row leaves no trace.
   */
  function Collect(rows: seq<Row>, outs: seq<RowResult>, mapeo: Items): (seq<Registro>, seq<ErrorRow>)
    requires |outs| == |rows|
  {
    if rows == [] then ([], [])
    else
      var n := |rows| - 1;
      var prev := Collect(rows[..n], outs[..n], mapeo);
      match outs[n]
      case Skip => prev
      case Fail(msg) => (prev.0, prev.1 + [ErrorRow(FilaNum(n), Datos(rows[n], mapeo), [msg])])
      case Reg(g) => (prev.0 + [g], prev.1)
  }

  /** `procesar_dataframe(df, mapeo)` as a value: the records and the rows that raised. */
  function Procesar(rows: seq<Row>, mapeo: Items): (seq<Registro>, seq<ErrorRow>)
  {
    Collect(rows, Outcomes(rows, mapeo), mapeo)
  }

  /** The skipped outcomes. */
  function Skips(outs: seq<RowResult>): nat
  {
    if outs == [] then 0 else Skips(outs[..|outs| - 1]) + (if outs[|outs| - 1].Skip? then 1 else 0)
  }

  lemma {:induction false} CollectAccounts(rows: seq<Row>, outs: seq<RowResult>, mapeo: Items)
    requires |outs| == |rows|
    ensures |Collect(rows, outs, mapeo).0| + |Collect(rows, outs, mapeo).1| + Skips(outs) == |rows|
  {
    if rows != [] {
      var n := |rows| - 1;
      CollectAccounts(rows[..n], outs[..n], mapeo);
    }
  }

  /** Every row is accounted for once: as a record, as an error, or as skipped. */
  lemma ProcesarAccounts(rows: seq<Row>, mapeo: Items)
    ensures |Procesar(rows, mapeo).0| + |Procesar(rows, mapeo).1| + Skips(Outcomes(rows, mapeo)) == |rows|
  {
    CollectAccounts(rows, Outcomes(rows, mapeo), mapeo);
  }

  /** Each error names one of the rows by its number and carries that row's cells and outcome. */
  predicate ErrorsLocated(rows: seq<Row>, outs: seq<RowResult>, mapeo: Items, errs: seq<ErrorRow>)
    requires |outs| == |rows|
  {
    forall i :: 0 <= i < |errs| ==>
      && 2 <= errs[i].fila < |rows| + 2 && |errs[i].errores| == 1
      && outs[errs[i].fila - 2] == Fail(errs[i].errores[0])
      && errs[i].datos == Datos(rows[errs[i].fila - 2], mapeo)
  }

  /** Row numbers strictly increase along the errors. */
  predicate Increasing(errs: seq<ErrorRow>)
  {
    forall i, j :: 0 <= i < j < |errs| ==> errs[i].fila < errs[j].fila
  }

  lemma {:induction false} CollectErrors(rows: seq<Row>, outs: seq<RowResult>, mapeo: Items)
    requires |outs| == |rows|
    ensures ErrorsLocated(rows, outs, mapeo, Collect(rows, outs, mapeo).1)
  {
    if rows != [] {
      var n := |rows| - 1;
      var init, io := rows[..n], outs[..n];
      CollectErrors(init, io, mapeo);
      var prev := Collect(init, io, mapeo).1;
      forall i | 0 <= i < |prev|
        ensures 2 <= prev[i].fila < n + 2 && |prev[i].errores| == 1
        ensures outs[prev[i].fila - 2] == Fail(prev[i].errores[0])
        ensures prev[i].datos == Datos(rows[prev[i].fila - 2], mapeo)
      {
        var k := prev[i].fila - 2;
        assert io[k] == outs[k] && init[k] == rows[k];
      }
    }
  }

  lemma {:induction false} CollectIncreasing(rows: seq<Row>, outs: seq<RowResult>, mapeo: Items)
    requires |outs| == |rows|
    ensures Increasing(Collect(rows, outs, mapeo).1)
    ensures forall i :: 0 <= i < |Collect(rows, outs, mapeo).1| ==> Collect(rows, outs, mapeo).1[i].fila < |rows| + 2
  {
    if rows != [] {
      var n := |rows| - 1;
      CollectIncreasing(rows[..n], outs[..n], mapeo);
    }
  }

  /**
   * Each error names a row of the frame by its spreadsheet number, in increasing order, and
   * carries that row's cells and the one message the row raised.
   */
  lemma ErrorsLocateRows(rows: seq<Row>, mapeo: Items, i: nat)
    requires i < |Procesar(rows, mapeo).1|
    ensures var e := Procesar(rows, mapeo).1[i];
      && 2 <= e.fila < |rows| + 2 && |e.errores| == 1
      && ProcesarFila(rows[e.fila - 2], Invert(mapeo), e.fila) == Fail(e.errores[0])
      && e.datos == Datos(rows[e.fila - 2], mapeo)
  {
    var outs := Outcomes(rows, mapeo);
    CollectErrors(rows, outs, mapeo);
    var e := Collect(rows, outs, mapeo).1[i];
    var k := e.fila - 2;
    assert outs[k] == Fail(e.errores[0]) && e.datos == Datos(rows[k], mapeo);
    assert outs[k] == ProcesarFila(rows[k], Invert(mapeo), FilaNum(k));
  }

  /** Errors come in increasing row order. */
  lemma ErrorsOrdered(rows: seq<Row>, mapeo: Items)
    ensures Increasing(Procesar(rows, mapeo).1)
  {
    CollectIncreasing(rows, Outcomes(rows, mapeo), mapeo);
  }

  lemma {:induction false} CollectReportsFailure(rows: seq<Row>, outs: seq<RowResult>, mapeo: Items, k: nat) returns (i: nat)
    requires |outs| == |rows| && k < |rows| && outs[k].Fail?
    ensures i < |Collect(rows, outs, mapeo).1| && Collect(rows, outs, mapeo).1[i].fila == FilaNum(k)
  {
    var n := |rows| - 1;
    if k < n {
      assert outs[..n][k] == outs[k];
      i := CollectReportsFailure(rows[..n], outs[..n], mapeo, k);
    } else {
      i := |Collect(rows[..n], outs[..n], mapeo).1|;
    }
  }

  /** A row that raises is reported, under its own number. */
  lemma FailedRowReported(rows: seq<Row>, mapeo: Items, k: nat) returns (i: nat)
    requires k < |rows| && ProcesarFila(rows[k], Invert(mapeo), FilaNum(k)).Fail?
    ensures i < |Procesar(rows, mapeo).1| && Procesar(rows, mapeo).1[i].fila == FilaNum(k)
  {
    i := CollectReportsFailure(rows, Outcomes(rows, mapeo), mapeo, k);
  }

  lemma {:induction false} CollectRecordSource(rows: seq<Row>, outs: seq<RowResult>, mapeo: Items, i: nat) returns (k: nat)
    requires |outs| == |rows| && i < |Collect(rows, outs, mapeo).0|
    ensures k < |rows| && outs[k] == Reg(Collect(rows, outs, mapeo).0[i])
  {
    var n := |rows| - 1;
    if i < |Collect(rows[..n], outs[..n], mapeo).0| {
      k := CollectRecordSource(rows[..n], outs[..n], mapeo, i);
      assert outs[..n][k] == outs[k];
    } else {
      k := n;
    }
  }

  /** Every record comes from a row of the frame that gives it. */
  lemma RecordSource(rows: seq<Row>, mapeo: Items, i: nat) returns (k: nat)
    requires i < |Procesar(rows, mapeo).0|
    ensures k < |rows| && ProcesarFila(rows[k], Invert(mapeo), FilaNum(k)) == Reg(Procesar(rows, mapeo).0[i])
  {
    k := CollectRecordSource(rows, Outcomes(rows, mapeo), mapeo, i);
  }

  lemma {:induction false} CollectKeepsRecord(rows: seq<Row>, outs: seq<RowResult>, mapeo: Items, k: nat)
    requires |outs| == |rows| && k < |rows| && outs[k].Reg?
    ensures outs[k].reg in Collect(rows, outs, mapeo).0
  {
    var n := |rows| - 1;
    if k < n {
      assert outs[..n][k] == outs[k];
      CollectKeepsRecord(rows[..n], outs[..n], mapeo, k);
    }
  }

  /** Every record a row gives is returned. */
  lemma RecordKept(rows: seq<Row>, mapeo: Items, k: nat)
    requires k < |rows| && ProcesarFila(rows[k], Invert(mapeo), FilaNum(k)).Reg?
    ensures ProcesarFila(rows[k], Invert(mapeo), FilaNum(k)).reg in Procesar(rows, mapeo).0
  {
    CollectKeepsRecord(rows, Outcomes(rows, mapeo), mapeo, k);
  }

  /**
   * Every record `procesar_dataframe` returns comes from a row `k` of the frame: it has a
   * name and a document, and its entry date is the text of that row's parsed entry cell,
   * which reads back as a date unless the cell held a date.
   */
  lemma RecordsHaveShape(rows: seq<Row>, mapeo: Items, i: nat) returns (k: nat)
    requires i < |Procesar(rows, mapeo).0|
    ensures k < |rows|
    ensures var g := Procesar(rows, mapeo).0[i];
      var entrada := ParseDateLegacyAsWritten(GetVal(rows[k], Invert(mapeo), EntradaField));
      && (g.apellido != [] || g.nombre != [])
      && (Present(g.dni) || PasTruthy(g.pasaporte))
      && (g.dni.Some? ==> DniShape(g.dni.value))
      && entrada.Some? && g.fechaEntrada == MomentText(entrada.value)
      && (entrada.value.DateOnly? ==> ReadDate(DateText(g.fechaEntrada)).Some? && ReadDate(DateText(g.fechaEntrada)).value == entrada.value.d)
  {
    k := RecordSource(rows, mapeo, i);
    RegistroIdentity(rows[k], Invert(mapeo), FilaNum(k));
    RegistroEntrada(rows[k], Invert(mapeo), FilaNum(k), Date(2000, 1, 1));
  }

  /** `procesar_dataframe(df, mapeo)`: the frame's rows in order, with the numbers `idx + 2`. */
  method ProcesarDataframe(rows: seq<Row>, mapeo: Items) returns (registros: seq<Registro>, errores: seq<ErrorRow>)
    ensures (registros, errores) == Procesar(rows, mapeo)
  {
    var campoACol := Invert(mapeo);
    ghost var outs := Outcomes(rows, mapeo);
    registros, errores := [], [];
    var idx := 0;
    while idx < |rows|
      invariant idx <= |rows|
      invariant (registros, errores) == Collect(rows[..idx], outs[..idx], mapeo)
    {
      assert rows[..idx + 1][..idx] == rows[..idx];
      assert outs[..idx + 1][..idx] == outs[..idx];
      var filaNum := idx + 2;
      match ProcesarFila(rows[idx], campoACol, filaNum) {
        case Skip =>
        case Fail(msg) =>
          errores := errores + [ErrorRow(filaNum, Datos(rows[idx], mapeo), [msg])];
        case Reg(registro) =>
          registros := registros + [registro];
      }
      idx := idx + 1;
    }
    assert rows[..|rows|] == rows && outs[..|rows|] == outs;
  }
}
