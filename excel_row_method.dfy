/**
 * `ExcelParser._process_row` as the source runs it: the record is a dictionary built up
 * statement by statement, with loops over the text fields, the required fields and the
 * row's cells. Each method is proved against the stage it carries out in `ExcelRow`.
 */
module ExcelRowMethod {
  import opened Base
  import opened Text
  import opened CharMaps
  import opened Dates
  import opened PyNum
  import opened Validators
  import opened ExcelRow

  /**
   * The combined name column, split into surname and given names when it has text; a
   * repeated header raises instead.
   */
  method SplitCombinedName(row: Row) returns (r: Result<Record>)
    ensures r.Err? <==> Lookup(row, ApellidoNombre).Err?
    ensures r.Err? ==> r.msg == AmbiguousMsg
    ensures r.Ok? ==> r.value == NameFields(row)
  {
    var combined := Lookup(row, ApellidoNombre);
    if combined.Err? {
      return Err(combined.msg);
    }
    var data: Record := map[];
    if combined.value.Some? {
      var partes := SplitName(combined.value.value);
      data := data[Apellido := Str(partes.0)];
      data := data[Nombre := Str(partes.1)];
    }
    return Ok(data);
  }

  /** The loop over the text fields, in order, until a lookup raises. */
  method TextFieldsLoop(row: Row, data0: Record, fields: seq<Field>) returns (r: Result<Record>)
    ensures r == TextFieldsChecked(data0, row, fields)
  {
    var data := data0;
    var i := 0;
    while i < |fields|
      invariant 0 <= i <= |fields|
      invariant TextFieldsChecked(data0, row, fields[..i]) == Ok(data)
    {
      TextFieldsSnoc(data0, row, fields, i);
      var step := TextFieldStep(data, row, fields[i]);
      if step.Err? {
        CheckedErrPersists(data0, row, fields, i + 1);
        return step;
      }
      data := step.value;
      i := i + 1;
    }
    assert fields[..i] == fields;
    return Ok(data);
  }

  /** One text field: a name already taken from the combined column is skipped, otherwise its cell is read. */
  method TextFieldStep(data0: Record, row: Row, field: Field) returns (r: Result<Record>)
    ensures r == TextFieldChecked(data0, row, field)
  {
    if NameField(field) && Filled(data0, field) {
      return Ok(data0);
    }
    var val := Lookup(row, field);
    if val.Err? {
      return Err(val.msg);
    }
    if val.value.None? {
      return Ok(data0);
    }
    var text := FieldText(field, val.value.value);
    return Ok(data0[field := Str(text)]);
  }

  /** One more field in the fold is one more text step, once the fields before it have passed. */
  lemma TextFieldsSnoc(data0: Record, row: Row, fields: seq<Field>, i: nat)
    requires i < |fields|
    ensures TextFieldsChecked(data0, row, fields[..i + 1]) ==
      match TextFieldsChecked(data0, row, fields[..i])
      case Err(m) => Err(m)
      case Ok(d) => TextFieldChecked(d, row, fields[i])
  {
    assert fields[..i + 1][..i] == fields[..i];
  }

  /** Once a lookup among the first `k` fields has raised, the later fields change nothing. */
  lemma {:induction false} CheckedErrPersists(data0: Record, row: Row, fields: seq<Field>, k: nat)
    requires k <= |fields| && TextFieldsChecked(data0, row, fields[..k]).Err?
    ensures TextFieldsChecked(data0, row, fields) == TextFieldsChecked(data0, row, fields[..k])
    decreases |fields|
  {
    if k < |fields| {
      var front := fields[..|fields| - 1];
      assert front[..k] == fields[..k];
      CheckedErrPersists(data0, row, front, k);
    } else {
      assert fields[..k] == fields;
    }
  }

  /** The document cells, classified in the combined mode or checked one by one. */
  method DocumentsStep(data0: Record, dni: Option<String>, pasaporte: Option<String>) returns (data: Record)
    ensures data == DocumentsOf(data0, dni, pasaporte)
  {
    data := data0;
    if dni.Some? && pasaporte.None? {
      var cleaned := dni.value;
      if DniShape(cleaned) {
        data := data[Dni := Str(cleaned)];
      } else if PasaporteShape(cleaned) {
        data := data[Pasaporte := Str(ToUpper(cleaned))];
      }
    } else {
      if dni.Some? && DniShape(dni.value) {
        data := data[Dni := Str(dni.value)];
      }
      if pasaporte.Some? && PasaporteShape(pasaporte.value) {
        data := data[Pasaporte := Str(pasaporte.value)];
      }
    }
  }

  /** The scan over every cell for a DNI, stopping at the first one found. */
  method FallbackScan(row: Row) returns (found: Option<String>)
    ensures found == FallbackDni(row)
  {
    var k := 0;
    while k < |row|
      invariant 0 <= k <= |row|
      invariant FallbackDni(row[k..]) == FallbackDni(row)
    {
      assert row[k..][1..] == row[k + 1..];
      var (colName, colVal) := row[k];
      if !StartsWith(colName, "_") {
        var val := CleanDoc(colVal);
        if DniShape(val) {
          return Some(val);
        }
      }
      k := k + 1;
    }
    return None;
  }

  /** The required-field loop: the first empty name, surname first, is the one reported. */
  method RequiredCheck(data: Record) returns (missing: Option<Field>)
    ensures missing.None? <==> Filled(data, Apellido) && Filled(data, Nombre)
    ensures missing == Some(Apellido) <==> !Filled(data, Apellido)
    ensures missing == Some(Nombre) <==> Filled(data, Apellido) && !Filled(data, Nombre)
  {
    var required := [Apellido, Nombre];
    assert required[0] == Apellido && required[1] == Nombre;
    var i := 0;
    while i < |required|
      invariant 0 <= i <= |required|
      invariant forall j :: 0 <= j < i ==> Filled(data, required[j])
    {
      if !Filled(data, required[i]) {
        return Some(required[i]);
      }
      i := i + 1;
    }
    assert Filled(data, required[0]) && Filled(data, required[1]);
    return None;
  }

  /**
   * Defaults, age, dates and vehicle, in the order the source applies them; a repeated age
   * header or an overflowing age ends the row before the date cells are read, and a
   * repeated date header ends it before the vehicle step.
   */
  method FinishSteps(data0: Record, row: Row, today: Date, toDatetime: String -> Option<Date>)
    returns (r: Result<Record>)
    ensures r == Finish(data0, row, today, toDatetime)
  {
    var data := DefaultsStep(data0);
    var edad := Lookup(row, Edad);
    if edad.Err? {
      return Err(edad.msg);
    }
    var aged := EdadAssign(data, AgeOf(row));
    if aged.Err? {
      return Err(aged.msg);
    }
    var fechas := [FechaNacimiento, FechaEntrada, FechaSalida];
    for k := 0 to |fechas|
      invariant forall j :: 0 <= j < k ==> Lookup(row, fechas[j]).Ok?
    {
      var fecha := Lookup(row, fechas[k]);
      if fecha.Err? {
        return Err(fecha.msg);
      }
    }
    assert !DateLookupRaises(row) by {
      assert Lookup(row, fechas[0]).Ok? && Lookup(row, fechas[1]).Ok? && Lookup(row, fechas[2]).Ok?;
    }
    data := DatesAssign(aged.value, DateOf(row, FechaNacimiento, toDatetime), DateOf(row, FechaEntrada, toDatetime),
      DateOf(row, FechaSalida, toDatetime), today);
    data := VehiclePop(data);
    return Ok(data);
  }

  /** The defaults for the mandatory fields still missing. */
  method DefaultsStep(data0: Record) returns (data: Record)
    ensures data == Defaults(data0)
  {
    data := data0;
    if Nacionalidad !in data {
      data := data[Nacionalidad := Str("Argentina")];
    }
    if Procedencia !in data {
      data := data[Procedencia := Str("Sin especificar")];
    }
    if Habitacion !in data {
      data := data[Habitacion := Str("S/N")];
    }
  }

  /**
   * The age, kept when strictly between 0 and 150; `ValueError` is passed over, the
   * `OverflowError` of an infinite age is not.
   */
  method EdadAssign(data0: Record, edad: Option<Truncated>) returns (r: Result<Record>)
    ensures r == EdadStepAsWritten(data0, edad)
  {
    var data := data0;
    match edad {
      case Some(Value(n)) =>
        if 0 < n < 150 {
          data := data[Edad := Int(n)];
        }
      case Some(OverflowErr) =>
        return Err(InfinityMsg);
      case _ =>
    }
    return Ok(data);
  }

  /** Birth date when it parses, entry date or `today`, exit date when it parses. */
  method DatesAssign(data0: Record, nacimiento: Option<Date>, entrada: Option<Date>, salida: Option<Date>, today: Date)
    returns (data: Record)
    ensures data == DatesStep(data0, nacimiento, entrada, salida, today)
  {
    data := data0;
    match nacimiento {
      case Some(d) => data := data[FechaNacimiento := Day(d)];
      case None =>
    }
    match entrada {
      case Some(d) => data := data[FechaEntrada := Day(d)];
      case None => data := data[FechaEntrada := Day(today)];
    }
    match salida {
      case Some(d) => data := data[FechaSalida := Day(d)];
      case None =>
    }
  }

  /** `data.pop("vehiculo")` and the two vehicle fields. */
  method VehiclePop(data0: Record) returns (data: Record)
    ensures data == VehicleStep(data0)
  {
    var filled := Filled(data0, Vehiculo);
    data := data0 - {Vehiculo};
    if filled {
      data := data[VehiculoTiene := Flag(true)];
      data := data[VehiculoDatos := data0[Vehiculo]];
    } else {
      data := data[VehiculoTiene := Flag(false)];
    }
  }

  /** `_process_row(row)`: skipped, rejected with a message, or the guest record. */
  method ProcessRowMethod(row: Row, today: Date, toDatetime: String -> Option<Date>) returns (out: Outcome)
    ensures out == ProcessRow(row, today, toDatetime)
  {
    var split := SplitCombinedName(row);
    if split.Err? {
      return Failure(split.msg);
    }
    var texts := TextFieldsLoop(row, split.value, TextFields);
    if texts.Err? {
      return Failure(texts.msg);
    }
    var data := texts.value;
    TextStageSpec(row);
    assert data == Named(row);
    if Apellido !in data && Nombre !in data {
      return Skip;
    }
    var dni := Lookup(row, Dni);
    var pasaporte := Lookup(row, Pasaporte);
    if dni.Err? || pasaporte.Err? {
      return Failure(AmbiguousMsg);
    }
    data := DocumentsStep(data, CleanedDni(row), CleanedPassport(row));
    if Dni !in data && Pasaporte !in data {
      var found := FallbackScan(row);
      if found.Some? {
        data := data[Dni := Str(found.value)];
      }
    }
    assert data == WithDoc(row);
    out := CheckAndFinish(Named(row), data, row, today, toDatetime);
  }

  /**
   * The rest of `_process_row` once a data row has its names and documents: the document
   * check, the required names, then the steps after the checks.
   */
  method CheckAndFinish(ghost named: Record, data: Record, row: Row, today: Date, toDatetime: String -> Option<Date>)
    returns (out: Outcome)
    requires Apellido in named || Nombre in named
    ensures out == Decide(named, data, Finish(data, row, today, toDatetime))
  {
    if Dni !in data && Pasaporte !in data {
      if Apellido in data && Nombre in data {
        return Failure(NoDocumentRowMsg);
      }
      return Skip;
    }
    var missing := RequiredCheck(data);
    if missing.Some? {
      return Failure(RequiredMsg(missing.value));
    }
    var finished := FinishSteps(data, row, today, toDatetime);
    if finished.Err? {
      return Failure(finished.msg);
    }
    return Accepted(finished.value);
  }
}
