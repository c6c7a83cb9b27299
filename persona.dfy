/**
 * `models/persona.py`: the rules of `PersonaSchema` and the UPDATE built by
 * `PersonaDAO.actualizar`.
 */
module Persona {
  import opened Base
  import opened Text
  import opened CharMaps
  import opened Dates
  import opened Schema
  import opened Sql
  import opened Validators
  import opened LegacyValidators

  /** The arguments of `PersonaSchema(...)`; optional fields default to `None`. */
  datatype PersonaInput = PersonaInput(
    nacionalidad: String,
    procedencia: String,
    apellido: String,
    nombre: String,
    dni: Option<String>,
    pasaporte: Option<String>,
    fechaNacimiento: Option<Date>,
    profesion: Option<String>,
    telefono: Option<String>)

  /** `validar_formato_dni`: blank gives `None`; otherwise the cleaned DNI, which must be 7-8 digits. */
  function ValidarFormatoDni(v: Option<String>): (r: Result<Option<String>>)
    ensures r.Ok? && r.value.Some? ==> DniShape(r.value.value)
    ensures r.Ok? && r.value.None? <==> v.None? || IsBlank(v.value)
  {
    if v.None? || IsBlank(v.value) then Ok(None)
    else
      var d := LimpiarDniAsWritten(v.value);
      if !DniShape(d) then Err(DniMsg) else Ok(Some(d))
  }

  /** `validar_formato_pasaporte`: blank gives `None`; otherwise stripped, upper-cased, 5-15 letters or digits. */
  function ValidarFormatoPasaporte(v: Option<String>): (r: Result<Option<String>>)
    ensures r.Ok? && r.value.Some? ==> PasaporteShape(r.value.value)
    ensures r.Ok? && r.value.None? <==> v.None? || IsBlank(v.value)
  {
    if v.None? || IsBlank(v.value) then Ok(None)
    else
      var p := ToUpper(Strip(v.value));
      if !PasaporteShape(p) then Err(PasaporteMsg) else Ok(Some(p))
  }

  /** A field that may raise in its validator: the error, if any, and the value kept. */
  function ResultErrors<T>(field: String, r: Result<T>): (es: seq<FieldError>)
    ensures es == [] <==> r.Ok?
  {
    if r.Err? then [FieldError(field, ValueError(r.msg))] else []
  }

  /** A length constraint followed, when it passes, by the field's validator. */
  function OptDocErrors(field: String, v: Option<String>, hi: nat, validated: Result<Option<String>>): (es: seq<FieldError>)
    ensures es == [] <==> (v.None? || |v.value| <= hi) && validated.Ok?
  {
    var le := OptLengthErrors(field, v, hi);
    if le != [] then le else ResultErrors(field, validated)
  }

  /**
   * Every field error of `PersonaSchema`, in declaration order: none exactly when every
   * field constraint holds, and then both document validators have passed.
   */
  function PersonaFieldErrors(p: PersonaInput): (es: seq<FieldError>)
    ensures es == [] <==> PersonaFieldsOk(p)
    ensures es == [] ==> ValidarFormatoDni(p.dni).Ok? && ValidarFormatoPasaporte(p.pasaporte).Ok?
  {
    LengthErrors("nacionalidad", p.nacionalidad, 2, 100)
    + LengthErrors("procedencia", p.procedencia, 2, 200)
    + LengthErrors("apellido", p.apellido, 1, 100)
    + LengthErrors("nombre", p.nombre, 1, 100)
    + OptDocErrors("dni", p.dni, 8, ValidarFormatoDni(p.dni))
    + OptDocErrors("pasaporte", p.pasaporte, 15, ValidarFormatoPasaporte(p.pasaporte))
    + OptLengthErrors("profesion", p.profesion, 100)
    + OptLengthErrors("telefono", p.telefono, 30)
  }

  /** A document argument that is passed and not blank: one its validator keeps. */
  predicate DocGiven(v: Option<String>)
  {
    v.Some? && !IsBlank(v.value)
  }

  /**
   * Every field constraint of `PersonaSchema` holds: the length limits on the raw values,
   * and a given DNI or passport that its validator accepts.
   */
  predicate PersonaFieldsOk(p: PersonaInput)
  {
    2 <= |p.nacionalidad| <= 100 && 2 <= |p.procedencia| <= 200
    && 1 <= |p.apellido| <= 100 && 1 <= |p.nombre| <= 100
    && (p.dni.None? || (|p.dni.value| <= 8 && (IsBlank(p.dni.value) || DniShape(LimpiarDniAsWritten(p.dni.value)))))
    && (p.pasaporte.None? || (|p.pasaporte.value| <= 15 && (IsBlank(p.pasaporte.value) || PasaporteShape(ToUpper(Strip(p.pasaporte.value))))))
    && (p.profesion.None? || |p.profesion.value| <= 100)
    && (p.telefono.None? || |p.telefono.value| <= 30)
  }

  /**
   * `PersonaSchema(...)`: the field errors; else the model validator's complaint when
   * neither document survived its validator; else the model with the four text fields
   * sanitised and the documents normalised.
   */
  function PersonaSchema(p: PersonaInput): (r: Checked<PersonaInput>)
    ensures r.Accepted? <==> PersonaFieldsOk(p) && (DocGiven(p.dni) || DocGiven(p.pasaporte))
    ensures !PersonaFieldsOk(p) ==> r == Rejected(PersonaFieldErrors(p))
    ensures PersonaFieldsOk(p) && !DocGiven(p.dni) && !DocGiven(p.pasaporte) ==>
      r == Rejected([FieldError("", ValueError(NoDocumentMsg))])
    ensures r.Accepted? ==>
      && r.value.nacionalidad == SanitizarTextoAsWritten(p.nacionalidad)
      && r.value.procedencia == SanitizarTextoAsWritten(p.procedencia)
      && r.value.apellido == SanitizarTextoAsWritten(p.apellido)
      && r.value.nombre == SanitizarTextoAsWritten(p.nombre)
      && r.value.fechaNacimiento == p.fechaNacimiento
      && r.value.profesion == p.profesion && r.value.telefono == p.telefono
    ensures r.Accepted? ==>
      r.value.dni == (if DocGiven(p.dni) then Some(LimpiarDniAsWritten(p.dni.value)) else None)
    ensures r.Accepted? ==>
      r.value.pasaporte == (if DocGiven(p.pasaporte) then Some(ToUpper(Strip(p.pasaporte.value))) else None)
    ensures r.Accepted? ==> r.value.dni.Some? || r.value.pasaporte.Some?
    ensures r.Accepted? && r.value.dni.Some? ==> DniShape(r.value.dni.value)
    ensures r.Accepted? && r.value.pasaporte.Some? ==> PasaporteShape(r.value.pasaporte.value)
    ensures r.Accepted? ==> NoControl(r.value.apellido) && NoControl(r.value.nombre)
    ensures r.Accepted? && NoControl(p.apellido) ==> CleanText(r.value.apellido)
    ensures r.Accepted? && NoControl(p.nombre) ==> CleanText(r.value.nombre)
  {
    var errs := PersonaFieldErrors(p);
    if errs != [] then Rejected(errs)
    else
      var dni := ValidarFormatoDni(p.dni).value;
      var pas := ValidarFormatoPasaporte(p.pasaporte).value;
      if dni.None? && pas.None? then Rejected([FieldError("", ValueError(NoDocumentMsg))])
      else
        SanitizedCleanWhenNoControl(p.apellido);
        SanitizedCleanWhenNoControl(p.nombre);
        Accepted(p.(
          nacionalidad := SanitizarTextoAsWritten(p.nacionalidad),
          procedencia := SanitizarTextoAsWritten(p.procedencia),
          apellido := SanitizarTextoAsWritten(p.apellido),
          nombre := SanitizarTextoAsWritten(p.nombre),
          dni := dni,
          pasaporte := pas))
  }

  /** Text without control characters sanitizes, as written, to clean text. */
  lemma SanitizedCleanWhenNoControl(t: String)
    ensures NoControl(t) ==> CleanText(SanitizarTextoAsWritten(t))
  {
    if NoControl(t) {
      SanitizarAsWrittenOfNoControl(t);
      CollapseClean(t);
    }
  }

  /** The schema rejects a person with neither a DNI nor a passport, blank ones included. */
  lemma PersonaNeedsDocument(p: PersonaInput)
    requires p.dni.None? || IsBlank(p.dni.value)
    requires p.pasaporte.None? || IsBlank(p.pasaporte.value)
    ensures PersonaSchema(p).Rejected?
  {
  }

  /**
   * The length limit of `dni` is checked on the raw text, before `limpiar_dni`: a DNI
   * written with its thousands dots is rejected even though the cleaning would accept it.
   */
  lemma DottedDniRejected(a: String, b: String, c: String, p: PersonaInput)
    requires AllDigits(a) && AllDigits(b) && AllDigits(c) && 1 <= |a| <= 2 && |b| == 3 && |c| == 3
    requires p.dni == Some(a + "." + b + "." + c)
    ensures ValidarDniLegacy(a + "." + b + "." + c).ok
    ensures PersonaSchema(p).Rejected?
  {
    ValidarDniLegacyAcceptsDotted(a, b, c);
    assert |p.dni.value| >= 9;
  }

  /** A plain 7-8 digit DNI with no passport is accepted and kept as typed. */
  lemma PlainDniAccepted(d: String, p: PersonaInput)
    requires DniShape(d) && p.dni == Some(d) && p.pasaporte.None?
    requires 2 <= |p.nacionalidad| <= 100 && 2 <= |p.procedencia| <= 200
    requires 1 <= |p.apellido| <= 100 && 1 <= |p.nombre| <= 100
    requires p.profesion.None? && p.telefono.None?
    ensures PersonaSchema(p).Accepted? && PersonaSchema(p).value.dni == Some(d)
  {
    LimpiarDniOfDigits(d);
  }

  /** `limpiar_dni` leaves a 7-8 digit DNI as it is. */
  lemma LimpiarDniOfDigits(d: String)
    requires DniShape(d)
    ensures LimpiarDniAsWritten(d) == d && !IsBlank(d)
  {
    assert IsDigit(d[0]) && IsDigit(d[|d| - 1]);
    RemoveSeparatorsOfDigits(d);
    StripOfTrimmed(d);
    LimpiarDniAsWrittenOfTrimmed(d);
    assert !IsSpace(d[0]);
  }

  // ---------------------------------------------------------------- actualizar

  /** `campos_permitidos` of `PersonaDAO.actualizar`, in order. */
  const PersonaColumns: seq<String> := [
    "nacionalidad", "procedencia", "apellido", "nombre", "dni", "pasaporte",
    "fecha_nacimiento", "profesion", "telefono"]

  /** The conversion `actualizar` applies: a birth date that is not `None` is stringified. */
  function PersonaConv(campo: String, valor: Value): Value
  {
    if campo == "fecha_nacimiento" && valor != VNone then VStr(StrOf(valor)) else valor
  }

  /**
   * `PersonaDAO.actualizar(persona_id, datos)`: the statement's assignments and parameters,
   * or `None` where it returns `False` without touching the database.
   */
  method Actualizar(personaId: int, datos: map<String, Value>) returns (r: Option<Update>)
    ensures r == WhitelistUpdate(PersonaColumns, datos, PersonaConv, VInt(personaId))
  {
    r := BuildUpdate(PersonaColumns, datos, PersonaConv, VInt(personaId));
  }

  lemma PersonaColumnsWithoutMarks()
    ensures forall c :: c in PersonaColumns ==> '?' !in c
  {
  }

  /**
   * The statement has one placeholder per parameter, only whitelisted keys present in
   * `datos` are set, in whitelist order, and nothing is sent when none is present.
   */
  lemma ActualizarSpec(personaId: int, datos: map<String, Value>)
    ensures var r := WhitelistUpdate(PersonaColumns, datos, PersonaConv, VInt(personaId));
      (r.None? <==> forall c :: c in PersonaColumns ==> c !in datos)
      && (r.Some? ==> Marks(UpdateText("personas", r.value, KeyWhere("WHERE id = ", " AND activo = 1"))) == |r.value.params|)
  {
    PersonaColumnsWithoutMarks();
    KeyWhereMarks("WHERE id = ", " AND activo = 1");
    WhitelistUpdateMarks(PersonaColumns, datos, PersonaConv, VInt(personaId), "personas", KeyWhere("WHERE id = ", " AND activo = 1"));
  }
}
