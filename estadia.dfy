/**
 * `models/estadia.py`: the rules of `EstadiaSchema` and the UPDATE built by
 * `EstadiaDAO.actualizar` (`buscar_completa` is in module `Busqueda`).
 */
module Estadia {
  import opened Base
  import opened Text
  import opened Dates
  import opened Schema
  import opened Sql

  // ---------------------------------------------------------------- EstadiaSchema

  /** The arguments of `EstadiaSchema(...)`; `habitacion` may be left out to get its default. */
  datatype EstadiaInput = EstadiaInput(
    personaId: int,
    establecimiento: Option<String>,
    habitacion: Arg<String>,
    edad: Option<int>,
    fechaEntrada: Date,
    fechaSalida: Option<Date>,
    destino: Option<String>,
    vehiculoTiene: bool,
    vehiculoDatos: Option<String>,
    usuarioCarga: String)

  /** A validated stay, with the defaults applied. */
  datatype Estadia = Estadia(
    personaId: int,
    establecimiento: Option<String>,
    habitacion: Option<String>,
    edad: Option<int>,
    fechaEntrada: Date,
    fechaSalida: Option<Date>,
    destino: Option<String>,
    vehiculoTiene: bool,
    vehiculoDatos: Option<String>,
    usuarioCarga: String)

  /** The room a stay gets when none is passed. */
  const DefaultHabitacion: String := "S/N"

  const SalidaAnteriorMsg: String := "La fecha de salida no puede ser anterior a la de entrada"

  /** The room the model keeps: the default is not validated, `None` is allowed. */
  function HabitacionOf(a: Arg<String>): Option<String>
  {
    match a
    case Missing => Some(DefaultHabitacion)
    case Null => None
    case Given(s) => Some(s)
  }

  function HabitacionErrors(a: Arg<String>): (es: seq<FieldError>)
    ensures es == [] <==> !a.Given? || |a.value| <= 20
  {
    match a
    case Given(s) => LengthErrors("habitacion", s, 0, 20)
    case _ => []
  }

  /** `Field(gt=0, lt=150)` on an optional age. */
  function EdadErrors(e: Option<int>): (es: seq<FieldError>)
    ensures es == [] <==> e.None? || 0 < e.value < 150
  {
    match e
    case None => []
    case Some(n) =>
      if n <= 0 then [FieldError("edad", NotGreater(0))]
      else if n >= 150 then [FieldError("edad", NotLess(150))]
      else []
  }

  /** What the field constraints demand, each stated on its own. */
  predicate FieldsOk(inp: EstadiaInput)
  {
    (inp.establecimiento.None? || |inp.establecimiento.value| <= 150)
    && (!inp.habitacion.Given? || |inp.habitacion.value| <= 20)
    && (inp.edad.None? || 0 < inp.edad.value < 150)
    && (inp.destino.None? || |inp.destino.value| <= 200)
    && (inp.vehiculoDatos.None? || |inp.vehiculoDatos.value| <= 200)
    && |inp.usuarioCarga| >= 1
  }

  /** `validar_fechas`: an exit date, when present, must not precede the entry date. */
  predicate FechasOk(inp: EstadiaInput)
  {
    !(inp.fechaSalida.Some? && Before(inp.fechaSalida.value, inp.fechaEntrada))
  }

  function FieldErrors(inp: EstadiaInput): (es: seq<FieldError>)
    ensures es == [] <==> FieldsOk(inp)
  {
    OptLengthErrors("establecimiento", inp.establecimiento, 150)
    + HabitacionErrors(inp.habitacion)
    + EdadErrors(inp.edad)
    + OptLengthErrors("destino", inp.destino, 200)
    + OptLengthErrors("vehiculo_datos", inp.vehiculoDatos, 200)
    + MinLengthErrors("usuario_carga", inp.usuarioCarga, 1)
  }

  /**
   * `EstadiaSchema(...)`: every failing field in declaration order; when all fields pass,
   * the date check of `validar_fechas`; otherwise the stay as given, with room "S/N" when
   * none was passed.
   */
  function EstadiaSchema(inp: EstadiaInput): (r: Checked<Estadia>)
    ensures r.Accepted? <==> FieldsOk(inp) && FechasOk(inp)
    ensures !FieldsOk(inp) ==> r == Rejected(FieldErrors(inp))
    ensures FieldsOk(inp) && !FechasOk(inp) ==> r == Rejected([FieldError("", ValueError(SalidaAnteriorMsg))])
    ensures r.Accepted? && inp.habitacion.Missing? ==> r.value.habitacion == Some(DefaultHabitacion)
    ensures r.Accepted? && inp.habitacion.Null? ==> r.value.habitacion.None?
    ensures r.Accepted? && inp.habitacion.Given? ==> r.value.habitacion == Some(inp.habitacion.value)
    ensures r.Accepted? ==>
      r.value.personaId == inp.personaId && r.value.establecimiento == inp.establecimiento
      && r.value.edad == inp.edad && r.value.fechaEntrada == inp.fechaEntrada
      && r.value.fechaSalida == inp.fechaSalida && r.value.destino == inp.destino
      && r.value.vehiculoTiene == inp.vehiculoTiene && r.value.vehiculoDatos == inp.vehiculoDatos
      && r.value.usuarioCarga == inp.usuarioCarga
  {
    var errs := FieldErrors(inp);
    if errs != [] then Rejected(errs)
    else if !FechasOk(inp) then Rejected([FieldError("", ValueError(SalidaAnteriorMsg))])
    else Accepted(Estadia(inp.personaId, inp.establecimiento, HabitacionOf(inp.habitacion), inp.edad,
                          inp.fechaEntrada, inp.fechaSalida, inp.destino, inp.vehiculoTiene,
                          inp.vehiculoDatos, inp.usuarioCarga))
  }

  /**
   * For real calendar dates the date check is the order of day numbers: a stay whose
   * fields pass is accepted exactly when it has no exit date or leaves on or after the day
   * it arrives, so leaving the same day is accepted.
   */
  lemma EstadiaSchemaByDayNumber(inp: EstadiaInput)
    requires FieldsOk(inp) && ValidDate(inp.fechaEntrada)
    requires inp.fechaSalida.Some? ==> ValidDate(inp.fechaSalida.value)
    ensures EstadiaSchema(inp).Accepted? <==>
      inp.fechaSalida.None? || DayNumber(inp.fechaEntrada) <= DayNumber(inp.fechaSalida.value)
  {
    if inp.fechaSalida.Some? {
      BeforeIsDayOrder(inp.fechaSalida.value, inp.fechaEntrada);
    }
  }

  // ---------------------------------------------------------------- actualizar

  /** `campos_permitidos` of `EstadiaDAO.actualizar`, in order. */
  const EstadiaColumns: seq<String> := [
    "establecimiento", "habitacion", "edad", "fecha_entrada",
    "fecha_salida", "destino", "vehiculo_tiene", "vehiculo_datos"]

  predicate IsDateColumn(campo: String)
  {
    campo == "fecha_entrada" || campo == "fecha_salida"
  }

  /** The conversion `actualizar` applies: the vehicle flag by truthiness, dates stringified. */
  function EstadiaConv(campo: String, valor: Value): Value
  {
    if campo == "vehiculo_tiene" then VInt(if Truthy(valor) then 1 else 0)
    else if IsDateColumn(campo) && valor != VNone then VStr(StrOf(valor))
    else valor
  }

  /**
   * `EstadiaDAO.actualizar(estadia_id, datos)`: the statement's assignments and parameters,
   * or `None` where it returns `False` without touching the database.
   */
  method Actualizar(estadiaId: int, datos: map<String, Value>) returns (r: Option<Update>)
    ensures r == WhitelistUpdate(EstadiaColumns, datos, EstadiaConv, VInt(estadiaId))
  {
    r := BuildUpdate(EstadiaColumns, datos, EstadiaConv, VInt(estadiaId));
  }

  lemma EstadiaColumnsWithoutMarks()
    ensures forall c :: c in EstadiaColumns ==> '?' !in c
  {
  }

  /**
   * The statement has one placeholder per parameter and nothing is sent when no allowed
   * key is present.
   */
  lemma ActualizarSpec(estadiaId: int, datos: map<String, Value>)
    ensures var r := WhitelistUpdate(EstadiaColumns, datos, EstadiaConv, VInt(estadiaId));
      (r.None? <==> forall c :: c in EstadiaColumns ==> c !in datos)
      && (r.Some? ==> Marks(UpdateText("estadias", r.value, KeyWhere("WHERE id = ", " AND activo = 1"))) == |r.value.params|)
  {
    EstadiaColumnsWithoutMarks();
    KeyWhereMarks("WHERE id = ", " AND activo = 1");
    WhitelistUpdateMarks(EstadiaColumns, datos, EstadiaConv, VInt(estadiaId), "estadias", KeyWhere("WHERE id = ", " AND activo = 1"));
  }

  /** The vehicle flag is sent as 1 or 0 by its truthiness, and a date as text or `None`. */
  lemma ActualizarParams(estadiaId: int, datos: map<String, Value>)
    ensures var r := WhitelistUpdate(EstadiaColumns, datos, EstadiaConv, VInt(estadiaId));
      var cols := Selected(EstadiaColumns, datos);
      r.Some? ==> forall i :: 0 <= i < |cols| ==>
        (cols[i] == "vehiculo_tiene" ==> r.value.params[i] == VInt(if Truthy(datos["vehiculo_tiene"]) then 1 else 0))
        && (IsDateColumn(cols[i]) ==> r.value.params[i] == VNone || r.value.params[i].VStr?)
  {
    WhitelistUpdateAligned(EstadiaColumns, datos, EstadiaConv, VInt(estadiaId));
  }
}
