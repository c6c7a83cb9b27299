/**
 * Sample configuration for the importer: the counter-column stoplist and the alias table of
 * `_rebuild_phase1.py`, in dictionary order. The shipped `config/settings.py` has no stoplist,
 * so the column mapping takes both as parameters and this is the data they are given.
 */
module ImportConfig {
  import opened Text
  import opened HeaderMapping
  import opened HeaderNormalize

  /** `MAX_IMPORT_ROWS`. */
  const MaxImportRows := 10000

  /** `COLUMNAS_IGNORAR`: counter and numbering columns. */
  const ColumnasIgnorar: seq<String> := [
    "n°", "nro", "nº", "n", "#", "numero", "número", "item", "orden", "nro.", "n°."
  ]

  /** `COLUMNAS_MAPEO`: each system field with its aliases. */
  const ColumnasMapeo: Config := [
    ("nacionalidad", [
      "nacionalidad", "pais", "país", "country", "nation", "nacion", "nación"
    ]),
    ("procedencia", [
      "procedencia", "origen", "ciudad_origen", "from", "domicilio", "direccion", "dirección",
      "ciudad"
    ]),
    ("apellido_nombre", [
      "apellido_y_nombre", "apellido/nombre", "apellido_nombre", "apellido_y_nombres",
      "apellidos_y_nombre", "apellidos_y_nombres", "nombre_y_apellido", "nombre_apellido",
      "nombres_y_apellido"
    ]),
    ("apellido", [
      "apellido", "apellidos", "last_name", "surname"
    ]),
    ("nombre", [
      "nombre", "nombres", "first_name", "name"
    ]),
    ("dni", [
      "dni", "documento", "nro_documento", "document", "d.n.i", "d.n.i.", "n°_doc", "nro_doc",
      "n_doc", "n°_documento", "nº_doc", "nº_documento", "numero_documento", "número_documento",
      "numero_doc", "n°doc", "n°_de_doc", "nro._doc", "nro._documento", "dni/pasaporte",
      "dni_/_pasaporte", "dni_o_pasaporte", "d.n.i._/_pas.", "d.n.i._/_pas", "dni_/_pas.",
      "dni_/_pas", "dni/pas", "d.n.i./pas.", "d.n.i./pas", "d.n.i./pasaporte", "dni/pas.",
      "d.n.i_/_pas", "dni_pas"
    ]),
    ("pasaporte", [
      "pasaporte", "passport", "nro_pasaporte", "n°_pasaporte", "nº_pasaporte"
    ]),
    ("edad", [
      "edad", "age", "años", "edades"
    ]),
    ("fecha_nacimiento", [
      "fecha_nacimiento", "fecha_de_nacimiento", "nacimiento", "fecha_de_nac.", "fecha_de_nac",
      "fecha_nac", "fecha_nac.", "f._nac.", "f._nac", "fec._nac.", "fec._nac", "fec._nacimiento",
      "f.nac", "f.nac.", "fec.nac", "fec.nac.", "birth_date", "date_of_birth", "fch_nac",
      "fch._nac", "fch._nac."
    ]),
    ("profesion", [
      "profesion", "profesión", "ocupacion", "ocupación", "profession", "occupation", "prof",
      "prof."
    ]),
    ("establecimiento", [
      "hotel", "establecimiento", "alojamiento", "hostal", "pension", "pensión", "hospedaje",
      "hosteria", "hostería", "apart", "apart_hotel", "motel", "residencial", "posada"
    ]),
    ("habitacion", [
      "habitacion", "habitación", "room", "nro_habitacion", "nro_habitación", "cuarto", "n°_hab",
      "n°_hab.", "nº_hab", "nro._hab", "n°_habitacion", "n°_habitación"
    ]),
    ("destino", [
      "destino", "destination", "hacia", "a_donde", "destino_a"
    ]),
    ("vehiculo", [
      "vehiculo", "vehículo", "vehicle", "auto", "coche", "vehic", "vehic.", "patente", "dominio",
      "datos_vehiculo", "datos_vehículo"
    ]),
    ("telefono", [
      "telefono", "teléfono", "phone", "celular", "mobile", "nro_telefono", "nro_teléfono",
      "n°_tel", "n°_tel.", "nº_tel", "contacto"
    ]),
    ("fecha_entrada", [
      "fecha_entrada", "ingreso", "check_in", "entrada", "checkin", "fecha_ingreso", "f._entrada",
      "f._ingreso", "fecha_de_entrada", "fecha_de_ingreso", "fec._entrada", "fec._ingreso",
      "f.entrada", "f.ingreso", "fec.entrada", "fec.ingreso"
    ]),
    ("fecha_salida", [
      "fecha_salida", "egreso", "check_out", "salida", "checkout", "fecha_egreso", "f._salida",
      "f._egreso", "fecha_de_salida", "fecha_de_egreso", "fec._salida", "fec._egreso", "f.salida",
      "f.egreso", "fec.salida", "fec.egreso"
    ])
  ]

  /** The system fields of `COLUMNAS_MAPEO`, in order. */
  const MapeoFields: seq<String> := [
    "nacionalidad", "procedencia", "apellido_nombre", "apellido", "nombre", "dni", "pasaporte",
    "edad", "fecha_nacimiento", "profesion", "establecimiento", "habitacion", "destino",
    "vehiculo", "telefono", "fecha_entrada", "fecha_salida"
  ]

  /** The alias table names each system field once, as the keys of a dictionary must. */
  lemma ColumnasMapeoDistinct()
    ensures FieldsDistinct(ColumnasMapeo)
  {
    MapeoFieldsOf();
    MapeoFieldsDistinct();
  }

  /** No system field is listed twice. */
  lemma MapeoFieldsDistinct()
    ensures forall i, j :: 0 <= i < j < |MapeoFields| ==> MapeoFields[i] != MapeoFields[j]
  {
  }

  /** The fields of the alias table are `MapeoFields`. */
  lemma MapeoFieldsOf()
    ensures |ColumnasMapeo| == |MapeoFields|
    ensures forall i :: 0 <= i < |MapeoFields| ==> ColumnasMapeo[i].0 == MapeoFields[i]
  {
  }

  /**
   * With this configuration, the importer's column mapping is one-to-one and binds only file
   * columns off the stoplist, each to a field whose aliases it matches.
   */
  lemma ConfiguredMappingSound(fileColumns: seq<String>)
    ensures var m := AutoMap(fileColumns, ColumnasIgnorar, ColumnasMapeo);
      Injective(m)
      && forall c :: c in m ==>
        c in fileColumns && !Ignored(c, NormalizeAll(ColumnasIgnorar)) && MatchesField(c, m[c], ColumnasMapeo)
  {
    ColumnasMapeoDistinct();
    AutoMapSound(fileColumns, ColumnasIgnorar, ColumnasMapeo);
  }

  /** No stoplist entry normalises to `hoja`, so a column of that name is not ignored. */
  lemma HojaNotIgnored()
    ensures !Ignored("hoja", NormalizeAll(ColumnasIgnorar))
  {
    HojaNormal();
    StoplistWithoutJ();
    forall i | 0 <= i < |ColumnasIgnorar|
      ensures 'j' !in Normalize(ColumnasIgnorar[i])
    {
      NormalizeAddsNoJ(ColumnasIgnorar[i]);
    }
  }

  lemma HojaNormal()
    ensures Normalize("hoja") == "hoja"
  {
    assert Settled("hoja") by {
      forall c | c in "hoja"
        ensures c < '\U{80}' && !IsSpace(c) && !('A' <= c <= 'Z')
      {
      }
    }
    NormalizeOfSettled("hoja");
  }

  lemma StoplistWithoutJ()
    ensures forall i :: 0 <= i < |ColumnasIgnorar| ==> 'j' !in ColumnasIgnorar[i] && 'J' !in ColumnasIgnorar[i]
  {
  }
}
