/**
 * Column detection of the earlier importer embedded in `_rebuild_phase2.py`: `_map_column`
 * resolves one header to a system field, `detectar_mapeo` maps the columns of the sheet in
 * order, and `obtener_columnas_faltantes` lists the required groups of fields left unmapped.
 * A Python dictionary is modelled by its items in insertion order.
 */
module LegacyMapping {
  import opened Base
  import opened Text
  import opened HeaderMapping
  import opened ExcelRow
  import opened LegacyNormalize

  // ---------------------------------------------------------------- _map_column

  /** One alias against the normalised header: equal, or for the partial pass either inside the other. */
  predicate AliasHit(alias: String, normalized: String, exact: bool)
  {
    if exact then Slug(alias) == normalized
    else Contains(normalized, Slug(alias)) || Contains(Slug(alias), normalized)
  }

  /** Some alias of a field hits the header. */
  predicate FieldHit(aliases: seq<String>, normalized: String, exact: bool)
  {
    exists k :: 0 <= k < |aliases| && AliasHit(aliases[k], normalized, exact)
  }

  /** The position of the first field, in dictionary order, with an alias that hits; `|config|` when none does. */
  function FirstHit(config: Config, normalized: String, exact: bool): (i: nat)
    ensures i <= |config|
  {
    if config == [] then 0
    else if FieldHit(config[0].1, normalized, exact) then 0
    else 1 + FirstHit(config[1..], normalized, exact)
  }

  /** No field before the one found has a hit, and the one found has. */
  lemma {:induction false} FirstHitSpec(config: Config, normalized: String, exact: bool)
    ensures forall j :: 0 <= j < FirstHit(config, normalized, exact) ==> !FieldHit(config[j].1, normalized, exact)
    ensures FirstHit(config, normalized, exact) < |config| ==> FieldHit(config[FirstHit(config, normalized, exact)].1, normalized, exact)
  {
    if config != [] && !FieldHit(config[0].1, normalized, exact) {
      FirstHitSpec(config[1..], normalized, exact);
      assert forall j :: 0 < j < |config| ==> config[j] == config[1..][j - 1];
    }
  }

  /**
   * `_map_column` on the normalised header: nothing for an ignorable header; else the first
   * field with an alias equal to the header, over all fields; else the first field with an
   * alias inside the header or containing it; else nothing.
   */
  function Resolve(normalized: String, ignorar: seq<String>, config: Config): Option<String>
  {
    if normalized == [] || IsIgnorable(normalized, ignorar) then None
    else
      var e := FirstHit(config, normalized, true);
      if e < |config| then Some(config[e].0)
      else
        var p := FirstHit(config, normalized, false);
        if p < |config| then Some(config[p].0) else None
  }

  /** `_map_column(col_name)`. */
  function MapColumn(colName: String, ignorar: seq<String>, config: Config): Option<String>
  {
    Resolve(Slug(colName), ignorar, config)
  }

  /** A counter column, an unnamed column or a number as header resolves to nothing. */
  lemma MapColumnIgnored(colName: String, ignorar: seq<String>, config: Config)
    requires (exists i :: 0 <= i < |ignorar| && Slug(ignorar[i]) == Slug(colName))
      || Slug(colName) == [] || AllDigits(Slug(colName))
    ensures MapColumn(colName, ignorar, config) == None
  {
    IsIgnorableSpec(Slug(colName), ignorar);
  }

  /**
   * An exact alias wins over every partial one: the header resolves to the first field, in
   * dictionary order, with an alias equal to it, whatever the fields before it match partially.
   */
  lemma MapColumnExactFirst(colName: String, ignorar: seq<String>, config: Config, i: nat)
    requires !IsIgnorable(Slug(colName), ignorar)
    requires i < |config| && FieldHit(config[i].1, Slug(colName), true)
    requires forall j :: 0 <= j < i ==> !FieldHit(config[j].1, Slug(colName), true)
    ensures MapColumn(colName, ignorar, config) == Some(config[i].0)
  {
    FirstHitSpec(config, Slug(colName), true);
  }

  /** With no exact alias anywhere, the first field with a partial hit is taken. */
  lemma MapColumnPartialFirst(colName: String, ignorar: seq<String>, config: Config, i: nat)
    requires !IsIgnorable(Slug(colName), ignorar)
    requires forall j :: 0 <= j < |config| ==> !FieldHit(config[j].1, Slug(colName), true)
    requires i < |config| && FieldHit(config[i].1, Slug(colName), false)
    requires forall j :: 0 <= j < i ==> !FieldHit(config[j].1, Slug(colName), false)
    ensures MapColumn(colName, ignorar, config) == Some(config[i].0)
  {
    ResolvePartialFirst(Slug(colName), ignorar, config, i);
  }

  lemma ResolvePartialFirst(normalized: String, ignorar: seq<String>, config: Config, i: nat)
    requires !IsIgnorable(normalized, ignorar)
    requires forall j :: 0 <= j < |config| ==> !FieldHit(config[j].1, normalized, true)
    requires i < |config| && FieldHit(config[i].1, normalized, false)
    requires forall j :: 0 <= j < i ==> !FieldHit(config[j].1, normalized, false)
    ensures Resolve(normalized, ignorar, config) == Some(config[i].0)
  {
    FirstHitSpec(config, normalized, true);
    FirstHitSpec(config, normalized, false);
  }

  /** A header no alias hits, exactly or partially, resolves to nothing. */
  lemma MapColumnUnmapped(colName: String, ignorar: seq<String>, config: Config)
    requires forall j :: 0 <= j < |config| ==> !FieldHit(config[j].1, Slug(colName), true) && !FieldHit(config[j].1, Slug(colName), false)
    ensures MapColumn(colName, ignorar, config) == None
  {
    FirstHitSpec(config, Slug(colName), true);
    FirstHitSpec(config, Slug(colName), false);
  }

  /**
   * The partial pass has no length limit: an alias that normalises to the empty text lies
   * inside every header, and a short alias inside the header hits where the current
   * importer would require five characters.
   */
  lemma EmptyAliasHitsEveryHeader(alias: String, normalized: String)
    requires Slug(alias) == []
    ensures AliasHit(alias, normalized, false)
  {
    assert OccursAt(normalized, [], 0);
  }

  lemma ShortAliasHits(alias: String, normalized: String)
    requires |Slug(alias)| < 5 && Contains(normalized, Slug(alias))
    ensures AliasHit(alias, normalized, false) && !PartialAlias(normalized, Slug(alias))
  {
  }

  // ---------------------------------------------------------------- dictionaries

  /** Dictionary items in insertion order. */
  type Items = seq<(String, String)>

  /** `d[k] = v`: an existing key keeps its place and takes the value, a new key goes last. */
  function Put(items: Items, k: String, v: String): Items
  {
    if items == [] then [(k, v)]
    else if items[0].0 == k then [(k, v)] + items[1..]
    else [items[0]] + Put(items[1..], k, v)
  }

  function Keys(items: Items): set<String>
  {
    set e | e in items :: e.0
  }

  /** `set(d.values())`. */
  function Values(items: Items): set<String>
  {
    set e | e in items :: e.1
  }

  /** `d.get(k)`. */
  function Get(items: Items, k: String): Option<String>
  {
    if items == [] then None
    else if items[0].0 == k then Some(items[0].1)
    else Get(items[1..], k)
  }

  /** Assigning a key not present yet appends it. */
  lemma {:induction false} PutNew(items: Items, k: String, v: String)
    requires k !in Keys(items)
    ensures Put(items, k, v) == items + [(k, v)]
  {
    if items != [] {
      assert items[0] in items;
      assert Keys(items[1..]) <= Keys(items) by {
        forall e | e in items[1..] ensures e in items { }
      }
      PutNew(items[1..], k, v);
      assert items == [items[0]] + items[1..];
    }
  }

  /** After a new key goes last, looking it up gives its value. */
  lemma {:induction false} GetAppended(items: Items, k: String, v: String)
    requires k !in Keys(items)
    ensures Get(items + [(k, v)], k) == Some(v)
  {
    if items != [] {
      assert items[0] in items;
      assert Keys(items[1..]) <= Keys(items) by {
        forall e | e in items[1..] ensures e in items { }
      }
      GetAppended(items[1..], k, v);
      assert (items + [(k, v)])[1..] == items[1..] + [(k, v)];
    }
  }

  /** Appending another key leaves a lookup unchanged. */
  lemma {:induction false} GetAppendedOther(items: Items, k: String, v: String, q: String)
    requires q != k
    ensures Get(items + [(k, v)], q) == Get(items, q)
  {
    if items != [] {
      GetAppendedOther(items[1..], k, v, q);
      assert (items + [(k, v)])[1..] == items[1..] + [(k, v)];
    }
  }

  /** A key that is found is the key of some item. */
  lemma {:induction false} GetFound(items: Items, k: String) returns (i: nat)
    requires Get(items, k).Some?
    ensures i < |items| && items[i].0 == k && items[i].1 == Get(items, k).value
  {
    if items[0].0 != k {
      var j := GetFound(items[1..], k);
      assert items[j + 1] == items[1..][j];
      i := j + 1;
    } else {
      i := 0;
    }
  }

  // ---------------------------------------------------------------- detectar_mapeo

  /** Each column as `(col_str, _map_column(col_str))`, in column order. */
  function Resolved(cols: seq<String>, ignorar: seq<String>, config: Config): (res: seq<(String, Option<String>)>)
    ensures |res| == |cols|
  {
    seq(|cols|, k requires 0 <= k < |cols| => (Strip(cols[k]), MapColumn(Strip(cols[k]), ignorar, config)))
  }

  /** `mapeo` and `campos_usados` after a prefix of the columns. */
  datatype Detection = Detection(mapeo: Items, usados: set<String>)

  /** Whether a resolved column is taken: it resolves to a non-empty field not used yet. */
  predicate Takes(d: Detection, campo: Option<String>)
  {
    campo.Some? && campo.value != [] && campo.value !in d.usados
  }

  /** The loop of `detectar_mapeo` over resolved columns. */
  function DetectOf(res: seq<(String, Option<String>)>): Detection
  {
    if res == [] then Detection([], {})
    else StepDetect(DetectOf(res[..|res| - 1]), res[|res| - 1])
  }

  /** One column of the loop: a column taking a new field is mapped to it and the field is used. */
  function StepDetect(d: Detection, rc: (String, Option<String>)): Detection
  {
    if Takes(d, rc.1) then Detection(Put(d.mapeo, rc.0, rc.1.value), d.usados + {rc.1.value}) else d
  }

  /** One more column is one more step. */
  lemma DetectOfSnoc(res: seq<(String, Option<String>)>, i: nat)
    requires i < |res|
    ensures DetectOf(res[..i + 1]) == StepDetect(DetectOf(res[..i]), res[i])
  {
    assert res[..i + 1][..i] == res[..i];
  }

  /** The same header always resolves to the same field. */
  predicate Functional(res: seq<(String, Option<String>)>)
  {
    forall k, l :: 0 <= k < |res| && 0 <= l < |res| && res[k].0 == res[l].0 ==> res[k].1 == res[l].1
  }

  /**
   * What the loop keeps: every item is a resolved column with its field, the used fields are
   * the values, and no key or value occurs twice.
   */
  predicate DetectInv(d: Detection, res: seq<(String, Option<String>)>)
  {
    d.usados == Values(d.mapeo)
    && (forall i :: 0 <= i < |d.mapeo| ==> (d.mapeo[i].0, Some(d.mapeo[i].1)) in res && d.mapeo[i].1 != [])
    && (forall i, j :: 0 <= i < j < |d.mapeo| ==> d.mapeo[i].0 != d.mapeo[j].0 && d.mapeo[i].1 != d.mapeo[j].1)
  }

  /** A column whose field is not used yet brings a header not mapped yet: assignment appends. */
  lemma TakenKeyIsNew(d: Detection, res: seq<(String, Option<String>)>, k: nat)
    requires k < |res| && Functional(res) && DetectInv(d, res[..k])
    requires Takes(d, res[k].1)
    ensures res[k].0 !in Keys(d.mapeo)
  {
    forall e | e in d.mapeo
      ensures e.0 != res[k].0
    {
      var i :| 0 <= i < |d.mapeo| && d.mapeo[i] == e;
      var l :| 0 <= l < k && res[..k][l] == (e.0, Some(e.1));
      assert res[l] == res[..k][l];
      assert e.1 in Values(d.mapeo);
    }
  }

  /** One column keeps the invariant. */
  lemma StepKeepsDetectInv(res: seq<(String, Option<String>)>, k: nat)
    requires Functional(res) && k < |res| && DetectInv(DetectOf(res[..k]), res[..k])
    ensures DetectInv(DetectOf(res[..k + 1]), res[..k + 1])
  {
    var d := DetectOf(res[..k]);
    assert res[..k + 1][..k] == res[..k];
    var (colStr, campo) := res[k];
    forall i | 0 <= i < |d.mapeo|
      ensures (d.mapeo[i].0, Some(d.mapeo[i].1)) in res[..k + 1]
    {
      assert (d.mapeo[i].0, Some(d.mapeo[i].1)) in res[..k];
    }
    if Takes(d, campo) {
      TakenKeyIsNew(d, res, k);
      PutNew(d.mapeo, colStr, campo.value);
      var m := d.mapeo + [(colStr, campo.value)];
      assert Values(m) == Values(d.mapeo) + {campo.value} by {
        assert forall e :: e in m <==> e in d.mapeo || e == (colStr, campo.value);
      }
      assert res[..k + 1][k] == (colStr, campo);
      forall i, j | 0 <= i < j < |m|
        ensures m[i].0 != m[j].0 && m[i].1 != m[j].1
      {
        if j == |d.mapeo| {
          assert m[i] == d.mapeo[i] && m[i] in d.mapeo;
          assert m[i].0 in Keys(d.mapeo) && m[i].1 in Values(d.mapeo);
        }
      }
    }
  }

  lemma {:induction false} DetectOfInv(res: seq<(String, Option<String>)>, k: nat)
    requires Functional(res) && k <= |res|
    ensures DetectInv(DetectOf(res[..k]), res[..k])
  {
    if k > 0 {
      DetectOfInv(res, k - 1);
      StepKeepsDetectInv(res, k - 1);
    }
  }

  /** Resolution is a function of the stripped header. */
  lemma ResolvedFunctional(cols: seq<String>, ignorar: seq<String>, config: Config)
    ensures Functional(Resolved(cols, ignorar, config))
  {
  }

  /** `detectar_mapeo(df)`. */
  function Detect(cols: seq<String>, ignorar: seq<String>, config: Config): Items
  {
    DetectOf(Resolved(cols, ignorar, config)).mapeo
  }

  /**
   * The mapping is a one-to-one table from stripped headers to the fields they resolve to:
   * no header and no field occurs twice.
   */
  lemma DetectSound(cols: seq<String>, ignorar: seq<String>, config: Config)
    ensures var m := Detect(cols, ignorar, config);
      (forall i :: 0 <= i < |m| ==> MapColumn(m[i].0, ignorar, config) == Some(m[i].1) && m[i].1 != [])
      && (forall i, j :: 0 <= i < j < |m| ==> m[i].0 != m[j].0 && m[i].1 != m[j].1)
  {
    var res := Resolved(cols, ignorar, config);
    ResolvedFunctional(cols, ignorar, config);
    DetectOfInv(res, |res|);
    assert res[..|res|] == res;
  }

  /** A field none of the first `k` columns resolves to is not used after them. */
  lemma FieldUnused(res: seq<(String, Option<String>)>, k: nat, f: String)
    requires Functional(res) && k <= |res|
    requires forall l :: 0 <= l < k ==> res[l].1 != Some(f)
    ensures f !in DetectOf(res[..k]).usados
  {
    var d := DetectOf(res[..k]);
    DetectOfInv(res, k);
    forall e | e in d.mapeo
      ensures e.1 != f
    {
      var i :| 0 <= i < |d.mapeo| && d.mapeo[i] == e;
      var l :| 0 <= l < k && res[..k][l] == (e.0, Some(e.1));
      assert res[l] == res[..k][l];
    }
  }

  /**
   * The first column resolving to a field keeps it: its header is mapped to the field, and no
   * other header is. (Over resolved columns.)
   */
  lemma {:induction false} FirstWinsResolved(res: seq<(String, Option<String>)>, k: nat, j: nat, f: String)
    requires Functional(res) && j < k <= |res| && f != [] && res[j].1 == Some(f)
    requires forall l :: 0 <= l < j ==> res[l].1 != Some(f)
    ensures Get(DetectOf(res[..k]).mapeo, res[j].0) == Some(f)
    ensures var m := DetectOf(res[..k]).mapeo;
      forall i :: 0 <= i < |m| && m[i].1 == f ==> m[i].0 == res[j].0
  {
    var n := k - 1;
    var d := DetectOf(res[..n]);
    assert res[..k][..n] == res[..n];
    assert res[..k][n] == res[n];
    DetectOfInv(res, n);
    if j == n {
      FieldUnused(res, n, f);
      TakenKeyIsNew(d, res, n);
      PutNew(d.mapeo, res[n].0, f);
      GetAppended(d.mapeo, res[n].0, f);
      forall i | 0 <= i < |d.mapeo|
        ensures d.mapeo[i].1 != f
      {
        assert d.mapeo[i] in d.mapeo;
      }
    } else {
      FirstWinsResolved(res, n, j, f);
      var i := GetFound(d.mapeo, res[j].0);
      assert d.mapeo[i] in d.mapeo;
      assert f in d.usados;
      var campo := res[n].1;
      if Takes(d, campo) {
        TakenKeyIsNew(d, res, n);
        PutNew(d.mapeo, res[n].0, campo.value);
        if res[n].0 == res[j].0 {
          assert false;
        }
        GetAppendedOther(d.mapeo, res[n].0, campo.value, res[j].0);
      }
    }
  }

  /**
   * The first column (in column order) resolving to a field keeps it: its stripped header is
   * mapped to the field, and any later column resolving to the same field is dropped.
   */
  lemma DetectFirstWins(cols: seq<String>, ignorar: seq<String>, config: Config, j: nat, f: String)
    requires j < |cols| && f != [] && MapColumn(Strip(cols[j]), ignorar, config) == Some(f)
    requires forall k :: 0 <= k < j ==> MapColumn(Strip(cols[k]), ignorar, config) != Some(f)
    ensures Get(Detect(cols, ignorar, config), Strip(cols[j])) == Some(f)
    ensures var m := Detect(cols, ignorar, config);
      forall i :: 0 <= i < |m| && m[i].1 == f ==> m[i].0 == Strip(cols[j])
  {
    var res := Resolved(cols, ignorar, config);
    ResolvedFunctional(cols, ignorar, config);
    FirstWinsResolved(res, |res|, j, f);
    assert res[..|res|] == res;
  }

  /** `detectar_mapeo(df)`: the loop over the columns, building the mapping in place. */
  method DetectarMapeo(cols: seq<String>, ignorar: seq<String>, config: Config) returns (mapeo: Items)
    ensures mapeo == Detect(cols, ignorar, config)
  {
    ghost var res := Resolved(cols, ignorar, config);
    mapeo := [];
    var camposUsados: set<String> := {};
    var i := 0;
    while i < |cols|
      invariant 0 <= i <= |cols|
      invariant Detection(mapeo, camposUsados) == DetectOf(res[..i])
    {
      DetectOfSnoc(res, i);
      var colStr := Strip(cols[i]);
      var campo := MapColumn(colStr, ignorar, config);
      assert res[i] == (colStr, campo);
      if campo.Some? && campo.value != [] && campo.value !in camposUsados {
        mapeo := Put(mapeo, colStr, campo.value);
        camposUsados := camposUsados + {campo.value};
      }
      i := i + 1;
    }
    assert res[..i] == res;
  }

  // ---------------------------------------------------------------- obtener_columnas_faltantes

  const NombreFaltante := "apellido_nombre (o apellido + nombre separados)"
  const DocumentoFaltante := "dni o pasaporte"
  const EntradaFaltante := "fecha_entrada (entrada)"

  /** The name group: the combined column, or both separate columns. */
  predicate HasNames(campos: set<String>)
  {
    Key(ApellidoNombre) in campos || (Key(Apellido) in campos && Key(Nombre) in campos)
  }

  predicate HasDocument(campos: set<String>)
  {
    Key(Dni) in campos || Key(Pasaporte) in campos
  }

  predicate HasEntrada(campos: set<String>)
  {
    Key(FechaEntrada) in campos
  }

  /** `obtener_columnas_faltantes(mapeo)`: one message per required group missing, in order. */
  function Faltantes(mapeo: Items): seq<String>
  {
    var campos := Values(mapeo);
    (if !HasNames(campos) then [NombreFaltante] else [])
    + (if !HasDocument(campos) then [DocumentoFaltante] else [])
    + (if !HasEntrada(campos) then [EntradaFaltante] else [])
  }

  /** The place of each message in the fixed order of the groups. */
  function GroupRank(msg: String): nat
  {
    if msg == NombreFaltante then 0 else if msg == DocumentoFaltante then 1 else 2
  }

  /**
   * Nothing is missing exactly when the names, a document and the entry date are all mapped;
   * each message is there exactly when its group is missing, and the messages come in the
   * order of the groups.
   */
  lemma FaltantesSpec(mapeo: Items)
    ensures var campos := Values(mapeo);
      Faltantes(mapeo) == [] <==> HasNames(campos) && HasDocument(campos) && HasEntrada(campos)
    ensures NombreFaltante in Faltantes(mapeo) <==> !HasNames(Values(mapeo))
    ensures DocumentoFaltante in Faltantes(mapeo) <==> !HasDocument(Values(mapeo))
    ensures EntradaFaltante in Faltantes(mapeo) <==> !HasEntrada(Values(mapeo))
    ensures forall i, j :: 0 <= i < j < |Faltantes(mapeo)| ==> GroupRank(Faltantes(mapeo)[i]) < GroupRank(Faltantes(mapeo)[j])
  {
    assert |NombreFaltante| != |DocumentoFaltante| && |NombreFaltante| != |EntradaFaltante|;
    assert |DocumentoFaltante| != |EntradaFaltante|;
  }
}
