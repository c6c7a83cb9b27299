/**
 * `ExcelParser._auto_map_columns` (`utils/excel_parser.py`): free-text headers are normalised,
 * counter columns on the stoplist are dropped, and each system field, in configuration
 * order, takes the first remaining column that matches one of its aliases exactly or, for
 * aliases of at least five characters, as a substring either way.
 */
module HeaderMapping {
  import opened Base
  import opened Text
  import opened CharMaps
  import opened HeaderNormalize

  /** `COLUMNAS_MAPEO`: system fields in dictionary order, each with its aliases. */
  type Config = seq<(String, seq<String>)>

  // ---------------------------------------------------------------- stoplist and matching

  /** `col_norm in ignorar_norm`: a counter column on the stoplist. */
  predicate Ignored(col: String, ignorarNorm: seq<String>)
  {
    Normalize(col) in ignorarNorm
  }

  /** `cols_validas`: the columns, in order, that are not on the stoplist. */
  function ValidColumns(cols: seq<String>, ignorarNorm: seq<String>): seq<String>
  {
    if cols == [] then []
    else
      var last := cols[|cols| - 1];
      ValidColumns(cols[..|cols| - 1], ignorarNorm) + (if Ignored(last, ignorarNorm) then [] else [last])
  }

  /** A column survives the stoplist pass exactly when it is a file column not on the stoplist. */
  lemma {:induction false} ValidColumnsMembers(cols: seq<String>, ignorarNorm: seq<String>)
    ensures forall c :: c in ValidColumns(cols, ignorarNorm) <==> c in cols && !Ignored(c, ignorarNorm)
  {
    if cols != [] {
      var last := cols[|cols| - 1];
      var front := cols[..|cols| - 1];
      assert cols == front + [last];
      ValidColumnsMembers(front, ignorarNorm);
    }
  }

  /** One more column for the stoplist pass. */
  lemma ValidColumnsSnoc(cols: seq<String>, k: int, colNorm: String, ignorarNorm: seq<String>)
    requires 0 <= k < |cols| && colNorm == Normalize(cols[k])
    ensures ValidColumns(cols[..k + 1], ignorarNorm)
      == ValidColumns(cols[..k], ignorarNorm) + (if colNorm in ignorarNorm then [] else [cols[k]])
  {
    assert cols[..k + 1][..k] == cols[..k];
  }

  /** `col_clean in aliases or col_normalized in normalized_aliases`. */
  predicate ExactMatch(col: String, aliases: seq<String>)
  {
    CleanHeader(col) in aliases || Normalize(col) in NormalizeAll(aliases)
  }

  /** A normalised alias of at least five characters inside the header, or the header inside it. */
  predicate PartialAlias(colNorm: String, aliasNorm: String)
  {
    |aliasNorm| >= 5 && (Contains(colNorm, aliasNorm) || Contains(aliasNorm, colNorm))
  }

  /** Some normalised alias matches the normalised header partially. */
  predicate PartialMatch(colNorm: String, aliasesNorm: seq<String>)
  {
    exists k :: 0 <= k < |aliasesNorm| && PartialAlias(colNorm, aliasesNorm[k])
  }

  predicate Matches(col: String, aliases: seq<String>)
  {
    ExactMatch(col, aliases) || PartialMatch(Normalize(col), NormalizeAll(aliases))
  }

  /** The first column, in order, not mapped yet that matches the aliases. */
  function FirstMatch(cols: seq<String>, mapping: map<String, String>, aliases: seq<String>): (r: Option<String>)
    ensures r.Some? ==> r.value in cols && r.value !in mapping
  {
    if cols == [] then None
    else if cols[0] !in mapping && Matches(cols[0], aliases) then Some(cols[0])
    else FirstMatch(cols[1..], mapping, aliases)
  }

  /**
   * The column found is an unmapped matching column and no unmapped column before it
   * matches; when none is found, no unmapped column matches at all.
   */
  lemma FirstMatchIsFirst(cols: seq<String>, mapping: map<String, String>, aliases: seq<String>)
    ensures FirstMatch(cols, mapping, aliases).Some? ==>
      exists j :: 0 <= j < |cols| && cols[j] == FirstMatch(cols, mapping, aliases).value
        && cols[j] !in mapping && Matches(cols[j], aliases)
        && forall q :: 0 <= q < j ==> cols[q] in mapping || !Matches(cols[q], aliases)
    ensures FirstMatch(cols, mapping, aliases).None? ==>
      forall q :: 0 <= q < |cols| ==> cols[q] in mapping || !Matches(cols[q], aliases)
  {
    assert cols[0..] == cols;
    if FirstMatch(cols, mapping, aliases).Some? {
      var j := FirstMatchFoundFrom(cols, 0, mapping, aliases);
    } else {
      FirstMatchNoneFrom(cols, 0, mapping, aliases);
    }
  }

  /** The scan resumed at column `k` finds column `j`, the first unmapped match from `k` on. */
  lemma {:induction false} FirstMatchFoundFrom(cols: seq<String>, k: int, mapping: map<String, String>, aliases: seq<String>)
    returns (j: int)
    requires 0 <= k <= |cols| && FirstMatch(cols[k..], mapping, aliases).Some?
    ensures k <= j < |cols| && cols[j] == FirstMatch(cols[k..], mapping, aliases).value
    ensures cols[j] !in mapping && Matches(cols[j], aliases)
    ensures forall q :: k <= q < j ==> cols[q] in mapping || !Matches(cols[q], aliases)
    decreases |cols| - k
  {
    assert cols[k..] != [];
    FirstMatchStep(cols, k, mapping, aliases);
    if cols[k] !in mapping && Matches(cols[k], aliases) {
      j := k;
    } else {
      j := FirstMatchFoundFrom(cols, k + 1, mapping, aliases);
    }
  }

  /** The scan resumed at column `k` finds nothing only when no unmapped column from `k` on matches. */
  lemma {:induction false} FirstMatchNoneFrom(cols: seq<String>, k: int, mapping: map<String, String>, aliases: seq<String>)
    requires 0 <= k <= |cols| && FirstMatch(cols[k..], mapping, aliases).None?
    ensures forall q :: k <= q < |cols| ==> cols[q] in mapping || !Matches(cols[q], aliases)
    decreases |cols| - k
  {
    if k < |cols| {
      FirstMatchStep(cols, k, mapping, aliases);
      FirstMatchNoneFrom(cols, k + 1, mapping, aliases);
    }
  }

  /** One column of the scan: it is taken, or the scan goes on with the rest. */
  lemma FirstMatchStep(cols: seq<String>, j: int, mapping: map<String, String>, aliases: seq<String>)
    requires 0 <= j < |cols|
    ensures FirstMatch(cols[j..], mapping, aliases)
      == if cols[j] !in mapping && Matches(cols[j], aliases) then Some(cols[j])
         else FirstMatch(cols[j + 1..], mapping, aliases)
  {
    assert cols[j..][0] == cols[j] && cols[j..][1..] == cols[j + 1..];
  }

  /** The exact test of the scan, on the cleaned and the normalised header, is `ExactMatch`. */
  lemma ExactTest(col: String, aliases: seq<String>, colClean: String, colNormalized: String, normalizedAliases: seq<String>)
    requires colClean == CleanHeader(col) && colNormalized == Normalize(col)
    requires normalizedAliases == NormalizeAll(aliases)
    ensures ExactMatch(col, aliases) <==> colClean in aliases || colNormalized in normalizedAliases
  {
  }

  /** The mapping after the fields of `config`, in order, each took their column. */
  function MapFields(config: Config, cols: seq<String>, mapping: map<String, String>): map<String, String>
  {
    if config == [] then mapping
    else
      var next := match FirstMatch(cols, mapping, config[0].1)
        case None => mapping
        case Some(c) => mapping[c := config[0].0];
      MapFields(config[1..], cols, next)
  }

  /** `_auto_map_columns(file_columns)`: `{columna_archivo: campo_sistema}`. */
  function AutoMap(fileColumns: seq<String>, ignorar: seq<String>, config: Config): map<String, String>
  {
    MapFields(config, ValidColumns(fileColumns, NormalizeAll(ignorar)), map[])
  }

  // ---------------------------------------------------------------- properties of the mapping

  /** No two columns share a field. */
  predicate Injective(m: map<String, String>)
  {
    forall a, b :: a in m && b in m && a != b ==> m[a] != m[b]
  }

  /** Column `c` matches the aliases of some field of `config` named `field`. */
  predicate MatchesField(c: String, field: String, config: Config)
  {
    exists i :: 0 <= i < |config| && config[i].0 == field && Matches(c, config[i].1)
  }

  /**
   * The field passes keep every earlier binding, bind only columns of `cols`, and bind each
   * new column to a field whose aliases it matches.
   */
  lemma {:induction false} MapFieldsBindings(config: Config, cols: seq<String>, mapping: map<String, String>)
    ensures forall c :: c in mapping ==>
      c in MapFields(config, cols, mapping) && MapFields(config, cols, mapping)[c] == mapping[c]
    ensures forall c :: c in MapFields(config, cols, mapping) && c !in mapping ==>
      c in cols && MatchesField(c, MapFields(config, cols, mapping)[c], config)
  {
    if config != [] {
      var tail := config[1..];
      var f := FirstMatch(cols, mapping, config[0].1);
      var next := if f.None? then mapping else mapping[f.value := config[0].0];
      assert MapFields(config, cols, mapping) == MapFields(tail, cols, next);
      MapFieldsBindings(tail, cols, next);
      var r := MapFields(tail, cols, next);
      forall c | c in r && c !in mapping
        ensures c in cols && MatchesField(c, r[c], config)
      {
        if c in next {
          FirstMatchIsFirst(cols, mapping, config[0].1);
          assert config[0].0 == r[c] && Matches(c, config[0].1);
        } else {
          var i :| 0 <= i < |tail| && tail[i].0 == r[c] && Matches(c, tail[i].1);
          assert config[i + 1] == tail[i];
        }
      }
    }
  }

  /** Names of `config` are distinct after dropping its first field, which none of them repeats. */
  lemma FieldsDistinctTail(config: Config)
    requires FieldsDistinct(config) && config != []
    ensures FieldsDistinct(config[1..])
    ensures config[0].0 !in FieldNames(config[1..])
    ensures FieldNames(config) == FieldNames(config[1..]) + {config[0].0}
  {
    var tail := config[1..];
    forall i, j | 0 <= i < j < |tail|
      ensures tail[i].0 != tail[j].0
    {
      assert tail[i] == config[i + 1] && tail[j] == config[j + 1];
    }
    forall k | 0 <= k < |tail|
      ensures tail[k].0 != config[0].0
    {
      assert tail[k] == config[k + 1];
    }
    forall x | x in FieldNames(config)
      ensures x in FieldNames(tail) + {config[0].0}
    {
      var k :| 0 <= k < |config| && config[k].0 == x;
      if k > 0 { assert tail[k - 1] == config[k]; }
    }
    forall x | x in FieldNames(tail)
      ensures x in FieldNames(config)
    {
      var k :| 0 <= k < |tail| && tail[k].0 == x;
      assert config[k + 1] == tail[k];
    }
  }

  /**
   * A column is bound to at most one field (a dictionary key), and no field is bound to two
   * columns, provided the fields are distinct and not already in use.
   */
  lemma {:induction false} MapFieldsInjective(config: Config, cols: seq<String>, mapping: map<String, String>)
    requires FieldsDistinct(config) && Injective(mapping)
    requires forall v :: v in mapping.Values ==> v !in FieldNames(config)
    ensures Injective(MapFields(config, cols, mapping))
  {
    if config != [] {
      var tail := config[1..];
      FieldsDistinctTail(config);
      var field := config[0].0;
      var f := FirstMatch(cols, mapping, config[0].1);
      var next := if f.None? then mapping else mapping[f.value := field];
      assert MapFields(config, cols, mapping) == MapFields(tail, cols, next);
      if f.Some? {
        ValuesAfterInsert(mapping, f.value, field);
        forall a, b | a in next && b in next && a != b
          ensures next[a] != next[b]
        {
          if a == f.value {
            assert next[b] == mapping[b] && mapping[b] in mapping.Values;
          } else if b == f.value {
            assert next[a] == mapping[a] && mapping[a] in mapping.Values;
          }
        }
      }
      MapFieldsInjective(tail, cols, next);
    }
  }

  /**
   * `_auto_map_columns` is one-to-one, maps only columns of the file that are not on the
   * stoplist, and maps each to a field whose aliases it matches.
   */
  lemma AutoMapSound(fileColumns: seq<String>, ignorar: seq<String>, config: Config)
    requires FieldsDistinct(config)
    ensures Injective(AutoMap(fileColumns, ignorar, config))
    ensures forall c :: c in AutoMap(fileColumns, ignorar, config) ==>
      c in fileColumns && !Ignored(c, NormalizeAll(ignorar))
      && MatchesField(c, AutoMap(fileColumns, ignorar, config)[c], config)
  {
    var cols := ValidColumns(fileColumns, NormalizeAll(ignorar));
    MapFieldsInjective(config, cols, map[]);
    MapFieldsBindings(config, cols, map[]);
    ValidColumnsMembers(fileColumns, NormalizeAll(ignorar));
  }

  /**
   * The first field takes the earliest valid column that matches it, exactly or partially:
   * an earlier partial match beats a later exact one.
   */
  lemma FirstFieldTakesEarliest(fileColumns: seq<String>, ignorar: seq<String>, config: Config, j: int)
    requires config != []
    requires 0 <= j < |ValidColumns(fileColumns, NormalizeAll(ignorar))|
    requires Matches(ValidColumns(fileColumns, NormalizeAll(ignorar))[j], config[0].1)
    requires forall q :: 0 <= q < j ==> !Matches(ValidColumns(fileColumns, NormalizeAll(ignorar))[q], config[0].1)
    ensures ValidColumns(fileColumns, NormalizeAll(ignorar))[j] in AutoMap(fileColumns, ignorar, config)
    ensures AutoMap(fileColumns, ignorar, config)[ValidColumns(fileColumns, NormalizeAll(ignorar))[j]] == config[0].0
  {
    var cols := ValidColumns(fileColumns, NormalizeAll(ignorar));
    FirstMatchAt(cols, j, map[], config[0].1);
    var next := map[cols[j] := config[0].0];
    assert AutoMap(fileColumns, ignorar, config) == MapFields(config[1..], cols, next);
    MapFieldsBindings(config[1..], cols, next);
  }

  /** The scan returns a matching column when no unmapped column before it matches. */
  lemma FirstMatchAt(cols: seq<String>, j: int, mapping: map<String, String>, aliases: seq<String>)
    requires 0 <= j < |cols| && cols[j] !in mapping && Matches(cols[j], aliases)
    requires forall q :: 0 <= q < j ==> cols[q] in mapping || !Matches(cols[q], aliases)
    ensures FirstMatch(cols, mapping, aliases) == Some(cols[j])
  {
    FirstMatchFrom(cols, 0, j, mapping, aliases);
    assert cols[0..] == cols;
  }

  /** The same, for the scan resumed at any column up to the matching one. */
  lemma {:induction false} FirstMatchFrom(cols: seq<String>, k: int, j: int, mapping: map<String, String>, aliases: seq<String>)
    requires 0 <= k <= j < |cols| && cols[j] !in mapping && Matches(cols[j], aliases)
    requires forall q :: 0 <= q < j ==> cols[q] in mapping || !Matches(cols[q], aliases)
    ensures FirstMatch(cols[k..], mapping, aliases) == Some(cols[j])
    decreases j - k
  {
    FirstMatchStep(cols, k, mapping, aliases);
    if k < j {
      FirstMatchFrom(cols, k + 1, j, mapping, aliases);
    }
  }

  // ---------------------------------------------------------------- the method

  /**
   * `_auto_map_columns` as written: the stoplist pass, then for each field the scan of the
   * remaining columns, exact match first, then the aliases one by one for a partial match.
   */
  method AutoMapColumns(fileColumns: seq<String>, ignorar: seq<String>, config: Config) returns (mapping: map<String, String>)
    requires FieldsDistinct(config)
    ensures mapping == AutoMap(fileColumns, ignorar, config)
  {
    var ignorarNorm := NormalizeAll(ignorar);
    var colsValidas := ValidColumnsOf(fileColumns, ignorarNorm);
    mapping := MapAllFields(colsValidas, config);
  }

  /** The field passes of `_auto_map_columns`, in configuration order. */
  method MapAllFields(colsValidas: seq<String>, config: Config) returns (mapping: map<String, String>)
    requires FieldsDistinct(config)
    ensures mapping == MapFields(config, colsValidas, map[])
  {
    mapping := map[];
    var usedFields: set<String> := {};
    var i := 0;
    while i < |config|
      invariant 0 <= i <= |config|
      invariant MapFields(config[i..], colsValidas, mapping) == MapFields(config, colsValidas, map[])
      invariant usedFields == mapping.Values
      invariant usedFields <= FieldNames(config[..i])
    {
      var systemField := config[i].0;
      var aliases := config[i].1;
      assert systemField !in usedFields by { FieldNotEarlier(config, i); }
      var m := BindField(colsValidas, mapping, usedFields, systemField, aliases);
      assert MapFields(config[i..], colsValidas, mapping) == MapFields(config[i + 1..], colsValidas, m) by {
        assert config[i..][0] == config[i] && config[i..][1..] == config[i + 1..];
      }
      FieldNamesSnoc(config, i);
      var found := FirstMatch(colsValidas, mapping, aliases);
      if found.Some? {
        ValuesAfterInsert(mapping, found.value, systemField);
      }
      if m != mapping {
        usedFields := usedFields + {systemField};
      }
      mapping := m;
      i := i + 1;
    }
    assert config[i..] == [];
  }

  /** The stoplist pass of `_auto_map_columns`. */
  method ValidColumnsOf(fileColumns: seq<String>, ignorarNorm: seq<String>) returns (colsValidas: seq<String>)
    ensures colsValidas == ValidColumns(fileColumns, ignorarNorm)
  {
    colsValidas := [];
    var k := 0;
    while k < |fileColumns|
      invariant 0 <= k <= |fileColumns|
      invariant colsValidas == ValidColumns(fileColumns[..k], ignorarNorm)
    {
      var col := fileColumns[k];
      var colNorm := Normalize(col);
      ValidColumnsSnoc(fileColumns, k, colNorm, ignorarNorm);
      if colNorm !in ignorarNorm {
        colsValidas := colsValidas + [col];
      }
      k := k + 1;
    }
    assert fileColumns[..k] == fileColumns;
  }

  /**
   * One field's pass: the first column not mapped yet that matches exactly or partially
   * is bound to the field; the partial test goes through the aliases in order.
   */
  method BindField(cols: seq<String>, mapping: map<String, String>, usedFields: set<String>, systemField: String, aliases: seq<String>)
    returns (m: map<String, String>)
    requires systemField !in usedFields
    ensures m == match FirstMatch(cols, mapping, aliases)
      case None => mapping
      case Some(c) => mapping[c := systemField]
  {
    var normalizedAliases := NormalizeAll(aliases);
    var j := 0;
    while j < |cols|
      invariant 0 <= j <= |cols|
      invariant FirstMatch(cols[j..], mapping, aliases) == FirstMatch(cols, mapping, aliases)
    {
      var col := cols[j];
      FirstMatchStep(cols, j, mapping, aliases);
      if col in mapping {
        j := j + 1;
        continue;
      }
      var colClean := CleanHeader(col);
      var colNormalized := Normalize(col);
      ExactTest(col, aliases, colClean, colNormalized, normalizedAliases);
      if colClean in aliases || colNormalized in normalizedAliases {
        return mapping[col := systemField];
      }
      var hit := PartialScan(colNormalized, normalizedAliases);
      if hit && systemField !in usedFields {
        return mapping[col := systemField];
      }
      j := j + 1;
    }
    assert cols[j..] == [];
    m := mapping;
  }

  /**
   * The inner loop of the field pass: the aliases in order, tried as partial matches. The source
   * normalises each alias again here; the result is the entry of `normalizedAliases`.
   */
  method PartialScan(colNormalized: String, normalizedAliases: seq<String>) returns (hit: bool)
    ensures hit == PartialMatch(colNormalized, normalizedAliases)
  {
    var k := 0;
    while k < |normalizedAliases|
      invariant 0 <= k <= |normalizedAliases|
      invariant forall q :: 0 <= q < k ==> !PartialAlias(colNormalized, normalizedAliases[q])
    {
      var aliasNorm := normalizedAliases[k];
      if |aliasNorm| >= 5 && (Contains(colNormalized, aliasNorm) || Contains(aliasNorm, colNormalized)) {
        assert PartialAlias(colNormalized, normalizedAliases[k]);
        return true;
      }
      k := k + 1;
    }
    return false;
  }

  lemma ValuesAfterInsert(mapping: map<String, String>, c: String, v: String)
    requires c !in mapping
    ensures mapping[c := v].Values == mapping.Values + {v}
  {
    var m := mapping[c := v];
    assert m[c] == v;
    forall x | x in mapping.Values
      ensures x in m.Values
    {
      var k :| k in mapping && mapping[k] == x;
      assert m[k] == x;
    }
  }

  // ---------------------------------------------------------------- configuration

  function FieldNames(config: Config): (r: set<String>)
    ensures forall i :: 0 <= i < |config| ==> config[i].0 in r
  {
    set i | 0 <= i < |config| :: config[i].0
  }

  lemma FieldNamesSnoc(config: Config, i: int)
    requires 0 <= i < |config|
    ensures FieldNames(config[..i + 1]) == FieldNames(config[..i]) + {config[i].0}
  {
    var c := config[..i + 1];
    assert forall k :: 0 <= k < i ==> c[k] == config[..i][k];
    assert c[i] == config[i];
  }

  /** The keys of a dictionary are distinct. */
  predicate FieldsDistinct(config: Config)
  {
    forall i, j :: 0 <= i < j < |config| ==> config[i].0 != config[j].0
  }

  lemma FieldNotEarlier(config: Config, i: int)
    requires FieldsDistinct(config) && 0 <= i < |config|
    ensures config[i].0 !in FieldNames(config[..i])
  {
    forall k | 0 <= k < i
      ensures config[..i][k].0 != config[i].0
    {
      assert config[..i][k] == config[k];
    }
  }
}
