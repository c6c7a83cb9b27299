/**
 * `EstadiaDAO.buscar_completa` (`models/estadia.py`): the conditions and parameters built
 * from the search term and the advanced filters, the COUNT and page statements, and the
 * parameter lists they are executed with. Only the text and the lists are modelled; the
 * two `execute` calls and the rows they return are not.
 */
module Busqueda {
  import opened Base
  import opened Text
  import opened PyNum
  import opened Sql
  import opened Consultas

  /** A list of conditions and the parameters for their placeholders, built in step. */
  datatype Where = Where(conditions: seq<String>, params: seq<Value>)

  /** `f"{column} {op} ?"`: one comparison with one placeholder. */
  function Condition(column: String, op: String): (r: String)
    ensures '?' !in column && '?' !in op ==> Marks(r) == 1
  {
    var r := column + " " + op + " ?";
    if '?' !in column && '?' !in op then
      NoMarks(column + " " + op);
      MarksAppend(column + " " + op, " ?");
      r
    else r
  }

  /** `f"%{s}%"`: a LIKE pattern matching any text that contains `s`. */
  function Pattern(s: String): String
  {
    "%" + s + "%"
  }

  // ---------------------------------------------------------------- the search term

  /** The person columns a term can be restricted to. */
  const PersonaFields: seq<String> := ["dni", "pasaporte", "apellido", "nombre", "nacionalidad"]

  /** A `campo` that restricts the term to one column. */
  predicate Recognised(campo: Option<String>)
  {
    campo.Some? && (campo.value in PersonaFields || campo.value == "establecimiento")
  }

  /** The columns searched when no recognised `campo` is given. */
  const AnyFieldColumns: seq<String> := ["p.dni", "p.pasaporte", "p.apellido", "p.nombre", "e.establecimiento"]

  function Likes(cols: seq<String>): (r: seq<String>)
    ensures |r| == |cols|
  {
    seq(|cols|, i requires 0 <= i < |cols| => Condition(cols[i], "LIKE"))
  }

  /** The parenthesised OR-group over every searchable column. */
  const AnyFieldGroup: String := "(" + Join(" OR ", Likes(AnyFieldColumns)) + ")"

  /**
   * The search term's contribution: nothing for a blank term; otherwise the stripped term
   * as a `%...%` pattern, against the one column `campo` names or, failing that, against
   * all five searchable columns.
   */
  function TermWhere(termino: String, campo: Option<String>): Where
  {
    if IsBlank(termino) then Where([], [])
    else
      var t := VStr(Pattern(Strip(termino)));
      if Recognised(campo) then
        if campo.value in PersonaFields then Where([Condition("p." + campo.value, "LIKE")], [t])
        else Where([Condition("e." + campo.value, "LIKE")], [t])
      else Where([AnyFieldGroup], [t, t, t, t, t])
  }

  lemma {:induction false} LikesMarks(cols: seq<String>)
    requires forall c :: c in cols ==> '?' !in c
    ensures TotalMarks(Likes(cols)) == |cols|
    decreases |cols|
  {
    if cols != [] {
      assert Likes(cols)[1..] == Likes(cols[1..]);
      assert Likes(cols)[0] == Condition(cols[0], "LIKE");
      LikesMarks(cols[1..]);
    }
  }

  lemma AnyFieldGroupMarks()
    ensures Marks(AnyFieldGroup) == 5
  {
    var j := Join(" OR ", Likes(AnyFieldColumns));
    assert forall c :: c in AnyFieldColumns ==> '?' !in c;
    LikesMarks(AnyFieldColumns);
    NoMarks(" OR ");
    MarksJoin(" OR ", Likes(AnyFieldColumns));
    MarksAppend("(", j);
    MarksAppend("(" + j, ")");
  }

  /**
   * A blank term adds nothing; otherwise one condition, with one parameter when `campo` is
   * recognised and five otherwise, every parameter being the stripped term as a pattern,
   * and exactly one placeholder per parameter.
   */
  lemma TermWhereSpec(termino: String, campo: Option<String>)
    ensures var w := TermWhere(termino, campo);
      |w.conditions| == (if IsBlank(termino) then 0 else 1)
      && |w.params| == (if IsBlank(termino) then 0 else if Recognised(campo) then 1 else 5)
      && (forall i :: 0 <= i < |w.params| ==> w.params[i] == VStr(Pattern(Strip(termino))))
      && TotalMarks(w.conditions) == |w.params|
  {
    var w := TermWhere(termino, campo);
    if !IsBlank(termino) {
      if Recognised(campo) {
        assert '?' !in campo.value;
        assert Marks(w.conditions[0]) == 1;
      } else {
        AnyFieldGroupMarks();
      }
      assert w.conditions[1..] == [];
    }
  }

  // ---------------------------------------------------------------- the advanced filters

  /** `int(v)`: `None` where it raises (text that is not an integer, a date). */
  function IntOf(v: Value): (r: Option<int>)
    ensures v.VInt? ==> r == Some(v.i)
    ensures v.VStr? ==> r == PyInt(v.s)
    ensures v.VBool? ==> r == Some(if v.b then 1 else 0)
    ensures v.VDate? || v.VNone? ==> r.None?
  {
    match v
    case VInt(i) => Some(i)
    case VBool(b) => Some(if b then 1 else 0)
    case VStr(s) => PyInt(s)
    case VDate(_) => None
    case VNone => None
  }

  /** The parameter a filter sends for value `v`, `None` where making it raises. */
  function FilterParam(kind: ParamKind, v: Value): (r: Option<Value>)
    ensures r.None? <==> kind == AsInt && IntOf(v).None?
  {
    match kind
    case AsText => Some(VStr(StrOf(v)))
    case AsIs => Some(v)
    case Contains => Some(VStr(Pattern(StrOf(v))))
    case AsInt => if IntOf(v).Some? then Some(VInt(IntOf(v).value)) else None
  }

  /** `filtros.get(key)` is truthy. */
  predicate IsSet(filtros: map<String, Value>, key: String)
  {
    key in filtros && Truthy(filtros[key])
  }

  /** The filters of `fs` that are set, in order. */
  function Present(fs: seq<Filter>, filtros: map<String, Value>): (p: seq<Filter>)
    ensures |p| <= |fs|
    ensures forall f :: f in p <==> f in fs && IsSet(filtros, f.key)
  {
    if fs == [] then []
    else
      var rest := Present(fs[..|fs| - 1], filtros);
      assert fs == fs[..|fs| - 1] + [fs[|fs| - 1]];
      if IsSet(filtros, fs[|fs| - 1].key) then rest + [fs[|fs| - 1]] else rest
  }

  /**
   * The filters' contribution, testing `fs` in order: a set filter adds its condition and
   * its parameter; the first set filter whose `int()` raises ends the search with an error
   * naming its key.
   */
  function FilterWhere(fs: seq<Filter>, filtros: map<String, Value>): Result<Where>
  {
    if fs == [] then Ok(Where([], []))
    else match FilterWhere(fs[..|fs| - 1], filtros)
      case Err(k) => Err(k)
      case Ok(w) =>
        var f := fs[|fs| - 1];
        if IsSet(filtros, f.key) then
          match FilterParam(f.kind, filtros[f.key])
          case None => Err(f.key)
          case Some(p) => Ok(Where(w.conditions + [Condition(f.column, f.op)], w.params + [p]))
        else Ok(w)
  }

  /** An error in a prefix of the filters is the error of the whole list. */
  lemma {:induction false} FilterErrorPersists(fs: seq<Filter>, i: nat, filtros: map<String, Value>)
    requires i <= |fs| && FilterWhere(fs[..i], filtros).Err?
    ensures FilterWhere(fs, filtros) == FilterWhere(fs[..i], filtros)
    decreases |fs|
  {
    if i < |fs| {
      var init := fs[..|fs| - 1];
      assert init[..i] == fs[..i];
      FilterErrorPersists(init, i, filtros);
    } else {
      assert fs[..i] == fs;
    }
  }

  /** The filters fail exactly when a set filter's value cannot be made an integer by `int()`. */
  lemma {:induction false} FilterWhereErr(fs: seq<Filter>, filtros: map<String, Value>)
    ensures FilterWhere(fs, filtros).Err? <==>
      exists f :: f in fs && IsSet(filtros, f.key) && FilterParam(f.kind, filtros[f.key]).None?
    decreases |fs|
  {
    if fs != [] {
      var init := fs[..|fs| - 1];
      var f := fs[|fs| - 1];
      assert fs == init + [f];
      FilterWhereErr(init, filtros);
    }
  }

  /**
   * Otherwise the set filters, in order, each give one condition, their own, and one
   * parameter, the one made from their value.
   */
  lemma {:induction false} FilterWhereAligned(fs: seq<Filter>, filtros: map<String, Value>)
    ensures var p := Present(fs, filtros);
      var r := FilterWhere(fs, filtros);
      r.Ok? ==>
        |r.value.conditions| == |p| && |r.value.params| == |p|
        && forall j :: 0 <= j < |p| ==>
             r.value.conditions[j] == Condition(p[j].column, p[j].op)
             && Some(r.value.params[j]) == FilterParam(p[j].kind, filtros[p[j].key])
    decreases |fs|
  {
    if fs != [] {
      var init := fs[..|fs| - 1];
      var f := fs[|fs| - 1];
      FilterWhereAligned(init, filtros);
    }
  }

  /** Each condition the filters add has exactly one placeholder, so they match the parameters. */
  lemma {:induction false} FilterWhereMarks(fs: seq<Filter>, filtros: map<String, Value>)
    requires forall f :: f in fs ==> Clean(f)
    ensures var r := FilterWhere(fs, filtros);
      r.Ok? ==> TotalMarks(r.value.conditions) == |r.value.params|
    decreases |fs|
  {
    if fs != [] {
      var init := fs[..|fs| - 1];
      var f := fs[|fs| - 1];
      assert f in fs;
      assert forall g :: g in init ==> g in fs;
      FilterWhereMarks(init, filtros);
      if FilterWhere(init, filtros).Ok? && IsSet(filtros, f.key) && FilterParam(f.kind, filtros[f.key]).Some? {
        TotalMarksAppend(FilterWhere(init, filtros).value.conditions, Condition(f.column, f.op));
      }
    }
  }

  // ---------------------------------------------------------------- the statements

  /** `base` after the conditions: joined by `f" {operador} "` inside one parenthesised group. */
  function WhereText(conditions: seq<String>, operador: String): String
  {
    if conditions == [] then BaseClause
    else Grouped(Join(" " + operador + " ", conditions))
  }

  /** What `buscar_completa` executes: the COUNT statement and the page statement with their parameters. */
  datatype Search = Search(countQuery: String, dataQuery: String, params: seq<Value>, pageParams: seq<Value>)

  /** The index of the first row of page `pagina`. */
  function Offset(pagina: int, porPagina: int): int
  {
    (pagina - 1) * porPagina
  }

  /**
   * `buscar_completa(termino, campo, filtros, operador, pagina, por_pagina)` up to the two
   * `execute` calls: the term's conditions, then the filters', joined into `base`; the page
   * statement takes `por_pagina` and the offset after the search parameters.
   */
  function SearchSpec(termino: String, campo: Option<String>, filtros: map<String, Value>, operador: String, pagina: int, porPagina: int): Result<Search>
  {
    var tw := TermWhere(termino, campo);
    match FilterWhere(Filters, filtros)
    case Err(k) => Err(k)
    case Ok(fw) =>
      var base := WhereText(tw.conditions + fw.conditions, operador);
      var ps := tw.params + fw.params;
      Ok(Search(CountQuery(base), DataQuery(base), ps, ps + [VInt(porPagina), VInt(Offset(pagina, porPagina))]))
  }

  /** The conditions and parameters `w` followed by the filters' ones, or the filters' error. */
  function Extend(w: Where, fr: Result<Where>): Result<Where>
  {
    match fr
    case Err(k) => Err(k)
    case Ok(v) => Ok(Where(w.conditions + v.conditions, w.params + v.params))
  }

  /**
   * The `if filtros:` block of `buscar_completa`: the filters `fs` checked in order, each set
   * one appending its condition and parameter to the lists built so far; the first `int()`
   * that raises ends the search.
   */
  method AddFilters(fs: seq<Filter>, filtros: map<String, Value>, conditions0: seq<String>, params0: seq<Value>)
    returns (r: Result<Where>)
    ensures r == Extend(Where(conditions0, params0), FilterWhere(fs, filtros))
  {
    var conditions := conditions0;
    var params := params0;
    var i := 0;
    while i < |fs|
      invariant 0 <= i <= |fs|
      invariant FilterWhere(fs[..i], filtros).Ok?
      invariant conditions == conditions0 + FilterWhere(fs[..i], filtros).value.conditions
      invariant params == params0 + FilterWhere(fs[..i], filtros).value.params
    {
      var f := fs[i];
      assert fs[..i + 1][..i] == fs[..i];
      if f.key in filtros && Truthy(filtros[f.key]) {
        var p := FilterParam(f.kind, filtros[f.key]);
        if p.None? {
          FilterErrorPersists(fs, i + 1, filtros);
          return Err(f.key);
        }
        conditions := conditions + [Condition(f.column, f.op)];
        params := params + [p.value];
      }
      i := i + 1;
    }
    assert fs[..i] == fs;
    r := Ok(Where(conditions, params));
  }

  /**
   * `EstadiaDAO.buscar_completa` building its statements step by step, as the source does;
   * `filtros=None` is the empty map.
   */
  method BuscarCompleta(termino: String, campo: Option<String>, filtros: map<String, Value>, operador: String, pagina: int, porPagina: int)
    returns (r: Result<Search>)
    ensures r == SearchSpec(termino, campo, filtros, operador, pagina, porPagina)
  {
    var conditions: seq<String> := [];
    var params: seq<Value> := [];
    if !IsBlank(termino) {
      var t := VStr(Pattern(Strip(termino)));
      if Recognised(campo) {
        if campo.value in PersonaFields {
          conditions := conditions + [Condition("p." + campo.value, "LIKE")];
        } else {
          conditions := conditions + [Condition("e." + campo.value, "LIKE")];
        }
        params := params + [t];
      } else {
        conditions := conditions + [AnyFieldGroup];
        params := params + [t, t, t, t, t];
      }
    }
    assert Where(conditions, params) == TermWhere(termino, campo);
    var fr := AddFilters(Filters, filtros, conditions, params);
    if fr.Err? {
      return Err(fr.msg);
    }
    conditions, params := fr.value.conditions, fr.value.params;
    var base := if conditions != [] then Grouped(Join(" " + operador + " ", conditions)) else BaseClause;
    var offset := (pagina - 1) * porPagina;
    r := Ok(Search(CountQuery(base), DataQuery(base), params, params + [VInt(porPagina), VInt(offset)]));
  }

  lemma WhereTextMarks(conditions: seq<String>, operador: String)
    requires '?' !in operador
    ensures Marks(WhereText(conditions, operador)) == TotalMarks(conditions)
  {
    var sep := " " + operador + " ";
    GroupedMarks(Join(sep, conditions));
    if conditions != [] {
      NoMarks(sep);
      MarksJoin(sep, conditions);
    }
  }

  /**
   * Both statements have exactly one placeholder per parameter they are executed with, as
   * long as the operator (interpolated into the text unchecked) holds no `?`; the page
   * statement's last two parameters are the page size and `(pagina - 1) * por_pagina`.
   */
  lemma SearchSpecMarks(termino: String, campo: Option<String>, filtros: map<String, Value>, operador: String, pagina: int, porPagina: int)
    requires '?' !in operador
    ensures var r := SearchSpec(termino, campo, filtros, operador, pagina, porPagina);
      r.Ok? ==>
        Marks(r.value.countQuery) == |r.value.params|
        && Marks(r.value.dataQuery) == |r.value.pageParams|
        && |r.value.pageParams| == |r.value.params| + 2
        && r.value.pageParams[|r.value.params|] == VInt(porPagina)
        && r.value.pageParams[|r.value.params| + 1] == VInt((pagina - 1) * porPagina)
  {
    var tw := TermWhere(termino, campo);
    var fr := FilterWhere(Filters, filtros);
    if fr.Ok? {
      var conds := tw.conditions + fr.value.conditions;
      var base := WhereText(conds, operador);
      TermWhereSpec(termino, campo);
      FiltersClean();
      FilterWhereMarks(Filters, filtros);
      TotalMarksConcat(tw.conditions, fr.value.conditions);
      WhereTextMarks(conds, operador);
      QueryMarks(base);
    }
  }

  lemma {:induction false} TotalMarksConcat(a: seq<String>, b: seq<String>)
    ensures TotalMarks(a + b) == TotalMarks(a) + TotalMarks(b)
    decreases |a|
  {
    if a != [] {
      assert (a + b)[1..] == a[1..] + b;
      TotalMarksConcat(a[1..], b);
    } else {
      assert a + b == b;
    }
  }

  /** The search fails exactly when the filters do; a blank term and no set filter leave `base` as it was. */
  lemma SearchSpecOutcome(termino: String, campo: Option<String>, filtros: map<String, Value>, operador: String, pagina: int, porPagina: int)
    ensures var r := SearchSpec(termino, campo, filtros, operador, pagina, porPagina);
      (r.Err? <==> FilterWhere(Filters, filtros).Err?)
      && (r.Ok? && IsBlank(termino) && Present(Filters, filtros) == [] ==>
            r.value.countQuery == CountQuery(BaseClause) && r.value.params == [])
  {
    FilterWhereAligned(Filters, filtros);
  }
}
