/**
 * What the DAO builders hand to SQLite: statement text with `?` placeholders and the list
 * of parameter values. Only the text and the list are modelled, never their execution.
 */
module Sql {
  import opened Base
  import opened Text
  import opened Numerals
  import opened Dates

  /** A Python value held in a `datos` dictionary or passed as a statement parameter. */
  datatype Value = VStr(s: String) | VInt(i: int) | VBool(b: bool) | VDate(d: Date) | VNone

  /** Python truthiness: empty text, zero, `False` and `None` are false. */
  predicate Truthy(v: Value)
  {
    match v
    case VStr(s) => s != []
    case VInt(i) => i != 0
    case VBool(b) => b
    case VDate(_) => true
    case VNone => false
  }

  /** The number of `?` placeholders in statement text. */
  function Marks(s: String): nat
  {
    if s == [] then 0 else (if s[0] == '?' then 1 else 0) + Marks(s[1..])
  }

  lemma {:induction false} MarksAppend(a: String, b: String)
    ensures Marks(a + b) == Marks(a) + Marks(b)
    decreases |a|
  {
    if a == [] {
      assert a + b == b;
    } else {
      assert (a + b)[0] == a[0];
      assert (a + b)[1..] == a[1..] + b;
      MarksAppend(a[1..], b);
    }
  }

  lemma {:induction false} NoMarks(s: String)
    requires '?' !in s
    ensures Marks(s) == 0
    decreases |s|
  {
    if s != [] {
      assert s[0] in s;
      assert forall c :: c in s[1..] ==> c in s;
      NoMarks(s[1..]);
    }
  }

  /** The placeholders of several pieces of text. */
  function TotalMarks(parts: seq<String>): nat
  {
    if parts == [] then 0 else Marks(parts[0]) + TotalMarks(parts[1..])
  }

  lemma TotalMarksAppend(parts: seq<String>, p: String)
    ensures TotalMarks(parts + [p]) == TotalMarks(parts) + Marks(p)
  {
    if parts != [] {
      assert (parts + [p])[1..] == parts[1..] + [p];
    }
  }

  /** Joining with a separator free of placeholders adds none. */
  lemma {:induction false} MarksJoin(sep: String, parts: seq<String>)
    requires Marks(sep) == 0
    ensures Marks(Join(sep, parts)) == TotalMarks(parts)
    decreases |parts|
  {
    if |parts| == 1 {
      assert TotalMarks(parts[1..]) == 0;
    } else if |parts| > 1 {
      MarksAppend(parts[0] + sep, Join(sep, parts[1..]));
      MarksAppend(parts[0], sep);
      MarksJoin(sep, parts[1..]);
    }
  }

  /** `f"{campo} = ?"`. */
  function Assignment(campo: String): (r: String)
    ensures '?' !in campo ==> Marks(r) == 1
  {
    var r := campo + " = ?";
    if '?' !in campo then
      NoMarks(campo);
      MarksAppend(campo, " = ?");
      r
    else r
  }

  /** `str(v)` for the values the builders stringify. */
  function StrOf(v: Value): String
  {
    match v
    case VStr(s) => s
    case VInt(i) => IntToString(i)
    case VBool(b) => if b then "True" else "False"
    case VDate(d) => if ValidDate(d) then Iso(d) else []
    case VNone => "None"
  }

  function IntToString(i: int): String
  {
    if i < 0 then "-" + NatToString(-i) else NatToString(i)
  }

  /** A WHERE clause with the one placeholder for the row key. */
  function KeyWhere(before: String, after: String): String
  {
    before + "?" + after
  }

  lemma KeyWhereMarks(before: String, after: String)
    requires '?' !in before && '?' !in after
    ensures Marks(KeyWhere(before, after)) == 1
  {
    NoMarks(before);
    NoMarks(after);
    MarksAppend(before, "?");
    MarksAppend(before + "?", after);
  }

  /** An UPDATE: the SET assignments and the parameter list, key value last. */
  datatype Update = Update(assignments: seq<String>, params: seq<Value>)

  /** The statement text `UPDATE <table> SET a1, a2, ... <where>`. */
  function UpdateText(table: String, u: Update, where: String): String
  {
    "UPDATE " + table + " SET " + Join(", ", u.assignments) + " " + where
  }

  /**
   * The text of an UPDATE has one placeholder per parameter when every assignment has one,
   * the table name has none and the WHERE clause holds the key's.
   */
  lemma UpdateMarks(table: String, u: Update, where: String)
    requires '?' !in table && Marks(where) == 1
    requires TotalMarks(u.assignments) + 1 == |u.params|
    ensures Marks(UpdateText(table, u, where)) == |u.params|
  {
    var j := Join(", ", u.assignments);
    NoMarks(", ");
    MarksJoin(", ", u.assignments);
    NoMarks("UPDATE " + table + " SET ");
    MarksAppend("UPDATE " + table + " SET ", j);
    MarksAppend("UPDATE " + table + " SET " + j, " ");
    MarksAppend("UPDATE " + table + " SET " + j + " ", where);
  }

  // ---------------------------------------------------------------- whitelist builders

  /** The keys of `whitelist` present in `datos`, in whitelist order. */
  function Selected(whitelist: seq<String>, datos: map<String, Value>): (cols: seq<String>)
    ensures |cols| <= |whitelist|
    ensures forall c :: c in cols <==> c in whitelist && c in datos
  {
    if whitelist == [] then []
    else
      var init := whitelist[..|whitelist| - 1];
      var last := whitelist[|whitelist| - 1];
      assert whitelist == init + [last];
      Selected(init, datos) + (if last in datos then [last] else [])
  }

  /** `a` is `b` with some entries left out, the rest kept in order. */
  predicate SubsequenceOf(a: seq<String>, b: seq<String>)
    decreases |b|
  {
    if a == [] then true
    else if b == [] then false
    else if a[|a| - 1] == b[|b| - 1] then SubsequenceOf(a[..|a| - 1], b[..|b| - 1])
    else SubsequenceOf(a, b[..|b| - 1])
  }

  /** The selected keys keep their whitelist order. */
  lemma {:induction false} SelectedInOrder(whitelist: seq<String>, datos: map<String, Value>)
    ensures SubsequenceOf(Selected(whitelist, datos), whitelist)
    decreases |whitelist|
  {
    if whitelist != [] {
      var init := whitelist[..|whitelist| - 1];
      var last := whitelist[|whitelist| - 1];
      var s := Selected(init, datos);
      SelectedInOrder(init, datos);
      assert whitelist == init + [last];
      if last in datos {
        assert Selected(whitelist, datos) == s + [last];
        assert (s + [last])[..|s|] == s;
      } else {
        assert Selected(whitelist, datos) == s;
        SubsequenceWeaken(s, init, last);
      }
    }
  }

  /** Dropping the last entry of a subsequence leaves a subsequence. */
  lemma {:induction false} SubsequenceDrop(a: seq<String>, b: seq<String>)
    requires a != [] && SubsequenceOf(a, b)
    ensures SubsequenceOf(a[..|a| - 1], b)
    decreases |b|, 0
  {
    var bi := b[..|b| - 1];
    var x := b[|b| - 1];
    assert bi + [x] == b;
    if a[|a| - 1] == x {
      SubsequenceWeaken(a[..|a| - 1], bi, x);
    } else {
      SubsequenceDrop(a, bi);
      SubsequenceWeaken(a[..|a| - 1], bi, x);
    }
  }

  /** Appending to the source keeps a subsequence one. */
  lemma {:induction false} SubsequenceWeaken(a: seq<String>, b: seq<String>, x: String)
    requires SubsequenceOf(a, b)
    ensures SubsequenceOf(a, b + [x])
    decreases |b|, 1
  {
    assert (b + [x])[..|b|] == b;
    if a != [] && a[|a| - 1] == x {
      SubsequenceDrop(a, b);
    }
  }

  /** The SET assignments for the given columns. */
  function Assignments(cols: seq<String>): (r: seq<String>)
    ensures |r| == |cols|
    ensures forall i :: 0 <= i < |cols| ==> r[i] == Assignment(cols[i])
  {
    if cols == [] then [] else Assignments(cols[..|cols| - 1]) + [Assignment(cols[|cols| - 1])]
  }

  /** The parameter for each column, as the builder converts it. */
  function Values(cols: seq<String>, datos: map<String, Value>, conv: (String, Value) -> Value): (r: seq<Value>)
    requires forall c :: c in cols ==> c in datos
    ensures |r| == |cols|
    ensures forall i :: 0 <= i < |cols| ==> r[i] == conv(cols[i], datos[cols[i]])
  {
    if cols == [] then []
    else Values(cols[..|cols| - 1], datos, conv) + [conv(cols[|cols| - 1], datos[cols[|cols| - 1]])]
  }

  /**
   * What a whitelist-driven `actualizar` sends: nothing when no whitelisted key is in
   * `datos`, otherwise one assignment and one converted value per present key, in
   * whitelist order, then the row key.
   */
  function WhitelistUpdate(whitelist: seq<String>, datos: map<String, Value>, conv: (String, Value) -> Value, key: Value): (r: Option<Update>)
    ensures r.None? <==> forall c :: c in whitelist ==> c !in datos
    ensures r.Some? ==> |r.value.params| == |r.value.assignments| + 1 && r.value.params[|r.value.params| - 1] == key
  {
    var cols := Selected(whitelist, datos);
    if cols == [] then None
    else
      assert cols[0] in whitelist && cols[0] in datos;
      Some(Update(Assignments(cols), Values(cols, datos, conv) + [key]))
  }

  /**
   * The loop of a whitelist-driven `actualizar`: for each whitelisted key present in
   * `datos`, append its assignment and its converted value; give up when there are none;
   * otherwise append the row key.
   */
  method BuildUpdate(whitelist: seq<String>, datos: map<String, Value>, conv: (String, Value) -> Value, key: Value)
    returns (r: Option<Update>)
    ensures r == WhitelistUpdate(whitelist, datos, conv, key)
  {
    var campos: seq<String> := [];
    var valores: seq<Value> := [];
    for i := 0 to |whitelist|
      invariant campos == Assignments(Selected(whitelist[..i], datos))
      invariant valores == Values(Selected(whitelist[..i], datos), datos, conv)
    {
      var campo := whitelist[i];
      BuildStep(whitelist, i, datos, conv);
      if campo in datos {
        campos := campos + [Assignment(campo)];
        valores := valores + [conv(campo, datos[campo])];
      }
    }
    assert whitelist[..|whitelist|] == whitelist;
    if campos == [] {
      return None;
    }
    valores := valores + [key];
    return Some(Update(campos, valores));
  }

  /** One step of the builder's loop, on the specification's side. */
  lemma BuildStep(whitelist: seq<String>, i: nat, datos: map<String, Value>, conv: (String, Value) -> Value)
    requires i < |whitelist|
    ensures var sel := Selected(whitelist[..i], datos);
      var c := whitelist[i];
      if c in datos then
        Assignments(Selected(whitelist[..i + 1], datos)) == Assignments(sel) + [Assignment(c)]
        && Values(Selected(whitelist[..i + 1], datos), datos, conv) == Values(sel, datos, conv) + [conv(c, datos[c])]
      else
        Selected(whitelist[..i + 1], datos) == sel
  {
    assert whitelist[..i + 1][..i] == whitelist[..i];
    if whitelist[i] in datos {
      AppendColumn(Selected(whitelist[..i], datos), whitelist[i], datos, conv);
    }
  }

  lemma AppendColumn(cols: seq<String>, c: String, datos: map<String, Value>, conv: (String, Value) -> Value)
    requires forall x :: x in cols ==> x in datos
    requires c in datos
    ensures Assignments(cols + [c]) == Assignments(cols) + [Assignment(c)]
    ensures Values(cols + [c], datos, conv) == Values(cols, datos, conv) + [conv(c, datos[c])]
  {
    assert (cols + [c])[..|cols|] == cols;
  }

  lemma {:induction false} TotalMarksOfAssignments(cols: seq<String>)
    requires forall c :: c in cols ==> '?' !in c
    ensures TotalMarks(Assignments(cols)) == |cols|
    decreases |cols|
  {
    if cols != [] {
      var init := cols[..|cols| - 1];
      assert forall c :: c in init ==> c in cols;
      TotalMarksOfAssignments(init);
      TotalMarksAppend(Assignments(init), Assignment(cols[|cols| - 1]));
    }
  }

  /**
   * With placeholder-free column names, the statement a whitelist builder produces has
   * exactly one placeholder per parameter.
   */
  lemma WhitelistUpdateMarks(whitelist: seq<String>, datos: map<String, Value>, conv: (String, Value) -> Value, key: Value, table: String, where: String)
    requires forall c :: c in whitelist ==> '?' !in c
    requires '?' !in table && Marks(where) == 1
    ensures var r := WhitelistUpdate(whitelist, datos, conv, key);
      r.Some? ==> Marks(UpdateText(table, r.value, where)) == |r.value.params|
  {
    var r := WhitelistUpdate(whitelist, datos, conv, key);
    if r.Some? {
      var cols := Selected(whitelist, datos);
      TotalMarksOfAssignments(cols);
      UpdateMarks(table, r.value, where);
    }
  }

  /**
   * The `i`-th assignment names a whitelisted key present in `datos`, the `i`-th parameter
   * is that key's converted value, and the keys keep their whitelist order.
   */
  lemma WhitelistUpdateAligned(whitelist: seq<String>, datos: map<String, Value>, conv: (String, Value) -> Value, key: Value)
    ensures var r := WhitelistUpdate(whitelist, datos, conv, key);
      var cols := Selected(whitelist, datos);
      r.Some? ==>
        SubsequenceOf(cols, whitelist)
        && (forall c :: c in cols <==> c in whitelist && c in datos)
        && |cols| == |r.value.assignments|
        && forall i :: 0 <= i < |cols| ==>
             r.value.assignments[i] == Assignment(cols[i]) && r.value.params[i] == conv(cols[i], datos[cols[i]])
  {
    SelectedInOrder(whitelist, datos);
  }
}
