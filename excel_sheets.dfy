/**
 * The sheet handling of `ExcelParser._read_file` (`utils/excel_parser.py`), on a workbook
 * that has already been read: which sheets are taken, how their headers are cleaned, which
 * rows are dropped as blank, how each sheet's columns are mapped and renamed, how each row is
 * tagged with its sheet and row number, and how the sheets are stacked into one table.
 */
module ExcelSheets {
  import opened Base
  import opened Text
  import opened Numerals
  import opened CharMaps
  import opened HeaderNormalize
  import opened HeaderMapping
  import opened ExcelRow

  /**
   * A worksheet as the reader gives it with `dtype=str` and `keep_default_na=False`: its
   * name, its header row and its data rows, every cell as text.
   */
  datatype Sheet = Sheet(name: String, headers: seq<String>, rows: seq<seq<String>>)

  /**
   * A sheet once prepared: the renamed headers followed by the two tag columns, the rows that
   * were kept (each aligned with the headers), and the column mapping found for the sheet.
   */
  datatype Frame = Frame(name: String, headers: seq<String>, rows: seq<seq<String>>, mapping: map<String, String>)

  const HojaColumn: String := "_hoja_origen"
  const FilaColumn: String := "_fila_original"

  // ---------------------------------------------------------------- sheet selection

  /** `{str(s).strip() for s in selected_sheets}`, kept as a list. */
  function StripAll(names: seq<String>): (r: seq<String>)
    ensures |r| == |names| && forall i :: 0 <= i < |names| ==> r[i] == Strip(names[i])
  {
    seq(|names|, i requires 0 <= i < |names| => Strip(names[i]))
  }

  /** The sheets, in workbook order, whose stripped name is one of `sel`. */
  function Chosen(book: seq<Sheet>, sel: seq<String>): seq<Sheet>
  {
    if book == [] then []
    else
      var last := book[|book| - 1];
      Chosen(book[..|book| - 1], sel) + (if Strip(last.name) in sel then [last] else [])
  }

  /** `hojas_a_procesar`: every sheet without a selection, else the selected ones. */
  function SelectSheets(book: seq<Sheet>, selected: Option<seq<String>>): seq<Sheet>
  {
    match selected
    case None => book
    case Some(sel) => Chosen(book, StripAll(sel))
  }

  /** A sheet is processed exactly when it is in the workbook and its stripped name was selected. */
  lemma ChosenMembers(book: seq<Sheet>, sel: seq<String>, s: Sheet)
    ensures s in Chosen(book, sel) <==> s in book && Strip(s.name) in sel
  {
    if s in Chosen(book, sel) {
      ChosenOnlySelected(book, sel, s);
    }
    if s in book && Strip(s.name) in sel {
      ChosenAllSelected(book, sel, s);
    }
  }

  /** Every processed sheet is a selected sheet of the workbook. */
  lemma {:induction false} ChosenOnlySelected(book: seq<Sheet>, sel: seq<String>, s: Sheet)
    requires s in Chosen(book, sel)
    ensures s in book && Strip(s.name) in sel
  {
    var init := book[..|book| - 1];
    var last := book[|book| - 1];
    assert book == init + [last];
    if s in Chosen(init, sel) {
      ChosenOnlySelected(init, sel, s);
    } else {
      assert s == last;
    }
  }

  /** Every selected sheet of the workbook is processed. */
  lemma {:induction false} ChosenAllSelected(book: seq<Sheet>, sel: seq<String>, s: Sheet)
    requires s in book && Strip(s.name) in sel
    ensures s in Chosen(book, sel)
  {
    var init := book[..|book| - 1];
    var last := book[|book| - 1];
    assert book == init + [last];
    if s in init {
      ChosenAllSelected(init, sel, s);
    } else {
      assert s == last;
    }
  }

  /** The selection by name: with a list, a sheet is taken iff its stripped name matches a stripped entry. */
  lemma SelectSheetsMembers(book: seq<Sheet>, selected: Option<seq<String>>, s: Sheet)
    ensures s in SelectSheets(book, selected) <==>
      s in book && (selected.None? || exists i :: 0 <= i < |selected.value| && Strip(selected.value[i]) == Strip(s.name))
  {
    if selected.Some? {
      var sel := StripAll(selected.value);
      ChosenMembers(book, sel, s);
      if Strip(s.name) in sel {
        var i :| 0 <= i < |sel| && sel[i] == Strip(s.name);
        assert Strip(selected.value[i]) == Strip(s.name);
      }
    }
  }

  // ---------------------------------------------------------------- headers

  /** `[str(col).strip().lower().replace(" ", "_") for col in sheet_df.columns]`. */
  function CleanHeaders(hs: seq<String>): (r: seq<String>)
    ensures |r| == |hs| && forall i :: 0 <= i < |hs| ==> r[i] == CleanHeader(hs[i])
  {
    seq(|hs|, i requires 0 <= i < |hs| => CleanHeader(hs[i]))
  }

  /** `sheet_cols`: the headers not starting with `_`, in order. */
  function DataColumns(hs: seq<String>): seq<String>
  {
    if hs == [] then []
    else
      var last := hs[|hs| - 1];
      DataColumns(hs[..|hs| - 1]) + (if StartsWith(last, "_") then [] else [last])
  }

  /** The mapping sees every header not starting with `_`, and no other. */
  lemma {:induction false} DataColumnsMembers(hs: seq<String>, h: String)
    ensures h in DataColumns(hs) <==> h in hs && !StartsWith(h, "_")
  {
    if hs != [] {
      var init := hs[..|hs| - 1];
      DataColumnsMembers(init, h);
      assert hs == init + [hs[|hs| - 1]];
    }
  }

  /** `sheet_df.rename(columns=sheet_map)`. */
  function RenameAll(hs: seq<String>, m: map<String, String>): (r: seq<String>)
    ensures |r| == |hs|
    ensures forall i :: 0 <= i < |hs| ==> r[i] == (if hs[i] in m then m[hs[i]] else hs[i])
  {
    seq(|hs|, i requires 0 <= i < |hs| => if hs[i] in m then m[hs[i]] else hs[i])
  }

  /** The position of the first column named `h`, or `|hs|` when there is none. */
  function HeaderIndex(hs: seq<String>, h: String): (k: nat)
    ensures k <= |hs|
  {
    if hs == [] then 0
    else if hs[0] == h then 0
    else 1 + HeaderIndex(hs[1..], h)
  }

  /** `HeaderIndex` finds the first column of that name, and finds none only when there is none. */
  lemma {:induction false} HeaderIndexSpec(hs: seq<String>, h: String)
    ensures HeaderIndex(hs, h) < |hs| <==> h in hs
    ensures HeaderIndex(hs, h) < |hs| ==> hs[HeaderIndex(hs, h)] == h
    ensures forall j :: 0 <= j < HeaderIndex(hs, h) ==> hs[j] != h
  {
    if hs != [] && hs[0] != h {
      HeaderIndexSpec(hs[1..], h);
      forall j | 0 <= j < HeaderIndex(hs, h)
        ensures hs[j] != h
      {
        if j > 0 { assert hs[j] == hs[1..][j - 1]; }
      }
      assert h in hs <==> h in hs[1..] by {
        assert hs == [hs[0]] + hs[1..];
      }
    }
  }

  /** A position holding `h` with no earlier `h` is the one `HeaderIndex` finds. */
  lemma HeaderIndexAt(hs: seq<String>, h: String, i: nat)
    requires i < |hs| && hs[i] == h
    requires forall j :: 0 <= j < i ==> hs[j] != h
    ensures HeaderIndex(hs, h) == i
  {
    HeaderIndexSpec(hs, h);
  }

  /** The text under the first column named `h`, or `""` when the row has no such column. */
  function ValueOf(hs: seq<String>, vals: seq<String>, h: String): String
  {
    var k := HeaderIndex(hs, h);
    if k < |hs| && k < |vals| then vals[k] else ""
  }

  // ---------------------------------------------------------------- blank rows

  /** A row cut or padded with empty cells to the width of the header row. */
  function Padded(r: seq<String>, w: nat): (p: seq<String>)
    ensures |p| == w
  {
    seq(w, i requires 0 <= i < w => if i < |r| then r[i] else "")
  }

  /** A row whose every cell is blank: the sum of its stripped lengths is zero. */
  predicate BlankRow(r: seq<String>)
  {
    forall i :: 0 <= i < |r| ==> IsBlank(r[i])
  }

  /**
   * The rows kept after the blank ones are dropped, in order, each with its position among
   * the sheet's data rows.
   */
  function KeptRows(rows: seq<seq<String>>, w: nat): (kept: seq<(nat, seq<String>)>)
    ensures |kept| <= |rows|
    ensures forall k :: 0 <= k < |kept| ==> kept[k].0 < |rows| && |kept[k].1| == w
  {
    if rows == [] then []
    else
      var i := |rows| - 1;
      var prev := KeptRows(rows[..i], w);
      var p := Padded(rows[i], w);
      if BlankRow(p) then prev else prev + [(i, p)]
  }

  /** Every kept row is a non-blank row of the sheet, unchanged, at the position it records. */
  lemma {:induction false} KeptRowsSource(rows: seq<seq<String>>, w: nat)
    ensures forall k :: 0 <= k < |KeptRows(rows, w)| ==>
      KeptRows(rows, w)[k].1 == Padded(rows[KeptRows(rows, w)[k].0], w) && !BlankRow(KeptRows(rows, w)[k].1)
  {
    if rows != [] {
      var i := |rows| - 1;
      var init := rows[..i];
      KeptRowsSource(init, w);
      var prev := KeptRows(init, w);
      forall k | 0 <= k < |prev|
        ensures rows[prev[k].0] == init[prev[k].0]
      {
      }
    }
  }

  /** The kept rows stay in sheet order. */
  lemma {:induction false} KeptRowsOrdered(rows: seq<seq<String>>, w: nat)
    ensures forall k, l :: 0 <= k < l < |KeptRows(rows, w)| ==> KeptRows(rows, w)[k].0 < KeptRows(rows, w)[l].0
  {
    if rows != [] {
      KeptRowsOrdered(rows[..|rows| - 1], w);
    }
  }

  /** No non-blank row is lost: each one is kept, and this is its place among the kept rows. */
  lemma {:induction false} KeptRowIndex(rows: seq<seq<String>>, w: nat, i: nat) returns (k: nat)
    requires i < |rows| && !BlankRow(Padded(rows[i], w))
    ensures k < |KeptRows(rows, w)| && KeptRows(rows, w)[k].0 == i
  {
    var n := |rows| - 1;
    var init := rows[..n];
    if i < n {
      assert rows[i] == init[i];
      k := KeptRowIndex(init, w, i);
    } else {
      k := |KeptRows(init, w)|;
    }
  }

  // ---------------------------------------------------------------- row numbers

  /**
   * The row number written into `_fila_original` as the source computes it:
   * `range(2, len(sheet_df) + 2)`, assigned after the blank rows are gone, so it counts kept
   * rows rather than spreadsheet rows.
   */
  function FilaNumbersAsWritten(kept: seq<(nat, seq<String>)>): (filas: seq<nat>)
    ensures |filas| == |kept|
  {
    seq(|kept|, k requires 0 <= k < |kept| => k + 2)
  }

  /**
   * The row number as intended: the row's place in the spreadsheet, where the header is row
   * 1 and the first data row is row 2.
   */
  function FilaNumbers(kept: seq<(nat, seq<String>)>): (filas: seq<nat>)
    ensures |filas| == |kept|
  {
    seq(|kept|, k requires 0 <= k < |kept| => kept[k].0 + 2)
  }

  /**
   * As written, a blank first data row shifts every later label: the only guest row of this
   * sheet sits in spreadsheet row 3, yet it is numbered 2, and row 2 of the sheet is the blank one.
   */
  lemma FilaAsWrittenMisnumbers()
    ensures var rows := [[""], ["12345678"]];
      var kept := KeptRows(rows, 1);
      |kept| == 1 && FilaNumbersAsWritten(kept)[0] == 2 && BlankRow(Padded(rows[2 - 2], 1))
      && kept[0].1 == Padded(rows[3 - 2], 1)
  {
    var rows: seq<seq<String>> := [[""], ["12345678"]];
    assert rows[..1] == [[""]];
    assert rows[..1][..0] == [];
    assert Padded(rows[0], 1) == [""];
    assert BlankRow(Padded(rows[0], 1));
    assert Padded(rows[1], 1) == ["12345678"];
    assert !IsSpace(Padded(rows[1], 1)[0][0]);
  }

  /** With the intended numbering, the number in a row's tag leads back to that very spreadsheet row. */
  lemma FilaNumbersLocateRow(rows: seq<seq<String>>, w: nat, k: nat)
    requires k < |KeptRows(rows, w)|
    ensures var n := FilaNumbers(KeptRows(rows, w))[k];
      2 <= n < |rows| + 2 && KeptRows(rows, w)[k].1 == Padded(rows[n - 2], w)
      && DigitsValue(NatToString(n)) == n
  {
    KeptRowsSource(rows, w);
    NatToStringRoundTrip(FilaNumbers(KeptRows(rows, w))[k]);
  }

  // ---------------------------------------------------------------- tagging

  /** `df[name] = ...` on the header row: a new column goes last, an existing one stays put. */
  function WithHeader(hs: seq<String>, name: String): seq<String>
  {
    if name in hs then hs else hs + [name]
  }

  /** `df[name] = v` on one row: every column of that name takes `v`, or a new last cell does. */
  function WithValue(hs: seq<String>, vals: seq<String>, name: String, v: String): (r: seq<String>)
    requires |vals| == |hs|
    ensures |r| == |WithHeader(hs, name)|
  {
    if name in hs then seq(|hs|, i requires 0 <= i < |hs| => if hs[i] == name then v else vals[i])
    else vals + [v]
  }

  /** After the assignment, the column holds the new value and every other column is unchanged. */
  lemma WithValueLookup(hs: seq<String>, vals: seq<String>, name: String, v: String, h: String)
    requires |vals| == |hs|
    ensures ValueOf(WithHeader(hs, name), WithValue(hs, vals, name, v), h) == if h == name then v else ValueOf(hs, vals, h)
  {
    var hs2 := WithHeader(hs, name);
    HeaderIndexSpec(hs, h);
    HeaderIndexSpec(hs2, h);
    if name !in hs {
      if h in hs {
        HeaderIndexAt(hs2, h, HeaderIndex(hs, h));
      } else if h == name {
        HeaderIndexAt(hs2, h, |hs|);
      }
    }
  }

  /** The headers of a prepared sheet: its renamed headers, then the two tag columns. */
  function TagHeaders(hs: seq<String>): seq<String>
  {
    WithHeader(WithHeader(hs, HojaColumn), FilaColumn)
  }

  /** One kept row with its sheet name and row number written in. */
  function TagRow(hs: seq<String>, vals: seq<String>, name: String, fila: nat): (r: seq<String>)
    requires |vals| == |hs|
    ensures |r| == |TagHeaders(hs)|
  {
    WithValue(WithHeader(hs, HojaColumn), WithValue(hs, vals, HojaColumn, name), FilaColumn, NatToString(fila))
  }

  /** A tagged row carries its sheet name, its row number, and otherwise the cells it had. */
  lemma TagRowLookup(hs: seq<String>, vals: seq<String>, name: String, fila: nat, h: String)
    requires |vals| == |hs|
    ensures ValueOf(TagHeaders(hs), TagRow(hs, vals, name, fila), h) ==
      if h == FilaColumn then NatToString(fila)
      else if h == HojaColumn then name
      else ValueOf(hs, vals, h)
  {
    WithValueLookup(hs, vals, HojaColumn, name, h);
    WithValueLookup(WithHeader(hs, HojaColumn), WithValue(hs, vals, HojaColumn, name), FilaColumn, NatToString(fila), h);
  }

  /** The sheet's rows, each tagged with the sheet name and its row number. */
  function TagRows(hs: seq<String>, kept: seq<(nat, seq<String>)>, name: String, filas: seq<nat>): (r: seq<seq<String>>)
    requires |filas| == |kept|
    requires forall k :: 0 <= k < |kept| ==> |kept[k].1| == |hs|
    ensures |r| == |kept|
  {
    seq(|kept|, k requires 0 <= k < |kept| => TagRow(hs, kept[k].1, name, filas[k]))
  }

  // ---------------------------------------------------------------- one sheet

  /**
   * One sheet of the loop in `_read_file`: nothing when it is empty or only has blank rows;
   * otherwise the sheet with cleaned and renamed headers, its kept rows tagged, and its
   * mapping.
   */
  function PrepareSheet(s: Sheet, ignorar: seq<String>, config: Config): Option<Frame>
  {
    if |s.rows| == 0 || |s.headers| == 0 then None
    else
      var hs := CleanHeaders(s.headers);
      var kept := KeptRows(s.rows, |s.headers|);
      if kept == [] then None
      else
        var m := AutoMap(DataColumns(hs), ignorar, config);
        Some(Frame(s.name, TagHeaders(RenameAll(hs, m)), TagRows(RenameAll(hs, m), kept, s.name, FilaNumbersAsWritten(kept)), m))
  }

  /** A sheet is used exactly when it has a header row and at least one non-blank row. */
  lemma PrepareSheetUsed(s: Sheet, ignorar: seq<String>, config: Config)
    ensures PrepareSheet(s, ignorar, config).Some? <==>
      |s.headers| > 0 && exists i :: 0 <= i < |s.rows| && !BlankRow(Padded(s.rows[i], |s.headers|))
  {
    var w := |s.headers|;
    var kept := KeptRows(s.rows, w);
    KeptRowsSource(s.rows, w);
    if kept != [] {
      assert !BlankRow(Padded(s.rows[kept[0].0], w));
    }
    if exists i :: 0 <= i < |s.rows| && !BlankRow(Padded(s.rows[i], w)) {
      var i :| 0 <= i < |s.rows| && !BlankRow(Padded(s.rows[i], w));
      var k := KeptRowIndex(s.rows, w, i);
    }
  }

  /** A used sheet is mapped on its own cleaned headers, without the `_` columns. */
  lemma PrepareSheetMapping(s: Sheet, ignorar: seq<String>, config: Config)
    requires PrepareSheet(s, ignorar, config).Some?
    ensures PrepareSheet(s, ignorar, config).value.mapping == AutoMap(DataColumns(CleanHeaders(s.headers)), ignorar, config)
  {
  }

  /** Every kept row of a used sheet carries the sheet name and its place among the kept rows, plus two. */
  lemma TaggedRowOf(s: Sheet, m: map<String, String>, k: nat)
    requires k < |KeptRows(s.rows, |s.headers|)|
    ensures var hs := RenameAll(CleanHeaders(s.headers), m);
      var kept := KeptRows(s.rows, |s.headers|);
      var r := TagRows(hs, kept, s.name, FilaNumbersAsWritten(kept));
      ValueOf(TagHeaders(hs), r[k], HojaColumn) == s.name
      && ValueOf(TagHeaders(hs), r[k], FilaColumn) == NatToString(k + 2)
  {
    TagRowsAt(RenameAll(CleanHeaders(s.headers), m), KeptRows(s.rows, |s.headers|), s.name, k);
  }

  /** The `k`-th tagged row carries the sheet name and the number `k + 2`. */
  lemma TagRowsAt(hs: seq<String>, kept: seq<(nat, seq<String>)>, name: String, k: nat)
    requires forall j :: 0 <= j < |kept| ==> |kept[j].1| == |hs|
    requires k < |kept|
    ensures var r := TagRows(hs, kept, name, FilaNumbersAsWritten(kept));
      ValueOf(TagHeaders(hs), r[k], HojaColumn) == name
      && ValueOf(TagHeaders(hs), r[k], FilaColumn) == NatToString(k + 2)
  {
    var r := TagRows(hs, kept, name, FilaNumbersAsWritten(kept));
    assert r[k] == TagRow(hs, kept[k].1, name, k + 2);
    assert HojaColumn[1] != FilaColumn[1];
    TagRowLookup(hs, kept[k].1, name, k + 2, HojaColumn);
    TagRowLookup(hs, kept[k].1, name, k + 2, FilaColumn);
  }

  /** A used sheet is its kept rows tagged, under its renamed headers and the tag columns. */
  lemma PrepareSheetShape(s: Sheet, ignorar: seq<String>, config: Config)
    requires PrepareSheet(s, ignorar, config).Some?
    ensures var f := PrepareSheet(s, ignorar, config).value;
      var hs := RenameAll(CleanHeaders(s.headers), f.mapping);
      var kept := KeptRows(s.rows, |s.headers|);
      f.name == s.name && f.headers == TagHeaders(hs) && f.rows == TagRows(hs, kept, s.name, FilaNumbersAsWritten(kept))
  {
  }

  /**
   * Every row of a used sheet carries the sheet name and, as written, its place among the
   * kept rows plus two, which is its spreadsheet row only when no blank row came before it.
   */
  lemma PreparedRowTags(s: Sheet, ignorar: seq<String>, config: Config, k: nat)
    requires PrepareSheet(s, ignorar, config).Some? && k < |PrepareSheet(s, ignorar, config).value.rows|
    ensures var f := PrepareSheet(s, ignorar, config).value;
      var kept := KeptRows(s.rows, |s.headers|);
      k < |kept| && HojaColumn in f.headers && FilaColumn in f.headers
      && ValueOf(f.headers, f.rows[k], HojaColumn) == s.name
      && ValueOf(f.headers, f.rows[k], FilaColumn) == NatToString(k + 2)
  {
    var f := PrepareSheet(s, ignorar, config).value;
    PrepareSheetShape(s, ignorar, config);
    TaggedRowOf(s, f.mapping, k);
    TagHeadersHaveTags(RenameAll(CleanHeaders(s.headers), f.mapping));
  }

  /** The tag columns are columns of every prepared sheet. */
  lemma TagHeadersHaveTags(hs: seq<String>)
    ensures HojaColumn in TagHeaders(hs) && FilaColumn in TagHeaders(hs)
  {
  }

  // ---------------------------------------------------------------- all sheets

  /** `frames`: the prepared sheets, in processing order. */
  function Frames(sheets: seq<Sheet>, ignorar: seq<String>, config: Config): seq<Frame>
  {
    if sheets == [] then []
    else
      var prev := Frames(sheets[..|sheets| - 1], ignorar, config);
      match PrepareSheet(sheets[|sheets| - 1], ignorar, config)
      case None => prev
      case Some(f) => prev + [f]
  }

  /** Every prepared sheet comes from a processed sheet, so it has its tag columns. */
  lemma {:induction false} FramesPrepared(sheets: seq<Sheet>, ignorar: seq<String>, config: Config, j: nat)
    returns (i: nat)
    requires j < |Frames(sheets, ignorar, config)|
    ensures i < |sheets| && PrepareSheet(sheets[i], ignorar, config) == Some(Frames(sheets, ignorar, config)[j])
  {
    var n := |sheets| - 1;
    var init := sheets[..n];
    var prev := Frames(init, ignorar, config);
    if j < |prev| {
      i := FramesPrepared(init, ignorar, config, j);
      assert sheets[i] == init[i];
    } else {
      i := n;
    }
  }

  /** `all_mappings`, updated sheet after sheet: a later sheet's binding of a column wins. */
  function ColumnMapOf(frames: seq<Frame>): map<String, String>
  {
    if frames == [] then map[]
    else ColumnMapOf(frames[..|frames| - 1]) + frames[|frames| - 1].mapping
  }

  /** Every binding of the combined mapping comes from the last sheet that mapped that column. */
  lemma {:induction false} ColumnMapOfLast(frames: seq<Frame>, c: String)
    ensures c in ColumnMapOf(frames) <==> exists i :: 0 <= i < |frames| && c in frames[i].mapping
    ensures c in ColumnMapOf(frames) ==>
      exists i :: 0 <= i < |frames| && c in frames[i].mapping && ColumnMapOf(frames)[c] == frames[i].mapping[c]
        && forall j :: i < j < |frames| ==> c !in frames[j].mapping
  {
    if frames != [] {
      var n := |frames| - 1;
      var init := frames[..n];
      ColumnMapOfLast(init, c);
      if c in frames[n].mapping {
        assert ColumnMapOf(frames)[c] == frames[n].mapping[c];
      } else if c in ColumnMapOf(init) {
        var i :| 0 <= i < |init| && c in init[i].mapping && ColumnMapOf(init)[c] == init[i].mapping[c]
          && forall j :: i < j < |init| ==> c !in init[j].mapping;
        assert frames[i] == init[i];
        forall j | i < j < |frames|
          ensures c !in frames[j].mapping
        {
          if j < n { assert frames[j] == init[j]; }
        }
      } else {
        forall i | 0 <= i < |frames|
          ensures c !in frames[i].mapping
        {
          if i < n { assert frames[i] == init[i]; }
        }
      }
    }
  }

  /** `_sheet_names`: the name of every prepared sheet. */
  function NamesOf(frames: seq<Frame>): (r: seq<String>)
    ensures |r| == |frames| && forall i :: 0 <= i < |frames| ==> r[i] == frames[i].name
  {
    seq(|frames|, i requires 0 <= i < |frames| => frames[i].name)
  }

  /** `list(all_sheets.keys())`: the name of every sheet of the workbook. */
  function BookNames(book: seq<Sheet>): (r: seq<String>)
    ensures |r| == |book| && forall i :: 0 <= i < |book| ==> r[i] == book[i].name
  {
    seq(|book|, i requires 0 <= i < |book| => book[i].name)
  }

  // ---------------------------------------------------------------- the preview copy

  /** The column `_read_file` inserts in front of each sheet's preview copy. */
  const PreviewSheetColumn: String := "Hoja"

  /** pandas' `ValueError` when `insert` meets a column of the same name. */
  const InsertHojaMsg: String := "cannot insert Hoja, already exists"

  const ReadFailedPrefix: String := "No se pudo leer el archivo: "

  /** The `ValueError` `_read_file` raises in place of any exception inside it. */
  function ReadFailedMsg(e: String): (r: String)
    ensures StartsWith(r, ReadFailedPrefix) && r[|ReadFailedPrefix|..] == e
  {
    ReadFailedPrefix + e
  }

  /** A character with case, over ASCII and Latin-1 letters. */
  predicate Cased(c: char)
  {
    'A' <= c <= 'Z' || 'a' <= c <= 'z' || ('\U{C0}' <= c <= '\U{FF}' && c != '\U{D7}' && c != '\U{F7}')
  }

  /** `title()` over the rest of a text, given whether the character before it had case. */
  function TitleFrom(s: String, afterCased: bool): (r: String)
    ensures |r| == |s|
  {
    if s == [] then []
    else [if afterCased then LowerChar(s[0]) else UpperChar(s[0])] + TitleFrom(s[1..], Cased(s[0]))
  }

  /**
   * `s.title()`: a character after one with case is lower-cased, any other is upper-cased
   * (over ASCII, as `upper()`).
   */
  function TitleCase(s: String): (r: String)
    ensures |r| == |s|
  {
    TitleFrom(s, false)
  }

  /** A text title-cases to `Hoja` exactly when it is `hoja` in any mix of cases. */
  lemma TitleCaseHoja(t: String)
    ensures TitleCase(t) == PreviewSheetColumn <==> |t| == 4 && ToLower(t) == "hoja"
  {
    if |t| == 4 {
      var r := TitleCase(t);
      assert r == [UpperChar(t[0])] + TitleFrom(t[1..], Cased(t[0]));
      var r1 := TitleFrom(t[1..], Cased(t[0]));
      assert r1 == [if Cased(t[0]) then LowerChar(t[1]) else UpperChar(t[1])] + TitleFrom(t[2..], Cased(t[1]));
      var r2 := TitleFrom(t[2..], Cased(t[1]));
      assert r2 == [if Cased(t[1]) then LowerChar(t[2]) else UpperChar(t[2])] + TitleFrom(t[3..], Cased(t[2]));
      var r3 := TitleFrom(t[3..], Cased(t[2]));
      assert r3 == [if Cased(t[2]) then LowerChar(t[3]) else UpperChar(t[3])] + TitleFrom(t[4..], Cased(t[3]));
      assert TitleFrom(t[4..], Cased(t[3])) == [];
      assert r == [r[0], r1[0], r2[0], r3[0]];
      assert ToLower(t) == [LowerChar(t[0]), LowerChar(t[1]), LowerChar(t[2]), LowerChar(t[3])];
    }
  }

  /** `str(c).replace("_", " ").strip().title()`: a column's title in the preview copy. */
  function PreviewTitle(c: String): String
  {
    TitleCase(Strip(ReplaceChar(c, '_', ' ')))
  }

  /** `raw_cols`: a cleaned header goes into the preview copy unless internal or on the stoplist. */
  predicate PreviewColumn(c: String, ignorarNorm: seq<String>)
  {
    !(|c| > 0 && c[0] == '_') && !Ignored(c, ignorarNorm)
  }

  /** A column of the preview copy is titled like the column inserted in front of it. */
  predicate PreviewClash(hs: seq<String>, ignorarNorm: seq<String>)
  {
    exists c :: c in hs && PreviewColumn(c, ignorarNorm) && PreviewTitle(c) == PreviewSheetColumn
  }

  /**
   * The preview copy of a sheet with data raises: `raw_copy.insert(0, "Hoja", ...)` refuses
   * the column `Hoja` the renaming has already made.
   */
  predicate SheetRaises(s: Sheet, ignorar: seq<String>, config: Config)
  {
    PrepareSheet(s, ignorar, config).Some? && PreviewClash(CleanHeaders(s.headers), NormalizeAll(ignorar))
  }

  /** Some sheet of the loop raises; the message is the same whichever it is. */
  predicate ReadRaises(sheets: seq<Sheet>, ignorar: seq<String>, config: Config)
  {
    exists i :: 0 <= i < |sheets| && SheetRaises(sheets[i], ignorar, config)
  }

  /** One more sheet raises exactly when it or an earlier one does. */
  lemma ReadRaisesSnoc(sheets: seq<Sheet>, n: nat, ignorar: seq<String>, config: Config)
    requires n < |sheets|
    ensures ReadRaises(sheets[..n + 1], ignorar, config) <==>
      ReadRaises(sheets[..n], ignorar, config) || SheetRaises(sheets[n], ignorar, config)
  {
    var p := s => SheetRaises(s, ignorar, config);
    AnyOfSnoc(sheets, n, p);
    assert ReadRaises(sheets[..n + 1], ignorar, config) == AnyOf(sheets[..n + 1], p);
    assert ReadRaises(sheets[..n], ignorar, config) == AnyOf(sheets[..n], p);
  }

  /** Some element of `xs` has `p`. */
  predicate AnyOf<T>(xs: seq<T>, p: T -> bool)
  {
    exists i :: 0 <= i < |xs| && p(xs[i])
  }

  /** Some element of `xs[..n + 1]` has `p` exactly when one of `xs[..n]` or `xs[n]` does. */
  lemma AnyOfSnoc<T>(xs: seq<T>, n: nat, p: T -> bool)
    requires n < |xs|
    ensures AnyOf(xs[..n + 1], p) <==> AnyOf(xs[..n], p) || p(xs[n])
  {
    var pre, pre1 := xs[..n], xs[..n + 1];
    if AnyOf(pre, p) {
      var j :| 0 <= j < |pre| && p(pre[j]);
      assert pre1[j] == pre[j];
    }
    if AnyOf(pre1, p) && !p(xs[n]) {
      var j :| 0 <= j < |pre1| && p(pre1[j]);
      assert j < n && pre[j] == pre1[j];
    }
    assert pre1[n] == xs[n];
  }

  /**
   * A sheet with a non-blank row and a column whose cleaned header is `hoja` raises, unless
   * the stoplist holds `hoja`.
   */
  lemma HojaHeaderRaises(s: Sheet, ignorar: seq<String>, config: Config, j: nat, i: nat)
    requires j < |s.headers| && CleanHeader(s.headers[j]) == "hoja"
    requires !Ignored("hoja", NormalizeAll(ignorar))
    requires i < |s.rows| && !BlankRow(Padded(s.rows[i], |s.headers|))
    ensures SheetRaises(s, ignorar, config)
  {
    PrepareSheetUsed(s, ignorar, config);
    var c := CleanHeaders(s.headers)[j];
    PreviewTitleOfHoja(c);
    assert PreviewColumn(c, NormalizeAll(ignorar));
  }

  /** The cleaned header `hoja` is titled `Hoja` in the preview copy. */
  lemma PreviewTitleOfHoja(c: String)
    requires c == "hoja"
    ensures PreviewTitle(c) == PreviewSheetColumn
  {
    assert ReplaceChar(c, '_', ' ') == c;
    assert Trimmed(c);
    StripOfTrimmed(c);
    TitleCaseHoja(c);
    assert ToLower(c) == c;
  }

  // ---------------------------------------------------------------- stacking the sheets

  /** The headers of `hs` not yet in `u`, added in order. */
  function AddHeaders(u: seq<String>, hs: seq<String>): seq<String>
  {
    if hs == [] then u else WithHeader(AddHeaders(u, hs[..|hs| - 1]), hs[|hs| - 1])
  }

  /** The column set of `pd.concat(frames, sort=False)`: every header, in order of first appearance. */
  function UnionHeaders(frames: seq<Frame>): seq<String>
  {
    if frames == [] then [] else AddHeaders(UnionHeaders(frames[..|frames| - 1]), frames[|frames| - 1].headers)
  }

  /** Adding headers keeps those already there and takes in the new ones. */
  lemma {:induction false} AddHeadersMembers(u: seq<String>, hs: seq<String>, h: String)
    ensures h in AddHeaders(u, hs) <==> h in u || h in hs
  {
    if hs != [] {
      var init := hs[..|hs| - 1];
      AddHeadersMembers(u, init, h);
      assert hs == init + [hs[|hs| - 1]];
    }
  }

  /** Every column of every sheet is a column of the stacked table, and no other is. */
  lemma {:induction false} UnionHeadersMembers(frames: seq<Frame>, h: String)
    ensures h in UnionHeaders(frames) <==> exists i :: 0 <= i < |frames| && h in frames[i].headers
  {
    if frames != [] {
      var n := |frames| - 1;
      var init := frames[..n];
      UnionHeadersMembers(init, h);
      AddHeadersMembers(UnionHeaders(init), frames[n].headers, h);
      if exists i :: 0 <= i < |frames| && h in frames[i].headers {
        var i :| 0 <= i < |frames| && h in frames[i].headers;
        if i < n { assert frames[i] == init[i]; }
      }
      if exists i :: 0 <= i < |init| && h in init[i].headers {
        var i :| 0 <= i < |init| && h in init[i].headers;
        assert frames[i] == init[i];
      }
    }
  }

  /**
   * A sheet row laid out on the columns of the stacked table; a column the sheet lacks is
   * filled with `""` by `fillna("")`.
   */
  function Aligned(u: seq<String>, hs: seq<String>, vals: seq<String>): (row: Row)
    ensures |row| == |u|
  {
    seq(|u|, i requires 0 <= i < |u| => (u[i], ValueOf(hs, vals, u[i])))
  }

  /** Looking a column up in a laid-out row finds the sheet's own cell, or `""` for a column only other sheets have. */
  lemma AlignedCell(u: seq<String>, hs: seq<String>, vals: seq<String>, h: String)
    requires h in u
    ensures Cell(Aligned(u, hs, vals), h) == Some(ValueOf(hs, vals, h))
  {
    var row := Aligned(u, hs, vals);
    HeaderIndexSpec(u, h);
    var k := HeaderIndex(u, h);
    CellIsFirst(row, h);
    assert row[k].0 == h;
    var i :| 0 <= i < |row| && row[i] == (h, Cell(row, h).value) && forall j :: 0 <= j < i ==> row[j].0 != h;
    forall j | 0 <= j < i
      ensures u[j] != h
    {
      assert row[j].0 == u[j];
    }
    HeaderIndexAt(u, h, i);
  }

  /** The rows of one sheet in the stacked table. */
  function FrameRows(u: seq<String>, f: Frame): (rows: seq<Row>)
    ensures |rows| == |f.rows|
  {
    seq(|f.rows|, k requires 0 <= k < |f.rows| => Aligned(u, f.headers, f.rows[k]))
  }

  /** The stacked rows of `frames` on the columns `u`, sheet after sheet. */
  function Stack(u: seq<String>, frames: seq<Frame>): seq<Row>
  {
    if frames == [] then [] else Stack(u, frames[..|frames| - 1]) + FrameRows(u, frames[|frames| - 1])
  }

  /** `pd.concat(frames, ignore_index=True, sort=False).fillna("")`. */
  function Combined(frames: seq<Frame>): seq<Row>
  {
    Stack(UnionHeaders(frames), frames)
  }

  /** The number of rows over all sheets. */
  function RowTotal(frames: seq<Frame>): nat
  {
    if frames == [] then 0 else RowTotal(frames[..|frames| - 1]) + |frames[|frames| - 1].rows|
  }

  /** The stacked table has one row per kept row of every sheet. */
  lemma {:induction false} StackLength(u: seq<String>, frames: seq<Frame>)
    ensures |Stack(u, frames)| == RowTotal(frames)
  {
    if frames != [] {
      StackLength(u, frames[..|frames| - 1]);
    }
  }

  /** The rows before sheet `i` are at most all the rows. */
  lemma {:induction false} RowTotalPrefix(frames: seq<Frame>, i: nat)
    requires i < |frames|
    ensures RowTotal(frames[..i]) + |frames[i].rows| <= RowTotal(frames)
  {
    var n := |frames| - 1;
    if i < n {
      var init := frames[..n];
      RowTotalPrefix(init, i);
      assert init[..i] == frames[..i] && init[i] == frames[i];
    } else {
      assert frames[..i] == frames[..n];
    }
  }

  /** Row `k` of sheet `i` follows the rows of the sheets before it. */
  lemma {:induction false} StackRowAt(u: seq<String>, frames: seq<Frame>, i: nat, k: nat)
    requires i < |frames| && k < |frames[i].rows|
    ensures RowTotal(frames[..i]) + k < |Stack(u, frames)|
    ensures Stack(u, frames)[RowTotal(frames[..i]) + k] == Aligned(u, frames[i].headers, frames[i].rows[k])
  {
    var n := |frames| - 1;
    var init := frames[..n];
    StackLength(u, frames);
    StackLength(u, init);
    RowTotalPrefix(frames, i);
    assert Stack(u, frames) == Stack(u, init) + FrameRows(u, frames[n]);
    if i < n {
      StackRowAt(u, init, i, k);
      assert init[..i] == frames[..i] && init[i] == frames[i];
    } else {
      assert frames[..i] == init;
    }
  }

  /**
   * Every row of the stacked table carries its sheet's name in `_hoja_origen` and, in
   * `_fila_original`, the row number it was tagged with.
   */
  lemma CombinedTags(frames: seq<Frame>, i: nat, k: nat)
    requires i < |frames| && k < |frames[i].rows|
    requires HojaColumn in frames[i].headers && FilaColumn in frames[i].headers
    ensures var u := UnionHeaders(frames);
      RowTotal(frames[..i]) + k < |Combined(frames)|
      && Cell(Combined(frames)[RowTotal(frames[..i]) + k], HojaColumn) == Some(ValueOf(frames[i].headers, frames[i].rows[k], HojaColumn))
      && Cell(Combined(frames)[RowTotal(frames[..i]) + k], FilaColumn) == Some(ValueOf(frames[i].headers, frames[i].rows[k], FilaColumn))
  {
    var u := UnionHeaders(frames);
    StackRowAt(u, frames, i, k);
    UnionHeadersMembers(frames, HojaColumn);
    UnionHeadersMembers(frames, FilaColumn);
    AlignedCell(u, frames[i].headers, frames[i].rows[k], HojaColumn);
    AlignedCell(u, frames[i].headers, frames[i].rows[k], FilaColumn);
  }

  /**
   * Each row of the stacked table comes from a used sheet and carries, in its tag columns,
   * that sheet's name and its place among that sheet's kept rows plus two.
   */
  lemma StackedRowTags(sheets: seq<Sheet>, ignorar: seq<String>, config: Config, i: nat, k: nat)
    returns (s: Sheet)
    requires i < |Frames(sheets, ignorar, config)| && k < |Frames(sheets, ignorar, config)[i].rows|
    ensures s in sheets && PrepareSheet(s, ignorar, config) == Some(Frames(sheets, ignorar, config)[i])
    ensures var frames := Frames(sheets, ignorar, config);
      var idx := RowTotal(frames[..i]) + k;
      var kept := KeptRows(s.rows, |s.headers|);
      idx < |Combined(frames)| && k < |kept|
      && Cell(Combined(frames)[idx], HojaColumn) == Some(s.name)
      && Cell(Combined(frames)[idx], FilaColumn) == Some(NatToString(k + 2))
  {
    var frames := Frames(sheets, ignorar, config);
    var j := FramesPrepared(sheets, ignorar, config, i);
    s := sheets[j];
    PreparedRowTags(s, ignorar, config, k);
    CombinedTags(frames, i, k);
  }
}
