/**
 * `ExcelParser.parse` and `ExcelParser._read_file` (`utils/excel_parser.py`): the sheets of a
 * workbook are prepared and stacked, the table is cut at `MAX_IMPORT_ROWS`, and every row is
 * processed and sorted into valid rows, per-row errors, in-file duplicates and skipped rows.
 */
module ExcelBatch {
  import opened Base
  import opened Text
  import opened Numerals
  import opened Dates
  import opened HeaderNormalize
  import opened HeaderMapping
  import opened ImportConfig
  import opened ExcelRow
  import opened ExcelRowMethod
  import opened ExcelSheets

  /** `{"row": row_label, "error": str(e)}`. */
  datatype RowError = RowError(row: String, error: String)

  /** `{"row": row_label, **data}`. */
  datatype Duplicate = Duplicate(row: String, data: Record)

  /** What the loop learns about one row: its label, its sheet and what `_process_row` made of it. */
  datatype Item = Item(rowLabel: String, hoja: String, outcome: Outcome)

  // ---------------------------------------------------------------- one row

  /** `f"Hoja '{hoja}' fila {fila}" if hoja else f"Fila {fila}"`. */
  function RowLabel(hoja: String, fila: String): String
  {
    if hoja != "" then "Hoja '" + hoja + "' fila " + fila else "Fila " + fila
  }

  /** `row.get("_hoja_origen", "")`. */
  function HojaOf(row: Row): String
  {
    match Cell(row, HojaColumn)
    case Some(h) => h
    case None => ""
  }

  /** `row.get("_fila_original", int(idx) + 2)`. */
  function FilaOf(row: Row, idx: nat): String
  {
    match Cell(row, FilaColumn)
    case Some(f) => f
    case None => NatToString(idx + 2)
  }

  function ItemOf(row: Row, idx: nat, today: Date, toDatetime: String -> Option<Date>): Item
  {
    Item(RowLabel(HojaOf(row), FilaOf(row, idx)), HojaOf(row), ProcessRow(row, today, toDatetime))
  }

  function ItemsOf(rows: seq<Row>, today: Date, toDatetime: String -> Option<Date>): (items: seq<Item>)
    ensures |items| == |rows|
  {
    seq(|rows|, i requires 0 <= i < |rows| => ItemOf(rows[i], i, today, toDatetime))
  }

  /** `data["_hoja_origen"] = hoja` when the row names a sheet. */
  function Tagged(data: Record, hoja: String): Record
  {
    if hoja != "" then data[HojaOrigen := Str(hoja)] else data
  }

  /** The text of a document field, `""` when it is missing. */
  function DocText(data: Record, f: Field): String
  {
    if f in data && data[f].Str? then data[f].s else ""
  }

  /**
   * `data.get("dni") or data.get("pasaporte") or ""`. Document fields always hold text
   * (`ExcelRow.AcceptedShape`).
   */
  function DocKey(data: Record): String
  {
    if DocText(data, Dni) != "" then DocText(data, Dni) else DocText(data, Pasaporte)
  }

  /** Adding the sheet name leaves the document key alone. */
  lemma TaggedKey(data: Record, hoja: String)
    ensures DocKey(Tagged(data, hoja)) == DocKey(data)
  {
  }

  // ---------------------------------------------------------------- the loop as a fold

  /** The loop's accumulators: `valid_rows`, `errors`, `duplicates`, `skipped` and `seen_docs`. */
  datatype Tally = Tally(valid: seq<Record>, errors: seq<RowError>, duplicates: seq<Duplicate>, skipped: nat, seen: set<String>)

  /** One pass of the loop body. */
  function StepTally(t: Tally, it: Item): Tally
  {
    match it.outcome
    case Skip => t.(skipped := t.skipped + 1)
    case Failure(msg) => t.(errors := t.errors + [RowError(it.rowLabel, msg)])
    case Accepted(d) =>
      var data := Tagged(d, it.hoja);
      var key := DocKey(data);
      if key != "" && key in t.seen then t.(duplicates := t.duplicates + [Duplicate(it.rowLabel, data)])
      else AddValid(t, data)
  }

  /** A row whose document was not seen before: it is valid and its non-empty key is now seen. */
  function AddValid(t: Tally, data: Record): Tally
  {
    var key := DocKey(data);
    t.(seen := if key != "" then t.seen + {key} else t.seen, valid := t.valid + [data])
  }

  /** The accumulators after the loop has run over `items`. */
  function TallyOf(items: seq<Item>): Tally
  {
    if items == [] then Tally([], [], [], 0, {})
    else StepTally(TallyOf(items[..|items| - 1]), items[|items| - 1])
  }

  /** Every row ends up in exactly one of the four outcomes. */
  lemma {:induction false} TallyCounts(items: seq<Item>)
    ensures var t := TallyOf(items);
      |t.valid| + |t.errors| + |t.duplicates| + t.skipped == |items|
  {
    if items != [] {
      TallyCounts(items[..|items| - 1]);
    }
  }

  // ---------------------------------------------------------------- a reference for the fold

  /** The document key of an accepted row, after the sheet tag; `""` for every other outcome. */
  function AcceptedKey(it: Item): String
  {
    if it.outcome.Accepted? then DocKey(Tagged(it.outcome.data, it.hoja)) else ""
  }

  /** An accepted row without a key, or the first accepted row with its key. */
  predicate FirstOfKey(prev: seq<Item>, it: Item)
  {
    it.outcome.Accepted?
    && (AcceptedKey(it) == "" || forall j :: 0 <= j < |prev| ==> AcceptedKey(prev[j]) != AcceptedKey(it))
  }

  /** The records of the rows that are first with their key. */
  function Firsts(items: seq<Item>): seq<Record>
  {
    if items == [] then []
    else
      var it := items[|items| - 1];
      var prev := items[..|items| - 1];
      Firsts(prev) + (if FirstOfKey(prev, it) then [Tagged(it.outcome.data, it.hoja)] else [])
  }

  /** The accepted rows whose key an earlier accepted row already had. */
  function Repeats(items: seq<Item>): seq<Duplicate>
  {
    if items == [] then []
    else
      var it := items[|items| - 1];
      var prev := items[..|items| - 1];
      Repeats(prev) + (if it.outcome.Accepted? && !FirstOfKey(prev, it) then [Duplicate(it.rowLabel, Tagged(it.outcome.data, it.hoja))] else [])
  }

  /** The rows `_process_row` rejected, with their messages. */
  function Failures(items: seq<Item>): seq<RowError>
  {
    if items == [] then []
    else
      var it := items[|items| - 1];
      Failures(items[..|items| - 1]) + (if it.outcome.Failure? then [RowError(it.rowLabel, it.outcome.msg)] else [])
  }

  /** The number of rows `_process_row` skipped. */
  function Skips(items: seq<Item>): nat
  {
    if items == [] then 0
    else Skips(items[..|items| - 1]) + (if items[|items| - 1].outcome.Skip? then 1 else 0)
  }

  /** The non-empty keys of the accepted rows. */
  function KeysOf(items: seq<Item>): set<String>
  {
    if items == [] then {}
    else
      var key := AcceptedKey(items[|items| - 1]);
      KeysOf(items[..|items| - 1]) + (if key != "" then {key} else {})
  }

  /** A key has been seen exactly when some accepted row carried it. */
  lemma {:induction false} KeysOfMembers(items: seq<Item>, key: String)
    ensures key in KeysOf(items) <==> key != "" && exists j :: 0 <= j < |items| && AcceptedKey(items[j]) == key
  {
    if items != [] {
      var n := |items| - 1;
      var prev := items[..n];
      KeysOfMembers(prev, key);
      if exists j :: 0 <= j < |items| && AcceptedKey(items[j]) == key {
        var j :| 0 <= j < |items| && AcceptedKey(items[j]) == key;
        if j < n { assert items[j] == prev[j]; }
      }
      if exists j :: 0 <= j < |prev| && AcceptedKey(prev[j]) == key {
        var j :| 0 <= j < |prev| && AcceptedKey(prev[j]) == key;
        assert items[j] == prev[j];
      }
    }
  }

  /**
   * The loop's lists are the reference lists: the valid rows are the first rows with each
   * key (and every row without one), the duplicates are the later rows with a key already
   * taken, and `seen_docs` is the set of keys of accepted rows.
   */
  lemma {:induction false} TallyMatchesReference(items: seq<Item>)
    ensures TallyOf(items) == Tally(Firsts(items), Failures(items), Repeats(items), Skips(items), KeysOf(items))
  {
    if items != [] {
      var n := |items| - 1;
      var prev := items[..n];
      var it := items[n];
      TallyMatchesReference(prev);
      if it.outcome.Accepted? {
        FirstOfKeyIff(prev, it);
      }
    }
  }

  /** An accepted row is first with its key exactly when it has none or the key was not yet seen. */
  lemma FirstOfKeyIff(prev: seq<Item>, it: Item)
    requires it.outcome.Accepted?
    ensures FirstOfKey(prev, it) <==> AcceptedKey(it) == "" || AcceptedKey(it) !in KeysOf(prev)
  {
    var key := AcceptedKey(it);
    if key != "" {
      KeysOfMembers(prev, key);
    }
  }

  /** The first accepted row with a given key is among the valid rows. */
  lemma FirstOccurrenceValid(items: seq<Item>, i: nat)
    requires i < |items| && FirstOfKey(items[..i], items[i])
    ensures Tagged(items[i].outcome.data, items[i].hoja) in TallyOf(items).valid
  {
    TallyMatchesReference(items);
    FirstsKeep(items, i);
  }

  /** `Firsts` keeps the record of every row that is first with its key. */
  lemma {:induction false} FirstsKeep(items: seq<Item>, i: nat)
    requires i < |items| && FirstOfKey(items[..i], items[i])
    ensures Tagged(items[i].outcome.data, items[i].hoja) in Firsts(items)
  {
    var n := |items| - 1;
    var prev := items[..n];
    if i < n {
      assert prev[..i] == items[..i] && prev[i] == items[i];
      FirstsKeep(prev, i);
    }
  }

  // ---------------------------------------------------------------- what the loop keeps

  /**
   * What holds of the accumulators between passes: every key of a valid row has been seen,
   * every seen key belongs to a valid row, no two valid rows share a key, and every duplicate
   * repeats a seen key.
   */
  predicate TallyInv(t: Tally)
  {
    SeenCovers(t) && SeenBacked(t) && KeysDistinct(t) && DuplicatesSeen(t)
  }

  /** Every non-empty key of a valid row has been seen. */
  predicate SeenCovers(t: Tally)
  {
    forall i :: 0 <= i < |t.valid| && DocKey(t.valid[i]) != "" ==> DocKey(t.valid[i]) in t.seen
  }

  /** Every seen key is non-empty and is the key of a valid row. */
  predicate SeenBacked(t: Tally)
  {
    forall key :: key in t.seen ==> key != "" && exists i :: 0 <= i < |t.valid| && DocKey(t.valid[i]) == key
  }

  /** No two valid rows share a non-empty key. */
  predicate KeysDistinct(t: Tally)
  {
    forall i, j :: 0 <= i < j < |t.valid| && DocKey(t.valid[j]) != "" ==> DocKey(t.valid[i]) != DocKey(t.valid[j])
  }

  /** Every duplicate repeats a seen key. */
  predicate DuplicatesSeen(t: Tally)
  {
    forall d :: 0 <= d < |t.duplicates| ==> DocKey(t.duplicates[d].data) in t.seen
  }

  /** One pass of the loop body keeps the invariant. */
  lemma StepKeepsInv(t: Tally, it: Item)
    requires TallyInv(t)
    ensures TallyInv(StepTally(t, it))
  {
    match it.outcome
    case Skip =>
    case Failure(msg) =>
    case Accepted(d) =>
      var data := Tagged(d, it.hoja);
      var key := DocKey(data);
      if key != "" && key in t.seen {
        var t2 := t.(duplicates := t.duplicates + [Duplicate(it.rowLabel, data)]);
        assert StepTally(t, it) == t2;
        assert DuplicatesSeen(t2) by {
          forall k | 0 <= k < |t2.duplicates|
            ensures DocKey(t2.duplicates[k].data) in t2.seen
          {
            if k < |t.duplicates| {
              assert t2.duplicates[k] == t.duplicates[k];
            }
          }
        }
      } else {
        assert StepTally(t, it) == AddValid(t, data);
        AddValidKeepsInv(t, data);
      }
  }

  /** A row whose document was not seen before joins the valid rows without breaking the invariant. */
  lemma AddValidKeepsInv(t: Tally, data: Record)
    requires TallyInv(t) && !(DocKey(data) != "" && DocKey(data) in t.seen)
    ensures TallyInv(AddValid(t, data))
  {
    AddValidCovers(t, data);
    AddValidBacked(t, data);
    AddValidDistinct(t, data);
    AddValidDuplicates(t, data);
  }

  lemma AddValidCovers(t: Tally, data: Record)
    requires SeenCovers(t)
    ensures SeenCovers(AddValid(t, data))
  {
    var t2 := AddValid(t, data);
    forall i | 0 <= i < |t2.valid| && DocKey(t2.valid[i]) != ""
      ensures DocKey(t2.valid[i]) in t2.seen
    {
      if i < |t.valid| {
        assert t2.valid[i] == t.valid[i];
      }
    }
  }

  lemma AddValidBacked(t: Tally, data: Record)
    requires SeenBacked(t)
    ensures SeenBacked(AddValid(t, data))
  {
    var t2 := AddValid(t, data);
    forall k | k in t2.seen
      ensures k != "" && exists i :: 0 <= i < |t2.valid| && DocKey(t2.valid[i]) == k
    {
      if k in t.seen {
        var i :| 0 <= i < |t.valid| && DocKey(t.valid[i]) == k;
        assert t2.valid[i] == t.valid[i];
      } else {
        assert DocKey(t2.valid[|t.valid|]) == k;
      }
    }
  }

  lemma AddValidDistinct(t: Tally, data: Record)
    requires KeysDistinct(t) && SeenCovers(t) && !(DocKey(data) != "" && DocKey(data) in t.seen)
    ensures KeysDistinct(AddValid(t, data))
  {
    var t2 := AddValid(t, data);
    forall i, j | 0 <= i < j < |t2.valid| && DocKey(t2.valid[j]) != ""
      ensures DocKey(t2.valid[i]) != DocKey(t2.valid[j])
    {
      if j == |t.valid| {
        assert t2.valid[i] == t.valid[i];
      } else {
        assert t2.valid[i] == t.valid[i] && t2.valid[j] == t.valid[j];
      }
    }
  }

  lemma AddValidDuplicates(t: Tally, data: Record)
    requires DuplicatesSeen(t)
    ensures DuplicatesSeen(AddValid(t, data))
  {
  }

  /** The invariant holds after any number of passes. */
  lemma {:induction false} TallyOfInv(items: seq<Item>)
    ensures TallyInv(TallyOf(items))
  {
    if items != [] {
      TallyOfInv(items[..|items| - 1]);
      StepKeepsInv(TallyOf(items[..|items| - 1]), items[|items| - 1]);
    }
  }

  /**
   * No two valid rows share a document key, and every duplicate's key is the key of a valid
   * row: the first occurrence stays valid.
   */
  lemma ValidKeysDistinct(items: seq<Item>)
    ensures var t := TallyOf(items);
      forall i, j :: 0 <= i < j < |t.valid| && DocKey(t.valid[j]) != "" ==> DocKey(t.valid[i]) != DocKey(t.valid[j])
    ensures var t := TallyOf(items);
      forall d :: 0 <= d < |t.duplicates| ==>
        DocKey(t.duplicates[d].data) != "" && exists i :: 0 <= i < |t.valid| && DocKey(t.valid[i]) == DocKey(t.duplicates[d].data)
  {
    var t := TallyOf(items);
    TallyOfInv(items);
    forall d | 0 <= d < |t.duplicates|
      ensures DocKey(t.duplicates[d].data) != "" && exists i :: 0 <= i < |t.valid| && DocKey(t.valid[i]) == DocKey(t.duplicates[d].data)
    {
      DuplicateBacked(t, d);
    }
  }

  /** A duplicate's key is non-empty and belongs to a valid row. */
  lemma DuplicateBacked(t: Tally, d: nat)
    requires TallyInv(t) && d < |t.duplicates|
    ensures DocKey(t.duplicates[d].data) != ""
    ensures exists i :: 0 <= i < |t.valid| && DocKey(t.valid[i]) == DocKey(t.duplicates[d].data)
  {
    assert DocKey(t.duplicates[d].data) in t.seen;
  }

  // ---------------------------------------------------------------- the whole parse

  /** The dictionary `parse` returns: the short one for an empty table, else the full one. */
  datatype ParseResult =
    | EmptyFile
    | Parsed(totalRows: nat, valid: seq<Record>, errors: seq<RowError>, duplicates: seq<Duplicate>, skipped: nat,
             columnMapping: map<String, String>, sheetCount: nat, sheetNames: seq<String>)

  /** `df.head(MAX_IMPORT_ROWS)` when the table is longer. */
  function Truncate(df: seq<Row>): (r: seq<Row>)
    ensures |r| == if |df| > MaxImportRows then MaxImportRows else |df|
  {
    if |df| > MaxImportRows then df[..MaxImportRows] else df
  }

  /** `parse` once `_read_file` has produced the table and set the sheet attributes. */
  function ParseOf(df: seq<Row>, columnMap: map<String, String>, sheetCount: nat, sheetNames: seq<String>,
                   today: Date, toDatetime: String -> Option<Date>): ParseResult
  {
    if df == [] then EmptyFile
    else
      var t := TallyOf(ItemsOf(Truncate(df), today, toDatetime));
      Parsed(|df|, t.valid, t.errors, t.duplicates, t.skipped, columnMap, sheetCount, sheetNames)
  }

  /**
   * An empty table gives the short result; otherwise `total_rows` is the full row count
   * while only the first `MAX_IMPORT_ROWS` rows are accounted for, each exactly once.
   */
  lemma ParseAccounts(df: seq<Row>, columnMap: map<String, String>, sheetCount: nat, sheetNames: seq<String>,
                      today: Date, toDatetime: String -> Option<Date>)
    ensures ParseOf(df, columnMap, sheetCount, sheetNames, today, toDatetime).EmptyFile? <==> df == []
    ensures var r := ParseOf(df, columnMap, sheetCount, sheetNames, today, toDatetime);
      r.Parsed? ==>
        r.totalRows == |df|
        && |r.valid| + |r.errors| + |r.duplicates| + r.skipped == (if |df| > MaxImportRows then MaxImportRows else |df|)
  {
    if df != [] {
      TallyCounts(ItemsOf(Truncate(df), today, toDatetime));
    }
  }

  /**
   * Each row of the stacked workbook is labelled with its sheet and, as written, with its
   * place among that sheet's kept rows plus two.
   */
  lemma LabelOfSheetRow(sheets: seq<Sheet>, ignorar: seq<String>, config: Config, i: nat, k: nat)
    returns (s: Sheet)
    requires i < |Frames(sheets, ignorar, config)| && k < |Frames(sheets, ignorar, config)[i].rows|
    ensures s in sheets && PrepareSheet(s, ignorar, config) == Some(Frames(sheets, ignorar, config)[i])
    ensures var frames := Frames(sheets, ignorar, config);
      var idx := RowTotal(frames[..i]) + k;
      var kept := KeptRows(s.rows, |s.headers|);
      idx < |Combined(frames)| && k < |kept|
      && HojaOf(Combined(frames)[idx]) == s.name
      && FilaOf(Combined(frames)[idx], idx) == NatToString(k + 2)
  {
    s := StackedRowTags(sheets, ignorar, config, i, k);
    var frames := Frames(sheets, ignorar, config);
    var idx := RowTotal(frames[..i]) + k;
    LabelOfTags(Combined(frames)[idx], idx, s.name, NatToString(k + 2));
  }

  /** A row's tag columns give its sheet and its label. */
  lemma LabelOfTags(row: Row, idx: nat, name: String, fila: String)
    requires Cell(row, HojaColumn) == Some(name) && Cell(row, FilaColumn) == Some(fila)
    ensures HojaOf(row) == name && FilaOf(row, idx) == fila
  {
  }

  // ---------------------------------------------------------------- the methods

  /** The row loop of `parse`, over the table already cut to size. */
  method TallyRows(rows: seq<Row>, today: Date, toDatetime: String -> Option<Date>)
    returns (validRows: seq<Record>, errors: seq<RowError>, duplicates: seq<Duplicate>, skipped: nat)
    ensures var t := TallyOf(ItemsOf(rows, today, toDatetime));
      validRows == t.valid && errors == t.errors && duplicates == t.duplicates && skipped == t.skipped
  {
    validRows, errors, duplicates, skipped := [], [], [], 0;
    var seenDocs: set<String> := {};
    ghost var items := ItemsOf(rows, today, toDatetime);
    var idx := 0;
    while idx < |rows|
      invariant 0 <= idx <= |rows|
      invariant Tally(validRows, errors, duplicates, skipped, seenDocs) == TallyOf(items[..idx])
    {
      var it := RowItem(rows[idx], idx, today, toDatetime);
      TallyOfSnoc(items, idx);
      validRows, errors, duplicates, skipped, seenDocs := TallyStep(validRows, errors, duplicates, skipped, seenDocs, it);
      idx := idx + 1;
    }
    assert items[..idx] == items;
  }

  /** One more row through the loop is one more step of the fold. */
  lemma TallyOfSnoc(items: seq<Item>, idx: nat)
    requires idx < |items|
    ensures TallyOf(items[..idx + 1]) == StepTally(TallyOf(items[..idx]), items[idx])
  {
    assert items[..idx + 1][..idx] == items[..idx];
  }

  /** The label, sheet and outcome the loop body computes for one row. */
  method RowItem(row: Row, idx: nat, today: Date, toDatetime: String -> Option<Date>) returns (it: Item)
    ensures it == ItemOf(row, idx, today, toDatetime)
  {
    var hoja := HojaOf(row);
    var rowLabel := RowLabel(hoja, FilaOf(row, idx));
    var outcome := ProcessRowMethod(row, today, toDatetime);
    it := Item(rowLabel, hoja, outcome);
  }

  /** One pass of the loop body: the row is skipped, logged as an error, a duplicate, or valid. */
  method TallyStep(validRows0: seq<Record>, errors0: seq<RowError>, duplicates0: seq<Duplicate>, skipped0: nat,
                   seenDocs0: set<String>, it: Item)
    returns (validRows: seq<Record>, errors: seq<RowError>, duplicates: seq<Duplicate>, skipped: nat, seenDocs: set<String>)
    ensures Tally(validRows, errors, duplicates, skipped, seenDocs) == StepTally(Tally(validRows0, errors0, duplicates0, skipped0, seenDocs0), it)
  {
    validRows, errors, duplicates, skipped, seenDocs := validRows0, errors0, duplicates0, skipped0, seenDocs0;
    match it.outcome {
      case Skip =>
        skipped := skipped + 1;
      case Failure(msg) =>
        errors := errors + [RowError(it.rowLabel, msg)];
      case Accepted(d) =>
        var data := d;
        if it.hoja != "" {
          data := data[HojaOrigen := Str(it.hoja)];
        }
        var docKey := DocKey(data);
        if docKey != "" && docKey in seenDocs {
          duplicates := duplicates + [Duplicate(it.rowLabel, data)];
        } else {
          if docKey != "" {
            seenDocs := seenDocs + {docKey};
          }
          validRows := validRows + [data];
        }
    }
  }

  /** `hojas_a_procesar`, built by the loop over the workbook's sheets. */
  method SelectLoop(book: seq<Sheet>, selected: Option<seq<String>>) returns (hojas: seq<Sheet>)
    ensures hojas == SelectSheets(book, selected)
  {
    if selected.None? {
      return book;
    }
    var selSet := StripAll(selected.value);
    hojas := [];
    var i := 0;
    while i < |book|
      invariant 0 <= i <= |book|
      invariant hojas == Chosen(book[..i], selSet)
    {
      assert book[..i + 1][..i] == book[..i];
      if Strip(book[i].name) in selSet {
        hojas := hojas + [book[i]];
      }
      i := i + 1;
    }
    assert book[..i] == book;
  }

  /**
   * The body of the sheet loop of `_read_file` for one sheet: the sheet prepared, or the
   * error of inserting `Hoja` in front of a preview copy that already has such a column.
   */
  method PrepareSheetStep(s: Sheet, ignorar: seq<String>, config: Config) returns (frame: Result<Option<Frame>>)
    requires FieldsDistinct(config)
    ensures frame == if SheetRaises(s, ignorar, config) then Err(InsertHojaMsg) else Ok(PrepareSheet(s, ignorar, config))
  {
    if |s.rows| == 0 || |s.headers| == 0 {
      return Ok(None);
    }
    var headers := CleanHeaders(s.headers);
    var kept := KeptRows(s.rows, |s.headers|);
    if kept == [] {
      return Ok(None);
    }
    var sheetMap := AutoMapColumns(DataColumns(headers), ignorar, config);
    var clash := PreviewTitles(headers, NormalizeAll(ignorar));
    if clash {
      return Err(InsertHojaMsg);
    }
    var renamed := RenameAll(headers, sheetMap);
    return Ok(Some(Frame(s.name, TagHeaders(renamed), TagRows(renamed, kept, s.name, FilaNumbersAsWritten(kept)), sheetMap)));
  }

  /**
   * `raw_cols` collected and renamed: whether a column of the preview copy is titled `Hoja`,
   * as the one `insert` adds.
   */
  method PreviewTitles(headers: seq<String>, ignorarNorm: seq<String>) returns (clash: bool)
    ensures clash == PreviewClash(headers, ignorarNorm)
  {
    var rawCols: seq<String> := [];
    var k := 0;
    while k < |headers|
      invariant 0 <= k <= |headers|
      invariant forall c :: c in rawCols <==> c in headers[..k] && PreviewColumn(c, ignorarNorm)
    {
      assert headers[..k + 1] == headers[..k] + [headers[k]];
      if PreviewColumn(headers[k], ignorarNorm) {
        rawCols := rawCols + [headers[k]];
      }
      k := k + 1;
    }
    assert headers[..k] == headers;
    var titles := seq(|rawCols|, i requires 0 <= i < |rawCols| => PreviewTitle(rawCols[i]));
    clash := PreviewSheetColumn in titles;
    if clash {
      var i :| 0 <= i < |rawCols| && titles[i] == PreviewSheetColumn;
      assert rawCols[i] in rawCols;
    } else {
      forall c | c in headers && PreviewColumn(c, ignorarNorm)
        ensures PreviewTitle(c) != PreviewSheetColumn
      {
        var i :| 0 <= i < |rawCols| && rawCols[i] == c;
        assert titles[i] == PreviewTitle(c);
      }
    }
  }

  /**
   * The sheet loop of `_read_file`: every used sheet prepared and the mappings merged, or the
   * error of the first sheet whose preview copy cannot take its `Hoja` column.
   */
  method PrepareAll(hojas: seq<Sheet>, ignorar: seq<String>, config: Config)
    returns (prepared: Result<seq<Frame>>, allMappings: map<String, String>)
    requires FieldsDistinct(config)
    ensures prepared == if ReadRaises(hojas, ignorar, config) then Err(InsertHojaMsg) else Ok(Frames(hojas, ignorar, config))
    ensures prepared.Ok? ==> allMappings == ColumnMapOf(prepared.value)
  {
    allMappings := map[];
    var frames := [];
    var i := 0;
    while i < |hojas|
      invariant 0 <= i <= |hojas|
      invariant !ReadRaises(hojas[..i], ignorar, config)
      invariant frames == Frames(hojas[..i], ignorar, config)
      invariant allMappings == ColumnMapOf(frames)
    {
      var frame := PrepareSheetStep(hojas[i], ignorar, config);
      PrepareAllStep(hojas, i, ignorar, config);
      if frame.Err? {
        return Err(frame.msg), allMappings;
      }
      if frame.value.Some? {
        allMappings := allMappings + frame.value.value.mapping;
        frames := frames + [frame.value.value];
        assert frames[..|frames| - 1] == Frames(hojas[..i], ignorar, config);
      }
      i := i + 1;
    }
    assert hojas[..i] == hojas;
    prepared := Ok(frames);
  }

  /** One pass of the sheet loop: a raising sheet makes the loop raise, any other extends the frames. */
  lemma PrepareAllStep(hojas: seq<Sheet>, i: nat, ignorar: seq<String>, config: Config)
    requires i < |hojas|
    ensures SheetRaises(hojas[i], ignorar, config) ==> ReadRaises(hojas, ignorar, config)
    ensures ReadRaises(hojas[..i + 1], ignorar, config) <==>
      ReadRaises(hojas[..i], ignorar, config) || SheetRaises(hojas[i], ignorar, config)
    ensures Frames(hojas[..i + 1], ignorar, config) ==
      match PrepareSheet(hojas[i], ignorar, config)
      case None => Frames(hojas[..i], ignorar, config)
      case Some(f) => Frames(hojas[..i], ignorar, config) + [f]
  {
    ReadRaisesSnoc(hojas, i, ignorar, config);
    FramesSnoc(hojas, i, ignorar, config);
  }

  lemma FramesSnoc(hojas: seq<Sheet>, i: nat, ignorar: seq<String>, config: Config)
    requires i < |hojas|
    ensures Frames(hojas[..i + 1], ignorar, config) ==
      match PrepareSheet(hojas[i], ignorar, config)
      case None => Frames(hojas[..i], ignorar, config)
      case Some(f) => Frames(hojas[..i], ignorar, config) + [f]
  {
    assert hojas[..i + 1][..i] == hojas[..i];
    assert hojas[..i + 1][i] == hojas[i];
  }

  /**
   * A selected sheet with data and a column whose cleaned header is `hoja` (a header `Hoja`
   * or `HOJA`, say) makes the sheet loop raise under the configured stoplist.
   */
  lemma HojaColumnFailsRead(hojas: seq<Sheet>, k: nat, j: nat, i: nat)
    requires k < |hojas|
    requires j < |hojas[k].headers| && CleanHeader(hojas[k].headers[j]) == "hoja"
    requires i < |hojas[k].rows| && !BlankRow(ExcelSheets.Padded(hojas[k].rows[i], |hojas[k].headers|))
    ensures ReadRaises(hojas, ColumnasIgnorar, ColumnasMapeo)
  {
    HojaNotIgnored();
    HojaHeaderRaises(hojas[k], ColumnasIgnorar, ColumnasMapeo, j, i);
  }

  /** The parser of one workbook; `_read_file` sets the sheet attributes `parse` reports. */
  class ExcelParser {
    const selectedSheets: Option<seq<String>>
    var columnMap: map<String, String>
    var sheetCount: nat
    var sheetNames: seq<String>

    constructor (selectedSheets: Option<seq<String>>)
      ensures this.selectedSheets == selectedSheets
      ensures columnMap == map[] && sheetCount == 0 && sheetNames == []
    {
      this.selectedSheets := selectedSheets;
      columnMap := map[];
      sheetCount := 0;
      sheetNames := [];
    }

    /**
     * `_read_file` on a workbook already read: the sheet attributes set from the whole
     * workbook, then the selected sheets prepared one by one, the mappings merged, the sheet
     * attributes set again and the sheets stacked; an exception in the loop leaves the
     * workbook's count and names and becomes `No se pudo leer el archivo: ...`.
     */
    method ReadFile(book: seq<Sheet>, ignorar: seq<String>, config: Config) returns (df: Result<seq<Row>>)
      requires FieldsDistinct(config)
      modifies this
      ensures var hojas := SelectSheets(book, selectedSheets);
        var frames := Frames(hojas, ignorar, config);
        if ReadRaises(hojas, ignorar, config) then
          df == Err(ReadFailedMsg(InsertHojaMsg)) && columnMap == old(columnMap)
          && sheetCount == |book| && sheetNames == BookNames(book)
        else
          df == Ok(Combined(frames)) && columnMap == ColumnMapOf(frames)
          && sheetCount == |frames| && sheetNames == NamesOf(frames)
    {
      sheetCount := |book|;
      sheetNames := BookNames(book);
      var hojas := SelectLoop(book, selectedSheets);
      var prepared, allMappings := PrepareAll(hojas, ignorar, config);
      if prepared.Err? {
        return Err(ReadFailedMsg(prepared.msg));
      }
      var frames := prepared.value;
      columnMap := allMappings;
      sheetCount := |frames|;
      sheetNames := NamesOf(frames);
      if frames == [] {
        return Ok([]);
      }
      df := Ok(Combined(frames));
    }

    /**
     * `parse`: read the workbook, cut the table to size and sort every row; the error of
     * `_read_file` propagates.
     */
    method Parse(book: seq<Sheet>, ignorar: seq<String>, config: Config, today: Date, toDatetime: String -> Option<Date>)
      returns (result: Result<ParseResult>)
      requires FieldsDistinct(config)
      modifies this
      ensures var hojas := SelectSheets(book, selectedSheets);
        var frames := Frames(hojas, ignorar, config);
        if ReadRaises(hojas, ignorar, config) then
          result == Err(ReadFailedMsg(InsertHojaMsg)) && columnMap == old(columnMap)
          && sheetCount == |book| && sheetNames == BookNames(book)
        else
          result == Ok(ParseOf(Combined(frames), ColumnMapOf(frames), |frames|, NamesOf(frames), today, toDatetime))
          && columnMap == ColumnMapOf(frames) && sheetCount == |frames| && sheetNames == NamesOf(frames)
    {
      var read := ReadFile(book, ignorar, config);
      if read.Err? {
        return Err(read.msg);
      }
      var df := read.value;
      if df == [] {
        return Ok(EmptyFile);
      }
      var totalRows := |df|;
      if totalRows > MaxImportRows {
        df := df[..MaxImportRows];
      }
      var validRows, errors, duplicates, skipped := TallyRows(df, today, toDatetime);
      return Ok(Parsed(totalRows, validRows, errors, duplicates, skipped, columnMap, sheetCount, sheetNames));
    }
  }
}
