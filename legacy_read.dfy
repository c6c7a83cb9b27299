/**
 * `leer_archivo` of the earlier importer embedded in `_rebuild_phase2.py`, past the point
 * where the workbook has been read into a frame: the empty and oversized checks, then the
 * removal of blank rows and of unnamed columns.
 */
module LegacyRead {
  import opened Base
  import opened Text
  import opened Numerals
  import opened LegacyValues
  import opened LegacyRows
  import ImportConfig

  /** A frame as `pd.read_excel` leaves it: the header's column names and one row per data row. */
  datatype Frame = Frame(columns: seq<String>, rows: seq<Row>)

  const VacioMsg: String := "El archivo Excel está vacío"

  function ExcedeMsg(): String
  {
    "El archivo excede el máximo de " + NatToString(ImportConfig.MaxImportRows) + " filas"
  }

  /** A row `dropna(how="all")` removes: every one of its cells is `NaN`. */
  predicate AllNan(row: Row)
  {
    forall col :: col in row ==> row[col].Nan?
  }

  /** A column `str.startswith("Unnamed")` removes: pandas' name for a header cell left empty. */
  predicate Unnamed(col: String)
  {
    StartsWith(col, "Unnamed")
  }

  /** `dropna(how="all")`: the rows with some cell that is not `NaN`, in their order. */
  function DropNa(rows: seq<Row>): (r: seq<Row>)
    ensures |r| <= |rows|
    ensures forall i :: 0 <= i < |r| ==> !AllNan(r[i])
  {
    if rows == [] then []
    else
      var n := |rows| - 1;
      DropNa(rows[..n]) + (if AllNan(rows[n]) then [] else [rows[n]])
  }

  /** The positions in the read frame of the rows `dropna` keeps. */
  function Kept(rows: seq<Row>): seq<nat>
  {
    if rows == [] then []
    else
      var n := |rows| - 1;
      Kept(rows[..n]) + (if AllNan(rows[n]) then [] else [n])
  }

  /**
   * The `i`-th row left by `dropna` is the row of the read frame at position `Kept(rows)[i]`,
   * and those positions strictly increase: `dropna` keeps the order.
   */
  lemma {:induction false} KeptLocates(rows: seq<Row>)
    ensures |Kept(rows)| == |DropNa(rows)|
    ensures forall i :: 0 <= i < |Kept(rows)| ==> Kept(rows)[i] < |rows| && DropNa(rows)[i] == rows[Kept(rows)[i]]
    ensures forall i, j :: 0 <= i < j < |Kept(rows)| ==> Kept(rows)[i] < Kept(rows)[j]
  {
    if rows != [] {
      var n := |rows| - 1;
      KeptLocates(rows[..n]);
      forall i | 0 <= i < |Kept(rows[..n])|
        ensures rows[..n][Kept(rows[..n])[i]] == rows[Kept(rows[..n])[i]]
      {
      }
    }
  }

  /** A row that is not all `NaN` is kept at some position. */
  lemma {:induction false} KeptKeeps(rows: seq<Row>, k: nat)
    requires k < |rows| && !AllNan(rows[k])
    ensures k in Kept(rows)
  {
    var n := |rows| - 1;
    if k < n {
      assert rows[..n][k] == rows[k];
      KeptKeeps(rows[..n], k);
    }
  }

  /** The column names that do not start with `Unnamed`, in their order. */
  function KeepNamed(cols: seq<String>): (r: seq<String>)
    ensures forall col :: col in r <==> col in cols && !Unnamed(col)
  {
    if cols == [] then []
    else
      var n := |cols| - 1;
      assert cols == cols[..n] + [cols[n]];
      KeepNamed(cols[..n]) + (if Unnamed(cols[n]) then [] else [cols[n]])
  }

  /** A row's cells without those of the unnamed columns. */
  function DropUnnamed(row: Row): (r: Row)
    ensures forall col :: col in r <==> col in row && !Unnamed(col)
    ensures forall col :: col in r ==> r[col] == row[col]
  {
    map col | col in row && !Unnamed(col) :: row[col]
  }

  /**
   * `leer_archivo(filepath)` once the frame is read: an empty frame and one of more than
   * 10000 rows raise; otherwise the blank rows go, the rest are renumbered from 0, and the
   * unnamed columns go.
   */
  function LeerArchivo(f: Frame): Result<Frame>
  {
    if |f.columns| == 0 || |f.rows| == 0 then Err(VacioMsg)
    else if |f.rows| > ImportConfig.MaxImportRows then Err(ExcedeMsg())
    else
      var kept := DropNa(f.rows);
      Ok(Frame(KeepNamed(f.columns), seq(|kept|, i requires 0 <= i < |kept| => DropUnnamed(kept[i]))))
  }

  /**
   * The file is refused exactly when the frame has no column or no row, or more than 10000
   * rows counted before the blank ones go; each case with its message.
   */
  lemma LeerArchivoErrors(f: Frame)
    ensures LeerArchivo(f).Err? <==> |f.columns| == 0 || |f.rows| == 0 || |f.rows| > ImportConfig.MaxImportRows
    ensures LeerArchivo(f) == Err(VacioMsg) <==> |f.columns| == 0 || |f.rows| == 0
    ensures LeerArchivo(f) == Err(ExcedeMsg()) <==> |f.columns| > 0 && 0 < |f.rows| && |f.rows| > ImportConfig.MaxImportRows
  {
    assert VacioMsg[3] == 'a' && ExcedeMsg()[3] == 'a';
    assert VacioMsg[11] == 'E' && ExcedeMsg()[11] == 'e';
  }

  /**
   * A frame that is read back has no unnamed column, in its header or in any row, and no
   * more rows than the file; its `i`-th row is the read frame's row `Kept(f.rows)[i]`, which
   * had a cell that was not `NaN`, without its unnamed columns.
   */
  lemma LeerArchivoClean(f: Frame)
    requires LeerArchivo(f).Ok?
    ensures var g := LeerArchivo(f).value;
      && (forall col :: col in g.columns <==> col in f.columns && !Unnamed(col))
      && |g.rows| == |Kept(f.rows)| <= |f.rows| <= ImportConfig.MaxImportRows
      && (forall i :: 0 <= i < |g.rows| ==>
            && Kept(f.rows)[i] < |f.rows| && !AllNan(f.rows[Kept(f.rows)[i]])
            && g.rows[i] == DropUnnamed(f.rows[Kept(f.rows)[i]])
            && (forall col :: col in g.rows[i] ==> !Unnamed(col)))
  {
    KeptLocates(f.rows);
  }

  /** Every row of the file with a cell that is not `NaN` is read back, in order. */
  lemma LeerArchivoKeepsRows(f: Frame, k: nat) returns (i: nat)
    requires LeerArchivo(f).Ok? && k < |f.rows| && !AllNan(f.rows[k])
    ensures i < |Kept(f.rows)| && i < |LeerArchivo(f).value.rows|
    ensures Kept(f.rows)[i] == k && LeerArchivo(f).value.rows[i] == DropUnnamed(f.rows[k])
  {
    KeptKeeps(f.rows, k);
    KeptLocates(f.rows);
    i :| 0 <= i < |Kept(f.rows)| && Kept(f.rows)[i] == k;
  }

  /**
   * The spreadsheet row of position `k` of the read frame: row 1 is the header. This is the
   * number `procesar_dataframe` means by `idx + 2`.
   */
  function SheetRow(k: nat): nat { k + 2 }

  /**
   * As written, `procesar_dataframe` numbers the rows left by `leer_archivo`, which
   * `reset_index(drop=True)` renumbered after the blank rows went: with a blank row above
   * it, the row of spreadsheet row 3 is reported as row 2.
   */
  lemma FilaAfterBlankRowMisnumbered(cols: seq<String>, blank: Row, row: Row)
    requires cols != [] && AllNan(blank) && !AllNan(row)
    ensures var g := LeerArchivo(Frame(cols, [blank, row]));
      && g.Ok? && g.value.rows == [DropUnnamed(row)] && Kept([blank, row]) == [1]
      && FilaNum(0) == 2 && SheetRow(Kept([blank, row])[0]) == 3
  {
    var rows := [blank, row];
    assert rows[..1] == [blank];
    assert [blank][..0] == [];
    assert DropNa(rows) == [row];
    assert Kept(rows[..1]) == [] by {
      assert Kept(rows[..1][..0]) == [];
    }
  }

  /** The spreadsheet row of the `i`-th row `leer_archivo` returns. */
  function FilaLeida(f: Frame, i: nat): nat
    requires i < |Kept(f.rows)|
  {
    SheetRow(Kept(f.rows)[i])
  }

  /**
   * Numbered with `FilaLeida`, each row `leer_archivo` returns points back at the
   * spreadsheet row it came from, and the numbers increase along the frame.
   */
  lemma FilaLeidaLocatesRow(f: Frame, i: nat)
    requires LeerArchivo(f).Ok? && i < |LeerArchivo(f).value.rows|
    ensures |Kept(f.rows)| == |LeerArchivo(f).value.rows|
    ensures 2 <= FilaLeida(f, i) < |f.rows| + 2
    ensures LeerArchivo(f).value.rows[i] == DropUnnamed(f.rows[FilaLeida(f, i) - 2])
    ensures forall j :: i < j < |LeerArchivo(f).value.rows| ==> FilaLeida(f, i) < FilaLeida(f, j)
  {
    KeptLocates(f.rows);
  }
}
