/**
 * The fixed text of the statements `EstadiaDAO.buscar_completa` (`models/estadia.py`)
 * builds, and its table of advanced filters, with the fact that none of that text holds a
 * `?` placeholder of its own.
 */
module Consultas {
  import opened Text
  import opened Sql

  // ---------------------------------------------------------------- statement text

  const BaseFrom: String := "FROM estadias e "
  const BaseJoin: String := "JOIN personas p ON e.persona_id = p.id "
  const BaseActive: String := "WHERE e.activo = 1 AND p.activo = 1"

  /** The FROM/WHERE part every search starts with: active stays of active persons. */
  const BaseClause: String := BaseFrom + BaseJoin + BaseActive

  const CountHead: String := "SELECT COUNT(*) as total "

  const DataCols1: String := "SELECT e.*, p.apellido, p.nombre, "
  const DataCols2: String := "p.dni, p.pasaporte, p.nacionalidad, "
  const DataCols3: String := "p.procedencia, p.fecha_nacimiento, "
  const DataCols4: String := "p.profesion, p.telefono "

  /** The SELECT list of the page statement: the stay and the person's columns. */
  const DataHead: String := DataCols1 + DataCols2 + DataCols3 + DataCols4

  const PageHead: String := " ORDER BY e.fecha_entrada DESC LIMIT "

  /** The page clause, with the placeholders for the page size and the offset. */
  const PageTail: String := PageHead + "?" + " OFFSET " + "?"

  /** What opens the group of conditions. */
  const GroupOpen: String := " AND ("

  lemma BaseFromJoinClean()
    ensures '?' !in BaseFrom && '?' !in BaseJoin
  {
  }

  lemma BaseActiveClean()
    ensures '?' !in BaseActive
  {
  }

  lemma DataColsClean()
    ensures '?' !in DataCols1 && '?' !in DataCols2
  {
  }

  lemma DataColsTailClean()
    ensures '?' !in DataCols3 && '?' !in DataCols4
  {
  }

  lemma PagePartsClean()
    ensures '?' !in PageHead && '?' !in " OFFSET " && '?' !in GroupOpen
  {
  }

  lemma CountHeadClean()
    ensures '?' !in CountHead
  {
  }

  lemma PageTailMarks()
    requires '?' !in PageHead && '?' !in " OFFSET "
    ensures Marks(PageTail) == 2
  {
    NoMarks(PageHead);
    NoMarks(" OFFSET ");
    MarksAppend(PageHead, "?");
    MarksAppend(PageHead + "?", " OFFSET ");
    MarksAppend(PageHead + "?" + " OFFSET ", "?");
  }

  /** `base` once conditions are added: the conditions' text `j` inside one group. */
  function Grouped(j: String): String
  {
    BaseClause + GroupOpen + j + ")"
  }

  /** `f"SELECT COUNT(*) as total {base}"`. */
  function CountQuery(base: String): String
  {
    CountHead + base
  }

  /** The page statement around `base`, ordered by entry date, newest first. */
  function DataQuery(base: String): String
  {
    DataHead + base + PageTail
  }

  /** Text with no placeholder on either side of `j` adds none to it. */
  lemma {:induction false} FramedMarks(a: String, j: String, b: String)
    requires Marks(a) == 0 && Marks(b) == 0
    ensures Marks(a + j + b) == Marks(j)
  {
    MarksAppend(a, j);
    MarksAppend(a + j, b);
  }

  lemma BaseClauseMarks()
    ensures Marks(BaseClause) == 0
  {
    BaseFromJoinClean();
    BaseActiveClean();
    NoMarks(BaseClause);
  }

  lemma DataHeadMarks()
    ensures Marks(DataHead) == 0
  {
    DataColsClean();
    DataColsTailClean();
    NoMarks(DataHead);
  }

  /** Without conditions `base` has no placeholder; with them, exactly those of the conditions' text. */
  lemma GroupedMarks(j: String)
    ensures Marks(BaseClause) == 0
    ensures Marks(Grouped(j)) == Marks(j)
  {
    BaseClauseMarks();
    PagePartsClean();
    NoMarks(GroupOpen);
    MarksAppend(BaseClause, GroupOpen);
    NoMarks(")");
    FramedMarks(BaseClause + GroupOpen, j, ")");
  }

  /** The COUNT statement has the placeholders of `base`; the page statement two more. */
  lemma QueryMarks(base: String)
    ensures Marks(CountQuery(base)) == Marks(base)
    ensures Marks(DataQuery(base)) == Marks(base) + 2
  {
    CountHeadClean();
    NoMarks(CountHead);
    MarksAppend(CountHead, base);
    DataHeadMarks();
    PagePartsClean();
    PageTailMarks();
    MarksAppend(DataHead + base, PageTail);
    MarksAppend(DataHead, base);
  }

  // ---------------------------------------------------------------- the advanced filters

  /** How a filter turns its value into the parameter. */
  datatype ParamKind =
    | AsText   // `str(v)`
    | AsIs     // `v`
    | Contains // `f"%{v}%"`
    | AsInt    // `int(v)`

  /** One advanced filter: its key in `filtros`, the column and operator it compares with. */
  datatype Filter = Filter(key: String, column: String, op: String, kind: ParamKind)

  const FechaDesde: Filter := Filter("fecha_desde", "e.fecha_entrada", ">=", AsText)
  const FechaHasta: Filter := Filter("fecha_hasta", "e.fecha_entrada", "<=", AsText)
  const Nacionalidad: Filter := Filter("nacionalidad", "p.nacionalidad", "=", AsIs)
  const Procedencia: Filter := Filter("procedencia", "p.procedencia", "LIKE", Contains)
  const Establecimiento: Filter := Filter("establecimiento", "e.establecimiento", "LIKE", Contains)
  const Apellido: Filter := Filter("apellido", "p.apellido", "LIKE", Contains)
  const Nombre: Filter := Filter("nombre", "p.nombre", "LIKE", Contains)
  const EdadMin: Filter := Filter("edad_min", "e.edad", ">=", AsInt)
  const EdadMax: Filter := Filter("edad_max", "e.edad", "<=", AsInt)

  /** The nine filters, in the order `buscar_completa` tests them. */
  const Filters: seq<Filter> := [FechaDesde, FechaHasta, Nacionalidad, Procedencia, Establecimiento, Apellido, Nombre, EdadMin, EdadMax]

  /** A filter whose column and operator hold no placeholder. */
  predicate Clean(f: Filter)
  {
    '?' !in f.column && '?' !in f.op
  }

  lemma DateFiltersClean()
    ensures Clean(FechaDesde) && Clean(FechaHasta)
  {
  }

  lemma PlaceFiltersClean()
    ensures Clean(Nacionalidad) && Clean(Procedencia) && Clean(Establecimiento)
  {
  }

  lemma NameFiltersClean()
    ensures Clean(Apellido) && Clean(Nombre)
  {
  }

  lemma AgeFiltersClean()
    ensures Clean(EdadMin) && Clean(EdadMax)
  {
  }

  lemma FiltersClean()
    ensures forall f :: f in Filters ==> Clean(f)
  {
    DateFiltersClean();
    PlaceFiltersClean();
    NameFiltersClean();
    AgeFiltersClean();
  }
}
