/**
 * The in-memory table the job works on after collecting the Spark data: an ordered list of
 * named columns, every column holding one cell per row. Column names need not be unique,
 * as in a pandas DataFrame.
 */
module Frames {
  import opened Wrappers

  /** One cell of the table: the values a CSV column is read as, or the job writes. */
  datatype Cell = IntCell(i: int) | RealCell(r: real) | TextCell(s: string) | NullCell

  datatype Column = Column(name: string, cells: seq<Cell>)

  datatype Frame = Frame(columns: seq<Column>, rowCount: nat)

  /** Every column holds exactly one cell per row. */
  predicate WellFormed(f: Frame) {
    forall j | 0 <= j < |f.columns| :: |f.columns[j].cells| == f.rowCount
  }

  /** The column labels in table order. */
  function Names(f: Frame): (names: seq<string>)
    ensures |names| == |f.columns|
    ensures forall j | 0 <= j < |f.columns| :: names[j] == f.columns[j].name
  {
    seq(|f.columns|, j requires 0 <= j < |f.columns| => f.columns[j].name)
  }

  /** The position of the first occurrence of `x` in `s`. */
  function FirstIndex<T(==)>(s: seq<T>, x: T): (k: nat)
    requires x in s
    ensures k < |s| && s[k] == x
    ensures forall j | 0 <= j < k :: s[j] != x
  {
    if s[0] == x then 0 else 1 + FirstIndex(s[1..], x)
  }

  /** The cells of the first column labelled `name`, if there is one. */
  function Lookup(f: Frame, name: string): (r: Option<seq<Cell>>)
    ensures r.Some? <==> name in Names(f)
  {
    var names := Names(f);
    if name in names then Some(f.columns[FirstIndex(names, name)].cells) else None
  }

  /**
   * pandas' `frame[name] = cells`: when a column is labelled `name` its cells are replaced
   * where it stands (every such column, when the label is repeated); otherwise a new column
   * is appended at the right. pandas raises ValueError on a length mismatch; `FitsTable`
   * rules it out for the job.
   */
  function SetColumn(f: Frame, name: string, cells: seq<Cell>): (g: Frame)
    requires |cells| == f.rowCount
    ensures g.rowCount == f.rowCount
    ensures WellFormed(f) ==> WellFormed(g)
    ensures name in Names(f) ==> Names(g) == Names(f)
    ensures |g.columns| >= |f.columns|
    ensures forall j | 0 <= j < |f.columns| && f.columns[j].name == name :: g.columns[j] == Column(name, cells)
    ensures name !in Names(f) ==> g.columns == f.columns + [Column(name, cells)]
    ensures name !in Names(f) ==> Names(g) == Names(f) + [name]
    ensures forall n :: n in Names(g) <==> n in Names(f) || n == name
    ensures forall j | 0 <= j < |f.columns| && f.columns[j].name != name :: g.columns[j] == f.columns[j]
  {
    if name in Names(f) then
      var replaced := seq(|f.columns|, j requires 0 <= j < |f.columns| =>
        if f.columns[j].name == name then Column(name, cells) else f.columns[j]);
      Frame(replaced, f.rowCount)
    else
      Frame(f.columns + [Column(name, cells)], f.rowCount)
  }

  /** Reading a column back right after setting it gives the cells just written. */
  lemma LookupAfterSet(f: Frame, name: string, cells: seq<Cell>)
    requires |cells| == f.rowCount
    ensures Lookup(SetColumn(f, name, cells), name) == Some(cells)
  {
    var g := SetColumn(f, name, cells);
    if name !in Names(f) {
      assert Names(g)[|f.columns|] == name;
    }
    var k := FirstIndex(Names(g), name);
    assert g.columns[k].name == name;
  }

  /** Setting one column leaves every differently named column as it was. */
  lemma LookupOtherAfterSet(f: Frame, name: string, cells: seq<Cell>, other: string)
    requires |cells| == f.rowCount
    requires other != name
    ensures Lookup(SetColumn(f, name, cells), other) == Lookup(f, other)
  {
    var g := SetColumn(f, name, cells);
    if other in Names(f) {
      var k := FirstIndex(Names(f), other);
      assert Names(g)[k] == other;
      assert forall j | 0 <= j < k :: Names(g)[j] != other;
      assert FirstIndex(Names(g), other) == k by {
        FirstIndexUnique(Names(g), other, k);
      }
    } else {
      assert other !in Names(g);
    }
  }

  /** Assigning a column twice is assigning it once with the later cells. */
  lemma SetColumnTwice(f: Frame, name: string, first: seq<Cell>, second: seq<Cell>)
    requires |first| == f.rowCount && |second| == f.rowCount
    ensures SetColumn(SetColumn(f, name, first), name, second) == SetColumn(f, name, second)
  {
    var g := SetColumn(f, name, first);
    assert name in Names(g);
    if name !in Names(f) {
      assert Names(g)[|f.columns|] == name;
    }
  }

  /** The first occurrence is the only position with `x` and none before it. */
  lemma {:induction false} FirstIndexUnique<T>(s: seq<T>, x: T, k: nat)
    requires k < |s| && s[k] == x
    requires forall j | 0 <= j < k :: s[j] != x
    ensures FirstIndex(s, x) == k
  {
    if k > 0 {
      assert s[1..][k - 1] == x;
      FirstIndexUnique(s[1..], x, k - 1);
    }
  }
}
