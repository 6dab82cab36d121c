/** Value wrappers and the column-of-cells shape shared by both survey scripts. */
module Common {

  /** `None` stands for a missing value (pandas' NaN). */
  datatype Option<+T> = None | Some(value: T)

  /** The outcome of a step that may raise. */
  datatype Result<+T, +E> = Success(value: T) | Failure(error: E)

  /** The outcome of a step that changes state and may raise. */
  datatype Outcome<+E> = Pass | Fail(error: E)

  /** One named column of a spreadsheet: its header and its cells, top to bottom. */
  datatype Column<C> = Column(name: string, cells: seq<C>)

  /** The headers of a sequence of columns, in order. */
  function Names<C>(cols: seq<Column<C>>): (r: seq<string>)
    ensures |r| == |cols|
    ensures forall i :: 0 <= i < |cols| ==> r[i] == cols[i].name
  {
    seq(|cols|, i requires 0 <= i < |cols| => cols[i].name)
  }

  /** The position of the first column with header `name`, if any. */
  function Find<C>(cols: seq<Column<C>>, name: string): (r: Option<nat>)
    ensures r.None? ==> forall i :: 0 <= i < |cols| ==> cols[i].name != name
    ensures r.Some? ==> r.value < |cols| && cols[r.value].name == name
    ensures r.Some? ==> forall i :: 0 <= i < r.value ==> cols[i].name != name
  {
    if cols == [] then None
    else if cols[0].name == name then Some(0)
    else match Find(cols[1..], name)
      case None => None
      case Some(k) => Some(k + 1)
  }

  lemma FindPresent<C>(cols: seq<Column<C>>, name: string)
    ensures Find(cols, name).Some? <==> name in Names(cols)
  {
    if name in Names(cols) {
      var i :| 0 <= i < |cols| && Names(cols)[i] == name;
      assert cols[i].name == name;
    }
  }

  /** The cells of the first column named `name`; empty when there is none. */
  function CellsOf<C>(cols: seq<Column<C>>, name: string): (r: seq<C>)
    ensures Find(cols, name).Some? ==> r == cols[Find(cols, name).value].cells
  {
    match Find(cols, name)
    case None => []
    case Some(k) => cols[k].cells
  }

  /** No header occurs twice (what the spreadsheet loader guarantees by renaming duplicates). */
  ghost predicate DistinctNames<C>(cols: seq<Column<C>>)
  {
    forall i, j :: 0 <= i < j < |cols| ==> cols[i].name != cols[j].name
  }

  /** The required names missing from `present`, in required order. */
  function Absent(required: seq<string>, present: seq<string>): (r: seq<string>)
    ensures forall a :: a in r <==> a in required && a !in present
    ensures IsSubsequence(r, required)
  {
    if required == [] then []
    else if required[0] in present then Absent(required[1..], present)
    else [required[0]] + Absent(required[1..], present)
  }

  /** `a` is `b` with some elements left out, the rest kept in order. */
  ghost predicate IsSubsequence(a: seq<string>, b: seq<string>)
    decreases |b|
  {
    if a == [] then true
    else if b == [] then false
    else if a[0] == b[0] then IsSubsequence(a[1..], b[1..])
    else IsSubsequence(a, b[1..])
  }

  lemma {:induction false} NoneAbsent(required: seq<string>, present: seq<string>)
    requires forall q :: 0 <= q < |required| ==> required[q] in present
    ensures Absent(required, present) == []
  {
    if required != [] {
      assert required[0] in present;
      NoneAbsent(required[1..], present);
    }
  }

  /** Columns with the same headers in the same order are searched alike. */
  lemma {:induction false} FindSameNames<C, D>(a: seq<Column<C>>, b: seq<Column<D>>, name: string)
    requires Names(a) == Names(b)
    ensures Find(a, name) == Find(b, name)
  {
    if a != [] {
      assert a[0].name == Names(a)[0] == Names(b)[0] == b[0].name;
      assert Names(a[1..]) == Names(a)[1..];
      assert Names(b[1..]) == Names(b)[1..];
      FindSameNames(a[1..], b[1..], name);
    }
  }
}
