/** The maturity survey's `preprocess_data`: digit extraction over the answer
    columns, removal of the identifier columns and cleaning of the title
    column, done in place on the loaded sheet. */
module Preprocessing {
  import opened Common
  import opened Text

  /** A cell as its text, or missing (NaN). A number cell is held as the text
      `str()` gives for it. */
  datatype Cell = Str(s: string) | Missing

  /** `str(value)`: a missing cell prints as "nan". */
  function Render(c: Cell): string
  {
    match c
    case Str(s) => s
    case Missing => "nan"
  }

  /** Positions of the answer columns G to O, `df.columns[6:15]`. */
  const AnswerFirst: nat := 6
  const AnswerEnd: nat := 15

  /** The role column, looked up by its exact header. */
  const TitleColumn: string := "What is your current title?"

  /** The one title rewrite done after cleaning. */
  const RewriteFrom: string := "Architecture Models Insights Expert"
  const RewriteTo: string := "Architecture Models & Insights Expert"

  datatype PreprocessError =
    | PositionOutOfRange  // fewer than five columns: `df.columns[[1, 2, 3, 4]]` raises
    | TitleColumnMissing  // no column with header `TitleColumn`: `df[...]` raises
    | TitleColumnNotText  // a title column read as floats (every cell empty): `.str` raises

  // ---------------------------------------------------------------- cells

  /** `astype(str).str.extract(r'(\d+)')` on one cell: the first digit run, or missing. */
  function ExtractDigits(c: Cell): (r: Cell)
    ensures r.Missing? <==> NoDigit(Render(c))
    ensures r.Str? ==> exists i: nat :: IsFirstDigitRun(Render(c), i, r.s)
  {
    match FirstDigitRun(Render(c))
    case Some(d) => Str(d)
    case None => Missing
  }

  /** Extracting again from an extracted cell changes nothing. */
  lemma ExtractDigitsIdempotent(c: Cell)
    ensures ExtractDigits(ExtractDigits(c)) == ExtractDigits(c)
  {
    var r := ExtractDigits(c);
    if r.Str? {
      var i: nat :| IsFirstDigitRun(Render(c), i, r.s);
      DigitsAreOwnRun(r.s);
    } else {
      assert Render(r) == "nan";
      assert NoDigit(Render(r));
    }
  }

  function ExtractCells(cs: seq<Cell>): (r: seq<Cell>)
    ensures |r| == |cs|
  {
    seq(|cs|, k requires 0 <= k < |cs| => ExtractDigits(cs[k]))
  }

  /** The cleaned text of a title: only word characters and whitespace, stripped,
      and then the one exact-match rewrite. */
  function CleanTitleText(s: string): string
  {
    var t := Trim(KeepWordAndSpace(s));
    if t == RewriteFrom then RewriteTo else t
  }

  /** `.str.replace(...).str.strip()` then `.replace({...})` on one cell; a missing cell stays missing. */
  function CleanTitle(c: Cell): (r: Cell)
    ensures r.Missing? <==> c.Missing?
  {
    match c
    case Str(s) => Str(CleanTitleText(s))
    case Missing => Missing
  }

  /** A cleaned title is the rewrite target exactly when the stripped text was the
      rewrite source; any other cleaned title has only word characters and
      whitespace and no whitespace at either end. */
  lemma CleanTitleShape(s: string)
    ensures var t := Trim(KeepWordAndSpace(s));
      && (CleanTitleText(s) == RewriteTo <==> t == RewriteFrom)
      && (CleanTitleText(s) != RewriteTo ==>
            CleanTitleText(s) == t
            && IsTrimmed(t)
            && forall i :: 0 <= i < |t| ==> IsWordChar(t[i]) || IsSpace(t[i]))
  {
    var k := KeepWordAndSpace(s);
    TrimKeepsClass(k, c => IsWordChar(c) || IsSpace(c));
    var t := Trim(k);
    if t == RewriteTo {
      AmpersandInRewriteTo();
      assert false;
    }
  }

  /** The rewrite target holds a character that cleaning always removes: its "&", at position 20. */
  lemma AmpersandInRewriteTo()
    ensures |RewriteTo| > 20 && !IsWordChar(RewriteTo[20]) && !IsSpace(RewriteTo[20])
  {
  }

  /** Cleaning a title twice gives the same result as cleaning it once, unless the
      first pass produced the rewrite target, whose "&" a second pass removes. */
  lemma CleanTitleIdempotent(s: string)
    requires CleanTitleText(s) != RewriteTo
    ensures CleanTitleText(CleanTitleText(s)) == CleanTitleText(s)
  {
    CleanTitleShape(s);
    var t := CleanTitleText(s);
    assert KeepWordAndSpace(t) == t;
    TrimmedIsFixed(t);
  }

  // ---------------------------------------------------------------- columns

  /** The sheet after the digit-extraction loop over `df.columns[6:15]`. */
  function ExtractAnswers(cols: seq<Column<Cell>>): (r: seq<Column<Cell>>)
    ensures |r| == |cols|
    ensures forall i :: 0 <= i < |r| ==> r[i].name == cols[i].name && |r[i].cells| == |cols[i].cells|
    ensures forall i :: 0 <= i < |r| && !(AnswerFirst <= i < AnswerEnd) ==> r[i] == cols[i]
    ensures forall i, k :: AnswerFirst <= i < AnswerEnd && i < |r| && 0 <= k < |r[i].cells| ==>
      r[i].cells[k] == ExtractDigits(cols[i].cells[k])
  {
    seq(|cols|, i requires 0 <= i < |cols| =>
      if AnswerFirst <= i < AnswerEnd then Column(cols[i].name, ExtractCells(cols[i].cells))
      else cols[i])
  }

  /** Running the extraction loop a second time is a no-op. */
  lemma ExtractAnswersIdempotent(cols: seq<Column<Cell>>)
    ensures ExtractAnswers(ExtractAnswers(cols)) == ExtractAnswers(cols)
  {
    var once := ExtractAnswers(cols);
    forall i | AnswerFirst <= i < AnswerEnd && i < |cols|
      ensures ExtractCells(once[i].cells) == once[i].cells
    {
      forall k | 0 <= k < |cols[i].cells|
        ensures ExtractDigits(ExtractDigits(cols[i].cells[k])) == ExtractDigits(cols[i].cells[k])
      {
        ExtractDigitsIdempotent(cols[i].cells[k]);
      }
    }
  }

  /** `df.drop(labels, axis=1)`: every column whose header is one of `labels` goes. */
  function DropLabels(cols: seq<Column<Cell>>, labels: set<string>): (r: seq<Column<Cell>>)
    ensures forall i :: 0 <= i < |r| ==> r[i].name !in labels && r[i] in cols
  {
    if cols == [] then []
    else (if cols[0].name in labels then [] else [cols[0]]) + DropLabels(cols[1..], labels)
  }

  /** Every column whose header is not dropped is kept. */
  lemma {:induction false} DropLabelsKeeps(cols: seq<Column<Cell>>, labels: set<string>)
    ensures forall i :: 0 <= i < |cols| && cols[i].name !in labels ==> cols[i] in DropLabels(cols, labels)
  {
    if cols != [] {
      DropLabelsKeeps(cols[1..], labels);
      forall i | 1 <= i < |cols| ensures cols[i] == cols[1..][i - 1] {
      }
    }
  }

  /** The headers at positions 1 to 4. */
  function IdentifierLabels(cols: seq<Column<Cell>>): set<string>
    requires |cols| >= 5
  {
    {cols[1].name, cols[2].name, cols[3].name, cols[4].name}
  }

  /** The sheet after `df.drop(df.columns[[1, 2, 3, 4]], axis=1)`. */
  function DropIdentifiers(cols: seq<Column<Cell>>): (r: seq<Column<Cell>>)
    requires |cols| >= 5
    ensures forall i :: 0 <= i < |r| ==> r[i] in cols && r[i].name !in IdentifierLabels(cols)
    ensures forall i :: 0 <= i < |cols| && cols[i].name !in IdentifierLabels(cols) ==> cols[i] in r
    ensures cols[0].name !in IdentifierLabels(cols) ==> |r| > 0 && r[0] == cols[0]
  {
    DropLabelsKeeps(cols, IdentifierLabels(cols));
    DropLabels(cols, IdentifierLabels(cols))
  }

  lemma {:induction false} DropLabelsAppend(a: seq<Column<Cell>>, b: seq<Column<Cell>>, labels: set<string>)
    ensures DropLabels(a + b, labels) == DropLabels(a, labels) + DropLabels(b, labels)
  {
    if a == [] {
      assert a + b == b;
    } else {
      var head := if a[0].name in labels then [] else [a[0]];
      assert (a + b)[0] == a[0] && (a + b)[1..] == a[1..] + b;
      DropLabelsAppend(a[1..], b, labels);
      assert DropLabels(a + b, labels) == head + (DropLabels(a[1..], labels) + DropLabels(b, labels));
    }
  }

  lemma {:induction false} DropLabelsNone(cols: seq<Column<Cell>>, labels: set<string>)
    requires forall i :: 0 <= i < |cols| ==> cols[i].name !in labels
    ensures DropLabels(cols, labels) == cols
  {
    if cols != [] {
      DropLabelsNone(cols[1..], labels);
    }
  }

  lemma {:induction false} DropLabelsAll(cols: seq<Column<Cell>>, labels: set<string>)
    requires forall i :: 0 <= i < |cols| ==> cols[i].name in labels
    ensures DropLabels(cols, labels) == []
  {
    if cols != [] {
      DropLabelsAll(cols[1..], labels);
    }
  }

  /** With distinct headers, dropping removes exactly the columns at positions 1 to 4
      and keeps every other column, in order and with its cells. */
  lemma DropIdentifiersPositional(cols: seq<Column<Cell>>)
    requires |cols| >= 5 && DistinctNames(cols)
    ensures DropIdentifiers(cols) == cols[..1] + cols[5..]
    ensures |DropIdentifiers(cols)| == |cols| - 4
  {
    var labels := IdentifierLabels(cols);
    assert cols == cols[..1] + cols[1..5] + cols[5..];
    DropLabelsAppend(cols[..1] + cols[1..5], cols[5..], labels);
    DropLabelsAppend(cols[..1], cols[1..5], labels);
    DropLabelsNone(cols[..1], labels);
    DropLabelsAll(cols[1..5], labels);
    forall i | 0 <= i < |cols[5..]| ensures cols[5..][i].name !in labels {
      assert cols[5..][i] == cols[i + 5];
    }
    DropLabelsNone(cols[5..], labels);
  }

  /** A column with at least one row and no text in it: read from the workbook,
      pandas holds it as floats, and `.str` on it raises. */
  predicate NoTextCells(cells: seq<Cell>)
  {
    |cells| > 0 && forall j :: 0 <= j < |cells| ==> cells[j].Missing?
  }

  /** The title column is one of the answer columns at positions 6 to 14. The
      extraction loop turns those into columns of strings whatever their cells
      hold, and `.str` accepts such a column even when every cell is empty. */
  predicate TitleExtracted(cols: seq<Column<Cell>>)
  {
    match Find(cols, TitleColumn)
    case Some(p) => AnswerFirst <= p < AnswerEnd
    case None => false
  }

  /** The sheet after the title column's cells are cleaned (the column at `k`). */
  function CleanTitleColumn(cols: seq<Column<Cell>>, k: nat): (r: seq<Column<Cell>>)
    requires k < |cols|
    ensures |r| == |cols|
    ensures forall i :: 0 <= i < |r| ==> r[i].name == cols[i].name
  {
    cols[k := Column(cols[k].name, seq(|cols[k].cells|, j requires 0 <= j < |cols[k].cells| => CleanTitle(cols[k].cells[j])))]
  }

  /** What `preprocess_data` leaves: its outcome and the sheet, with the changes
      of the steps before one that raises kept. */
  function PreprocessSheet(cols: seq<Column<Cell>>): (Outcome<PreprocessError>, seq<Column<Cell>>)
  {
    var strings := TitleExtracted(cols);
    var extracted := ExtractAnswers(cols);
    if |extracted| < 5 then (Fail(PositionOutOfRange), extracted)
    else
      var dropped := DropIdentifiers(extracted);
      match Find(dropped, TitleColumn)
      case None => (Fail(TitleColumnMissing), dropped)
      case Some(k) =>
        if NoTextCells(dropped[k].cells) && !strings then (Fail(TitleColumnNotText), dropped)
        else (Pass, CleanTitleColumn(dropped, k))
  }

  /** Preprocessing raises for position out of range exactly when the sheet has
      fewer than five columns, and for a missing title exactly when no column
      left after the drop is the title column; it never raises for an empty
      title column that went through the extraction; only a pass cleans the
      titles. */
  lemma PreprocessSheetFails(cols: seq<Column<Cell>>)
    ensures var (res, after) := PreprocessSheet(cols);
      && (res == Fail(PositionOutOfRange) <==> |cols| < 5)
      && (res == Fail(TitleColumnMissing) <==> |cols| >= 5 && TitleColumn !in Names(DropIdentifiers(ExtractAnswers(cols))))
      && (res == Fail(TitleColumnNotText) ==> !TitleExtracted(cols))
      && (res.Pass? ==> TitleColumn in Names(after))
  {
    var extracted := ExtractAnswers(cols);
    if |extracted| >= 5 {
      var dropped := DropIdentifiers(extracted);
      FindPresent(dropped, TitleColumn);
      if k :| Find(dropped, TitleColumn) == Some(k) {
        assert Names(CleanTitleColumn(dropped, k))[k] == TitleColumn;
      }
    }
  }

  // ---------------------------------------------------------------- the sheet, updated in place

  /** The loaded sheet: its columns in order and its number of rows. */
  class Frame {
    var columns: seq<Column<Cell>>
    var height: nat

    /** Every column holds one cell per row. */
    ghost predicate Valid()
      reads this
    {
      forall i :: 0 <= i < |columns| ==> |columns[i].cells| == height
    }

    constructor (columns: seq<Column<Cell>>, height: nat)
      requires forall i :: 0 <= i < |columns| ==> |columns[i].cells| == height
      ensures Valid() && this.columns == columns && this.height == height
    {
      this.columns := columns;
      this.height := height;
    }

    /** Lines 49-50: each answer column's cells become their first digit run. */
    method ExtractAnswerDigits()
      requires Valid()
      modifies this
      ensures Valid() && height == old(height)
      ensures columns == ExtractAnswers(old(columns))
    {
      var i := AnswerFirst;
      while i < AnswerEnd && i < |columns|
        invariant AnswerFirst <= i <= AnswerEnd
        invariant i <= |columns| || i == AnswerFirst
        invariant |columns| == |old(columns)| && height == old(height) && Valid()
        invariant forall k :: 0 <= k < |columns| ==>
          columns[k] == if AnswerFirst <= k < i then ExtractAnswers(old(columns))[k] else old(columns)[k]
      {
        columns := columns[i := Column(columns[i].name, ExtractCells(columns[i].cells))];
        i := i + 1;
      }
    }

    /** Line 53: drops the columns at positions 1 to 4 (by their headers). */
    method DropIdentifierColumns() returns (res: Outcome<PreprocessError>)
      requires Valid()
      modifies this
      ensures Valid() && height == old(height)
      ensures res.Fail? <==> |old(columns)| < 5
      ensures res.Fail? ==> res.error == PositionOutOfRange && columns == old(columns)
      ensures res.Pass? ==> |old(columns)| >= 5 && columns == DropIdentifiers(old(columns))
    {
      if |columns| < 5 {
        return Fail(PositionOutOfRange);
      }
      columns := DropIdentifiers(columns);
      res := Pass;
    }

    /** Lines 56-61: the title column's cells are cleaned; the column must exist.
        `strings` says whether pandas holds that column as strings (it went
        through the extraction); if not, a column with rows but no text is
        held as floats and `.str` raises. */
    method CleanTitles(strings: bool) returns (res: Outcome<PreprocessError>)
      requires Valid()
      modifies this
      ensures Valid() && height == old(height)
      ensures TitleColumn !in Names(old(columns)) ==> res == Fail(TitleColumnMissing) && columns == old(columns)
      ensures TitleColumn in Names(old(columns)) ==>
        var k := Find(old(columns), TitleColumn).value;
        if NoTextCells(old(columns)[k].cells) && !strings then res == Fail(TitleColumnNotText) && columns == old(columns)
        else res == Pass && columns == CleanTitleColumn(old(columns), k)
    {
      FindPresent(columns, TitleColumn);
      match Find(columns, TitleColumn)
      case None =>
        res := Fail(TitleColumnMissing);
      case Some(k) =>
        if NoTextCells(columns[k].cells) && !strings {
          return Fail(TitleColumnNotText);
        }
        columns := CleanTitleColumn(columns, k);
        res := Pass;
    }

    /** `preprocess_data`: the three steps in order. A step that raises leaves the
        changes of the steps before it in place. */
    method Preprocess() returns (res: Outcome<PreprocessError>)
      requires Valid()
      modifies this
      ensures Valid() && height == old(height)
      ensures (res, columns) == PreprocessSheet(old(columns))
    {
      var strings := TitleExtracted(columns);
      ExtractAnswerDigits();
      res := DropIdentifierColumns();
      if res.Fail? {
        return;
      }
      res := CleanTitles(strings);
    }

    /** Line 44 (`load_excel`): headers are stripped of surrounding whitespace. */
    method StripColumnNames()
      requires Valid()
      modifies this
      ensures Valid() && height == old(height)
      ensures columns == StripNames(old(columns))
    {
      columns := StripNames(columns);
    }
  }
}
