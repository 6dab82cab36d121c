/** The validation survey: Likert answers turned into 1..5 and averaged per
    category of questions, first over each respondent's answers and then over
    the respondents. */
module Validation {
  import opened Common
  import opened Text
  import opened Stats

  /** A cell of the validation sheet: text, a number, or empty (NaN). */
  datatype Answer = Words(s: string) | Number(n: real) | Blank

  /** Every column holds one answer per respondent. */
  ghost predicate Rectangular(cols: seq<Column<Answer>>, height: nat)
  {
    forall i :: 0 <= i < |cols| ==> |cols[i].cells| == height
  }

  // ---------------------------------------------------------------- the Likert mapping (lines 15-24)

  /** `likert_scale`, in its declared order. */
  const LikertScale: seq<(string, real)> := [
    ("Strongly Disagree", 1.0),
    ("Disagree", 2.0),
    ("Neutral", 3.0),
    ("Agree", 4.0),
    ("Strongly Agree", 5.0)
  ]

  /** The value of the first entry of `table` whose label is exactly `s`. */
  function Lookup(table: seq<(string, real)>, s: string): (r: Option<real>)
    ensures r.None? <==> forall i :: 0 <= i < |table| ==> table[i].0 != s
    ensures r.Some? ==> exists i :: 0 <= i < |table| && table[i] == (s, r.value)
  {
    if table == [] then None
    else if table[0].0 == s then Some(table[0].1)
    else Lookup(table[1..], s)
  }

  /** `df.replace(likert_scale)` on one cell: a whole-value match, never a substring one. */
  function ReplaceAnswer(a: Answer): (r: Answer)
    ensures a.Words? && Lookup(LikertScale, a.s).Some? ==> r == Number(Lookup(LikertScale, a.s).value)
    ensures !a.Words? || Lookup(LikertScale, a.s).None? ==> r == a
  {
    match a
    case Words(s) =>
      (match Lookup(LikertScale, s)
       case Some(v) => Number(v)
       case None => a)
    case _ => a
  }

  /** The labels are mapped to 1..5 in the listed order. */
  lemma LikertInOrder(i: nat)
    requires i < |LikertScale|
    ensures ReplaceAnswer(Words(LikertScale[i].0)) == Number((i + 1) as real)
  {
    var labels := ["Strongly Disagree", "Disagree", "Neutral", "Agree", "Strongly Agree"];
    assert forall j :: 0 <= j < 5 ==> LikertScale[j].0 == labels[j];
    assert forall j, k :: 0 <= j < k < 5 ==> labels[j] != labels[k] by {
      assert labels[0][0] == 'S' && labels[1][0] == 'D' && labels[2][0] == 'N' && labels[3][0] == 'A' && labels[4][0] == 'S';
      assert |labels[0]| != |labels[4]|;
    }
  }

  /** A label that is not exactly one of the five is left as it is. */
  lemma OtherTextKept(s: string)
    requires forall i :: 0 <= i < |LikertScale| ==> LikertScale[i].0 != s
    ensures ReplaceAnswer(Words(s)) == Words(s)
  {
  }

  /** "Strongly Agree" is 5: the "Agree" entry does not touch it. */
  lemma StronglyAgreeIsFive()
    ensures ReplaceAnswer(Words("Strongly Agree")) == Number(5.0)
    ensures ReplaceAnswer(Words("Agree")) == Number(4.0)
  {
    LikertInOrder(4);
    LikertInOrder(3);
  }

  /** `df.replace(likert_scale)`: the replacement applied to every cell. */
  function ReplaceLikert(cols: seq<Column<Answer>>): (r: seq<Column<Answer>>)
    ensures Names(r) == Names(cols)
    ensures forall i :: 0 <= i < |r| ==> |r[i].cells| == |cols[i].cells|
    ensures forall i, j :: 0 <= i < |r| && 0 <= j < |r[i].cells| ==> r[i].cells[j] == ReplaceAnswer(cols[i].cells[j])
  {
    seq(|cols|, i requires 0 <= i < |cols| =>
      Column(cols[i].name, seq(|cols[i].cells|, j requires 0 <= j < |cols[i].cells| => ReplaceAnswer(cols[i].cells[j]))))
  }

  /** Replacing a second time changes nothing: the numbers it produces are not labels. */
  lemma ReplaceLikertIdempotent(cols: seq<Column<Answer>>)
    ensures ReplaceLikert(ReplaceLikert(cols)) == ReplaceLikert(cols)
  {
    var once := ReplaceLikert(cols);
    forall i | 0 <= i < |cols| ensures ReplaceLikert(once)[i] == once[i] {
      assert Names(ReplaceLikert(once))[i] == Names(once)[i];
      assert ReplaceLikert(once)[i].cells == once[i].cells;
    }
  }

  // ---------------------------------------------------------------- the categories (lines 27-58)

  datatype Category = Category(name: string, questions: seq<string>)

  /** `categories` as declared, in order. Each question is one literal in the
      source; it is split into pieces joined by `+` only to keep the verifier's
      work on constant strings small. */
  const RawCategories: seq<Category> := [
    Category("Accuracy", [
      "[The maturity model can " + "accurately reflect the " + "organizations current state " + "of Agile Enterprise " + "Architecture]",
      "[The model accurately " + "distinguishes between " + "different levels of " + "maturity ]",
      "[The model reflects real " + "world scenarios and " + "challenges faced in the " + "industry]",
      "[The criteria used in the " + "model resonates with my " + "understanding of Agile " + "Enterprise Architecture]",
      "[The model provides " + "valuable guidance for " + "developing our Enterprise " + "Architecture to become more " + "Agile]"
    ]),
    Category("Relevance", [
      "[The criteria for the " + "levels are relevant for our " + "organizations Enterprise " + "Architecture Practices]",
      "[The model clearly " + "represents Agile values and " + "mindset incorporated into " + "Enterprise Architecture]"
    ]),
    Category("Generalizability", [
      "[The model is generalizable " + "to different types of " + "organizations (e.g small, " + "medium, large))]",
      "[The model is applicable " + "across various sectors (e.g " + "Technology, Finance, " + "Public))]"
    ]),
    Category("Usability", [
      "[The model use actionable " + "insights for improving the " + "agility in Enterprise " + "Architecture]",
      "[The model facilitates " + "constructive discussions " + "about maturity within the " + "organization]",
      "[The description of " + "maturity levels are clear " + "and precise]",
      "[The model is east to " + "understand and use]"
    ]),
    Category("Overall Satisfaction", [
      "[I am satisfied with the " + "overall structure of the " + "maturity model]",
      "[The model meet my " + "expectations of assessing " + "Agile Enterprise " + "Architecture Maturity]",
      "[The model provides " + "valuable guidance for " + "developing our Enterprise " + "Architecture to become more " + "Agile]",
      "[I would recommend this " + "model to other " + "organizations for assessing " + "their Agile Enterprise " + "Architecture Maturity]"
    ])
  ]

  /** `{cat: [q.strip() for q in questions] ...}`: every question trimmed, names and order kept. */
  function StripQuestions(cats: seq<Category>): (r: seq<Category>)
    ensures |r| == |cats|
    ensures forall i :: 0 <= i < |r| ==> r[i].name == cats[i].name && |r[i].questions| == |cats[i].questions|
    ensures forall i, j :: 0 <= i < |r| && 0 <= j < |r[i].questions| ==>
      r[i].questions[j] == Trim(cats[i].questions[j]) && IsTrimmed(r[i].questions[j])
  {
    seq(|cats|, i requires 0 <= i < |cats| =>
      Category(cats[i].name, seq(|cats[i].questions|, j requires 0 <= j < |cats[i].questions| => Trim(cats[i].questions[j]))))
  }

  /** Stripping the questions a second time changes nothing. */
  lemma StripQuestionsIdempotent(cats: seq<Category>)
    ensures StripQuestions(StripQuestions(cats)) == StripQuestions(cats)
  {
    var once := StripQuestions(cats);
    forall i | 0 <= i < |cats| ensures StripQuestions(once)[i] == once[i] {
      forall j | 0 <= j < |once[i].questions| ensures StripQuestions(once)[i].questions[j] == once[i].questions[j] {
        TrimIdempotent(cats[i].questions[j]);
      }
    }
  }

  /** The categories the averages are taken over. */
  function Categories(): (r: seq<Category>)
    ensures |r| == 5
  {
    StripQuestions(RawCategories)
  }

  /** Five categories, in declared order. */
  lemma CategoryNames()
    ensures |Categories()| == 5
    ensures Categories()[0].name == "Accuracy" && Categories()[1].name == "Relevance"
      && Categories()[2].name == "Generalizability" && Categories()[3].name == "Usability"
      && Categories()[4].name == "Overall Satisfaction"
  {
  }

  /** The guidance question is listed under both Accuracy and Overall Satisfaction. */
  lemma SharedQuestion()
    ensures |Categories()[0].questions| == 5 && |Categories()[4].questions| == 4
    ensures Categories()[0].questions[4] == Categories()[4].questions[2]
  {
    assert RawCategories[0].questions[4] == RawCategories[4].questions[2];
  }

  // ---------------------------------------------------------------- the averages (line 61)

  datatype ValidationError =
    | MissingQuestions(category: string, missing: seq<string>)  // `df_numerical[questions]` raises KeyError
    | NonNumeric(category: string)                               // `mean(axis=1)` meets a string and raises TypeError

  /** Every question is the header of some column. */
  ghost predicate AllPresent(questions: seq<string>, names: seq<string>)
  {
    forall q :: q in questions ==> q in names
  }

  /** `df_numerical[questions]`: the answers to each question, in question order. */
  function Selected(cols: seq<Column<Answer>>, questions: seq<string>): (r: seq<seq<Answer>>)
    ensures |r| == |questions|
    ensures forall k :: 0 <= k < |r| ==> r[k] == CellsOf(cols, questions[k])
  {
    seq(|questions|, k requires 0 <= k < |questions| => CellsOf(cols, questions[k]))
  }

  /** A numeric cell's value; empty cells are missing. */
  function AsScore(a: Answer): (r: Score)
    ensures r.Some? <==> a.Number?
  {
    match a
    case Number(n) => Some(n)
    case _ => None
  }

  /** One respondent's answers to the selected questions, as scores. */
  function RowOf(used: seq<seq<Answer>>, row: nat): (r: seq<Score>)
    requires forall k :: 0 <= k < |used| ==> row < |used[k]|
    ensures |r| == |used|
    ensures forall k :: 0 <= k < |used| ==> r[k] == AsScore(used[k][row])
  {
    seq(|used|, k requires 0 <= k < |used| => AsScore(used[k][row]))
  }

  /** `mean(axis=1)`: each respondent's mean over the selected questions. */
  function RowMeans(used: seq<seq<Answer>>, height: nat): (r: seq<Score>)
    requires forall k :: 0 <= k < |used| ==> |used[k]| == height
    ensures |r| == height
    ensures forall row :: 0 <= row < height ==> r[row] == Mean(RowOf(used, row))
  {
    seq(height, row requires 0 <= row < height => Mean(RowOf(used, row)))
  }

  /** Some selected cell still holds text after the replacement. */
  predicate HasWords(used: seq<seq<Answer>>)
  {
    exists k, row :: 0 <= k < |used| && 0 <= row < |used[k]| && used[k][row].Words?
  }

  /** Every selected cell is empty. */
  ghost predicate AllBlank(used: seq<seq<Answer>>)
  {
    forall k, row :: 0 <= k < |used| && 0 <= row < |used[k]| ==> used[k][row] == Blank
  }

  /** `df_numerical[questions].mean(axis=1).mean()` for one category: an error
      when a question has no column or an answer is still text; otherwise the
      mean over respondents of their own means, missing exactly when no
      selected answer is a number. */
  function CategoryAverage(cols: seq<Column<Answer>>, height: nat, cat: Category): (r: Result<Score, ValidationError>)
    requires Rectangular(cols, height)
    ensures (r.Failure? && r.error.MissingQuestions?) <==> !AllPresent(cat.questions, Names(cols))
    ensures r.Failure? && r.error.MissingQuestions? ==> r.error == MissingQuestions(cat.name, Absent(cat.questions, Names(cols)))
    ensures r == Failure(NonNumeric(cat.name)) <==> AllPresent(cat.questions, Names(cols)) && HasWords(Selected(cols, cat.questions))
    ensures r.Success? ==> (r.value.None? <==> AllBlank(Selected(cols, cat.questions)))
  {
    var missing := Absent(cat.questions, Names(cols));
    if missing != [] then
      assert missing[0] in missing;
      Failure(MissingQuestions(cat.name, missing))
    else
      var used := Selected(cols, cat.questions);
      SelectedHeight(cols, height, cat.questions);
      if HasWords(used) then Failure(NonNumeric(cat.name))
      else
        BlankIffMissing(used, height);
        Success(Mean(RowMeans(used, height)))
  }

  lemma SelectedHeight(cols: seq<Column<Answer>>, height: nat, questions: seq<string>)
    requires Rectangular(cols, height)
    requires AllPresent(questions, Names(cols))
    ensures forall k :: 0 <= k < |questions| ==> |Selected(cols, questions)[k]| == height
  {
    forall k | 0 <= k < |questions| ensures |Selected(cols, questions)[k]| == height {
      FindPresent(cols, questions[k]);
    }
  }

  lemma BlankIffMissing(used: seq<seq<Answer>>, height: nat)
    requires forall k :: 0 <= k < |used| ==> |used[k]| == height
    requires !HasWords(used)
    ensures Mean(RowMeans(used, height)).None? <==> AllBlank(used)
  {
    var means := RowMeans(used, height);
    if Mean(means).None? {
      forall k, row | 0 <= k < |used| && 0 <= row < |used[k]| ensures used[k][row] == Blank {
        assert means[row].None?;
        assert RowOf(used, row)[k].None?;
      }
    }
  }

  /** A dict comprehension over outcomes: all the values in order, or the first error. */
  function Collect(results: seq<(string, Result<Score, ValidationError>)>): (r: Result<seq<(string, Score)>, ValidationError>)
    ensures r.Success? <==> forall i :: 0 <= i < |results| ==> results[i].1.Success?
    ensures r.Success? ==> (|r.value| == |results|
      && forall i :: 0 <= i < |results| ==> r.value[i] == (results[i].0, results[i].1.value))
    ensures r.Failure? ==> exists i :: (0 <= i < |results| && results[i].1 == Failure(r.error)
      && forall j :: 0 <= j < i ==> results[j].1.Success?)
  {
    if results == [] then Success([])
    else match results[0].1
      case Failure(e) => Failure(e)
      case Success(v) =>
        match Collect(results[1..])
        case Failure(e) =>
          assert exists i :: (1 <= i < |results| && results[i].1 == Failure(e)
            && forall j :: 0 <= j < i ==> results[j].1.Success?) by {
            var i :| 0 <= i < |results| - 1 && results[1..][i].1 == Failure(e)
              && forall j :: 0 <= j < i ==> results[1..][j].1.Success?;
            assert forall j :: 1 <= j < i + 1 ==> results[j] == results[1..][j - 1];
          }
          Failure(e)
        case Success(rest) => Success([(results[0].0, v)] + rest)
  }

  /** `average_scores`: each category's name with its average, in category order. */
  function AveragesOf(cols: seq<Column<Answer>>, height: nat, cats: seq<Category>): (r: seq<(string, Result<Score, ValidationError>)>)
    requires Rectangular(cols, height)
    ensures |r| == |cats|
    ensures forall i :: 0 <= i < |cats| ==> r[i] == (cats[i].name, CategoryAverage(cols, height, cats[i]))
  {
    seq(|cats|, i requires 0 <= i < |cats| => (cats[i].name, CategoryAverage(cols, height, cats[i])))
  }

  /** `average_scores` over the categories `cats`. */
  function AverageScores(cols: seq<Column<Answer>>, height: nat, cats: seq<Category>): (r: Result<seq<(string, Score)>, ValidationError>)
    requires Rectangular(cols, height)
    ensures r.Success? ==> (|r.value| == |cats|
      && forall i :: 0 <= i < |cats| ==> r.value[i].0 == cats[i].name && CategoryAverage(cols, height, cats[i]) == Success(r.value[i].1))
    ensures r.Failure? ==> exists i :: (0 <= i < |cats| && CategoryAverage(cols, height, cats[i]) == Failure(r.error)
      && forall j :: 0 <= j < i ==> CategoryAverage(cols, height, cats[j]).Success?)
  {
    Collect(AveragesOf(cols, height, cats))
  }

  /** The validation sheet's scores: headers stripped (line 12), Likert labels
      replaced (line 24), then one average per category (line 61); the first
      category that raises ends the computation. */
  function ScoreSurvey(raw: seq<Column<Answer>>, height: nat): (r: Result<seq<(string, Score)>, ValidationError>)
    requires Rectangular(raw, height)
    ensures r.Success? ==> (|r.value| == 5
      && forall i :: 0 <= i < 5 ==> r.value[i].0 == Categories()[i].name)
  {
    var cols := ReplaceLikert(StripNames(raw));
    assert Rectangular(cols, height);
    AverageScores(cols, height, Categories())
  }

  // ---------------------------------------------------------------- properties of the averages

  /** Each selected cell is empty or a number in [1, 5]. */
  ghost predicate ScoresInRange(used: seq<seq<Answer>>)
  {
    forall k, row :: 0 <= k < |used| && 0 <= row < |used[k]| ==>
      used[k][row] == Blank || (used[k][row].Number? && 1.0 <= used[k][row].n <= 5.0)
  }

  /** Averages of answers in [1, 5] lie in [1, 5]. */
  lemma AverageWithinRange(cols: seq<Column<Answer>>, height: nat, cat: Category)
    requires Rectangular(cols, height)
    requires AllPresent(cat.questions, Names(cols))
    requires ScoresInRange(Selected(cols, cat.questions))
    ensures var r := CategoryAverage(cols, height, cat);
      r.Success? && (r.value.Some? ==> 1.0 <= r.value.value <= 5.0)
  {
    var used := Selected(cols, cat.questions);
    SelectedHeight(cols, height, cat.questions);
    var means := RowMeans(used, height);
    forall row | 0 <= row < height ensures means[row].Some? ==> 1.0 <= means[row].value <= 5.0 {
      MeanWithin(RowOf(used, row), 1.0, 5.0);
    }
    MeanWithin(means, 1.0, 5.0);
  }

  /** The answers of `raw` to `questions` are all Likert labels or empty. */
  ghost predicate LikertAnswers(raw: seq<Column<Answer>>, questions: seq<string>)
  {
    forall k, row :: 0 <= k < |questions| && 0 <= row < |CellsOf(raw, questions[k])| ==>
      var a := CellsOf(raw, questions[k])[row];
      a == Blank || (a.Words? && exists i :: 0 <= i < |LikertScale| && a.s == LikertScale[i].0)
  }

  /** After the replacement, the selected answers are the replaced raw answers. */
  lemma SelectedAfterReplace(raw: seq<Column<Answer>>, questions: seq<string>, k: nat)
    requires k < |questions|
    ensures var before := CellsOf(raw, questions[k]);
      var after := Selected(ReplaceLikert(raw), questions)[k];
      |after| == |before| && forall row :: 0 <= row < |after| ==> after[row] == ReplaceAnswer(before[row])
  {
    FindSameNames(ReplaceLikert(raw), raw, questions[k]);
  }

  /** A Likert label or an empty cell becomes a score in [1, 5] or stays empty. */
  lemma ReplacedLikertAnswer(a: Answer)
    requires a == Blank || (a.Words? && exists i :: 0 <= i < |LikertScale| && a.s == LikertScale[i].0)
    ensures ReplaceAnswer(a) == Blank || (ReplaceAnswer(a).Number? && 1.0 <= ReplaceAnswer(a).n <= 5.0)
  {
    if a.Words? {
      var i :| 0 <= i < |LikertScale| && a.s == LikertScale[i].0;
      LikertInOrder(i);
    }
  }

  /** When every answer used is a Likert label or empty, the category average
      is not an error and, unless every answer is empty, lies in [1, 5]. */
  lemma LikertAverageWithin(raw: seq<Column<Answer>>, height: nat, cat: Category)
    requires Rectangular(raw, height)
    requires AllPresent(cat.questions, Names(raw))
    requires LikertAnswers(raw, cat.questions)
    ensures Rectangular(ReplaceLikert(raw), height)
    ensures var r := CategoryAverage(ReplaceLikert(raw), height, cat);
      r.Success? && (r.value.Some? ==> 1.0 <= r.value.value <= 5.0)
  {
    var used := Selected(ReplaceLikert(raw), cat.questions);
    forall k, row | 0 <= k < |used| && 0 <= row < |used[k]|
      ensures used[k][row] == Blank || (used[k][row].Number? && 1.0 <= used[k][row].n <= 5.0)
    {
      SelectedAfterReplace(raw, cat.questions, k);
      ReplacedLikertAnswer(CellsOf(raw, cat.questions[k])[row]);
    }
    AverageWithinRange(ReplaceLikert(raw), height, cat);
  }

  /** The sheet without respondent `row`. */
  function DropRow(cols: seq<Column<Answer>>, height: nat, row: nat): (r: seq<Column<Answer>>)
    requires Rectangular(cols, height) && row < height
    ensures Names(r) == Names(cols) && Rectangular(r, height - 1)
    ensures forall i :: 0 <= i < |r| ==> r[i].cells == cols[i].cells[..row] + cols[i].cells[row + 1..]
  {
    seq(|cols|, i requires 0 <= i < |cols| => Column(cols[i].name, cols[i].cells[..row] + cols[i].cells[row + 1..]))
  }

  /** Dropping a respondent drops their answer from every selected question. */
  lemma SelectedAfterDrop(cols: seq<Column<Answer>>, height: nat, questions: seq<string>, row: nat)
    requires Rectangular(cols, height) && row < height
    requires AllPresent(questions, Names(cols))
    ensures var used := Selected(cols, questions);
      forall k :: 0 <= k < |questions| ==> (|used[k]| == height
        && Selected(DropRow(cols, height, row), questions)[k] == used[k][..row] + used[k][row + 1..])
  {
    SelectedHeight(cols, height, questions);
    var used := Selected(cols, questions);
    forall k | 0 <= k < |questions|
      ensures Selected(DropRow(cols, height, row), questions)[k] == used[k][..row] + used[k][row + 1..]
    {
      FindSameNames(DropRow(cols, height, row), cols, questions[k]);
      FindPresent(cols, questions[k]);
    }
  }

  /** With every answer of `row` empty, text remains after the drop exactly when it was there before. */
  lemma WordsAfterDrop(used: seq<seq<Answer>>, usedD: seq<seq<Answer>>, height: nat, row: nat)
    requires row < height && |usedD| == |used|
    requires forall k :: 0 <= k < |used| ==> (|used[k]| == height && used[k][row] == Blank
      && usedD[k] == used[k][..row] + used[k][row + 1..])
    ensures HasWords(usedD) <==> HasWords(used)
  {
    if HasWords(usedD) {
      var k: int, x: int :| 0 <= k < |usedD| && 0 <= x < |usedD[k]| && usedD[k][x].Words?;
      var y := if x < row then x else x + 1;
      assert used[k][y] == usedD[k][x];
    }
    if HasWords(used) {
      var k: int, x: int :| 0 <= k < |used| && 0 <= x < |used[k]| && used[k][x].Words?;
      assert x != row;
      var y := if x < row then x else x - 1;
      assert used[k][x] == usedD[k][y];
    }
  }

  /** The respondents' means after the drop are the earlier ones without `row`'s. */
  lemma RowMeansAfterDrop(used: seq<seq<Answer>>, usedD: seq<seq<Answer>>, height: nat, row: nat)
    requires row < height && |usedD| == |used|
    requires forall k :: 0 <= k < |used| ==> (|used[k]| == height
      && usedD[k] == used[k][..row] + used[k][row + 1..])
    ensures var means := RowMeans(used, height);
      RowMeans(usedD, height - 1) == means[..row] + means[row + 1..]
  {
    var means := RowMeans(used, height);
    var meansD := RowMeans(usedD, height - 1);
    forall x | 0 <= x < height - 1 ensures meansD[x] == (means[..row] + means[row + 1..])[x] {
      var y := if x < row then x else x + 1;
      assert RowOf(usedD, x) == RowOf(used, y);
    }
  }

  /** A respondent who left every question of the category empty takes no
      part in its average: dropping them changes nothing. */
  lemma EmptyRespondentExcluded(cols: seq<Column<Answer>>, height: nat, cat: Category, row: nat)
    requires Rectangular(cols, height) && row < height
    requires AllPresent(cat.questions, Names(cols))
    requires forall i :: 0 <= i < |cols| && cols[i].name in cat.questions ==> cols[i].cells[row] == Blank
    ensures CategoryAverage(DropRow(cols, height, row), height - 1, cat) == CategoryAverage(cols, height, cat)
  {
    var used := Selected(cols, cat.questions);
    var usedD := Selected(DropRow(cols, height, row), cat.questions);
    SelectedAfterDrop(cols, height, cat.questions, row);
    forall k | 0 <= k < |used| ensures used[k][row] == Blank {
      FindPresent(cols, cat.questions[k]);
    }
    WordsAfterDrop(used, usedD, height, row);
    if !HasWords(used) {
      RowMeansAfterDrop(used, usedD, height, row);
      var means := RowMeans(used, height);
      assert forall k :: 0 <= k < |used| ==> RowOf(used, row)[k].None?;
      MeanDropMissing(means, row);
    }
  }

  /** When every answer the categories use is a Likert label or empty, no
      category raises and every average present lies in [1, 5]. */
  lemma AveragesWithinLikert(raw: seq<Column<Answer>>, height: nat, cats: seq<Category>)
    requires Rectangular(raw, height)
    requires forall c :: 0 <= c < |cats| ==>
      AllPresent(cats[c].questions, Names(raw)) && LikertAnswers(raw, cats[c].questions)
    ensures Rectangular(ReplaceLikert(raw), height)
    ensures var r := AverageScores(ReplaceLikert(raw), height, cats);
      r.Success? && forall c :: 0 <= c < |r.value| && r.value[c].1.Some? ==> 1.0 <= r.value[c].1.value <= 5.0
  {
    var cols := ReplaceLikert(raw);
    assert Rectangular(cols, height);
    forall c | 0 <= c < |cats|
      ensures var a := CategoryAverage(cols, height, cats[c]); a.Success? && (a.value.Some? ==> 1.0 <= a.value.value <= 5.0)
    {
      LikertAverageWithin(raw, height, cats[c]);
    }
  }

  /** The same for the survey: with every answer used a Likert label or empty,
      it scores without error and every average present lies in [1, 5]. */
  lemma SurveyWithinLikert(raw: seq<Column<Answer>>, height: nat)
    requires Rectangular(raw, height)
    requires forall c :: 0 <= c < |Categories()| ==>
      AllPresent(Categories()[c].questions, Names(StripNames(raw)))
      && LikertAnswers(StripNames(raw), Categories()[c].questions)
    ensures var r := ScoreSurvey(raw, height);
      r.Success? && forall c :: 0 <= c < |r.value| && r.value[c].1.Some? ==> 1.0 <= r.value[c].1.value <= 5.0
  {
    var stripped := StripNames(raw);
    assert Rectangular(stripped, height);
    AveragesWithinLikert(stripped, height, Categories());
  }
}
