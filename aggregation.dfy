/** The maturity survey's `process_data` up to the charts: long question
    headers are renamed to the nine aspects, the presence of every aspect is
    checked, each aspect cell becomes a score, and the scores are averaged
    overall and for each of five roles. `load_excel`'s sequence of steps closes
    the module. */
module Aggregation {
  import opened Common
  import opened Text
  import opened Stats
  import opened Preprocessing

  /** The nine aspects of Agile Enterprise Architecture, in their fixed order. */
  const Aspects: seq<string> := [
    "Strategy to Execution", "Stakeholder Management", "Thought Leadership",
    "Architecture Development", "Architecture Control", "Architecture Governance",
    "Technology Portfolio Management", "Enterprise Model Management", "Agile Enterprise Architecture Culture"
  ]

  /** The words every question header of `aspect_column_map` starts with. Here and
      in the question lists of the validation survey, a long literal is written as
      short pieces joined by `+`; the value is the one literal of the source, and
      the pieces only keep the verifier's work on constant strings small. */
  const QuestionPrefix: string :=
    "Please select the statement " + "that you think is the closest " +
    "description of your organizations " + "current state of "

  /** How each question header ends, in the order of `Aspects` they map to. */
  const QuestionTopics: seq<string> := [
    "Strategy to Execution", "Stakeholder Management", "Thought Leadership",
    "Architectural Development", "Architectural Control", "Architectural Governance",
    "Technology Portfolio Management", "Enterprise Model Management", "Agile Enterprise Architecture Culture"
  ]

  /** The `i`th key of `aspect_column_map`, as written in the source. */
  function QuestionHeader(i: nat): string
    requires i < |QuestionTopics|
  {
    QuestionPrefix + QuestionTopics[i]
  }

  /** The five roles that get their own averages. */
  const Roles: seq<string> := [
    "Team Lead",
    "Lead Enterprise Architect",
    "Enterprise Architect",
    "Architecture Models and Insights Expert",
    "Architecture Governance Expert"
  ]

  /** The role column is the cleaned title column. */
  const RoleColumn: string := TitleColumn

  // ---------------------------------------------------------------- aspect_column_map

  /** `{k.strip(): v for k, v in pairs}`: a later pair overwrites an earlier one
      with the same stripped key. */
  function StripKeys(pairs: seq<(string, string)>): map<string, string>
  {
    if pairs == [] then map[]
    else StripKeys(pairs[..|pairs| - 1])[Trim(pairs[|pairs| - 1].0) := pairs[|pairs| - 1].1]
  }

  /** `aspect_column_map` as written: each question header with its aspect, in order. */
  function QuestionPairs(): (r: seq<(string, string)>)
    ensures |r| == |QuestionTopics|
    ensures forall i :: 0 <= i < |r| ==> r[i] == (QuestionHeader(i), Aspects[i])
  {
    seq(|QuestionTopics|, i requires 0 <= i < |QuestionTopics| => (QuestionHeader(i), Aspects[i]))
  }

  /** The header lookup, with its keys stripped. */
  function AspectColumnMap(): map<string, string>
  {
    StripKeys(QuestionPairs())
  }

  /** The headers as written start with "P" and have no surrounding whitespace. */
  lemma QuestionHeaderShape(i: nat)
    requires i < |QuestionTopics|
    ensures |QuestionHeader(i)| > 0 && QuestionHeader(i)[0] == 'P' && IsTrimmed(QuestionHeader(i))
  {
    assert QuestionPrefix[0] == 'P';
    var t := QuestionTopics[i];
    assert |t| > 0 && 'a' <= t[|t| - 1] <= 'z';
    assert QuestionHeader(i)[|QuestionHeader(i)| - 1] == t[|t| - 1];
  }

  /** No two headers are the same. */
  lemma QuestionHeadersDistinct(i: nat, j: nat)
    requires i < j < |QuestionTopics|
    ensures QuestionHeader(i) != QuestionHeader(j)
  {
    AppendInjective(QuestionPrefix, QuestionTopics[i], QuestionTopics[j]);
  }

  lemma AppendInjective(p: string, a: string, b: string)
    requires a != b
    ensures p + a != p + b
  {
    assert (p + a)[|p|..] == a;
    assert (p + b)[|p|..] == b;
  }

  /** `dict(pairs)`: a later pair overwrites an earlier one with the same key. */
  function BuildMap<K(==), V>(pairs: seq<(K, V)>): map<K, V>
  {
    if pairs == [] then map[]
    else BuildMap(pairs[..|pairs| - 1])[pairs[|pairs| - 1].0 := pairs[|pairs| - 1].1]
  }

  /** When every key is already stripped, stripping the keys changes nothing. */
  lemma {:induction false} StripKeysOfTrimmed(pairs: seq<(string, string)>)
    requires forall i :: 0 <= i < |pairs| ==> IsTrimmed(pairs[i].0)
    ensures StripKeys(pairs) == BuildMap(pairs)
  {
    if pairs != [] {
      var init := pairs[..|pairs| - 1];
      var last := pairs[|pairs| - 1];
      assert forall i :: 0 <= i < |init| ==> init[i] == pairs[i];
      StripKeysOfTrimmed(init);
      TrimmedIsFixed(last.0);
      assert StripKeys(pairs) == StripKeys(init)[last.0 := last.1];
    }
  }

  /** With distinct keys, every pair is in the map. */
  lemma {:induction false} BuildMapValues<K, V>(pairs: seq<(K, V)>)
    requires forall i, j :: 0 <= i < j < |pairs| ==> pairs[i].0 != pairs[j].0
    ensures forall i :: 0 <= i < |pairs| ==> pairs[i].0 in BuildMap(pairs) && BuildMap(pairs)[pairs[i].0] == pairs[i].1
  {
    if pairs != [] {
      var init := pairs[..|pairs| - 1];
      assert forall i :: 0 <= i < |init| ==> init[i] == pairs[i];
      BuildMapValues(init);
    }
  }

  /** Every key of the map is the key of some pair. */
  lemma {:induction false} BuildMapKeys<K, V>(pairs: seq<(K, V)>)
    ensures forall k :: k in BuildMap(pairs) ==> exists i :: 0 <= i < |pairs| && k == pairs[i].0
  {
    if pairs != [] {
      var init := pairs[..|pairs| - 1];
      assert forall i :: 0 <= i < |init| ==> init[i] == pairs[i];
      BuildMapKeys(init);
    }
  }

  /** With stripped, distinct keys, the comprehension maps each key to its own
      value and has no other key. */
  lemma StrippedLookup(pairs: seq<(string, string)>)
    requires forall i :: 0 <= i < |pairs| ==> IsTrimmed(pairs[i].0)
    requires forall i, j :: 0 <= i < j < |pairs| ==> pairs[i].0 != pairs[j].0
    ensures forall i :: 0 <= i < |pairs| ==> pairs[i].0 in StripKeys(pairs) && StripKeys(pairs)[pairs[i].0] == pairs[i].1
    ensures forall k :: k in StripKeys(pairs) ==> exists i :: 0 <= i < |pairs| && k == pairs[i].0
  {
    StripKeysOfTrimmed(pairs);
    BuildMapValues(pairs);
    BuildMapKeys(pairs);
  }

  /** The keys of `aspect_column_map` as written are stripped and distinct. */
  lemma QuestionPairsKeys()
    ensures forall i :: 0 <= i < |QuestionPairs()| ==> IsTrimmed(QuestionPairs()[i].0)
    ensures forall i, j :: 0 <= i < j < |QuestionPairs()| ==> QuestionPairs()[i].0 != QuestionPairs()[j].0
  {
    forall i | 0 <= i < |QuestionTopics| ensures IsTrimmed(QuestionHeader(i)) {
      QuestionHeaderShape(i);
    }
    forall i, j | 0 <= i < j < |QuestionTopics| ensures QuestionHeader(i) != QuestionHeader(j) {
      QuestionHeadersDistinct(i, j);
    }
  }

  /** The lookup sends the `i`th question header to the `i`th aspect, and has no other key. */
  lemma AspectColumnMapShape()
    ensures forall i :: 0 <= i < |QuestionTopics| ==>
      QuestionHeader(i) in AspectColumnMap() && AspectColumnMap()[QuestionHeader(i)] == Aspects[i]
    ensures forall k :: k in AspectColumnMap() ==> exists i :: 0 <= i < |QuestionTopics| && k == QuestionHeader(i)
  {
    var pairs := QuestionPairs();
    QuestionPairsKeys();
    StrippedLookup(pairs);
    var m := AspectColumnMap();
    forall i | 0 <= i < |QuestionTopics| ensures QuestionHeader(i) in m && m[QuestionHeader(i)] == Aspects[i] {
      assert pairs[i] == (QuestionHeader(i), Aspects[i]);
    }
    forall k | k in m ensures exists i :: 0 <= i < |QuestionTopics| && k == QuestionHeader(i) {
      var i :| 0 <= i < |pairs| && k == pairs[i].0;
      assert pairs[i].0 == QuestionHeader(i);
    }
  }

  /** The role column's header is not a lookup key. */
  lemma RoleColumnIsNoKey()
    ensures RoleColumn !in AspectColumnMap()
  {
    AspectColumnMapShape();
    assert RoleColumn[0] == 'W';
    forall i | 0 <= i < |QuestionTopics| ensures QuestionHeader(i) != RoleColumn {
      QuestionHeaderShape(i);
    }
  }

  // ---------------------------------------------------------------- rename (line 68)

  /** `{col.strip(): m.get(col.strip(), col) for col in names}`. */
  function RenameDict(m: map<string, string>, names: seq<string>): map<string, string>
  {
    if names == [] then map[]
    else
      var col := names[|names| - 1];
      var key := Trim(col);
      RenameDict(m, names[..|names| - 1])[key := if key in m then m[key] else col]
  }

  /** `df.rename(columns=d)`: a header that is a key of `d` is replaced by its value. */
  function RenamedName(d: map<string, string>, name: string): string
  {
    if name in d then d[name] else name
  }

  /** The sheet after line 68; cells are untouched. */
  function RenameColumns(cols: seq<Column<Cell>>): (r: seq<Column<Cell>>)
    ensures |r| == |cols|
    ensures forall i :: 0 <= i < |r| ==> r[i].cells == cols[i].cells
  {
    RenameBy(RenameDict(AspectColumnMap(), Names(cols)), cols)
  }

  /** Every header renamed through `d`, cells kept. */
  function RenameBy(d: map<string, string>, cols: seq<Column<Cell>>): (r: seq<Column<Cell>>)
    ensures |r| == |cols|
    ensures forall i :: 0 <= i < |r| ==> r[i].cells == cols[i].cells
  {
    seq(|cols|, i requires 0 <= i < |cols| => Column(RenamedName(d, cols[i].name), cols[i].cells))
  }

  lemma {:induction false} RenameDictOfTrimmed(m: map<string, string>, names: seq<string>)
    requires forall i :: 0 <= i < |names| ==> IsTrimmed(names[i])
    ensures forall n :: n in names ==>
      n in RenameDict(m, names) && RenameDict(m, names)[n] == if n in m then m[n] else n
  {
    if names != [] {
      var init := names[..|names| - 1];
      var col := names[|names| - 1];
      RenameDictOfTrimmed(m, init);
      TrimmedIsFixed(col);
      var d := RenameDict(m, names);
      assert d == RenameDict(m, init)[col := if col in m then m[col] else col];
      forall n | n in names ensures n in d && d[n] == if n in m then m[n] else n {
        if n != col {
          assert n in init;
        }
      }
    }
  }

  /** Once headers are stripped (as `load_excel` does before this step), a header
      that is a lookup key becomes its aspect and every other header, the role
      column's included, stays as it is. */
  lemma RenameOfTrimmedHeaders(cols: seq<Column<Cell>>)
    requires forall i :: 0 <= i < |cols| ==> IsTrimmed(cols[i].name)
    ensures forall i :: 0 <= i < |cols| ==>
      RenameColumns(cols)[i].name ==
        if cols[i].name in AspectColumnMap() then AspectColumnMap()[cols[i].name] else cols[i].name
    ensures forall i :: 0 <= i < |cols| && cols[i].name == RoleColumn ==> RenameColumns(cols)[i].name == RoleColumn
  {
    var names := Names(cols);
    RenameDictOfTrimmed(AspectColumnMap(), names);
    forall i | 0 <= i < |cols| ensures cols[i].name in names {
      assert names[i] == cols[i].name;
    }
    RoleColumnIsNoKey();
  }

  lemma {:induction false} RenameDictKeysTrimmed(m: map<string, string>, names: seq<string>)
    ensures forall k :: k in RenameDict(m, names) ==> IsTrimmed(k)
  {
    if names != [] {
      RenameDictKeysTrimmed(m, names[..|names| - 1]);
    }
  }

  /** A header with whitespace at either end is never renamed: the keys line 68
      builds are all stripped. */
  lemma UntrimmedHeaderKept(cols: seq<Column<Cell>>, i: nat)
    requires i < |cols| && !IsTrimmed(cols[i].name)
    ensures RenameColumns(cols)[i].name == cols[i].name
  {
    RenameDictKeysTrimmed(AspectColumnMap(), Names(cols));
  }

  // ---------------------------------------------------------------- missing columns (line 74)

  /** The aspects that no column is named after, in aspect order. */
  function MissingAspects(names: seq<string>): (r: seq<string>)
    ensures forall a :: a in r <==> a in Aspects && a !in names
    ensures r == [] <==> forall a :: a in Aspects ==> a in names
  {
    var absent := Absent(Aspects, names);
    assert absent != [] ==> absent[0] in absent;
    absent
  }

  // ---------------------------------------------------------------- scores (lines 84-89)

  /** `extract_numeric_value`: the number spelled by the first digit run of the
      cell's text; missing (never 0) when there is no digit. */
  function ExtractNumericValue(c: Cell): (r: Score)
    ensures r.None? <==> NoDigit(Render(c))
    ensures r.Some? ==> exists i: nat, d :: IsFirstDigitRun(Render(c), i, d) && r.value == DigitsValue(d) as real
    ensures r.Some? ==> r.value >= 0.0
  {
    match FirstDigitRun(Render(c))
    case Some(d) => Some(DigitsValue(d) as real)
    case None => None
  }

  /** A cell whose text starts "4 - " scores 4. */
  lemma ScoreOfLeadingDigit()
    ensures ExtractNumericValue(Str("4 - mostly there")) == Some(4.0)
  {
    var s := "4 - mostly there";
    assert s[0] == '4' && s[1] == ' ';
    assert DigitPrefix(s[1..]) == [];
    assert DigitPrefix(s) == [s[0]];
    assert FirstDigitRun(s) == Some("4");
    assert "4"[..0] == [];
    assert DigitsValue("4") == 4;
  }

  /** A cell emptied by preprocessing scores as missing, not 0. */
  lemma MissingCellHasNoScore()
    ensures ExtractNumericValue(Missing) == None
  {
    assert Render(Missing) == "nan";
    assert NoDigit("nan");
  }

  function ScoreColumn(cells: seq<Cell>): (r: seq<Score>)
  {
    seq(|cells|, i requires 0 <= i < |cells| => ExtractNumericValue(cells[i]))
  }

  /** The scores of aspect `j`. */
  function AspectScores(cols: seq<Column<Cell>>, j: nat): seq<Score>
    requires j < |Aspects|
  {
    ScoreColumn(CellsOf(cols, Aspects[j]))
  }

  /** `df[df['Role'] == role][aspect]`: the scores of the rows whose role cell is exactly `role`. */
  function ScoresForRole(scores: seq<Score>, roles: seq<Cell>, role: string): (r: seq<Score>)
    ensures |r| <= |scores|
    ensures (forall i :: 0 <= i < |roles| ==> roles[i] != Str(role)) ==> r == []
    ensures (forall i :: 0 <= i < |scores| && i < |roles| ==> roles[i] == Str(role)) && |scores| == |roles| ==> r == scores
    ensures |scores| == 1 && |roles| == 1 ==> r == if roles[0] == Str(role) then scores else []
  {
    if scores == [] || roles == [] then []
    else (if roles[0] == Str(role) then [scores[0]] else []) + ScoresForRole(scores[1..], roles[1..], role)
  }

  /** The filter works row by row: with the one-row case of `ScoresForRole`'s
      contract, exactly the rows holding the role are kept, in order. */
  lemma {:induction false} ScoresForRoleAppend(s1: seq<Score>, r1: seq<Cell>, s2: seq<Score>, r2: seq<Cell>, role: string)
    requires |s1| == |r1|
    ensures ScoresForRole(s1 + s2, r1 + r2, role) == ScoresForRole(s1, r1, role) + ScoresForRole(s2, r2, role)
  {
    if s1 != [] {
      ScoresForRoleAppend(s1[1..], r1[1..], s2, r2, role);
      ScoresForRoleAppendStep(s1[0], s1[1..], r1[0], r1[1..], s2, r2, role);
      SplitFirst(s1, s2);
      SplitFirst(r1, r2);
    } else {
      assert s1 + s2 == s2 && r1 + r2 == r2;
    }
  }

  /** One step of `ScoresForRoleAppend`: a first row put in front of both. */
  lemma ScoresForRoleAppendStep(x: Score, t: seq<Score>, c: Cell, u: seq<Cell>, s2: seq<Score>, r2: seq<Cell>, role: string)
    requires ScoresForRole(t + s2, u + r2, role) == ScoresForRole(t, u, role) + ScoresForRole(s2, r2, role)
    ensures ScoresForRole([x] + (t + s2), [c] + (u + r2), role) == ScoresForRole([x] + t, [c] + u, role) + ScoresForRole(s2, r2, role)
  {
    ScoresForRoleCons(x, t + s2, c, u + r2, role);
    ScoresForRoleCons(x, t, c, u, role);
    ConcatAssociates(if c == Str(role) then [x] else [], ScoresForRole(t, u, role), ScoresForRole(s2, r2, role));
  }

  lemma SplitFirst<T>(s: seq<T>, rest: seq<T>)
    requires s != []
    ensures s == [s[0]] + s[1..] && s + rest == [s[0]] + (s[1..] + rest)
  {
  }

  lemma ConcatAssociates<T>(h: seq<T>, a: seq<T>, b: seq<T>)
    ensures h + (a + b) == (h + a) + b
  {
  }

  lemma ScoresForRoleCons(x: Score, s: seq<Score>, c: Cell, r: seq<Cell>, role: string)
    ensures ScoresForRole([x] + s, [c] + r, role) == (if c == Str(role) then [x] else []) + ScoresForRole(s, r, role)
  {
    assert ([x] + s)[0] == x && ([x] + s)[1..] == s;
    assert ([c] + r)[0] == c && ([c] + r)[1..] == r;
  }

  // ---------------------------------------------------------------- averages (lines 95-110)

  datatype RoleScores = RoleScores(role: string, scores: seq<Score>)

  /** `avg_scores` and `role_avg_scores`, aspects in the order of `Aspects`. */
  datatype Aggregates = Aggregates(overall: seq<Score>, byRole: seq<RoleScores>)

  datatype ProcessError =
    | MissingAspectColumns(missing: seq<string>)  // the error message box of line 76
    | MissingRoleColumn                           // `df[aspects + [role_column]]` raises

  /** `rs` is the entry of `role`: for every aspect, the mean over the rows whose role cell is `role`. */
  ghost predicate RoleEntry(rs: RoleScores, role: string, scores: seq<seq<Score>>, roleCells: seq<Cell>)
  {
    && rs.role == role
    && |rs.scores| == |scores|
    && forall j :: 0 <= j < |scores| ==> rs.scores[j] == Mean(ScoresForRole(scores[j], roleCells, role))
  }

  /** The scores of every aspect, in aspect order. */
  function AllAspectScores(cols: seq<Column<Cell>>): (r: seq<seq<Score>>)
    ensures |r| == |Aspects|
    ensures forall j :: 0 <= j < |Aspects| ==> r[j] == AspectScores(cols, j)
  {
    seq(|Aspects|, j requires 0 <= j < |Aspects| => AspectScores(cols, j))
  }

  /** `agg` holds, for every aspect, the mean of its scores over all rows and, for
      every role in order, the mean over the rows of that role. */
  ghost predicate Summarises(agg: Aggregates, cols: seq<Column<Cell>>)
  {
    && |agg.overall| == |Aspects|
    && (forall j :: 0 <= j < |Aspects| ==> agg.overall[j] == Mean(AspectScores(cols, j)))
    && |agg.byRole| == |Roles|
    && forall k :: 0 <= k < |Roles| ==> RoleEntry(agg.byRole[k], Roles[k], AllAspectScores(cols), CellsOf(cols, RoleColumn))
  }

  /** A role no row holds gets a missing mean for every aspect, as the `else` branch of line 110 gives. */
  lemma AbsentRoleEntry(scores: seq<seq<Score>>, roleCells: seq<Cell>, role: string)
    requires Str(role) !in roleCells
    ensures RoleEntry(RoleScores(role, seq(|scores|, j => None)), role, scores, roleCells)
  {
    forall j | 0 <= j < |scores| ensures ScoresForRole(scores[j], roleCells, role) == [] {
      assert forall i :: 0 <= i < |roleCells| ==> roleCells[i] != Str(role);
    }
  }

  /** Lines 88-89: every aspect column's cells become scores. */
  method ScoreAspects(cols: seq<Column<Cell>>) returns (scores: seq<seq<Score>>)
    ensures scores == AllAspectScores(cols)
  {
    scores := [];
    for j := 0 to |Aspects|
      invariant scores == AllAspectScores(cols)[..j]
    {
      scores := scores + [ScoreColumn(CellsOf(cols, Aspects[j]))];
    }
  }

  /** Lines 105-110: one entry per role, in order, holding its per-aspect means. */
  method RoleAverages(scores: seq<seq<Score>>, roleCells: seq<Cell>) returns (byRole: seq<RoleScores>)
    ensures |byRole| == |Roles|
    ensures forall k :: 0 <= k < |Roles| ==> RoleEntry(byRole[k], Roles[k], scores, roleCells)
  {
    byRole := [];
    for k := 0 to |Roles|
      invariant |byRole| == k
      invariant forall b :: 0 <= b < k ==> RoleEntry(byRole[b], Roles[b], scores, roleCells)
    {
      var role := Roles[k];
      var means: seq<Score>;
      if Str(role) in roleCells {
        means := seq(|scores|, j requires 0 <= j < |scores| => Mean(ScoresForRole(scores[j], roleCells, role)));
      } else {
        means := seq(|scores|, j => None);
        AbsentRoleEntry(scores, roleCells, role);
      }
      byRole := byRole + [RoleScores(role, means)];
    }
  }

  /** Lines 74-110 of `process_data`, on the renamed sheet: check, score, average. */
  method AggregateScores(cols: seq<Column<Cell>>) returns (r: Result<Aggregates, ProcessError>)
    ensures var missing := MissingAspects(Names(cols));
      && (missing != [] ==> r == Failure(MissingAspectColumns(missing)))
      && (missing == [] && RoleColumn !in Names(cols) ==> r == Failure(MissingRoleColumn))
      && (missing == [] && RoleColumn in Names(cols) ==> r.Success? && Summarises(r.value, cols))
  {
    var missing := MissingAspects(Names(cols));
    if missing != [] {
      return Failure(MissingAspectColumns(missing));
    }
    FindPresent(cols, RoleColumn);
    if Find(cols, RoleColumn).None? {
      return Failure(MissingRoleColumn);
    }
    var scores := ScoreAspects(cols);
    var overall := seq(|scores|, j requires 0 <= j < |scores| => Mean(scores[j]));
    var byRole := RoleAverages(scores, CellsOf(cols, RoleColumn));
    r := Success(Aggregates(overall, byRole));
  }

  /** `process_data` on a preprocessed sheet: rename the headers, then aggregate. */
  method ProcessData(columns: seq<Column<Cell>>) returns (r: Result<Aggregates, ProcessError>)
    ensures var cols := RenameColumns(columns);
      var missing := MissingAspects(Names(cols));
      && (missing != [] ==> r == Failure(MissingAspectColumns(missing)))
      && (missing == [] && RoleColumn !in Names(cols) ==> r == Failure(MissingRoleColumn))
      && (missing == [] && RoleColumn in Names(cols) ==> r.Success? && Summarises(r.value, cols))
  {
    r := AggregateScores(RenameColumns(columns));
  }

  // ---------------------------------------------------------------- what the averages mean

  /** The overall score of an aspect is missing exactly when none of its cells holds a digit. */
  lemma OverallMissingIffNoDigit(agg: Aggregates, cols: seq<Column<Cell>>, j: nat)
    requires Summarises(agg, cols) && j < |Aspects|
    ensures var cells := CellsOf(cols, Aspects[j]);
      agg.overall[j].None? <==> forall i :: 0 <= i < |cells| ==> NoDigit(Render(cells[i]))
  {
    var cells := CellsOf(cols, Aspects[j]);
    var scores := AspectScores(cols, j);
    assert forall i :: 0 <= i < |cells| ==> scores[i] == ExtractNumericValue(cells[i]);
  }

  /** The overall score of an aspect whose cells all score within `[lo, hi]` lies in `[lo, hi]`. */
  lemma OverallWithin(agg: Aggregates, cols: seq<Column<Cell>>, j: nat, lo: real, hi: real)
    requires Summarises(agg, cols) && j < |Aspects|
    requires Within(AspectScores(cols, j), lo, hi)
    ensures agg.overall[j].Some? ==> lo <= agg.overall[j].value <= hi
  {
    MeanWithin(AspectScores(cols, j), lo, hi);
  }

  /** A role that no row holds gets a missing score for every aspect; its entry is still there. */
  lemma RoleWithoutRowsIsMissing(agg: Aggregates, cols: seq<Column<Cell>>, k: nat)
    requires Summarises(agg, cols) && k < |Roles|
    requires Str(Roles[k]) !in CellsOf(cols, RoleColumn)
    ensures agg.byRole[k].role == Roles[k]
    ensures |agg.byRole[k].scores| == |Aspects|
    ensures forall j :: 0 <= j < |Aspects| ==> agg.byRole[k].scores[j] == None
  {
    forall j | 0 <= j < |Aspects| ensures agg.byRole[k].scores[j] == None {
      assert ScoresForRole(AspectScores(cols, j), CellsOf(cols, RoleColumn), Roles[k]) == [];
    }
  }

  /** A role's score for an aspect is the mean over the scores of exactly its rows: with
      every row holding the role, it is the overall score. */
  lemma RoleOfEveryRow(agg: Aggregates, cols: seq<Column<Cell>>, k: nat, j: nat)
    requires Summarises(agg, cols) && k < |Roles| && j < |Aspects|
    requires |AspectScores(cols, j)| == |CellsOf(cols, RoleColumn)|
    requires forall i :: 0 <= i < |CellsOf(cols, RoleColumn)| ==> CellsOf(cols, RoleColumn)[i] == Str(Roles[k])
    ensures agg.byRole[k].scores[j] == agg.overall[j]
  {
  }

  /** A sheet whose stripped headers include the nine question headers passes the
      check of line 74: no aspect is missing after renaming. */
  lemma AllQuestionsNoneMissing(cols: seq<Column<Cell>>)
    requires forall i :: 0 <= i < |cols| ==> IsTrimmed(cols[i].name)
    requires forall q :: 0 <= q < |QuestionTopics| ==> QuestionHeader(q) in Names(cols)
    ensures MissingAspects(Names(RenameColumns(cols))) == []
  {
    var renamed := Names(RenameColumns(cols));
    forall q | 0 <= q < |Aspects| ensures Aspects[q] in renamed {
      AspectRenamedFromQuestion(cols, q);
    }
    NoneAbsent(Aspects, renamed);
  }

  lemma AspectRenamedFromQuestion(cols: seq<Column<Cell>>, q: nat)
    requires forall i :: 0 <= i < |cols| ==> IsTrimmed(cols[i].name)
    requires q < |QuestionTopics| && QuestionHeader(q) in Names(cols)
    ensures q < |Aspects| && Aspects[q] in Names(RenameColumns(cols))
  {
    RenameOfTrimmedHeaders(cols);
    AspectColumnMapShape();
    var i :| 0 <= i < |cols| && Names(cols)[i] == QuestionHeader(q);
    assert cols[i].name == QuestionHeader(q);
    assert RenameColumns(cols)[i].name == Aspects[q];
    assert Names(RenameColumns(cols))[i] == Aspects[q];
  }

  /** The title rewrite yields "Architecture Models & Insights Expert", which is none of
      the five roles, so a respondent whose title is rewritten counts under no role. */
  lemma RewrittenTitleHasNoRole(s: string)
    requires Trim(KeepWordAndSpace(s)) == RewriteFrom
    ensures forall k :: 0 <= k < |Roles| ==> CleanTitle(Str(s)) != Str(Roles[k])
  {
    assert CleanTitle(Str(s)) == Str(RewriteTo);
    RewriteToIsNoRole();
  }

  lemma RewriteToIsNoRole()
    ensures forall k :: 0 <= k < |Roles| ==> RewriteTo != Roles[k]
  {
    AmpersandInRewriteTo();
    forall k | 0 <= k < |Roles| ensures |Roles[k]| <= 20 || Roles[k][20] != '&' {
    }
  }

  /** Because `load_excel` strips the headers before `process_data`, a question
      header with surrounding whitespace is still renamed to its aspect: the
      rename on the loaded sheet goes by each header's stripped text. */
  lemma StrippedSheetRenamed(cols: seq<Column<Cell>>)
    ensures var loaded := StripNames(cols);
      forall i :: 0 <= i < |cols| ==>
        RenameColumns(loaded)[i].name ==
          if Trim(cols[i].name) in AspectColumnMap() then AspectColumnMap()[Trim(cols[i].name)] else Trim(cols[i].name)
  {
    RenameOfTrimmedHeaders(StripNames(cols));
  }

  // ---------------------------------------------------------------- load_excel (lines 42-45)

  datatype LoadError =
    | PreprocessFailed(cause: PreprocessError)
    | ProcessFailed(reason: ProcessError)

  /** The steps of `load_excel` after the file is read: preprocess the sheet in place,
      strip its headers, then process it. */
  method LoadExcel(f: Frame) returns (r: Result<Aggregates, LoadError>)
    requires f.Valid()
    modifies f
    ensures f.Valid() && f.height == old(f.height)
    ensures var (pre, sheet) := PreprocessSheet(old(f.columns));
      && (pre.Fail? ==> r == Failure(PreprocessFailed(pre.error)) && f.columns == sheet)
      && (pre.Pass? ==> f.columns == StripNames(sheet))
    ensures PreprocessSheet(old(f.columns)).0.Pass? ==>
      var cols := RenameColumns(f.columns);
      var missing := MissingAspects(Names(cols));
      && (missing != [] ==> r == Failure(ProcessFailed(MissingAspectColumns(missing))))
      && (missing == [] && RoleColumn !in Names(cols) ==> r == Failure(ProcessFailed(MissingRoleColumn)))
      && (missing == [] && RoleColumn in Names(cols) ==> r.Success? && Summarises(r.value, cols))
  {
    var pre := f.Preprocess();
    if pre.Fail? {
      return Failure(PreprocessFailed(pre.error));
    }
    f.StripColumnNames();
    var processed := ProcessData(f.columns);
    match processed
    case Success(agg) => r := Success(agg);
    case Failure(e) => r := Failure(ProcessFailed(e));
  }
}
