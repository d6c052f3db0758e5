/**
 * Per-record scoring against the rule table, and the CSV export of a log list.
 */
module Scoring {
  import opened Types
  import opened Text

  /**
   * What one rule adds for the value its field holds: a boolean rule its
   * multiplier iff the value is exactly `true`; a number rule value times
   * multiplier iff the value is a number. Anything else adds nothing.
   */
  function Contribution(rule: ScoringRule, v: Value): int {
    match rule.kind
    case BooleanKind => if v == B(true) then rule.multiplier else 0
    case NumberKind => if v.N? then v.n * rule.multiplier else 0
  }

  /** The contributions of the given rules, summed in table order. */
  function RulesScore(rules: seq<ScoringRule>, a: Activity): int {
    if |rules| == 0 then 0
    else RulesScore(rules[..|rules| - 1], a) + Contribution(rules[|rules| - 1], Get(a, rules[|rules| - 1].id))
  }

  /** The total score of an activity: its contributions over the whole table. */
  function Score(a: Activity): int {
    RulesScore(SCORING_RULES, a)
  }

  /** The score loop: one pass over the rule table, accumulating into `score`. */
  method CalculateTotalScore(a: Activity) returns (score: int)
    ensures score == Score(a)
  {
    score := 0;
    for i := 0 to |SCORING_RULES|
      invariant score == RulesScore(SCORING_RULES[..i], a)
    {
      assert SCORING_RULES[..i + 1][..i] == SCORING_RULES[..i];
      var rule := SCORING_RULES[i];
      var value := Get(a, rule.id);
      if rule.kind == BooleanKind {
        if value == B(true) {
          score := score + rule.multiplier;
        }
      } else if rule.kind == NumberKind {
        if value.N? {
          score := score + value.n * rule.multiplier;
        }
      }
    }
    assert SCORING_RULES[..|SCORING_RULES|] == SCORING_RULES;
  }

  lemma {:induction false} RulesScoreAppend(r1: seq<ScoringRule>, r2: seq<ScoringRule>, a: Activity)
    ensures RulesScore(r1 + r2, a) == RulesScore(r1, a) + RulesScore(r2, a)
  {
    if |r2| == 0 {
      assert r1 + r2 == r1;
    } else {
      assert (r1 + r2)[..|r1 + r2| - 1] == r1 + r2[..|r2| - 1];
      RulesScoreAppend(r1, r2[..|r2| - 1], a);
    }
  }

  /** Rules that do not mention field f ignore what f holds. */
  lemma {:induction false} RulesScoreFrame(rules: seq<ScoringRule>, a: Activity, f: Field, v: Value)
    requires forall i :: 0 <= i < |rules| ==> rules[i].id != f
    ensures RulesScore(rules, a[f := v]) == RulesScore(rules, a)
  {
    if |rules| > 0 {
      RulesScoreFrame(rules[..|rules| - 1], a, f, v);
    }
  }

  /** Along a table with exactly one rule (at k) for f, changing f changes only that rule's share. */
  lemma {:induction false} RulesScoreUpdate(rules: seq<ScoringRule>, a: Activity, f: Field, v: Value, k: int)
    requires 0 <= k < |rules| && rules[k].id == f
    requires forall i :: 0 <= i < |rules| && i != k ==> rules[i].id != f
    ensures RulesScore(rules, a[f := v]) ==
      RulesScore(rules, a) - Contribution(rules[k], Get(a, f)) + Contribution(rules[k], v)
  {
    var init := rules[..|rules| - 1];
    if k == |rules| - 1 {
      RulesScoreFrame(init, a, f, v);
    } else {
      RulesScoreUpdate(init, a, f, v, k);
    }
  }

  /**
   * Changing one field changes the score by exactly the change in that field's
   * own contribution: no other rule looks at it.
   */
  lemma ScoreUpdate(a: Activity, f: Field, v: Value)
    ensures Score(a[f := v]) == Score(a) - Contribution(RuleFor(f), Get(a, f)) + Contribution(RuleFor(f), v)
  {
    RulesAreOnePerField();
    RulesScoreUpdate(SCORING_RULES, a, f, v, RuleIndex(f));
  }

  /** A boolean field adds its rule's multiplier iff it holds exactly `true`. */
  lemma BooleanFieldScore(a: Activity, f: Field, v: Value)
    requires DeclaredKind(f) == BooleanKind
    ensures Score(a[f := v]) == Score(a[f := Absent]) + (if v == B(true) then RuleFor(f).multiplier else 0)
  {
    RulesFollowSchema();
    ScoreUpdate(a, f, Absent);
    ScoreUpdate(a, f, v);
  }

  /** A number field adds value times multiplier iff it holds a number. */
  lemma NumberFieldScore(a: Activity, f: Field, v: Value)
    requires DeclaredKind(f) == NumberKind
    ensures Score(a[f := v]) == Score(a[f := Absent]) + (if v.N? then v.n * RuleFor(f).multiplier else 0)
  {
    RulesFollowSchema();
    ScoreUpdate(a, f, Absent);
    ScoreUpdate(a, f, v);
  }

  /** The score reads fields only through Get: a stored Absent is the same as a missing key. */
  lemma {:induction false} RulesScoreOnlyReadsFields(rules: seq<ScoringRule>, a: Activity, b: Activity)
    requires forall f :: Get(a, f) == Get(b, f)
    ensures RulesScore(rules, a) == RulesScore(rules, b)
  {
    if |rules| > 0 {
      RulesScoreOnlyReadsFields(rules[..|rules| - 1], a, b);
    }
  }

  /** Missing, false or 0. */
  predicate InertValue(v: Value) {
    match v
    case Absent => true
    case B(b) => !b
    case N(n) => n == 0
  }

  /** No field holds `true` or a non-zero number. */
  predicate Inert(a: Activity) {
    forall f :: InertValue(Get(a, f))
  }

  lemma {:induction false} RulesScoreInert(rules: seq<ScoringRule>, a: Activity)
    requires Inert(a)
    ensures RulesScore(rules, a) == 0
  {
    if |rules| > 0 {
      RulesScoreInert(rules[..|rules| - 1], a);
      assert InertValue(Get(a, rules[|rules| - 1].id));
    }
  }

  /** An empty log, or one whose fields are all false or 0, scores 0. */
  lemma InertScoresZero(a: Activity)
    requires Inert(a)
    ensures Score(a) == 0
  {
    RulesScoreInert(SCORING_RULES, a);
  }

  /** No number is negative. */
  predicate NonNegative(a: Activity) {
    forall f :: Get(a, f).N? ==> Get(a, f).n >= 0
  }

  lemma {:induction false} RulesScoreNonNegative(rules: seq<ScoringRule>, a: Activity)
    requires NonNegative(a)
    requires forall i :: 0 <= i < |rules| ==> rules[i].multiplier > 0
    ensures RulesScore(rules, a) >= 0
  {
    if |rules| > 0 {
      RulesScoreNonNegative(rules[..|rules| - 1], a);
      var f := rules[|rules| - 1].id;
      assert Get(a, f).N? ==> Get(a, f).n >= 0;
    }
  }

  /** With non-negative counts the total score is non-negative. */
  lemma ScoreNonNegative(a: Activity)
    requires NonNegative(a)
    ensures Score(a) >= 0
  {
    MultipliersArePositive();
    RulesScoreNonNegative(SCORING_RULES, a);
  }

  /** Raising a count never lowers the score. */
  lemma RaisingCountIsMonotone(a: Activity, f: Field, n: int)
    requires DeclaredKind(f) == NumberKind
    requires Get(a, f).N? && Get(a, f).n <= n
    ensures Score(a[f := N(n)]) >= Score(a)
  {
    var rule := RuleFor(f);
    assert rule.kind == NumberKind && rule.multiplier > 0 by {
      RulesFollowSchema();
      MultipliersArePositive();
    }
    ScoreUpdate(a, f, N(n));
    MultiplyMonotone(Get(a, f).n, n, rule.multiplier);
  }

  lemma MultiplyMonotone(x: int, y: int, m: int)
    requires x <= y && m > 0
    ensures x * m <= y * m
  {
  }

  /** Setting a boolean field to true never lowers the score. */
  lemma SettingTrueIsMonotone(a: Activity, f: Field)
    requires DeclaredKind(f) == BooleanKind
    ensures Score(a[f := B(true)]) >= Score(a)
  {
    RulesFollowSchema();
    MultipliersArePositive();
    ScoreUpdate(a, f, B(true));
  }

  /** affirmations = true and pagesRead = 20 score 10 + 20 * 5 = 110. */
  lemma ExampleAffirmationsAndPages()
    ensures Score(map[Affirmations := B(true), PagesRead := N(20)]) == 110
  {
    var a := map[Affirmations := B(true), PagesRead := N(20)];
    assert Score(map[]) == 0 by {
      InertScoresZero(map[]);
    }
    assert a == map[][Affirmations := B(true)][PagesRead := N(20)];
    ScoreUpdate(map[], Affirmations, B(true));
    ScoreUpdate(map[][Affirmations := B(true)], PagesRead, N(20));
  }

  /** unitsCompleted = 2 and mockTest = true score 2 * 100 + 50 = 250. */
  lemma ExampleUnitsAndMockTest()
    ensures Score(map[UnitsCompleted := N(2), MockTest := B(true)]) == 250
  {
    var a := map[UnitsCompleted := N(2), MockTest := B(true)];
    assert Score(map[]) == 0 by {
      InertScoresZero(map[]);
    }
    assert a == map[][UnitsCompleted := N(2)][MockTest := B(true)];
    ScoreUpdate(map[], UnitsCompleted, N(2));
    ScoreUpdate(map[][UnitsCompleted := N(2)], MockTest, B(true));
  }

  // ---------------------------------------------------------------- CSV export

  /** Header cell of a rule: its label and multiplier. */
  function RuleHeader(rule: ScoringRule): string {
    rule.name + " (" + IntToString(rule.multiplier) + " pts)"
  }

  function RuleHeaders(rules: seq<ScoringRule>): (r: seq<string>)
    ensures |r| == |rules| && forall i :: 0 <= i < |rules| ==> r[i] == RuleHeader(rules[i])
  {
    seq(|rules|, i requires 0 <= i < |rules| => RuleHeader(rules[i]))
  }

  function HeaderCells(): seq<string> {
    ["Date", "Total Score"] + RuleHeaders(SCORING_RULES) + ["AI Feedback"]
  }

  /**
   * One field's cell: Yes/No for a boolean, the number in decimal, and the
   * empty string for a missing field (how `join` writes `undefined`).
   */
  function Cell(v: Value): string {
    match v
    case B(b) => if b then "Yes" else "No"
    case N(n) => IntToString(n)
    case Absent => ""
  }

  function FieldCells(rules: seq<ScoringRule>, a: Activity): (r: seq<string>)
    ensures |r| == |rules| && forall i :: 0 <= i < |rules| ==> r[i] == Cell(Get(a, rules[i].id))
  {
    if |rules| == 0 then [] else FieldCells(rules[..|rules| - 1], a) + [Cell(Get(a, rules[|rules| - 1].id))]
  }

  /** Every `"` doubled. */
  function EscapeQuotes(s: string): (r: string)
    ensures |r| >= |s|
  {
    if |s| == 0 then ""
    else (if s[0] == '"' then "\"\"" else [s[0]]) + EscapeQuotes(s[1..])
  }

  /** The inverse of EscapeQuotes: a doubled `"` is one quote; a lone `"` is malformed. */
  function UnescapeQuotes(s: string): Option<string>
    decreases |s|
  {
    if |s| == 0 then Some("")
    else if s[0] != '"' then
      match UnescapeQuotes(s[1..])
      case Some(t) => Some([s[0]] + t)
      case None => None
    else if |s| >= 2 && s[1] == '"' then
      match UnescapeQuotes(s[2..])
      case Some(t) => Some("\"" + t)
      case None => None
    else None
  }

  /** The feedback cell: the text, or '' when there is none, quoted with inner quotes doubled. */
  function FeedbackCell(feedback: Option<string>): string {
    "\"" + EscapeQuotes(feedback.GetOr("")) + "\""
  }

  /** Reading a quoted cell back: strip the outer quotes and undouble the inner ones. */
  function ReadQuotedCell(cell: string): Option<string> {
    if |cell| >= 2 && cell[0] == '"' && cell[|cell| - 1] == '"' then UnescapeQuotes(cell[1..|cell| - 1])
    else None
  }

  lemma {:induction false} UnescapeEscape(s: string)
    ensures UnescapeQuotes(EscapeQuotes(s)) == Some(s)
  {
    if |s| > 0 {
      UnescapeEscape(s[1..]);
      var e := EscapeQuotes(s);
      if s[0] == '"' {
        assert e[0] == '"' && e[1] == '"';
        assert e[2..] == EscapeQuotes(s[1..]);
        assert s == "\"" + s[1..];
      } else {
        assert e[0] == s[0];
        assert e[1..] == EscapeQuotes(s[1..]);
        assert s == [s[0]] + s[1..];
      }
    }
  }

  /** Un-escaping the feedback cell recovers the stored feedback text. */
  lemma FeedbackCellRoundTrip(feedback: Option<string>)
    ensures ReadQuotedCell(FeedbackCell(feedback)) == Some(feedback.GetOr(""))
  {
    var cell := FeedbackCell(feedback);
    assert cell[1..|cell| - 1] == EscapeQuotes(feedback.GetOr(""));
    UnescapeEscape(feedback.GetOr(""));
  }

  /** The cells of one log's row; the date cell is the stored date text. */
  function RowCells(log: DailyLog, dateText: Day -> string): seq<string> {
    [dateText(log.date), IntToString(log.totalScore)]
      + FieldCells(SCORING_RULES, log.activity)
      + [FeedbackCell(log.aiFeedback)]
  }

  function Row(log: DailyLog, dateText: Day -> string): string {
    Join(RowCells(log, dateText), ",")
  }

  function Rows(logs: seq<DailyLog>, dateText: Day -> string): (r: seq<string>)
    ensures |r| == |logs| && forall i :: 0 <= i < |logs| ==> r[i] == Row(logs[i], dateText)
  {
    if |logs| == 0 then [] else Rows(logs[..|logs| - 1], dateText) + [Row(logs[|logs| - 1], dateText)]
  }

  /** `generateCSV`: '' for no logs, otherwise the header line and one row per log. */
  function GenerateCsv(logs: seq<DailyLog>, dateText: Day -> string): string {
    if |logs| == 0 then ""
    else Join([Join(HeaderCells(), ",")] + Rows(logs, dateText), "\n")
  }

  /** The export is empty exactly when there are no logs. */
  lemma CsvEmptyIff(logs: seq<DailyLog>, dateText: Day -> string)
    ensures GenerateCsv(logs, dateText) == "" <==> |logs| == 0
  {
    if |logs| > 0 {
      var header := HeaderCells();
      assert |header[0]| == 4;
      var lines := [Join(header, ",")] + Rows(logs, dateText);
      assert lines[0] == Join(header, ",");
    }
  }

  /** The header has the date, the score, one cell per rule in table order, and the feedback. */
  lemma HeaderShape()
    ensures |HeaderCells()| == 15
    ensures HeaderCells()[0] == "Date" && HeaderCells()[1] == "Total Score" && HeaderCells()[14] == "AI Feedback"
    ensures forall i :: 0 <= i < 12 ==> HeaderCells()[i + 2] == RuleHeader(SCORING_RULES[i])
  {
    var hs := RuleHeaders(SCORING_RULES);
    var cells := ["Date", "Total Score"] + hs + ["AI Feedback"];
    forall i | 0 <= i < 12 ensures cells[i + 2] == RuleHeader(SCORING_RULES[i]) {
      assert cells[i + 2] == hs[i];
    }
  }

  /** A row lines up with the header: date, score, one cell per rule, then the quoted feedback. */
  lemma RowShape(log: DailyLog, dateText: Day -> string)
    ensures |RowCells(log, dateText)| == 15
    ensures RowCells(log, dateText)[0] == dateText(log.date)
    ensures RowCells(log, dateText)[1] == IntToString(log.totalScore)
    ensures RowCells(log, dateText)[14] == FeedbackCell(log.aiFeedback)
    ensures forall i :: 0 <= i < 12 ==> RowCells(log, dateText)[i + 2] == Cell(Get(log.activity, SCORING_RULES[i].id))
  {
    var fs := FieldCells(SCORING_RULES, log.activity);
    var cells := [dateText(log.date), IntToString(log.totalScore)] + fs + [FeedbackCell(log.aiFeedback)];
    forall i | 0 <= i < 12 ensures cells[i + 2] == Cell(Get(log.activity, SCORING_RULES[i].id)) {
      assert cells[i + 2] == fs[i];
    }
  }

  /** A single log gives the header line, a newline and its row. */
  lemma CsvOfOne(log: DailyLog, dateText: Day -> string)
    ensures GenerateCsv([log], dateText) == Join(HeaderCells(), ",") + "\n" + Row(log, dateText)
  {
    var lines := [Join(HeaderCells(), ",")] + Rows([log], dateText);
    assert lines == [Join(HeaderCells(), ","), Row(log, dateText)];
    assert lines[..1] == [Join(HeaderCells(), ",")];
    assert Join(lines, "\n") == Join(lines[..1], "\n") + "\n" + lines[1];
  }

  /** Appending a log appends a newline and its row: rows come out in input order. */
  lemma CsvSnoc(logs: seq<DailyLog>, log: DailyLog, dateText: Day -> string)
    requires |logs| > 0
    ensures GenerateCsv(logs + [log], dateText) == GenerateCsv(logs, dateText) + "\n" + Row(log, dateText)
  {
    var lines := [Join(HeaderCells(), ",")] + Rows(logs + [log], dateText);
    assert (logs + [log])[..|logs|] == logs;
    assert lines[..|lines| - 1] == [Join(HeaderCells(), ",")] + Rows(logs, dateText);
  }
}
