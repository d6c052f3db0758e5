/**
 * The weekly report: the logs of the current Monday-to-Sunday week, their
 * score per weekday, the summed counts, the points per category, the number
 * of distinct days tracked and the average per tracked day.
 */
module WeeklyReport {
  import opened Types
  import opened Sums
  import opened Scoring
  import opened Calendar
  import opened Gamification

  function InWeekOf(monday: Day): DailyLog -> bool {
    (log: DailyLog) => InWeek(monday, log.date)
  }

  /** The logs dated from Monday 00:00 to Sunday 23:59:59.999 of the week starting at `monday`. */
  function WeekLogs(logs: seq<DailyLog>, monday: Day): seq<DailyLog> {
    Filter(logs, InWeekOf(monday))
  }

  /** Exactly the logs of the window are kept, in their order. */
  lemma WeekLogsMeaning(logs: seq<DailyLog>, monday: Day, x: DailyLog)
    ensures x in WeekLogs(logs, monday) <==> x in logs && InWeek(monday, x.date)
  {
    var r := WeekLogs(logs, monday);
    if x in r {
      var i :| 0 <= i < |r| && r[i] == x;
    }
    if x in logs && InWeek(monday, x.date) {
      var i :| 0 <= i < |logs| && logs[i] == x;
    }
  }

  /** Column k (Mon..Sun) of the chart collects the logs whose `getDay()` is this. */
  function TargetDay(k: int): int {
    if k == 6 then 0 else k + 1
  }

  function OnWeekday(w: int): DailyLog -> bool {
    (log: DailyLog) => WeekdayOf(log.date) == w
  }

  /** The summed score of the logs falling on weekday w. */
  function WeekdayTotal(week: seq<DailyLog>, w: int): int {
    Sum(Filter(week, OnWeekday(w)), TotalScoreOf)
  }

  /** `dailyScores`: seven entries, Monday first and Sunday last. */
  function DailyScores(week: seq<DailyLog>): (r: seq<int>)
    ensures |r| == 7 && forall k :: 0 <= k < 7 ==> r[k] == WeekdayTotal(week, TargetDay(k))
  {
    seq(7, k requires 0 <= k < 7 => WeekdayTotal(week, TargetDay(k)))
  }

  function TotalScore(week: seq<DailyLog>): int {
    Sum(week, TotalScoreOf)
  }

  /** What a log adds to the total of weekday w. */
  function ScoreOnWeekday(log: DailyLog, w: int): int {
    if WeekdayOf(log.date) == w then log.totalScore else 0
  }

  /** A log falls on exactly one of the seven weekdays. */
  lemma OneWeekday(log: DailyLog)
    ensures ScoreOnWeekday(log, 0) + ScoreOnWeekday(log, 1) + ScoreOnWeekday(log, 2) + ScoreOnWeekday(log, 3)
      + ScoreOnWeekday(log, 4) + ScoreOnWeekday(log, 5) + ScoreOnWeekday(log, 6) == log.totalScore
  {
  }

  /** Appending a log adds its score to its own weekday's total only. */
  lemma WeekdayTotalSnoc(init: seq<DailyLog>, last: DailyLog, w: int)
    ensures WeekdayTotal(init + [last], w) == WeekdayTotal(init, w) + ScoreOnWeekday(last, w)
  {
    var week := init + [last];
    assert week[..|week| - 1] == init;
    if WeekdayOf(last.date) == w {
      assert Filter(week, OnWeekday(w)) == Filter(init, OnWeekday(w)) + [last];
      SumAppend(Filter(init, OnWeekday(w)), [last], TotalScoreOf);
    } else {
      assert Filter(week, OnWeekday(w)) == Filter(init, OnWeekday(w));
    }
  }

  /** The seven weekday totals of a week. */
  function AllWeekdays(week: seq<DailyLog>): int {
    WeekdayTotal(week, 0) + WeekdayTotal(week, 1) + WeekdayTotal(week, 2) + WeekdayTotal(week, 3)
      + WeekdayTotal(week, 4) + WeekdayTotal(week, 5) + WeekdayTotal(week, 6)
  }

  /** Appending a log adds its score to the seven totals together. */
  lemma AllWeekdaysSnoc(init: seq<DailyLog>, last: DailyLog)
    ensures AllWeekdays(init + [last]) == AllWeekdays(init) + last.totalScore
  {
    WeekdayTotalSnoc(init, last, 0);
    WeekdayTotalSnoc(init, last, 1);
    WeekdayTotalSnoc(init, last, 2);
    WeekdayTotalSnoc(init, last, 3);
    WeekdayTotalSnoc(init, last, 4);
    WeekdayTotalSnoc(init, last, 5);
    WeekdayTotalSnoc(init, last, 6);
    OneWeekday(last);
  }

  lemma {:induction false} WeekdayTotalsCover(week: seq<DailyLog>)
    ensures AllWeekdays(week) == TotalScore(week)
  {
    if |week| > 0 {
      var init, last := week[..|week| - 1], week[|week| - 1];
      assert week == init + [last];
      WeekdayTotalsCover(init);
      AllWeekdaysSnoc(init, last);
    }
  }

  /** Every log falls on exactly one weekday, so the seven columns add up to the week's total. */
  lemma DailyScoresSumToTotal(week: seq<DailyLog>)
    ensures var ds := DailyScores(week);
      ds[0] + ds[1] + ds[2] + ds[3] + ds[4] + ds[5] + ds[6] == TotalScore(week)
  {
    WeekdayTotalsCover(week);
  }

  /** Within the week, day `monday + k` lands in column k and in no other. */
  lemma ColumnOfDay(monday: Day, d: Day, k: int)
    requires WeekdayOf(monday) == 1 && InWeek(monday, d) && 0 <= k < 7
    ensures TargetDay(k) == WeekdayOf(d) <==> k == d - monday
  {
    WeekdayInWeek(monday, d);
  }

  /** Column k of the chart is the total of the week's logs dated `monday + k`. */
  lemma DailyScoreIsDateTotal(logs: seq<DailyLog>, monday: Day, k: int)
    requires WeekdayOf(monday) == 1 && 0 <= k < 7
    ensures DailyScores(WeekLogs(logs, monday))[k] == DayTotal(WeekLogs(logs, monday), monday + k)
  {
    var week := WeekLogs(logs, monday);
    forall i | 0 <= i < |week| ensures OnWeekday(TargetDay(k))(week[i]) == OnDate(monday + k)(week[i]) {
      ColumnOfDay(monday, week[i].date, k);
    }
    FilterCongruent(week, OnWeekday(TargetDay(k)), OnDate(monday + k));
  }

  // ------------------------------------------------------- detailed stats

  /** `detailedStats`: the week's sums of the seven count fields. */
  datatype DetailedStats = DetailedStats(
    pagesRead: int, pagesWritten: int, questionsSolved: int, topicsCompleted: int,
    unitsCompleted: int, pianoTime: int, lectureDuration: int)

  function StatsOf(week: seq<DailyLog>): DetailedStats {
    DetailedStats(
      FieldSum(week, PagesRead), FieldSum(week, PagesWritten), FieldSum(week, QuestionsSolved),
      FieldSum(week, TopicsCompleted), FieldSum(week, UnitsCompleted), FieldSum(week, PianoTime),
      FieldSum(week, LectureDuration))
  }

  function AddStats(s: DetailedStats, a: Activity): DetailedStats {
    DetailedStats(
      s.pagesRead + NumOrZero(Get(a, PagesRead)),
      s.pagesWritten + NumOrZero(Get(a, PagesWritten)),
      s.questionsSolved + NumOrZero(Get(a, QuestionsSolved)),
      s.topicsCompleted + NumOrZero(Get(a, TopicsCompleted)),
      s.unitsCompleted + NumOrZero(Get(a, UnitsCompleted)),
      s.pianoTime + NumOrZero(Get(a, PianoTime)),
      s.lectureDuration + NumOrZero(Get(a, LectureDuration)))
  }

  // ----------------------------------------------------- category scores

  /** `categoryScores`, one total per category. */
  datatype CategoryScores = CategoryScores(mindset: int, study: int, healthAndHobbies: int)

  /** The points a rule gives here: `true` gives the multiplier and a number n times it, whatever the rule's kind. */
  function Points(rule: ScoringRule, v: Value): int {
    match v
    case B(b) => if b then rule.multiplier else 0
    case N(n) => n * rule.multiplier
    case Absent => 0
  }

  /** The points of one activity under the rules of category c. */
  function CategoryPoints(rules: seq<ScoringRule>, a: Activity, c: Category): int {
    if |rules| == 0 then 0
    else
      var rule := rules[|rules| - 1];
      CategoryPoints(rules[..|rules| - 1], a, c) + (if rule.category == c then Points(rule, Get(a, rule.id)) else 0)
  }

  function CategoryPointsOf(c: Category): DailyLog -> int {
    (log: DailyLog) => CategoryPoints(SCORING_RULES, log.activity, c)
  }

  function CategoriesOf(week: seq<DailyLog>): CategoryScores {
    CategoryScores(
      Sum(week, CategoryPointsOf(Mindset)),
      Sum(week, CategoryPointsOf(Study)),
      Sum(week, CategoryPointsOf(HealthAndHobbies)))
  }

  function AddPoints(cs: CategoryScores, c: Category, points: int): CategoryScores {
    match c
    case Mindset => cs.(mindset := cs.mindset + points)
    case Study => cs.(study := cs.study + points)
    case HealthAndHobbies => cs.(healthAndHobbies := cs.healthAndHobbies + points)
  }

  function Shift(base: CategoryScores, rules: seq<ScoringRule>, a: Activity): CategoryScores {
    CategoryScores(
      base.mindset + CategoryPoints(rules, a, Mindset),
      base.study + CategoryPoints(rules, a, Study),
      base.healthAndHobbies + CategoryPoints(rules, a, HealthAndHobbies))
  }

  /**
   * The nested `forEach` of the report: each week log adds its counts to the
   * stats and, rule by rule, its points to the rule's category.
   */
  method Aggregate(week: seq<DailyLog>) returns (stats: DetailedStats, categories: CategoryScores)
    ensures stats == StatsOf(week) && categories == CategoriesOf(week)
  {
    stats := DetailedStats(0, 0, 0, 0, 0, 0, 0);
    categories := CategoryScores(0, 0, 0);
    for i := 0 to |week|
      invariant stats == StatsOf(week[..i])
      invariant categories == CategoriesOf(week[..i])
    {
      var log := week[i];
      AggregateStep(week[..i], log);
      assert week[..i + 1] == week[..i] + [log];
      stats := AddStats(stats, log.activity);
      categories := AddLogPoints(categories, log.activity);
    }
    assert week[..|week|] == week;
  }

  /** The inner `forEach` over the rules: each rule adds its points to its category. */
  method AddLogPoints(base: CategoryScores, a: Activity) returns (categories: CategoryScores)
    ensures categories == Shift(base, SCORING_RULES, a)
  {
    categories := base;
    for j := 0 to |SCORING_RULES|
      invariant categories == Shift(base, SCORING_RULES[..j], a)
    {
      var rule := SCORING_RULES[j];
      ShiftSnoc(base, SCORING_RULES[..j], rule, a);
      assert SCORING_RULES[..j + 1] == SCORING_RULES[..j] + [rule];
      var points := Points(rule, Get(a, rule.id));
      categories := AddPoints(categories, rule.category, points);
    }
    assert SCORING_RULES[..|SCORING_RULES|] == SCORING_RULES;
  }

  /** One more rule adds its points to its own category. */
  lemma ShiftSnoc(base: CategoryScores, rules: seq<ScoringRule>, rule: ScoringRule, a: Activity)
    ensures Shift(base, rules + [rule], a) == AddPoints(Shift(base, rules, a), rule.category, Points(rule, Get(a, rule.id)))
  {
    assert (rules + [rule])[..|rules|] == rules;
  }

  /** One more log adds its counts to the stats and its category points to the categories. */
  lemma AggregateStep(init: seq<DailyLog>, log: DailyLog)
    ensures StatsOf(init + [log]) == AddStats(StatsOf(init), log.activity)
    ensures CategoriesOf(init + [log]) == Shift(CategoriesOf(init), SCORING_RULES, log.activity)
  {
    assert (init + [log])[..|init|] == init;
  }

  /** Where a value has its rule's declared type, the report's points agree with the score's contribution. */
  lemma {:induction false} CategoriesAddUp(rules: seq<ScoringRule>, a: Activity)
    requires forall i :: 0 <= i < |rules| ==> Points(rules[i], Get(a, rules[i].id)) == Contribution(rules[i], Get(a, rules[i].id))
    ensures CategoryPoints(rules, a, Mindset) + CategoryPoints(rules, a, Study)
      + CategoryPoints(rules, a, HealthAndHobbies) == RulesScore(rules, a)
  {
    if |rules| > 0 {
      CategoriesAddUp(rules[..|rules| - 1], a);
    }
  }

  /** For a log whose fields have their declared types, the three category points add up to its score. */
  lemma CategoryPointsMakeScore(a: Activity)
    requires WellTyped(a)
    ensures CategoryPoints(SCORING_RULES, a, Mindset) + CategoryPoints(SCORING_RULES, a, Study)
      + CategoryPoints(SCORING_RULES, a, HealthAndHobbies) == Score(a)
  {
    forall i | 0 <= i < |SCORING_RULES|
      ensures Points(SCORING_RULES[i], Get(a, SCORING_RULES[i].id)) == Contribution(SCORING_RULES[i], Get(a, SCORING_RULES[i].id))
    {
      var rule := SCORING_RULES[i];
      EntryIsRuleFor(rule);
      PointsAgree(a, rule.id);
    }
    CategoriesAddUp(SCORING_RULES, a);
  }

  /** A value of its field's declared type earns the same under both readings. */
  lemma PointsAgree(a: Activity, f: Field)
    requires WellTyped(a)
    ensures Points(RuleFor(f), Get(a, f)) == Contribution(RuleFor(f), Get(a, f))
  {
    FieldRule(f);
    if f in a {
      assert match a[f] case Absent => true case B(_) => DeclaredKind(f) == BooleanKind case N(_) => DeclaredKind(f) == NumberKind;
    }
  }

  lemma {:induction false} CategoryPointsOfEmpty(rules: seq<ScoringRule>, c: Category)
    ensures CategoryPoints(rules, map[], c) == 0
  {
    if |rules| > 0 {
      CategoryPointsOfEmpty(rules[..|rules| - 1], c);
    }
  }

  lemma {:induction false} CategoryPointsFrame(rules: seq<ScoringRule>, a: Activity, f: Field, v: Value, c: Category)
    requires forall i :: 0 <= i < |rules| ==> rules[i].id != f
    ensures CategoryPoints(rules, a[f := v], c) == CategoryPoints(rules, a, c)
  {
    if |rules| > 0 {
      CategoryPointsFrame(rules[..|rules| - 1], a, f, v, c);
    }
  }

  /** Along a table with exactly one rule (at k) for f, changing f changes only that rule's points, in that rule's category. */
  lemma {:induction false} CategoryPointsUpdate(rules: seq<ScoringRule>, a: Activity, f: Field, v: Value, k: int, c: Category)
    requires 0 <= k < |rules| && rules[k].id == f
    requires forall i :: 0 <= i < |rules| && i != k ==> rules[i].id != f
    ensures CategoryPoints(rules, a[f := v], c) == CategoryPoints(rules, a, c) +
      (if rules[k].category == c then Points(rules[k], v) - Points(rules[k], Get(a, f)) else 0)
  {
    var init := rules[..|rules| - 1];
    if k == |rules| - 1 {
      CategoryPointsFrame(init, a, f, v, c);
    } else {
      CategoryPointsUpdate(init, a, f, v, k, c);
    }
  }

  /** A mistyped value is where the two differ: `true` stored for pages read counts 5 here and nothing in the score. */
  lemma MistypedValueCountsOnlyInCategories()
    ensures var a := map[PagesRead := B(true)];
      CategoryPoints(SCORING_RULES, a, Study) == 5 && Score(a) == 0
  {
    var empty: Activity := map[];
    assert empty[PagesRead := B(true)] == map[PagesRead := B(true)];
    RulesAreOnePerField();
    CategoryPointsOfEmpty(SCORING_RULES, Study);
    CategoryPointsUpdate(SCORING_RULES, empty, PagesRead, B(true), 4, Study);
    ScoreUpdate(empty, PagesRead, B(true));
    InertScoresZero(empty);
  }

  // --------------------------------------------------------- days tracked

  /** The distinct dates among the logs. */
  function Dates(week: seq<DailyLog>): (ds: set<Day>)
    ensures forall d :: d in ds <==> Logged(week, d)
  {
    if |week| == 0 then {}
    else
      var init := week[..|week| - 1];
      assert forall i :: 0 <= i < |init| ==> init[i] == week[i];
      Dates(init) + {week[|week| - 1].date}
  }

  function DaysTracked(week: seq<DailyLog>): nat {
    |Dates(week)|
  }

  lemma {:induction false} DatesAtMostLogs(week: seq<DailyLog>)
    ensures |Dates(week)| <= |week|
  {
    if |week| > 0 {
      DatesAtMostLogs(week[..|week| - 1]);
    }
  }

  /** The n days from lo on. */
  function Interval(lo: int, n: nat): (r: set<int>)
    ensures forall d :: d in r <==> lo <= d < lo + n
  {
    if n == 0 then {} else Interval(lo, n - 1) + {lo + n - 1}
  }

  lemma {:induction false} IntervalSize(lo: int, n: nat)
    ensures |Interval(lo, n)| == n
  {
    if n > 0 {
      var before := Interval(lo, n - 1);
      IntervalSize(lo, n - 1);
      assert lo + n - 1 !in before;
      assert |before + {lo + n - 1}| == |before| + 1;
    }
  }

  lemma DatesInWeek(logs: seq<DailyLog>, monday: Day)
    ensures Dates(WeekLogs(logs, monday)) <= Interval(monday, 7)
  {
    var week := WeekLogs(logs, monday);
    forall d | d in Dates(week) ensures d in Interval(monday, 7) {
      var i :| 0 <= i < |week| && week[i].date == d;
      assert InWeekOf(monday)(week[i]);
    }
  }

  /** `daysTracked` is 0 iff no log is in the week, at most the number of week logs, and at most 7. */
  lemma DaysTrackedBounds(logs: seq<DailyLog>, monday: Day)
    ensures var week := WeekLogs(logs, monday);
      (DaysTracked(week) == 0 <==> |week| == 0) && DaysTracked(week) <= |week| && DaysTracked(week) <= 7
  {
    var week := WeekLogs(logs, monday);
    var ds := Dates(week);
    DatesAtMostLogs(week);
    if |week| > 0 {
      assert Logged(week, week[0].date);
      assert week[0].date in ds;
    }
    DatesInWeek(logs, monday);
    IntervalSize(monday, 7);
    SubsetSize(ds, Interval(monday, 7));
  }

  lemma SubsetSize(a: set<int>, b: set<int>)
    requires a <= b
    ensures |a| <= |b|
  {
    assert b == a + (b - a);
  }

  /** With one log per date, each week log is its own tracked day. */
  lemma {:induction false} DaysTrackedOfUniqueDates(week: seq<DailyLog>)
    requires forall i, j :: 0 <= i < j < |week| ==> week[i].date != week[j].date
    ensures DaysTracked(week) == |week|
  {
    if |week| > 0 {
      var init := week[..|week| - 1];
      DaysTrackedOfUniqueDates(init);
      assert week[|week| - 1].date !in Dates(init);
    }
  }

  /** `avgScore`: 0 with no tracked day, otherwise the week's total over the tracked days, rounded to nearest. */
  function AvgScore(week: seq<DailyLog>): (avg: int)
    ensures DaysTracked(week) == 0 ==> avg == 0
    ensures DaysTracked(week) > 0 ==> var n := DaysTracked(week);
      2 * n * avg - n <= 2 * TotalScore(week) < 2 * n * avg + n
  {
    if DaysTracked(week) > 0 then RoundDiv(TotalScore(week), DaysTracked(week)) else 0
  }

  // ------------------------------------------------------------ the report

  datatype WeeklyData = WeeklyData(
    dailyScores: seq<int>, categoryScores: CategoryScores, totalScore: int, avgScore: int,
    daysTracked: nat, detailedStats: DetailedStats, startDate: Day, endDate: Day)

  /** The `weeklyData` memo for the week containing `today`. */
  method ComputeWeeklyData(logs: seq<DailyLog>, today: Day) returns (data: WeeklyData)
    ensures var week := WeekLogs(logs, WeekMonday(today));
      data == WeeklyData(DailyScores(week), CategoriesOf(week), TotalScore(week), AvgScore(week),
        DaysTracked(week), StatsOf(week), WeekMonday(today), WeekMonday(today) + 6)
  {
    var monday := WeekMonday(today);
    var week := WeekLogs(logs, monday);
    var stats, categories := Aggregate(week);
    data := WeeklyData(DailyScores(week), categories, TotalScore(week), AvgScore(week),
      DaysTracked(week), stats, monday, monday + 6);
  }
}
