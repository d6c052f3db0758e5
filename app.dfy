/**
 * The collection of saved logs as the app keeps it: the form that a date
 * selection loads, saving the form as an upsert by date, deleting by id,
 * giving every loaded log an id, and the chart window and all-time average.
 */
module App {
  import opened Types
  import opened Sums
  import opened Scoring
  import opened Gamification

  /** The form for a date with no log: every box unticked and every count 0. */
  const INITIAL_LOG_STATE: Activity := map[
    Affirmations := B(false), DiaryEntry := B(false), QuestionsSolved := N(0),
    PagesRead := N(0), PagesWritten := N(0), MockTest := B(false),
    TopicsCompleted := N(0), UnitsCompleted := N(0), LectureDuration := N(0),
    PostDinnerWalk := B(false), Workout := B(false), PianoTime := N(0)]

  /**
   * The form being edited: a partial log. After a date selection it is a copy
   * of that date's log, id and feedback included; otherwise it has neither.
   */
  datatype Draft = Draft(id: Option<string>, activity: Activity, aiFeedback: Option<string>)

  const INITIAL_DRAFT: Draft := Draft(None, INITIAL_LOG_STATE, None)

  /** Every activity field is set. */
  predicate Complete(a: Activity) {
    forall f: Field :: f in a
  }

  /** The initial form sets every field, and it scores 0. */
  lemma InitialStateScoresZero()
    ensures Complete(INITIAL_LOG_STATE) && Score(INITIAL_LOG_STATE) == 0
  {
    forall f: Field ensures f in INITIAL_LOG_STATE && InertValue(Get(INITIAL_LOG_STATE, f)) {
      match f
      case Affirmations =>
      case DiaryEntry =>
      case QuestionsSolved =>
      case PagesRead =>
      case PagesWritten =>
      case MockTest =>
      case TopicsCompleted =>
      case UnitsCompleted =>
      case LectureDuration =>
      case PostDinnerWalk =>
      case Workout =>
      case PianoTime =>
    }
    InertScoresZero(INITIAL_LOG_STATE);
  }

  /** `findIndex` by date: the first position holding a log of day d, or -1. */
  function FindByDate(logs: seq<DailyLog>, d: Day): (i: int)
    ensures -1 <= i < |logs|
    ensures i >= 0 ==> logs[i].date == d && forall j :: 0 <= j < i ==> logs[j].date != d
    ensures i == -1 <==> forall j :: 0 <= j < |logs| ==> logs[j].date != d
  {
    if |logs| == 0 then -1
    else if logs[0].date == d then 0
    else
      var k := FindByDate(logs[1..], d);
      assert forall j :: 1 <= j < |logs| ==> logs[j] == logs[1..][j - 1];
      if k == -1 then -1 else k + 1
  }

  /** Selecting a date loads a copy of its first log into the form, or the initial form. */
  function SelectDate(logs: seq<DailyLog>, d: Day): Draft {
    var i := FindByDate(logs, d);
    if i >= 0 then Draft(Some(logs[i].id), logs[i].activity, logs[i].aiFeedback)
    else INITIAL_DRAFT
  }

  /** The form a selection loads scores what the date's log holds, or 0 for a date without one. */
  lemma SelectDateLoads(logs: seq<DailyLog>, d: Day)
    ensures var i := FindByDate(logs, d);
      var form := SelectDate(logs, d);
      (i >= 0 ==>
        form.activity == logs[i].activity && form.id == Some(logs[i].id) &&
        form.aiFeedback == logs[i].aiFeedback && Score(form.activity) == Score(logs[i].activity)) &&
      (i < 0 ==> form == INITIAL_DRAFT && Score(form.activity) == 0 && !Logged(logs, d))
  {
    InitialStateScoresZero();
  }

  /** `handleInputChange`: one field of the form takes a new value. */
  function SetField(draft: Draft, f: Field, v: Value): (r: Draft)
    ensures Get(r.activity, f) == v
    ensures forall g :: g != f ==> Get(r.activity, g) == Get(draft.activity, g)
    ensures r.id == draft.id && r.aiFeedback == draft.aiFeedback
  {
    draft.(activity := draft.activity[f := v])
  }

  /**
   * `{ ...stored, ...form, date, totalScore }`: whatever the form sets wins,
   * everything else comes from the stored log.
   */
  function Merge(stored: DailyLog, draft: Draft, d: Day, score: int): (r: DailyLog)
    ensures r.date == d && r.totalScore == score
    ensures r.id == draft.id.GetOr(stored.id)
    ensures r.aiFeedback == if draft.aiFeedback.Some? then draft.aiFeedback else stored.aiFeedback
    ensures forall f :: Get(r.activity, f) == if f in draft.activity then draft.activity[f] else Get(stored.activity, f)
  {
    DailyLog(draft.id.GetOr(stored.id), d, stored.activity + draft.activity, score,
      if draft.aiFeedback.Some? then draft.aiFeedback else stored.aiFeedback)
  }

  /** `{ ...form, id, date, totalScore }` for a date with no log yet. */
  function NewEntry(draft: Draft, freshId: string, d: Day, score: int): DailyLog {
    DailyLog(freshId, d, draft.activity, score, draft.aiFeedback)
  }

  /** The log list after saving the form for day d. */
  function Saved(logs: seq<DailyLog>, draft: Draft, d: Day, freshId: string): (r: seq<DailyLog>)
    ensures var i := FindByDate(logs, d);
      var score := Score(draft.activity);
      if i >= 0 then
        |r| == |logs| && r[i] == Merge(logs[i], draft, d, score) &&
        forall j :: 0 <= j < |logs| && j != i ==> r[j] == logs[j]
      else
        |r| == |logs| + 1 && r[0] == NewEntry(draft, freshId, d, score) && r[1..] == logs
  {
    var i := FindByDate(logs, d);
    var score := Score(draft.activity);
    if i >= 0 then logs[i := Merge(logs[i], draft, d, score)]
    else [NewEntry(draft, freshId, d, score)] + logs
  }

  /**
   * `handleSave`: score the form, then either overwrite a copy of the list at
   * the index of the date's log, or put a new entry in front.
   */
  method HandleSave(logs: seq<DailyLog>, draft: Draft, d: Day, freshId: string) returns (updated: seq<DailyLog>)
    ensures updated == Saved(logs, draft, d, freshId)
  {
    var currentScore := CalculateTotalScore(draft.activity);
    var existingLogIndex := FindByDate(logs, d);
    if existingLogIndex >= 0 {
      var updatedLog := Merge(logs[existingLogIndex], draft, d, currentScore);
      var copy := new DailyLog[|logs|](j requires 0 <= j < |logs| => logs[j]);
      copy[existingLogIndex] := updatedLog;
      updated := copy[..];
    } else {
      updated := [NewEntry(draft, freshId, d, currentScore)] + logs;
    }
  }

  predicate UniqueDates(logs: seq<DailyLog>) {
    forall i, j :: 0 <= i < j < |logs| ==> logs[i].date != logs[j].date
  }

  predicate UniqueIds(logs: seq<DailyLog>) {
    forall i, j :: 0 <= i < j < |logs| ==> logs[i].id != logs[j].id
  }

  /** At most one log per date before a save means at most one after, and the saved date then has one. */
  lemma SaveKeepsDatesUnique(logs: seq<DailyLog>, draft: Draft, d: Day, freshId: string)
    requires UniqueDates(logs)
    ensures UniqueDates(Saved(logs, draft, d, freshId))
    ensures FindByDate(Saved(logs, draft, d, freshId), d) >= 0
  {
    var r := Saved(logs, draft, d, freshId);
    var i := FindByDate(logs, d);
    if i < 0 {
      forall p, q | 0 <= p < q < |r| ensures r[p].date != r[q].date {
        if p > 0 {
          assert r[p] == logs[p - 1];
        }
        assert r[q] == logs[q - 1];
      }
      assert r[0].date == d;
    } else {
      assert r[i].date == d;
    }
  }

  /**
   * Saving the form loaded for day d, whatever fields were changed, keeps the
   * ids unique when the fresh id is new.
   */
  lemma SaveAfterSelectKeepsIdsUnique(logs: seq<DailyLog>, draft: Draft, d: Day, freshId: string)
    requires UniqueIds(logs)
    requires forall j :: 0 <= j < |logs| ==> logs[j].id != freshId
    requires draft.id == SelectDate(logs, d).id
    ensures UniqueIds(Saved(logs, draft, d, freshId))
  {
    var r := Saved(logs, draft, d, freshId);
    var i := FindByDate(logs, d);
    if i < 0 {
      forall p, q | 0 <= p < q < |r| ensures r[p].id != r[q].id {
        if p > 0 {
          assert r[p] == logs[p - 1];
        }
        assert r[q] == logs[q - 1];
      }
    } else {
      assert r[i].id == logs[i].id;
      forall p, q | 0 <= p < q < |r| ensures r[p].id != r[q].id {
        assert r[p].id == logs[p].id && r[q].id == logs[q].id;
      }
    }
  }

  /** Saving the loaded form untouched rewrites only the stored score of that log. */
  lemma SaveUntouchedForm(logs: seq<DailyLog>, d: Day, freshId: string)
    requires FindByDate(logs, d) >= 0
    ensures var i := FindByDate(logs, d);
      Saved(logs, SelectDate(logs, d), d, freshId) == logs[i := logs[i].(totalScore := Score(logs[i].activity))]
  {
    var i := FindByDate(logs, d);
    var log := logs[i];
    var m := Merge(log, SelectDate(logs, d), d, Score(log.activity));
    assert log.activity + log.activity == log.activity;
    assert m == log.(totalScore := Score(log.activity));
  }

  /** A form that sets every field (as the initial form does) stores a score that matches the stored fields. */
  lemma SavedScoreMatchesFields(logs: seq<DailyLog>, draft: Draft, d: Day, freshId: string)
    requires Complete(draft.activity)
    ensures var r := Saved(logs, draft, d, freshId);
      var i := FindByDate(r, d);
      0 <= i && r[i].totalScore == Score(r[i].activity)
  {
    var r := Saved(logs, draft, d, freshId);
    var k := FindByDate(logs, d);
    if k >= 0 {
      assert forall f :: Get(r[k].activity, f) == Get(draft.activity, f);
      RulesScoreOnlyReadsFields(SCORING_RULES, r[k].activity, draft.activity);
      assert FindByDate(r, d) == k by {
        assert forall j :: 0 <= j < k ==> r[j] == logs[j];
      }
    } else {
      assert FindByDate(r, d) == 0;
    }
  }

  // ------------------------------------------------------------- delete

  function HasOtherId(id: string): DailyLog -> bool {
    (log: DailyLog) => log.id != id
  }

  /** `handleDelete` after confirmation: an empty id does nothing, otherwise logs with that id go. */
  function Delete(logs: seq<DailyLog>, id: string): (r: seq<DailyLog>)
    ensures id == "" ==> r == logs
    ensures |r| <= |logs|
  {
    if id == "" then logs else Filter(logs, HasOtherId(id))
  }

  /** Deleting keeps exactly the logs with another id. */
  lemma DeleteMeaning(logs: seq<DailyLog>, id: string, x: DailyLog)
    requires id != ""
    ensures x in Delete(logs, id) <==> x in logs && x.id != id
  {
    var r := Delete(logs, id);
    if x in r {
      var i :| 0 <= i < |r| && r[i] == x;
    }
    if x in logs && x.id != id {
      var i :| 0 <= i < |logs| && logs[i] == x;
    }
  }

  /** Deleting works piecewise, so the order of the kept logs is the order they had. */
  lemma DeleteAppend(a: seq<DailyLog>, b: seq<DailyLog>, id: string)
    ensures Delete(a + b, id) == Delete(a, id) + Delete(b, id)
  {
    if id != "" {
      FilterAppend(a, b, HasOtherId(id));
    }
  }

  lemma DeleteOne(log: DailyLog, id: string)
    ensures Delete([log], id) == if log.id == id && id != "" then [] else [log]
  {
    if id != "" {
      assert [log][..0] == [];
    }
  }

  /**
   * A lifetime field sum splits over the deleted and the kept logs, so with
   * non-negative counts a deletion can only lower it.
   */
  lemma DeleteLowersFieldSum(logs: seq<DailyLog>, id: string, f: Field)
    requires forall i :: 0 <= i < |logs| ==> NumOrZero(Get(logs[i].activity, f)) >= 0
    ensures FieldSum(Delete(logs, id), f) <= FieldSum(logs, f)
  {
    if id != "" {
      SumFilterAtMost(logs, FieldAmount(f), HasOtherId(id));
    }
  }

  // ------------------------------------------------------------ loading

  function WithId(log: DailyLog, freshId: string): DailyLog {
    if log.id == "" then log.(id := freshId) else log
  }

  /** `log.id || generateId()` over a loaded list; `generate(i)` is the id generated for position i. */
  function Backfill(logs: seq<DailyLog>, generate: nat -> string): (r: seq<DailyLog>)
    ensures |r| == |logs|
  {
    seq(|logs|, i requires 0 <= i < |logs| => WithId(logs[i], generate(i)))
  }

  /** Loading keeps every existing id and every other field, and fills the missing ids. */
  lemma BackfillMeaning(logs: seq<DailyLog>, generate: nat -> string, i: int)
    requires 0 <= i < |logs|
    ensures var r := Backfill(logs, generate)[i];
      r.date == logs[i].date && r.activity == logs[i].activity &&
      r.totalScore == logs[i].totalScore && r.aiFeedback == logs[i].aiFeedback &&
      (logs[i].id != "" ==> r == logs[i]) && (logs[i].id == "" ==> r.id == generate(i))
  {
    assert Backfill(logs, generate)[i] == WithId(logs[i], generate(i));
  }

  /** With a generator of non-empty ids, every loaded log has an id, and loading again changes nothing. */
  lemma BackfillFillsAndSettles(logs: seq<DailyLog>, generate: nat -> string, again: nat -> string)
    requires forall i: nat :: generate(i) != ""
    ensures forall i :: 0 <= i < |logs| ==> Backfill(logs, generate)[i].id != ""
    ensures Backfill(Backfill(logs, generate), again) == Backfill(logs, generate)
  {
    var once := Backfill(logs, generate);
    assert forall i :: 0 <= i < |logs| ==> once[i] == WithId(logs[i], generate(i));
    assert forall i :: 0 <= i < |logs| ==> Backfill(once, again)[i] == WithId(once[i], again(i));
  }

  // ------------------------------------------------------------- charts

  function Reverse<T>(s: seq<T>): (r: seq<T>)
    ensures |r| == |s| && forall k :: 0 <= k < |s| ==> r[k] == s[|s| - 1 - k]
  {
    if |s| == 0 then [] else [s[|s| - 1]] + Reverse(s[..|s| - 1])
  }

  datatype ChartPoint = ChartPoint(date: Day, score: int)

  function Point(log: DailyLog): ChartPoint {
    ChartPoint(log.date, log.totalScore)
  }

  function Points(logs: seq<DailyLog>): (r: seq<ChartPoint>)
    ensures |r| == |logs| && forall k :: 0 <= k < |logs| ==> r[k] == Point(logs[k])
  {
    if |logs| == 0 then [] else Points(logs[..|logs| - 1]) + [Point(logs[|logs| - 1])]
  }

  /** `logs.slice(0, 7).reverse().map(...)`. */
  function ChartData(logs: seq<DailyLog>): (r: seq<ChartPoint>)
    ensures |r| == if |logs| < 7 then |logs| else 7
    ensures forall k :: 0 <= k < |r| ==> r[k] == Point(logs[|r| - 1 - k])
  {
    var n := if |logs| < 7 then |logs| else 7;
    Points(Reverse(logs[..n]))
  }

  /** The all-time average: 0 with no logs, otherwise the mean `totalScore` rounded to nearest. */
  function AllTimeAverage(logs: seq<DailyLog>): (avg: int)
    ensures |logs| == 0 ==> avg == 0
    ensures |logs| > 0 ==>
      2 * |logs| * avg - |logs| <= 2 * Sum(logs, TotalScoreOf) < 2 * |logs| * avg + |logs|
  {
    if |logs| > 0 then RoundDiv(Sum(logs, TotalScoreOf), |logs|) else 0
  }

  /** The average lies between the lowest and the highest stored score. */
  lemma AverageWithinScores(logs: seq<DailyLog>, lo: int, hi: int)
    requires |logs| > 0
    requires forall i :: 0 <= i < |logs| ==> lo <= logs[i].totalScore <= hi
    ensures lo <= AllTimeAverage(logs) <= hi
  {
    SumBounds(logs, TotalScoreOf, lo, hi);
    RoundDivBetween(Sum(logs, TotalScoreOf), |logs|, lo, hi);
  }

  /** When every log has the same score, the average is that score exactly. */
  lemma AverageOfEqualScores(logs: seq<DailyLog>, s: int)
    requires |logs| > 0
    requires forall i :: 0 <= i < |logs| ==> logs[i].totalScore == s
    ensures AllTimeAverage(logs) == s
  {
    SumBounds(logs, TotalScoreOf, s, s);
    RoundDivExact(s, |logs|);
    assert s * |logs| == |logs| * s;
  }
}
