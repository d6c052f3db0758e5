/**
 * Streak and badges: the consecutive-winning-day count with its one-day grace,
 * and the badge catalogue whose conditions are recomputed from the whole history.
 */
module Gamification {
  import opened Types
  import opened Sums

  /** The default daily target of the streak. */
  const DEFAULT_TARGET: int := 500

  function TotalScoreOf(log: DailyLog): int { log.totalScore }

  function OnDate(d: Day): DailyLog -> bool {
    (log: DailyLog) => log.date == d
  }

  /** Some log is dated d. */
  predicate Logged(logs: seq<DailyLog>, d: Day) {
    exists i :: 0 <= i < |logs| && logs[i].date == d
  }

  /** The summed score of all logs dated d. */
  function DayTotal(logs: seq<DailyLog>, d: Day): int {
    Sum(Filter(logs, OnDate(d)), TotalScoreOf)
  }

  /** The per-date totals the grouping loop builds, log by log. */
  function Totals(logs: seq<DailyLog>): map<Day, int> {
    if |logs| == 0 then map[]
    else
      var m := Totals(logs[..|logs| - 1]);
      var log := logs[|logs| - 1];
      m[log.date := (if log.date in m then m[log.date] else 0) + log.totalScore]
  }

  /** The grouping has a key for each logged date, holding that date's total. */
  lemma {:induction false} TotalsMeaning(logs: seq<DailyLog>, d: Day)
    ensures d in Totals(logs) <==> Logged(logs, d)
    ensures d in Totals(logs) ==> Totals(logs)[d] == DayTotal(logs, d)
  {
    if |logs| > 0 {
      var init := logs[..|logs| - 1];
      TotalsMeaning(init, d);
      LoggedLast(logs, d);
      DayTotalLast(logs, d);
      if !Logged(init, d) {
        NothingOnDate(init, d);
      }
    }
  }

  /** A date is logged iff it was logged before the last log or is the last log's date. */
  lemma LoggedLast(logs: seq<DailyLog>, d: Day)
    requires |logs| > 0
    ensures Logged(logs, d) <==> Logged(logs[..|logs| - 1], d) || logs[|logs| - 1].date == d
  {
    var init := logs[..|logs| - 1];
    if Logged(logs, d) {
      var i :| 0 <= i < |logs| && logs[i].date == d;
      if i < |init| { assert init[i] == logs[i]; }
    }
    if Logged(init, d) {
      var i :| 0 <= i < |init| && init[i].date == d;
      assert logs[i] == init[i];
    }
  }

  /** The last log adds its score to its own date's total only. */
  lemma DayTotalLast(logs: seq<DailyLog>, d: Day)
    requires |logs| > 0
    ensures DayTotal(logs, d) == DayTotal(logs[..|logs| - 1], d) + (if logs[|logs| - 1].date == d then logs[|logs| - 1].totalScore else 0)
  {
    var init, log := logs[..|logs| - 1], logs[|logs| - 1];
    if log.date == d {
      assert Filter(logs, OnDate(d)) == Filter(init, OnDate(d)) + [log];
      SumAppend(Filter(init, OnDate(d)), [log], TotalScoreOf);
    } else {
      assert Filter(logs, OnDate(d)) == Filter(init, OnDate(d));
    }
  }

  lemma NothingOnDate(logs: seq<DailyLog>, d: Day)
    requires !Logged(logs, d)
    ensures DayTotal(logs, d) == 0
  {
    FilterNone(logs, OnDate(d));
  }

  /** The dates whose summed score reaches the target. */
  function WinningDates(logs: seq<DailyLog>, target: int): set<Day> {
    var totals := Totals(logs);
    set d | d in totals && totals[d] >= target
  }

  /** A date is winning iff some log is on it and its total reaches the target. */
  lemma WinningIff(logs: seq<DailyLog>, target: int, d: Day)
    ensures d in WinningDates(logs, target) <==> Logged(logs, d) && DayTotal(logs, d) >= target
  {
    TotalsMeaning(logs, d);
  }

  /** The number of consecutive days in w that end at d, walking backwards. */
  function Run(w: set<Day>, d: Day): (r: nat)
    ensures r > 0 <==> d in w
    ensures r <= |w|
    decreases w
  {
    if d in w then 1 + Run(w - {d}, d - 1) else 0
  }

  /** Dropping a date later than d does not change the run ending at d. */
  lemma {:induction false} RunIgnoresLater(w: set<Day>, x: Day, d: Day)
    requires x > d
    ensures Run(w - {x}, d) == Run(w, d)
    decreases w
  {
    if d in w {
      assert (w - {x}) - {d} == (w - {d}) - {x};
      RunIgnoresLater(w - {d}, x, d - 1);
    }
  }

  /** One step of the backward walk. */
  lemma RunStep(w: set<Day>, d: Day)
    requires d in w
    ensures Run(w, d) == 1 + Run(w, d - 1)
  {
    RunIgnoresLater(w, d, d - 1);
  }

  /** Every date of the n days ending at d is in w. */
  predicate Consecutive(w: set<Day>, d: Day, n: int) {
    forall e :: d - n < e <= d ==> e in w
  }

  /** A run of n: the n days ending at d are all in w, and the day before them is not. */
  lemma {:induction false} RunMeaning(w: set<Day>, d: Day)
    ensures Consecutive(w, d, Run(w, d))
    ensures d - Run(w, d) !in w
    decreases Run(w, d)
  {
    if d in w {
      RunStep(w, d);
      RunMeaning(w, d - 1);
    }
  }

  /** Conversely, that property pins the run down. */
  lemma {:induction false} RunUnique(w: set<Day>, d: Day, n: nat)
    requires Consecutive(w, d, n)
    requires d - n !in w
    ensures Run(w, d) == n
    decreases n
  {
    if n > 0 {
      assert d in w;
      RunStep(w, d);
      RunUnique(w, d - 1, n - 1);
    }
  }

  /** Where counting starts: today if it is winning, otherwise yesterday. */
  function StreakStart(w: set<Day>, today: Day): Day {
    if today in w then today else today - 1
  }

  /** The current streak against `target`, as of `today`. */
  function Streak(logs: seq<DailyLog>, today: Day, target: int): nat {
    if |logs| == 0 then 0
    else Run(WinningDates(logs, target), StreakStart(WinningDates(logs, target), today))
  }

  /**
   * `calculateStreak`: group the scores by date, collect the winning dates,
   * apply the one-day grace, then walk backwards over consecutive winning days.
   */
  method CalculateStreak(logs: seq<DailyLog>, today: Day, target: int) returns (streak: nat)
    ensures streak == Streak(logs, today, target)
  {
    if |logs| == 0 {
      return 0;
    }
    var dailyScores: map<Day, int> := map[];
    for i := 0 to |logs|
      invariant dailyScores == Totals(logs[..i])
    {
      assert logs[..i + 1][..i] == logs[..i];
      var date := logs[i].date;
      dailyScores := dailyScores[date := (if date in dailyScores then dailyScores[date] else 0) + logs[i].totalScore];
    }
    assert logs[..|logs|] == logs;
    var winningDates := set d | d in dailyScores && dailyScores[d] >= target;
    ghost var start := StreakStart(winningDates, today);

    streak := 0;
    var pointer := today;
    if pointer !in winningDates {
      pointer := pointer - 1;
      if pointer !in winningDates {
        return 0;
      }
    }
    while true
      invariant streak + Run(winningDates, pointer) == Run(winningDates, start)
      decreases Run(winningDates, pointer)
    {
      if pointer in winningDates {
        RunStep(winningDates, pointer);
        streak := streak + 1;
        pointer := pointer - 1;
      } else {
        break;
      }
    }
  }

  lemma EmptyHistoryHasNoStreak(today: Day, target: int)
    ensures Streak([], today, target) == 0
  {
  }

  /** The grace is one day: with neither today nor yesterday winning the streak is 0, whatever came before. */
  lemma GraceIsOneDay(logs: seq<DailyLog>, today: Day, target: int)
    requires today !in WinningDates(logs, target) && today - 1 !in WinningDates(logs, target)
    ensures Streak(logs, today, target) == 0
  {
  }

  /**
   * A streak n > 0 means the n days ending at the start day are all winning
   * and the day before them is not; and the streak is at most the number of
   * winning dates.
   */
  lemma StreakMeaning(logs: seq<DailyLog>, today: Day, target: int)
    ensures var w := WinningDates(logs, target);
      var n, start := Streak(logs, today, target), StreakStart(w, today);
      Consecutive(w, start, n) && (n > 0 ==> start - n !in w) && n <= |w|
  {
    var w := WinningDates(logs, target);
    var start := StreakStart(w, today);
    RunMeaning(w, start);
  }

  /** Conversely, the streak is the unique n with that property. */
  lemma StreakIsTheRun(logs: seq<DailyLog>, today: Day, target: int, n: nat)
    requires |logs| > 0
    requires var w := WinningDates(logs, target); var start := StreakStart(w, today);
      Consecutive(w, start, n) && start - n !in w
    ensures Streak(logs, today, target) == n
  {
    var w := WinningDates(logs, target);
    RunUnique(w, StreakStart(w, today), n);
  }

  /** A single winning log for today gives a streak of 1. */
  lemma OneWinningDay(log: DailyLog, today: Day, target: int)
    requires log.date == today && log.totalScore >= target
    ensures Streak([log], today, target) == 1
  {
    assert Totals([log]) == map[today := log.totalScore] by {
      assert [log][..0] == [];
    }
    var w := WinningDates([log], target);
    assert w == {today};
    RunUnique(w, today, 1);
  }

  /** Winning days D-1, D-2, D-3 and nothing yet for D give a streak of 3. */
  lemma GraceDayKeepsStreak(l1: DailyLog, l2: DailyLog, l3: DailyLog, today: Day, target: int)
    requires l1.date == today - 1 && l2.date == today - 2 && l3.date == today - 3
    requires l1.totalScore >= target && l2.totalScore >= target && l3.totalScore >= target
    ensures Streak([l1, l2, l3], today, target) == 3
  {
    var logs := [l1, l2, l3];
    assert logs[..2] == [l1, l2] && [l1, l2][..1] == [l1] && [l1][..0] == [];
    var m := map[today - 1 := l1.totalScore, today - 2 := l2.totalScore, today - 3 := l3.totalScore];
    assert Totals([l1]) == map[today - 1 := l1.totalScore];
    assert Totals([l1, l2]) == map[today - 1 := l1.totalScore, today - 2 := l2.totalScore];
    assert Totals(logs) == m;
    var w := WinningDates(logs, target);
    assert w == set d | d in m && m[d] >= target;
    assert today - 1 in w && today - 2 in w && today - 3 in w;
    assert today !in w && today - 4 !in w;
    assert StreakStart(w, today) == today - 1;
    RunUnique(w, today - 1, 3);
  }

  // ---------------------------------------------------------------- badges

  /** `x || 0` added to a number: a number counts as itself, `true` as 1, anything else as 0. */
  function NumOrZero(v: Value): int {
    match v
    case N(n) => n
    case B(b) => if b then 1 else 0
    case Absent => 0
  }

  /** JavaScript truthiness of a field value. */
  predicate Truthy(v: Value) {
    match v
    case B(b) => b
    case N(n) => n != 0
    case Absent => false
  }

  function FieldAmount(f: Field): DailyLog -> int {
    (log: DailyLog) => NumOrZero(Get(log.activity, f))
  }

  function FieldIsTruthy(f: Field): DailyLog -> bool {
    (log: DailyLog) => Truthy(Get(log.activity, f))
  }

  /** The lifetime sum of a field over all logs, missing counting as 0. */
  function FieldSum(logs: seq<DailyLog>, f: Field): int {
    Sum(logs, FieldAmount(f))
  }

  /** The number of logs whose field f is truthy. */
  function TrueCount(logs: seq<DailyLog>, f: Field): nat {
    |Filter(logs, FieldIsTruthy(f))|
  }

  /** The condition patterns the badge catalogue is built from. */
  datatype Condition =
    | AnyLog
    | SomeScoreAtLeast(points: int)
    | StreakAtLeast(days: int)
    | LifetimeScoreAtLeast(total: int)
    | LifetimeFieldAtLeast(field: Field, amount: int)
    | TrueCountAtLeast(flag: Field, times: int)

  datatype Badge = Badge(id: string, name: string, description: string, condition: Condition)

  predicate Holds(c: Condition, logs: seq<DailyLog>, today: Day) {
    match c
    case AnyLog => |logs| > 0
    case SomeScoreAtLeast(p) => exists i :: 0 <= i < |logs| && logs[i].totalScore >= p
    case StreakAtLeast(n) => Streak(logs, today, DEFAULT_TARGET) >= n
    case LifetimeScoreAtLeast(t) => Sum(logs, TotalScoreOf) >= t
    case LifetimeFieldAtLeast(f, a) => FieldSum(logs, f) >= a
    case TrueCountAtLeast(f, n) => TrueCount(logs, f) >= n
  }

  const BADGES: seq<Badge> := [
    Badge("first_step", "First Step", "Log your first entry", AnyLog),
    Badge("high_flyer", "High Flyer", "Score over 800 points in a single day", SomeScoreAtLeast(800)),
    Badge("century_club", "Century Club", "Score 1000 points in a single day", SomeScoreAtLeast(1000)),
    Badge("hat_trick", "Hat Trick", "Achieve a 3-day streak", StreakAtLeast(3)),
    Badge("unstoppable", "Unstoppable", "Achieve a 7-day streak", StreakAtLeast(7)),
    Badge("marathoner", "Marathoner", "Achieve a 30-day streak", StreakAtLeast(30)),
    Badge("club_10k", "10k Club", "Earn 10,000 total lifetime points", LifetimeScoreAtLeast(10000)),
    Badge("scholar", "Scholar", "Read over 100 pages total", LifetimeFieldAtLeast(PagesRead, 100)),
    Badge("author", "Author", "Write over 50 pages total", LifetimeFieldAtLeast(PagesWritten, 50)),
    Badge("lecture_fanatic", "Lecture Fanatic", "Watch over 1000 minutes of lectures", LifetimeFieldAtLeast(LectureDuration, 1000)),
    Badge("problem_solver", "Problem Solver", "Solve over 200 questions total", LifetimeFieldAtLeast(QuestionsSolved, 200)),
    Badge("topic_master", "Topic Master", "Complete 20 study topics", LifetimeFieldAtLeast(TopicsCompleted, 20)),
    Badge("unit_conqueror", "Unit Conqueror", "Complete 5 full units", LifetimeFieldAtLeast(UnitsCompleted, 5)),
    Badge("maestro", "Maestro", "Play piano for over 300 minutes", LifetimeFieldAtLeast(PianoTime, 300)),
    Badge("exam_ready", "Exam Ready", "Complete 3 mock tests", TrueCountAtLeast(MockTest, 3)),
    Badge("iron_will", "Iron Will", "Complete 10 workouts", TrueCountAtLeast(Workout, 10)),
    Badge("evening_stroller", "Evening Stroller", "Go for 14 post-dinner walks", TrueCountAtLeast(PostDinnerWalk, 14)),
    Badge("mindful_monk", "Mindful Monk", "Practice affirmations 10 times", TrueCountAtLeast(Affirmations, 10)),
    Badge("diarist", "Diarist", "Write 10 diary entries", TrueCountAtLeast(DiaryEntry, 10))
  ]

  /** The ids of the badges whose condition holds, in catalogue order. */
  function UnlockedIn(badges: seq<Badge>, logs: seq<DailyLog>, today: Day): (r: seq<string>)
    ensures |r| <= |badges|
  {
    if |badges| == 0 then []
    else (if Holds(badges[0].condition, logs, today) then [badges[0].id] else []) + UnlockedIn(badges[1..], logs, today)
  }

  /** Every badge whose condition holds is listed, and every listed id is that of such a badge. */
  lemma {:induction false} UnlockedInMeaning(badges: seq<Badge>, logs: seq<DailyLog>, today: Day)
    ensures forall i :: 0 <= i < |badges| && Holds(badges[i].condition, logs, today) ==>
      badges[i].id in UnlockedIn(badges, logs, today)
    ensures forall x :: x in UnlockedIn(badges, logs, today) ==>
      exists i :: 0 <= i < |badges| && badges[i].id == x && Holds(badges[i].condition, logs, today)
  {
    if |badges| > 0 {
      var tail := badges[1..];
      UnlockedInMeaning(tail, logs, today);
      var r, rest := UnlockedIn(badges, logs, today), UnlockedIn(tail, logs, today);
      assert forall i :: 1 <= i < |badges| ==> badges[i] == tail[i - 1];
      forall x | x in r
        ensures exists i :: 0 <= i < |badges| && badges[i].id == x && Holds(badges[i].condition, logs, today)
      {
        if x in rest {
          var j :| 0 <= j < |tail| && tail[j].id == x && Holds(tail[j].condition, logs, today);
          assert badges[j + 1] == tail[j];
        } else {
          assert badges[0].id == x && Holds(badges[0].condition, logs, today);
        }
      }
    }
  }

  /** `getUnlockedBadges`. */
  function GetUnlockedBadges(logs: seq<DailyLog>, today: Day): (r: seq<string>)
    ensures |r| <= 19
  {
    UnlockedIn(BADGES, logs, today)
  }

  predicate DistinctIds(badges: seq<Badge>) {
    forall i, j :: 0 <= i < j < |badges| ==> badges[i].id != badges[j].id
  }

  predicate NoDuplicates(r: seq<string>) {
    forall p, q :: 0 <= p < q < |r| ==> r[p] != r[q]
  }

  lemma CatalogueIdsDistinct()
    ensures |BADGES| == 19 && DistinctIds(BADGES)
  {
    // No two ids share both their length and their first letter.
    forall i, j | 0 <= i < j < |BADGES| ensures BADGES[i].id != BADGES[j].id {
      assert |BADGES[i].id| != |BADGES[j].id| || BADGES[i].id[0] != BADGES[j].id[0];
    }
  }

  /** Filtering a concatenated catalogue concatenates the results: catalogue order is kept. */
  lemma {:induction false} UnlockedAppend(b1: seq<Badge>, b2: seq<Badge>, logs: seq<DailyLog>, today: Day)
    ensures UnlockedIn(b1 + b2, logs, today) == UnlockedIn(b1, logs, today) + UnlockedIn(b2, logs, today)
  {
    if |b1| > 0 {
      assert (b1 + b2)[0] == b1[0];
      assert (b1 + b2)[1..] == b1[1..] + b2;
      UnlockedAppend(b1[1..], b2, logs, today);
    } else {
      assert b1 + b2 == b2;
    }
  }

  /** With distinct ids, the result has no duplicates. */
  lemma {:induction false} UnlockedNoDuplicates(badges: seq<Badge>, logs: seq<DailyLog>, today: Day)
    requires DistinctIds(badges)
    ensures NoDuplicates(UnlockedIn(badges, logs, today))
  {
    if |badges| > 0 {
      var tail := badges[1..];
      assert DistinctIds(tail) by {
        forall i, j | 0 <= i < j < |tail| ensures tail[i].id != tail[j].id {
          assert tail[i] == badges[i + 1] && tail[j] == badges[j + 1];
        }
      }
      UnlockedNoDuplicates(tail, logs, today);
      UnlockedInMeaning(tail, logs, today);
      var rest := UnlockedIn(tail, logs, today);
      if badges[0].id in rest {
        assert false;
      }
      if Holds(badges[0].condition, logs, today) {
        var r := [badges[0].id] + rest;
        forall p, q | 0 <= p < q < |r| ensures r[p] != r[q] {
          if p == 0 {
            assert r[q] == rest[q - 1];
          } else {
            assert r[p] == rest[p - 1] && r[q] == rest[q - 1];
          }
        }
        assert UnlockedIn(badges, logs, today) == r;
      } else {
        assert UnlockedIn(badges, logs, today) == rest;
      }
    }
  }

  /** With distinct ids, a badge's id is listed iff its own condition holds. */
  lemma UnlockedIff(badges: seq<Badge>, logs: seq<DailyLog>, today: Day, k: int)
    requires DistinctIds(badges) && 0 <= k < |badges|
    ensures badges[k].id in UnlockedIn(badges, logs, today) <==> Holds(badges[k].condition, logs, today)
  {
    UnlockedInMeaning(badges, logs, today);
  }

  /** `getUnlockedBadges` lists a catalogue badge iff its condition holds. */
  lemma UnlockedBadge(logs: seq<DailyLog>, today: Day, k: int)
    requires 0 <= k < |BADGES|
    ensures BADGES[k].id in GetUnlockedBadges(logs, today) <==> Holds(BADGES[k].condition, logs, today)
  {
    CatalogueIdsDistinct();
    UnlockedIff(BADGES, logs, today, k);
  }

  /** `getUnlockedBadges` lists each id at most once. */
  lemma UnlockedBadgesOnce(logs: seq<DailyLog>, today: Day)
    ensures NoDuplicates(GetUnlockedBadges(logs, today))
  {
    CatalogueIdsDistinct();
    UnlockedNoDuplicates(BADGES, logs, today);
  }

  /** `first_step` is unlocked iff there is at least one log. */
  lemma FirstStepIff(logs: seq<DailyLog>, today: Day)
    ensures "first_step" in GetUnlockedBadges(logs, today) <==> |logs| > 0
  {
    UnlockedBadge(logs, today, 0);
  }

  /** A day of 1000 points also clears 800: century_club comes with high_flyer. */
  lemma CenturyImpliesHighFlyer(logs: seq<DailyLog>, today: Day)
    ensures "century_club" in GetUnlockedBadges(logs, today) ==> "high_flyer" in GetUnlockedBadges(logs, today)
  {
    UnlockedBadge(logs, today, 1);
    UnlockedBadge(logs, today, 2);
  }

  /** The streak badges are unlocked iff the streak against the default target reaches 3, 7 and 30 days. */
  lemma StreakBadgesIff(logs: seq<DailyLog>, today: Day)
    ensures var r := GetUnlockedBadges(logs, today);
      var n := Streak(logs, today, DEFAULT_TARGET);
      ("hat_trick" in r <==> n >= 3) && ("unstoppable" in r <==> n >= 7) && ("marathoner" in r <==> n >= 30)
  {
    UnlockedBadge(logs, today, 3);
    UnlockedBadge(logs, today, 4);
    UnlockedBadge(logs, today, 5);
  }

  /** The streak badges nest: marathoner comes with unstoppable, and unstoppable with hat_trick. */
  lemma StreakBadgesNest(logs: seq<DailyLog>, today: Day)
    ensures var r := GetUnlockedBadges(logs, today);
      ("marathoner" in r ==> "unstoppable" in r) && ("unstoppable" in r ==> "hat_trick" in r)
  {
    StreakBadgesIff(logs, today);
  }

  /**
   * The lifetime badges are unlocked iff their sum or count over the given
   * history reaches the threshold; they are recomputed, so a history pruned
   * below a threshold no longer has the badge.
   */
  lemma LifetimeScoreBadgesIff(logs: seq<DailyLog>, today: Day)
    ensures var r := GetUnlockedBadges(logs, today);
      ("club_10k" in r <==> Sum(logs, TotalScoreOf) >= 10000) &&
      ("scholar" in r <==> FieldSum(logs, PagesRead) >= 100)
  {
    UnlockedBadge(logs, today, 6);
    UnlockedBadge(logs, today, 7);
  }

  lemma LifetimeWorkBadgesIff(logs: seq<DailyLog>, today: Day)
    ensures var r := GetUnlockedBadges(logs, today);
      ("author" in r <==> FieldSum(logs, PagesWritten) >= 50) &&
      ("lecture_fanatic" in r <==> FieldSum(logs, LectureDuration) >= 1000)
  {
    UnlockedBadge(logs, today, 8);
    UnlockedBadge(logs, today, 9);
  }

  lemma LifetimeFieldBadgesIff(logs: seq<DailyLog>, today: Day)
    ensures var r := GetUnlockedBadges(logs, today);
      ("problem_solver" in r <==> FieldSum(logs, QuestionsSolved) >= 200) &&
      ("topic_master" in r <==> FieldSum(logs, TopicsCompleted) >= 20)
  {
    UnlockedBadge(logs, today, 10);
    UnlockedBadge(logs, today, 11);
  }

  lemma LifetimeProgressBadgesIff(logs: seq<DailyLog>, today: Day)
    ensures var r := GetUnlockedBadges(logs, today);
      ("unit_conqueror" in r <==> FieldSum(logs, UnitsCompleted) >= 5) &&
      ("maestro" in r <==> FieldSum(logs, PianoTime) >= 300)
  {
    UnlockedBadge(logs, today, 12);
    UnlockedBadge(logs, today, 13);
  }

  lemma HabitBadgesIff(logs: seq<DailyLog>, today: Day)
    ensures var r := GetUnlockedBadges(logs, today);
      ("exam_ready" in r <==> TrueCount(logs, MockTest) >= 3) &&
      ("iron_will" in r <==> TrueCount(logs, Workout) >= 10) &&
      ("evening_stroller" in r <==> TrueCount(logs, PostDinnerWalk) >= 14)
  {
    UnlockedBadge(logs, today, 14);
    UnlockedBadge(logs, today, 15);
    UnlockedBadge(logs, today, 16);
  }

  lemma MindsetBadgesIff(logs: seq<DailyLog>, today: Day)
    ensures var r := GetUnlockedBadges(logs, today);
      ("mindful_monk" in r <==> TrueCount(logs, Affirmations) >= 10) &&
      ("diarist" in r <==> TrueCount(logs, DiaryEntry) >= 10)
  {
    UnlockedBadge(logs, today, 17);
    UnlockedBadge(logs, today, 18);
  }
}
