/**
 * The record schema and the fixed scoring-rule table of the productivity tracker.
 */
module Types {

  datatype Option<T> = None | Some(value: T) {
    function GetOr(default: T): T { if Some? then value else default }
  }

  /** The twelve activity fields of a daily log, grouped as the schema groups them. */
  datatype Field =
    // Mindset
    | Affirmations | DiaryEntry
    // Study
    | QuestionsSolved | PagesRead | PagesWritten | MockTest
    | TopicsCompleted | UnitsCompleted | LectureDuration
    // Health & Hobbies
    | PostDinnerWalk | Workout | PianoTime

  /**
   * What a field holds at run time: nothing (the key is missing or undefined),
   * a boolean or a number. Stored logs are parsed JSON, so a field may hold
   * a value of the other kind than its declaration says.
   */
  datatype Value = Absent | B(b: bool) | N(n: int)

  datatype Kind = BooleanKind | NumberKind

  datatype Category = Mindset | Study | HealthAndHobbies

  datatype ScoringRule = ScoringRule(
    id: Field,
    name: string,
    kind: Kind,
    multiplier: int,
    category: Category)

  /** A calendar date, as a number of days since 1970-01-01. */
  type Day = int

  /** The activity part of a log; a field missing from the map is absent. */
  type Activity = map<Field, Value>

  datatype DailyLog = DailyLog(
    id: string,
    date: Day,
    activity: Activity,
    totalScore: int,
    aiFeedback: Option<string>)

  function Get(a: Activity, f: Field): Value {
    if f in a then a[f] else Absent
  }

  /** The property name of a field in a stored log. */
  function FieldName(f: Field): string {
    match f
    case Affirmations => "affirmations"
    case DiaryEntry => "diaryEntry"
    case QuestionsSolved => "questionsSolved"
    case PagesRead => "pagesRead"
    case PagesWritten => "pagesWritten"
    case MockTest => "mockTest"
    case TopicsCompleted => "topicsCompleted"
    case UnitsCompleted => "unitsCompleted"
    case LectureDuration => "lectureDuration"
    case PostDinnerWalk => "postDinnerWalk"
    case Workout => "workout"
    case PianoTime => "pianoTime"
  }

  /** The type each field has in the declared record schema. */
  function DeclaredKind(f: Field): Kind {
    match f
    case Affirmations | DiaryEntry | MockTest | PostDinnerWalk | Workout => BooleanKind
    case _ => NumberKind
  }

  /** The schema heading each field is declared under. */
  function DeclaredCategory(f: Field): Category {
    match f
    case Affirmations | DiaryEntry => Mindset
    case PostDinnerWalk | Workout | PianoTime => HealthAndHobbies
    case _ => Study
  }

  /** A value agrees with the declared type of its field (or is absent). */
  predicate WellTyped(a: Activity) {
    forall f :: f in a ==>
      match a[f]
      case Absent => true
      case B(_) => DeclaredKind(f) == BooleanKind
      case N(_) => DeclaredKind(f) == NumberKind
  }

  const SCORING_RULES: seq<ScoringRule> := [
    ScoringRule(Affirmations, "Affirmations", BooleanKind, 10, Mindset),
    ScoringRule(DiaryEntry, "Diary Entry", BooleanKind, 10, Mindset),
    ScoringRule(LectureDuration, "Lecture Duration (mins)", NumberKind, 1, Study),
    ScoringRule(QuestionsSolved, "Questions Solved", NumberKind, 1, Study),
    ScoringRule(PagesRead, "Pages Read", NumberKind, 5, Study),
    ScoringRule(PagesWritten, "Pages Written", NumberKind, 10, Study),
    ScoringRule(MockTest, "Mock Test", BooleanKind, 50, Study),
    ScoringRule(TopicsCompleted, "Topics Completed", NumberKind, 10, Study),
    ScoringRule(UnitsCompleted, "Units Completed", NumberKind, 100, Study),
    ScoringRule(PostDinnerWalk, "Post Dinner Walk", BooleanKind, 10, HealthAndHobbies),
    ScoringRule(Workout, "Workout", BooleanKind, 30, HealthAndHobbies),
    ScoringRule(PianoTime, "Piano Time", NumberKind, 2, HealthAndHobbies)
  ]

  /** The position of the one rule that scores field f. */
  function RuleIndex(f: Field): (i: nat)
    ensures i < |SCORING_RULES| && SCORING_RULES[i].id == f
  {
    match f
    case Affirmations => 0
    case DiaryEntry => 1
    case LectureDuration => 2
    case QuestionsSolved => 3
    case PagesRead => 4
    case PagesWritten => 5
    case MockTest => 6
    case TopicsCompleted => 7
    case UnitsCompleted => 8
    case PostDinnerWalk => 9
    case Workout => 10
    case PianoTime => 11
  }

  function RuleFor(f: Field): (r: ScoringRule)
    ensures r in SCORING_RULES && r.id == f
  {
    SCORING_RULES[RuleIndex(f)]
  }

  /** Every position of the table is the rule index of its own field. */
  lemma RuleIndexOfEntry(i: int)
    requires 0 <= i < |SCORING_RULES|
    ensures RuleIndex(SCORING_RULES[i].id) == i
  {
    assert i == 0 || i == 1 || i == 2 || i == 3 || i == 4 || i == 5
        || i == 6 || i == 7 || i == 8 || i == 9 || i == 10 || i == 11;
  }

  /**
   * Twelve rules with pairwise distinct ids; with RuleIndex, which finds a rule
   * for every field, this makes the table one rule per activity field.
   */
  lemma RulesAreOnePerField()
    ensures |SCORING_RULES| == 12
    ensures forall i, j :: 0 <= i < j < |SCORING_RULES| ==> SCORING_RULES[i].id != SCORING_RULES[j].id
  {
    forall i, j | 0 <= i < j < |SCORING_RULES|
      ensures SCORING_RULES[i].id != SCORING_RULES[j].id
    {
      RuleIndexOfEntry(i);
      RuleIndexOfEntry(j);
    }
  }

  /** What the table says about field f, settled one field at a time. */
  lemma FieldRule(f: Field)
    ensures RuleFor(f).multiplier > 0
    ensures RuleFor(f).kind == DeclaredKind(f) && RuleFor(f).category == DeclaredCategory(f)
  {
    match f
    case Affirmations =>
    case DiaryEntry =>
    case LectureDuration =>
    case QuestionsSolved =>
    case PagesRead =>
    case PagesWritten =>
    case MockTest =>
    case TopicsCompleted =>
    case UnitsCompleted =>
    case PostDinnerWalk =>
    case Workout =>
    case PianoTime =>
  }

  /** Which fields have boolean rules, one field at a time. */
  lemma FieldRuleKind(f: Field)
    ensures RuleFor(f).kind == BooleanKind <==> f in {Affirmations, DiaryEntry, MockTest, PostDinnerWalk, Workout}
  {
    match f
    case Affirmations =>
    case DiaryEntry =>
    case LectureDuration =>
    case QuestionsSolved =>
    case PagesRead =>
    case PagesWritten =>
    case MockTest =>
    case TopicsCompleted =>
    case UnitsCompleted =>
    case PostDinnerWalk =>
    case Workout =>
    case PianoTime =>
  }

  /** Which category each rule is in, one field at a time. */
  lemma FieldRuleGroups(f: Field)
    ensures RuleFor(f).category == Mindset <==> f in {Affirmations, DiaryEntry}
    ensures RuleFor(f).category == HealthAndHobbies <==> f in {PostDinnerWalk, Workout, PianoTime}
    ensures RuleFor(f).category == Study <==>
      f in {QuestionsSolved, PagesRead, PagesWritten, MockTest, TopicsCompleted, UnitsCompleted, LectureDuration}
  {
    match f
    case Affirmations =>
    case DiaryEntry =>
    case LectureDuration =>
    case QuestionsSolved =>
    case PagesRead =>
    case PagesWritten =>
    case MockTest =>
    case TopicsCompleted =>
    case UnitsCompleted =>
    case PostDinnerWalk =>
    case Workout =>
    case PianoTime =>
  }

  /** No activity field is named like one of the other properties of a log. */
  lemma FieldNameIsActivity(f: Field)
    ensures FieldName(f) !in {"id", "date", "totalScore", "aiFeedback"}
  {
    match f
    case Affirmations =>
    case DiaryEntry =>
    case LectureDuration =>
    case QuestionsSolved =>
    case PagesRead =>
    case PagesWritten =>
    case MockTest =>
    case TopicsCompleted =>
    case UnitsCompleted =>
    case PostDinnerWalk =>
    case Workout =>
    case PianoTime =>
  }

  /** Each table entry is the rule RuleFor gives for its field. */
  lemma EntryIsRuleFor(r: ScoringRule)
    requires r in SCORING_RULES
    ensures RuleFor(r.id) == r
  {
    var i :| 0 <= i < |SCORING_RULES| && SCORING_RULES[i] == r;
    RuleIndexOfEntry(i);
  }

  /** A rule id never names one of the non-activity properties of a log. */
  lemma RuleIdsAreActivityFields()
    ensures forall r :: r in SCORING_RULES ==>
      FieldName(r.id) !in {"id", "date", "totalScore", "aiFeedback"}
  {
    forall r | r in SCORING_RULES ensures FieldName(r.id) !in {"id", "date", "totalScore", "aiFeedback"} {
      FieldNameIsActivity(r.id);
    }
  }

  lemma MultipliersArePositive()
    ensures forall r :: r in SCORING_RULES ==> r.multiplier > 0
  {
    forall r | r in SCORING_RULES ensures r.multiplier > 0 {
      EntryIsRuleFor(r);
      FieldRule(r.id);
    }
  }

  /** Each rule's kind is its field's declared type, and its category the field's heading. */
  lemma RulesFollowSchema()
    ensures forall f :: RuleFor(f).kind == DeclaredKind(f)
    ensures forall f :: RuleFor(f).category == DeclaredCategory(f)
  {
    forall f ensures RuleFor(f).kind == DeclaredKind(f) && RuleFor(f).category == DeclaredCategory(f) {
      FieldRule(f);
    }
  }

  /** The same, for the table read position by position. */
  lemma EntriesFollowSchema()
    ensures forall i :: 0 <= i < |SCORING_RULES| ==>
      SCORING_RULES[i].kind == DeclaredKind(SCORING_RULES[i].id) &&
      SCORING_RULES[i].category == DeclaredCategory(SCORING_RULES[i].id)
  {
    RulesFollowSchema();
    forall i | 0 <= i < |SCORING_RULES|
      ensures SCORING_RULES[i] == RuleFor(SCORING_RULES[i].id)
    {
      RuleIndexOfEntry(i);
    }
  }

  /** The five boolean rules are exactly the five boolean fields. */
  lemma BooleanRules()
    ensures forall f :: RuleFor(f).kind == BooleanKind <==>
      f in {Affirmations, DiaryEntry, MockTest, PostDinnerWalk, Workout}
  {
    forall f ensures RuleFor(f).kind == BooleanKind <==> f in {Affirmations, DiaryEntry, MockTest, PostDinnerWalk, Workout} {
      FieldRuleKind(f);
    }
  }

  /** The three categories partition the table: two Mindset, seven Study, three Health & Hobbies rules. */
  lemma CategoriesPartition()
    ensures forall f :: RuleFor(f).category == Mindset <==> f in {Affirmations, DiaryEntry}
    ensures forall f :: RuleFor(f).category == HealthAndHobbies <==> f in {PostDinnerWalk, Workout, PianoTime}
    ensures forall f :: RuleFor(f).category == Study <==>
      f in {QuestionsSolved, PagesRead, PagesWritten, MockTest, TopicsCompleted, UnitsCompleted, LectureDuration}
  {
    forall f {
      FieldRuleGroups(f);
    }
  }
}
