/**
 * The input card of one rule: the +/- buttons and the typed count of a
 * number rule, and the toggle of a boolean rule. Each handler computes the
 * value it hands to the form.
 */
module InputCard {
  import opened Types
  import opened Text
  import opened Scoring
  import opened Gamification

  /** `handleIncrement`: a number goes up by one; anything else becomes 1. */
  function Increment(v: Value): (r: Value)
    ensures r.N?
    ensures v.N? ==> r == N(v.n + 1)
    ensures !v.N? ==> r == N(1)
  {
    if v.N? then N(v.n + 1) else N(1)
  }

  /** `handleDecrement`: a number goes down by one but not below 0; anything else becomes 0. */
  function Decrement(v: Value): (r: Value)
    ensures r.N? && r.n >= 0
    ensures v.N? ==> r == N(if v.n > 1 then v.n - 1 else 0)
    ensures !v.N? ==> r == N(0)
  {
    if v.N? then N(if v.n - 1 > 0 then v.n - 1 else 0) else N(0)
  }

  /** The typed count: `Math.max(0, parseInt(text) || 0)`. */
  function TypedInput(text: string): (r: Value)
    ensures r.N? && r.n >= 0
    ensures ParseInt(text).None? ==> r == N(0)
  {
    var parsed := ParseInt(text).GetOr(0);
    N(if parsed > 0 then parsed else 0)
  }

  /** The toggle emits `!value`. */
  function Toggle(v: Value): (r: Value)
    ensures r.B? && r.b == !Truthy(v)
  {
    B(!Truthy(v))
  }

  /** Incrementing adds exactly 1, and decrementing 0 leaves 0. */
  lemma StepsOfOne(n: int)
    ensures Increment(N(n)) == N(n + 1)
    ensures n >= 1 ==> Decrement(N(n)) == N(n - 1)
    ensures n <= 0 ==> Decrement(N(n)) == N(0)
  {
  }

  /** For a non-negative count, +1 then -1 gives the count back. */
  lemma IncrementThenDecrement(n: int)
    requires n >= 0
    ensures Decrement(Increment(N(n))) == N(n)
  {
  }

  /** Typing the decimal form of a count gives that count; a negative one is clamped to 0. */
  lemma TypedInputOfDecimal(n: int)
    ensures TypedInput(IntToString(n)) == N(if n > 0 then n else 0)
  {
    ParseIntOfIntToString(n);
  }

  /** Toggling twice restores a boolean. */
  lemma ToggleTwice(b: bool)
    ensures Toggle(Toggle(B(b))) == B(b)
  {
  }

  /** On a count field, + raises the form's score by the rule's multiplier. */
  lemma IncrementScores(a: Activity, f: Field, n: int)
    requires DeclaredKind(f) == NumberKind && Get(a, f) == N(n)
    ensures Score(a[f := Increment(N(n))]) == Score(a) + RuleFor(f).multiplier
  {
    var rule := RuleFor(f);
    assert rule.kind == NumberKind by { RulesFollowSchema(); }
    ScoreUpdate(a, f, N(n + 1));
    assert (n + 1) * rule.multiplier == n * rule.multiplier + rule.multiplier;
  }

  /** On a positive count, - lowers the form's score by the rule's multiplier. */
  lemma DecrementScores(a: Activity, f: Field, n: int)
    requires DeclaredKind(f) == NumberKind && Get(a, f) == N(n) && n >= 1
    ensures Score(a[f := Decrement(N(n))]) == Score(a) - RuleFor(f).multiplier
  {
    var rule := RuleFor(f);
    assert rule.kind == NumberKind by { RulesFollowSchema(); }
    ScoreUpdate(a, f, N(n - 1));
    assert (n - 1) * rule.multiplier == n * rule.multiplier - rule.multiplier;
  }

  /** On a boolean field, the toggle adds the award when it ticks and removes it when it unticks. */
  lemma ToggleScores(a: Activity, f: Field, b: bool)
    requires DeclaredKind(f) == BooleanKind && Get(a, f) == B(b)
    ensures Score(a[f := Toggle(B(b))]) == Score(a) + (if b then -RuleFor(f).multiplier else RuleFor(f).multiplier)
  {
    assert RuleFor(f).kind == BooleanKind by { RulesFollowSchema(); }
    ScoreUpdate(a, f, Toggle(B(b)));
  }
}
