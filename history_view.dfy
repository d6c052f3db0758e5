/**
 * The history view: the label shown beside a log's coach feedback, and the
 * weekly total printed on the certificate.
 */
module HistoryView {
  import opened Types
  import opened Sums
  import opened Text
  import opened Calendar
  import opened Gamification
  import opened WeeklyReport

  datatype Label = NoFeedback | Constructive | Excellent | Good

  /** Words that mark feedback as constructive. */
  const CONSTRUCTIVE_WORDS: seq<string> := ["missed", "focus", "gap", "attention", "try", "however"]

  /** Words of high praise. */
  const PRAISE_WORDS: seq<string> := ["excellent", "outstanding", "amazing", "crushed", "perfect", "superb"]

  /** `words[0]` included, or `words[1]`, and so on. */
  function IncludesAny(s: string, words: seq<string>): (b: bool)
    ensures b <==> exists k :: 0 <= k < |words| && Contains(s, words[k])
  {
    if |words| == 0 then false
    else
      assert forall k :: 1 <= k < |words| ==> words[k] == words[1..][k - 1];
      Contains(s, words[0]) || IncludesAny(s, words[1..])
  }

  /** `getSentimentConfig(text).label`; a missing or empty text has no feedback. */
  function SentimentLabel(text: Option<string>): Label {
    if text.None? || text.value == "" then NoFeedback
    else
      var lower := Lower(text.value);
      if IncludesAny(lower, CONSTRUCTIVE_WORDS) then Constructive
      else if IncludesAny(lower, PRAISE_WORDS) then Excellent
      else Good
  }

  /** The lower-cased text contains word w somewhere. */
  ghost predicate Mentions(text: string, w: string) {
    exists i :: OccursAt(Lower(text), w, i)
  }

  lemma IncludesAnyIff(s: string, words: seq<string>)
    ensures IncludesAny(s, words) <==> exists k :: 0 <= k < |words| && exists i :: OccursAt(s, words[k], i)
  {
    forall k | 0 <= k < |words| {
      ContainsIff(s, words[k]);
    }
  }

  /**
   * The four labels, each characterised on its own: no text; some constructive
   * word, whatever praise there is; praise and no constructive word; anything else.
   */
  lemma SentimentCases(t: string)
    ensures SentimentLabel(None) == NoFeedback && SentimentLabel(Some("")) == NoFeedback
    ensures t != "" ==>
      (SentimentLabel(Some(t)) == Constructive <==>
        exists k :: 0 <= k < |CONSTRUCTIVE_WORDS| && Mentions(t, CONSTRUCTIVE_WORDS[k]))
    ensures t != "" ==>
      (SentimentLabel(Some(t)) == Excellent <==>
        (forall k :: 0 <= k < |CONSTRUCTIVE_WORDS| ==> !Mentions(t, CONSTRUCTIVE_WORDS[k])) &&
        exists k :: 0 <= k < |PRAISE_WORDS| && Mentions(t, PRAISE_WORDS[k]))
    ensures t != "" ==>
      (SentimentLabel(Some(t)) == Good <==>
        (forall k :: 0 <= k < |CONSTRUCTIVE_WORDS| ==> !Mentions(t, CONSTRUCTIVE_WORDS[k])) &&
        (forall k :: 0 <= k < |PRAISE_WORDS| ==> !Mentions(t, PRAISE_WORDS[k])))
  {
    IncludesAnyIff(Lower(t), CONSTRUCTIVE_WORDS);
    IncludesAnyIff(Lower(t), PRAISE_WORDS);
  }

  /** A text and its lower-cased form get the same label. */
  lemma SentimentIgnoresCase(t: string)
    ensures SentimentLabel(Some(Lower(t))) == SentimentLabel(Some(t))
  {
    LowerIdempotent(t);
  }

  /** Only a missing or empty text is labelled 'No feedback'. */
  lemma NoFeedbackIff(text: Option<string>)
    ensures SentimentLabel(text) == NoFeedback <==> text.None? || text.value == ""
  {
  }

  /** The certificate total: the summed `totalScore` of the logs of the week containing `today`. */
  function CertificateTotal(logs: seq<DailyLog>, today: Day): int {
    Sum(WeekLogs(logs, WeekMonday(today)), TotalScoreOf)
  }

  /** The certificate shows the total of the weekly report's seven columns. */
  lemma CertificateMatchesReport(logs: seq<DailyLog>, today: Day)
    ensures var ds := DailyScores(WeekLogs(logs, WeekMonday(today)));
      CertificateTotal(logs, today) == ds[0] + ds[1] + ds[2] + ds[3] + ds[4] + ds[5] + ds[6]
  {
    DailyScoresSumToTotal(WeekLogs(logs, WeekMonday(today)));
  }

  /** Only logs of the week count: logs dated outside it leave the total unchanged. */
  lemma CertificateIgnoresOtherWeeks(logs: seq<DailyLog>, other: seq<DailyLog>, today: Day)
    requires forall i :: 0 <= i < |other| ==> !InWeek(WeekMonday(today), other[i].date)
    ensures CertificateTotal(logs + other, today) == CertificateTotal(logs, today)
    ensures CertificateTotal(other + logs, today) == CertificateTotal(logs, today)
  {
    var p := InWeekOf(WeekMonday(today));
    FilterAppend(logs, other, p);
    FilterAppend(other, logs, p);
    FilterNone(other, p);
    assert Filter(logs, p) + [] == Filter(logs, p);
    assert [] + Filter(logs, p) == Filter(logs, p);
  }
}
