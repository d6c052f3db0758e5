/**
 * How a saved log's date is stored and found again. The save handler stores
 * `new Date(year, month - 1, day).toISOString()`: local midnight of the
 * selected day, written as a UTC instant. The lookups compare the UTC
 * calendar day of that instant with the selected day. Instants are whole
 * minutes, and a zone is its offset in minutes east of UTC.
 */
module Timestamps {
  import opened Types

  const MINUTES_PER_DAY: int := 1440

  /** The UTC instant of local midnight of day d, in a zone `offset` minutes east of UTC. */
  function LocalMidnight(d: Day, offset: int): int {
    d * MINUTES_PER_DAY - offset
  }

  /** `toISOString().split('T')[0]`: the UTC calendar day an instant falls on. */
  function UtcDay(t: int): (d: Day)
    ensures d * MINUTES_PER_DAY <= t < d * MINUTES_PER_DAY + MINUTES_PER_DAY
  {
    t / MINUTES_PER_DAY
  }

  /** The local calendar day an instant falls on, in a zone `offset` minutes east of UTC. */
  function LocalDay(t: int, offset: int): (d: Day)
    ensures d * MINUTES_PER_DAY <= t + offset < d * MINUTES_PER_DAY + MINUTES_PER_DAY
  {
    (t + offset) / MINUTES_PER_DAY
  }

  /** The first index whose stored instant has the day `key` gives for day d, or -1. */
  function FindStored(stored: seq<int>, d: Day, key: int -> Day): (i: int)
    ensures -1 <= i < |stored|
    ensures i >= 0 ==> key(stored[i]) == d
    ensures i == -1 <==> forall j :: 0 <= j < |stored| ==> key(stored[j]) != d
  {
    if |stored| == 0 then -1
    else if key(stored[0]) == d then 0
    else
      var i := FindStored(stored[1..], d, key);
      assert forall j :: 1 <= j < |stored| ==> stored[j] == stored[1..][j - 1];
      if i == -1 then -1 else i + 1
  }

  /** Saving day d: overwrite the found instant, otherwise prepend a new one. */
  function SaveStored(stored: seq<int>, d: Day, offset: int, key: int -> Day): seq<int> {
    var i := FindStored(stored, d, key);
    if i >= 0 then stored[i := LocalMidnight(d, offset)] else [LocalMidnight(d, offset)] + stored
  }

  /** The lookup as written: the UTC day of the stored instant. */
  function AsWrittenKey(): int -> Day {
    t => UtcDay(t)
  }

  /** The lookup as intended: the local day of the stored instant. */
  function LocalKey(offset: int): int -> Day {
    t => LocalDay(t, offset)
  }

  /** West of UTC, or on it, the UTC day of local midnight is the selected day. */
  lemma UtcKeyWestOfUtc(d: Day, offset: int)
    requires -MINUTES_PER_DAY < offset <= 0
    ensures UtcDay(LocalMidnight(d, offset)) == d
  {
  }

  /** East of UTC, local midnight is still the previous day in UTC. */
  lemma UtcKeyEastOfUtc(d: Day, offset: int)
    requires 0 < offset < MINUTES_PER_DAY
    ensures UtcDay(LocalMidnight(d, offset)) == d - 1
  {
  }

  /**
   * As written, at UTC+5:30 a second save of the same day does not find the
   * first one and prepends a second entry for it.
   */
  lemma AsWrittenSaveTwiceDuplicates(d: Day)
    ensures var once := SaveStored([], d, 330, AsWrittenKey());
      SaveStored(once, d, 330, AsWrittenKey()) == [LocalMidnight(d, 330), LocalMidnight(d, 330)]
  {
    var once := SaveStored([], d, 330, AsWrittenKey());
    assert once == [LocalMidnight(d, 330)];
    UtcKeyEastOfUtc(d, 330);
    assert AsWrittenKey()(once[0]) != d;
  }

  /** The local day of local midnight is the selected day, in every zone. */
  lemma LocalKeyRoundTrips(d: Day, offset: int)
    ensures LocalDay(LocalMidnight(d, offset), offset) == d
  {
  }

  /** With the local-day key, a saved day is found again, so a second save adds no entry. */
  lemma LocalSaveTwiceKeepsOne(stored: seq<int>, d: Day, offset: int)
    ensures var once := SaveStored(stored, d, offset, LocalKey(offset));
      FindStored(once, d, LocalKey(offset)) >= 0 &&
      |SaveStored(once, d, offset, LocalKey(offset))| == |once|
  {
    var key := LocalKey(offset);
    LocalKeyRoundTrips(d, offset);
    var i := FindStored(stored, d, key);
    var once := SaveStored(stored, d, offset, key);
    var j := if i >= 0 then i else 0;
    assert key(once[j]) == d;
  }
}
