/**
 * Calendar arithmetic on day numbers (days since 1970-01-01), standing for the
 * `Date` operations the views use: the weekday and the Monday of the week.
 */
module Calendar {
  import opened Types

  /** `getDay()`: 0 for Sunday through 6 for Saturday; day 0 was a Thursday. */
  function WeekdayOf(d: Day): (w: int)
    ensures 0 <= w < 7
  {
    (d + 4) % 7
  }

  /**
   * The Monday of the week containing `today`, computed as the views do:
   * `today - getDay() + (getDay() == 0 ? -6 : 1)`, so a Sunday belongs to the
   * week that began six days before.
   */
  function WeekMonday(today: Day): (monday: Day)
    ensures WeekdayOf(monday) == 1
    ensures monday <= today <= monday + 6
  {
    var w := WeekdayOf(today);
    today - w + (if w == 0 then -6 else 1)
  }

  /** Monday 00:00 to Sunday 23:59:59.999 of the week starting at `monday`. */
  predicate InWeek(monday: Day, d: Day) {
    monday <= d <= monday + 6
  }

  /** Within a week, the weekday of a day is fixed by its offset from Monday. */
  lemma WeekdayInWeek(monday: Day, d: Day)
    requires WeekdayOf(monday) == 1 && InWeek(monday, d)
    ensures WeekdayOf(d) == (d - monday + 1) % 7
  {
  }
}
