/** Calendar facts about day ordinals: day 1 is 0001-01-01 (a Monday), as in
    Python's `date.toordinal()`. */
module Calendar {

  /** Python's `weekday()` and pandas' `dayofweek`: Monday = 0 .. Sunday = 6. */
  function Weekday(ordinal: int): (d: int)
    ensures 0 <= d < 7
  {
    (ordinal + 6) % 7
  }

  /** Saturday and Sunday, the days the source calls weekend (`dayofweek >= 5`). */
  predicate IsWeekend(ordinal: int) {
    Weekday(ordinal) >= 5
  }

  /** The `%A` name of a weekday number. */
  function WeekdayName(d: int): (name: string)
    requires 0 <= d < 7
  {
    ["Monday", "Tuesday", "Wednesday", "Thursday", "Friday", "Saturday", "Sunday"][d]
  }

  /** 0001-01-01 was a Monday, and the next day always has the next weekday
      number, wrapping from Sunday to Monday. */
  lemma WeekdayAdvances(ordinal: int)
    ensures Weekday(1) == 0
    ensures Weekday(ordinal + 1) == (Weekday(ordinal) + 1) % 7
  {
  }

  /** Adding whole weeks to a day keeps its weekday. */
  lemma {:induction false} WeekdayPeriodic(ordinal: int, k: nat)
    ensures Weekday(ordinal + 7 * k) == Weekday(ordinal)
  {
    if k > 0 {
      WeekdayPeriodic(ordinal, k - 1);
      assert ordinal + 7 * k == (ordinal + 7 * (k - 1)) + 7;
    }
  }

  /** The weekend names are exactly the weekday numbers 5 and 6. */
  lemma WeekendNames(ordinal: int)
    ensures IsWeekend(ordinal) <==> WeekdayName(Weekday(ordinal)) in {"Saturday", "Sunday"}
  {
  }
}
