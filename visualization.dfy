/** The persona JSON export of a window: one day record per row, with the
    sleep in hours and the activity levels folded into active minutes. */
module Visualization {
  import opened Wrappers
  import opened Frames
  import Calendar
  import Numeric

  /** `_safe_float`: None when the row has no such column or the cell is
      NaN, the value otherwise. */
  function SafeFloat(r: Row, c: Col): (v: Option<real>)
    ensures c !in r.cells ==> v == None
    ensures c in r.cells ==> v == r.cells[c]
  {
    if c !in r.cells then None else r.cells[c]
  }

  /** The `"%A, %Y-%m-%d"` label: the weekday name and the day ordinal (the
      calendar-date text of the ordinal is not part of this model). */
  datatype DateLabel = DateLabel(weekday: string, date: int)

  datatype DayEntry = DayEntry(
    date: DateLabel,
    steps: Option<real>,
    sleepHours: Option<real>,
    restingHr: Option<real>,
    calories: Option<real>,
    activeMinutes: Option<real>,
    sedentaryMinutes: Option<real>,
    sleepEfficiency: Option<real>)

  datatype PersonaJson = PersonaJson(persona: string, id: string, startDate: int, days: seq<DayEntry>)

  function Label(date: int): DateLabel {
    DateLabel(Calendar.WeekdayName(Calendar.Weekday(date)), date)
  }

  /** `active_minutes`: None when no activity level is present, otherwise
      the sum of the present ones. */
  function ActiveMinutes(lightly: Option<real>, moderately: Option<real>, very: Option<real>): (m: Option<real>)
    ensures m.None? <==> Numeric.Present([lightly, moderately, very]) == []
    ensures m.Some? ==> m.value == Numeric.Sum(Numeric.Present([lightly, moderately, very]))
  {
    PresentOfThree(lightly, moderately, very);
    if lightly.None? && moderately.None? && very.None? then None
    else Some(lightly.GetOr(0.0) + moderately.GetOr(0.0) + very.GetOr(0.0))
  }

  lemma PresentOfThree(a: Option<real>, b: Option<real>, c: Option<real>)
    ensures Numeric.Present([a, b, c]) == (if a.Some? then [a.value] else []) + (if b.Some? then [b.value] else []) + (if c.Some? then [c.value] else [])
    ensures Numeric.Sum(Numeric.Present([a, b, c])) == a.GetOr(0.0) + b.GetOr(0.0) + c.GetOr(0.0)
  {
    var pa, pb, pc := (if a.Some? then [a.value] else []), (if b.Some? then [b.value] else []), (if c.Some? then [c.value] else []);
    PresentThree(a, b, c);
    Numeric.SumAppend(pa, pb + pc);
    Numeric.SumAppend(pb, pc);
    ConcatThree(pa, pb, pc);
  }

  lemma PresentThree(a: Option<real>, b: Option<real>, c: Option<real>)
    ensures Numeric.Present([a, b, c]) == (if a.Some? then [a.value] else []) + ((if b.Some? then [b.value] else []) + (if c.Some? then [c.value] else []))
  {
    var xs := [a, b, c];
    var pa, pb, pc := (if a.Some? then [a.value] else []), (if b.Some? then [b.value] else []), (if c.Some? then [c.value] else []);
    assert xs[1..] == [b, c] && [b, c][1..] == [c] && [c][1..] == [];
    assert Numeric.Present([c]) == pc + Numeric.Present([]);
    assert Numeric.Present([b, c]) == pb + Numeric.Present([c]);
  }

  lemma ConcatThree(a: seq<real>, b: seq<real>, c: seq<real>)
    ensures a + b + c == a + (b + c)
  {
  }

  /** The day record of one row; steps and sleep are read as columns that
      the window must have. */
  function DayEntryOf(r: Row): DayEntry
    requires Steps in r.cells && Sleep in r.cells
  {
    var sleepMinutes := r.cells[Sleep];
    DayEntry(
      Label(r.date),
      r.cells[Steps],
      if sleepMinutes.Some? then Some(sleepMinutes.value / 60.0) else None,
      SafeFloat(r, RestingHr),
      SafeFloat(r, Calories),
      ActiveMinutes(SafeFloat(r, LightlyActive), SafeFloat(r, ModeratelyActive), SafeFloat(r, VeryActive)),
      SafeFloat(r, Sedentary),
      SafeFloat(r, SleepEfficiency))
  }

  /** A day record keeps the row's date with its weekday name, steps as they
      are, and sleep in hours that convert back to the row's minutes; a
      missing value stays missing. */
  lemma DayEntryFaithful(r: Row)
    requires Steps in r.cells && Sleep in r.cells
    ensures var e := DayEntryOf(r);
      && e.date.date == r.date
      && (e.date.weekday in {"Saturday", "Sunday"} <==> Calendar.IsWeekend(r.date))
      && e.steps == r.cells[Steps]
      && (e.sleepHours.None? <==> r.cells[Sleep].None?)
      && (e.sleepHours.Some? ==> e.sleepHours.value * 60.0 == r.cells[Sleep].value)
      && (e.restingHr.Some? ==> RestingHr in r.cells && r.cells[RestingHr] == e.restingHr)
  {
    Calendar.WeekendNames(r.date);
  }

  /** `window_to_json`: the header from the persona, the id and the first
      row's date, then one day record per row, in row order. */
  method WindowToJson(window: Frame, persona: string, participantId: string) returns (payload: PersonaJson)
    requires WellFormed(window) && |window.rows| > 0
    ensures payload.persona == persona && payload.id == participantId
    ensures payload.startDate == window.rows[0].date
    ensures |payload.days| == |window.rows|
    ensures forall i :: 0 <= i < |window.rows| ==> payload.days[i] == DayEntryOf(window.rows[i])
  {
    var days: seq<DayEntry> := [];
    var i := 0;
    while i < |window.rows|
      invariant 0 <= i <= |window.rows|
      invariant |days| == i
      invariant forall k :: 0 <= k < i ==> days[k] == DayEntryOf(window.rows[k])
    {
      days := AppendDay(window, days, i);
      i := i + 1;
    }
    payload := PersonaJson(persona, participantId, window.rows[0].date, days);
  }

  /** One iteration of the row loop: the record of row i is appended. */
  method AppendDay(window: Frame, days: seq<DayEntry>, i: nat) returns (next: seq<DayEntry>)
    requires WellFormed(window) && i < |window.rows| && |days| == i
    requires forall k :: 0 <= k < i ==> days[k] == DayEntryOf(window.rows[k])
    ensures |next| == i + 1
    ensures forall k :: 0 <= k < i + 1 ==> next[k] == DayEntryOf(window.rows[k])
  {
    var entry := RowToDayEntry(window.rows[i]);
    next := days + [entry];
  }

  /** The body of the row loop: the day record of one row, field by field. */
  method RowToDayEntry(row: Row) returns (entry: DayEntry)
    requires Steps in row.cells && Sleep in row.cells
    ensures entry == DayEntryOf(row)
  {
    var stepsVal := row.cells[Steps];
    var sleepMin := row.cells[Sleep];
    var sleepHours := if sleepMin.Some? then Some(sleepMin.value / 60.0) else None;
    var lightly := SafeFloat(row, LightlyActive);
    var moderately := SafeFloat(row, ModeratelyActive);
    var very := SafeFloat(row, VeryActive);
    var activeMinutes := SumActivity(lightly, moderately, very);
    entry := DayEntry(Label(row.date), stepsVal, sleepHours, SafeFloat(row, RestingHr), SafeFloat(row, Calories),
                      activeMinutes, SafeFloat(row, Sedentary), SafeFloat(row, SleepEfficiency));
  }

  /** The activity-level sum of one row: None unless some level is present. */
  method SumActivity(lightly: Option<real>, moderately: Option<real>, very: Option<real>)
    returns (activeMinutes: Option<real>)
    ensures activeMinutes == ActiveMinutes(lightly, moderately, very)
  {
    activeMinutes := None;
    if lightly.Some? || moderately.Some? || very.Some? {
      activeMinutes := Some(lightly.GetOr(0.0) + moderately.GetOr(0.0) + very.GetOr(0.0));
    }
  }
}
