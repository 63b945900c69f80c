/** The tabular data the validator and the extractor work on: one participant's
    daily rows, each with a date (a day ordinal) and numeric cells, some
    missing. The model is row-oriented; a column of the frame is present in
    every row's cell map and in no other. */
module Frames {
  import opened Wrappers

  /** The numeric columns the core reads by name; any other column of the
      dataset is `Other`. The name of an `Other` column is never one of the
      names the core reads (`steps`, `minutesAsleep`, `resting_hr`,
      `calories`, the activity-minute columns, `sleep_efficiency`): those
      columns always appear as their own constructor. */
  datatype Col =
    | Steps | Sleep
    | RestingHr | Calories
    | LightlyActive | ModeratelyActive | VeryActive | Sedentary
    | SleepEfficiency
    | Other(name: string)

  /** The derived `dow` and `is_weekend` columns. */
  datatype DayOfWeek = DayOfWeek(dow: int, isWeekend: bool)

  datatype Row = Row(date: int, cells: map<Col, Option<real>>, calendar: Option<DayOfWeek>)

  datatype Frame = Frame(columns: set<Col>, rows: seq<Row>)

  /** Every row holds exactly the frame's columns, and the step and sleep
      columns the core reads unconditionally are among them. */
  ghost predicate WellFormed(f: Frame) {
    && Steps in f.columns && Sleep in f.columns
    && forall i :: 0 <= i < |f.rows| ==> f.rows[i].cells.Keys == f.columns
  }

  /** The derived calendar columns are present. */
  ghost predicate HasCalendar(f: Frame) {
    forall i :: 0 <= i < |f.rows| ==> f.rows[i].calendar.Some?
  }

  function Dates(f: Frame): (d: seq<int>)
    ensures |d| == |f.rows| && forall i :: 0 <= i < |f.rows| ==> d[i] == f.rows[i].date
  {
    seq(|f.rows|, i requires 0 <= i < |f.rows| => f.rows[i].date)
  }

  /** The column `c`, top to bottom. */
  function Column(f: Frame, c: Col): (xs: seq<Option<real>>)
    requires WellFormed(f) && c in f.columns
    ensures |xs| == |f.rows| && forall i :: 0 <= i < |f.rows| ==> xs[i] == f.rows[i].cells[c]
  {
    seq(|f.rows|, i requires 0 <= i < |f.rows| && c in f.rows[i].cells => f.rows[i].cells[c])
  }

  /** `iloc[lo:hi]`: the rows from position lo up to, not including, hi. */
  function Slice(f: Frame, lo: nat, hi: nat): (s: Frame)
    requires lo <= hi <= |f.rows|
    ensures s.columns == f.columns && s.rows == f.rows[lo..hi]
    ensures WellFormed(f) ==> WellFormed(s)
  {
    Frame(f.columns, f.rows[lo..hi])
  }
}
