/** Validation and preparation of one participant's window: contiguity, then
    cleaning of negative values, then coverage, then the day-of-week columns,
    each step short-circuiting on failure. */
module DataValidation {
  import opened Wrappers
  import opened Frames
  import Calendar

  /** The reasons a window is rejected, with the numbers the source puts in
      its messages. */
  datatype ValidationError =
    | WrongLength(rows: nat, expected: int)
    | NonContiguous
    | InsufficientSteps(present: nat, rows: nat, need: int)
    | InsufficientSleep(present: nat, rows: nat, need: int)

  /** Default of `min_present_days`. */
  const DefaultMinPresentDays: int := 12

  /** Each date is exactly one day after the previous one. */
  ghost predicate Contiguous(dates: seq<int>) {
    forall i :: 0 < i < |dates| ==> dates[i] - dates[i - 1] == 1
  }

  /** `validate_window_contiguity`: None when the window is accepted. */
  function ValidateWindowContiguity(w: Frame, windowDays: int): (r: Option<ValidationError>)
    ensures r.None? <==> |w.rows| == windowDays && Contiguous(Dates(w))
    ensures |w.rows| != windowDays ==> r == Some(WrongLength(|w.rows|, windowDays))
    ensures |w.rows| == windowDays && r.Some? ==> r == Some(NonContiguous)
  {
    if |w.rows| != windowDays then Some(WrongLength(|w.rows|, windowDays))
    else if exists i :: 0 < i < |w.rows| && w.rows[i].date - w.rows[i - 1].date != 1 then Some(NonContiguous)
    else None
  }

  /** A contiguous run of dates is the run d0, d0 + 1, d0 + 2, ...; in
      particular it holds no date twice. */
  lemma {:induction false} ContiguousDates(dates: seq<int>, i: nat)
    requires Contiguous(dates) && i < |dates|
    ensures dates[i] == dates[0] + i
  {
    if i > 0 {
      ContiguousDates(dates, i - 1);
    }
  }

  /** A window that repeats a date is never contiguous. */
  lemma DuplicateDateRejected(dates: seq<int>, i: nat, j: nat)
    requires i < j < |dates| && dates[i] == dates[j]
    ensures !Contiguous(dates)
  {
    if Contiguous(dates) {
      ContiguousDates(dates, i);
      ContiguousDates(dates, j);
    }
  }

  // ---------------------------------------------------------------------
  // Cleaning

  /** The optional numeric columns, cleaned when the frame has them. */
  const OptionalCols: seq<Col> :=
    [RestingHr, Calories, LightlyActive, ModeratelyActive, VeryActive, Sedentary, SleepEfficiency]

  /** Every column cleaning touches: the step and sleep columns, then the
      optional ones. */
  const CleanedCols: seq<Col> := [Steps, Sleep] + OptionalCols

  /** A negative value becomes missing; zero, positive and missing values
      stay as they are. */
  function ClearNegative(v: Option<real>): (r: Option<real>)
    ensures r == (if v.Some? && v.value < 0.0 then None else v)
  {
    if v.Some? && v.value < 0.0 then None else v
  }

  /** `window.loc[window[col] < 0, col] = nan` for one column. */
  function ClearColumn(f: Frame, c: Col): (r: Frame)
    requires WellFormed(f) && c in f.columns
    ensures r.columns == f.columns && |r.rows| == |f.rows|
    ensures forall i :: 0 <= i < |f.rows| ==>
      r.rows[i] == f.rows[i].(cells := f.rows[i].cells[c := ClearNegative(f.rows[i].cells[c])])
  {
    Frame(f.columns, seq(|f.rows|, i requires 0 <= i < |f.rows| && c in f.rows[i].cells =>
      f.rows[i].(cells := f.rows[i].cells[c := ClearNegative(f.rows[i].cells[c])])))
  }

  /** r is f with the columns listed in `done` cleaned and nothing else
      changed: same columns, rows, dates and calendar columns. */
  ghost predicate CleanedOn(r: Frame, f: Frame, done: seq<Col>) {
    && r.columns == f.columns && |r.rows| == |f.rows|
    && forall i :: 0 <= i < |f.rows| ==>
         && r.rows[i].date == f.rows[i].date
         && r.rows[i].calendar == f.rows[i].calendar
         && r.rows[i].cells.Keys == f.rows[i].cells.Keys
         && forall c :: c in f.rows[i].cells ==>
              r.rows[i].cells[c] == (if c in done then ClearNegative(f.rows[i].cells[c]) else f.rows[i].cells[c])
  }

  /** Two cleanings of the same frame on the same columns are equal. */
  lemma CleanedOnUnique(r: Frame, s: Frame, f: Frame, done: seq<Col>)
    requires CleanedOn(r, f, done) && CleanedOn(s, f, done)
    ensures r == s
  {
    forall i | 0 <= i < |f.rows| ensures r.rows[i] == s.rows[i] {
      assert r.rows[i].cells == s.rows[i].cells;
    }
    assert r.rows == s.rows;
  }

  function CleanRow(row: Row): Row {
    row.(cells := map c | c in row.cells :: if c in CleanedCols then ClearNegative(row.cells[c]) else row.cells[c])
  }

  /** The frame `clean_numeric_columns` returns. */
  function Cleaned(f: Frame): Frame {
    Frame(f.columns, seq(|f.rows|, i requires 0 <= i < |f.rows| => CleanRow(f.rows[i])))
  }

  /** The cleaned frame clears negatives in steps, sleep and each optional
      column the frame has, and changes nothing else. */
  lemma CleanedCorrect(f: Frame)
    ensures CleanedOn(Cleaned(f), f, CleanedCols)
    ensures WellFormed(f) ==> WellFormed(Cleaned(f))
  {
  }

  /** `clean_numeric_columns`: works on a copy, cleaning the step and sleep
      columns, then each optional column the frame has. */
  method CleanNumericColumns(w: Frame) returns (r: Frame)
    requires WellFormed(w)
    ensures r == Cleaned(w)
  {
    r := ClearColumn(w, Steps);
    r := ClearColumn(r, Sleep);
    assert [Steps, Sleep] + OptionalCols[..0] == [Steps, Sleep];
    for k := 0 to |OptionalCols|
      invariant WellFormed(r)
      invariant CleanedOn(r, w, [Steps, Sleep] + OptionalCols[..k])
    {
      r := CleanOptional(r, w, k);
    }
    assert [Steps, Sleep] + OptionalCols[..|OptionalCols|] == CleanedCols;
    CleanedOnUnique(r, Cleaned(w), w, CleanedCols);
  }

  /** The body of the loop over the optional columns: clean the k-th one
      when the frame has it. */
  method CleanOptional(r: Frame, w: Frame, k: nat) returns (next: Frame)
    requires WellFormed(r) && k < |OptionalCols|
    requires CleanedOn(r, w, [Steps, Sleep] + OptionalCols[..k])
    ensures WellFormed(next)
    ensures CleanedOn(next, w, [Steps, Sleep] + OptionalCols[..k + 1])
  {
    var c := OptionalCols[k];
    assert [Steps, Sleep] + OptionalCols[..k + 1] == ([Steps, Sleep] + OptionalCols[..k]) + [c];
    next := r;
    if c in r.columns {
      next := ClearColumn(r, c);
    }
  }

  // ---------------------------------------------------------------------
  // Coverage

  /** Days whose value is present and strictly positive. */
  function CountPositive(xs: seq<Option<real>>): (n: nat)
    ensures n <= |xs|
  {
    if xs == [] then 0 else (if xs[0].Some? && xs[0].value > 0.0 then 1 else 0) + CountPositive(xs[1..])
  }

  /** Days whose value is present, zero included. */
  function CountPresent(xs: seq<Option<real>>): (n: nat)
    ensures n <= |xs|
  {
    if xs == [] then 0 else (if xs[0].Some? then 1 else 0) + CountPresent(xs[1..])
  }

  /** Days whose value is present and not negative. */
  function CountNonNegative(xs: seq<Option<real>>): (n: nat)
    ensures n <= |xs|
  {
    if xs == [] then 0 else (if xs[0].Some? && xs[0].value >= 0.0 then 1 else 0) + CountNonNegative(xs[1..])
  }

  /** A positive step day is a present one, so the step count never exceeds
      the present count. */
  lemma {:induction false} PositiveAtMostPresent(xs: seq<Option<real>>)
    ensures CountPositive(xs) <= CountPresent(xs)
  {
    if xs != [] {
      PositiveAtMostPresent(xs[1..]);
    }
  }

  /** `validate_data_coverage`: the step shortfall is reported first. */
  function ValidateDataCoverage(w: Frame, minPresentDays: int): (r: Option<ValidationError>)
    requires WellFormed(w)
    ensures r.None? <==>
      CountPositive(Column(w, Steps)) >= minPresentDays && CountPresent(Column(w, Sleep)) >= minPresentDays
    ensures CountPositive(Column(w, Steps)) < minPresentDays ==>
      r == Some(InsufficientSteps(CountPositive(Column(w, Steps)), |w.rows|, minPresentDays))
    ensures CountPositive(Column(w, Steps)) >= minPresentDays && CountPresent(Column(w, Sleep)) < minPresentDays ==>
      r == Some(InsufficientSleep(CountPresent(Column(w, Sleep)), |w.rows|, minPresentDays))
  {
    var stepsOk := CountPositive(Column(w, Steps));
    var sleepOk := CountPresent(Column(w, Sleep));
    if stepsOk < minPresentDays then Some(InsufficientSteps(stepsOk, |w.rows|, minPresentDays))
    else if sleepOk < minPresentDays then Some(InsufficientSleep(sleepOk, |w.rows|, minPresentDays))
    else None
  }

  lemma {:induction false} CleanedColumn(w: Frame, c: Col)
    requires WellFormed(w) && c in w.columns && c in CleanedCols
    ensures Column(Cleaned(w), c) == seq(|w.rows|, i requires 0 <= i < |w.rows| => ClearNegative(Column(w, c)[i]))
  {
  }

  lemma {:induction false} CountsOfCleared(xs: seq<Option<real>>, ys: seq<Option<real>>)
    requires |ys| == |xs| && forall i :: 0 <= i < |xs| ==> ys[i] == ClearNegative(xs[i])
    ensures CountPositive(ys) == CountPositive(xs)
    ensures CountPresent(ys) == CountNonNegative(xs)
  {
    if xs != [] {
      CountsOfCleared(xs[1..], ys[1..]);
    }
  }

  /** Cleaning never changes step coverage (a negative step count was not
      positive anyway), while sleep coverage after cleaning counts exactly the
      raw sleep values that are not negative. */
  lemma CleaningAndCoverage(w: Frame)
    requires WellFormed(w)
    ensures CountPositive(Column(Cleaned(w), Steps)) == CountPositive(Column(w, Steps))
    ensures CountPresent(Column(Cleaned(w), Sleep)) == CountNonNegative(Column(w, Sleep))
  {
    CleanedColumn(w, Steps);
    CleanedColumn(w, Sleep);
    CountsOfCleared(Column(w, Steps), Column(Cleaned(w), Steps));
    CountsOfCleared(Column(w, Sleep), Column(Cleaned(w), Sleep));
  }

  // ---------------------------------------------------------------------
  // Derived features

  /** `add_derived_features`: each row gets its day of week (Monday = 0) and
      a weekend flag; nothing else changes. */
  function AddDerivedFeatures(w: Frame): (r: Frame)
    ensures r.columns == w.columns && |r.rows| == |w.rows| && HasCalendar(r)
    ensures forall i :: 0 <= i < |w.rows| ==>
      && r.rows[i].date == w.rows[i].date && r.rows[i].cells == w.rows[i].cells
      && r.rows[i].calendar.value.dow == Calendar.Weekday(w.rows[i].date)
      && 0 <= r.rows[i].calendar.value.dow <= 6
      && (r.rows[i].calendar.value.isWeekend <==> r.rows[i].calendar.value.dow >= 5)
    ensures WellFormed(w) ==> WellFormed(r)
  {
    Frame(w.columns, seq(|w.rows|, i requires 0 <= i < |w.rows| =>
      var dow := Calendar.Weekday(w.rows[i].date);
      w.rows[i].(calendar := Some(DayOfWeek(dow, dow >= 5)))))
  }

  // ---------------------------------------------------------------------
  // The pipeline

  /** What `prepare_window` returns: the window in the state the pipeline
      reached, and the error if it stopped. */
  datatype Prepared = Prepared(window: Frame, error: Option<ValidationError>) {
    predicate IsValid() { error.None? }
  }

  /** `prepare_window`: contiguity on the raw window, then cleaning, then
      coverage on the cleaned window, then the derived columns. */
  function PrepareWindow(w: Frame, windowDays: int, minPresentDays: int): Prepared
    requires WellFormed(w)
  {
    match ValidateWindowContiguity(w, windowDays)
    case Some(e) => Prepared(w, Some(e))
    case None =>
      var cleaned := Cleaned(w);
      match ValidateDataCoverage(cleaned, minPresentDays)
      case Some(e) => Prepared(cleaned, Some(e))
      case None => Prepared(AddDerivedFeatures(cleaned), None)
  }

  /** A contiguity failure returns the raw window with that error; the
      result is valid exactly when the raw window is contiguous with
      windowDays rows and the cleaned one meets both coverage minimums. */
  lemma PrepareWindowCorrect(w: Frame, windowDays: int, minPresentDays: int)
    requires WellFormed(w)
    ensures var p := PrepareWindow(w, windowDays, minPresentDays);
      && WellFormed(p.window)
      && (ValidateWindowContiguity(w, windowDays).Some? ==>
            p == Prepared(w, ValidateWindowContiguity(w, windowDays)))
      && (p.IsValid() <==>
            && |w.rows| == windowDays && Contiguous(Dates(w))
            && CountPositive(Column(Cleaned(w), Steps)) >= minPresentDays
            && CountPresent(Column(Cleaned(w), Sleep)) >= minPresentDays)
  {
  }

  /** A negative window size fails the length check, whatever the window:
      no frame has a negative number of rows. */
  lemma NegativeSizeRejected(w: Frame, windowDays: int, minPresentDays: int)
    requires WellFormed(w) && windowDays < 0
    ensures PrepareWindow(w, windowDays, minPresentDays).error == Some(WrongLength(|w.rows|, windowDays))
  {
  }

  /** An empty window of size 0 passes the contiguity check and then the
      coverage check exactly when the minimum is at most 0; accepted, it is
      still empty. */
  lemma EmptyWindowPrepared(w: Frame, minPresentDays: int)
    requires WellFormed(w) && w.rows == []
    ensures PrepareWindow(w, 0, minPresentDays).IsValid() <==> minPresentDays <= 0
    ensures PrepareWindow(w, 0, minPresentDays).window.rows == []
  {
    var cleaned := Cleaned(w);
    CleanedCorrect(w);
    assert ValidateWindowContiguity(w, 0).None?;
    assert Column(cleaned, Steps) == [] && Column(cleaned, Sleep) == [];
  }

  /** A window `prepare_window` accepts has exactly windowDays contiguous rows
      with the input's dates, enough positive step days and present sleep
      days, cleaned values, and the derived calendar columns. */
  lemma PreparedWindowValid(w: Frame, windowDays: int, minPresentDays: int)
    requires WellFormed(w)
    requires PrepareWindow(w, windowDays, minPresentDays).IsValid()
    ensures var v := PrepareWindow(w, windowDays, minPresentDays).window;
      && |v.rows| == windowDays
      && Dates(v) == Dates(w) && Contiguous(Dates(v))
      && CountPositive(Column(v, Steps)) >= minPresentDays
      && CountPresent(Column(v, Sleep)) >= minPresentDays
      && HasCalendar(v)
      && v.columns == w.columns
      && forall i, c :: 0 <= i < |v.rows| && c in v.columns ==>
           v.rows[i].cells[c] == Cleaned(w).rows[i].cells[c]
  {
    var v := PrepareWindow(w, windowDays, minPresentDays).window;
    assert v == AddDerivedFeatures(Cleaned(w));
    assert Column(v, Steps) == Column(Cleaned(w), Steps);
    assert Column(v, Sleep) == Column(Cleaned(w), Sleep);
    assert Dates(v) == Dates(w);
  }
}
