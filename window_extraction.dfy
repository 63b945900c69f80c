/** Candidate extraction and selection: a window of `window_days` rows slides
    over each participant's date-sorted rows, every window `prepare_window`
    accepts yields one Persona A and one Persona B candidate, and the
    candidates are ranked per persona or drawn at random above a threshold.
    The scorers are parameters of the extraction. */
module WindowExtraction {
  import opened Wrappers
  import opened Frames
  import opened Sorting
  import opened DataValidation

  datatype Persona = A | B

  /** `WindowCandidate`. */
  datatype Candidate = Candidate(participantId: string, startDate: int, persona: Persona, fitScore: real)

  /** One participant's rows, as `groupby(id)` hands them over. */
  datatype Group = Group(pid: string, rows: seq<Row>)

  /** The dataset, grouped by participant in `groupby` order. */
  datatype Dataset = Dataset(columns: set<Col>, groups: seq<Group>)

  /** Every row holds exactly the dataset's columns, among them steps and
      sleep. */
  ghost predicate DatasetWellFormed(ds: Dataset) {
    && Steps in ds.columns && Sleep in ds.columns
    && forall g, r :: g in ds.groups && r in g.rows ==> r.cells.Keys == ds.columns
  }

  function DateKey(r: Row): real { r.date as real }

  /** `group.sort_values(date)`. */
  function SortedRows(g: Group): (rows: seq<Row>)
    ensures |rows| == |g.rows|
  {
    StableSort(g.rows, DateKey)
  }

  lemma SortedRowsFacts(ds: Dataset, g: Group)
    requires DatasetWellFormed(ds) && g in ds.groups
    ensures WellFormed(Frame(ds.columns, SortedRows(g)))
    ensures SortedBy(SortedRows(g), DateKey)
    ensures multiset(SortedRows(g)) == multiset(g.rows)
  {
    StableSortCorrect(g.rows, DateKey);
    forall i | 0 <= i < |SortedRows(g)| ensures SortedRows(g)[i].cells.Keys == ds.columns {
      assert SortedRows(g)[i] in multiset(g.rows);
    }
  }

  /** `group.iloc[i:i + window_days]`. */
  function Window(ds: Dataset, g: Group, i: nat, wd: nat): (w: Frame)
    requires i + wd <= |g.rows|
    ensures |w.rows| == wd
  {
    Slice(Frame(ds.columns, SortedRows(g)), i, i + wd)
  }

  /** The number of start offsets, 0 .. len - window_days; none for a
      participant with fewer than window_days rows. */
  function NumOffsets(g: Group, wd: nat): nat {
    if |g.rows| < wd then 0 else |g.rows| - wd + 1
  }

  /** `prepare_window` on the window at offset i. */
  function Prepare(ds: Dataset, g: Group, i: nat, wd: nat, mp: int): Prepared
    requires DatasetWellFormed(ds) && g in ds.groups && i + wd <= |g.rows|
  {
    SortedRowsFacts(ds, g);
    PrepareWindow(Window(ds, g, i, wd), wd, mp)
  }

  /** A window that passes preparation keeps its wd dates, which are
      consecutive, and has every column the scorers read. */
  lemma PrepareValid(ds: Dataset, g: Group, i: nat, wd: nat, mp: int)
    requires DatasetWellFormed(ds) && g in ds.groups && i + wd <= |g.rows|
    requires Prepare(ds, g, i, wd, mp).IsValid()
    ensures var p := Prepare(ds, g, i, wd, mp);
      && |p.window.rows| == wd && Dates(p.window) == Dates(Window(ds, g, i, wd))
      && Contiguous(Dates(p.window)) && WellFormed(p.window) && HasCalendar(p.window)
  {
    SortedRowsFacts(ds, g);
    PreparedWindowValid(Window(ds, g, i, wd), wd, mp);
  }

  /** The candidates of the window at offset i: none if it is invalid, else
      an A and a B candidate starting at the window's first date. */
  function WindowCandidates(ds: Dataset, g: Group, i: nat, wd: nat, mp: int,
                            scoreA: Frame -> real, scoreB: Frame -> real): (cs: seq<Candidate>)
    requires DatasetWellFormed(ds) && g in ds.groups && wd > 0 && i + wd <= |g.rows|
  {
    var p := Prepare(ds, g, i, wd, mp);
    if p.IsValid() then
      var start := p.window.rows[0].date;
      [Candidate(g.pid, start, A, scoreA(p.window)), Candidate(g.pid, start, B, scoreB(p.window))]
    else []
  }

  /** The candidates of the first k windows of a participant, in order. */
  function GroupCandidates(ds: Dataset, g: Group, k: nat, wd: nat, mp: int,
                           scoreA: Frame -> real, scoreB: Frame -> real): seq<Candidate>
    requires DatasetWellFormed(ds) && g in ds.groups && wd > 0 && k <= NumOffsets(g, wd)
  {
    if k == 0 then []
    else GroupCandidates(ds, g, k - 1, wd, mp, scoreA, scoreB)
         + WindowCandidates(ds, g, k - 1, wd, mp, scoreA, scoreB)
  }

  /** The candidates of the first n participants, in order. */
  function AllCandidates(ds: Dataset, n: nat, wd: nat, mp: int,
                         scoreA: Frame -> real, scoreB: Frame -> real): seq<Candidate>
    requires DatasetWellFormed(ds) && wd > 0 && n <= |ds.groups|
  {
    if n == 0 then []
    else
      var g := ds.groups[n - 1];
      AllCandidates(ds, n - 1, wd, mp, scoreA, scoreB)
      + GroupCandidates(ds, g, NumOffsets(g, wd), wd, mp, scoreA, scoreB)
  }

  /** Reading the start date of an accepted window that has no rows: the
      `IndexError` of `window_prepared[date].iloc[0]`. */
  datatype CandidatesError = EmptyWindowStart

  /** `extract_candidates` for any window size. A positive size gives the
      candidates of every valid window. A negative size rejects every window
      (NegativeSizeRejected). Size 0 gives empty windows, which coverage
      rejects under a positive minimum and otherwise accepts, and then the
      start date of the first one cannot be read (ZeroSizeWindow). */
  method ExtractCandidates(ds: Dataset, windowDays: int, mp: int, scoreA: Frame -> real, scoreB: Frame -> real)
    returns (r: Result<seq<Candidate>, CandidatesError>)
    requires DatasetWellFormed(ds)
    ensures windowDays > 0 ==> r == Ok(AllCandidates(ds, |ds.groups|, windowDays, mp, scoreA, scoreB))
    ensures windowDays < 0 ==> r == Ok([])
    ensures windowDays == 0 ==> r == if mp <= 0 && ds.groups != [] then Err(EmptyWindowStart) else Ok([])
  {
    if windowDays < 0 {
      r := Ok([]);
    } else if windowDays == 0 {
      if mp <= 0 && ds.groups != [] {
        r := Err(EmptyWindowStart);
      } else {
        r := Ok([]);
      }
    } else {
      var cs := ScanParticipants(ds, windowDays, mp, scoreA, scoreB);
      r := Ok(cs);
    }
  }

  /** Every window of size 0 is empty; it is accepted exactly when the
      minimum is at most 0, and then has no first row. */
  lemma ZeroSizeWindow(ds: Dataset, g: Group, i: nat, mp: int)
    requires DatasetWellFormed(ds) && g in ds.groups && i <= |g.rows|
    ensures Window(ds, g, i, 0).rows == []
    ensures Prepare(ds, g, i, 0, mp).IsValid() <==> mp <= 0
    ensures Prepare(ds, g, i, 0, mp).window.rows == []
  {
    SortedRowsFacts(ds, g);
    EmptyWindowPrepared(Window(ds, g, i, 0), mp);
  }

  /** The loops of `extract_candidates` for a positive size: the candidates
      of every valid window, participant by participant and window by window. */
  method ScanParticipants(ds: Dataset, wd: nat, mp: int, scoreA: Frame -> real, scoreB: Frame -> real)
    returns (cs: seq<Candidate>)
    requires DatasetWellFormed(ds) && wd > 0
    ensures cs == AllCandidates(ds, |ds.groups|, wd, mp, scoreA, scoreB)
  {
    cs := [];
    var n := 0;
    while n < |ds.groups|
      invariant 0 <= n <= |ds.groups|
      invariant cs == AllCandidates(ds, n, wd, mp, scoreA, scoreB)
    {
      cs := AppendParticipant(ds, n, cs, wd, mp, scoreA, scoreB);
      n := n + 1;
    }
  }

  /** One iteration of the outer loop: participant n's candidates are
      appended to those of the participants before it. */
  method AppendParticipant(ds: Dataset, n: nat, cs: seq<Candidate>, wd: nat, mp: int,
                           scoreA: Frame -> real, scoreB: Frame -> real)
    returns (next: seq<Candidate>)
    requires DatasetWellFormed(ds) && wd > 0 && n < |ds.groups|
    requires cs == AllCandidates(ds, n, wd, mp, scoreA, scoreB)
    ensures next == AllCandidates(ds, n + 1, wd, mp, scoreA, scoreB)
  {
    var found := ExtractParticipantCandidates(ds, ds.groups[n], wd, mp, scoreA, scoreB);
    next := cs + found;
  }

  /** The inner loop of `extract_candidates`: the windows of one
      participant, offset by offset. */
  method ExtractParticipantCandidates(ds: Dataset, g: Group, wd: nat, mp: int,
                                      scoreA: Frame -> real, scoreB: Frame -> real)
    returns (cs: seq<Candidate>)
    requires DatasetWellFormed(ds) && g in ds.groups && wd > 0
    ensures cs == GroupCandidates(ds, g, NumOffsets(g, wd), wd, mp, scoreA, scoreB)
  {
    var rows := SortedRows(g);
    // range(len(rows) - wd + 1) is empty when the group is shorter than wd
    var offsets := if |rows| < wd then 0 else |rows| - wd + 1;
    cs := ScanWindows(ds, g, rows, offsets, wd, mp, scoreA, scoreB);
  }

  /** The inner loop over the window offsets of one participant. */
  method ScanWindows(ds: Dataset, g: Group, rows: seq<Row>, offsets: nat, wd: nat, mp: int,
                     scoreA: Frame -> real, scoreB: Frame -> real)
    returns (cs: seq<Candidate>)
    requires DatasetWellFormed(ds) && g in ds.groups && wd > 0
    requires rows == SortedRows(g) && offsets == NumOffsets(g, wd)
    ensures cs == GroupCandidates(ds, g, offsets, wd, mp, scoreA, scoreB)
  {
    cs := [];
    var i := 0;
    while i < offsets
      invariant i <= offsets
      invariant cs == GroupCandidates(ds, g, i, wd, mp, scoreA, scoreB)
    {
      cs := AppendWindow(ds, g, rows, i, cs, wd, mp, scoreA, scoreB);
      i := i + 1;
    }
  }

  /** One iteration of the inner loop: the candidates of the window at
      offset i are appended to those of the earlier windows. */
  method AppendWindow(ds: Dataset, g: Group, rows: seq<Row>, i: nat, cs: seq<Candidate>, wd: nat, mp: int,
                      scoreA: Frame -> real, scoreB: Frame -> real)
    returns (next: seq<Candidate>)
    requires DatasetWellFormed(ds) && g in ds.groups && wd > 0 && i < NumOffsets(g, wd)
    requires rows == SortedRows(g)
    requires cs == GroupCandidates(ds, g, i, wd, mp, scoreA, scoreB)
    ensures next == GroupCandidates(ds, g, i + 1, wd, mp, scoreA, scoreB)
  {
    var found := CandidatesAt(ds, g, rows, i, wd, mp, scoreA, scoreB);
    next := cs + found;
  }

  /** The body of the inner loop: prepare the window at offset i and, if
      it is valid, score it for both personas. */
  method CandidatesAt(ds: Dataset, g: Group, rows: seq<Row>, i: nat, wd: nat, mp: int,
                      scoreA: Frame -> real, scoreB: Frame -> real)
    returns (found: seq<Candidate>)
    requires DatasetWellFormed(ds) && g in ds.groups && wd > 0 && i + wd <= |g.rows|
    requires rows == SortedRows(g)
    ensures found == WindowCandidates(ds, g, i, wd, mp, scoreA, scoreB)
  {
    SortedRowsFacts(ds, g);
    var window := Slice(Frame(ds.columns, rows), i, i + wd);
    var prepared := PrepareWindow(window, wd, mp);
    assert prepared == Prepare(ds, g, i, wd, mp);
    found := [];
    if prepared.IsValid() {
      var start := prepared.window.rows[0].date;
      found := found + [Candidate(g.pid, start, A, scoreA(prepared.window))];
      found := found + [Candidate(g.pid, start, B, scoreB(prepared.window))];
    }
  }

  // ---------------------------------------------------------------------
  // What the extraction promises

  predicate IsValidWindow(ds: Dataset, g: Group, i: nat, wd: nat, mp: int)
    requires DatasetWellFormed(ds) && g in ds.groups && i + wd <= |g.rows|
  {
    Prepare(ds, g, i, wd, mp).IsValid()
  }

  function GroupValidCount(ds: Dataset, g: Group, k: nat, wd: nat, mp: int): nat
    requires DatasetWellFormed(ds) && g in ds.groups && wd > 0 && k <= NumOffsets(g, wd)
  {
    if k == 0 then 0
    else GroupValidCount(ds, g, k - 1, wd, mp) + (if IsValidWindow(ds, g, k - 1, wd, mp) then 1 else 0)
  }

  /** The number of valid windows over the first n participants. */
  function ValidWindowCount(ds: Dataset, n: nat, wd: nat, mp: int): nat
    requires DatasetWellFormed(ds) && wd > 0 && n <= |ds.groups|
  {
    if n == 0 then 0
    else
      var g := ds.groups[n - 1];
      ValidWindowCount(ds, n - 1, wd, mp) + GroupValidCount(ds, g, NumOffsets(g, wd), wd, mp)
  }

  lemma {:induction false} GroupCandidateCount(ds: Dataset, g: Group, k: nat, wd: nat, mp: int,
                                              scoreA: Frame -> real, scoreB: Frame -> real)
    requires DatasetWellFormed(ds) && g in ds.groups && wd > 0 && k <= NumOffsets(g, wd)
    ensures |GroupCandidates(ds, g, k, wd, mp, scoreA, scoreB)| == 2 * GroupValidCount(ds, g, k, wd, mp)
  {
    if k > 0 {
      var here := WindowCandidates(ds, g, k - 1, wd, mp, scoreA, scoreB);
      assert |here| == if IsValidWindow(ds, g, k - 1, wd, mp) then 2 else 0;
      assert GroupCandidates(ds, g, k, wd, mp, scoreA, scoreB)
          == GroupCandidates(ds, g, k - 1, wd, mp, scoreA, scoreB) + here;
      GroupCandidateCount(ds, g, k - 1, wd, mp, scoreA, scoreB);
    }
  }

  /** Every valid window yields exactly two candidates and an invalid one
      none. */
  lemma {:induction false} CandidateCount(ds: Dataset, n: nat, wd: nat, mp: int,
                                         scoreA: Frame -> real, scoreB: Frame -> real)
    requires DatasetWellFormed(ds) && wd > 0 && n <= |ds.groups|
    ensures |AllCandidates(ds, n, wd, mp, scoreA, scoreB)| == 2 * ValidWindowCount(ds, n, wd, mp)
  {
    if n > 0 {
      var g := ds.groups[n - 1];
      var earlier := AllCandidates(ds, n - 1, wd, mp, scoreA, scoreB);
      var group := GroupCandidates(ds, g, NumOffsets(g, wd), wd, mp, scoreA, scoreB);
      assert AllCandidates(ds, n, wd, mp, scoreA, scoreB) == earlier + group;
      CandidateCount(ds, n - 1, wd, mp, scoreA, scoreB);
      GroupCandidateCount(ds, g, NumOffsets(g, wd), wd, mp, scoreA, scoreB);
    }
  }

  /** A participant with fewer rows than the window contributes nothing. */
  lemma ShortParticipantNoCandidates(ds: Dataset, g: Group, wd: nat, mp: int,
                                     scoreA: Frame -> real, scoreB: Frame -> real)
    requires DatasetWellFormed(ds) && g in ds.groups && wd > 0 && |g.rows| < wd
    ensures NumOffsets(g, wd) == 0
    ensures GroupCandidates(ds, g, NumOffsets(g, wd), wd, mp, scoreA, scoreB) == []
  {
  }

  /** Every window the extractor looks at is window_days consecutive rows of
      the participant's rows in date order. */
  lemma WindowsAreSortedRuns(ds: Dataset, g: Group, i: nat, wd: nat)
    requires DatasetWellFormed(ds) && g in ds.groups && wd > 0 && i < NumOffsets(g, wd)
    ensures i + wd <= |g.rows|
    ensures Window(ds, g, i, wd).rows == SortedRows(g)[i..i + wd]
    ensures forall j, k :: 0 <= j < k < wd ==>
      Window(ds, g, i, wd).rows[j].date <= Window(ds, g, i, wd).rows[k].date
    ensures multiset(SortedRows(g)) == multiset(g.rows)
  {
    SortedRowsFacts(ds, g);
  }

  /** The list splits into consecutive pairs: an A candidate followed by a B
      candidate for the same participant and start date. */
  ghost predicate PairedAB(cs: seq<Candidate>)
    decreases |cs|
  {
    || cs == []
    || (&& |cs| >= 2
        && cs[0].persona == A && cs[1].persona == B
        && cs[0].participantId == cs[1].participantId && cs[0].startDate == cs[1].startDate
        && PairedAB(cs[2..]))
  }

  lemma {:induction false} PairedAppend(xs: seq<Candidate>, ys: seq<Candidate>)
    requires PairedAB(xs) && PairedAB(ys)
    ensures PairedAB(xs + ys)
    decreases |xs|
  {
    if xs == [] {
      assert xs + ys == ys;
    } else {
      PairedAppend(xs[2..], ys);
      assert (xs + ys)[2..] == xs[2..] + ys;
    }
  }

  lemma {:induction false} GroupCandidatesPaired(ds: Dataset, g: Group, k: nat, wd: nat, mp: int,
                                                scoreA: Frame -> real, scoreB: Frame -> real)
    requires DatasetWellFormed(ds) && g in ds.groups && wd > 0 && k <= NumOffsets(g, wd)
    ensures PairedAB(GroupCandidates(ds, g, k, wd, mp, scoreA, scoreB))
  {
    if k > 0 {
      GroupCandidatesPaired(ds, g, k - 1, wd, mp, scoreA, scoreB);
      var w := WindowCandidates(ds, g, k - 1, wd, mp, scoreA, scoreB);
      if w != [] {
        assert w[2..] == [];
      }
      PairedAppend(GroupCandidates(ds, g, k - 1, wd, mp, scoreA, scoreB), w);
    }
  }

  /** Candidates come as "A" then "B" for the same window. */
  lemma {:induction false} CandidatesPaired(ds: Dataset, n: nat, wd: nat, mp: int,
                                           scoreA: Frame -> real, scoreB: Frame -> real)
    requires DatasetWellFormed(ds) && wd > 0 && n <= |ds.groups|
    ensures PairedAB(AllCandidates(ds, n, wd, mp, scoreA, scoreB))
  {
    if n > 0 {
      CandidatesPaired(ds, n - 1, wd, mp, scoreA, scoreB);
      var g := ds.groups[n - 1];
      GroupCandidatesPaired(ds, g, NumOffsets(g, wd), wd, mp, scoreA, scoreB);
      PairedAppend(AllCandidates(ds, n - 1, wd, mp, scoreA, scoreB),
                   GroupCandidates(ds, g, NumOffsets(g, wd), wd, mp, scoreA, scoreB));
    }
  }

  /** Candidate c comes from the valid window at offset i of participant
      number gi: it carries that participant's id, the window's first date
      and the score of the prepared window for its persona. */
  ghost predicate Origin(ds: Dataset, gi: nat, i: nat, wd: nat, mp: int,
                         scoreA: Frame -> real, scoreB: Frame -> real, c: Candidate)
    requires DatasetWellFormed(ds)
  {
    && gi < |ds.groups| && 0 < wd && i + wd <= |ds.groups[gi].rows|
    && var g := ds.groups[gi];
       var p := Prepare(ds, g, i, wd, mp);
       && p.IsValid()
       && c.participantId == g.pid
       && c.startDate == SortedRows(g)[i].date
       && c.fitScore == (if c.persona == A then scoreA(p.window) else scoreB(p.window))
  }

  /** Candidate c comes from some valid window of participant number gi. */
  ghost predicate FromParticipant(ds: Dataset, gi: nat, wd: nat, mp: int,
                                  scoreA: Frame -> real, scoreB: Frame -> real, c: Candidate)
    requires DatasetWellFormed(ds)
  {
    exists i: nat :: Origin(ds, gi, i, wd, mp, scoreA, scoreB, c)
  }

  lemma {:induction false} GroupCandidateOrigin(ds: Dataset, gi: nat, k: nat, wd: nat, mp: int,
                                               scoreA: Frame -> real, scoreB: Frame -> real, c: Candidate)
    requires DatasetWellFormed(ds) && wd > 0 && gi < |ds.groups| && k <= NumOffsets(ds.groups[gi], wd)
    ensures c in GroupCandidates(ds, ds.groups[gi], k, wd, mp, scoreA, scoreB) ==>
      FromParticipant(ds, gi, wd, mp, scoreA, scoreB, c)
    decreases k
  {
    if k > 0 {
      GroupCandidateOrigin(ds, gi, k - 1, wd, mp, scoreA, scoreB, c);
      if c in WindowCandidates(ds, ds.groups[gi], k - 1, wd, mp, scoreA, scoreB) {
        WindowCandidateFrom(ds, gi, k - 1, wd, mp, scoreA, scoreB, c);
      }
    }
  }

  lemma WindowCandidateFrom(ds: Dataset, gi: nat, i: nat, wd: nat, mp: int,
                            scoreA: Frame -> real, scoreB: Frame -> real, c: Candidate)
    requires DatasetWellFormed(ds) && wd > 0 && gi < |ds.groups| && i + wd <= |ds.groups[gi].rows|
    requires c in WindowCandidates(ds, ds.groups[gi], i, wd, mp, scoreA, scoreB)
    ensures FromParticipant(ds, gi, wd, mp, scoreA, scoreB, c)
  {
    WindowCandidateOrigin(ds, gi, i, wd, mp, scoreA, scoreB, c);
  }

  /** A candidate of the window at offset i comes from that window. */
  lemma WindowCandidateOrigin(ds: Dataset, gi: nat, i: nat, wd: nat, mp: int,
                              scoreA: Frame -> real, scoreB: Frame -> real, c: Candidate)
    requires DatasetWellFormed(ds) && wd > 0 && gi < |ds.groups| && i + wd <= |ds.groups[gi].rows|
    requires c in WindowCandidates(ds, ds.groups[gi], i, wd, mp, scoreA, scoreB)
    ensures Origin(ds, gi, i, wd, mp, scoreA, scoreB, c)
  {
    var g := ds.groups[gi];
    var p := Prepare(ds, g, i, wd, mp);
    assert p.IsValid();
    assert Dates(p.window)[0] == Dates(Window(ds, g, i, wd))[0];
    assert Window(ds, g, i, wd).rows[0] == SortedRows(g)[i];
  }

  /** Every candidate comes from a valid window of one of the participants. */
  lemma {:induction false} CandidateOrigin(ds: Dataset, n: nat, wd: nat, mp: int,
                                          scoreA: Frame -> real, scoreB: Frame -> real, c: Candidate)
    requires DatasetWellFormed(ds) && wd > 0 && n <= |ds.groups|
    requires c in AllCandidates(ds, n, wd, mp, scoreA, scoreB)
    ensures exists gi: nat :: gi < n && FromParticipant(ds, gi, wd, mp, scoreA, scoreB, c)
  {
    if n > 0 {
      var g := ds.groups[n - 1];
      if c in AllCandidates(ds, n - 1, wd, mp, scoreA, scoreB) {
        CandidateOrigin(ds, n - 1, wd, mp, scoreA, scoreB, c);
      } else {
        GroupCandidateOrigin(ds, n - 1, NumOffsets(g, wd), wd, mp, scoreA, scoreB, c);
      }
    }
  }

  // ---------------------------------------------------------------------
  // Ranking and selection

  /** `[c for c in candidates if c.persona == p]`. */
  function OfPersona(cs: seq<Candidate>, p: Persona): (r: seq<Candidate>)
    ensures |r| <= |cs|
    ensures forall c :: c in r <==> c in cs && c.persona == p
  {
    if cs == [] then []
    else (if cs[0].persona == p then [cs[0]] else []) + OfPersona(cs[1..], p)
  }

  /** Sorting ascending by the negated score is sorting by score with
      `reverse=True`, which Python keeps stable. */
  function NegScore(c: Candidate): real { -c.fitScore }

  /** One persona's candidates, best first. */
  function Ranked(cs: seq<Candidate>, p: Persona): seq<Candidate> {
    StableSort(OfPersona(cs, p), NegScore)
  }

  /** Python's `xs[:k]`, where a negative k drops |k| elements from the end. */
  function Take(xs: seq<Candidate>, k: int): (r: seq<Candidate>)
    ensures k >= 0 ==> |r| == if k <= |xs| then k else |xs|
    ensures k < 0 ==> |r| == if -k <= |xs| then |xs| + k else 0
    ensures r == xs[..|r|]
  {
    if k >= 0 then (if k <= |xs| then xs[..k] else xs)
    else (if -k <= |xs| then xs[..|xs| + k] else [])
  }

  /** t is a top list of persona p among cs: p's candidates of cs, each
      taken no more often than cs holds it, best first, min(top_k, count) of
      them for a non-negative top_k, and no candidate of p left out scores
      above one kept. */
  ghost predicate IsTopList(t: seq<Candidate>, cs: seq<Candidate>, topK: int, p: Persona) {
    && (forall c :: c in t ==> c in cs && c.persona == p)
    && multiset(t) <= multiset(OfPersona(cs, p))
    && (forall i, j :: 0 <= i < j < |t| ==> t[i].fitScore >= t[j].fitScore)
    && (topK >= 0 ==> |t| == (if topK <= |OfPersona(cs, p)| then topK else |OfPersona(cs, p)|))
    && (t != [] ==> forall c :: c in cs && c.persona == p ==> t[0].fitScore >= c.fitScore)
    && (forall c, x :: c in multiset(OfPersona(cs, p)) - multiset(t) && x in t ==> x.fitScore >= c.fitScore)
  }

  /** `select_top_candidates`: the first top_k of each persona's ranking. */
  function SelectTopCandidates(cs: seq<Candidate>, topK: int): (r: (seq<Candidate>, seq<Candidate>))
    ensures IsTopList(r.0, cs, topK, A) && IsTopList(r.1, cs, topK, B)
  {
    TopOfPersona(cs, topK, A);
    TopOfPersona(cs, topK, B);
    (Take(Ranked(cs, A), topK), Take(Ranked(cs, B), topK))
  }

  /** The ranking of a persona holds exactly its candidates, with the same
      multiplicities, in non-increasing score order; candidates with equal
      scores stay in the order the extractor found them. */
  lemma RankedCorrect(cs: seq<Candidate>, p: Persona)
    ensures multiset(Ranked(cs, p)) == multiset(OfPersona(cs, p))
    ensures forall c :: c in Ranked(cs, p) <==> c in cs && c.persona == p
    ensures forall i, j :: 0 <= i < j < |Ranked(cs, p)| ==> Ranked(cs, p)[i].fitScore >= Ranked(cs, p)[j].fitScore
    ensures forall v :: WithKey(Ranked(cs, p), NegScore, v) == WithKey(OfPersona(cs, p), NegScore, v)
  {
    StableSortCorrect(OfPersona(cs, p), NegScore);
    forall c ensures c in Ranked(cs, p) <==> c in OfPersona(cs, p) {
      assert c in Ranked(cs, p) <==> c in multiset(Ranked(cs, p));
    }
    forall i, j | 0 <= i < j < |Ranked(cs, p)| ensures Ranked(cs, p)[i].fitScore >= Ranked(cs, p)[j].fitScore {
      assert NegScore(Ranked(cs, p)[i]) <= NegScore(Ranked(cs, p)[j]);
    }
  }

  /** The first top_k of a persona's ranking form a top list of it. */
  lemma TopOfPersona(cs: seq<Candidate>, topK: int, p: Persona)
    ensures IsTopList(Take(Ranked(cs, p), topK), cs, topK, p)
  {
    RankedCorrect(cs, p);
    var r := Ranked(cs, p);
    var t := Take(r, topK);
    assert t == r[..|t|];
    PrefixOfRanking(r, |t|);
  }

  /** A prefix of a ranking is part of it, best first, led by the best
      candidate, and no candidate after the prefix scores above one inside
      it. */
  lemma PrefixOfRanking(r: seq<Candidate>, n: nat)
    requires n <= |r|
    requires forall i, j :: 0 <= i < j < |r| ==> r[i].fitScore >= r[j].fitScore
    ensures forall c :: c in r[..n] ==> c in r
    ensures multiset(r[..n]) <= multiset(r)
    ensures forall i, j :: 0 <= i < j < n ==> r[..n][i].fitScore >= r[..n][j].fitScore
    ensures n > 0 ==> forall c :: c in r ==> r[..n][0].fitScore >= c.fitScore
    ensures forall c, x :: c in multiset(r) - multiset(r[..n]) && x in r[..n] ==> x.fitScore >= c.fitScore
  {
    LeftOutFollowPrefix(r, n);
    forall c, x | c in r[n..] && x in r[..n] ensures x.fitScore >= c.fitScore {
      var j :| 0 <= j < |r[n..]| && r[n..][j] == c;
      var i :| 0 <= i < n && r[..n][i] == x;
      assert r[i] == x && r[n + j] == c;
    }
  }

  /** What a prefix leaves out of a sequence lies after the prefix. */
  lemma LeftOutFollowPrefix(r: seq<Candidate>, n: nat)
    requires n <= |r|
    ensures multiset(r[..n]) <= multiset(r)
    ensures forall c :: c in multiset(r) - multiset(r[..n]) ==> c in r[n..]
  {
    assert r == r[..n] + r[n..];
    assert multiset(r) == multiset(r[..n]) + multiset(r[n..]);
  }

  datatype SelectionError = NoViable(threshold: real)

  /** `[c for c in candidates if c.fit_score >= threshold]`. */
  function Viable(cs: seq<Candidate>, threshold: real): (r: seq<Candidate>)
    ensures |r| <= |cs|
    ensures forall c :: c in r <==> c in cs && c.fitScore >= threshold
  {
    if cs == [] then []
    else (if cs[0].fitScore >= threshold then [cs[0]] else []) + Viable(cs[1..], threshold)
  }

  /** `select_random_from_viable`; the random draw is `choose`, which maps a
      count n > 0 to a position below n. No viable candidate is an error;
      otherwise the result is a viable candidate, and the only one when only
      one survives the threshold. */
  function SelectRandomFromViable(cs: seq<Candidate>, threshold: real, choose: nat -> nat): (r: Result<Candidate, SelectionError>)
    requires forall n: nat :: n > 0 ==> choose(n) < n
    ensures r.Err? <==> forall c :: c in cs ==> c.fitScore < threshold
    ensures r.Err? ==> r.error == NoViable(threshold)
    ensures r.Ok? ==> r.value in cs && r.value.fitScore >= threshold
    ensures |Viable(cs, threshold)| == 1 ==> r == Ok(Viable(cs, threshold)[0])
  {
    var viable := Viable(cs, threshold);
    if viable == [] then
      assert forall c :: c in cs ==> c.fitScore < threshold;
      Err(NoViable(threshold))
    else
      assert viable[0] in viable;
      Ok(viable[choose(|viable|)])
  }

  // ---------------------------------------------------------------------
  // `WindowCandidate.to_dict`

  /** Python's `round(y)`: the nearest integer, ties to the even one. */
  function RoundHalfEven(y: real): (n: int)
    ensures -0.5 <= y - n as real <= 0.5
    ensures y - y.Floor as real == 0.5 ==> n % 2 == 0
    ensures y - y.Floor as real != 0.5 ==> (y - n as real < 0.5 && n as real - y < 0.5)
  {
    var f := y.Floor;
    var frac := y - f as real;
    if frac < 0.5 then f
    else if frac > 0.5 then f + 1
    else if f % 2 == 0 then f
    else f + 1
  }

  /** `round(x, 4)`. */
  function Round4(x: real): (r: real)
    ensures -0.00005 <= r - x <= 0.00005
  {
    RoundHalfEven(x * 10000.0) as real / 10000.0
  }

  /** Rounding an already rounded score changes nothing. */
  lemma Round4Idempotent(x: real)
    ensures Round4(Round4(x)) == Round4(x)
  {
    var n := RoundHalfEven(x * 10000.0);
    assert Round4(x) * 10000.0 == n as real;
    assert (n as real).Floor == n;
  }

  function PersonaName(p: Persona): (name: string)
    ensures name == "A" || name == "B"
  {
    match p
    case A => "A"
    case B => "B"
  }

  /** The dictionary `to_dict` returns; the start date stays a day ordinal. */
  datatype CandidateRecord = CandidateRecord(id: string, startDate: int, persona: string, fitScore: real)

  function ToDict(c: Candidate): (d: CandidateRecord)
    ensures d.fitScore == Round4(c.fitScore)
  {
    CandidateRecord(c.participantId, c.startDate, PersonaName(c.persona), Round4(c.fitScore))
  }

  /** The record identifies its candidate: id, start date and persona come
      back unchanged, and the score within half a unit of the fourth
      decimal. */
  lemma ToDictFaithful(c: Candidate, e: Candidate)
    ensures ToDict(c).id == c.participantId && ToDict(c).startDate == c.startDate
    ensures -0.00005 <= ToDict(c).fitScore - c.fitScore <= 0.00005
    ensures ToDict(c).persona == ToDict(e).persona <==> c.persona == e.persona
  {
  }

  // ---------------------------------------------------------------------
  // `extract_window_data`

  datatype ExtractError = InvalidWindow(participantId: string, startDate: int, reason: ValidationError)

  /** The rows of every group of participant pid, in group order. */
  function ParticipantRows(ds: Dataset, n: nat, pid: string): (rows: seq<Row>)
    requires n <= |ds.groups|
    ensures forall r :: r in rows ==> exists g :: g in ds.groups && r in g.rows
  {
    if n == 0 then []
    else
      var g := ds.groups[n - 1];
      var rest := ParticipantRows(ds, n - 1, pid);
      if g.pid == pid then rest + g.rows else rest
  }

  /** The rows dated start <= date < start + window_days, in order. */
  function InRange(rows: seq<Row>, start: int, wd: int): (r: seq<Row>)
    ensures |r| <= |rows|
  {
    if rows == [] then []
    else (if start <= rows[0].date < start + wd then [rows[0]] else []) + InRange(rows[1..], start, wd)
  }

  /** The filter keeps exactly the rows within the dates. */
  lemma {:induction false} InRangeMembers(rows: seq<Row>, start: int, wd: int)
    ensures forall x :: x in InRange(rows, start, wd) <==> x in rows && start <= x.date < start + wd
  {
    if rows != [] {
      InRangeMembers(rows[1..], start, wd);
      assert rows == [rows[0]] + rows[1..];
    }
  }

  /** The participant's date-sorted rows within the requested dates. */
  function RequestedWindow(ds: Dataset, pid: string, start: int, wd: int): (w: Frame)
    requires DatasetWellFormed(ds)
    ensures WellFormed(w)
    ensures forall i :: 0 <= i < |w.rows| ==> start <= w.rows[i].date < start + wd
    ensures forall i :: 0 <= i < |w.rows| ==> w.rows[i] in ParticipantRows(ds, |ds.groups|, pid)
  {
    var prows := ParticipantRows(ds, |ds.groups|, pid);
    var rows := StableSort(prows, DateKey);
    StableSortCorrect(prows, DateKey);
    var w := Frame(ds.columns, InRange(rows, start, wd));
    InRangeMembers(rows, start, wd);
    forall i | 0 <= i < |w.rows|
      ensures w.rows[i] in prows && w.rows[i].cells.Keys == ds.columns && start <= w.rows[i].date < start + wd
    {
      assert w.rows[i] in rows;
      assert w.rows[i] in multiset(prows);
      assert w.rows[i] in prows;
      var g :| g in ds.groups && w.rows[i] in g.rows;
    }
    w
  }

  /** Row k of w holds, for each k < wd, the cleaned cells of one of the
      rows dated start + k. */
  ghost predicate CleanedDaysOf(w: Frame, rows: seq<Row>, start: int, wd: int)
    requires |w.rows| == wd
  {
    forall k :: 0 <= k < wd ==>
      exists row :: row in rows && row.date == start + k && w.rows[k].cells == CleanRow(row).cells
  }

  /** `extract_window_data` with the minimum number of present days passed
      on: an accepted window is exactly the days start, start + 1, ...,
      start + window_days - 1 of the participant's rows, cleaned, with
      enough present step and sleep days and the calendar columns. */
  function ExtractWindowDataWith(ds: Dataset, pid: string, start: int, wd: int, mp: int): (r: Result<Frame, ExtractError>)
    requires DatasetWellFormed(ds)
    ensures r.Ok? ==>
      && |r.value.rows| == wd
      && (forall k :: 0 <= k < wd ==> r.value.rows[k].date == start + k)
      && CleanedDaysOf(r.value, ParticipantRows(ds, |ds.groups|, pid), start, wd)
      && WellFormed(r.value) && HasCalendar(r.value)
      && CountPositive(Column(r.value, Steps)) >= mp
      && CountPresent(Column(r.value, Sleep)) >= mp
    ensures r.Err? ==> r.error.participantId == pid && r.error.startDate == start
  {
    var w := RequestedWindow(ds, pid, start, wd);
    var p := PrepareWindow(w, wd, mp);
    if p.IsValid() then
      PreparedWindowValid(w, wd, mp);
      PreparedFromRows(w, ParticipantRows(ds, |ds.groups|, pid), start, wd, mp);
      Ok(p.window)
    else Err(InvalidWindow(pid, start, p.error.value))
  }

  /** An accepted window whose rows all come from rows and lie in
      [start, start + wd) holds the days start, ..., start + wd - 1 in order,
      each the cleaned copy of one of those rows. */
  lemma PreparedFromRows(w: Frame, rows: seq<Row>, start: int, wd: int, mp: int)
    requires WellFormed(w) && PrepareWindow(w, wd, mp).IsValid()
    requires forall i :: 0 <= i < |w.rows| ==> w.rows[i] in rows
    requires forall i :: 0 <= i < |w.rows| ==> start <= w.rows[i].date < start + wd
    ensures var v := PrepareWindow(w, wd, mp).window;
      && |v.rows| == wd
      && (forall k :: 0 <= k < wd ==> v.rows[k].date == start + k)
      && CleanedDaysOf(v, rows, start, wd)
  {
    var v := PrepareWindow(w, wd, mp).window;
    PreparedWindowValid(w, wd, mp);
    WindowOfDates(v, start, wd);
    forall k | 0 <= k < wd
      ensures exists row :: row in rows && row.date == start + k && v.rows[k].cells == CleanRow(row).cells
    {
      PreparedRow(w, wd, mp, k);
      assert w.rows[k] in rows;
    }
  }

  /** Row k of an accepted window is row k of the input, cleaned. */
  lemma PreparedRow(w: Frame, wd: int, mp: int, k: int)
    requires WellFormed(w) && PrepareWindow(w, wd, mp).IsValid() && 0 <= k < |w.rows|
    ensures |PrepareWindow(w, wd, mp).window.rows| == |w.rows|
    ensures PrepareWindow(w, wd, mp).window.rows[k].date == w.rows[k].date
    ensures PrepareWindow(w, wd, mp).window.rows[k].cells == CleanRow(w.rows[k]).cells
  {
    var v := PrepareWindow(w, wd, mp).window;
    assert v == AddDerivedFeatures(Cleaned(w));
    assert Cleaned(w).rows[k] == CleanRow(w.rows[k]);
  }

  /** A contiguous run of wd dates, all in [start, start + wd), is the run
      start, start + 1, ... */
  lemma WindowOfDates(w: Frame, start: int, wd: int)
    requires |w.rows| == wd && Contiguous(Dates(w))
    requires forall i :: 0 <= i < |w.rows| ==> start <= w.rows[i].date < start + wd
    ensures forall k :: 0 <= k < wd ==> w.rows[k].date == start + k
  {
    if wd > 0 {
      ContiguousDates(Dates(w), wd - 1);
      forall k | 0 <= k < wd ensures w.rows[k].date == start + k {
        ContiguousDates(Dates(w), k);
      }
    }
  }

  /** `extract_window_data` as written: `prepare_window` is called without
      `min_present_days`, so the window is held to the default of 12 present
      days whatever minimum the candidates were extracted with. */
  function ExtractWindowData(ds: Dataset, pid: string, start: int, wd: int): (r: Result<Frame, ExtractError>)
    requires DatasetWellFormed(ds)
    ensures r.Ok? ==> WellFormed(r.value) && |r.value.rows| == wd
    ensures r.Ok? ==> forall k :: 0 <= k < wd ==> r.value.rows[k].date == start + k
    ensures r.Ok? ==> CleanedDaysOf(r.value, ParticipantRows(ds, |ds.groups|, pid), start, wd)
    ensures r.Err? ==> r.error.participantId == pid && r.error.startDate == start
    ensures r.Ok? ==> CountPositive(Column(r.value, Steps)) >= DefaultMinPresentDays
    ensures r.Ok? ==> CountPresent(Column(r.value, Sleep)) >= DefaultMinPresentDays
  {
    ExtractWindowDataWith(ds, pid, start, wd, DefaultMinPresentDays)
  }

  // ---------------------------------------------------------------------
  // Re-extracting a candidate's window

  /** No participant id names two groups. */
  ghost predicate DistinctPids(ds: Dataset) {
    forall i, j :: 0 <= i < j < |ds.groups| ==> ds.groups[i].pid != ds.groups[j].pid
  }

  /** No two rows share a date. */
  ghost predicate OneRowPerDate(rows: seq<Row>) {
    forall v :: |WithKey(rows, DateKey, v)| <= 1
  }

  lemma StrictlyIncreasing(rows: seq<Row>)
    requires SortedBy(rows, DateKey) && OneRowPerDate(rows)
    ensures forall j, k :: 0 <= j < k < |rows| ==> rows[j].date < rows[k].date
  {
    forall j, k | 0 <= j < k < |rows| ensures rows[j].date < rows[k].date {
      if rows[j].date == rows[k].date {
        WithKeyHasBoth(rows, DateKey, j, k);
      }
    }
  }

  lemma {:induction false} ParticipantRowsOfGroup(ds: Dataset, n: nat, gi: nat)
    requires DistinctPids(ds) && n <= |ds.groups| && gi < |ds.groups|
    ensures ParticipantRows(ds, n, ds.groups[gi].pid) == if gi < n then ds.groups[gi].rows else []
  {
    if n > 0 {
      ParticipantRowsOfGroup(ds, n - 1, gi);
      if gi == n - 1 {
        assert [] + ds.groups[gi].rows == ds.groups[gi].rows;
      }
    }
  }

  lemma {:induction false} InRangeAppend(xs: seq<Row>, ys: seq<Row>, start: int, wd: int)
    ensures InRange(xs + ys, start, wd) == InRange(xs, start, wd) + InRange(ys, start, wd)
  {
    if xs == [] {
      assert xs + ys == ys;
    } else {
      var zs := xs + ys;
      assert zs[0] == xs[0] && zs[1..] == xs[1..] + ys;
      var head := if start <= xs[0].date < start + wd then [xs[0]] else [];
      assert InRange(zs, start, wd) == head + InRange(xs[1..] + ys, start, wd);
      InRangeAppend(xs[1..], ys, start, wd);
      assert InRange(xs, start, wd) == head + InRange(xs[1..], start, wd);
    }
  }

  lemma {:induction false} InRangeNone(xs: seq<Row>, start: int, wd: int)
    requires forall k :: 0 <= k < |xs| ==> !(start <= xs[k].date < start + wd)
    ensures InRange(xs, start, wd) == []
  {
    if xs != [] {
      InRangeNone(xs[1..], start, wd);
    }
  }

  lemma {:induction false} InRangeAll(xs: seq<Row>, start: int, wd: int)
    requires forall k :: 0 <= k < |xs| ==> start <= xs[k].date < start + wd
    ensures InRange(xs, start, wd) == xs
  {
    if xs != [] {
      InRangeAll(xs[1..], start, wd);
    }
  }

  /** In rows with strictly increasing dates, the dates start .. start + wd - 1
      at positions i .. i + wd - 1 are exactly what the date filter keeps. */
  lemma InRangeOfRun(rows: seq<Row>, i: nat, wd: nat, start: int)
    requires forall j, k :: 0 <= j < k < |rows| ==> rows[j].date < rows[k].date
    requires 0 < wd && i + wd <= |rows|
    requires forall j :: i <= j < i + wd ==> rows[j].date == start + (j - i)
    ensures InRange(rows, start, wd) == rows[i..i + wd]
  {
    var head, run, tail := rows[..i], rows[i..i + wd], rows[i + wd..];
    assert rows == head + run + tail;
    InRangeAppend(head + run, tail, start, wd);
    InRangeAppend(head, run, start, wd);
    RunHeadOut(rows, i, wd, start);
    RunIn(rows, i, wd, start);
    RunTailOut(rows, i, wd, start);
  }

  lemma RunHeadOut(rows: seq<Row>, i: nat, wd: nat, start: int)
    requires forall j, k :: 0 <= j < k < |rows| ==> rows[j].date < rows[k].date
    requires i < |rows| && rows[i].date == start
    ensures InRange(rows[..i], start, wd) == []
  {
    var head := rows[..i];
    forall k | 0 <= k < |head| ensures !(start <= head[k].date < start + wd) {
      assert rows[k].date < rows[i].date;
    }
    InRangeNone(head, start, wd);
  }

  lemma RunIn(rows: seq<Row>, i: nat, wd: nat, start: int)
    requires i + wd <= |rows|
    requires forall j :: i <= j < i + wd ==> rows[j].date == start + (j - i)
    ensures InRange(rows[i..i + wd], start, wd) == rows[i..i + wd]
  {
    var run := rows[i..i + wd];
    forall k | 0 <= k < |run| ensures start <= run[k].date < start + wd {
      assert run[k] == rows[i + k];
    }
    InRangeAll(run, start, wd);
  }

  lemma RunTailOut(rows: seq<Row>, i: nat, wd: nat, start: int)
    requires forall j, k :: 0 <= j < k < |rows| ==> rows[j].date < rows[k].date
    requires 0 < wd && i + wd <= |rows| && rows[i + wd - 1].date == start + (wd - 1)
    ensures InRange(rows[i + wd..], start, wd) == []
  {
    var tail := rows[i + wd..];
    forall k | 0 <= k < |tail| ensures !(start <= tail[k].date < start + wd) {
      assert tail[k] == rows[i + wd + k];
      assert rows[i + wd - 1].date < rows[i + wd + k].date;
    }
    InRangeNone(tail, start, wd);
  }

  /** With one row per date, the participant's sorted rows have strictly
      increasing dates. */
  lemma SortedRowsStrict(ds: Dataset, g: Group)
    requires DatasetWellFormed(ds) && g in ds.groups && OneRowPerDate(g.rows)
    ensures forall j, k :: 0 <= j < k < |SortedRows(g)| ==> SortedRows(g)[j].date < SortedRows(g)[k].date
  {
    var rows := SortedRows(g);
    SortedRowsFacts(ds, g);
    StableSortCorrect(g.rows, DateKey);
    assert OneRowPerDate(rows) by {
      forall v ensures |WithKey(rows, DateKey, v)| <= 1 {
        assert WithKey(rows, DateKey, v) == WithKey(g.rows, DateKey, v);
      }
    }
    StrictlyIncreasing(rows);
  }

  /** Rows whose dates at positions i .. i + wd - 1 form a contiguous run
      advance by one day per position. */
  lemma ContiguousRun(rows: seq<Row>, i: nat, wd: nat, dates: seq<int>)
    requires i + wd <= |rows| && |dates| == wd && Contiguous(dates)
    requires forall k :: 0 <= k < wd ==> dates[k] == rows[i + k].date
    ensures forall j :: i <= j < i + wd ==> rows[j].date == rows[i].date + (j - i)
  {
    forall j | i <= j < i + wd ensures rows[j].date == rows[i].date + (j - i) {
      ContiguousDates(dates, j - i);
      assert dates[j - i] == rows[i + (j - i)].date;
    }
  }

  /** A valid window covers consecutive days from its first date on. */
  lemma ValidWindowDates(ds: Dataset, g: Group, i: nat, wd: nat, mp: int)
    requires DatasetWellFormed(ds) && g in ds.groups && wd > 0 && i + wd <= |g.rows|
    requires Prepare(ds, g, i, wd, mp).IsValid()
    ensures forall j :: i <= j < i + wd ==> SortedRows(g)[j].date == SortedRows(g)[i].date + (j - i)
  {
    var w := Window(ds, g, i, wd);
    var dates := Dates(w);
    assert Contiguous(dates);
    assert w.rows == SortedRows(g)[i..i + wd];
    ContiguousRun(SortedRows(g), i, wd, dates);
  }

  /** The dates of a valid window of participant gi select exactly that
      window from the participant's rows. */
  lemma ValidWindowFoundByDates(ds: Dataset, gi: nat, i: nat, wd: nat, mp: int)
    requires DatasetWellFormed(ds) && wd > 0 && DistinctPids(ds)
    requires gi < |ds.groups| && OneRowPerDate(ds.groups[gi].rows)
    requires i + wd <= |ds.groups[gi].rows| && Prepare(ds, ds.groups[gi], i, wd, mp).IsValid()
    ensures var g := ds.groups[gi];
      RequestedWindow(ds, g.pid, SortedRows(g)[i].date, wd) == Window(ds, g, i, wd)
  {
    var g := ds.groups[gi];
    ParticipantRowsOfGroup(ds, |ds.groups|, gi);
    SortedRowsStrict(ds, g);
    ValidWindowDates(ds, g, i, wd, mp);
    InRangeOfRun(SortedRows(g), i, wd, SortedRows(g)[i].date);
  }

  /** Re-extracting any candidate with the minimum it was extracted with
      returns the very window it was scored on, provided participant ids are
      distinct and no participant has two rows for one date. */
  lemma CandidatesReExtract(ds: Dataset, wd: nat, mp: int,
                            scoreA: Frame -> real, scoreB: Frame -> real, c: Candidate)
    requires DatasetWellFormed(ds) && wd > 0 && DistinctPids(ds)
    requires forall g :: g in ds.groups ==> OneRowPerDate(g.rows)
    requires c in AllCandidates(ds, |ds.groups|, wd, mp, scoreA, scoreB)
    ensures ExtractWindowDataWith(ds, c.participantId, c.startDate, wd, mp).Ok?
    ensures var w := ExtractWindowDataWith(ds, c.participantId, c.startDate, wd, mp).value;
      c.fitScore == if c.persona == A then scoreA(w) else scoreB(w)
  {
    CandidateOrigin(ds, |ds.groups|, wd, mp, scoreA, scoreB, c);
    var gi: nat :| gi < |ds.groups| && FromParticipant(ds, gi, wd, mp, scoreA, scoreB, c);
    var i: nat :| Origin(ds, gi, i, wd, mp, scoreA, scoreB, c);
    var g := ds.groups[gi];
    ValidWindowFoundByDates(ds, gi, i, wd, mp);
    assert ExtractWindowDataWith(ds, c.participantId, c.startDate, wd, mp)
        == Ok(Prepare(ds, g, i, wd, mp).window);
  }

  /** One participant, one day (ordinal 1, 1 January of year 1) with 100
      steps and 400 minutes of sleep. */
  function OneDayRow(): Row {
    Row(1, map[Steps := Some(100.0), Sleep := Some(400.0)], None)
  }

  function OneDayDataset(): Dataset {
    Dataset({Steps, Sleep}, [Group("p", [OneDayRow()])])
  }

  /** The only window of the day above, before and after cleaning: one
      positive step count and one present sleep value. */
  lemma OneDayWindow()
    ensures DatasetWellFormed(OneDayDataset())
    ensures Window(OneDayDataset(), OneDayDataset().groups[0], 0, 1) == Frame({Steps, Sleep}, [OneDayRow()])
    ensures CountPositive(Column(Cleaned(Frame({Steps, Sleep}, [OneDayRow()])), Steps)) == 1
    ensures CountPresent(Column(Cleaned(Frame({Steps, Sleep}, [OneDayRow()])), Sleep)) == 1
  {
    var ds := OneDayDataset();
    assert SortedRows(ds.groups[0]) == [OneDayRow()];
    var cleaned := Cleaned(Frame({Steps, Sleep}, [OneDayRow()]));
    assert Column(cleaned, Steps) == [Some(100.0)];
    assert Column(cleaned, Sleep) == [Some(400.0)];
  }

  /** The date filter finds the day for participant "p" from day 1. */
  lemma OneDayRequested()
    ensures DatasetWellFormed(OneDayDataset())
    ensures RequestedWindow(OneDayDataset(), "p", 1, 1) == Frame({Steps, Sleep}, [OneDayRow()])
  {
    OneDayWindow();
    var ds := OneDayDataset();
    assert ParticipantRows(ds, 1, "p") == [OneDayRow()];
  }

  /** Extracted with one-day windows and a minimum of one present day, the
      day above yields candidates, yet `extract_window_data` as written
      rejects the window they came from; passing the minimum on accepts it. */
  lemma DefaultMinimumRejectsCandidate(scoreA: Frame -> real, scoreB: Frame -> real)
    ensures DatasetWellFormed(OneDayDataset())
    ensures |AllCandidates(OneDayDataset(), 1, 1, 1, scoreA, scoreB)| == 2
    ensures AllCandidates(OneDayDataset(), 1, 1, 1, scoreA, scoreB)[0].startDate == 1
    ensures ExtractWindowData(OneDayDataset(), "p", 1, 1).Err?
    ensures ExtractWindowDataWith(OneDayDataset(), "p", 1, 1, 1).Ok?
  {
    OneDayWindow();
    OneDayRequested();
    var ds := OneDayDataset();
    var g := ds.groups[0];
    var w := Frame({Steps, Sleep}, [OneDayRow()]);
    assert Contiguous(Dates(w));
    assert Prepare(ds, g, 0, 1, 1).IsValid();
    assert GroupCandidates(ds, g, 1, 1, 1, scoreA, scoreB) == WindowCandidates(ds, g, 0, 1, 1, scoreA, scoreB);
    assert AllCandidates(ds, 1, 1, 1, scoreA, scoreB) == GroupCandidates(ds, g, 1, 1, 1, scoreA, scoreB);
    assert !PrepareWindow(w, 1, DefaultMinPresentDays).IsValid();
  }
}
