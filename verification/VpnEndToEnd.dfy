/** From observations to reported figures: for any history of observations and retention runs and any
    period, exactly when the timeline's metrics are those of the observed step function. */
module VpnEndToEnd {
  import opened Wrappers
  import opened Vpn
  import opened VpnObserved
  import opened VpnRepository
  import opened VpnRuns
  import opened VpnTimeline

  lemma {:induction false} WindowIsSlice(log: seq<TunnelTransition>, base: TunnelState, start: int, end: int)
    returns (p: nat, q: nat)
    requires Chained(log, base) && start <= end
    ensures p <= q <= |log| && Between(log, start, end) == log[p..q]
    ensures p > 0 ==> log[p - 1].changedAt < start
    ensures p < |log| ==> start <= log[p].changedAt
    ensures q < |log| ==> end < log[q].changedAt
    ensures q > 0 ==> log[q - 1].changedAt <= end
  {
    if log == [] {
      p, q := 0, 0;
    } else {
      var front, last := log[..|log| - 1], log[|log| - 1];
      p, q := WindowIsSlice(front, base, start, end);
      BetweenAppend(front, last, start, end);
      assert log == front + [last];
      if p < |front| {
        ChainOrdered(log, base, p, |front|);
      }
      if q < |front| {
        ChainOrdered(log, base, q, |front|);
      }
      ExtendWindow(front, last, p, q, start, end);
      if last.changedAt < start {
        p, q := |log|, |log|;
      } else if last.changedAt <= end {
        q := |log|;
      }
    }
  }

  lemma ExtendWindow(front: seq<TunnelTransition>, last: TunnelTransition, p: nat, q: nat, start: int, end: int)
    requires p <= q <= |front| && start <= end
    requires p < |front| ==> start <= front[p].changedAt < last.changedAt
    requires q < |front| ==> end < front[q].changedAt < last.changedAt
    ensures last.changedAt < start ==> p == q == |front|
    ensures start <= last.changedAt <= end ==> q == |front| && front[p..q] + [last] == (front + [last])[p..|front| + 1]
    ensures end < last.changedAt ==> front[p..q] == (front + [last])[p..q]
  {
  }

  lemma {:induction false} PriorGivesState(log: seq<TunnelTransition>, base: TunnelState, t: int)
    requires Chained(log, base)
    ensures match Prior(log, t)
            case Some(prior) => prior.newStatus == StateAfter(log, base, t) && log != [] && log[0].changedAt <= t
                               && prior.changedAt <= log[|log| - 1].changedAt
            case None => (log != [] ==> t < log[0].changedAt) && StateAfter(log, base, t) == base
  {
    if log != [] {
      PriorGivesState(log[..|log| - 1], base, t);
      if |log| > 1 {
        ChainOrdered(log, base, 0, |log| - 1);
        ChainOrdered(log, base, |log| - 2, |log| - 1);
      }
    }
  }

  lemma {:induction false} PrefixGivesSameState(log: seq<TunnelTransition>, base: TunnelState, q: nat, t: int)
    requires Chained(log, base) && q <= |log| && (q < |log| ==> t < log[q].changedAt)
    ensures StateAfter(log[..q], base, t) == StateAfter(log, base, t)
  {
    if q < |log| {
      ChainTimesIncrease(log, base);
      PrefixGivesSameState(log[..|log| - 1], base, q, t);
      assert log[..|log| - 1][..q] == log[..q];
    } else {
      assert log[..q] == log;
    }
  }

  lemma FirstOfChain(log: seq<TunnelTransition>, base: TunnelState)
    requires Chained(log, base) && log != []
    ensures log[0].previousStatus == base
  {
    ChainSplits(log, base, 1);
    assert log[..1] == [log[0]] && log[..1][..0] == [];
  }

  lemma CutAfterStart(log: seq<TunnelTransition>, base: TunnelState, m: nat, q: nat, t: int)
    requires Chained(log, base) && m <= q <= |log|
    requires (m > 0 ==> log[m - 1].changedAt <= t) && (q < |log| ==> t < log[q].changedAt)
    ensures StateAfter(log[m..q], EndState(log[..m], base), t) == StateAfter(log, base, t)
  {
    ChainSplits(log, base, m);
    assert log[m..][..q - m] == log[m..q];
    SuffixGivesSameState(log, base, m, t);
    PrefixGivesSameState(log[m..], EndState(log[..m], base), q - m, t);
  }

  lemma CutIsChained(log: seq<TunnelTransition>, base: TunnelState, m: nat, q: nat)
    requires Chained(log, base) && m <= q <= |log|
    ensures Chained(log[m..q], EndState(log[..m], base))
  {
    ChainSplits(log, base, m);
    assert log[m..][..q - m] == log[m..q];
    ChainSplits(log[m..], EndState(log[..m], base), q - m);
  }

  /** Cutting a chain at `start` leaves its later part, started from the status then. */
  lemma CutAtStart(log: seq<TunnelTransition>, base: TunnelState, m: nat, q: nat, obs: seq<Observation>, start: int,
                   end: int)
    requires Chained(log, base) && LogGivesStatus(log, base, obs, start, end)
    requires m <= q <= |log|
    requires (m > 0 ==> log[m - 1].changedAt <= start) && (m < |log| ==> start < log[m].changedAt)
    requires q < |log| ==> end < log[q].changedAt
    ensures var s := StateAfter(log, base, start);
            && EndState(log[..m], base) == s
            && Chained(log[m..q], s)
            && LogGivesStatus(log[m..q], s, obs, start, end)
  {
    var rest, s := log[m..], EndState(log[..m], base);
    CutIsChained(log, base, m, q);
    ChainSplits(log, base, m);
    SuffixGivesSameState(log, base, m, start);
    StateBeforeFirst(rest, s, start);
    forall t | start <= t <= end ensures StatusAt(obs, t) == StateAfter(log[m..q], s, t) {
      CutAfterStart(log, base, m, q, t);
    }
  }

  lemma WindowIsSorted(log: seq<TunnelTransition>, base: TunnelState, p: nat, q: nat)
    requires Chained(log, base) && p <= q <= |log|
    ensures SortedByTime(log[p..q])
  {
    ChainTimesIncrease(log, base);
  }

  /** The rows of the period, started from the status at its beginning, give the observed runs. */
  lemma WindowGivesRuns(log: seq<TunnelTransition>, base: TunnelState, obs: seq<Observation>, start: int, end: int)
    requires start <= end && Chained(log, base) && LogGivesStatus(log, base, obs, start, end)
    ensures SortedByTime(Between(log, start, end))
    ensures Runs(obs, start, end + 1)
         == ClosedRuns(Segments(Between(log, start, end), 0, StateAfter(log, base, start), start, start, end), end)
  {
    var p, q := WindowIsSlice(log, base, start, end);
    WindowIsSorted(log, base, p, q);
    if p < q && log[p].changedAt == start {
      if p + 1 < |log| {
        ChainOrdered(log, base, p, p + 1);
      }
      SliceGivesRuns(log, base, p, p + 1, q, obs, start, end);
    } else {
      if p == q && p < |log| {
        assert start < log[p].changedAt;
      }
      SliceGivesRuns(log, base, p, p, q, obs, start, end);
    }
  }

  lemma SliceGivesRuns(log: seq<TunnelTransition>, base: TunnelState, p: nat, m: nat, q: nat, obs: seq<Observation>,
                       start: int, end: int)
    requires start <= end && Chained(log, base) && LogGivesStatus(log, base, obs, start, end)
    requires p <= m <= q <= |log| && m <= p + 1
    requires m > p ==> log[p].changedAt == start
    requires m > 0 ==> log[m - 1].changedAt <= start
    requires m < |log| ==> start < log[m].changedAt
    requires q < |log| ==> end < log[q].changedAt
    ensures Runs(obs, start, end + 1)
         == ClosedRuns(Segments(log[p..q], 0, StateAfter(log, base, start), start, start, end), end)
  {
    var rows, initial := log[p..q], StateAfter(log, base, start);
    CutAtStart(log, base, m, q, obs, start, end);
    assert rows[m - p..] == log[m..q];
    if m > p {
      assert log[..m][|log[..m]| - 1] == log[p];
      assert rows[0] == log[p] && rows[0].newStatus == initial;
    }
    assert Segments(rows, 0, initial, start, start, end) == Segments(rows, m - p, initial, start, start, end);
    SegmentsAreRuns(rows, m - p, initial, start, start, end, obs);
  }

  // ---------------------------------------------------------------- all changes of the step function

  /** The changes of the observed status, the first sighting included: before it the status is UNKNOWN. */
  ghost function ChangesOf(obs: seq<Observation>): seq<TunnelTransition> {
    if obs == [] then []
    else if obs[0].status == Unknown then TransitionsOf(obs)
    else [TunnelTransition(Unknown, obs[0].status, obs[0].at, None)] + TransitionsOf(obs)
  }

  /** The changes the log does not hold: the first sighting, which is never logged, and those pruned. */
  ghost function Unlogged(obs: seq<Observation>, log: seq<TunnelTransition>): seq<TunnelTransition> {
    var changes := ChangesOf(obs);
    if |log| <= |changes| then changes[..|changes| - |log|] else []
  }

  lemma {:induction false} ChangesFollowFirst(obs: seq<Observation>, j: nat)
    requires obs != [] && Increasing(obs) && j < |TransitionsOf(obs)|
    ensures obs[0].at < TransitionsOf(obs)[j].changedAt
  {
    var front := obs[..|obs| - 1];
    if j < |TransitionsOf(front)| {
      ChangesFollowFirst(front, j);
    }
  }

  lemma {:induction false} ChainPrepend(first: TunnelTransition, log: seq<TunnelTransition>)
    requires Chained(log, first.newStatus) && first.previousStatus != first.newStatus
    requires log != [] ==> first.changedAt < log[0].changedAt
    ensures Chained([first] + log, first.previousStatus)
  {
    var whole := [first] + log;
    if log == [] {
      assert whole[..0] == [];
    } else {
      ChainPrepend(first, log[..|log| - 1]);
      assert whole[..|whole| - 1] == [first] + log[..|log| - 1];
      ChainTimesIncrease(log, first.newStatus);
    }
  }

  lemma {:induction false} StatusBeforeFirst(obs: seq<Observation>, t: int)
    requires Increasing(obs) && (obs != [] ==> t < obs[0].at)
    ensures StatusAt(obs, t) == Unknown
  {
    if obs != [] {
      StatusBeforeFirst(obs[..|obs| - 1], t);
    }
  }

  lemma ChangesAreChained(obs: seq<Observation>)
    requires obs != [] && Increasing(obs)
    ensures Chained(ChangesOf(obs), Unknown)
    ensures EndState(ChangesOf(obs), Unknown) == obs[|obs| - 1].status
  {
    TransitionsAreChained(obs);
    if obs[0].status != Unknown {
      var first := TunnelTransition(Unknown, obs[0].status, obs[0].at, None);
      if TransitionsOf(obs) != [] {
        ChangesFollowFirst(obs, 0);
      }
      ChainPrepend(first, TransitionsOf(obs));
    }
  }

  lemma LaterChangesFollow(obs: seq<Observation>, t: int)
    requires obs != [] && Increasing(obs) && obs[0].at <= t
    ensures StateAfter(ChangesOf(obs), Unknown, t) == StatusAt(obs, t)
  {
    TransitionsFollow(obs, t);
    ChangesAreChained(obs);
    var changes := ChangesOf(obs);
    if obs[0].status != Unknown {
      assert changes[1..] == TransitionsOf(obs) && changes[..1][0] == changes[0];
      SuffixGivesSameState(changes, Unknown, 1, t);
    }
  }

  /** The changes, read as a step function, are the observed status at every time. */
  lemma ChangesFollow(obs: seq<Observation>, t: int)
    requires obs != [] && Increasing(obs)
    ensures StateAfter(ChangesOf(obs), Unknown, t) == StatusAt(obs, t)
  {
    if obs[0].at <= t {
      LaterChangesFollow(obs, t);
    } else {
      ChangesAreChained(obs);
      if TransitionsOf(obs) != [] {
        ChangesFollowFirst(obs, 0);
      }
      StateBeforeFirst(ChangesOf(obs), Unknown, t);
      StatusBeforeFirst(obs, t);
    }
  }

  /** The tables after any history: a log that holds the last changes, and the row's last change. */
  ghost predicate Kept(view: TunnelView, obs: seq<Observation>) {
    var changes := ChangesOf(obs);
    && obs != [] && view.row.Some? && |view.log| <= |changes|
    && view.log == changes[|changes| - |view.log|..]
    && view.row.value.currentStatus == EndState(changes, Unknown)
    && view.row.value.stateChangedAt == LastChange(changes, obs[0].at)
  }

  /** The retained log is what is left of the changes, its pruned and unlogged ones dropped. */
  lemma SuffixOfChanges(obs: seq<Observation>, k: nat)
    requires obs != [] && k <= |TransitionsOf(obs)|
    ensures
      var changes, log := ChangesOf(obs), TransitionsOf(obs)[k..];
      |log| <= |changes| && log == changes[|changes| - |log|..]
  {
  }

  lemma LastOfChanges(obs: seq<Observation>)
    requires obs != []
    ensures LastChange(ChangesOf(obs), obs[0].at) == LastChange(TransitionsOf(obs), obs[0].at)
  {
  }

  lemma HistoryIsKept(events: seq<TunnelEvent>, flapThreshold: int, flapWindowSeconds: int)
    requires Increasing(Observations(events)) && Observations(events) != []
    ensures Kept(After(events, flapThreshold, flapWindowSeconds), Observations(events))
  {
    var k := HistoryMeaning(events, flapThreshold, flapWindowSeconds);
    ChangesAreChained(Observations(events));
    SuffixOfChanges(Observations(events), k);
    LastOfChanges(Observations(events));
  }

  // ---------------------------------------------------------------- what the timeline starts from

  /** The initial status the timeline picks is the status at the start of the period, unless
      every retained transition lies after the period. */
  lemma InitialStatusIsObserved(row: TunnelRow, log: seq<TunnelTransition>, base: TunnelState, start: int, end: int)
    requires start <= end && Chained(log, base) && |Between(log, start, end)| <= MAX_ANALYTICS_TRANSITIONS
    requires log == [] ==> row.currentStatus == base && (row.stateChangedAt <= start || base == Unknown)
    requires log != [] ==> row.stateChangedAt == log[|log| - 1].changedAt
    ensures AnalyticsRows(log, start, end) == Between(log, start, end)
    ensures InitialStatus(row, log, start, end)
         == if log != [] && end < log[0].changedAt then Unknown else StateAfter(log, base, start)
  {
    var p, q := WindowIsSlice(log, base, start, end);
    WindowIsSorted(log, base, p, q);
    SortOfSortedIsIdentity(log[p..q]);
    PriorGivesState(log, base, start);
    if log != [] {
      FirstOfChain(log, base);
      RowsBeginWithFirst(log, base, p, q, start, end);
      assert p < q ==> log[p..q][0] == log[p];
      assert p == q ==> log[p..q] == [];
    }
  }

  /** With nothing at or before the start, the period's rows begin with the log's first row,
      or the log begins after the period. */
  lemma RowsBeginWithFirst(log: seq<TunnelTransition>, base: TunnelState, p: nat, q: nat, start: int, end: int)
    requires log != [] && Chained(log, base) && p <= q <= |log|
    requires p > 0 ==> log[p - 1].changedAt < start
    requires q < |log| ==> end < log[q].changedAt
    requires q > 0 ==> log[q - 1].changedAt <= end
    ensures start < log[0].changedAt ==> p == 0
    ensures q == 0 <==> end < log[0].changedAt
    ensures start < log[0].changedAt ==> start < log[|log| - 1].changedAt
  {
    if |log| > 1 {
      ChainOrdered(log, base, 0, |log| - 1);
    }
    if p > 1 {
      ChainOrdered(log, base, 0, p - 1);
    }
    if q > 1 {
      ChainOrdered(log, base, 0, q - 1);
    }
  }

  // ---------------------------------------------------------------- nothing unlogged in the period

  /** Some row tells the status of the period: a retained transition by its end, or, without any, a
      current status that was in force at its start. */
  predicate PeriodCovered(row: TunnelRow, log: seq<TunnelTransition>, start: int, end: int) {
    if log == [] then row.stateChangedAt <= start else log[0].changedAt <= end
  }

  /** The log says nothing about the period. */
  predicate Silent(row: TunnelRow, log: seq<TunnelTransition>, start: int, end: int) {
    if log == [] then row.stateChangedAt > start || row.currentStatus == Unknown
    else end < log[0].changedAt && start < row.stateChangedAt
  }

  lemma {:induction false} NothingBefore(log: seq<TunnelTransition>, base: TunnelState, start: int, end: int)
    requires start <= end && Chained(log, base) && (log != [] ==> end < log[0].changedAt)
    ensures Prior(log, start) == None && Between(log, start, end) == []
  {
    PriorGivesState(log, base, start);
    ChainTimesIncrease(log, base);
    NothingLater(log, start, end);
  }

  /** A report of nothing but UNKNOWN time. */
  predicate AllUnknown(m: ServiceMetrics, start: int, end: int) {
    && m.upSeconds == m.downSeconds == 0 && m.unknownSeconds == Seconds(end - start)
    && m.transitionCount == 0 && m.longestOutageSeconds == 0
    && m.completedUpSegments == m.completedDownSegments == [] && !m.flapping
  }

  lemma EmptyRowsReadUnknown(start: int, end: int)
    requires start <= end
    ensures AllUnknown(MetricsOf([], start, end, Unknown, DEFAULT_FLAP_THRESHOLD, DEFAULT_FLAP_WINDOW), start, end)
  {
    var n := Seconds(end - start);
    var segment := Segment(Unknown, start, end);
    assert [segment][..0] == [] && Segments(SortByTime([]), 0, Unknown, start, start, end) == [segment];
    assert SecondsIn([segment], Up) == 0 && SecondsIn([segment], Down) == 0 && SecondsIn([segment], Unknown) == n;
    assert LengthsOf([segment], Down) == [];
  }

  /** When the log says nothing about the period, the whole of it is reported as UNKNOWN, without a
      change or an outage. */
  lemma UncoveredPeriodReadsUnknown(row: TunnelRow, log: seq<TunnelTransition>, base: TunnelState, start: int, end: int)
    requires start <= end && Chained(log, base) && Silent(row, log, start, end)
    ensures AllUnknown(TimelineMetrics(row, log, start, end), start, end)
  {
    NothingBefore(log, base, start, end);
    assert SortByTime([]) == [];
    assert InitialStatus(row, log, start, end) == Unknown;
    EmptyRowsReadUnknown(start, end);
  }

  lemma OneRunFigures(obs: seq<Observation>, status: TunnelState, start: int, end: int)
    requires start <= end && StatusThroughout(obs, start, end + 1, status)
    ensures |Runs(obs, start, end + 1)| == 1
    ensures RunSeconds(Runs(obs, start, end), Up) == if status == Up then Seconds(end - start) else 0
    ensures RunSeconds(Runs(obs, start, end), Down) == if status == Down then Seconds(end - start) else 0
    ensures RunSeconds(Runs(obs, start, end), Unknown) == if status in {Up, Down} then 0 else Seconds(end - start)
    ensures Seconds(LongestDown(Runs(obs, start, end))) == if status == Down then Seconds(end - start) else 0
    ensures EndedRuns(obs, start, end) == []
  {
    ConstantStretchIsOneRun(obs, start, start, end + 1, status);
    assert Runs(obs, start, end + 1) == [Run(status, end + 1 - start)];
    if start < end {
      ConstantStretchIsOneRun(obs, start, start, end, status);
      assert Runs(obs, start, end) == [Run(status, end - start)];
      assert [Run(status, end - start)][1..] == [];
    }
  }

  /** A period of one observed status agrees with such a report exactly when that status counts as
      unknown or the period is too short to count a second. */
  lemma UnknownReportAgreesWhen(m: ServiceMetrics, status: TunnelState, obs: seq<Observation>, start: int, end: int)
    requires start <= end && StatusThroughout(obs, start, end + 1, status) && AllUnknown(m, start, end)
    ensures TimelineAgrees(m, obs, start, end) <==> status !in {Up, Down} || end - start < MICROS_PER_SECOND
  {
    OneRunFigures(obs, status, start, end);
    QuietPeriodDoesNotFlap(m, obs, status, start, end);
  }

  lemma {:induction false} BetweenCounts(a: seq<TunnelTransition>, b: seq<TunnelTransition>, lo: int, hi: int)
    ensures |Between(a + b, lo, hi)| == |Between(a, lo, hi)| + |Between(b, lo, hi)|
  {
    if b == [] {
      assert a + b == a;
    } else {
      var front, last := b[..|b| - 1], b[|b| - 1];
      BetweenCounts(a, front, lo, hi);
      assert a + b == a + front + [last] && b == front + [last];
      BetweenAppend(a + front, last, lo, hi);
      BetweenAppend(front, last, lo, hi);
    }
  }

  lemma {:induction false} BetweenNested(log: seq<TunnelTransition>, lo: int, inner: int, hi: int)
    ensures Between(Between(log, lo, hi), inner, hi) == Between(log, Max(lo, inner), hi)
  {
    if log != [] {
      var front, last := log[..|log| - 1], log[|log| - 1];
      BetweenNested(front, lo, inner, hi);
      assert log == front + [last];
      BetweenAppend(front, last, lo, hi);
      BetweenAppend(front, last, Max(lo, inner), hi);
      BetweenAppend(Between(front, lo, hi), last, inner, hi);
      assert Between(front, lo, hi) + [] == Between(front, lo, hi);
    }
  }

  lemma {:induction false} ClosedRunsKeepLength(segments: seq<Segment>, end: int)
    ensures |ClosedRuns(segments, end)| == |segments|
  {
    if segments != [] {
      ClosedRunsKeepLength(segments[1..], end);
    }
  }

  /** One run more than the log has changes after the start, if it gives the status from there on. */
  lemma LogCountsRuns(log: seq<TunnelTransition>, base: TunnelState, obs: seq<Observation>, start: int, end: int)
    requires start <= end && Chained(log, base) && LogGivesStatus(log, base, obs, start, end)
    ensures |Runs(obs, start, end + 1)| == 1 + |Between(log, start + 1, end)|
  {
    WindowGivesRuns(log, base, obs, start, end);
    var rows, initial := Between(log, start, end), StateAfter(log, base, start);
    ClosedRunsKeepLength(Segments(rows, 0, initial, start, start, end), end);
    SegmentsCountTransitions(rows, 0, initial, start, start, end);
    assert rows[0..] == rows;
    BetweenNested(log, start, start + 1, end);
  }

  lemma LogCountsChanges(log: seq<TunnelTransition>, base: TunnelState, obs: seq<Observation>, start: int, end: int,
                         from: int)
    requires start <= from <= end && Chained(log, base) && LogGivesStatus(log, base, obs, start, end)
    ensures |Between(log, from + 1, end)| == ChangesWithin(obs, from + 1, end)
  {
    LogCountsRuns(log, base, obs, from, end);
    RunsCountStatusChanges(obs, from, end);
  }

  const FIFTEEN_MINUTES := 900 * MICROS_PER_SECOND

  /** The tunnel is reported as flapping exactly when its status changed three times or more in the
      last fifteen minutes of the period. */
  ghost predicate FlapsAsObserved(m: ServiceMetrics, obs: seq<Observation>, start: int, end: int) {
    m.flapping <==> ChangesWithin(obs, Max(start + 1, end - FIFTEEN_MINUTES), end) >= 3
  }

  /** Everything the timeline reports is what was observed. */
  ghost predicate TimelineAgrees(m: ServiceMetrics, obs: seq<Observation>, start: int, end: int) {
    Agrees(m, obs, start, end) && FlapsAsObserved(m, obs, start, end)
  }

  lemma FlappingCountsRows(log: seq<TunnelTransition>, base: TunnelState, initial: TunnelState, start: int, end: int)
    requires start <= end && Chained(log, base)
    ensures MetricsOf(Between(log, start, end), start, end, initial, DEFAULT_FLAP_THRESHOLD,
                      DEFAULT_FLAP_WINDOW).flapping
       <==> |Between(log, Max(start + 1, end - FIFTEEN_MINUTES), end)| >= 3
  {
    var p, q := WindowIsSlice(log, base, start, end);
    WindowIsSorted(log, base, p, q);
    SortOfSortedIsIdentity(Between(log, start, end));
    BetweenNested(log, start, start + 1, end);
    BetweenNested(log, start + 1, end - FIFTEEN_MINUTES, end);
  }

  /** Where the log gives the observed status, the reported flag is the one the observations call for. */
  lemma FlappingIsObserved(log: seq<TunnelTransition>, base: TunnelState, initial: TunnelState, obs: seq<Observation>,
                           start: int, end: int)
    requires start <= end && Chained(log, base) && LogGivesStatus(log, base, obs, start, end)
    ensures FlapsAsObserved(MetricsOf(Between(log, start, end), start, end, initial, DEFAULT_FLAP_THRESHOLD,
                                      DEFAULT_FLAP_WINDOW), obs, start, end)
  {
    FlappingCountsRows(log, base, initial, start, end);
    LogCountsChanges(log, base, obs, start, end, Max(start, end - FIFTEEN_MINUTES - 1));
  }

  lemma QuietPeriodDoesNotFlap(m: ServiceMetrics, obs: seq<Observation>, status: TunnelState, start: int, end: int)
    requires start <= end && StatusThroughout(obs, start, end + 1, status) && !m.flapping
    ensures FlapsAsObserved(m, obs, start, end)
  {
    var from := Max(start, end - FIFTEEN_MINUTES - 1);
    ConstantStretchIsOneRun(obs, from, from, end + 1, status);
    assert Runs(obs, from, end + 1) == [Run(status, end + 1 - from)];
    RunsCountStatusChanges(obs, from, end);
  }

  lemma CoveredPeriodAgrees(row: TunnelRow, log: seq<TunnelTransition>, base: TunnelState, obs: seq<Observation>,
                            start: int, end: int)
    requires start <= end && Chained(log, base) && LogGivesStatus(log, base, obs, start, end)
    requires AnalyticsRows(log, start, end) == Between(log, start, end)
    requires InitialStatus(row, log, start, end) == StateAfter(log, base, start)
    ensures TimelineAgrees(TimelineMetrics(row, log, start, end), obs, start, end)
  {
    FlappingIsObserved(log, base, StateAfter(log, base, start), obs, start, end);
    WindowGivesRuns(log, base, obs, start, end);
    MetricsAgree(Between(log, start, end), StateAfter(log, base, start), start, end, obs,
                 DEFAULT_FLAP_THRESHOLD, DEFAULT_FLAP_WINDOW);
  }

  /** All unlogged changes are past at the start: the log gives the status from there on. */
  lemma LogGivesLaterStatus(obs: seq<Observation>, k: nat, start: int, end: int)
    requires obs != [] && Increasing(obs) && k <= |ChangesOf(obs)|
    requires k > 0 ==> ChangesOf(obs)[k - 1].changedAt <= start
    ensures
      var changes := ChangesOf(obs);
      var base := EndState(changes[..k], Unknown);
      Chained(changes[k..], base) && LogGivesStatus(changes[k..], base, obs, start, end)
      && EndState(changes[k..], base) == EndState(changes, Unknown)
  {
    var changes := ChangesOf(obs);
    ChangesAreChained(obs);
    ChainSplits(changes, Unknown, k);
    var base := EndState(changes[..k], Unknown);
    forall t | start <= t <= end ensures StatusAt(obs, t) == StateAfter(changes[k..], base, t) {
      SuffixGivesSameState(changes, Unknown, k, t);
      ChangesFollow(obs, t);
    }
  }

  /** All unlogged changes are past at the start. */
  lemma PastChangesAgreeWhen(view: TunnelView, obs: seq<Observation>, start: int, end: int)
    requires Increasing(obs) && Kept(view, obs) && start <= end
    requires |Between(view.log, start, end)| <= MAX_ANALYTICS_TRANSITIONS
    requires var unlogged := Unlogged(obs, view.log); unlogged != [] ==> unlogged[|unlogged| - 1].changedAt <= start
    ensures TimelineAgrees(TimelineMetrics(view.row.value, view.log, start, end), obs, start, end)
       <==> (PeriodCovered(view.row.value, view.log, start, end) || StatusAt(obs, start) !in {Up, Down}
             || end - start < MICROS_PER_SECOND)
  {
    var row, log, changes := view.row.value, view.log, ChangesOf(obs);
    var k := |changes| - |log|;
    var base := EndState(changes[..k], Unknown);
    LogGivesLaterStatus(obs, k, start, end);
    InitialStatusIsObserved(row, log, base, start, end);
    if log != [] && end < log[0].changedAt {
      ChainTimesIncrease(log, base);
      OneStretch(log, base, obs, start, end);
      UncoveredPeriodReadsUnknown(row, log, base, start, end);
      UnknownReportAgreesWhen(TimelineMetrics(row, log, start, end), base, obs, start, end);
    } else {
      CoveredPeriodAgrees(row, log, base, obs, start, end);
      if log == [] {
        assert StatusAt(obs, start) == base;
      }
    }
  }

  // ---------------------------------------------------------------- unlogged changes past the period

  /** Without a change in the period its status is one throughout. */
  lemma QuietPeriod(obs: seq<Observation>, k: nat, start: int, end: int)
    requires obs != [] && Increasing(obs) && start <= end && k <= |ChangesOf(obs)|
    requires k > 0 ==> ChangesOf(obs)[k - 1].changedAt <= start
    requires k < |ChangesOf(obs)| ==> end < ChangesOf(obs)[k].changedAt
    ensures StatusThroughout(obs, start, end + 1, StatusAt(obs, start))
  {
    LogGivesLaterStatus(obs, k, start, end);
    OneStretch(ChangesOf(obs)[k..], EndState(ChangesOf(obs)[..k], Unknown), obs, start, end);
  }

  /** How many changes of a chain lie at or before a time. */
  lemma {:induction false} ChangesUpTo(log: seq<TunnelTransition>, base: TunnelState, t: int) returns (k: nat)
    requires Chained(log, base)
    ensures k <= |log| && (k > 0 ==> log[k - 1].changedAt <= t) && (k < |log| ==> t < log[k].changedAt)
  {
    if log == [] || log[|log| - 1].changedAt <= t {
      k := |log|;
    } else {
      k := ChangesUpTo(log[..|log| - 1], base, t);
    }
  }

  lemma NotBetween(log: seq<TunnelTransition>, i: nat, lo: int, hi: int)
    requires i < |log| && Between(log, lo, hi) == []
    ensures log[i].changedAt < lo || hi < log[i].changedAt
  {
    if i == 0 {
    } else {
      NotBetween(log[1..], i - 1, lo, hi);
    }
  }

  /** The first changes of a chain, of which the last comes after the period and none in it. */
  lemma QuietBefore(changes: seq<TunnelTransition>, n: nat, start: int, end: int) returns (k: nat)
    requires Chained(changes, Unknown) && 0 < n <= |changes| && start <= end
    requires start < changes[n - 1].changedAt && Between(changes[..n], start + 1, end) == []
    ensures k < |changes| && (k > 0 ==> changes[k - 1].changedAt <= start) && end < changes[k].changedAt
  {
    k := ChangesUpTo(changes, Unknown, start);
    ChainTimesIncrease(changes, Unknown);
    assert k < n && changes[..n][k] == changes[k];
    NotBetween(changes[..n], k, start + 1, end);
  }

  /** The later part of such a chain says nothing about the period. */
  lemma SilentAfter(row: TunnelRow, changes: seq<TunnelTransition>, n: nat, start: int, end: int)
    requires Chained(changes, Unknown) && 0 < n <= |changes| && start <= end
    requires start < changes[n - 1].changedAt && Between(changes[..n], start + 1, end) == []
    requires row.stateChangedAt == changes[|changes| - 1].changedAt
    ensures Chained(changes[n..], EndState(changes[..n], Unknown))
    ensures Silent(row, changes[n..], start, end) && !PeriodCovered(row, changes[n..], start, end)
  {
    NotBetween(changes[..n], n - 1, start + 1, end);
    assert end < changes[n - 1].changedAt;
    ChainSplits(changes, Unknown, n);
    if n < |changes| {
      ChainOrdered(changes, Unknown, n - 1, n);
      ChainOrdered(changes, Unknown, n - 1, |changes| - 1);
    }
  }

  /** What is unlogged comes before what is in the log. */
  lemma KeptSplits(view: TunnelView, obs: seq<Observation>)
    requires Increasing(obs) && Kept(view, obs)
    ensures
      var changes, n := ChangesOf(obs), |Unlogged(obs, view.log)|;
      n <= |changes| && Unlogged(obs, view.log) == changes[..n] && view.log == changes[n..] && Chained(changes, Unknown)
  {
    ChangesAreChained(obs);
  }

  /** Some unlogged change lies past the period, and none in it. */
  lemma FutureChangesAgreeWhen(view: TunnelView, obs: seq<Observation>, start: int, end: int)
    requires Increasing(obs) && Kept(view, obs) && start <= end
    requires var unlogged := Unlogged(obs, view.log);
             unlogged != [] && start < unlogged[|unlogged| - 1].changedAt && Between(unlogged, start + 1, end) == []
    ensures !PeriodCovered(view.row.value, view.log, start, end)
    ensures TimelineAgrees(TimelineMetrics(view.row.value, view.log, start, end), obs, start, end)
       <==> StatusAt(obs, start) !in {Up, Down} || end - start < MICROS_PER_SECOND
  {
    var row, log, changes, n := view.row.value, view.log, ChangesOf(obs), |Unlogged(obs, view.log)|;
    KeptSplits(view, obs);
    var k := QuietBefore(changes, n, start, end);
    QuietPeriod(obs, k, start, end);
    SilentAfter(row, changes, n, start, end);
    UncoveredPeriodReadsUnknown(row, log, EndState(changes[..n], Unknown), start, end);
    UnknownReportAgreesWhen(TimelineMetrics(row, log, start, end), StatusAt(obs, start), obs, start, end);
  }

  // ---------------------------------------------------------------- unlogged changes in the period

  /** One run more than there are changes after the start. */
  lemma RunsCountChanges(obs: seq<Observation>, start: int, end: int)
    requires obs != [] && Increasing(obs) && start <= end
    ensures |Runs(obs, start, end + 1)| == 1 + |Between(ChangesOf(obs), start + 1, end)|
  {
    ChangesAreChained(obs);
    forall t | start <= t <= end ensures StatusAt(obs, t) == StateAfter(ChangesOf(obs), Unknown, t) {
      ChangesFollow(obs, t);
    }
    LogCountsRuns(ChangesOf(obs), Unknown, obs, start, end);
  }

  lemma TimelineCountsLog(row: TunnelRow, log: seq<TunnelTransition>, base: TunnelState, start: int, end: int)
    requires start <= end && Chained(log, base) && |Between(log, start, end)| <= MAX_ANALYTICS_TRANSITIONS
    ensures TimelineMetrics(row, log, start, end).transitionCount == |Between(log, start + 1, end)|
  {
    var p, q := WindowIsSlice(log, base, start, end);
    WindowIsSorted(log, base, p, q);
    var rows := Between(log, start, end);
    SortOfSortedIsIdentity(rows);
    SegmentsCountTransitions(rows, 0, InitialStatus(row, log, start, end), start, start, end);
    assert rows[0..] == rows;
    BetweenNested(log, start, start + 1, end);
  }

  lemma LaterPartCountsNoMore(changes: seq<TunnelTransition>, n: nat, lo: int, hi: int)
    requires Chained(changes, Unknown) && n <= |changes|
    ensures Chained(changes[n..], EndState(changes[..n], Unknown))
    ensures |Between(changes[n..], lo, hi)| <= |Between(changes, lo, hi)|
    ensures Between(changes[..n], lo, hi) != [] ==> |Between(changes[n..], lo, hi)| < |Between(changes, lo, hi)|
  {
    ChainSplits(changes, Unknown, n);
    assert changes == changes[..n] + changes[n..];
    BetweenCounts(changes[..n], changes[n..], lo, hi);
  }

  /** An unlogged change in the period is missing from the count of transitions. */
  lemma UnloggedChangeDisagrees(view: TunnelView, obs: seq<Observation>, start: int, end: int)
    requires Increasing(obs) && Kept(view, obs) && start <= end
    requires |Between(view.log, start, end)| <= MAX_ANALYTICS_TRANSITIONS
    requires Between(Unlogged(obs, view.log), start + 1, end) != []
    ensures !Agrees(TimelineMetrics(view.row.value, view.log, start, end), obs, start, end)
  {
    var unlogged := Unlogged(obs, view.log);
    KeptSplits(view, obs);
    LaterPartCountsNoMore(ChangesOf(obs), |unlogged|, start + 1, end);
    RunsCountChanges(obs, start, end);
    TimelineCountsLog(view.row.value, view.log, EndState(unlogged, Unknown), start, end);
  }

  // ---------------------------------------------------------------- more rows than the analytics take

  lemma RowsAreCut(log: seq<TunnelTransition>, base: TunnelState, start: int, end: int) returns (p: nat, m: nat, q: nat)
    requires start <= end && Chained(log, base) && |Between(log, start, end)| > MAX_ANALYTICS_TRANSITIONS
    ensures p < m < q <= |log| && Between(log, start, end) == log[p..q]
    ensures AnalyticsRows(log, start, end) == log[p..m] && SortedByTime(log[p..m])
    ensures start <= log[p].changedAt && log[q - 1].changedAt <= end
  {
    p, q := WindowIsSlice(log, base, start, end);
    m := p + MAX_ANALYTICS_TRANSITIONS;
    WindowIsSorted(log, base, p, q);
    WindowIsSorted(log, base, p, m);
    SortOfSortedIsIdentity(log[p..q]);
    assert log[p..q][..MAX_ANALYTICS_TRANSITIONS] == log[p..m];
  }

  /** The rows beyond the limit are missing from the count of transitions. */
  lemma TruncationCountsLess(row: TunnelRow, log: seq<TunnelTransition>, base: TunnelState, start: int, end: int)
    requires start <= end && Chained(log, base) && |Between(log, start, end)| > MAX_ANALYTICS_TRANSITIONS
    ensures TimelineMetrics(row, log, start, end).transitionCount < |Between(log, start + 1, end)|
  {
    var p, m, q := RowsAreCut(log, base, start, end);
    var kept := log[p..m];
    SortOfSortedIsIdentity(kept);
    SegmentsCountTransitions(kept, 0, InitialStatus(row, log, start, end), start, start, end);
    assert kept[0..] == kept;
    CutWindowCountsLess(log, base, p, m, q, start, end);
  }

  lemma CutWindowCountsLess(log: seq<TunnelTransition>, base: TunnelState, p: nat, m: nat, q: nat, start: int, end: int)
    requires Chained(log, base) && p < m < q <= |log| && Between(log, start, end) == log[p..q]
    requires start <= log[p].changedAt && log[q - 1].changedAt <= end
    ensures |Between(log[p..m], start + 1, end)| < |Between(log, start + 1, end)|
  {
    BetweenNested(log, start, start + 1, end);
    assert log[p..q] == log[p..m] + log[m..q];
    BetweenCounts(log[p..m], log[m..q], start + 1, end);
    ChainTimesIncrease(log, base);
    assert log[m..q][0] == log[m] && start + 1 <= log[m].changedAt <= end;
  }

  lemma TruncationDisagrees(view: TunnelView, obs: seq<Observation>, start: int, end: int)
    requires Increasing(obs) && Kept(view, obs) && start <= end
    requires |Between(view.log, start, end)| > MAX_ANALYTICS_TRANSITIONS
    ensures !Agrees(TimelineMetrics(view.row.value, view.log, start, end), obs, start, end)
  {
    var unlogged := Unlogged(obs, view.log);
    KeptSplits(view, obs);
    LaterPartCountsNoMore(ChangesOf(obs), |unlogged|, start + 1, end);
    RunsCountChanges(obs, start, end);
    TruncationCountsLess(view.row.value, view.log, EndState(unlogged, Unknown), start, end);
  }

  // ---------------------------------------------------------------- the main result

  /** When the timeline is right about a period: every change in it was logged and is retained, the log
      has no more rows for it than the analytics take, and some row tells its status, or else not
      telling it makes no difference. */
  ghost predicate TimelineIsRight(view: TunnelView, obs: seq<Observation>, start: int, end: int)
    requires view.row.Some?
  {
    && Between(Unlogged(obs, view.log), start + 1, end) == []
    && |Between(view.log, start, end)| <= 100_000
    && (PeriodCovered(view.row.value, view.log, start, end) || StatusAt(obs, start) !in {Up, Down}
        || end - start < MICROS_PER_SECOND)
  }

  lemma KeptViewIsRightWhen(view: TunnelView, obs: seq<Observation>, start: int, end: int)
    requires Increasing(obs) && Kept(view, obs) && start <= end
    ensures TimelineAgrees(TimelineMetrics(view.row.value, view.log, start, end), obs, start, end)
       <==> TimelineIsRight(view, obs, start, end)
  {
    var unlogged := Unlogged(obs, view.log);
    if |Between(view.log, start, end)| > MAX_ANALYTICS_TRANSITIONS {
      TruncationDisagrees(view, obs, start, end);
    } else if Between(unlogged, start + 1, end) != [] {
      UnloggedChangeDisagrees(view, obs, start, end);
    } else if unlogged != [] && start < unlogged[|unlogged| - 1].changedAt {
      FutureChangesAgreeWhen(view, obs, start, end);
    } else {
      PastChangesAgreeWhen(view, obs, start, end);
    }
  }

  /** Main result. For any history and any period at all, the figures computed from the log are those
      of the observed step function exactly when every observed change within the period is in the
      retained log (neither pruned nor the first sighting, which is never logged), the row limit is
      kept, and some row tells the period's status, or the difference cannot show. */
  lemma TimelineMatchesObservations(events: seq<TunnelEvent>, flapThreshold: int, flapWindowSeconds: int, start: int,
                                    end: int)
    requires Increasing(Observations(events)) && Observations(events) != [] && start <= end
    ensures
      var view := After(events, flapThreshold, flapWindowSeconds);
      && view.row.Some?
      && (TimelineAgrees(TimelineMetrics(view.row.value, view.log, start, end), Observations(events), start, end)
          <==> TimelineIsRight(view, Observations(events), start, end))
  {
    HistoryIsKept(events, flapThreshold, flapWindowSeconds);
    KeptViewIsRightWhen(After(events, flapThreshold, flapWindowSeconds), Observations(events), start, end);
  }

  lemma {:induction false} NothingEarlier(log: seq<TunnelTransition>, lo: int, hi: int)
    requires forall i :: 0 <= i < |log| ==> log[i].changedAt < lo
    ensures Between(log, lo, hi) == []
  {
    if log != [] {
      NothingEarlier(log[1..], lo, hi);
    }
  }

  lemma LastUnlogged(obs: seq<Observation>, k: nat)
    requires obs != [] && k <= |TransitionsOf(obs)|
    ensures
      var unlogged := Unlogged(obs, TransitionsOf(obs)[k..]);
      unlogged != [] ==>
        unlogged[|unlogged| - 1].changedAt == if k > 0 then TransitionsOf(obs)[k - 1].changedAt else obs[0].at
  {
  }

  lemma UnloggedPast(changes: seq<TunnelTransition>, n: nat, start: int, end: int)
    requires Chained(changes, Unknown) && n <= |changes| && (n > 0 ==> changes[n - 1].changedAt <= start)
    ensures Between(changes[..n], start + 1, end) == []
  {
    ChainTimesIncrease(changes, Unknown);
    NothingEarlier(changes[..n], start + 1, end);
  }

  /** From the first sighting and the last retention cutoff on, every change is in the log. */
  lemma RecentChangesAreLogged(events: seq<TunnelEvent>, flapThreshold: int, flapWindowSeconds: int, start: int,
                               end: int)
    requires Increasing(Observations(events)) && Observations(events) != []
    requires Observations(events)[0].at <= start && PrunedUpTo(events, start)
    ensures Between(Unlogged(Observations(events), After(events, flapThreshold, flapWindowSeconds).log), start + 1, end)
        == []
  {
    var k := HistoryMeaning(events, flapThreshold, flapWindowSeconds);
    var obs := Observations(events);
    ChangesAreChained(obs);
    LastUnlogged(obs, k);
    UnloggedPast(ChangesOf(obs), |Unlogged(obs, TransitionsOf(obs)[k..])|, start, end);
  }
}
