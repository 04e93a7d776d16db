/** Truncation bounds: how far the whole-second figures fall short of the period, for any
    microsecond timestamps and any transitions. */
module VpnBounds {
  import opened Vpn
  import opened VpnObserved
  import opened VpnTimeline

  ghost function TotalSeconds(segments: seq<Segment>): nat {
    if segments == [] then 0 else Seconds(segments[0].to - segments[0].from) + TotalSeconds(segments[1..])
  }

  lemma {:induction false} TotalIsSumOfBuckets(segments: seq<Segment>)
    ensures TotalSeconds(segments) == SecondsIn(segments, Up) + SecondsIn(segments, Down) + SecondsIn(segments, Unknown)
  {
    SecondsMatchRuns(segments, Up);
    SecondsMatchRuns(segments, Down);
    SecondsMatchRuns(segments, Unknown);
    if segments != [] {
      TotalIsSumOfBuckets(segments[1..]);
      SecondsMatchRuns(segments[1..], Up);
      SecondsMatchRuns(segments[1..], Down);
      SecondsMatchRuns(segments[1..], Unknown);
    }
  }

  predicate Whole(time: int) {
    time % MICROS_PER_SECOND == 0
  }

  ghost predicate WholeSeconds(ordered: seq<TunnelTransition>, i: nat) {
    forall j :: i <= j < |ordered| ==> Whole(ordered[j].changedAt)
  }

  lemma WholeDifference(a: int, b: int)
    requires Whole(a) && Whole(b)
    ensures Whole(a - b)
  {
  }

  /** Whole seconds that stand for a length cut into `pieces` segments. */
  ghost predicate Fills(total: nat, pieces: nat, length: int) {
    total * MICROS_PER_SECOND <= length <= total * MICROS_PER_SECOND + (MICROS_PER_SECOND - 1) * pieces
  }

  lemma TruncateOnce(length: int)
    requires length >= 0
    ensures Fills(Seconds(length), 1, length)
    ensures Whole(length) ==> Seconds(length) * MICROS_PER_SECOND == length
  {
  }

  lemma FillsAppend(first: int, total: nat, pieces: nat, rest: int)
    requires first >= 0 && Fills(total, pieces, rest)
    ensures Fills(Seconds(first) + total, 1 + pieces, first + rest)
  {
    TruncateOnce(first);
  }

  lemma TotalOfCons(first: Segment, rest: seq<Segment>)
    ensures TotalSeconds([first] + rest) == Seconds(first.to - first.from) + TotalSeconds(rest)
  {
    assert ([first] + rest)[1..] == rest;
  }

  /** Segments that tile a length. */
  ghost predicate Tile(segments: seq<Segment>, length: int, whole: bool) {
    && Fills(TotalSeconds(segments), |segments|, length)
    && (whole ==> TotalSeconds(segments) * MICROS_PER_SECOND == length)
  }

  lemma TileOne(only: Segment, whole: bool)
    requires only.from <= only.to && (whole ==> Whole(only.to - only.from))
    ensures Tile([only], only.to - only.from, whole)
  {
    TruncateOnce(only.to - only.from);
    TotalOfCons(only, []);
    assert [only] + [] == [only];
  }

  lemma TilePrepend(first: Segment, rest: seq<Segment>, length: int, whole: bool)
    requires first.from <= first.to && Tile(rest, length, whole) && (whole ==> Whole(first.to - first.from))
    ensures Tile([first] + rest, first.to - first.from + length, whole)
  {
    TruncateOnce(first.to - first.from);
    FillsAppend(first.to - first.from, TotalSeconds(rest), |rest|, length);
    TotalOfCons(first, rest);
  }

  /** The segments tile [cursor, end]; each is truncated once, and whole-second times lose nothing. */
  lemma {:induction false} SegmentsTile(ordered: seq<TunnelTransition>, i: nat, state: TunnelState, cursor: int,
                                        start: int, end: int)
    requires start <= cursor <= end && (i < |ordered| && cursor > start ==> cursor <= ordered[i].changedAt)
    requires SortedByTime(ordered)
    ensures Tile(Segments(ordered, i, state, cursor, start, end), end - cursor,
                 WholeSeconds(ordered, i) && Whole(cursor) && Whole(end))
    decreases |ordered| - i
  {
    var whole := WholeSeconds(ordered, i) && Whole(cursor) && Whole(end);
    if whole {
      WholeDifference(end, cursor);
    }
    if i >= |ordered| || (ordered[i].changedAt > start && ordered[i].changedAt > end) {
      TileOne(Segment(state, cursor, end), whole);
    } else if ordered[i].changedAt <= start {
      SegmentsTile(ordered, i + 1, ordered[i].newStatus, cursor, start, end);
    } else {
      var at, next := ordered[i].changedAt, ordered[i].newStatus;
      SegmentsTile(ordered, i + 1, next, at, start, end);
      if whole {
        WholeDifference(at, cursor);
      }
      TilePrepend(Segment(state, cursor, at), Segments(ordered, i + 1, next, at, start, end), end - at, whole);
    }
  }

  /** For any transitions and any microsecond period, the three totals never exceed the period
      and miss less than a second per segment; at whole-second times they fill it exactly.
      The transition count is the number of segments the loop closed. */
  lemma MetricsFillThePeriod(transitions: seq<TunnelTransition>, start: int, end: int, initial: TunnelState,
                             threshold: int, windowSeconds: int)
    requires start <= end
    ensures
      var m := MetricsOf(transitions, start, end, initial, threshold, windowSeconds);
      var total := m.upSeconds + m.downSeconds + m.unknownSeconds;
      && total * MICROS_PER_SECOND <= end - start
      && end - start < (total + m.transitionCount + 1) * MICROS_PER_SECOND
      && m.transitionCount == |Between(SortByTime(transitions), start + 1, end)|
      && ((forall t :: t in transitions ==> Whole(t.changedAt)) && Whole(start) && Whole(end) ==>
            total * MICROS_PER_SECOND == end - start)
  {
    var ordered := SortByTime(transitions);
    var segments := Segments(ordered, 0, initial, start, start, end);
    SortOrders(transitions);
    SegmentsTile(ordered, 0, initial, start, start, end);
    SegmentsCountTransitions(ordered, 0, initial, start, start, end);
    assert ordered[0..] == ordered;
    TotalIsSumOfBuckets(segments);
    if forall t :: t in transitions ==> Whole(t.changedAt) {
      SortIsStable(transitions, 0);
      forall j | 0 <= j < |ordered| ensures Whole(ordered[j].changedAt) {
        assert ordered[j] in multiset(ordered);
        assert ordered[j] in transitions;
      }
    }
  }

  // ---------------------------------------------------------------- agreement, in ticks

  ghost predicate AllWhole(obs: seq<Observation>) {
    forall i :: 0 <= i < |obs| ==> Whole(obs[i].at)
  }

  lemma {:induction false} StatusChangesAtObservations(obs: seq<Observation>, t: int)
    requires StatusAt(obs, t) != StatusAt(obs, t - 1)
    ensures exists i :: 0 <= i < |obs| && obs[i].at == t
  {
    if obs != [] && obs[|obs| - 1].at != t {
      StatusChangesAtObservations(obs[..|obs| - 1], t);
      var i :| 0 <= i < |obs| - 1 && obs[..|obs| - 1][i].at == t;
      assert obs[i].at == t;
    }
  }

  /** Every run but the last lasts whole seconds, and the last began at a whole second. */
  ghost predicate WholeRuns(runs: seq<Run>, hi: int) {
    && (forall i :: 0 <= i < |runs| - 1 ==> Whole(runs[i].ticks))
    && (runs != [] ==> Whole(hi - runs[|runs| - 1].ticks))
  }

  lemma ExtendWholeRuns(runs: seq<Run>, state: TunnelState, hi: int)
    requires WholeRuns(runs, hi)
    requires Whole(hi) || (runs != [] && runs[|runs| - 1].state == state)
    ensures WholeRuns(ExtendRuns(runs, state), hi + 1)
  {
    if runs != [] && runs[|runs| - 1].state != state {
      WholeDifference(hi, hi - runs[|runs| - 1].ticks);
    }
  }

  /** Between whole-second observations every run but the open last one has a whole length. */
  lemma {:induction false} RunsAreWhole(obs: seq<Observation>, lo: int, hi: int)
    requires AllWhole(obs) && Whole(lo)
    ensures WholeRuns(Runs(obs, lo, hi), hi)
    decreases hi - lo
  {
    if lo < hi {
      RunsAreWhole(obs, lo, hi - 1);
      RunsShape(obs, lo, hi - 1);
      var before := Runs(obs, lo, hi - 1);
      if before != [] && before[|before| - 1].state != StatusAt(obs, hi - 1) {
        StatusChangesAtObservations(obs, hi - 1);
      }
      ExtendWholeRuns(before, StatusAt(obs, hi - 1), hi - 1);
    }
  }

  /** The most ticks a figure can stand for: each run of its bucket loses less than a second. */
  ghost function WithLoss(seconds: nat, obs: seq<Observation>, start: int, end: int, bucket: TunnelState): nat {
    seconds * MICROS_PER_SECOND + (MICROS_PER_SECOND - 1) * RunCount(Runs(obs, start, end), bucket)
  }

  /** One figure read in ticks: it is not overstated and loses less than a second per run. */
  lemma FigureInTicks(seconds: nat, obs: seq<Observation>, start: int, end: int, bucket: TunnelState)
    requires start <= end && seconds == RunSeconds(Runs(obs, start, end), bucket)
    ensures seconds * MICROS_PER_SECOND <= TicksIn(obs, start, end, bucket)
            <= WithLoss(seconds, obs, start, end, bucket)
    ensures AllWhole(obs) && Whole(start) && Whole(end) ==>
              seconds * MICROS_PER_SECOND == TicksIn(obs, start, end, bucket)
  {
    var runs := Runs(obs, start, end);
    RunsCountTicks(obs, start, end, bucket);
    TruncationLoss(runs, bucket);
    if AllWhole(obs) && Whole(start) && Whole(end) {
      RunsAreWhole(obs, start, end);
      AllRunsWhole(runs, end);
    }
  }

  lemma AllRunsWhole(runs: seq<Run>, end: int)
    requires WholeRuns(runs, end) && Whole(end)
    ensures forall i :: 0 <= i < |runs| ==> runs[i].ticks % MICROS_PER_SECOND == 0
  {
    if runs != [] {
      WholeDifference(end, end - runs[|runs| - 1].ticks);
    }
  }

  /** Agreement read in ticks: no bucket is overstated, each run costs less than a second, the
      longest outage is exact up to its own last second, and whole-second times lose nothing. */
  lemma AgreementInTicks(m: ServiceMetrics, obs: seq<Observation>, start: int, end: int)
    requires start <= end && Agrees(m, obs, start, end)
    ensures m.upSeconds * MICROS_PER_SECOND <= TicksIn(obs, start, end, Up)
            <= WithLoss(m.upSeconds, obs, start, end, Up)
    ensures m.downSeconds * MICROS_PER_SECOND <= TicksIn(obs, start, end, Down)
            <= WithLoss(m.downSeconds, obs, start, end, Down)
    ensures m.unknownSeconds * MICROS_PER_SECOND <= TicksIn(obs, start, end, Unknown)
            <= WithLoss(m.unknownSeconds, obs, start, end, Unknown)
    ensures exists ticks :: IsLongestOutage(obs, start, end, ticks) && m.longestOutageSeconds == Seconds(ticks)
    ensures AllWhole(obs) && Whole(start) && Whole(end) ==>
              && m.upSeconds * MICROS_PER_SECOND == TicksIn(obs, start, end, Up)
              && m.downSeconds * MICROS_PER_SECOND == TicksIn(obs, start, end, Down)
              && m.unknownSeconds * MICROS_PER_SECOND == TicksIn(obs, start, end, Unknown)
  {
    LongestDownIsLongestOutage(obs, start, end);
    FigureInTicks(m.upSeconds, obs, start, end, Up);
    FigureInTicks(m.downSeconds, obs, start, end, Down);
    FigureInTicks(m.unknownSeconds, obs, start, end, Unknown);
  }
}
