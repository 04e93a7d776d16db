/** Availability analytics over the persisted log (backend/app/monitoring/service.py), and the
    end-to-end result: what the timeline reports is what the observations say. */
module VpnTimeline {
  import opened Wrappers
  import opened Vpn
  import opened VpnObserved
  import opened VpnRepository
  import opened VpnRuns

  const MAX_ANALYTICS_TRANSITIONS := 100_000
  const DEFAULT_FLAP_THRESHOLD := 3
  const DEFAULT_FLAP_WINDOW := 900

  datatype Timeline = Timeline(analytics: Result<ServiceMetrics, MetricsError>, truncated: bool, total: nat)

  /** The latest transition at or before `t`. */
  function Prior(log: seq<TunnelTransition>, t: int): Option<TunnelTransition> {
    if log == [] then None
    else
      var earlier, last := Prior(log[..|log| - 1], t), log[|log| - 1];
      if last.changedAt <= t && (earlier.None? || earlier.value.changedAt <= last.changedAt) then Some(last)
      else earlier
  }

  /** The rows the analytics work on: those of the period, in order, up to the row limit. */
  function AnalyticsRows(log: seq<TunnelTransition>, start: int, end: int): seq<TunnelTransition> {
    var rows := SortByTime(Between(log, start, end));
    if |rows| > MAX_ANALYTICS_TRANSITIONS then rows[..MAX_ANALYTICS_TRANSITIONS] else rows
  }

  function InitialStatus(row: TunnelRow, log: seq<TunnelTransition>, start: int, end: int): TunnelState {
    var prior, rows := Prior(log, start), AnalyticsRows(log, start, end);
    if prior.Some? then prior.value.newStatus
    else if rows != [] then rows[0].previousStatus
    else if row.stateChangedAt <= start then row.currentStatus
    else Unknown
  }

  function TimelineMetrics(row: TunnelRow, log: seq<TunnelTransition>, start: int, end: int): ServiceMetrics {
    MetricsOf(AnalyticsRows(log, start, end), start, end, InitialStatus(row, log, start, end),
              DEFAULT_FLAP_THRESHOLD, DEFAULT_FLAP_WINDOW)
  }

  /** vpn_timeline: the analytics of one tunnel, None for a tunnel without a row. */
  method VpnTimeline(repository: Repository, tunnelId: string, start: int, end: int) returns (r: Option<Timeline>)
    ensures r.None? <==> tunnelId !in repository.current
    ensures tunnelId in repository.current ==>
              var row, log := repository.current[tunnelId], LogOf(repository.transitions, tunnelId);
              && r.value.total == |Between(log, start, end)|
              && (r.value.truncated <==> r.value.total > 100_000)
              && AnalyticsRows(log, start, end) <= SortByTime(Between(log, start, end))
              && |AnalyticsRows(log, start, end)| == Min(r.value.total, 100_000)
              && (end < start ==> r.value.analytics == Err(PeriodEndBeforeStart))
              && (end >= start ==> r.value.analytics == Ok(TimelineMetrics(row, log, start, end)))
  {
    if tunnelId !in repository.current {
      return None;
    }
    var current, log := repository.current[tunnelId], LogOf(repository.transitions, tunnelId);
    var rows := SortByTime(Between(log, start, end));
    SortKeepsLength(Between(log, start, end));
    var truncated := |rows| > MAX_ANALYTICS_TRANSITIONS;
    var analyticsRows := if truncated then rows[..MAX_ANALYTICS_TRANSITIONS] else rows;
    var prior := Prior(log, start);
    var initial :=
      if prior.Some? then prior.value.newStatus
      else if analyticsRows != [] then analyticsRows[0].previousStatus
      else if current.stateChangedAt <= start then current.currentStatus
      else Unknown;
    var analytics := CalculateServiceMetrics(analyticsRows, start, end, initial, DEFAULT_FLAP_THRESHOLD,
                                             DEFAULT_FLAP_WINDOW);
    r := Some(Timeline(analytics, truncated, |rows|));
  }

  lemma SortKeepsLength(transitions: seq<TunnelTransition>)
    ensures |SortByTime(transitions)| == |transitions|
  {
    SortIsStable(transitions, 0);
    assert |multiset(SortByTime(transitions))| == |multiset(transitions)|;
  }

  // ---------------------------------------------------------------- segments are the runs

  function Length(from: int, to: int): nat {
    if from <= to then to - from else 0
  }

  function TickRuns(segments: seq<Segment>): seq<Run> {
    if segments == [] then []
    else [Run(segments[0].state, Length(segments[0].from, segments[0].to))] + TickRuns(segments[1..])
  }

  lemma {:induction false} TickRunsAppend(front: seq<Segment>, last: Segment)
    ensures TickRuns(front + [last]) == TickRuns(front) + [Run(last.state, Length(last.from, last.to))]
  {
    if front == [] {
      assert [last][1..] == [];
    } else {
      TickRunsAppend(front[1..], last);
      assert (front + [last])[1..] == front[1..] + [last];
    }
  }

  lemma {:induction false} SecondsMatchRuns(segments: seq<Segment>, bucket: TunnelState)
    ensures SecondsIn(segments, bucket) == RunSeconds(TickRuns(segments), bucket)
  {
    if segments != [] {
      var front, last := segments[..|segments| - 1], segments[|segments| - 1];
      SecondsMatchRuns(front, bucket);
      assert segments == front + [last];
      TickRunsAppend(front, last);
      RunSecondsAppend(TickRuns(front), Run(last.state, Length(last.from, last.to)), bucket);
    }
  }

  lemma {:induction false} LengthsMatchRuns(segments: seq<Segment>, state: TunnelState)
    ensures LengthsOf(segments, state) == RunLengths(TickRuns(segments), state)
  {
    if segments != [] {
      var front, last := segments[..|segments| - 1], segments[|segments| - 1];
      LengthsMatchRuns(front, state);
      assert segments == front + [last];
      TickRunsAppend(front, last);
      RunLengthsAppend(TickRuns(front), Run(last.state, Length(last.from, last.to)), state);
    }
  }

  lemma {:induction false} LongestMatchesRuns(segments: seq<Segment>)
    ensures Maximum(LengthsOf(segments, Down)) == Seconds(LongestDown(TickRuns(segments)))
  {
    if segments != [] {
      var front, last := segments[..|segments| - 1], segments[|segments| - 1];
      LongestMatchesRuns(front);
      assert segments == front + [last];
      TickRunsAppend(front, last);
      LongestDownAppend(TickRuns(front), Run(last.state, Length(last.from, last.to)));
      var lengths := LengthsOf(front, Down);
      var n := Seconds(last.to - last.from);
      assert (lengths + [n])[..|lengths|] == lengths;
      assert Maximum(lengths + [n]) == if n >= Maximum(lengths) then n else Maximum(lengths);
    }
  }

  lemma {:induction false} StateBeforeFirst(log: seq<TunnelTransition>, base: TunnelState, t: int)
    requires Chained(log, base) && (log != [] ==> t < log[0].changedAt)
    ensures StateAfter(log, base, t) == base
  {
    if log != [] {
      ChainTimesIncrease(log, base);
      StateBeforeFirst(log[..|log| - 1], base, t);
    }
  }

  /** The runs a list of segments stands for, when its last segment also owns the tick `end`. */
  function ClosedRuns(segments: seq<Segment>, end: int): seq<Run> {
    if segments == [] then []
    else if |segments| == 1 then [Run(segments[0].state, Length(segments[0].from, end + 1))]
    else [Run(segments[0].state, Length(segments[0].from, segments[0].to))] + ClosedRuns(segments[1..], end)
  }

  lemma {:induction false} ClosedRunsAppend(front: seq<Segment>, last: Segment, end: int)
    ensures ClosedRuns(front + [last], end) == TickRuns(front) + [Run(last.state, Length(last.from, end + 1))]
  {
    if front != [] {
      ClosedRunsAppend(front[1..], last, end);
      assert (front + [last])[1..] == front[1..] + [last];
    }
  }

  lemma {:induction false} LastSegmentEndsThePeriod(ordered: seq<TunnelTransition>, i: nat, state: TunnelState,
                                                    cursor: int,
                                                    start: int, end: int)
    requires cursor <= end
    ensures var s := Segments(ordered, i, state, cursor, start, end); s[|s| - 1].to == end && s[|s| - 1].from <= end
    decreases |ordered| - i
  {
    if i < |ordered| && (ordered[i].changedAt <= start || ordered[i].changedAt <= end) {
      LastSegmentEndsThePeriod(ordered, i + 1, ordered[i].newStatus,
                               if ordered[i].changedAt <= start then cursor else ordered[i].changedAt, start, end);
    }
  }

  /** From `from` to `to` the observed status is the one the log gives. */
  ghost predicate LogGivesStatus(log: seq<TunnelTransition>, base: TunnelState, obs: seq<Observation>, from: int,
                                 to: int) {
    forall t :: from <= t <= to ==> StatusAt(obs, t) == StateAfter(log, base, t)
  }

  lemma StepPastFirst(log: seq<TunnelTransition>, base: TunnelState, obs: seq<Observation>, from: int, to: int)
    requires log != [] && Chained(log, base) && LogGivesStatus(log, base, obs, from, to)
    requires from < log[0].changedAt <= to
    ensures Chained(log[1..], log[0].newStatus) && log[0].newStatus != base
    ensures |log| > 1 ==> log[0].changedAt < log[1].changedAt
    ensures LogGivesStatus(log[1..], log[0].newStatus, obs, log[0].changedAt, to)
    ensures StatusThroughout(obs, from, log[0].changedAt, base)
  {
    ChainSplits(log, base, 1);
    ChainTimesIncrease(log, base);
    assert log[..1] == [log[0]] && log[..1][..0] == [];
    forall t | log[0].changedAt <= t <= to ensures StatusAt(obs, t) == StateAfter(log[1..], log[0].newStatus, t) {
      SuffixGivesSameState(log, base, 1, t);
    }
    forall t | from <= t < log[0].changedAt ensures StatusAt(obs, t) == base {
      StateBeforeFirst(log, base, t);
    }
  }

  lemma OneStretch(log: seq<TunnelTransition>, base: TunnelState, obs: seq<Observation>, from: int, to: int)
    requires Chained(log, base) && LogGivesStatus(log, base, obs, from, to)
    requires log != [] ==> to < log[0].changedAt
    ensures StatusThroughout(obs, from, to + 1, base)
  {
    forall t | from <= t < to + 1 ensures StatusAt(obs, t) == base {
      StateBeforeFirst(log, base, t);
    }
  }

  lemma NextOpensRun(obs: seq<Observation>, lo: int, mid: int, at: int, state: TunnelState, next: TunnelState)
    requires lo <= mid < at && state != next
    requires StatusThroughout(obs, mid, at, state) && OpensRun(obs, lo, mid, state)
    ensures Runs(obs, lo, at) == Runs(obs, lo, mid) + [Run(state, at - mid)]
    ensures OpensRun(obs, lo, at, next)
  {
    ConstantStretchIsOneRun(obs, lo, mid, at, state);
  }

  lemma NextStretch(ordered: seq<TunnelTransition>, i: nat, state: TunnelState, cursor: int,
                    start: int, end: int, obs: seq<Observation>)
    requires i < |ordered| && start <= cursor < ordered[i].changedAt <= end
    requires Chained(ordered[i..], state) && LogGivesStatus(ordered[i..], state, obs, cursor, end)
    requires OpensRun(obs, start, cursor, state)
    ensures
      var at, next := ordered[i].changedAt, ordered[i].newStatus;
      && Chained(ordered[i + 1..], next) && LogGivesStatus(ordered[i + 1..], next, obs, at, end)
      && (i + 1 < |ordered| ==> at < ordered[i + 1].changedAt)
      && OpensRun(obs, start, at, next)
      && Runs(obs, start, at) == Runs(obs, start, cursor) + [Run(state, at - cursor)]
  {
    assert ordered[i..][1..] == ordered[i + 1..];
    StepPastFirst(ordered[i..], state, obs, cursor, end);
    NextOpensRun(obs, start, cursor, ordered[i].changedAt, state, ordered[i].newStatus);
  }

  lemma NextSegment(ordered: seq<TunnelTransition>, i: nat, state: TunnelState, cursor: int, start: int, end: int,
                    before: seq<Run>)
    requires i < |ordered| && start <= cursor < ordered[i].changedAt <= end
    ensures
      var at := ordered[i].changedAt;
      before + ClosedRuns(Segments(ordered, i, state, cursor, start, end), end)
      == before + [Run(state, at - cursor)]
          + ClosedRuns(Segments(ordered, i + 1, ordered[i].newStatus, at, start, end), end)
  {
    var at := ordered[i].changedAt;
    var rest := Segments(ordered, i + 1, ordered[i].newStatus, at, start, end);
    assert Segments(ordered, i, state, cursor, start, end) == [Segment(state, cursor, at)] + rest;
  }

  lemma {:induction false} SegmentsAreRuns(ordered: seq<TunnelTransition>, i: nat, state: TunnelState, cursor: int,
                                           start: int, end: int, obs: seq<Observation>)
    requires i <= |ordered| && start <= cursor <= end
    requires Chained(ordered[i..], state) && LogGivesStatus(ordered[i..], state, obs, cursor, end)
    requires i < |ordered| ==> cursor < ordered[i].changedAt
    requires OpensRun(obs, start, cursor, state)
    ensures Runs(obs, start, end + 1)
         == Runs(obs, start, cursor) + ClosedRuns(Segments(ordered, i, state, cursor, start, end), end)
    decreases |ordered| - i
  {
    if i == |ordered| || ordered[i].changedAt > end {
      OneStretch(ordered[i..], state, obs, cursor, end);
      ConstantStretchIsOneRun(obs, start, cursor, end + 1, state);
    } else {
      NextStretch(ordered, i, state, cursor, start, end, obs);
      SegmentsAreRuns(ordered, i + 1, ordered[i].newStatus, ordered[i].changedAt, start, end, obs);
      NextSegment(ordered, i, state, cursor, start, end, Runs(obs, start, cursor));
    }
  }

  /** Dropping the tick `end` gives the segments' own runs, but for a zero-length last one. */
  lemma RunsOfPeriod(front: seq<Segment>, last: Segment, start: int, end: int, obs: seq<Observation>)
    requires start <= end && last.to == end && last.from <= end
    requires Runs(obs, start, end + 1) == ClosedRuns(front + [last], end)
    ensures Runs(obs, start, end) == if last.from == end then TickRuns(front) else TickRuns(front + [last])
    ensures |Runs(obs, start, end + 1)| == |front| + 1 && EndedRuns(obs, start, end) == TickRuns(front)
  {
    ClosedRunsAppend(front, last, end);
    TickRunsAppend(front, last);
    TickRunsKeepsLength(front);
    DropLastTick(obs, start, end, TickRuns(front), Run(last.state, end + 1 - last.from));
  }

  lemma {:induction false} TickRunsKeepsLength(segments: seq<Segment>)
    ensures |TickRuns(segments)| == |segments|
  {
    if segments != [] {
      TickRunsKeepsLength(segments[1..]);
    }
  }

  /** A zero-length last segment counts for nothing. */
  lemma FiguresIgnoreEmptyLast(front: seq<Segment>, last: Segment, bucket: TunnelState)
    requires last.from <= last.to
    ensures SecondsIn(front + [last], bucket) == RunSeconds(TickRuns(front + [last]), bucket)
    ensures Maximum(LengthsOf(front + [last], Down)) == Seconds(LongestDown(TickRuns(front + [last])))
    ensures last.from == last.to ==>
              SecondsIn(front + [last], bucket) == RunSeconds(TickRuns(front), bucket)
              && Maximum(LengthsOf(front + [last], Down)) == Seconds(LongestDown(TickRuns(front)))
  {
    SecondsMatchRuns(front + [last], bucket);
    LongestMatchesRuns(front + [last]);
    TickRunsAppend(front, last);
    RunSecondsAppend(TickRuns(front), Run(last.state, Length(last.from, last.to)), bucket);
    LongestDownAppend(TickRuns(front), Run(last.state, Length(last.from, last.to)));
  }

  /** Metrics computed from a log that gives the observed status throughout the period agree
      with the observations. */
  lemma MetricsAgree(ordered: seq<TunnelTransition>, initial: TunnelState, start: int, end: int, obs: seq<Observation>,
                     threshold: int, windowSeconds: int)
    requires start <= end && SortedByTime(ordered)
    requires Runs(obs, start, end + 1) == ClosedRuns(Segments(ordered, 0, initial, start, start, end), end)
    ensures Agrees(MetricsOf(ordered, start, end, initial, threshold, windowSeconds), obs, start, end)
  {
    SortOfSortedIsIdentity(ordered);
    LastSegmentEndsThePeriod(ordered, 0, initial, start, start, end);
    var segments := Segments(ordered, 0, initial, start, start, end);
    var front, last := segments[..|segments| - 1], segments[|segments| - 1];
    assert segments == front + [last];
    RunsOfPeriod(front, last, start, end, obs);
    FiguresIgnoreEmptyLast(front, last, Up);
    FiguresIgnoreEmptyLast(front, last, Down);
    FiguresIgnoreEmptyLast(front, last, Unknown);
    LengthsMatchRuns(front, Up);
    LengthsMatchRuns(front, Down);
  }
}
