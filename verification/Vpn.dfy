/** Tunnel states, transitions, flap detection and availability metrics
    (backend/app/monitoring/vpn.py). Timestamps are whole microseconds, the resolution of
    a Python datetime; durations are truncated to whole seconds as the source does. */
module Vpn {
  import opened Wrappers

  const MICROS_PER_SECOND := 1_000_000

  datatype TunnelState = Up | Down | Unknown | Degraded | Flapping

  datatype TunnelTransition = TunnelTransition(
    previousStatus: TunnelState,
    newStatus: TunnelState,
    changedAt: int,
    durationInPreviousState: Option<nat>)

  datatype ServiceMetrics = ServiceMetrics(
    upSeconds: nat,
    downSeconds: nat,
    unknownSeconds: nat,
    transitionCount: nat,
    longestOutageSeconds: nat,
    completedUpSegments: seq<nat>,
    completedDownSegments: seq<nat>,
    flapping: bool)

  datatype MetricsError = PeriodEndBeforeStart

  /** The text stored for a state. */
  function StateName(state: TunnelState): string {
    match state
    case Up => "UP"
    case Down => "DOWN"
    case Unknown => "UNKNOWN"
    case Degraded => "DEGRADED"
    case Flapping => "FLAPPING"
  }

  /** The state a status text stands for; `text` is already stripped and upper-cased. */
  function NormalizeTunnelState(text: string): TunnelState {
    if text in ["UP", "TUNNEL_UP", "ACTIVE"] then Up
    else if text in ["DOWN", "TUNNEL_DOWN", "INACTIVE"] then Down
    else if text == "DEGRADED" then Degraded
    else if text == "FLAPPING" then Flapping
    else Unknown
  }

  /** A stored status reads back as the state it was written for, so the rows below keep
      states instead of their names. */
  lemma StoredStateReadsBack(state: TunnelState)
    ensures NormalizeTunnelState(StateName(state)) == state
  {
    assert StateName(state)[0] == 'U' ==> |StateName(state)| == 2 || state == Unknown;
    assert state == Unknown ==> |StateName(state)| == 7;
  }

  /** What the firewall manager calls a tunnel that is up or down. */
  function Reported(state: TunnelState): string {
    "TUNNEL_" + StateName(state)
  }

  /** A text reads as a state other than UNKNOWN exactly when it is that state's stored name, or, for
      UP and DOWN, that name with TUNNEL_ in front, or one of the words ACTIVE and INACTIVE. */
  lemma VocabularyIsExact(text: string, state: TunnelState)
    requires state != Unknown
    ensures NormalizeTunnelState(text) == state
       <==> || text == StateName(state)
            || (state in {Up, Down} && text == Reported(state))
            || (state == Up && text == "ACTIVE") || (state == Down && text == "INACTIVE")
  {
    assert Reported(Up) == "TUNNEL_UP" && Reported(Down) == "TUNNEL_DOWN";
  }

  /** max(0, int(timedelta.total_seconds())). */
  function Seconds(micros: int): nat {
    if micros <= 0 then 0 else micros / MICROS_PER_SECOND
  }

  function Bucket(state: TunnelState): TunnelState {
    if state == Up then Up else if state == Down then Down else Unknown
  }

  function DetectTransition(previous: TunnelState, observed: TunnelState, changedAt: int,
                            previousChangedAt: Option<int>): Option<TunnelTransition>
  {
    if previous == observed then None
    else Some(TunnelTransition(
                previous, observed, changedAt,
                match previousChangedAt
                case None => None
                case Some(since) => Some(Seconds(changedAt - since))))
  }

  /** Transitions with lo <= changedAt <= hi. */
  function Between(transitions: seq<TunnelTransition>, lo: int, hi: int): seq<TunnelTransition> {
    if transitions == [] then []
    else
      (if lo <= transitions[0].changedAt <= hi then [transitions[0]] else [])
      + Between(transitions[1..], lo, hi)
  }

  lemma {:induction false} BetweenAppend(log: seq<TunnelTransition>, t: TunnelTransition, lo: int, hi: int)
    ensures Between(log + [t], lo, hi) == Between(log, lo, hi) + if lo <= t.changedAt <= hi then [t] else []
  {
    if log != [] {
      BetweenAppend(log[1..], t, lo, hi);
      assert (log + [t])[1..] == log[1..] + [t];
    }
  }

  predicate IsFlapping(transitions: seq<TunnelTransition>, threshold: int, windowSeconds: int, at: int) {
    threshold <= 0
    || |Between(transitions, at - Max(1, windowSeconds) * MICROS_PER_SECOND, at)| >= threshold
  }

  // ---------------------------------------------------------------- ordering by time

  ghost predicate SortedByTime(transitions: seq<TunnelTransition>) {
    forall i, j :: 0 <= i < j < |transitions| ==> transitions[i].changedAt <= transitions[j].changedAt
  }

  function InsertByTime(t: TunnelTransition, sorted: seq<TunnelTransition>): seq<TunnelTransition> {
    if sorted == [] || t.changedAt <= sorted[0].changedAt then [t] + sorted
    else [sorted[0]] + InsertByTime(t, sorted[1..])
  }

  /** Python's sorted(transitions, key=changed_at): a stable sort. */
  function SortByTime(transitions: seq<TunnelTransition>): seq<TunnelTransition> {
    if transitions == [] then [] else InsertByTime(transitions[0], SortByTime(transitions[1..]))
  }

  lemma {:induction false} InsertKeepsElements(t: TunnelTransition, sorted: seq<TunnelTransition>)
    ensures multiset(InsertByTime(t, sorted)) == multiset{t} + multiset(sorted)
  {
    if sorted != [] && t.changedAt > sorted[0].changedAt {
      InsertKeepsElements(t, sorted[1..]);
      assert sorted == [sorted[0]] + sorted[1..];
    }
  }

  lemma {:induction false} InsertKeepsSorted(t: TunnelTransition, sorted: seq<TunnelTransition>)
    requires SortedByTime(sorted)
    ensures SortedByTime(InsertByTime(t, sorted))
    ensures InsertByTime(t, sorted) != []
    ensures InsertByTime(t, sorted)[0].changedAt
         == if sorted == [] || t.changedAt <= sorted[0].changedAt then t.changedAt else sorted[0].changedAt
  {
    if sorted != [] && t.changedAt > sorted[0].changedAt {
      InsertKeepsSorted(t, sorted[1..]);
    }
  }

  lemma {:induction false} InsertKeepsTies(t: TunnelTransition, sorted: seq<TunnelTransition>, at: int)
    ensures Between(InsertByTime(t, sorted), at, at)
         == (if t.changedAt == at then [t] else []) + Between(sorted, at, at)
  {
    if sorted == [] || t.changedAt <= sorted[0].changedAt {
      assert ([t] + sorted)[1..] == sorted;
    } else {
      InsertKeepsTies(t, sorted[1..], at);
      assert ([sorted[0]] + InsertByTime(t, sorted[1..]))[1..] == InsertByTime(t, sorted[1..]);
    }
  }

  lemma {:induction false} SortOrders(transitions: seq<TunnelTransition>)
    ensures SortedByTime(SortByTime(transitions))
  {
    if transitions != [] {
      SortOrders(transitions[1..]);
      InsertKeepsSorted(transitions[0], SortByTime(transitions[1..]));
    }
  }

  /** The sort keeps every transition, and keeps the order of ties. */
  lemma {:induction false} SortIsStable(transitions: seq<TunnelTransition>, at: int)
    ensures multiset(SortByTime(transitions)) == multiset(transitions)
    ensures Between(SortByTime(transitions), at, at) == Between(transitions, at, at)
  {
    if transitions != [] {
      SortIsStable(transitions[1..], at);
      InsertKeepsElements(transitions[0], SortByTime(transitions[1..]));
      InsertKeepsTies(transitions[0], SortByTime(transitions[1..]), at);
      assert transitions == [transitions[0]] + transitions[1..];
    }
  }

  lemma {:induction false} SortOfSortedIsIdentity(transitions: seq<TunnelTransition>)
    requires SortedByTime(transitions)
    ensures SortByTime(transitions) == transitions
  {
    if transitions != [] {
      SortOfSortedIsIdentity(transitions[1..]);
      assert |transitions| > 1 ==> transitions[0].changedAt <= transitions[1].changedAt;
    }
  }

  // ---------------------------------------------------------------- segments of a period

  /** A stretch of the period during which the tunnel is taken to be in one state. */
  datatype Segment = Segment(state: TunnelState, from: int, to: int)

  /** The segments into which the time-ordered transitions from index `i` on cut [cursor, end];
      transitions at or before `start` only set the state. */
  function Segments(ordered: seq<TunnelTransition>, i: nat, state: TunnelState, cursor: int, start: int,
                    end: int): (segments: seq<Segment>)
    ensures |segments| > 0
    decreases |ordered| - i
  {
    if i >= |ordered| || (ordered[i].changedAt > start && ordered[i].changedAt > end) then
      [Segment(state, cursor, end)]
    else if ordered[i].changedAt <= start then
      Segments(ordered, i + 1, ordered[i].newStatus, cursor, start, end)
    else
      [Segment(state, cursor, ordered[i].changedAt)]
      + Segments(ordered, i + 1, ordered[i].newStatus, ordered[i].changedAt, start, end)
  }

  /** Whole seconds credited to a bucket: each segment is truncated on its own. */
  function SecondsIn(segments: seq<Segment>, bucket: TunnelState): nat {
    if segments == [] then 0
    else
      var last := segments[|segments| - 1];
      SecondsIn(segments[..|segments| - 1], bucket)
      + if Bucket(last.state) == bucket then Seconds(last.to - last.from) else 0
  }

  /** The truncated lengths of the segments in one state, in order. */
  function LengthsOf(segments: seq<Segment>, state: TunnelState): seq<nat> {
    if segments == [] then []
    else
      var last := segments[|segments| - 1];
      var earlier := LengthsOf(segments[..|segments| - 1], state);
      if last.state == state then earlier + [Seconds(last.to - last.from)] else earlier
  }

  function Maximum(values: seq<nat>): (m: nat)
    ensures forall v :: v in values ==> v <= m
    ensures if values == [] then m == 0 else m in values
  {
    if values == [] then 0
    else
      var rest := Maximum(values[..|values| - 1]);
      assert values == values[..|values| - 1] + [values[|values| - 1]];
      if values[|values| - 1] >= rest then values[|values| - 1] else rest
  }

  /** What calculate_service_metrics reports, read off the segments of the period. */
  function MetricsOf(transitions: seq<TunnelTransition>, start: int, end: int, initial: TunnelState,
                     threshold: int, windowSeconds: int): ServiceMetrics
  {
    var ordered := SortByTime(transitions);
    var segments := Segments(ordered, 0, initial, start, start, end);
    var completed := segments[..|segments| - 1];
    ServiceMetrics(
      SecondsIn(segments, Up),
      SecondsIn(segments, Down),
      SecondsIn(segments, Unknown),
      |segments| - 1,
      Maximum(LengthsOf(segments, Down)),
      LengthsOf(completed, Up),
      LengthsOf(completed, Down),
      IsFlapping(Between(ordered, start + 1, end), threshold, windowSeconds, end))
  }

  lemma {:induction false} SegmentsCountTransitions(
      ordered: seq<TunnelTransition>, i: nat, state: TunnelState, cursor: int, start: int, end: int)
    requires SortedByTime(ordered) && start <= end && i <= |ordered|
    ensures |Segments(ordered, i, state, cursor, start, end)| == 1 + |Between(ordered[i..], start + 1, end)|
    decreases |ordered| - i
  {
    if i == |ordered| {
    } else if ordered[i].changedAt > end {
      NothingLater(ordered[i..], start + 1, end);
    } else {
      assert ordered[i..][1..] == ordered[i + 1..];
      SegmentsCountTransitions(ordered, i + 1, ordered[i].newStatus,
                               if ordered[i].changedAt <= start then cursor else ordered[i].changedAt, start, end);
    }
  }

  lemma {:induction false} NothingLater(ordered: seq<TunnelTransition>, lo: int, hi: int)
    requires forall i :: 0 <= i < |ordered| ==> ordered[i].changedAt > hi
    ensures Between(ordered, lo, hi) == []
  {
    if ordered != [] {
      NothingLater(ordered[1..], lo, hi);
    }
  }

  /** Running totals over the segments closed so far. */
  datatype Tally = Tally(up: nat, down: nat, unknown: nat, upLengths: seq<nat>, downLengths: seq<nat>)

  const NOTHING_TALLIED := Tally(0, 0, 0, [], [])

  function AddSegment(t: Tally, state: TunnelState, n: nat): Tally {
    match state
    case Up => t.(up := t.up + n, upLengths := t.upLengths + [n])
    case Down => t.(down := t.down + n, downLengths := t.downLengths + [n])
    case _ => t.(unknown := t.unknown + n)
  }

  function TallyOf(done: seq<Segment>): Tally {
    if done == [] then NOTHING_TALLIED
    else
      var last := done[|done| - 1];
      AddSegment(TallyOf(done[..|done| - 1]), last.state, Seconds(last.to - last.from))
  }

  lemma {:induction false} TallyMeaning(done: seq<Segment>)
    ensures TallyOf(done).up == SecondsIn(done, Up)
    ensures TallyOf(done).down == SecondsIn(done, Down)
    ensures TallyOf(done).unknown == SecondsIn(done, Unknown)
    ensures TallyOf(done).upLengths == LengthsOf(done, Up) && TallyOf(done).downLengths == LengthsOf(done, Down)
  {
    if done != [] {
      TallyMeaning(done[..|done| - 1]);
    }
  }

  /** Where the loop stops: the tallied segments and the one still open. */
  datatype Walked = Walked(closed: Tally, state: TunnelState, cursor: int)

  function Walk(ordered: seq<TunnelTransition>, i: nat, state: TunnelState, cursor: int, start: int, end: int,
                t: Tally): Walked
    decreases |ordered| - i
  {
    if i >= |ordered| || (ordered[i].changedAt > start && ordered[i].changedAt > end) then
      Walked(t, state, cursor)
    else if ordered[i].changedAt <= start then
      Walk(ordered, i + 1, ordered[i].newStatus, cursor, start, end, t)
    else
      Walk(ordered, i + 1, ordered[i].newStatus, ordered[i].changedAt, start, end,
           AddSegment(t, state, Seconds(ordered[i].changedAt - cursor)))
  }

  /** The walk tallies every segment but the last, which it leaves open. */
  lemma {:induction false} WalkMeaning(done: seq<Segment>, ordered: seq<TunnelTransition>, i: nat, state: TunnelState,
                                       cursor: int, start: int, end: int)
    returns (closed: seq<Segment>)
    ensures
      var w := Walk(ordered, i, state, cursor, start, end, TallyOf(done));
      done + Segments(ordered, i, state, cursor, start, end) == closed + [Segment(w.state, w.cursor, end)]
      && w.closed == TallyOf(closed)
    decreases |ordered| - i
  {
    if i >= |ordered| || (ordered[i].changedAt > start && ordered[i].changedAt > end) {
      closed := done;
    } else if ordered[i].changedAt <= start {
      closed := WalkMeaning(done, ordered, i + 1, ordered[i].newStatus, cursor, start, end);
    } else {
      var at := ordered[i].changedAt;
      closed := WalkMeaning(done + [Segment(state, cursor, at)], ordered, i + 1, ordered[i].newStatus, at, start, end);
      assert done + ([Segment(state, cursor, at)] + Segments(ordered, i + 1, ordered[i].newStatus, at, start, end))
          == done + [Segment(state, cursor, at)] + Segments(ordered, i + 1, ordered[i].newStatus, at, start, end);
    }
  }

  /** The figures, once the walk's open segment is closed at the end of the period. */
  function MetricsOfWalk(ordered: seq<TunnelTransition>, w: Walked, start: int, end: int, threshold: int,
                         windowSeconds: int): ServiceMetrics
  {
    var t := AddSegment(w.closed, w.state, Seconds(end - w.cursor));
    ServiceMetrics(t.up, t.down, t.unknown, |Between(ordered, start + 1, end)|, Maximum(t.downLengths),
                   w.closed.upLengths, w.closed.downLengths,
                   IsFlapping(Between(ordered, start + 1, end), threshold, windowSeconds, end))
  }

  lemma WalkTotals(ordered: seq<TunnelTransition>, initial: TunnelState, start: int, end: int)
    returns (closed: seq<Segment>)
    ensures
      var w := Walk(ordered, 0, initial, start, start, end, NOTHING_TALLIED);
      var all := Segments(ordered, 0, initial, start, start, end);
      && all == closed + [Segment(w.state, w.cursor, end)]
      && w.closed == TallyOf(closed)
      && AddSegment(w.closed, w.state, Seconds(end - w.cursor)) == TallyOf(all)
  {
    var w := Walk(ordered, 0, initial, start, start, end, NOTHING_TALLIED);
    closed := WalkMeaning([], ordered, 0, initial, start, start, end);
    var all := Segments(ordered, 0, initial, start, start, end);
    assert [] + all == all;
  }

  lemma AssembleMetrics(transitions: seq<TunnelTransition>, start: int, end: int, initial: TunnelState,
                        threshold: int, windowSeconds: int)
    requires start <= end
    ensures
      var ordered := SortByTime(transitions);
      MetricsOf(transitions, start, end, initial, threshold, windowSeconds)
      == MetricsOfWalk(ordered, Walk(ordered, 0, initial, start, start, end, NOTHING_TALLIED), start, end, threshold,
                       windowSeconds)
  {
    var ordered := SortByTime(transitions);
    var closed := WalkTotals(ordered, initial, start, end);
    var all := Segments(ordered, 0, initial, start, start, end);
    assert all[..|all| - 1] == closed;
    SortOrders(transitions);
    SegmentsCountTransitions(ordered, 0, initial, start, start, end);
    assert ordered[0..] == ordered;
    TallyMeaning(closed);
    TallyMeaning(all);
  }

  /** The loop of calculate_service_metrics: where it stops and what it has added up by then. */
  method WalkTransitions(ordered: seq<TunnelTransition>, initial: TunnelState, periodStart: int, periodEnd: int)
    returns (closed: Tally, state: TunnelState, cursor: int)
    ensures Walked(closed, state, cursor)
        == Walk(ordered, 0, initial, periodStart, periodStart, periodEnd, NOTHING_TALLIED)
  {
    state, cursor := initial, periodStart;
    var up: nat, down: nat, unknown: nat := 0, 0, 0;
    var completedUp: seq<nat>, completedDown: seq<nat> := [], [];
    var i := 0;
    while i < |ordered|
      invariant 0 <= i <= |ordered|
      invariant Walk(ordered, i, state, cursor, periodStart, periodEnd,
                     Tally(up, down, unknown, completedUp, completedDown))
             == Walk(ordered, 0, initial, periodStart, periodStart, periodEnd, NOTHING_TALLIED)
    {
      var transition := ordered[i];
      if transition.changedAt <= periodStart {
        state := transition.newStatus;
        i := i + 1;
        continue;
      }
      if transition.changedAt > periodEnd {
        break;
      }
      var segment := Seconds(transition.changedAt - cursor);
      var bucket := Bucket(state);
      if bucket == Up {
        up := up + segment;
      } else if bucket == Down {
        down := down + segment;
      } else {
        unknown := unknown + segment;
      }
      if state == Up {
        completedUp := completedUp + [segment];
      } else if state == Down {
        completedDown := completedDown + [segment];
      }
      state := transition.newStatus;
      cursor := transition.changedAt;
      i := i + 1;
    }
    closed := Tally(up, down, unknown, completedUp, completedDown);
  }

  /** What follows the loop: the last segment is counted, but is no completed one. */
  method CloseLastSegment(ordered: seq<TunnelTransition>, closed: Tally, state: TunnelState, cursor: int,
                          periodStart: int, periodEnd: int, flapThreshold: int, flapWindowSeconds: int)
    returns (metrics: ServiceMetrics)
    ensures metrics == MetricsOfWalk(ordered, Walked(closed, state, cursor), periodStart, periodEnd, flapThreshold,
                                     flapWindowSeconds)
  {
    var up, down, unknown, allDown := closed.up, closed.down, closed.unknown, closed.downLengths;
    var finalSegment := Seconds(periodEnd - cursor);
    var bucket := Bucket(state);
    if bucket == Up {
      up := up + finalSegment;
    } else if bucket == Down {
      down := down + finalSegment;
    } else {
      unknown := unknown + finalSegment;
    }
    if state == Down {
      allDown := allDown + [finalSegment];
    }
    ghost var t := AddSegment(closed, state, finalSegment);
    assert up == t.up && down == t.down && unknown == t.unknown && allDown == t.downLengths;
    var inPeriod := Between(ordered, periodStart + 1, periodEnd);
    var flapping := IsFlapping(inPeriod, flapThreshold, flapWindowSeconds, periodEnd);
    metrics := ServiceMetrics(up, down, unknown, |inPeriod|, Maximum(allDown), closed.upLengths, closed.downLengths,
                              flapping);
  }

  /** calculate_service_metrics. */
  method CalculateServiceMetrics(transitions: seq<TunnelTransition>, periodStart: int, periodEnd: int,
                                 initial: TunnelState, flapThreshold: int, flapWindowSeconds: int)
    returns (r: Result<ServiceMetrics, MetricsError>)
    ensures periodEnd < periodStart ==> r == Err(PeriodEndBeforeStart)
    ensures periodEnd >= periodStart ==>
              r == Ok(MetricsOf(transitions, periodStart, periodEnd, initial, flapThreshold, flapWindowSeconds))
  {
    if periodEnd < periodStart {
      return Err(PeriodEndBeforeStart);
    }
    AssembleMetrics(transitions, periodStart, periodEnd, initial, flapThreshold, flapWindowSeconds);
    var ordered := SortByTime(transitions);
    var closed, state, cursor := WalkTransitions(ordered, initial, periodStart, periodEnd);
    var metrics := CloseLastSegment(ordered, closed, state, cursor, periodStart, periodEnd, flapThreshold,
                                    flapWindowSeconds);
    r := Ok(metrics);
  }
}
