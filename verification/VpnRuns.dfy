/** Whole histories of one tunnel: observations at increasing times, with retention runs
    anywhere between them. The log is a suffix of the transitions of the observed step
    function, and the flap counters agree with their definitions. */
module VpnRuns {
  import opened Wrappers
  import opened Vpn
  import opened VpnObserved
  import opened VpnRepository

  datatype TunnelEvent = Seen(at: int, status: TunnelState) | Pruned(cutoff: int)

  function Step(view: TunnelView, e: TunnelEvent, flapThreshold: int, flapWindowSeconds: int): TunnelView {
    match e
    case Seen(at, status) => ObserveSnapshot(view, [status], at, flapThreshold, flapWindowSeconds)
    case Pruned(cutoff) => view.(log := Retained(view.log, cutoff))
  }

  /** What the tables hold after a history. */
  function After(events: seq<TunnelEvent>, flapThreshold: int, flapWindowSeconds: int): TunnelView {
    if events == [] then UNSEEN
    else Step(After(events[..|events| - 1], flapThreshold, flapWindowSeconds), events[|events| - 1], flapThreshold,
              flapWindowSeconds)
  }

  ghost function Observations(events: seq<TunnelEvent>): seq<Observation> {
    if events == [] then []
    else
      var earlier, last := Observations(events[..|events| - 1]), events[|events| - 1];
      if last.Seen? then earlier + [Observation(last.at, last.status)] else earlier
  }

  /** Every retention run of the history used a cutoff no later than `t`. */
  ghost predicate PrunedUpTo(events: seq<TunnelEvent>, t: int) {
    forall i :: 0 <= i < |events| && events[i].Pruned? ==> events[i].cutoff <= t
  }

  /** Some retention run of the history used a cutoff later than `t`. */
  ghost predicate PrunedPast(events: seq<TunnelEvent>, t: int) {
    exists i :: 0 <= i < |events| && events[i].Pruned? && t < events[i].cutoff
  }

  // ---------------------------------------------------------------- chains

  /** The status in force after a log that starts from `base`. */
  ghost function EndState(log: seq<TunnelTransition>, base: TunnelState): TunnelState {
    if log == [] then base else log[|log| - 1].newStatus
  }

  /** The time of the last change of a log, or `since` when it has none. */
  ghost function LastChange(log: seq<TunnelTransition>, since: int): int {
    if log == [] then since else log[|log| - 1].changedAt
  }

  /** Every transition starts where the one before it ended, changes the status, and is later. */
  ghost predicate Chained(log: seq<TunnelTransition>, base: TunnelState) {
    log != [] ==>
      var front, last := log[..|log| - 1], log[|log| - 1];
      && Chained(front, base)
      && last.previousStatus == EndState(front, base)
      && last.newStatus != last.previousStatus
      && (front != [] ==> front[|front| - 1].changedAt < last.changedAt)
  }

  /** Each recorded duration runs from the change before it. */
  ghost predicate DurationsMeasured(log: seq<TunnelTransition>, since: int) {
    log != [] ==>
      var front, last := log[..|log| - 1], log[|log| - 1];
      && DurationsMeasured(front, since)
      && last.durationInPreviousState == Some(Seconds(last.changedAt - LastChange(front, since)))
  }

  /** The status a log assigns to time `t`. */
  ghost function StateAfter(log: seq<TunnelTransition>, base: TunnelState, t: int): TunnelState {
    if log == [] then base
    else if log[|log| - 1].changedAt <= t then log[|log| - 1].newStatus
    else StateAfter(log[..|log| - 1], base, t)
  }

  /** One more observation: a change of status is added, with the time since the change before it. */
  ghost function WithChange(earlier: seq<TunnelTransition>, since: int, previous: TunnelState,
                            last: Observation): seq<TunnelTransition> {
    if previous == last.status then earlier
    else earlier + [TunnelTransition(previous, last.status, last.at,
                                     Some(Seconds(last.at - LastChange(earlier, since))))]
  }

  /** The changes of the observed status, in order. */
  ghost function TransitionsOf(obs: seq<Observation>): seq<TunnelTransition> {
    if |obs| < 2 then []
    else
      var front := obs[..|obs| - 1];
      WithChange(TransitionsOf(front), obs[0].at, front[|front| - 1].status, obs[|obs| - 1])
  }

  lemma {:induction false} ChainTimesIncrease(log: seq<TunnelTransition>, base: TunnelState)
    requires Chained(log, base)
    ensures forall i, j :: 0 <= i < j < |log| ==> log[i].changedAt < log[j].changedAt
  {
    if log != [] {
      ChainTimesIncrease(log[..|log| - 1], base);
    }
  }

  lemma ChainOrdered(log: seq<TunnelTransition>, base: TunnelState, i: nat, j: nat)
    requires Chained(log, base) && i < j < |log|
    ensures log[i].changedAt < log[j].changedAt
  {
    ChainTimesIncrease(log, base);
  }

  lemma {:induction false} ChainSplits(log: seq<TunnelTransition>, base: TunnelState, k: nat)
    requires Chained(log, base) && k <= |log|
    ensures Chained(log[..k], base)
    ensures Chained(log[k..], EndState(log[..k], base))
    ensures EndState(log[k..], EndState(log[..k], base)) == EndState(log, base)
  {
    if k < |log| {
      var front := log[..|log| - 1];
      ChainSplits(front, base, k);
      assert log[k..][..|log| - k - 1] == front[k..];
      assert front[..k] == log[..k];
    } else {
      assert log[..k] == log;
    }
  }

  lemma {:induction false} TransitionsAreChained(obs: seq<Observation>)
    requires obs != [] && Increasing(obs)
    ensures Chained(TransitionsOf(obs), obs[0].status)
    ensures EndState(TransitionsOf(obs), obs[0].status) == obs[|obs| - 1].status
    ensures obs[0].at <= LastChange(TransitionsOf(obs), obs[0].at) <= obs[|obs| - 1].at
  {
    if |obs| > 1 {
      TransitionsAreChained(obs[..|obs| - 1]);
      var earlier := TransitionsOf(obs[..|obs| - 1]);
      if TransitionsOf(obs) != earlier {
        assert TransitionsOf(obs)[..|earlier|] == earlier;
      }
    }
  }

  lemma ChangeIsMeasured(earlier: seq<TunnelTransition>, since: int, previous: TunnelState, last: Observation)
    requires DurationsMeasured(earlier, since)
    ensures DurationsMeasured(WithChange(earlier, since, previous, last), since)
  {
    var after := WithChange(earlier, since, previous, last);
    if previous != last.status {
      assert after[..|after| - 1] == earlier;
    }
  }

  lemma {:induction false} TransitionsMeasureDurations(obs: seq<Observation>)
    requires obs != []
    ensures DurationsMeasured(TransitionsOf(obs), obs[0].at)
  {
    if |obs| > 1 {
      var front := obs[..|obs| - 1];
      TransitionsMeasureDurations(front);
      ChangeIsMeasured(TransitionsOf(front), obs[0].at, front[|front| - 1].status, obs[|obs| - 1]);
    }
  }

  /** The observed changes, read as a step function, are the observed status. */
  lemma {:induction false} TransitionsFollow(obs: seq<Observation>, t: int)
    requires obs != [] && Increasing(obs) && obs[0].at <= t
    ensures StateAfter(TransitionsOf(obs), obs[0].status, t) == StatusAt(obs, t)
  {
    if |obs| > 1 {
      var front, last := obs[..|obs| - 1], obs[|obs| - 1];
      TransitionsFollow(front, t);
      TransitionsAreChained(front);
      var earlier := TransitionsOf(front);
      assert front[|front| - 1].at < last.at;
      if TransitionsOf(obs) != earlier {
        assert TransitionsOf(obs)[..|earlier|] == earlier;
      }
    }
  }

  /** A log read from its suffix gives the same status once the pruned prefix is past. */
  lemma {:induction false} SuffixGivesSameState(log: seq<TunnelTransition>, base: TunnelState, k: nat, t: int)
    requires Chained(log, base) && k <= |log|
    requires k > 0 ==> log[k - 1].changedAt <= t
    ensures StateAfter(log[k..], EndState(log[..k], base), t) == StateAfter(log, base, t)
  {
    if k < |log| {
      var front := log[..|log| - 1];
      SuffixGivesSameState(front, base, k, t);
      assert log[k..][..|log| - k - 1] == front[k..];
      assert front[..k] == log[..k];
    } else {
      assert log[..k] == log;
    }
  }

  // ---------------------------------------------------------------- retention keeps suffixes

  lemma {:induction false} RetainedIsSuffix(log: seq<TunnelTransition>, base: TunnelState, cutoff: int) returns (k: nat)
    requires Chained(log, base)
    ensures k <= |log| && Retained(log, cutoff) == log[k..]
    ensures k > 0 ==> log[k - 1].changedAt < cutoff
    ensures k < |log| ==> log[|log| - 1].changedAt >= cutoff
  {
    if log == [] {
      k := 0;
    } else {
      var front := log[..|log| - 1];
      k := RetainedIsSuffix(front, base, cutoff);
      if log[|log| - 1].changedAt < cutoff {
        assert k == |front|;
        k := |log|;
      } else {
        assert log[k..] == front[k..] + [log[|log| - 1]];
      }
    }
  }

  // ---------------------------------------------------------------- the row and the log

  /** When the tunnel was last observed in a state. */
  ghost function LastObserved(obs: seq<Observation>, status: TunnelState): Option<int> {
    if obs == [] then None
    else if obs[|obs| - 1].status == status then Some(obs[|obs| - 1].at)
    else LastObserved(obs[..|obs| - 1], status)
  }

  /** The row's status, times and counters, from the observations alone. */
  ghost predicate RowMatches(row: TunnelRow, obs: seq<Observation>)
    requires obs != []
  {
    && row.currentStatus == obs[|obs| - 1].status
    && row.firstSeenAt == obs[0].at
    && row.lastSeenAt == obs[|obs| - 1].at
    && row.stateChangedAt == LastChange(TransitionsOf(obs), obs[0].at)
    && row.transitionCount == |TransitionsOf(obs)|
    && row.lastUpAt == LastObserved(obs, Up) && row.lastDownAt == LastObserved(obs, Down)
  }

  lemma IncreasingFront(events: seq<TunnelEvent>)
    requires events != [] && Increasing(Observations(events))
    ensures Increasing(Observations(events[..|events| - 1]))
  {
    var earlier, now := Observations(events[..|events| - 1]), Observations(events);
    forall i, j | 0 <= i < j < |earlier| ensures earlier[i].at < earlier[j].at {
      assert now[i] == earlier[i] && now[j] == earlier[j];
    }
  }

  /** The row is the one the observations call for, and the log is the observed changes
      without the first `k`. */
  ghost predicate Records(view: TunnelView, obs: seq<Observation>, k: nat) {
    && k <= |TransitionsOf(obs)|
    && view.log == TransitionsOf(obs)[k..]
    && (if obs == [] then view.row.None? else view.row.Some? && RowMatches(view.row.value, obs))
  }

  lemma TransitionsOfNext(obs: seq<Observation>, at: int, status: TunnelState)
    requires obs != []
    ensures
      TransitionsOf(obs + [Observation(at, status)])
      == WithChange(TransitionsOf(obs), obs[0].at, obs[|obs| - 1].status, Observation(at, status))
  {
    var next := obs + [Observation(at, status)];
    assert next[..|next| - 1] == obs;
    assert next[|next| - 1] == Observation(at, status);
    assert next[0] == obs[0];
  }

  lemma LastChangeNext(log: seq<TunnelTransition>, last: TunnelTransition, since: int)
    ensures LastChange(log + [last], since) == last.changedAt
  {
  }

  lemma SeenRowMatches(row: TunnelRow, recent: nat, obs: seq<Observation>, at: int, status: TunnelState,
                       flapThreshold: int)
    requires obs != [] && RowMatches(row, obs)
    ensures
      var o := ObserveTunnel(Some(row), recent, status, at, flapThreshold);
      && RowMatches(o.row, obs + [Observation(at, status)])
      && TransitionsOf(obs + [Observation(at, status)])
         == if o.logged.Some? then TransitionsOf(obs) + [o.logged.value] else TransitionsOf(obs)
  {
    TransitionsOfNext(obs, at, status);
    assert (obs + [Observation(at, status)])[..|obs|] == obs;
    var o := ObserveTunnel(Some(row), recent, status, at, flapThreshold);
    if o.logged.Some? {
      LastChangeNext(TransitionsOf(obs), o.logged.value, obs[0].at);
    }
  }

  lemma FirstSeenMatches(obs: seq<Observation>, recent: nat, at: int, status: TunnelState, flapThreshold: int)
    requires obs == []
    ensures RowMatches(FirstRow(status, recent, at, flapThreshold), obs + [Observation(at, status)])
    ensures TransitionsOf(obs + [Observation(at, status)]) == []
  {
    assert (obs + [Observation(at, status)])[..0] == [];
  }

  lemma SeenKeepsRecords(view: TunnelView, obs: seq<Observation>, k: nat, at: int, status: TunnelState,
                         flapThreshold: int, flapWindowSeconds: int)
    requires Records(view, obs, k)
    ensures Records(ObserveSnapshot(view, [status], at, flapThreshold, flapWindowSeconds),
                    obs + [Observation(at, status)], k)
    ensures TransitionsOf(obs) <= TransitionsOf(obs + [Observation(at, status)])
  {
    ObserveOnce(view, status, at, flapThreshold, flapWindowSeconds);
    var recent := RecentCount(view.log, WindowStart(at, flapWindowSeconds));
    if obs == [] {
      FirstSeenMatches(obs, recent, at, status, flapThreshold);
    } else {
      var o := ObserveTunnel(view.row, recent, status, at, flapThreshold);
      SeenRowMatches(view.row.value, recent, obs, at, status, flapThreshold);
      if o.logged.Some? {
        DropFromLonger(TransitionsOf(obs), o.logged.value, k);
      }
    }
  }

  lemma DropFromLonger(log: seq<TunnelTransition>, last: TunnelTransition, k: nat)
    requires k <= |log|
    ensures (log + [last])[k..] == log[k..] + [last]
  {
  }

  /** The tables record the events: their first `k` logged changes are pruned, past some cutoff. */
  ghost predicate Fits(events: seq<TunnelEvent>, k: nat, flapThreshold: int, flapWindowSeconds: int) {
    && Records(After(events, flapThreshold, flapWindowSeconds), Observations(events), k)
    && (k > 0 ==> PrunedPast(events, TransitionsOf(Observations(events))[k - 1].changedAt))
  }

  lemma SeenKeepsFit(events: seq<TunnelEvent>, k: nat, flapThreshold: int, flapWindowSeconds: int)
    requires events != [] && events[|events| - 1].Seen?
    requires Fits(events[..|events| - 1], k, flapThreshold, flapWindowSeconds)
    ensures Fits(events, k, flapThreshold, flapWindowSeconds)
  {
    var front, last := events[..|events| - 1], events[|events| - 1];
    var obs := Observations(front);
    if k > 0 {
      PrunedPastEarlier(events, TransitionsOf(obs)[k - 1].changedAt);
    }
    SeenKeepsRecords(After(front, flapThreshold, flapWindowSeconds), obs, k, last.at, last.status, flapThreshold,
                     flapWindowSeconds);
  }

  lemma PruneKeepsFit(events: seq<TunnelEvent>, k: nat, flapThreshold: int, flapWindowSeconds: int) returns (j: nat)
    requires events != [] && events[|events| - 1].Pruned? && Increasing(Observations(events))
    requires Fits(events[..|events| - 1], k, flapThreshold, flapWindowSeconds)
    ensures Fits(events, j, flapThreshold, flapWindowSeconds)
  {
    var front, last := events[..|events| - 1], events[|events| - 1];
    var obs := Observations(front);
    var d := PruneKeepsRecords(After(front, flapThreshold, flapWindowSeconds), obs, k, last.cutoff);
    j := k + d;
    if d > 0 {
      PrunedPastNow(events, TransitionsOf(obs)[j - 1].changedAt);
    } else if k > 0 {
      PrunedPastEarlier(events, TransitionsOf(obs)[k - 1].changedAt);
    }
  }

  /** In every reachable state the row is the one the observations call for, and the log is
      the observed changes with a prefix pruned away, older than some cutoff used. */
  lemma {:induction false} HistoryMeaning(events: seq<TunnelEvent>, flapThreshold: int, flapWindowSeconds: int)
    returns (k: nat)
    requires Increasing(Observations(events))
    ensures Records(After(events, flapThreshold, flapWindowSeconds), Observations(events), k)
    ensures k > 0 ==> PrunedPast(events, TransitionsOf(Observations(events))[k - 1].changedAt)
  {
    if events == [] {
      k := 0;
    } else {
      IncreasingFront(events);
      k := HistoryMeaning(events[..|events| - 1], flapThreshold, flapWindowSeconds);
      if events[|events| - 1].Seen? {
        SeenKeepsFit(events, k, flapThreshold, flapWindowSeconds);
      } else {
        k := PruneKeepsFit(events, k, flapThreshold, flapWindowSeconds);
      }
    }
  }

  lemma PrunedPastEarlier(events: seq<TunnelEvent>, at: int)
    requires events != [] && PrunedPast(events[..|events| - 1], at)
    ensures PrunedPast(events, at)
  {
    var front := events[..|events| - 1];
    var i :| 0 <= i < |front| && front[i].Pruned? && at < front[i].cutoff;
    assert events[i] == front[i];
  }

  lemma PrunedPastNow(events: seq<TunnelEvent>, at: int)
    requires events != [] && events[|events| - 1].Pruned? && at < events[|events| - 1].cutoff
    ensures PrunedPast(events, at)
  {
  }

  lemma PruneSuffix(all: seq<TunnelTransition>, base: TunnelState, k: nat, cutoff: int) returns (d: nat)
    requires Chained(all, base) && k <= |all|
    ensures k + d <= |all| && Retained(all[k..], cutoff) == all[k + d..]
    ensures d > 0 ==> all[k + d - 1].changedAt < cutoff
  {
    ChainSplits(all, base, k);
    d := RetainedIsSuffix(all[k..], EndState(all[..k], base), cutoff);
    assert all[k..][d..] == all[k + d..];
  }

  lemma PruneKeepsRecords(view: TunnelView, obs: seq<Observation>, k: nat, cutoff: int) returns (d: nat)
    requires Records(view, obs, k) && Increasing(obs)
    ensures Records(view.(log := Retained(view.log, cutoff)), obs, k + d)
    ensures d > 0 ==> TransitionsOf(obs)[k + d - 1].changedAt < cutoff
  {
    if obs == [] {
      d := 0;
    } else {
      TransitionsAreChained(obs);
      d := PruneSuffix(TransitionsOf(obs), obs[0].status, k, cutoff);
    }
  }

  lemma {:induction false} SuffixMeasuresDurations(log: seq<TunnelTransition>, since: int, k: nat)
    requires DurationsMeasured(log, since) && k <= |log|
    ensures DurationsMeasured(log[k..], LastChange(log[..k], since))
  {
    if k < |log| {
      var front := log[..|log| - 1];
      SuffixMeasuresDurations(front, since, k);
      assert log[k..][..|log| - k - 1] == front[k..];
      assert front[..k] == log[..k];
    }
  }

  /** The log is always a chain that ends in the current status; without pruning it holds
      exactly the transitions the row counts, the first measured from the first sighting. */
  lemma LogIsAChain(events: seq<TunnelEvent>, flapThreshold: int, flapWindowSeconds: int)
    returns (base: TunnelState, since: int)
    requires Increasing(Observations(events)) && Observations(events) != []
    ensures
      var view := After(events, flapThreshold, flapWindowSeconds);
      && view.row.Some?
      && Chained(view.log, base)
      && EndState(view.log, base) == view.row.value.currentStatus
      && DurationsMeasured(view.log, since)
      && |view.log| <= view.row.value.transitionCount
      && ((forall i :: 0 <= i < |events| ==> events[i].Seen?) ==>
            |view.log| == view.row.value.transitionCount && since == view.row.value.firstSeenAt)
  {
    var k := HistoryMeaning(events, flapThreshold, flapWindowSeconds);
    var obs := Observations(events);
    var all := TransitionsOf(obs);
    TransitionsAreChained(obs);
    TransitionsMeasureDurations(obs);
    ChainSplits(all, obs[0].status, k);
    SuffixMeasuresDurations(all, obs[0].at, k);
    base := EndState(all[..k], obs[0].status);
    since := LastChange(all[..k], obs[0].at);
  }

  ghost function SumOfDurations(log: seq<TunnelTransition>): nat {
    if log == [] then 0
    else
      var last := log[|log| - 1];
      SumOfDurations(log[..|log| - 1]) + if last.durationInPreviousState.Some? then last.durationInPreviousState.value
          else 0
  }

  /** At whole-second times the recorded durations telescope to the time since `since`. */
  lemma {:induction false} DurationsTelescope(log: seq<TunnelTransition>, base: TunnelState, since: int)
    requires DurationsMeasured(log, since) && Chained(log, base)
    requires forall j :: 0 <= j < |log| ==>
               since < log[j].changedAt && (log[j].changedAt - since) % MICROS_PER_SECOND == 0
    ensures SumOfDurations(log) * MICROS_PER_SECOND == LastChange(log, since) - since
  {
    if log != [] {
      var front, last := log[..|log| - 1], log[|log| - 1];
      DurationsTelescope(front, base, since);
      var gap := last.changedAt - LastChange(front, since);
      assert gap % MICROS_PER_SECOND == 0 && gap > 0;
      assert Seconds(gap) * MICROS_PER_SECOND == gap;
    }
  }
}
