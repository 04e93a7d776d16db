/** What the availability figures mean: the step function "status at the latest observation
    no later than t", cut tick by tick into maximal runs. Nothing here looks at the log. */
module VpnObserved {
  import opened Wrappers
  import opened Vpn

  datatype Observation = Observation(at: int, status: TunnelState)

  ghost predicate Increasing(obs: seq<Observation>) {
    forall i, j :: 0 <= i < j < |obs| ==> obs[i].at < obs[j].at
  }

  /** The status at the latest observation no later than `t`. */
  ghost function StatusAt(obs: seq<Observation>, t: int): TunnelState {
    if obs == [] then Unknown
    else if obs[|obs| - 1].at <= t then obs[|obs| - 1].status
    else StatusAt(obs[..|obs| - 1], t)
  }

  /** A maximal stretch of ticks with one status. */
  datatype Run = Run(state: TunnelState, ticks: nat)

  ghost function ExtendRuns(runs: seq<Run>, state: TunnelState): seq<Run> {
    if runs != [] && runs[|runs| - 1].state == state then
      runs[..|runs| - 1] + [Run(state, runs[|runs| - 1].ticks + 1)]
    else
      runs + [Run(state, 1)]
  }

  /** The runs of the step function over the ticks lo <= t < hi. */
  ghost function Runs(obs: seq<Observation>, lo: int, hi: int): seq<Run>
    decreases hi - lo
  {
    if hi <= lo then [] else ExtendRuns(Runs(obs, lo, hi - 1), StatusAt(obs, hi - 1))
  }

  /** Whether a status is credited to a bucket: UP and DOWN to their own, any other to UNKNOWN. */
  predicate CountsAs(state: TunnelState, bucket: TunnelState) {
    match bucket
    case Up => state == Up
    case Down => state == Down
    case Unknown => state !in {Up, Down}
    case _ => false
  }

  /** Whole seconds of the runs in a bucket, each run truncated as a datetime difference is. */
  ghost function RunSeconds(runs: seq<Run>, bucket: TunnelState): nat {
    if runs == [] then 0
    else
      (if CountsAs(runs[0].state, bucket) then Seconds(runs[0].ticks) else 0) + RunSeconds(runs[1..], bucket)
  }

  /** The number of ticks lo <= t < hi whose status lies in a bucket. */
  ghost function TicksIn(obs: seq<Observation>, lo: int, hi: int, bucket: TunnelState): nat
    decreases hi - lo
  {
    if hi <= lo then 0
    else TicksIn(obs, lo, hi - 1, bucket) + if CountsAs(StatusAt(obs, hi - 1), bucket) then 1 else 0
  }

  ghost predicate StatusThroughout(obs: seq<Observation>, a: int, b: int, state: TunnelState) {
    forall t :: a <= t < b ==> StatusAt(obs, t) == state
  }

  ghost predicate DownThroughout(obs: seq<Observation>, a: int, b: int) {
    StatusThroughout(obs, a, b, Down)
  }

  /** A tick of status `state` at `mid` would open a new run. */
  ghost predicate OpensRun(obs: seq<Observation>, lo: int, mid: int, state: TunnelState) {
    var before := Runs(obs, lo, mid);
    before == [] || before[|before| - 1].state != state
  }

  /** `ticks` is the length of the longest outage within [lo, hi). */
  ghost predicate IsLongestOutage(obs: seq<Observation>, lo: int, hi: int, ticks: int) {
    && (forall a, b :: lo <= a <= b <= hi && DownThroughout(obs, a, b) ==> b - a <= ticks)
    && (exists a, b :: lo <= a <= b <= hi && DownThroughout(obs, a, b) && b - a == ticks)
  }

  ghost function LongestDown(runs: seq<Run>): nat {
    if runs == [] then 0
    else
      var rest := LongestDown(runs[1..]);
      if runs[0].state == Down && runs[0].ticks >= rest then runs[0].ticks else rest
  }

  /** The truncated lengths of the runs in one state, in order. */
  ghost function RunLengths(runs: seq<Run>, state: TunnelState): seq<nat> {
    if runs == [] then []
    else (if runs[0].state == state then [Seconds(runs[0].ticks)] else []) + RunLengths(runs[1..], state)
  }

  /** The runs that ended within the period, its last tick included. */
  ghost function EndedRuns(obs: seq<Observation>, start: int, end: int): seq<Run> {
    var runs := Runs(obs, start, end + 1);
    if runs == [] then [] else runs[..|runs| - 1]
  }

  /** The number of ticks lo <= t <= hi at which the status differs from that of the tick before. */
  ghost function ChangesWithin(obs: seq<Observation>, lo: int, hi: int): nat
    decreases hi - lo
  {
    if hi < lo then 0
    else ChangesWithin(obs, lo, hi - 1) + if StatusAt(obs, hi) != StatusAt(obs, hi - 1) then 1 else 0
  }

  /** The figures agree with the step function over the period: seconds per bucket, the longest
      outage, the number of status changes in (start, end], and the lengths of the UP and DOWN
      stretches that ended by then. */
  ghost predicate Agrees(m: ServiceMetrics, obs: seq<Observation>, start: int, end: int) {
    && m.upSeconds == RunSeconds(Runs(obs, start, end), Up)
    && m.downSeconds == RunSeconds(Runs(obs, start, end), Down)
    && m.unknownSeconds == RunSeconds(Runs(obs, start, end), Unknown)
    && m.longestOutageSeconds == Seconds(LongestDown(Runs(obs, start, end)))
    && m.transitionCount + 1 == |Runs(obs, start, end + 1)|
    && m.completedUpSegments == RunLengths(EndedRuns(obs, start, end), Up)
    && m.completedDownSegments == RunLengths(EndedRuns(obs, start, end), Down)
  }

  lemma {:induction false} RunsCountStatusChanges(obs: seq<Observation>, lo: int, hi: int)
    requires lo <= hi
    ensures |Runs(obs, lo, hi + 1)| == 1 + ChangesWithin(obs, lo + 1, hi)
    decreases hi - lo
  {
    if lo < hi {
      RunsCountStatusChanges(obs, lo, hi - 1);
      RunsShape(obs, lo, hi);
    } else {
      assert Runs(obs, lo, lo) == [];
    }
  }

  lemma {:induction false} RunLengthsAppend(runs: seq<Run>, last: Run, state: TunnelState)
    ensures RunLengths(runs + [last], state)
         == RunLengths(runs, state) + if last.state == state then [Seconds(last.ticks)] else []
  {
    if runs == [] {
      assert [last][1..] == [];
    } else {
      RunLengthsAppend(runs[1..], last, state);
      assert (runs + [last])[1..] == runs[1..] + [last] && (runs + [last])[0] == runs[0];
      var first := if runs[0].state == state then [Seconds(runs[0].ticks)] else [];
      var more := if last.state == state then [Seconds(last.ticks)] else [];
      assert first + (RunLengths(runs[1..], state) + more) == first + RunLengths(runs[1..], state) + more;
    }
  }

  // ---------------------------------------------------------------- shape of the runs

  lemma {:induction false} RunsShape(obs: seq<Observation>, lo: int, hi: int)
    ensures forall i :: 0 <= i < |Runs(obs, lo, hi)| ==> Runs(obs, lo, hi)[i].ticks > 0
    ensures lo < hi ==> Runs(obs, lo, hi) != []
    ensures lo < hi ==> Runs(obs, lo, hi)[|Runs(obs, lo, hi)| - 1].state == StatusAt(obs, hi - 1)
    decreases hi - lo
  {
    if lo < hi {
      RunsShape(obs, lo, hi - 1);
    }
  }

  /** A new status that lasts from mid to hi adds exactly one run. */
  lemma {:induction false} ConstantStretchIsOneRun(obs: seq<Observation>, lo: int, mid: int, hi: int,
                                                   state: TunnelState)
    requires lo <= mid < hi
    requires StatusThroughout(obs, mid, hi, state) && OpensRun(obs, lo, mid, state)
    ensures Runs(obs, lo, hi) == Runs(obs, lo, mid) + [Run(state, hi - mid)]
    decreases hi - mid
  {
    if mid + 1 < hi {
      ConstantStretchIsOneRun(obs, lo, mid, hi - 1, state);
    }
  }

  /** Dropping the last tick shortens or removes the last run. */
  lemma DropLastTick(obs: seq<Observation>, lo: int, hi: int, runs: seq<Run>, last: Run)
    requires lo <= hi && Runs(obs, lo, hi + 1) == runs + [last]
    requires last.ticks > 0
    ensures Runs(obs, lo, hi) == if last.ticks == 1 then runs else runs + [Run(last.state, last.ticks - 1)]
  {
    RunsShape(obs, lo, hi);
    var before := Runs(obs, lo, hi);
    var after := ExtendRuns(before, StatusAt(obs, hi));
    assert after == runs + [last];
    assert after[|after| - 1] == last && after[..|after| - 1] == runs;
    if last.ticks != 1 {
      assert before == before[..|before| - 1] + [before[|before| - 1]];
    }
  }

  lemma {:induction false} RunSecondsAppend(runs: seq<Run>, last: Run, bucket: TunnelState)
    ensures RunSeconds(runs + [last], bucket)
         == RunSeconds(runs, bucket) + if CountsAs(last.state, bucket) then Seconds(last.ticks) else 0
  {
    if runs != [] {
      RunSecondsAppend(runs[1..], last, bucket);
      assert (runs + [last])[1..] == runs[1..] + [last];
    }
  }

  // ---------------------------------------------------------------- seconds and ticks

  /** A second-truncated figure never exceeds the ticks it stands for and misses less than a
      second per run; at whole-second run lengths it misses nothing. */
  lemma {:induction false} TruncationLoss(runs: seq<Run>, bucket: TunnelState)
    ensures MICROS_PER_SECOND * RunSeconds(runs, bucket) <= RunTicks(runs, bucket)
    ensures RunTicks(runs, bucket) <= MICROS_PER_SECOND * RunSeconds(runs, bucket)
                                      + (MICROS_PER_SECOND - 1) * RunCount(runs, bucket)
    ensures (forall i :: 0 <= i < |runs| ==> runs[i].ticks % MICROS_PER_SECOND == 0) ==>
              MICROS_PER_SECOND * RunSeconds(runs, bucket) == RunTicks(runs, bucket)
  {
    if runs != [] {
      TruncationLoss(runs[1..], bucket);
    }
  }

  ghost function RunTicks(runs: seq<Run>, bucket: TunnelState): nat {
    if runs == [] then 0
    else (if CountsAs(runs[0].state, bucket) then runs[0].ticks else 0) + RunTicks(runs[1..], bucket)
  }

  ghost function RunCount(runs: seq<Run>, bucket: TunnelState): nat {
    if runs == [] then 0
    else (if CountsAs(runs[0].state, bucket) then 1 else 0) + RunCount(runs[1..], bucket)
  }

  lemma {:induction false} RunTicksAppend(runs: seq<Run>, last: Run, bucket: TunnelState)
    ensures RunTicks(runs + [last], bucket)
         == RunTicks(runs, bucket) + if CountsAs(last.state, bucket) then last.ticks else 0
  {
    if runs != [] {
      RunTicksAppend(runs[1..], last, bucket);
      assert (runs + [last])[1..] == runs[1..] + [last];
    }
  }

  lemma ExtendAddsATick(runs: seq<Run>, state: TunnelState, bucket: TunnelState)
    ensures RunTicks(ExtendRuns(runs, state), bucket)
         == RunTicks(runs, bucket) + if CountsAs(state, bucket) then 1 else 0
  {
    if runs != [] && runs[|runs| - 1].state == state {
      var front, last := runs[..|runs| - 1], runs[|runs| - 1];
      assert runs == front + [last];
      RunTicksAppend(front, last, bucket);
      RunTicksAppend(front, Run(state, last.ticks + 1), bucket);
    } else {
      RunTicksAppend(runs, Run(state, 1), bucket);
    }
  }

  /** The runs of a bucket hold exactly its ticks. */
  lemma {:induction false} RunsCountTicks(obs: seq<Observation>, lo: int, hi: int, bucket: TunnelState)
    ensures RunTicks(Runs(obs, lo, hi), bucket) == TicksIn(obs, lo, hi, bucket)
    decreases hi - lo
  {
    if lo < hi {
      RunsCountTicks(obs, lo, hi - 1, bucket);
      ExtendAddsATick(Runs(obs, lo, hi - 1), StatusAt(obs, hi - 1), bucket);
    }
  }

  /** Every tick of the period falls in exactly one bucket. */
  lemma {:induction false} BucketsPartitionThePeriod(obs: seq<Observation>, lo: int, hi: int)
    requires lo <= hi
    ensures TicksIn(obs, lo, hi, Up) + TicksIn(obs, lo, hi, Down) + TicksIn(obs, lo, hi, Unknown) == hi - lo
    decreases hi - lo
  {
    if lo < hi {
      BucketsPartitionThePeriod(obs, lo, hi - 1);
    }
  }

  // ---------------------------------------------------------------- the longest outage

  lemma {:induction false} LongestDownAppend(runs: seq<Run>, last: Run)
    ensures LongestDown(runs + [last])
         == if last.state == Down && last.ticks >= LongestDown(runs) then last.ticks else LongestDown(runs)
  {
    if runs != [] {
      LongestDownAppend(runs[1..], last);
      assert (runs + [last])[1..] == runs[1..] + [last];
    }
  }

  ghost function TrailingDown(runs: seq<Run>): nat {
    if runs != [] && runs[|runs| - 1].state == Down then runs[|runs| - 1].ticks else 0
  }

  lemma LastRunTracksOutages(front: seq<Run>, last: Run)
    ensures TrailingDown(front + [last]) == if last.state == Down then last.ticks else 0
    ensures LongestDown(front + [last]) == Max(LongestDown(front), TrailingDown(front + [last]))
  {
    LongestDownAppend(front, last);
  }

  lemma ExtendTracksOutages(runs: seq<Run>, state: TunnelState)
    ensures var after := ExtendRuns(runs, state);
            && TrailingDown(after) == (if state == Down then TrailingDown(runs) + 1 else 0)
            && LongestDown(after) == Max(LongestDown(runs), TrailingDown(after))
  {
    if runs != [] && runs[|runs| - 1].state == state {
      var front, last := runs[..|runs| - 1], runs[|runs| - 1];
      assert runs == front + [last];
      LastRunTracksOutages(front, last);
      LastRunTracksOutages(front, Run(state, last.ticks + 1));
      assert ExtendRuns(runs, state) == front + [Run(state, last.ticks + 1)];
    } else {
      LastRunTracksOutages(runs, Run(state, 1));
      assert ExtendRuns(runs, state) == runs + [Run(state, 1)];
    }
  }

  /** The trailing outage is exactly the DOWN ticks before `hi`. */
  lemma {:induction false} TrailingDownMeaning(obs: seq<Observation>, lo: int, hi: int)
    requires lo <= hi
    ensures var d := TrailingDown(Runs(obs, lo, hi));
            && d <= hi - lo && DownThroughout(obs, hi - d, hi)
            && (forall a :: lo <= a <= hi && DownThroughout(obs, a, hi) ==> hi - a <= d)
    decreases hi - lo
  {
    if lo < hi {
      TrailingDownMeaning(obs, lo, hi - 1);
      ExtendTracksOutages(Runs(obs, lo, hi - 1), StatusAt(obs, hi - 1));
      var d := TrailingDown(Runs(obs, lo, hi));
      forall a | lo <= a <= hi && DownThroughout(obs, a, hi) ensures hi - a <= d {
        if a < hi {
          assert StatusAt(obs, hi - 1) == Down;
          assert DownThroughout(obs, a, hi - 1);
        }
      }
    }
  }

  /** The longest DOWN run is the longest outage: some stretch of that length is DOWN
      throughout and none longer is. */
  lemma {:induction false} LongestDownIsLongestOutage(obs: seq<Observation>, lo: int, hi: int)
    requires lo <= hi
    ensures IsLongestOutage(obs, lo, hi, LongestDown(Runs(obs, lo, hi)))
    decreases hi - lo
  {
    if lo < hi {
      LongestDownIsLongestOutage(obs, lo, hi - 1);
      ExtendTracksOutages(Runs(obs, lo, hi - 1), StatusAt(obs, hi - 1));
      TrailingDownMeaning(obs, lo, hi);
      var before := LongestDown(Runs(obs, lo, hi - 1));
      var d := TrailingDown(Runs(obs, lo, hi));
      assert DownThroughout(obs, hi - d, hi);
      if d < before {
        var a, b :| lo <= a <= b <= hi - 1 && DownThroughout(obs, a, b) && b - a == before;
        assert b <= hi;
      }
    } else {
      assert DownThroughout(obs, lo, lo);
    }
  }
}
