/** The request pacing shared by every FMC client of one base address
    (backend/app/integrations/fmc/client.py): a lock, a quiet interval after each request, and a
    cooldown after a 429 answer. Clients are interleaved step by step. */
module FmcPacer {
  import opened Wrappers

  /** What the holder of the lock is doing; the lock is free when nobody holds it. */
  datatype Phase = Free | Sleeping(gap: real, readyAt: real) | InFlight

  datatype Event = Started(at: real, gap: real) | Cooled(until: real) | Finished(at: real)

  /** The shared rate state, the monotonic clock, and the trace of what was sent so far. */
  datatype Pacer = Pacer(clock: real, lastRequestFinished: real, blockedUntil: real, phase: Phase, trace: seq<Event>)

  datatype Step =
    | Acquire(setting: real)
    | Start
    | TooManyRequests(retryAfter: real)
    | Finish
    | CancelSleep
    | Wait(duration: real)

  predicate Enabled(p: Pacer, step: Step) {
    match step
    case Acquire(_) => p.phase.Free?
    case Start => p.phase.Sleeping? && p.clock >= p.phase.readyAt
    case TooManyRequests(_) => p.phase.InFlight?
    case Finish => p.phase.InFlight?
    case CancelSleep => p.phase.Sleeping?
    case Wait(duration) => duration >= 0.0
  }

  /** A request that ends, by an answer, an exception or a cancellation, records when it finished; a
      cancellation during the sleep before it only gives the lock back. */
  function Apply(p: Pacer, step: Step): Pacer
    requires Enabled(p, step)
  {
    match step
    case Acquire(setting) =>
      var interval := RealMax(0.0, setting);
      p.(phase := Sleeping(interval, RealMax(p.lastRequestFinished + interval, p.blockedUntil)))
    case Start => p.(phase := InFlight, trace := p.trace + [Started(p.clock, p.phase.gap)])
    case TooManyRequests(retryAfter) =>
      p.(blockedUntil := RealMax(p.blockedUntil, p.clock + retryAfter),
         trace := p.trace + [Cooled(p.clock + retryAfter)])
    case Finish => p.(phase := Free, lastRequestFinished := p.clock, trace := p.trace + [Finished(p.clock)])
    case CancelSleep => p.(phase := Free)
    case Wait(duration) => p.(clock := p.clock + duration)
  }

  ghost predicate CanRun(p: Pacer, steps: seq<Step>)
    decreases steps
  {
    steps == [] || (Enabled(p, steps[0]) && CanRun(Apply(p, steps[0]), steps[1..]))
  }

  ghost function Run(p: Pacer, steps: seq<Step>): Pacer
    requires CanRun(p, steps)
    decreases steps
  {
    if steps == [] then p else Run(Apply(p, steps[0]), steps[1..])
  }

  function Initial(clock: real): Pacer {
    Pacer(clock, 0.0, 0.0, Free, [])
  }

  // ---------------------------------------------------------------- what a trace says

  ghost predicate Sending(trace: seq<Event>) {
    if trace == [] then false
    else match trace[|trace| - 1]
      case Started(_, _) => true
      case Finished(_) => false
      case Cooled(_) => Sending(trace[..|trace| - 1])
  }

  ghost function LastFinish(trace: seq<Event>): real {
    if trace == [] then 0.0
    else if trace[|trace| - 1].Finished? then trace[|trace| - 1].at
    else LastFinish(trace[..|trace| - 1])
  }

  /** The time of the latest start, or `early` when there is none. */
  ghost function LastStart(trace: seq<Event>, early: real): real {
    if trace == [] then early
    else if trace[|trace| - 1].Started? then trace[|trace| - 1].at
    else LastStart(trace[..|trace| - 1], early)
  }

  ghost predicate AnyStart(trace: seq<Event>) {
    trace != [] && (trace[|trace| - 1].Started? || AnyStart(trace[..|trace| - 1]))
  }

  /** The latest moment any 429 answer asked everybody to wait for. */
  ghost function CooldownUntil(trace: seq<Event>): real {
    if trace == [] then 0.0
    else
      var earlier := CooldownUntil(trace[..|trace| - 1]);
      if trace[|trace| - 1].Cooled? then RealMax(earlier, trace[|trace| - 1].until) else earlier
  }

  /** Requests alternate start and finish, each starts its quiet interval after the previous finish
      and after every cooldown asked for until then, and ends no earlier than it started. */
  ghost predicate Paced(trace: seq<Event>) {
    if trace == [] then true
    else
      var earlier := trace[..|trace| - 1];
      && Paced(earlier)
      && match trace[|trace| - 1]
         case Started(at, gap) => !Sending(earlier) && gap >= 0.0 && at >= LastFinish(earlier) + gap
             && at >= CooldownUntil(earlier)
         case Finished(at) => Sending(earlier) && at >= LastStart(earlier, at)
         case Cooled(_) => Sending(earlier)
  }

  ghost predicate Inv(p: Pacer) {
    && Paced(p.trace)
    && (p.phase.InFlight? <==> Sending(p.trace))
    && p.lastRequestFinished == LastFinish(p.trace)
    && p.blockedUntil == CooldownUntil(p.trace)
    && LastStart(p.trace, p.clock) <= p.clock
    && (p.phase.Sleeping? ==>
          p.phase.gap >= 0.0 && p.phase.readyAt == RealMax(p.lastRequestFinished + p.phase.gap, p.blockedUntil))
  }

  lemma {:induction false} LastStartBefore(trace: seq<Event>, early: real, late: real)
    requires early <= late
    ensures LastStart(trace, early) <= LastStart(trace, late)
    ensures LastStart(trace, early) == LastStart(trace, late)
        || (LastStart(trace, early) == early && LastStart(trace, late) == late)
  {
    if trace != [] {
      LastStartBefore(trace[..|trace| - 1], early, late);
    }
  }

  lemma StepKeepsInv(p: Pacer, step: Step)
    requires Inv(p) && Enabled(p, step)
    ensures Inv(Apply(p, step))
  {
    var q := Apply(p, step);
    if step.Wait? {
      LastStartBefore(p.trace, p.clock, q.clock);
    } else if |q.trace| > |p.trace| {
      assert q.trace[..|q.trace| - 1] == p.trace;
    }
  }

  lemma {:induction false} RunKeepsInv(p: Pacer, steps: seq<Step>)
    requires Inv(p) && CanRun(p, steps)
    ensures Inv(Run(p, steps))
    decreases steps
  {
    if steps != [] {
      StepKeepsInv(p, steps[0]);
      RunKeepsInv(Apply(p, steps[0]), steps[1..]);
    }
  }

  // ---------------------------------------------------------------- what the steps say

  lemma {:induction false} RunPrefix(p: Pacer, steps: seq<Step>, n: nat)
    requires CanRun(p, steps) && n <= |steps|
    ensures CanRun(p, steps[..n])
    ensures CanRun(Run(p, steps[..n]), steps[n..]) && Run(Run(p, steps[..n]), steps[n..]) == Run(p, steps)
    decreases steps
  {
    if n == 0 {
      assert steps[..0] == [] && steps[0..] == steps;
    } else {
      RunPrefix(Apply(p, steps[0]), steps[1..], n - 1);
      assert steps[..n][1..] == steps[1..][..n - 1] && steps[n..] == steps[1..][n - 1..];
    }
  }

  lemma RunLast(p: Pacer, steps: seq<Step>)
    requires CanRun(p, steps) && steps != []
    ensures
      var front, last := steps[..|steps| - 1], steps[|steps| - 1];
      CanRun(p, front) && Enabled(Run(p, front), last) && Run(p, steps) == Apply(Run(p, front), last)
  {
    RunPrefix(p, steps, |steps| - 1);
    var rest := steps[|steps| - 1..];
    assert rest == [steps[|steps| - 1]] && rest[1..] == [];
  }

  /** The clock when the n-th step is taken. */
  ghost function ClockAt(clock: real, steps: seq<Step>, n: nat): real
    requires CanRun(Initial(clock), steps) && n <= |steps|
  {
    RunPrefix(Initial(clock), steps, n);
    Run(Initial(clock), steps[..n]).clock
  }

  lemma ClockOfFront(clock: real, steps: seq<Step>, n: nat)
    requires CanRun(Initial(clock), steps) && n < |steps|
    ensures CanRun(Initial(clock), steps[..|steps| - 1])
    ensures ClockAt(clock, steps, n) == ClockAt(clock, steps[..|steps| - 1], n)
  {
    RunPrefix(Initial(clock), steps, |steps| - 1);
    assert steps[..|steps| - 1][..n] == steps[..n];
  }

  /** Every request finished by `until`, and the last one then, if there was any. */
  ghost predicate FinishedBy(clock: real, steps: seq<Step>, until: real)
    requires CanRun(Initial(clock), steps)
  {
    && (forall k :: 0 <= k < |steps| && steps[k].Finish? ==> ClockAt(clock, steps, k) <= until)
    && ((until == 0.0 && forall k :: 0 <= k < |steps| ==> !steps[k].Finish?)
        || exists k :: 0 <= k < |steps| && steps[k].Finish? && ClockAt(clock, steps, k) == until)
  }

  /** Every 429 answer asked to wait until `until` at most, and one of them until then, if not zero. */
  ghost predicate CooledBy(clock: real, steps: seq<Step>, until: real)
    requires CanRun(Initial(clock), steps)
  {
    && until >= 0.0
    && (forall k :: 0 <= k < |steps| && steps[k].TooManyRequests? ==>
          ClockAt(clock, steps, k) + steps[k].retryAfter <= until)
    && (until == 0.0
        || exists k :: 0 <= k < |steps| && steps[k].TooManyRequests?
                       && ClockAt(clock, steps, k) + steps[k].retryAfter == until)
  }

  /** The i-th step took the lock for the request that now sleeps. */
  ghost predicate SleepsSince(steps: seq<Step>, i: nat) {
    i < |steps| && steps[i].Acquire? && forall k :: i < k < |steps| ==> steps[k].Wait?
  }

  ghost predicate ReadyAfter(p: Pacer, setting: real) {
    p.phase.Sleeping? && p.phase.readyAt == RealMax(p.lastRequestFinished + RealMax(0.0, setting), p.blockedUntil)
  }

  lemma {:induction false} ClockNeverGoesBack(clock: real, steps: seq<Step>, k: nat)
    requires CanRun(Initial(clock), steps) && k <= |steps|
    ensures clock <= ClockAt(clock, steps, k) <= Run(Initial(clock), steps).clock
  {
    if k == |steps| {
      assert steps[..k] == steps;
      if steps != [] {
        RunLast(Initial(clock), steps);
        ClockNeverGoesBack(clock, steps[..|steps| - 1], |steps| - 1);
      }
    } else {
      RunLast(Initial(clock), steps);
      ClockOfFront(clock, steps, k);
      ClockNeverGoesBack(clock, steps[..|steps| - 1], k);
    }
  }

  lemma {:induction false} LastFinishIsKept(clock: real, steps: seq<Step>)
    requires CanRun(Initial(clock), steps)
    ensures FinishedBy(clock, steps, Run(Initial(clock), steps).lastRequestFinished)
  {
    if steps != [] {
      var front, last := steps[..|steps| - 1], steps[|steps| - 1];
      RunLast(Initial(clock), steps);
      LastFinishIsKept(clock, front);
      forall k | 0 <= k < |front| ensures ClockAt(clock, steps, k) == ClockAt(clock, front, k) {
        ClockOfFront(clock, steps, k);
      }
      if last.Finish? {
        forall k | 0 <= k < |front| ensures ClockAt(clock, front, k) <= Run(Initial(clock), front).clock {
          ClockNeverGoesBack(clock, front, k);
        }
        assert ClockAt(clock, steps, |front|) == Run(Initial(clock), front).clock;
      }
    }
  }

  lemma {:induction false} CooldownIsKept(clock: real, steps: seq<Step>)
    requires CanRun(Initial(clock), steps)
    ensures CooledBy(clock, steps, Run(Initial(clock), steps).blockedUntil)
  {
    if steps != [] {
      var front, last := steps[..|steps| - 1], steps[|steps| - 1];
      RunLast(Initial(clock), steps);
      CooldownIsKept(clock, front);
      forall k | 0 <= k < |front| ensures ClockAt(clock, steps, k) == ClockAt(clock, front, k) {
        ClockOfFront(clock, steps, k);
      }
      assert ClockAt(clock, steps, |front|) == Run(Initial(clock), front).clock;
      var before, after := Run(Initial(clock), front).blockedUntil, Run(Initial(clock), steps).blockedUntil;
      if after == before && before != 0.0 {
        var k :| 0 <= k < |front| && front[k].TooManyRequests?
                 && ClockAt(clock, front, k) + front[k].retryAfter == before;
        assert steps[k] == front[k];
      } else if after != before {
        assert last.TooManyRequests? && steps[|front|] == last;
      }
    }
  }

  lemma {:induction false} SleepIsFromSetting(clock: real, steps: seq<Step>) returns (i: nat)
    requires CanRun(Initial(clock), steps) && Run(Initial(clock), steps).phase.Sleeping?
    ensures SleepsSince(steps, i) && ReadyAfter(Run(Initial(clock), steps), steps[i].setting)
  {
    var front, last := steps[..|steps| - 1], steps[|steps| - 1];
    RunLast(Initial(clock), steps);
    if last.Acquire? {
      i := |front|;
    } else {
      i := SleepIsFromSetting(clock, front);
    }
  }

  /** What the steps so far ask of a request for which the lock was taken with this setting. */
  ghost predicate MayStart(clock: real, steps: seq<Step>, setting: real)
    requires CanRun(Initial(clock), steps)
  {
    var now := Run(Initial(clock), steps).clock;
    && now >= RealMax(0.0, setting)
    && (forall k :: 0 <= k < |steps| && steps[k].Finish? ==> now >= ClockAt(clock, steps, k) + RealMax(0.0, setting))
    && (forall k :: 0 <= k < |steps| && steps[k].TooManyRequests? ==>
          now >= ClockAt(clock, steps, k) + steps[k].retryAfter)
  }

  /** A request starts exactly when the quiet interval it was configured with has passed since every
      earlier request finished, and every cooldown asked for is over. */
  lemma StartsExactlyWhen(clock: real, steps: seq<Step>) returns (i: nat)
    requires clock >= 0.0 && CanRun(Initial(clock), steps) && Run(Initial(clock), steps).phase.Sleeping?
    ensures SleepsSince(steps, i)
    ensures Enabled(Run(Initial(clock), steps), Start) <==> MayStart(clock, steps, steps[i].setting)
  {
    i := SleepIsFromSetting(clock, steps);
    LastFinishIsKept(clock, steps);
    CooldownIsKept(clock, steps);
    forall k | 0 <= k < |steps| ensures ClockAt(clock, steps, k) >= 0.0 {
      ClockNeverGoesBack(clock, steps, k);
    }
    ClockNeverGoesBack(clock, steps, |steps|);
  }

  /** Whatever the clients do, a request starts only once the lock was taken for it alone, the quiet
      interval of its setting has passed since the last finish, and every cooldown is over; and
      between two starts a request finishes. */
  lemma RequestsArePaced(clock: real, steps: seq<Step>, j: nat) returns (i: nat)
    requires clock >= 0.0 && CanRun(Initial(clock), steps) && j < |steps| && steps[j].Start?
    ensures i < j && steps[i].Acquire? && forall k :: i < k < j ==> steps[k].Wait?
    ensures CanRun(Initial(clock), steps[..j]) && MayStart(clock, steps[..j], steps[i].setting)
    ensures forall k :: 0 <= k < j && steps[k].Start? ==> exists m :: k < m < j && steps[m].Finish?
  {
    RunPrefix(Initial(clock), steps, j + 1);
    RunLast(Initial(clock), steps[..j + 1]);
    assert steps[..j + 1][..j] == steps[..j];
    i := StartsExactlyWhen(clock, steps[..j]);
    assert steps[..j][i] == steps[i];
    forall k | i < k < j ensures steps[k].Wait? {
      assert steps[..j][k] == steps[k];
    }
    forall k | 0 <= k < j && steps[k].Start? ensures exists m :: k < m < j && steps[m].Finish? {
      var m := FinishBetween(clock, steps[..j], k);
      assert steps[..j][m] == steps[m];
    }
  }

  /** When nothing is in flight, every start is followed by a finish. */
  lemma {:induction false} FinishBetween(clock: real, steps: seq<Step>, k: nat) returns (m: nat)
    requires CanRun(Initial(clock), steps) && !Run(Initial(clock), steps).phase.InFlight?
    requires k < |steps| && steps[k].Start?
    ensures k < m < |steps| && steps[m].Finish?
  {
    var front, last := steps[..|steps| - 1], steps[|steps| - 1];
    RunLast(Initial(clock), steps);
    if last.Finish? {
      m := |front|;
    } else {
      m := FinishBetween(clock, front, k);
    }
  }

  // ---------------------------------------------------------------- the request rate

  ghost function StartsIn(trace: seq<Event>, from: real, to: real): nat {
    if trace == [] then 0
    else
      var last := trace[|trace| - 1];
      StartsIn(trace[..|trace| - 1], from, to) + if last.Started? && from <= last.at <= to then 1 else 0
  }

  ghost predicate GapsAtLeast(trace: seq<Event>, interval: real) {
    forall e :: e in trace ==> (e.Started? ==> e.gap >= interval)
  }

  lemma {:induction false} FinishFollowsStart(trace: seq<Event>, early: real)
    requires Paced(trace) && !Sending(trace) && AnyStart(trace)
    ensures LastFinish(trace) >= LastStart(trace, early)
  {
    var earlier, last := trace[..|trace| - 1], trace[|trace| - 1];
    match last {
      case Finished(at) =>
        SomeStart(earlier, at, early);
      case Cooled(_) =>
        assert false;
      case Started(_, _) =>
        assert false;
    }
  }

  lemma {:induction false} SomeStart(trace: seq<Event>, one: real, other: real)
    ensures AnyStart(trace) ==> LastStart(trace, one) == LastStart(trace, other)
    ensures !AnyStart(trace) ==> LastStart(trace, one) == one
  {
    if trace != [] {
      SomeStart(trace[..|trace| - 1], one, other);
    }
  }

  lemma {:induction false} NoStartNoCount(trace: seq<Event>, from: real, to: real)
    requires !AnyStart(trace)
    ensures StartsIn(trace, from, to) == 0
  {
    if trace != [] {
      NoStartNoCount(trace[..|trace| - 1], from, to);
    }
  }

  /** `count` starts between `from` and `latest` (or `to`) leave room for an interval between any two. */
  ghost predicate Spread(count: nat, latest: real, from: real, to: real, interval: real) {
    count > 0 ==> (count - 1) as real * interval <= RealMin(latest, to) - from
  }

  /** The starts counted from `from` on need an interval each, up to the latest one. */
  lemma {:induction false} StartsNeedTime(trace: seq<Event>, from: real, to: real, interval: real)
    requires Paced(trace) && GapsAtLeast(trace, interval) && interval > 0.0
    ensures Spread(StartsIn(trace, from, to), LastStart(trace, from), from, to, interval)
  {
    if trace != [] {
      var earlier, last := trace[..|trace| - 1], trace[|trace| - 1];
      assert GapsAtLeast(earlier, interval);
      StartsNeedTime(earlier, from, to, interval);
      if last.Started? {
        assert last in trace;
        StartAddsAnInterval(earlier, last, from, to, interval);
      }
    }
  }

  lemma StartAddsAnInterval(earlier: seq<Event>, last: Event, from: real, to: real, interval: real)
    requires Paced(earlier) && interval > 0.0 && last.Started? && last.gap >= interval
    requires !Sending(earlier) && last.at >= LastFinish(earlier) + last.gap
    requires Spread(StartsIn(earlier, from, to), LastStart(earlier, from), from, to, interval)
    ensures Spread(StartsIn(earlier, from, to) + if from <= last.at <= to then 1 else 0, last.at, from, to, interval)
  {
    var c := StartsIn(earlier, from, to);
    if c > 0 {
      if !AnyStart(earlier) {
        NoStartNoCount(earlier, from, to);
        assert false;
      }
      FinishFollowsStart(earlier, from);
      var previous := LastStart(earlier, from);
      assert previous + interval <= last.at;
    }
  }

  lemma FloorBound(count: nat, span: real, interval: real)
    requires interval > 0.0 && count > 0 && (count - 1) as real * interval <= span
    ensures count <= (span / interval).Floor + 1
  {
    var q := span / interval;
    assert q * interval == span;
    if (count - 1) as real > q {
      TimesKeepsOrder(q, (count - 1) as real, interval);
    }
  }

  lemma TimesKeepsOrder(a: real, b: real, c: real)
    requires a < b && c > 0.0
    ensures a * c < b * c
  {
  }

  /** The number of requests started at clock times from `from` to `to`. */
  ghost function StartsBetween(clock: real, steps: seq<Step>, from: real, to: real): nat
    requires CanRun(Initial(clock), steps)
  {
    if steps == [] then 0
    else
      RunLast(Initial(clock), steps);
      var front, last := steps[..|steps| - 1], steps[|steps| - 1];
      StartsBetween(clock, front, from, to)
      + if last.Start? && from <= Run(Initial(clock), front).clock <= to then 1 else 0
  }

  /** Every client asks for at least this interval. */
  ghost predicate SettingsAtLeast(steps: seq<Step>, interval: real) {
    forall k :: 0 <= k < |steps| && steps[k].Acquire? ==> steps[k].setting >= interval
  }

  lemma {:induction false} TraceFollowsSteps(clock: real, steps: seq<Step>, interval: real, from: real, to: real)
    requires CanRun(Initial(clock), steps) && SettingsAtLeast(steps, interval)
    ensures
      var p := Run(Initial(clock), steps);
      && GapsAtLeast(p.trace, interval) && (p.phase.Sleeping? ==> p.phase.gap >= interval)
      && StartsIn(p.trace, from, to) == StartsBetween(clock, steps, from, to)
  {
    if steps != [] {
      var front := steps[..|steps| - 1];
      RunLast(Initial(clock), steps);
      TraceFollowsSteps(clock, front, interval, from, to);
      var before, after := Run(Initial(clock), front).trace, Run(Initial(clock), steps).trace;
      assert |after| > |before| ==> after[..|after| - 1] == before;
    }
  }

  /** If every client asks for at least an interval, any window of length `span` holds at most
      floor(span / interval) + 1 request starts, however many clients share the state. */
  lemma RateIsBounded(clock: real, steps: seq<Step>, from: real, span: real, interval: real)
    requires CanRun(Initial(clock), steps) && SettingsAtLeast(steps, interval)
    requires interval > 0.0 && span >= 0.0
    ensures StartsBetween(clock, steps, from, from + span) <= (span / interval).Floor + 1
  {
    RunKeepsInv(Initial(clock), steps);
    TraceFollowsSteps(clock, steps, interval, from, from + span);
    var trace := Run(Initial(clock), steps).trace;
    StartsNeedTime(trace, from, from + span, interval);
    if StartsIn(trace, from, from + span) > 0 {
      FloorBound(StartsIn(trace, from, from + span), span, interval);
    } else {
      assert span / interval >= 0.0;
    }
  }
}
