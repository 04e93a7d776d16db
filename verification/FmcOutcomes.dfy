/** How processes of the FMC section end, and what readers see meanwhile
    (backend/app/scanner/scheduler.py, backend/app/integrations/fmc/service.py): who waits for the lock
    and who is skipped, what a reset reports, and what a queued reset or an expiry hides. */
module FmcOutcomes {
  import opened Wrappers
  import opened FmcSection
  import opened FmcProgress

  // ---------------------------------------------------------------- the lock

  /** Resets wait for the lock, and so do the jobs that are told to. */
  predicate Patient(kind: Kind) {
    kind.Reset? || (kind.Job? && kind.wait) || (kind.OtherJob? && kind.waits)
  }

  lemma OnlyAcquireStarts(s: State, step: Step, p: Pid)
    requires Enabled(s, step) && p in Apply(s, step).procs && Patient(Apply(s, step).procs[p].kind)
    ensures p in s.procs ==> s.procs[p].kind == Apply(s, step).procs[p].kind
    ensures p !in s.procs ==> Apply(s, step).procs[p].pc.Wanting?
    ensures p in s.procs && s.procs[p].pc.Wanting? ==>
              Apply(s, step).procs[p].pc.Wanting? || step in {Acquire(p), Crash(p)}
  {
  }

  /** In every run, a process that waits for the lock waits until it gets it, unless it dies. */
  lemma {:induction false} WaitersGetTheLock(full: Option<Stamps>, discovery: Option<Stamps>, now: nat,
                                             steps: seq<Step>, p: Pid)
    requires Run(Initial(full, discovery, now), steps).Some?
    ensures var s := Run(Initial(full, discovery, now), steps).value;
            p in s.procs && Patient(s.procs[p].kind) ==>
              s.procs[p].pc.Wanting? || Acquire(p) in steps || Crash(p) in steps
  {
    if steps != [] && p in Run(Initial(full, discovery, now), steps).value.procs
       && Patient(Run(Initial(full, discovery, now), steps).value.procs[p].kind)
    {
      var front, last := steps[..|steps| - 1], steps[|steps| - 1];
      assert steps == front + [last];
      WaitersGetTheLock(full, discovery, now, front, p);
      OnlyAcquireStarts(Run(Initial(full, discovery, now), front).value, last, p);
    }
  }

  /** Any other job is skipped exactly while the lock is held, which changes nothing but that it is gone. */
  lemma ImpatientJobsAreSkipped(s: State, p: Pid)
    requires p in s.procs && s.procs[p].pc.Wanting?
    requires s.procs[p].kind == OtherJob(false) || (s.procs[p].kind.Job? && !s.procs[p].kind.wait)
    ensures Enabled(s, SkipLocked(p)) <==> s.holder.Some?
    ensures Enabled(s, Acquire(p)) <==> s.holder.None?
    ensures s.holder.Some? ==> Apply(s, SkipLocked(p)) == s.(procs := s.procs[p := s.procs[p].(pc := Gone)])
  {
  }

  // ---------------------------------------------------------------- what a reset reports

  /** A process that has not left the section has not unlocked it, and one that is leaving leaves as
      completed exactly when it has. */
  ghost predicate LeftAsUnlocked(s: State, steps: seq<Step>, p: Pid) {
    if p !in s.procs then Unlock(p) !in steps
    else
      match s.procs[p].pc
      case Wanting => Unlock(p) !in steps
      case Inside(_) => Unlock(p) !in steps
      case Leaving(outcome) => outcome == (if Unlock(p) in steps then Completed else Failed)
      case _ => true
  }

  lemma StepKeepsLeft(s: State, earlier: seq<Step>, step: Step, p: Pid)
    requires Enabled(s, step) && LeftAsUnlocked(s, earlier, p)
    ensures LeftAsUnlocked(Apply(s, step), earlier + [step], p)
  {
    if step.Work? && p in Apply(s, step).procs {
      WorkStaysInside(s, step.p, step.fault, p);
    }
  }

  lemma {:induction false} RunKeepsLeft(full: Option<Stamps>, discovery: Option<Stamps>, now: nat, steps: seq<Step>,
                                        p: Pid)
    requires Run(Initial(full, discovery, now), steps).Some?
    ensures LeftAsUnlocked(Run(Initial(full, discovery, now), steps).value, steps, p)
  {
    if steps != [] {
      var front, last := steps[..|steps| - 1], steps[|steps| - 1];
      assert steps == front + [last];
      RunKeepsLeft(full, discovery, now, front, p);
      StepKeepsLeft(Run(Initial(full, discovery, now), front).value, front, last, p);
    }
  }

  /** In every run, a reset that got through to the unlock reports completed with all scopes in order,
      and one that raised reports failed with none; a report that is lost leaves the status. */
  lemma ReportsTellTheEnd(full: Option<Stamps>, discovery: Option<Stamps>, now: nat, steps: seq<Step>, p: Pid,
                          lost: bool)
    requires Run(Initial(full, discovery, now), steps).Some?
    requires Enabled(Run(Initial(full, discovery, now), steps).value, Report(p, lost))
    ensures
      var s := Run(Initial(full, discovery, now), steps).value;
      Apply(s, Report(p, lost)).status
        == if lost then s.status
           else if Unlock(p) in steps then
             Status(Completed, p, [Discovery, Health, Interfaces, Ha, Alerts, Policy, Vpn])
           else Status(Failed, p, [])
  {
    RunKeepsLeft(full, discovery, now, steps, p);
    RunKeepsInv(full, discovery, now, steps);
  }

  // ---------------------------------------------------------------- what readers see of a reset

  predicate Refetching(s: State, p: Pid) {
    p in s.procs && s.procs[p].pc.Inside? && s.procs[p].pc.task.Refetch?
  }

  /** The step does not end the clearing: no refetch, no report, no interruption, no expiry. */
  predicate KeepsClearing(s: State, step: Step) {
    !step.ExpireStatus? && !step.MarkInterrupted? && !step.Report? && !(step.Work? && Refetching(s, step.p))
  }

  ghost predicate ClearingGoesOn(s: State, steps: seq<Step>) {
    steps != [] ==>
      var front := steps[..|steps| - 1];
      ClearingGoesOn(s, front) && (Run(s, front).Some? ==> KeepsClearing(Run(s, front).value, steps[|steps| - 1]))
  }

  /** Before its first read, or serving nothing. */
  predicate ServesNothing(pc: Pc) {
    pc.ReadingStatus? || pc.Gone? || (pc.Served? && pc.content == None)
  }

  lemma ClearingStepHides(s: State, step: Step, q: Pid)
    requires Enabled(s, step) && KeepsClearing(s, step) && Healthy([step], q)
    requires s.status.state in {Queued, Clearing} && q in s.procs && ServesNothing(s.procs[q].pc)
    ensures Apply(s, step).status.state in {Queued, Clearing}
    ensures q in Apply(s, step).procs && ServesNothing(Apply(s, step).procs[q].pc)
  {
    assert [step][0] == step;
  }

  lemma {:induction false} ClearingHides(s: State, steps: seq<Step>, q: Pid)
    requires Run(s, steps).Some? && ClearingGoesOn(s, steps) && Healthy(steps, q)
    requires s.status.state in {Queued, Clearing} && q in s.procs && s.procs[q].pc.ReadingStatus?
    ensures
      var u := Run(s, steps).value;
      u.status.state in {Queued, Clearing} && q in u.procs && ServesNothing(u.procs[q].pc)
  {
    if steps != [] {
      var front, last := steps[..|steps| - 1], steps[|steps| - 1];
      assert Healthy(front, q) && Healthy([last], q);
      ClearingHides(s, front, q);
      ClearingStepHides(Run(s, front).value, last, q);
    }
  }

  /** From the moment a reset is queued until something is refetched, reported, interrupted or expires,
      readers that begin serve nothing, whatever the caches hold. */
  lemma QueuedResetHidesDashboard(s: State, steps: seq<Step>, q: Pid)
    requires q in s.procs && s.procs[q].pc.ReadingStatus? && Healthy(steps, q)
    requires Run(Apply(s, MarkQueued(false)), steps).Some? && ClearingGoesOn(Apply(s, MarkQueued(false)), steps)
    ensures var u := Run(Apply(s, MarkQueued(false)), steps).value; q in u.procs && ServesNothing(u.procs[q].pc)
  {
    ClearingHides(Apply(s, MarkQueued(false)), steps, q);
  }

  // ---------------------------------------------------------------- what an expiry does

  lemma ReadsAfter(s: State, q: Pid)
    requires q in s.procs && s.procs[q].pc.ReadingStatus? && s.status.state !in {Queued, Clearing}
    ensures
      var u := Run(s, [ReadStatus(q, false)] + [ReadFull(q, false)]);
      u.Some? && q in u.value.procs && u.value.procs[q].pc == Served(s.status, s.full)
  {
    Next(s, ReadStatus(q, false), [ReadFull(q, false)]);
    OneStep(Apply(s, ReadStatus(q, false)), ReadFull(q, false));
  }

  /** Once a status has expired, a reader serves the dashboard whatever the status was; once the
      dashboard has expired it serves nothing; and once the discovery entry has, a job that needs it
      leaves the caches as they are. */
  lemma ExpiryIsFelt(s: State, q: Pid, p: Pid, scope: Scope, wait: bool)
    requires q in s.procs && s.procs[q].pc.ReadingStatus?
    requires s.holder == None && p in s.procs && s.procs[p] == New(Job(scope, wait))
    ensures
      var u := Run(Apply(s, ExpireStatus), [ReadStatus(q, false)] + [ReadFull(q, false)]);
      u.Some? && q in u.value.procs && u.value.procs[q].pc == Served(Status(NoReset, 0, []), s.full)
    ensures
      var u := Run(Apply(s, ExpireFull), [ReadStatus(q, false)] + [ReadFull(q, false)]);
      s.status.state !in {Queued, Clearing} ==>
        u.Some? && q in u.value.procs && u.value.procs[q].pc == Served(s.status, None)
    ensures scope !in {FullScan, Discovery, Policy} ==>
      var u := Run(Apply(s, ExpireDiscovery), [Acquire(p)] + ([Work(p, false)] + [Work(p, false), Unlock(p)]));
      u.Some? && u.value.full == s.full && u.value.discovery == None && u.value.now == s.now
  {
    ReadsAfter(Apply(s, ExpireStatus), q);
    if s.status.state !in {Queued, Clearing} {
      ReadsAfter(Apply(s, ExpireFull), q);
    }
    JobStoresWhatSucceeds(Apply(s, ExpireDiscovery), p, wait, scope, Faults(false, false, false, false, false));
  }
}
