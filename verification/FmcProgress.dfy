/** What the exclusive FMC section gets done (backend/app/scanner/scheduler.py,
    backend/app/integrations/fmc/service.py): readers serve what is stored, an undisturbed job stores
    what it collected, and an undisturbed reset completes. */
module FmcProgress {
  import opened Wrappers
  import opened FmcSection

  // ---------------------------------------------------------------- readers serve what is stored

  /** The n-th step is the reader's first read, and `seen` the status it got. */
  ghost predicate SawAt(s0: State, steps: seq<Step>, n: nat, q: Pid, seen: Status) {
    && n < |steps| && Run(s0, steps[..n]).Some? && steps[n].ReadStatus? && steps[n].p == q
    && seen == if steps[n].fault then Status(NoReset, 0, []) else Run(s0, steps[..n]).value.status
  }

  /** The n-th step is the reader's second read, and `content` what stood in the dashboard entry. */
  ghost predicate ReadAt(s0: State, steps: seq<Step>, n: nat, q: Pid, content: Option<Stamps>) {
    && n < |steps| && Run(s0, steps[..n]).Some? && steps[n].ReadFull? && steps[n].p == q
    && content == if steps[n].fault then None else Run(s0, steps[..n]).value.full
  }

  ghost predicate Saw(s0: State, steps: seq<Step>, q: Pid, seen: Status) {
    exists n: nat :: SawAt(s0, steps, n, q, seen)
  }

  ghost predicate Read(s0: State, steps: seq<Step>, q: Pid, content: Option<Stamps>) {
    exists n: nat :: ReadAt(s0, steps, n, q, content)
  }

  /** What a reader holds it got by its own reads: nothing after a queued or clearing status, else
      what stood in the dashboard entry at its second read. */
  ghost predicate HoldsWhatItRead(s0: State, steps: seq<Step>, q: Pid, pc: Pc) {
    match pc
    case ReadingFull(seen) => Saw(s0, steps, q, seen) && seen.state !in {Queued, Clearing}
    case Served(seen, content) =>
      && Saw(s0, steps, q, seen)
      && (if seen.state in {Queued, Clearing} then content == None else Read(s0, steps, q, content))
    case _ => true
  }

  lemma SawEarlier(s0: State, steps: seq<Step>, q: Pid, seen: Status)
    requires steps != [] && Saw(s0, steps[..|steps| - 1], q, seen)
    ensures Saw(s0, steps, q, seen)
  {
    var front := steps[..|steps| - 1];
    var n: nat :| SawAt(s0, front, n, q, seen);
    assert front[..n] == steps[..n];
    assert SawAt(s0, steps, n, q, seen);
  }

  lemma ReadEarlier(s0: State, steps: seq<Step>, q: Pid, content: Option<Stamps>)
    requires steps != [] && Read(s0, steps[..|steps| - 1], q, content)
    ensures Read(s0, steps, q, content)
  {
    var front := steps[..|steps| - 1];
    var n: nat :| ReadAt(s0, front, n, q, content);
    assert front[..n] == steps[..n];
    assert ReadAt(s0, steps, n, q, content);
  }

  lemma HoldsEarlier(s0: State, steps: seq<Step>, q: Pid, pc: Pc)
    requires steps != [] && HoldsWhatItRead(s0, steps[..|steps| - 1], q, pc)
    ensures HoldsWhatItRead(s0, steps, q, pc)
  {
    match pc {
      case ReadingFull(seen) => SawEarlier(s0, steps, q, seen);
      case Served(seen, content) =>
        SawEarlier(s0, steps, q, seen);
        if seen.state !in {Queued, Clearing} {
          ReadEarlier(s0, steps, q, content);
        }
      case _ =>
    }
  }

  predicate Reading(pc: Pc) {
    pc.ReadingFull? || pc.Served?
  }

  /** Only its own reads bring a process to reading. */
  lemma OnlyReadsRead(s: State, step: Step, q: Pid)
    requires Enabled(s, step) && q in Apply(s, step).procs && Reading(Apply(s, step).procs[q].pc)
    ensures q in s.procs
    ensures Apply(s, step).procs[q].pc == s.procs[q].pc
         || ((step.ReadStatus? || step.ReadFull?) && step.p == q)
  {
    if step.Work? {
      WorkStaysInside(s, step.p, step.fault, q);
    }
  }

  lemma WorkStaysInside(s: State, p: Pid, fault: bool, q: Pid)
    requires Enabled(s, Work(p, fault)) && q in Apply(s, Work(p, fault)).procs
    ensures q in s.procs
    ensures if q == p then Apply(s, Work(p, fault)).procs[q].pc.Inside?
            else Apply(s, Work(p, fault)).procs[q] == s.procs[q]
  {
  }

  /** In every run a reader holds what it read. */
  lemma {:induction false} ReadersHoldWhatTheyRead(s0: State, steps: seq<Step>, q: Pid)
    requires s0.procs == map[] && Run(s0, steps).Some? && q in Run(s0, steps).value.procs
    ensures HoldsWhatItRead(s0, steps, q, Run(s0, steps).value.procs[q].pc)
  {
    if steps != [] && Reading(Run(s0, steps).value.procs[q].pc) {
      var front, step := steps[..|steps| - 1], steps[|steps| - 1];
      var s := Run(s0, front).value;
      OnlyReadsRead(s, step, q);
      ReadersHoldWhatTheyRead(s0, front, q);
      if Apply(s, step).procs[q].pc == s.procs[q].pc {
        HoldsEarlier(s0, steps, q, s.procs[q].pc);
      } else if step.ReadStatus? {
        assert SawAt(s0, steps, |front|, q, if step.fault then Status(NoReset, 0, []) else s.status);
      } else {
        SawEarlier(s0, steps, q, s.procs[q].pc.seen);
        assert ReadAt(s0, steps, |front|, q, if step.fault then None else s.full);
      }
    }
  }

  /** A reader that saw neither queued nor clearing serves exactly the dashboard entry that stood at
      its second read, or nothing if that read failed. */
  lemma ReadersServeWhatStood(full: Option<Stamps>, discovery: Option<Stamps>, now: nat, steps: seq<Step>, q: Pid)
    requires Run(Initial(full, discovery, now), steps).Some?
    ensures
      var s0, s := Initial(full, discovery, now), Run(Initial(full, discovery, now), steps).value;
      q in s.procs && s.procs[q].pc.Served? ==>
        var seen, content := s.procs[q].pc.seenStatus, s.procs[q].pc.content;
        && Saw(s0, steps, q, seen)
        && (if seen.state in {Queued, Clearing} then content == None else Read(s0, steps, q, content))
  {
    if q in Run(Initial(full, discovery, now), steps).value.procs {
      ReadersHoldWhatTheyRead(Initial(full, discovery, now), steps, q);
    }
  }

  // ---------------------------------------------------------------- what is stored stays

  /** No job or reset moves, and the dashboard entry does not expire. */
  ghost predicate Quiet(steps: seq<Step>) {
    forall i :: 0 <= i < |steps| ==> !steps[i].Work? && !steps[i].ExpireFull?
  }

  /** The reader's own accesses do not fail. */
  ghost predicate Healthy(steps: seq<Step>, q: Pid) {
    forall i :: 0 <= i < |steps| ==>
      !(steps[i].ReadStatus? && steps[i].p == q && steps[i].fault)
          && !(steps[i].ReadFull? && steps[i].p == q && steps[i].fault)
  }

  lemma {:induction false} QuietKeepsDashboard(s: State, steps: seq<Step>)
    requires Run(s, steps).Some? && Quiet(steps)
    ensures Run(s, steps).value.full == s.full
  {
    if steps != [] {
      QuietKeepsDashboard(s, steps[..|steps| - 1]);
    }
  }

  lemma QuietFront(steps: seq<Step>, q: Pid)
    requires steps != [] && Quiet(steps) && Healthy(steps, q)
    ensures Quiet(steps[..|steps| - 1]) && Healthy(steps[..|steps| - 1], q)
  {
  }

  /** What a reader serves while the dashboard entry is `full`. */
  ghost predicate Serves(pc: Pc, full: Option<Stamps>) {
    match pc
    case ReadingStatus => true
    case ReadingFull(seen) => seen.state !in {Queued, Clearing}
    case Served(seen, content) => content == if seen.state in {Queued, Clearing} then None else full
    case Gone => true
    case _ => false
  }

  lemma QuietStepServes(s: State, step: Step, q: Pid)
    requires Enabled(s, step) && Quiet([step]) && Healthy([step], q) && q in s.procs && Serves(s.procs[q].pc, s.full)
    ensures q in Apply(s, step).procs && Serves(Apply(s, step).procs[q].pc, s.full) && Apply(s, step).full == s.full
  {
    assert [step][0] == step;
  }

  /** A reader that begins while data is stored, and is not overtaken by a job, a reset or an expiry,
      serves that data unless it saw queued or clearing. */
  lemma {:induction false} StoredDataIsServed(s: State, steps: seq<Step>, q: Pid)
    requires Run(s, steps).Some? && Quiet(steps) && Healthy(steps, q)
    requires q in s.procs && s.procs[q].pc.ReadingStatus?
    ensures q in Run(s, steps).value.procs && Serves(Run(s, steps).value.procs[q].pc, s.full)
  {
    if steps != [] {
      var front := steps[..|steps| - 1];
      QuietFront(steps, q);
      StoredDataIsServed(s, front, q);
      QuietKeepsDashboard(s, front);
      QuietStepServes(Run(s, front).value, steps[|steps| - 1], q);
    }
  }

  /** Nobody resets, and nothing expires. */
  ghost predicate ResetFree(s: State) {
    forall p :: p in s.procs ==> !s.procs[p].kind.Reset? && (s.procs[p].pc.Inside? ==> !ResetOnly(s.procs[p].pc))
  }

  ghost predicate NeitherResetNorExpiry(steps: seq<Step>) {
    forall i :: 0 <= i < |steps| ==> !steps[i].ExpireFull? && !(steps[i].Spawn? && steps[i].kind.Reset?)
  }

  lemma NoResetStays(s: State, step: Step)
    requires ResetFree(s) && Enabled(s, step) && !step.ExpireFull? && !(step.Spawn? && step.kind.Reset?)
    ensures ResetFree(Apply(s, step)) && (s.full.Some? ==> Apply(s, step).full.Some?)
  {
  }

  /** Without a reset and an expiry the dashboard is never empty again once something was stored. */
  lemma {:induction false} DashboardIsNotLost(s: State, steps: seq<Step>)
    requires Run(s, steps).Some? && ResetFree(s) && NeitherResetNorExpiry(steps)
    ensures ResetFree(Run(s, steps).value) && (s.full.Some? ==> Run(s, steps).value.full.Some?)
  {
    if steps != [] {
      assert NeitherResetNorExpiry(steps[..|steps| - 1]);
      DashboardIsNotLost(s, steps[..|steps| - 1]);
      NoResetStays(Run(s, steps[..|steps| - 1]).value, steps[|steps| - 1]);
    }
  }

  // ---------------------------------------------------------------- undisturbed work

  lemma {:induction false} RunsJoin(s: State, a: seq<Step>, b: seq<Step>)
    requires Run(s, a).Some?
    ensures Run(s, a + b) == Run(Run(s, a).value, b)
  {
    if b == [] {
      assert a + b == a;
    } else {
      RunsJoin(s, a, b[..|b| - 1]);
      assert (a + b)[..|a + b| - 1] == a + b[..|b| - 1];
    }
  }

  lemma OneStep(s: State, step: Step)
    requires Enabled(s, step)
    ensures Run(s, [step]) == Some(Apply(s, step))
  {
    assert [step][..0] == [];
    assert Run(s, []) == Some(s);
  }

  /** The lock holder's healthy steps. */
  function Works(p: Pid, n: nat): seq<Step> {
    seq(n, _ => Work(p, false))
  }

  lemma WorkOnce(s: State, p: Pid, n: nat)
    requires Enabled(s, Work(p, false))
    ensures Run(s, Works(p, n + 1)) == Run(Apply(s, Work(p, false)), Works(p, n))
  {
    OneStep(s, Work(p, false));
    assert Works(p, n + 1) == [Work(p, false)] + Works(p, n);
    RunsJoin(s, [Work(p, false)], Works(p, n));
  }

  /** The caches, the clock and the status, and what a reset has refetched. */
  datatype Standing = Standing(full: Option<Stamps>, discovery: Option<Stamps>, now: nat, status: Status,
                               completed: seq<Scope>)

  /** The process is inside the section with this task, and things stand like this. */
  ghost predicate Stands(s: State, p: Pid, kind: Kind, task: Task, g: Standing) {
    && s.holder == Some(p) && p in s.procs && s.procs[p].kind == kind && s.procs[p].pc == Inside(task)
    && s.full == g.full && s.discovery == g.discovery && s.now == g.now && s.status == g.status
    && s.procs[p].completed == g.completed
  }

  /** One healthy step leads the reset to this task and standing. */
  ghost predicate Leads(s: State, p: Pid, task: Task, g: Standing) {
    Enabled(s, Work(p, false)) && Stands(Apply(s, Work(p, false)), p, Reset, task, g)
  }

  /** Some number of healthy steps do. */
  ghost predicate Arrives(s: State, p: Pid, n: nat, task: Task, g: Standing) {
    Run(s, Works(p, n)).Some? && Stands(Run(s, Works(p, n)).value, p, Reset, task, g)
  }

  // ---------------------------------------------------------------- one collection

  /** What a collection of a scope builds on. */
  function Base(scope: Scope, discovery: Option<Stamps>): Stamps {
    if scope in {Health, Interfaces, Ha, Alerts, Vpn} && discovery.Some? then discovery.value else {}
  }

  ghost predicate CanCollect(scope: Scope, discovery: Option<Stamps>) {
    scope in {FullScan, Discovery, Policy} || discovery.Some?
  }

  /** After a collection: a full scan replaces the dashboard, anything else adds to it, and full scan
      and discovery replace the discovery entry. */
  function Collection(scope: Scope, g: Standing): Standing {
    var component := Base(scope, g.discovery) + {g.now + 1};
    g.(now := g.now + 1,
       full := Some((if scope == FullScan || g.full.None? then {} else g.full.value) + component),
       discovery := if scope in {FullScan, Discovery} then Some(component) else g.discovery)
  }

  // ---------------------------------------------------------------- a job, and its faults

  /** Taking the lock, working, and leaving. */
  lemma TakesWorksLeaves(s: State, p: Pid, n: nat, leaving: seq<Step>)
    requires Enabled(s, Acquire(p)) && Run(Apply(s, Acquire(p)), Works(p, n)).Some?
    ensures Run(s, [Acquire(p)] + (Works(p, n) + leaving))
         == Run(Run(Apply(s, Acquire(p)), Works(p, n)).value, leaving)
  {
    OneStep(s, Acquire(p));
    RunsJoin(Apply(s, Acquire(p)), Works(p, n), leaving);
    RunsJoin(s, [Acquire(p)], Works(p, n) + leaving);
  }

  /** Things as they stand for a process that has just taken the lock. */
  function StandingOf(s: State): Standing {
    Standing(s.full, s.discovery, s.now, s.status, [])
  }

  /** Which of a job's accesses fail: reading the discovery entry, collecting, reading the dashboard,
      saving the discovery entry, saving the dashboard. */
  datatype Faults = Faults(base: bool, collect: bool, load: bool, discovery: bool, save: bool)

  ghost predicate NoBase(scope: Scope, discovery: Option<Stamps>, f: Faults) {
    scope !in {FullScan, Discovery, Policy} && (f.base || discovery.None?)
  }

  /** The steps of a job from a free lock to its end: after a failed read of the discovery entry it
      needs, or a failed collection, there is nothing left to do. */
  ghost function JobSteps(p: Pid, scope: Scope, discovery: Option<Stamps>, f: Faults): seq<Step> {
    var ends := [Work(p, false), Unlock(p)];
    if NoBase(scope, discovery, f) then [Acquire(p)] + ([Work(p, f.base)] + ends)
    else if f.collect then [Acquire(p)] + ([Work(p, f.base)] + ([Work(p, true)] + ends))
    else
      [Acquire(p)] + ([Work(p, f.base)] + ([Work(p, false)] + ([Work(p, f.load)]
                      + ([Work(p, f.discovery)] + ([Work(p, f.save)] + ends)))))
  }

  /** How things stand after a job with such faults. */
  ghost function JobLeaves(scope: Scope, g: Standing, f: Faults): Standing {
    var component := Base(scope, g.discovery) + {g.now + 1};
    if NoBase(scope, g.discovery, f) then g
    else if f.collect then g.(now := g.now + 1)
    else
      g.(now := g.now + 1,
         discovery := if scope in {FullScan, Discovery} && !f.discovery then Some(component) else g.discovery,
         full := if f.save then g.full
                 else if scope == FullScan || g.full.None? || f.load then Some(component)
                 else Some(g.full.value + component))
  }

  lemma Next(s: State, step: Step, rest: seq<Step>)
    requires Enabled(s, step)
    ensures Run(s, [step] + rest) == Run(Apply(s, step), rest)
  {
    OneStep(s, step);
    RunsJoin(s, [step], rest);
  }

  ghost predicate JobOver(u: Option<State>, p: Pid, g: Standing) {
    && u.Some? && u.value.holder == None && p in u.value.procs && u.value.procs[p].pc.Gone?
    && u.value.full == g.full && u.value.discovery == g.discovery && u.value.now == g.now && u.value.status == g.status
  }

  lemma RefreshedJobEnds(s: State, p: Pid, kind: Kind, g: Standing)
    requires kind.Job? && Stands(s, p, kind, Refreshing(kind.scope, Refreshed), g)
    ensures JobOver(Run(s, [Work(p, false), Unlock(p)]), p, g)
  {
    var a := Apply(s, Work(p, false));
    assert [Work(p, false), Unlock(p)] == [Work(p, false)] + [Unlock(p)];
    Next(s, Work(p, false), [Unlock(p)]);
    OneStep(a, Unlock(p));
  }

  /** One step of a job, with or without a fault, and what follows. */
  lemma JobStep(s: State, p: Pid, kind: Kind, pc: RefreshPc, g: Standing, fault: bool, rest: seq<Step>, end: Standing)
    requires kind.Job? && Stands(s, p, kind, Refreshing(kind.scope, pc), g) && !pc.Refreshed?
    requires JobOver(Run(Apply(s, Work(p, fault)), rest), p, end)
    ensures JobOver(Run(s, [Work(p, fault)] + rest), p, end)
  {
    Next(s, Work(p, fault), rest);
  }

  lemma JobSaves(s: State, p: Pid, kind: Kind, component: Stamps, cached: Option<Stamps>, g: Standing, f: Faults)
    requires kind.Job? && Stands(s, p, kind, Refreshing(kind.scope, Loaded(component, cached)), g)
    ensures
      JobOver(Run(s, [Work(p, f.discovery)] + ([Work(p, f.save)] + [Work(p, false), Unlock(p)])), p,
              g.(discovery :=
                   if kind.scope in {FullScan, Discovery} && !f.discovery then Some(component) else g.discovery,
                 full := if f.save then g.full
                         else if kind.scope == FullScan || cached.None? then Some(component)
                         else Some(cached.value + component)))
  {
    var kept := g.(discovery := if kind.scope in {FullScan, Discovery} && !f.discovery then Some(component)
                                else g.discovery);
    var end := kept.(full := if f.save then g.full
                             else if kind.scope == FullScan || cached.None? then Some(component)
                             else Some(cached.value + component));
    var a := Apply(s, Work(p, f.discovery));
    var b := Apply(a, Work(p, f.save));
    assert Stands(a, p, kind, Refreshing(kind.scope, DiscoverySaved(component, cached)), kept);
    RefreshedJobEnds(b, p, kind, end);
    JobStep(a, p, kind, DiscoverySaved(component, cached), kept, f.save, [Work(p, false), Unlock(p)], end);
    JobStep(s, p, kind, Loaded(component, cached), g, f.discovery, [Work(p, f.save)] + [Work(p, false), Unlock(p)],
            end);
  }

  lemma JobCollects(s: State, p: Pid, kind: Kind, g: Standing, f: Faults)
    requires kind.Job? && Stands(s, p, kind, Refreshing(kind.scope, Based(Base(kind.scope, g.discovery))), g)
    requires !NoBase(kind.scope, g.discovery, f) && !f.collect
    ensures
      JobOver(Run(s, [Work(p, false)] + ([Work(p, f.load)] + ([Work(p, f.discovery)] + ([Work(p, f.save)]
                     + [Work(p, false), Unlock(p)])))), p, JobLeaves(kind.scope, g, f))
  {
    var component, end := Base(kind.scope, g.discovery) + {g.now + 1}, JobLeaves(kind.scope, g, f);
    var last := [Work(p, f.discovery)] + ([Work(p, f.save)] + [Work(p, false), Unlock(p)]);
    var collected := g.(now := g.now + 1);
    var a := Apply(s, Work(p, false));
    assert Stands(a, p, kind, Refreshing(kind.scope, Collected(component)), collected);
    var b := Apply(a, Work(p, f.load));
    assert Stands(b, p, kind, Refreshing(kind.scope, Loaded(component, if f.load then None else g.full)), collected);
    JobSaves(b, p, kind, component, if f.load then None else g.full, collected, f);
    JobStep(a, p, kind, Collected(component), collected, f.load, last, end);
    JobStep(s, p, kind, Based(Base(kind.scope, g.discovery)), g, false, [Work(p, f.load)] + last, end);
  }

  lemma JobStarts(s: State, p: Pid, wait: bool, scope: Scope, f: Faults)
    requires s.holder == None && p in s.procs && s.procs[p] == New(Job(scope, wait))
    ensures
      var kind, g, a := Job(scope, wait), StandingOf(s), Apply(s, Acquire(p));
      var pc := if NoBase(scope, s.discovery, f) then Refreshed else Based(Base(scope, s.discovery));
      && Stands(a, p, kind, Refreshing(scope, Starting), g)
      && Stands(Apply(a, Work(p, f.base)), p, kind, Refreshing(scope, pc), g)
  {
  }

  /** What happens after the discovery entry was read. */
  lemma JobGoesOn(s: State, p: Pid, wait: bool, scope: Scope, f: Faults, rest: seq<Step>)
    requires s.holder == None && p in s.procs && s.procs[p] == New(Job(scope, wait))
    requires JobOver(Run(Apply(Apply(s, Acquire(p)), Work(p, f.base)), rest), p, JobLeaves(scope, StandingOf(s), f))
    ensures JobOver(Run(s, [Acquire(p)] + ([Work(p, f.base)] + rest)), p, JobLeaves(scope, StandingOf(s), f))
  {
    JobStarts(s, p, wait, scope, f);
    JobStep(Apply(s, Acquire(p)), p, Job(scope, wait), Starting, StandingOf(s), f.base, rest,
            JobLeaves(scope, StandingOf(s), f));
    Next(s, Acquire(p), [Work(p, f.base)] + rest);
  }

  lemma FailedCollectionEnds(s: State, p: Pid, kind: Kind, base: Stamps, g: Standing)
    requires kind.Job? && Stands(s, p, kind, Refreshing(kind.scope, Based(base)), g)
    ensures JobOver(Run(s, [Work(p, true)] + [Work(p, false), Unlock(p)]), p, g.(now := g.now + 1))
  {
    RefreshedJobEnds(Apply(s, Work(p, true)), p, kind, g.(now := g.now + 1));
    JobStep(s, p, kind, Based(base), g, true, [Work(p, false), Unlock(p)], g.(now := g.now + 1));
  }

  /** A job alone, whatever fails on the way: it stores nothing without the discovery entry it needs or
      when its collection fails, and otherwise its collection with what it read of the dashboard, which
      is lost if that read fails; the lock is given back. */
  lemma JobStoresWhatSucceeds(s: State, p: Pid, wait: bool, scope: Scope, f: Faults)
    requires s.holder == None && p in s.procs && s.procs[p] == New(Job(scope, wait))
    ensures JobOver(Run(s, JobSteps(p, scope, s.discovery, f)), p, JobLeaves(scope, StandingOf(s), f))
  {
    var kind, g, ends := Job(scope, wait), StandingOf(s), [Work(p, false), Unlock(p)];
    var b := Apply(Apply(s, Acquire(p)), Work(p, f.base));
    JobStarts(s, p, wait, scope, f);
    if NoBase(scope, s.discovery, f) {
      RefreshedJobEnds(b, p, kind, g);
      JobGoesOn(s, p, wait, scope, f, ends);
    } else if f.collect {
      FailedCollectionEnds(b, p, kind, Base(scope, s.discovery), g);
      JobGoesOn(s, p, wait, scope, f, [Work(p, true)] + ends);
    } else {
      JobCollects(b, p, kind, g, f);
      JobGoesOn(s, p, wait, scope, f, [Work(p, false)] + ([Work(p, f.load)] + ([Work(p, f.discovery)]
                                      + ([Work(p, f.save)] + ends))));
    }
  }

  /** A partial collection erases nothing that others stored, unless its own read of the dashboard fails
      and its write succeeds: then only what it holds itself is left. */
  lemma PartialJobsEraseNothingExactlyWhen(s: State, p: Pid, wait: bool, scope: Scope, f: Faults)
    requires s.holder == None && p in s.procs && s.procs[p] == New(Job(scope, wait)) && scope != FullScan
    ensures
      var u := Run(s, JobSteps(p, scope, s.discovery, f));
      && u.Some?
      && (Content(s.full) <= Content(u.value.full)
          <==> NoBase(scope, s.discovery, f) || f.collect || f.save || !f.load
               || Content(s.full) <= Base(scope, s.discovery) + {s.now + 1})
  {
    JobStoresWhatSucceeds(s, p, wait, scope, f);
  }

  // ---------------------------------------------------------------- a reset

  /** From every state in which it has the one task and things stand one way, n healthy steps bring the
      reset to the other. */
  ghost predicate Goes(p: Pid, n: nat, from: Task, g: Standing, to: Task, h: Standing) {
    forall s: State :: Stands(s, p, Reset, from, g) ==> Arrives(s, p, n, to, h)
  }

  lemma GoesOnce(p: Pid, from: Task, g: Standing, to: Task, h: Standing)
    requires forall s: State :: Stands(s, p, Reset, from, g) ==> Leads(s, p, to, h)
    ensures Goes(p, 1, from, g, to, h)
  {
    forall s: State | Stands(s, p, Reset, from, g) ensures Arrives(s, p, 1, to, h) {
      assert Leads(s, p, to, h);
      WorkOnce(s, p, 0);
      assert Works(p, 0) == [] && Run(Apply(s, Work(p, false)), []) == Some(Apply(s, Work(p, false)));
    }
  }

  lemma GoesFurther(p: Pid, n: nat, m: nat, from: Task, g: Standing, via: Task, h: Standing, to: Task, k: Standing)
    requires Goes(p, n, from, g, via, h) && Goes(p, m, via, h, to, k)
    ensures Goes(p, n + m, from, g, to, k)
  {
    forall s: State | Stands(s, p, Reset, from, g) ensures Arrives(s, p, n + m, to, k) {
      assert Arrives(s, p, n, via, h);
      assert Works(p, n + m) == Works(p, n) + Works(p, m);
      RunsJoin(s, Works(p, n), Works(p, m));
    }
  }

  lemma MarkGoes(p: Pid, g: Standing)
    ensures Goes(p, 1, MarkClearing, g, DeletingKey(0), g.(status := Status(Clearing, p, [])))
  {
    GoesOnce(p, MarkClearing, g, DeletingKey(0), g.(status := Status(Clearing, p, [])));
  }

  function Deleted(key: nat, g: Standing): Standing {
    if key == 0 then g.(full := None) else if key == 1 then g.(discovery := None) else g
  }

  lemma DeleteGoes(p: Pid, key: nat, g: Standing)
    requires key < 4
    ensures Goes(p, 1, DeletingKey(key), g, if key < 3 then DeletingKey(key + 1) else ClearingTables, Deleted(key, g))
  {
    GoesOnce(p, DeletingKey(key), g, if key < 3 then DeletingKey(key + 1) else ClearingTables, Deleted(key, g));
  }

  lemma DeletingGoes(p: Pid, g: Standing)
    ensures Goes(p, 4, DeletingKey(0), g, ClearingTables, Deleted(1, Deleted(0, g)))
  {
    var b, c := Deleted(0, g), Deleted(1, Deleted(0, g));
    DeleteGoes(p, 0, g);
    DeleteGoes(p, 1, b);
    DeleteGoes(p, 2, c);
    DeleteGoes(p, 3, c);
    GoesFurther(p, 1, 1, DeletingKey(0), g, DeletingKey(1), b, DeletingKey(2), c);
    GoesFurther(p, 2, 1, DeletingKey(0), g, DeletingKey(2), c, DeletingKey(3), c);
    GoesFurther(p, 3, 1, DeletingKey(0), g, DeletingKey(3), c, ClearingTables, c);
  }

  lemma ClearGoes(p: Pid, g: Standing)
    ensures Goes(p, 1, ClearingTables, g, Refetch(0, Starting), g)
  {
    GoesOnce(p, ClearingTables, g, Refetch(0, Starting), g);
  }

  /** Six healthy steps mark, delete and clear. */
  lemma ClearingGoes(p: Pid, g: Standing)
    ensures
      var cleared := g.(full := None, discovery := None, status := Status(Clearing, p, []));
      Goes(p, 6, MarkClearing, g, Refetch(0, Starting), cleared)
  {
    var a := g.(status := Status(Clearing, p, []));
    var c := Deleted(1, Deleted(0, a));
    MarkGoes(p, g);
    DeletingGoes(p, a);
    ClearGoes(p, c);
    GoesFurther(p, 1, 4, MarkClearing, g, DeletingKey(0), a, ClearingTables, c);
    GoesFurther(p, 5, 1, MarkClearing, g, ClearingTables, c, Refetch(0, Starting), c);
  }

  lemma ReadsBase(p: Pid, k: nat, g: Standing)
    requires k < |RESET_SCOPES| && CanCollect(RESET_SCOPES[k], g.discovery)
    ensures Goes(p, 1, Refetch(k, Starting), g, Refetch(k, Based(Base(RESET_SCOPES[k], g.discovery))), g)
  {
    GoesOnce(p, Refetch(k, Starting), g, Refetch(k, Based(Base(RESET_SCOPES[k], g.discovery))), g);
  }

  lemma Collects(p: Pid, k: nat, base: Stamps, g: Standing)
    requires k < |RESET_SCOPES|
    ensures Goes(p, 1, Refetch(k, Based(base)), g, Refetch(k, Collected(base + {g.now + 1})), g.(now := g.now + 1))
  {
    GoesOnce(p, Refetch(k, Based(base)), g, Refetch(k, Collected(base + {g.now + 1})), g.(now := g.now + 1));
  }

  lemma ReadsDashboard(p: Pid, k: nat, component: Stamps, g: Standing)
    requires k < |RESET_SCOPES|
    ensures Goes(p, 1, Refetch(k, Collected(component)), g, Refetch(k, Loaded(component, g.full)), g)
  {
    GoesOnce(p, Refetch(k, Collected(component)), g, Refetch(k, Loaded(component, g.full)), g);
  }

  function WithDiscovery(scope: Scope, component: Stamps, g: Standing): Standing {
    g.(discovery := if scope in {FullScan, Discovery} then Some(component) else g.discovery)
  }

  lemma SavesDiscovery(p: Pid, k: nat, component: Stamps, cached: Option<Stamps>, g: Standing)
    requires k < |RESET_SCOPES|
    ensures Goes(p, 1, Refetch(k, Loaded(component, cached)), g, Refetch(k, DiscoverySaved(component, cached)),
                 WithDiscovery(RESET_SCOPES[k], component, g))
  {
    GoesOnce(p, Refetch(k, Loaded(component, cached)), g, Refetch(k, DiscoverySaved(component, cached)),
             WithDiscovery(RESET_SCOPES[k], component, g));
  }

  function WithDashboard(component: Stamps, cached: Option<Stamps>, g: Standing): Standing {
    g.(full := Some((if cached.None? then {} else cached.value) + component))
  }

  lemma SavesDashboard(p: Pid, k: nat, component: Stamps, cached: Option<Stamps>, g: Standing)
    requires k < |RESET_SCOPES|
    ensures Goes(p, 1, Refetch(k, DiscoverySaved(component, cached)), g, Refetch(k, Refreshed),
                 WithDashboard(component, cached, g))
  {
    assert {} + component == component;
    GoesOnce(p, Refetch(k, DiscoverySaved(component, cached)), g, Refetch(k, Refreshed),
             WithDashboard(component, cached, g));
  }

  lemma LoadingGoes(p: Pid, k: nat, base: Stamps, g: Standing)
    requires k < |RESET_SCOPES| && CanCollect(RESET_SCOPES[k], g.discovery)
        && base == Base(RESET_SCOPES[k], g.discovery)
    ensures Goes(p, 3, Refetch(k, Starting), g, Refetch(k, Loaded(base + {g.now + 1}, g.full)), g.(now := g.now + 1))
  {
    var a, component := g.(now := g.now + 1), base + {g.now + 1};
    ReadsBase(p, k, g);
    Collects(p, k, base, g);
    ReadsDashboard(p, k, component, a);
    GoesFurther(p, 1, 1, Refetch(k, Starting), g, Refetch(k, Based(base)), g, Refetch(k, Collected(component)), a);
    GoesFurther(p, 2, 1, Refetch(k, Starting), g, Refetch(k, Collected(component)), a,
                Refetch(k, Loaded(component, g.full)), a);
  }

  lemma SavingGoes(p: Pid, k: nat, component: Stamps, cached: Option<Stamps>, g: Standing)
    requires k < |RESET_SCOPES|
    ensures Goes(p, 2, Refetch(k, Loaded(component, cached)), g, Refetch(k, Refreshed),
                 WithDashboard(component, cached, WithDiscovery(RESET_SCOPES[k], component, g)))
  {
    var b := WithDiscovery(RESET_SCOPES[k], component, g);
    SavesDiscovery(p, k, component, cached, g);
    SavesDashboard(p, k, component, cached, b);
    GoesFurther(p, 1, 1, Refetch(k, Loaded(component, cached)), g, Refetch(k, DiscoverySaved(component, cached)), b,
                Refetch(k, Refreshed), WithDashboard(component, cached, b));
  }

  lemma SavedIsCollection(k: nat, g: Standing)
    requires k < |RESET_SCOPES|
    ensures
      var component, a := Base(RESET_SCOPES[k], g.discovery) + {g.now + 1}, g.(now := g.now + 1);
      WithDashboard(component, g.full, WithDiscovery(RESET_SCOPES[k], component, a)) == Collection(RESET_SCOPES[k], g)
  {
  }

  /** Five healthy steps collect a scope and store it. */
  lemma CollectionGoes(p: Pid, k: nat, g: Standing)
    requires k < |RESET_SCOPES| && CanCollect(RESET_SCOPES[k], g.discovery)
    ensures Goes(p, 5, Refetch(k, Starting), g, Refetch(k, Refreshed), Collection(RESET_SCOPES[k], g))
  {
    var base := Base(RESET_SCOPES[k], g.discovery);
    LoadingGoes(p, k, base, g);
    SavingGoes(p, k, base + {g.now + 1}, g.full, g.(now := g.now + 1));
    SavedIsCollection(k, g);
    GoesFurther(p, 3, 2, Refetch(k, Starting), g, Refetch(k, Loaded(base + {g.now + 1}, g.full)), g.(now := g.now + 1),
                Refetch(k, Refreshed), Collection(RESET_SCOPES[k], g));
  }

  /** The k collections after an instant. */
  function Since(now: nat, k: nat): Stamps {
    if k == 0 then {} else Since(now, k - 1) + {now + k}
  }

  /** Things after a reset that began its refetch at `now` has refetched k scopes. */
  function Refetched(p: Pid, now: nat, k: nat): Standing
    requires k <= |RESET_SCOPES|
  {
    if k == 0 then Standing(None, None, now, Status(Clearing, p, []), [])
    else Standing(Some(Since(now, k)), Some({now + 1}), now + k, Status(Refetching, p, RESET_SCOPES[..k]),
                  RESET_SCOPES[..k])
  }

  lemma {:induction false} FirstOfSince(now: nat, k: nat)
    requires k > 0
    ensures now + 1 in Since(now, k)
  {
    if k > 1 {
      FirstOfSince(now, k - 1);
    }
  }

  lemma NextCollection(p: Pid, now: nat, k: nat)
    requires k < |RESET_SCOPES|
    ensures CanCollect(RESET_SCOPES[k], Refetched(p, now, k).discovery)
    ensures
      var g, more := Collection(RESET_SCOPES[k], Refetched(p, now, k)), RESET_SCOPES[..k] + [RESET_SCOPES[k]];
      g.(completed := more, status := Status(Refetching, p, more)) == Refetched(p, now, k + 1)
  {
    var before := Since(now, k);
    if k > 0 {
      FirstOfSince(now, k);
    }
    assert before + Base(RESET_SCOPES[k], Refetched(p, now, k).discovery) + {now + k + 1} == Since(now, k + 1);
    assert before + (Base(RESET_SCOPES[k], Refetched(p, now, k).discovery) + {now + k + 1}) == Since(now, k + 1);
    assert RESET_SCOPES[..k + 1] == RESET_SCOPES[..k] + [RESET_SCOPES[k]];
  }

  lemma ScopeDone(p: Pid, k: nat, g: Standing)
    requires k < |RESET_SCOPES|
    ensures
      var more := g.completed + [RESET_SCOPES[k]];
      Goes(p, 1, Refetch(k, Refreshed), g, Refetch(k + 1, Starting),
           g.(completed := more, status := Status(Refetching, p, more)))
  {
    var more := g.completed + [RESET_SCOPES[k]];
    GoesOnce(p, Refetch(k, Refreshed), g, Refetch(k + 1, Starting),
             g.(completed := more, status := Status(Refetching, p, more)));
  }

  lemma NextScopeGoes(p: Pid, now: nat, k: nat)
    requires k < |RESET_SCOPES|
    ensures Goes(p, 6, Refetch(k, Starting), Refetched(p, now, k), Refetch(k + 1, Starting), Refetched(p, now, k + 1))
  {
    var g, collected := Refetched(p, now, k), Collection(RESET_SCOPES[k], Refetched(p, now, k));
    NextCollection(p, now, k);
    CollectionGoes(p, k, g);
    ScopeDone(p, k, collected);
    GoesFurther(p, 5, 1, Refetch(k, Starting), g, Refetch(k, Refreshed), collected,
                Refetch(k + 1, Starting), Refetched(p, now, k + 1));
  }

  lemma GoesNowhere(p: Pid, task: Task, g: Standing)
    ensures Goes(p, 0, task, g, task, g)
  {
    forall s: State | Stands(s, p, Reset, task, g) ensures Arrives(s, p, 0, task, g) {
      assert Works(p, 0) == [] && Run(s, []) == Some(s);
    }
  }

  lemma OneMoreScope(p: Pid, now: nat, k: nat, start: Standing)
    requires k < |RESET_SCOPES|
    requires Goes(p, 6 * k, Refetch(0, Starting), start, Refetch(k, Starting), Refetched(p, now, k))
    ensures Goes(p, 6 * k + 6, Refetch(0, Starting), start, Refetch(k + 1, Starting), Refetched(p, now, k + 1))
  {
    NextScopeGoes(p, now, k);
    GoesFurther(p, 6 * k, 6, Refetch(0, Starting), start, Refetch(k, Starting), Refetched(p, now, k),
                Refetch(k + 1, Starting), Refetched(p, now, k + 1));
  }

  /** Six healthy steps for each scope. */
  lemma RefetchGoes(p: Pid, now: nat)
    ensures Goes(p, 36, Refetch(0, Starting), Refetched(p, now, 0), Refetch(6, Starting), Refetched(p, now, 6))
  {
    GoesNowhere(p, Refetch(0, Starting), Refetched(p, now, 0));
    OneMoreScope(p, now, 0, Refetched(p, now, 0));
    OneMoreScope(p, now, 1, Refetched(p, now, 0));
    OneMoreScope(p, now, 2, Refetched(p, now, 0));
    OneMoreScope(p, now, 3, Refetched(p, now, 0));
    OneMoreScope(p, now, 4, Refetched(p, now, 0));
    OneMoreScope(p, now, 5, Refetched(p, now, 0));
  }

  lemma VpnGoes(p: Pid, g: Standing)
    ensures Goes(p, 2, Refetch(6, Starting), g, Finished, g.(completed := g.completed + [Vpn]))
  {
    var done := g.(completed := g.completed + [Vpn]);
    GoesOnce(p, Refetch(6, Starting), g, VpnRefetch, g);
    GoesOnce(p, VpnRefetch, g, Finished, done);
    GoesFurther(p, 1, 1, Refetch(6, Starting), g, VpnRefetch, g, Finished, done);
  }

  /** All of a reset's work: 44 healthy steps. */
  lemma ResetGoes(p: Pid, g: Standing)
    requires g.completed == []
    ensures Goes(p, 44, MarkClearing, g, Finished, Refetched(p, g.now, 6).(completed := RESET_SCOPES + [Vpn]))
  {
    var cleared, refetched := Refetched(p, g.now, 0), Refetched(p, g.now, 6);
    var done := refetched.(completed := RESET_SCOPES + [Vpn]);
    assert RESET_SCOPES[..6] == RESET_SCOPES;
    ClearingGoes(p, g);
    RefetchGoes(p, g.now);
    VpnGoes(p, refetched);
    GoesFurther(p, 6, 36, MarkClearing, g, Refetch(0, Starting), cleared, Refetch(6, Starting), refetched);
    GoesFurther(p, 42, 2, MarkClearing, g, Refetch(6, Starting), refetched, Finished, done);
  }

  lemma ReportsCompletion(s: State, p: Pid, g: Standing)
    requires Stands(s, p, Reset, Finished, g)
    ensures
      var u := Run(s, [Unlock(p)] + [Report(p, false)]);
      && u.Some? && u.value.holder == None && p in u.value.procs && u.value.procs[p].pc.Gone?
      && u.value.full == g.full && u.value.discovery == g.discovery
      && u.value.status == Status(Completed, p, g.completed)
  {
    var c := Apply(s, Unlock(p));
    OneStep(s, Unlock(p));
    OneStep(c, Report(p, false));
    RunsJoin(s, [Unlock(p)], [Report(p, false)]);
  }

  lemma SinceSix(now: nat)
    ensures Since(now, 6) == {now + 1, now + 2, now + 3, now + 4, now + 5, now + 6}
  {
    assert Since(now, 1) == {now + 1};
    assert Since(now, 2) == {now + 1, now + 2};
    assert Since(now, 3) == {now + 1, now + 2, now + 3};
    assert Since(now, 4) == {now + 1, now + 2, now + 3, now + 4};
    assert Since(now, 5) == {now + 1, now + 2, now + 3, now + 4, now + 5};
  }

  /** The reset is over and the lock free, the dashboard holds exactly the six collections made since
      `now`, and the status lists every scope. */
  ghost predicate ResetCompleted(u: Option<State>, p: Pid, now: nat) {
    && u.Some? && u.value.holder == None && p in u.value.procs && u.value.procs[p].pc.Gone?
    && u.value.full == Some({now + 1, now + 2, now + 3, now + 4, now + 5, now + 6})
    && u.value.discovery == Some({now + 1})
    && u.value.status == Status(Completed, p, [Discovery, Health, Interfaces, Ha, Alerts, Policy, Vpn])
  }

  lemma CompletionIsReported(s: State, p: Pid, now: nat)
    requires Stands(s, p, Reset, Finished, Refetched(p, now, 6).(completed := RESET_SCOPES + [Vpn]))
    ensures ResetCompleted(Run(s, [Unlock(p)] + [Report(p, false)]), p, now)
  {
    ReportsCompletion(s, p, Refetched(p, now, 6).(completed := RESET_SCOPES + [Vpn]));
    SinceSix(now);
  }

  lemma ResetEnds(s: State, p: Pid)
    requires Stands(s, p, Reset, MarkClearing, StandingOf(s))
    ensures Run(s, Works(p, 44)).Some?
    ensures ResetCompleted(Run(Run(s, Works(p, 44)).value, [Unlock(p)] + [Report(p, false)]), p, s.now)
  {
    ResetGoes(p, StandingOf(s));
    assert Arrives(s, p, 44, Finished, Refetched(p, s.now, 6).(completed := RESET_SCOPES + [Vpn]));
    CompletionIsReported(Run(s, Works(p, 44)).value, p, s.now);
  }

  lemma TakesTheLock(s: State, p: Pid)
    requires s.holder == None && p in s.procs && s.procs[p] == New(Reset)
    ensures Enabled(s, Acquire(p))
    ensures Stands(Apply(s, Acquire(p)), p, Reset, MarkClearing, StandingOf(Apply(s, Acquire(p))))
    ensures Apply(s, Acquire(p)).now == s.now
  {
  }

  /** All steps are those of one process, and none of its accesses fails. */
  ghost predicate AloneAndHealthy(steps: seq<Step>, p: Pid) {
    forall step :: step in steps ==> step in {Acquire(p), Work(p, false), Unlock(p), Report(p, false)}
  }

  /** An undisturbed reset completes, whatever the caches held. */
  lemma UndisturbedResetCompletes(s: State, p: Pid) returns (steps: seq<Step>)
    requires s.holder == None && p in s.procs && s.procs[p] == New(Reset)
    ensures AloneAndHealthy(steps, p) && ResetCompleted(Run(s, steps), p, s.now)
  {
    TakesTheLock(s, p);
    ResetEnds(Apply(s, Acquire(p)), p);
    TakesWorksLeaves(s, p, 44, [Unlock(p)] + [Report(p, false)]);
    steps := [Acquire(p)] + (Works(p, 44) + ([Unlock(p)] + [Report(p, false)]));
  }
}
