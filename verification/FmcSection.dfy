/** The exclusive FMC section and the reset/refetch protocol (backend/app/scanner/scheduler.py,
    backend/app/integrations/fmc/service.py) as a step system. Any number of jobs, resets and
    readers interleave; cache reads, writes and deletes may each fail silently, entries may
    expire, operations may raise, and processes may die. */
module FmcSection {
  import opened Wrappers

  type Pid = nat

  datatype Scope = FullScan | Discovery | Health | Interfaces | Ha | Alerts | Policy | Vpn

  /** What a process is: a collector job that tries for or waits for the lock, a job under the
      same lock that leaves the dashboard cache alone (VPN, audit), a reset, or a reader. */
  datatype Kind =
    | Job(scope: Scope, wait: bool)
    | OtherJob(waits: bool)
    | Reset
    | Reader

  /** Provenance of cached data: the instants at which its parts were collected. */
  type Stamps = set<nat>

  datatype ResetState = NoReset | Queued | Clearing | Refetching | Completed | Failed

  /** The reset status entry: the scopes it lists as refetched and the reset that wrote it. */
  datatype Status = Status(state: ResetState, writer: Pid, scopes: seq<Scope>)

  /** Progress of one _refresh_scope call. */
  datatype RefreshPc =
    | Starting
    | Based(base: Stamps)
    | Collected(component: Stamps)
    | Loaded(loaded: Stamps, cached: Option<Stamps>)
    | DiscoverySaved(saved: Stamps, savedCached: Option<Stamps>)
    | Refreshed

  /** What the lock holder is doing. A reset clears four keys, then the tables, then refreshes
      six scopes in order, then the VPN snapshot. */
  datatype Task =
    | Refreshing(scope: Scope, pc: RefreshPc)
    | OtherWork
    | MarkClearing
    | DeletingKey(key: nat)
    | ClearingTables
    | Refetch(index: nat, refetchPc: RefreshPc)
    | VpnRefetch
    | Finished

  datatype Pc =
    | Wanting
    | Inside(task: Task)
    | Leaving(outcome: ResetState)
    | ReadingStatus
    | ReadingFull(seen: Status)
    | Served(seenStatus: Status, content: Option<Stamps>)
    | Gone

  /** What a reset left behind: a dashboard or discovery entry whose delete failed, and whether it has
      rewritten the discovery entry since. */
  datatype Leftover = Leftover(full: bool, discovery: bool, rewritten: bool)

  const NOTHING_LEFT := Leftover(false, false, false)

  /** `completed` lists the scopes a reset has refetched; `cleared` is the instant a reset finished
      clearing; `left` is what that left behind. */
  datatype Process = Process(kind: Kind, pc: Pc, completed: seq<Scope>, cleared: Option<nat>, left: Leftover)

  datatype State = State(
    procs: map<Pid, Process>,
    holder: Option<Pid>,
    full: Option<Stamps>,
    discovery: Option<Stamps>,
    status: Status,
    now: nat)

  datatype Step =
    | Spawn(p: Pid, kind: Kind)
    | MarkQueued(lost: bool)
    | MarkInterrupted(lost: bool)
    | Acquire(p: Pid)
    | SkipLocked(p: Pid)
    | Work(p: Pid, fault: bool)
    | Raise(p: Pid)
    | Unlock(p: Pid)
    | Report(p: Pid, lost: bool)
    | ReadStatus(p: Pid, fault: bool)
    | ReadFull(p: Pid, fault: bool)
    | Crash(p: Pid)
    | ExpireFull
    | ExpireDiscovery
    | ExpireStatus

  const RESET_SCOPES: seq<Scope> := [Discovery, Health, Interfaces, Ha, Alerts, Policy]
  const CACHE_KEYS := 4

  function Initial(full: Option<Stamps>, discovery: Option<Stamps>, now: nat): State {
    State(map[], None, full, discovery, Status(NoReset, 0, []), now)
  }

  function New(kind: Kind): Process {
    Process(kind, if kind.Reader? then ReadingStatus else Wanting, [], None, NOTHING_LEFT)
  }

  function FirstTask(kind: Kind): Task {
    match kind
    case Job(scope, _) => Refreshing(scope, Starting)
    case Reset => MarkClearing
    case _ => OtherWork
  }

  /** Merging keeps the cached parts next to the new ones, except for a full scan or an empty cache. */
  function MergedStamps(cached: Option<Stamps>, component: Stamps, scope: Scope): Stamps {
    if scope == FullScan || cached.None? then component else cached.value + component
  }

  predicate NeedsDiscovery(scope: Scope) {
    scope !in {FullScan, Discovery, Policy}
  }

  /** One step of _refresh_scope; `fault` is a failed cache access or a failed collection. A
      refresh that fails records the failure and ends normally. */
  function RefreshStep(s: State, scope: Scope, pc: RefreshPc, fault: bool): (State, RefreshPc) {
    match pc
    case Starting =>
      if !NeedsDiscovery(scope) then (s, Based({}))
      else if fault || s.discovery.None? then (s, Refreshed)
      else (s, Based(s.discovery.value))
    case Based(base) =>
      if fault then (s.(now := s.now + 1), Refreshed)
      else (s.(now := s.now + 1), Collected(base + {s.now + 1}))
    case Collected(component) => (s, Loaded(component, if fault then None else s.full))
    case Loaded(component, cached) =>
      if scope in {FullScan, Discovery} && !fault then
        (s.(discovery := Some(component)), DiscoverySaved(component, cached))
      else (s, DiscoverySaved(component, cached))
    case DiscoverySaved(component, cached) =>
      if fault then (s, Refreshed) else (s.(full := Some(MergedStamps(cached, component, scope))), Refreshed)
    case Refreshed => (s, Refreshed)
  }

  function Put(s: State, p: Pid, proc: Process): State {
    s.(procs := s.procs[p := proc])
  }

  function WriteStatus(s: State, status: Status, lost: bool): State {
    if lost then s else s.(status := status)
  }

  /** A failed delete leaves an entry behind if there is one. */
  function LeftAfterDelete(left: Leftover, key: nat, fault: bool, full: Option<Stamps>,
                           discovery: Option<Stamps>): Leftover {
    if fault && key == 0 && full.Some? then left.(full := true)
    else if fault && key == 1 && discovery.Some? then left.(discovery := true)
    else left
  }

  predicate Rewrites(scope: Scope, pc: RefreshPc, fault: bool) {
    scope in {FullScan, Discovery} && pc.Loaded? && !fault
  }

  function LeftAfterRefresh(left: Leftover, scope: Scope, pc: RefreshPc, fault: bool): Leftover {
    if Rewrites(scope, pc, fault) then left.(rewritten := true) else left
  }

  /** The lock holder's next step. */
  function WorkStep(s: State, p: Pid, proc: Process, fault: bool): State
    requires proc.pc.Inside?
  {
    match proc.pc.task
    case Refreshing(scope, pc) =>
      if pc.Refreshed? then Put(s, p, proc.(pc := Inside(Finished)))
      else
        var (after, next) := RefreshStep(s, scope, pc, fault);
        Put(after, p, proc.(pc := Inside(Refreshing(scope, next))))
    case OtherWork => Put(s, p, proc.(pc := Inside(Finished)))
    case MarkClearing => Put(WriteStatus(s, Status(Clearing, p, []), fault), p, proc.(pc := Inside(DeletingKey(0))))
    case DeletingKey(key) =>
      var after :=
        if fault then s else if key == 0 then s.(full := None) else if key == 1 then s.(discovery := None) else s;
      Put(after, p, proc.(pc := Inside(if key + 1 < CACHE_KEYS then DeletingKey(key + 1) else ClearingTables),
                       left := LeftAfterDelete(proc.left, key, fault, s.full, s.discovery)))
    case ClearingTables => Put(s, p, proc.(pc := Inside(Refetch(0, Starting)), cleared := Some(s.now)))
    case Refetch(index, pc) =>
      if index >= |RESET_SCOPES| then Put(s, p, proc.(pc := Inside(VpnRefetch)))
      else if pc.Refreshed? then
        var completed := proc.completed + [RESET_SCOPES[index]];
        Put(WriteStatus(s, Status(Refetching, p, completed), fault), p,
            proc.(pc := Inside(Refetch(index + 1, Starting)), completed := completed))
      else
        var (after, next) := RefreshStep(s, RESET_SCOPES[index], pc, fault);
        Put(after, p, proc.(pc := Inside(Refetch(index, next)),
                            left := LeftAfterRefresh(proc.left, RESET_SCOPES[index], pc, fault)))
    case VpnRefetch => Put(s, p, proc.(pc := Inside(Finished), completed := proc.completed + [Vpn]))
    case Finished => s
  }

  /** When a step can happen. The queued and interrupted marks are written by code that read
      the status some time before, so they can land at any moment. */
  predicate Enabled(s: State, step: Step) {
    match step
    case Spawn(p, _) => p !in s.procs
    case Acquire(p) => p in s.procs && s.procs[p].pc.Wanting? && s.holder.None?
    case SkipLocked(p) => p in s.procs && s.procs[p].pc.Wanting? && s.holder.Some? && !WaitsForLock(s.procs[p].kind)
    case Work(p, _) => p in s.procs && s.procs[p].pc.Inside? && !s.procs[p].pc.task.Finished?
    case Raise(p) => p in s.procs && s.procs[p].pc.Inside?
    case Unlock(p) => p in s.procs && s.procs[p].pc.Inside? && s.procs[p].pc.task.Finished?
    case Report(p, _) => p in s.procs && s.procs[p].pc.Leaving?
    case ReadStatus(p, _) => p in s.procs && s.procs[p].pc.ReadingStatus?
    case ReadFull(p, _) => p in s.procs && s.procs[p].pc.ReadingFull?
    case Crash(p) => p in s.procs
    case _ => true
  }

  predicate WaitsForLock(kind: Kind) {
    match kind
    case Job(_, wait) => wait
    case OtherJob(waits) => waits
    case _ => true
  }

  /** The status a reset reports after leaving: completed with its scopes, or failed. */
  function Outcome(proc: Process, p: Pid): Status
    requires proc.pc.Leaving?
  {
    Status(proc.pc.outcome, p, if proc.pc.outcome == Completed then proc.completed else [])
  }

  function Leave(s: State, p: Pid, proc: Process, outcome: ResetState): State {
    Put(s.(holder := None), p, proc.(pc := if proc.kind.Reset? then Leaving(outcome) else Gone))
  }

  function Apply(s: State, step: Step): State
    requires Enabled(s, step)
  {
    match step
    case Spawn(p, kind) => Put(s, p, New(kind))
    case MarkQueued(lost) => WriteStatus(s, Status(Queued, s.status.writer, []), lost)
    case MarkInterrupted(lost) => WriteStatus(s, Status(Failed, s.status.writer, s.status.scopes), lost)
    case Acquire(p) => Put(s.(holder := Some(p)), p, s.procs[p].(pc := Inside(FirstTask(s.procs[p].kind))))
    case SkipLocked(p) => Put(s, p, s.procs[p].(pc := Gone))
    case Work(p, fault) => WorkStep(s, p, s.procs[p], fault)
    case Raise(p) => Leave(s, p, s.procs[p], Failed)
    case Unlock(p) => Leave(s, p, s.procs[p], Completed)
    case Report(p, lost) =>
      Put(WriteStatus(s, Outcome(s.procs[p], p), lost), p, s.procs[p].(pc := Gone))
    case ReadStatus(p, fault) =>
      var seen := if fault then Status(NoReset, 0, []) else s.status;
      Put(s, p, s.procs[p].(pc := if seen.state in {Queued, Clearing} then Served(seen, None) else ReadingFull(seen)))
    case ReadFull(p, fault) =>
      Put(s, p, s.procs[p].(pc := Served(s.procs[p].pc.seen, if fault then None else s.full)))
    case Crash(p) => Put(if s.holder == Some(p) then s.(holder := None) else s, p, s.procs[p].(pc := Gone))
    case ExpireFull => s.(full := None)
    case ExpireDiscovery => s.(discovery := None)
    case ExpireStatus => s.(status := Status(NoReset, 0, []))
  }

  /** The state after a run, if every step of it was possible. */
  function Run(s: State, steps: seq<Step>): Option<State> {
    if steps == [] then Some(s)
    else
      var before := Run(s, steps[..|steps| - 1]);
      if before.Some? && Enabled(before.value, steps[|steps| - 1])
      then Some(Apply(before.value, steps[|steps| - 1])) else None
  }

  // ---------------------------------------------------------------- the invariant

  function Content(entry: Option<Stamps>): Stamps {
    if entry.Some? then entry.value else {}
  }

  function RefreshStamps(pc: RefreshPc): Stamps {
    match pc
    case Based(base) => base
    case Collected(component) => component
    case Loaded(component, cached) => component + Content(cached)
    case DiscoverySaved(component, cached) => component + Content(cached)
    case _ => {}
  }

  /** The data a process carries inside the section. */
  function Carried(pc: Pc): Stamps {
    if !pc.Inside? then {}
    else
      match pc.task
      case Refreshing(_, at) => RefreshStamps(at)
      case Refetch(_, at) => RefreshStamps(at)
      case _ => {}
  }

  /** Everything that is, or may become, dashboard content. */
  function Live(s: State): Stamps {
    Content(s.full) + Content(s.discovery)
    + if s.holder.Some? && s.holder.value in s.procs then Carried(s.procs[s.holder.value].pc) else {}
  }

  ghost predicate AllAfter(stamps: Stamps, t: nat) {
    forall x :: x in stamps ==> x > t
  }

  /** At most one process is inside, and it holds the lock. */
  ghost predicate Exclusive(s: State) {
    && (s.holder.Some? ==> s.holder.value in s.procs && s.procs[s.holder.value].pc.Inside?)
    && (forall p :: p in s.procs && s.procs[p].pc.Inside? ==> s.holder == Some(p))
  }

  /** Data from before the clear may be left: in a dashboard entry that could not be deleted, or in a
      discovery entry that could not be deleted and was not rewritten. */
  predicate Stale(proc: Process) {
    proc.left.full || (proc.left.discovery && !proc.left.rewritten)
  }

  predicate HasCleared(proc: Process) {
    proc.cleared.Some? && !Stale(proc)
  }

  /** A reset that has cleared and is past its first refetch, which may rewrite the discovery entry. */
  predicate Settled(proc: Process) {
    proc.cleared.Some? && !(proc.pc.Inside? && proc.pc.task.Refetch? && proc.pc.task.index == 0)
  }

  /** Once a reset has cleared, everything live was collected after that. */
  ghost predicate FreshSince(s: State) {
    forall r :: r in s.procs && HasCleared(s.procs[r])
        ==> s.procs[r].cleared.value <= s.now && AllAfter(Live(s), s.procs[r].cleared.value)
  }

  /** Whether a task or outcome is one a reset reaches only after clearing. */
  predicate PastClearing(pc: Pc) {
    match pc
    case Inside(task) => task.Refetch? || task.VpnRefetch? || task.Finished?
    case Leaving(outcome) => outcome == Completed
    case _ => false
  }

  predicate ResetOnly(pc: Pc) {
    match pc
    case Leaving(_) => true
    case Inside(task) => !(task.Refreshing? || task.OtherWork? || task.Finished?)
    case _ => false
  }

  predicate JobOnly(pc: Pc) {
    pc.Inside? && (pc.task.Refreshing? || pc.task.OtherWork?)
  }

  predicate BeforeClearing(pc: Pc) {
    match pc
    case Wanting => true
    case Inside(task) => task.MarkClearing? || task.DeletingKey? || task.ClearingTables?
    case _ => false
  }

  /** A reset past clearing has refetched the scopes in their order, up to where it stands. */
  predicate InOrder(proc: Process) {
    match proc.pc
    case Inside(Refetch(index, _)) => index <= |RESET_SCOPES| && proc.completed == RESET_SCOPES[..index]
    case Inside(VpnRefetch) => proc.completed == RESET_SCOPES
    case _ => proc.completed == RESET_SCOPES + [Vpn]
  }

  /** How far a process has come, and what a reset has emptied on the way. */
  ghost predicate ProgressOf(proc: Process, full: Option<Stamps>, discovery: Option<Stamps>) {
    && (ResetOnly(proc.pc) ==> proc.kind.Reset?)
    && (proc.kind.Reset? ==> !JobOnly(proc.pc))
    && (BeforeClearing(proc.pc) ==> proc.cleared.None? && proc.completed == [] && !proc.left.rewritten)
    && (proc.pc.Leaving? ==> proc.pc.outcome in {Completed, Failed})
    && (proc.kind.Reset? && PastClearing(proc.pc) ==> proc.cleared.Some? && InOrder(proc))
    && (proc.pc.Inside? && !proc.left.full ==> Emptied(proc.pc.task, 0, full))
    && (proc.pc.Inside? && !proc.left.discovery ==> Emptied(proc.pc.task, 1, discovery))
  }

  /** Between deleting a key and refetching, its entry is gone. */
  ghost predicate Emptied(task: Task, key: nat, entry: Option<Stamps>) {
    (task.DeletingKey? && task.key > key) || task.ClearingTables? ==> entry.None?
  }

  /** Before it rewrites a discovery entry it could not delete, a reset has read nothing of it. */
  ghost predicate PendingOf(proc: Process, full: Option<Stamps>, now: nat) {
    match proc.pc
    case Inside(Refetch(index, at)) =>
      (&& index == 0 && !proc.left.full && proc.left.discovery && !proc.left.rewritten
       && !at.DiscoverySaved? && !at.Refreshed?) ==>
        && proc.cleared.Some? && proc.cleared.value <= now
        && AllAfter(Content(full) + RefreshStamps(at), proc.cleared.value)
    case _ => true
  }

  ghost predicate Pending(s: State) {
    forall r :: r in s.procs ==> PendingOf(s.procs[r], s.full, s.now)
  }

  ghost predicate Progress(s: State) {
    forall r :: r in s.procs ==> ProgressOf(s.procs[r], s.full, s.discovery)
  }

  predicate ClaimsData(status: Status) {
    status.state == Refetching || status.state == Completed
  }

  /** A status that claims refetched data was written by a reset that had cleared, and lists
      the scopes refetched so far, or all of them. */
  ghost predicate ClaimHolds(procs: map<Pid, Process>, status: Status) {
    ClaimsData(status) ==>
      && status.writer in procs && Settled(procs[status.writer])
      && (status.state == Refetching ==> status.scopes != [] && status.scopes <= RESET_SCOPES)
      && (status.state == Completed ==> status.scopes == RESET_SCOPES + [Vpn])
  }

  /** What a reader saw and served. */
  ghost predicate ReaderRight(procs: map<Pid, Process>, pc: Pc) {
    match pc
    case ReadingFull(seen) => ClaimHolds(procs, seen) && seen.state != Queued && seen.state != Clearing
    case Served(seen, content) =>
      && ClaimHolds(procs, seen)
      && (seen.state == Queued || seen.state == Clearing ==> content.None?)
      && (ClaimsData(seen) ==>
            HasCleared(procs[seen.writer]) ==> AllAfter(Content(content), procs[seen.writer].cleared.value))
    case _ => true
  }

  ghost predicate ReadersRight(procs: map<Pid, Process>) {
    forall q :: q in procs ==> ReaderRight(procs, procs[q].pc)
  }

  ghost predicate Inv(s: State) {
    Exclusive(s) && FreshSince(s) && Progress(s) && Pending(s) && ClaimHolds(s.procs, s.status) && ReadersRight(s.procs)
  }

  // ---------------------------------------------------------------- one step keeps it

  /** The clearing record of every settled process is kept. */
  ghost predicate KeepsRecords(before: map<Pid, Process>, after: map<Pid, Process>) {
    forall p :: p in before ==>
      p in after && (Settled(before[p])
                     ==> Settled(after[p]) && after[p].cleared == before[p].cleared && after[p].left == before[p].left)
  }

  lemma RecordsKeepClaims(before: map<Pid, Process>, after: map<Pid, Process>, status: Status)
    requires KeepsRecords(before, after) && ClaimHolds(before, status)
    ensures ClaimHolds(after, status)
  {
  }

  /** Readers that do not move stay right. */
  lemma RecordsKeepReaders(before: map<Pid, Process>, p: Pid, proc: Process)
    requires KeepsRecords(before, before[p := proc]) && ReadersRight(before) && ReaderRight(before[p := proc], proc.pc)
    ensures ReadersRight(before[p := proc])
  {
    var after := before[p := proc];
    forall q | q in after && q != p ensures ReaderRight(after, after[q].pc) {
      assert ReaderRight(before, before[q].pc);
      if before[q].pc.ReadingFull? {
        RecordsKeepClaims(before, after, before[q].pc.seen);
      } else if before[q].pc.Served? {
        RecordsKeepClaims(before, after, before[q].pc.seenStatus);
      }
    }
  }

  /** A move of a process that stays outside the section, with caches and clock untouched. */
  lemma OutsideMoveKeepsInv(s: State, p: Pid, proc: Process, status: Status)
    requires Inv(s) && !proc.pc.Inside? && (p in s.procs ==> !s.procs[p].pc.Inside?)
    requires p in s.procs ==> proc.cleared == s.procs[p].cleared && proc.left == s.procs[p].left
    requires p !in s.procs ==> proc.cleared.None?
    requires ProgressOf(proc, s.full, s.discovery)
    requires ReaderRight(s.procs[p := proc], proc.pc)
    requires ClaimHolds(s.procs[p := proc], status)
    ensures Inv(s.(procs := s.procs[p := proc], status := status))
  {
    var after := s.(procs := s.procs[p := proc], status := status);
    assert Live(after) == Live(s);
    RecordsKeepReaders(s.procs, p, proc);
    forall r | r in after.procs && HasCleared(after.procs[r])
      ensures after.procs[r].cleared.value <= after.now && AllAfter(Live(after), after.procs[r].cleared.value)
    {
      assert r in s.procs && HasCleared(s.procs[r]);
    }
  }

  /** A move of the lock holder inside the section: caches may only lose data, keep it, or gain
      data that is live already or newer than the clock. */
  lemma InsideMoveKeepsInv(s: State, p: Pid, proc: Process, full: Option<Stamps>, discovery: Option<Stamps>,
                           status: Status, now: nat)
    requires Inv(s) && s.holder == Some(p) && proc.pc.Inside? && proc.kind == s.procs[p].kind
    requires s.procs[p].cleared.Some? ==> proc.cleared == s.procs[p].cleared && proc.left == s.procs[p].left
    requires (Settled(s.procs[p]) ==> Settled(proc)) && PendingOf(proc, full, now)
    requires now >= s.now
    requires forall x :: x in Content(full) + Content(discovery) + Carried(proc.pc) ==> x in Live(s) || x > s.now
    requires ProgressOf(proc, full, discovery)
    requires proc.cleared.Some? && s.procs[p].cleared.None? ==>
               && proc.cleared == Some(now)
               && (HasCleared(proc) ==> Content(full) + Content(discovery) + Carried(proc.pc) == {})
    requires ClaimHolds(s.procs[p := proc], status)
    ensures Inv(State(s.procs[p := proc], s.holder, full, discovery, status, now))
  {
    var after := State(s.procs[p := proc], s.holder, full, discovery, status, now);
    RecordsKeepReaders(s.procs, p, proc);
    assert Live(after) == Content(full) + Content(discovery) + Carried(proc.pc);
    forall r | r in after.procs && HasCleared(after.procs[r])
      ensures after.procs[r].cleared.value <= after.now && AllAfter(Live(after), after.procs[r].cleared.value)
    {
      if r != p || s.procs[p].cleared.Some? {
        assert HasCleared(s.procs[r]) && AllAfter(Live(s), s.procs[r].cleared.value);
      }
    }
    forall r | r in after.procs ensures ProgressOf(after.procs[r], full, discovery) {
      assert r != p ==> !s.procs[r].pc.Inside?;
    }
  }

  /** Leaving or losing the section. */
  lemma ReleaseKeepsInv(s: State, p: Pid, proc: Process)
    requires Inv(s) && p in s.procs && !proc.pc.Inside? && proc.kind == s.procs[p].kind
    requires proc.cleared == s.procs[p].cleared && proc.left == s.procs[p].left
    requires ProgressOf(proc, s.full, s.discovery) && ReaderRight(s.procs[p := proc], proc.pc)
    ensures Inv(s.(procs := s.procs[p := proc], holder := if s.holder == Some(p) then None else s.holder))
  {
    var after := s.(procs := s.procs[p := proc], holder := if s.holder == Some(p) then None else s.holder);
    assert Live(after) <= Live(s);
    RecordsKeepReaders(s.procs, p, proc);
    RecordsKeepClaims(s.procs, after.procs, s.status);
    forall r | r in after.procs && HasCleared(after.procs[r])
      ensures after.procs[r].cleared.value <= after.now && AllAfter(Live(after), after.procs[r].cleared.value)
    {
      assert HasCleared(s.procs[r]);
    }
  }

  lemma AcquireKeepsInv(s: State, p: Pid)
    requires Inv(s) && Enabled(s, Acquire(p))
    ensures Inv(Apply(s, Acquire(p)))
  {
    var proc := s.procs[p].(pc := Inside(FirstTask(s.procs[p].kind)));
    var after := Apply(s, Acquire(p));
    assert Live(after) == Live(s);
    forall r | r in after.procs && HasCleared(after.procs[r])
      ensures after.procs[r].cleared.value <= after.now && AllAfter(Live(after), after.procs[r].cleared.value)
    {
      assert HasCleared(s.procs[r]);
    }
  }

  lemma ExpiryKeepsInv(s: State, step: Step)
    requires Inv(s) && (step.ExpireFull? || step.ExpireDiscovery? || step.ExpireStatus? || step.MarkQueued?
                        || step.MarkInterrupted?)
    ensures Inv(Apply(s, step))
  {
    var after := Apply(s, step);
    assert Live(after) <= Live(s);
  }

  /** What one refresh step may do to the caches: lose, keep, or bring in data that is live
      already or newer than the clock. */
  lemma RefreshStepBringsFreshData(s: State, scope: Scope, pc: RefreshPc, fault: bool)
    ensures var after := RefreshStep(s, scope, pc, fault).0;
            var next := RefreshStep(s, scope, pc, fault).1;
            && after.procs == s.procs && after.holder == s.holder && after.status == s.status && after.now >= s.now
            && (forall x :: x in Content(after.full) + Content(after.discovery) + RefreshStamps(next) ==>
                  x in Content(s.full) + Content(s.discovery) + RefreshStamps(pc) || x > s.now)
  {
  }

  lemma WorkKeepsInv(s: State, p: Pid, fault: bool)
    requires Inv(s) && Enabled(s, Work(p, fault))
    ensures Inv(Apply(s, Work(p, fault)))
  {
    var proc := s.procs[p];
    match proc.pc.task {
      case Refreshing(scope, pc) => RefreshWorkKeepsInv(s, p, fault);
      case Refetch(index, pc) => RefetchWorkKeepsInv(s, p, fault);
      case _ => ResetWorkKeepsInv(s, p, fault);
    }
  }

  lemma RefreshWorkKeepsInv(s: State, p: Pid, fault: bool)
    requires Inv(s) && Enabled(s, Work(p, fault)) && s.procs[p].pc.task.Refreshing?
    ensures Inv(Apply(s, Work(p, fault)))
  {
    var proc := s.procs[p];
    var scope, pc := proc.pc.task.scope, proc.pc.task.pc;
    if pc.Refreshed? {
      InsideMoveKeepsInv(s, p, proc.(pc := Inside(Finished)), s.full, s.discovery, s.status, s.now);
    } else {
      var (after, next) := RefreshStep(s, scope, pc, fault);
      RefreshStepBringsFreshData(s, scope, pc, fault);
      InsideMoveKeepsInv(s, p, proc.(pc := Inside(Refreshing(scope, next))), after.full, after.discovery, s.status,
                         after.now);
    }
  }

  lemma RefetchWorkKeepsInv(s: State, p: Pid, fault: bool)
    requires Inv(s) && Enabled(s, Work(p, fault)) && s.procs[p].pc.task.Refetch?
    ensures Inv(Apply(s, Work(p, fault)))
  {
    var proc := s.procs[p];
    var index, pc := proc.pc.task.index, proc.pc.task.refetchPc;
    if index >= |RESET_SCOPES| {
      VpnMoveKeepsInv(s, p);
    } else if pc.Refreshed? {
      ScopeDoneKeepsInv(s, p, index, fault);
    } else {
      RefetchScopeKeepsInv(s, p, index, pc, fault);
    }
  }

  lemma VpnMoveKeepsInv(s: State, p: Pid)
    requires Inv(s) && s.holder == Some(p) && s.procs[p].pc.Inside? && s.procs[p].pc.task.Refetch?
    requires s.procs[p].pc.task.index >= |RESET_SCOPES|
    ensures Inv(Put(s, p, s.procs[p].(pc := Inside(VpnRefetch))))
  {
    InsideMoveKeepsInv(s, p, s.procs[p].(pc := Inside(VpnRefetch)), s.full, s.discovery, s.status, s.now);
  }

  lemma ScopeDoneKeepsInv(s: State, p: Pid, index: nat, fault: bool)
    requires Inv(s) && s.holder == Some(p) && s.procs[p].pc == Inside(Refetch(index, Refreshed))
    requires index < |RESET_SCOPES|
    ensures var completed := s.procs[p].completed + [RESET_SCOPES[index]];
            Inv(Put(WriteStatus(s, Status(Refetching, p, completed), fault), p,
                    s.procs[p].(pc := Inside(Refetch(index + 1, Starting)), completed := completed)))
  {
    var proc := s.procs[p];
    var completed := proc.completed + [RESET_SCOPES[index]];
    assert completed == RESET_SCOPES[..index + 1];
    InsideMoveKeepsInv(s, p, proc.(pc := Inside(Refetch(index + 1, Starting)), completed := completed), s.full,
                       s.discovery,
                       if fault then s.status else Status(Refetching, p, completed), s.now);
  }

  lemma PendingStep(s: State, proc: Process, pc: RefreshPc, fault: bool)
    requires proc.pc == Inside(Refetch(0, pc)) && PendingOf(proc, s.full, s.now) && !pc.Refreshed?
    ensures
      var (after, next) := RefreshStep(s, Discovery, pc, fault);
      PendingOf(proc.(pc := Inside(Refetch(0, next))), after.full, after.now)
  {
  }

  /** The refetch of a scope, without the note that it rewrote the discovery entry. */
  lemma RefetchMoveKeepsInv(s: State, p: Pid, index: nat, pc: RefreshPc, fault: bool)
    requires Inv(s) && s.holder == Some(p) && s.procs[p].pc == Inside(Refetch(index, pc))
    requires index < |RESET_SCOPES| && !pc.Refreshed?
    ensures var (after, next) := RefreshStep(s, RESET_SCOPES[index], pc, fault);
            Inv(Put(after, p, s.procs[p].(pc := Inside(Refetch(index, next)))))
  {
    var scope := RESET_SCOPES[index];
    var (after, next) := RefreshStep(s, scope, pc, fault);
    RefreshStepBringsFreshData(s, scope, pc, fault);
    if index == 0 {
      PendingStep(s, s.procs[p], pc, fault);
    }
    InsideMoveKeepsInv(s, p, s.procs[p].(pc := Inside(Refetch(index, next))), after.full, after.discovery, s.status,
                       after.now);
  }

  /** Noting the rewritten entry once everything live is fresh. */
  lemma RewritingKeepsInv(s: State, p: Pid)
    requires Inv(s) && p in s.procs && s.procs[p].cleared.Some? && !Settled(s.procs[p])
    requires s.procs[p].left.full || (s.procs[p].cleared.value <= s.now && AllAfter(Live(s), s.procs[p].cleared.value))
    ensures Inv(Put(s, p, s.procs[p].(left := s.procs[p].left.(rewritten := true))))
  {
    var after := Put(s, p, s.procs[p].(left := s.procs[p].left.(rewritten := true)));
    assert KeepsRecords(s.procs, after.procs);
    assert Live(after) == Live(s);
    forall r | r in after.procs && HasCleared(after.procs[r])
      ensures after.procs[r].cleared.value <= after.now && AllAfter(Live(after), after.procs[r].cleared.value)
    {
      if r != p {
        assert HasCleared(s.procs[r]);
      }
    }
  }

  /** The rewritten discovery entry, and what the reset carries on, were collected after the clear. */
  lemma RewrittenIsFresh(s: State, p: Pid, component: Stamps, cached: Option<Stamps>)
    requires Inv(s) && s.holder == Some(p) && s.procs[p].pc == Inside(Refetch(0, Loaded(component, cached)))
    requires !s.procs[p].left.full
    ensures
      var cleared := s.procs[p].cleared;
      cleared.Some? && cleared.value <= s.now && AllAfter(Content(s.full) + component + Content(cached), cleared.value)
  {
    var proc := s.procs[p];
    assert ProgressOf(proc, s.full, s.discovery);
    if HasCleared(proc) {
      assert component + Content(cached) <= Live(s);
    } else {
      assert PendingOf(proc, s.full, s.now);
    }
  }

  lemma RefetchScopeKeepsInv(s: State, p: Pid, index: nat, pc: RefreshPc, fault: bool)
    requires Inv(s) && s.holder == Some(p) && s.procs[p].pc == Inside(Refetch(index, pc))
    requires index < |RESET_SCOPES| && !pc.Refreshed?
    ensures var (after, next) := RefreshStep(s, RESET_SCOPES[index], pc, fault);
            Inv(Put(after, p, s.procs[p].(pc := Inside(Refetch(index, next)),
                                          left := LeftAfterRefresh(s.procs[p].left, RESET_SCOPES[index], pc, fault))))
  {
    var proc := s.procs[p];
    RefetchMoveKeepsInv(s, p, index, pc, fault);
    if Rewrites(RESET_SCOPES[index], pc, fault) {
      assert index == 0;
      var (after, next) := RefreshStep(s, Discovery, pc, fault);
      var moved := Put(after, p, proc.(pc := Inside(Refetch(0, next))));
      assert ProgressOf(proc, s.full, s.discovery);
      if !proc.left.full {
        RewrittenIsFresh(s, p, pc.loaded, pc.cached);
        assert Live(moved) <= Content(s.full) + pc.loaded + Content(pc.cached);
      }
      RewritingKeepsInv(moved, p);
      assert moved.procs[p := moved.procs[p].(left := proc.left.(rewritten := true))]
          == after.procs[p := proc.(pc := Inside(Refetch(0, next)), left := proc.left.(rewritten := true))];
    }
  }

  lemma ResetWorkKeepsInv(s: State, p: Pid, fault: bool)
    requires Inv(s) && Enabled(s, Work(p, fault)) && !s.procs[p].pc.task.Refreshing? && !s.procs[p].pc.task.Refetch?
    ensures Inv(Apply(s, Work(p, fault)))
  {
    var proc := s.procs[p];
    match proc.pc.task {
      case MarkClearing =>
        InsideMoveKeepsInv(s, p, proc.(pc := Inside(DeletingKey(0))), s.full, s.discovery,
                           if fault then s.status else Status(Clearing, p, []), s.now);
      case DeletingKey(key) =>
        DeleteKeyKeepsInv(s, p, fault);
      case ClearingTables =>
        InsideMoveKeepsInv(s, p, proc.(pc := Inside(Refetch(0, Starting)), cleared := Some(s.now)), s.full,
                           s.discovery, s.status, s.now);
      case OtherWork =>
        InsideMoveKeepsInv(s, p, proc.(pc := Inside(Finished)), s.full, s.discovery, s.status, s.now);
      case VpnRefetch =>
        InsideMoveKeepsInv(s, p, proc.(pc := Inside(Finished), completed := proc.completed + [Vpn]), s.full,
                           s.discovery, s.status, s.now);
      case _ =>
    }
  }

  /** A move within the deletes: each cache keeps its content or loses it. */
  lemma ClearingMoveKeepsInv(s: State, p: Pid, proc: Process, full: Option<Stamps>, discovery: Option<Stamps>)
    requires Inv(s) && s.holder == Some(p) && s.procs[p].pc.Inside? && s.procs[p].pc.task.DeletingKey?
    requires proc.pc.Inside? && Carried(proc.pc) == {} && proc.kind == s.procs[p].kind
        && proc.cleared == s.procs[p].cleared == None
    requires full in {None, s.full} && discovery in {None, s.discovery}
    requires ProgressOf(proc, full, discovery)
    ensures Inv(State(s.procs[p := proc], s.holder, full, discovery, s.status, s.now))
  {
    InsideMoveKeepsInv(s, p, proc, full, discovery, s.status, s.now);
  }

  function AfterDelete(proc: Process, key: nat, fault: bool, full: Option<Stamps>, discovery: Option<Stamps>): Process {
    proc.(pc := Inside(if key + 1 < CACHE_KEYS then DeletingKey(key + 1) else ClearingTables),
          left := LeftAfterDelete(proc.left, key, fault, full, discovery))
  }

  lemma DeleteMakesProgress(proc: Process, key: nat, fault: bool, full: Option<Stamps>, discovery: Option<Stamps>)
    requires ProgressOf(proc, full, discovery) && proc.pc == Inside(DeletingKey(key)) && proc.kind.Reset?
    ensures ProgressOf(AfterDelete(proc, key, fault, full, discovery),
                       if !fault && key == 0 then None else full, if !fault && key == 1 then None else discovery)
  {
  }

  lemma DeleteKeyKeepsInv(s: State, p: Pid, fault: bool)
    requires Inv(s) && Enabled(s, Work(p, fault)) && s.procs[p].pc.task.DeletingKey?
    ensures Inv(Apply(s, Work(p, fault)))
  {
    var proc, key := s.procs[p], s.procs[p].pc.task.key;
    assert ProgressOf(proc, s.full, s.discovery);
    DeleteMakesProgress(proc, key, fault, s.full, s.discovery);
    ClearingMoveKeepsInv(s, p, AfterDelete(proc, key, fault, s.full, s.discovery),
                         if !fault && key == 0 then None else s.full,
                         if !fault && key == 1 then None else s.discovery);
  }

  lemma StepKeepsInv(s: State, step: Step)
    requires Inv(s) && Enabled(s, step)
    ensures Inv(Apply(s, step))
  {
    match step {
      case Spawn(p, kind) =>
        OutsideMoveKeepsInv(s, p, New(kind), s.status);
      case Acquire(p) => AcquireKeepsInv(s, p);
      case SkipLocked(p) => OutsideMoveKeepsInv(s, p, s.procs[p].(pc := Gone), s.status);
      case Work(p, fault) => WorkKeepsInv(s, p, fault);
      case Raise(p) =>
        ReleaseKeepsInv(s, p, s.procs[p].(pc := if s.procs[p].kind.Reset? then Leaving(Failed) else Gone));
      case Unlock(p) =>
        ReleaseKeepsInv(s, p, s.procs[p].(pc := if s.procs[p].kind.Reset? then Leaving(Completed) else Gone));
      case Report(p, lost) =>
        OutsideMoveKeepsInv(s, p, s.procs[p].(pc := Gone), if lost then s.status else Outcome(s.procs[p], p));
      case ReadStatus(p, fault) => ReadStatusKeepsInv(s, p, fault);
      case ReadFull(p, fault) => ReadFullKeepsInv(s, p, fault);
      case Crash(p) => ReleaseKeepsInv(s, p, s.procs[p].(pc := Gone));
      case _ => ExpiryKeepsInv(s, step);
    }
  }

  lemma ReadStatusKeepsInv(s: State, p: Pid, fault: bool)
    requires Inv(s) && Enabled(s, ReadStatus(p, fault))
    ensures Inv(Apply(s, ReadStatus(p, fault)))
  {
    var seen := if fault then Status(NoReset, 0, []) else s.status;
    var proc := s.procs[p].(pc := if seen.state in {Queued, Clearing} then Served(seen, None) else ReadingFull(seen));
    OutsideMoveKeepsInv(s, p, proc, s.status);
  }

  lemma ReadFullKeepsInv(s: State, p: Pid, fault: bool)
    requires Inv(s) && Enabled(s, ReadFull(p, fault))
    ensures Inv(Apply(s, ReadFull(p, fault)))
  {
    var seen := s.procs[p].pc.seen;
    var proc := s.procs[p].(pc := Served(seen, if fault then None else s.full));
    OutsideMoveKeepsInv(s, p, proc, s.status);
  }

  // ---------------------------------------------------------------- results over whole runs

  /** Every state any interleaving reaches satisfies the invariant. */
  lemma {:induction false} RunKeepsInv(full: Option<Stamps>, discovery: Option<Stamps>, now: nat, steps: seq<Step>)
    requires Run(Initial(full, discovery, now), steps).Some?
    ensures Inv(Run(Initial(full, discovery, now), steps).value)
  {
    if steps != [] {
      RunKeepsInv(full, discovery, now, steps[..|steps| - 1]);
      StepKeepsInv(Run(Initial(full, discovery, now), steps[..|steps| - 1]).value, steps[|steps| - 1]);
    }
  }

  /** At most one process is in the section, and the lock is held by nobody else: a process
      that left, failed or died has freed it. */
  lemma SectionIsExclusive(full: Option<Stamps>, discovery: Option<Stamps>, now: nat, steps: seq<Step>, p: Pid, q: Pid)
    requires Run(Initial(full, discovery, now), steps).Some?
    ensures
      var s := Run(Initial(full, discovery, now), steps).value;
      && (p in s.procs && s.procs[p].pc.Inside? && q in s.procs && s.procs[q].pc.Inside? ==> p == q)
      && (s.holder == Some(p) <==> p in s.procs && s.procs[p].pc.Inside?)
  {
    RunKeepsInv(full, discovery, now, steps);
  }

  /** While the status says a reset is refetching or has completed, it lists scopes refetched in
      their order (all of them once completed), and everything in the dashboard cache was collected
      after that reset finished clearing, unless it left something behind: a dashboard entry it
      could not delete, or a discovery entry it could neither delete nor rewrite. No other fault,
      expiry, crash or concurrent reset matters. */
  lemma RefetchedDashboardIsFresh(full: Option<Stamps>, discovery: Option<Stamps>, now: nat, steps: seq<Step>)
    requires Run(Initial(full, discovery, now), steps).Some?
    ensures
      var s := Run(Initial(full, discovery, now), steps).value;
      ClaimsData(s.status) ==>
        && s.status.writer in s.procs
        && s.procs[s.status.writer].cleared.Some?
        && (s.status.state == Refetching ==> s.status.scopes != [] && s.status.scopes <= RESET_SCOPES)
        && (s.status.state == Completed ==> s.status.scopes == RESET_SCOPES + [Vpn])
        && (!Stale(s.procs[s.status.writer]) ==> AllAfter(Content(s.full), s.procs[s.status.writer].cleared.value))
  {
    RunKeepsInv(full, discovery, now, steps);
  }

  /** A reader serves an empty dashboard when the status it read was queued or clearing, and
      only data collected after the clear when that status was refetching or completed. */
  lemma ReadersServeEmptyOrFresh(full: Option<Stamps>, discovery: Option<Stamps>, now: nat, steps: seq<Step>, q: Pid)
    requires Run(Initial(full, discovery, now), steps).Some?
    ensures
      var s := Run(Initial(full, discovery, now), steps).value;
      q in s.procs && s.procs[q].pc.Served? ==>
        var seen, content := s.procs[q].pc.seenStatus, s.procs[q].pc.content;
        && (seen.state == Queued || seen.state == Clearing ==> content.None?)
        && (ClaimsData(seen) ==>
              && seen.writer in s.procs
              && s.procs[seen.writer].cleared.Some?
              && (!Stale(s.procs[seen.writer]) ==> AllAfter(Content(content), s.procs[seen.writer].cleared.value)))
  {
    RunKeepsInv(full, discovery, now, steps);
  }

  // ---------------------------------------------------------------- the failed deletes do matter

  lemma Extend(s0: State, steps: seq<Step>, s: State, step: Step) returns (more: seq<Step>, next: State)
    requires Run(s0, steps) == Some(s) && Enabled(s, step)
    ensures Run(s0, more) == Some(next) && next == Apply(s, step)
  {
    more, next := steps + [step], Apply(s, step);
    assert more[..|steps|] == steps;
  }

  lemma ResetStartsDeleting() returns (steps: seq<Step>, s: State)
    ensures Run(Initial(Some({0}), None, 5), steps) == Some(s)
    ensures s == State(map[0 := Process(Reset, Inside(DeletingKey(0)), [], None, NOTHING_LEFT)],
                       Some(0), Some({0}), None, Status(Clearing, 0, []), 5)
  {
    var s0 := Initial(Some({0}), None, 5);
    steps, s := Extend(s0, [], s0, Spawn(0, Reset));
    steps, s := Extend(s0, steps, s, Acquire(0));
    steps, s := Extend(s0, steps, s, Work(0, false));
  }

  lemma ResetClearsWithFailedDelete() returns (steps: seq<Step>, s: State)
    ensures Run(Initial(Some({0}), None, 5), steps) == Some(s)
    ensures s == State(map[0 := Process(Reset, Inside(Refetch(0, Starting)), [], Some(5),
                                        Leftover(true, false, false))],
                       Some(0), Some({0}), None, Status(Clearing, 0, []), 5)
  {
    var s0 := Initial(Some({0}), None, 5);
    steps, s := ResetStartsDeleting();
    steps, s := Extend(s0, steps, s, Work(0, true));
    steps, s := Extend(s0, steps, s, Work(0, false));
    steps, s := Extend(s0, steps, s, Work(0, false));
    steps, s := Extend(s0, steps, s, Work(0, false));
    steps, s := Extend(s0, steps, s, Work(0, false));
  }

  lemma HalfRefetchedWithFailedDelete() returns (steps: seq<Step>, s: State)
    ensures Run(Initial(Some({0}), None, 5), steps) == Some(s)
    ensures s == State(map[0 := Process(Reset, Inside(Refetch(0, Loaded({6}, Some({0})))), [], Some(5),
                                        Leftover(true, false, false))],
                       Some(0), Some({0}), None, Status(Clearing, 0, []), 6)
  {
    var s0 := Initial(Some({0}), None, 5);
    steps, s := ResetClearsWithFailedDelete();
    steps, s := Extend(s0, steps, s, Work(0, false));
    steps, s := Extend(s0, steps, s, Work(0, false));
    steps, s := Extend(s0, steps, s, Work(0, false));
    assert {} + {6} == {6};
  }

  /** If deleting the dashboard entry fails, data collected before the reset survives under a
      status that says refetching. */
  lemma FailedDeleteLeavesStaleData() returns (steps: seq<Step>, s: State)
    ensures Run(Initial(Some({0}), None, 5), steps) == Some(s)
    ensures ClaimsData(s.status) && s.status.writer == 0 && 0 in s.procs && s.procs[0].cleared == Some(5)
    ensures 0 in Content(s.full)
  {
    var s0 := Initial(Some({0}), None, 5);
    steps, s := HalfRefetchedWithFailedDelete();
    steps, s := Extend(s0, steps, s, Work(0, false));
    steps, s := Extend(s0, steps, s, Work(0, false));
    steps, s := Extend(s0, steps, s, Work(0, false));
  }

  lemma ResetStartsWithDiscovery() returns (steps: seq<Step>, s: State)
    ensures Run(Initial(None, Some({0}), 5), steps) == Some(s)
    ensures s == State(map[0 := Process(Reset, Inside(DeletingKey(0)), [], None, NOTHING_LEFT)],
                       Some(0), None, Some({0}), Status(Clearing, 0, []), 5)
  {
    var s0 := Initial(None, Some({0}), 5);
    steps, s := Extend(s0, [], s0, Spawn(0, Reset));
    steps, s := Extend(s0, steps, s, Acquire(0));
    steps, s := Extend(s0, steps, s, Work(0, false));
  }

  lemma ResetClearsWithKeptDiscovery() returns (steps: seq<Step>, s: State)
    ensures Run(Initial(None, Some({0}), 5), steps) == Some(s)
    ensures s == State(map[0 := Process(Reset, Inside(Refetch(0, Starting)), [], Some(5),
                                        Leftover(false, true, false))],
                       Some(0), None, Some({0}), Status(Clearing, 0, []), 5)
  {
    var s0 := Initial(None, Some({0}), 5);
    steps, s := ResetStartsWithDiscovery();
    steps, s := Extend(s0, steps, s, Work(0, false));
    steps, s := Extend(s0, steps, s, Work(0, true));
    steps, s := Extend(s0, steps, s, Work(0, false));
    steps, s := Extend(s0, steps, s, Work(0, false));
    steps, s := Extend(s0, steps, s, Work(0, false));
  }

  /** The reset that kept the discovery entry, further on. */
  function WithKeptDiscovery(task: Task, completed: seq<Scope>, full: Option<Stamps>, status: Status, now: nat): State {
    State(map[0 := Process(Reset, Inside(task), completed, Some(5), Leftover(false, true, false))], Some(0), full,
          Some({0}), status, now)
  }

  ghost predicate Reaches(steps: seq<Step>, s: State) {
    Run(Initial(None, Some({0}), 5), steps) == Some(s)
  }

  /** One step of a refetch that rewrites nothing. */
  lemma RefetchOnce(steps: seq<Step>, index: nat, pc: RefreshPc, next: RefreshPc, completed: seq<Scope>,
                    full: Option<Stamps>, written: Option<Stamps>, status: Status, now: nat, later: nat, fault: bool)
    returns (more: seq<Step>)
    requires Reaches(steps, WithKeptDiscovery(Refetch(index, pc), completed, full, status, now))
    requires index < |RESET_SCOPES| && !pc.Refreshed? && !Rewrites(RESET_SCOPES[index], pc, fault)
    requires
      var (after, pc') := RefreshStep(WithKeptDiscovery(Refetch(index, pc), completed, full, status, now),
                                      RESET_SCOPES[index], pc, fault);
      after.full == written && after.now == later && pc' == next
    ensures Reaches(more, WithKeptDiscovery(Refetch(index, next), completed, written, status, later))
  {
    var before := WithKeptDiscovery(Refetch(index, pc), completed, full, status, now);
    var after := WithKeptDiscovery(Refetch(index, next), completed, written, status, later);
    assert Apply(before, Work(0, fault)).procs == after.procs;
    var s: State;
    more, s := Extend(Initial(None, Some({0}), 5), steps, before, Work(0, fault));
  }

  lemma RefetchedOnce(steps: seq<Step>, index: nat, completed: seq<Scope>, full: Option<Stamps>, status: Status,
                      now: nat)
    returns (more: seq<Step>)
    requires Reaches(steps, WithKeptDiscovery(Refetch(index, Refreshed), completed, full, status, now))
    requires index < |RESET_SCOPES|
    ensures
      var scopes := completed + [RESET_SCOPES[index]];
      Reaches(more, WithKeptDiscovery(Refetch(index + 1, Starting), scopes, full, Status(Refetching, 0, scopes), now))
  {
    var before, scopes := WithKeptDiscovery(Refetch(index, Refreshed), completed, full, status, now),
        completed + [RESET_SCOPES[index]];
    var after := WithKeptDiscovery(Refetch(index + 1, Starting), scopes, full, Status(Refetching, 0, scopes), now);
    assert Apply(before, Work(0, false)).procs == after.procs;
    var s: State;
    more, s := Extend(Initial(None, Some({0}), 5), steps, before, Work(0, false));
  }

  lemma DiscoveryIsNotRewritten() returns (steps: seq<Step>)
    ensures Reaches(steps, WithKeptDiscovery(Refetch(1, Starting), [Discovery], None,
                                             Status(Refetching, 0, [Discovery]), 6))
  {
    var s: State;
    var clearing := Status(Clearing, 0, []);
    steps, s := ResetClearsWithKeptDiscovery();
    steps := RefetchOnce(steps, 0, Starting, Based({}), [], None, None, clearing, 5, 5, false);
    steps := RefetchOnce(steps, 0, Based({}), Refreshed, [], None, None, clearing, 5, 6, true);
    steps := RefetchedOnce(steps, 0, [], None, clearing, 6);
    assert [] + [Discovery] == [Discovery];
  }

  /** If deleting the discovery entry fails and so does its refetch, the health refetch builds on the
      entry from before the reset, and it reaches the dashboard under a status that says refetching. */
  lemma KeptDiscoveryIsReused() returns (steps: seq<Step>, s: State)
    ensures Run(Initial(None, Some({0}), 5), steps) == Some(s)
    ensures ClaimsData(s.status) && s.status.writer == 0 && 0 in s.procs && s.procs[0].cleared == Some(5)
    ensures !s.procs[0].left.full && 0 in Content(s.full)
  {
    var data, status := {0} + {7}, Status(Refetching, 0, [Discovery]);
    steps := DiscoveryIsNotRewritten();
    steps := RefetchOnce(steps, 1, Starting, Based({0}), [Discovery], None, None, status, 6, 6, false);
    steps := RefetchOnce(steps, 1, Based({0}), Collected(data), [Discovery], None, None, status, 6, 7, false);
    steps := RefetchOnce(steps, 1, Collected(data), Loaded(data, None), [Discovery], None, None, status, 7, 7, false);
    steps := RefetchOnce(steps, 1, Loaded(data, None), DiscoverySaved(data, None), [Discovery], None, None, status, 7,
                         7, false);
    steps := RefetchOnce(steps, 1, DiscoverySaved(data, None), Refreshed, [Discovery], None, Some(data), status, 7, 7,
                         false);
    s := WithKeptDiscovery(Refetch(1, Refreshed), [Discovery], Some(data), status, 7);
  }
}
