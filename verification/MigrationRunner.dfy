/** Any number of concurrent, crashing runs of apply_migrations (backend/apply_migrations.py) over one
    directory. Runs interleave step by step; each database transaction commits at once. */
module MigrationRunner {
  import opened Wrappers
  import opened Migrations

  /** A row of schema_migrations. */
  datatype Row = Row(filename: string, checksum: string)

  type Applied = map<nat, Row>

  /** Where a run stands: `rows` is what it read of schema_migrations, `next` the file it looks at. */
  datatype Phase =
    | Locked
    | Looking(rows: Applied, next: nat)
    | Executing(rows: Applied, next: nat)
    | Succeeded
    | Failed

  /** Runs that have not taken the lock yet hold nothing and have no phase. `committed` lists the
      migrations whose transaction went through. */
  datatype System = System(lock: Option<nat>, phases: map<nat, Phase>, applied: Applied, committed: seq<nat>)

  datatype Step =
    | TakeLock(run: nat)
    | ReadRows(run: nat)
    | Skip(run: nat)
    | Mismatch(run: nat)
    | Begin(run: nat)
    | Commit(run: nat)
    | Finish(run: nat)
    | Crash(run: nat)

  function RowOf(m: Migration): Row {
    Row(m.filename, m.checksum)
  }

  predicate Enabled(ms: seq<Migration>, s: System, step: Step) {
    match step
    case TakeLock(run) => run !in s.phases && s.lock == None
    case ReadRows(run) => run in s.phases && s.phases[run].Locked?
    case Skip(run) =>
      run in s.phases && s.phases[run].Looking? && var p := s.phases[run];
      p.next < |ms| && ms[p.next].version in p.rows && p.rows[ms[p.next].version] == RowOf(ms[p.next])
    case Mismatch(run) =>
      run in s.phases && s.phases[run].Looking? && var p := s.phases[run];
      p.next < |ms| && ms[p.next].version in p.rows && p.rows[ms[p.next].version] != RowOf(ms[p.next])
    case Begin(run) =>
      run in s.phases && s.phases[run].Looking? && var p := s.phases[run];
      p.next < |ms| && ms[p.next].version !in p.rows
    case Commit(run) => run in s.phases && s.phases[run].Executing? && s.phases[run].next < |ms|
    case Finish(run) => run in s.phases && s.phases[run].Looking? && s.phases[run].next >= |ms|
    case Crash(run) => run in s.phases && !s.phases[run].Succeeded? && !s.phases[run].Failed?
  }

  /** A run that ends, in any way, gives the lock back; a crash also undoes its open transaction. An
      insert does not ask whether its version is taken: CommitsFindTheirVersionFree says it never is. */
  function Apply(ms: seq<Migration>, s: System, step: Step): System
    requires Enabled(ms, s, step)
  {
    match step
    case TakeLock(run) => s.(lock := Some(run), phases := s.phases[run := Locked])
    case ReadRows(run) => s.(phases := s.phases[run := Looking(s.applied, 0)])
    case Skip(run) => s.(phases := s.phases[run := Looking(s.phases[run].rows, s.phases[run].next + 1)])
    case Mismatch(run) => s.(lock := None, phases := s.phases[run := Failed])
    case Begin(run) => s.(phases := s.phases[run := Executing(s.phases[run].rows, s.phases[run].next)])
    case Commit(run) =>
      var m := ms[s.phases[run].next];
      s.(phases := s.phases[run := Looking(s.phases[run].rows, s.phases[run].next + 1)],
         applied := s.applied[m.version := RowOf(m)],
         committed := s.committed + [m.version])
    case Finish(run) => s.(lock := None, phases := s.phases[run := Succeeded])
    case Crash(run) => s.(lock := None, phases := s.phases[run := Failed])
  }

  ghost predicate CanRun(ms: seq<Migration>, s: System, steps: seq<Step>)
    decreases steps
  {
    steps == [] || (Enabled(ms, s, steps[0]) && CanRun(ms, Apply(ms, s, steps[0]), steps[1..]))
  }

  ghost function Run(ms: seq<Migration>, s: System, steps: seq<Step>): System
    requires CanRun(ms, s, steps)
    decreases steps
  {
    if steps == [] then s else Run(ms, Apply(ms, s, steps[0]), steps[1..])
  }

  function Initial(applied: Applied): System {
    System(None, map[], applied, [])
  }

  // ---------------------------------------------------------------- what every step keeps

  ghost predicate Working(p: Phase) {
    p.Locked? || p.Looking? || p.Executing?
  }

  /** The row was written for this file, with this content. */
  ghost predicate OfFile(row: Row, m: Migration) {
    row.filename == m.filename && row.checksum == m.checksum
  }

  /** The migrations before `next` are in the table, as the directory has them. */
  ghost predicate Settled(ms: seq<Migration>, applied: Applied, next: nat) {
    next <= |ms| && forall j :: 0 <= j < next ==> ms[j].version in applied && OfFile(applied[ms[j].version], ms[j])
  }

  /** A run has read everything in the table except what it has itself committed since. */
  ghost predicate Current(ms: seq<Migration>, applied: Applied, rows: Applied, next: nat) {
    && (forall v :: v in rows ==> v in applied && applied[v] == rows[v])
    && (forall v :: v in applied ==> v in rows || exists j :: 0 <= j < next && j < |ms| && ms[j].version == v)
  }

  ghost predicate PhaseFits(ms: seq<Migration>, applied: Applied, p: Phase) {
    match p
    case Locked => true
    case Looking(rows, next) => Settled(ms, applied, next) && Current(ms, applied, rows, next)
    case Executing(rows, next) => Settled(ms, applied, next) && Current(ms, applied, rows, next) && next < |ms|
        && ms[next].version !in rows
    case Succeeded => Settled(ms, applied, |ms|)
    case Failed => true
  }

  ghost predicate Inv(ms: seq<Migration>, s: System) {
    && (forall run :: run in s.phases ==> (Working(s.phases[run]) <==> s.lock == Some(run)))
    && (s.lock.Some? ==> s.lock.value in s.phases)
    && (forall run :: run in s.phases ==> PhaseFits(ms, s.applied, s.phases[run]))
  }

  /** Changing one run's phase, when the new phase fits and the lock follows it. */
  lemma PhaseChangeKeepsInv(ms: seq<Migration>, s: System, run: nat, p: Phase)
    requires Inv(ms, s) && PhaseFits(ms, s.applied, p)
    requires s.lock == None || s.lock == Some(run)
    ensures Inv(ms, s.(lock := if Working(p) then Some(run) else None, phases := s.phases[run := p]))
  {
  }

  /** The version a run is about to insert is not in the table: the key of the table never refuses it. */
  lemma VersionIsFree(ms: seq<Migration>, s: System, run: nat)
    requires Ascending(ms) && Inv(ms, s) && run in s.phases && s.phases[run].Executing?
    ensures s.phases[run].next < |ms| && ms[s.phases[run].next].version !in s.applied
  {
    assert PhaseFits(ms, s.applied, s.phases[run]);
  }

  lemma CommitKeepsInv(ms: seq<Migration>, s: System, run: nat)
    requires Ascending(ms) && Inv(ms, s) && Enabled(ms, s, Commit(run))
    ensures Inv(ms, Apply(ms, s, Commit(run)))
  {
    var p, t := s.phases[run], Apply(ms, s, Commit(run));
    VersionIsFree(ms, s, run);
    forall other | other in t.phases && other != run ensures PhaseFits(ms, t.applied, t.phases[other]) {
      assert s.lock == Some(run);
      assert !Working(s.phases[other]);
    }
  }

  lemma StepKeepsInv(ms: seq<Migration>, s: System, step: Step)
    requires Ascending(ms) && Inv(ms, s) && Enabled(ms, s, step)
    ensures Inv(ms, Apply(ms, s, step))
  {
    match step {
      case Commit(run) => CommitKeepsInv(ms, s, run);
      case TakeLock(run) => PhaseChangeKeepsInv(ms, s, run, Locked);
      case ReadRows(run) => PhaseChangeKeepsInv(ms, s, run, Looking(s.applied, 0));
      case Skip(run) =>
        PhaseChangeKeepsInv(ms, s, run, Looking(s.phases[run].rows, s.phases[run].next + 1));
      case Mismatch(run) => PhaseChangeKeepsInv(ms, s, run, Failed);
      case Begin(run) =>
        PhaseChangeKeepsInv(ms, s, run, Executing(s.phases[run].rows, s.phases[run].next));
      case Finish(run) => PhaseChangeKeepsInv(ms, s, run, Succeeded);
      case Crash(run) => PhaseChangeKeepsInv(ms, s, run, Failed);
    }
  }

  lemma {:induction false} RunKeepsInv(ms: seq<Migration>, s: System, steps: seq<Step>)
    requires Ascending(ms) && Inv(ms, s) && CanRun(ms, s, steps)
    ensures Inv(ms, Run(ms, s, steps))
    decreases steps
  {
    if steps != [] {
      StepKeepsInv(ms, s, steps[0]);
      RunKeepsInv(ms, Apply(ms, s, steps[0]), steps[1..]);
    }
  }

  /** At most one run is between taking and releasing the lock, and the lock is never left behind. */
  lemma RunsExcludeEachOther(ms: seq<Migration>, applied: Applied, steps: seq<Step>, a: nat, b: nat)
    requires Ascending(ms) && CanRun(ms, Initial(applied), steps)
    ensures
      var s := Run(ms, Initial(applied), steps);
      && (a in s.phases && b in s.phases && Working(s.phases[a]) && Working(s.phases[b]) ==> a == b)
      && (s.lock == Some(a) ==> a in s.phases && Working(s.phases[a]))
  {
    RunKeepsInv(ms, Initial(applied), steps);
  }

  // ---------------------------------------------------------------- success

  /** A run that succeeds leaves every file in the table under its own name and checksum. */
  lemma SuccessMeansAgreement(ms: seq<Migration>, applied: Applied, steps: seq<Step>, run: nat, j: nat)
    requires Ascending(ms) && CanRun(ms, Initial(applied), steps) && j < |ms|
    requires var s := Run(ms, Initial(applied), steps); run in s.phases && s.phases[run].Succeeded?
    ensures
      var s := Run(ms, Initial(applied), steps);
      ms[j].version in s.applied && OfFile(s.applied[ms[j].version], ms[j])
  {
    RunKeepsInv(ms, Initial(applied), steps);
  }

  /** No step sends a migration's SQL. */
  ghost predicate SendsNothing(steps: seq<Step>) {
    forall k :: 0 <= k < |steps| ==> !steps[k].Begin? && !steps[k].Commit?
  }

  /** With everything applied nothing is executed any more, by anybody. */
  lemma {:induction false} NothingLeftToExecute(ms: seq<Migration>, s: System, steps: seq<Step>)
    requires Ascending(ms) && Inv(ms, s) && CanRun(ms, s, steps) && Settled(ms, s.applied, |ms|)
    ensures SendsNothing(steps) && Run(ms, s, steps).applied == s.applied
    decreases steps
  {
    if steps != [] {
      StepKeepsInv(ms, s, steps[0]);
      NothingLeftToExecute(ms, Apply(ms, s, steps[0]), steps[1..]);
    }
  }

  /** After one success no further run sends any migration's SQL. */
  lemma AfterSuccessNothingRuns(ms: seq<Migration>, applied: Applied, steps: seq<Step>, later: seq<Step>, run: nat)
    requires Ascending(ms) && CanRun(ms, Initial(applied), steps)
    requires
      var s := Run(ms, Initial(applied), steps);
      run in s.phases && s.phases[run].Succeeded? && CanRun(ms, s, later)
    ensures SendsNothing(later)
    ensures var s := Run(ms, Initial(applied), steps); Run(ms, s, later).applied == s.applied
  {
    RunKeepsInv(ms, Initial(applied), steps);
    NothingLeftToExecute(ms, Run(ms, Initial(applied), steps), later);
  }

  // ---------------------------------------------------------------- at most once, and in order

  /** The table holds what it held at the start and what was committed since, each version once. */
  ghost predicate Accounted(before: Applied, s: System) {
    && (forall v :: v in s.applied <==> v in before || v in s.committed)
    && (forall v :: v in before ==> v !in s.committed && s.applied[v] == before[v])
    && (forall i, j :: 0 <= i < j < |s.committed| ==> s.committed[i] != s.committed[j])
  }

  lemma {:induction false} RunAccounts(ms: seq<Migration>, before: Applied, s: System, steps: seq<Step>)
    requires Ascending(ms) && Inv(ms, s) && CanRun(ms, s, steps) && Accounted(before, s)
    ensures Accounted(before, Run(ms, s, steps))
    decreases steps
  {
    if steps != [] {
      StepKeepsInv(ms, s, steps[0]);
      if steps[0].Commit? {
        CommitAccounts(ms, before, s, steps[0].run);
      }
      RunAccounts(ms, before, Apply(ms, s, steps[0]), steps[1..]);
    }
  }

  lemma CommitAccounts(ms: seq<Migration>, before: Applied, s: System, run: nat)
    requires Ascending(ms) && Inv(ms, s) && Enabled(ms, s, Commit(run)) && Accounted(before, s)
    ensures Accounted(before, Apply(ms, s, Commit(run)))
  {
    VersionIsFree(ms, s, run);
    var m, t := ms[s.phases[run].next], Apply(ms, s, Commit(run));
    assert t.committed == s.committed + [m.version] && t.applied == s.applied[m.version := RowOf(m)];
    forall i | 0 <= i < |s.committed| ensures s.committed[i] != m.version {
      assert s.committed[i] in s.committed;
    }
  }

  /** In every reachable state the version about to be inserted is free. */
  lemma CommitsFindTheirVersionFree(ms: seq<Migration>, applied: Applied, steps: seq<Step>, run: nat)
    requires Ascending(ms) && CanRun(ms, Initial(applied), steps)
    requires var s := Run(ms, Initial(applied), steps); run in s.phases && s.phases[run].Executing?
    ensures var s := Run(ms, Initial(applied), steps);
            s.phases[run].next < |ms| && ms[s.phases[run].next].version !in s.applied
  {
    RunKeepsInv(ms, Initial(applied), steps);
    VersionIsFree(ms, Run(ms, Initial(applied), steps), run);
  }

  /** No migration's SQL is committed twice, nor when it was applied before, in any interleaving: the
      lock alone sees to it. */
  lemma EachMigrationCommitsOnce(ms: seq<Migration>, applied: Applied, steps: seq<Step>)
    requires Ascending(ms) && CanRun(ms, Initial(applied), steps)
    ensures Accounted(applied, Run(ms, Initial(applied), steps))
  {
    RunAccounts(ms, applied, Initial(applied), steps);
  }

  function VersionsOf(ms: seq<Migration>, from: nat, to: nat): seq<nat>
    requires from <= to <= |ms|
  {
    if from == to then [] else VersionsOf(ms, from, to - 1) + [ms[to - 1].version]
  }

  /** The table holds exactly the first k files' versions. */
  ghost predicate PrefixApplied(ms: seq<Migration>, applied: Applied, k: nat) {
    && k <= |ms|
    && (forall j :: 0 <= j < k ==> ms[j].version in applied)
    && (forall v :: v in applied ==> exists j :: 0 <= j < k && ms[j].version == v)
  }

  lemma PrefixStops(ms: seq<Migration>, applied: Applied, k: nat)
    requires Ascending(ms) && PrefixApplied(ms, applied, k) && k < |ms|
    ensures ms[k].version !in applied
  {
    forall j | 0 <= j < k ensures ms[j].version != ms[k].version {
    }
  }

  lemma SettledWithinPrefix(ms: seq<Migration>, applied: Applied, next: nat, k: nat)
    requires Ascending(ms) && Settled(ms, applied, next) && PrefixApplied(ms, applied, k)
    ensures next <= k
  {
    if k < |ms| {
      PrefixStops(ms, applied, k);
    }
  }

  /** The next commit can only be that of the first file not applied. */
  lemma CommitIsNext(ms: seq<Migration>, s: System, run: nat, k: nat)
    requires Ascending(ms) && Inv(ms, s) && Enabled(ms, s, Commit(run)) && PrefixApplied(ms, s.applied, k)
    ensures s.phases[run].next == k < |ms|
    ensures PrefixApplied(ms, Apply(ms, s, Commit(run)).applied, k + 1)
  {
    var next := s.phases[run].next;
    VersionIsFree(ms, s, run);
    SettledWithinPrefix(ms, s.applied, next, k);
    var after := Apply(ms, s, Commit(run)).applied;
    assert after == s.applied[ms[next].version := RowOf(ms[next])];
    forall v | v in after ensures exists j :: 0 <= j < k + 1 && ms[j].version == v {
      if v == ms[k].version {
      } else {
        assert v in s.applied;
        var j :| 0 <= j < k && ms[j].version == v;
      }
    }
  }

  /** The table holds the first k files, and what was committed are those from `from` on. */
  ghost predicate PrefixState(ms: seq<Migration>, s: System, from: nat, k: nat) {
    from <= k && PrefixApplied(ms, s.applied, k) && s.committed == VersionsOf(ms, from, k)
  }

  lemma CommitExtendsPrefix(ms: seq<Migration>, s: System, run: nat, from: nat, k: nat)
    requires Ascending(ms) && Inv(ms, s) && Enabled(ms, s, Commit(run)) && PrefixState(ms, s, from, k)
    ensures PrefixState(ms, Apply(ms, s, Commit(run)), from, k + 1)
  {
    CommitIsNext(ms, s, run, k);
  }

  lemma {:induction false} PrefixStays(ms: seq<Migration>, s: System, steps: seq<Step>, from: nat, k: nat)
    returns (end: nat)
    requires Ascending(ms) && Inv(ms, s) && CanRun(ms, s, steps) && PrefixState(ms, s, from, k)
    ensures k <= end && PrefixState(ms, Run(ms, s, steps), from, end)
    decreases steps
  {
    end := k;
    if steps != [] {
      StepKeepsInv(ms, s, steps[0]);
      if steps[0].Commit? {
        CommitExtendsPrefix(ms, s, steps[0].run, from, k);
        end := PrefixStays(ms, Apply(ms, s, steps[0]), steps[1..], from, k + 1);
      } else {
        end := PrefixStays(ms, Apply(ms, s, steps[0]), steps[1..], from, k);
      }
    }
  }

  /** Started on a prefix of the files, the table stays one, and the commits are exactly the next
      files in order. */
  lemma AppliedStaysAPrefix(ms: seq<Migration>, applied: Applied, steps: seq<Step>, k: nat)
    requires Ascending(ms) && CanRun(ms, Initial(applied), steps) && PrefixApplied(ms, applied, k)
    ensures exists end :: k <= end && PrefixState(ms, Run(ms, Initial(applied), steps), k, end)
  {
    var end := PrefixStays(ms, Initial(applied), steps, k, k);
  }

  // ---------------------------------------------------------------- one undisturbed run

  /** How a run ends: at the first file that was applied differently, or whose SQL fails. */
  datatype End = Completed | Differs(index: nat) | SqlFails(index: nat)

  ghost predicate Passes(m: Migration, applied: Applied, fails: nat -> bool) {
    if m.version in applied then OfFile(applied[m.version], m) else !fails(m.version)
  }

  ghost function WithFiles(ms: seq<Migration>, applied: Applied, n: nat): Applied
    requires n <= |ms|
  {
    if n == 0 then applied
    else
      var earlier, m := WithFiles(ms, applied, n - 1), ms[n - 1];
      if m.version in applied then earlier else earlier[m.version := Row(m.filename, m.checksum)]
  }

  ghost function NewVersions(ms: seq<Migration>, applied: Applied, n: nat): seq<nat>
    requires n <= |ms|
  {
    if n == 0 then []
    else NewVersions(ms, applied, n - 1) + if ms[n - 1].version in applied then [] else [ms[n - 1].version]
  }

  class Database {
    var applied: Applied
    var committed: seq<nat>

    /** The body of apply_migrations under the lock, when nothing interrupts it; `fails` says whose
        SQL the database refuses. It goes through the files in order up to the first that does not
        pass, and what it applied before that stays. */
    method ApplyMigrations(ms: seq<Migration>, fails: nat -> bool) returns (end: End)
      modifies this
      ensures end.Completed? <==> forall j :: 0 <= j < |ms| ==> Passes(ms[j], old(applied), fails)
      ensures !end.Completed? ==> end.index < |ms| && !Passes(ms[end.index], old(applied), fails)
      ensures !end.Completed? ==> forall j :: 0 <= j < end.index ==> Passes(ms[j], old(applied), fails)
      ensures !end.Completed? ==> (end.Differs? <==> ms[end.index].version in old(applied))
      ensures
        var n := if end.Completed? then |ms| else end.index;
        applied == WithFiles(ms, old(applied), n) && committed == old(committed) + NewVersions(ms, old(applied), n)
    {
      var rows := applied;
      var i := 0;
      while i < |ms|
        invariant 0 <= i <= |ms| && rows == old(applied)
        invariant forall j :: 0 <= j < i ==> Passes(ms[j], rows, fails)
        invariant applied == WithFiles(ms, rows, i) && committed == old(committed) + NewVersions(ms, rows, i)
      {
        var m := ms[i];
        if m.version in rows {
          if rows[m.version].filename != m.filename || rows[m.version].checksum != m.checksum {
            return Differs(i);
          }
        } else {
          if fails(m.version) {
            return SqlFails(i);
          }
          applied := applied[m.version := RowOf(m)];
          committed := committed + [m.version];
        }
        i := i + 1;
      }
      return Completed;
    }
  }
}
