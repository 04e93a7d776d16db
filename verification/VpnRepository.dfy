/** The VPN part of the monitoring repository (backend/app/monitoring/repository.py): one
    current row per tunnel, an append-only transition log, and flap counters kept
    incrementally; plus the log's retention (backend/app/monitoring/retention.py). */
module VpnRepository {
  import opened Wrappers
  import opened Vpn

  datatype TunnelRow = TunnelRow(
    currentStatus: TunnelState,
    isFlapping: bool,
    firstSeenAt: int,
    lastSeenAt: int,
    stateChangedAt: int,
    lastUpAt: Option<int>,
    lastDownAt: Option<int>,
    transitionCount: nat,
    flapCount: nat)

  datatype LogRow = LogRow(tunnelId: string, transition: TunnelTransition)

  /** A reported tunnel: its id ("" when missing) and its status text, stripped and upper-cased. */
  datatype RawTunnel = RawTunnel(id: string, state: string)

  /** The two tables. */
  datatype Tables = Tables(current: map<string, TunnelRow>, transitions: seq<LogRow>)

  /** What the tables hold about one tunnel. */
  datatype TunnelView = TunnelView(row: Option<TunnelRow>, log: seq<TunnelTransition>)

  const UNSEEN := TunnelView(None, [])

  function Row(current: map<string, TunnelRow>, id: string): Option<TunnelRow> {
    if id in current then Some(current[id]) else None
  }

  function LogOf(rows: seq<LogRow>, id: string): seq<TunnelTransition> {
    if rows == [] then []
    else
      var earlier, last := LogOf(rows[..|rows| - 1], id), rows[|rows| - 1];
      if last.tunnelId == id then earlier + [last.transition] else earlier
  }

  function View(db: Tables, id: string): TunnelView {
    TunnelView(Row(db.current, id), LogOf(db.transitions, id))
  }

  /** The number of transitions at or after `since`. */
  function RecentCount(log: seq<TunnelTransition>, since: int): nat {
    if log == [] then 0
    else RecentCount(log[..|log| - 1], since) + if log[|log| - 1].changedAt >= since then 1 else 0
  }

  function WindowStart(at: int, flapWindowSeconds: int): int {
    at - flapWindowSeconds * MICROS_PER_SECOND
  }

  // ---------------------------------------------------------------- one observation

  datatype Observed = Observed(row: TunnelRow, logged: Option<TunnelTransition>)

  function FirstRow(status: TunnelState, recent: nat, at: int, flapThreshold: int): TunnelRow {
    TunnelRow(status, recent >= flapThreshold, at, at, at,
              if status == Up then Some(at) else None, if status == Down then Some(at) else None, 0, 0)
  }

  /** The row written for one reported tunnel, and the transition logged if its status moved.
      `recent` counts the tunnel's transitions already in the flap window. */
  function ObserveTunnel(previous: Option<TunnelRow>, recent: nat, status: TunnelState, at: int,
                         flapThreshold: int): Observed {
    match previous
    case None => Observed(FirstRow(status, recent, at, flapThreshold), None)
    case Some(p) =>
      var seen := p.(currentStatus := status, lastSeenAt := at,
                     lastUpAt := if status == Up then Some(at) else p.lastUpAt,
                     lastDownAt := if status == Down then Some(at) else p.lastDownAt);
      if p.currentStatus == status then Observed(seen.(isFlapping := recent >= flapThreshold), None)
      else
        var flapping := recent + 1 >= flapThreshold;
        Observed(seen.(isFlapping := flapping,
                       stateChangedAt := at,
                       transitionCount := p.transitionCount + 1,
                       flapCount := if flapping && !p.isFlapping then p.flapCount + 1 else p.flapCount),
                 Some(TunnelTransition(p.currentStatus, status, at, Some(Seconds(at - p.stateChangedAt)))))
  }

  /** Several reports of one tunnel in the same snapshot: each is compared with the row that
      stood before the snapshot, because the source does not refresh its lookup. */
  function ObserveAll(view: TunnelView, previous: Option<TunnelRow>, recent: nat, statuses: seq<TunnelState>,
                      at: int, flapThreshold: int): TunnelView
    decreases |statuses|
  {
    if statuses == [] then view
    else
      var o := ObserveTunnel(previous, recent, statuses[0], at, flapThreshold);
      match o.logged
      case None => ObserveAll(view.(row := Some(o.row)), previous, recent, statuses[1..], at, flapThreshold)
      case Some(t) => ObserveAll(TunnelView(Some(o.row), view.log + [t]), previous, recent + 1, statuses[1..], at,
                                 flapThreshold)
  }

  function ObserveSnapshot(view: TunnelView, statuses: seq<TunnelState>, at: int, flapThreshold: int,
                           flapWindowSeconds: int): TunnelView
  {
    ObserveAll(view, view.row, RecentCount(view.log, WindowStart(at, flapWindowSeconds)), statuses, at, flapThreshold)
  }

  /** The statuses a snapshot reports for one tunnel, from report `i` on. */
  function Reports(tunnels: seq<RawTunnel>, i: nat, id: string): seq<TunnelState>
    decreases |tunnels| - i
  {
    if i >= |tunnels| then []
    else if tunnels[i].id == id then [NormalizeTunnelState(tunnels[i].state)] + Reports(tunnels, i + 1, id)
    else Reports(tunnels, i + 1, id)
  }

  // ---------------------------------------------------------------- a whole snapshot

  function Count(counts: map<string, nat>, id: string): nat {
    if id in counts then counts[id] else 0
  }

  /** The loop over the reported tunnels, from report `i` on. */
  function PersistFrom(db: Tables, existing: map<string, TunnelRow>, recent: map<string, nat>,
                       tunnels: seq<RawTunnel>, i: nat, at: int, flapThreshold: int): Tables
    decreases |tunnels| - i
  {
    if i >= |tunnels| then db
    else if tunnels[i].id == "" then PersistFrom(db, existing, recent, tunnels, i + 1, at, flapThreshold)
    else
      var id := tunnels[i].id;
      var o := ObserveTunnel(Row(existing, id), Count(recent, id), NormalizeTunnelState(tunnels[i].state), at,
                             flapThreshold);
      match o.logged
      case None =>
        PersistFrom(db.(current := db.current[id := o.row]), existing, recent, tunnels, i + 1, at, flapThreshold)
      case Some(t) =>
        PersistFrom(Tables(db.current[id := o.row], db.transitions + [LogRow(id, t)]), existing,
                    recent[id := Count(recent, id) + 1], tunnels, i + 1, at, flapThreshold)
  }

  function ReportedIds(tunnels: seq<RawTunnel>): set<string> {
    set raw | raw in tunnels && raw.id != "" :: raw.id
  }

  function RecentCounts(db: Tables, ids: set<string>, since: int): map<string, nat> {
    map id | id in ids && RecentCount(LogOf(db.transitions, id), since) > 0 ::
        RecentCount(LogOf(db.transitions, id), since)
  }

  function ExistingRows(db: Tables, ids: set<string>): map<string, TunnelRow> {
    map id | id in ids && id in db.current :: db.current[id]
  }

  function Persisted(db: Tables, tunnels: seq<RawTunnel>, at: int, flapThreshold: int, flapWindowSeconds: int): Tables {
    var ids := ReportedIds(tunnels);
    PersistFrom(db, ExistingRows(db, ids), RecentCounts(db, ids, WindowStart(at, flapWindowSeconds)), tunnels, 0, at,
                flapThreshold)
  }

  lemma {:induction false} PersistFromPerTunnel(
      db: Tables, existing: map<string, TunnelRow>, recent: map<string, nat>, tunnels: seq<RawTunnel>, i: nat,
      at: int, flapThreshold: int, id: string)
    requires id != ""
    ensures View(PersistFrom(db, existing, recent, tunnels, i, at, flapThreshold), id)
         == ObserveAll(View(db, id), Row(existing, id), Count(recent, id), Reports(tunnels, i, id), at, flapThreshold)
    decreases |tunnels| - i
  {
    if i >= |tunnels| {
    } else if tunnels[i].id == "" {
      PersistFromPerTunnel(db, existing, recent, tunnels, i + 1, at, flapThreshold, id);
    } else {
      var it, status := tunnels[i].id, NormalizeTunnelState(tunnels[i].state);
      var o := ObserveTunnel(Row(existing, it), Count(recent, it), status, at, flapThreshold);
      var current := db.current[it := o.row];
      match o.logged {
        case None =>
          PersistFromPerTunnel(Tables(current, db.transitions), existing, recent, tunnels, i + 1, at, flapThreshold,
                               id);
        case Some(t) =>
          PersistFromPerTunnel(Tables(current, db.transitions + [LogRow(it, t)]), existing,
                               recent[it := Count(recent, it) + 1], tunnels, i + 1, at, flapThreshold, id);
      }
    }
  }

  lemma {:induction false} UnreportedHasNoReports(tunnels: seq<RawTunnel>, i: nat, id: string)
    requires forall j :: i <= j < |tunnels| ==> tunnels[j].id != id
    ensures Reports(tunnels, i, id) == []
    decreases |tunnels| - i
  {
    if i < |tunnels| {
      UnreportedHasNoReports(tunnels, i + 1, id);
    }
  }

  /** A snapshot acts on each tunnel alone: its row and log change only by that tunnel's own
      reports, and a tunnel that is not reported is untouched. */
  lemma SnapshotPerTunnel(db: Tables, tunnels: seq<RawTunnel>, at: int, flapThreshold: int, flapWindowSeconds: int,
                          id: string)
    requires id != ""
    ensures View(Persisted(db, tunnels, at, flapThreshold, flapWindowSeconds), id)
         == ObserveSnapshot(View(db, id), Reports(tunnels, 0, id), at, flapThreshold, flapWindowSeconds)
  {
    var ids := ReportedIds(tunnels);
    PersistFromPerTunnel(db, ExistingRows(db, ids), RecentCounts(db, ids, WindowStart(at, flapWindowSeconds)),
                         tunnels, 0, at, flapThreshold, id);
    if id !in ids {
      forall j | 0 <= j < |tunnels| ensures tunnels[j].id != id {
        assert tunnels[j] in tunnels;
      }
      UnreportedHasNoReports(tunnels, 0, id);
    }
  }

  // ---------------------------------------------------------------- what a report leaves

  /** The report at `k` is the only one of its tunnel. */
  ghost predicate OnlyReport(tunnels: seq<RawTunnel>, k: nat) {
    && k < |tunnels| && tunnels[k].id != ""
    && forall j :: 0 <= j < |tunnels| && j != k ==> tunnels[j].id != tunnels[k].id
  }

  lemma {:induction false} OneReport(tunnels: seq<RawTunnel>, i: nat, k: nat)
    requires OnlyReport(tunnels, k) && i <= k
    ensures Reports(tunnels, i, tunnels[k].id) == [NormalizeTunnelState(tunnels[k].state)]
    decreases k - i
  {
    if i < k {
      OneReport(tunnels, i + 1, k);
    } else {
      UnreportedHasNoReports(tunnels, k + 1, tunnels[k].id);
    }
  }

  /** The row and log entry of a tunnel reported once, from the row that stood before. */
  ghost predicate Leaves(before: TunnelView, after: TunnelView, status: TunnelState, at: int) {
    && after.row.Some?
    && var row := after.row.value;
    && row.currentStatus == status && row.lastSeenAt == at
    && row.firstSeenAt == (if before.row.Some? then before.row.value.firstSeenAt else at)
    && row.lastUpAt == (if status == Up then Some(at) else if before.row.Some? then before.row.value.lastUpAt else None)
    && row.lastDownAt
       == (if status == Down then Some(at) else if before.row.Some? then before.row.value.lastDownAt else None)
    && (before.row.Some? && before.row.value.currentStatus != status ==>
          && row.stateChangedAt == at && row.transitionCount == before.row.value.transitionCount + 1
          && |after.log| == |before.log| + 1 && before.log <= after.log
          && after.log[|before.log|].previousStatus == before.row.value.currentStatus
          && after.log[|before.log|].newStatus == status && after.log[|before.log|].changedAt == at)
    && (before.row.Some? && before.row.value.currentStatus == status ==>
          row.stateChangedAt == before.row.value.stateChangedAt
          && row.transitionCount == before.row.value.transitionCount && after.log == before.log)
    && (before.row.None? ==> row.stateChangedAt == at && row.transitionCount == 0 && after.log == before.log)
  }

  lemma ObserveOnce(view: TunnelView, status: TunnelState, at: int, flapThreshold: int, flapWindowSeconds: int)
    ensures
      var o := ObserveTunnel(view.row, RecentCount(view.log, WindowStart(at, flapWindowSeconds)), status, at,
                             flapThreshold);
      var after := ObserveSnapshot(view, [status], at, flapThreshold, flapWindowSeconds);
      after.row == Some(o.row) && after.log == if o.logged.Some? then view.log + [o.logged.value] else view.log
  {
    var recent := RecentCount(view.log, WindowStart(at, flapWindowSeconds));
    var o := ObserveTunnel(view.row, recent, status, at, flapThreshold);
    assert [status][1..] == [];
    if o.logged.Some? {
      assert ObserveAll(TunnelView(Some(o.row), view.log + [o.logged.value]), view.row, recent + 1, [], at,
                        flapThreshold)
          == TunnelView(Some(o.row), view.log + [o.logged.value]);
    } else {
      assert ObserveAll(view.(row := Some(o.row)), view.row, recent, [], at, flapThreshold)
          == view.(row := Some(o.row));
    }
  }

  lemma StatusIsStored(db: Tables, tunnels: seq<RawTunnel>, k: nat, at: int, flapThreshold: int,
                       flapWindowSeconds: int)
    requires OnlyReport(tunnels, k)
    ensures Leaves(View(db, tunnels[k].id),
                   View(Persisted(db, tunnels, at, flapThreshold, flapWindowSeconds), tunnels[k].id),
                   NormalizeTunnelState(tunnels[k].state), at)
  {
    var id, status := tunnels[k].id, NormalizeTunnelState(tunnels[k].state);
    var before := View(db, id);
    SnapshotPerTunnel(db, tunnels, at, flapThreshold, flapWindowSeconds, id);
    OneReport(tunnels, 0, k);
    ObserveOnce(before, status, at, flapThreshold, flapWindowSeconds);
  }

  /** What a snapshot leaves for a tunnel reported under each word. */
  lemma ReportedWordIsStored(db: Tables, tunnels: seq<RawTunnel>, k: nat, at: int, flapThreshold: int,
                             flapWindowSeconds: int)
    requires OnlyReport(tunnels, k)
    ensures
      var word, before := tunnels[k].state, View(db, tunnels[k].id);
      var after := View(Persisted(db, tunnels, at, flapThreshold, flapWindowSeconds), tunnels[k].id);
      && (word in ["UP", "TUNNEL_UP", "ACTIVE"] ==> Leaves(before, after, Up, at))
      && (word in ["DOWN", "TUNNEL_DOWN", "INACTIVE"] ==> Leaves(before, after, Down, at))
      && (word == "DEGRADED" ==> Leaves(before, after, Degraded, at))
      && (word == "FLAPPING" ==> Leaves(before, after, Flapping, at))
      && (word !in ["UP", "TUNNEL_UP", "ACTIVE", "DOWN", "TUNNEL_DOWN", "INACTIVE", "DEGRADED", "FLAPPING"] ==>
            Leaves(before, after, Unknown, at))
  {
    var word := tunnels[k].state;
    StatusIsStored(db, tunnels, k, at, flapThreshold, flapWindowSeconds);
    WordsRead(word);
  }

  lemma WordsRead(word: string)
    ensures word in ["UP", "TUNNEL_UP", "ACTIVE"] ==> NormalizeTunnelState(word) == Up
    ensures word in ["DOWN", "TUNNEL_DOWN", "INACTIVE"] ==> NormalizeTunnelState(word) == Down
    ensures word == "DEGRADED" ==> NormalizeTunnelState(word) == Degraded
    ensures word == "FLAPPING" ==> NormalizeTunnelState(word) == Flapping
    ensures word !in ["UP", "TUNNEL_UP", "ACTIVE", "DOWN", "TUNNEL_DOWN", "INACTIVE", "DEGRADED", "FLAPPING"] ==>
              NormalizeTunnelState(word) == Unknown
  {
    assert Reported(Up) == "TUNNEL_UP" && Reported(Down) == "TUNNEL_DOWN";
    VocabularyIsExact(word, Up);
    VocabularyIsExact(word, Down);
    VocabularyIsExact(word, Degraded);
    VocabularyIsExact(word, Flapping);
  }

  // ---------------------------------------------------------------- retention

  const DAY_MICROS := 86_400 * MICROS_PER_SECOND

  function RetentionCutoff(now: int, retentionDays: int): int {
    now - Max(1, retentionDays) * DAY_MICROS
  }

  function RetainedRows(rows: seq<LogRow>, cutoff: int): seq<LogRow> {
    if rows == [] then []
    else
      var earlier, last := RetainedRows(rows[..|rows| - 1], cutoff), rows[|rows| - 1];
      if last.transition.changedAt < cutoff then earlier else earlier + [last]
  }

  function Retained(log: seq<TunnelTransition>, cutoff: int): seq<TunnelTransition> {
    if log == [] then []
    else
      var earlier, last := Retained(log[..|log| - 1], cutoff), log[|log| - 1];
      if last.changedAt < cutoff then earlier else earlier + [last]
  }

  /** Retention prunes each tunnel's log on its own. */
  lemma {:induction false} RetentionPerTunnel(rows: seq<LogRow>, cutoff: int, id: string)
    ensures LogOf(RetainedRows(rows, cutoff), id) == Retained(LogOf(rows, id), cutoff)
  {
    if rows != [] {
      var front, last := rows[..|rows| - 1], rows[|rows| - 1];
      RetentionPerTunnel(front, cutoff, id);
      assert (LogOf(front, id) + [last.transition])[..|LogOf(front, id)|] == LogOf(front, id);
    }
  }

  /** The places, in order, of the rows from the cutoff on. */
  ghost predicate Places(at: seq<nat>, rows: seq<LogRow>, cutoff: int) {
    && (forall i, j :: 0 <= i < j < |at| ==> at[i] < at[j])
    && (forall i :: 0 <= i < |at| ==> at[i] < |rows|)
    && (forall k :: 0 <= k < |rows| ==> (rows[k].transition.changedAt >= cutoff <==> k in at))
  }

  lemma NextPlace(at: seq<nat>, front: seq<LogRow>, last: LogRow, cutoff: int)
    requires Places(at, front, cutoff)
    ensures Places(if last.transition.changedAt >= cutoff then at + [|front|] else at, front + [last], cutoff)
  {
    forall k | k in at ensures k < |front| {
    }
  }

  ghost predicate Selects(at: seq<nat>, rows: seq<LogRow>, kept: seq<LogRow>) {
    |at| == |kept| && forall i :: 0 <= i < |at| ==> at[i] < |rows| && kept[i] == rows[at[i]]
  }

  lemma NextSelected(at: seq<nat>, front: seq<LogRow>, last: LogRow, kept: seq<LogRow>)
    requires Selects(at, front, kept)
    ensures Selects(at, front + [last], kept)
    ensures Selects(at + [|front|], front + [last], kept + [last])
  {
  }

  /** The delete keeps the rows from the cutoff on, each as often and in the order it was: `at` says
      where they stood. */
  lemma {:induction false} RetentionOnlyDeletes(rows: seq<LogRow>, cutoff: int) returns (at: seq<nat>)
    ensures Places(at, rows, cutoff) && Selects(at, rows, RetainedRows(rows, cutoff)) && |at| <= |rows|
  {
    if rows == [] {
      at := [];
    } else {
      var front, last := rows[..|rows| - 1], rows[|rows| - 1];
      at := RetentionOnlyDeletes(front, cutoff);
      NextPlace(at, front, last, cutoff);
      NextSelected(at, front, last, RetainedRows(front, cutoff));
      assert rows == front + [last];
      if last.transition.changedAt >= cutoff {
        at := at + [|front|];
      }
    }
  }

  // ---------------------------------------------------------------- the repository object

  class Repository {
    var current: map<string, TunnelRow>
    var transitions: seq<LogRow>

    constructor ()
      ensures current == map[] && transitions == []
    {
      current, transitions := map[], [];
    }

    ghost function Contents(): Tables
      reads this
    {
      Tables(current, transitions)
    }

    /** persist_vpn_snapshot: upserts a row per reported tunnel and logs its transition. */
    method PersistVpnSnapshot(tunnels: seq<RawTunnel>, observedAt: int, flapThreshold: int, flapWindowSeconds: int)
      modifies this
      ensures Contents() == Persisted(old(Contents()), tunnels, observedAt, flapThreshold, flapWindowSeconds)
    {
      var tunnelIds := ReportedIds(tunnels);
      var existing := ExistingRows(Tables(current, transitions), tunnelIds);
      var recent: map<string, nat> := RecentCounts(Tables(current, transitions), tunnelIds,
                                                   WindowStart(observedAt, flapWindowSeconds));
      ghost var result := Persisted(Contents(), tunnels, observedAt, flapThreshold, flapWindowSeconds);
      for i := 0 to |tunnels|
        invariant PersistFrom(Contents(), existing, recent, tunnels, i, observedAt, flapThreshold) == result
      {
        var tunnelId := tunnels[i].id;
        if tunnelId == "" {
          continue;
        }
        var status := NormalizeTunnelState(tunnels[i].state);
        var row, transition := RowValues(Row(existing, tunnelId), Count(recent, tunnelId), status, observedAt,
                                         flapThreshold);
        if transition.Some? {
          transitions := transitions + [LogRow(tunnelId, transition.value)];
          recent := recent[tunnelId := Count(recent, tunnelId) + 1];
        }
        current := current[tunnelId := row];
      }
    }

    /** The values of one upsert, and the transition that goes with it. */
    static method RowValues(previous: Option<TunnelRow>, recent: nat, status: TunnelState, observedAt: int,
                            flapThreshold: int)
      returns (row: TunnelRow, transition: Option<TunnelTransition>)
      ensures Observed(row, transition) == ObserveTunnel(previous, recent, status, observedAt, flapThreshold)
    {
      row, transition := FirstRow(status, recent, observedAt, flapThreshold), None;
      if previous.Some? {
        row := row.(firstSeenAt := previous.value.firstSeenAt,
                    stateChangedAt := previous.value.stateChangedAt,
                    transitionCount := previous.value.transitionCount,
                    flapCount := previous.value.flapCount,
                    lastUpAt := if status == Up then Some(observedAt) else previous.value.lastUpAt,
                    lastDownAt := if status == Down then Some(observedAt) else previous.value.lastDownAt);
        transition := DetectTransition(previous.value.currentStatus, status, observedAt,
                                       Some(previous.value.stateChangedAt));
        if transition.Some? {
          var flapping := recent + 1 >= flapThreshold;
          row := row.(transitionCount := row.transitionCount + 1,
                      stateChangedAt := observedAt,
                      isFlapping := flapping,
                      flapCount := if flapping && !previous.value.isFlapping then row.flapCount + 1 else row.flapCount);
        }
      }
    }

    /** The transition delete of a retention run; returns how many rows went. */
    method RunRetention(now: int, retentionDays: int) returns (deleted: nat)
      modifies this`transitions
      ensures transitions == RetainedRows(old(transitions), RetentionCutoff(now, retentionDays))
      ensures exists at :: Places(at, old(transitions), now - Max(1, retentionDays) * 24 * 60 * 60 * 1_000_000)
                           && Selects(at, old(transitions), transitions)
      ensures deleted == |old(transitions)| - |transitions|
    {
      var kept := RetainedRows(transitions, RetentionCutoff(now, retentionDays));
      ghost var at := RetentionOnlyDeletes(transitions, RetentionCutoff(now, retentionDays));
      deleted := |transitions| - |kept|;
      transitions := kept;
    }
  }
}
