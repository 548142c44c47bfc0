/** The table of backup runs: creation, retention, administrator delete and protect, and the worker
    tick. A query whose answer the database may choose (rows tied in the sort order) is a parameter
    constrained by what the query promises. */
module BackupRuns {
  import opened Options
  import opened Calendar
  import opened BackupSchedule

  type RunId = int

  datatype RunStatus = Running | Completed | Failed
  datatype Trigger = Manual | Automatic
  datatype Run = Run(status: RunStatus, trigger: Trigger, startedAt: int, completedAt: Option<int>,
                     expiresAt: Option<int>, isProtected: bool, deletedAt: Option<int>)

  type Table = map<RunId, Run>

  const TWO_HOURS: int := 7_200_000

  predicate Live(t: Table, id: RunId) {
    id in t && t[id].deletedAt.None?
  }

  predicate Successful(t: Table, id: RunId) {
    Live(t, id) && t[id].status == Completed
  }

  // The runs retention looks at, and those of them that succeeded.
  predicate Visible(t: Table, id: RunId) {
    Live(t, id) && !t[id].isProtected && t[id].status != Running
  }

  predicate Retainable(t: Table, id: RunId) {
    Visible(t, id) && t[id].status == Completed
  }

  function End(r: Run): int {
    if r.completedAt.Some? then r.completedAt.value else r.startedAt
  }

  // ---------- what the queries promise ----------

  ghost predicate IsLatestSuccessful(t: Table, pick: Option<RunId>) {
    match pick
    case None => forall id | id in t :: !Successful(t, id)
    case Some(x) => Successful(t, x) && forall id | Successful(t, id) :: End(t[id]) <= End(t[x])
  }

  ghost predicate IsLastAutomatic(t: Table, pick: Option<RunId>) {
    match pick
    case None => forall id | Live(t, id) :: t[id].trigger != Automatic
    case Some(x) => && Live(t, x) && t[x].trigger == Automatic
                    && forall id | Live(t, id) && t[id].trigger == Automatic :: t[id].startedAt <= t[x].startedAt
  }

  ghost predicate Distinct(rows: seq<RunId>) {
    forall i, j | 0 <= i < j < |rows| :: rows[i] != rows[j]
  }

  ghost predicate NewestFirst(t: Table, rows: seq<RunId>) {
    rows != [] ==>
      && rows[0] in t
      && (forall x | x in rows[1..] :: x in t && End(t[x]) <= End(t[rows[0]]))
      && NewestFirst(t, rows[1..])
  }

  // The newest 500 visible runs, newest first.
  ghost predicate IsVisibleList(t: Table, rows: seq<RunId>) {
    && |rows| <= 500 && Distinct(rows) && NewestFirst(t, rows)
    && (forall id | id in rows :: Visible(t, id))
    && (forall id | Visible(t, id) && id !in rows :: |rows| == 500 && forall x | x in rows :: End(t[id]) <= End(t[x]))
  }

  // ---------- retention ----------

  function Filter(xs: seq<RunId>, keep: RunId -> bool): (ys: seq<RunId>)
    ensures |ys| <= |xs|
    ensures forall x :: x in ys <==> x in xs && keep(x)
  {
    if xs == [] then []
    else
      var rest := Filter(xs[1..], keep);
      assert xs == [xs[0]] + xs[1..];
      if keep(xs[0]) then [xs[0]] + rest else rest
  }

  function SuccessfulRows(t: Table, visible: seq<RunId>): seq<RunId> {
    Filter(visible, id => id in t && t[id].status == Completed)
  }

  function Take(xs: seq<RunId>, n: int): (ys: seq<RunId>)
    ensures ys <= xs && (0 <= n ==> |ys| == Min(n, |xs|))
  {
    xs[..Max(0, Min(n, |xs|))]
  }

  function SetOf(xs: seq<RunId>): set<RunId> {
    set x | x in xs
  }

  function KeepIds(t: Table, visible: seq<RunId>, latest: Option<RunId>, count: int): set<RunId> {
    SetOf(Take(SuccessfulRows(t, visible), count)) + if latest.Some? then {latest.value} else {}
  }

  predicate IsExpired(t: Table, id: RunId, latest: Option<RunId>, keep: set<RunId>, now: int, days: int) {
    && id in t
    && latest != Some(id)
    && !(t[id].status == Completed && id in keep)
    && (|| End(t[id]) < now - days * MS_PER_DAY
        || (t[id].expiresAt.Some? && t[id].expiresAt.value < now)
        || (t[id].status == Completed && id !in keep))
  }

  function ExpiredRows(t: Table, latest: Option<RunId>, visible: seq<RunId>, now: int, days: int,
                       count: int): (rows: seq<RunId>)
    ensures forall id ::
              id in rows ==> id in visible && IsExpired(t, id, latest, KeepIds(t, visible, latest, count), now, days)
    ensures (exists id :: id in visible && IsExpired(t, id, latest, KeepIds(t, visible, latest, count), now, days)) ==>
              rows != []
  {
    var keep := KeepIds(t, visible, latest, count);
    Take(Filter(visible, id => IsExpired(t, id, latest, keep, now, days)), 50)
  }

  function Retire(t: Table, ids: set<RunId>, at: int): Table {
    map id | id in t :: if id in ids then t[id].(deletedAt := Some(at)) else t[id]
  }

  // ---------- one worker tick ----------

  // How a backup ends: its worker dies, it fails, it succeeds, or something after its COMPLETED
  // update fails and turns it into a failure.
  datatype Fate = Dies | Fails | Succeeds | Retracted(at: int)

  function NewRun(trigger: Trigger, startedAt: int, endedAt: int, fate: Fate, days: int): Run {
    match fate
    case Dies => Run(Running, trigger, startedAt, None, None, false, None)
    case Fails => Run(Failed, trigger, startedAt, Some(endedAt), None, false, None)
    case Succeeds => Run(Completed, trigger, startedAt, Some(endedAt), Some(endedAt + days * MS_PER_DAY), false, None)
    case Retracted(at) => Run(Failed, trigger, startedAt, Some(at), Some(endedAt + days * MS_PER_DAY), false, None)
  }

  /** What one tick meets: the clock readings along it, the end of its backup, the answers of its
      queries, and the tables that it finds, changed by others, when it creates its run and when
      retention begins. */
  datatype TickInput = TickInput(
    id: RunId, now: int, checkedAt: int, startedAt: int, endedAt: int, retentionAt: int, fate: Fate,
    lastRun: Option<RunId>, found: Table, met: Table, latest: Option<RunId>, visible: seq<RunId>,
    storageFails: set<RunId>)

  /** What others do meanwhile: they add manual runs and bring these along, and they protect,
      unprotect and delete runs of either kind. */
  ghost predicate Meanwhile(t: Table, u: Table, later: int) {
    && (forall id | id in t ::
          && id in u && u[id].trigger == t[id].trigger && u[id].startedAt == t[id].startedAt
          && (t[id].deletedAt.Some? ==> u[id].deletedAt.Some?)
          && (t[id].trigger == Automatic ==>
               u[id] == t[id].(isProtected := u[id].isProtected, deletedAt := u[id].deletedAt)))
    && (forall id | id in u && id !in t :: u[id].trigger == Manual && u[id].startedAt <= later)
  }

  predicate IsDue(s: Settings, t: Table, lastRun: Option<RunId>, now: int)
    requires lastRun.Some? ==> lastRun.value in t
  {
    if s.frequency == Custom then
      lastRun.None? || t[lastRun.value].startedAt + s.customIntervalHours * 3_600_000 <= now
    else
      var scheduledAt := LatestScheduledOccurrence(s, now);
      scheduledAt.Some? && (lastRun.None? || t[lastRun.value].startedAt < scheduledAt.value)
  }

  predicate RecentlyRunning(t: Table, at: int) {
    exists id | id in t ::
        Live(t, id) && t[id].trigger == Automatic && t[id].status == Running && at - TWO_HOURS <= t[id].startedAt
  }

  predicate Starts(s: Settings, t: Table, i: TickInput)
    requires i.lastRun.Some? ==> i.lastRun.value in t
  {
    s.enabled && IsDue(s, t, i.lastRun, i.now) && !RecentlyRunning(i.found, i.checkedAt)
  }

  function Created(s: Settings, i: TickInput): Table {
    i.found[i.id := NewRun(Automatic, i.startedAt, i.endedAt, i.fate, s.retentionDays)]
  }

  function Retired(s: Settings, i: TickInput): set<RunId> {
    SetOf(ExpiredRows(i.met, i.latest, i.visible, i.retentionAt, s.retentionDays, s.retentionCount)) - i.storageFails
  }

  function AfterTick(s: Settings, t: Table, i: TickInput): Table
    requires InRange(s)
    requires i.lastRun.Some? ==> i.lastRun.value in t
  {
    if !Starts(s, t, i) then (if s.enabled && IsDue(s, t, i.lastRun, i.now) then i.found else t)
    else if i.fate.Dies? then Created(s, i)
    else Retire(i.met, Retired(s, i), i.retentionAt)
  }

  // The clock does not run backwards, ids are new, queries answer as promised, others keep to what
  // others do, and retention follows its backup within the retention period.
  ghost predicate TickOk(s: Settings, t: Table, i: TickInput) {
    && i.now <= i.checkedAt <= i.startedAt <= i.endedAt <= i.retentionAt
    && (i.fate.Retracted? ==> i.endedAt <= i.fate.at <= i.retentionAt)
    && i.retentionAt <= i.endedAt + s.retentionDays * MS_PER_DAY
    && IsLastAutomatic(t, i.lastRun)
    && Meanwhile(t, i.found, i.startedAt) && i.id !in i.found
    && (Starts(s, t, i) && !i.fate.Dies? ==>
          Meanwhile(Created(s, i), i.met, i.retentionAt) && IsLatestSuccessful(i.met, i.latest)
              && IsVisibleList(i.met, i.visible))
  }

  // ---------- administrator actions ----------

  datatype Outcome = Done | NotFound | NotConfirmed | StillRunning | ProtectedRun | LatestRun | StorageFailed

  function DeleteOutcome(t: Table, id: RunId, confirmed: bool, latest: Option<RunId>, storageFails: bool): Outcome {
    if !Live(t, id) then NotFound
    else if !confirmed then NotConfirmed
    else if t[id].status == Running then StillRunning
    else if t[id].isProtected then ProtectedRun
    else if latest == Some(id) then LatestRun
    else if storageFails then StorageFailed
    else Done
  }

  class BackupsService {
    var runs: Table

    constructor ()
      ensures runs == map[]
    {
      runs := map[];
    }

    // A run is RUNNING while its artifact is written; a failure after its COMPLETED update makes it
    // FAILED like one before.
    method CreateBackup(id: RunId, trigger: Trigger, startedAt: int, endedAt: int, fate: Fate, days: int)
      requires id !in runs
      modifies this
      ensures runs == old(runs)[id := NewRun(trigger, startedAt, endedAt, fate, days)]
    {
      runs := runs[id := Run(Running, trigger, startedAt, None, None, false, None)];
      if fate.Dies? { return; }
      if fate.Fails? {
        runs := runs[id := runs[id].(status := Failed, completedAt := Some(endedAt))];
        return;
      }
      runs := runs[id := runs[id].(status := Completed, completedAt := Some(endedAt),
                                   expiresAt := Some(endedAt + days * MS_PER_DAY))];
      if fate.Retracted? {
        runs := runs[id := runs[id].(status := Failed, completedAt := Some(fate.at))];
      }
    }

    method CleanupExpired(latest: Option<RunId>, visible: seq<RunId>, storageFails: set<RunId>, now: int, days: int,
                          count: int)
      returns (deleted: nat, failures: seq<RunId>)
      modifies this
      ensures var expired := ExpiredRows(old(runs), latest, visible, now, days, count);
              && runs == Retire(old(runs), SetOf(expired) - storageFails, now)
              && deleted + |failures| == |expired|
              && forall id :: id in failures <==> id in expired && id in storageFails
    {
      hide KeepIds, ExpiredRows;
      var expired := ExpiredRows(runs, latest, visible, now, days, count);
      deleted, failures := 0, [];
      for n := 0 to |expired|
        invariant runs == Retire(old(runs), SetOf(expired[..n]) - storageFails, now)
        invariant deleted + |failures| == n
        invariant forall id :: id in failures <==> id in expired[..n] && id in storageFails
      {
        var id := expired[n];
        assert IsExpired(old(runs), id, latest, KeepIds(old(runs), visible, latest, count), now, days);
        assert expired[..n + 1] == expired[..n] + [id];
        assert SetOf(expired[..n + 1]) == SetOf(expired[..n]) + {id};
        if id in storageFails {
          failures := failures + [id];
        } else {
          runs := runs[id := runs[id].(deletedAt := Some(now))];
          deleted := deleted + 1;
        }
      }
      assert expired[..|expired|] == expired;
    }

    // The tick of the worker: a backup if one is due, then retention. Where the worker awaits the
    // database, the table becomes what others have made of it.
    method Tick(s: Settings, i: TickInput) returns (ran: bool)
      requires InRange(s) && i.id !in i.found && (i.lastRun.Some? ==> i.lastRun.value in runs)
      modifies this
      ensures ran == Starts(s, old(runs), i)
      ensures runs == AfterTick(s, old(runs), i)
    {
      ran := false;
      if !s.enabled { return; }
      var due := IsDue(s, runs, i.lastRun, i.now);
      if !due { return; }
      runs := i.found;
      if RecentlyRunning(runs, i.checkedAt) { return; }
      ran := true;
      CreateBackup(i.id, Automatic, i.startedAt, i.endedAt, i.fate, s.retentionDays);
      if i.fate.Dies? { return; }
      runs := i.met;
      var _, _ := CleanupExpired(i.latest, i.visible, i.storageFails, i.retentionAt, s.retentionDays, s.retentionCount);
    }

    method Delete(id: RunId, confirmed: bool, latest: Option<RunId>, storageFails: bool, at: int)
      returns (outcome: Outcome)
      modifies this
      ensures outcome == DeleteOutcome(old(runs), id, confirmed, latest, storageFails)
      ensures runs == if outcome == Done then Retire(old(runs), {id}, at) else old(runs)
    {
      if !Live(runs, id) { return NotFound; }
      if !confirmed { return NotConfirmed; }
      if runs[id].status == Running { return StillRunning; }
      if runs[id].isProtected { return ProtectedRun; }
      if latest == Some(id) { return LatestRun; }
      if storageFails { return StorageFailed; }
      runs := runs[id := runs[id].(deletedAt := Some(at))];
      return Done;
    }

    method Protect(id: RunId, value: bool, confirmed: bool) returns (outcome: Outcome)
      modifies this
      ensures outcome == if !Live(old(runs), id) then NotFound else if !value && !confirmed then NotConfirmed else Done
      ensures runs == if outcome == Done then old(runs)[id := old(runs)[id].(isProtected := value)] else old(runs)
    {
      if !Live(runs, id) { return NotFound; }
      if !value && !confirmed { return NotConfirmed; }
      runs := runs[id := runs[id].(isProtected := value)];
      return Done;
    }
  }
}
