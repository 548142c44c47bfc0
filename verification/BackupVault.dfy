/** The newest successful backup under every interleaving of backups, backfills, protection changes,
    administrator deletes and retention. A delete and a retention pass first read, then decide, and
    only later write; a backup is COMPLETED before createBackup returns, and until then it can still
    turn FAILED. */
module BackupVault {
  import opened Options
  import opened Calendar
  import opened BackupSchedule
  import opened BackupRuns

  /** `pending` holds the deletions decided and not yet written, `unreturned` the runs whose
      createBackup has completed them and not yet returned. */
  datatype Vault = Vault(runs: Table, pending: set<RunId>, unreturned: set<RunId>)

  datatype Event =
    | Begin(id: RunId, trigger: Trigger, startedAt: int)
    | Complete(id: RunId, at: int, expiresAt: int)
    | Fail(id: RunId, at: int)
    | Return(id: RunId)
    | Retract(id: RunId, at: int)
    | Backfill(id: RunId, trigger: Trigger, createdAt: int, expiresAt: int)
    | Protect(id: RunId, value: bool)
    | DecideDelete(id: RunId, latest: Option<RunId>)
    | DecideRetention(latest: Option<RunId>, visible: seq<RunId>, now: int, days: int, count: int)
    | Write(id: RunId, at: int)

  ghost predicate Enabled(v: Vault, e: Event) {
    match e
    case Begin(id, _, _) => id !in v.runs
    case Complete(id, _, _) => Live(v.runs, id) && v.runs[id].status == Running
    case Fail(id, _) => Live(v.runs, id) && v.runs[id].status == Running
    case Return(id) => id in v.unreturned
    case Retract(id, _) => id in v.unreturned
    case Backfill(id, _, _, _) => id !in v.runs
    case Protect(id, _) => Live(v.runs, id)
    case DecideDelete(id, latest) =>
      IsLatestSuccessful(v.runs, latest) && DeleteOutcome(v.runs, id, true, latest, false) == Done
    case DecideRetention(latest, visible, _, _, _) =>
      IsLatestSuccessful(v.runs, latest) && IsVisibleList(v.runs, visible)
    case Write(id, _) => id in v.pending
  }

  function After(v: Vault, e: Event): Vault {
    match e
    case Begin(id, trigger, startedAt) =>
      v.(runs := v.runs[id := Run(Running, trigger, startedAt, None, None, false, None)])
    case Complete(id, at, expiresAt) =>
      if id in v.runs then
        Vault(v.runs[id := v.runs[id].(status := Completed, completedAt := Some(at), expiresAt := Some(expiresAt))],
              v.pending, v.unreturned + {id})
      else v
    case Fail(id, at) =>
      if id in v.runs then v.(runs := v.runs[id := v.runs[id].(status := Failed, completedAt := Some(at))]) else v
    case Return(id) => v.(unreturned := v.unreturned - {id})
    case Retract(id, at) =>
      Vault(if id in v.runs then v.runs[id := v.runs[id].(status := Failed, completedAt := Some(at))] else v.runs,
            v.pending, v.unreturned - {id})
    case Backfill(id, trigger, createdAt, expiresAt) =>
      v.(runs := v.runs[id := Run(Completed, trigger, createdAt, Some(createdAt), Some(expiresAt), false, None)])
    case Protect(id, value) =>
      if id in v.runs then v.(runs := v.runs[id := v.runs[id].(isProtected := value)]) else v
    case DecideDelete(id, _) => v.(pending := v.pending + {id})
    case DecideRetention(latest, visible, now, days, count) =>
      v.(pending := v.pending + SetOf(ExpiredRows(v.runs, latest, visible, now, days, count)))
    case Write(id, at) => v.(runs := Retire(v.runs, {id}, at), pending := v.pending - {id})
  }

  // A success that cannot be taken back.
  ghost predicate Returned(v: Vault, id: RunId) {
    Successful(v.runs, id) && id !in v.unreturned
  }

  ghost predicate Newest(t: Table, id: RunId) {
    IsLatestSuccessful(t, Some(id))
  }

  /** The newest success has returned, and no other success shares its end. */
  ghost predicate Firm(v: Vault) {
    forall x | Newest(v.runs, x) :: x !in v.unreturned && forall y | Successful(v.runs, y) && y != x ::
        End(v.runs[y]) != End(v.runs[x])
  }

  // Some returned success ended after this run.
  ghost predicate Outlived(v: Vault, id: RunId)
    requires id in v.runs
  {
    exists x :: Returned(v, x) && End(v.runs[id]) < End(v.runs[x])
  }

  // Whatever is going to be deleted has ended and, if it succeeded, is outlived.
  ghost predicate Safe(v: Vault) {
    && (forall id | id in v.unreturned :: id in v.runs && v.runs[id].status != Running)
    && (forall id | id in v.pending :: id in v.runs && v.runs[id].status != Running)
    && (forall id | id in v.pending && Successful(v.runs, id) :: Outlived(v, id))
  }

  // Decisions are taken while the newest success is firm.
  ghost predicate Sound(v: Vault, e: Event) {
    e.DecideDelete? || e.DecideRetention? ==> Firm(v)
  }

  // Every returned success before is matched by a returned one after that is at least as new.
  ghost predicate KeepsReturned(v: Vault, u: Vault) {
    forall b | Returned(v, b) :: exists c :: Returned(u, c) && End(v.runs[b]) <= End(u.runs[c])
  }

  // In a firm vault whoever is not the latest is outlived by it.
  lemma NotLatestIsOutlived(v: Vault, latest: Option<RunId>, id: RunId)
    requires Firm(v) && IsLatestSuccessful(v.runs, latest) && Successful(v.runs, id) && latest != Some(id)
    ensures Outlived(v, id)
  {
    assert Newest(v.runs, latest.value);
    assert Returned(v, latest.value);
  }

  // Steps that neither decide nor delete take no returned success away.
  lemma OtherStepsKeep(v: Vault, e: Event, x: RunId)
    requires Safe(v) && Enabled(v, e) && !e.Write? && Returned(v, x)
    ensures Returned(After(v, e), x) && End(After(v, e).runs[x]) == End(v.runs[x])
  {
    hide ExpiredRows, KeepIds, IsVisibleList, IsLatestSuccessful, DeleteOutcome, Outlived;
  }

  lemma SafeStep(v: Vault, e: Event)
    requires Safe(v) && Enabled(v, e) && !e.Write? && !e.DecideDelete? && !e.DecideRetention?
    ensures Safe(After(v, e)) && KeepsReturned(v, After(v, e))
  {
    var u := After(v, e);
    forall id | id in u.pending && Successful(u.runs, id) ensures Outlived(u, id) {
      var x :| Returned(v, x) && End(v.runs[id]) < End(v.runs[x]);
      OtherStepsKeep(v, e, x);
    }
    forall b | Returned(v, b) ensures exists c :: Returned(u, c) && End(v.runs[b]) <= End(u.runs[c]) {
      OtherStepsKeep(v, e, b);
    }
  }

  lemma SafeDecision(v: Vault, e: Event)
    requires Safe(v) && Enabled(v, e) && Firm(v) && (e.DecideDelete? || e.DecideRetention?)
    ensures Safe(After(v, e)) && KeepsReturned(v, After(v, e))
  {
    hide ExpiredRows, KeepIds, Outlived, Firm, DeleteOutcome;
    var u := After(v, e);
    forall id | id in u.pending && id !in v.pending
      ensures id in v.runs && v.runs[id].status != Running && (Successful(v.runs, id) ==> Outlived(v, id))
    {
      DecidedMayGo(v, e, id);
      if Successful(v.runs, id) { NotLatestIsOutlived(v, e.latest, id); }
    }
    forall id | id in u.pending && Successful(u.runs, id) ensures Outlived(u, id) { StillOutlived(v, u, id); }
  }

  lemma DecidedMayGo(v: Vault, e: Event, id: RunId)
    requires Enabled(v, e) && (e.DecideDelete? || e.DecideRetention?) && id in After(v, e).pending && id !in v.pending
    ensures id in v.runs && v.runs[id].status != Running && e.latest != Some(id)
  {
    hide ExpiredRows, KeepIds;
    if e.DecideRetention? {
      assert id in e.visible
          && IsExpired(v.runs, id, e.latest, KeepIds(v.runs, e.visible, e.latest, e.count), e.now, e.days);
      assert Visible(v.runs, id);
    }
  }

  lemma StillOutlived(v: Vault, u: Vault, id: RunId)
    requires u.runs == v.runs && u.unreturned == v.unreturned && id in v.runs && Outlived(v, id)
    ensures Outlived(u, id)
  {
    var x :| Returned(v, x) && End(v.runs[id]) < End(v.runs[x]);
    assert Returned(u, x);
  }

  lemma SafeWrite(v: Vault, id: RunId, at: int)
    requires Safe(v) && id in v.pending
    ensures Safe(After(v, Write(id, at))) && KeepsReturned(v, After(v, Write(id, at)))
  {
    var u := After(v, Write(id, at));
    assert forall x | Returned(v, x) && x != id :: Returned(u, x) && End(u.runs[x]) == End(v.runs[x]);
    forall y | y in u.pending && Successful(u.runs, y) ensures Outlived(u, y) {
      var x :| Returned(v, x) && End(v.runs[y]) < End(v.runs[x]);
      if x == id {
        var z :| Returned(v, z) && End(v.runs[id]) < End(v.runs[z]);
        assert Returned(u, z);
      } else {
        assert Returned(u, x);
      }
    }
    forall b | Returned(v, b) ensures exists c :: Returned(u, c) && End(v.runs[b]) <= End(u.runs[c]) {
      if b == id {
        var z :| Returned(v, z) && End(v.runs[id]) < End(v.runs[z]);
        assert Returned(u, z);
      } else {
        assert Returned(u, b);
      }
    }
  }

  /** One sound step keeps a returned success at least as new as each one there was, whatever has been
      decided before. */
  lemma NewestSurvivesStep(v: Vault, e: Event)
    requires Safe(v) && Enabled(v, e) && Sound(v, e)
    ensures Safe(After(v, e)) && KeepsReturned(v, After(v, e))
  {
    hide Safe, Firm, KeepsReturned, After;
    if e.Write? {
      EnabledWrite(v, e);
      SafeWrite(v, e.id, e.at);
    } else if e.DecideDelete? || e.DecideRetention? {
      SafeDecision(v, e);
    } else {
      SafeStep(v, e);
    }
  }

  lemma EnabledWrite(v: Vault, e: Event)
    requires Enabled(v, e) && e.Write?
    ensures e.id in v.pending && e == Write(e.id, e.at)
  {
  }

  ghost predicate ValidRun(v: Vault, events: seq<Event>)
    decreases |events|
  {
    events == [] || (Enabled(v, events[0]) && ValidRun(After(v, events[0]), events[1..]))
  }

  ghost predicate SoundRun(v: Vault, events: seq<Event>)
    decreases |events|
  {
    events == [] || (Sound(v, events[0]) && SoundRun(After(v, events[0]), events[1..]))
  }

  function AfterAll(v: Vault, events: seq<Event>): Vault
    decreases |events|
  {
    if events == [] then v else AfterAll(After(v, events[0]), events[1..])
  }

  lemma KeepsTransitive(a: Vault, b: Vault, c: Vault)
    requires KeepsReturned(a, b) && KeepsReturned(b, c)
    ensures KeepsReturned(a, c)
  {
    forall x | Returned(a, x) ensures exists z :: Returned(c, z) && End(a.runs[x]) <= End(c.runs[z]) {
      var y :| Returned(b, y) && End(a.runs[x]) <= End(b.runs[y]);
      var z :| Returned(c, z) && End(b.runs[y]) <= End(c.runs[z]);
      assert Returned(c, z) && End(a.runs[x]) <= End(c.runs[z]);
    }
  }

  lemma KeepsItself(v: Vault)
    ensures KeepsReturned(v, v)
  {
  }

  /** Over every run whose decisions are taken while the newest success is firm, a returned success at
      least as new as each earlier one remains. */
  lemma {:induction false} NewestSurvives(v: Vault, events: seq<Event>)
    requires Safe(v) && ValidRun(v, events) && SoundRun(v, events)
    ensures Safe(AfterAll(v, events)) && KeepsReturned(v, AfterAll(v, events))
    decreases |events|
  {
    hide Safe, Enabled, Sound, After, KeepsReturned;
    if events == [] {
      KeepsItself(v);
    } else {
      NewestSurvivesStep(v, events[0]);
      NewestSurvives(After(v, events[0]), events[1..]);
      KeepsTransitive(v, After(v, events[0]), AfterAll(v, events));
    }
  }

  // The steps of a backup that ends in one of the four ways.
  function BackupSteps(id: RunId, trigger: Trigger, startedAt: int, endedAt: int, fate: Fate, days: int): seq<Event> {
    var begin, complete := Begin(id, trigger, startedAt), Complete(id, endedAt, endedAt + days * MS_PER_DAY);
    match fate
    case Dies => [begin]
    case Fails => [begin, Fail(id, endedAt)]
    case Succeeds => [begin, complete, Return(id)]
    case Retracted(at) => [begin, complete, Retract(id, at)]
  }

  lemma FewEvents(v: Vault, a: Event, b: Event, c: Event)
    ensures AfterAll(v, [a]) == After(v, a) && (ValidRun(v, [a]) <==> Enabled(v, a))
    ensures AfterAll(v, [a, b]) == After(After(v, a), b)
    ensures ValidRun(v, [a, b]) <==> Enabled(v, a) && Enabled(After(v, a), b)
    ensures AfterAll(v, [a, b, c]) == After(After(After(v, a), b), c)
    ensures ValidRun(v, [a, b, c]) <==> Enabled(v, a) && Enabled(After(v, a), b) && Enabled(After(After(v, a), b), c)
  {
    hide After, Enabled;
    assert [a][1..] == [] && [b][1..] == [] && [c][1..] == [];
    assert [a, b][1..] == [b] && [b, c][1..] == [c] && [a, b, c][1..] == [b, c];
    assert AfterAll(After(v, a), [b]) == After(After(v, a), b);
    assert AfterAll(After(After(v, a), b), [c]) == After(After(After(v, a), b), c);
    assert ValidRun(After(v, a), [b]) <==> Enabled(After(v, a), b);
    assert ValidRun(After(After(v, a), b), [c]) <==> Enabled(After(After(v, a), b), c);
    assert AfterAll(After(v, a), [b, c]) == AfterAll(After(After(v, a), b), [c]);
  }

  lemma BackupFollows(v: Vault, id: RunId, trigger: Trigger, startedAt: int, endedAt: int, fate: Fate, days: int)
    requires id !in v.unreturned
    ensures AfterAll(v, BackupSteps(id, trigger, startedAt, endedAt, fate, days))
            == v.(runs := v.runs[id := NewRun(trigger, startedAt, endedAt, fate, days)])
    ensures id !in v.runs ==> ValidRun(v, BackupSteps(id, trigger, startedAt, endedAt, fate, days))
  {
    hide AfterAll, ValidRun;
    var begin, complete := Begin(id, trigger, startedAt), Complete(id, endedAt, endedAt + days * MS_PER_DAY);
    assert v.unreturned + {id} - {id} == v.unreturned;
    match fate
    case Dies => FewEvents(v, begin, begin, begin);
    case Fails => FewEvents(v, begin, Fail(id, endedAt), begin);
    case Succeeds => FewEvents(v, begin, complete, Return(id));
    case Retracted(later) => FewEvents(v, begin, complete, Retract(id, later));
  }

  /** With nothing in between, these steps are the backup of the service, and a decision with its write is
      its delete. */
  lemma RunsFollowService(v: Vault, id: RunId, trigger: Trigger, startedAt: int, endedAt: int, fate: Fate, days: int,
                          latest: Option<RunId>, at: int)
    requires id !in v.pending && id !in v.unreturned
    ensures AfterAll(v, BackupSteps(id, trigger, startedAt, endedAt, fate, days))
            == v.(runs := v.runs[id := NewRun(trigger, startedAt, endedAt, fate, days)])
    ensures id !in v.runs ==> ValidRun(v, BackupSteps(id, trigger, startedAt, endedAt, fate, days))
    ensures AfterAll(v, [DecideDelete(id, latest), Write(id, at)]) == v.(runs := Retire(v.runs, {id}, at))
  {
    hide AfterAll, ValidRun, BackupSteps;
    BackupFollows(v, id, trigger, startedAt, endedAt, fate, days);
    assert v.pending + {id} - {id} == v.pending;
    FewEvents(v, DecideDelete(id, latest), Write(id, at), Return(id));
  }

  /** A backfilled run is like one whose backup began and ended when its artifact was made; and retention
      decides on exactly the expired runs. */
  lemma DecisionsFollowService(v: Vault, id: RunId, trigger: Trigger, createdAt: int, days: int, latest: Option<RunId>,
                               visible: seq<RunId>, now: int, count: int, x: RunId)
    ensures After(v, Backfill(id, trigger, createdAt, createdAt + days * MS_PER_DAY))
            == v.(runs := v.runs[id := NewRun(trigger, createdAt, createdAt, Succeeds, days)])
    ensures var u := After(v, DecideRetention(latest, visible, now, days, count));
            && u.runs == v.runs && u.unreturned == v.unreturned
            && (x in u.pending <==> x in v.pending || x in ExpiredRows(v.runs, latest, visible, now, days, count))
  {
    hide ExpiredRows;
  }

  // ---------- what no deletion touches ----------

  // A run that is protected, and not decided away before it was.
  ghost predicate Shielded(v: Vault, x: RunId) {
    Live(v.runs, x) && x !in v.pending && v.runs[x].isProtected
  }

  predicate LeavesShield(e: Event, x: RunId) { e != Protect(x, false) }

  lemma ShieldStays(v: Vault, e: Event, x: RunId)
    requires Enabled(v, e) && Shielded(v, x) && LeavesShield(e, x)
    ensures Shielded(After(v, e), x)
  {
    hide ExpiredRows, KeepIds, IsLatestSuccessful, DeleteOutcome;
    if (e.DecideDelete? || e.DecideRetention?) && x in After(v, e).pending { ShieldedIsNotDecided(v, e, x); }
  }

  lemma ShieldedIsNotDecided(v: Vault, e: Event, x: RunId)
    requires Enabled(v, e) && Shielded(v, x) && (e.DecideDelete? || e.DecideRetention?)
    ensures x !in After(v, e).pending
  {
    hide ExpiredRows, KeepIds, IsLatestSuccessful;
  }

  /** Over every run: a protected backup is neither retired nor deleted until someone unprotects it. */
  lemma {:induction false} ShieldedForever(v: Vault, events: seq<Event>, x: RunId)
    requires ValidRun(v, events) && Shielded(v, x) && forall e | e in events :: LeavesShield(e, x)
    ensures Shielded(AfterAll(v, events), x)
    decreases |events|
  {
    hide Enabled, After, Shielded, LeavesShield;
    if events != [] {
      assert events[0] in events && forall e | e in events[1..] :: e in events;
      ShieldStays(v, events[0], x);
      ShieldedForever(After(v, events[0]), events[1..], x);
    }
  }

  /** A delete goes through exactly if the run is there, has ended and is neither protected nor the latest
      success, the admin has confirmed it, and its artifact could be removed. */
  lemma DeleteDoneExactly(t: Table, id: RunId, confirmed: bool, latest: Option<RunId>, storageFails: bool)
    requires IsLatestSuccessful(t, latest)
    ensures DeleteOutcome(t, id, confirmed, latest, storageFails) == Done <==>
            && id in t && t[id].deletedAt.None? && confirmed && !storageFails
            && t[id].status in {Completed, Failed} && !t[id].isProtected && latest != Some(id)
  {
  }

  // ---------- exactly when ----------

  // Runs in which no backup begins or ends: deletions, retention, protection, and what is unreturned.
  ghost predicate Quiet(events: seq<Event>) {
    forall e | e in events :: !e.Begin? && !e.Complete? && !e.Fail? && !e.Backfill?
  }

  // Some quiet run leads from v to u.
  ghost predicate Leads(v: Vault, u: Vault) {
    exists events :: Quiet(events) && ValidRun(v, events) && AfterAll(v, events) == u
  }

  lemma FirmStays(v: Vault, e: Event)
    requires Safe(v) && Enabled(v, e) && Firm(v) && !e.Begin? && !e.Complete? && !e.Fail? && !e.Backfill?
    ensures Firm(After(v, e))
  {
    hide ExpiredRows, KeepIds, IsVisibleList, DeleteOutcome;
    var u := After(v, e);
    forall x | Newest(u.runs, x)
      ensures x !in u.unreturned && forall y | Successful(u.runs, y) && y != x :: End(u.runs[y]) != End(u.runs[x])
    {
      NewestStays(v, e, x);
    }
  }

  // In a firm vault a quiet step leaves the newest success where it is, and adds none.
  lemma NewestStays(v: Vault, e: Event, x: RunId)
    requires Safe(v) && Enabled(v, e) && Firm(v) && !e.Begin? && !e.Complete? && !e.Fail? && !e.Backfill?
    requires Newest(After(v, e).runs, x)
    ensures Newest(v.runs, x)
    ensures forall y | Successful(After(v, e).runs, y) ::
              Successful(v.runs, y) && End(After(v, e).runs[y]) == End(v.runs[y])
    ensures After(v, e).unreturned <= v.unreturned
  {
    hide ExpiredRows, KeepIds, IsVisibleList, DeleteOutcome, Firm;
    var u := After(v, e);
    if n :| Newest(v.runs, n) {
      NewestIsKept(v, e, n);
    } else {
      TopExists(v.runs, x);
    }
  }

  lemma NewestIsKept(v: Vault, e: Event, n: RunId)
    requires Safe(v) && Enabled(v, e) && Firm(v) && Newest(v.runs, n)
    requires !e.Begin? && !e.Complete? && !e.Fail? && !e.Backfill?
    ensures Successful(After(v, e).runs, n) && End(After(v, e).runs[n]) == End(v.runs[n])
  {
    hide ExpiredRows, KeepIds, IsVisibleList, DeleteOutcome;
    assert Returned(v, n);
  }

  // Of the successes one ended last.
  lemma TopExists(t: Table, x: RunId)
    requires Successful(t, x)
    ensures exists n :: Newest(t, n)
  {
    var ids := set id | id in t && Successful(t, id);
    var n := TopOf(t, ids, x);
    assert forall id | Successful(t, id) :: id in ids;
    assert Newest(t, n);
  }

  lemma {:induction false} TopOf(t: Table, ids: set<RunId>, x: RunId) returns (n: RunId)
    requires x in ids && forall id | id in ids :: Successful(t, id)
    ensures n in ids && n in t && forall id | id in ids :: id in t && End(t[id]) <= End(t[n])
    decreases |ids|
  {
    if y :| y in ids && y != x {
      var m := TopOf(t, ids - {x}, y);
      n := if End(t[x]) <= End(t[m]) then m else x;
      forall id | id in ids ensures End(t[id]) <= End(t[n]) { assert id == x || id in ids - {x}; }
    } else {
      n := x;
    }
  }

  lemma {:induction false} QuietRunsAreSound(v: Vault, events: seq<Event>)
    requires Safe(v) && Firm(v) && ValidRun(v, events) && Quiet(events)
    ensures SoundRun(v, events)
    decreases |events|
  {
    hide Safe, Firm, Enabled, After;
    if events != [] {
      var e := events[0];
      assert e in events;
      FirmStays(v, e);
      NewestSurvivesStep(v, e);
      assert forall f | f in events[1..] :: f in events;
      QuietRunsAreSound(After(v, e), events[1..]);
    }
  }

  lemma {:induction false} Append(v: Vault, a: seq<Event>, b: seq<Event>)
    requires ValidRun(v, a) && ValidRun(AfterAll(v, a), b)
    ensures ValidRun(v, a + b) && AfterAll(v, a + b) == AfterAll(AfterAll(v, a), b)
    decreases |a|
  {
    hide Enabled, After;
    if a == [] {
      assert a + b == b;
    } else {
      Append(After(v, a[0]), a[1..], b);
      assert (a + b)[1..] == a[1..] + b;
    }
  }

  lemma LeadsOn(v: Vault, u: Vault, w: Vault)
    requires Leads(v, u) && Leads(u, w)
    ensures Leads(v, w)
  {
    hide ValidRun, AfterAll;
    var a :| Quiet(a) && ValidRun(v, a) && AfterAll(v, a) == u;
    var b :| Quiet(b) && ValidRun(u, b) && AfterAll(u, b) == w;
    Append(v, a, b);
    assert Quiet(a + b);
  }

  lemma OneStepLeads(v: Vault, e: Event)
    requires Enabled(v, e) && !e.Begin? && !e.Complete? && !e.Fail? && !e.Backfill?
    ensures Leads(v, After(v, e))
  {
    hide Enabled, After;
    assert [e][1..] == [];
    assert ValidRun(After(v, e), []) && AfterAll(After(v, e), []) == After(v, e);
    assert ValidRun(v, [e]) && AfterAll(v, [e]) == After(v, e) && Quiet([e]);
  }

  lemma NoStepLeads(v: Vault)
    ensures Leads(v, v)
  {
    assert Quiet([]) && ValidRun(v, []) && AfterAll(v, []) == v;
  }

  function Unprotected(t: Table, ids: set<RunId>): Table {
    map id | id in t :: if id in ids then t[id].(isProtected := false) else t[id]
  }

  function Retracted(t: Table, ids: set<RunId>, at: int): Table {
    map id | id in t :: if id in ids then t[id].(status := Failed, completedAt := Some(at)) else t[id]
  }

  lemma {:induction false} CanUnprotect(v: Vault, ids: set<RunId>)
    requires forall id | id in ids :: Live(v.runs, id)
    ensures Leads(v, v.(runs := Unprotected(v.runs, ids)))
    decreases |ids|
  {
    hide Leads;
    if ids != {} {
      var x := AnyOf(ids);
      var u := After(v, Protect(x, false));
      OneStepLeads(v, Protect(x, false));
      CanUnprotect(u, ids - {x});
      assert Unprotected(u.runs, ids - {x}) == Unprotected(v.runs, ids);
      LeadsOn(v, u, u.(runs := Unprotected(u.runs, ids - {x})));
    } else {
      assert Unprotected(v.runs, ids) == v.runs;
      NoStepLeads(v);
    }
  }

  // Everything but the newest, and each of the newest if there is another, can be decided away.
  lemma {:induction false} CanDecide(v: Vault, ids: set<RunId>)
    requires forall id | id in ids :: Successful(v.runs, id) && !v.runs[id].isProtected && exists n ::
               n != id && Newest(v.runs, n)
    ensures Leads(v, v.(pending := v.pending + ids))
    decreases |ids|
  {
    hide Leads;
    if ids != {} {
      var x := AnyOf(ids);
      var n :| n != x && Newest(v.runs, n);
      var u := After(v, DecideDelete(x, Some(n)));
      OneStepLeads(v, DecideDelete(x, Some(n)));
      CanDecide(u, ids - {x});
      assert v.pending + ids == u.pending + (ids - {x});
      LeadsOn(v, u, u.(pending := u.pending + (ids - {x})));
    } else {
      assert v.pending + ids == v.pending;
      NoStepLeads(v);
    }
  }

  lemma {:induction false} CanWrite(v: Vault, ids: set<RunId>)
    requires ids <= v.pending
    ensures Leads(v, v.(runs := Retire(v.runs, ids, 0), pending := v.pending - ids))
    decreases |ids|
  {
    hide Leads;
    if ids != {} {
      var x := AnyOf(ids);
      var u := After(v, Write(x, 0));
      OneStepLeads(v, Write(x, 0));
      CanWrite(u, ids - {x});
      assert Retire(u.runs, ids - {x}, 0) == Retire(v.runs, ids, 0);
      assert u.pending - (ids - {x}) == v.pending - ids;
      LeadsOn(v, u, u.(runs := Retire(u.runs, ids - {x}, 0), pending := u.pending - (ids - {x})));
    } else {
      assert Retire(v.runs, ids, 0) == v.runs && v.pending - ids == v.pending;
      NoStepLeads(v);
    }
  }

  lemma {:induction false} CanRetract(v: Vault, ids: set<RunId>)
    requires ids <= v.unreturned && forall id | id in ids :: id in v.runs
    ensures Leads(v, v.(runs := Retracted(v.runs, ids, 0), unreturned := v.unreturned - ids))
    decreases |ids|
  {
    hide Leads;
    if ids != {} {
      var x := AnyOf(ids);
      var u := After(v, Retract(x, 0));
      OneStepLeads(v, Retract(x, 0));
      CanRetract(u, ids - {x});
      assert Retracted(u.runs, ids - {x}, 0) == Retracted(v.runs, ids, 0);
      assert u.unreturned - (ids - {x}) == v.unreturned - ids;
      LeadsOn(v, u, u.(runs := Retracted(u.runs, ids - {x}, 0), unreturned := u.unreturned - (ids - {x})));
    } else {
      assert Retracted(v.runs, ids, 0) == v.runs && v.unreturned - ids == v.unreturned;
      NoStepLeads(v);
    }
  }

  // No success left is as new as the returned success b was.
  ghost predicate Lost(v: Vault, b: RunId, u: Vault)
    requires b in v.runs
  {
    forall c | Successful(u.runs, c) :: End(u.runs[c]) < End(v.runs[b])
  }

  lemma AnotherNewest(v: Vault, x: RunId)
    requires !Firm(v) && Returned(v, x)
    ensures exists n :: n != x && Newest(v.runs, n)
  {
    var m :| Newest(v.runs, m)
        && !(m !in v.unreturned && forall y | Successful(v.runs, y) && y != m :: End(v.runs[y]) != End(v.runs[m]));
    if m == x {
      var y :| Successful(v.runs, y) && y != m && End(v.runs[y]) == End(v.runs[m]);
      assert Newest(v.runs, y);
    }
  }

  // The run that loses everything as new as b: b and its equals are deleted, each against another
  // newest success, and what is newer or unreturned is retracted.
  lemma LosingRun(v: Vault, b: RunId)
    requires !Firm(v) && Returned(v, b) && forall c | Returned(v, c) :: End(v.runs[c]) <= End(v.runs[b])
    ensures exists u :: Leads(v, u) && Lost(v, b, u)
  {
    hide Firm, Leads;
    var gone := set id | id in v.runs && Returned(v, id) && End(v.runs[id]) == End(v.runs[b]);
    var taken := set id | id in v.runs && Successful(v.runs, id) && id in v.unreturned;
    var v1 := v.(runs := Unprotected(v.runs, gone));
    var v2 := v1.(pending := v1.pending + gone);
    var v3 := v2.(runs := Retire(v2.runs, gone, 0), pending := v2.pending - gone);
    var v4 := v3.(runs := Retracted(v3.runs, taken, 0), unreturned := v3.unreturned - taken);
    CanUnprotect(v, gone);
    forall id | id in gone
      ensures Successful(v1.runs, id) && !v1.runs[id].isProtected && exists n :: n != id && Newest(v1.runs, n) {
      AnotherNewest(v, id);
      var n :| n != id && Newest(v.runs, n);
      SameSuccesses(v, gone, n);
    }
    CanDecide(v1, gone);
    CanWrite(v2, gone);
    CanRetract(v3, taken);
    LeadsOn(v, v1, v2);
    LeadsOn(v, v2, v3);
    LeadsOn(v, v3, v4);
    forall c | Successful(v4.runs, c) ensures End(v4.runs[c]) < End(v.runs[b]) {
      assert Successful(v.runs, c);
    }
    assert Lost(v, b, v4);
  }

  lemma SameSuccesses(v: Vault, ids: set<RunId>, n: RunId)
    requires Newest(v.runs, n)
    ensures Newest(Unprotected(v.runs, ids), n)
  {
    var t := Unprotected(v.runs, ids);
    assert forall c | Successful(t, c) :: Successful(v.runs, c) && End(t[c]) == End(v.runs[c]);
  }

  lemma LostIsNotKept(v: Vault, b: RunId, u: Vault)
    requires Returned(v, b) && Lost(v, b, u)
    ensures !KeepsReturned(v, u)
  {
  }

  lemma NewestReturned(v: Vault, x: RunId) returns (b: RunId)
    requires Returned(v, x)
    ensures Returned(v, b) && forall c | Returned(v, c) :: End(v.runs[c]) <= End(v.runs[b])
  {
    var ids := set id | id in v.runs && Returned(v, id);
    b := TopOf(v.runs, ids, x);
    assert forall c | Returned(v, c) :: c in ids;
  }

  /** While no backup begins or ends, deletions, retention and protection keep a returned success at
      least as new as each there was exactly if the newest success is firm. If it is not, some run of
      them leaves no success as new as a returned one was. */
  lemma NewestSurvivesExactly(v: Vault, x: RunId)
    requires Safe(v) && Returned(v, x)
    ensures Firm(v) <==> forall u | Leads(v, u) :: KeepsReturned(v, u)
    ensures !Firm(v) ==> exists b, u :: Returned(v, b) && Leads(v, u) && Lost(v, b, u)
  {
    hide Firm, Safe, KeepsReturned, Lost;
    if Firm(v) {
      forall u | Leads(v, u) ensures KeepsReturned(v, u) {
        var events :| Quiet(events) && ValidRun(v, events) && AfterAll(v, events) == u;
        QuietRunsAreSound(v, events);
        NewestSurvives(v, events);
      }
    } else {
      var b := NewestReturned(v, x);
      LosingRun(v, b);
      var u :| Leads(v, u) && Lost(v, b, u);
      LostIsNotKept(v, b, u);
    }
  }

  // At every state of the run, the last included.
  ghost predicate FirmThroughout(v: Vault, events: seq<Event>)
    decreases |events|
  {
    Firm(v) && (events == [] || FirmThroughout(After(v, events[0]), events[1..]))
  }

  // From every state of the run, what deletions, retention and protection can lead to keeps the newest.
  ghost predicate KeepsThroughout(v: Vault, events: seq<Event>)
    decreases |events|
  {
    && (forall u | Leads(v, u) :: KeepsReturned(v, u))
    && (events == [] || KeepsThroughout(After(v, events[0]), events[1..]))
  }

  lemma StillReturned(v: Vault, u: Vault, x: RunId) returns (y: RunId)
    requires Returned(v, x) && KeepsReturned(v, u)
    ensures Returned(u, y)
  {
    y :| Returned(u, y) && End(v.runs[x]) <= End(u.runs[y]);
  }

  lemma FirmIsSound(v: Vault, e: Event)
    requires Firm(v)
    ensures Sound(v, e)
  {
  }

  /** Over every run of backups, backfills, deletions, retention and protection: the newest success is
      safe at every moment exactly if it is firm at every moment. */
  lemma {:induction false} SurvivalExact(v: Vault, events: seq<Event>, x: RunId)
    requires Safe(v) && Returned(v, x) && ValidRun(v, events)
    ensures FirmThroughout(v, events) <==> KeepsThroughout(v, events)
    decreases |events|
  {
    hide Firm, Safe, KeepsReturned, Returned, Enabled, After, Leads, Sound, Lost;
    NewestSurvivesExactly(v, x);
    if events != [] && Firm(v) {
      FirmIsSound(v, events[0]);
      NewestSurvivesStep(v, events[0]);
      var y := StillReturned(v, After(v, events[0]), x);
      SurvivalExact(After(v, events[0]), events[1..], y);
    }
  }

  /** Of two backups that ended in the same millisecond each may be deleted while the other is taken
      for the latest. */
  lemma TiedBackupsBothVanish()
    ensures var run := Run(Completed, Manual, 0, Some(1), None, false, None);
            var v := Vault(map[1 := run, 2 := run], {}, {});
            var events := [DecideDelete(1, Some(2)), DecideDelete(2, Some(1)), Write(1, 2), Write(2, 2)];
            ValidRun(v, events) && forall x :: !Successful(AfterAll(v, events).runs, x)
  {
    var run := Run(Completed, Manual, 0, Some(1), None, false, None);
    var v := Vault(map[1 := run, 2 := run], {}, {});
    FourSteps(v, DecideDelete(1, Some(2)), DecideDelete(2, Some(1)), Write(1, 2), Write(2, 2));
  }

  lemma FourSteps(v: Vault, e1: Event, e2: Event, e3: Event, e4: Event)
    ensures var v1 := After(v, e1); var v2 := After(v1, e2); var v3 := After(v2, e3);
            && AfterAll(v, [e1, e2, e3, e4]) == After(v3, e4)
            && (Enabled(v, e1) && Enabled(v1, e2) && Enabled(v2, e3) && Enabled(v3, e4) ==>
                 ValidRun(v, [e1, e2, e3, e4]))
  {
    hide Enabled, After;
    var v1 := After(v, e1);
    var v2 := After(v1, e2);
    var v3 := After(v2, e3);
    var v4 := After(v3, e4);
    assert [e4][1..] == [] && [e3, e4][1..] == [e4] && [e2, e3, e4][1..] == [e3, e4]
        && [e1, e2, e3, e4][1..] == [e2, e3, e4];
    assert ValidRun(v4, []) && AfterAll(v4, []) == v4;
    assert AfterAll(v3, [e4]) == v4 && (Enabled(v3, e4) ==> ValidRun(v3, [e4]));
    assert AfterAll(v2, [e3, e4]) == v4 && (Enabled(v2, e3) && Enabled(v3, e4) ==> ValidRun(v2, [e3, e4]));
    assert AfterAll(v1, [e2, e3, e4]) == v4;
  }

  /** An older backup is deleted because a newer one is COMPLETED, and then that one turns FAILED,
      because its audit record could not be written. */
  lemma RetractedBackupLeavesNone()
    ensures var old_, new_ :=
            Run(Completed, Manual, 0, Some(1), None, false, None), Run(Running, Manual, 2, None, None, false, None);
            var v := Vault(map[1 := old_, 2 := new_], {}, {});
            var events := [Complete(2, 3, 9), DecideDelete(1, Some(2)), Write(1, 4), Retract(2, 5)];
            && Safe(v) && Returned(v, 1) && Firm(v)
            && ValidRun(v, events) && forall x :: !Successful(AfterAll(v, events).runs, x)
  {
    var old_, new_ :=
        Run(Completed, Manual, 0, Some(1), None, false, None), Run(Running, Manual, 2, None, None, false, None);
    var v := Vault(map[1 := old_, 2 := new_], {}, {});
    FourSteps(v, Complete(2, 3, 9), DecideDelete(1, Some(2)), Write(1, 4), Retract(2, 5));
  }
}
