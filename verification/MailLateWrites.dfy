/** Runs of the mail queue in which a write by id or a recovery comes untimely, and what each of them
    breaks. Nobody crashes in them and nothing bounces. */
module MailLateWrites {
  import opened Options
  import opened MailQueue
  import opened MailRuns

  // The runs happen at one moment, but for the last, which goes on later.
  const NOW: int := 10
  const LATER: int := 11

  function Steps(id: JobId, steps: seq<Step>): seq<Event>
    decreases |steps|
  {
    if steps == [] then [] else [At(id, steps[0])] + Steps(id, steps[1..])
  }

  ghost predicate CanAll(c: Cell, steps: seq<Step>, clock: int)
    decreases |steps|
  {
    steps == [] || (Can(c, steps[0], clock, 0) && CanAll(Do(c, steps[0]), steps[1..], clock))
  }

  function DoAll(c: Cell, steps: seq<Step>): Cell
    decreases |steps|
  {
    if steps == [] then c else DoAll(Do(c, steps[0]), steps[1..])
  }

  // A queue with a single job.
  function Alone(id: JobId, c: Cell, clock: int := NOW): System { System(map[id := c], clock, 0) }

  lemma AloneStep(id: JobId, c: Cell, e: Step, clock: int)
    ensures After(Alone(id, c, clock), At(id, e)) == Alone(id, Do(c, e), clock)
    ensures Can(c, e, clock, 0) ==> Enabled(Alone(id, c, clock), At(id, e))
  {
    hide Do, Can, KeyHeld;
    assert After(Alone(id, c, clock), At(id, e)).cells == map[id := Do(c, e)];
  }

  lemma {:induction false} AloneRun(id: JobId, c: Cell, steps: seq<Step>, clock: int)
    requires CanAll(c, steps, clock)
    ensures ValidRun(Alone(id, c, clock), Steps(id, steps))
    ensures AfterAll(Alone(id, c, clock), Steps(id, steps)) == Alone(id, DoAll(c, steps), clock)
    decreases |steps|
  {
    hide Do, Can, After, Enabled, Alone;
    if steps != [] {
      AloneStep(id, c, steps[0], clock);
      AloneRun(id, Do(c, steps[0]), steps[1..], clock);
      assert Steps(id, steps)[1..] == Steps(id, steps[1..]);
    }
  }

  // No crash, no bounce, no recovery, and createJob comes at the first moment, when the window is open.
  predicate Plain(e: Step) { !e.Crash? && !e.Bounce? && !e.Recover? && (e.Requeue? ==> e.now == NOW) }

  // The job has come from c0 to c by these steps.
  ghost predicate Came(c0: Cell, steps: seq<Step>, c: Cell, clock: int := NOW) {
    CanAll(c0, steps, clock) && DoAll(c0, steps) == c && forall e | e in steps :: Plain(e)
  }

  lemma {:induction false} Snoc(c0: Cell, steps: seq<Step>, e: Step, clock: int)
    requires CanAll(c0, steps, clock) && Can(DoAll(c0, steps), e, clock, 0)
    ensures CanAll(c0, steps + [e], clock) && DoAll(c0, steps + [e]) == Do(DoAll(c0, steps), e)
    decreases |steps|
  {
    hide Do, Can;
    if steps == [] {
      assert [] + [e] == [e] && [e][1..] == [];
      assert CanAll(Do(c0, e), [], clock) && DoAll(Do(c0, e), []) == Do(c0, e);
    } else {
      Snoc(Do(c0, steps[0]), steps[1..], e, clock);
      assert (steps + [e])[1..] == steps[1..] + [e];
    }
  }

  lemma Go(c0: Cell, steps: seq<Step>, c: Cell, e: Step, clock: int := NOW) returns (more: seq<Step>, d: Cell)
    requires Came(c0, steps, c, clock) && Can(c, e, clock, 0) && Plain(e)
    ensures Came(c0, more, d, clock) && more == steps + [e] && d == Do(c, e)
  {
    hide Do, Can, Plain;
    Snoc(c0, steps, e, clock);
    more, d := steps + [e], Do(c, e);
  }

  // A bulk job of a batch, with two attempts and a key whose window is open.
  predicate Asked(r: Request) {
    && r.kind == Bulk && r.maxAttempts == 2 && r.batchKey == Some(1) && r.scheduledAt.None?
    && r.key == Some(7) && r.until == Some(NOW + 1)
  }

  function ClaimBy(worker: WorkerId, attempts: int, at: int := NOW): Step {
    Claim(worker, Bulk, at, attempts, 2, 0, at)
  }

  // ---------- a late retry ----------

  // Two admins read the job paused; the retry of the second is written when worker 1 has claimed it.
  lemma RetryTwice(r: Request) returns (steps: seq<Step>, c: Cell)
    requires Asked(r)
    ensures Came(NewCell(r), steps, c) && Land(RetryCall(true, true, 2)) in steps
    ensures c.row == AsRetried(c.row, 2) && c.row.kind == Bulk && c.row.maxAttempts == 2 && c.row.status == Queued
    ensures c.holder == Some(Holder(1, NOW, Loaded, 1, 2)) && c.strays == []
  {
    hide Came;
    var c0 := NewCell(r);
    steps, c := Start(c0);
    steps, c := Go(c0, steps, c, PauseSibling(Some(1), None));
    steps, c := Go(c0, steps, c, Check(RetryCall(true, true, 1)));
    steps, c := Go(c0, steps, c, Check(RetryCall(true, true, 2)));
    steps, c := Go(c0, steps, c, Land(RetryCall(true, true, 1)));
    steps, c := Go(c0, steps, c, ClaimBy(1, 0));
    steps, c := Go(c0, steps, c, Load);
    steps, c := Go(c0, steps, c, Land(RetryCall(true, true, 2)));
  }

  lemma Start(c0: Cell, clock: int := NOW) returns (steps: seq<Step>, c: Cell)
    ensures steps == [] && c == c0 && Came(c0, steps, c, clock)
  {
    steps, c := [], c0;
  }

  // Worker 2 fails on it, worker 3 claims it, and worker 1 reports a retryable failure of what it takes
  // for attempt 1 of 2.
  lemma Stranding(r: Request) returns (steps: seq<Step>, c: Cell)
    requires Asked(r)
    ensures Came(NewCell(r), steps, c)
    ensures Due(c.row, Bulk, NOW) && c.row.attempts == c.row.maxAttempts
  {
    hide Came;
    var c0 := NewCell(r);
    steps, c := RetryTwice(r);
    steps, c := Go(c0, steps, c, ClaimBy(2, 0));
    steps, c := Go(c0, steps, c, Load);
    steps, c := Go(c0, steps, c, Fail(true, NOW));
    steps, c := Go(c0, steps, c, ClaimBy(3, 1));
    steps, c := Go(c0, steps, c, Switch);
    steps, c := Go(c0, steps, c, Fail(true, NOW));
  }

  // A valid run of the queue with this one job ends in c.
  ghost predicate Ends(id: JobId, c0: Cell, events: seq<Event>, c: Cell) {
    ValidRun(Alone(id, c0), events) && AfterAll(Alone(id, c0), events) == Alone(id, c)
  }

  /** A late retry can strand a job: a valid run that leaves it due and refused by every worker's filter. */
  lemma LateRetryStrands(id: JobId, r: Request)
    requires Asked(r)
    ensures exists events: seq<Event>, c: Cell ::
              && Ends(id, NewCell(r), events, c) && !TimelyRun(Alone(id, NewCell(r)), events)
              && Due(c.row, c.row.kind, NOW) && c.row.attempts == c.row.maxAttempts
  {
    hide Came, Ends, TimelyRun;
    var steps, c := Stranding(r);
    AloneEnds(id, NewCell(r), steps, c);
    assert !RowOk(c.row);
    NotInOrder(id, r, steps, c);
  }

  lemma AloneEnds(id: JobId, c0: Cell, steps: seq<Step>, c: Cell)
    requires Came(c0, steps, c)
    ensures Ends(id, c0, Steps(id, steps), c)
  {
    CameRuns(id, c0, steps, c, NOW);
  }

  lemma TimelyEndsInOrder(id: JobId, r: Request, steps: seq<Step>, c: Cell)
    requires Came(NewCell(r), steps, c) && Asked(r) && TimelyRun(Alone(id, NewCell(r)), Steps(id, steps))
    ensures CellOk(c, NOW, 0)
  {
    hide CellOk, Came, ValidRun, AfterAll, NewCell, TimelyRun;
    AloneEnds(id, NewCell(r), steps, c);
    NewCellOk(r, NOW, 0);
    AlwaysOk(Alone(id, NewCell(r)), Steps(id, steps));
    assert CellOk(Alone(id, c).cells[id], NOW, 0);
  }

  // A run that ends out of order was not timely.
  lemma NotInOrder(id: JobId, r: Request, steps: seq<Step>, c: Cell)
    requires Came(NewCell(r), steps, c) && Asked(r) && !CellOk(c, NOW, 0)
    ensures !TimelyRun(Alone(id, NewCell(r)), Steps(id, steps))
  {
    hide CellOk, Came, TimelyRun;
    if TimelyRun(Alone(id, NewCell(r)), Steps(id, steps)) { TimelyEndsInOrder(id, r, steps, c); }
  }

  // ---------- a late cancellation ----------

  /** A late cancellation can have a message sent twice within the window of its key: it frees the job
      that worker 1 is sending, createJob queues it anew, worker 2 sends it, and worker 1 records its own. */
  lemma CancelSendsTwice(r: Request) returns (steps: seq<Step>, c: Cell)
    requires Asked(r)
    ensures Came(NewCell(r), steps, c) && c.sents == 2 && c.lost == 0
  {
    hide Came;
    var c0 := NewCell(r);
    steps, c := Start(c0);
    steps, c := Go(c0, steps, c, Check(CancelCall));
    steps, c := Go(c0, steps, c, ClaimBy(1, 0));
    steps, c := Go(c0, steps, c, Load);
    steps, c := Go(c0, steps, c, HandOff);
    steps, c := Go(c0, steps, c, Land(CancelCall));
    steps, c := Go(c0, steps, c, Requeue(r, NOW));
    steps, c := SendsBoth(c0, steps, c);
  }

  lemma SendsBoth(c0: Cell, before: seq<Step>, b: Cell) returns (steps: seq<Step>, c: Cell)
    requires Came(c0, before, b) && b.holder == Some(Holder(1, NOW, HandedOff, 1, 2)) && b.strays == []
    requires Claimable(b.row, Bulk, NOW, 0, 2) && b.sents == 0 && b.lost == 0
    ensures Came(c0, steps, c) && c.sents == 2 && c.lost == 0
  {
    hide Came;
    steps, c := Go(c0, before, b, ClaimBy(2, 0));
    steps, c := Go(c0, steps, c, Load);
    steps, c := Go(c0, steps, c, HandOff);
    steps, c := Go(c0, steps, c, Accept);
    steps, c := Go(c0, steps, c, Record(0, 1, NOW));
    steps, c := Go(c0, steps, c, Switch);
    steps, c := Go(c0, steps, c, Accept);
    steps, c := Go(c0, steps, c, Record(0, 2, NOW));
  }

  lemma LateCancelSendsTwice(id: JobId, r: Request)
    requires Asked(r)
    ensures exists events: seq<Event>, c: Cell ::
              && Ends(id, NewCell(r), events, c)
              && (forall e | e in events :: e.At? && Plain(e.step))
              && c.sents == 2 && c.lost == 0
  {
    hide Came, Ends;
    var steps, c := CancelSendsTwice(r);
    AloneEnds(id, NewCell(r), steps, c);
    PlainSteps(id, NewCell(r), steps, c);
  }

  lemma PlainSteps(id: JobId, c0: Cell, steps: seq<Step>, c: Cell)
    requires Came(c0, steps, c)
    ensures forall e | e in Steps(id, steps) :: e.At? && Plain(e.step)
  {
    hide Plain, CanAll, DoAll;
    StepsAreSteps(id, steps);
  }

  lemma {:induction false} StepsAreSteps(id: JobId, steps: seq<Step>)
    ensures forall e | e in Steps(id, steps) :: e.At? && e.step in steps
    decreases |steps|
  {
    if steps != [] { StepsAreSteps(id, steps[1..]); }
  }

  // ---------- a late archiving ----------

  lemma ArchivesQueued(r: Request) returns (steps: seq<Step>, c: Cell)
    requires Asked(r)
    ensures Came(NewCell(r), steps, c) && c.row.status == Queued && c.row.archivedAt.Some?
  {
    hide Came;
    var c0 := NewCell(r);
    steps, c := Start(c0);
    steps, c := Go(c0, steps, c, ClaimBy(1, 0));
    steps, c := Go(c0, steps, c, Load);
    steps, c := Go(c0, steps, c, FailRender);
    steps, c := Go(c0, steps, c, Check(ArchiveCall(NOW)));
    steps, c := Go(c0, steps, c, Retry(true, false, 0));
    steps, c := Go(c0, steps, c, Land(ArchiveCall(NOW)));
  }

  /** A late archiving can hide a job: it was dead when read, is queued again when the write lands, and
      from then on no query for due jobs finds it. */
  lemma LateArchiveHides(id: JobId, r: Request)
    requires Asked(r)
    ensures exists events: seq<Event>, c: Cell ::
              && Ends(id, NewCell(r), events, c) && !TimelyRun(Alone(id, NewCell(r)), events)
              && c.row.status == Queued && forall kind, now :: !Due(c.row, kind, now)
  {
    hide Came, Ends, TimelyRun;
    var steps, c := ArchivesQueued(r);
    AloneEnds(id, NewCell(r), steps, c);
    assert !RowOk(c.row);
    NotInOrder(id, r, steps, c);
  }

  // ---------- overlapping createJob calls ----------

  // Every step on the way is timely.
  ghost predicate WellTimed(c: Cell, steps: seq<Step>)
    decreases |steps|
  {
    steps == [] || (Timely(c, steps[0]) && WellTimed(Do(c, steps[0]), steps[1..]))
  }

  lemma {:induction false} WellTimedOn(c0: Cell, steps: seq<Step>, e: Step)
    requires WellTimed(c0, steps) && Timely(DoAll(c0, steps), e)
    ensures WellTimed(c0, steps + [e])
    decreases |steps|
  {
    hide Do, Timely;
    if steps == [] {
      assert [] + [e] == [e] && [e][1..] == [];
      assert WellTimed(Do(c0, e), []);
    } else {
      WellTimedOn(Do(c0, steps[0]), steps[1..], e);
      assert (steps + [e])[1..] == steps[1..] + [e];
    }
  }

  lemma {:induction false} WellTimedRun(id: JobId, c: Cell, steps: seq<Step>)
    requires WellTimed(c, steps)
    ensures TimelyRun(Alone(id, c), Steps(id, steps))
    decreases |steps|
  {
    hide Do, Timely, After;
    if steps != [] {
      AloneStep(id, c, steps[0], NOW);
      WellTimedRun(id, Do(c, steps[0]), steps[1..]);
      assert Steps(id, steps)[1..] == Steps(id, steps[1..]);
    }
  }

  // What workers and createJob do.
  predicate OfCreates(e: Step) {
    e.Claim? || (ByHolder(e) && !e.Crash?) || (e.Check? && e.call.RequeueCall?) || (e.Land? && e.call.RequeueCall?)
  }

  ghost predicate Well(c0: Cell, steps: seq<Step>, c: Cell) {
    Came(c0, steps, c) && WellTimed(c0, steps) && forall e | e in steps :: OfCreates(e)
  }

  lemma WellStart(c0: Cell) returns (steps: seq<Step>, c: Cell)
    ensures Well(c0, steps, c) && c == c0
  {
    steps, c := [], c0;
  }

  lemma Next(c0: Cell, steps: seq<Step>, c: Cell, e: Step) returns (more: seq<Step>, d: Cell)
    requires Well(c0, steps, c) && Can(c, e, NOW, 0) && Plain(e) && Timely(c, e) && OfCreates(e)
    ensures Well(c0, more, d) && d == Do(c, e)
  {
    hide Do, Can, Plain, OfCreates, Timely;
    more, d := Go(c0, steps, c, e);
    WellTimedOn(c0, steps, e);
  }

  lemma NextSends(c0: Cell, before: seq<Step>, b: Cell, worker: WorkerId) returns (steps: seq<Step>, c: Cell)
    requires Well(c0, before, b) && Claimable(b.row, Bulk, NOW, 0, 2) && b.holder.None? && b.strays == []
    ensures Well(c0, steps, c) && c.sents == b.sents + 1 && c.lost == b.lost && c.calls == b.calls
    ensures c.row.status == Sent && c.row.key == b.row.key && c.holder.None? && c.strays == []
  {
    hide Well;
    steps, c := Next(c0, before, b, ClaimBy(worker, 0));
    steps, c := Next(c0, steps, c, Load);
    steps, c := Next(c0, steps, c, HandOff);
    steps, c := Next(c0, steps, c, Accept);
    steps, c := Next(c0, steps, c, Record(0, worker, NOW));
  }

  // Two createJob calls read the job dead; the first queues it anew.
  lemma TwoRead(r: Request) returns (steps: seq<Step>, c: Cell)
    requires Asked(r)
    ensures Well(NewCell(r), steps, c) && Claimable(c.row, Bulk, NOW, 0, 2) && c.holder.None? && c.strays == []
    ensures c.sents == 0 && c.lost == 0 && c.calls == multiset{RequeueCall(r, NOW)}
  {
    hide Well;
    var c0 := NewCell(r);
    steps, c := WellStart(c0);
    steps, c := Next(c0, steps, c, ClaimBy(1, 0));
    steps, c := Next(c0, steps, c, Load);
    steps, c := Next(c0, steps, c, FailRender);
    steps, c := Next(c0, steps, c, Check(RequeueCall(r, NOW)));
    steps, c := Next(c0, steps, c, Check(RequeueCall(r, NOW)));
    steps, c := Next(c0, steps, c, Land(RequeueCall(r, NOW)));
  }

  // Then the job is sent, the second lands on it, and it is sent again.
  lemma CreatesSendTwice(r: Request) returns (steps: seq<Step>, c: Cell)
    requires Asked(r)
    ensures Well(NewCell(r), steps, c) && c.sents == 2 && c.lost == 0
  {
    hide Well;
    var c0 := NewCell(r);
    steps, c := TwoRead(r);
    steps, c := NextSends(c0, steps, c, 2);
    assert RequeueCall(r, NOW) in c.calls;
    steps, c := Next(c0, steps, c, Land(RequeueCall(r, NOW)));
    steps, c := NextSends(c0, steps, c, 3);
  }

  lemma WellRuns(id: JobId, c0: Cell, steps: seq<Step>, c: Cell)
    requires Well(c0, steps, c)
    ensures Ends(id, c0, Steps(id, steps), c) && TimelyRun(Alone(id, c0), Steps(id, steps))
    ensures forall e | e in Steps(id, steps) :: e.At? && OfCreates(e.step)
  {
    hide OfCreates;
    AloneEnds(id, c0, steps, c);
    WellTimedRun(id, c0, steps);
    StepsAreSteps(id, steps);
  }

  /** Two overlapping createJob calls can have a message sent twice within the window of its key, though
      nothing else happens but the steps of workers, none crashes, and every state is in order. */
  lemma OverlappingCreatesSendTwice(id: JobId, r: Request)
    requires Asked(r)
    ensures exists events: seq<Event>, c: Cell ::
              && Ends(id, NewCell(r), events, c) && AllOk(Alone(id, NewCell(r)), events)
              && (forall e | e in events :: e.At? && OfCreates(e.step))
              && c.sents == 2 && c.lost == 0
  {
    hide Well, TimelyRun, AllOk, SystemOk, OfCreates, ValidRun, AfterAll, NewCell;
    var steps, c := CreatesSendTwice(r);
    WellRuns(id, NewCell(r), steps, c);
    NewAloneOk(id, r);
    AlwaysOkExactly(Alone(id, NewCell(r)), Steps(id, steps));
  }

  lemma NewAloneOk(id: JobId, r: Request)
    requires Asked(r)
    ensures SystemOk(Alone(id, NewCell(r)))
  {
    hide CellOk, NewCell;
    NewCellOk(r, NOW, 0);
  }

  // ---------- a recovery from a slow worker ----------

  lemma {:induction false} Continued(s: System, a: seq<Event>, b: seq<Event>)
    requires ValidRun(s, a) && ValidRun(AfterAll(s, a), b)
    ensures ValidRun(s, a + b) && AfterAll(s, a + b) == AfterAll(AfterAll(s, a), b)
    decreases |a|
  {
    hide Enabled, After;
    if a == [] {
      assert a + b == b;
    } else {
      Continued(After(s, a[0]), a[1..], b);
      assert (a + b)[1..] == a[1..] + b;
    }
  }

  // Worker 1 has handed the message to the provider.
  lemma HandsOff(r: Request) returns (steps: seq<Step>, c: Cell)
    requires Asked(r)
    ensures Came(NewCell(r), steps, c) && c.holder == Some(Holder(1, NOW, HandedOff, 1, 2)) && c.strays == []
    ensures c.row == AsClaimed(AsCreated(r), NOW, 1, 0) && c.sents == 0 && c.lost == 0 && c.claims == 1
    ensures forall e | e in steps :: OfWorker(e)
  {
    hide Came;
    var c0 := NewCell(r);
    steps, c := Start(c0);
    steps, c := Go(c0, steps, c, ClaimBy(1, 0));
    steps, c := Go(c0, steps, c, Load);
    steps, c := Go(c0, steps, c, HandOff);
  }

  const OLD: Snap := Snap(NOW, 1, 2, 1)

  // Its lock has become stale: the job is queued again, and worker 2 sends it.
  lemma SentByBoth(c1: Cell, r: Request) returns (steps: seq<Step>, c: Cell)
    requires Asked(r) && c1.holder == Some(Holder(1, NOW, HandedOff, 1, 2)) && c1.strays == []
    requires c1.row == AsRecovered(AsClaimed(AsCreated(r), NOW, 1, 0), 1, 2) && c1.sents == 0 && c1.lost == 0
    ensures Came(c1, steps, c, LATER) && c.sents == 2 && c.lost == 0
    ensures forall e | e in steps :: OfWorker(e)
  {
    hide Came;
    steps, c := Start(c1, LATER);
    steps, c := Go(c1, steps, c, ClaimBy(2, 1, LATER), LATER);
    steps, c := Go(c1, steps, c, Load, LATER);
    steps, c := Go(c1, steps, c, HandOff, LATER);
    steps, c := Go(c1, steps, c, Accept, LATER);
    steps, c := Go(c1, steps, c, Record(0, 1, LATER), LATER);
    steps, c := Go(c1, steps, c, Switch, LATER);
    steps, c := Go(c1, steps, c, Accept, LATER);
    steps, c := Go(c1, steps, c, Record(0, 2, LATER), LATER);
  }

  // Time passes, and a worker reads the row and takes the lock.
  lemma Recovers(id: JobId, r: Request, c: Cell)
    requires Asked(r) && c.row == AsClaimed(AsCreated(r), NOW, 1, 0) && c.claims == 1
    ensures var events := [Tick(LATER), At(id, ReadStale), At(id, Recover(OLD))];
            var d := Do(Do(c, ReadStale), Recover(OLD));
            && ValidRun(Alone(id, c), events) && AfterAll(Alone(id, c), events) == Alone(id, d, LATER)
            && d.row == AsRecovered(c.row, 1, 2) && d.holder == c.holder && d.strays == c.strays && d.sents == c.sents
            && d.lost == c.lost
  {
    var steps := [ReadStale, Recover(OLD)];
    assert steps[1..] == [Recover(OLD)] && [Recover(OLD)][1..] == [];
    RecoverySteps(c);
    AloneRun(id, c, steps, LATER);
    assert Steps(id, [Recover(OLD)]) == [At(id, Recover(OLD))];
    TimePasses(id, c, Steps(id, steps));
  }

  lemma RecoverySteps(c: Cell)
    requires c.row.archivedAt.None? && c.row.status == Processing && c.row.lock.Some? && c.row.lock.value.at == NOW
    requires c.row.attempts == 1 && c.row.maxAttempts == 2 && c.claims == 1
    ensures var steps := [ReadStale, Recover(OLD)];
            CanAll(c, steps, LATER) && DoAll(c, steps) == Do(Do(c, ReadStale), Recover(OLD))
  {
    var steps := [ReadStale, Recover(OLD)];
    assert steps[1..] == [Recover(OLD)] && [Recover(OLD)][1..] == [];
    var d := Do(c, ReadStale);
    assert OLD in d.snaps;
    assert CanAll(Do(d, Recover(OLD)), [], LATER) && DoAll(Do(d, Recover(OLD)), []) == Do(d, Recover(OLD));
    assert CanAll(d, [Recover(OLD)], LATER) && DoAll(d, [Recover(OLD)]) == Do(d, Recover(OLD));
  }

  lemma TimePasses(id: JobId, c: Cell, rest: seq<Event>)
    requires ValidRun(Alone(id, c, LATER), rest)
    ensures ValidRun(Alone(id, c), [Tick(LATER)] + rest)
    ensures AfterAll(Alone(id, c), [Tick(LATER)] + rest) == AfterAll(Alone(id, c, LATER), rest)
  {
    var events := [Tick(LATER)] + rest;
    assert events[1..] == rest;
    assert After(Alone(id, c), Tick(LATER)).cells == map[id := c];
  }

  // Steps of workers.
  predicate OfWorker(e: Step) { e.Claim? || ByHolder(e) || e.Switch? || e.ReadStale? || e.Recover? }

  lemma WorkerSteps(id: JobId, steps: seq<Step>)
    requires forall e | e in steps :: OfWorker(e) && Plain(e)
    ensures forall e | e in Steps(id, steps) :: e.At? && OfWorker(e.step) && !e.step.Crash?
  {
    hide OfWorker;
    StepsAreSteps(id, steps);
  }

  /** A recovery from a worker that is only slow can have a message sent twice, though nothing happens
      but the steps of two workers, neither of which crashes: outcomes are written by id alone. */
  lemma SlowWorkerSendsTwice(id: JobId, r: Request)
    requires Asked(r)
    ensures exists events: seq<Event>, c: Cell ::
              && ValidRun(Alone(id, NewCell(r)), events)
              && AfterAll(Alone(id, NewCell(r)), events) == Alone(id, c, LATER)
              && (forall e | e in events :: e == Tick(LATER) || (e.At? && OfWorker(e.step) && !e.step.Crash?))
              && c.sents == 2 && c.lost == 0
  {
    hide Came, ValidRun, AfterAll, Steps, OfWorker, NewCell, AsRecovered, AsClaimed, AsCreated;
    var c0 := NewCell(r);
    var first, c := HandsOff(r);
    CameRuns(id, c0, first, c, NOW);
    var middle := [Tick(LATER), At(id, ReadStale), At(id, Recover(OLD))];
    Recovers(id, r, c);
    var d := Do(Do(c, ReadStale), Recover(OLD));
    var second, e := SentByBoth(d, r);
    CameRuns(id, d, second, e, LATER);
    Continued(Alone(id, c), middle, Steps(id, second));
    Continued(Alone(id, c0), Steps(id, first), middle + Steps(id, second));
    assert OfWorker(ReadStale) && OfWorker(Recover(OLD)) by { WorkersRecover(); }
    WorkerSteps(id, first);
    WorkerSteps(id, second);
  }

  lemma WorkersRecover()
    ensures OfWorker(ReadStale) && OfWorker(Recover(OLD))
  {
  }

  lemma CameRuns(id: JobId, c0: Cell, steps: seq<Step>, c: Cell, clock: int)
    requires Came(c0, steps, c, clock)
    ensures ValidRun(Alone(id, c0, clock), Steps(id, steps))
    ensures AfterAll(Alone(id, c0, clock), Steps(id, steps)) == Alone(id, c, clock)
    ensures forall e | e in steps :: Plain(e)
  {
    AloneRun(id, c0, steps, clock);
  }
}
