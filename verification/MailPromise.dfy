/** What the mail queue is there for: no job is stranded, none is sent twice, and no record of a sent one
    is lost. Every step is followed by all that may come after it, and the steps that keep the promise
    are told apart from those that do not. */
module MailPromise {
  import opened Options
  import opened MailQueue
  import opened MailRuns
  import opened MailGuarantees

  // ---------- what may follow ----------

  // A step that is timely and takes no SENT record away.
  ghost predicate Fine(c: Cell, e: Step) { Timely(c, e) && !EndsSent(c, e) }

  datatype Timed = Timed(at: int, step: Step)

  // Fine steps on one job, at times that do not run backwards.
  ghost predicate Follows(c: Cell, clock: int, grace: int, ts: seq<Timed>)
    decreases |ts|
  {
    ts == [] ||
      var t := ts[0];
      && clock <= t.at && Can(c, t.step, t.at, grace) && Fine(c, t.step)
      && Follows(Do(c, t.step), t.at, grace, ts[1..])
  }

  function Reached(c: Cell, ts: seq<Timed>): Cell
    decreases |ts|
  {
    if ts == [] then c else Reached(Do(c, ts[0].step), ts[1..])
  }

  function ClockOf(clock: int, ts: seq<Timed>): int {
    if ts == [] then clock else ts[|ts| - 1].at
  }

  // Some fine steps lead from c to u.
  ghost predicate Leads(c: Cell, clock: int, grace: int, u: Cell, later: int) {
    exists ts :: Follows(c, clock, grace, ts) && Reached(c, ts) == u && ClockOf(clock, ts) == later
  }

  lemma StayLeads(c: Cell, clock: int, grace: int)
    ensures Leads(c, clock, grace, c, clock)
  {
    assert Follows(c, clock, grace, []) && Reached(c, []) == c && ClockOf(clock, []) == clock;
  }

  lemma StepLeads(c: Cell, clock: int, grace: int, e: Step, at: int)
    requires clock <= at && Can(c, e, at, grace) && Fine(c, e)
    ensures Leads(c, clock, grace, Do(c, e), at)
  {
    hide Can, Fine, Do;
    var ts := [Timed(at, e)];
    assert ts[1..] == [];
    assert Follows(Do(c, e), at, grace, []) && Reached(Do(c, e), []) == Do(c, e);
    assert Follows(c, clock, grace, ts) && Reached(c, ts) == Do(c, e) && ClockOf(clock, ts) == at;
  }

  lemma {:induction false} Joined(c: Cell, clock: int, grace: int, a: seq<Timed>, b: seq<Timed>)
    requires Follows(c, clock, grace, a) && Follows(Reached(c, a), ClockOf(clock, a), grace, b)
    ensures Follows(c, clock, grace, a + b) && Reached(c, a + b) == Reached(Reached(c, a), b)
    ensures ClockOf(clock, a + b) == ClockOf(ClockOf(clock, a), b)
    decreases |a|
  {
    hide Can, Fine, Do;
    if a == [] {
      assert a + b == b;
    } else {
      assert (a + b)[1..] == a[1..] + b;
      Joined(Do(c, a[0].step), a[0].at, grace, a[1..], b);
    }
  }

  lemma ThenLeads(c: Cell, clock: int, grace: int, u: Cell, at: int, v: Cell, later: int)
    requires Leads(c, clock, grace, u, at) && Leads(u, at, grace, v, later)
    ensures Leads(c, clock, grace, v, later)
  {
    hide Follows, Reached, ClockOf;
    var a :| Follows(c, clock, grace, a) && Reached(c, a) == u && ClockOf(clock, a) == at;
    var b :| Follows(u, at, grace, b) && Reached(u, b) == v && ClockOf(at, b) == later;
    Joined(c, clock, grace, a, b);
  }

  /** One more step of a job that has come from c to u. */
  lemma Then(c: Cell, clock: int, grace: int, u: Cell, at: int, e: Step, later: int) returns (v: Cell)
    requires Leads(c, clock, grace, u, at) && at <= later && Can(u, e, later, grace) && Fine(u, e)
    ensures v == Do(u, e) && Leads(c, clock, grace, v, later)
  {
    hide Leads, Can, Fine, Do;
    v := Do(u, e);
    StepLeads(u, at, grace, e, later);
    ThenLeads(c, clock, grace, u, at, v, later);
  }

  // ---------- the promise ----------

  /** The job is not settled nor paused, no live worker takes itself for its holder, and no query of a
      worker, for due jobs or for stale locks, will ever find it or win it. */
  ghost predicate Stranded(c: Cell) {
    && c.holder.None? && c.strays == [] && (Waiting(c.row) || c.row.status == Processing)
    && (forall kind, now :: !(Due(c.row, kind, now) && c.row.attempts < c.row.maxAttempts))
    && (forall clock, grace :: !Can(c, ReadStale, clock, grace))
  }

  // Records of it as SENT: the one that c may hold, and those that were written up to u.
  function Records(c: Cell, u: Cell): int { (if c.row.status == Sent then 1 else 0) + u.sents - c.sents }

  /** The step takes no SENT record away, and whatever fine steps follow, the job is not stranded and
      not recorded SENT more than once. */
  ghost predicate Kept(c: Cell, e: Step, clock: int, grace: int) {
    && (c.row.status == Sent ==> Do(c, e).row.status == Sent)
    && forall u, later | Leads(Do(c, e), clock, grace, u, later) :: !Stranded(u) && Records(c, u) <= 1
  }

  // ---------- fine steps keep it ----------

  lemma FineKeeps(c: Cell, e: Step, clock: int, at: int, grace: int)
    requires CellOk(c, clock, grace) && clock <= at && Can(c, e, at, grace) && Fine(c, e)
    ensures CellOk(Do(c, e), at, grace) && Do(c, e).ended == c.ended
  {
    hide CellOk, Can, Timely, EndsSent, Do;
    ClockKeeps(c, clock, at, grace);
    StepKeeps(c, e, at, grace);
    NothingEnds(c, e);
  }

  lemma {:induction false} FollowsKeeps(c: Cell, clock: int, grace: int, ts: seq<Timed>)
    requires CellOk(c, clock, grace) && Follows(c, clock, grace, ts)
    ensures CellOk(Reached(c, ts), ClockOf(clock, ts), grace) && Reached(c, ts).ended == c.ended
    decreases |ts|
  {
    hide CellOk, Can, Fine, Do;
    if ts != [] {
      FineKeeps(c, ts[0].step, clock, ts[0].at, grace);
      FollowsKeeps(Do(c, ts[0].step), ts[0].at, grace, ts[1..]);
    }
  }

  lemma InOrderIsNotStranded(c: Cell, clock: int, grace: int)
    requires CellOk(c, clock, grace)
    ensures !Stranded(c)
  {
    hide SnapsOk, WinsOk, HandoffsOk, AccountsOk, CallsOk;
    var j := c.row;
    if Waiting(j) {
      assert Due(j, j.kind, if j.scheduledAt.Some? then j.scheduledAt.value else 0);
    } else if j.status == Processing {
      assert Can(c, ReadStale, j.lock.value.at + 1, 0);
    }
  }

  lemma RecordsOf(c: Cell, u: Cell)
    requires AccountsOk(c) && AccountsOk(u) && u.ended == c.ended
    ensures Records(c, u) <= 1
  {
  }

  lemma FineIsKept(c: Cell, e: Step, clock: int, grace: int)
    requires CellOk(c, clock, grace) && Can(c, e, clock, grace) && Fine(c, e)
    ensures Kept(c, e, clock, grace)
  {
    hide CellOk, Can, Timely, EndsSent, Do, Stranded, Follows, Reached, ClockOf, Records;
    var d := Do(c, e);
    FineKeeps(c, e, clock, clock, grace);
    SentEndsOnlyBy(c, e, clock, grace);
    forall u, later | Leads(d, clock, grace, u, later) ensures !Stranded(u) && Records(c, u) <= 1 {
      var ts :| Follows(d, clock, grace, ts) && Reached(d, ts) == u && ClockOf(clock, ts) == later;
      FollowsKeeps(d, clock, grace, ts);
      InOrderIsNotStranded(u, later, grace);
      assert AccountsOk(c) && AccountsOk(u) by { Accounts(c, clock, grace); Accounts(u, later, grace); }
      RecordsOf(c, u);
    }
  }

  lemma Accounts(c: Cell, clock: int, grace: int)
    requires CellOk(c, clock, grace)
    ensures AccountsOk(c)
  {
  }

  // ---------- the others break it ----------

  // Whoever takes itself for the holder can go on to record the job SENT.
  lemma HolderRecords(c: Cell, clock: int, grace: int) returns (u: Cell)
    requires c.holder.Some?
    ensures Leads(c, clock, grace, u, clock)
    ensures u.sents == c.sents + 1 && u.holder.None? && u.strays == c.strays
  {
    hide Leads;
    u := c;
    StayLeads(c, clock, grace);
    if u.holder.value.phase == Won { u := Then(c, clock, grace, u, clock, Load, clock); }
    if u.holder.value.phase == Loaded { u := Then(c, clock, grace, u, clock, HandOff, clock); }
    if u.holder.value.phase == HandedOff { u := Then(c, clock, grace, u, clock, Accept, clock); }
    u := Then(c, clock, grace, u, clock, Record(0, 0, clock), clock);
  }

  // If the job waits while a worker takes itself for its holder, another claims it, and both record it.
  lemma BothRecord(c: Cell, clock: int, grace: int) returns (u: Cell, later: int)
    requires c.holder.Some? && c.strays == [] && 0 <= grace
    requires Waiting(c.row) && c.row.archivedAt.None? && c.row.attempts < c.row.maxAttempts
    ensures Leads(c, clock, grace, u, later) && u.sents == c.sents + 2
  {
    hide Leads;
    var j := c.row;
    later := if j.scheduledAt.Some? then Max(clock, j.scheduledAt.value) else clock;
    StayLeads(c, clock, grace);
    u := Then(c, clock, grace, c, clock, Claim(0, j.kind, later, j.attempts, j.maxAttempts, 0, later), later);
    assert u.strays == [c.holder.value] && u.sents == c.sents;
    var v := HolderRecords(u, later, grace);
    ThenLeads(c, clock, grace, u, later, v, later);
    u := Then(c, clock, grace, v, later, Switch, later);
    v := HolderRecords(u, later, grace);
    ThenLeads(c, clock, grace, u, later, v, later);
    u := v;
  }

  // Then the job is sent twice.
  lemma TwiceBreaks(c: Cell, e: Step, clock: int, grace: int, d: Cell)
    requires Leads(Do(c, e), clock, grace, d, clock) && d.holder.Some? && d.strays == [] && 0 <= grace
    requires Waiting(d.row) && d.row.archivedAt.None? && d.row.attempts < d.row.maxAttempts && d.sents == c.sents
    ensures !Kept(c, e, clock, grace)
  {
    hide Do, Leads, Stranded;
    var u, later := BothRecord(d, clock, grace);
    ThenLeads(Do(c, e), clock, grace, d, clock, u, later);
    assert Records(c, u) >= 2;
  }

  lemma StrandingBreaks(c: Cell, e: Step, clock: int, grace: int, u: Cell)
    requires Leads(Do(c, e), clock, grace, u, clock) && Stranded(u)
    ensures !Kept(c, e, clock, grace)
  {
    hide Do, Leads, Stranded;
  }

  // A retry or refresh over a live holder.
  lemma LateQueueingBreaks(c: Cell, e: Step, clock: int, grace: int)
    requires CellOk(c, clock, grace) && Can(c, e, clock, grace) && 0 <= grace && c.holder.Some?
    requires e.Land? && (e.call.RetryCall? || e.call.RequeueCall?)
    ensures !Kept(c, e, clock, grace)
  {
    hide Kept, SnapsOk, WinsOk, HandoffsOk, AccountsOk, Leads;
    StayLeads(Do(c, e), clock, grace);
    TwiceBreaks(c, e, clock, grace, Do(c, e));
  }

  // A recovery from a live holder; on the last attempt the job is dead until an admin retries it.
  lemma SlowHolderBreaks(c: Cell, e: Step, clock: int, grace: int)
    requires CellOk(c, clock, grace) && Can(c, e, clock, grace) && 0 <= grace && c.holder.Some?
    requires e.Recover? && HoldsLock(c.row, e.snap.lockAt)
    ensures !Kept(c, e, clock, grace)
  {
    hide Kept, WinsOk, HandoffsOk, AccountsOk, Leads, SnapsOk;
    SnapIn(c, e.snap, clock, grace);
    var d := Do(c, e);
    StayLeads(d, clock, grace);
    if d.row.status == Dead { d := Then(d, clock, grace, d, clock, Retry(true, true, 0), clock); }
    TwiceBreaks(c, e, clock, grace, d);
  }

  // A cancellation over a live holder: createJob finds it by its key and queues it anew.
  lemma CancelledWithKeyBreaks(c: Cell, e: Step, clock: int, grace: int)
    requires CellOk(c, clock, grace) && 0 <= grace && c.holder.Some? && e == Land(CancelCall) && c.row.key.Some?
    ensures !Kept(c, e, clock, grace)
  {
    hide Kept, SnapsOk, WinsOk, HandoffsOk, AccountsOk, Leads;
    var d := Do(c, e);
    StayLeads(d, clock, grace);
    d := Then(d, clock, grace, d, clock, Requeue(Request(c.row.kind, 1, None, 0, None, None, c.row.key, None), clock),
              clock);
    TwiceBreaks(c, e, clock, grace, d);
  }

  // Without a key: an admin archives the cancelled job, and its holder reports a failure that is retried.
  lemma CancelledWithoutKeyBreaks(c: Cell, e: Step, clock: int, grace: int)
    requires CellOk(c, clock, grace) && c.holder.Some? && e == Land(CancelCall) && c.row.attempts < c.row.maxAttempts
    ensures !Kept(c, e, clock, grace)
  {
    hide Kept, CellOk, Leads, Stranded;
    var b := Do(c, e);
    StayLeads(b, clock, grace);
    var d := Then(b, clock, grace, b, clock, Archive(clock), clock);
    KnowsBudget(c, clock, grace);
    d := FailsArchived(b, d, clock, grace);
    StrandingBreaks(c, e, clock, grace, d);
  }

  lemma KnowsBudget(c: Cell, clock: int, grace: int)
    requires CellOk(c, clock, grace) && c.holder.Some?
    ensures c.strays == []
    ensures var h := c.holder.value;
            h.phase != Won ==> h.attempts == c.row.attempts && h.maxAttempts == c.row.maxAttempts
  {
  }

  lemma FailsArchived(b: Cell, c: Cell, clock: int, grace: int) returns (d: Cell)
    requires Leads(b, clock, grace, c, clock) && c.holder.Some? && c.strays == []
    requires c.row.archivedAt.Some? && c.row.attempts < c.row.maxAttempts
    requires var h := c.holder.value;
             h.phase != Won ==> h.attempts == c.row.attempts && h.maxAttempts == c.row.maxAttempts
    ensures Leads(b, clock, grace, d, clock) && Stranded(d)
  {
    hide Leads;
    d := c;
    if d.holder.value.phase == Won { d := Then(b, clock, grace, d, clock, Load, clock); }
    d := Then(b, clock, grace, d, clock, Fail(true, clock), clock);
  }

  // An archiving hides the job from every query; if a worker holds it, that may die.
  lemma LateArchivingBreaks(c: Cell, e: Step, clock: int, grace: int)
    requires CellOk(c, clock, grace) && e.Land? && e.call.ArchiveCall? && !Archivable(c.row) && c.row.status != Paused
    ensures !Kept(c, e, clock, grace)
  {
    hide Kept, SnapsOk, WinsOk, HandoffsOk, AccountsOk, Leads;
    var b := Do(c, e);
    StayLeads(b, clock, grace);
    var d := b;
    if b.holder.Some? { d := Then(b, clock, grace, b, clock, Crash, clock); }
    StrandingBreaks(c, e, clock, grace, d);
  }

  lemma UntimelyBreaksPromise(c: Cell, e: Step, clock: int, grace: int)
    requires CellOk(c, clock, grace) && Can(c, e, clock, grace) && 0 <= grace && !Timely(c, e)
    ensures !Kept(c, e, clock, grace)
  {
    hide CellOk, Kept;
    match e
    case Land(ArchiveCall(_)) => LateArchivingBreaks(c, e, clock, grace);
    case Land(CancelCall) =>
      if c.row.key.Some? { CancelledWithKeyBreaks(c, e, clock, grace); }
      else { InBudget(c, clock, grace); CancelledWithoutKeyBreaks(c, e, clock, grace); }
    case Land(_) => LateQueueingBreaks(c, e, clock, grace);
    case Recover(_) => SlowHolderBreaks(c, e, clock, grace);
  }

  lemma InBudget(c: Cell, clock: int, grace: int)
    requires CellOk(c, clock, grace)
    ensures c.row.attempts <= c.row.maxAttempts
  {
  }

  /** A step on a job that is in order keeps the promise exactly if it is timely and finds no SENT record
      that it would take away: otherwise the record is gone, or some continuation strands the job or
      sends it twice. */
  lemma StepExact(c: Cell, e: Step, clock: int, grace: int)
    requires CellOk(c, clock, grace) && Can(c, e, clock, grace) && 0 <= grace
    ensures Kept(c, e, clock, grace) <==> Fine(c, e)
  {
    hide CellOk, Can, Timely, EndsSent, Do, Kept;
    if Fine(c, e) {
      FineIsKept(c, e, clock, grace);
    } else if Timely(c, e) {
      SentEndsOnlyBy(c, e, clock, grace);
      LosesRecord(c, e, clock, grace);
    } else {
      UntimelyBreaksPromise(c, e, clock, grace);
    }
  }

  lemma LosesRecord(c: Cell, e: Step, clock: int, grace: int)
    requires c.row.status == Sent && Do(c, e).row.status != Sent
    ensures !Kept(c, e, clock, grace)
  {
    hide Do, Leads, Stranded;
  }

  // A waiting job is claimed and recorded.
  lemma WaitingIsSent(c: Cell, clock: int, grace: int) returns (u: Cell, later: int)
    requires c.holder.None? && c.strays == [] && 0 <= grace
    requires Waiting(c.row) && c.row.archivedAt.None? && c.row.attempts < c.row.maxAttempts
    ensures Leads(c, clock, grace, u, later) && u.sents == c.sents + 1
  {
    hide Leads;
    var j := c.row;
    later := if j.scheduledAt.Some? then Max(clock, j.scheduledAt.value) else clock;
    StayLeads(c, clock, grace);
    var v := Then(c, clock, grace, c, clock, Claim(0, j.kind, later, j.attempts, j.maxAttempts, 0, later), later);
    u := HolderRecords(v, later, grace);
    ThenLeads(c, clock, grace, v, later, u, later);
  }

  // From a SENT job to a waiting one: at once, by an admin's retry, or by a createJob for its key.
  lemma QueuedAgain(c: Cell, e: Step, clock: int, grace: int) returns (d: Cell)
    requires CellOk(c, clock, grace) && Can(c, e, clock, grace) && EndsSent(c, e)
    requires e == Land(CancelCall) ==> c.row.key.Some?
    ensures Leads(Do(c, e), clock, grace, d, clock) && d.sents == c.sents && d.holder.None? && d.strays == []
    ensures Waiting(d.row) && d.row.archivedAt.None? && d.row.attempts < d.row.maxAttempts
  {
    hide CellOk, Leads, Can, Do, EndsSent;
    var b := Do(c, e);
    StayLeads(b, clock, grace);
    if e.Bounce? {
      d := BouncedAgain(c, e, clock, grace);
    } else if e == Land(CancelCall) {
      d := CancelledAgain(c, e, clock, grace);
    } else {
      d := b;
      QueuedAtOnce(c, e, clock, grace);
    }
  }

  lemma SentIsFree(c: Cell, clock: int, grace: int)
    requires CellOk(c, clock, grace) && c.row.status == Sent
    ensures c.holder.None? && c.strays == [] && 1 <= c.row.maxAttempts
  {
  }

  lemma BouncedAgain(c: Cell, e: Step, clock: int, grace: int) returns (d: Cell)
    requires CellOk(c, clock, grace) && EndsSent(c, e) && e.Bounce?
    ensures Leads(Do(c, e), clock, grace, d, clock) && d.sents == c.sents && d.holder.None? && d.strays == []
    ensures Waiting(d.row) && d.row.archivedAt.None? && d.row.attempts < d.row.maxAttempts
  {
    hide CellOk, Leads;
    SentIsFree(c, clock, grace);
    var b := Do(c, e);
    StayLeads(b, clock, grace);
    d := Then(b, clock, grace, b, clock, Retry(true, true, 0), clock);
  }

  lemma CancelledAgain(c: Cell, e: Step, clock: int, grace: int) returns (d: Cell)
    requires CellOk(c, clock, grace) && EndsSent(c, e) && e == Land(CancelCall) && c.row.key.Some?
    ensures Leads(Do(c, e), clock, grace, d, clock) && d.sents == c.sents && d.holder.None? && d.strays == []
    ensures Waiting(d.row) && d.row.archivedAt.None? && d.row.attempts < d.row.maxAttempts
  {
    hide CellOk, Leads;
    SentIsFree(c, clock, grace);
    var b := Do(c, e);
    StayLeads(b, clock, grace);
    d := Then(b, clock, grace, b, clock, Requeue(Request(c.row.kind, 1, None, 0, None, None, c.row.key, None), clock),
              clock);
  }

  lemma QueuedAtOnce(c: Cell, e: Step, clock: int, grace: int)
    requires CellOk(c, clock, grace) && Can(c, e, clock, grace) && EndsSent(c, e) && !e.Bounce? && e != Land(CancelCall)
    ensures var d := Do(c, e);
            && d.sents == c.sents && d.holder.None? && d.strays == []
            && Waiting(d.row) && d.row.archivedAt.None? && d.row.attempts < d.row.maxAttempts
  {
    hide SnapsOk, WinsOk, HandoffsOk, AccountsOk;
    SentIsFree(c, clock, grace);
  }

  /** A job whose SENT record is taken away can be sent a second time: by workers alone, or, after a
      bounce or a cancellation, once an admin retries it or createJob asks for its key. */
  lemma EndedIsSentAgain(c: Cell, e: Step, clock: int, grace: int)
    requires CellOk(c, clock, grace) && Can(c, e, clock, grace) && 0 <= grace && EndsSent(c, e)
    requires e == Land(CancelCall) ==> c.row.key.Some?
    ensures exists u, later :: Leads(Do(c, e), clock, grace, u, later) && Records(c, u) == 2
  {
    hide Leads, CellOk, Can, Do;
    var d := QueuedAgain(c, e, clock, grace);
    var u, later := WaitingIsSent(d, clock, grace);
    ThenLeads(Do(c, e), clock, grace, d, clock, u, later);
    assert Records(c, u) == 2;
  }

  // ---------- over whole runs ----------

  ghost predicate FineEvent(s: System, e: Event) {
    forall id | id in s.cells ::
      var step := StepOn(s.cells[id].row, id, e);
      step.Some? ==> Fine(s.cells[id], step.value)
  }

  ghost predicate KeptEvent(s: System, e: Event) {
    forall id | id in s.cells ::
      var step := StepOn(s.cells[id].row, id, e);
      step.Some? ==> Kept(s.cells[id], step.value, s.clock, s.grace)
  }

  ghost predicate AllFine(s: System, events: seq<Event>)
    decreases |events|
  {
    events == [] || (FineEvent(s, events[0]) && AllFine(After(s, events[0]), events[1..]))
  }

  // Every step of the run keeps the promise, whatever had come after it instead.
  ghost predicate AllKept(s: System, events: seq<Event>)
    decreases |events|
  {
    events == [] || (KeptEvent(s, events[0]) && AllKept(After(s, events[0]), events[1..]))
  }

  lemma EventExact(s: System, e: Event)
    requires CellsOk(s) && Enabled(s, e) && 0 <= s.grace
    ensures FineEvent(s, e) <==> KeptEvent(s, e)
  {
    hide CellOk, Can, Fine, Kept, StepOn, Enabled;
    forall id | id in s.cells
      ensures var step := StepOn(s.cells[id].row, id, e);
              step.Some? ==> (Fine(s.cells[id], step.value) <==> Kept(s.cells[id], step.value, s.clock, s.grace))
    {
      CanHere(s, e, id);
      var step := StepOn(s.cells[id].row, id, e);
      if step.Some? { StepExact(s.cells[id], step.value, s.clock, s.grace); }
    }
  }

  lemma FineIsTimely(s: System, e: Event)
    requires FineEvent(s, e)
    ensures TimelyEvent(s, e)
  {
    hide Timely, EndsSent;
    if e.At? && e.id in s.cells { assert StepOn(s.cells[e.id].row, e.id, e) == Some(e.step); }
  }

  lemma GraceStays(s: System, e: Event)
    ensures After(s, e).grace == s.grace
  {
    hide CellAfter, KeyHeld;
  }

  /** Over every run of workers, crashes, recoveries, bounces, admins and createJob calls, with checks and
      writes apart: every step keeps the promise to every job, exactly if every step is timely and none
      finds a SENT record that it would take away. */
  lemma {:induction false} PromiseExact(s: System, events: seq<Event>)
    requires SystemOk(s) && ValidRun(s, events) && 0 <= s.grace
    ensures AllFine(s, events) <==> AllKept(s, events)
    decreases |events|
  {
    hide CellsOk, KeysUnique, Enabled, After, FineEvent, KeptEvent, TimelyEvent;
    if events != [] {
      var e := events[0];
      EventExact(s, e);
      if FineEvent(s, e) {
        FineIsTimely(s, e);
        CellsKeep(s, e);
        KeysKeep(s, e);
        GraceStays(s, e);
        PromiseExact(After(s, e), events[1..]);
      }
    }
  }

  lemma FineSparesSent(s: System, e: Event, id: JobId)
    requires FineEvent(s, e) && id in s.cells && Enabled(s, e)
    ensures id in After(s, e).cells
    ensures var step := StepOn(s.cells[id].row, id, e); step.Some? ==> !EndsSent(s.cells[id], step.value)
  {
    hide Timely, EndsSent, After, Enabled;
    CellOfAfter(s, e, id);
  }

  lemma {:induction false} FineRuns(s: System, events: seq<Event>, id: JobId)
    requires ValidRun(s, events) && AllFine(s, events) && id in s.cells
    ensures TimelyRun(s, events) && SparesSent(s, events, id)
    decreases |events|
  {
    hide Enabled, After, FineEvent, TimelyEvent, EndsSent, StepOn;
    if events != [] {
      FineIsTimely(s, events[0]);
      FineSparesSent(s, events[0], id);
      FineRuns(After(s, events[0]), events[1..], id);
    }
  }

  /** So in such a run no job is ever stranded and none recorded SENT more than once. */
  lemma FineRunsKeep(s: System, events: seq<Event>, id: JobId)
    requires SystemOk(s) && ValidRun(s, events) && AllFine(s, events) && id in s.cells
    ensures var u := AfterAll(s, events);
            id in u.cells && !Stranded(u.cells[id]) && Records(s.cells[id], u.cells[id]) <= 1
  {
    hide ValidRun, AfterAll, AllFine, TimelyRun, SparesSent, CellOk, Stranded;
    FineRuns(s, events, id);
    AtMostOneSent(s, events, id);
    AlwaysOk(s, events);
    var u := AfterAll(s, events);
    InOrderIsNotStranded(u.cells[id], u.clock, u.grace);
  }

  // ---------- continuations are runs ----------

  function Events(id: JobId, ts: seq<Timed>): seq<Event>
    decreases |ts|
  {
    if ts == [] then [] else [Tick(ts[0].at), At(id, ts[0].step)] + Events(id, ts[1..])
  }

  lemma TimedStepRuns(s: System, id: JobId, t: Timed)
    requires id in s.cells && s.clock <= t.at && Can(s.cells[id], t.step, t.at, s.grace)
    ensures Enabled(s, Tick(t.at)) && Enabled(After(s, Tick(t.at)), At(id, t.step))
    ensures var u := After(After(s, Tick(t.at)), At(id, t.step));
            && id in u.cells && u.cells[id] == Do(s.cells[id], t.step) && u.clock == t.at && u.grace == s.grace
  {
    hide Can, Do, KeyHeld;
    var m := After(s, Tick(t.at));
    assert m.cells[id] == s.cells[id];
    assert forall i | i in m.cells ::
        StepOn(m.cells[i].row, i, At(id, t.step)) == if i == id then Some(t.step) else None;
  }

  /** What may follow on a job is a run of any queue that holds it. */
  lemma {:induction false} FollowsIsRun(s: System, id: JobId, ts: seq<Timed>)
    requires id in s.cells && Follows(s.cells[id], s.clock, s.grace, ts)
    ensures ValidRun(s, Events(id, ts))
    ensures id in AfterAll(s, Events(id, ts)).cells && AfterAll(s, Events(id, ts)).cells[id] == Reached(s.cells[id], ts)
    decreases |ts|
  {
    hide Can, Do, Enabled, After, Fine;
    if ts != [] {
      TimedStepRuns(s, id, ts[0]);
      var u := After(After(s, Tick(ts[0].at)), At(id, ts[0].step));
      FollowsIsRun(u, id, ts[1..]);
      var events := Events(id, ts);
      assert events[1..] == [At(id, ts[0].step)] + Events(id, ts[1..]) && events[1..][1..] == Events(id, ts[1..]);
      assert ValidRun(After(s, Tick(ts[0].at)), events[1..]);
    }
  }
}
