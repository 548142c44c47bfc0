/** What the mail queue guarantees over all its runs. */
module MailGuarantees {
  import opened Options
  import opened MailQueue
  import opened MailRuns

  // The states that some run reaches from an empty queue, no late write having come untimely.
  ghost predicate ReachedBy(s: System, events: seq<Event>, clock: int, grace: int) {
    var empty := System(map[], clock, grace);
    ValidRun(empty, events) && TimelyRun(empty, events) && s == AfterAll(empty, events)
  }

  lemma ReachedOk(s: System, events: seq<Event>, clock: int, grace: int, id: JobId)
    requires ReachedBy(s, events, clock, grace)
    ensures SystemOk(s)
    ensures id in s.cells ==> CellOk(s.cells[id], s.clock, s.grace)
  {
    EmptyOk(clock, grace);
    AlwaysOk(System(map[], clock, grace), events);
  }

  // ---------- nobody is stranded, nobody is over budget ----------

  /** In every reachable state a due job passes the worker's filter, and the compare-and-set of a
      worker that has just read it wins it. */
  lemma NoJobStranded(s: System, events: seq<Event>, clock: int, grace: int, id: JobId,
                      worker: WorkerId, provider: Provider, lockAt: int)
    requires ReachedBy(s, events, clock, grace) && id in s.cells && Due(s.cells[id].row, s.cells[id].row.kind, s.clock)
    requires s.clock - s.grace <= lockAt <= s.clock
    ensures var j := s.cells[id].row;
            var e := Claim(worker, j.kind, s.clock, j.attempts, j.maxAttempts, provider, lockAt);
            && Enabled(s, At(id, e))
            && After(s, At(id, e)).cells[id].row.lock == Some(Lock(lockAt, worker))
  {
    hide After;
    ReachedOk(s, events, clock, grace, id);
    var j := s.cells[id].row;
    assert RowOk(j);
    ClaimTakesEffect(s, id, Claim(worker, j.kind, s.clock, j.attempts, j.maxAttempts, provider, lockAt));
  }

  lemma ClaimTakesEffect(s: System, id: JobId, e: Step)
    requires id in s.cells && e.Claim?
    ensures id in After(s, At(id, e)).cells && After(s, At(id, e)).cells[id] == ClaimCell(s.cells[id], e)
  {
    hide ClaimCell, KeyHeld;
  }

  /** In every reachable state, a job has been handed to the provider since its last reset at most
      maxAttempts times, and an attempt that has not reached the provider is not counted. */
  lemma HandoffsWithinBudget(s: System, events: seq<Event>, clock: int, grace: int, id: JobId)
    requires ReachedBy(s, events, clock, grace) && id in s.cells
    ensures s.cells[id].handoffs <= s.cells[id].row.maxAttempts
    ensures InPhase(s.cells[id], Won) || InPhase(s.cells[id], Loaded) ==>
              s.cells[id].handoffs < s.cells[id].row.maxAttempts
  {
    ReachedOk(s, events, clock, grace, id);
  }

  // ---------- claims ----------

  // The steps after which attempts are counted anew.
  predicate Resets(c: Cell, e: Step) {
    || (e.Retry? && RetryAllowed(c.row, e.force, e.known))
    || (e.Resume? && Resumable(c.row, e.campaignId, e.batchKey))
    || (e.Requeue? && !Reused(c.row, e.now))
    || (e.Land? && (e.call.RetryCall? || e.call.RequeueCall?))
  }

  predicate ResetBy(c: Cell, id: JobId, e: Event) {
    var step := StepOn(c.row, id, e);
    step.Some? && Resets(c, step.value)
  }

  ghost predicate NeverReset(s: System, events: seq<Event>, id: JobId)
    requires id in s.cells
    decreases |events|
  {
    events == [] || (!ResetBy(s.cells[id], id, events[0]) && id in After(s, events[0]).cells
                     && NeverReset(After(s, events[0]), events[1..], id))
  }

  lemma WinsGrow(c: Cell, e: Step)
    requires !Resets(c, e)
    ensures c.wins <= Do(c, e).wins
  {
  }

  lemma CellOfAfter(s: System, e: Event, id: JobId)
    requires id in s.cells && Enabled(s, e)
    ensures id in After(s, e).cells
    ensures After(s, e).cells[id] == CellAfter(s.cells[id], id, e)
  {
    hide Do, KeyHeld, CanOn, NewCell;
  }

  lemma {:induction false} WinsOnlyGrow(s: System, events: seq<Event>, id: JobId)
    requires ValidRun(s, events) && id in s.cells && NeverReset(s, events, id)
    ensures id in AfterAll(s, events).cells && s.cells[id].wins <= AfterAll(s, events).cells[id].wins
    decreases |events|
  {
    hide After, Enabled, Do, Resets, StepOn;
    if events != [] {
      var e := events[0];
      CellOfAfter(s, e, id);
      var step := StepOn(s.cells[id].row, id, e);
      if step.Some? { WinsGrow(s.cells[id], step.value); }
      WinsOnlyGrow(After(s, e), events[1..], id);
    }
  }

  /** Between resets the claims of a job carry the attempt numbers 1, 2, 3, ..., one winner each: the
      winner of an attempt keeps it, and no claim that starts from an older read ever wins again. */
  lemma EachAttemptWonOnce(s: System, events: seq<Event>, id: JobId, k: nat, e: Step)
    requires SystemOk(s) && ValidRun(s, events) && TimelyRun(s, events) && id in s.cells && NeverReset(s, events, id)
    requires k < |s.cells[id].wins|
    ensures id in AfterAll(s, events).cells
    ensures var c := AfterAll(s, events).cells[id];
            && k < |c.wins| && c.wins[k] == s.cells[id].wins[k]
            && (forall i | 0 <= i < |c.wins| :: c.wins[i].attempt == i + 1)
            && (e.Claim? && e.attempts <= k ==> Do(c, e) == c)
  {
    hide CellOk, ValidRun, AfterAll, NeverReset;
    WinsOnlyGrow(s, events, id);
    AlwaysOk(s, events);
    OldReadLoses(AfterAll(s, events).cells[id], AfterAll(s, events).clock, AfterAll(s, events).grace, k, e);
  }

  lemma OldReadLoses(c: Cell, clock: int, grace: int, k: nat, e: Step)
    requires CellOk(c, clock, grace) && k < |c.wins|
    ensures forall i | 0 <= i < |c.wins| :: c.wins[i].attempt == i + 1
    ensures e.Claim? && e.attempts <= k ==> Do(c, e) == c
  {
  }

  /** A recovery changes a row only if the claim it had read is still the job's latest one: it never
      takes away a later claim, however old its snapshot is. */
  lemma RecoverySparesLaterClaims(s: System, events: seq<Event>, clock: int, grace: int, id: JobId, snap: Snap)
    requires ReachedBy(s, events, clock, grace) && id in s.cells && Enabled(s, At(id, Recover(snap)))
    requires After(s, At(id, Recover(snap))).cells[id].row != s.cells[id].row
    ensures snap.claimNo == s.cells[id].claims && (TimelyEvent(s, At(id, Recover(snap))) ==> s.cells[id].holder.None?)
    ensures snap.attempts == s.cells[id].row.attempts
  {
    hide After, AfterAll, ValidRun;
    ReachedOk(s, events, clock, grace, id);
    var c := s.cells[id];
    CellOfAfter(s, At(id, Recover(snap)), id);
    assert CanOn(s, id, At(id, Recover(snap)));
    assert SnapOk(c, snap, s.clock, s.grace);
  }

  // ---------- the work on a job between resets is bounded ----------

  function Measure(c: Cell): int {
    var left := 2 * (c.row.maxAttempts - c.row.attempts);
    if Waiting(c.row) then left
    else if c.row.status == Processing || (Past(c.row) && c.holder.Some?) then left + 1
    else 0
  }

  // A bounce, an archiving and a late write may mark a job that is already settled.
  predicate Moves(c: Cell, e: Step) {
    !e.Bounce? && !e.Archive? && !e.Land? && Do(c, e).row != c.row
  }

  /** Each claim, outcome, pause, recovery and cancellation takes a job closer to its end. */
  lemma MeasureFalls(c: Cell, e: Step, clock: int, grace: int)
    requires CellOk(c, clock, grace) && Can(c, e, clock, grace) && !Resets(c, e)
    ensures Measure(Do(c, e)) <= Measure(c)
    ensures Moves(c, e) ==> Measure(Do(c, e)) < Measure(c)
  {
    hide CellOk, Can, Do, Resets, Measure, Outside;
    if e.Recover? || e.ReadStale? {
      RecoveryLowers(c, e, clock, grace);
    } else if e.Land? {
      LandingRaisesNothing(c, e, clock, grace);
    } else if ByHolder(e) {
      HolderLowers(c, e, clock, grace);
    } else {
      OthersLower(c, e, clock, grace);
    }
  }

  lemma RecoveryLowers(c: Cell, e: Step, clock: int, grace: int)
    requires CellOk(c, clock, grace) && Can(c, e, clock, grace) && (e.Recover? || e.ReadStale?)
    ensures Measure(Do(c, e)) <= Measure(c) && (Do(c, e).row != c.row ==> Measure(Do(c, e)) < Measure(c))
  {
    hide SnapsOk, WinsOk, HandoffsOk, AccountsOk, CallsOk;
    if e.Recover? { SnapIn(c, e.snap, clock, grace); }
  }

  lemma LandingRaisesNothing(c: Cell, e: Step, clock: int, grace: int)
    requires CellOk(c, clock, grace) && e.Land? && !Resets(c, e)
    ensures Measure(Do(c, e)) <= Measure(c)
  {
    hide SnapsOk, WinsOk, HandoffsOk, AccountsOk, CallsOk;
  }

  lemma HolderLowers(c: Cell, e: Step, clock: int, grace: int)
    requires CellOk(c, clock, grace) && Can(c, e, clock, grace) && ByHolder(e)
    ensures Measure(Do(c, e)) <= Measure(c) && (Do(c, e).row != c.row ==> Measure(Do(c, e)) < Measure(c))
  {
    hide SnapsOk, WinsOk, HandoffsOk, AccountsOk, CallsOk;
  }

  lemma OthersLower(c: Cell, e: Step, clock: int, grace: int)
    requires CellOk(c, clock, grace) && Can(c, e, clock, grace) && !Resets(c, e)
    requires !ByHolder(e) && !e.Recover? && !e.ReadStale? && !e.Land?
    ensures Measure(Do(c, e)) <= Measure(c)
    ensures Moves(c, e) ==> Measure(Do(c, e)) < Measure(c)
  {
    hide SnapsOk, WinsOk, HandoffsOk, AccountsOk, CallsOk;
  }

  ghost function MovesIn(s: System, events: seq<Event>, id: JobId): nat
    decreases |events|
  {
    if events == [] || id !in s.cells then 0
    else
      var step := StepOn(s.cells[id].row, id, events[0]);
      (if step.Some? && Moves(s.cells[id], step.value) then 1 else 0) + MovesIn(After(s, events[0]), events[1..], id)
  }

  lemma MeasureStep(s: System, e: Event, id: JobId)
    requires SystemOk(s) && Enabled(s, e) && id in s.cells && !ResetBy(s.cells[id], id, e)
    ensures id in After(s, e).cells
    ensures var step := StepOn(s.cells[id].row, id, e);
            Measure(After(s, e).cells[id]) + (if step.Some? && Moves(s.cells[id], step.value) then 1 else 0)
            <= Measure(s.cells[id])
  {
    hide After, CellOk, Can, Do, Resets, Measure, KeysUnique;
    CellOfAfter(s, e, id);
    assert CanOn(s, id, e);
    var step := StepOn(s.cells[id].row, id, e);
    if step.Some? { MeasureFalls(s.cells[id], step.value, s.clock, s.grace); }
  }

  /** Without a reset, whatever the workers do, the statements that move a job are no more than its
      measure allows: twice the attempts it has left, and one more while it is processed. */
  lemma {:induction false} WorkIsBounded(s: System, events: seq<Event>, id: JobId)
    requires SystemOk(s) && ValidRun(s, events) && TimelyRun(s, events) && id in s.cells && NeverReset(s, events, id)
    ensures id in AfterAll(s, events).cells
    ensures MovesIn(s, events, id) + Measure(AfterAll(s, events).cells[id]) <= Measure(s.cells[id])
    ensures MovesIn(s, events, id) <= 2 * s.cells[id].row.maxAttempts
    decreases |events|
  {
    hide After, Enabled, CellsOk, KeysUnique, Moves, StepOn, ResetBy, Measure, TimelyEvent;
    if events == [] {
      MeasureRange(s, id);
    } else {
      MeasureStep(s, events[0], id);
      CellsKeep(s, events[0]);
      KeysKeep(s, events[0]);
      WorkIsBounded(After(s, events[0]), events[1..], id);
      MeasureRange(s, id);
      MeasureRange(AfterAll(s, events), id) by { AlwaysOk(s, events); }
    }
  }

  lemma MeasureRange(s: System, id: JobId)
    requires CellsOk(s) && id in s.cells
    ensures 0 <= Measure(s.cells[id]) <= 2 * s.cells[id].row.maxAttempts
  {
    assert CellOk(s.cells[id], s.clock, s.grace);
  }

  // ---------- idempotency ----------

  // What takes a SENT record away: a bounce of its message, a createJob when its window is over, and a
  // retry, refresh or cancellation that had checked the job before it was sent.
  predicate EndsSent(c: Cell, e: Step) {
    c.row.status == Sent &&
    match e
    case Bounce(messageId) => c.row.messageId == Some(messageId)
    case Requeue(_, now) => !WindowOpen(c.row, now)
    case Land(call) => !call.ArchiveCall?
    case _ => false
  }

  /** A SENT record ends by one of these, and by nothing else. */
  lemma SentEndsOnlyBy(c: Cell, e: Step, clock: int, grace: int)
    requires CellOk(c, clock, grace) && Can(c, e, clock, grace)
    ensures c.row.status == Sent && Do(c, e).row.status != Sent <==> EndsSent(c, e)
  {
    hide SnapsOk, WinsOk, HandoffsOk;
  }

  // None of them comes to the job in this run.
  ghost predicate SparesSent(s: System, events: seq<Event>, id: JobId)
    requires id in s.cells
    decreases |events|
  {
    events == [] ||
      var step := StepOn(s.cells[id].row, id, events[0]);
      && (step.Some? ==> !EndsSent(s.cells[id], step.value))
      && id in After(s, events[0]).cells && SparesSent(After(s, events[0]), events[1..], id)
  }

  // Once the job is SENT, it stays so.
  ghost predicate SentStands(s: System, events: seq<Event>, id: JobId)
    requires id in s.cells
    decreases |events|
  {
    events == [] ||
      (&& id in After(s, events[0]).cells
       && (s.cells[id].row.status == Sent ==> After(s, events[0]).cells[id].row.status == Sent)
       && SentStands(After(s, events[0]), events[1..], id))
  }

  /** In a run that is in order, a SENT record of the job stands throughout exactly if no bounce, no
      createJob after the window and no late retry, refresh or cancellation finds the job SENT. */
  lemma {:induction false} SentStandsExactly(s: System, events: seq<Event>, id: JobId)
    requires SystemOk(s) && ValidRun(s, events) && TimelyRun(s, events) && id in s.cells
    ensures SentStands(s, events, id) <==> SparesSent(s, events, id)
    decreases |events|
  {
    hide After, Enabled, Do, EndsSent, StepOn, CellOk, KeysUnique, TimelyEvent;
    if events != [] {
      var e := events[0];
      CellOfAfter(s, e, id);
      CanHere(s, e, id);
      var step := StepOn(s.cells[id].row, id, e);
      if step.Some? { SentEndsOnlyBy(s.cells[id], step.value, s.clock, s.grace); }
      CellsKeep(s, e);
      KeysKeep(s, e);
      SentStandsExactly(After(s, e), events[1..], id);
    }
  }

  lemma CanHere(s: System, e: Event, id: JobId)
    requires id in s.cells && Enabled(s, e)
    ensures CanOn(s, id, e)
  {
  }

  lemma NothingEnds(c: Cell, e: Step)
    requires !EndsSent(c, e)
    ensures Do(c, e).ended == c.ended && c.sents <= Do(c, e).sents
  {
    hide HolderStep, OtherStep, EndsSent;
    if ByHolder(e) {
      if c.holder.Some? { HolderEndsNothing(c, e); }
    } else if !e.Claim? {
      OthersEndNothing(c, e);
    }
  }

  lemma HolderEndsNothing(c: Cell, e: Step)
    requires c.holder.Some?
    ensures HolderStep(c, e).ended == c.ended && c.sents <= HolderStep(c, e).sents
  {
  }

  lemma OthersEndNothing(c: Cell, e: Step)
    requires !EndsSent(c, e)
    ensures OtherStep(c, e).ended == c.ended && OtherStep(c, e).sents == c.sents
  {
  }

  lemma {:induction false} NothingEndsInRun(s: System, events: seq<Event>, id: JobId)
    requires ValidRun(s, events) && id in s.cells && SparesSent(s, events, id)
    ensures id in AfterAll(s, events).cells && AfterAll(s, events).cells[id].ended == s.cells[id].ended
    ensures s.cells[id].sents <= AfterAll(s, events).cells[id].sents
    decreases |events|
  {
    hide After, Enabled, Do, EndsSent, StepOn;
    if events != [] {
      var e := events[0];
      CellOfAfter(s, e, id);
      var step := StepOn(s.cells[id].row, id, e);
      if step.Some? { NothingEnds(s.cells[id], step.value); }
      NothingEndsInRun(After(s, e), events[1..], id);
    }
  }

  /** So in such a run, as long as none of these finds the job SENT, it is recorded SENT at most once,
      whatever workers, crashes, admins and further createJob calls do; and the provider accepts it at
      most once more than acceptances are lost before the SENT write. */
  lemma AtMostOneSent(s: System, events: seq<Event>, id: JobId)
    requires SystemOk(s) && ValidRun(s, events) && TimelyRun(s, events) && id in s.cells && SparesSent(s, events, id)
    ensures id in AfterAll(s, events).cells
    ensures var c, u := s.cells[id], AfterAll(s, events).cells[id];
            && u.sents - c.sents <= 1
            && (u.accepts - c.accepts) - (u.lost - c.lost) <= 1
            && (c.row.status == Sent ==>
                  u.row.status == Sent && u.sents == c.sents && u.accepts - c.accepts == u.lost - c.lost)
  {
    hide ValidRun, AfterAll, SparesSent, SnapsOk, HandoffsOk, WinsOk;
    NothingEndsInRun(s, events, id);
    AlwaysOk(s, events);
    var u := AfterAll(s, events);
    assert CellOk(s.cells[id], s.clock, s.grace) && CellOk(u.cells[id], u.clock, u.grace);
    SentsAreEndedOrPresent(s.cells[id]);
    SentsAreEndedOrPresent(u.cells[id]);
  }

  lemma SentsAreEndedOrPresent(c: Cell)
    requires AccountsOk(c) && HeldOk(c)
    ensures c.sents == c.ended + (if c.row.status == Sent then 1 else 0)
    ensures c.ended <= c.accepts - c.lost <= c.ended + 1
    ensures c.row.status == Sent ==> c.accepts - c.lost == c.ended + 1
  {
  }

  // ---------- what undoes what ----------

  /** A claim that ends at a send limit costs no attempt: but for the provider, the job is as if it had
      been paused unclaimed. */
  lemma LimitUndoesClaim(c: Cell, e: Step)
    requires e.Claim? && Claimable(c.row, e.kind, e.now, e.attempts, e.maxAttempts) && 0 <= c.row.attempts
             && c.row.lock.None?
    ensures var after := Do(Do(Do(c, e), Load), HitLimit);
            after.row == AsPaused(c.row).(provider := e.provider) && after.holder.None? && after.handoffs == c.handoffs
  {
  }

  /** What an admin retries or resumes is due at once with its whole budget, archived or not. */
  lemma QueuedAnewIsDue(c: Cell, e: Step, now: int)
    requires 1 <= c.row.maxAttempts && (e.Retry? || e.Resume?) && Resets(c, e)
    ensures var j := Do(c, e).row;
            && Due(j, c.row.kind, now) && j.maxAttempts == c.row.maxAttempts
            && Measure(Do(c, e)) == 2 * j.maxAttempts
  {
  }

  /** Resuming touches the paused jobs of the selection and no other: these are due at once with their
      whole budget, none of them stays paused, every row stays in order, and resuming again does nothing. */
  lemma ResumeFreesPaused(t: Jobs, campaignId: Option<int>, batchKey: Option<int>, provider: Provider, id: JobId,
                          now: int)
    requires RowsOk(t) && id in t
    ensures var u := ResumeAll(t, campaignId, batchKey, provider);
            && u.Keys == t.Keys && RowsOk(u) && ResumeAll(u, campaignId, batchKey, provider) == u
            && (u[id] != t[id] <==> Resumable(t[id], campaignId, batchKey))
            && (u[id] != t[id] ==>
                 Due(u[id], t[id].kind, now) && u[id].attempts == 0 && u[id].maxAttempts == t[id].maxAttempts)
            && !Resumable(u[id], campaignId, batchKey)
  {
    hide RowOk;
    forall k | k in t && Resumable(t[k], campaignId, batchKey) ensures RowOk(AsResumed(t[k], provider)) {
      ResumedOk(t[k], campaignId, batchKey, provider);
    }
    var u := ResumeAll(t, campaignId, batchKey, provider);
    assert forall k | k in u :: !Resumable(u[k], campaignId, batchKey);
    assert ResumeAll(u, campaignId, batchKey, provider) == u;
  }

  lemma ResumedOk(j: Job, campaignId: Option<int>, batchKey: Option<int>, provider: Provider)
    requires RowOk(j) && Resumable(j, campaignId, batchKey)
    ensures RowOk(AsResumed(j, provider))
  {
  }

  /** Archiving old jobs hides nothing that is still to be sent: what is due, claimed or paused is
      untouched, only settled jobs among the old ones change, and a second pass changes nothing. */
  lemma ArchiveHidesNoWork(t: Jobs, old_: set<JobId>, at: int, later: int, id: JobId, kind: Kind, now: int)
    requires RowsOk(t) && id in t
    ensures var u := ArchiveAll(t, old_, at);
            && u.Keys == t.Keys && RowsOk(u) && ArchiveAll(u, old_, later) == u
            && (Due(u[id], kind, now) <==> Due(t[id], kind, now))
            && (u[id] != t[id] <==> id in old_ && Archivable(t[id]) && t[id].archivedAt.None?)
            && u[id] == t[id].(archivedAt := u[id].archivedAt)
  {
    hide RowOk;
    forall k | k in t && Archivable(t[k]) ensures RowOk(AsArchived(t[k], at)) { ArchivedOk(t[k], at); }
  }

  lemma ArchivedOk(j: Job, at: int)
    requires RowOk(j) && Archivable(j)
    ensures RowOk(AsArchived(j, at))
  {
  }

  // ---------- retries wait ----------

  /** After a failed attempt a job is due again exactly when the failure was retryable, attempts are
      left and the delay is over. */
  lemma RetryWaits(j: Job, attempts: int, maxAttempts: int, retryable: bool, retryAt: int, now: int)
    requires j.archivedAt.None?
    ensures Due(AsFailed(j, attempts, maxAttempts, retryable, retryAt), j.kind, now) <==>
            retryable && attempts < maxAttempts && retryAt <= now
  {
  }

  // The delay before the retry that follows an attempt: its own, or the last when there are no more.
  function DelayAfter(delays: seq<int>, attempt: int): int
    requires delays != [] && 1 <= attempt
  {
    if attempt <= |delays| then delays[attempt - 1] else delays[|delays| - 1]
  }

  /** A job whose delivery has failed is due again exactly if the error was retryable, attempts are left,
      and the delay of this attempt has passed since; until then, and otherwise for good, no query for due
      jobs finds it. */
  lemma ErrorWaits(t: Jobs, id: JobId, retryable: bool, delays: seq<int>, failedAt: int, kind: Kind, now: int)
    requires id in t && t[id].archivedAt.None? && 1 <= t[id].attempts && delays != []
    ensures var u := Conclude(t, id, Errored(retryable, delays, failedAt));
            && u.Keys == t.Keys && (forall i | i in t && i != id :: u[i] == t[i])
            && (Due(u[id], kind, now) <==>
                  && kind == t[id].kind && retryable && t[id].attempts < t[id].maxAttempts
                  && failedAt + DelayAfter(delays, t[id].attempts) <= now)
  {
  }

  /** So with the turn of a worker that claims a job and fails to deliver it. */
  lemma FailedTurnWaits(t: Jobs, row: Candidate, kind: Kind, now: int, provider: Provider, worker: WorkerId,
                        lockAt: int, retryable: bool, delays: seq<int>, failedAt: int, later: int)
    requires row.id in t && Claimable(t[row.id], kind, now, row.attempts, row.maxAttempts)
    requires 0 <= row.attempts && delays != []
    ensures var u := Turn(t, row, kind, now, provider, worker, lockAt, Errored(retryable, delays, failedAt));
            && row.id in u
            && (Due(u[row.id], kind, later) <==>
                  && retryable && row.attempts + 1 < row.maxAttempts
                  && failedAt + DelayAfter(delays, row.attempts + 1) <= later)
  {
    hide Conclude;
    var claimed := t[row.id := AsClaimed(t[row.id], lockAt, worker, provider)];
    ErrorWaits(claimed, row.id, retryable, delays, failedAt, kind, later);
  }

  /** With growing delays no retry comes sooner after its failure than the one before it. */
  lemma RetriesBackOff(delays: seq<int>, a: int, b: int)
    requires delays != [] && a <= b
    requires forall i, k | 0 <= i <= k < |delays| :: delays[i] <= delays[k]
    ensures RetryDelay(delays, a) <= RetryDelay(delays, b)
    ensures 1 <= a <= |delays| ==> RetryDelay(delays, a) == delays[a - 1]
  {
  }

  // ---------- webhooks come more than once ----------

  lemma {:induction false} SeenOnce(m: Mailbox, notices: seq<Notice>, k: nat)
    requires k < |notices|
    ensures notices[k].eventId in HandleAll(m, notices).seen
    decreases |notices|
  {
    if k < |notices| - 1 { SeenOnce(m, notices[..|notices| - 1], k); }
  }

  /** However often and in whatever order the provider repeats an event, it takes effect once. */
  lemma RedeliveryChangesNothing(m: Mailbox, notices: seq<Notice>, k: nat)
    requires k < |notices|
    ensures HandleAll(m, notices + [notices[k]]) == HandleAll(m, notices)
  {
    SeenOnce(m, notices, k);
    assert (notices + [notices[k]])[..|notices|] == notices;
  }

  // ---------- a worker's pass ----------

  ghost predicate RowsOk(t: Jobs) { forall id | id in t :: RowOk(t[id]) }

  // The jobs under a lock are the same jobs under the same lock.
  ghost predicate SameLocks(t: Jobs, u: Jobs) {
    u.Keys == t.Keys && forall id | id in t && (t[id].lock.Some? || u[id].lock.Some?) :: u[id] == t[id]
  }

  lemma ConcludedOk(j: Job, lockAt: int, worker: WorkerId, provider: Provider, o: Outcome)
    requires RowOk(j) && Waiting(j) && j.archivedAt.None? && (o.Errored? ==> o.delays != [])
    ensures var u := AsClaimed(j, lockAt, worker, provider); var v := Concluded(u, u.attempts, u.maxAttempts, o);
            RowOk(v) && v.lock.None? && j.lock.None? && v.kind == j.kind
  {
    hide RetryDelay;
  }

  lemma PausedOk(j: Job, batchKey: Option<int>, campaignId: Option<int>)
    requires RowOk(j) && Pending(j, batchKey, campaignId)
    ensures RowOk(AsPaused(j)) && j.lock.None? && AsPaused(j).lock.None?
  {
  }

  lemma SiblingsOk(t: Jobs, except: JobId, batchKey: Option<int>, campaignId: Option<int>)
    requires RowsOk(t)
    ensures RowsOk(PausePending(t, except, batchKey, campaignId))
            && SameLocks(t, PausePending(t, except, batchKey, campaignId))
  {
    hide RowOk, Pending, AsPaused;
    forall id | id in t && Pending(t[id], batchKey, campaignId)
      ensures RowOk(AsPaused(t[id])) && t[id].lock.None? && AsPaused(t[id]).lock.None?
    {
      PausedOk(t[id], batchKey, campaignId);
    }
  }

  lemma TurnOk(t: Jobs, row: Candidate, kind: Kind, now: int, provider: Provider, worker: WorkerId, lockAt: int,
               o: Outcome)
    requires RowsOk(t) && (o.Errored? ==> o.delays != [])
    ensures var u := Turn(t, row, kind, now, provider, worker, lockAt, o); RowsOk(u) && SameLocks(t, u)
  {
    hide RowOk, Concluded, PausePending, AsClaimed;
    if row.id in t && Claimable(t[row.id], kind, now, row.attempts, row.maxAttempts) {
      var j := t[row.id];
      ConcludedOk(j, lockAt, worker, provider, o);
      var claimed := AsClaimed(j, lockAt, worker, provider);
      var u := t[row.id := claimed][row.id := Concluded(claimed, claimed.attempts, claimed.maxAttempts, o)];
      assert RowsOk(u) && SameLocks(t, u);
      SiblingsOk(u, row.id, claimed.batchKey, claimed.campaignId);
    }
  }

  /** An undisturbed pass keeps every row in order and leaves no lock of its own behind: whatever it
      claims it settles, and what others hold it does not touch. */
  lemma {:induction false} PassSettlesWhatItClaims(t: Jobs, rows: seq<Candidate>, kind: Kind, now: int,
      provider: Provider, worker: WorkerId,
                                                   lockAt: int, outcomes: seq<Outcome>)
    requires |outcomes| == |rows| && forall o | o in outcomes :: o.Errored? ==> o.delays != []
    requires RowsOk(t)
    ensures var u := Pass(t, rows, kind, now, provider, worker, lockAt, outcomes); RowsOk(u) && SameLocks(t, u)
    decreases |rows|
  {
    hide RowOk, Turn;
    if rows != [] {
      var k := |rows| - 1;
      PassSettlesWhatItClaims(t, rows[..k], kind, now, provider, worker, lockAt, outcomes[..k]);
      var m := Pass(t, rows[..k], kind, now, provider, worker, lockAt, outcomes[..k]);
      TurnOk(m, rows[k], kind, now, provider, worker, lockAt, outcomes[k]);
    }
  }
}
