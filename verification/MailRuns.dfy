/** Runs of the mail queue: any number of workers, crashes, recoveries from old snapshots, admin
    operations, createJob calls and bounces, in any order. Every statement is a step; a worker's
    turn is claim, load, hand-off to the provider, acceptance and outcome write. Retry, cancellation,
    archiving and the refresh in createJob check a row and write it by id, at once or later; recovery
    may take a lock from a worker that is dead or only slow. Clocks agree, and a claim commits before
    its own lock is stale. */
module MailRuns {
  import opened Options
  import opened MailQueue

  datatype Phase = Won | Loaded | HandedOff | Accepted
  datatype Holder = Holder(worker: WorkerId, lockAt: int, phase: Phase, attempts: int, maxAttempts: int)
  datatype Win = Win(worker: WorkerId, attempt: int)

  // What a recovering worker read, and which claim of the job that was.
  datatype Snap = Snap(lockAt: int, attempts: int, maxAttempts: int, claimNo: nat)

  // A write by id whose check has been made.
  datatype Call =
    | RetryCall(force: bool, known: bool, provider: Provider)
    | RequeueCall(request: Request, now: int)
    | CancelCall
    | ArchiveCall(at: int)

  /** A job's row, the live worker that holds it, other live workers that take themselves for its
      holder, the calls that have checked it and not yet written, and what the statements below count:
      wins and hand-offs since the last reset, claims, acceptances, SENT records, acceptances whose
      SENT write never came, and SENT records that something else has ended. */
  datatype Cell = Cell(row: Job, holder: Option<Holder>, strays: seq<Holder>, calls: multiset<Call>,
                       wins: seq<Win>, handoffs: nat, claims: nat,
                       accepts: nat, sents: nat, lost: nat, ended: nat, snaps: set<Snap>)

  datatype Step =
    | Claim(worker: WorkerId, kind: Kind, now: int, attempts: int, maxAttempts: int, provider: Provider, lockAt: int)
    | Load
    | Suppress
    | FailRender
    | HitLimit
    | HandOff
    | Accept
    | Record(provider: Provider, messageId: int, at: int)
    | Fail(retryable: bool, retryAt: int)
    | Crash
    | ReadStale
    | Recover(snap: Snap)
    | PauseSibling(batchKey: Option<int>, campaignId: Option<int>)
    | Retry(force: bool, known: bool, provider: Provider)
    | Resume(campaignId: Option<int>, batchKey: Option<int>, provider: Provider)
    | Cancel
    | Archive(at: int)
    | Requeue(request: Request, now: int)
    | Bounce(messageId: int)
    | Check(call: Call)
    | Land(call: Call)
    | Switch

  predicate InPhase(c: Cell, p: Phase) { c.holder.Some? && c.holder.value.phase == p }

  // A request of createJob that finds this job by its key.
  predicate Names(request: Request, j: Job) {
    1 <= request.maxAttempts && request.key.Some? && request.key == j.key
  }

  predicate Passes(j: Job, call: Call) {
    match call
    case RetryCall(force, known, _) => RetryAllowed(j, force, known)
    case RequeueCall(request, now) => Names(request, j) && !Reused(j, now)
    case CancelCall => j.status == Queued
    case ArchiveCall(_) => Archivable(j)
  }

  // When a step can be taken. A switch lets another worker that takes itself for the holder go on.
  ghost predicate Can(c: Cell, e: Step, clock: int, grace: int) {
    match e
    case Claim(_, _, now, attempts, maxAttempts, _, lockAt) =>
      now <= clock && attempts < maxAttempts && clock - grace <= lockAt <= clock
    case Load => InPhase(c, Won)
    case Suppress => InPhase(c, Loaded) && c.row.kind == Bulk
    case FailRender => InPhase(c, Loaded)
    case HitLimit => InPhase(c, Loaded)
    case HandOff => InPhase(c, Loaded)
    case Accept => InPhase(c, HandedOff)
    case Record(_, _, _) => InPhase(c, Accepted)
    case Fail(_, _) => c.holder.Some? && c.holder.value.phase != Won
    case Crash => c.holder.Some?
    case ReadStale =>
      c.row.archivedAt.None? && c.row.status == Processing && c.row.lock.Some? && c.row.lock.value.at < clock - grace
    case Recover(snap) => snap in c.snaps
    case Requeue(request, now) => Names(request, c.row) && now <= clock
    case Check(call) => Passes(c.row, call)
    case Land(call) => call in c.calls
    case Switch => c.strays != []
    case _ => true
  }

  function Release(c: Cell, row: Job): Cell { c.(row := row, holder := None) }

  function AfterLoss(c: Cell): Cell {
    if InPhase(c, Accepted) then c.(lost := c.lost + 1, holder := None) else c.(holder := None)
  }

  function Reset(c: Cell, row: Job): Cell { c.(row := row, wins := [], handoffs := 0) }

  function AfterEnd(c: Cell): Cell {
    if c.row.status == Sent then c.(ended := c.ended + 1) else c
  }

  function WithPhase(c: Cell, p: Phase): Cell
    requires c.holder.Some?
  {
    c.(holder := Some(c.holder.value.(phase := p)))
  }

  function ClaimCell(c: Cell, e: Step): Cell
    requires e.Claim?
  {
    if Claimable(c.row, e.kind, e.now, e.attempts, e.maxAttempts) then
      c.(row := AsClaimed(c.row, e.lockAt, e.worker, e.provider), claims := c.claims + 1,
         wins := c.wins + [Win(e.worker, e.attempts + 1)],
         holder := Some(Holder(e.worker, e.lockAt, Won, 0, 0)),
         strays := if c.holder.Some? then c.strays + [c.holder.value] else c.strays)
    else c
  }

  // A step of the worker that holds the job.
  function HolderStep(c: Cell, e: Step): Cell
    requires c.holder.Some?
  {
    var h := c.holder.value;
    match e
    case Load => c.(holder := Some(h.(phase := Loaded, attempts := c.row.attempts, maxAttempts := c.row.maxAttempts)))
    case Suppress => Release(c, AsSuppressed(c.row))
    case FailRender => Release(c, AsUnrenderable(c.row))
    case HitLimit => Release(c, AsLimited(c.row, h.attempts))
    case HandOff => WithPhase(c, HandedOff).(handoffs := c.handoffs + 1)
    case Accept => WithPhase(c, Accepted).(accepts := c.accepts + 1)
    case Record(provider, messageId, at) => Release(c, AsSent(c.row, provider, messageId, at)).(sents := c.sents + 1)
    case Fail(retryable, retryAt) =>
      AfterLoss(c).(row := AsFailed(c.row, h.attempts, h.maxAttempts, retryable, retryAt))
    case Crash => AfterLoss(c)
    case _ => c
  }

  // A write by id, whatever it finds.
  function Landed(c: Cell, call: Call): Cell {
    match call
    case RetryCall(_, _, provider) => Reset(AfterEnd(c), AsRetried(c.row, provider))
    case RequeueCall(request, _) => Reset(AfterEnd(c), AsRefreshed(c.row, request))
    case CancelCall => AfterEnd(c).(row := AsCancelled(c.row))
    case ArchiveCall(at) => c.(row := c.row.(archivedAt := Some(at)))
  }

  // A step of another worker, of an admin, of a caller of createJob or of the webhook.
  function OtherStep(c: Cell, e: Step): Cell {
    match e
    case ReadStale =>
      if c.row.lock.Some? then
        c.(snaps := c.snaps + {Snap(c.row.lock.value.at, c.row.attempts, c.row.maxAttempts, c.claims)}) else c
    case Recover(snap) =>
      if HoldsLock(c.row, snap.lockAt) then c.(row := AsRecovered(c.row, snap.attempts, snap.maxAttempts)) else c
    case PauseSibling(batchKey, campaignId) =>
      if Pending(c.row, batchKey, campaignId) then c.(row := AsPaused(c.row)) else c
    case Retry(force, known, provider) =>
      if RetryAllowed(c.row, force, known) then Reset(c, AsRetried(c.row, provider)) else c
    case Resume(campaignId, batchKey, provider) =>
      if Resumable(c.row, campaignId, batchKey) then Reset(c, AsResumed(c.row, provider)) else c
    case Cancel => if c.row.status == Queued then c.(row := AsCancelled(c.row)) else c
    case Archive(at) => if Archivable(c.row) then c.(row := AsArchived(c.row, at)) else c
    case Requeue(request, now) =>
      if Reused(c.row, now) then c else Reset(AfterEnd(c), AsRefreshed(c.row, request))
    case Bounce(messageId) => if c.row.messageId == Some(messageId) then AfterEnd(c).(row := AsBounced(c.row)) else c
    case Check(call) => c.(calls := c.calls + multiset{call})
    case Land(call) => Landed(c, call).(calls := c.calls - multiset{call})
    case Switch =>
      if c.strays == [] then c
      else c.(holder := Some(c.strays[0]), strays := c.strays[1..] + if c.holder.Some? then [c.holder.value] else [])
    case _ => c
  }

  predicate ByHolder(e: Step) {
    e.Load? || e.Suppress? || e.FailRender? || e.HitLimit? || e.HandOff? || e.Accept? || e.Record? || e.Fail?
        || e.Crash?
  }

  function Do(c: Cell, e: Step): Cell {
    if e.Claim? then ClaimCell(c, e)
    else if ByHolder(e) then (if c.holder.Some? then HolderStep(c, e) else c)
    else OtherStep(c, e)
  }

  // ---------- what every step keeps ----------

  /** The row: attempts within the budget, strictly so while the job waits; a lock exactly while it
      is processed. */
  ghost predicate RowOk(j: Job) {
    && 1 <= j.maxAttempts && 0 <= j.attempts <= j.maxAttempts
    && (Waiting(j) ==> j.attempts < j.maxAttempts)
    && (j.status == Processing <==> j.lock.Some?)
    && (j.status == Processing ==> 1 <= j.attempts)
    && (j.messageId.Some? ==> Archivable(j))
    && (j.archivedAt.Some? ==> Archivable(j) || j.status == Paused)
  }

  // Cancelled on its last attempt, with no key by which createJob could find it: whatever its holder
  // reports, nobody but an admin queues it again.
  predicate Past(j: Job) {
    j.status == Cancelled && j.lock.None? && j.key.None? && j.attempts == j.maxAttempts && j.messageId.None?
  }

  /** At most one live worker takes itself for the holder; it does hold the row, unless that is past, and
      knows its attempts once it has read it. */
  ghost predicate HeldOk(c: Cell) {
    && c.strays == []
    && (c.holder.Some? ==>
          var h := c.holder.value;
          && ((c.row.status == Processing && c.row.lock == Some(Lock(h.lockAt, h.worker))) || Past(c.row))
          && (h.phase != Won ==> h.attempts == c.row.attempts && h.maxAttempts == c.row.maxAttempts))
  }

  /** The claims since the last reset carry the attempt numbers 1, 2, 3, ..., and the row of a job that
      is waiting or processed the last of them; a limit pause gives its number back, and what follows a
      pause is a reset. */
  ghost predicate WinsOk(c: Cell) {
    && (forall i | 0 <= i < |c.wins| :: c.wins[i].attempt == i + 1)
    && |c.wins| <= c.row.maxAttempts
    && c.row.attempts <= |c.wins| && (Waiting(c.row) || c.row.status == Processing ==> |c.wins| == c.row.attempts)
    && (c.row.lock.Some? ==> c.wins != [] && c.wins[|c.wins| - 1].worker == c.row.lock.value.worker)
  }

  /** Each claim is handed to the provider at most once. */
  ghost predicate HandoffsOk(c: Cell) {
    c.handoffs + (if InPhase(c, Won) || InPhase(c, Loaded) then 1 else 0) <= |c.wins|
  }

  /** Every acceptance is the holder's, a SENT record or lost; every SENT record is the row or ended. */
  ghost predicate AccountsOk(c: Cell) {
    && c.accepts == c.lost + c.sents + (if InPhase(c, Accepted) then 1 else 0)
    && c.sents == c.ended + (if c.row.status == Sent then 1 else 0)
  }

  /** A snapshot that matches the row's lock was read from the job's latest claim. */
  ghost predicate SnapOk(c: Cell, snap: Snap, clock: int, grace: int) {
    && snap.lockAt < clock - grace
    && (HoldsLock(c.row, snap.lockAt) ==>
          snap.attempts == c.row.attempts && snap.maxAttempts == c.row.maxAttempts && snap.claimNo == c.claims)
  }

  ghost predicate SnapsOk(c: Cell, clock: int, grace: int) {
    forall snap | snap in c.snaps :: SnapOk(c, snap, clock, grace)
  }

  ghost predicate CallsOk(c: Cell) {
    forall call | call in c.calls && call.RequeueCall? :: Names(call.request, c.row)
  }

  ghost predicate CellOk(c: Cell, clock: int, grace: int) {
    RowOk(c.row) && HeldOk(c) && WinsOk(c) && HandoffsOk(c) && AccountsOk(c) && SnapsOk(c, clock, grace) && CallsOk(c)
  }

  lemma CallsCarryBudget(c: Cell, clock: int, grace: int)
    requires CellOk(c, clock, grace)
    ensures forall call | call in c.calls && call.RequeueCall? :: Names(call.request, c.row)
  {
  }

  lemma ClaimKeeps(c: Cell, e: Step, clock: int, grace: int)
    requires CellOk(c, clock, grace) && e.Claim? && Can(c, e, clock, grace)
    ensures CellOk(ClaimCell(c, e), clock, grace)
  {
    hide SnapsOk;
    var u := ClaimCell(c, e);
    if Claimable(c.row, e.kind, e.now, e.attempts, e.maxAttempts) {
      ClaimIsNewer(c, e, clock, grace);
    }
  }

  lemma ClaimIsNewer(c: Cell, e: Step, clock: int, grace: int)
    requires SnapsOk(c, clock, grace) && e.Claim? && Can(c, e, clock, grace)
    requires Claimable(c.row, e.kind, e.now, e.attempts, e.maxAttempts)
    ensures SnapsOk(ClaimCell(c, e), clock, grace)
  {
    var u := ClaimCell(c, e);
    forall snap | snap in u.snaps ensures SnapOk(u, snap, clock, grace) {
      assert SnapOk(c, snap, clock, grace);
    }
  }

  // Snapshots stay right while the claim is untouched, and when the row is no longer locked.
  lemma SnapsStay(c: Cell, u: Cell, clock: int, grace: int)
    requires SnapsOk(c, clock, grace) && u.snaps == c.snaps
    requires u.row.lock.None?
             || (u.row.lock == c.row.lock && u.row.status == c.row.status && u.row.attempts == c.row.attempts
                                  && u.row.maxAttempts == c.row.maxAttempts && u.claims == c.claims)
    ensures SnapsOk(u, clock, grace)
  {
    forall snap | snap in u.snaps ensures SnapOk(u, snap, clock, grace) {
      assert SnapOk(c, snap, clock, grace);
    }
  }

  lemma HolderKeepsRow(c: Cell, e: Step, clock: int, grace: int)
    requires CellOk(c, clock, grace) && ByHolder(e) && Can(c, e, clock, grace)
    ensures RowOk(HolderStep(c, e).row) && HeldOk(HolderStep(c, e))
  {
    hide SnapsOk, HandoffsOk, AccountsOk, WinsOk;
  }

  lemma HolderKeepsClaims(c: Cell, e: Step, clock: int, grace: int)
    requires CellOk(c, clock, grace) && ByHolder(e) && Can(c, e, clock, grace)
    ensures WinsOk(HolderStep(c, e)) && HandoffsOk(HolderStep(c, e))
  {
    hide SnapsOk, AccountsOk, CallsOk;
  }

  lemma HolderKeepsAccounts(c: Cell, e: Step, clock: int, grace: int)
    requires CellOk(c, clock, grace) && ByHolder(e) && Can(c, e, clock, grace)
    ensures AccountsOk(HolderStep(c, e))
  {
    hide SnapsOk, WinsOk, HandoffsOk, CallsOk;
  }

  lemma HolderKeeps(c: Cell, e: Step, clock: int, grace: int)
    requires CellOk(c, clock, grace) && ByHolder(e) && Can(c, e, clock, grace)
    ensures CellOk(HolderStep(c, e), clock, grace)
  {
    hide HolderStep, RowOk, HeldOk, WinsOk, HandoffsOk, AccountsOk, SnapsOk, CallsOk, Can, ByHolder;
    HolderKeepsRow(c, e, clock, grace);
    HolderKeepsClaims(c, e, clock, grace);
    HolderKeepsAccounts(c, e, clock, grace);
    HolderLeavesSnaps(c, e, clock, grace);
  }

  lemma HolderLeavesSnaps(c: Cell, e: Step, clock: int, grace: int)
    requires CellOk(c, clock, grace) && ByHolder(e) && Can(c, e, clock, grace)
    ensures SnapsOk(HolderStep(c, e), clock, grace) && CallsOk(HolderStep(c, e))
  {
    hide SnapsOk, WinsOk, HandoffsOk, AccountsOk;
    SnapsStay(c, HolderStep(c, e), clock, grace);
  }

  // A retry or refresh is timely if no live worker holds the job; a cancellation also if the job has no
  // key and its holder is on the last attempt; an archiving if the job is settled or paused; a recovery
  // if the lock that it takes is a dead worker's.
  ghost predicate Timely(c: Cell, e: Step) {
    match e
    case Land(ArchiveCall(_)) => Archivable(c.row) || c.row.status == Paused
    case Land(CancelCall) => c.holder.None? || (c.row.key.None? && c.row.attempts == c.row.maxAttempts)
    case Land(_) => c.holder.None?
    case Recover(snap) => HoldsLock(c.row, snap.lockAt) ==> c.holder.None?
    case _ => true
  }

  lemma RecoveryKeeps(c: Cell, e: Step, clock: int, grace: int)
    requires CellOk(c, clock, grace) && (e.Recover? || e.ReadStale?) && Can(c, e, clock, grace)
    ensures CellOk(OtherStep(c, e), clock, grace) <==> Timely(c, e)
  {
    hide SnapsOk;
    var u := OtherStep(c, e);
    if e.Recover? {
      assert SnapOk(c, e.snap, clock, grace) by { SnapIn(c, e.snap, clock, grace); }
      SnapsStay(c, u, clock, grace);
    } else {
      ReadIsRight(c, clock, grace);
    }
  }

  lemma SnapIn(c: Cell, snap: Snap, clock: int, grace: int)
    requires SnapsOk(c, clock, grace) && snap in c.snaps
    ensures SnapOk(c, snap, clock, grace)
  {
  }

  lemma ReadIsRight(c: Cell, clock: int, grace: int)
    requires SnapsOk(c, clock, grace) && Can(c, ReadStale, clock, grace)
    ensures SnapsOk(OtherStep(c, ReadStale), clock, grace)
  {
    var u := OtherStep(c, ReadStale);
    forall snap | snap in u.snaps ensures SnapOk(u, snap, clock, grace) {
      if snap in c.snaps { assert SnapOk(c, snap, clock, grace); }
    }
  }

  // A step of somebody else that is neither a claim nor a recovery nor a late write.
  predicate Outside(e: Step) {
    !ByHolder(e) && !e.Claim? && !e.Recover? && !e.ReadStale? && !e.Land?
  }

  lemma OutsideKeepsRow(c: Cell, e: Step, clock: int, grace: int)
    requires CellOk(c, clock, grace) && Can(c, e, clock, grace) && Outside(e)
    ensures RowOk(OtherStep(c, e).row) && HeldOk(OtherStep(c, e)) && CallsOk(OtherStep(c, e))
  {
    hide SnapsOk, WinsOk, HandoffsOk, AccountsOk;
  }

  lemma OutsideKeepsCounts(c: Cell, e: Step, clock: int, grace: int)
    requires CellOk(c, clock, grace) && Can(c, e, clock, grace) && Outside(e)
    ensures var u := OtherStep(c, e); WinsOk(u) && HandoffsOk(u) && AccountsOk(u) && SnapsOk(u, clock, grace)
  {
    hide SnapsOk, CallsOk, WinsOk, HandoffsOk, AccountsOk, OtherStep, RowOk, HeldOk, Can;
    OutsideKeepsWins(c, e, clock, grace);
    OutsideKeepsAccounts(c, e, clock, grace);
  }

  lemma OutsideKeepsWins(c: Cell, e: Step, clock: int, grace: int)
    requires CellOk(c, clock, grace) && Can(c, e, clock, grace) && Outside(e)
    ensures WinsOk(OtherStep(c, e)) && HandoffsOk(OtherStep(c, e))
  {
    hide SnapsOk, CallsOk, AccountsOk;
  }

  lemma OutsideKeepsAccounts(c: Cell, e: Step, clock: int, grace: int)
    requires CellOk(c, clock, grace) && Can(c, e, clock, grace) && Outside(e)
    ensures AccountsOk(OtherStep(c, e)) && SnapsOk(OtherStep(c, e), clock, grace)
  {
    hide SnapsOk, CallsOk, WinsOk, HandoffsOk;
    SnapsStay(c, OtherStep(c, e), clock, grace);
  }

  lemma OutsideKeeps(c: Cell, e: Step, clock: int, grace: int)
    requires CellOk(c, clock, grace) && Can(c, e, clock, grace) && Outside(e)
    ensures CellOk(OtherStep(c, e), clock, grace)
  {
    hide RowOk, HeldOk, WinsOk, HandoffsOk, AccountsOk, SnapsOk, CallsOk, OtherStep, Outside, Can;
    OutsideKeepsRow(c, e, clock, grace);
    OutsideKeepsCounts(c, e, clock, grace);
  }

  /** Landing at any time after its check, a retry, a refresh, a cancellation or an archiving keeps the
      job in order exactly if it is timely. */
  lemma LateWriteExact(c: Cell, call: Call, clock: int, grace: int)
    requires CellOk(c, clock, grace) && (call.RequeueCall? ==> Names(call.request, c.row))
    ensures CellOk(OtherStep(c, Land(call)), clock, grace) <==> Timely(c, Land(call))
  {
    hide RowOk, HeldOk, WinsOk, HandoffsOk, AccountsOk, SnapsOk, CallsOk, OtherStep, Timely;
    LandingExact(c, call, clock, grace);
    if Timely(c, Land(call)) { LandingKeepsCounts(c, call, clock, grace); }
  }

  lemma LandingExact(c: Cell, call: Call, clock: int, grace: int)
    requires CellOk(c, clock, grace) && (call.RequeueCall? ==> Names(call.request, c.row))
    ensures var u := OtherStep(c, Land(call)); RowOk(u.row) && HeldOk(u) && CallsOk(u) <==> Timely(c, Land(call))
  {
    hide SnapsOk, WinsOk, HandoffsOk, AccountsOk, RowOk, HeldOk, CallsOk, OtherStep;
    if call.ArchiveCall? {
      ArchivingExact(c, call, clock, grace);
    } else if call.CancelCall? {
      CancellingExact(c, call, clock, grace);
    } else {
      QueueingExact(c, call, clock, grace);
    }
  }

  lemma ArchivingExact(c: Cell, call: Call, clock: int, grace: int)
    requires CellOk(c, clock, grace) && call.ArchiveCall?
    ensures var u := OtherStep(c, Land(call)); RowOk(u.row) && HeldOk(u) && CallsOk(u) <==> Timely(c, Land(call))
  {
    hide SnapsOk, WinsOk, HandoffsOk, AccountsOk;
  }

  lemma CancellingExact(c: Cell, call: Call, clock: int, grace: int)
    requires CellOk(c, clock, grace) && call.CancelCall?
    ensures var u := OtherStep(c, Land(call)); RowOk(u.row) && HeldOk(u) && CallsOk(u) <==> Timely(c, Land(call))
  {
    hide SnapsOk, WinsOk, HandoffsOk, AccountsOk, CallsOk;
    CallsStay(c, call);
  }

  lemma CallsStay(c: Cell, call: Call)
    requires CallsOk(c) && call.CancelCall?
    ensures CallsOk(OtherStep(c, Land(call)))
  {
    var u := OtherStep(c, Land(call));
    assert u.row.key == c.row.key && forall other | other in u.calls :: other in c.calls;
  }

  lemma QueueingExact(c: Cell, call: Call, clock: int, grace: int)
    requires CellOk(c, clock, grace) && (call.RetryCall? || call.RequeueCall?)
    requires call.RequeueCall? ==> Names(call.request, c.row)
    ensures var u := OtherStep(c, Land(call)); RowOk(u.row) && HeldOk(u) && CallsOk(u) <==> Timely(c, Land(call))
  {
    hide SnapsOk, WinsOk, HandoffsOk, AccountsOk;
  }

  lemma LandingKeepsCounts(c: Cell, call: Call, clock: int, grace: int)
    requires CellOk(c, clock, grace) && Timely(c, Land(call)) && (call.RequeueCall? ==> Names(call.request, c.row))
    ensures var u := OtherStep(c, Land(call)); WinsOk(u) && HandoffsOk(u) && AccountsOk(u) && SnapsOk(u, clock, grace)
  {
    hide SnapsOk, CallsOk;
    SnapsStay(c, OtherStep(c, Land(call)), clock, grace);
  }

  /** Every step on a job keeps all of it, exactly if it is timely. */
  lemma StepKeeps(c: Cell, e: Step, clock: int, grace: int)
    requires CellOk(c, clock, grace) && Can(c, e, clock, grace)
    ensures CellOk(Do(c, e), clock, grace) <==> Timely(c, e)
  {
    hide CellOk, ClaimCell, HolderStep, OtherStep;
    if e.Land? {
      CallsCarryBudget(c, clock, grace);
      LateWriteExact(c, e.call, clock, grace);
    } else if e.Claim? {
      ClaimKeeps(c, e, clock, grace);
    } else if ByHolder(e) {
      HolderKeeps(c, e, clock, grace);
    } else if e.Recover? || e.ReadStale? {
      RecoveryKeeps(c, e, clock, grace);
    } else {
      OutsideKeeps(c, e, clock, grace);
    }
  }

  /** What recovery's query selects is old enough for a snapshot: older than the shorter of its waits. */
  lemma StaleRowsAreOld(c: Cell, now: int, staleMs: nat, warningMs: nat, heartbeatAt: Option<int>,
                        heartbeatStaleMs: nat, clock: int)
    requires Stale(c.row, now, staleMs, warningMs, heartbeatAt, heartbeatStaleMs) && now <= clock
    ensures Can(c, ReadStale, clock, Min(staleMs, warningMs))
  {
  }

  // ---------- the whole queue ----------

  datatype System = System(cells: map<JobId, Cell>, clock: int, grace: int)

  datatype Event =
    | Tick(now: int)
    | At(id: JobId, step: Step)
    | PauseSiblings(except: JobId, batchKey: Option<int>, campaignId: Option<int>)
    | ResumePaused(campaignId: Option<int>, batchKey: Option<int>, provider: Provider)
    | ArchiveOld(old_: set<JobId>, at: int)
    | Webhook(messageId: int)
    | CreateJob(newId: JobId, request: Request, now: int)

  // What an event does to a job that is there.
  function StepOn(row: Job, id: JobId, e: Event): Option<Step> {
    match e
    case Tick(_) => None
    case At(i, step) => if i == id then Some(step) else None
    case PauseSiblings(except, batchKey, campaignId) =>
      if id != except then Some(PauseSibling(batchKey, campaignId)) else None
    case ResumePaused(campaignId, batchKey, provider) => Some(Resume(campaignId, batchKey, provider))
    case ArchiveOld(old_, at) => if id in old_ then Some(Archive(at)) else None
    case Webhook(messageId) => Some(Bounce(messageId))
    case CreateJob(_, request, now) =>
      if request.key.Some? && row.key == request.key then Some(Requeue(request, now)) else None
  }

  function CellAfter(c: Cell, id: JobId, e: Event): Cell {
    var step := StepOn(c.row, id, e);
    if step.Some? then Do(c, step.value) else c
  }

  ghost predicate KeyHeld(s: System, key: Option<int>) {
    key.Some? && exists id | id in s.cells :: s.cells[id].row.key == key
  }

  function NewCell(request: Request): Cell {
    Cell(AsCreated(request), None, [], multiset{}, [], 0, 0, 0, 0, 0, 0, {})
  }

  ghost function After(s: System, e: Event): System {
    var cells := map id | id in s.cells :: CellAfter(s.cells[id], id, e);
    match e
    case Tick(now) => s.(clock := now)
    case CreateJob(newId, request, _) =>
      s.(cells := if KeyHeld(s, request.key) then cells else cells[newId := NewCell(request)])
    case _ => s.(cells := cells)
  }

  ghost predicate CanOn(s: System, id: JobId, e: Event)
    requires id in s.cells
  {
    var step := StepOn(s.cells[id].row, id, e);
    step.Some? ==> Can(s.cells[id], step.value, s.clock, s.grace)
  }

  ghost predicate Enabled(s: System, e: Event) {
    && (forall id | id in s.cells :: CanOn(s, id, e))
    && (e.Tick? ==> s.clock <= e.now)
    && (e.At? ==> e.id in s.cells)
    && (e.CreateJob? ==> e.newId !in s.cells && 1 <= e.request.maxAttempts && e.now <= s.clock)
  }

  ghost predicate KeysUnique(s: System) {
    forall i, j | i in s.cells && j in s.cells && i != j && s.cells[i].row.key.Some? ::
        s.cells[i].row.key != s.cells[j].row.key
  }

  ghost predicate CellsOk(s: System) {
    forall id | id in s.cells :: CellOk(s.cells[id], s.clock, s.grace)
  }

  ghost predicate SystemOk(s: System) { CellsOk(s) && KeysUnique(s) }

  lemma ClockKeeps(c: Cell, clock: int, now: int, grace: int)
    requires CellOk(c, clock, grace) && clock <= now
    ensures CellOk(c, now, grace)
  {
    hide RowOk, HeldOk, WinsOk, HandoffsOk, AccountsOk;
    forall snap | snap in c.snaps ensures SnapOk(c, snap, now, grace) {
      assert SnapOk(c, snap, clock, grace);
    }
  }

  lemma NewCellOk(request: Request, clock: int, grace: int)
    requires 1 <= request.maxAttempts
    ensures CellOk(NewCell(request), clock, grace)
  {
  }

  // A single job's write by id and its recovery are the only events that can come at a wrong time.
  ghost predicate TimelyEvent(s: System, e: Event) {
    e.At? && e.id in s.cells ==> Timely(s.cells[e.id], e.step)
  }

  lemma CellKeeps(s: System, e: Event, id: JobId)
    requires CellsOk(s) && Enabled(s, e) && !e.Tick? && id in s.cells && TimelyEvent(s, e)
    ensures CellOk(CellAfter(s.cells[id], id, e), s.clock, s.grace)
  {
    hide CellOk, Can, Do;
    assert CanOn(s, id, e);
    var step := StepOn(s.cells[id].row, id, e);
    if step.Some? { StepKeeps(s.cells[id], step.value, s.clock, s.grace); }
  }

  lemma CellsKeep(s: System, e: Event)
    requires CellsOk(s) && Enabled(s, e) && TimelyEvent(s, e)
    ensures CellsOk(After(s, e))
  {
    hide CellOk, CellAfter, NewCell, KeyHeld, CanOn;
    var u := After(s, e);
    forall id | id in u.cells ensures CellOk(u.cells[id], u.clock, u.grace) {
      if e.Tick? {
        ClockKeeps(s.cells[id], s.clock, e.now, s.grace);
      } else if id in s.cells {
        CellKeeps(s, e, id);
      } else {
        NewCellOk(e.request, s.clock, s.grace);
      }
    }
  }

  lemma DoKeepsKey(c: Cell, e: Step)
    ensures Do(c, e).row.key == c.row.key
  {
  }

  lemma AfterKeepsKey(s: System, e: Event, id: JobId)
    requires id in s.cells && (e.CreateJob? ==> e.newId !in s.cells)
    ensures id in After(s, e).cells && After(s, e).cells[id].row.key == s.cells[id].row.key
  {
    hide Do, KeyHeld;
    var step := StepOn(s.cells[id].row, id, e);
    if step.Some? { DoKeepsKey(s.cells[id], step.value); }
  }

  /** One job per idempotency key, for good. */
  lemma KeysKeep(s: System, e: Event)
    requires KeysUnique(s) && Enabled(s, e)
    ensures KeysUnique(After(s, e))
  {
    hide Do, StepOn, CanOn;
    var u := After(s, e);
    forall i, j | i in u.cells && j in u.cells && i != j && u.cells[i].row.key.Some?
      ensures u.cells[i].row.key != u.cells[j].row.key
    {
      if i in s.cells { AfterKeepsKey(s, e, i); }
      if j in s.cells { AfterKeepsKey(s, e, j); }
    }
  }

  ghost predicate ValidRun(s: System, events: seq<Event>)
    decreases |events|
  {
    events == [] || (Enabled(s, events[0]) && ValidRun(After(s, events[0]), events[1..]))
  }

  ghost function AfterAll(s: System, events: seq<Event>): System
    decreases |events|
  {
    if events == [] then s else AfterAll(After(s, events[0]), events[1..])
  }

  ghost predicate TimelyRun(s: System, events: seq<Event>)
    decreases |events|
  {
    events == [] || (TimelyEvent(s, events[0]) && TimelyRun(After(s, events[0]), events[1..]))
  }

  // Every state on the way is in order.
  ghost predicate AllOk(s: System, events: seq<Event>)
    decreases |events|
  {
    SystemOk(s) && (events == [] || AllOk(After(s, events[0]), events[1..]))
  }

  lemma UntimelyBreaks(s: System, e: Event)
    requires CellsOk(s) && Enabled(s, e) && !TimelyEvent(s, e)
    ensures !CellsOk(After(s, e))
  {
    hide CellOk, Can, Do, Timely, KeyHeld;
    var id := e.id;
    assert CanOn(s, id, e);
    StepKeeps(s.cells[id], e.step, s.clock, s.grace);
    assert After(s, e).cells[id] == Do(s.cells[id], e.step);
  }

  /** Every reachable state is in order, if every late write on the way is timely ... */
  lemma {:induction false} AlwaysOk(s: System, events: seq<Event>)
    requires SystemOk(s) && ValidRun(s, events) && TimelyRun(s, events)
    ensures SystemOk(AfterAll(s, events))
    decreases |events|
  {
    hide CellsOk, KeysUnique, Enabled, After, TimelyEvent;
    if events != [] {
      CellsKeep(s, events[0]);
      KeysKeep(s, events[0]);
      AlwaysOk(After(s, events[0]), events[1..]);
    }
  }

  /** ... and only if: a run stays in order throughout exactly if every late write in it is timely. */
  lemma {:induction false} AlwaysOkExactly(s: System, events: seq<Event>)
    requires SystemOk(s) && ValidRun(s, events)
    ensures AllOk(s, events) <==> TimelyRun(s, events)
    decreases |events|
  {
    hide CellsOk, KeysUnique, Enabled, After, TimelyEvent;
    if events != [] {
      if TimelyEvent(s, events[0]) {
        CellsKeep(s, events[0]);
        KeysKeep(s, events[0]);
        AlwaysOkExactly(After(s, events[0]), events[1..]);
      } else {
        UntimelyBreaks(s, events[0]);
        NotAllOk(After(s, events[0]), events[1..]);
      }
    }
  }

  lemma NotAllOk(s: System, events: seq<Event>)
    requires !CellsOk(s)
    ensures !AllOk(s, events)
  {
  }

  lemma EmptyOk(clock: int, grace: int)
    ensures SystemOk(System(map[], clock, grace))
  {
  }

  // ---------- the runs take the statements of the table ----------

  function Rows(s: System): Jobs {
    map id | id in s.cells :: s.cells[id].row
  }

  // What an event leaves of one row.
  function RowAfter(j: Job, id: JobId, e: Event): Job
    requires e.PauseSiblings? || e.ResumePaused? || e.ArchiveOld? || e.Webhook? || e.CreateJob?
  {
    match e
    case PauseSiblings(except, batchKey, campaignId) =>
      if id != except && Pending(j, batchKey, campaignId) then AsPaused(j) else j
    case ResumePaused(campaignId, batchKey, provider) =>
      if Resumable(j, campaignId, batchKey) then AsResumed(j, provider) else j
    case ArchiveOld(old_, at) => if id in old_ && j.archivedAt.None? && Archivable(j) then AsArchived(j, at) else j
    case Webhook(messageId) => if j.messageId == Some(messageId) then AsBounced(j) else j
    case CreateJob(_, request, now) =>
      if request.key.Some? && j.key == request.key && !Reused(j, now) then AsRefreshed(j, request) else j
  }

  lemma RowFollows(c: Cell, id: JobId, e: Event)
    requires e.PauseSiblings? || e.ResumePaused? || e.ArchiveOld? || e.Webhook? || e.CreateJob?
    ensures CellAfter(c, id, e).row == RowAfter(c.row, id, e)
  {
    hide Pending, Resumable, Reused;
  }

  lemma RowsFollow(s: System, e: Event)
    requires e.PauseSiblings? || e.ResumePaused? || e.ArchiveOld? || e.Webhook? || (e.CreateJob? && e.newId !in s.cells)
    ensures forall id | id in s.cells ::
              id in After(s, e).cells && After(s, e).cells[id].row == RowAfter(s.cells[id].row, id, e)
    ensures !e.CreateJob? ==> After(s, e).cells.Keys == s.cells.Keys
  {
    hide CellAfter, RowAfter, KeyHeld, NewCell;
    forall id | id in s.cells ensures CellAfter(s.cells[id], id, e).row == RowAfter(s.cells[id].row, id, e) {
      RowFollows(s.cells[id], id, e);
    }
  }

  /** Every statement over several rows does to the rows of a run what it does to the table. */
  lemma RunsFollowTable(s: System, e: Event)
    ensures e.PauseSiblings? ==> Rows(After(s, e)) == PausePending(Rows(s), e.except, e.batchKey, e.campaignId)
    ensures e.ResumePaused? ==> Rows(After(s, e)) == ResumeAll(Rows(s), e.campaignId, e.batchKey, e.provider)
    ensures e.ArchiveOld? ==> Rows(After(s, e)) == ArchiveAll(Rows(s), e.old_, e.at)
    ensures e.Webhook? ==> Rows(After(s, e)) == BounceAll(Rows(s), e.messageId)
  {
    hide After, Pending, Resumable, Archivable, AsPaused, AsResumed, AsArchived, AsBounced;
    if e.PauseSiblings? || e.ResumePaused? || e.ArchiveOld? || e.Webhook? { RowsFollow(s, e); }
  }

  lemma RecoveryFollowsTable(s: System, id: JobId, snap: Snap)
    requires id in s.cells
    ensures Rows(After(s, At(id, Recover(snap))))
            == RecoverOne(Rows(s), StaleRow(id, snap.lockAt, snap.attempts, snap.maxAttempts))
  {
    hide KeyHeld;
  }

  lemma ClaimFollowsTable(s: System, id: JobId, e: Step)
    requires id in s.cells && e.Claim?
    ensures Rows(After(s, At(id, e))) ==
            if Claimable(s.cells[id].row, e.kind, e.now, e.attempts, e.maxAttempts)
            then Rows(s)[id := AsClaimed(s.cells[id].row, e.lockAt, e.worker, e.provider)] else Rows(s)
  {
    hide KeyHeld;
  }

  lemma CreateFollowsTable(s: System, e: Event)
    requires SystemOk(s) && Enabled(s, e) && e.CreateJob?
    ensures !KeyHeld(s, e.request.key) ==> Rows(After(s, e)) == Rows(s)[e.newId := AsCreated(e.request)]
    ensures forall id | id in s.cells && e.request.key.Some? && s.cells[id].row.key == e.request.key ::
              Rows(After(s, e)) == if Reused(s.cells[id].row, e.now) then Rows(s)
                                   else Rows(s)[id := AsRefreshed(s.cells[id].row, e.request)]
  {
    hide CellsOk, CanOn, Reused, CellAfter, AsRefreshed;
    RowsFollow(s, e);
  }

  // What the worker that has won and read a job does until an outcome is written.
  function TurnSteps(o: Outcome, attempts: int): seq<Step>
    requires o.Errored? ==> o.delays != []
  {
    match o
    case Suppressed => [Suppress]
    case RenderFailed => [FailRender]
    case LimitReached => [HitLimit]
    case Delivered(provider, messageId, at) => [HandOff, Accept, Record(provider, messageId, at)]
    case Errored(retryable, delays, now) => [HandOff, Fail(retryable, now + RetryDelay(delays, attempts))]
  }

  function DoAll(c: Cell, steps: seq<Step>): Cell
    decreases |steps|
  {
    if steps == [] then c else DoAll(Do(c, steps[0]), steps[1..])
  }

  lemma OneStep(c: Cell, a: Step)
    ensures DoAll(c, [a]) == Do(c, a)
  {
    hide Do;
    assert [a][1..] == [];
  }

  lemma TwoSteps(c: Cell, a: Step, b: Step)
    ensures DoAll(c, [a, b]) == Do(Do(c, a), b)
  {
    hide Do;
    assert [a, b][1..] == [b];
    OneStep(Do(c, a), b);
  }

  lemma ThreeSteps(c: Cell, a: Step, b: Step, d: Step)
    ensures DoAll(c, [a, b, d]) == Do(Do(Do(c, a), b), d)
  {
    hide Do;
    assert [a, b, d][1..] == [b, d];
    TwoSteps(Do(c, a), b, d);
  }

  lemma LoadedTurn(c: Cell, h: Holder, o: Outcome)
    requires c.holder == Some(h) && h.phase == Loaded && (o.Errored? ==> o.delays != [])
    ensures var u := DoAll(c, TurnSteps(o, h.attempts));
            u.row == Concluded(c.row, h.attempts, h.maxAttempts, o) && u.holder.None? && u.lost == c.lost
  {
    hide RetryDelay, AsSuppressed, AsUnrenderable, AsPaused, AsSent, AsFailed, DoAll;
    match o
    case Suppressed => OneStep(c, Suppress);
    case RenderFailed => OneStep(c, FailRender);
    case LimitReached => OneStep(c, HitLimit);
    case Delivered(provider, messageId, at) => ThreeSteps(c, HandOff, Accept, Record(provider, messageId, at));
    case Errored(retryable, delays, now) =>
      TwoSteps(c, HandOff, Fail(retryable, now + RetryDelay(delays, h.attempts)));
  }

  /** A worker's turn in the runs, step by step from the claim to the outcome, is the turn of the service, and
      leaves the job without holder. */
  lemma TurnFollowsTable(c: Cell, e: Step, o: Outcome)
    requires e.Claim? && Claimable(c.row, e.kind, e.now, e.attempts, e.maxAttempts) && (o.Errored? ==> o.delays != [])
    ensures var u := DoAll(Do(Do(c, e), Load), TurnSteps(o, e.attempts + 1));
            && u.row == Concluded(AsClaimed(c.row, e.lockAt, e.worker, e.provider), e.attempts + 1, e.maxAttempts, o)
            && u.holder.None? && u.lost == c.lost
  {
    hide DoAll, TurnSteps, Concluded;
    LoadedTurn(Do(Do(c, e), Load), Holder(e.worker, e.lockAt, Loaded, e.attempts + 1, e.maxAttempts), o);
  }

  // The step of an admin or of createJob when nothing comes between its check and its write.
  function AtOnce(call: Call): Step {
    match call
    case RetryCall(force, known, provider) => Retry(force, known, provider)
    case RequeueCall(request, now) => Requeue(request, now)
    case CancelCall => Cancel
    case ArchiveCall(at) => Archive(at)
  }

  // What such a step writes.
  function Result(j: Job, call: Call): Job {
    match call
    case RetryCall(_, _, provider) => AsRetried(j, provider)
    case RequeueCall(request, _) => AsRefreshed(j, request)
    case CancelCall => AsCancelled(j)
    case ArchiveCall(at) => AsArchived(j, at)
  }

  lemma LandsAs(c: Cell, call: Call)
    requires Passes(c.row, call) && (call.ArchiveCall? ==> c.row.archivedAt.None?)
    ensures Landed(c, call) == Do(c, AtOnce(call)) && Landed(c, call).row == Result(c.row, call)
    ensures Landed(c, call).calls == c.calls
  {
    hide AsRetried, AsRefreshed, AsCancelled, Reused, Waiting;
  }

  lemma CheckAdds(c: Cell, call: Call)
    ensures Do(c, Check(call)) == c.(calls := c.calls + multiset{call})
    ensures Do(c, Land(call)) == Landed(c, call).(calls := c.calls - multiset{call})
  {
    hide Landed;
  }

  lemma LandsWhoever(c: Cell, call: Call, calls: multiset<Call>)
    ensures Landed(c.(calls := calls), call) == Landed(c, call).(calls := calls)
  {
    hide AsRetried, AsRefreshed, AsCancelled;
  }

  lemma CheckThenLand(c: Cell, call: Call)
    ensures Do(Do(c, Check(call)), Land(call)) == Landed(c, call).(calls := c.calls)
  {
    hide Do, Landed;
    CheckAdds(c, call);
    CheckAdds(Do(c, Check(call)), call);
    LandsWhoever(c, call, c.calls + multiset{call});
    assert c.calls + multiset{call} - multiset{call} == c.calls;
  }

  /** A write that follows its check at once is the operation of the service, and one that is refused changes
      nothing. */
  lemma CallsFollowService(c: Cell, call: Call)
    requires call.ArchiveCall? ==> c.row.archivedAt.None?
    ensures Passes(c.row, call) ==> Do(Do(c, Check(call)), Land(call)) == Do(c, AtOnce(call))
    ensures Passes(c.row, call) ==> Do(c, AtOnce(call)).row == Result(c.row, call)
    ensures !Passes(c.row, call) && (call.RequeueCall? ==> Names(call.request, c.row)) ==> Do(c, AtOnce(call)) == c
  {
    if Passes(c.row, call) {
      hide Do, Passes, Result, Landed;
      CheckThenLand(c, call);
      LandsAs(c, call);
    } else {
      hide AsRetried, AsRefreshed, AsCancelled, Reused;
    }
  }

  // ---------- what the counters count ----------

  predicate Resets(e: Step) { e.Retry? || e.Resume? || e.Requeue? || e.Land? }

  ghost predicate CountedStep(c: Cell, e: Step, u: Cell) {
    && u.accepts == c.accepts + (if e.Accept? then 1 else 0)
    && u.sents == c.sents + (if e.Record? then 1 else 0)
    && u.lost == c.lost + (if (e.Fail? || e.Crash?) && InPhase(c, Accepted) then 1 else 0)
    && (if e.HandOff? then u.handoffs == c.handoffs + 1
        else u.handoffs == c.handoffs || (Resets(e) && u.handoffs == 0))
  }

  lemma HolderCounts(c: Cell, e: Step)
    requires ByHolder(e) && c.holder.Some?
    ensures CountedStep(c, e, HolderStep(c, e))
  {
    hide AsSuppressed, AsUnrenderable, AsLimited, AsPaused, AsSent, AsFailed;
  }

  lemma OtherCounts(c: Cell, e: Step)
    requires !ByHolder(e) && !e.Claim?
    ensures CountedStep(c, e, OtherStep(c, e))
  {
    hide AsPaused, AsRecovered, AsRetried, AsResumed, AsCancelled, AsArchived, AsRefreshed, AsBounced;
    hide Reused, RetryAllowed, Resumable, Pending, HoldsLock, Archivable;
  }

  /** Each counter goes up with what it counts and with nothing else: hand-offs start anew when a step
      resets the job. */
  lemma StepCounts(c: Cell, e: Step, clock: int, grace: int)
    requires Can(c, e, clock, grace)
    ensures CountedStep(c, e, Do(c, e))
  {
    hide HolderStep, OtherStep, Claimable, AsClaimed;
    if ByHolder(e) {
      assert c.holder.Some?;
      HolderCounts(c, e);
    } else if !e.Claim? {
      OtherCounts(c, e);
    }
  }

  lemma WonClaimsCount(c: Cell, e: Step)
    requires e.Claim?
    ensures Do(c, e).claims == c.claims + if Claimable(c.row, e.kind, e.now, e.attempts, e.maxAttempts) then 1 else 0
  {
    hide AsClaimed, Claimable;
  }

  lemma ReadRemembers(c: Cell)
    requires c.row.lock.Some?
    ensures Do(c, ReadStale).snaps == c.snaps + {Snap(c.row.lock.value.at, c.row.attempts, c.row.maxAttempts, c.claims)}
  {
  }

  lemma FirstAndRest(strays: seq<Holder>)
    requires strays != []
    ensures multiset(strays) == multiset{strays[0]} + multiset(strays[1..])
  {
    assert strays == [strays[0]] + strays[1..];
  }

  lemma SwitchMoves(c: Cell)
    requires c.strays != []
    ensures Do(c, Switch).holder == Some(c.strays[0])
    ensures Do(c, Switch).strays == c.strays[1..] + if c.holder.Some? then [c.holder.value] else []
  {
    hide ClaimCell, HolderStep, Landed;
  }

  // Nobody who takes itself for the holder is forgotten.
  lemma SwitchKeepsAll(c: Cell)
    requires c.strays != []
    ensures multiset(Do(c, Switch).strays) + Holders(Do(c, Switch)) == multiset(c.strays) + Holders(c)
  {
    hide Do;
    SwitchMoves(c);
    FirstAndRest(c.strays);
  }

  lemma EndsCount(c: Cell, e: Step)
    requires e.Bounce? || e.Requeue? || e.Land?
    ensures Do(c, e).ended == c.ended + if c.row.status == Sent && Do(c, e).row.status != Sent then 1 else 0
  {
  }

  function Holders(c: Cell): multiset<Holder> { if c.holder.Some? then multiset{c.holder.value} else multiset{} }

  ghost predicate CanAll(c: Cell, steps: seq<Step>, clock: int, grace: int)
    decreases |steps|
  {
    steps == [] || (Can(c, steps[0], clock, grace) && CanAll(Do(c, steps[0]), steps[1..], clock, grace))
  }

  function Times(steps: seq<Step>, what: Step -> bool): nat
    decreases |steps|
  {
    if steps == [] then 0 else (if what(steps[0]) then 1 else 0) + Times(steps[1..], what)
  }

  /** Over any steps on a job: acceptances and SENT records are as many as were taken, and without a reset
      so are the hand-offs to the provider. */
  lemma {:induction false} CountersCount(c: Cell, steps: seq<Step>, clock: int, grace: int)
    requires CanAll(c, steps, clock, grace)
    ensures var u := DoAll(c, steps);
            && u.accepts == c.accepts + Times(steps, (e: Step) => e.Accept?)
            && u.sents == c.sents + Times(steps, (e: Step) => e.Record?)
            && ((forall e | e in steps :: !Resets(e)) ==>
                  u.handoffs == c.handoffs + Times(steps, (e: Step) => e.HandOff?))
    decreases |steps|
  {
    hide Do, Can;
    if steps != [] {
      StepCounts(c, steps[0], clock, grace);
      CountersCount(Do(c, steps[0]), steps[1..], clock, grace);
      assert steps[0] in steps && forall e | e in steps[1..] :: e in steps;
    }
  }
}
