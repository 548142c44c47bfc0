/** Data-deletion requests and their executions: who may move which, and what holds of them in every
    reachable state. Each call reads, checks and writes by id; a call is one step where what it has
    checked still holds when it writes. */
module DeletionLifecycle {
  import opened Options

  type UserId = int
  type RequestId = int
  type ExecutionId = int
  type BackupId = int

  datatype RequestStatus = Pending | Approved | Denied | Cancelled

  datatype Request = Request(requester: UserId, status: RequestStatus, reviewer: Option<UserId>)

  datatype ExecutionStatus =
    | DryRunPending | DryRunStarted | DryRunCompleted | BackupVerified | Started | Completed | Failed

  datatype Execution = Execution(requestId: RequestId, status: ExecutionStatus, dryRun: bool, backup: Option<BackupId>)

  datatype Backup = Backup(completed: bool, deleted: bool)

  datatype Records = Records(requests: map<RequestId, Request>, executions: map<ExecutionId, Execution>,
                             backups: map<BackupId, Backup>)

  datatype Answer = Done | NotFound | Refused

  function Allowed(from: RequestStatus): set<RequestStatus> {
    if from == Pending then {Approved, Denied, Cancelled} else {}
  }

  predicate CanTransition(from: RequestStatus, to: RequestStatus) { to == from || to in Allowed(from) }

  /** What the transition table allows: nothing but to stay, once a request is decided. */
  lemma OnlyPendingMoves(a: RequestStatus, b: RequestStatus, c: RequestStatus)
    ensures CanTransition(a, b) <==> a == b || a == Pending
    ensures CanTransition(a, b) && CanTransition(b, c) ==> CanTransition(a, c)
    ensures CanTransition(a, b) && CanTransition(b, a) ==> a == b
  {
  }

  predicate HasPending(r: Records, user: UserId) {
    exists id | id in r.requests :: r.requests[id].requester == user && r.requests[id].status == Pending
  }

  predicate ExecutionOf(r: Records, x: ExecutionId, id: RequestId) {
    x in r.executions && r.executions[x].requestId == id
  }

  predicate IsApproved(r: Records, id: RequestId) { id in r.requests && r.requests[id].status == Approved }

  predicate Usable(r: Records, b: BackupId) { b in r.backups && r.backups[b].completed && !r.backups[b].deleted }

  predicate MayStart(r: Records, x: ExecutionId) {
    && x in r.executions && r.executions[x].status == BackupVerified && IsApproved(r, r.executions[x].requestId)
    && r.executions[x].backup.Some? && Usable(r, r.executions[x].backup.value)
  }

  function WithRequest(r: Records, id: RequestId, req: Request): Records { r.(requests := r.requests[id := req]) }

  function WithExecution(r: Records, x: ExecutionId, e: Execution): Records { r.(executions := r.executions[x := e]) }

  // A call is a step of the runs below: it is made exactly if it is allowed and the step is enabled, and
  // does what the step does.
  ghost predicate Follows(before: Records, e: Event, allowed: bool, made: bool, after: Records) {
    (made <==> allowed && Enabled(before, e)) && after == if made then After(before, e) else before
  }

  class DataDeletion {
    var records: Records

    constructor ()
      ensures records == Records(map[], map[], map[])
    {
      records := Records(map[], map[], map[]);
    }

    /** createRequest: `confirmed` is whether the phrase was typed, `known` whether the user exists. */
    method CreateRequest(id: RequestId, user: UserId, confirmed: bool, actor: Option<UserId>, known: bool)
      returns (a: Answer)
      requires id !in records.requests
      modifies this
      ensures a == if !confirmed || (actor.Some? && actor.value != user) || HasPending(old(records), user) then Refused
                   else if !known then NotFound else Done
      ensures records == if a == Done then WithRequest(old(records), id, Request(user, Pending, None)) else old(records)
      ensures Follows(old(records), Create(id, user), confirmed && known && (actor.None? || actor.value == user),
                      a == Done, records)
    {
      if !confirmed { return Refused; }
      if actor.Some? && actor.value != user { return Refused; }
      if HasPending(records, user) { return Refused; }
      if !known { return NotFound; }
      records := records.(requests := records.requests[id := Request(user, Pending, None)]);
      a := Done;
    }

    method CancelOwnRequest(id: RequestId, user: UserId) returns (a: Answer)
      modifies this
      ensures a == if id !in old(records).requests || old(records).requests[id].requester != user then NotFound
                   else if old(records).requests[id].status == Pending then Done else Refused
      ensures records == if a == Done then WithRequest(old(records), id, Request(user, Cancelled, Some(user)))
                         else old(records)
      ensures Follows(old(records), Cancel(id, user), true, a == Done, records)
    {
      if id !in records.requests || records.requests[id].requester != user { return NotFound; }
      var current := records.requests[id].status;
      if current != Pending { return Refused; }
      if !CanTransition(current, Cancelled) { return Refused; }
      records := WithRequest(records, id, records.requests[id].(status := Cancelled, reviewer := Some(user)));
      a := Done;
    }

    method PerformReview(id: RequestId, target: RequestStatus, actor: Option<UserId>) returns (a: Answer)
      requires target == Approved || target == Denied
      modifies this
      ensures a == if id !in old(records).requests then NotFound
                   else if old(records).requests[id].status == Pending && actor.Some? then Done else Refused
      ensures records == if a == Done then
                           WithRequest(old(records), id, Request(old(records).requests[id].requester, target, actor))
                         else old(records)
      ensures actor.Some? ==>
                Follows(old(records), Review(id, target == Approved, actor.value), true, a == Done, records)
    {
      if id !in records.requests { return NotFound; }
      var current := records.requests[id].status;
      if current != Pending { return Refused; }
      if !CanTransition(current, target) { return Refused; }
      if actor.None? { return Refused; }
      records := WithRequest(records, id, records.requests[id].(status := target, reviewer := actor));
      a := Done;
    }

    /** `existing` is what the look-up by request finds, `newId` the id of a new execution. */
    method GetOrCreateExecution(id: RequestId, existing: Option<ExecutionId>, newId: ExecutionId)
      returns (a: Answer, x: ExecutionId)
      requires newId !in records.executions
      requires existing.Some? ==> ExecutionOf(records, existing.value, id)
      requires existing.None? ==> forall y :: !ExecutionOf(records, y, id)
      modifies this
      ensures a == if id !in old(records).requests then NotFound
                   else if IsApproved(old(records), id) then Done else Refused
      ensures a == Done ==> ExecutionOf(records, x, id)
      ensures records == if a == Done && existing.None? then
                           WithExecution(old(records), newId, Execution(id, DryRunPending, true, None))
                         else old(records)
      ensures existing.None? ==> Follows(old(records), Plan(newId, id), true, a == Done, records)
    {
      x := newId;
      if id !in records.requests { return NotFound, x; }
      if records.requests[id].status != Approved { return Refused, x; }
      if existing.Some? { return Done, existing.value; }
      records := WithExecution(records, newId, Execution(id, DryRunPending, true, None));
      a := Done;
    }

    method StartDryRun(x: ExecutionId) returns (a: Answer)
      modifies this
      ensures a == if x !in old(records).executions then NotFound
                   else if old(records).executions[x].status == DryRunPending then Done else Refused
      ensures records == if a == Done then
                           WithExecution(old(records), x,
                                         old(records).executions[x].(status := DryRunCompleted, dryRun := true))
                         else old(records)
      ensures a == Done <==> Enabled(old(records), BeginDryRun(x))
      ensures a == Done ==> records == After(After(old(records), BeginDryRun(x)), EndDryRun(x))
    {
      if x !in records.executions { return NotFound; }
      if records.executions[x].status != DryRunPending { return Refused; }
      records := WithExecution(records, x, records.executions[x].(status := DryRunStarted, dryRun := true));
      records := WithExecution(records, x, records.executions[x].(status := DryRunCompleted));
      assert records.executions
          == old(records).executions[x := old(records).executions[x].(status := DryRunCompleted, dryRun := true)];
      a := Done;
    }

    method VerifyBackup(x: ExecutionId, b: BackupId) returns (a: Answer)
      modifies this
      ensures a == if x !in old(records).executions then NotFound else if Usable(old(records), b) then Done else Refused
      ensures records == if a == Done then
                           WithExecution(old(records), x,
                                         old(records).executions[x].(status := BackupVerified, backup := Some(b)))
                         else old(records)
      ensures Follows(old(records), Verify(x, b), true, a == Done, records)
    {
      if x !in records.executions { return NotFound; }
      if b !in records.backups { return Refused; }
      if !records.backups[b].completed || records.backups[b].deleted { return Refused; }
      records := WithExecution(records, x, records.executions[x].(status := BackupVerified, backup := Some(b)));
      a := Done;
    }

    /** The checks of attemptExecution and the write that starts the deletion. */
    method BeginExecution(x: ExecutionId, enabled: bool, manual: bool, staging: bool) returns (a: Answer)
      modifies this
      ensures a == if x !in old(records).executions then NotFound
                   else if enabled && (manual || staging) && MayStart(old(records), x) then Done else Refused
      ensures records == if a == Done then
                           WithExecution(old(records), x,
                                         old(records).executions[x].(status := Started, dryRun := false))
                         else old(records)
      ensures Follows(old(records), Begin(x), enabled && (manual || staging), a == Done, records)
    {
      if x !in records.executions { return NotFound; }
      if !enabled { return Refused; }
      if !manual && !staging { return Refused; }
      var e := records.executions[x];
      if e.status == Completed || e.status == Started { return Refused; }
      if !IsApproved(records, e.requestId) { return Refused; }
      if e.backup.None? || e.status != BackupVerified { return Refused; }
      if e.backup.value !in records.backups || !records.backups[e.backup.value].completed
          || records.backups[e.backup.value].deleted {
        return Refused;
      }
      records := WithExecution(records, x, e.(status := Started, dryRun := false));
      a := Done;
    }

    /** The end of attemptExecution: the execution cannot start again before it is verified again, and
        nothing else changes. */
    method FinishExecution(x: ExecutionId, success: bool)
      requires x in records.executions
      modifies this
      ensures records == old(records).(executions := records.executions)
              && records.executions.Keys == old(records.executions.Keys)
      ensures forall y | y in records.executions && y != x :: records.executions[y] == old(records).executions[y]
      ensures !MayStart(records, x) && (records.executions[x].status == Completed <==> success)
      ensures records.executions[x] == old(records).executions[x].(status := records.executions[x].status)
      ensures records.executions[x].status in {Completed, Failed}
      ensures Follows(old(records), Finish(x, success), true, true, records)
    {
      records := WithExecution(records, x, records.executions[x].(status := if success then Completed else Failed));
    }
  }

  // ---------- every reachable state ----------

  // The writes of the calls. A dry run and an execution end by id alone, whenever they end.
  datatype Event =
    | Create(id: RequestId, user: UserId)
    | Cancel(id: RequestId, user: UserId)
    | Review(id: RequestId, approve: bool, actor: UserId)
    | Plan(x: ExecutionId, id: RequestId)
    | BeginDryRun(x: ExecutionId)
    | EndDryRun(x: ExecutionId)
    | Verify(x: ExecutionId, b: BackupId)
    | Begin(x: ExecutionId)
    | Finish(x: ExecutionId, success: bool)
    | SetBackup(b: BackupId, backup: Backup)

  ghost predicate Enabled(r: Records, e: Event) {
    match e
    case Create(id, user) => id !in r.requests && !HasPending(r, user)
    case Cancel(id, user) => id in r.requests && r.requests[id].requester == user && r.requests[id].status == Pending
    case Review(id, _, _) => id in r.requests && r.requests[id].status == Pending
    case Plan(x, id) => x !in r.executions && IsApproved(r, id) && forall y :: !ExecutionOf(r, y, id)
    case BeginDryRun(x) => x in r.executions && r.executions[x].status == DryRunPending
    case EndDryRun(x) => x in r.executions
    case Verify(x, b) => x in r.executions && Usable(r, b)
    case Begin(x) => MayStart(r, x)
    case Finish(x, _) => x in r.executions
    case SetBackup(_, _) => true
  }

  function Reviewed(req: Request, approve: bool, actor: UserId): Request {
    req.(status := if approve then Approved else Denied, reviewer := Some(actor))
  }

  function After(r: Records, e: Event): Records {
    match e
    case Create(id, user) => WithRequest(r, id, Request(user, Pending, None))
    case Cancel(id, user) =>
      if id in r.requests then WithRequest(r, id, r.requests[id].(status := Cancelled, reviewer := Some(user))) else r
    case Review(id, approve, actor) =>
      if id in r.requests then WithRequest(r, id, Reviewed(r.requests[id], approve, actor)) else r
    case Plan(x, id) => WithExecution(r, x, Execution(id, DryRunPending, true, None))
    case BeginDryRun(x) =>
      if x in r.executions then WithExecution(r, x, r.executions[x].(status := DryRunStarted, dryRun := true)) else r
    case EndDryRun(x) =>
      if x in r.executions then WithExecution(r, x, r.executions[x].(status := DryRunCompleted)) else r
    case Verify(x, b) =>
      if x in r.executions then WithExecution(r, x, r.executions[x].(status := BackupVerified, backup := Some(b)))
      else r
    case Begin(x) =>
      if x in r.executions then WithExecution(r, x, r.executions[x].(status := Started, dryRun := false)) else r
    case Finish(x, success) =>
      if x in r.executions then WithExecution(r, x, r.executions[x].(status := if success then Completed else Failed))
      else r
    case SetBackup(b, backup) => r.(backups := r.backups[b := backup])
  }

  ghost predicate ExecutionsApproved(r: Records) {
    && (forall x | x in r.executions :: IsApproved(r, r.executions[x].requestId))
    && (forall x, y | x in r.executions && y in r.executions
        && r.executions[x].requestId == r.executions[y].requestId :: x == y)
  }

  ghost predicate OnePending(r: Records) {
    forall i, j | i in r.requests && j in r.requests && r.requests[i].requester == r.requests[j].requester
                  && r.requests[i].status == Pending && r.requests[j].status == Pending :: i == j
  }

  ghost predicate RecordsOk(r: Records) { ExecutionsApproved(r) && OnePending(r) }

  /** Every step keeps the executions on approved requests, one each, and one pending request a user. */
  lemma StepKeepsRecords(r: Records, e: Event)
    requires RecordsOk(r) && Enabled(r, e)
    ensures RecordsOk(After(r, e))
  {
    assert e.Plan? ==> forall y | y in r.executions :: !ExecutionOf(r, y, e.id);
  }

  /** A decided request stays as decided. */
  lemma DecisionStands(r: Records, e: Event, id: RequestId)
    requires Enabled(r, e) && id in r.requests && r.requests[id].status != Pending
    ensures id in After(r, e).requests && After(r, e).requests[id] == r.requests[id]
  {
  }

  /** A deletion starts only from a verified backup that is there at that step, for an approved request. */
  lemma StartsAreSafe(r: Records, e: Event, x: ExecutionId)
    requires RecordsOk(r) && Enabled(r, e) && x in After(r, e).executions && After(r, e).executions[x].status == Started
    requires x !in r.executions || r.executions[x].status != Started
    ensures e == Begin(x) && MayStart(r, x)
  {
  }

  ghost predicate ValidRun(r: Records, events: seq<Event>)
    decreases |events|
  {
    events == [] || (Enabled(r, events[0]) && ValidRun(After(r, events[0]), events[1..]))
  }

  function AfterAll(r: Records, events: seq<Event>): Records
    decreases |events|
  {
    if events == [] then r else AfterAll(After(r, events[0]), events[1..])
  }

  /** Over every run: executions belong to approved requests, and what was decided stays decided; so a
      request with an execution stays approved for good. */
  lemma {:induction false} RunKeepsRecords(r: Records, events: seq<Event>, id: RequestId)
    requires RecordsOk(r) && ValidRun(r, events)
    ensures RecordsOk(AfterAll(r, events))
    ensures id in r.requests && r.requests[id].status != Pending ==>
              id in AfterAll(r, events).requests && AfterAll(r, events).requests[id] == r.requests[id]
    decreases |events|
  {
    hide RecordsOk, Enabled, After;
    if events != [] {
      StepKeepsRecords(r, events[0]);
      if id in r.requests && r.requests[id].status != Pending { DecisionStands(r, events[0], id); }
      RunKeepsRecords(After(r, events[0]), events[1..], id);
    }
  }

  // ---------- calls whose write comes later than their check ----------

  /** What is promised of every step: the records are in order, and what was decided stays decided. */
  ghost predicate Promised(r: Records, later: Records) {
    && RecordsOk(later)
    && forall id | id in r.requests && r.requests[id].status != Pending ::
         id in later.requests && later.requests[id].status == r.requests[id].status
  }

  // The writes by id that follow a check of the records. A dry run and an execution end by id, unchecked.
  predicate Late(e: Event) { !e.EndDryRun? && !e.Finish? && !e.SetBackup? }

  // What a late write finds if it does no harm. A second execution of a request is refused by the
  // database, which keeps one execution a request.
  ghost predicate Timely(r: Records, e: Event) {
    match e
    case Create(_, user) => !HasPending(r, user)
    case Cancel(id, _) => id in r.requests ==> r.requests[id].status in {Pending, Cancelled}
    case Review(id, approve, _) =>
      id in r.requests ==> r.requests[id].status in {Pending, if approve then Approved else Denied}
    case Plan(_, id) => IsApproved(r, id) || exists y :: ExecutionOf(r, y, id)
    case _ => true
  }

  ghost function Land(r: Records, e: Event): Records {
    if e.Plan? && exists y :: ExecutionOf(r, y, e.id) then r else After(r, e)
  }

  /** A review that lands late does no harm exactly if the request is still pending or already holds
      the status it writes. */
  lemma LateReviewExact(r: Records, id: RequestId, approve: bool, actor: UserId)
    requires RecordsOk(r) && id in r.requests
    ensures Promised(r, After(r, Review(id, approve, actor))) <==>
            r.requests[id].status == Pending || r.requests[id].status == if approve then Approved else Denied
  {
    var late := After(r, Review(id, approve, actor));
    if r.requests[id].status != Approved {
      forall x | x in late.executions ensures IsApproved(late, late.executions[x].requestId) {
        assert IsApproved(r, r.executions[x].requestId);
      }
    }
  }

  /** So with the owner's cancellation; and even where it undoes a decision, it leaves the records in
      order unless the request has an execution. */
  lemma LateCancelExact(r: Records, id: RequestId, user: UserId)
    requires RecordsOk(r) && id in r.requests
    ensures Promised(r, After(r, Cancel(id, user))) <==>
              r.requests[id].status == Pending || r.requests[id].status == Cancelled
    ensures RecordsOk(After(r, Cancel(id, user))) <==> forall x :: !ExecutionOf(r, x, id)
  {
    var late := After(r, Cancel(id, user));
    if x :| ExecutionOf(r, x, id) {
      assert !IsApproved(late, late.executions[x].requestId);
    } else {
      forall x | x in late.executions ensures IsApproved(late, late.executions[x].requestId) {
        assert !ExecutionOf(r, x, id) && IsApproved(r, r.executions[x].requestId);
      }
    }
  }

  /** And with a new request: it may land late exactly if the user has no pending one by then. */
  lemma LateCreateExact(r: Records, id: RequestId, user: UserId)
    requires RecordsOk(r) && id !in r.requests
    ensures Promised(r, After(r, Create(id, user))) <==> !HasPending(r, user)
  {
    var late := After(r, Create(id, user));
    if other :| other in r.requests && r.requests[other].requester == user && r.requests[other].status == Pending {
      assert other in late.requests && id in late.requests && other != id;
    }
  }

  lemma LatePlanExact(r: Records, x: ExecutionId, id: RequestId)
    requires RecordsOk(r) && x !in r.executions
    ensures Promised(r, Land(r, Plan(x, id))) <==> Timely(r, Plan(x, id))
  {
    var late := Land(r, Plan(x, id));
    if !Timely(r, Plan(x, id)) {
      assert late.executions[x].requestId == id && !IsApproved(late, id);
    } else if y :| ExecutionOf(r, y, id) {
      Unmoved(r);
    } else {
      forall y | y in late.executions
        ensures IsApproved(late, late.executions[y].requestId) && (late.executions[y].requestId == id ==> y == x) {
        if y != x { assert !ExecutionOf(r, y, id) && IsApproved(r, r.executions[y].requestId); }
      }
    }
  }

  /** A late write keeps what is promised exactly if it is timely. */
  lemma LateExact(r: Records, e: Event)
    requires RecordsOk(r) && Late(e) && FreshIds(r, e)
    ensures Promised(r, Land(r, e)) <==> Timely(r, e)
  {
    hide RecordsOk, Promised;
    match e
    case Create(id, user) => LateCreateExact(r, id, user);
    case Cancel(id, user) => if id in r.requests { LateCancelExact(r, id, user); } else { NothingMoves(r, e); }
    case Review(id, approve, actor) =>
      if id in r.requests {
        LateReviewExact(r, id, approve, actor);
      } else {
        NothingMoves(r, e);
      }
    case Plan(x, id) => LatePlanExact(r, x, id);
    case _ => NothingMoves(r, e);
  }

  ghost predicate FreshIds(r: Records, e: Event) {
    (e.Create? ==> e.id !in r.requests) && (e.Plan? ==> e.x !in r.executions)
  }

  // Steps that leave the requests alone, and which execution belongs to which request.
  lemma NothingMoves(r: Records, e: Event)
    requires RecordsOk(r) && !e.Create? && !e.Plan?
    requires (e.Cancel? || e.Review?) ==> e.id !in r.requests
    ensures Promised(r, After(r, e))
  {
    var u := After(r, e);
    assert forall x | x in u.executions :: x in r.executions && u.executions[x].requestId == r.executions[x].requestId;
    assert u.requests == r.requests;
  }

  // ---------- all runs of calls taken apart ----------

  /** The records and the calls that have made their check and not yet written. */
  datatype Service = Service(records: Records, calls: multiset<Event>)

  datatype Move =
    | Check(call: Event)
    | Write(call: Event)
    | Other(event: Event)

  ghost predicate CanMove(s: Service, m: Move) {
    match m
    case Check(call) => Late(call) && Enabled(s.records, call)
    case Write(call) => Late(call) && call in s.calls && FreshIds(s.records, call)
    case Other(event) => !Late(event) && Enabled(s.records, event)
  }

  ghost function AfterMove(s: Service, m: Move): Service {
    match m
    case Check(call) => s.(calls := s.calls + multiset{call})
    case Write(call) => Service(Land(s.records, call), s.calls - multiset{call})
    case Other(event) => s.(records := After(s.records, event))
  }

  ghost predicate ValidMoves(s: Service, moves: seq<Move>)
    decreases |moves|
  {
    moves == [] || (CanMove(s, moves[0]) && ValidMoves(AfterMove(s, moves[0]), moves[1..]))
  }

  ghost predicate AllTimely(s: Service, moves: seq<Move>)
    decreases |moves|
  {
    moves == []
        || ((moves[0].Write? ==> Timely(s.records, moves[0].call)) && AllTimely(AfterMove(s, moves[0]), moves[1..]))
  }

  ghost predicate AllPromised(s: Service, moves: seq<Move>)
    decreases |moves|
  {
    moves == []
        || (Promised(s.records, AfterMove(s, moves[0]).records) && AllPromised(AfterMove(s, moves[0]), moves[1..]))
  }

  lemma MoveExact(s: Service, m: Move)
    requires RecordsOk(s.records) && CanMove(s, m)
    ensures Promised(s.records, AfterMove(s, m).records) <==> (m.Write? ==> Timely(s.records, m.call))
  {
    hide RecordsOk, Promised, Timely, Land, After;
    match m
    case Check(_) => Unmoved(s.records);
    case Write(call) => LateExact(s.records, call);
    case Other(event) => NothingMoves(s.records, event);
  }

  lemma Unmoved(r: Records)
    requires RecordsOk(r)
    ensures Promised(r, r)
  {
  }

  /** Over every run of requests, cancellations, reviews, plans, dry runs, verifications and starts, each
      checked at one time and written at a later one: the records stay in order and every decision
      stands, at every step, exactly if every write is timely. */
  lemma {:induction false} RunsExact(s: Service, moves: seq<Move>)
    requires RecordsOk(s.records) && ValidMoves(s, moves)
    ensures AllPromised(s, moves) <==> AllTimely(s, moves)
    decreases |moves|
  {
    hide RecordsOk, Promised, Timely, CanMove, AfterMove;
    if moves != [] {
      MoveExact(s, moves[0]);
      if Promised(s.records, AfterMove(s, moves[0]).records) {
        PromisedIsOk(s.records, AfterMove(s, moves[0]).records);
        RunsExact(AfterMove(s, moves[0]), moves[1..]);
      }
    }
  }

  lemma PromisedIsOk(r: Records, later: Records)
    requires Promised(r, later)
    ensures RecordsOk(later)
  {
  }

  // ---------- runs that break the promise ----------

  const NOTHING: Records := Records(map[], map[], map[])

  lemma FourMoves(s: Service, a: Move, b: Move, c: Move, d: Move)
    ensures var s1 := AfterMove(s, a); var s2 := AfterMove(s1, b); var s3 := AfterMove(s2, c);
            CanMove(s, a) && CanMove(s1, b) && CanMove(s2, c) && CanMove(s3, d) ==> ValidMoves(s, [a, b, c, d])
  {
    hide CanMove, AfterMove;
    var s1 := AfterMove(s, a);
    var s2 := AfterMove(s1, b);
    var s3 := AfterMove(s2, c);
    assert [d][1..] == [] && [c, d][1..] == [d] && [b, c, d][1..] == [c, d] && [a, b, c, d][1..] == [b, c, d];
    assert ValidMoves(AfterMove(s3, d), []);
    assert CanMove(s3, d) ==> ValidMoves(s3, [d]);
    assert CanMove(s2, c) && CanMove(s3, d) ==> ValidMoves(s2, [c, d]);
    assert CanMove(s1, b) && CanMove(s2, c) && CanMove(s3, d) ==> ValidMoves(s1, [b, c, d]);
  }

  /** Two admins read the same pending request, one approves it, then the other's denial is written: the
      approval is undone. Or the owner cancels and a late approval is written over it. */
  lemma OverlappingReviewsBreak(id: RequestId, user: UserId, admin: UserId)
    ensures var s := Service(After(NOTHING, Create(id, user)), multiset{});
            var yes, no, cancel := Review(id, true, admin), Review(id, false, admin), Cancel(id, user);
            && ValidMoves(s, [Check(yes), Check(no), Write(yes), Write(no)])
            && !AllPromised(s, [Check(yes), Check(no), Write(yes), Write(no)])
            && ValidMoves(s, [Check(cancel), Check(yes), Write(cancel), Write(yes)])
            && !AllPromised(s, [Check(cancel), Check(yes), Write(cancel), Write(yes)])
  {
    var s := Service(After(NOTHING, Create(id, user)), multiset{});
    var yes, no, cancel := Review(id, true, admin), Review(id, false, admin), Cancel(id, user);
    UndoneDecision(s, id, yes, no);
    UndoneDecision(s, id, cancel, yes);
  }

  // Of two calls that decide one pending request differently, the second to write undoes the first.
  lemma UndoneDecision(s: Service, id: RequestId, first: Event, second: Event)
    requires RecordsOk(s.records) && id in s.records.requests && s.records.requests[id].status == Pending
    requires (first.Review? || first.Cancel?) && (second.Review? || second.Cancel?) && first.id == id && second.id == id
    requires Enabled(s.records, first) && Enabled(s.records, second) && first != second
    requires Land(s.records, first).requests[id].status != Land(s.records, second).requests[id].status
    ensures ValidMoves(s, [Check(first), Check(second), Write(first), Write(second)])
    ensures !AllPromised(s, [Check(first), Check(second), Write(first), Write(second)])
  {
    hide RecordsOk, Promised;
    var a, b, c, d := Check(first), Check(second), Write(first), Write(second);
    FourMoves(s, a, b, c, d);
    var s1 := AfterMove(s, a);
    var s2 := AfterMove(s1, b);
    var s3 := AfterMove(s2, c);
    assert !Timely(s3.records, second);
    RunsExact(s, [a, b, c, d]);
    assert [d][1..] == [] && [c, d][1..] == [d] && [b, c, d][1..] == [c, d] && [a, b, c, d][1..] == [b, c, d];
    assert !AllTimely(s3, [d]);
    assert !AllTimely(s2, [c, d]);
    assert !AllTimely(s1, [b, c, d]);
  }

  /** Two requests of one user that overlap are both written, and both are pending. */
  lemma OverlappingRequestsBreak(i: RequestId, j: RequestId, user: UserId)
    requires i != j
    ensures var s := Service(NOTHING, multiset{});
            var first, second := Create(i, user), Create(j, user);
            && ValidMoves(s, [Check(first), Check(second), Write(first), Write(second)])
            && !AllPromised(s, [Check(first), Check(second), Write(first), Write(second)])
  {
    hide RecordsOk, Promised;
    var s := Service(NOTHING, multiset{});
    var first, second := Create(i, user), Create(j, user);
    var a, b, c, d := Check(first), Check(second), Write(first), Write(second);
    FourMoves(s, a, b, c, d);
    var s1 := AfterMove(s, a);
    var s2 := AfterMove(s1, b);
    var s3 := AfterMove(s2, c);
    assert s3.records.requests[i] == Request(user, Pending, None);
    assert HasPending(s3.records, user);
    NothingIsOk();
    RunsExact(s, [a, b, c, d]);
    assert [d][1..] == [] && [c, d][1..] == [d] && [b, c, d][1..] == [c, d] && [a, b, c, d][1..] == [b, c, d];
    assert !AllTimely(s3, [d]);
    assert !AllTimely(s2, [c, d]);
    assert !AllTimely(s1, [b, c, d]);
  }

  lemma NothingIsOk()
    ensures RecordsOk(NOTHING)
  {
  }

  // ---------- starts that are written late ----------

  // What moves write.
  function Written(moves: seq<Move>): seq<Event>
    decreases |moves|
  {
    if moves == [] then []
    else
      match moves[0]
      case Check(_) => Written(moves[1..])
      case Write(call) => [call] + Written(moves[1..])
      case Other(event) => [event] + Written(moves[1..])
  }

  // The backup on which x is verified when the events are over, if it is verified then.
  function VerifiedOn(events: seq<Event>, x: ExecutionId, b: Option<BackupId>): Option<BackupId>
    decreases |events|
  {
    if events == [] then b
    else
      var e := events[0];
      VerifiedOn(events[1..], x,
                 if e.Verify? && e.x == x then Some(e.b)
                 else if (e.BeginDryRun? || e.EndDryRun? || e.Begin? || e.Finish?) && e.x == x then None
                 else b)
  }

  // Whether a backup is there when they are over: as it was last set, or as it was before.
  predicate UsableAfter(events: seq<Event>, b: BackupId, before: bool)
    decreases |events|
  {
    if events == [] then before
    else
      var e := events[0];
      UsableAfter(events[1..], b, if e.SetBackup? && e.b == b then e.backup.completed && !e.backup.deleted else before)
  }

  // Whether a request is approved then: as it was last decided, or as it was before.
  predicate ApprovedAfter(events: seq<Event>, id: RequestId, before: bool)
    decreases |events|
  {
    if events == [] then before
    else
      var e := events[0];
      ApprovedAfter(events[1..], id,
                    if e.Review? && e.id == id then e.approve else if e.Cancel? && e.id == id then false else before)
  }

  ghost predicate ValidOn(r: Records, x: ExecutionId) {
    x in r.executions && r.executions[x].requestId in r.requests
  }

  ghost function VerifiedNow(r: Records, x: ExecutionId): Option<BackupId> {
    if x in r.executions && r.executions[x].status == BackupVerified then r.executions[x].backup else None
  }

  lemma MoveOnExecution(s: Service, m: Move, x: ExecutionId)
    requires CanMove(s, m) && ValidOn(s.records, x)
    ensures var r, u, w := s.records, AfterMove(s, m).records, Written([m]);
            && ValidOn(u, x) && u.executions[x].requestId == r.executions[x].requestId
            && VerifiedNow(u, x) == VerifiedOn(w, x, VerifiedNow(r, x))
            && IsApproved(u, r.executions[x].requestId)
               == ApprovedAfter(w, r.executions[x].requestId, IsApproved(r, r.executions[x].requestId))
  {
    assert [m][1..] == [];
    if !m.Check? {
      var e := if m.Write? then m.call else m.event;
      assert Written([m]) == [e] && [e][1..] == [];
    }
  }

  lemma MoveOnBackup(s: Service, m: Move, b: BackupId)
    requires CanMove(s, m)
    ensures Usable(AfterMove(s, m).records, b) == UsableAfter(Written([m]), b, Usable(s.records, b))
  {
    assert [m][1..] == [];
    if !m.Check? {
      var e := if m.Write? then m.call else m.event;
      assert Written([m]) == [e] && [e][1..] == [];
    }
  }

  // The moves one by one.
  lemma WrittenOne(moves: seq<Move>, x: ExecutionId, v: Option<BackupId>, b: BackupId, id: RequestId, before: bool)
    requires moves != []
    ensures VerifiedOn(Written(moves), x, v)
            == VerifiedOn(Written(moves[1..]), x, VerifiedOn(Written([moves[0]]), x, v))
    ensures UsableAfter(Written(moves), b, before)
            == UsableAfter(Written(moves[1..]), b, UsableAfter(Written([moves[0]]), b, before))
    ensures ApprovedAfter(Written(moves), id, before)
            == ApprovedAfter(Written(moves[1..]), id, ApprovedAfter(Written([moves[0]]), id, before))
  {
    var m := moves[0];
    assert [m][1..] == [];
    if !m.Check? {
      var e := if m.Write? then m.call else m.event;
      assert Written([m]) == [e] && [e][1..] == [] && Written(moves)[1..] == Written(moves[1..]);
    }
  }

  ghost function AfterMoves(s: Service, moves: seq<Move>): Service
    decreases |moves|
  {
    if moves == [] then s else AfterMoves(AfterMove(s, moves[0]), moves[1..])
  }

  lemma {:induction false} ExecutionByMoves(s: Service, moves: seq<Move>, x: ExecutionId)
    requires ValidMoves(s, moves) && ValidOn(s.records, x)
    ensures var r, u, w := s.records, AfterMoves(s, moves).records, Written(moves);
            && ValidOn(u, x) && u.executions[x].requestId == r.executions[x].requestId
            && VerifiedNow(u, x) == VerifiedOn(w, x, VerifiedNow(r, x))
            && IsApproved(u, r.executions[x].requestId)
               == ApprovedAfter(w, r.executions[x].requestId, IsApproved(r, r.executions[x].requestId))
    decreases |moves|
  {
    hide CanMove, AfterMove, VerifiedNow, IsApproved, VerifiedOn, ApprovedAfter, Written;
    if moves == [] {
      NothingWritten();
    } else {
      var id := s.records.executions[x].requestId;
      MoveOnExecution(s, moves[0], x);
      ExecutionByMoves(AfterMove(s, moves[0]), moves[1..], x);
      WrittenOne(moves, x, VerifiedNow(s.records, x), 0, id, IsApproved(s.records, id));
    }
  }

  lemma NothingWritten()
    ensures Written([]) == []
    ensures forall x: ExecutionId, b :: VerifiedOn([], x, b) == b
    ensures forall id: RequestId, before :: ApprovedAfter([], id, before) == before
    ensures forall b: BackupId, before :: UsableAfter([], b, before) == before
  {
  }

  lemma {:induction false} BackupByMoves(s: Service, moves: seq<Move>, b: BackupId)
    requires ValidMoves(s, moves)
    ensures Usable(AfterMoves(s, moves).records, b) == UsableAfter(Written(moves), b, Usable(s.records, b))
    decreases |moves|
  {
    hide CanMove, AfterMove, Usable, UsableAfter, Written;
    if moves == [] {
      NothingWritten();
    } else {
      MoveOnBackup(s, moves[0], b);
      BackupByMoves(AfterMove(s, moves[0]), moves[1..], b);
      WrittenOne(moves, 0, None, b, 0, Usable(s.records, b));
    }
  }

  /** A start is written after any other calls, their checks and writes apart. It then starts from
      BACKUP_VERIFIED, on an approved request and with a backup that is there, exactly if the last writes
      that concern the execution left it verified on that backup, the last that decided the request
      approved it, and the last that concern the backup left that usable. */
  lemma LateStartExact(s: Service, moves: seq<Move>, x: ExecutionId)
    requires MayStart(s.records, x) && ValidMoves(s, moves)
    ensures MayStart(AfterMoves(s, moves).records, x) <==>
            var e, w := s.records.executions[x], Written(moves);
            var b := VerifiedOn(w, x, e.backup);
            && ApprovedAfter(w, e.requestId, true)
            && b.Some? && UsableAfter(w, b.value, Usable(s.records, b.value))
  {
    hide ValidMoves, AfterMoves, VerifiedOn, UsableAfter, ApprovedAfter, Usable, Written;
    ExecutionByMoves(s, moves, x);
    var b := VerifiedOn(Written(moves), x, s.records.executions[x].backup);
    if b.Some? { BackupByMoves(s, moves, b.value); }
  }

  /** If the backup is deleted between the check and the write, the execution starts without one. */
  lemma LateStartLosesBackup(r: Records, x: ExecutionId)
    requires MayStart(r, x)
    ensures var b := r.executions[x].backup.value;
            var s, gone := Service(r, multiset{}), SetBackup(b, Backup(true, true));
            var u := AfterMoves(s, [Check(Begin(x)), Other(gone), Write(Begin(x))]).records;
            && ValidMoves(s, [Check(Begin(x)), Other(gone), Write(Begin(x))])
            && x in u.executions && u.executions[x].status == Started && u.executions[x].backup == Some(b)
            && !Usable(u, b)
  {
    var b := r.executions[x].backup.value;
    var s, gone := Service(r, multiset{}), SetBackup(b, Backup(true, true));
    var m1, m2, m3 := Check(Begin(x)), Other(gone), Write(Begin(x));
    assert [m1, m2, m3][1..] == [m2, m3] && [m2, m3][1..] == [m3] && [m3][1..] == [];
    var s1 := AfterMove(s, m1);
    var s2 := AfterMove(s1, m2);
    assert CanMove(s, m1) && CanMove(s1, m2) && CanMove(s2, m3);
    assert ValidMoves(AfterMove(s2, m3), []) && AfterMoves(AfterMove(s2, m3), []) == AfterMove(s2, m3);
    assert ValidMoves(s2, [m3]) && AfterMoves(s2, [m3]) == AfterMove(s2, m3);
    assert ValidMoves(s1, [m2, m3]);
  }

  /** An execution that is not verified, so one that has started or finished, is not started before it is
      verified (again). */
  lemma {:induction false} StartsNeedVerification(r: Records, events: seq<Event>, x: ExecutionId)
    requires ValidRun(r, events) && x in r.executions && r.executions[x].status != BackupVerified
    requires forall e | e in events && e.Verify? :: e.x != x
    ensures forall e | e in events && e.Begin? :: e.x != x
    decreases |events|
  {
    hide After;
    if events != [] {
      var e := events[0];
      assert events == [e] + events[1..];
      UnverifiedStays(r, e, x);
      StartsNeedVerification(After(r, e), events[1..], x);
    }
  }

  lemma UnverifiedStays(r: Records, e: Event, x: ExecutionId)
    requires Enabled(r, e) && x in r.executions && r.executions[x].status != BackupVerified && !(e.Verify? && e.x == x)
    ensures x in After(r, e).executions && After(r, e).executions[x].status != BackupVerified
  {
  }
}
