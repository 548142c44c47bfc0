/** The mail queue's table: what each statement of the worker, the admin operations, createJob and
    the webhook does to a job, and those operations on the table. */
module MailQueue {
  import opened Options

  type JobId = int
  type WorkerId = int
  type Provider = int

  datatype Kind = Transactional | Bulk
  datatype Status = Queued | Processing | Sent | Failed | Dead | Cancelled | Paused
  datatype Lock = Lock(at: int, worker: WorkerId)

  datatype Job = Job(kind: Kind, status: Status, attempts: int, maxAttempts: int, scheduledAt: Option<int>,
                     lock: Option<Lock>, provider: Provider, messageId: Option<int>, sentAt: Option<int>,
                     retryable: Option<bool>, archivedAt: Option<int>, batchKey: Option<int>,
                     campaignId: Option<int>, key: Option<int>, until: Option<int>)
  type Jobs = map<JobId, Job>

  // What createJob is asked for.
  datatype Request = Request(kind: Kind, maxAttempts: int, scheduledAt: Option<int>, provider: Provider,
                             batchKey: Option<int>, campaignId: Option<int>, key: Option<int>, until: Option<int>)

  // What becomes of a claimed job.
  datatype Outcome =
    | Suppressed
    | RenderFailed
    | LimitReached
    | Delivered(provider: Provider, messageId: int, at: int)
    | Errored(retryable: bool, delays: seq<int>, now: int)

  // What recovery remembers of a row it found stale.
  datatype StaleRow = StaleRow(id: JobId, lockAt: int, attempts: int, maxAttempts: int)

  predicate Waiting(j: Job) { j.status == Queued || j.status == Failed }

  predicate Due(j: Job, kind: Kind, now: int) {
    && j.archivedAt.None? && j.kind == kind && Waiting(j)
    && (j.scheduledAt.None? || j.scheduledAt.value <= now)
  }

  predicate Claimable(j: Job, kind: Kind, now: int, attempts: int, maxAttempts: int) {
    Due(j, kind, now) && j.attempts == attempts && j.maxAttempts == maxAttempts
  }

  function AsClaimed(j: Job, lockAt: int, worker: WorkerId, provider: Provider): Job {
    j.(status := Processing, provider := provider, lock := Some(Lock(lockAt, worker)), attempts := j.attempts + 1)
  }

  function AsSuppressed(j: Job): Job {
    j.(status := Cancelled, retryable := None, lock := None)
  }

  function AsUnrenderable(j: Job): Job {
    j.(status := Dead, retryable := Some(false), lock := None, scheduledAt := None)
  }

  function Max(a: int, b: int): int { if a < b then b else a }

  function Min(a: int, b: int): int { if a < b then a else b }

  function AsPaused(j: Job): Job {
    j.(status := Paused, retryable := Some(true), lock := None, scheduledAt := None)
  }

  // pauseJobForLimit: the attempt is refunded from what the worker had read.
  function AsLimited(j: Job, attempts: int): Job {
    AsPaused(j).(attempts := Max(0, attempts - 1))
  }

  function AsSent(j: Job, provider: Provider, messageId: int, at: int): Job {
    j.(status := Sent, provider := provider, messageId := Some(messageId), sentAt := Some(at),
       retryable := None, lock := None, scheduledAt := None)
  }

  function AsFailed(j: Job, attempts: int, maxAttempts: int, retryable: bool, retryAt: int): Job {
    var again := retryable && attempts < maxAttempts;
    j.(status := if again then Failed else Dead, retryable := Some(retryable), lock := None,
       scheduledAt := if again then Some(retryAt) else None)
  }

  function RetryDelay(delays: seq<int>, attempt: int): int
    requires delays != []
  {
    delays[Max(0, Min(attempt - 1, |delays| - 1))]
  }

  predicate Pending(j: Job, batchKey: Option<int>, campaignId: Option<int>) {
    && j.archivedAt.None? && j.kind == Bulk && Waiting(j)
    && if batchKey.Some? then j.batchKey == batchKey else campaignId.Some? && j.campaignId == campaignId
  }

  // The rows recovery looks for; a heartbeat that is missing or old shortens the wait.
  predicate Stale(j: Job, now: int, staleMs: nat, warningMs: nat, heartbeatAt: Option<int>, heartbeatStaleMs: nat) {
    && j.archivedAt.None? && j.status == Processing && j.lock.Some?
    && (|| j.lock.value.at < now - staleMs
        || ((heartbeatAt.None? || heartbeatStaleMs < now - heartbeatAt.value) && j.lock.value.at < now - warningMs))
  }

  predicate HoldsLock(j: Job, lockAt: int) {
    j.status == Processing && j.lock.Some? && j.lock.value.at == lockAt
  }

  function AsRecovered(j: Job, attempts: int, maxAttempts: int): Job {
    j.(status := if attempts < maxAttempts then Queued else Dead, retryable := Some(true),
       lock := None, scheduledAt := None)
  }

  // `known` says that the failure reason on the row is on the list of retryable reasons.
  predicate RetryAllowed(j: Job, force: bool, known: bool) {
    || j.status == Failed || j.status == Paused
    || (j.status == Dead && (force || (if j.retryable.Some? then j.retryable.value else known)))
  }

  function AsRetried(j: Job, provider: Provider): Job {
    j.(status := Queued, scheduledAt := None, attempts := 0, retryable := None, messageId := None,
       lock := None, sentAt := None, archivedAt := None, provider := provider)
  }

  predicate Resumable(j: Job, campaignId: Option<int>, batchKey: Option<int>) {
    && j.status == Paused
    && (batchKey.Some? ==> j.batchKey == batchKey) && (campaignId.Some? ==> j.campaignId == campaignId)
  }

  function AsResumed(j: Job, provider: Provider): Job {
    j.(status := Queued, scheduledAt := None, attempts := 0, lock := None, retryable := None,
       archivedAt := None, provider := provider)
  }

  function AsCancelled(j: Job): Job {
    j.(status := Cancelled, scheduledAt := None, retryable := None, lock := None)
  }

  predicate Archivable(j: Job) { j.status == Sent || j.status == Dead || j.status == Cancelled }

  function AsArchived(j: Job, at: int): Job {
    if j.archivedAt.Some? then j else j.(archivedAt := Some(at))
  }

  predicate WindowOpen(j: Job, now: int) { j.until.Some? && now < j.until.value }

  // createJob answers with the job that holds the key instead of queueing it anew.
  predicate Reused(j: Job, now: int) {
    || j.status == Processing
    || (WindowOpen(j, now) && j.status != Dead && j.status != Cancelled)
  }

  function AsCreated(r: Request): Job {
    Job(r.kind, Queued, 0, r.maxAttempts, r.scheduledAt, None, r.provider, None, None, None, None,
        r.batchKey, r.campaignId, r.key, r.until)
  }

  function AsRefreshed(j: Job, r: Request): Job {
    AsCreated(r).(key := j.key)
  }

  function AsBounced(j: Job): Job { j.(status := Dead) }

  function Concluded(j: Job, attempts: int, maxAttempts: int, o: Outcome): Job
    requires o.Errored? ==> o.delays != []
  {
    match o
    case Suppressed => AsSuppressed(j)
    case RenderFailed => AsUnrenderable(j)
    case LimitReached => AsLimited(j, attempts)
    case Delivered(provider, messageId, at) => AsSent(j, provider, messageId, at)
    case Errored(retryable, delays, now) =>
      AsFailed(j, attempts, maxAttempts, retryable, now + RetryDelay(delays, attempts))
  }

  // ---------- statements over the table ----------

  function PausePending(t: Jobs, except: JobId, batchKey: Option<int>, campaignId: Option<int>): Jobs {
    map id | id in t :: if id != except && Pending(t[id], batchKey, campaignId) then AsPaused(t[id]) else t[id]
  }

  function ResumeAll(t: Jobs, campaignId: Option<int>, batchKey: Option<int>, provider: Provider): Jobs {
    map id | id in t :: if Resumable(t[id], campaignId, batchKey) then AsResumed(t[id], provider) else t[id]
  }

  function ArchiveAll(t: Jobs, old_: set<JobId>, at: int): Jobs {
    map id | id in t ::
      if id in old_ && t[id].archivedAt.None? && Archivable(t[id]) then AsArchived(t[id], at) else t[id]
  }

  function BounceAll(t: Jobs, messageId: int): Jobs {
    map id | id in t :: if t[id].messageId == Some(messageId) then AsBounced(t[id]) else t[id]
  }

  function RecoverOne(t: Jobs, r: StaleRow): Jobs {
    if r.id in t && HoldsLock(t[r.id], r.lockAt) then t[r.id := AsRecovered(t[r.id], r.attempts, r.maxAttempts)] else t
  }

  function RecoverAll(t: Jobs, rows: seq<StaleRow>): Jobs
    decreases |rows|
  {
    if rows == [] then t else RecoverOne(RecoverAll(t, rows[..|rows| - 1]), rows[|rows| - 1])
  }

  // The worker's own outcome, and the pause of the siblings that a limit brings with it.
  function Conclude(t: Jobs, id: JobId, o: Outcome): Jobs
    requires id in t && (o.Errored? ==> o.delays != [])
  {
    var j := t[id];
    var u := t[id := Concluded(j, j.attempts, j.maxAttempts, o)];
    if o.LimitReached? && j.kind == Bulk then PausePending(u, id, j.batchKey, j.campaignId) else u
  }

  // A row as the due query returned it.
  datatype Candidate = Candidate(id: JobId, attempts: int, maxAttempts: int)

  // The rows a pass works on: those with attempts left, up to the worker's share.
  function WithBudget(rows: seq<Candidate>): (r: seq<Candidate>)
    ensures |r| <= |rows| && forall c | c in r :: c in rows && c.attempts < c.maxAttempts
  {
    if rows == [] then []
    else (if rows[0].attempts < rows[0].maxAttempts then [rows[0]] else []) + WithBudget(rows[1..])
  }

  function Batch(rows: seq<Candidate>, take: nat): (r: seq<Candidate>)
    ensures |r| <= take && forall c | c in r :: c in rows && c.attempts < c.maxAttempts
  {
    var usable := WithBudget(rows);
    if |usable| <= take then usable else usable[..take]
  }

  // One worker's turn for a candidate when nobody else acts meanwhile.
  function Turn(t: Jobs, row: Candidate, kind: Kind, now: int, provider: Provider, worker: WorkerId, lockAt: int,
                o: Outcome): Jobs
    requires o.Errored? ==> o.delays != []
  {
    if row.id in t && Claimable(t[row.id], kind, now, row.attempts, row.maxAttempts)
    then Conclude(t[row.id := AsClaimed(t[row.id], lockAt, worker, provider)], row.id, o)
    else t
  }

  function Pass(t: Jobs, rows: seq<Candidate>, kind: Kind, now: int, provider: Provider, worker: WorkerId,
                lockAt: int, outcomes: seq<Outcome>): Jobs
    requires |outcomes| == |rows| && forall o | o in outcomes :: o.Errored? ==> o.delays != []
    decreases |rows|
  {
    if rows == [] then t
    else
      var k := |rows| - 1;
      Turn(Pass(t, rows[..k], kind, now, provider, worker, lockAt, outcomes[..k]), rows[k], kind, now, provider, worker,
           lockAt, outcomes[k])
  }

  class MailWorker {
    var jobs: Jobs

    constructor (initial: Jobs)
      ensures jobs == initial
    {
      jobs := initial;
    }

    /** The compare-and-set of processQueueType. */
    method Claim(id: JobId, kind: Kind, now: int, attempts: int, maxAttempts: int, provider: Provider, worker: WorkerId,
                 lockAt: int)
      returns (claimed: bool)
      modifies this
      ensures claimed == (id in old(jobs) && Claimable(old(jobs)[id], kind, now, attempts, maxAttempts))
      ensures jobs == if claimed then old(jobs)[id := AsClaimed(old(jobs)[id], lockAt, worker, provider)] else old(jobs)
    {
      claimed := id in jobs && Claimable(jobs[id], kind, now, attempts, maxAttempts);
      if claimed {
        jobs := jobs[id :=
                     jobs[id].(status := Processing, provider := provider, lock := Some(Lock(lockAt, worker)),
                               attempts := attempts + 1)];
      }
    }

    method PausePendingBulkJobs(except: JobId, batchKey: Option<int>, campaignId: Option<int>)
      modifies this
      ensures jobs == PausePending(old(jobs), except, batchKey, campaignId)
    {
      var t := jobs;
      if batchKey.Some? || campaignId.Some? {
        jobs := map id | id in t ::
            if id != except && Pending(t[id], batchKey, campaignId) then AsPaused(t[id]) else t[id];
      }
      assert jobs == PausePending(t, except, batchKey, campaignId);
    }

    method ProcessClaimedJob(id: JobId, o: Outcome)
      requires id in jobs && (o.Errored? ==> o.delays != [])
      modifies this
      ensures jobs == Conclude(old(jobs), id, o)
      ensures o.Errored? && 1 <= old(jobs)[id].attempts ==>
                var j := old(jobs)[id];
                jobs[id].scheduledAt ==
                  if !o.retryable || j.maxAttempts <= j.attempts then None
                  else Some(o.now + o.delays[(if j.attempts <= |o.delays| then j.attempts else |o.delays|) - 1])
    {
      var job := jobs[id];
      match o {
        case Suppressed =>
          jobs := jobs[id := job.(status := Cancelled, retryable := None, lock := None)];
        case RenderFailed =>
          jobs := jobs[id := job.(status := Dead, retryable := Some(false), lock := None, scheduledAt := None)];
        case LimitReached =>
          jobs := jobs[id := AsLimited(job, job.attempts)];
          if job.kind == Bulk { PausePendingBulkJobs(id, job.batchKey, job.campaignId); }
        case Delivered(provider, messageId, at) =>
          jobs := jobs[id := AsSent(job, provider, messageId, at)];
        case Errored(retryable, delays, now) =>
          var shouldRetry := retryable && job.attempts < job.maxAttempts;
          var delay := RetryDelay(delays, job.attempts);
          jobs := jobs[id :=
                       job.(status := if shouldRetry then Failed else Dead, retryable := Some(retryable), lock := None,
                                  scheduledAt := if shouldRetry then Some(now + delay) else None)];
      }
    }

    /** The loop over the rows that the due query found. */
    method ProcessQueueType(found: seq<Candidate>, take: nat, kind: Kind, now: int, provider: Provider,
                            worker: WorkerId, lockAt: int, outcomes: seq<Outcome>)
      returns (processed: nat)
      requires |outcomes| == |Batch(found, take)| && forall o | o in outcomes :: o.Errored? ==> o.delays != []
      modifies this
      ensures jobs == Pass(old(jobs), Batch(found, take), kind, now, provider, worker, lockAt, outcomes)
              && processed <= take
    {
      var rows := Batch(found, take);
      var i := 0;
      processed := 0;
      while i < |rows|
        invariant 0 <= i <= |rows| && processed <= i
        invariant jobs == Pass(old(jobs), rows[..i], kind, now, provider, worker, lockAt, outcomes[..i])
      {
        var claimed := Claim(rows[i].id, kind, now, rows[i].attempts, rows[i].maxAttempts, provider, worker, lockAt);
        if claimed {
          ProcessClaimedJob(rows[i].id, outcomes[i]);
          processed := processed + 1;
        }
        assert rows[..i + 1][..i] == rows[..i] && outcomes[..i + 1][..i] == outcomes[..i];
        i := i + 1;
      }
      assert rows[..i] == rows && outcomes[..i] == outcomes;
    }

    method RecoverStaleLocks(rows: seq<StaleRow>)
      modifies this
      ensures jobs == RecoverAll(old(jobs), rows)
    {
      var i := 0;
      while i < |rows|
        invariant 0 <= i <= |rows|
        invariant jobs == RecoverAll(old(jobs), rows[..i])
      {
        var row := rows[i];
        if row.id in jobs && HoldsLock(jobs[row.id], row.lockAt) {
          var recoverable := row.attempts < row.maxAttempts;
          jobs := jobs[row.id := jobs[row.id].(status := if recoverable then Queued else Dead, retryable := Some(true),
                                               lock := None, scheduledAt := None)];
        }
        assert rows[..i + 1][..i] == rows[..i];
        i := i + 1;
      }
      assert rows[..i] == rows;
    }
  }

  datatype Refusal = NotFound | NotAllowed
  datatype Reply = Done | Refused(why: Refusal)

  class MailService {
    var jobs: Jobs

    constructor (initial: Jobs)
      ensures jobs == initial
    {
      jobs := initial;
    }

    method RetryJob(id: JobId, force: bool, known: bool, provider: Provider) returns (reply: Reply)
      modifies this
      ensures reply == if id !in old(jobs) then Refused(NotFound)
                       else if RetryAllowed(old(jobs)[id], force, known) then Done else Refused(NotAllowed)
      ensures jobs == if reply.Done? then old(jobs)[id := AsRetried(old(jobs)[id], provider)] else old(jobs)
    {
      if id !in jobs { return Refused(NotFound); }
      var job := jobs[id];
      if job.status == Sent || job.status == Cancelled { return Refused(NotAllowed); }
      if job.status != Failed && job.status != Dead && job.status != Paused { return Refused(NotAllowed); }
      if job.status == Dead && !force && !(if job.retryable.Some? then job.retryable.value else known) {
        return Refused(NotAllowed);
      }
      jobs := jobs[id := AsRetried(job, provider)];
      reply := Done;
    }

    // Each paused job of the selection is due at once with no attempt spent; the others stay as they
    // are, and the answer counts those that changed.
    method ResumePausedJobs(campaignId: Option<int>, batchKey: Option<int>, provider: Provider) returns (resumed: nat)
      modifies this
      ensures jobs == ResumeAll(old(jobs), campaignId, batchKey, provider)
      ensures forall id, now | id in jobs && jobs[id] != old(jobs)[id] ::
                jobs[id].attempts == 0 && Due(jobs[id], jobs[id].kind, now)
      ensures forall id | id in jobs :: !Resumable(jobs[id], campaignId, batchKey)
      ensures resumed == |set id | id in old(jobs) && jobs[id] != old(jobs)[id]|
    {
      var t := jobs;
      resumed := |set id | id in t && Resumable(t[id], campaignId, batchKey)|;
      jobs := map id | id in t :: if Resumable(t[id], campaignId, batchKey) then AsResumed(t[id], provider) else t[id];
      assert jobs == ResumeAll(t, campaignId, batchKey, provider);
      assert (set id | id in t && Resumable(t[id], campaignId, batchKey)) == set id | id in t && jobs[id] != t[id];
    }

    method CancelJob(id: JobId) returns (reply: Reply)
      modifies this
      ensures reply == if id !in old(jobs) then Refused(NotFound)
                       else if old(jobs)[id].status == Queued then Done else Refused(NotAllowed)
      ensures jobs == if reply.Done? then old(jobs)[id := AsCancelled(old(jobs)[id])] else old(jobs)
    {
      if id !in jobs { return Refused(NotFound); }
      if jobs[id].status != Queued { return Refused(NotAllowed); }
      jobs := jobs[id := AsCancelled(jobs[id])];
      reply := Done;
    }

    method ArchiveJob(id: JobId, at: int) returns (reply: Reply)
      modifies this
      ensures reply == if id !in old(jobs) then Refused(NotFound)
                       else if Archivable(old(jobs)[id]) then Done else Refused(NotAllowed)
      ensures jobs == if reply.Done? then old(jobs)[id := AsArchived(old(jobs)[id], at)] else old(jobs)
    {
      if id !in jobs { return Refused(NotFound); }
      if !Archivable(jobs[id]) { return Refused(NotAllowed); }
      if jobs[id].archivedAt.None? { jobs := jobs[id := jobs[id].(archivedAt := Some(at))]; }
      reply := Done;
    }

    // `old_` are the rows that the time condition selects. Nothing that is due changes, no settled row
    // among the old ones stays unarchived, and the answer counts those that changed.
    method ArchiveOldJobs(old_: set<JobId>, at: int) returns (archived: nat)
      modifies this
      ensures jobs == ArchiveAll(old(jobs), old_, at)
      ensures forall id, kind, now | id in jobs :: Due(jobs[id], kind, now) <==> Due(old(jobs)[id], kind, now)
      ensures forall id | id in jobs && id in old_ && Archivable(jobs[id]) :: jobs[id].archivedAt.Some?
      ensures archived == |set id | id in old(jobs) && jobs[id] != old(jobs)[id]|
    {
      var t := jobs;
      archived := |set id | id in t && id in old_ && t[id].archivedAt.None? && Archivable(t[id])|;
      jobs := map id | id in t ::
        if id in old_ && t[id].archivedAt.None? && Archivable(t[id]) then AsArchived(t[id], at) else t[id];
      assert jobs == ArchiveAll(t, old_, at);
      assert (set id | id in t && id in old_ && t[id].archivedAt.None? && Archivable(t[id]))
          == set id | id in t && jobs[id] != t[id];
    }

    /** createJob; `existing` is what the look-up by key finds, `newId` the id of a new row. */
    method CreateJob(existing: Option<JobId>, newId: JobId, r: Request, now: int) returns (id: JobId)
      requires newId !in jobs
      requires existing.Some? ==> r.key.Some? && existing.value in jobs && jobs[existing.value].key == r.key
      requires existing.None? && r.key.Some? ==> forall i | i in jobs :: jobs[i].key != r.key
      modifies this
      ensures id == if existing.Some? then existing.value else newId
      ensures jobs == if existing.None? then old(jobs)[id := AsCreated(r)]
                      else if Reused(old(jobs)[id], now) then old(jobs)
                      else old(jobs)[id := AsRefreshed(old(jobs)[id], r)]
    {
      if existing.Some? {
        id := existing.value;
        var job := jobs[id];
        var isReusableWindow := job.until.Some? && now < job.until.value
          && (job.status == Queued || job.status == Processing || job.status == Failed || job.status == Paused
              || job.status == Sent);
        if isReusableWindow || job.status == Processing { return; }
        jobs := jobs[id := AsRefreshed(job, r)];
      } else {
        id := newId;
        jobs := jobs[newId := AsCreated(r)];
      }
    }
  }

  // ---------- the provider's webhook ----------

  datatype Notice = Notice(eventId: int, bounced: bool, messageId: Option<int>, email: Option<int>)

  // The jobs, the recorded provider events, and the addresses that get no bulk mail.
  datatype Mailbox = Mailbox(jobs: Jobs, seen: set<int>, suppressed: set<int>)

  // `bounced` covers complaints as well; the other events leave jobs as they are.
  function Handle(m: Mailbox, n: Notice): Mailbox {
    if n.eventId in m.seen then m
    else if !n.bounced then m.(seen := m.seen + {n.eventId})
    else Mailbox(if n.messageId.Some? then BounceAll(m.jobs, n.messageId.value) else m.jobs,
                 m.seen + {n.eventId},
                 if n.email.Some? then m.suppressed + {n.email.value} else m.suppressed)
  }

  function HandleAll(m: Mailbox, notices: seq<Notice>): Mailbox
    decreases |notices|
  {
    if notices == [] then m else Handle(HandleAll(m, notices[..|notices| - 1]), notices[|notices| - 1])
  }

  class MailWebhookService {
    var mailbox: Mailbox

    constructor (initial: Mailbox)
      ensures mailbox == initial
    {
      mailbox := initial;
    }

    method HandleResendWebhook(n: Notice) returns (duplicate: bool)
      modifies this
      ensures mailbox == Handle(old(mailbox), n) && duplicate == (n.eventId in old(mailbox).seen)
    {
      if n.eventId in mailbox.seen { return true; }
      mailbox := mailbox.(seen := mailbox.seen + {n.eventId});
      if n.bounced {
        if n.email.Some? { mailbox := mailbox.(suppressed := mailbox.suppressed + {n.email.value}); }
        if n.messageId.Some? { mailbox := mailbox.(jobs := BounceAll(mailbox.jobs, n.messageId.value)); }
      }
      duplicate := false;
    }
  }
}
