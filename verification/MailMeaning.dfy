/** What each statement of the mail queue means for whoever looks at the rows afterwards: which rows it
    touches, when the worker's queries find them again, and what an admin or createJob can still do. */
module MailMeaning {
  import opened Options
  import opened MailQueue

  // Only these parts of a row change.
  predicate SameRequest(j: Job, u: Job) {
    && u.kind == j.kind && u.maxAttempts == j.maxAttempts && u.batchKey == j.batchKey && u.campaignId == j.campaignId
    && u.key == j.key && u.until == j.until
  }

  // No query for due jobs finds it, now or later.
  ghost predicate NeverDue(j: Job) { forall kind, now :: !Due(j, kind, now) }

  // ---------- the worker ----------

  /** A claim wins exactly if the job is queued or failed, not archived, of the kind, its time has come, and
      nobody has claimed it since it was read. Then the worker holds it, one attempt has gone, and no
      other worker finds or claims it. */
  lemma ClaimMeans(j: Job, kind: Kind, now: int, attempts: int, maxAttempts: int, lockAt: int, worker: WorkerId,
                   provider: Provider)
    ensures Claimable(j, kind, now, attempts, maxAttempts) <==>
            && j.status in {Queued, Failed} && j.archivedAt.None? && j.kind == kind
            && !(j.scheduledAt.Some? && now < j.scheduledAt.value)
            && j.attempts == attempts && j.maxAttempts == maxAttempts
    ensures var u := AsClaimed(j, lockAt, worker, provider);
            && u.status == Processing && u.attempts - j.attempts == 1 && u.provider == provider && NeverDue(u)
            && u.lock == Some(Lock(lockAt, worker)) && HoldsLock(u, lockAt) && !HoldsLock(u, lockAt + 1)
            && SameRequest(j, u) && u.messageId == j.messageId && u.sentAt == j.sentAt && u.archivedAt == j.archivedAt
            && u.scheduledAt == j.scheduledAt && u.retryable == j.retryable
  {
  }

  // What every outcome has in common: the lock is gone, and the job asks for the same.
  ghost predicate Settles(j: Job, u: Job) { SameRequest(j, u) && u.lock.None? && u.archivedAt == j.archivedAt }

  /** A suppressed job is cancelled: it is not sent, not even by a forced retry, until createJob asks for its
      key again. */
  lemma SuppressionMeans(j: Job, now: int)
    ensures var u := AsSuppressed(j);
            && Settles(j, u) && NeverDue(u) && u.attempts == j.attempts && !RetryAllowed(u, true, true)
            && !Reused(u, now) && Archivable(u) && u.status != Sent && u.status == Cancelled && u.retryable.None?
  {
  }

  /** A job that cannot be rendered is dead; only a forced retry queues it again. */
  lemma UnrenderableMeans(j: Job, now: int, known: bool)
    ensures var u := AsUnrenderable(j);
            && Settles(j, u) && NeverDue(u) && u.attempts == j.attempts && !RetryAllowed(u, false, known)
            && RetryAllowed(u, true, known) && !Reused(u, now) && Archivable(u) && u.status != Sent
            && u.scheduledAt.None?
  {
  }

  /** A job that meets a send limit waits for an admin with the attempt given back, to be resumed alone or
      with its batch and its campaign; createJob leaves it alone while its window is open. */
  lemma LimitMeans(j: Job, now: int)
    ensures var u := AsLimited(j, j.attempts);
            && Settles(j, u) && NeverDue(u) && (1 <= j.attempts ==> u.attempts == j.attempts - 1) && 0 <= u.attempts
            && Resumable(u, None, None) && Resumable(u, j.campaignId, j.batchKey) && RetryAllowed(u, false, false)
            && (Reused(u, now) <==> u.until.Some? && now < u.until.value) && !Archivable(u)
            && u.retryable == Some(true) && u.scheduledAt.None?
  {
  }

  /** A delivered job is SENT, with the message, the provider and the time of the delivery, and is neither
      sent nor retried again. */
  lemma DeliveryMeans(j: Job, provider: Provider, messageId: int, at: int, now: int)
    ensures var u := AsSent(j, provider, messageId, at);
            && Settles(j, u) && NeverDue(u) && u.attempts == j.attempts && !RetryAllowed(u, true, true)
            && u.status == Sent && u.sentAt == Some(at) && u.messageId == Some(messageId) && u.provider == provider
            && (Reused(u, now) <==> u.until.Some? && now < u.until.value) && Archivable(u)
            && u.retryable.None? && u.scheduledAt.None?
  {
  }

  /** A failed delivery is retried by the worker if it may be, and else by an admin: without force exactly if
      the error was retryable. */
  lemma FailureMeans(j: Job, attempts: int, maxAttempts: int, retryable: bool, retryAt: int, now: int, known: bool)
    ensures var u := AsFailed(j, attempts, maxAttempts, retryable, retryAt);
            && Settles(j, u) && u.attempts == j.attempts && u.status in {Failed, Dead}
            && (u.status == Failed <==> retryable && attempts < maxAttempts)
            && (RetryAllowed(u, false, known) <==> retryable) && RetryAllowed(u, true, known)
            && (u.status == Dead ==> NeverDue(u) && Archivable(u) && !Reused(u, now) && u.scheduledAt.None?)
  {
  }

  /** The outcome that is written is that of the turn, judged by the attempts the job has had; the other jobs
      stay as they are, except that with a bulk job that meets a limit its waiting siblings are paused. */
  lemma ConcludeMeans(t: Jobs, id: JobId, o: Outcome, other: JobId)
    requires id in t && (o.Errored? ==> o.delays != [] && 1 <= t[id].attempts)
    ensures var j, u := t[id], Conclude(t, id, o);
            && u.Keys == t.Keys
            && (o.Suppressed? ==> u[id] == AsSuppressed(j)) && (o.RenderFailed? ==> u[id] == AsUnrenderable(j))
            && (o.LimitReached? ==> u[id] == AsLimited(j, j.attempts))
            && (o.Delivered? ==> u[id] == AsSent(j, o.provider, o.messageId, o.at))
            && (o.Errored? ==> exists retryAt :: u[id] == AsFailed(j, j.attempts, j.maxAttempts, o.retryable, retryAt))
            && (other in t && other != id ==>
                  u[other] == if o.LimitReached? && j.kind == Bulk && IsSibling(t[other], j.batchKey, j.campaignId)
                              then AsPaused(t[other]) else t[other])
  {
  }

  // A bulk job that waits, of the same batch, or where there is no batch of the same campaign.
  predicate IsSibling(j: Job, batchKey: Option<int>, campaignId: Option<int>) {
    && j.kind == Bulk && j.status in {Queued, Failed} && j.archivedAt.None?
    && (batchKey.Some? ==> j.batchKey == batchKey)
    && (batchKey.None? ==> campaignId.Some? && j.campaignId == campaignId)
  }

  /** A paused job keeps its attempts, is found by no query for due jobs, and is due again at once when an
      admin resumes or retries it. */
  lemma PauseMeans(j: Job)
    ensures var u := AsPaused(j);
            && Settles(j, u) && NeverDue(u) && u.attempts == j.attempts && u.status == Paused
            && u.messageId == j.messageId
            && Resumable(u, None, None) && RetryAllowed(u, false, false) && !Archivable(u)
            && u.retryable == Some(true) && u.scheduledAt.None?
  {
  }

  // How many of the rows have attempts left.
  function Usable(rows: seq<Candidate>): nat {
    if rows == [] then 0 else (if rows[0].attempts < rows[0].maxAttempts then 1 else 0) + Usable(rows[1..])
  }

  lemma {:induction false} BudgetExact(rows: seq<Candidate>, i: nat)
    requires i < |rows| && rows[i].attempts < rows[i].maxAttempts
    ensures Usable(rows[..i]) < |WithBudget(rows)| == Usable(rows)
    ensures WithBudget(rows)[Usable(rows[..i])] == rows[i]
    decreases i
  {
    BudgetSize(rows);
    if i == 0 {
      assert rows[..0] == [];
    } else {
      BudgetExact(rows[1..], i - 1);
      assert rows[..i][1..] == rows[1..][..i - 1] && rows[..i][0] == rows[0];
    }
  }

  lemma {:induction false} BudgetSize(rows: seq<Candidate>)
    ensures |WithBudget(rows)| == Usable(rows)
  {
    if rows != [] { BudgetSize(rows[1..]); }
  }

  /** A pass works on the found rows that have attempts left, in the order they were found, up to the worker's
      share: the i-th row is worked on, and in its place, exactly if fewer such rows come before it. */
  lemma BatchExact(rows: seq<Candidate>, take: nat, i: nat)
    requires i < |rows| && rows[i].attempts < rows[i].maxAttempts
    ensures |Batch(rows, take)| == if Usable(rows) < take then Usable(rows) else take
    ensures Usable(rows[..i]) < take ==>
              Usable(rows[..i]) < |Batch(rows, take)| && Batch(rows, take)[Usable(rows[..i])] == rows[i]
  {
    BudgetExact(rows, i);
  }

  // ---------- stale locks ----------

  /** A lock is stale exactly if its job is processed and unarchived, and it is older than the wait: while
      the worker's heartbeat is missing or old, the shorter one of the two. */
  lemma StaleExactly(j: Job, lockAt: int, now: int, staleMs: nat, warningMs: nat, heartbeatAt: Option<int>,
                     heartbeatStaleMs: nat)
    requires HoldsLock(j, lockAt)
    ensures Stale(j, now, staleMs, warningMs, heartbeatAt, heartbeatStaleMs) <==>
            j.archivedAt.None? &&
            (if (heartbeatAt.Some? && now - heartbeatAt.value <= heartbeatStaleMs) || staleMs < warningMs
             then staleMs else warningMs) < now - lockAt
  {
  }

  lemma OnlyProcessedIsStale(j: Job, now: int, staleMs: nat, warningMs: nat, heartbeatAt: Option<int>,
                             heartbeatStaleMs: nat)
    ensures Stale(j, now, staleMs, warningMs, heartbeatAt, heartbeatStaleMs) ==>
              j.status == Processing && j.lock.Some? && HoldsLock(j, j.lock.value.at)
  {
  }

  // The stale rows found, each once.
  ghost predicate EachOnce(rows: seq<StaleRow>) {
    forall i, k | 0 <= i < k < |rows| :: rows[i].id != rows[k].id
  }

  // What recovery leaves of a row.
  ghost predicate RecoveredAs(j: Job, u: Job, left: bool) {
    && SameRequest(j, u) && u.attempts == j.attempts && u.lock.None? && u.scheduledAt.None? && u.retryable == Some(true)
    && u.archivedAt == j.archivedAt && u.messageId == j.messageId && u.provider == j.provider && u.sentAt == j.sentAt
    && u.status == if left then Queued else Dead
  }

  /** Recovery changes exactly the found rows that are still under the lock that was read. With attempts left
      as they were read such a job is queued, due at once; without, it is dead, to be retried without force. */
  lemma {:induction false} RecoversExactly(t: Jobs, rows: seq<StaleRow>, id: JobId)
    requires id in t && EachOnce(rows)
    ensures var u := RecoverAll(t, rows);
            && u.Keys == t.Keys
            && (forall r | r in rows && r.id == id ::
                  if HoldsLock(t[id], r.lockAt) then RecoveredAs(t[id], u[id], r.attempts < r.maxAttempts)
                  else u[id] == t[id])
            && ((forall r | r in rows :: r.id != id) ==> u[id] == t[id])
    decreases |rows|
  {
    if rows != [] {
      var k := |rows| - 1;
      var before, last := rows[..k], rows[k];
      assert rows == before + [last];
      assert forall r :: r in rows <==> r in before || r == last;
      RecoversExactly(t, before, id);
      if last.id == id {
        forall r | r in before ensures r.id != id { var i :| 0 <= i < k && before[i] == r; assert rows[i] == r; }
      }
    }
  }

  lemma RecoveredIsDue(j: Job, attempts: int, maxAttempts: int, kind: Kind, now: int, known: bool)
    ensures var u := AsRecovered(j, attempts, maxAttempts);
            && (Due(u, kind, now) <==> attempts < maxAttempts && j.archivedAt.None? && kind == j.kind)
            && (maxAttempts <= attempts ==> RetryAllowed(u, false, known))
  {
  }

  // ---------- admins ----------

  /** What may be retried: failed and paused jobs, and dead ones with force, or if the failure was retryable,
      which the row says, or else the list of reasons. */
  lemma RetryAllowedExactly(j: Job, force: bool, known: bool)
    ensures RetryAllowed(j, force, known) <==>
            || j.status in {Failed, Paused}
            || (j.status == Dead && (force || j.retryable == Some(true) || (j.retryable.None? && known)))
  {
  }

  // As if nothing had been tried: due at once, no attempt spent, no message, not archived.
  ghost predicate Anew(j: Job, u: Job, provider: Provider) {
    && u.status == Queued && u.attempts == 0 && u.provider == provider && u.lock.None? && u.archivedAt.None?
    && u.retryable.None? && forall now :: Due(u, u.kind, now)
  }

  lemma RetryMeans(j: Job, provider: Provider)
    ensures var u := AsRetried(j, provider);
            Anew(j, u, provider) && SameRequest(j, u) && u.messageId.None? && u.sentAt.None?
  {
  }

  lemma ResumeMeans(j: Job, provider: Provider, campaignId: Option<int>, batchKey: Option<int>)
    ensures Anew(j, AsResumed(j, provider), provider) && SameRequest(j, AsResumed(j, provider))
    ensures AsResumed(j, provider).messageId == j.messageId
    ensures Resumable(j, campaignId, batchKey) <==>
            && j.status == Paused
            && (batchKey.None? || batchKey == j.batchKey) && (campaignId.None? || campaignId == j.campaignId)
  {
  }

  /** A cancelled job is never sent or retried; only createJob queues it again, at once. */
  lemma CancelMeans(j: Job, now: int)
    ensures var u := AsCancelled(j);
            && Settles(j, u) && NeverDue(u) && !RetryAllowed(u, true, true) && !Reused(u, now) && Archivable(u)
            && u.status != Sent && u.attempts == j.attempts && u.messageId == j.messageId
            && u.retryable.None? && u.scheduledAt.None?
  {
  }

  /** Archiving is for jobs that are sent, dead or cancelled, keeps the first time, and hides the job from
      every query of the worker. */
  lemma ArchiveMeans(j: Job, at: int, later: int)
    ensures Archivable(j) <==> j.status in {Sent, Dead, Cancelled}
    ensures var u := AsArchived(j, at);
            && u.archivedAt == (if j.archivedAt.Some? then j.archivedAt else Some(at)) && AsArchived(u, later) == u
            && u == j.(archivedAt := u.archivedAt) && NeverDue(u)
  {
  }

  // ---------- createJob ----------

  /** The job that holds the key is answered with as it is exactly while it is processed, or while its window
      is open and it is waiting, paused or sent. */
  lemma ReusedExactly(j: Job, now: int)
    ensures Reused(j, now) <==>
            || j.status == Processing
            || (j.until.Some? && now < j.until.value && j.status in {Queued, Failed, Paused, Sent})
  {
  }

  /** A job that is created, or refreshed, is as it was asked for: due from its scheduled time on, or at once,
      with no attempt spent, paused with its batch or its campaign, kept by its key as long as its window is
      open. Refreshing leaves nothing of the old row but the key. */
  lemma CreateMeans(r: Request, old_: Job, kind: Kind, now: int, batchKey: Option<int>, campaignId: Option<int>)
    ensures var u := AsCreated(r);
            && (Due(u, kind, now) <==> kind == r.kind && (r.scheduledAt.None? || r.scheduledAt.value <= now))
            && u.status == Queued && u.attempts == 0 && u.maxAttempts == r.maxAttempts && u.provider == r.provider
            && u.key == r.key
            && (IsSibling(u, batchKey, campaignId) <==>
                  && r.kind == Bulk
                  && if batchKey.Some? then r.batchKey == batchKey else campaignId.Some? && r.campaignId == campaignId)
            && (Pending(u, batchKey, campaignId) <==> IsSibling(u, batchKey, campaignId))
            && (Reused(u, now) <==> r.until.Some? && now < r.until.value)
            && u.messageId.None? && u.sentAt.None? && u.retryable.None? && u.archivedAt.None? && u.lock.None?
            && u.batchKey == r.batchKey && u.campaignId == r.campaignId
            && AsRefreshed(old_, r) == u.(key := old_.key)
  {
  }

  // ---------- the provider's webhook ----------

  // The i-th notice is the first with its id.
  ghost predicate First(m: Mailbox, notices: seq<Notice>, i: nat) {
    i < |notices| && notices[i].eventId !in m.seen && forall k | 0 <= k < i :: notices[k].eventId != notices[i].eventId
  }

  ghost predicate Bounces(m: Mailbox, notices: seq<Notice>, messageId: int) {
    exists i: nat | i < |notices| ::
        First(m, notices, i) && notices[i].bounced && notices[i].messageId == Some(messageId)
  }

  ghost predicate Complains(m: Mailbox, notices: seq<Notice>, email: int) {
    exists i: nat | i < |notices| :: First(m, notices, i) && notices[i].bounced && notices[i].email == Some(email)
  }

  lemma FirstIn(m: Mailbox, notices: seq<Notice>, i: nat)
    requires notices != []
    ensures var k := |notices| - 1;
            First(m, notices, i) <==>
              if i < k then First(m, notices[..k], i)
              else i == k && notices[k].eventId !in m.seen && forall n | n in notices[..k] ::
                  n.eventId != notices[k].eventId
  {
    var k := |notices| - 1;
    forall n | n in notices[..k] ensures exists h :: 0 <= h < k && notices[h] == n {
      var h :| 0 <= h < k && notices[..k][h] == n;
    }
  }

  lemma {:induction false} SeenExact(m: Mailbox, notices: seq<Notice>, eventId: int)
    ensures eventId in HandleAll(m, notices).seen <==> eventId in m.seen || exists n | n in notices ::
              n.eventId == eventId
    decreases |notices|
  {
    if notices != [] {
      var k := |notices| - 1;
      SeenExact(m, notices[..k], eventId);
      SeenExact(m, notices[..k], notices[k].eventId);
      assert notices == notices[..k] + [notices[k]];
      assert forall n :: n in notices <==> n in notices[..k] || n == notices[k];
    }
  }

  /** Whatever the provider reports, and however often: an address is suppressed exactly if the first report
      of some event says that its mail bounced or drew a complaint; a job is dead for it exactly if such a
      report names its message; nothing else about jobs and addresses changes. */
  lemma {:induction false} MailboxExact(m: Mailbox, notices: seq<Notice>, id: JobId, email: int)
    requires id in m.jobs
    ensures var u := HandleAll(m, notices);
            && (email in u.suppressed <==> email in m.suppressed || Complains(m, notices, email))
            && u.jobs.Keys == m.jobs.Keys
            && u.jobs[id] == if m.jobs[id].messageId.Some? && Bounces(m, notices, m.jobs[id].messageId.value)
                             then m.jobs[id].(status := Dead) else m.jobs[id]
    decreases |notices|
  {
    hide First;
    if notices != [] {
      var k := |notices| - 1;
      MailboxExact(m, notices[..k], id, email);
      SeenExact(m, notices[..k], notices[k].eventId);
      forall i: nat ensures First(m, notices, i) <==> if i < k then First(m, notices[..k], i)
                              else i == k && notices[k].eventId !in HandleAll(m, notices[..k]).seen {
        FirstIn(m, notices, i);
      }
      OneMore(m, notices, email);
      if m.jobs[id].messageId.Some? { OneMoreMessage(m, notices, m.jobs[id].messageId.value); }
    }
  }

  lemma OneMore(m: Mailbox, notices: seq<Notice>, email: int)
    requires notices != []
    requires var k := |notices| - 1;
             forall i: nat :: First(m, notices, i) <==> if i < k then First(m, notices[..k], i)
                                else i == k && notices[k].eventId !in HandleAll(m, notices[..k]).seen
    ensures var k := |notices| - 1;
            Complains(m, notices, email) <==>
              || Complains(m, notices[..k], email)
              || (notices[k].eventId !in HandleAll(m, notices[..k]).seen && notices[k].bounced
                  && notices[k].email == Some(email))
  {
    hide First;
    var k := |notices| - 1;
    if Complains(m, notices[..k], email) {
      var i: nat :| i < k && First(m, notices[..k], i) && notices[..k][i].bounced
          && notices[..k][i].email == Some(email);
      assert First(m, notices, i) && notices[i] == notices[..k][i];
    }
    if Complains(m, notices, email) {
      var i: nat :| i < |notices| && First(m, notices, i) && notices[i].bounced && notices[i].email == Some(email);
      if i < k { assert First(m, notices[..k], i) && notices[..k][i] == notices[i]; }
    }
    if notices[k].eventId !in HandleAll(m, notices[..k]).seen { assert First(m, notices, k); }
  }

  lemma OneMoreMessage(m: Mailbox, notices: seq<Notice>, messageId: int)
    requires notices != []
    requires var k := |notices| - 1;
             forall i: nat :: First(m, notices, i) <==> if i < k then First(m, notices[..k], i)
                                else i == k && notices[k].eventId !in HandleAll(m, notices[..k]).seen
    ensures var k := |notices| - 1;
            Bounces(m, notices, messageId) <==>
              || Bounces(m, notices[..k], messageId)
              || (notices[k].eventId !in HandleAll(m, notices[..k]).seen && notices[k].bounced
                  && notices[k].messageId == Some(messageId))
  {
    hide First;
    var k := |notices| - 1;
    if Bounces(m, notices[..k], messageId) {
      var i: nat :| i < k && First(m, notices[..k], i) && notices[..k][i].bounced
          && notices[..k][i].messageId == Some(messageId);
      assert First(m, notices, i) && notices[i] == notices[..k][i];
    }
    if Bounces(m, notices, messageId) {
      var i: nat :| i < |notices| && First(m, notices, i) && notices[i].bounced
          && notices[i].messageId == Some(messageId);
      if i < k { assert First(m, notices[..k], i) && notices[..k][i] == notices[i]; }
    }
    if notices[k].eventId !in HandleAll(m, notices[..k]).seen { assert First(m, notices, k); }
  }
}
