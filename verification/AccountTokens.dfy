/** Activation and password-reset links: issue, at once or statement by statement, and consumption in a
    read phase and a later compare-and-set, in every interleaving. */
module AccountTokens {
  import opened Options

  type TokenId = int
  type UserId = int
  type TaskId = int

  datatype Kind = PasswordReset | Activation
  datatype Token = Token(kind: Kind, userId: UserId, secret: int, readable: bool, createdAt: int, expiresAt: int,
                         usedAt: Option<int>, revokedAt: Option<int>)
  type Tokens = map<TokenId, Token>

  // Neither used nor revoked; live if it has not expired either.
  predicate Open(t: Tokens, id: TokenId) {
    id in t && t[id].usedAt.None? && t[id].revokedAt.None?
  }

  predicate LiveAt(t: Tokens, id: TokenId, now: int) {
    Open(t, id) && now < t[id].expiresAt
  }

  predicate LiveFor(t: Tokens, id: TokenId, userId: UserId, kind: Kind, now: int) {
    LiveAt(t, id, now) && t[id].userId == userId && t[id].kind == kind
  }

  // The query for the latest live token.
  ghost predicate IsActive(t: Tokens, pick: Option<TokenId>, userId: UserId, kind: Kind, now: int) {
    match pick
    case None => forall id | id in t :: !LiveFor(t, id, userId, kind, now)
    case Some(x) => && LiveFor(t, x, userId, kind, now)
                    && forall id | LiveFor(t, id, userId, kind, now) :: t[id].createdAt <= t[x].createdAt
  }

  function Revoke(token: Token, at: int): Token {
    token.(revokedAt := Some(at))
  }

  function RevokeOpen(t: Tokens, userId: UserId, kind: Kind, at: int): Tokens {
    map id | id in t :: if Open(t, id) && t[id].userId == userId && t[id].kind == kind then Revoke(t[id], at) else t[id]
  }

  // Activation links are always drawn afresh; a reset link that can still be read is handed out again.
  predicate Reuses(t: Tokens, active: Option<TokenId>, kind: Kind) {
    kind == PasswordReset && active.Some? && active.value in t && t[active.value].readable
  }

  function Issue(t: Tokens, id: TokenId, secret: int, active: Option<TokenId>, userId: UserId, kind: Kind, now: int,
                 ttl: int): Tokens {
    if Reuses(t, active, kind) then t
    else
      var cleared :=
        if kind == Activation then RevokeOpen(t, userId, kind, now)
        else if active.Some? && active.value in t then t[active.value := Revoke(t[active.value], now)]
        else t;
      cleared[id := Token(kind, userId, secret, true, now, now + ttl, None, None)]
  }

  datatype Verdict = Valid(id: TokenId, now: int) | Missing | AlreadyUsed | Expired | AlreadyActive

  // resolveValidRecord, for the record the reference names.
  function Resolve(t: Tokens, id: TokenId, kind: Kind, secret: int, userActive: bool, now: int): Verdict {
    if id !in t || t[id].kind != kind then Missing
    else if t[id].usedAt.Some? || t[id].revokedAt.Some? then AlreadyUsed
    else if t[id].expiresAt < now then Expired
    else if userActive then AlreadyActive
    else if t[id].secret != secret then Missing
    else Valid(id, now)
  }

  predicate Consumes(t: Tokens, v: Verdict) {
    v.Valid? && LiveAt(t, v.id, v.now)
  }

  function Consume(t: Tokens, v: Verdict): Tokens {
    if Consumes(t, v) then t[v.id := t[v.id].(usedAt := Some(v.now))] else t
  }

  class AccountActionTokenService {
    var tokens: Tokens

    constructor ()
      ensures tokens == map[]
    {
      tokens := map[];
    }

    method IssueToken(id: TokenId, secret: int, active: Option<TokenId>, userId: UserId, kind: Kind, now: int, ttl: int)
      returns (reused: bool)
      requires active.Some? ==> active.value in tokens
      modifies this
      ensures tokens == Issue(old(tokens), id, secret, active, userId, kind, now, ttl)
      ensures reused == Reuses(old(tokens), active, kind)
    {
      if active.Some? && kind != Activation {
        if tokens[active.value].readable { return true; }
        tokens := tokens[active.value := Revoke(tokens[active.value], now)];
      }
      if kind == Activation {
        var rows := tokens;
        tokens := map x | x in rows ::
            if Open(rows, x) && rows[x].userId == userId && rows[x].kind == kind then Revoke(rows[x], now) else rows[x];
        assert tokens == RevokeOpen(rows, userId, kind, now);
      }
      tokens := tokens[id := Token(kind, userId, secret, true, now, now + ttl, None, None)];
      reused := false;
    }

    method ConsumeToken(id: TokenId, kind: Kind, secret: int, userActive: bool, now: int) returns (v: Verdict)
      modifies this
      ensures var d := Resolve(old(tokens), id, kind, secret, userActive, now);
              && tokens == Consume(old(tokens), d) && (v.Valid? <==> Consumes(old(tokens), d))
              && v == if d.Valid? && !Consumes(old(tokens), d) then Expired else d
    {
      v := Resolve(tokens, id, kind, secret, userActive, now);
      if !v.Valid? { return; }
      if LiveAt(tokens, v.id, v.now) {
        tokens := tokens[v.id := tokens[v.id].(usedAt := Some(v.now))];
      } else {
        v := if tokens[v.id].expiresAt <= v.now then Expired else AlreadyUsed;
      }
    }
  }

  // ---------- all interleavings ----------

  // What an issuer has still to do: to revoke, if there is something, and to create.
  datatype Draft = Draft(userId: UserId, kind: Kind, revokes: Revokes)
  datatype Revokes = TheOne(id: TokenId) | AllOpen | Nothing

  /** The tokens, the consumers between their read and their write, the issuers between their
      statements, how often each token has been consumed, and the time. */
  datatype System = System(tokens: Tokens, readers: map<TaskId, Verdict>, issuers: map<TaskId, Draft>,
                           uses: map<TokenId, nat>, clock: int)

  datatype Event =
    | Advance(to: int)
    | IssueTo(id: TokenId, secret: int, active: Option<TokenId>, userId: UserId, kind: Kind, ttl: int)
    | LookUp(task: TaskId, active: Option<TokenId>, userId: UserId, kind: Kind)
    | Clear(task: TaskId)
    | Create(task: TaskId, id: TokenId, secret: int, ttl: int)
    | Read(task: TaskId, id: TokenId, kind: Kind, secret: int, userActive: bool)
    | Write(task: TaskId)
    | BecomesUnreadable(id: TokenId)

  // IssueTo is an issue that nothing interrupts; LookUp, Clear and Create are its statements apart.
  ghost predicate Enabled(s: System, e: Event) {
    match e
    case Advance(to) => s.clock <= to
    case IssueTo(id, _, active, userId, kind, _) => id !in s.tokens && IsActive(s.tokens, active, userId, kind, s.clock)
    case LookUp(_, active, userId, kind) => IsActive(s.tokens, active, userId, kind, s.clock)
    case Clear(task) => task in s.issuers && !s.issuers[task].revokes.Nothing?
    case Create(task, id, _, _) => task in s.issuers && s.issuers[task].revokes.Nothing? && id !in s.tokens
    case Write(task) => task in s.readers
    case _ => true
  }

  function Cleared(t: Tokens, d: Draft, now: int): Tokens {
    match d.revokes
    case TheOne(id) => if id in t then t[id := Revoke(t[id], now)] else t
    case AllOpen => RevokeOpen(t, d.userId, d.kind, now)
    case Nothing => t
  }

  function After(s: System, e: Event): System {
    match e
    case Advance(to) => s.(clock := to)
    case IssueTo(id, secret, active, userId, kind, ttl) =>
      s.(tokens := Issue(s.tokens, id, secret, active, userId, kind, s.clock, ttl),
         uses := if Reuses(s.tokens, active, kind) then s.uses else s.uses[id := 0])
    case LookUp(task, active, userId, kind) =>
      if Reuses(s.tokens, active, kind) then s
      else
        var revokes := if kind == Activation then AllOpen else if active.Some? then TheOne(active.value) else Nothing;
        s.(issuers := s.issuers[task := Draft(userId, kind, revokes)])
    case Clear(task) =>
      if task !in s.issuers then s
      else s.(tokens := Cleared(s.tokens, s.issuers[task], s.clock),
              issuers := s.issuers[task := s.issuers[task].(revokes := Nothing)])
    case Create(task, id, secret, ttl) =>
      if task !in s.issuers then s
      else
        var d := s.issuers[task];
        s.(tokens := s.tokens[id := Token(d.kind, d.userId, secret, true, s.clock, s.clock + ttl, None, None)],
           issuers := s.issuers - {task}, uses := s.uses[id := 0])
    case Read(task, id, kind, secret, userActive) =>
      s.(readers := s.readers[task := Resolve(s.tokens, id, kind, secret, userActive, s.clock)])
    case Write(task) =>
      if task !in s.readers then s
      else
        var v := s.readers[task];
        s.(tokens := Consume(s.tokens, v), readers := s.readers - {task},
           uses := if Consumes(s.tokens, v) && v.id in s.uses then s.uses[v.id := s.uses[v.id] + 1] else s.uses)
    case BecomesUnreadable(id) =>
      if id in s.tokens then s.(tokens := s.tokens[id := s.tokens[id].(readable := false)]) else s
  }

  /** One live token per user and kind; a token is consumed at most once, exactly when it is marked
      used; none is both used and revoked. */
  ghost predicate Sound(s: System) {
    && s.uses.Keys == s.tokens.Keys
    && (forall a, b | LiveAt(s.tokens, a, s.clock) && LiveAt(s.tokens, b, s.clock)
          && s.tokens[a].userId == s.tokens[b].userId && s.tokens[a].kind == s.tokens[b].kind :: a == b)
    && (forall id | id in s.tokens :: s.uses[id] == if s.tokens[id].usedAt.Some? then 1 else 0)
    && (forall id | id in s.tokens :: s.tokens[id].usedAt.None? || s.tokens[id].revokedAt.None?)
  }

  // A fresh issue leaves no other live token of that user and kind, and adds no other one.
  lemma IssueClears(s: System, e: Event, a: TokenId)
    requires Sound(s) && Enabled(s, e) && e.IssueTo? && !Reuses(s.tokens, e.active, e.kind)
    requires LiveAt(After(s, e).tokens, a, s.clock) && a != e.id
    ensures LiveAt(s.tokens, a, s.clock)
    ensures After(s, e).tokens[a].userId == s.tokens[a].userId && After(s, e).tokens[a].kind == s.tokens[a].kind
    ensures !(s.tokens[a].userId == e.userId && s.tokens[a].kind == e.kind)
  {
  }

  lemma IssueKeepsSound(s: System, e: Event)
    requires Sound(s) && Enabled(s, e) && e.IssueTo? && !Reuses(s.tokens, e.active, e.kind)
    ensures Sound(After(s, e))
  {
    var u := After(s, e);
    forall a, b | LiveAt(u.tokens, a, u.clock) && LiveAt(u.tokens, b, u.clock)
          && u.tokens[a].userId == u.tokens[b].userId && u.tokens[a].kind == u.tokens[b].kind ensures a == b {
      if a != e.id { IssueClears(s, e, a); }
      if b != e.id { IssueClears(s, e, b); }
    }
  }

  /** A statement of an issue is timely if the link that it revokes by id has not been used, or the link
      that it adds is the only live one of that user and kind. */
  ghost predicate Timely(s: System, e: Event) {
    match e
    case Clear(task) =>
      (task in s.issuers && s.issuers[task].revokes.TheOne? && s.issuers[task].revokes.id in s.tokens) ==>
        s.tokens[s.issuers[task].revokes.id].usedAt.None?
    case Create(task, _, _, ttl) =>
      task in s.issuers && 0 < ttl ==> forall id ::
          !LiveFor(s.tokens, id, s.issuers[task].userId, s.issuers[task].kind, s.clock)
    case _ => true
  }

  lemma OtherKeepsSound(s: System, e: Event)
    requires Sound(s) && Enabled(s, e) && !(e.IssueTo? && !Reuses(s.tokens, e.active, e.kind)) && !e.Clear?
             && !e.Create?
    ensures Sound(After(s, e))
  {
    hide Resolve, Cleared, IsActive;
    var u := After(s, e);
    assert forall a | LiveAt(u.tokens, a, u.clock) :: LiveAt(s.tokens, a, s.clock);
  }

  lemma ClearExact(s: System, e: Event)
    requires Sound(s) && Enabled(s, e) && e.Clear?
    ensures Sound(After(s, e)) <==> Timely(s, e)
  {
    hide Resolve, IsActive, Issue;
    var u, d := After(s, e), s.issuers[e.task];
    assert forall a | LiveAt(u.tokens, a, u.clock) :: LiveAt(s.tokens, a, s.clock);
    if !Timely(s, e) {
      assert u.tokens[d.revokes.id].usedAt.Some? && u.tokens[d.revokes.id].revokedAt.Some?;
    }
  }

  lemma CreateExact(s: System, e: Event)
    requires Sound(s) && Enabled(s, e) && e.Create?
    ensures Sound(After(s, e)) <==> Timely(s, e)
  {
    hide Sound;
    var u, d := After(s, e), s.issuers[e.task];
    if Timely(s, e) {
      TimelyCreateKeepsSound(s, e);
    } else {
      var a :| LiveFor(s.tokens, a, d.userId, d.kind, s.clock);
      TwoLive(u, a, e.id);
    }
  }

  lemma TimelyCreateKeepsSound(s: System, e: Event)
    requires Sound(s) && Enabled(s, e) && e.Create? && Timely(s, e)
    ensures Sound(After(s, e))
  {
    var u, d := After(s, e), s.issuers[e.task];
    assert forall a | a in s.tokens :: u.tokens[a] == s.tokens[a];
    forall a, b | LiveAt(u.tokens, a, u.clock) && LiveAt(u.tokens, b, u.clock)
          && u.tokens[a].userId == u.tokens[b].userId && u.tokens[a].kind == u.tokens[b].kind ensures a == b {
      if a == e.id && b != e.id { assert LiveFor(s.tokens, b, d.userId, d.kind, s.clock); }
      if b == e.id && a != e.id { assert LiveFor(s.tokens, a, d.userId, d.kind, s.clock); }
    }
  }

  lemma TwoLive(s: System, a: TokenId, b: TokenId)
    requires a != b && LiveAt(s.tokens, a, s.clock) && LiveAt(s.tokens, b, s.clock)
    requires s.tokens[a].userId == s.tokens[b].userId && s.tokens[a].kind == s.tokens[b].kind
    ensures !Sound(s)
  {
  }

  /** Each step keeps the links in order exactly if it is timely. */
  lemma StepExact(s: System, e: Event)
    requires Sound(s) && Enabled(s, e)
    ensures Sound(After(s, e)) <==> Timely(s, e)
  {
    hide Sound, After, Reuses;
    if e.IssueTo? && !Reuses(s.tokens, e.active, e.kind) {
      IssueKeepsSound(s, e);
    } else if e.Clear? {
      ClearExact(s, e);
    } else if e.Create? {
      CreateExact(s, e);
    } else {
      OtherKeepsSound(s, e);
    }
  }

  ghost predicate ValidRun(s: System, events: seq<Event>)
    decreases |events|
  {
    events == [] || (Enabled(s, events[0]) && ValidRun(After(s, events[0]), events[1..]))
  }

  function AfterAll(s: System, events: seq<Event>): System
    decreases |events|
  {
    if events == [] then s else AfterAll(After(s, events[0]), events[1..])
  }

  // Every state on the way is in order.
  ghost predicate SoundThroughout(s: System, events: seq<Event>)
    decreases |events|
  {
    Sound(s) && (events == [] || SoundThroughout(After(s, events[0]), events[1..]))
  }

  ghost predicate TimelyRun(s: System, events: seq<Event>)
    decreases |events|
  {
    events == [] || (Timely(s, events[0]) && TimelyRun(After(s, events[0]), events[1..]))
  }

  /** In every interleaving of issues and consumers, every state is sound exactly if every statement of an
      interrupted issue is timely. */
  lemma {:induction false} SoundExactly(s: System, events: seq<Event>)
    requires Sound(s) && ValidRun(s, events)
    ensures SoundThroughout(s, events) <==> TimelyRun(s, events)
    decreases |events|
  {
    hide Sound, Enabled, After, Timely;
    if events != [] {
      StepExact(s, events[0]);
      if Timely(s, events[0]) { SoundExactly(After(s, events[0]), events[1..]); }
    }
  }

  // No issue is interrupted.
  predicate AtOnce(events: seq<Event>) { forall e | e in events :: !e.Clear? && !e.Create? }

  /** So with issues that nothing interrupts, every state is sound, whatever the consumers do. */
  lemma {:induction false} SoundAlways(s: System, events: seq<Event>)
    requires Sound(s) && ValidRun(s, events) && AtOnce(events)
    ensures Sound(AfterAll(s, events)) && SoundThroughout(s, events)
    decreases |events|
  {
    hide Sound, Enabled, After;
    if events != [] {
      assert events[0] in events && forall e | e in events[1..] :: e in events;
      StepExact(s, events[0]);
      SoundAlways(After(s, events[0]), events[1..]);
    }
  }

  /** Two issues that overlap, each of which has found no live link, leave two. */
  lemma OverlappingIssuesBreak(userId: UserId)
    ensures var s := System(map[], map[], map[], map[], 0);
            var events :=
                [LookUp(1, None, userId, PasswordReset), LookUp(2, None, userId, PasswordReset), Create(1, 1, 7, 60),
                 Create(2, 2, 8, 60)];
            && Sound(s) && ValidRun(s, events)
            && LiveFor(AfterAll(s, events).tokens, 1, userId, PasswordReset, 0)
            && LiveFor(AfterAll(s, events).tokens, 2, userId, PasswordReset, 0)
  {
    var s := System(map[], map[], map[], map[], 0);
    var a, b := LookUp(1, None, userId, PasswordReset), LookUp(2, None, userId, PasswordReset);
    var c, d := Create(1, 1, 7, 60), Create(2, 2, 8, 60);
    FourSteps(s, a, b, c, d);
  }

  lemma FourSteps(s: System, a: Event, b: Event, c: Event, d: Event)
    ensures var s1 := After(s, a); var s2 := After(s1, b); var s3 := After(s2, c);
            && AfterAll(s, [a, b, c, d]) == After(s3, d)
            && (Enabled(s, a) && Enabled(s1, b) && Enabled(s2, c) && Enabled(s3, d) ==> ValidRun(s, [a, b, c, d]))
  {
    hide Enabled, After;
    var s1 := After(s, a);
    var s2 := After(s1, b);
    var s3 := After(s2, c);
    var s4 := After(s3, d);
    assert [d][1..] == [] && [c, d][1..] == [d] && [b, c, d][1..] == [c, d] && [a, b, c, d][1..] == [b, c, d];
    assert ValidRun(s4, []) && AfterAll(s4, []) == s4;
    assert AfterAll(s3, [d]) == s4 && (Enabled(s3, d) ==> ValidRun(s3, [d]));
    assert AfterAll(s2, [c, d]) == s4 && (Enabled(s2, c) && Enabled(s3, d) ==> ValidRun(s2, [c, d]));
    assert AfterAll(s1, [b, c, d]) == s4;
  }

  /** A consumer succeeds exactly when, at its write, the token is still live at the time it read;
      whoever consumes a token ends it for every other consumer, reading or already past its read. */
  lemma ConsumedOnce(s: System, first: Verdict, second: Verdict)
    requires Consumes(s.tokens, first) && second.Valid? && second.id == first.id
    ensures !Consumes(Consume(s.tokens, first), second)
    ensures forall kind, secret, active, now ::
              !Resolve(Consume(s.tokens, first), first.id, kind, secret, active, now).Valid?
  {
  }

  /** Issuing leaves the user with a live link of that kind, the one handed out. */
  lemma IssueYieldsLive(s: System, e: Event)
    requires Enabled(s, e) && e.IssueTo? && 0 < e.ttl
    ensures var handedOut := if Reuses(s.tokens, e.active, e.kind) then e.active.value else e.id;
            LiveFor(After(s, e).tokens, handedOut, e.userId, e.kind, s.clock)
  {
  }

  // ---------- what a call does for its caller ----------

  /** An issue hands out the active link again exactly if that is a reset link that can be read, and then
      changes nothing. Otherwise it adds one, live until its time is up; for an activation it revokes every
      open link of that user and kind, for a reset the active one; all other links stay as they are. */
  lemma IssueMeans(t: Tokens, id: TokenId, secret: int, active: Option<TokenId>, userId: UserId, kind: Kind, now: int,
                   ttl: int, other: TokenId, later: int)
    requires id !in t && IsActive(t, active, userId, kind, now)
    ensures var u := Issue(t, id, secret, active, userId, kind, now, ttl);
            && (id !in u <==> kind == PasswordReset && active.Some? && t[active.value].readable)
            && (id !in u ==> u == t)
            && (id in u ==>
                  && u.Keys == t.Keys + {id} && u[id].userId == userId && u[id].kind == kind && u[id].secret == secret
                  && u[id].readable && (LiveAt(u, id, later) <==> later < now + ttl)
                  && (other in t && (t[other].userId != userId || t[other].kind != kind) ==> u[other] == t[other])
                  && (other in t && t[other].userId == userId && t[other].kind == kind ==>
                        if kind == PasswordReset then
                          u[other] == if active == Some(other) then t[other].(revokedAt := Some(now)) else t[other]
                        else
                          u[other] == if Open(t, other) then t[other].(revokedAt := Some(now)) else t[other]))
  {
  }

  /** A reset link that has just been issued is handed out again for as long as it lives and can be read. */
  lemma FreshIsReused(t: Tokens, id: TokenId, secret: int, active: Option<TokenId>, userId: UserId, now: int, ttl: int,
                      again: TokenId, otherSecret: int, later: int)
    requires id !in t && IsActive(t, active, userId, PasswordReset, now)
    requires active.None? || !t[active.value].readable
    ensures var u := Issue(t, id, secret, active, userId, PasswordReset, now, ttl);
            Issue(u, again, otherSecret, Some(id), userId, PasswordReset, later, ttl) == u
  {
  }

  /** Why a link is refused: nobody knows it, or not for this, or not by this secret; it has been used or
      revoked; its time is over; its account is active. In this order, the secret last. */
  lemma RefusalsExact(t: Tokens, id: TokenId, kind: Kind, secret: int, userActive: bool, now: int)
    ensures var v := Resolve(t, id, kind, secret, userActive, now);
            && (v == AlreadyUsed <==> id in t && t[id].kind == kind && !Open(t, id))
            && (v == Expired <==> Open(t, id) && t[id].kind == kind && t[id].expiresAt < now)
            && (v == AlreadyActive <==> Open(t, id) && t[id].kind == kind && now <= t[id].expiresAt && userActive)
            && (v == Missing <==>
                  || id !in t || t[id].kind != kind
                  || (Open(t, id) && now <= t[id].expiresAt && !userActive && t[id].secret != secret))
  {
  }

  /** In the runs, an issue taken apart that nothing interrupts leaves what the whole one leaves, and nothing
      to do; a consumption that nothing interrupts is the service's, once; and a link that can no longer be
      read is not handed out again. */
  lemma RunsFollowService(s: System, task: TaskId, id: TokenId, secret: int, active: Option<TokenId>, userId: UserId,
                          kind: Kind, ttl: int, presented: TokenId, userActive: bool, to: int)
    requires id !in s.tokens && IsActive(s.tokens, active, userId, kind, s.clock)
    ensures var looked := After(s, LookUp(task, active, userId, kind));
            var cleared := if task in looked.issuers && !looked.issuers[task].revokes.Nothing? then
                             After(looked, Clear(task))
                           else looked;
            var created := After(cleared, Create(task, id, secret, ttl));
            !Reuses(s.tokens, active, kind) ==>
              && Enabled(cleared, Create(task, id, secret, ttl)) && !Enabled(created, Create(task, id, secret, ttl))
              && created.tokens == After(s, IssueTo(id, secret, active, userId, kind, ttl)).tokens
              && created.tokens == Issue(s.tokens, id, secret, active, userId, kind, s.clock, ttl)
    ensures var v := Resolve(s.tokens, presented, kind, secret, userActive, s.clock);
            var written := After(After(s, Read(task, presented, kind, secret, userActive)), Write(task));
            written.tokens == Consume(s.tokens, v) && !Enabled(written, Write(task))
    ensures presented in s.tokens ==>
              var u := After(s, BecomesUnreadable(presented)).tokens;
              !Reuses(u, Some(presented), kind) && u[presented] == s.tokens[presented].(readable := false)
    ensures After(s, Advance(to)).clock == to && After(s, Advance(to)).tokens == s.tokens
  {
    hide IsActive;
  }

  // ---------- a link over runs ----------

  lemma UsedStays(s: System, e: Event, id: TokenId)
    requires Enabled(s, e) && id in s.tokens && s.tokens[id].usedAt.Some?
    ensures id in After(s, e).tokens && After(s, e).tokens[id].usedAt == s.tokens[id].usedAt
  {
  }

  /** A used link stays used over every run, and no consumer succeeds with it again. */
  lemma {:induction false} UsedForGood(s: System, events: seq<Event>, id: TokenId)
    requires ValidRun(s, events) && id in s.tokens && s.tokens[id].usedAt.Some?
    ensures id in AfterAll(s, events).tokens && AfterAll(s, events).tokens[id].usedAt == s.tokens[id].usedAt
    ensures forall v: Verdict | v.Valid? && v.id == id :: !Consumes(AfterAll(s, events).tokens, v)
    decreases |events|
  {
    hide Enabled, After;
    if events != [] {
      UsedStays(s, events[0], id);
      UsedForGood(After(s, events[0]), events[1..], id);
    }
  }

  // No consumer that has read the link as valid is on its way to consume it.
  ghost predicate NoReader(s: System, id: TokenId) {
    forall task | task in s.readers :: !(s.readers[task].Valid? && s.readers[task].id == id)
  }

  lemma ActiveReadsAreRefused(s: System, e: Event, id: TokenId)
    requires Enabled(s, e) && id in s.tokens && NoReader(s, id) && (e.Read? && e.id == id ==> e.userActive)
    ensures NoReader(After(s, e), id)
    ensures id in After(s, e).tokens && After(s, e).tokens[id].usedAt == s.tokens[id].usedAt
  {
  }

  /** While its account is active whenever someone presents it, a link is never used, in any run. */
  lemma {:induction false} NeverUsedWhileActive(s: System, events: seq<Event>, id: TokenId)
    requires ValidRun(s, events) && id in s.tokens && NoReader(s, id)
    requires forall e | e in events && e.Read? && e.id == id :: e.userActive
    ensures id in AfterAll(s, events).tokens && AfterAll(s, events).tokens[id].usedAt == s.tokens[id].usedAt
    decreases |events|
  {
    hide Enabled, After, NoReader;
    if events != [] {
      ActiveReadsAreRefused(s, events[0], id);
      assert forall e | e in events[1..] :: e in events;
      NeverUsedWhileActive(After(s, events[0]), events[1..], id);
    }
  }
}
