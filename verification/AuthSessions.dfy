/** Refresh sessions: rotation with replay detection (the shape of section 4.14.2 of RFC 9700),
    logout and revoke-all. A token is known by its claims and the hash of its text; hashes are
    injective, ids are new when they are drawn. */
module AuthSessions {
  import opened Options

  type UserId = int
  type SessionId = int
  type Hash = int

  datatype Session = Session(userId: UserId, tokenHash: Hash, expiresAt: int,
                             revokedAt: Option<int>, lastUsedAt: int, replacedBy: Option<SessionId>)
  type Sessions = map<SessionId, Session>

  datatype Token = Token(sub: UserId, sid: SessionId, hash: Hash)

  // What rotation carries from its read phase into its transaction.
  datatype Rotation = Rotation(sid: SessionId, userId: UserId, tokenHash: Hash, now: int,
                               nextSid: SessionId, nextHash: Hash, ttl: int)

  datatype Decision =
    | Reject
    | RevokeUser(userId: UserId)
    | Expire(sid: SessionId, now: int)
    | Commit(rotation: Rotation)

  predicate Unrevoked(t: Sessions, sid: SessionId) {
    sid in t && t[sid].revokedAt.None?
  }

  function Revoked(session: Session, at: int): Session {
    session.(revokedAt := Some(at), lastUsedAt := at)
  }

  function RevokeAll(t: Sessions, userId: UserId, at: int): Sessions {
    map sid | sid in t :: if t[sid].userId == userId && t[sid].revokedAt.None? then Revoked(t[sid], at) else t[sid]
  }

  // The reads of rotateRefreshSession; `active` is what the user lookup finds.
  function ReadPhase(t: Sessions, token: Token, now: int, active: bool, nextSid: SessionId, nextHash: Hash,
                     ttl: int): Decision {
    if token.sid !in t || t[token.sid].userId != token.sub then Reject
    else
      var session := t[token.sid];
      if session.revokedAt.Some? then
        if session.replacedBy.Some? then RevokeUser(session.userId) else Reject
      else if session.expiresAt <= now then Expire(token.sid, now)
      else if session.tokenHash != token.hash then RevokeUser(session.userId)
      else if !active then RevokeUser(session.userId)
      else Commit(Rotation(token.sid, token.sub, token.hash, now, nextSid, nextHash, ttl))
  }

  predicate WinsSwap(t: Sessions, r: Rotation) {
    && r.sid in t && t[r.sid].userId == r.userId && t[r.sid].tokenHash == r.tokenHash
    && t[r.sid].revokedAt.None? && r.now < t[r.sid].expiresAt
  }

  // The rotation transaction: compare-and-set, then create the successor or react to a replay.
  function Swap(t: Sessions, r: Rotation): Sessions {
    if WinsSwap(t, r) then
      t[r.sid := Revoked(t[r.sid], r.now).(replacedBy := Some(r.nextSid))]
       [r.nextSid := Session(r.userId, r.nextHash, r.now + r.ttl, None, r.now, None)]
    else if r.sid in t && t[r.sid].replacedBy.Some? then RevokeAll(t, t[r.sid].userId, r.now)
    else t
  }

  function Conclude(t: Sessions, d: Decision, at: int): Sessions {
    match d
    case Reject => t
    case RevokeUser(userId) => RevokeAll(t, userId, at)
    case Expire(sid, now) => if sid in t then t[sid := Revoked(t[sid], now)] else t
    case Commit(r) => Swap(t, r)
  }

  predicate Succeeds(t: Sessions, d: Decision) {
    d.Commit? && WinsSwap(t, d.rotation)
  }

  predicate LogsOut(t: Sessions, token: Token) {
    Unrevoked(t, token.sid) && t[token.sid].tokenHash == token.hash
  }

  function Logout(t: Sessions, token: Token, at: int): Sessions {
    if LogsOut(t, token) then t[token.sid := Revoked(t[token.sid], at)] else t
  }

  // What a rotation finds when it presents an unrevoked and unexpired session of its own user.
  predicate Standing(t: Sessions, token: Token, now: int) {
    token.sid in t && t[token.sid].userId == token.sub && t[token.sid].revokedAt.None? && now < t[token.sid].expiresAt
  }

  predicate Replaced(t: Sessions, token: Token) {
    token.sid in t && t[token.sid].userId == token.sub && t[token.sid].revokedAt.Some? && t[token.sid].replacedBy.Some?
  }

  predicate NoLiveSession(t: Sessions, userId: UserId) {
    forall sid | sid in t :: t[sid].userId == userId ==> t[sid].revokedAt.Some?
  }

  class AuthSessionService {
    var sessions: Sessions

    constructor ()
      ensures sessions == map[]
    {
      sessions := map[];
    }

    /** The new session's token rotates exactly until it expires; all other sessions stay as they are. */
    method CreateRefreshSession(sid: SessionId, userId: UserId, hash: Hash, now: int, ttl: int)
      requires sid !in sessions
      modifies this
      ensures sessions - {sid} == old(sessions) && Unrevoked(sessions, sid) && sessions[sid].replacedBy.None?
      ensures sessions[sid].lastUsedAt == now && sessions[sid].expiresAt == now + ttl
      ensures forall r: Rotation | r.sid == sid ::
                WinsSwap(sessions, r) <==> r.userId == userId && r.tokenHash == hash && r.now < now + ttl
    {
      sessions := sessions[sid := Session(userId, hash, now + ttl, None, now, None)];
    }

    /** Exactly the token of a session that stands rotates, if its hash is the session's and its owner is
        active; with another hash, an inactive owner or a replaced session every session of the user ends. */
    method RotateRefreshSession(token: Token, now: int, active: bool, nextSid: SessionId, nextHash: Hash, ttl: int)
      returns (rotated: bool)
      modifies this
      ensures rotated <==>
              Standing(old(sessions), token, now) && old(sessions)[token.sid].tokenHash == token.hash && active
      ensures var t := old(sessions);
              (Standing(t, token, now) && !rotated) || Replaced(t, token) ==> NoLiveSession(sessions, token.sub)
      ensures var d := ReadPhase(old(sessions), token, now, active, nextSid, nextHash, ttl);
              sessions == Conclude(old(sessions), d, now) && rotated == Succeeds(old(sessions), d)
    {
      if token.sid !in sessions || sessions[token.sid].userId != token.sub { return false; }
      var session := sessions[token.sid];
      if session.revokedAt.Some? {
        if session.replacedBy.Some? { RevokeAllForUser(session.userId, now); }
        return false;
      }
      if session.expiresAt <= now {
        sessions := sessions[token.sid := session.(revokedAt := Some(now), lastUsedAt := now)];
        return false;
      }
      if session.tokenHash != token.hash || !active {
        RevokeAllForUser(session.userId, now);
        return false;
      }
      rotated := RotateTransaction(Rotation(token.sid, token.sub, token.hash, now, nextSid, nextHash, ttl));
    }

    method RotateTransaction(r: Rotation) returns (rotated: bool)
      modifies this
      ensures sessions == Swap(old(sessions), r) && rotated == WinsSwap(old(sessions), r)
    {
      rotated := WinsSwap(sessions, r);
      if rotated {
        sessions :=
            sessions[r.sid :=
                     sessions[r.sid].(revokedAt := Some(r.now), lastUsedAt := r.now, replacedBy := Some(r.nextSid))];
        sessions := sessions[r.nextSid := Session(r.userId, r.nextHash, r.now + r.ttl, None, r.now, None)];
      } else if r.sid in sessions && sessions[r.sid].replacedBy.Some? {
        RevokeAllForUser(sessions[r.sid].userId, r.now);
      }
    }

    method RevokeRefreshSession(token: Token, at: int) returns (revoked: bool)
      modifies this
      ensures sessions == Logout(old(sessions), token, at) && revoked == LogsOut(old(sessions), token)
    {
      revoked := LogsOut(sessions, token);
      if revoked {
        sessions := sessions[token.sid := sessions[token.sid].(revokedAt := Some(at), lastUsedAt := at)];
      }
    }

    method RevokeAllForUser(userId: UserId, at: int)
      modifies this
      ensures sessions == RevokeAll(old(sessions), userId, at)
    {
      var rows := sessions;
      sessions := map sid | sid in rows ::
        if rows[sid].userId == userId && rows[sid].revokedAt.None? then Revoked(rows[sid], at) else rows[sid];
      assert sessions == RevokeAll(rows, userId, at);
    }
  }

  // ---------- all interleavings ----------

  type TaskId = int

  // A login that has checked the password and made its token, and has not yet stored its session.
  datatype Minted = Minted(userId: UserId, hash: Hash)

  /** The sessions, the logins not yet stored, the rotations between their read phase and their
      conclusion, and for the statements below the login each session descends from and how many
      rotations ago it was. */
  datatype System = System(sessions: Sessions, minted: map<SessionId, Minted>, tasks: map<TaskId, Decision>,
                           login: map<SessionId, int>, depth: map<SessionId, nat>)

  datatype Event =
    | Mint(sid: SessionId, userId: UserId, hash: Hash)
    | Login(sid: SessionId, login: int, userId: UserId, hash: Hash, now: int, ttl: int)
    | Begin(task: TaskId, token: Token, now: int, active: bool, nextSid: SessionId, nextHash: Hash, ttl: int)
    | Finish(task: TaskId, at: int)
    | LogoutToken(token: Token, at: int)
    | RevokeAllOf(userId: UserId, at: int)

  ghost predicate Enabled(s: System, e: Event) {
    match e
    case Mint(sid, _, _) => sid !in s.sessions && sid !in s.minted
    case Login(sid, login, userId, hash, _, _) =>
      sid in s.minted && s.minted[sid] == Minted(userId, hash) && sid !in s.sessions && login !in s.login.Values
    case Finish(task, _) =>
      && task in s.tasks
      && (s.tasks[task].Commit? ==> s.tasks[task].rotation.nextSid !in s.sessions)
    case _ => true
  }

  function After(s: System, e: Event): System {
    match e
    case Mint(sid, userId, hash) => s.(minted := s.minted[sid := Minted(userId, hash)])
    case Login(sid, login, userId, hash, now, ttl) =>
      s.(sessions := s.sessions[sid := Session(userId, hash, now + ttl, None, now, None)],
         minted := s.minted - {sid}, login := s.login[sid := login], depth := s.depth[sid := 0])
    case Begin(task, token, now, active, nextSid, nextHash, ttl) =>
      s.(tasks := s.tasks[task := ReadPhase(s.sessions, token, now, active, nextSid, nextHash, ttl)])
    case Finish(task, at) =>
      if task !in s.tasks then s
      else
        var d := s.tasks[task];
        var u := s.(sessions := Conclude(s.sessions, d, at), tasks := s.tasks - {task});
        if Succeeds(s.sessions, d) && d.rotation.sid in s.login && d.rotation.sid in s.depth then
          u.(login := s.login[d.rotation.nextSid := s.login[d.rotation.sid]],
             depth := s.depth[d.rotation.nextSid := s.depth[d.rotation.sid] + 1])
        else u
    case LogoutToken(token, at) => s.(sessions := Logout(s.sessions, token, at))
    case RevokeAllOf(userId, at) => s.(sessions := RevokeAll(s.sessions, userId, at))
  }

  ghost predicate SameLogin(s: System, a: SessionId, b: SessionId)
    requires s.login.Keys == s.sessions.Keys
  {
    a in s.sessions && b in s.sessions && s.login[a] == s.login[b]
  }

  // A replaced session is revoked, and followed by the session one rotation later.
  ghost predicate Linked(s: System, a: SessionId)
    requires s.login.Keys == s.sessions.Keys && s.depth.Keys == s.sessions.Keys && a in s.sessions
  {
    s.sessions[a].replacedBy.Some? ==>
      var n := s.sessions[a].replacedBy.value;
      s.sessions[a].revokedAt.Some? && SameLogin(s, a, n) && s.depth[n] == s.depth[a] + 1
  }

  // No two sessions of a login are equally far from it, and an unreplaced one is the last.
  ghost predicate Ordered(s: System, a: SessionId, b: SessionId)
    requires s.login.Keys == s.sessions.Keys && s.depth.Keys == s.sessions.Keys && a in s.sessions && b in s.sessions
  {
    s.login[a] == s.login[b] ==>
      && s.sessions[a].userId == s.sessions[b].userId
      && (s.depth[a] == s.depth[b] ==> a == b)
      && (s.sessions[a].replacedBy.None? ==> s.depth[b] <= s.depth[a])
  }

  ghost predicate Preceded(s: System, b: SessionId)
    requires s.depth.Keys == s.sessions.Keys && b in s.sessions
  {
    0 < s.depth[b] ==> exists a :: a in s.sessions && s.sessions[a].replacedBy == Some(b)
  }

  /** The sessions of each login form one chain: each is replaced at most once and by the next one,
      two never meet in the same place, and all but the first have a predecessor. */
  ghost predicate Chained(s: System) {
    && s.login.Keys == s.sessions.Keys && s.depth.Keys == s.sessions.Keys
    && (forall a | a in s.sessions :: Linked(s, a))
    && (forall a, b | a in s.sessions && b in s.sessions :: Ordered(s, a, b))
    && (forall b | b in s.sessions :: Preceded(s, b))
  }

  // Most steps only revoke.
  ghost predicate OnlyRevokes(s: System, u: System) {
    && u.sessions.Keys == s.sessions.Keys && u.login == s.login && u.depth == s.depth
    && forall sid | sid in s.sessions ::
         && u.sessions[sid].userId == s.sessions[sid].userId
         && u.sessions[sid].replacedBy == s.sessions[sid].replacedBy
         && (s.sessions[sid].revokedAt.Some? ==> u.sessions[sid].revokedAt.Some?)
  }

  lemma OtherStepsOnlyRevoke(s: System, e: Event)
    requires Enabled(s, e) && !e.Login? && !(e.Finish? && Succeeds(s.sessions, s.tasks[e.task]))
    ensures OnlyRevokes(s, After(s, e))
  {
  }

  lemma PrecedenceStays(s: System, u: System, b: SessionId)
    requires s.depth.Keys == s.sessions.Keys && u.depth.Keys == u.sessions.Keys
    requires b in s.sessions && b in u.sessions && u.depth[b] == s.depth[b] && Preceded(s, b)
    requires forall a | a in s.sessions && s.sessions[a].replacedBy.Some? ::
               a in u.sessions && u.sessions[a].replacedBy == s.sessions[a].replacedBy
    ensures Preceded(u, b)
  {
    if 0 < s.depth[b] {
      var a :| a in s.sessions && s.sessions[a].replacedBy == Some(b);
      assert u.sessions[a].replacedBy == Some(b);
    }
  }

  lemma RevokingKeepsChains(s: System, u: System)
    requires Chained(s) && OnlyRevokes(s, u)
    ensures Chained(u)
  {
    hide Preceded;
    forall a | a in u.sessions ensures Linked(u, a) {
      assert Linked(s, a);
    }
    forall a, b | a in u.sessions && b in u.sessions ensures Ordered(u, a, b) {
      assert Ordered(s, a, b);
    }
    forall b | b in u.sessions ensures Preceded(u, b) {
      PrecedenceStays(s, u, b);
    }
  }

  lemma LoginKeepsChains(s: System, e: Event)
    requires Chained(s) && e.Login? && Enabled(s, e)
    ensures Chained(After(s, e))
  {
    hide Preceded;
    var u := After(s, e);
    assert forall a | a in s.sessions :: s.login[a] in s.login.Values;
    forall a | a in u.sessions ensures Linked(u, a) {
      if a != e.sid { assert Linked(s, a); }
    }
    forall a, b | a in u.sessions && b in u.sessions ensures Ordered(u, a, b) {
      if a != e.sid && b != e.sid { assert Ordered(s, a, b); }
    }
    forall b | b in u.sessions ensures Preceded(u, b) {
      if b == e.sid { FirstNeedsNone(u, b); } else { PrecedenceStays(s, u, b); }
    }
  }

  lemma FirstNeedsNone(u: System, b: SessionId)
    requires u.depth.Keys == u.sessions.Keys && b in u.sessions && u.depth[b] == 0
    ensures Preceded(u, b)
  {
  }

  // What a successful rotation does to the system.
  ghost predicate Rotates(s: System, r: Rotation, u: System) {
    && WinsSwap(s.sessions, r) && r.nextSid !in s.sessions
    && s.login.Keys == s.sessions.Keys && s.depth.Keys == s.sessions.Keys
    && u.sessions == Swap(s.sessions, r)
    && u.login == s.login[r.nextSid := s.login[r.sid]]
    && u.depth == s.depth[r.nextSid := s.depth[r.sid] + 1]
  }

  lemma RotationLinks(s: System, r: Rotation, u: System, a: SessionId)
    requires Chained(s) && Rotates(s, r, u) && a in u.sessions
    ensures Linked(u, a)
  {
    hide Preceded, Ordered;
    if a != r.sid && a != r.nextSid { assert Linked(s, a); }
  }

  lemma RotationOrders(s: System, r: Rotation, u: System, a: SessionId, b: SessionId)
    requires Chained(s) && Rotates(s, r, u) && a in u.sessions && b in u.sessions
    ensures Ordered(u, a, b)
  {
    hide Preceded;
    assert Linked(s, r.sid);
    var x, y := if a == r.nextSid then r.sid else a, if b == r.nextSid then r.sid else b;
    assert Ordered(s, x, y);
    assert Ordered(s, r.sid, x) && Ordered(s, r.sid, y);
  }

  lemma RotationPrecedes(s: System, r: Rotation, u: System, b: SessionId)
    requires Chained(s) && Rotates(s, r, u) && b in u.sessions
    ensures Preceded(u, b)
  {
    hide Ordered;
    assert Linked(s, r.sid);
    if b == r.nextSid {
      assert u.sessions[r.sid].replacedBy == Some(b);
    } else {
      PrecedenceStays(s, u, b);
    }
  }

  lemma RotationKeepsChains(s: System, r: Rotation, u: System)
    requires Chained(s) && Rotates(s, r, u)
    ensures Chained(u)
  {
    hide Linked, Ordered, Preceded;
    forall a | a in u.sessions ensures Linked(u, a) { RotationLinks(s, r, u, a); }
    forall a, b | a in u.sessions && b in u.sessions ensures Ordered(u, a, b) { RotationOrders(s, r, u, a, b); }
    forall b | b in u.sessions ensures Preceded(u, b) { RotationPrecedes(s, r, u, b); }
  }

  /** Every step of every interleaving keeps the chains. */
  lemma ChainsStep(s: System, e: Event)
    requires Chained(s) && Enabled(s, e)
    ensures Chained(After(s, e))
  {
    hide Chained;
    var u := After(s, e);
    if e.Login? {
      LoginKeepsChains(s, e);
    } else if e.Finish? && Succeeds(s.sessions, s.tasks[e.task]) {
      ChainsCover(s);
      RotationKeepsChains(s, s.tasks[e.task].rotation, u);
    } else {
      OtherStepsOnlyRevoke(s, e);
      RevokingKeepsChains(s, u);
    }
  }

  lemma ChainsCover(s: System)
    requires Chained(s)
    ensures s.login.Keys == s.sessions.Keys && s.depth.Keys == s.sessions.Keys
  {
  }

  /** At most one session of a login is live, and it is the last of its chain. */
  lemma OneLivePerLogin(s: System, a: SessionId, b: SessionId)
    requires Chained(s) && a in s.sessions && b in s.sessions && s.login[a] == s.login[b] && Unrevoked(s.sessions, a)
    ensures s.sessions[a].replacedBy.None? && s.depth[b] <= s.depth[a]
    ensures Unrevoked(s.sessions, b) ==> a == b
  {
    assert Linked(s, a) && Linked(s, b) && Ordered(s, a, b) && Ordered(s, b, a);
  }

  // ---------- replay ----------

  /** A rotation that finds its session already replaced leaves the user without live session at that
      step: by the early check, whose verdict is then carried out whatever happened in between ... */
  lemma ReplayReadKillsSessions(t: Sessions, token: Token, now: int, active: bool, nextSid: SessionId, nextHash: Hash,
                                ttl: int,
                                later: Sessions, at: int)
    requires token.sid in t && t[token.sid].userId == token.sub
    requires t[token.sid].revokedAt.Some? && t[token.sid].replacedBy.Some?
    ensures var d := ReadPhase(t, token, now, active, nextSid, nextHash, ttl);
            NoLiveSession(Conclude(later, d, at), token.sub) && !Succeeds(later, d)
  {
  }

  /** ... or by losing the compare-and-set. */
  lemma LostSwapKillsSessions(s: System, r: Rotation)
    requires Chained(s) && r.sid in s.sessions && s.sessions[r.sid].replacedBy.Some?
    ensures !WinsSwap(s.sessions, r)
    ensures NoLiveSession(Swap(s.sessions, r), s.sessions[r.sid].userId)
  {
    assert Linked(s, r.sid);
  }

  /** A rotation that wins revokes its session and hands over to one successor, whose own token rotates
      exactly until its time is up; all other sessions stay as they are. */
  lemma SuccessorTakesOver(t: Sessions, r: Rotation, next: Rotation)
    requires WinsSwap(t, r) && r.nextSid !in t
    ensures var u := Swap(t, r);
            && u.Keys == t.Keys + {r.nextSid} && (forall sid | sid in t && sid != r.sid :: u[sid] == t[sid])
            && u[r.sid].revokedAt == Some(r.now) && u[r.sid].lastUsedAt == r.now
            && u[r.sid].replacedBy == Some(r.nextSid)
            && u[r.nextSid].userId == t[r.sid].userId && u[r.nextSid].lastUsedAt == r.now
            && (next.sid == r.sid ==> !WinsSwap(u, next))
            && (next.sid == r.nextSid ==>
                  (WinsSwap(u, next) <==>
                     next.userId == r.userId && next.tokenHash == r.nextHash && next.now < r.now + r.ttl))
  {
  }

  /** A logout changes the table exactly if its token is the one of an unrevoked session, and then revokes
      that session only. */
  lemma LogoutExact(t: Sessions, token: Token, at: int)
    ensures var u := Logout(t, token, at);
            && u.Keys == t.Keys && (forall sid | sid in t && sid != token.sid :: u[sid] == t[sid])
            && (u != t <==> token.sid in t && t[token.sid].revokedAt.None? && t[token.sid].tokenHash == token.hash)
            && (u != t ==> u[token.sid].revokedAt == Some(at) && u[token.sid].lastUsedAt == at)
  {
    if LogsOut(t, token) { assert Logout(t, token, at)[token.sid] != t[token.sid]; }
  }

  /** In the runs, a rotation that nothing interrupts does what the service's call does, and concludes
      once; a login that has made its token can store its session, once; and logout and revoke-all are
      the service's. */
  lemma RunsFollowService(s: System, task: TaskId, token: Token, now: int, active: bool, nextSid: SessionId,
                          nextHash: Hash, ttl: int, login: int)
    ensures var d := ReadPhase(s.sessions, token, now, active, nextSid, nextHash, ttl);
            var u := After(s, Begin(task, token, now, active, nextSid, nextHash, ttl));
            && u.sessions == s.sessions && task in u.tasks
            && After(u, Finish(task, now)).sessions == Conclude(s.sessions, d, now)
            && !Enabled(After(u, Finish(task, now)), Finish(task, now))
    ensures After(s, LogoutToken(token, now)).sessions == Logout(s.sessions, token, now)
    ensures After(s, RevokeAllOf(token.sub, now)).sessions == RevokeAll(s.sessions, token.sub, now)
    ensures token.sid !in s.sessions && token.sid !in s.minted && login !in s.login.Values ==>
              var u := After(s, Mint(token.sid, token.sub, token.hash));
              var e := Login(token.sid, login, token.sub, token.hash, now, ttl);
              && Enabled(s, Mint(token.sid, token.sub, token.hash)) && u.sessions == s.sessions
              && Enabled(u, e) && !Enabled(After(u, e), e) && After(u, e).minted == s.minted
  {
  }

  /** A rotation that presents a standing session with another token than its own, or for an account that
      is not active, never succeeds, ends every session of the user and no other. */
  lemma MismatchKillsSessions(t: Sessions, token: Token, now: int, active: bool, nextSid: SessionId, nextHash: Hash,
                              ttl: int, later: Sessions, at: int)
    requires Standing(t, token, now) && (t[token.sid].tokenHash != token.hash || !active)
    ensures var d := ReadPhase(t, token, now, active, nextSid, nextHash, ttl); var u := Conclude(later, d, at);
            && !Succeeds(later, d) && NoLiveSession(u, token.sub) && u.Keys == later.Keys
            && forall sid | sid in later && later[sid].userId != token.sub :: u[sid] == later[sid]
  {
  }

  /** One that presents an expired session ends that session and no other. */
  lemma ExpiryEndsOne(t: Sessions, token: Token, now: int, active: bool, nextSid: SessionId, nextHash: Hash, ttl: int)
    requires token.sid in t && t[token.sid].userId == token.sub && t[token.sid].revokedAt.None?
    requires t[token.sid].expiresAt <= now
    ensures var d := ReadPhase(t, token, now, active, nextSid, nextHash, ttl); var u := Conclude(t, d, now);
            && !Succeeds(t, d) && u.Keys == t.Keys && u[token.sid].revokedAt == Some(now)
            && forall sid | sid in t && sid != token.sid :: u[sid] == t[sid]
  {
  }

  /** A rotation is turned away without effect exactly if it presents a session that is unknown, another
      user's, or revoked without a successor, or if all that it would end has ended already. */
  lemma TurnedAwayExactly(t: Sessions, token: Token, now: int, active: bool, nextSid: SessionId, nextHash: Hash,
                          ttl: int)
    requires nextSid !in t
    ensures Conclude(t, ReadPhase(t, token, now, active, nextSid, nextHash, ttl), now) == t <==>
            || token.sid !in t || t[token.sid].userId != token.sub
            || (t[token.sid].revokedAt.Some? && (t[token.sid].replacedBy.None? || NoLiveSession(t, token.sub)))
  {
    var u := Conclude(t, ReadPhase(t, token, now, active, nextSid, nextHash, ttl), now);
    if token.sid in t && t[token.sid].userId == token.sub {
      if t[token.sid].revokedAt.None? {
        assert token.sid in u && u[token.sid].revokedAt.Some?;
      } else if t[token.sid].replacedBy.Some? {
        if !NoLiveSession(t, token.sub) {
          var sid :| sid in t && t[sid].userId == token.sub && t[sid].revokedAt.None?;
          assert u[sid].revokedAt.Some?;
        } else {
          EndedAlready(t, token.sub, now);
        }
      }
    }
  }

  lemma EndedAlready(t: Sessions, userId: UserId, at: int)
    requires NoLiveSession(t, userId)
    ensures RevokeAll(t, userId, at) == t
  {
    assert forall sid | sid in t :: RevokeAll(t, userId, at)[sid] == t[sid];
  }

  // Both are decided by what the rotation finds: it succeeds exactly when, at its transaction, the
  // session is unrevoked, unexpired and still holds the presented token.
  lemma CommitFromRead(t: Sessions, token: Token, now: int, active: bool, nextSid: SessionId, nextHash: Hash, ttl: int)
    ensures var d := ReadPhase(t, token, now, active, nextSid, nextHash, ttl);
            && (d.Commit? <==>
                 active && WinsSwap(t, Rotation(token.sid, token.sub, token.hash, now, nextSid, nextHash, ttl)))
            && (d.Commit? ==> Succeeds(t, d))
  {
  }

  // ---------- after a revoke-all ----------

  ghost function SessionsOf(s: System, userId: UserId): set<SessionId> {
    set sid | sid in s.sessions && s.sessions[sid].userId == userId
  }

  // The sessions in `gone` stay dead, and no session descends from them that was not there.
  ghost predicate Buried(s: System, gone: set<SessionId>) {
    && s.login.Keys == s.sessions.Keys
    && gone <= s.sessions.Keys
    && (forall sid | sid in gone :: s.sessions[sid].revokedAt.Some?)
    && (forall a, b | a in gone && SameLogin(s, a, b) :: b in gone)
  }

  lemma RevokeAllBuries(s: System, userId: UserId, at: int)
    requires Chained(s)
    ensures Buried(After(s, RevokeAllOf(userId, at)), SessionsOf(s, userId))
  {
    var u := After(s, RevokeAllOf(userId, at));
    forall a, b | a in SessionsOf(s, userId) && SameLogin(u, a, b) ensures b in SessionsOf(s, userId) {
      assert Ordered(s, a, b);
    }
  }

  lemma BuriedStep(s: System, e: Event, gone: set<SessionId>)
    requires Chained(s) && Enabled(s, e) && Buried(s, gone)
    ensures Buried(After(s, e), gone)
  {
    hide Chained;
    var u := After(s, e);
    ChainsCover(s);
    if e.Login? {
      assert forall a | a in s.sessions :: s.login[a] in s.login.Values;
      assert forall a, b | a in gone && SameLogin(u, a, b) :: SameLogin(s, a, b);
    } else if e.Finish? && Succeeds(s.sessions, s.tasks[e.task]) {
      BuriedRotation(s, s.tasks[e.task].rotation, u, gone);
    } else {
      OtherStepsOnlyRevoke(s, e);
      assert forall a, b | a in gone && SameLogin(u, a, b) :: SameLogin(s, a, b);
    }
  }

  lemma BuriedRotation(s: System, r: Rotation, u: System, gone: set<SessionId>)
    requires Rotates(s, r, u) && Buried(s, gone)
    ensures Buried(u, gone)
  {
    forall a, b | a in gone && SameLogin(u, a, b) ensures b in gone {
      assert SameLogin(s, a, if b == r.nextSid then r.sid else b);
    }
  }

  ghost predicate ValidRun(s: System, events: seq<Event>)
    decreases |events|
  {
    events == [] || (Enabled(s, events[0]) && ValidRun(After(s, events[0]), events[1..]))
  }

  function AfterAll(s: System, events: seq<Event>): System
    decreases |events|
  {
    if events == [] then s else AfterAll(After(s, events[0]), events[1..])
  }

  lemma {:induction false} BuriedForever(s: System, events: seq<Event>, gone: set<SessionId>)
    requires Chained(s) && ValidRun(s, events) && Buried(s, gone)
    ensures Chained(AfterAll(s, events)) && Buried(AfterAll(s, events), gone)
    decreases |events|
  {
    hide Chained, Buried, Enabled, After;
    if events != [] {
      ChainsStep(s, events[0]);
      BuriedStep(s, events[0], gone);
      BuriedForever(After(s, events[0]), events[1..], gone);
    }
  }

  const EMPTY: System := System(map[], map[], map[], map[], map[])

  /** From the empty table on, every reachable state is chained. */
  lemma ChainsAlways(events: seq<Event>)
    requires ValidRun(EMPTY, events)
    ensures Chained(AfterAll(EMPTY, events))
  {
    BuriedForever(EMPTY, events, {});
  }

  /** After a revoke-all, in every continuation: no token issued before ever yields a live session.
      The sessions of that user stay revoked, none descends from them later on, and no rotation of
      one of them succeeds, be it begun afterwards or already past its read phase. */
  lemma RevokeAllIsFinal(s: System, userId: UserId, at: int, events: seq<Event>, old_: SessionId, r: Rotation)
    requires Chained(s) && old_ in s.sessions && s.sessions[old_].userId == userId
    requires ValidRun(After(s, RevokeAllOf(userId, at)), events)
    ensures var u := AfterAll(After(s, RevokeAllOf(userId, at)), events);
            && Chained(u) && old_ in u.sessions && u.sessions[old_].revokedAt.Some?
            && (forall b | SameLogin(u, old_, b) :: b in s.sessions && u.sessions[b].revokedAt.Some?)
            && (r.sid == old_ ==> !WinsSwap(u.sessions, r))
  {
    hide Chained, After;
    RevokeAllBuries(s, userId, at);
    ChainsStep(s, RevokeAllOf(userId, at));
    var gone := SessionsOf(s, userId);
    BuriedForever(After(s, RevokeAllOf(userId, at)), events, gone);
    ChainsCover(AfterAll(After(s, RevokeAllOf(userId, at)), events));
  }

  // A token of the user has been made: its session is stored, or is about to be.
  ghost predicate Issued(s: System, sid: SessionId, userId: UserId) {
    if sid in s.sessions then s.sessions[sid].userId == userId
    else sid in s.minted && s.minted[sid].userId == userId
  }

  // Some continuation of the revoke-all has a live session for this token.
  ghost predicate Escapes(s: System, userId: UserId, at: int, sid: SessionId) {
    exists events ::
      && ValidRun(After(s, RevokeAllOf(userId, at)), events)
      && Unrevoked(AfterAll(After(s, RevokeAllOf(userId, at)), events).sessions, sid)
  }

  /** A token made before a revoke-all can have a live session afterwards exactly if its login had checked
      the password by then and not yet stored the session. */
  lemma EscapesExactly(s: System, userId: UserId, at: int, sid: SessionId, login: int)
    requires Chained(s) && Issued(s, sid, userId) && login !in s.login.Values
    ensures Escapes(s, userId, at, sid) <==> sid !in s.sessions
  {
    hide Chained, ValidRun, AfterAll, After;
    var v := After(s, RevokeAllOf(userId, at));
    if sid in s.sessions {
      forall events | ValidRun(v, events) ensures !Unrevoked(AfterAll(v, events).sessions, sid) {
        RevokeAllIsFinal(s, userId, at, events, sid, Rotation(sid, 0, 0, 0, 0, 0, 0));
      }
    } else {
      StoredAfterwards(s, userId, at, sid, login);
    }
  }

  lemma StoredAfterwards(s: System, userId: UserId, at: int, sid: SessionId, login: int)
    requires Issued(s, sid, userId) && sid !in s.sessions && login !in s.login.Values
    ensures Escapes(s, userId, at, sid)
  {
    var v := After(s, RevokeAllOf(userId, at));
    var e := Login(sid, login, userId, s.minted[sid].hash, at, 1);
    assert [e][1..] == [];
    assert ValidRun(After(v, e), []) && AfterAll(After(v, e), []) == After(v, e);
    assert ValidRun(v, [e]) && AfterAll(v, [e]) == After(v, e);
  }

  // ---------- what a login gives, what a revoke-all takes ----------

  /** A login's session is live, alone in its login, and rotates as long as it has not expired; the other
      sessions stay as they are. */
  lemma LoginYieldsLive(s: System, e: Event, at: int, nextSid: SessionId, nextHash: Hash, ttl: int, other: SessionId)
    requires Chained(s) && Enabled(s, e) && e.Login?
    ensures var u := After(s, e); var r := Rotation(e.sid, e.userId, e.hash, at, nextSid, nextHash, ttl);
            && Unrevoked(u.sessions, e.sid) && u.login.Keys == u.sessions.Keys
            && (other in u.sessions && other != e.sid ==>
                 other in s.sessions && !SameLogin(u, other, e.sid) && u.sessions[other] == s.sessions[other])
            && (WinsSwap(u.sessions, r) <==> at < e.now + e.ttl)
            && ReadPhase(u.sessions, Token(e.userId, e.sid, e.hash), at, true, nextSid, nextHash, ttl)
               == if at < e.now + e.ttl then Commit(r) else Expire(e.sid, at)
  {
    hide Linked, Ordered, Preceded;
    assert forall a | a in s.sessions :: s.login[a] in s.login.Values;
  }

  /** A revoke-all ends every session of the user and only these, and keeps when each revoked one was
      revoked: no token of the user rotates or logs out any more, those of others do as before. */
  lemma RevokeAllEnds(t: Sessions, userId: UserId, at: int, r: Rotation, token: Token)
    ensures var u := RevokeAll(t, userId, at);
            && u.Keys == t.Keys && NoLiveSession(u, userId) && RevokeAll(u, userId, at + 1) == u
            && (forall sid | sid in t && (t[sid].userId != userId || t[sid].revokedAt.Some?) :: u[sid] == t[sid])
            && (r.sid in t ==> (WinsSwap(u, r) <==> WinsSwap(t, r) && t[r.sid].userId != userId))
            && (token.sid in t ==> (LogsOut(u, token) <==> LogsOut(t, token) && t[token.sid].userId != userId))
  {
    var u := RevokeAll(t, userId, at);
    assert forall sid | sid in u :: !(u[sid].userId == userId && u[sid].revokedAt.None?);
    assert RevokeAll(u, userId, at + 1) == u;
  }
}
