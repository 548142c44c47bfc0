/** The transactions of activation and password reset: a link is consumed, the password set and every
    session of the user revoked, all or nothing. */
module AccountRecovery {
  import opened Options
  import Links = AccountTokens
  import Auth = AuthSessions

  type UserId = int

  datatype Status = Active | PendingSetup | Other
  datatype Account = Account(password: int, status: Status)

  datatype State = State(accounts: map<UserId, Account>, tokens: Links.Tokens, sessions: Auth.Sessions)

  // A link presented with a new password.
  datatype Claim = Claim(kind: Links.Kind, id: Links.TokenId, secret: int, password: int, now: int)

  predicate OwnerActive(s: State, id: Links.TokenId) {
    id in s.tokens && s.tokens[id].userId in s.accounts && s.accounts[s.tokens[id].userId].status == Active
  }

  function Verdict(s: State, c: Claim): Links.Verdict {
    Links.Resolve(s.tokens, c.id, c.kind, c.secret, OwnerActive(s, c.id), c.now)
  }

  // Every link belongs to an account.
  ghost predicate Owned(s: State) { forall id | id in s.tokens :: s.tokens[id].userId in s.accounts }

  predicate Completes(s: State, c: Claim) {
    Links.Consumes(s.tokens, Verdict(s, c)) && s.tokens[c.id].userId in s.accounts
  }

  function NewStatus(kind: Links.Kind, status: Status): Status {
    if kind == Links.Activation || status == PendingSetup then Active else status
  }

  function Complete(s: State, c: Claim): State {
    if !Completes(s, c) then s
    else
      var u := s.tokens[c.id].userId;
      State(s.accounts[u := Account(c.password, NewStatus(c.kind, s.accounts[u].status))],
            Links.Consume(s.tokens, Verdict(s, c)), Auth.RevokeAll(s.sessions, u, c.now))
  }

  class AuthService {
    var state: State

    constructor (initial: State)
      ensures state == initial
    {
      state := initial;
    }

    /** activate and resetPassword, from the transaction on. */
    method CompleteLink(c: Claim) returns (done: bool)
      requires Owned(state)
      modifies this
      ensures done == Completes(old(state), c) && state == Complete(old(state), c)
    {
      var v := Verdict(state, c);
      if !v.Valid? || !Links.LiveAt(state.tokens, v.id, v.now) { return false; }
      var u := state.tokens[c.id].userId;
      var tokens := state.tokens[c.id := state.tokens[c.id].(usedAt := Some(c.now))];
      var status := state.accounts[u].status;
      var firstTimeSetup := status == PendingSetup;
      var next := if c.kind == Links.Activation || firstTimeSetup then Active else status;
      state := State(state.accounts[u := Account(c.password, next)], tokens, Auth.RevokeAll(state.sessions, u, c.now));
      done := true;
    }
  }

  /** A link works exactly while it is open and unexpired, in the hands of who knows its secret, for
      its own purpose, and on an account that is not active. */
  lemma WorksExactly(s: State, c: Claim)
    requires Owned(s)
    ensures Completes(s, c) <==>
            && Links.LiveAt(s.tokens, c.id, c.now) && s.tokens[c.id].kind == c.kind && s.tokens[c.id].secret == c.secret
            && s.accounts[s.tokens[c.id].userId].status != Active
  {
  }

  /** Completing touches the one account and its sessions, and spends the link. */
  lemma ChangesOneAccount(s: State, c: Claim, other: UserId, link: Links.TokenId, session: Auth.SessionId)
    requires Completes(s, c)
    ensures var u := s.tokens[c.id].userId; var t := Complete(s, c);
            && t.accounts[u].password == c.password
            && (t.accounts[u].status == Active <==> c.kind == Links.Activation || s.accounts[u].status == PendingSetup)
            && (other != u && other in s.accounts ==> other in t.accounts && t.accounts[other] == s.accounts[other])
            && (link != c.id && link in s.tokens ==> link in t.tokens && t.tokens[link] == s.tokens[link])
            && (session in s.sessions && s.sessions[session].userId != u ==> t.sessions[session] == s.sessions[session])
            && Auth.NoLiveSession(t.sessions, u)
  {
  }

  /** A completed link never completes again, whatever is issued, read and consumed afterwards; and no
      other link of an account does while that is active. */
  lemma SpentForGood(s: State, c: Claim, links: Links.System, events: seq<Links.Event>, later: State, again: Claim)
    requires Completes(s, c) && links.tokens == Complete(s, c).tokens && Links.ValidRun(links, events)
    requires later.tokens == Links.AfterAll(links, events).tokens
    ensures again.id == c.id ==> !Completes(later, again)
    ensures OwnerActive(later, again.id) ==> !Completes(later, again)
  {
    hide Links.ValidRun, Links.AfterAll;
    assert links.tokens[c.id].usedAt.Some?;
    Links.UsedForGood(links, events, c.id);
  }

  /** A reset link is handed out to an active account, live, and completes for no one. */
  lemma ResetForActiveAccountFails(links: Links.System, e: Links.Event, s: State, c: Claim)
    requires Links.Enabled(links, e) && e.IssueTo? && e.kind == Links.PasswordReset && 0 < e.ttl
    requires s.tokens == Links.After(links, e).tokens && e.userId in s.accounts && s.accounts[e.userId].status == Active
    requires c.id == if Links.Reuses(links.tokens, e.active, e.kind) then e.active.value else e.id
    ensures Links.LiveFor(s.tokens, c.id, e.userId, Links.PasswordReset, links.clock) && !Completes(s, c)
  {
    Links.IssueYieldsLive(links, e);
  }

  /** A completed link ends every earlier login for good: in every continuation of rotations, logins
      and logouts, no session that the user had is live again, none descends from one, and no rotation
      of one succeeds, even if it was past its read phase already. */
  lemma EarlierLoginsEnd(s: State, c: Claim, system: Auth.System, events: seq<Auth.Event>, session: Auth.SessionId,
                         r: Auth.Rotation)
    requires Completes(s, c) && system.sessions == s.sessions && Auth.Chained(system)
    requires session in s.sessions && s.sessions[session].userId == s.tokens[c.id].userId
    requires Auth.ValidRun(system.(sessions := Complete(s, c).sessions), events)
    ensures var u := Auth.AfterAll(system.(sessions := Complete(s, c).sessions), events);
            && Auth.Chained(u) && session in u.sessions && u.sessions[session].revokedAt.Some?
            && (forall b | Auth.SameLogin(u, session, b) :: b in s.sessions && u.sessions[b].revokedAt.Some?)
            && (r.sid == session ==> !Auth.WinsSwap(u.sessions, r))
  {
    hide Auth.Chained, Auth.ValidRun, Auth.AfterAll, Auth.RevokeAll;
    assert Auth.After(system, Auth.RevokeAllOf(s.tokens[c.id].userId, c.now))
        == system.(sessions := Complete(s, c).sessions);
    Auth.RevokeAllIsFinal(system, s.tokens[c.id].userId, c.now, events, session, r);
  }

  /** Exactly the logins that had checked the password before, and had not yet stored their session when
      the link completed, can have a live session afterwards. */
  lemma OvertakenLoginEscapes(s: State, c: Claim, system: Auth.System, sid: Auth.SessionId, login: int)
    requires Completes(s, c) && system.sessions == s.sessions && Auth.Chained(system) && login !in system.login.Values
    requires Auth.Issued(system, sid, s.tokens[c.id].userId)
    ensures Complete(s, c).sessions == Auth.After(system, Auth.RevokeAllOf(s.tokens[c.id].userId, c.now)).sessions
    ensures Auth.Escapes(system, s.tokens[c.id].userId, c.now, sid) <==> sid !in s.sessions
  {
    hide Auth.Chained, Auth.Escapes, Auth.RevokeAll;
    Auth.EscapesExactly(system, s.tokens[c.id].userId, c.now, sid, login);
  }
}
