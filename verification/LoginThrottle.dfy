/** The throttle before login and password recovery: a counter row per key that is deleted,
    incremented and blocked in place. */
module LoginThrottle {
  import opened Options

  datatype Config = Config(limit: int, windowMs: nat, blockMs: nat)
  datatype Row = Row(attempts: int, firstAttemptAt: int, lastAttemptAt: int, blockedUntil: Option<int>)

  predicate IsBlocked(row: Option<Row>, now: int) {
    row.Some? && row.value.blockedUntil.Some? && now < row.value.blockedUntil.value
  }

  // What the check before an attempt leaves of the row.
  function Checked(row: Option<Row>, now: int, c: Config): Option<Row> {
    if row.Some? && !IsBlocked(row, now) && row.value.firstAttemptAt + c.windowMs <= now then None else row
  }

  // What a failed attempt makes of the row.
  function Failed(row: Option<Row>, now: int, c: Config): Row {
    var counted :=
      if row.None? || row.value.firstAttemptAt <= now - c.windowMs then Row(1, now, now, None)
      else row.value.(attempts := row.value.attempts + 1, lastAttemptAt := now);
    if c.limit <= counted.attempts then counted.(blockedUntil := Some(now + c.blockMs)) else counted
  }

  function Lookup(rows: map<string, Row>, key: string): Option<Row> {
    if key in rows then Some(rows[key]) else None
  }

  function Store(rows: map<string, Row>, key: string, row: Option<Row>): map<string, Row> {
    if row.Some? then rows[key := row.value] else rows - {key}
  }

  class AuthThrottleService {
    var rows: map<string, Row>

    constructor ()
      ensures rows == map[]
    {
      rows := map[];
    }

    // An empty key is never throttled.
    method AssertNotBlocked(key: string, now: int, c: Config) returns (blocked: bool)
      modifies this
      ensures blocked == (key != "" && IsBlocked(Lookup(old(rows), key), now))
      ensures rows == if key == "" then old(rows) else Store(old(rows), key, Checked(Lookup(old(rows), key), now, c))
    {
      if key == "" || key !in rows { return false; }
      var row := rows[key];
      if row.blockedUntil.Some? && now < row.blockedUntil.value { return true; }
      if row.firstAttemptAt + c.windowMs <= now { rows := rows - {key}; }
      return false;
    }

    method RecordFailure(key: string, now: int, c: Config)
      modifies this
      ensures rows == if key == "" then old(rows) else old(rows)[key := Failed(Lookup(old(rows), key), now, c)]
    {
      if key == "" { return; }
      if key in rows && rows[key].firstAttemptAt <= now - c.windowMs { rows := rows - {key}; }
      if key in rows {
        rows := rows[key := rows[key].(attempts := rows[key].attempts + 1, lastAttemptAt := now)];
      } else {
        rows := rows[key := Row(1, now, now, None)];
      }
      if c.limit <= rows[key].attempts {
        rows := rows[key := rows[key].(blockedUntil := Some(now + c.blockMs), lastAttemptAt := now)];
      }
    }

    method Reset(key: string)
      modifies this
      ensures rows == if key == "" then old(rows) else old(rows) - {key}
    {
      if key != "" { rows := rows - {key}; }
    }
  }

  // ---------- attempts on one key ----------

  // The times of the check and, unless that refuses, of the end of the attempt, and whether it ends with
  // a recorded failure; one that neither fails nor succeeds leaves no record.
  datatype Attempt = Attempt(checkAt: int, failAt: int, recorded: bool)

  ghost predicate Sequential(attempts: seq<Attempt>) {
    && (forall i | 0 <= i < |attempts| :: attempts[i].checkAt <= attempts[i].failAt)
    && (forall i | 0 < i < |attempts| :: attempts[i - 1].failAt <= attempts[i].checkAt)
  }

  function RowAfter(attempts: seq<Attempt>, c: Config): Option<Row>
    decreases |attempts|
  {
    if attempts == [] then None
    else
      var a := attempts[|attempts| - 1];
      var row := RowAfter(attempts[..|attempts| - 1], c);
      if IsBlocked(row, a.checkAt) then row
      else if a.recorded then Some(Failed(Checked(row, a.checkAt, c), a.failAt, c))
      else Checked(row, a.checkAt, c)
  }

  function FailuresWithin(attempts: seq<Attempt>, c: Config, low: int, high: int): nat
    decreases |attempts|
  {
    if attempts == [] then 0
    else
      var a := attempts[|attempts| - 1];
      var before := attempts[..|attempts| - 1];
      FailuresWithin(before, c, low, high)
        + if !IsBlocked(RowAfter(before, c), a.checkAt) && a.recorded && low <= a.failAt < high then 1 else 0
  }

  function AtMost(n: int, max: int): int {
    if n <= max then n else max
  }

  // What the row says about the `n` failures counted up to `end`.
  ghost predicate Accounted(row: Option<Row>, n: nat, end: int, c: Config, low: int, high: int) {
    match row
    case None => n <= (if end <= low || high <= low then 0 else if end < high then c.limit - 1 else 2 * c.limit - 1)
    case Some(r) =>
      && 1 <= r.attempts && r.firstAttemptAt <= r.lastAttemptAt <= end
      && (0 < c.windowMs ==> r.lastAttemptAt < r.firstAttemptAt + c.windowMs)
      && (c.limit <= r.attempts ==> r.blockedUntil == Some(r.lastAttemptAt + c.blockMs))
      && (r.lastAttemptAt < low || high <= low ==> n == 0)
      && n <= (if r.firstAttemptAt <= low then AtMost(r.attempts, c.limit)
               else if r.firstAttemptAt < high then c.limit - 1 + AtMost(r.attempts, c.limit)
               else 2 * c.limit - 1)
  }

  lemma AccountedStep(row: Option<Row>, n: nat, end: int, a: Attempt, c: Config, low: int, high: int)
    requires 1 <= c.limit && high - low <= c.windowMs && high - low <= c.blockMs
    requires Accounted(row, n, end, c, low, high) && end <= a.checkAt <= a.failAt
    requires !IsBlocked(row, a.checkAt)
    ensures Accounted(Some(Failed(Checked(row, a.checkAt, c), a.failAt, c)),
                      n + if low <= a.failAt < high then 1 else 0, a.failAt, c, low, high)
  {
  }

  // A check that is followed by no recorded failure may drop the row, but not what it accounts for.
  lemma CheckedStep(row: Option<Row>, n: nat, end: int, a: Attempt, c: Config, low: int, high: int)
    requires 1 <= c.limit && high - low <= c.windowMs && high - low <= c.blockMs
    requires Accounted(row, n, end, c, low, high) && end <= a.checkAt <= a.failAt && !IsBlocked(row, a.checkAt)
    ensures Accounted(Checked(row, a.checkAt, c), n, a.failAt, c, low, high)
  {
  }

  lemma {:induction false} AlwaysAccounted(attempts: seq<Attempt>, c: Config, low: int, high: int, end: int)
    requires 1 <= c.limit && Sequential(attempts)
    requires high - low <= c.windowMs && high - low <= c.blockMs
    requires attempts != [] ==> end == attempts[|attempts| - 1].failAt
    ensures Accounted(RowAfter(attempts, c), FailuresWithin(attempts, c, low, high), end, c, low, high)
    decreases |attempts|
  {
    hide Accounted, Failed, Checked, IsBlocked;
    if attempts == [] {
      NothingToAccount(end, c, low, high);
    } else {
      var before, a := attempts[..|attempts| - 1], attempts[|attempts| - 1];
      var last := if before == [] then a.checkAt else before[|before| - 1].failAt;
      AlwaysAccounted(before, c, low, high, last);
      var row := RowAfter(before, c);
      if IsBlocked(row, a.checkAt) {
        AccountedLater(row, FailuresWithin(before, c, low, high), last, end, c, low, high);
      } else if a.recorded {
        AccountedStep(row, FailuresWithin(before, c, low, high), last, a, c, low, high);
      } else {
        CheckedStep(row, FailuresWithin(before, c, low, high), last, a, c, low, high);
      }
    }
  }

  lemma NothingToAccount(end: int, c: Config, low: int, high: int)
    requires 1 <= c.limit
    ensures Accounted(None, 0, end, c, low, high)
  {
  }

  lemma AccountedLater(row: Option<Row>, n: nat, end: int, later: int, c: Config, low: int, high: int)
    requires 1 <= c.limit && Accounted(row, n, end, c, low, high) && end <= later
    ensures Accounted(row, n, later, c, low, high)
  {
  }

  /** With attempts that do not overlap and no reset, an interval no longer than the window and the
      block holds at most twice the limit, less one, recorded failures. */
  lemma FewerThanTwiceTheLimit(attempts: seq<Attempt>, c: Config, low: int, high: int)
    requires 1 <= c.limit && Sequential(attempts)
    requires high - low <= c.windowMs && high - low <= c.blockMs
    ensures FailuresWithin(attempts, c, low, high) <= 2 * c.limit - 1
  {
    AlwaysAccounted(attempts, c, low, high, if attempts == [] then 0 else attempts[|attempts| - 1].failAt);
  }

  // ---------- when a key is blocked, and for how long ----------

  // All recorded, none after the window that the first of them opens, and no more than the limit.
  ghost predicate OneWindow(attempts: seq<Attempt>, c: Config) {
    && attempts != [] && |attempts| <= c.limit && Sequential(attempts)
    && (forall a | a in attempts :: a.recorded && a.failAt < attempts[0].failAt + c.windowMs)
  }

  lemma {:induction false} RowOfWindow(attempts: seq<Attempt>, c: Config)
    requires OneWindow(attempts, c)
    ensures RowAfter(attempts, c) == Some(Counted(|attempts|, attempts[0].failAt, attempts[|attempts| - 1].failAt, c))
    decreases |attempts|
  {
    hide Failed, Checked, IsBlocked;
    var k := |attempts| - 1;
    var before, a := attempts[..k], attempts[k];
    assert a in attempts;
    if k == 0 {
      FirstIsCounted(a, c);
    } else {
      PrefixInWindow(attempts, c, k);
      RowOfWindow(before, c);
      NextIsCounted(k, before[0].failAt, before[k - 1].failAt, a, c);
    }
  }

  // The row after n failures in one window.
  function Counted(n: int, first: int, last: int, c: Config): Row {
    Row(n, first, last, if n == c.limit then Some(last + c.blockMs) else None)
  }

  lemma PrefixInWindow(attempts: seq<Attempt>, c: Config, k: nat)
    requires OneWindow(attempts, c) && 1 <= k < |attempts|
    ensures OneWindow(attempts[..k], c)
  {
    assert forall b | b in attempts[..k] :: b in attempts;
  }

  lemma FirstIsCounted(a: Attempt, c: Config)
    requires 1 <= c.limit && a.checkAt <= a.failAt
    ensures !IsBlocked(None, a.checkAt)
            && Failed(Checked(None, a.checkAt, c), a.failAt, c) == Counted(1, a.failAt, a.failAt, c)
  {
  }

  lemma NextIsCounted(k: int, first: int, last: int, a: Attempt, c: Config)
    requires 1 <= k < c.limit && a.checkAt <= a.failAt < first + c.windowMs
    ensures var row := Some(Counted(k, first, last, c));
            !IsBlocked(row, a.checkAt)
                && Failed(Checked(row, a.checkAt, c), a.failAt, c) == Counted(k + 1, first, a.failAt, c)
  {
  }

  /** Failures within one window block the key exactly if they reach the limit, from then on and until the
      block time after the last of them is over; and while it is blocked, attempts are refused and
      nothing is counted or forgotten, even when the window ends. */
  lemma BlocksExactly(attempts: seq<Attempt>, c: Config, now: int)
    requires OneWindow(attempts, c)
    ensures var row, end := RowAfter(attempts, c), attempts[|attempts| - 1].failAt;
            && (IsBlocked(row, now) <==> |attempts| == c.limit && now < end + c.blockMs)
            && (IsBlocked(row, now) ==> Checked(row, now, c) == row)
  {
    RowOfWindow(attempts, c);
  }

  /** The window is over exactly when its length has passed since its first failure: then the check of an
      unblocked key forgets the row, and the next failure is counted as the first. */
  lemma WindowEndsExactly(r: Row, c: Config, now: int)
    requires !IsBlocked(Some(r), now) && 0 < r.attempts
    ensures Checked(Some(r), now, c) == (if now - r.firstAttemptAt < c.windowMs then Some(r) else None)
    ensures Failed(Some(r), now, c).attempts == (if now - r.firstAttemptAt < c.windowMs then r.attempts + 1 else 1)
    ensures Failed(Some(r), now, c).firstAttemptAt
            == (if now - r.firstAttemptAt < c.windowMs then r.firstAttemptAt else now)
  {
  }

  function RecordedIn(attempts: seq<Attempt>): nat
    decreases |attempts|
  {
    if attempts == [] then 0
    else
      var k := |attempts| - 1;
      RecordedIn(attempts[..k]) + if attempts[k].recorded then 1 else 0
  }

  /** A reset forgives: from no row on, as after a successful login, attempts among which fewer failures
      are recorded than the limit block nobody, whenever they come. */
  lemma {:induction false} ResetForgives(attempts: seq<Attempt>, c: Config, now: int)
    requires RecordedIn(attempts) < c.limit
    ensures !IsBlocked(RowAfter(attempts, c), now)
    ensures RowAfter(attempts, c).Some? ==>
              var row := RowAfter(attempts, c).value;
              row.attempts <= RecordedIn(attempts) && row.blockedUntil.None?
    decreases |attempts|
  {
    if attempts != [] { ResetForgives(attempts[..|attempts| - 1], c, attempts[|attempts| - 1].checkAt); }
  }
}
