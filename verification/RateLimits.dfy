/** The HTTP rate limiter, once with buckets in memory and once with counter rows in the database. */
module RateLimits {
  import opened Options

  type Key = int

  datatype Rule = Rule(max: int, windowMs: nat)

  // ---------- the HTTP limiter: buckets in memory ----------

  datatype Bucket = Bucket(count: int, resetAt: int)
  type Buckets = map<Key, Bucket>

  function BucketAfter(b: Option<Bucket>, now: int, rule: Rule): Bucket {
    if b.None? || b.value.resetAt <= now then Bucket(1, now + rule.windowMs) else b.value.(count := b.value.count + 1)
  }

  predicate BucketAllows(b: Option<Bucket>, now: int, rule: Rule) {
    b.None? || b.value.resetAt <= now || b.value.count + 1 <= rule.max
  }

  // ---------- the HTTP limiter: rows in the database ----------

  datatype Row = Row(attempts: int, firstAttemptAt: int, lastAttemptAt: int)

  function RowAfter(r: Option<Row>, now: int, rule: Rule): Row {
    if r.None? || r.value.firstAttemptAt <= now - rule.windowMs then Row(1, now, now)
    else r.value.(attempts := r.value.attempts + 1, lastAttemptAt := now)
  }

  predicate RowAllows(r: Option<Row>, now: int, rule: Rule) {
    RowAfter(r, now, rule).attempts <= rule.max
  }

  function Lookup<T>(m: map<Key, T>, key: Key): Option<T> {
    if key in m then Some(m[key]) else None
  }

  class MemoryLimiter {
    var buckets: Buckets

    constructor ()
      ensures buckets == map[]
    {
      buckets := map[];
    }

    method Allow(key: Key, now: int, rule: Rule) returns (allowed: bool)
      modifies this
      ensures allowed == BucketAllows(Lookup(old(buckets), key), now, rule)
      ensures buckets == old(buckets)[key := BucketAfter(Lookup(old(buckets), key), now, rule)]
    {
      if key !in buckets || buckets[key].resetAt <= now {
        buckets := buckets[key := Bucket(1, now + rule.windowMs)];
        return true;
      }
      buckets := buckets[key := buckets[key].(count := buckets[key].count + 1)];
      if rule.max < buckets[key].count { return false; }
      return true;
    }
  }

  class DatabaseLimiter {
    var rows: map<Key, Row>

    constructor ()
      ensures rows == map[]
    {
      rows := map[];
    }

    method Allow(key: Key, now: int, rule: Rule) returns (allowed: bool)
      modifies this
      ensures allowed == RowAllows(Lookup(old(rows), key), now, rule)
      ensures rows == old(rows)[key := RowAfter(Lookup(old(rows), key), now, rule)]
    {
      if key in rows && rows[key].firstAttemptAt <= now - rule.windowMs { rows := rows - {key}; }
      if key in rows {
        rows := rows[key := rows[key].(attempts := rows[key].attempts + 1, lastAttemptAt := now)];
      } else {
        rows := rows[key := Row(1, now, now)];
      }
      return rows[key].attempts <= rule.max;
    }
  }

  // ---------- the two agree ----------

  datatype Request = Request(key: Key, now: int)

  // The rule of a request is that of its path, which is part of its key.
  function MemoryAnswers(buckets: Buckets, requests: seq<Request>, rules: Key -> Rule): seq<bool>
    decreases |requests|
  {
    if requests == [] then []
    else
      var r := requests[0];
      var b := Lookup(buckets, r.key);
      [BucketAllows(b, r.now, rules(r.key))]
        + MemoryAnswers(buckets[r.key := BucketAfter(b, r.now, rules(r.key))], requests[1..], rules)
  }

  function DatabaseAnswers(rows: map<Key, Row>, requests: seq<Request>, rules: Key -> Rule): seq<bool>
    decreases |requests|
  {
    if requests == [] then []
    else
      var r := requests[0];
      var row := Lookup(rows, r.key);
      [RowAllows(row, r.now, rules(r.key))]
        + DatabaseAnswers(rows[r.key := RowAfter(row, r.now, rules(r.key))], requests[1..], rules)
  }

  ghost predicate Corresponds(buckets: Buckets, rows: map<Key, Row>, rules: Key -> Rule) {
    && buckets.Keys == rows.Keys
    && forall k | k in buckets ::
         buckets[k].count == rows[k].attempts && buckets[k].resetAt == rows[k].firstAttemptAt + rules(k).windowMs
  }

  lemma {:induction false} AgreeFrom(buckets: Buckets, rows: map<Key, Row>, requests: seq<Request>, rules: Key -> Rule)
    requires Corresponds(buckets, rows, rules) && forall k :: 1 <= rules(k).max
    ensures MemoryAnswers(buckets, requests, rules) == DatabaseAnswers(rows, requests, rules)
    decreases |requests|
  {
    if requests != [] {
      var r := requests[0];
      var rule := rules(r.key);
      var b, row := Lookup(buckets, r.key), Lookup(rows, r.key);
      var bs, rs := buckets[r.key := BucketAfter(b, r.now, rule)], rows[r.key := RowAfter(row, r.now, rule)];
      assert bs.Keys == rs.Keys;
      AgreeFrom(bs, rs, requests[1..], rules);
    }
  }

  /** The two limiters give the same answers to every request sequence exactly when every rule lets
      at least one request through: with a smaller maximum the memory limiter still lets the first
      request of a window pass. */
  lemma LimitersAgree(rules: Key -> Rule)
    ensures (forall requests :: MemoryAnswers(map[], requests, rules) == DatabaseAnswers(map[], requests, rules))
        <==> (forall k :: 1 <= rules(k).max)
  {
    if forall k :: 1 <= rules(k).max {
      forall requests ensures MemoryAnswers(map[], requests, rules) == DatabaseAnswers(map[], requests, rules) {
        AgreeFrom(map[], map[], requests, rules);
      }
    } else {
      var k :| !(1 <= rules(k).max);
      FirstRequestDiffers(rules, k);
    }
  }

  lemma FirstRequestDiffers(rules: Key -> Rule, k: Key)
    requires rules(k).max < 1
    ensures MemoryAnswers(map[], [Request(k, 0)], rules) != DatabaseAnswers(map[], [Request(k, 0)], rules)
  {
    assert MemoryAnswers(map[], [Request(k, 0)], rules)[0] == true;
    assert DatabaseAnswers(map[], [Request(k, 0)], rules)[0] == false;
  }

  // ---------- how many requests pass ----------

  ghost predicate Ascending(times: seq<int>) {
    forall i, j | 0 <= i < j < |times| :: times[i] <= times[j]
  }

  function RowAfterAll(times: seq<int>, rule: Rule): Option<Row> {
    if times == [] then None
    else Some(RowAfter(RowAfterAll(times[..|times| - 1], rule), times[|times| - 1], rule))
  }

  // Requests for one key that pass at or after `a` and before `a + windowMs`.
  function PassedWithin(times: seq<int>, rule: Rule, a: int): nat {
    if times == [] then 0
    else
      var t := times[|times| - 1];
      var before := times[..|times| - 1];
      PassedWithin(before, rule, a)
        + if a <= t < a + rule.windowMs && RowAllows(RowAfterAll(before, rule), t, rule) then 1 else 0
  }

  function AtMost(n: int, max: int): int {
    if n <= max then n else max
  }

  ghost predicate WindowCount(times: seq<int>, rule: Rule, a: int) {
    var row := RowAfterAll(times, rule);
    var passed := PassedWithin(times, rule, a);
    match row
    case None => passed == 0
    case Some(r) =>
      && 1 <= r.attempts && r.firstAttemptAt <= r.lastAttemptAt < r.firstAttemptAt + rule.windowMs + 1
      && (r.lastAttemptAt < a ==> passed == 0)
      && passed <= (if r.firstAttemptAt < a then AtMost(r.attempts, rule.max) - 1
                    else if r.firstAttemptAt == a then AtMost(r.attempts, rule.max)
                    else if r.firstAttemptAt < a + rule.windowMs then rule.max - 1 + AtMost(r.attempts, rule.max)
                    else 2 * rule.max - 1)
      && (0 < rule.windowMs ==> r.lastAttemptAt < r.firstAttemptAt + rule.windowMs)
      && times != [] && r.lastAttemptAt == times[|times| - 1]
  }

  lemma {:induction false} WindowCountHolds(times: seq<int>, rule: Rule, a: int)
    requires Ascending(times) && 1 <= rule.max
    ensures WindowCount(times, rule, a)
  {
    if times != [] {
      var before := times[..|times| - 1];
      WindowCountHolds(before, rule, a);
      assert before != [] ==> before[|before| - 1] == times[|times| - 2] <= times[|times| - 1];
    }
  }

  /** Any half-open interval as long as the window lets through at most twice the maximum, less one,
      per key. */
  lemma FewerThanTwicePerWindow(times: seq<int>, rule: Rule, a: int)
    requires Ascending(times) && 1 <= rule.max
    ensures PassedWithin(times, rule, a) <= 2 * rule.max - 1
  {
    WindowCountHolds(times, rule, a);
  }

  /** That many do pass: with a maximum of 2, three requests at 2, 3 and 4 in a window of 3. */
  lemma BoundIsReached()
    ensures Ascending([0, 2, 3, 4]) && PassedWithin([0, 2, 3, 4], Rule(2, 3), 2) == 3
  {
    var rule := Rule(2, 3);
    assert [0, 2, 3, 4][..3] == [0, 2, 3] && [0, 2, 3][..2] == [0, 2] && [0, 2][..1] == [0] && [0][..0] == [];
    assert RowAfterAll([0], rule) == Some(Row(1, 0, 0)) && PassedWithin([0], rule, 2) == 0;
    assert RowAfterAll([0, 2], rule) == Some(Row(2, 0, 2)) && PassedWithin([0, 2], rule, 2) == 1;
    assert RowAfterAll([0, 2, 3], rule) == Some(Row(1, 3, 3)) && PassedWithin([0, 2, 3], rule, 2) == 2;
  }
}
