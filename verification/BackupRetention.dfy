/** Retention passes: repeated at rest they stop, and what then remains of the unprotected successful
    backups is the newest `retentionCount` of those there were; and which run a single pass picks. */
module BackupRetention {
  import opened Options
  import opened Calendar
  import opened BackupSchedule
  import opened BackupRuns

  datatype Pass = Pass(latest: Option<RunId>, visible: seq<RunId>, now: int)

  ghost function LiveIds(t: Table): set<RunId> {
    set id | id in t && Live(t, id)
  }

  ghost function VisibleIds(t: Table): set<RunId> {
    set id | id in t && Visible(t, id)
  }

  ghost function RetainableIds(t: Table): set<RunId> {
    set id | id in t && Retainable(t, id)
  }

  // `top` holds the newest `count` retainable runs, or all if there are fewer.
  ghost predicate IsNewest(t: Table, top: set<RunId>, count: int) {
    && top <= RetainableIds(t)
    && (forall x, y | x in top && y in RetainableIds(t) && End(t[x]) < End(t[y]) :: y in top)
    && |top| == Min(count, |RetainableIds(t)|)
  }

  ghost predicate PassOk(t: Table, p: Pass) {
    IsLatestSuccessful(t, p.latest) && IsVisibleList(t, p.visible)
  }

  ghost function Expired(t: Table, p: Pass, days: int, count: int): set<RunId> {
    SetOf(ExpiredRows(t, p.latest, p.visible, p.now, days, count))
  }

  ghost function AfterPass(t: Table, p: Pass, days: int, count: int): Table {
    Retire(t, Expired(t, p, days, count), p.now)
  }

  ghost function AfterPasses(t: Table, ps: seq<Pass>, days: int, count: int): Table
    decreases |ps|
  {
    if ps == [] then t else AfterPasses(AfterPass(t, ps[0], days, count), ps[1..], days, count)
  }

  ghost predicate PassesOk(t: Table, ps: seq<Pass>, days: int, count: int)
    decreases |ps|
  {
    ps == [] || (PassOk(t, ps[0]) && PassesOk(AfterPass(t, ps[0], days, count), ps[1..], days, count))
  }

  // Every one of the passes retires something.
  ghost predicate AllRetire(t: Table, ps: seq<Pass>, days: int, count: int)
    decreases |ps|
  {
    ps == []
        || (Expired(t, ps[0], days, count) != {} && AllRetire(AfterPass(t, ps[0], days, count), ps[1..], days, count))
  }

  lemma {:induction false} FilterKeepsDistinct(xs: seq<RunId>, keep: RunId -> bool)
    requires Distinct(xs)
    ensures Distinct(Filter(xs, keep))
  {
    if xs != [] {
      FilterKeepsDistinct(xs[1..], keep);
      assert xs[0] !in xs[1..];
    }
  }

  lemma {:induction false} FilterKeepsOrder(t: Table, xs: seq<RunId>, keep: RunId -> bool)
    requires NewestFirst(t, xs)
    ensures NewestFirst(t, Filter(xs, keep))
  {
    if xs != [] {
      FilterKeepsOrder(t, xs[1..], keep);
      assert keep(xs[0]) ==> Filter(xs, keep)[1..] == Filter(xs[1..], keep);
    }
  }

  lemma {:induction false} NewestFirstAt(t: Table, xs: seq<RunId>, i: int, j: int)
    requires NewestFirst(t, xs) && 0 <= i < j < |xs|
    ensures xs[i] in t && xs[j] in t && End(t[xs[j]]) <= End(t[xs[i]])
    decreases i
  {
    if i == 0 {
      assert xs[j] == xs[1..][j - 1];
    } else {
      NewestFirstAt(t, xs[1..], i - 1, j - 1);
    }
  }

  lemma {:induction false} DistinctSize(xs: seq<RunId>)
    requires Distinct(xs)
    ensures |SetOf(xs)| == |xs|
  {
    if xs != [] {
      DistinctSize(xs[1..]);
      assert xs == [xs[0]] + xs[1..];
      assert SetOf(xs) == {xs[0]} + SetOf(xs[1..]);
    }
  }

  lemma SubsetSize(a: set<RunId>, b: set<RunId>)
    requires a <= b
    ensures |a| <= |b|
    ensures |a| == |b| ==> a == b
  {
    assert b == a + (b - a);
  }

  // With at most 500 visible runs the query returns them all.
  lemma ListsAll(t: Table, rows: seq<RunId>)
    requires IsVisibleList(t, rows) && |VisibleIds(t)| <= 500
    ensures SetOf(rows) == VisibleIds(t)
  {
    DistinctSize(rows);
    SubsetSize(SetOf(rows), VisibleIds(t));
  }

  lemma KeepsNewestOf(t: Table, p: Pass, count: int)
    requires PassOk(t, p) && |VisibleIds(t)| <= 500 && 0 <= count
    ensures IsNewest(t, SetOf(Take(SuccessfulRows(t, p.visible), count)), count)
  {
    var rows := SuccessfulRows(t, p.visible);
    var kept := Take(rows, count);
    ListsAll(t, p.visible);
    FilterKeepsOrder(t, p.visible, id => id in t && t[id].status == Completed);
    FilterKeepsDistinct(p.visible, id => id in t && t[id].status == Completed);
    DistinctSize(rows);
    DistinctSize(kept);
    assert SetOf(rows) == RetainableIds(t) by {
      forall id ensures id in rows <==> id in RetainableIds(t) {
        assert id in p.visible <==> id in SetOf(p.visible);
      }
    }
    forall x, y | x in SetOf(kept) && y in RetainableIds(t) && End(t[x]) < End(t[y]) ensures y in SetOf(kept) {
      assert y in SetOf(rows);
      var i :| 0 <= i < |kept| && kept[i] == x;
      var j :| 0 <= j < |rows| && rows[j] == y;
      assert rows[i] == x;
      if i < j { NewestFirstAt(t, rows, i, j); }
      assert kept[j] == y;
    }
  }

  lemma ExpiredRowsAre(t: Table, p: Pass, days: int, count: int, id: RunId)
    requires id in Expired(t, p, days, count)
    ensures id in p.visible
    ensures IsExpired(t, id, p.latest, KeepIds(t, p.visible, p.latest, count), p.now, days)
  {
    hide ExpiredRows, KeepIds, IsExpired;
  }

  // The successes that a pass keeps by their rank.
  ghost function Kept(t: Table, p: Pass, count: int): set<RunId> {
    SetOf(Take(SuccessfulRows(t, p.visible), count))
  }

  lemma SparesKept(t: Table, p: Pass, days: int, count: int)
    requires PassOk(t, p) && |VisibleIds(t)| <= 500 && 0 <= count
    ensures IsNewest(t, Kept(t, p, count), count)
    ensures Kept(t, p, count) !! Expired(t, p, days, count)
  {
    hide Expired, PassOk, SuccessfulRows, IsNewest;
    KeepsNewestOf(t, p, count);
    forall id | id in Expired(t, p, days, count) ensures id !in Kept(t, p, count) {
      ExpiredRowsAre(t, p, days, count, id);
      KeptIsNotExpired(t, p, days, count, id);
    }
  }

  lemma KeptIsNotExpired(t: Table, p: Pass, days: int, count: int, id: RunId)
    requires IsExpired(t, id, p.latest, KeepIds(t, p.visible, p.latest, count), p.now, days)
    ensures id !in Kept(t, p, count)
  {
    KeptSucceeded(t, p, count, id);
  }

  lemma KeptSucceeded(t: Table, p: Pass, count: int, id: RunId)
    ensures id in Kept(t, p, count) ==> id in SuccessfulRows(t, p.visible)
  {
    var rows := SuccessfulRows(t, p.visible);
    assert forall x :: x in Take(rows, count) ==> x in rows;
  }

  /** A pass keeps what is newest: any newest `count` runs after it were the newest `count` before it,
      whatever ties there are. */
  lemma PassKeepsNewest(t: Table, p: Pass, days: int, count: int, top: set<RunId>)
    requires PassOk(t, p) && |VisibleIds(t)| <= 500 && 0 <= count
    requires IsNewest(AfterPass(t, p, days, count), top, count)
    ensures IsNewest(t, top, count) && |VisibleIds(AfterPass(t, p, days, count))| <= 500
  {
    hide PassOk, Expired, Retire, VisibleIds, LiveIds, Kept, RetainableIds, IsNewest;
    var gone, kept := Expired(t, p, days, count), Kept(t, p, count);
    var u := AfterPass(t, p, days, count);
    SparesKept(t, p, days, count);
    RetireShrinks(t, gone, p.now);
    SubsetSize(VisibleIds(u), VisibleIds(t));
    SubsetSize(RetainableIds(u), RetainableIds(t));
    TopSize(u, top, count);
    TopSize(t, kept, count);
    SubsetSize(kept, RetainableIds(u));
    forall x, y | x in top && y in RetainableIds(t) && x in t && y in t && End(t[x]) < End(t[y]) ensures y in top {
      TopIsClosed(t, u, kept, top, count, x, y);
    }
    OrderOf(t, u, top, count);
  }

  lemma TopSize(t: Table, top: set<RunId>, count: int)
    requires IsNewest(t, top, count)
    ensures |top| == Min(count, |RetainableIds(t)|) && top <= RetainableIds(t)
  {
  }

  // Nothing above a run of `top` was retired: `kept` would lie above it as well, and not fit in.
  lemma TopIsClosed(t: Table, u: Table, kept: set<RunId>, top: set<RunId>, count: int, x: RunId, y: RunId)
    requires IsNewest(t, kept, count) && IsNewest(u, top, count) && kept <= RetainableIds(u) <= RetainableIds(t)
    requires forall id | id in u :: id in t && End(u[id]) == End(t[id])
    requires |top| <= count && x in top && y in RetainableIds(t) && x in t && y in t && End(t[x]) < End(t[y])
    ensures y in top
  {
    hide IsNewest, RetainableIds;
    if y !in top {
      if y in RetainableIds(u) {
        TopSize(u, top, count);
        Retained(u, x);
        Retained(u, y);
        ClosedAbove(u, top, count, x, y);
      } else {
        OutsiderIsOlder(t, kept, y, count);
        KeptIsInTop(t, u, kept, top, count, x, y);
        SubsetSize(kept + {x}, top);
      }
    }
  }

  lemma ClosedAbove(u: Table, top: set<RunId>, count: int, x: RunId, y: RunId)
    requires IsNewest(u, top, count) && x in top && y in RetainableIds(u) && x in u && y in u && End(u[x]) < End(u[y])
    ensures y in top
  {
  }

  lemma Retained(t: Table, id: RunId)
    ensures id in RetainableIds(t) ==> id in t
  {
  }

  // A run that is not among the newest `count` ended no later than any of them, and these are `count`.
  lemma OutsiderIsOlder(t: Table, kept: set<RunId>, y: RunId, count: int)
    requires IsNewest(t, kept, count) && y in RetainableIds(t) && y !in kept
    ensures |kept| == count && forall k | k in kept :: k in t && End(t[y]) <= End(t[k])
  {
    SubsetSize(kept + {y}, RetainableIds(t));
  }

  lemma KeptIsInTop(t: Table, u: Table, kept: set<RunId>, top: set<RunId>, count: int, x: RunId, y: RunId)
    requires IsNewest(t, kept, count) && IsNewest(u, top, count) && kept <= RetainableIds(u) <= RetainableIds(t)
    requires forall id | id in u :: id in t && End(u[id]) == End(t[id])
    requires x in top && y in RetainableIds(t) && y !in kept && x in t && y in t && End(t[x]) < End(t[y])
    requires forall k | k in kept :: k in t && End(t[y]) <= End(t[k])
    ensures kept <= top && x !in kept
  {
  }

  // What `top` must be in `t` once nothing above it is missing.
  lemma OrderOf(t: Table, u: Table, top: set<RunId>, count: int)
    requires IsNewest(u, top, count) && RetainableIds(u) <= RetainableIds(t)
    requires forall x, y | x in top && y in RetainableIds(t) && x in t && y in t && End(t[x]) < End(t[y]) :: y in top
    requires |RetainableIds(u)| < |RetainableIds(t)| ==> count <= |RetainableIds(u)|
    ensures IsNewest(t, top, count)
  {
    SubsetSize(RetainableIds(u), RetainableIds(t));
  }

  lemma RetireShrinks(t: Table, gone: set<RunId>, at: int)
    ensures var u := Retire(t, gone, at);
            && RetainableIds(u) == RetainableIds(t) - gone && VisibleIds(u) == VisibleIds(t) - gone
            && LiveIds(u) == LiveIds(t) - gone && u.Keys == t.Keys
            && forall id | id in u :: End(u[id]) == End(t[id])
  {
    var u := Retire(t, gone, at);
    assert forall id | Successful(u, id) :: Successful(t, id);
  }

  lemma PassShrinks(t: Table, p: Pass, days: int, count: int)
    requires PassOk(t, p) && Expired(t, p, days, count) != {}
    ensures |LiveIds(AfterPass(t, p, days, count))| < |LiveIds(t)|
  {
    hide Expired, IsExpired, KeepIds, Retire, LiveIds;
    var gone := Expired(t, p, days, count);
    RetireShrinks(t, gone, p.now);
    var id := AnyExpired(t, p, days, count);
    ExpiredRowsAre(t, p, days, count, id);
    assert id in LiveIds(t) by { assert Visible(t, id); LiveIdsHold(t, id); }
    Removal(LiveIds(t), gone, id);
  }

  lemma AnyExpired(t: Table, p: Pass, days: int, count: int) returns (id: RunId)
    requires Expired(t, p, days, count) != {}
    ensures id in Expired(t, p, days, count)
  {
    hide ExpiredRows;
    var rows := ExpiredRows(t, p.latest, p.visible, p.now, days, count);
    assert rows != [];
    id := rows[0];
  }

  lemma LiveIdsHold(t: Table, id: RunId)
    requires Live(t, id)
    ensures id in LiveIds(t)
  {
  }

  lemma Removal(a: set<RunId>, gone: set<RunId>, id: RunId)
    requires id in a && id in gone
    ensures |a - gone| < |a|
  {
    SubsetSize(a - gone, a - {id});
  }

  // A pass that retires nothing leaves what it keeps, and the latest.
  lemma AtRest(t: Table, p: Pass, days: int, count: int)
    requires PassOk(t, p) && |VisibleIds(t)| <= 500 && 1 <= count
    requires Expired(t, p, days, count) == {}
    ensures RetainableIds(t) - Kept(t, p, count) <= if p.latest.Some? then {p.latest.value} else {}
  {
    hide ExpiredRows, SuccessfulRows, IsVisibleList, IsLatestSuccessful;
    ListsAll(t, p.visible);
    NoRows(ExpiredRows(t, p.latest, p.visible, p.now, days, count));
    forall id | id in RetainableIds(t) && p.latest != Some(id) ensures id in Kept(t, p, count) {
      assert id in SetOf(p.visible);
      assert !IsExpired(t, id, p.latest, KeepIds(t, p.visible, p.latest, count), p.now, days);
    }
  }

  // If anything is kept beside the newest, it is the latest success and shares its end with all of them.
  lemma ExtraIsTied(t: Table, p: Pass, count: int, k: RunId)
    requires PassOk(t, p) && 1 <= count && IsNewest(t, Kept(t, p, count), count)
    requires p.latest.Some? && p.latest.value in RetainableIds(t) - Kept(t, p, count) && k in Kept(t, p, count)
    ensures k in t && End(t[k]) == End(t[p.latest.value])
  {
    hide Kept, IsVisibleList;
    assert Successful(t, k);
  }

  lemma NoRows(xs: seq<RunId>)
    ensures xs != [] ==> SetOf(xs) != {}
  {
    if xs != [] { assert xs[0] in SetOf(xs); }
  }

  // What remains of the unprotected successes: the newest `count` of `t`, and at most one more that
  // ended when all of these did.
  ghost predicate Converged(t: Table, rest: set<RunId>, top: set<RunId>, count: int) {
    && IsNewest(t, top, count) && top <= rest && |rest - top| <= 1
    && forall x, k | x in rest - top && k in top :: x in t && k in t && End(t[x]) == End(t[k])
  }

  lemma ConvergedAtRest(t: Table, p: Pass, days: int, count: int)
    requires PassOk(t, p) && |VisibleIds(t)| <= 500 && 1 <= count && Expired(t, p, days, count) == {}
    ensures Converged(t, RetainableIds(t), Kept(t, p, count), count)
  {
    hide PassOk, Kept, Expired, IsNewest, RetainableIds;
    SparesKept(t, p, days, count);
    AtRest(t, p, days, count);
    NewestAreRetainable(t, Kept(t, p, count), count);
    var extra := RetainableIds(t) - Kept(t, p, count);
    if p.latest.Some? { SubsetSize(extra, {p.latest.value}); }
    forall x, k | x in extra && k in Kept(t, p, count) ensures x in t && k in t && End(t[x]) == End(t[k]) {
      Retained(t, x);
      ExtraIsTied(t, p, count, k);
    }
  }

  lemma NewestAreRetainable(t: Table, top: set<RunId>, count: int)
    requires IsNewest(t, top, count)
    ensures top <= RetainableIds(t)
  {
  }

  /** Passes that retire something are at most as many as the live runs; and when a further pass `p`
      retires nothing, what survives of the unprotected successful backups is the newest `count` of
      the original ones, and at most one more, tied with all of these. */
  lemma {:induction false} RetentionConverges(t: Table, ps: seq<Pass>, p: Pass, days: int, count: int)
    requires PassesOk(t, ps, days, count) && |VisibleIds(t)| <= 500 && 1 <= count
    ensures AllRetire(t, ps, days, count) ==> |ps| <= |LiveIds(t)|
    ensures var u := AfterPasses(t, ps, days, count);
            PassOk(u, p) && Expired(u, p, days, count) == {} ==>
                Converged(t, RetainableIds(u), Kept(u, p, count), count)
    decreases |ps|
  {
    hide PassOk, IsNewest, AfterPass, Expired, Kept, VisibleIds, RetainableIds, LiveIds;
    if ps == [] {
      if PassOk(t, p) && Expired(t, p, days, count) == {} { ConvergedAtRest(t, p, days, count); }
    } else {
      var v, u := AfterPass(t, ps[0], days, count), AfterPasses(t, ps, days, count);
      FewerVisible(t, ps[0], days, count);
      RetentionConverges(v, ps[1..], p, days, count);
      if AllRetire(t, ps, days, count) { PassShrinks(t, ps[0], days, count); }
      if PassOk(u, p) && Expired(u, p, days, count) == {} {
        PassKeepsNewest(t, ps[0], days, count, Kept(u, p, count));
        PassKeepsEnds(t, ps[0], days, count);
      }
    }
  }

  lemma FewerVisible(t: Table, p: Pass, days: int, count: int)
    requires PassOk(t, p) && |VisibleIds(t)| <= 500
    ensures |VisibleIds(AfterPass(t, p, days, count))| <= 500
  {
    hide Expired, Retire, VisibleIds;
    RetireShrinks(t, Expired(t, p, days, count), p.now);
    SubsetSize(VisibleIds(AfterPass(t, p, days, count)), VisibleIds(t));
  }

  lemma PassKeepsEnds(t: Table, p: Pass, days: int, count: int)
    ensures forall id | id in AfterPass(t, p, days, count) ::
              id in t && End(AfterPass(t, p, days, count)[id]) == End(t[id])
  {
    hide Expired;
  }

  // ---------- which single run a pass retires ----------

  // The unprotected successes that ended after x, and those that ended no earlier.
  ghost function Newer(t: Table, x: RunId): set<RunId>
    requires x in t
  {
    set y | y in t && Retainable(t, y) && End(t[x]) < End(t[y])
  }

  ghost function Rivals(t: Table, x: RunId): set<RunId>
    requires x in t
  {
    set y | y in t && y != x && Retainable(t, y) && End(t[x]) <= End(t[y])
  }

  // The other visible runs that ended no earlier.
  ghost function Overtaking(t: Table, x: RunId): set<RunId>
    requires x in t
  {
    set y | y in t && y != x && Visible(t, y) && End(t[x]) <= End(t[y])
  }

  lemma ListedIsVisible(t: Table, visible: seq<RunId>, x: RunId)
    requires IsVisibleList(t, visible) && x in visible
    ensures Visible(t, x)
  {
  }

  lemma RowsOf(t: Table, visible: seq<RunId>)
    requires IsVisibleList(t, visible)
    ensures var rows := SuccessfulRows(t, visible);
            && Distinct(rows) && NewestFirst(t, rows)
            && forall id :: id in rows <==> id in visible && Retainable(t, id)
  {
    FilterKeepsOrder(t, visible, id => id in t && t[id].status == Completed);
    FilterKeepsDistinct(visible, id => id in t && t[id].status == Completed);
  }

  /** However ties are listed, the place of a success among the listed ones lies between the number of
      those that ended after it and the number of those that ended no earlier. */
  lemma RankBounds(t: Table, visible: seq<RunId>, x: RunId, j: int)
    requires IsVisibleList(t, visible) && Retainable(t, x)
    requires var rows := SuccessfulRows(t, visible); 0 <= j < |rows| && rows[j] == x
    ensures |Newer(t, x)| <= j <= |Rivals(t, x)|
  {
    hide IsVisibleList, SuccessfulRows, Newer, Rivals;
    var rows := SuccessfulRows(t, visible);
    RowsOf(t, visible);
    DistinctSize(rows[..j]);
    forall y | y in SetOf(rows[..j]) ensures y in Rivals(t, x) {
      var i :| 0 <= i < j && rows[i] == y;
      NewestFirstAt(t, rows, i, j);
      assert y in rows;
      IsRival(t, x, y);
    }
    forall y | y in Newer(t, x) ensures y in SetOf(rows[..j]) { NewerIsAbove(t, visible, rows, x, j, y); }
    SubsetSize(SetOf(rows[..j]), Rivals(t, x));
    SubsetSize(Newer(t, x), SetOf(rows[..j]));
  }

  lemma IsRival(t: Table, x: RunId, y: RunId)
    requires x in t && y != x && Retainable(t, y) && End(t[x]) <= End(t[y])
    ensures y in Rivals(t, x)
  {
  }

  lemma NewerIsAbove(t: Table, visible: seq<RunId>, rows: seq<RunId>, x: RunId, j: int, y: RunId)
    requires IsVisibleList(t, visible) && 0 <= j < |rows| && rows[j] == x && x in t
    requires NewestFirst(t, rows) && forall id :: id in rows <==> id in visible && Retainable(t, id)
    requires y in Newer(t, x)
    ensures y in rows[..j]
  {
    hide NewestFirst;
    assert Visible(t, y);
    assert x in rows;
    assert y in visible;
    var i :| 0 <= i < |rows| && rows[i] == y;
    if j < i { NewestFirstAt(t, rows, j, i); }
    assert rows[..j][i] == y;
  }

  lemma KeptByRank(t: Table, p: Pass, count: int, x: RunId, j: int)
    requires IsVisibleList(t, p.visible) && Retainable(t, x) && 0 <= count
    requires var rows := SuccessfulRows(t, p.visible); 0 <= j < |rows| && rows[j] == x
    ensures x in Kept(t, p, count) <==> j < count
  {
    hide IsVisibleList;
    var rows := SuccessfulRows(t, p.visible);
    RowsOf(t, p.visible);
    if x in Kept(t, p, count) {
      var i :| 0 <= i < |Take(rows, count)| && Take(rows, count)[i] == x;
      assert rows[i] == x;
    }
    if j < count { assert Take(rows, count)[j] == x; }
  }

  // Within its retention period, a listed run is picked for its rank only.
  ghost predicate InPeriod(t: Table, p: Pass, days: int, x: RunId) {
    && x in t && p.now - days * MS_PER_DAY <= End(t[x])
    && (t[x].expiresAt.Some? ==> p.now <= t[x].expiresAt.value)
  }

  ghost predicate Picked(t: Table, p: Pass, days: int, count: int, x: RunId) {
    IsExpired(t, x, p.latest, KeepIds(t, p.visible, p.latest, count), p.now, days)
  }

  lemma PickedByRank(t: Table, p: Pass, days: int, count: int, x: RunId)
    requires x in p.visible && InPeriod(t, p, days, x)
    ensures Picked(t, p, days, count, x) <==>
            t[x].status == Completed && p.latest != Some(x) && x !in Kept(t, p, count)
  {
    hide SuccessfulRows, Take;
  }

  /** Retention leaves a listed run within its period alone if that did not succeed or fewer than `count`
      others ended no earlier, and picks it if at least `count` ended later, however ties are listed. */
  lemma PickedBounds(t: Table, p: Pass, days: int, count: int, x: RunId)
    requires PassOk(t, p) && x in p.visible && InPeriod(t, p, days, x) && 1 <= count
    ensures t[x].status != Completed || |Rivals(t, x)| < count ==> !Picked(t, p, days, count, x)
    ensures t[x].status == Completed && count <= |Newer(t, x)| ==> Picked(t, p, days, count, x)
  {
    hide IsVisibleList, Newer, Rivals, Picked, Kept, InPeriod, IsLatestSuccessful;
    PickedByRank(t, p, days, count, x);
    ListedIsVisible(t, p.visible, x);
    if t[x].status == Completed {
      RowsOf(t, p.visible);
      var rows := SuccessfulRows(t, p.visible);
      assert x in rows;
      var j :| 0 <= j < |rows| && rows[j] == x;
      RankBounds(t, p.visible, x, j);
      KeptByRank(t, p, count, x, j);
      if count <= |Newer(t, x)| { LatestIsNewer(t, p.latest, x); }
    }
  }

  /** A failed run is picked exactly if it is older than the retention period, or its own expiry is over. */
  lemma FailedPickedByAge(t: Table, p: Pass, days: int, count: int, x: RunId)
    requires PassOk(t, p) && x in p.visible && x in t && t[x].status == Failed
    ensures Picked(t, p, days, count, x) <==>
            || 1000 * 60 * 60 * 24 * days < p.now - (if t[x].completedAt.Some? then t[x].completedAt.value
                                                     else t[x].startedAt)
            || (t[x].expiresAt.Some? && t[x].expiresAt.value < p.now)
  {
    hide IsVisibleList, KeepIds;
  }

  /** A pass retires at most fifty runs, and all that it picks if these are no more. */
  lemma RetiresUpToFifty(t: Table, p: Pass, days: int, count: int)
    ensures |ExpiredRows(t, p.latest, p.visible, p.now, days, count)| <= 50
    ensures |p.visible| <= 50 ==>
              forall x | x in p.visible && Picked(t, p, days, count, x) ::
                x in ExpiredRows(t, p.latest, p.visible, p.now, days, count)
  {
    hide IsExpired, KeepIds;
  }

  lemma LatestIsNewer(t: Table, latest: Option<RunId>, x: RunId)
    requires IsLatestSuccessful(t, latest) && x in t && 1 <= |Newer(t, x)|
    ensures latest != Some(x)
  {
    var y :| y in Newer(t, x);
    assert Successful(t, y);
  }

  // ---------- the answers that the queries may give ----------

  // The run with the last end; of several, x first or x last.
  lemma {:induction false} Top(t: Table, ids: set<RunId>, x: RunId, last: bool) returns (m: RunId)
    requires ids != {} && forall id | id in ids :: id in t
    ensures m in ids && forall id | id in ids :: End(t[id]) <= End(t[m])
    ensures last && m == x ==> forall id | id in ids && id != x :: End(t[id]) < End(t[x])
    ensures !last && m != x && x in ids ==> End(t[x]) < End(t[m])
    decreases |ids|
  {
    var y := AnyOf(ids);
    if ids == {y} {
      m := y;
    } else {
      var rest := ids - {y};
      assert rest != {};
      var n := Top(t, rest, x, last);
      var better := End(t[n]) < End(t[y]) || (End(t[n]) == End(t[y]) && ((n == x) == last) && (n == x || y == x));
      m := if better then y else n;
      assert ids == rest + {y};
    }
  }

  // x comes before the others that ended with it, or after them.
  ghost predicate Placed(t: Table, xs: seq<RunId>, x: RunId, last: bool) {
    forall i, j | 0 <= i < j < |xs| && xs[i] in t && xs[j] in t ::
      && (last && xs[i] == x ==> End(t[xs[j]]) < End(t[xs[i]]))
      && (!last && xs[j] == x ==> End(t[xs[j]]) < End(t[xs[i]]))
  }

  lemma {:induction false} Sorted(t: Table, ids: set<RunId>, x: RunId, last: bool) returns (xs: seq<RunId>)
    requires forall id | id in ids :: id in t
    ensures SetOf(xs) == ids && Distinct(xs) && NewestFirst(t, xs) && Placed(t, xs, x, last)
    decreases |ids|
  {
    if ids == {} {
      xs := [];
    } else {
      var m := Top(t, ids, x, last);
      var rest := Sorted(t, ids - {m}, x, last);
      xs := [m] + rest;
      assert xs[1..] == rest;
      forall id | id in rest ensures id in ids && id != m { assert id in SetOf(rest); }
      SortedSet(ids, m, rest);
      PlacedOnTop(t, ids, m, rest, x, last);
    }
  }

  lemma SortedSet(ids: set<RunId>, m: RunId, rest: seq<RunId>)
    requires m in ids && SetOf(rest) == ids - {m} && Distinct(rest)
    ensures SetOf([m] + rest) == ids && Distinct([m] + rest)
  {
    var xs := [m] + rest;
    assert xs[1..] == rest;
    forall id ensures id in SetOf(xs) <==> id in ids { assert id in xs <==> id == m || id in SetOf(rest); }
    assert m !in SetOf(rest);
  }

  lemma PlacedOnTop(t: Table, ids: set<RunId>, m: RunId, rest: seq<RunId>, x: RunId, last: bool)
    requires m in ids && SetOf(rest) == ids - {m} && forall id | id in ids :: id in t
    requires last && m == x ==> forall id | id in ids && id != x :: End(t[id]) < End(t[m])
    requires !last && m != x && x in ids ==> End(t[x]) < End(t[m])
    requires Placed(t, rest, x, last)
    ensures Placed(t, [m] + rest, x, last)
  {
    var xs := [m] + rest;
    forall i, j | 0 <= i < j < |xs| && xs[i] in t && xs[j] in t
      ensures last && xs[i] == x ==> End(t[xs[j]]) < End(t[xs[i]])
      ensures !last && xs[j] == x ==> End(t[xs[j]]) < End(t[xs[i]])
    {
      assert xs[j] == rest[j - 1] && rest[j - 1] in SetOf(rest);
      if 0 < i { assert xs[i] == rest[i - 1]; }
    }
  }

  lemma {:induction false} PrefixNewestFirst(t: Table, xs: seq<RunId>, n: nat)
    requires NewestFirst(t, xs) && n <= |xs|
    ensures NewestFirst(t, xs[..n])
    decreases n
  {
    if 0 < n {
      PrefixNewestFirst(t, xs[1..], n - 1);
      assert xs[..n][1..] == xs[1..][..n - 1];
    }
  }

  // The newest 500 of a sorted list of all visible runs are an answer.
  lemma TopOfSortedIsList(t: Table, xs: seq<RunId>)
    requires SetOf(xs) == VisibleIds(t) && Distinct(xs) && NewestFirst(t, xs)
    ensures IsVisibleList(t, xs[..Min(500, |xs|)])
  {
    hide NewestFirst;
    var n := Min(500, |xs|);
    PrefixNewestFirst(t, xs, n);
    forall id | id in xs[..n] ensures Visible(t, id) { assert id in SetOf(xs); }
    forall m | 0 <= m < n ensures xs[m] in xs[..n] { assert xs[..n][m] == xs[m]; }
    forall id | Visible(t, id) && id !in xs[..n]
      ensures n == 500 && forall x | x in xs[..n] :: id in t && x in t && End(t[id]) <= End(t[x])
    {
      assert id in SetOf(xs);
      var k :| 0 <= k < |xs| && xs[k] == id;
      forall x | x in xs[..n] ensures x in t && End(t[id]) <= End(t[x]) {
        var i :| 0 <= i < n && xs[i] == x;
        NewestFirstAt(t, xs, i, k);
      }
    }
  }

  // A visible run that few others have overtaken stands near the top of every list.
  lemma ListedNearTop(t: Table, visible: seq<RunId>, x: RunId, j: int)
    requires IsVisibleList(t, visible) && Visible(t, x) && 0 <= j < |visible| && visible[j] == x
    ensures j <= |Overtaking(t, x)|
  {
    var above := visible[..j];
    assert Distinct(above);
    DistinctSize(above);
    forall y | y in SetOf(above) ensures y in Overtaking(t, x) {
      var i :| 0 <= i < j && visible[i] == y;
      NewestFirstAt(t, visible, i, j);
      ListedIsVisible(t, visible, y);
    }
    SubsetSize(SetOf(above), Overtaking(t, x));
  }

  lemma ListedWhenFew(t: Table, visible: seq<RunId>, x: RunId)
    requires IsVisibleList(t, visible) && Visible(t, x) && |Overtaking(t, x)| < 500
    ensures x in visible
  {
    if x !in visible {
      assert |visible| == 500;
      DistinctSize(visible);
      forall y | y in SetOf(visible) ensures y in Overtaking(t, x) { ListedIsVisible(t, visible, y); }
      SubsetSize(SetOf(visible), Overtaking(t, x));
    }
  }

  // The latest success; another than x if there is one as new.
  lemma SomeLatest(t: Table, x: RunId) returns (latest: Option<RunId>)
    requires Retainable(t, x)
    ensures IsLatestSuccessful(t, latest)
    ensures Rivals(t, x) != {} ==> latest != Some(x)
  {
    var ids := set id | id in t && Successful(t, id);
    assert x in ids;
    var m := Top(t, ids, x, true);
    latest := Some(m);
    assert forall id | Successful(t, id) :: id in ids;
    if y :| y in Rivals(t, x) { assert y in ids; }
  }

  // Answers of the two queries in which x is listed before, or after, all that ended with it.
  lemma Arranged(t: Table, x: RunId, last: bool) returns (latest: Option<RunId>, visible: seq<RunId>)
    requires Retainable(t, x) && |Overtaking(t, x)| < 500
    ensures IsLatestSuccessful(t, latest) && (Rivals(t, x) != {} ==> latest != Some(x))
    ensures IsVisibleList(t, visible) && x in visible && Placed(t, visible, x, last)
  {
    hide IsVisibleList, IsLatestSuccessful, Overtaking, Rivals;
    latest := SomeLatest(t, x);
    var xs := Sorted(t, VisibleIds(t), x, last);
    TopOfSortedIsList(t, xs);
    visible := xs[..Min(500, |xs|)];
    ListedWhenFew(t, visible, x);
  }

  // Placed last, x is kept exactly if fewer than `count` others ended no earlier ...
  lemma LastRank(t: Table, p: Pass, count: int, x: RunId)
    requires IsVisibleList(t, p.visible) && x in p.visible && Retainable(t, x) && 0 <= count
    requires Placed(t, p.visible, x, true) && |Overtaking(t, x)| < 500
    ensures x in Kept(t, p, count) <==> |Rivals(t, x)| < count
  {
    hide IsVisibleList, Newer, Rivals, Kept, Placed, Overtaking, SuccessfulRows;
    var rows := SuccessfulRows(t, p.visible);
    RowsOf(t, p.visible);
    assert x in rows;
    var j :| 0 <= j < |rows| && rows[j] == x;
    RankBounds(t, p.visible, x, j);
    KeptByRank(t, p, count, x, j);
    DistinctSize(rows[..j]);
    RowsPlaced(t, p.visible, x, true);
    forall y | y in Rivals(t, x) ensures y in SetOf(rows[..j]) {
      RivalIsListed(t, p.visible, x, y);
      assert y in rows;
      var i :| 0 <= i < |rows| && rows[i] == y;
      RivalIsAbove(t, rows, x, i, j);
      assert rows[..j][i] == y;
    }
    SubsetSize(Rivals(t, x), SetOf(rows[..j]));
  }

  // ... and placed first, if fewer than `count` ended later.
  lemma FirstRank(t: Table, p: Pass, count: int, x: RunId)
    requires IsVisibleList(t, p.visible) && x in p.visible && Retainable(t, x) && 0 <= count
    requires Placed(t, p.visible, x, false)
    ensures x in Kept(t, p, count) <==> |Newer(t, x)| < count
  {
    hide IsVisibleList, Newer, Rivals, Kept, Placed, SuccessfulRows;
    var rows := SuccessfulRows(t, p.visible);
    RowsOf(t, p.visible);
    assert x in rows;
    var j :| 0 <= j < |rows| && rows[j] == x;
    RankBounds(t, p.visible, x, j);
    KeptByRank(t, p, count, x, j);
    DistinctSize(rows[..j]);
    RowsPlaced(t, p.visible, x, false);
    forall y | y in SetOf(rows[..j]) ensures y in Newer(t, x) {
      var i :| 0 <= i < j && rows[i] == y;
      assert y in rows;
      AboveIsNewer(t, rows, x, i, j);
    }
    SubsetSize(SetOf(rows[..j]), Newer(t, x));
  }

  lemma RivalIsAbove(t: Table, rows: seq<RunId>, x: RunId, i: int, j: int)
    requires 0 <= i < |rows| && 0 <= j < |rows| && rows[j] == x && x in t && rows[i] in Rivals(t, x)
    requires Placed(t, rows, x, true)
    ensures i < j
  {
  }

  lemma AboveIsNewer(t: Table, rows: seq<RunId>, x: RunId, i: int, j: int)
    requires 0 <= i < j < |rows| && rows[j] == x && x in t && Retainable(t, rows[i])
    requires Placed(t, rows, x, false)
    ensures rows[i] in Newer(t, x)
  {
  }

  lemma RivalIsListed(t: Table, visible: seq<RunId>, x: RunId, y: RunId)
    requires IsVisibleList(t, visible) && x in t && y in Rivals(t, x) && |Overtaking(t, x)| < 500
    ensures y in visible && Retainable(t, y)
  {
    if y !in visible {
      assert |visible| == 500;
      DistinctSize(visible);
      var others := SetOf(visible) - {x};
      forall z | z in others ensures z in Overtaking(t, x) && z != y { ListedIsVisible(t, visible, z); }
      SubsetSize(others + {y}, Overtaking(t, x));
    }
  }

  lemma {:induction false} FilterPlaced(t: Table, xs: seq<RunId>, keep: RunId -> bool, x: RunId, last: bool)
    requires Placed(t, xs, x, last)
    ensures Placed(t, Filter(xs, keep), x, last)
  {
    if xs != [] {
      assert Placed(t, xs[1..], x, last);
      FilterPlaced(t, xs[1..], keep, x, last);
      var ys, rest := Filter(xs, keep), Filter(xs[1..], keep);
      forall i, j | 0 <= i < j < |ys| && ys[i] in t && ys[j] in t
        ensures last && ys[i] == x ==> End(t[ys[j]]) < End(t[ys[i]])
        ensures !last && ys[j] == x ==> End(t[ys[j]]) < End(t[ys[i]])
      {
        if keep(xs[0]) {
          assert ys[j] == rest[j - 1] && rest[j - 1] in xs[1..];
          var k :| 0 <= k < |xs| - 1 && xs[1..][k] == ys[j];
          assert xs[k + 1] == ys[j];
          if 0 < i { assert ys[i] == rest[i - 1]; }
        }
      }
    }
  }

  lemma RowsPlaced(t: Table, visible: seq<RunId>, x: RunId, last: bool)
    requires Placed(t, visible, x, last)
    ensures Placed(t, SuccessfulRows(t, visible), x, last)
  {
    FilterPlaced(t, visible, id => id in t && t[id].status == Completed, x, last);
  }
}
