/** Automatic backups over runs of worker ticks with fixed settings: how many start between two
    consecutive scheduled instants. Ticks do not overlap one another; everything else may happen
    between and within them: manual backups, protection, deletion, the death of the worker. */
module BackupTicks {
  import opened Options
  import opened Calendar
  import opened BackupSchedule
  import opened BackupRuns
  import opened BackupRetention

  datatype Event =
    | Tick(input: TickInput)
    | Others(table: Table, at: int)

  // Everything recorded started in the past.
  ghost predicate Settled(t: Table, clock: int) {
    forall id | id in t :: t[id].startedAt <= clock
  }

  ghost predicate Enabled(s: Settings, t: Table, clock: int, e: Event) {
    match e
    case Tick(i) => clock <= i.now && TickOk(s, t, i)
    case Others(u, at) => clock <= at && Meanwhile(t, u, at)
  }

  ghost function After(s: Settings, t: Table, clock: int, e: Event): Table
    requires InRange(s) && Enabled(s, t, clock, e)
  {
    match e
    case Tick(i) => AfterTick(s, t, i)
    case Others(u, _) => u
  }

  function ClockAfter(e: Event): int {
    match e
    case Tick(i) => i.retentionAt
    case Others(_, at) => at
  }

  ghost predicate StartsRun(s: Settings, t: Table, e: Event) {
    e.Tick? && (e.input.lastRun.Some? ==> e.input.lastRun.value in t) && Starts(s, t, e.input)
  }

  ghost predicate ValidRun(s: Settings, t: Table, clock: int, events: seq<Event>)
    requires InRange(s)
    decreases |events|
  {
    events == [] ||
    (Enabled(s, t, clock, events[0]) && ValidRun(s, After(s, t, clock, events[0]), ClockAfter(events[0]), events[1..]))
  }

  ghost function AfterAll(s: Settings, t: Table, clock: int, events: seq<Event>): Table
    requires InRange(s) && ValidRun(s, t, clock, events)
    decreases |events|
  {
    if events == [] then t else AfterAll(s, After(s, t, clock, events[0]), ClockAfter(events[0]), events[1..])
  }

  // An automatic run that started at or after `low` is on record.
  ghost predicate StartedSince(t: Table, low: int) {
    exists id | id in t :: Live(t, id) && t[id].trigger == Automatic && low <= t[id].startedAt
  }

  ghost function Count(b: bool): nat { if b then 1 else 0 }

  ghost predicate StartsIn(s: Settings, t: Table, e: Event, low: int, high: int) {
    StartsRun(s, t, e) && low <= e.input.startedAt < high
  }

  // The event takes the last such run off the record: one that was there, or that it has just started.
  ghost predicate Forgets(s: Settings, t: Table, clock: int, e: Event, low: int)
    requires InRange(s) && Enabled(s, t, clock, e)
  {
    (StartedSince(t, low) || (StartsRun(s, t, e) && low <= e.input.startedAt))
        && !StartedSince(After(s, t, clock, e), low)
  }

  // How many automatic runs the events start at or after `low` and before `high`.
  ghost function StartsWithin(s: Settings, t: Table, clock: int, events: seq<Event>, low: int, high: int): nat
    requires InRange(s) && ValidRun(s, t, clock, events)
    decreases |events|
  {
    if events == [] then 0
    else Count(StartsIn(s, t, events[0], low, high))
         + StartsWithin(s, After(s, t, clock, events[0]), ClockAfter(events[0]), events[1..], low, high)
  }

  ghost function TimesForgotten(s: Settings, t: Table, clock: int, events: seq<Event>, low: int): nat
    requires InRange(s) && ValidRun(s, t, clock, events)
    decreases |events|
  {
    if events == [] then 0
    else Count(Forgets(s, t, clock, events[0], low))
         + TimesForgotten(s, After(s, t, clock, events[0]), ClockAfter(events[0]), events[1..], low)
  }

  // A tick looks at the schedule and would start its run within the interval, and no run that began in
  // the last two hours is still going.
  ghost predicate Falls(e: Event, low: int, high: int) {
    e.Tick? && low <= e.input.now && e.input.startedAt < high && !RecentlyRunning(e.input.found, e.input.checkedAt)
  }

  ghost predicate SomeFalls(events: seq<Event>, low: int, high: int) { exists e | e in events :: Falls(e, low, high) }

  ghost predicate AllBefore(events: seq<Event>, high: int) {
    forall e | e in events && e.Tick? :: e.input.startedAt < high
  }

  lemma StaysSettled(s: Settings, t: Table, clock: int, e: Event)
    requires InRange(s) && Settled(t, clock) && Enabled(s, t, clock, e)
    ensures Settled(After(s, t, clock, e), ClockAfter(e)) && clock <= ClockAfter(e)
  {
    hide Starts, Retired, IsVisibleList, IsLatestSuccessful, IsLastAutomatic, IsDue;
  }

  // A tick between two scheduled instants finds a backup due exactly if none is on record.
  lemma DueWithin(s: Settings, t: Table, i: TickInput, low: int, high: int)
    requires InRange(s) && s.enabled && s.frequency != Custom && IsLastAutomatic(t, i.lastRun)
    requires Scheduled(s, low) && IsNext(s, low, high) && low <= i.now < high
    ensures IsDue(s, t, i.lastRun, i.now) <==> !StartedSince(t, low)
  {
    hide LatestScheduledOccurrence, Scheduled;
    LatestIsLatest(s, i.now);
    var at := LatestScheduledOccurrence(s, i.now).value;
    assert at == low;
    if i.lastRun.Some? && low <= t[i.lastRun.value].startedAt {
      assert StartedSince(t, low);
    }
  }

  /** With a custom interval a backup is due exactly if every automatic run on record started at least
      that many hours ago. */
  lemma DueAfterInterval(s: Settings, t: Table, lastRun: Option<RunId>, now: int)
    requires s.frequency == Custom && IsLastAutomatic(t, lastRun)
    ensures IsDue(s, t, lastRun, now) <==>
            forall id | Live(t, id) && t[id].trigger == Automatic ::
              1000 * 60 * 60 * s.customIntervalHours <= now - t[id].startedAt
  {
  }

  /** A due backup starts exactly if the settings are enabled and every automatic run that is still going
      began more than two hours ago. */
  lemma StartsUnlessRunning(s: Settings, t: Table, i: TickInput)
    requires IsLastAutomatic(t, i.lastRun) && IsDue(s, t, i.lastRun, i.now)
    ensures Starts(s, t, i) <==>
            s.enabled && forall id | Live(i.found, id) && i.found[id].trigger == Automatic
                && i.found[id].status == Running ::
                           2 * 60 * 60 * 1000 < i.checkedAt - i.found[id].startedAt
  {
    hide IsDue;
  }

  /** An automatic run whose worker dies stays there as running: for two hours no other one starts, and
      neither retention nor an admin's delete ever takes it. Any other end holds up no start. */
  lemma DeadRunBlocks(t: Table, id: RunId, startedAt: int, endedAt: int, fate: Fate, days: int, at: int,
                      confirmed: bool, latest: Option<RunId>, storageFails: bool)
    requires id !in t
    ensures var u := t[id := NewRun(Automatic, startedAt, endedAt, fate, days)];
            && (RecentlyRunning(u, at) <==>
                  RecentlyRunning(t, at) || (fate.Dies? && at - startedAt <= 2 * 60 * 60 * 1000))
            && (fate.Dies? ==> !Visible(u, id) && DeleteOutcome(u, id, confirmed, latest, storageFails) != Done)
  {
    var u := t[id := NewRun(Automatic, startedAt, endedAt, fate, days)];
    assert forall x | x in t :: u[x] == t[x];
    assert Live(u, id);
  }

  lemma NothingSince(t: Table, clock: int, low: int)
    requires Settled(t, clock) && clock < low
    ensures !StartedSince(t, low)
  {
  }

  // A run starts within the interval only when none is on record.
  lemma StartsOnlyIfNone(s: Settings, t: Table, clock: int, e: Event, low: int, high: int)
    requires InRange(s) && s.enabled && s.frequency != Custom && Settled(t, clock) && Enabled(s, t, clock, e)
    requires Scheduled(s, low) && IsNext(s, low, high) && StartsIn(s, t, e, low, high)
    ensures !StartedSince(t, low)
  {
    hide Scheduled, IsNext, IsDue, IsVisibleList, IsLatestSuccessful, StartedSince;
    if low <= e.input.now { DueWithin(s, t, e.input, low, high); } else { NothingSince(t, clock, low); }
  }

  // Nothing but a start of a run puts a start on record.
  lemma NoStartAppears(s: Settings, t: Table, clock: int, e: Event, low: int)
    requires InRange(s) && Enabled(s, t, clock, e) && !StartedSince(t, low)
    requires !StartsRun(s, t, e) || e.input.startedAt < low
    ensures !StartedSince(After(s, t, clock, e), low)
  {
    hide Starts, Retired, IsDue, IsVisibleList, IsLatestSuccessful;
    var u := After(s, t, clock, e);
    forall id | id in u ensures !(Live(u, id) && u[id].trigger == Automatic && low <= u[id].startedAt) {
      if id in t { assert !(Live(t, id) && t[id].trigger == Automatic && low <= t[id].startedAt); }
    }
  }

  // Each event: runs started and runs on record before are runs forgotten and runs on record after.
  lemma StartsBalance(s: Settings, t: Table, clock: int, e: Event, low: int, high: int)
    requires InRange(s) && s.enabled && s.frequency != Custom && Settled(t, clock) && Enabled(s, t, clock, e)
    requires Scheduled(s, low) && IsNext(s, low, high)
    requires e.Tick? ==> e.input.startedAt < high
    ensures Count(StartsIn(s, t, e, low, high)) + Count(StartedSince(t, low))
            == Count(Forgets(s, t, clock, e, low)) + Count(StartedSince(After(s, t, clock, e), low))
  {
    hide Enabled, Starts, Scheduled, IsNext, After, StartedSince;
    if StartsIn(s, t, e, low, high) {
      StartsOnlyIfNone(s, t, clock, e, low, high);
    } else if !StartedSince(t, low) {
      NoStartAppears(s, t, clock, e, low);
    }
  }

  lemma FallsStarts(s: Settings, t: Table, clock: int, e: Event, low: int, high: int)
    requires InRange(s) && s.enabled && s.frequency != Custom && Enabled(s, t, clock, e)
    requires Scheduled(s, low) && IsNext(s, low, high) && Falls(e, low, high) && !StartedSince(t, low)
    ensures StartsIn(s, t, e, low, high)
  {
    hide Scheduled, IsNext, IsDue, IsVisibleList, IsLatestSuccessful, StartedSince, RecentlyRunning;
    DueWithin(s, t, e.input, low, high);
  }

  lemma LaterTicks(s: Settings, t: Table, clock: int, events: seq<Event>)
    requires InRange(s) && ValidRun(s, t, clock, events)
    ensures forall e | e in events && e.Tick? :: clock <= e.input.now
    decreases |events|
  {
    hide AfterTick, Starts, Meanwhile, IsLastAutomatic, IsVisibleList, IsLatestSuccessful;
    if events != [] {
      LaterTicks(s, After(s, t, clock, events[0]), ClockAfter(events[0]), events[1..]);
      assert events == [events[0]] + events[1..];
    }
  }

  lemma NoneAfter(s: Settings, t: Table, clock: int, events: seq<Event>, low: int, high: int)
    requires InRange(s) && ValidRun(s, t, clock, events) && high <= clock
    ensures StartsWithin(s, t, clock, events, low, high) == 0 && !SomeFalls(events, low, high)
    decreases |events|
  {
    hide AfterTick, Starts, Meanwhile, IsLastAutomatic, IsVisibleList, IsLatestSuccessful, RecentlyRunning;
    LaterTicks(s, t, clock, events);
    NoFalls(s, t, clock, events, low, high);
    if events != [] { NoneAfter(s, After(s, t, clock, events[0]), ClockAfter(events[0]), events[1..], low, high); }
  }

  lemma NoFalls(s: Settings, t: Table, clock: int, events: seq<Event>, low: int, high: int)
    requires InRange(s) && ValidRun(s, t, clock, events) && high <= clock
    ensures forall e | e in events && e.Tick? :: high <= e.input.startedAt
    decreases |events|
  {
    hide AfterTick, Starts, Meanwhile, IsLastAutomatic, IsVisibleList, IsLatestSuccessful;
    if events != [] {
      NoFalls(s, After(s, t, clock, events[0]), ClockAfter(events[0]), events[1..], low, high);
      assert events == [events[0]] + events[1..];
    }
  }

  lemma {:induction false} StartsBounded(s: Settings, t: Table, clock: int, events: seq<Event>, low: int, high: int)
    requires InRange(s) && s.enabled && s.frequency != Custom && Settled(t, clock)
    requires Scheduled(s, low) && IsNext(s, low, high) && ValidRun(s, t, clock, events)
    ensures StartsWithin(s, t, clock, events, low, high) + Count(StartedSince(t, low))
            <= 1 + TimesForgotten(s, t, clock, events, low)
    ensures SomeFalls(events, low, high) ==>
              1 <= StartsWithin(s, t, clock, events, low, high) + Count(StartedSince(t, low))
    decreases |events|
  {
    hide Enabled, Scheduled, IsNext, After, StartedSince, StartsRun, Forgets, Falls;
    if events != [] {
      var e := events[0];
      StaysSettled(s, t, clock, e);
      assert events == [e] + events[1..];
      StartsBounded(s, After(s, t, clock, e), ClockAfter(e), events[1..], low, high);
      if e.Tick? && high <= e.input.startedAt {
        LateStart(s, t, clock, events, low, high);
      } else {
        StartsBalance(s, t, clock, e, low, high);
        if Falls(e, low, high) && !StartedSince(t, low) { FallsStarts(s, t, clock, e, low, high); }
      }
    }
  }

  // Once a run has started after the interval, nothing more happens in it.
  lemma LateStart(s: Settings, t: Table, clock: int, events: seq<Event>, low: int, high: int)
    requires InRange(s) && ValidRun(s, t, clock, events) && events != [] && events[0].Tick?
             && high <= events[0].input.startedAt
    ensures StartsWithin(s, t, clock, events, low, high) == 0 && !SomeFalls(events, low, high)
  {
    hide After, Starts, Meanwhile, IsLastAutomatic, IsVisibleList, IsLatestSuccessful, RecentlyRunning;
    var e := events[0];
    NoneAfter(s, After(s, t, clock, e), ClockAfter(e), events[1..], low, high);
    assert events == [e] + events[1..];
  }

  lemma {:induction false} StartsExact(s: Settings, t: Table, clock: int, events: seq<Event>, low: int, high: int)
    requires InRange(s) && s.enabled && s.frequency != Custom && Settled(t, clock)
    requires Scheduled(s, low) && IsNext(s, low, high) && ValidRun(s, t, clock, events) && AllBefore(events, high)
    ensures StartsWithin(s, t, clock, events, low, high) + Count(StartedSince(t, low))
            == TimesForgotten(s, t, clock, events, low) + Count(StartedSince(AfterAll(s, t, clock, events), low))
    decreases |events|
  {
    hide Enabled, Scheduled, IsNext, After, StartedSince, Forgets;
    if events != [] {
      var e := events[0];
      StaysSettled(s, t, clock, e);
      StartsBalance(s, t, clock, e, low, high);
      StartsExact(s, After(s, t, clock, e), ClockAfter(e), events[1..], low, high);
    }
  }

  /** From any settled table whose clock is before a scheduled instant `low`, up to the next scheduled
      instant `high`: a tick that falls there starts a run or finds one on record; and a further run
      starts exactly as often as the record of the earlier ones has been lost. */
  lemma ExactlyOnePerOccurrence(s: Settings, t: Table, clock: int, events: seq<Event>, low: int, high: int)
    requires InRange(s) && s.enabled && s.frequency != Custom && Settled(t, clock) && ValidRun(s, t, clock, events)
    requires Scheduled(s, low) && IsNext(s, low, high) && clock < low
    ensures var starts, lost := StartsWithin(s, t, clock, events, low, high), TimesForgotten(s, t, clock, events, low);
            && starts <= 1 + lost
            && (SomeFalls(events, low, high) ==> 1 <= starts)
            && (AllBefore(events, high) ==> starts == lost + Count(StartedSince(AfterAll(s, t, clock, events), low)))
            && (lost == 0 && SomeFalls(events, low, high) ==> starts == 1)
  {
    hide Scheduled, IsNext, ValidRun, AfterAll, StartsWithin, TimesForgotten;
    NothingSince(t, clock, low);
    StartsBounded(s, t, clock, events, low, high);
    if AllBefore(events, high) { StartsExact(s, t, clock, events, low, high); }
  }

  // ---------- when the record of a run is lost ----------

  // The tick's run is still there when retention begins, and has not been deleted.
  ghost predicate Stands(i: TickInput) {
    !i.fate.Dies? && Live(i.met, i.id)
  }

  // What saves the run from retention: protection, a failure, or too few other successes that ended no
  // earlier. What condemns it: none of these, even if it is listed before all that ended with it.
  ghost predicate Saved(s: Settings, i: TickInput)
    requires i.id in i.met
  {
    i.met[i.id].isProtected || i.met[i.id].status != Completed || |Rivals(i.met, i.id)| < s.retentionCount
  }

  ghost predicate Condemned(s: Settings, i: TickInput)
    requires i.id in i.met
  {
    !i.met[i.id].isProtected && i.met[i.id].status == Completed && s.retentionCount <= |Newer(i.met, i.id)|
  }

  lemma RunAsMet(s: Settings, t: Table, i: TickInput)
    requires InRange(s) && TickOk(s, t, i) && Starts(s, t, i) && !i.fate.Dies?
    ensures i.id in i.met && i.met[i.id].trigger == Automatic && i.met[i.id].startedAt == i.startedAt
    ensures var r := i.met[i.id];
            && r.status != Running && i.retentionAt - s.retentionDays * MS_PER_DAY <= End(r)
            && (r.expiresAt.Some? ==> i.retentionAt <= r.expiresAt.value)
  {
    hide Starts, IsDue, IsVisibleList, IsLatestSuccessful, IsLastAutomatic;
    var c := Created(s, i);
    assert c[i.id].trigger == Automatic;
  }

  lemma {:induction false} FilterPosition(xs: seq<RunId>, keep: RunId -> bool, j: int, n: int)
    requires 0 <= j < |xs| && j < n && keep(xs[j])
    ensures xs[j] in Take(Filter(xs, keep), n)
    decreases j
  {
    var ys := Filter(xs, keep);
    if j == 0 {
      assert ys[0] == xs[0] && Take(ys, n)[0] == xs[0];
    } else {
      FilterPosition(xs[1..], keep, j - 1, n - 1);
      var rest := Filter(xs[1..], keep);
      var k :| 0 <= k < |Take(rest, n - 1)| && Take(rest, n - 1)[k] == xs[j];
      var m := if keep(xs[0]) then k + 1 else k;
      assert ys[m] == rest[k] && Take(ys, n)[m] == xs[j];
    }
  }

  // Near the top of the list, what is expired is retired in this pass.
  lemma TopIsRetired(t: Table, p: Pass, days: int, count: int, x: RunId, j: int)
    requires 0 <= j < |p.visible| && j < 50 && p.visible[j] == x
    ensures x in ExpiredRows(t, p.latest, p.visible, p.now, days, count) <==>
            Picked(t, p, days, count, x)
  {
    hide IsExpired, KeepIds;
    var keep := KeepIds(t, p.visible, p.latest, count);
    if IsExpired(t, x, p.latest, keep, p.now, days) {
      FilterPosition(p.visible, id => IsExpired(t, id, p.latest, keep, p.now, days), j, 50);
    }
  }

  // The tick with other answers of the two retention queries.
  function Answered(i: TickInput, p: Pass): TickInput { i.(latest := p.latest, visible := p.visible) }

  ghost predicate MayAnswer(i: TickInput, p: Pass) { PassOk(i.met, p) && p.now == i.retentionAt }

  // Whether the run that the tick has just made is live after it.
  ghost predicate Spared(s: Settings, t: Table, i: TickInput)
    requires InRange(s) && (i.lastRun.Some? ==> i.lastRun.value in t)
  {
    Live(AfterTick(s, t, i), i.id)
  }

  lemma AnsweredOk(s: Settings, t: Table, i: TickInput, p: Pass)
    requires InRange(s) && TickOk(s, t, i) && Starts(s, t, i) && Stands(i) && MayAnswer(i, p)
    ensures TickOk(s, t, Answered(i, p)) && Starts(s, t, Answered(i, p)) && Stands(Answered(i, p))
  {
    hide IsDue, RecentlyRunning, IsVisibleList, IsLatestSuccessful, IsLastAutomatic;
  }

  lemma SparedUnlessRetired(s: Settings, t: Table, i: TickInput)
    requires InRange(s) && TickOk(s, t, i) && Starts(s, t, i) && Stands(i)
    ensures Spared(s, t, i) <==> i.id !in Retired(s, i)
  {
    hide Starts, IsDue, Retired, IsVisibleList, IsLatestSuccessful, IsLastAutomatic, Meanwhile;
  }

  /** Retention spares the run that the tick has just made if that is protected, failed, or fewer than
      `retentionCount` other unprotected successes ended no earlier. */
  lemma SavedIsSpared(s: Settings, t: Table, i: TickInput)
    requires InRange(s) && TickOk(s, t, i) && Starts(s, t, i) && Stands(i) && Saved(s, i)
    ensures Spared(s, t, i)
  {
    hide Starts, IsDue, ExpiredRows, IsExpired, KeepIds, IsVisibleList, IsLatestSuccessful, IsLastAutomatic, Meanwhile,
         Rivals, Spared;
    RunAsMet(s, t, i);
    SparedUnlessRetired(s, t, i);
    var p := Pass(i.latest, i.visible, i.retentionAt);
    if i.id in i.visible {
      ListedIsVisible(i.met, i.visible, i.id);
      PickedBounds(i.met, p, s.retentionDays, s.retentionCount, i.id);
    }
  }

  // Few others having overtaken it, the run is retired if it is picked.
  lemma PickedIsRetired(s: Settings, t: Table, i: TickInput)
    requires InRange(s) && TickOk(s, t, i) && Starts(s, t, i) && Stands(i) && !i.met[i.id].isProtected
    requires |Overtaking(i.met, i.id)| < 50 && i.id !in i.storageFails
    ensures i.id in i.visible
    ensures Spared(s, t, i) <==>
            !Picked(i.met, Pass(i.latest, i.visible, i.retentionAt), s.retentionDays, s.retentionCount, i.id)
  {
    hide Starts, IsDue, ExpiredRows, IsExpired, IsVisibleList, IsLatestSuccessful, IsLastAutomatic, Meanwhile, Spared,
         Overtaking;
    RunAsMet(s, t, i);
    SparedUnlessRetired(s, t, i);
    ListedWhenFew(i.met, i.visible, i.id);
    var j :| 0 <= j < |i.visible| && i.visible[j] == i.id;
    ListedNearTop(i.met, i.visible, i.id, j);
    TopIsRetired(i.met, Pass(i.latest, i.visible, i.retentionAt), s.retentionDays, s.retentionCount, i.id, j);
  }

  // Answers that list the run before, or after, all that ended with it decide by its rank.
  lemma DecidingAnswer(s: Settings, t: Table, i: TickInput, last: bool) returns (p: Pass)
    requires InRange(s) && TickOk(s, t, i) && Starts(s, t, i) && Stands(i)
    requires !i.met[i.id].isProtected && i.met[i.id].status == Completed
    requires |Overtaking(i.met, i.id)| < 50 && i.id !in i.storageFails
    ensures MayAnswer(i, p)
    ensures last && s.retentionCount <= |Rivals(i.met, i.id)| ==> !Spared(s, t, Answered(i, p))
    ensures !last && |Newer(i.met, i.id)| < s.retentionCount ==> Spared(s, t, Answered(i, p))
  {
    hide Starts, IsDue, IsVisibleList, IsLatestSuccessful, IsLastAutomatic, Meanwhile, Spared, Overtaking;
    hide Picked, Kept, Newer, Rivals, Placed;
    var latest, visible := Arranged(i.met, i.id, last);
    p := Pass(latest, visible, i.retentionAt);
    AnsweredOk(s, t, i, p);
    RunAsMet(s, t, i);
    PickedIsRetired(s, t, Answered(i, p));
    PickedByRank(i.met, p, s.retentionDays, s.retentionCount, i.id);
    if last { LastRank(i.met, p, s.retentionCount, i.id); } else { FirstRank(i.met, p, s.retentionCount, i.id); }
  }

  /** Whatever the queries answer about ties, retention spares the run that the tick has just made exactly
      if that is protected, failed, or fewer than `retentionCount` other unprotected successes ended no
      earlier; and whatever they answer retires it exactly if none of this holds and that many ended
      later. A pass retires fifty runs, so this is said of a run that fewer have overtaken, and whose
      artifact can be removed. */
  lemma NewRunSparedExactly(s: Settings, t: Table, i: TickInput)
    requires InRange(s) && TickOk(s, t, i) && Starts(s, t, i) && Stands(i)
    requires |Overtaking(i.met, i.id)| < 50 && i.id !in i.storageFails
    ensures Saved(s, i) <==> forall p | MayAnswer(i, p) :: Spared(s, t, Answered(i, p))
    ensures Condemned(s, i) <==> forall p | MayAnswer(i, p) :: !Spared(s, t, Answered(i, p))
  {
    hide TickOk, Starts, Spared, MayAnswer, Overtaking, Newer, Rivals;
    var own := OwnAnswer(s, t, i);
    forall p | MayAnswer(i, p)
      ensures Saved(s, i) ==> Spared(s, t, Answered(i, p))
      ensures Condemned(s, i) ==> !Spared(s, t, Answered(i, p))
    {
      AnsweredOk(s, t, i, p);
      if Saved(s, i) { SavedIsSpared(s, t, Answered(i, p)); }
      if Condemned(s, i) { CondemnedIsRetired(s, t, Answered(i, p)); }
    }
    if !Saved(s, i) { var p := DecidingAnswer(s, t, i, true); }
    if !Condemned(s, i) && !i.met[i.id].isProtected && i.met[i.id].status == Completed {
      var p := DecidingAnswer(s, t, i, false);
    }
  }

  lemma OwnAnswer(s: Settings, t: Table, i: TickInput) returns (p: Pass)
    requires InRange(s) && TickOk(s, t, i) && Starts(s, t, i) && Stands(i)
    ensures MayAnswer(i, p) && Answered(i, p) == i && (i.lastRun.Some? ==> i.lastRun.value in t)
  {
    hide Starts, IsDue, IsVisibleList, IsLatestSuccessful, Meanwhile;
    p := Pass(i.latest, i.visible, i.retentionAt);
  }

  lemma CondemnedIsRetired(s: Settings, t: Table, i: TickInput)
    requires InRange(s) && TickOk(s, t, i) && Starts(s, t, i) && Stands(i) && Condemned(s, i)
    requires |Overtaking(i.met, i.id)| < 50 && i.id !in i.storageFails
    ensures !Spared(s, t, i)
  {
    hide Starts, IsDue, IsVisibleList, IsLatestSuccessful, IsLastAutomatic, Meanwhile, Spared, Picked, Newer,
         Overtaking;
    RunAsMet(s, t, i);
    PickedIsRetired(s, t, i);
    PickedBounds(i.met, Pass(i.latest, i.visible, i.retentionAt), s.retentionDays, s.retentionCount, i.id);
  }

  // Others delete no automatic run that started at or after `low`.
  ghost predicate Spare(t: Table, u: Table, low: int) {
    forall id | id in t && Live(t, id) && t[id].trigger == Automatic && low <= t[id].startedAt :: Live(u, id)
  }

  // Nobody deletes a run of the interval, and retention is not overtaken by later successes.
  ghost predicate CarefulEvent(s: Settings, t: Table, e: Event, low: int) {
    match e
    case Others(u, _) => Spare(t, u, low)
    case Tick(i) =>
      if StartsRun(s, t, e) then
        !i.fate.Dies? ==> i.id in i.met && Stands(i) && Saved(s, i)
      else Spare(t, i.found, low)
  }

  ghost predicate Careful(s: Settings, t: Table, clock: int, events: seq<Event>, low: int)
    requires InRange(s) && ValidRun(s, t, clock, events)
    decreases |events|
  {
    events == [] ||
    (CarefulEvent(s, t, events[0], low)
     && Careful(s, After(s, t, clock, events[0]), ClockAfter(events[0]), events[1..], low))
  }

  lemma CarefulKeeps(s: Settings, t: Table, clock: int, e: Event, low: int)
    requires InRange(s) && s.enabled && s.frequency != Custom && Settled(t, clock) && Enabled(s, t, clock, e)
    requires CarefulEvent(s, t, e, low)
    ensures !Forgets(s, t, clock, e, low) || (e.Tick? && StartsRun(s, t, e) && e.input.startedAt < low)
  {
    hide IsDue, Retired, IsVisibleList, IsLatestSuccessful, Saved, Rivals, RecentlyRunning, Stands;
    var u := After(s, t, clock, e);
    if StartsRun(s, t, e) {
      if low <= e.input.startedAt { StartIsOnRecord(s, t, clock, e, low); }
    } else if StartedSince(t, low) {
      var id :| id in t && Live(t, id) && t[id].trigger == Automatic && low <= t[id].startedAt;
      assert Live(u, id);
    }
  }

  lemma StartIsOnRecord(s: Settings, t: Table, clock: int, e: Event, low: int)
    requires InRange(s) && Enabled(s, t, clock, e) && CarefulEvent(s, t, e, low) && StartsRun(s, t, e)
             && low <= e.input.startedAt
    ensures StartedSince(After(s, t, clock, e), low)
  {
    hide Starts, IsDue, Retired, Meanwhile, IsVisibleList, IsLatestSuccessful, IsLastAutomatic, Saved, Rivals;
    var i, u := e.input, After(s, t, clock, e);
    if i.fate.Dies? {
      assert Live(u, i.id) && u[i.id].trigger == Automatic;
    } else {
      RunAsMet(s, t, i);
      SavedIsSpared(s, t, i);
      assert u[i.id].trigger == Automatic;
    }
  }

  lemma {:induction false} NothingForgotten(s: Settings, t: Table, clock: int, events: seq<Event>, low: int)
    requires InRange(s) && s.enabled && s.frequency != Custom && Settled(t, clock) && ValidRun(s, t, clock, events)
    requires Careful(s, t, clock, events, low)
    ensures TimesForgotten(s, t, clock, events, low) == 0
    decreases |events|
  {
    hide Enabled, After, Forgets, CarefulEvent, StartsRun;
    if events != [] {
      var e := events[0];
      StaysSettled(s, t, clock, e);
      CarefulKeeps(s, t, clock, e, low);
      if e.Tick? && StartsRun(s, t, e) && e.input.startedAt < low { EarlyStartForgetsNothing(s, t, clock, e, low); }
      NothingForgotten(s, After(s, t, clock, e), ClockAfter(e), events[1..], low);
    }
  }

  // A run that starts before `low` starts when no run since `low` is on record.
  lemma EarlyStartForgetsNothing(s: Settings, t: Table, clock: int, e: Event, low: int)
    requires InRange(s) && Settled(t, clock) && Enabled(s, t, clock, e) && StartsRun(s, t, e) && e.input.startedAt < low
    ensures !Forgets(s, t, clock, e, low)
  {
    hide Starts, IsDue, Retired, Meanwhile, IsVisibleList, IsLatestSuccessful, IsLastAutomatic;
    NothingSince(t, clock, low);
  }

  /** When nobody deletes a run of the interval and no retention pass is overtaken by `retentionCount`
      others, exactly one automatic run starts between `low` and `high` if some tick falls
      there, and at most one otherwise, though retention runs after each backup. */
  lemma ExactlyOneWhenCareful(s: Settings, t: Table, clock: int, events: seq<Event>, low: int, high: int)
    requires InRange(s) && s.enabled && s.frequency != Custom && Settled(t, clock) && ValidRun(s, t, clock, events)
    requires Scheduled(s, low) && IsNext(s, low, high) && clock < low && Careful(s, t, clock, events, low)
    ensures StartsWithin(s, t, clock, events, low, high) <= 1
    ensures SomeFalls(events, low, high) ==> StartsWithin(s, t, clock, events, low, high) == 1
  {
    hide Scheduled, IsNext, ValidRun, Careful, StartsWithin, TimesForgotten, AfterAll;
    NothingSince(t, clock, low);
    NothingForgotten(s, t, clock, events, low);
    ExactlyOnePerOccurrence(s, t, clock, events, low, high);
  }

  // ---------- a retention pass that is overtaken ----------

  // An automatic run from `low` to `low + 1`; then a manual one, 2, that is there when retention begins.
  function FirstTick(s: Settings, low: int): TickInput {
    var first := NewRun(Automatic, low, low + 1, Succeeds, s.retentionDays);
    TickInput(1, low, low, low, low + 1, low + 3, Succeeds, None, map[], map[1 := first, 2 := Overtaker(s, low)],
              Some(2), [2, 1], {})
  }

  function Overtaker(s: Settings, low: int): Run { NewRun(Manual, low + 1, low + 2, Succeeds, s.retentionDays) }

  function AfterFirst(s: Settings, low: int): Table {
    map[1 := NewRun(Automatic, low, low + 1, Succeeds, s.retentionDays).(deletedAt := Some(low + 3)),
        2 := Overtaker(s, low)]
  }

  // The next tick, at any later time within the interval.
  function SecondTick(s: Settings, low: int, again: int): TickInput {
    TickInput(3, again, again, again, again + 1, again + 2, Succeeds, None, AfterFirst(s, low),
              AfterFirst(s, low)[3 := NewRun(Automatic, again, again + 1, Succeeds, s.retentionDays)], Some(3), [3, 2],
                  {})
  }

  lemma FirstListed(s: Settings, low: int)
    requires InRange(s)
    ensures IsVisibleList(FirstTick(s, low).met, [2, 1]) && IsLatestSuccessful(FirstTick(s, low).met, Some(2))
  {
    assert [2, 1][1..] == [1] && [1][1..] == [];
    assert NewestFirst(FirstTick(s, low).met, [1]);
  }

  lemma SecondListed(s: Settings, low: int, again: int)
    requires InRange(s) && low + 3 <= again
    ensures IsVisibleList(SecondTick(s, low, again).met, [3, 2])
            && IsLatestSuccessful(SecondTick(s, low, again).met, Some(3))
  {
    assert [3, 2][1..] == [2] && [2][1..] == [];
    assert NewestFirst(SecondTick(s, low, again).met, [2]);
  }

  lemma FirstIsRetired(s: Settings, low: int)
    requires InRange(s) && s.retentionCount == 1
    ensures SetOf(ExpiredRows(FirstTick(s, low).met, Some(2), [2, 1], low + 3, s.retentionDays, 1)) == {1}
  {
    var t := FirstTick(s, low).met;
    var rows := SuccessfulRows(t, [2, 1]);
    assert [2, 1][1..] == [1] && [1][1..] == [];
    assert Filter([1], id => id in t && t[id].status == Completed) == [1];
    assert rows == [2, 1];
    assert Take(rows, 1) == [2];
    var keep := KeepIds(t, [2, 1], Some(2), 1);
    assert keep == {2};
    assert Filter([1], id => IsExpired(t, id, Some(2), keep, low + 3, s.retentionDays)) == [1];
  }

  lemma TicksOk(s: Settings, low: int, again: int)
    requires InRange(s) && low + 3 <= again && s.enabled && s.frequency != Custom && s.retentionCount == 1
    ensures TickOk(s, map[], FirstTick(s, low)) && TickOk(s, AfterFirst(s, low), SecondTick(s, low, again))
  {
    hide IsDue, IsVisibleList, IsLatestSuccessful, RecentlyRunning;
    FirstListed(s, low);
    SecondListed(s, low, again);
  }

  lemma NothingRunning(s: Settings, low: int, again: int)
    ensures !RecentlyRunning(map[], low) && !RecentlyRunning(AfterFirst(s, low), again)
  {
  }

  lemma FarApart(s: Settings, low: int, high: int)
    requires InRange(s) && s.frequency != Custom && Scheduled(s, low) && IsNext(s, low, high)
    ensures low + MS_PER_DAY <= high
  {
    hide Scheduled, Occurrence;
    var j := ScheduledIsOccurrence(s, low);
    var k := ScheduledIsOccurrence(s, high);
    if j < k { OccurrencesAscend(s, j, k); } else if k < j { OccurrencesAscend(s, k, j); }
  }

  /** With a retention count of one, a manual backup that ends between the end of an automatic one and
      the retention of the same tick has that one retired, and the next tick, whenever it comes before
      `high`, starts another. */
  lemma OvertakenRetentionRunsTwice(s: Settings, low: int, high: int, again: int)
    requires InRange(s) && s.enabled && s.frequency != Custom && s.retentionCount == 1
    requires Scheduled(s, low) && IsNext(s, low, high) && low + 3 <= again < high
    ensures var events := [Tick(FirstTick(s, low)), Tick(SecondTick(s, low, again))];
            ValidRun(s, map[], low - 1, events) && StartsWithin(s, map[], low - 1, events, low, high) == 2
  {
    hide Scheduled, IsNext, IsDue, IsVisibleList, IsLatestSuccessful, TickOk, RecentlyRunning, ExpiredRows, FirstTick,
         SecondTick;
    var one, two := FirstTick(s, low), SecondTick(s, low, again);
    TicksOk(s, low, again);
    NothingRunning(s, low, again);
    FarApart(s, low, high);
    FirstStarts(s, low, high);
    SecondStarts(s, low, high, again);
    var e1, e2 := Tick(one), Tick(two);
    assert [e1, e2][1..] == [e2] && [e2][1..] == [];
    assert After(s, map[], low - 1, e1) == AfterFirst(s, low);
    assert ValidRun(s, AfterFirst(s, low), low + 3, [e2]);
    assert StartsWithin(s, AfterFirst(s, low), low + 3, [e2], low, high) == 1;
  }

  lemma FirstStarts(s: Settings, low: int, high: int)
    requires InRange(s) && s.enabled && s.frequency != Custom && s.retentionCount == 1
    requires Scheduled(s, low) && IsNext(s, low, high)
    ensures var one := FirstTick(s, low);
            && one.lastRun.None? && one.now == low && one.startedAt == low && one.retentionAt == low + 3
            && Starts(s, map[], one) && AfterTick(s, map[], one) == AfterFirst(s, low)
  {
    hide Scheduled, IsNext, IsDue, IsVisibleList, IsLatestSuccessful, RecentlyRunning, ExpiredRows;
    var one := FirstTick(s, low);
    FarApart(s, low, high);
    DueWithin(s, map[], one, low, high);
    assert !StartedSince(map[], low);
    NothingRunning(s, low, low);
    FirstIsRetired(s, low);
    assert Retired(s, one) == {1};
  }

  lemma SecondStarts(s: Settings, low: int, high: int, again: int)
    requires InRange(s) && s.enabled && s.frequency != Custom && s.retentionCount == 1
    requires Scheduled(s, low) && IsNext(s, low, high) && low + 3 <= again < high
    ensures var two := SecondTick(s, low, again);
            && two.lastRun.None? && two.now == again && two.startedAt == again
            && Starts(s, AfterFirst(s, low), two)
  {
    hide Scheduled, IsNext, IsDue, IsVisibleList, IsLatestSuccessful, RecentlyRunning, ExpiredRows;
    FarApart(s, low, high);
    DueWithin(s, AfterFirst(s, low), SecondTick(s, low, again), low, high);
    NothingRunning(s, low, again);
  }
}
