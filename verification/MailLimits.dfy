/** The send limits of the mail worker: monthly, daily and per minute, checked against the SENT rows
    of the queue before each send, and what they bound when several sends are under way. */
module MailLimits {
  import opened Options
  import opened MailQueue
  import Calendar
  import MailRuns

  const MAILRELAY: Provider := 0
  const SENDER: Provider := 1

  const SENDER_MONTHLY := 15000
  const SENDER_DAILY := 1000

  // The environment's settings, with the fallbacks where the source names none itself.
  datatype Config = Config(monthly: seq<Option<real>>, daily: seq<Option<real>>, txPerMinute: seq<Option<real>>,
                           bulkPerMinute: seq<Option<real>>, senderMonthly: Option<real>, senderDaily: Option<real>,
                           defaultMonthly: nat, defaultDaily: nat, defaultTx: nat, defaultBulk: nat)

  predicate Positive(v: Option<real>) { v.Some? && v.value > 0.0 }

  // The first positive number among the settings, rounded down.
  function EnvNumber(values: seq<Option<real>>, fallback: nat): (n: nat)
    ensures (forall i | 0 <= i < |values| :: !Positive(values[i])) ==> n == fallback
    ensures forall i | 0 <= i < |values| && Positive(values[i]) && (forall j | 0 <= j < i :: !Positive(values[j])) ::
              n == values[i].value.Floor
  {
    if values == [] then fallback
    else if Positive(values[0]) then values[0].value.Floor
    else EnvNumber(values[1..], fallback)
  }

  // The four windows in which SENT rows are counted.
  datatype Window = Month | Day | Minute(kind: Kind)

  function Limit(p: Provider, w: Window, config: Config): (limit: Option<nat>)
    ensures limit.Some? ==> p == MAILRELAY || p == SENDER
  {
    if p == MAILRELAY then
      match w
      case Month => Some(EnvNumber(config.monthly, config.defaultMonthly))
      case Day => Some(EnvNumber(config.daily, config.defaultDaily))
      case Minute(Transactional) => Some(EnvNumber(config.txPerMinute, config.defaultTx))
      case Minute(Bulk) => Some(EnvNumber(config.bulkPerMinute, config.defaultBulk))
    else if p == SENDER then
      match w
      case Month => Some(EnvNumber([config.senderMonthly], SENDER_MONTHLY))
      case Day => Some(EnvNumber([config.senderDaily], SENDER_DAILY))
      case Minute(_) => None
    else None
  }

  // Where a window begins; days and months are those of the server's zone.
  function Since(w: Window, now: int, offset: int): int {
    match w
    case Month => Calendar.StartOfMonth(now, offset)
    case Day => Calendar.StartOfDay(now, offset)
    case Minute(_) => now - 60000
  }

  predicate Covers(w: Window, kind: Kind) { w.Minute? ==> w.kind == kind }

  predicate Counts(j: Job, p: Provider, w: Window, since: int) {
    && j.provider == p && j.status == Sent && Covers(w, j.kind)
    && j.sentAt.Some? && since <= j.sentAt.value
  }

  function SentIn(t: Jobs, p: Provider, w: Window, since: int): set<JobId> {
    set id | id in t && Counts(t[id], p, w, since)
  }

  function Used(t: Jobs, p: Provider, w: Window, now: int, offset: int): nat {
    |SentIn(t, p, w, Since(w, now, offset))|
  }

  datatype Verdict = Allowed | Exhausted(window: Window)

  predicate AtLimit(t: Jobs, p: Provider, w: Window, now: int, offset: int, config: Config) {
    var limit := Limit(p, w, config);
    limit.Some? && limit.value <= Used(t, p, w, now, offset)
  }

  function CheckBeforeSend(t: Jobs, p: Provider, kind: Kind, now: int, offset: int, config: Config): Verdict {
    if p != MAILRELAY && p != SENDER then Allowed
    else if AtLimit(t, p, Month, now, offset, config) then Exhausted(Month)
    else if AtLimit(t, p, Day, now, offset, config) then Exhausted(Day)
    else if kind == Transactional && AtLimit(t, p, Minute(Transactional), now, offset, config) then
           Exhausted(Minute(Transactional))
    else if kind == Bulk && AtLimit(t, p, Minute(Bulk), now, offset, config) then Exhausted(Minute(Bulk))
    else Allowed
  }

  /** What a window holds now: the last sixty seconds, the local date, the local month; and what a clock
      ahead of this one has stamped. */
  predicate Recent(w: Window, x: int, now: int, offset: int) {
    || now < x
    || match w
       case Minute(_) => now - x <= 60_000
       case Day => SameDate(Calendar.ZonedParts(x, offset), Calendar.ZonedParts(now, offset))
       case Month => SameMonth(Calendar.ZonedParts(x, offset), Calendar.ZonedParts(now, offset))
  }

  predicate SameMonth(p: Calendar.Parts, q: Calendar.Parts) { p.year == q.year && p.month == q.month }

  predicate SameDate(p: Calendar.Parts, q: Calendar.Parts) { SameMonth(p, q) && p.day == q.day }

  // The mail that this provider has sent in the window: all of it, or in a minute that of the one kind.
  function SentRecently(t: Jobs, p: Provider, w: Window, now: int, offset: int): set<JobId> {
    set id | id in t && t[id].provider == p && t[id].status == Sent && (w.Minute? ==> t[id].kind == w.kind)
             && t[id].sentAt.Some? && Recent(w, t[id].sentAt.value, now, offset)
  }

  /** The rows that count are those sent recently. */
  lemma WindowExact(w: Window, x: int, now: int, offset: int)
    ensures Since(w, now, offset) <= x <==> Recent(w, x, now, offset)
  {
    hide Calendar.StartOfDay, Calendar.StartOfMonth, Calendar.ZonedParts;
    if x <= now {
      Calendar.StartsExact(x, now, offset);
    } else {
      Calendar.StartsAscend(now, x, offset);
    }
  }

  lemma UsedExact(t: Jobs, p: Provider, w: Window, now: int, offset: int)
    ensures Used(t, p, w, now, offset) == |SentRecently(t, p, w, now, offset)|
  {
    hide Since, Recent;
    forall id ensures id in SentIn(t, p, w, Since(w, now, offset)) <==> id in SentRecently(t, p, w, now, offset) {
      if id in t && t[id].sentAt.Some? { WindowExact(w, t[id].sentAt.value, now, offset); }
    }
    assert SentIn(t, p, w, Since(w, now, offset)) == SentRecently(t, p, w, now, offset);
  }

  /** A send is allowed exactly when each window that it would count in, that is all but the minute of the
      other kind, has a limit above what was sent in it recently, or none. */
  lemma AllowedMeans(t: Jobs, p: Provider, kind: Kind, now: int, offset: int, config: Config)
    ensures CheckBeforeSend(t, p, kind, now, offset, config) == Allowed <==>
            forall w: Window | w.Minute? ==> w.kind == kind ::
              Limit(p, w, config).Some? ==> |SentRecently(t, p, w, now, offset)| < Limit(p, w, config).value
  {
    hide Used, Limit, SentRecently, CheckBeforeSend;
    AllowedExact(t, p, kind, now, offset, config);
    forall w: Window
      ensures !AtLimit(t, p, w, now, offset, config) <==>
              Limit(p, w, config).Some? ==> |SentRecently(t, p, w, now, offset)| < Limit(p, w, config).value
    {
      UsedExact(t, p, w, now, offset);
    }
  }

  // A window has a limit, and as many were sent in it recently.
  predicate Full(t: Jobs, p: Provider, w: Window, now: int, offset: int, config: Config) {
    Limit(p, w, config).Some? && Limit(p, w, config).value <= |SentRecently(t, p, w, now, offset)|
  }

  /** A refusal names the widest window that is full: the month, else the day, else the minute of the kind. */
  lemma RefusalNamesWindow(t: Jobs, p: Provider, kind: Kind, now: int, offset: int, config: Config, w: Window)
    ensures CheckBeforeSend(t, p, kind, now, offset, config) == Exhausted(w) <==>
            && Full(t, p, w, now, offset, config) && (w.Minute? ==> w.kind == kind)
            && (w != Month ==> !Full(t, p, Month, now, offset, config))
            && (w.Minute? ==> !Full(t, p, Day, now, offset, config))
  {
    hide Used, SentRecently, EnvNumber;
    forall v: Window ensures AtLimit(t, p, v, now, offset, config) <==> Full(t, p, v, now, offset, config) {
      UsedExact(t, p, v, now, offset);
    }
  }

  /** Which setting limits what: the first positive one of its own list, rounded down, whatever the other
      settings are; at the other provider there is no limit by the minute. */
  lemma LimitsFollow(config: Config, v: real, w: Window)
    requires v > 0.0
    ensures Limit(MAILRELAY, Month, config.(monthly := [Some(v)] + config.monthly)) == Some(v.Floor)
    ensures Limit(MAILRELAY, Day, config.(daily := [Some(v)] + config.daily)) == Some(v.Floor)
    ensures Limit(MAILRELAY, Minute(Transactional), config.(txPerMinute := [Some(v)] + config.txPerMinute))
            == Some(v.Floor)
    ensures Limit(MAILRELAY, Minute(Bulk), config.(bulkPerMinute := [Some(v)] + config.bulkPerMinute)) == Some(v.Floor)
    ensures Limit(SENDER, Month, config.(senderMonthly := Some(v))) == Some(v.Floor)
    ensures Limit(SENDER, Day, config.(senderDaily := Some(v))) == Some(v.Floor)
    ensures Limit(SENDER, Month, config.(senderMonthly := None)) == Some(15_000)
    ensures Limit(SENDER, Day, config.(senderDaily := None)) == Some(1_000)
    ensures w.Minute? ==> Limit(SENDER, w, config) == None
    ensures Limit(MAILRELAY, Month, config.(monthly := [])) == Some(config.defaultMonthly)
    ensures Limit(MAILRELAY, Day, config.(daily := [])) == Some(config.defaultDaily)
    ensures Limit(MAILRELAY, Minute(Transactional), config.(txPerMinute := [])) == Some(config.defaultTx)
    ensures Limit(MAILRELAY, Minute(Bulk), config.(bulkPerMinute := [])) == Some(config.defaultBulk)
  {
  }

  /** A send is allowed exactly when every window that it would count in has room. */
  lemma AllowedExact(t: Jobs, p: Provider, kind: Kind, now: int, offset: int, config: Config)
    ensures CheckBeforeSend(t, p, kind, now, offset, config) == Allowed <==>
            forall w | Covers(w, kind) :: !AtLimit(t, p, w, now, offset, config)
  {
    hide Used, EnvNumber;
    if CheckBeforeSend(t, p, kind, now, offset, config) == Allowed {
      forall w | Covers(w, kind) ensures !AtLimit(t, p, w, now, offset, config) {
        match w case Month => case Day => case Minute(k) => assert k == kind;
      }
    } else {
      assert Covers(Month, kind) && Covers(Day, kind) && Covers(Minute(kind), kind);
    }
  }

  // ---------- sends under way ----------

  /** The table, and the sends that have passed their check and not yet written their outcome. */
  datatype System = System(jobs: Jobs, flights: map<JobId, Kind>, clock: int)

  datatype Event =
    | Tick(now: int)
    | Check(id: JobId, kind: Kind)
    | Record(id: JobId, messageId: int, at: int)
    | Drop(id: JobId)
    | Other(id: JobId, row: Job)

  // Everything but the SENT write leaves the row unsent, or as sent as it was.
  predicate AddsNoSent(t: Jobs, id: JobId, row: Job) {
    row.status == Sent ==>
      && id in t && t[id].status == Sent
      && row.sentAt == t[id].sentAt && row.provider == t[id].provider && row.kind == t[id].kind
  }

  /** In the runs of the queue this holds of every step but the SENT write. */
  lemma OnlyRecordAddsSent(c: MailRuns.Cell, e: MailRuns.Step, clock: int, grace: int)
    requires MailRuns.CellOk(c, clock, grace) && MailRuns.Can(c, e, clock, grace) && !e.Record?
    ensures AddsNoSent(map[0 := c.row], 0, MailRuns.Do(c, e).row)
  {
    hide MailRuns.CellOk, MailRuns.Can;
  }

  predicate Enabled(s: System, e: Event, p: Provider, offset: int, config: Config) {
    match e
    case Tick(now) => s.clock <= now
    case Check(id, kind) => id !in s.flights && CheckBeforeSend(s.jobs, p, kind, s.clock, offset, config) == Allowed
    case Record(id, _, at) => id in s.flights && id in s.jobs && s.jobs[id].kind == s.flights[id]
    case Drop(_) => true
    case Other(id, row) => AddsNoSent(s.jobs, id, row)
  }

  function After(s: System, e: Event, p: Provider): System {
    match e
    case Tick(now) => s.(clock := now)
    case Check(id, kind) => s.(flights := s.flights[id := kind])
    case Record(id, messageId, at) =>
      if id in s.jobs then s.(jobs := s.jobs[id := AsSent(s.jobs[id], p, messageId, at)], flights := s.flights - {id})
      else s
    case Drop(id) => s.(flights := s.flights - {id})
    case Other(id, row) => s.(jobs := s.jobs[id := row])
  }

  /** The SENT write of these runs is that of the queue; a check, a tick and a send given up leave the table
      as it is. */
  lemma StepsFollowQueue(s: System, e: Event, p: Provider)
    ensures e.Record? && e.id in s.jobs ==>
              After(s, e, p).jobs == Conclude(s.jobs, e.id, Delivered(p, e.messageId, e.at))
    ensures !e.Record? && !e.Other? ==> After(s, e, p).jobs == s.jobs
    ensures e.Other? ==> After(s, e, p).jobs == s.jobs[e.id := e.row]
    ensures After(s, e, p).clock == if e.Tick? then e.now else s.clock
    ensures (e.Check? ==> e.id in After(s, e, p).flights) && (e.Drop? ==> e.id !in After(s, e, p).flights)
  {
  }

  function UnderWay(s: System, w: Window): set<JobId> {
    set id | id in s.flights && Covers(w, s.flights[id])
  }

  // What a window holds or will hold.
  function Load(s: System, p: Provider, w: Window, offset: int): int {
    Used(s.jobs, p, w, s.clock, offset) + |UnderWay(s, w)|
  }

  lemma SubsetSmaller(a: set<JobId>, b: set<JobId>)
    requires a <= b
    ensures |a| <= |b|
  {
    assert b == a + (b - a);
  }

  lemma WindowMoves(w: Window, t: int, u: int, offset: int)
    requires t <= u
    ensures Since(w, t, offset) <= Since(w, u, offset)
  {
    Calendar.StartsAscend(t, u, offset);
  }

  lemma LaterHoldsFewer(t: Jobs, p: Provider, w: Window, a: int, b: int)
    requires a <= b
    ensures |SentIn(t, p, w, b)| <= |SentIn(t, p, w, a)|
  {
    forall id | id in SentIn(t, p, w, b) ensures id in SentIn(t, p, w, a) {
      assert Counts(t[id], p, w, b);
      assert Counts(t[id], p, w, a);
    }
    SubsetSmaller(SentIn(t, p, w, b), SentIn(t, p, w, a));
  }

  lemma TickFrees(s: System, e: Event, p: Provider, w: Window, offset: int, config: Config)
    requires e.Tick? && Enabled(s, e, p, offset, config)
    ensures Load(After(s, e, p), p, w, offset) <= Load(s, p, w, offset)
  {
    hide Since, SentIn, Limit, CheckBeforeSend;
    WindowMoves(w, s.clock, e.now, offset);
    LaterHoldsFewer(s.jobs, p, w, Since(w, s.clock, offset), Since(w, e.now, offset));
  }

  lemma RecordCounts(t: Jobs, id: JobId, p: Provider, messageId: int, at: int, w: Window, since: int)
    requires id in t
    ensures var n := |SentIn(t[id := AsSent(t[id], p, messageId, at)], p, w, since)|;
            n <= |SentIn(t, p, w, since)| + (if Covers(w, t[id].kind) then 1 else 0)
  {
    var u := t[id := AsSent(t[id], p, messageId, at)];
    if Covers(w, t[id].kind) {
      SubsetSmaller(SentIn(u, p, w, since), SentIn(t, p, w, since) + {id});
    } else {
      SubsetSmaller(SentIn(u, p, w, since), SentIn(t, p, w, since));
    }
  }

  lemma FlightEnds(s: System, id: JobId, w: Window)
    requires id in s.flights
    ensures |UnderWay(s, w)|
            == |UnderWay(s.(flights := s.flights - {id}), w)| + (if Covers(w, s.flights[id]) then 1 else 0)
  {
    var u := s.(flights := s.flights - {id});
    if Covers(w, s.flights[id]) {
      assert UnderWay(s, w) == UnderWay(u, w) + {id} && id !in UnderWay(u, w);
    } else {
      assert UnderWay(s, w) == UnderWay(u, w);
    }
  }

  lemma RecordLands(s: System, e: Event, p: Provider, w: Window, offset: int, config: Config)
    requires e.Record? && Enabled(s, e, p, offset, config)
    ensures Load(After(s, e, p), p, w, offset) <= Load(s, p, w, offset)
  {
    hide Since, SentIn, Covers, AsSent, CheckBeforeSend;
    RecordCounts(s.jobs, e.id, p, e.messageId, e.at, w, Since(w, s.clock, offset));
    FlightEnds(s, e.id, w);
    assert UnderWay(After(s, e, p), w) == UnderWay(s.(flights := s.flights - {e.id}), w);
  }

  lemma OthersFree(s: System, e: Event, p: Provider, w: Window, offset: int, config: Config)
    requires (e.Drop? || e.Other?) && Enabled(s, e, p, offset, config)
    ensures Load(After(s, e, p), p, w, offset) <= Load(s, p, w, offset)
  {
    hide Since;
    var since := Since(w, s.clock, offset);
    var u := After(s, e, p);
    SubsetSmaller(SentIn(u.jobs, p, w, since), SentIn(s.jobs, p, w, since));
    SubsetSmaller(UnderWay(u, w), UnderWay(s, w));
  }

  lemma CheckHasRoom(s: System, e: Event, p: Provider, w: Window, offset: int, config: Config, limit: nat)
    requires e.Check? && Enabled(s, e, p, offset, config) && Limit(p, w, config) == Some(limit)
    ensures if Covers(w, e.kind) then Load(After(s, e, p), p, w, offset) <= limit - 1 + |UnderWay(After(s, e, p), w)|
            else Load(After(s, e, p), p, w, offset) == Load(s, p, w, offset)
  {
    hide Used, CheckBeforeSend;
    AllowedExact(s.jobs, p, e.kind, s.clock, offset, config);
    if Covers(w, e.kind) {
      assert !AtLimit(s.jobs, p, w, s.clock, offset, config);
    } else {
      assert UnderWay(After(s, e, p), w) == UnderWay(s, w);
    }
  }

  /** With at most k sends of a window under way, each step keeps SENT rows plus sends under way
      within the limit, less one, plus k. */
  lemma StepKeepsLimit(s: System, e: Event, p: Provider, w: Window, offset: int, config: Config, limit: nat, k: nat)
    requires Enabled(s, e, p, offset, config) && Limit(p, w, config) == Some(limit)
    requires Load(s, p, w, offset) <= limit - 1 + k && |UnderWay(After(s, e, p), w)| <= k
    ensures Load(After(s, e, p), p, w, offset) <= limit - 1 + k
  {
    hide Load, Enabled, After, UnderWay;
    match e
    case Tick(_) => TickFrees(s, e, p, w, offset, config);
    case Check(_, _) => CheckHasRoom(s, e, p, w, offset, config, limit);
    case Record(_, _, _) => RecordLands(s, e, p, w, offset, config);
    case Drop(_) => OthersFree(s, e, p, w, offset, config);
    case Other(_, _) => OthersFree(s, e, p, w, offset, config);
  }

  ghost predicate ValidRun(s: System, events: seq<Event>, p: Provider, w: Window, offset: int, config: Config, k: nat)
    decreases |events|
  {
    && |UnderWay(s, w)| <= k
    && (events == []
        || (Enabled(s, events[0], p, offset, config)
            && ValidRun(After(s, events[0], p), events[1..], p, w, offset, config, k)))
  }

  function AfterAll(s: System, events: seq<Event>, p: Provider): System
    decreases |events|
  {
    if events == [] then s else AfterAll(After(s, events[0], p), events[1..], p)
  }

  /** In every run with at most k sends of a window under way at a time, the SENT rows counted in the
      window as it stands and the sends under way never exceed limit - 1 + k. */
  lemma {:induction false} LimitHolds(s: System, events: seq<Event>, p: Provider, w: Window, offset: int,
                                      config: Config, limit: nat, k: nat)
    requires Limit(p, w, config) == Some(limit) && ValidRun(s, events, p, w, offset, config, k)
    requires Load(s, p, w, offset) <= limit - 1 + k
    ensures Load(AfterAll(s, events, p), p, w, offset) <= limit - 1 + k
    ensures var u := AfterAll(s, events, p);
            |SentRecently(u.jobs, p, w, u.clock, offset)| + |UnderWay(u, w)| <= limit - 1 + k
    decreases |events|
  {
    hide Load, Enabled, After, UnderWay, Limit, SentRecently;
    LoadExact(AfterAll(s, events, p), p, w, offset);
    if events != [] {
      UnderWayBounded(After(s, events[0], p), events[1..], p, w, offset, config, k);
      StepKeepsLimit(s, events[0], p, w, offset, config, limit, k);
      LimitHolds(After(s, events[0], p), events[1..], p, w, offset, config, limit, k);
    }
  }

  lemma LoadExact(s: System, p: Provider, w: Window, offset: int)
    ensures Load(s, p, w, offset) == |SentRecently(s.jobs, p, w, s.clock, offset)| + |UnderWay(s, w)|
  {
    hide Used, SentRecently, UnderWay;
    UsedExact(s.jobs, p, w, s.clock, offset);
  }

  lemma UnderWayBounded(s: System, events: seq<Event>, p: Provider, w: Window, offset: int, config: Config, k: nat)
    requires ValidRun(s, events, p, w, offset, config, k)
    ensures |UnderWay(s, w)| <= k
  {
  }

  /** One worker that sends one message at a time never exceeds a limit. */
  lemma OneWorkerNeverExceeds(events: seq<Event>, p: Provider, w: Window, offset: int, config: Config, limit: nat,
                              clock: int)
    requires Limit(p, w, config) == Some(limit)
             && ValidRun(System(map[], map[], clock), events, p, w, offset, config, 1)
    ensures var u := AfterAll(System(map[], map[], clock), events, p);
            && Used(u.jobs, p, w, u.clock, offset) + |UnderWay(u, w)| <= limit
            && |SentRecently(u.jobs, p, w, u.clock, offset)| <= limit
  {
    hide Limit, ValidRun, AfterAll, SentRecently;
    assert SentIn(map[], p, w, Since(w, clock, offset)) == {};
    assert UnderWay(System(map[], map[], clock), w) == {};
    LimitHolds(System(map[], map[], clock), events, p, w, offset, config, limit, 1);
  }

  /** The bound is reached: with room for one message a minute, two checks before the first SENT
      write let two messages through. */
  lemma TwoAtOnceExceed(row: Job, offset: int, config: Config)
    requires row.kind == Bulk && row.status == Processing
    requires Limit(MAILRELAY, Minute(Bulk), config) == Some(1)
    requires Limit(MAILRELAY, Day, config).value >= 1 && Limit(MAILRELAY, Month, config).value >= 1
    ensures var s := System(map[1 := row, 2 := row], map[], 0);
            var events := [Check(1, Bulk), Check(2, Bulk), Record(1, 1, 0), Record(2, 2, 0)];
            && ValidRun(s, events, MAILRELAY, Minute(Bulk), offset, config, 2)
            && Used(AfterAll(s, events, MAILRELAY).jobs, MAILRELAY, Minute(Bulk), 0, offset) == 2
  {
    hide Limit, ValidRun, AfterAll, CheckBeforeSend, AtLimit, SentIn, UnderWay;
    var p, w := MAILRELAY, Minute(Bulk);
    var s0 := System(map[1 := row, 2 := row], map[], 0);
    var e1, e2, e3, e4 := Check(1, Bulk), Check(2, Bulk), Record(1, 1, 0), Record(2, 2, 0);
    var s1 := After(s0, e1, p);
    var s2 := After(s1, e2, p);
    var s3 := After(s2, e3, p);
    var s4 := After(s3, e4, p);
    NothingSent(row, offset, config);
    assert Enabled(s0, e1, p, offset, config) && Enabled(s1, e2, p, offset, config);
    assert Enabled(s2, e3, p, offset, config) && Enabled(s3, e4, p, offset, config);
    AtMostTwo(s0, w); AtMostTwo(s1, w); AtMostTwo(s2, w); AtMostTwo(s3, w); AtMostTwo(s4, w);
    FourSteps(s0, e1, e2, e3, e4, p, w, offset, config, 2);
    BothSent(row, s4.jobs, w, -60000);
  }

  lemma NothingSent(row: Job, offset: int, config: Config)
    requires row.kind == Bulk && row.status == Processing
    requires Limit(MAILRELAY, Minute(Bulk), config) == Some(1)
    requires Limit(MAILRELAY, Day, config).value >= 1 && Limit(MAILRELAY, Month, config).value >= 1
    ensures CheckBeforeSend(map[1 := row, 2 := row], MAILRELAY, Bulk, 0, offset, config) == Allowed
  {
    hide Limit;
    var t: Jobs := map[1 := row, 2 := row];
    AllowedExact(t, MAILRELAY, Bulk, 0, offset, config);
    forall w | Covers(w, Bulk) ensures !AtLimit(t, MAILRELAY, w, 0, offset, config) {
      assert SentIn(t, MAILRELAY, w, Since(w, 0, offset)) == {};
      match w case Month => case Day => case Minute(k) => assert k == Bulk;
    }
  }

  lemma AtMostTwo(s: System, w: Window)
    requires s.flights.Keys <= {1, 2}
    ensures |UnderWay(s, w)| <= 2
  {
    SubsetSmaller(UnderWay(s, w), {1, 2});
  }

  lemma BothSent(row: Job, t: Jobs, w: Window, since: int)
    requires since <= 0 && Covers(w, row.kind)
    requires t == map[1 := AsSent(row, MAILRELAY, 1, 0), 2 := AsSent(row, MAILRELAY, 2, 0)]
    ensures |SentIn(t, MAILRELAY, w, since)| == 2
  {
    assert SentIn(t, MAILRELAY, w, since) == {1, 2};
  }

  lemma FourSteps(s: System, e1: Event, e2: Event, e3: Event, e4: Event, p: Provider, w: Window, offset: int,
                  config: Config, k: nat)
    ensures var s1 := After(s, e1, p); var s2 := After(s1, e2, p); var s3 := After(s2, e3, p);
            var s4 := After(s3, e4, p);
            && AfterAll(s, [e1, e2, e3, e4], p) == s4
            && ((&& |UnderWay(s, w)| <= k && Enabled(s, e1, p, offset, config)
                 && |UnderWay(s1, w)| <= k && Enabled(s1, e2, p, offset, config)
                 && |UnderWay(s2, w)| <= k && Enabled(s2, e3, p, offset, config)
                 && |UnderWay(s3, w)| <= k && Enabled(s3, e4, p, offset, config) && |UnderWay(s4, w)| <= k)
                ==> ValidRun(s, [e1, e2, e3, e4], p, w, offset, config, k))
  {
    hide After, Enabled, UnderWay;
    var s1 := After(s, e1, p);
    var s2 := After(s1, e2, p);
    var s3 := After(s2, e3, p);
    assert [e1, e2, e3, e4][1..] == [e2, e3, e4] && [e2, e3, e4][1..] == [e3, e4] && [e3, e4][1..] == [e4]
        && [e4][1..] == [];
    var s4 := After(s3, e4, p);
    if |UnderWay(s4, w)| <= k { assert ValidRun(s4, [], p, w, offset, config, k); }
    if |UnderWay(s4, w)| <= k && |UnderWay(s3, w)| <= k && Enabled(s3, e4, p, offset, config) {
      assert ValidRun(s3, [e4], p, w, offset, config, k);
      if |UnderWay(s2, w)| <= k && Enabled(s2, e3, p, offset, config) {
        assert ValidRun(s2, [e3, e4], p, w, offset, config, k);
        if |UnderWay(s1, w)| <= k && Enabled(s1, e2, p, offset, config) {
          assert ValidRun(s1, [e2, e3, e4], p, w, offset, config, k);
        }
      }
    }
    assert AfterAll(s3, [e4], p) == After(s3, e4, p);
    assert AfterAll(s2, [e3, e4], p) == AfterAll(s3, [e4], p);
    assert AfterAll(s1, [e2, e3, e4], p) == AfterAll(s2, [e3, e4], p);
  }
}
