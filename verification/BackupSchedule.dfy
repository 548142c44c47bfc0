/** When automatic backups are scheduled. `Scheduled` says which instants the settings name, by
    reading their zoned calendar parts; the two functions of the service that search for such an
    instant are proved to find the next one and the latest one. */
module BackupSchedule {
  import opened Options
  import opened Calendar

  datatype Frequency = Daily | Weekly | Monthly | Custom

  datatype Settings = Settings(
    enabled: bool, frequency: Frequency, hour: int, minute: int, offset: int,
    weeklyDay: int, monthlyDay: int, customIntervalHours: int, retentionDays: int, retentionCount: int)

  predicate InRange(s: Settings) {
    && 0 <= s.hour < 24 && 0 <= s.minute < 60
    && 0 <= s.weeklyDay <= 6 && 1 <= s.monthlyDay <= 31
    && 1 <= s.customIntervalHours <= 744 && 1 <= s.retentionDays <= 3650 && 1 <= s.retentionCount <= 1000
  }

  function Min(a: int, b: int): int {
    if a < b then a else b
  }

  function Max(a: int, b: int): int {
    if a < b then b else a
  }

  function Clamp(value: int, low: int, high: int): int {
    Min(high, Max(low, value))
  }

  function Digit(c: char): int {
    if '0' <= c <= '9' then c as int - '0' as int else 100
  }

  // The time of day as entered; anything but hh:mm falls back to 02:00.
  function TimeOfDay(text: string): (int, int) {
    if && |text| == 5 && text[2] == ':' && Digit(text[1]) < 10 && Digit(text[4]) < 10 && Digit(text[3]) < 6
       && (Digit(text[0]) < 2 || (Digit(text[0]) == 2 && Digit(text[1]) < 4))
    then (10 * Digit(text[0]) + Digit(text[1]), 10 * Digit(text[3]) + Digit(text[4]))
    else (2, 0)
  }

  // Whatever an administrator enters is stored in range.
  function Normalize(s: Settings, timeOfDay: string): (r: Settings)
    ensures InRange(r)
    ensures InRange(s) && TimeOfDay(timeOfDay) == (s.hour, s.minute) ==> r == s
  {
    var (hour, minute) := TimeOfDay(timeOfDay);
    s.(hour := hour, minute := minute,
       weeklyDay := Clamp(s.weeklyDay, 0, 6), monthlyDay := Clamp(s.monthlyDay, 1, 31),
       customIntervalHours := Clamp(s.customIntervalHours, 1, 744),
       retentionDays := Clamp(s.retentionDays, 1, 3650), retentionCount := Clamp(s.retentionCount, 1, 1000))
  }

  function DigitChar(d: int): char
    requires 0 <= d <= 9
  {
    ['0', '1', '2', '3', '4', '5', '6', '7', '8', '9'][d]
  }

  // A time of day as it is written: hh:mm.
  function Written(hour: int, minute: int): string
    requires 0 <= hour < 24 && 0 <= minute < 60
  {
    [DigitChar(hour / 10), DigitChar(hour % 10), ':', DigitChar(minute / 10), DigitChar(minute % 10)]
  }

  /** Every time of day that is written as hh:mm is read back ... */
  lemma WrittenIsRead(hour: int, minute: int)
    requires 0 <= hour < 24 && 0 <= minute < 60
    ensures TimeOfDay(Written(hour, minute)) == (hour, minute)
  {
    hide Digit, DigitChar;
    DigitRead(hour / 10);
    DigitRead(hour % 10);
    DigitRead(minute / 10);
    DigitRead(minute % 10);
  }

  /** ... and any other text is read as 02:00. */
  lemma OtherTextIsTwo(text: string)
    ensures var (h, m) := TimeOfDay(text); 0 <= h < 24 && 0 <= m < 60 && (text == Written(h, m) || (h, m) == (2, 0))
  {
    hide Digit, DigitChar;
    if |text| == 5 {
      DigitWritten(text[0]);
      DigitWritten(text[1]);
      DigitWritten(text[3]);
      DigitWritten(text[4]);
    }
    if TimeOfDay(text) != (2, 0) { ReadDigits(text); }
  }

  lemma ReadDigits(text: string)
    requires TimeOfDay(text) != (2, 0)
    ensures |text| == 5 && text[2] == ':'
    ensures var (h, m) := TimeOfDay(text);
            && (0 <= Digit(text[1]) && 0 <= Digit(text[4]) ==>
                  h / 10 == Digit(text[0]) && h % 10 == Digit(text[1]) && m / 10 == Digit(text[3])
                      && m % 10 == Digit(text[4]))
            && Digit(text[0]) < 3 && Digit(text[1]) < 10 && Digit(text[3]) < 6 && Digit(text[4]) < 10
  {
    hide Digit;
  }

  lemma DigitRead(d: int)
    requires 0 <= d <= 9
    ensures Digit(DigitChar(d)) == d
  {
  }

  lemma DigitWritten(c: char)
    ensures 0 <= Digit(c)
    ensures Digit(c) < 10 ==> c == DigitChar(Digit(c))
  {
  }

  // The value in the range that is nearest to what was entered.
  function Nearest(value: int, low: int, high: int): int {
    if value < low then low else if high < value then high else value
  }

  /** What is out of range is stored as the nearest value in range: a weekday, a day of the month, at most
      31 days between backups, at most ten years of retention, at most a thousand backups kept. */
  lemma NormalizeNearest(s: Settings, timeOfDay: string)
    ensures var r := Normalize(s, timeOfDay);
            && (r.hour, r.minute) == TimeOfDay(timeOfDay)
            && r.enabled == s.enabled && r.frequency == s.frequency && r.offset == s.offset
            && r.weeklyDay == Nearest(s.weeklyDay, 0, 6) && r.monthlyDay == Nearest(s.monthlyDay, 1, 31)
            && r.customIntervalHours == Nearest(s.customIntervalHours, 1, 24 * 31)
            && r.retentionDays == Nearest(s.retentionDays, 1, 3650)
            && r.retentionCount == Nearest(s.retentionCount, 1, 1000)
  {
  }

  // ---------- the code ----------

  function ComputeNextScheduledBackup(s: Settings, from: int): int {
    var p := ZonedParts(from, s.offset);
    match s.frequency
    case Custom => from + s.customIntervalHours * 3_600_000
    case Daily =>
      var candidate := ZonedInstant(p.year, p.month, p.day, s.hour, s.minute, s.offset);
      if candidate <= from then ZonedInstant(p.year, p.month, p.day + 1, s.hour, s.minute, s.offset) else candidate
    case Weekly =>
      var delta := (s.weeklyDay - p.weekday + 7) % 7;
      var candidate := ZonedInstant(p.year, p.month, p.day + delta, s.hour, s.minute, s.offset);
      if candidate <= from then ZonedInstant(p.year, p.month, p.day + (delta + 7), s.hour, s.minute, s.offset)
      else candidate
    case Monthly =>
      var candidate :=
          ZonedInstant(p.year, p.month, Min(s.monthlyDay, DaysInMonth(p.year, p.month)), s.hour, s.minute, s.offset);
      if candidate <= from then
        var nextMonth := if p.month == 12 then 1 else p.month + 1;
        var nextYear := if p.month == 12 then p.year + 1 else p.year;
        ZonedInstant(nextYear, nextMonth, Min(s.monthlyDay, DaysInMonth(nextYear, nextMonth)), s.hour, s.minute,
                     s.offset)
      else candidate
  }

  function ShiftZonedDays(s: Settings, base: int, days: int): int {
    var p := ZonedParts(base, s.offset);
    ZonedInstant(p.year, p.month, p.day + days, s.hour, s.minute, s.offset)
  }

  function ShiftZonedMonths(s: Settings, base: int, months: int): int {
    var p := ZonedParts(base, s.offset);
    var targetIndex := p.month - 1 + months;
    var year := p.year + targetIndex / 12;
    var month := (targetIndex % 12 + 12) % 12 + 1;
    ZonedInstant(year, month, Min(s.monthlyDay, DaysInMonth(year, month)), s.hour, s.minute, s.offset)
  }

  function LatestScheduledOccurrence(s: Settings, now: int): Option<int> {
    var next := ComputeNextScheduledBackup(s, now - MS_PER_DAY);
    if next <= now then Some(next)
    else
      match s.frequency
      case Daily => Some(ShiftZonedDays(s, next, -1))
      case Weekly => Some(ShiftZonedDays(s, next, -7))
      case Monthly => Some(ShiftZonedMonths(s, next, -1))
      case Custom => None
  }

  // ---------- what the settings mean ----------

  predicate Scheduled(s: Settings, t: int) {
    var p := ZonedParts(t, s.offset);
    && t % 1000 == 0 && p.hour == s.hour && p.minute == s.minute && p.second == 0
    && match s.frequency
       case Daily => true
       case Weekly => p.weekday == s.weeklyDay
       case Monthly => p.day == Min(s.monthlyDay, DaysInMonth(p.year, p.month))
       case Custom => false
  }

  ghost predicate IsNext(s: Settings, from: int, t: int) {
    from < t && Scheduled(s, t) && forall u | from < u < t :: !Scheduled(s, u)
  }

  ghost predicate IsLatest(s: Settings, now: int, t: int) {
    t <= now && Scheduled(s, t) && forall u | t < u <= now :: !Scheduled(s, u)
  }

  // ---------- the scheduled instants in order ----------

  function OccurrenceDay(s: Settings, k: int): int {
    match s.frequency
    case Weekly => 7 * k + s.weeklyDay - 4
    case Monthly => MonthStart(k) + Min(s.monthlyDay, MonthStart(k + 1) - MonthStart(k)) - 1
    case _ => k
  }

  function AtDay(s: Settings, day: int): int {
    day * MS_PER_DAY + (s.hour * 3_600_000 + s.minute * 60_000) - 1000 * s.offset
  }

  // The k-th scheduled instant: k counts days, weeks or months.
  function Occurrence(s: Settings, k: int): int {
    AtDay(s, OccurrenceDay(s, k))
  }

  lemma AtDayParts(s: Settings, day: int)
    requires InRange(s)
    ensures var t := AtDay(s, day);
            && LocalDay(t, s.offset) == day && t % 1000 == 0
            && var p := ZonedParts(t, s.offset); p.hour == s.hour && p.minute == s.minute && p.second == 0
  {
    hide MonthStart, MonthOf;
    ClockParts(s.hour, s.minute);
    DayAndClock(day, s.hour * 3_600_000 + s.minute * 60_000);
    assert AtDay(s, day) == 1000 * (day * 86_400 + s.hour * 3600 + s.minute * 60 - s.offset);
  }

  lemma DayOfMonth(s: Settings, t: int)
    ensures var p := ZonedParts(t, s.offset);
            var m := MonthOf(LocalDay(t, s.offset));
            && p.day == LocalDay(t, s.offset) - MonthStart(m) + 1
            && DaysInMonth(p.year, p.month) == MonthStart(m + 1) - MonthStart(m)
  {
    hide MonthStart, MonthOf, DaysInMonth;
    PartsName(t, s.offset);
    var p := ZonedParts(t, s.offset);
    DaysInMonthIsLength(p.year, p.month);
  }

  lemma OccurrenceInMonth(s: Settings, k: int)
    requires InRange(s) && s.frequency == Monthly
    ensures MonthOf(OccurrenceDay(s, k)) == k
    ensures MonthStart(k) <= OccurrenceDay(s, k) < MonthStart(k + 1)
  {
    hide MonthStart, MonthOf;
    MonthLength(k);
    MonthOfUnique(OccurrenceDay(s, k), k);
  }

  // Every occurrence is scheduled ...
  lemma OccurrenceIsScheduled(s: Settings, k: int)
    requires InRange(s) && s.frequency != Custom
    ensures Scheduled(s, Occurrence(s, k))
  {
    hide MonthStart, MonthOf, AtDay, DaysInMonth, LocalDay;
    var t := Occurrence(s, k);
    AtDayParts(s, OccurrenceDay(s, k));
    if s.frequency == Weekly {
      WeekdayOf(k, s.weeklyDay);
    }
    if s.frequency == Monthly {
      OccurrenceInMonth(s, k);
      DayOfMonth(s, t);
    }
  }

  lemma WeekdayOf(k: int, weeklyDay: int)
    requires 0 <= weeklyDay <= 6
    ensures (7 * k + weeklyDay - 4 + 4) % 7 == weeklyDay
  {
  }

  // ... and every scheduled instant is an occurrence.
  lemma ScheduledIsOccurrence(s: Settings, t: int) returns (k: int)
    requires InRange(s) && Scheduled(s, t)
    ensures t == Occurrence(s, k)
  {
    hide MonthStart, MonthOf, DaysInMonth;
    var day := LocalDay(t, s.offset);
    assert t == AtDay(s, day) by { WholeMinutes(s, t); }
    match s.frequency
    case Daily => k := day;
    case Weekly => k := (day + 4 - s.weeklyDay) / 7;
    case Monthly =>
      k := MonthOf(day);
      DayOfMonth(s, t);
  }

  lemma WholeMinutes(s: Settings, t: int)
    requires InRange(s)
    requires t % 1000 == 0
    requires var p := ZonedParts(t, s.offset); p.hour == s.hour && p.minute == s.minute && p.second == 0
    ensures t == AtDay(s, LocalDay(t, s.offset))
  {
    hide MonthStart, MonthOf;
    SplitInstant(t + 1000 * s.offset);
    OffsetKeepsMilliseconds(t, s.offset);
  }

  lemma AtDayAscends(s: Settings, a: int, b: int)
    requires a < b
    ensures AtDay(s, a) + MS_PER_DAY <= AtDay(s, b)
  {
  }

  // Occurrences are at least a day apart.
  lemma OccurrencesAscend(s: Settings, a: int, b: int)
    requires InRange(s) && s.frequency != Custom && a < b
    ensures OccurrenceDay(s, a) < OccurrenceDay(s, b)
    ensures Occurrence(s, a) + MS_PER_DAY <= Occurrence(s, b)
  {
    hide MonthStart, MonthOf, AtDay;
    if s.frequency == Monthly {
      OccurrenceInMonth(s, a);
      OccurrenceInMonth(s, b);
      MonthsAscend(a + 1, b);
    }
    AtDayAscends(s, OccurrenceDay(s, a), OccurrenceDay(s, b));
  }

  lemma NextByIndex(s: Settings, from: int, k: int)
    requires InRange(s) && s.frequency != Custom
    requires Occurrence(s, k - 1) <= from < Occurrence(s, k)
    ensures IsNext(s, from, Occurrence(s, k))
  {
    hide Scheduled, Occurrence;
    OccurrenceIsScheduled(s, k);
    forall u | from < u < Occurrence(s, k) ensures !Scheduled(s, u) {
      if Scheduled(s, u) {
        var j := ScheduledIsOccurrence(s, u);
        if j < k - 1 { OccurrencesAscend(s, j, k - 1); }
        if k < j { OccurrencesAscend(s, k, j); }
      }
    }
  }

  lemma LatestByIndex(s: Settings, now: int, k: int)
    requires InRange(s) && s.frequency != Custom
    requires Occurrence(s, k) <= now < Occurrence(s, k + 1)
    ensures IsLatest(s, now, Occurrence(s, k))
  {
    hide Scheduled, Occurrence;
    OccurrenceIsScheduled(s, k);
    forall u | Occurrence(s, k) < u <= now ensures !Scheduled(s, u) {
      if Scheduled(s, u) {
        var j := ScheduledIsOccurrence(s, u);
        if j < k { OccurrencesAscend(s, j, k); }
        if k + 1 < j { OccurrencesAscend(s, k + 1, j); }
      }
    }
  }

  // The candidates of the code, as days.
  lemma CandidateByDay(s: Settings, t: int, days: int)
    ensures var p := ZonedParts(t, s.offset);
            ZonedInstant(p.year, p.month, p.day + days, s.hour, s.minute, s.offset)
                == AtDay(s, LocalDay(t, s.offset) + days)
  {
    hide MonthStart, MonthOf, LocalDay, ZonedParts;
    PartsName(t, s.offset);
  }

  lemma CandidateByMonth(s: Settings, year: int, month: int)
    requires s.frequency == Monthly
    ensures ZonedInstant(year, month, Min(s.monthlyDay, DaysInMonth(year, month)), s.hour, s.minute, s.offset)
         == Occurrence(s, 12 * year + month - 1)
  {
    hide MonthStart, MonthOf, DaysInMonth;
    DaysInMonthIsLength(year, month);
    assert 12 * year + (month - 1) == 12 * year + month - 1;
  }

  // A local time lies within its local day.
  lemma WithinDay(s: Settings, from: int, day: int)
    requires InRange(s)
    ensures day < LocalDay(from, s.offset) ==> AtDay(s, day) <= from
    ensures LocalDay(from, s.offset) < day ==> from < AtDay(s, day)
  {
    var local := from + 1000 * s.offset;
    assert local / MS_PER_DAY * MS_PER_DAY <= local < local / MS_PER_DAY * MS_PER_DAY + MS_PER_DAY;
    assert s.hour * 3_600_000 + s.minute * 60_000 < MS_PER_DAY;
  }

  lemma NextDaily(s: Settings, from: int) returns (k: int)
    requires InRange(s) && s.frequency == Daily
    ensures ComputeNextScheduledBackup(s, from) == Occurrence(s, k)
    ensures Occurrence(s, k - 1) <= from < Occurrence(s, k)
  {
    hide MonthStart, MonthOf, LocalDay, AtDay, DaysInMonth, ZonedInstant;
    var day := LocalDay(from, s.offset);
    CandidateByDay(s, from, 0);
    CandidateByDay(s, from, 1);
    k := if AtDay(s, day) <= from then day + 1 else day;
    WithinDay(s, from, k - 1);
    WithinDay(s, from, k);
  }

  lemma NextWeekly(s: Settings, from: int) returns (k: int)
    requires InRange(s) && s.frequency == Weekly
    ensures ComputeNextScheduledBackup(s, from) == Occurrence(s, k)
    ensures Occurrence(s, k - 1) <= from < Occurrence(s, k)
  {
    hide MonthStart, MonthOf, LocalDay, AtDay, DaysInMonth, ZonedInstant;
    var day := LocalDay(from, s.offset);
    var delta := (s.weeklyDay - (day + 4) % 7 + 7) % 7;
    CandidateByDay(s, from, delta);
    CandidateByDay(s, from, delta + 7);
    k := (day + delta + 4 - s.weeklyDay) / 7;
    WeekdayAligns(day, s.weeklyDay);
    if AtDay(s, day + delta) <= from { k := k + 1; }
    WithinDay(s, from, OccurrenceDay(s, k - 1));
    WithinDay(s, from, OccurrenceDay(s, k));
  }

  lemma NextMonthly(s: Settings, from: int) returns (k: int)
    requires InRange(s) && s.frequency == Monthly
    ensures ComputeNextScheduledBackup(s, from) == Occurrence(s, k)
    ensures Occurrence(s, k - 1) <= from < Occurrence(s, k)
  {
    hide MonthStart, MonthOf, LocalDay, AtDay, DaysInMonth, ZonedInstant, ZonedParts;
    var p := ZonedParts(from, s.offset);
    PartsName(from, s.offset);
    k := MonthOf(LocalDay(from, s.offset));
    CandidateByMonth(s, p.year, p.month);
    if Occurrence(s, k) <= from {
      k := k + 1;
      if p.month == 12 { CandidateByMonth(s, p.year + 1, 1); } else { CandidateByMonth(s, p.year, p.month + 1); }
      OccurrenceInMonth(s, k);
    } else {
      OccurrenceInMonth(s, k - 1);
    }
    WithinDay(s, from, OccurrenceDay(s, k - 1));
    WithinDay(s, from, OccurrenceDay(s, k));
  }

  lemma NextIsIndexed(s: Settings, from: int) returns (k: int)
    requires InRange(s) && s.frequency != Custom
    ensures ComputeNextScheduledBackup(s, from) == Occurrence(s, k)
    ensures Occurrence(s, k - 1) <= from < Occurrence(s, k)
  {
    hide ComputeNextScheduledBackup, Occurrence;
    match s.frequency
    case Daily => k := NextDaily(s, from);
    case Weekly => k := NextWeekly(s, from);
    case Monthly => k := NextMonthly(s, from);
  }

  lemma WeekdayAligns(day: int, weeklyDay: int)
    requires 0 <= weeklyDay <= 6
    ensures var delta := (weeklyDay - (day + 4) % 7 + 7) % 7;
            0 <= delta <= 6 && 7 * ((day + delta + 4 - weeklyDay) / 7) + weeklyDay - 4 == day + delta
  {
    var delta := (weeklyDay - (day + 4) % 7 + 7) % 7;
    assert (day + 4) % 7 == (day + 4) - 7 * ((day + 4) / 7);
    assert (day + delta + 4 - weeklyDay) % 7 == 0;
  }

  /** The next backup shown and awaited is the least scheduled instant after `from`. */
  lemma ComputeNextIsNext(s: Settings, from: int)
    requires InRange(s) && s.frequency != Custom
    ensures IsNext(s, from, ComputeNextScheduledBackup(s, from))
  {
    hide ComputeNextScheduledBackup, Occurrence, IsNext;
    var k := NextIsIndexed(s, from);
    NextByIndex(s, from, k);
  }

  /** A shift by any number of days or months lands that many days or months on, at the scheduled time,
      and for months on the day of the settings or the last one of the month. */
  lemma ShiftsExactly(s: Settings, base: int, n: int)
    requires InRange(s)
    ensures LocalDay(ShiftZonedDays(s, base, n), s.offset) == LocalDay(base, s.offset) + n
    ensures s.frequency == Monthly ==>
              var t := ShiftZonedMonths(s, base, n);
              var p, q := ZonedParts(base, s.offset), ZonedParts(t, s.offset);
              Scheduled(s, t) && 12 * q.year + q.month == 12 * p.year + p.month + n
  {
    hide MonthStart, MonthOf, LocalDay, AtDay, DaysInMonth, ZonedInstant, ZonedParts, Scheduled, Occurrence;
    CandidateByDay(s, base, n);
    AtDayParts(s, LocalDay(base, s.offset) + n);
    if s.frequency == Monthly {
      var p := ZonedParts(base, s.offset);
      var year := p.year + (p.month - 1 + n) / 12;
      var month := ((p.month - 1 + n) % 12 + 12) % 12 + 1;
      CandidateByMonth(s, year, month);
      MonthOfOccurrence(s, 12 * year + month - 1);
      OccurrenceIsScheduled(s, 12 * year + month - 1);
    }
  }

  lemma MonthOfOccurrence(s: Settings, k: int)
    requires InRange(s) && s.frequency == Monthly
    ensures var q := ZonedParts(Occurrence(s, k), s.offset); 12 * q.year + q.month - 1 == k
  {
    hide MonthStart, MonthOf, LocalDay, AtDay, ZonedParts;
    AtDayParts(s, OccurrenceDay(s, k));
    OccurrenceInMonth(s, k);
    PartsName(Occurrence(s, k), s.offset);
  }

  /** With a custom interval the next backup is that many hours on, whatever the time of day. */
  lemma CustomAddsHours(s: Settings, from: int)
    requires s.frequency == Custom
    ensures ComputeNextScheduledBackup(s, from) - from == 1000 * 60 * 60 * s.customIntervalHours
    ensures LatestScheduledOccurrence(s, from)
         == if s.customIntervalHours <= 24 then Some(from - 1000 * 60 * 60 * (24 - s.customIntervalHours)) else None
  {
  }

  lemma ShiftBack(s: Settings, k: int)
    requires InRange(s) && s.frequency != Custom
    ensures s.frequency == Daily ==> ShiftZonedDays(s, Occurrence(s, k), -1) == Occurrence(s, k - 1)
    ensures s.frequency == Weekly ==> ShiftZonedDays(s, Occurrence(s, k), -7) == Occurrence(s, k - 1)
    ensures s.frequency == Monthly ==> ShiftZonedMonths(s, Occurrence(s, k), -1) == Occurrence(s, k - 1)
  {
    hide MonthStart, MonthOf, LocalDay, AtDay, DaysInMonth, ZonedInstant, ZonedParts;
    var t := Occurrence(s, k);
    AtDayParts(s, OccurrenceDay(s, k));
    match s.frequency
    case Daily => CandidateByDay(s, t, -1);
    case Weekly => CandidateByDay(s, t, -7);
    case Monthly =>
      PartsName(t, s.offset);
      OccurrenceInMonth(s, k);
      var p := ZonedParts(t, s.offset);
      var year := p.year + (p.month - 2) / 12;
      var month := ((p.month - 2) % 12 + 12) % 12 + 1;
      assert 12 * year + month - 1 == k - 1;
      CandidateByMonth(s, year, month);
  }

  /** The occurrence the due test compares with is the greatest scheduled instant up to `now`. */
  lemma LatestIsLatest(s: Settings, now: int)
    requires InRange(s) && s.frequency != Custom
    ensures LatestScheduledOccurrence(s, now).Some?
    ensures IsLatest(s, now, LatestScheduledOccurrence(s, now).value)
  {
    hide ComputeNextScheduledBackup, Occurrence, IsLatest, ShiftZonedDays, ShiftZonedMonths;
    var k := NextIsIndexed(s, now - MS_PER_DAY);
    if Occurrence(s, k) <= now {
      OccurrencesAscend(s, k, k + 1);
      LatestByIndex(s, now, k);
    } else {
      ShiftBack(s, k);
      LatestByIndex(s, now, k - 1);
    }
  }
}
