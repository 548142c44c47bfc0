/** Civil dates as the scheduler sees them: `Date.UTC` (MakeDay and MakeDate of section 21.4.1 of
    ECMA-262) one way, the parts of a zoned clock the other way. Instants are milliseconds since
    1970-01-01T00:00Z; a time zone is a constant offset in whole seconds. */
module Calendar {
  const MS_PER_DAY: int := 86_400_000

  predicate IsLeap(y: int) {
    y % 4 == 0 && (y % 100 != 0 || y % 400 == 0)
  }

  // DayFromYear of section 21.4.1.3 of ECMA-262: the day number of 1 January.
  function DayFromYear(y: int): int {
    365 * (y - 1970) + (y - 1969) / 4 - (y - 1901) / 100 + (y - 1601) / 400
  }

  // When one of the three terms of DayFromYear steps up.
  lemma FourthYear(y: int)
    ensures (y - 1968) / 4 == (y - 1969) / 4 + if y % 4 == 0 then 1 else 0
  {
    assert y - 1969 == 4 * (y / 4 - 493) + (y % 4 + 3);
  }

  lemma Century(y: int)
    ensures (y - 1900) / 100 == (y - 1901) / 100 + if y % 100 == 0 then 1 else 0
  {
    assert y - 1901 == 100 * (y / 100 - 20) + (y % 100 + 99);
  }

  lemma FourCenturies(y: int)
    ensures (y - 1600) / 400 == (y - 1601) / 400 + if y % 400 == 0 then 1 else 0
  {
    assert y - 1601 == 400 * (y / 400 - 5) + (y % 400 + 399);
  }

  lemma HundredfoldRemainder(m: int)
    ensures 100 * m % 100 == 0
  {
  }

  lemma FourfoldRemainder(m: int)
    ensures 4 * m % 4 == 0
  {
  }

  lemma LeapRule(y: int)
    ensures y % 400 == 0 ==> y % 100 == 0
    ensures y % 100 == 0 ==> y % 4 == 0
  {
    HundredfoldRemainder(4 * (y / 400));
    FourfoldRemainder(25 * (y / 100));
  }

  lemma YearLength(y: int)
    ensures DayFromYear(y + 1) == DayFromYear(y) + if IsLeap(y) then 366 else 365
  {
    FourthYear(y);
    Century(y);
    FourCenturies(y);
    LeapRule(y);
  }

  // 400 years hold 146097 days; a year starts within two days of that average.
  lemma YearDrift(y: int)
    ensures 146_097 * (y - 1970) - 506 <= 400 * DayFromYear(y) <= 146_097 * (y - 1970) + 589
  {
  }

  // The year a day falls in (YearFromTime): an average-based guess is off by at most one.
  function YearOf(day: int): (y: int)
    ensures DayFromYear(y) <= day < DayFromYear(y + 1)
  {
    var guess := 1970 + 400 * day / 146_097;
    YearDrift(guess - 1);
    YearDrift(guess + 2);
    if day < DayFromYear(guess) then guess - 1
    else if DayFromYear(guess + 1) <= day then guess + 1
    else guess
  }

  // Days of the year before the month with index 0 to 11.
  function DaysBeforeMonth(leap: bool, m: int): int
    requires 0 <= m < 12
  {
    [0, 31, 59, 90, 120, 151, 181, 212, 243, 273, 304, 334][m] + if leap && 2 <= m then 1 else 0
  }

  // Months are numbered 12 * year + index, so that month and year overflow need no cases.
  function MonthStart(month: int): int {
    DayFromYear(month / 12) + DaysBeforeMonth(IsLeap(month / 12), month % 12)
  }

  lemma MonthLength(month: int)
    ensures 28 <= MonthStart(month + 1) - MonthStart(month) <= 31
  {
    YearLength(month / 12);
    if month % 12 == 11 {
      assert (month + 1) / 12 == month / 12 + 1 && (month + 1) % 12 == 0;
    } else {
      assert (month + 1) / 12 == month / 12 && (month + 1) % 12 == month % 12 + 1;
    }
  }

  lemma {:induction false} MonthsAscend(a: int, b: int)
    requires a <= b
    ensures MonthStart(a) + 28 * (b - a) <= MonthStart(b)
    decreases b - a
  {
    hide MonthStart;
    if a < b {
      MonthsAscend(a, b - 1);
      MonthLength(b - 1);
    }
  }

  function MonthFrom(year: int, index: int, day: int): (m: int)
    requires 0 <= index < 12
    requires MonthStart(12 * year + index) <= day < MonthStart(12 * year + 12)
    ensures MonthStart(m) <= day < MonthStart(m + 1)
    decreases 12 - index
  {
    hide MonthStart;
    if day < MonthStart(12 * year + index + 1) then 12 * year + index
    else MonthFrom(year, index + 1, day)
  }

  lemma JanuaryStartsYear(y: int)
    ensures MonthStart(12 * y) == DayFromYear(y)
  {
    assert 12 * y / 12 == y && 12 * y % 12 == 0;
  }

  // The month a day falls in.
  function MonthOf(day: int): (m: int)
    ensures MonthStart(m) <= day < MonthStart(m + 1)
  {
    hide MonthStart, DayFromYear;
    var y := YearOf(day);
    JanuaryStartsYear(y);
    JanuaryStartsYear(y + 1);
    MonthFrom(y, 0, day)
  }

  lemma MonthOfUnique(day: int, m: int)
    requires MonthStart(m) <= day < MonthStart(m + 1)
    ensures MonthOf(day) == m
  {
    hide MonthStart, MonthOf;
    if MonthOf(day) < m {
      MonthsAscend(MonthOf(day) + 1, m);
    } else if m < MonthOf(day) {
      MonthsAscend(m + 1, MonthOf(day));
    }
  }

  // MakeDay: months and days outside their ranges carry over.
  function MakeDay(year: int, monthIndex: int, date: int): int {
    MonthStart(12 * year + monthIndex) + date - 1
  }

  function DateUtc(year: int, monthIndex: int, date: int, hour: int, minute: int, second: int): int {
    MakeDay(year, monthIndex, date) * MS_PER_DAY + hour * 3_600_000 + minute * 60_000 + second * 1000
  }

  datatype Parts = Parts(year: int, month: int, day: int, hour: int, minute: int, second: int, weekday: int)

  function LocalDay(t: int, offset: int): int {
    (t + 1000 * offset) / MS_PER_DAY
  }

  function ZonedParts(t: int, offset: int): Parts {
    var ms := (t + 1000 * offset) % MS_PER_DAY;
    var day := LocalDay(t, offset);
    var month := MonthOf(day);
    Parts(month / 12, month % 12 + 1, day - MonthStart(month) + 1,
          ms / 3_600_000, ms / 60_000 % 60, ms / 1000 % 60, (day + 4) % 7)
  }

  lemma PartsName(t: int, offset: int)
    ensures var p := ZonedParts(t, offset);
            && 12 * p.year + p.month - 1 == MonthOf(LocalDay(t, offset))
            && MakeDay(p.year, p.month - 1, p.day) == LocalDay(t, offset)
            && 1 <= p.month <= 12 && 1 <= p.day && 0 <= p.hour < 24
  {
    hide MonthStart, MonthOf, LocalDay;
    var p := ZonedParts(t, offset);
    assert 12 * p.year + (p.month - 1) == MonthOf(LocalDay(t, offset));
  }

  // Date.UTC inverts the parts of a zoned clock, up to the milliseconds that they do not carry.
  lemma PartsRoundTrip(t: int, offset: int)
    ensures var p := ZonedParts(t, offset);
            DateUtc(p.year, p.month - 1, p.day, p.hour, p.minute, p.second) == t + 1000 * offset - t % 1000
  {
    hide MonthStart, MonthOf, MakeDay;
    PartsName(t, offset);
    SplitInstant(t + 1000 * offset);
    OffsetKeepsMilliseconds(t, offset);
  }

  lemma OffsetKeepsMilliseconds(t: int, offset: int)
    ensures (t + 1000 * offset) % 1000 == t % 1000
  {
    assert t + 1000 * offset == 1000 * (t / 1000 + offset) + t % 1000;
  }

  lemma SplitInstant(local: int)
    ensures var ms := local % MS_PER_DAY;
            local / MS_PER_DAY * MS_PER_DAY + ms / 3_600_000 * 3_600_000 + ms / 60_000 % 60 * 60_000
              + ms / 1000 % 60 * 1000 == local - local % 1000
  {
    ClockSplit(local % MS_PER_DAY);
    assert local % MS_PER_DAY % 1000 == local % 1000;
  }

  lemma ClockSplit(ms: int)
    requires 0 <= ms < MS_PER_DAY
    ensures ms / 3_600_000 * 3_600_000 + ms / 60_000 % 60 * 60_000 + ms / 1000 % 60 * 1000 == ms - ms % 1000
    ensures 0 <= ms / 3_600_000 < 24
  {
    assert ms / 60_000 / 60 == ms / 3_600_000;
    assert ms / 1000 / 60 == ms / 60_000;
  }

  // Conversely the parts of a Date.UTC value are the arguments, when these are in range.
  lemma UtcRoundTrip(year: int, monthIndex: int, date: int, hour: int, minute: int, offset: int)
    requires 0 <= hour < 24 && 0 <= minute < 60
    ensures var t := DateUtc(year, monthIndex, date, hour, minute, 0) - 1000 * offset;
            && LocalDay(t, offset) == MakeDay(year, monthIndex, date)
            && ZonedParts(t, offset).hour == hour
            && ZonedParts(t, offset).minute == minute
            && ZonedParts(t, offset).second == 0
            && t % 1000 == 0
  {
    hide MakeDay, MonthStart, MonthOf;
    var t := DateUtc(year, monthIndex, date, hour, minute, 0) - 1000 * offset;
    var ms := hour * 3_600_000 + minute * 60_000;
    assert t + 1000 * offset == MakeDay(year, monthIndex, date) * MS_PER_DAY + ms;
    DayAndClock(MakeDay(year, monthIndex, date), ms);
    ClockParts(hour, minute);
    assert t % 1000 == 0 by {
      assert t == 1000 * (MakeDay(year, monthIndex, date) * 86_400 + hour * 3600 + minute * 60 - offset);
    }
  }

  lemma DayAndClock(day: int, ms: int)
    requires 0 <= ms < MS_PER_DAY
    ensures (day * MS_PER_DAY + ms) / MS_PER_DAY == day
    ensures (day * MS_PER_DAY + ms) % MS_PER_DAY == ms
  {
  }

  lemma ClockParts(hour: int, minute: int)
    requires 0 <= hour < 24 && 0 <= minute < 60
    ensures var ms := hour * 3_600_000 + minute * 60_000;
            && 0 <= ms < MS_PER_DAY
            && ms / 3_600_000 == hour && ms / 60_000 % 60 == minute && ms / 1000 % 60 == 0
  {
    var ms := hour * 3_600_000 + minute * 60_000;
    assert ms / 60_000 == 60 * hour + minute;
    assert ms / 1000 == 60 * (60 * hour + minute);
  }

  // The last day of a month is day 0 of the next one.
  function DaysInMonth(year: int, month: int): (n: int)
  {
    ZonedParts(DateUtc(year, month, 0, 0, 0, 0), 0).day
  }

  lemma DaysInMonthIsLength(year: int, month: int)
    ensures DaysInMonth(year, month) == MonthStart(12 * year + month) - MonthStart(12 * year + month - 1)
    ensures 28 <= DaysInMonth(year, month) <= 31
  {
    hide MonthStart, MonthOf;
    var m := 12 * year + month;
    MonthLength(m - 1);
    UtcRoundTrip(year, month, 0, 0, 0, 0);
    MonthOfUnique(MakeDay(year, month, 0), m - 1);
  }

  /** Thirty days have April, June, September and November, February has 28, or 29 in a leap year, and
      the others have 31. */
  lemma MonthLengths(year: int, month: int)
    requires 1 <= month <= 12
    ensures DaysInMonth(year, month) ==
            if month == 4 || month == 6 || month == 9 || month == 11 then 30
            else if month == 2 then (if year % 4 == 0 && (year % 100 != 0 || year % 400 == 0) then 29 else 28)
            else 31
  {
    hide DaysInMonth, DayFromYear;
    DaysInMonthIsLength(year, month);
    var m := 12 * year + month - 1;
    assert m / 12 == year && m % 12 == month - 1;
    if month == 12 {
      JanuaryStartsYear(year + 1);
      assert 12 * (year + 1) == m + 1;
      YearLength(year);
    } else {
      assert (m + 1) / 12 == year && (m + 1) % 12 == month;
    }
  }

  // Where the count of days begins: a Thursday.
  lemma Epoch()
    ensures ZonedParts(0, 0) == Parts(1970, 1, 1, 0, 0, 0, 4)
  {
    hide MonthStart, MonthOf;
    FirstMonth();
    MonthOfUnique(0, 23_640);
  }

  lemma FirstMonth()
    ensures MonthStart(23_640) == 0 && MonthStart(23_641) == 31
  {
    assert DayFromYear(1970) == 0;
  }

  /** A day later the clock shows the next weekday, and the next day of the month, or the first of the next
      month when this one is over; the time of day is the same. */
  lemma NextDay(t: int, offset: int)
    ensures var p, q := ZonedParts(t, offset), ZonedParts(t + MS_PER_DAY, offset);
            && q.hour == p.hour && q.minute == p.minute && q.second == p.second
            && q.weekday == (p.weekday + 1) % 7 && 0 <= p.weekday < 7
            && 1 <= p.month <= 12 && 1 <= p.day <= DaysInMonth(p.year, p.month)
            && (q.year, q.month, q.day) ==
               if p.day < DaysInMonth(p.year, p.month) then (p.year, p.month, p.day + 1)
               else if p.month < 12 then (p.year, p.month + 1, 1)
               else (p.year + 1, 1, 1)
  {
    hide MonthStart, MonthOf, DaysInMonth;
    var p, day := ZonedParts(t, offset), LocalDay(t, offset);
    var m := MonthOf(day);
    PartsName(t, offset);
    DaysInMonthIsLength(p.year, p.month);
    assert m == 12 * p.year + p.month - 1;
    DayAndClock(day + 1, (t + 1000 * offset) % MS_PER_DAY);
    assert t + MS_PER_DAY + 1000 * offset == (day + 1) * MS_PER_DAY + (t + 1000 * offset) % MS_PER_DAY;
    assert LocalDay(t + MS_PER_DAY, offset) == day + 1;
    if day + 1 < MonthStart(m + 1) {
      MonthOfUnique(day + 1, m);
    } else {
      MonthLength(m + 1);
      MonthOfUnique(day + 1, m + 1);
      NextMonth(p.year, p.month);
    }
  }

  lemma NextMonth(year: int, month: int)
    requires 1 <= month <= 12
    ensures var m := 12 * year + month;
            m / 12 == (if month == 12 then year + 1 else year) && m % 12 + 1 == if month == 12 then 1 else month + 1
  {
  }

  // The offset the code recovers from a formatted date.
  function TimeZoneOffsetMs(t: int, offset: int): int {
    var p := ZonedParts(t, offset);
    DateUtc(p.year, p.month - 1, p.day, p.hour, p.minute, p.second) - t
  }

  function ZonedInstant(year: int, month: int, day: int, hour: int, minute: int, offset: int): int {
    DateUtc(year, month - 1, day, hour, minute, 0) - 1000 * offset
  }

  /** The two-pass loop that turns a local wall-clock time into an instant: it starts from the
      wrong offset (zero) and is exact after one correction. */
  method ZonedTimeToUtc(year: int, month: int, day: int, hour: int, minute: int, offset: int) returns (utc: int)
    ensures utc == ZonedInstant(year, month, day, hour, minute, offset)
  {
    hide DateUtc, ZonedParts;
    var wall := DateUtc(year, month - 1, day, hour, minute, 0);
    WholeSeconds(year, month - 1, day, hour, minute);
    utc := wall;
    for index := 0 to 2
      invariant utc % 1000 == 0
      invariant 1 <= index ==> utc == wall - 1000 * offset
    {
      PartsRoundTrip(utc, offset);
      var correction := TimeZoneOffsetMs(utc, offset);
      utc := wall - correction;
    }
  }

  lemma WholeSeconds(year: int, monthIndex: int, day: int, hour: int, minute: int)
    ensures DateUtc(year, monthIndex, day, hour, minute, 0) % 1000 == 0
  {
    hide MakeDay;
    assert DateUtc(year, monthIndex, day, hour, minute, 0)
        == 1000 * (MakeDay(year, monthIndex, day) * 86_400 + hour * 3600 + minute * 60);
  }

  // Local midnight, and local midnight of the first of the month.
  function StartOfDay(t: int, offset: int): int {
    LocalDay(t, offset) * MS_PER_DAY - 1000 * offset
  }

  function StartOfMonth(t: int, offset: int): int {
    MonthStart(MonthOf(LocalDay(t, offset))) * MS_PER_DAY - 1000 * offset
  }

  /** An instant is not before the start of the day, or of the month, of a later one exactly if both fall
      on the same local date, or in the same local month. */
  lemma StartsExact(x: int, now: int, offset: int)
    requires x <= now
    ensures var p, q := ZonedParts(x, offset), ZonedParts(now, offset);
            && (StartOfDay(now, offset) <= x <==> p.year == q.year && p.month == q.month && p.day == q.day)
            && (StartOfMonth(now, offset) <= x <==> p.year == q.year && p.month == q.month)
  {
    hide MonthStart, MonthOf;
    var a, b := LocalDay(x, offset), LocalDay(now, offset);
    PartsName(x, offset);
    PartsName(now, offset);
    assert a <= b;
    assert StartOfDay(now, offset) <= x <==> a == b;
    assert StartOfMonth(now, offset) <= x <==> MonthStart(MonthOf(b)) <= a;
    if MonthStart(MonthOf(b)) <= a { MonthOfUnique(a, MonthOf(b)); }
  }

  lemma StartsAscend(t: int, u: int, offset: int)
    requires t <= u
    ensures StartOfDay(t, offset) <= StartOfDay(u, offset) <= u
    ensures StartOfMonth(t, offset) <= StartOfMonth(u, offset) <= u
  {
    hide MonthStart, MonthOf;
    var a, b := MonthOf(LocalDay(t, offset)), MonthOf(LocalDay(u, offset));
    if b < a {
      MonthsAscend(b + 1, a);
    } else {
      MonthsAscend(a, b);
    }
  }
}
