/**
 * Calendar date to Julian Date, over exact rationals, against an independent calendar: the one
 * obtained from 1 January 1970 by stepping a day at a time, forwards and backwards.
 */
module JulianDate {
  datatype Date = Date(year: int, month: int, day: int)

  datatype Clock = Clock(hour: int, minute: int, second: int, nanosecond: int)

  /** The formula as the code computes it, with January and February counted in the previous year. */
  function JulianDate(date: Date, clock: Clock): real {
    var early := date.month <= 2;
    var y := (if early then date.year - 1 else date.year) as real;
    var m := (if early then date.month + 12 else date.month) as real;
    var a := (y / 100.0).Floor as real;
    var b := 2.0 - a + (a / 4.0).Floor as real;
    (365.25 * (y + 4716.0)).Floor as real + (30.6001 * (m + 1.0)).Floor as real + date.day as real + b - 1524.5
    + DayFraction(clock)
  }

  function DayFraction(clock: Clock): real {
    var s := clock.second as real + clock.nanosecond as real / 1000000000.0;
    (clock.hour as real + clock.minute as real / 60.0 + s / 3600.0) / 24.0
  }

  // ---- the calendar ----

  predicate Leap(y: int) { y % 4 == 0 && (y % 100 != 0 || y % 400 == 0) }

  function MonthDays(y: int, m: int): int {
    if m == 2 then (if Leap(y) then 29 else 28)
    else if m == 4 || m == 6 || m == 9 || m == 11 then 30 else 31
  }

  predicate Valid(date: Date) {
    1 <= date.month <= 12 && 1 <= date.day <= MonthDays(date.year, date.month)
  }

  function Next(date: Date): (r: Date)
    requires Valid(date)
    ensures Valid(r)
  {
    if date.day < MonthDays(date.year, date.month) then date.(day := date.day + 1)
    else if date.month < 12 then Date(date.year, date.month + 1, 1)
    else Date(date.year + 1, 1, 1)
  }

  function Previous(date: Date): (r: Date)
    requires Valid(date)
    ensures Valid(r) && Next(r) == date
  {
    if date.day > 1 then date.(day := date.day - 1)
    else if date.month > 1 then Date(date.year, date.month - 1, MonthDays(date.year, date.month - 1))
    else Date(date.year - 1, 12, 31)
  }

  /** The date `n` days after 1 January 1970. */
  function Civil(n: int): (r: Date)
    ensures Valid(r)
    decreases if n < 0 then -n else n
  {
    if n == 0 then Date(1970, 1, 1) else if n > 0 then Next(Civil(n - 1)) else Previous(Civil(n + 1))
  }

  // ---- the formula in integers ----

  /** Days up to the March that begins the shifted year `y`, up to a constant. */
  function YearStart(y: int): int { 1461 * (y + 4716) / 4 - y / 100 + y / 100 / 4 }

  function MonthStart(m: int): int { 153 * (m + 1) / 5 }

  function ShiftedYear(date: Date): int { if date.month <= 2 then date.year - 1 else date.year }

  function ShiftedMonth(date: Date): int { if date.month <= 2 then date.month + 12 else date.month }

  function DayNumber(date: Date): int {
    YearStart(ShiftedYear(date)) + MonthStart(ShiftedMonth(date)) + date.day - 1522
  }

  lemma FloorOfQuarters(x: real, a: int)
    requires x * 4.0 == a as real
    ensures x.Floor == a / 4
  {
    var q, r := a / 4, a % 4;
    assert a as real == 4.0 * q as real + r as real;
    assert q as real <= x < q as real + 1.0;
  }

  lemma FloorOfHundredths(x: real, a: int)
    requires x * 100.0 == a as real
    ensures x.Floor == a / 100
  {
    var q, r := a / 100, a % 100;
    assert a as real == 100.0 * q as real + r as real;
    assert q as real <= x < q as real + 1.0;
  }

  lemma MonthFloor(m: int)
    requires 3 <= m <= 14
    ensures (30.6001 * (m as real + 1.0)).Floor == MonthStart(m)
  {
    var x := 30.6001 * (m as real + 1.0);
    assert x == (153 * (m + 1)) as real / 5.0 + 0.0001 * (m as real + 1.0);
    var q, r := 153 * (m + 1) / 5, 153 * (m + 1) % 5;
    assert (153 * (m + 1)) as real == 5.0 * q as real + r as real;
    assert q as real <= x < q as real + 1.0;
  }

  lemma FormulaInIntegers(date: Date, clock: Clock)
    requires Valid(date)
    ensures JulianDate(date, clock) ==
            DayNumber(date) as real - 0.5 + DayFraction(clock)
  {
    var y, m := ShiftedYear(date), ShiftedMonth(date);
    FloorOfQuarters(365.25 * (y as real + 4716.0), 1461 * (y + 4716));
    FloorOfHundredths(y as real / 100.0, y);
    FloorOfQuarters((y / 100) as real / 4.0, y / 100);
    MonthFloor(m);
  }

  // ---- exact day counting ----

  lemma MonthEnds(y: int, m: int)
    requires 1 <= m <= 12 && m != 2
    ensures var s := if m == 1 then 13 else m; MonthStart(s + 1) - MonthStart(s) == MonthDays(y, m)
  {
  }

  /** Month ends, leap years and centuries included: the next day's number is one larger. */
  lemma NextDayCountsOne(date: Date)
    requires Valid(date)
    ensures DayNumber(Next(date)) == DayNumber(date) + 1
  {
    if date.day == MonthDays(date.year, date.month) {
      if date.month == 2 { FebruaryEnds(date.year); } else { MonthEnds(date.year, date.month); }
    }
  }

  lemma JulianLeap(y: int)
    ensures 1461 * (y + 4716) / 4 - 1461 * (y + 4715) / 4 == if y % 4 == 0 then 366 else 365
  {
    var k, i := y / 4, y % 4;
    assert 1461 * (y + 4716) == 4 * (1461 * (k + 1179)) + 1461 * i;
    assert 1461 * (y + 4715) == 4 * (1461 * (k + 1179)) + 1461 * (i - 1);
  }

  lemma CenturyLeap(y: int)
    ensures y / 100 - (y - 1) / 100 == if y % 100 == 0 then 1 else 0
    ensures y / 100 / 4 - (y - 1) / 100 / 4 == if y % 400 == 0 then 1 else 0
  {
    var k, i := y / 400, y % 400;
    assert y / 100 == 4 * k + i / 100;
    if i > 0 { assert (y - 1) / 100 == 4 * k + (i - 1) / 100; } else { assert (y - 1) / 100 == 4 * (k - 1) + 3; }
  }

  lemma RulesNest(y: int)
    ensures y % 400 == 0 ==> y % 100 == 0
    ensures y % 100 == 0 ==> y % 4 == 0
  {
    if y % 100 == 0 { HundredsAreFours(y / 100); }
    if y % 400 == 0 { FourHundredsAreHundreds(y / 400); }
  }

  lemma HundredsAreFours(c: int)
    ensures 100 * c % 4 == 0
  {
    assert 100 * c / 4 == 25 * c;
  }

  lemma FourHundredsAreHundreds(c: int)
    ensures 400 * c % 100 == 0
  {
    assert 400 * c / 100 == 4 * c;
  }

  /** The year's length by the three rules. */
  lemma LeapDays(y: int, days: int, centuries: int, quads: int)
    requires days == if y % 4 == 0 then 366 else 365
    requires centuries == if y % 100 == 0 then 1 else 0
    requires quads == if y % 400 == 0 then 1 else 0
    ensures days - centuries + quads == 337 + MonthDays(y, 2)
  {
    RulesNest(y);
  }

  lemma FebruaryEnds(y: int)
    ensures YearStart(y) - YearStart(y - 1) == 337 + MonthDays(y, 2)
  {
    JulianLeap(y);
    CenturyLeap(y);
    LeapDays(y, 1461 * (y + 4716) / 4 - 1461 * (y + 4715) / 4,
             y / 100 - (y - 1) / 100, y / 100 / 4 - (y - 1) / 100 / 4);
  }

  function CivilNumber(n: int): int { DayNumber(Civil(n)) }

  lemma EpochNumber()
    ensures CivilNumber(0) == 2440588
  {
    assert Civil(0) == Date(1970, 1, 1);
  }

  lemma CivilCountsOne(n: int)
    ensures CivilNumber(n) == CivilNumber(n - 1) + 1
  {
    assert Next(Civil(n - 1)) == Civil(n);
    NextDayCountsOne(Civil(n - 1));
  }

  predicate GrowsByOne(f: int -> int, n: int) { f(n) == f(n - 1) + 1 }

  lemma {:induction false} GrowsEvenly(f: int -> int, n: int)
    requires forall k :: GrowsByOne(f, k)
    ensures f(n) == f(0) + n
    decreases if n < 0 then -n else n
  {
    if n > 0 {
      assert GrowsByOne(f, n);
      GrowsEvenly(f, n - 1);
    } else if n < 0 {
      assert GrowsByOne(f, n + 1);
      GrowsEvenly(f, n + 1);
    }
  }

  /** The n-th day after the epoch has the epoch's day number plus n. */
  lemma CivilCounts(n: int)
    ensures DayNumber(Civil(n)) == 2440588 + n
  {
    forall k ensures GrowsByOne(CivilNumber, k) { CivilCountsOne(k); }
    GrowsEvenly(CivilNumber, n);
    EpochNumber();
  }

  predicate Before(a: Date, b: Date) {
    a.year < b.year || (a.year == b.year && (a.month < b.month || (a.month == b.month && a.day < b.day)))
  }

  lemma {:induction false} YearsAreLong(y: int, z: int)
    requires y <= z
    ensures YearStart(z) >= YearStart(y) + 365 * (z - y)
    decreases z - y
  {
    if y < z {
      YearsAreLong(y, z - 1);
      FebruaryEnds(z);
    }
  }

  lemma WithinYear(date: Date)
    requires Valid(date)
    ensures var y := ShiftedYear(date); YearStart(y) - 1400 < DayNumber(date) <= YearStart(y + 1) - 1400
  {
    FebruaryEnds(ShiftedYear(date) + 1);
  }

  lemma SameYear(a: Date, b: Date)
    requires Valid(a) && Valid(b) && Before(a, b) && ShiftedYear(a) >= ShiftedYear(b)
    ensures DayNumber(a) < DayNumber(b)
  {
    var m, k := ShiftedMonth(a), ShiftedMonth(b);
    assert ShiftedYear(a) == ShiftedYear(b);
    if m < k { MonthsAreLong(a, k); }
  }

  lemma MonthsAreLong(a: Date, k: int)
    requires Valid(a) && ShiftedMonth(a) < k <= 14
    ensures MonthStart(ShiftedMonth(a)) + a.day <= MonthStart(k)
  {
  }

  /** Day numbers order valid dates as the calendar does, so no two dates share one. */
  lemma DayNumberIsMonotone(a: Date, b: Date)
    requires Valid(a) && Valid(b) && Before(a, b)
    ensures DayNumber(a) < DayNumber(b)
  {
    var y, z := ShiftedYear(a), ShiftedYear(b);
    if y < z {
      WithinYear(a);
      WithinYear(b);
      YearsAreLong(y + 1, z);
    } else {
      SameYear(a, b);
    }
  }

  /** Every valid date is reached by stepping days from the epoch, at its own day number. */
  lemma EveryDateIsCivil(date: Date)
    requires Valid(date)
    ensures Civil(DayNumber(date) - 2440588) == date
  {
    var c := Civil(DayNumber(date) - 2440588);
    CivilCounts(DayNumber(date) - 2440588);
    if Before(c, date) { DayNumberIsMonotone(c, date); }
    if Before(date, c) { DayNumberIsMonotone(date, c); }
  }

  // ---- instants ----

  const DAY := 86400 * 1000000000

  /** The broken-down time of an instant given in nanoseconds after the Unix epoch. */
  function ClockOf(t: int): Clock {
    var r := t % DAY;
    Clock(r / 3600000000000, r / 60000000000 % 60, r / 1000000000 % 60, r % 1000000000)
  }

  lemma ClockAddsUp(r: int)
    requires 0 <= r < DAY
    ensures r / 3600000000000 * 3600000000000 + r / 60000000000 % 60 * 60000000000
            + r / 1000000000 % 60 * 1000000000 + r % 1000000000 == r
  {
    var s := r / 1000000000;
    assert r / 60000000000 == s / 60 && r / 3600000000000 == s / 3600;
    assert s / 3600 == s / 60 / 60;
  }

  /** The Julian Date of any instant is the Unix time in days after 2440587.5. */
  lemma JulianOfUnix(t: int)
    ensures JulianDate(Civil(t / DAY), ClockOf(t)) == 2440587.5 + t as real / DAY as real
  {
    CivilCounts(t / DAY);
    FormulaInIntegers(Civil(t / DAY), ClockOf(t));
    FractionOfDay(t);
    InDays(t, t / DAY, t % DAY);
  }

  lemma InDays(t: int, q: int, r: int)
    requires t == q * 86400000000000 + r
    ensures t as real / 86400000000000.0 == q as real + r as real / 86400000000000.0
  {
    assert t as real == q as real * 86400000000000.0 + r as real;
  }

  lemma FractionOfDay(t: int)
    ensures DayFraction(ClockOf(t)) == (t % DAY) as real / 86400000000000.0
  {
    var c, r := ClockOf(t), t % DAY;
    ClockAddsUp(r);
    var seconds := c.second as real + c.nanosecond as real / 1000000000.0;
    var hours := c.hour as real + c.minute as real / 60.0 + seconds / 3600.0;
    var nanos := c.hour * 3600000000000 + c.minute * 60000000000 + c.second * 1000000000 + c.nanosecond;
    assert hours * 3600000000000.0 == nanos as real;
  }

  lemma JulianIsMonotone(t: int, u: int)
    requires t < u
    ensures JulianDate(Civil(t / DAY), ClockOf(t)) < JulianDate(Civil(u / DAY), ClockOf(u))
  {
    JulianOfUnix(t);
    JulianOfUnix(u);
    LaterInDays(JulianDate(Civil(t / DAY), ClockOf(t)), t, JulianDate(Civil(u / DAY), ClockOf(u)), u);
  }

  lemma LaterInDays(a: real, t: int, b: real, u: int)
    requires t < u && a == 2440587.5 + t as real / DAY as real && b == 2440587.5 + u as real / DAY as real
    ensures a < b
  {
    assert DAY as real == 86400000000000.0;
  }
}
