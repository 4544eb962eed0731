/** The proleptic Gregorian calendar behind localtime and mktime, with a fixed offset
    from UTC in whole minutes. Times are minutes since 1970-01-01 00:00 UTC. */
module CronCalendar {

  /** Broken-down local time; `mon` counts from 0 and seconds are always 0. */
  datatype Tm = Tm(year: int, mon: int, mday: int, hour: int, min: int)

  predicate Leap(y: int) {
    y % 4 == 0 && (y % 100 != 0 || y % 400 == 0)
  }

  function DaysInMonth(y: int, mon: int): (d: int)
    requires 0 <= mon < 12
    ensures 28 <= d <= 31
  {
    if mon == 1 then (if Leap(y) then 29 else 28)
    else if mon == 3 || mon == 5 || mon == 8 || mon == 10 then 30
    else 31
  }

  /** Leap years before year y, up to a constant. */
  function Leaps(y: int): int {
    (y - 1) / 4 - (y - 1) / 100 + (y - 1) / 400
  }

  /** Day number of 1 January of year y; 1 January 1970 is day 0. */
  function YearStart(y: int): int {
    365 * (y - 1970) + Leaps(y) - Leaps(1970)
  }

  function YearLength(y: int): int {
    if Leap(y) then 366 else 365
  }

  /** Days before the first of a month, within its year. */
  function MonthStart(y: int, mon: int): int
    requires 0 <= mon <= 12
  {
    if mon == 0 then 0 else MonthStart(y, mon - 1) + DaysInMonth(y, mon - 1)
  }

  predicate Normal(tm: Tm) {
    && 0 <= tm.mon < 12 && 1 <= tm.mday <= DaysInMonth(tm.year, tm.mon)
    && 0 <= tm.hour < 24 && 0 <= tm.min < 60
  }

  function DayNumber(tm: Tm): int
    requires 0 <= tm.mon < 12
  {
    YearStart(tm.year) + MonthStart(tm.year, tm.mon) + tm.mday - 1
  }

  /** Local minutes of a broken-down time whose day, hour and minute may be out of range. */
  function Minutes(tm: Tm): int
    requires 0 <= tm.mon < 12
  {
    (DayNumber(tm) * 24 + tm.hour) * 60 + tm.min
  }

  /** 1 January 1970 was a Thursday; Sunday is 0. */
  function Weekday(day: int): (w: int)
    ensures 0 <= w < 7
  {
    (day + 4) % 7
  }

  /** Calendar order of normalised times. */
  predicate Before(a: Tm, b: Tm) {
    a.year < b.year || (a.year == b.year &&
      (a.mon < b.mon || (a.mon == b.mon &&
        (a.mday < b.mday || (a.mday == b.mday &&
          (a.hour < b.hour || (a.hour == b.hour && a.min < b.min)))))))
  }

  // ---- the calendar counts days without gap or overlap ------------------------------

  lemma YearStep(y: int)
    ensures YearStart(y + 1) == YearStart(y) + YearLength(y)
  {
    Fourths(y);
    Hundredths(y);
    FourHundredths(y);
    Multiples(y);
  }

  lemma Fourths(y: int)
    ensures y / 4 == (y - 1) / 4 + if y % 4 == 0 then 1 else 0
  {
  }

  lemma Hundredths(y: int)
    ensures y / 100 == (y - 1) / 100 + if y % 100 == 0 then 1 else 0
  {
  }

  lemma FourHundredths(y: int)
    ensures y / 400 == (y - 1) / 400 + if y % 400 == 0 then 1 else 0
  {
  }

  lemma Multiples(y: int)
    ensures y % 400 == 0 ==> y % 100 == 0
    ensures y % 100 == 0 ==> y % 4 == 0
  {
  }

  lemma {:induction false} YearsGrow(y: int, z: int)
    requires y <= z
    ensures YearStart(y) + 365 * (z - y) <= YearStart(z) <= YearStart(y) + 366 * (z - y)
    decreases z - y
  {
    hide YearStart;
    if y < z {
      YearStep(z - 1);
      YearsGrow(y, z - 1);
    }
  }

  lemma MonthTable(y: int)
    ensures MonthStart(y, 12) == YearLength(y)
  {
    var l := if Leap(y) then 1 else 0;
    assert MonthStart(y, 1) == 31;
    assert MonthStart(y, 2) == 59 + l;
    assert MonthStart(y, 4) == 120 + l;
    assert MonthStart(y, 6) == 181 + l;
    assert MonthStart(y, 8) == 243 + l;
    assert MonthStart(y, 10) == 304 + l;
  }

  lemma {:induction false} MonthsGrow(y: int, m: int, n: int)
    requires 0 <= m <= n <= 12
    ensures MonthStart(y, m) + 28 * (n - m) <= MonthStart(y, n)
    decreases n - m
  {
    if m < n { MonthsGrow(y, m, n - 1); }
  }

  /** The day of a normalised time lies in its month, and its month in its year. */
  lemma DayBounds(tm: Tm)
    requires Normal(tm)
    ensures YearStart(tm.year) <= DayNumber(tm) < YearStart(tm.year + 1)
    ensures MonthStart(tm.year, tm.mon) <= DayNumber(tm) - YearStart(tm.year) < MonthStart(tm.year, tm.mon + 1)
  {
    hide YearStart, Leap;
    YearStep(tm.year);
    MonthTable(tm.year);
    MonthsGrow(tm.year, 0, tm.mon);
    MonthsGrow(tm.year, tm.mon + 1, 12);
  }

  lemma EarlierDay(a: Tm, b: Tm)
    requires Normal(a) && Normal(b)
    requires a.year < b.year || (a.year == b.year && (a.mon < b.mon || (a.mon == b.mon && a.mday < b.mday)))
    ensures DayNumber(a) < DayNumber(b)
  {
    hide YearStart, Leap;
    DayBounds(a);
    DayBounds(b);
    if a.year < b.year { YearsGrow(a.year + 1, b.year); }
    else if a.mon < b.mon { MonthsGrow(a.year, a.mon + 1, b.mon); }
  }

  /** Counting minutes and comparing calendar fields agree. */
  lemma OrderAgrees(a: Tm, b: Tm)
    requires Normal(a) && Normal(b)
    ensures Minutes(a) < Minutes(b) <==> Before(a, b)
    ensures Minutes(a) == Minutes(b) <==> a == b
  {
    hide DayNumber, Leap;
    if (a.year, a.mon, a.mday) != (b.year, b.mon, b.mday) {
      if a.year < b.year || (a.year == b.year && (a.mon < b.mon || (a.mon == b.mon && a.mday < b.mday))) {
        EarlierDay(a, b);
      } else {
        EarlierDay(b, a);
      }
    } else {
      SameDay(a, b);
    }
  }

  lemma SameDay(a: Tm, b: Tm)
    requires 0 <= a.mon < 12 && a.year == b.year && a.mon == b.mon && a.mday == b.mday
    ensures DayNumber(a) == DayNumber(b)
  {
  }

  // ---- localtime and mktime -------------------------------------------------------------

  function YearFrom(day: int, y: int): (r: int)
    requires YearStart(y) <= day
    ensures YearStart(r) <= day < YearStart(r + 1)
    decreases day - YearStart(y)
  {
    YearStep(y);
    if day < YearStart(y + 1) then y else YearFrom(day, y + 1)
  }

  function YearOf(day: int): (r: int)
    ensures YearStart(r) <= day < YearStart(r + 1)
  {
    if day >= 0 then YearFrom(day, 1970)
    else
      var y := 1970 + day / 365;
      YearsGrow(y, 1970);
      YearFrom(day, y)
  }

  function MonthFrom(y: int, rest: int, mon: int): (r: int)
    requires 0 <= mon < 12 && MonthStart(y, mon) <= rest < MonthStart(y, 12)
    ensures 0 <= r < 12 && MonthStart(y, r) <= rest < MonthStart(y, r + 1)
    decreases 12 - mon
  {
    if rest < MonthStart(y, mon + 1) then mon else MonthFrom(y, rest, mon + 1)
  }

  lemma MinuteParts(n: int)
    ensures n == (n / 1440 * 24 + n % 1440 / 60) * 60 + n % 60
    ensures 0 <= n % 1440 / 60 < 24
  {
  }

  /** The normalised broken-down time of a local minute count. */
  function Civil(n: int): (tm: Tm)
    ensures Normal(tm) && Minutes(tm) == n
  {
    MinuteParts(n);
    var day := n / 1440;
    var y := YearOf(day);
    YearStep(y);
    MonthTable(y);
    var mon := MonthFrom(y, day - YearStart(y), 0);
    Tm(y, mon, day - YearStart(y) - MonthStart(y, mon) + 1, n % 1440 / 60, n % 60)
  }

  /** mktime: the time of a possibly out-of-range broken-down time, which it normalises. */
  function Normalised(tm: Tm): (r: Tm)
    requires 0 <= tm.mon < 12
    ensures Normal(r) && Minutes(r) == Minutes(tm)
  {
    Civil(Minutes(tm))
  }

  lemma CivilUnique(n: int, tm: Tm)
    requires Normal(tm) && Minutes(tm) == n
    ensures Civil(n) == tm
  {
    OrderAgrees(Civil(n), tm);
  }

  // ---- the calendar day by day ---------------------------------------------------------------

  /** The length of a month, 0 being January, in a leap year or not. */
  ghost predicate MonthLength(mon: int, leap: bool, d: int) {
    || ((mon == 0 || mon == 2 || mon == 4 || mon == 6 || mon == 7 || mon == 9 || mon == 11) && d == 31)
    || ((mon == 3 || mon == 5 || mon == 8 || mon == 10) && d == 30)
    || (mon == 1 && d == if leap then 29 else 28)
  }

  /** b is the day after a, at the same time of day. */
  ghost predicate DayAfter(a: Tm, b: Tm) {
    var leap := a.year % 400 == 0 || (a.year % 4 == 0 && a.year % 100 != 0);
    && b.hour == a.hour && b.min == a.min
    && if !MonthLength(a.mon, leap, a.mday) then b.year == a.year && b.mon == a.mon && b.mday == a.mday + 1
       else if a.mon < 11 then b.year == a.year && b.mon == a.mon + 1 && b.mday == 1
       else b.year == a.year + 1 && b.mon == 0 && b.mday == 1
  }

  /** Broken-down time starts at midnight of 1 January 1970. */
  lemma Epoch(n: int, y: int)
    requires n == 0 && y == 1970
    ensures Civil(n) == Tm(y, 0, 1, 0, 0)
  {
    hide Leap, Civil, Leaps;
    var tm := Tm(y, 0, 1, 0, 0);
    assert YearStart(y) == 0 && MonthStart(y, 0) == 0;
    hide YearStart, MonthStart;
    CivilUnique(n, tm);
  }

  /** It goes on day by day, in both directions. */
  lemma CalendarDays(n: int)
    ensures DayAfter(Civil(n), Civil(n + 1440))
  {
    hide Civil, Leap, DayNumber;
    var a := Civil(n);
    var last := a.mday == DaysInMonth(a.year, a.mon);
    var b := if !last then a.(mday := a.mday + 1)
             else if a.mon < 11 then Tm(a.year, a.mon + 1, 1, a.hour, a.min)
             else Tm(a.year + 1, 0, 1, a.hour, a.min);
    NextDayNumber(a, b);
    CivilUnique(n + 1440, b);
    LengthsAgree(a);
  }

  /** Day 0 is a Thursday. */
  lemma FirstWeekday(day: int)
    requires day == 0
    ensures Weekday(day) == 4
  {
  }

  /** The weekdays follow one another. */
  lemma WeekdayStep(day: int)
    ensures Weekday(day + 1) == if Weekday(day) == 6 then 0 else Weekday(day) + 1
  {
    var q, w := (day + 4) / 7, (day + 4) % 7;
    assert day + 4 == 7 * q + w;
    if w == 6 { assert day + 5 == 7 * (q + 1); } else { assert day + 5 == 7 * q + (w + 1); }
  }

  /** Within a day it counts hours and minutes. */
  lemma TimeOfDay(n: int)
    ensures Civil(n).hour == n % 1440 / 60 && Civil(n).min == n % 60
  {
    hide Leap, DayNumber;
  }

  lemma LengthsAgree(a: Tm)
    requires Normal(a)
    ensures var leap := a.year % 400 == 0 || (a.year % 4 == 0 && a.year % 100 != 0);
      a.mday == DaysInMonth(a.year, a.mon) <==> MonthLength(a.mon, leap, a.mday)
  {
    Multiples(a.year);
  }

  lemma NextDayNumber(a: Tm, b: Tm)
    requires Normal(a)
    requires b == if a.mday < DaysInMonth(a.year, a.mon) then a.(mday := a.mday + 1)
                  else if a.mon < 11 then Tm(a.year, a.mon + 1, 1, a.hour, a.min)
                  else Tm(a.year + 1, 0, 1, a.hour, a.min)
    ensures Normal(b) && DayNumber(b) == DayNumber(a) + 1
  {
    hide Leap, YearStart;
    YearStep(a.year);
    MonthTable(a.year);
  }
}
