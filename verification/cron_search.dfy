/** The next-fire search: jumps over months, days, hours and minutes that cannot match. */
module CronSearch {
  import opened CronCalendar

  /** A parsed expression; each bit mask is the set of its bit positions. */
  datatype Expr = Expr(
    minutes: set<int>, hours: set<int>, doms: set<int>, months: set<int>, dows: set<int>,
    domAny: bool, dowAny: bool)

  datatype Code = Ok | ENext

  const SEARCH_BUDGET := 5000

  /** Bits outside the range of minute, hour and month are never set by the parser. */
  predicate InDomain(e: Expr) {
    && (forall b :: b in e.minutes ==> 0 <= b < 60)
    && (forall b :: b in e.hours ==> 0 <= b < 24)
    && (forall b :: b in e.months ==> 1 <= b <= 12)
  }

  // ---- the simple definition: which minutes match --------------------------------------

  predicate DayRule(e: Expr, mday: int, wday: int) {
    if e.domAny && e.dowAny then true
    else if e.domAny then wday in e.dows
    else if e.dowAny then mday in e.doms
    else mday in e.doms || wday in e.dows
  }

  predicate DayMatches(e: Expr, tm: Tm)
    requires 0 <= tm.mon < 12
  {
    tm.mon + 1 in e.months && DayRule(e, tm.mday, Weekday(DayNumber(tm)))
  }

  predicate TmMatches(e: Expr, tm: Tm)
    requires 0 <= tm.mon < 12
  {
    tm.min in e.minutes && tm.hour in e.hours && DayMatches(e, tm)
  }

  /** Does the expression fire in minute t (minutes since the epoch, UTC) at this offset? */
  predicate Matches(e: Expr, off: int, t: int) {
    TmMatches(e, Civil(t + off))
  }

  /** The crontab rule: minute, hour and month must match; of the two day fields a restricted one
      must match, and if both are restricted one of them suffices. */
  ghost predicate FiresAt(e: Expr, off: int, t: int) {
    var c, weekday := Civil(t + off), ((t + off) / 1440 + 4) % 7;
    && c.min in e.minutes && c.hour in e.hours && c.mon + 1 in e.months
    && (!e.domAny && !e.dowAny ==> c.mday in e.doms || weekday in e.dows)
    && (!e.domAny && e.dowAny ==> c.mday in e.doms)
    && (e.domAny && !e.dowAny ==> weekday in e.dows)
  }

  lemma MatchesIsFiring(e: Expr, off: int, t: int)
    ensures Matches(e, off, t) <==> FiresAt(e, off, t)
  {
    hide Civil, DayNumber;
    var c := Civil(t + off);
    assert DayNumber(c) == (t + off) / 1440;
  }

  predicate Quiet(e: Expr, off: int, lo: int, hi: int) {
    forall t :: lo <= t < hi ==> !Matches(e, off, t)
  }

  /** C's remainder: its sign is that of the dividend. */
  function CRem(a: int, b: int): int
    requires b > 0
  {
    if a >= 0 then a % b else -((-a) % b)
  }

  function FloorMinute(when: int): int {
    when - CRem(when, 60)
  }

  /** First minute the search looks at. */
  function FirstCandidate(after: int): int {
    (FloorMinute(after) + 60) / 60
  }

  // ---- every jump skips only minutes that do not match -------------------------------------

  /** No minute from a up to b matches. */
  ghost predicate Barren(e: Expr, a: Tm, b: Tm)
    requires Normal(a) && Normal(b)
  {
    forall n :: Minutes(a) <= n < Minutes(b) ==> !TmMatches(e, Civil(n))
  }

  /** A day, hour and minute between two times of one day. */
  lemma WithinDay(a: Tm, b: Tm, n: int)
    requires Normal(a) && 0 <= b.mon < 12 && Minutes(a) <= n < Minutes(b)
    requires Minutes(b) <= (DayNumber(a) + 1) * 1440
    ensures var c := Civil(n);
      && c.year == a.year && c.mon == a.mon && c.mday == a.mday && DayNumber(c) == DayNumber(a)
      && (c.hour > a.hour || (c.hour == a.hour && c.min >= a.min))
  {
    hide DayNumber, Leap, Civil;
    var c := Civil(n);
    assert DayNumber(c) == DayNumber(a);
    if (a.year, a.mon, a.mday) != (c.year, c.mon, c.mday) {
      if a.year < c.year || (a.year == c.year && (a.mon < c.mon || (a.mon == c.mon && a.mday < c.mday))) {
        EarlierDay(a, c);
      } else {
        EarlierDay(c, a);
      }
      assert false;
    }
  }

  /** Jump to the first of a later month, all months in between being excluded. */
  lemma MonthJump(e: Expr, a: Tm, b: Tm)
    requires Normal(a) && b.mday == 1 && b.hour == 0 && b.min == 0
    requires (b.year == a.year && a.mon < b.mon < 12) || (b.year == a.year + 1 && b.mon == 0)
    requires forall x :: x in e.months ==> x <= a.mon || (b.year == a.year && x > b.mon)
    ensures Normal(b) && Barren(e, a, b) && DayNumber(b) > DayNumber(a)
  {
    hide DayNumber, Leap, Civil;
    EarlierDay(a, b);
    forall n | Minutes(a) <= n < Minutes(b) ensures !TmMatches(e, Civil(n)) {
      var c := Civil(n);
      OrderAgrees(c, a);
      OrderAgrees(c, b);
    }
  }

  /** Jump to the next midnight: the day does not match, or no later hour does. */
  lemma DayJump(e: Expr, a: Tm, b: Tm)
    requires Normal(a) && b == Normalised(Tm(a.year, a.mon, a.mday + 1, 0, 0))
    requires !DayMatches(e, a) || forall h :: h in e.hours ==> h < a.hour
    ensures Barren(e, a, b) && DayNumber(b) == DayNumber(a) + 1 && b.hour == 0 && b.min == 0
  {
    hide Leap, Civil;
    NextMidnight(a, b);
    forall n | Minutes(a) <= n < Minutes(b) ensures !TmMatches(e, Civil(n)) {
      WithinDay(a, b, n);
    }
  }

  lemma NextMidnight(a: Tm, b: Tm)
    requires Normal(a) && b == Normalised(Tm(a.year, a.mon, a.mday + 1, 0, 0))
    ensures Minutes(b) == (DayNumber(a) + 1) * 1440
    ensures DayNumber(b) == DayNumber(a) + 1 && b.hour == 0 && b.min == 0
  {
    hide Leap, Civil, YearStart, MonthStart;
  }

  /** Jump within the day to a later hour, all hours in between being excluded. */
  lemma HourJump(e: Expr, a: Tm, b: Tm)
    requires Normal(a) && b == a.(hour := b.hour, min := 0) && a.hour < b.hour < 24
    requires forall h :: a.hour <= h < b.hour ==> h !in e.hours
    ensures Normal(b) && Barren(e, a, b) && DayNumber(b) == DayNumber(a)
  {
    hide Leap, Civil, YearStart, MonthStart;
    forall n | Minutes(a) <= n < Minutes(b) ensures !TmMatches(e, Civil(n)) {
      WithinDay(a, b, n);
    }
  }

  /** Jump to the next full hour, no later minute of this hour being set. */
  lemma MinuteOver(e: Expr, a: Tm, b: Tm)
    requires Normal(a) && b == Normalised(Tm(a.year, a.mon, a.mday, a.hour + 1, 0))
    requires forall m :: m in e.minutes ==> m < a.min
    ensures Barren(e, a, b) && b.min == 0
    ensures DayNumber(b) == DayNumber(a) || (DayNumber(b) == DayNumber(a) + 1 && b.hour == 0)
  {
    hide Leap, Civil, YearStart, MonthStart;
    forall n | Minutes(a) <= n < Minutes(b) ensures !TmMatches(e, Civil(n)) {
      WithinDay(a, b, n);
    }
  }

  lemma MinuteJump(e: Expr, a: Tm, b: Tm)
    requires Normal(a) && b == a.(min := b.min) && a.min < b.min < 60
    requires forall m :: a.min <= m < b.min ==> m !in e.minutes
    ensures Normal(b) && Barren(e, a, b) && DayNumber(b) == DayNumber(a)
  {
    hide Leap, Civil, YearStart, MonthStart;
    forall n | Minutes(a) <= n < Minutes(b) ensures !TmMatches(e, Civil(n)) {
      WithinDay(a, b, n);
    }
  }

  // ---- a match anywhere implies a match within nine years of any moment -----------------------

  function LocalDay(off: int, t: int): int {
    (t + off) / 1440
  }

  lemma LeapYearNear(y: int) returns (l: int)
    ensures y < l <= y + 8 && Leap(l)
  {
    var c := y - y % 4 + 4;
    assert c % 4 == 0;
    OneOfTwo(c);
    l := if Leap(c) then c else c + 4;
  }

  lemma OneOfTwo(c: int)
    requires c % 4 == 0
    ensures Leap(c) || Leap(c + 4)
  {
    if !Leap(c) {
      var q := c / 100;
      assert c == 100 * q;
      assert (c + 4) % 100 == 4;
    }
  }

  /** A day of month `mon` in a leap year that satisfies the rule which w satisfies. */
  lemma DayInLeapYear(e: Expr, w: Tm, l: int) returns (d: int)
    requires Normal(w) && DayMatches(e, w) && Leap(l)
    ensures 1 <= d <= DaysInMonth(l, w.mon)
    ensures DayMatches(e, Tm(l, w.mon, d, w.hour, w.min))
  {
    var wd := Weekday(DayNumber(w));
    if e.domAny && e.dowAny {
      d := 1;
    } else if (e.dowAny || !e.domAny) && w.mday in e.doms {
      d := w.mday;
    } else {
      var first := DayNumber(Tm(l, w.mon, 1, 0, 0));
      d := 1 + (wd - Weekday(first)) % 7;
      assert DayNumber(Tm(l, w.mon, d, w.hour, w.min)) == first + d - 1;
      assert Weekday(first + d - 1) == wd by { WeekdayShift(first, wd); }
    }
  }

  lemma WeekdayShift(first: int, wd: int)
    requires 0 <= wd < 7
    ensures Weekday(first + (wd - Weekday(first)) % 7) == wd
  {
  }

  lemma TargetWithinNineYears(e: Expr, off: int, start: int, w0: int) returns (t: int)
    requires Matches(e, off, w0)
    ensures start < t && Matches(e, off, t)
    ensures LocalDay(off, t) < LocalDay(off, start) + 9 * 366
  {
    hide Leap, Civil, YearStart, MonthStart;
    var s := Civil(start + off);
    var w := Civil(w0 + off);
    var l := LeapYearNear(s.year);
    var d := DayInLeapYear(e, w, l);
    var c := Tm(l, w.mon, d, w.hour, w.min);
    t := Minutes(c) - off;
    CivilUnique(Minutes(c), c);
    OrderAgrees(s, c);
    DayBounds(s);
    DayBounds(c);
    YearsGrow(s.year, l + 1);
    assert LocalDay(off, t) == DayNumber(c);
    assert LocalDay(off, start) == DayNumber(s);
  }

  // ---- the search ------------------------------------------------------------------------------

  /** Distance from bit `from` to the next set bit, counting zeros one by one. */
  method NextBit(bits: set<int>, from: int) returns (found: bool, jump: nat)
    ensures !found ==> forall b :: b in bits ==> b < from
    ensures found ==> from + jump in bits && forall b :: from <= b < from + jump ==> b !in bits
  {
    var remaining := set b | b in bits && b >= from;
    jump := 0;
    if remaining == {} {
      found := false;
      assert forall b :: b in bits ==> b < from || b in remaining;
    } else {
      found := true;
      ghost var top :| top in remaining;
      while from + jump !in bits
        invariant from + jump <= top
        invariant forall b :: from <= b < from + jump ==> b !in bits
        decreases top - from - jump
      {
        jump := jump + 1;
      }
    }
  }

  /** How far the search can have come after `iters` rounds, if some minute matches:
      one round per day left behind, a few rounds on the first day and on the last. */
  ghost predicate OnBudget(e: Expr, day0: int, tm: Tm, iters: int)
    requires Normal(tm)
  {
    var hourSet := tm.hour in e.hours;
    var k := iters - (DayNumber(tm) - day0);
    && DayNumber(tm) >= day0
    && (DayNumber(tm) == day0 ==>
          iters == 0 || (tm.min == 0 && iters <= 1) || (tm.min == 0 && hourSet && iters <= 2) ||
          (hourSet && tm.min in e.minutes && iters <= 3))
    && (DayNumber(tm) > day0 ==>
          (tm.hour == 0 && tm.min == 0 && k <= 4) ||
          (DayMatches(e, tm) && hourSet && tm.min == 0 && k <= 5) ||
          (DayMatches(e, tm) && hourSet && tm.min in e.minutes && k <= 6))
  }

  /** One step of the argument that no match is skipped. */
  lemma Extend(e: Expr, off: int, start: int, a: Tm, b: Tm)
    requires Normal(a) && Normal(b) && Barren(e, a, b)
    requires Quiet(e, off, start, Minutes(a) - off)
    ensures Quiet(e, off, start, Minutes(b) - off)
  {
    hide Civil, Minutes, TmMatches;
  }

  /** One round of the search from tm: either a match, or a later time with nothing skipped. */
  method Round(e: Expr, tm: Tm) returns (done: bool, next: Tm)
    requires InDomain(e) && Normal(tm)
    ensures Normal(next)
    ensures done ==> next == tm && TmMatches(e, tm)
    ensures !done ==> Minutes(tm) < Minutes(next) && Barren(e, tm, next)
    ensures forall day0: int, iters: int ::
      !done && e.hours != {} && e.minutes != {} && iters >= 0 && OnBudget(e, day0, tm, iters) ==>
        OnBudget(e, day0, next, iters + 1)
  {
    hide Leap, Civil, YearStart, MonthStart;
    done := false;
    var found, jump := NextBit(e.months, tm.mon + 1);
    if !found {
      next := Normalised(Tm(tm.year + 1, 0, 1, 0, 0));
      MonthJump(e, tm, Tm(tm.year + 1, 0, 1, 0, 0));
      CivilUnique(Minutes(Tm(tm.year + 1, 0, 1, 0, 0)), Tm(tm.year + 1, 0, 1, 0, 0));
      return;
    }
    if jump > 0 {
      var b := Tm(tm.year, tm.mon + jump, 1, 0, 0);
      MonthJump(e, tm, b);
      CivilUnique(Minutes(b), b);
      next := Normalised(b);
      return;
    }
    if !DayRule(e, tm.mday, Weekday(DayNumber(tm))) {
      next := Normalised(Tm(tm.year, tm.mon, tm.mday + 1, 0, 0));
      DayJump(e, tm, next);
      return;
    }
    found, jump := NextBit(e.hours, tm.hour);
    if !found {
      next := Normalised(Tm(tm.year, tm.mon, tm.mday + 1, 0, 0));
      DayJump(e, tm, next);
      return;
    }
    if jump > 0 {
      var b := tm.(hour := tm.hour + jump, min := 0);
      HourJump(e, tm, b);
      CivilUnique(Minutes(b), b);
      next := Normalised(b);
      return;
    }
    found, jump := NextBit(e.minutes, tm.min);
    if !found {
      next := Normalised(Tm(tm.year, tm.mon, tm.mday, tm.hour + 1, 0));
      MinuteOver(e, tm, next);
      return;
    }
    if jump > 0 {
      var b := tm.(min := tm.min + jump);
      MinuteJump(e, tm, b);
      CivilUnique(Minutes(b), b);
      next := Normalised(b);
      return;
    }
    done := true;
    next := tm;
  }

  /** The search. OK: the least matching minute from the first candidate on. ENEXT: exactly
      when no minute of the calendar, past or future, matches. */
  method Next(e: Expr, off: int, after: int) returns (code: Code, next: int)
    requires InDomain(e)
    ensures code == Ok || code == ENext
    ensures code == Ok ==>
      && next % 60 == 0 && FirstCandidate(after) <= next / 60
      && Matches(e, off, next / 60) && Quiet(e, off, FirstCandidate(after), next / 60)
    ensures code == ENext <==> forall t :: !Matches(e, off, t)
    ensures code == Ok ==> FiresAt(e, off, next / 60)
    ensures forall t :: FirstCandidate(after) <= t && FiresAt(e, off, t) ==> code == Ok && next / 60 <= t
    ensures code == ENext ==> forall t :: !FiresAt(e, off, t)
  {
    forall t ensures FiresAt(e, off, t) <==> Matches(e, off, t) { MatchesIsFiring(e, off, t); }
    hide FiresAt, Matches, Quiet;
    code, next := Search(e, off, after);
    OkIsLeast(e, off, FirstCandidate(after), code, next);
  }

  lemma OkIsLeast(e: Expr, off: int, start: int, code: Code, next: int)
    requires code == Ok ==> Quiet(e, off, start, next / 60)
    requires code == ENext ==> forall t :: !Matches(e, off, t)
    ensures forall t :: start <= t && Matches(e, off, t) ==> code == Ok && next / 60 <= t
  {
    hide Matches;
  }

  /** The loop itself. */
  method Search(e: Expr, off: int, after: int) returns (code: Code, next: int)
    requires InDomain(e)
    ensures code == Ok || code == ENext
    ensures code == Ok ==>
      && next % 60 == 0 && FirstCandidate(after) <= next / 60
      && Matches(e, off, next / 60) && Quiet(e, off, FirstCandidate(after), next / 60)
    ensures code == ENext <==> forall t :: !Matches(e, off, t)
  {
    hide Leap, Civil, YearStart, MonthStart, OnBudget, CRem, DayNumber, Barren;
    var candidate := FloorMinute(after) + 60;
    if candidate <= after {
      candidate := candidate + 60;
    }
    CandidateWhole(after);
    var start := candidate / 60;
    var tm := Civil(start + off);
    ghost var day0 := DayNumber(tm);
    ghost var some := exists t :: Matches(e, off, t);
    ghost var target := 0;
    if some {
      ghost var w :| Matches(e, off, w);
      target := TargetWithinNineYears(e, off, start, w);
    }
    var iters := 0;
    BudgetStarts(e, tm);
    while iters < SEARCH_BUDGET
      invariant Normal(tm) && start <= Minutes(tm) - off && Quiet(e, off, start, Minutes(tm) - off)
      invariant 0 <= iters <= SEARCH_BUDGET
      invariant some ==> OnBudget(e, day0, tm, iters)
      decreases SEARCH_BUDGET - iters
    {
      iters := iters + 1;
      var done, later := Round(e, tm);
      if done {
        CivilUnique(Minutes(tm), tm);
        next := (Minutes(tm) - off) * 60;
        code := Ok;
        assert Matches(e, off, next / 60);
        return;
      }
      Extend(e, off, start, tm, later);
      if some { MatchMeansBits(e, off, target); }
      tm := later;
    }
    code := ENext;
    next := 0;
    if some {
      BudgetEnds(e, off, start, day0, tm, iters, target);
    }
  }

  lemma CandidateWhole(after: int)
    ensures FloorMinute(after) + 60 == FirstCandidate(after) * 60 > after
  {
  }

  lemma MatchMeansBits(e: Expr, off: int, t: int)
    requires Matches(e, off, t)
    ensures e.hours != {} && e.minutes != {}
  {
  }

  lemma BudgetStarts(e: Expr, tm: Tm)
    requires Normal(tm)
    ensures OnBudget(e, DayNumber(tm), tm, 0)
  {
  }

  /** A search that is still on budget cannot have passed the target. */
  lemma BudgetEnds(e: Expr, off: int, start: int, day0: int, tm: Tm, iters: int, target: int)
    requires Normal(tm) && OnBudget(e, day0, tm, iters) && day0 == LocalDay(off, start)
    requires Quiet(e, off, start, Minutes(tm) - off)
    requires start <= target && Matches(e, off, target) && LocalDay(off, target) < day0 + 9 * 366
    ensures iters < SEARCH_BUDGET
  {
    hide Leap, Civil, YearStart, MonthStart, Matches;
    assert Minutes(tm) - off <= target;
    assert DayNumber(tm) <= LocalDay(off, target);
  }

  // ---- relation to the caller's point in time ------------------------------------------------

  /** What the documentation promises: the least matching minute strictly after `after`. */
  predicate LeastAfter(e: Expr, off: int, after: int, next: int) {
    next % 60 == 0 && next > after && Matches(e, off, next / 60) &&
    Quiet(e, off, after / 60 + 1, next / 60)
  }

  /** Rounding toward zero makes the search start one minute late for a negative time
      that is not a whole minute, and only then. */
  lemma CandidateExact(after: int)
    ensures after >= 0 || after % 60 == 0 ==> FirstCandidate(after) == after / 60 + 1
    ensures after < 0 && after % 60 != 0 ==> FirstCandidate(after) == after / 60 + 2
  {
    assert after < 0 ==> (-after) % 60 == if after % 60 == 0 then 0 else 60 - after % 60;
  }

  /** A found minute is the promised one exactly when the minute lost to rounding does not match. */
  lemma NextIsLeastAfter(e: Expr, off: int, after: int, next: int)
    requires next % 60 == 0 && FirstCandidate(after) <= next / 60
    requires Matches(e, off, next / 60) && Quiet(e, off, FirstCandidate(after), next / 60)
    ensures LeastAfter(e, off, after, next) <==>
      !(after < 0 && after % 60 != 0 && Matches(e, off, after / 60 + 1))
  {
    hide Matches;
    CandidateExact(after);
  }

  /** A time for which the code misses the next minute: ninety seconds before the epoch,
      with an expression that fires at 23:59 on the days of December. */
  lemma NegativeTimeSkips()
    ensures var e := Expr({59}, {23}, {}, {12}, {}, true, true);
      InDomain(e) && Matches(e, 0, -90 / 60 + 1) && FirstCandidate(-90) > -90 / 60 + 1
  {
    hide Civil, YearStart, MonthStart, DayNumber, Minutes, Normal;
    NewYearsEve();
    CivilUnique(-1, Tm(1969, 11, 31, 23, 59));
  }

  lemma NewYearsEve()
    ensures Normal(Tm(1969, 11, 31, 23, 59)) && Minutes(Tm(1969, 11, 31, 23, 59)) == -1
  {
    hide MonthStart;
    MonthTable(1969);
    assert MonthStart(1969, 11) == 334 by { DecemberStart(1969); }
  }

  lemma DecemberStart(y: int)
    ensures MonthStart(y, 11) == YearLength(y) - 31
  {
    MonthTable(y);
  }

  /** The sequence holds the start of every matching minute from lo to hi and nothing else. */
  predicate Lists(e: Expr, off: int, lo: int, hi: int, out: seq<int>) {
    ListsOnly(e, off, lo, hi, out) && ListsAll(e, off, lo, hi, out)
  }

  predicate ListsOnly(e: Expr, off: int, lo: int, hi: int, out: seq<int>) {
    forall i :: 0 <= i < |out| ==> out[i] % 60 == 0 && lo <= out[i] / 60 <= hi && Matches(e, off, out[i] / 60)
  }

  predicate ListsAll(e: Expr, off: int, lo: int, hi: int, out: seq<int>) {
    forall t :: lo <= t <= hi && Matches(e, off, t) ==> t * 60 in out
  }

  lemma NothingListed(e: Expr, off: int, lo: int)
    ensures Lists(e, off, lo, lo - 1, [])
  {
  }

  lemma AppendMatch(e: Expr, off: int, lo: int, mid: int, out: seq<int>, next: int)
    requires Lists(e, off, lo, mid, out) && next % 60 == 0 && lo - 1 <= mid < next / 60
    requires Matches(e, off, next / 60) && Quiet(e, off, mid + 1, next / 60)
    ensures Lists(e, off, lo, next / 60, out + [next])
  {
    hide Matches;
    var ext := out + [next];
    forall t | lo <= t <= next / 60 && Matches(e, off, t) ensures t * 60 in ext {
      if t == next / 60 { assert ext[|out|] == t * 60; }
    }
  }

  /** What converting a size to a 32-bit int gives. */
  function AsInt(n: nat): int {
    var low := n % 0x1_0000_0000;
    if low < 0x8000_0000 then low else low - 0x1_0000_0000
  }

  /** How many matches are asked for: the loop compares with the count as an int. */
  function Asked(maxCount: nat): nat {
    if AsInt(maxCount) > 0 then AsInt(maxCount) else 0
  }

  /** A requested count is served in full exactly when it fits an int. */
  lemma AskedInFull(maxCount: nat)
    ensures Asked(maxCount) == maxCount <==> maxCount < 0x8000_0000
  {
  }

  /** The first matches after a point in time, in order and without omission. */
  method NextN(e: Expr, off: int, after: int, maxCount: nat) returns (code: Code, out: seq<int>)
    requires InDomain(e)
    ensures |out| == if code == Ok then Asked(maxCount) else 0
    ensures code == ENext <==> Asked(maxCount) > 0 && forall t :: !Matches(e, off, t)
    ensures forall i :: 0 <= i < |out| ==> out[i] % 60 == 0
    ensures forall i, j :: 0 <= i < j < |out| ==> out[i] < out[j]
    ensures out != [] ==> Lists(e, off, FirstCandidate(after), out[|out| - 1] / 60, out)
  {
    hide Matches, FloorMinute, Lists, CRem, FiresAt;
    out := [];
    code := Ok;
    NothingListed(e, off, FirstCandidate(after));
    var candidate := after;
    var asked := AsInt(maxCount);
    while |out| < asked
      invariant |out| <= Asked(maxCount) && code == Ok
      invariant out == [] ==> candidate == after
      invariant out != [] ==> candidate == out[|out| - 1] && (exists t :: Matches(e, off, t))
      invariant forall i :: 0 <= i < |out| ==> out[i] % 60 == 0
      invariant forall i, j :: 0 <= i < j < |out| ==> out[i] < out[j]
      invariant out != [] ==> FirstCandidate(after) <= out[|out| - 1] / 60
      invariant Lists(e, off, FirstCandidate(after),
                      if out == [] then FirstCandidate(after) - 1 else out[|out| - 1] / 60, out)
      decreases asked - |out|
    {
      var rc, next := Next(e, off, candidate);
      if rc != Ok {
        code := ENext;
        return;
      }
      CandidateExact(candidate);
      AppendMatch(e, off, FirstCandidate(after),
                  if out == [] then FirstCandidate(after) - 1 else candidate / 60, out, next);
      out := out + [next];
      candidate := next;
    }
  }
}
