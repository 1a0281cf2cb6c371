/**
 The next fire time of a cron expression. A wall-clock minute is counted from midnight of day 0,
 so minute `t` is on day `t / 1440`; an instant is a number of microseconds on the same scale.
 */
module Cron {
  import opened Wrappers
  import opened Calendar

  const DAY := 1440
  const MICROS := 60_000_000
  const MAX_SCAN_DAYS := 1500

  datatype Cron = Cron(minutes: set<nat>, hours: set<nat>, doms: set<nat>, months: set<nat>, dows: set<nat>,
                       domStar: bool, dowStar: bool)

  predicate DayOk(n: nat, c: Cron)
    requires n >= 1
  {
    var cronDow := (Weekday(n) + 1) % 7;
    var domMatch := DateOf(n).day in c.doms;
    var dowMatch := cronDow in c.dows;
    if c.domStar && c.dowStar then true
    else if c.domStar then dowMatch
    else if c.dowStar then domMatch
    else domMatch || dowMatch
  }

  /** The day part of the expression. */
  predicate DayMatches(n: nat, c: Cron)
    requires n >= 1
  {
    DateOf(n).month in c.months && DayOk(n, c)
  }

  /** Minute `t` is a fire time. */
  predicate Fires(t: nat, c: Cron)
    requires t >= DAY
  {
    DayMatches(t / DAY, c) && t % DAY / 60 in c.hours && t % 60 in c.minutes
  }

  // --- the obvious definition, minute by minute ---------------------------------

  function Scan(c: Cron, t: nat, limit: nat): (r: Option<nat>)
    requires t >= DAY
    decreases limit + 1 - t
  {
    if t > limit then None
    else if Fires(t, c) then Some(t)
    else Scan(c, t + 1, limit)
  }

  /** The first whole minute strictly after the instant `after`. */
  function FirstMinute(after: nat): nat {
    (after + MICROS) / MICROS
  }

  function NextCron(c: Cron, after: nat): Option<nat>
    requires after >= DAY * MICROS
  {
    Scan(c, FirstMinute(after), FirstMinute(after) + MAX_SCAN_DAYS * DAY)
  }

  lemma {:induction false} ScanLeast(c: Cron, t: nat, limit: nat)
    requires t >= DAY
    ensures Scan(c, t, limit).Some? ==>
              var r := Scan(c, t, limit).value;
              t <= r <= limit && Fires(r, c) && forall u :: t <= u < r ==> !Fires(u, c)
    ensures Scan(c, t, limit).None? <==> forall u :: t <= u <= limit ==> !Fires(u, c)
    decreases limit + 1 - t
  {
    if t <= limit && !Fires(t, c) {
      ScanLeast(c, t + 1, limit);
    }
  }

  /** A stretch of minutes without a fire time does not change the result. */
  lemma {:induction false} ScanSkips(c: Cron, t: nat, u: nat, limit: nat)
    requires DAY <= t <= u && forall v :: t <= v < u ==> !Fires(v, c)
    ensures Scan(c, t, limit) == Scan(c, u, limit)
    decreases u - t
  {
    if t < u {
      assert !Fires(t, c);
      if t <= limit {
        ScanSkips(c, t + 1, u, limit);
      }
    }
  }

  /** `compute_next_cron`: a day that cannot match is skipped whole. */
  method ComputeNextCron(c: Cron, after: nat) returns (r: Option<nat>)
    requires after >= DAY * MICROS
    ensures r == NextCron(c, after)
  {
    var candidate := (after + MICROS) / MICROS;
    var limit := candidate + MAX_SCAN_DAYS * DAY;
    while candidate <= limit
      invariant candidate >= DAY
      invariant NextCron(c, after) == Scan(c, candidate, limit)
      decreases limit + 1 - candidate
    {
      if DateOf(candidate / DAY).month in c.months && DayOk(candidate / DAY, c) {
        if candidate % DAY / 60 in c.hours && candidate % 60 in c.minutes {
          return Some(candidate);
        }
        ScanSkips(c, candidate, candidate + 1, limit);
        candidate := candidate + 1;
      } else {
        var next := (candidate / DAY + 1) * DAY;
        assert forall v :: candidate <= v < next ==> v / DAY == candidate / DAY;
        ScanSkips(c, candidate, next, limit);
        candidate := next;
      }
    }
    return None;
  }

  /** The result is the least matching minute strictly after the reference, within the window. */
  lemma NextCronIsLeast(c: Cron, after: nat)
    requires after >= DAY * MICROS
    ensures NextCron(c, after).Some? ==>
              var r := NextCron(c, after).value;
              && after < r * MICROS && Fires(r, c)
              && forall t :: t >= DAY && after < t * MICROS && t < r ==> !Fires(t, c)
    ensures NextCron(c, after).None? <==>
              forall t :: t >= DAY && after < t * MICROS && t <= FirstMinute(after) + MAX_SCAN_DAYS * DAY ==> !Fires(t, c)
  {
    var first := FirstMinute(after);
    ScanLeast(c, first, first + MAX_SCAN_DAYS * DAY);
    forall t: nat ensures after < t * MICROS <==> first <= t {
      StrictlyAfter(after, t);
    }
  }

  lemma StrictlyAfter(after: nat, t: nat)
    ensures after < t * MICROS <==> FirstMinute(after) <= t
  {
  }

  // --- every sensible expression fires --------------------------------------------

  /** What `parse_cron` guarantees of its result. */
  predicate WellFormed(c: Cron) {
    && c.minutes != {} && c.hours != {} && c.doms != {} && c.months != {} && c.dows != {}
    && (forall m <- c.minutes :: m <= 59) && (forall h <- c.hours :: h <= 23)
    && (forall d <- c.doms :: 1 <= d <= 31) && (forall m <- c.months :: 1 <= m <= 12)
    && (forall w <- c.dows :: w <= 6)
  }

  /** `day` exists in `month` of every year. */
  predicate EveryYear(month: nat, day: nat)
    requires 1 <= month <= 12
  {
    1 <= day <= (if month == 2 then 28 else MonthLength(1, month))
  }

  /** Some allowed day exists in some allowed month of every year. */
  ghost predicate HasYearlyDate(c: Cron) {
    exists m, d :: m in c.months && d in c.doms && 1 <= m <= 12 && EveryYear(m, d)
  }

  /** Only the day of month is restricted, and to February 29. */
  ghost predicate OnlyLeapDay(c: Cron) {
    && !c.domStar && c.dowStar && !HasYearlyDate(c) && 2 in c.months && 29 in c.doms
  }

  /** The day fields can be met by some date. */
  ghost predicate Satisfiable(c: Cron) {
    c.domStar || !c.dowStar || HasYearlyDate(c) || OnlyLeapDay(c)
  }

  /** A matching day strictly inside the window gives a fire time. */
  lemma DayInWindowFires(c: Cron, after: nat, k: nat)
    requires after >= DAY * MICROS && WellFormed(c) && k >= 1 && DayMatches(k, c)
    requires FirstMinute(after) / DAY < k < FirstMinute(after) / DAY + MAX_SCAN_DAYS
    ensures NextCron(c, after).Some?
  {
    var h :| h in c.hours;
    var m :| m in c.minutes;
    var t := k * DAY + h * 60 + m;
    assert t / DAY == k && t % DAY / 60 == h && t % 60 == m;
    assert Fires(t, c);
    ScanLeast(c, FirstMinute(after), FirstMinute(after) + MAX_SCAN_DAYS * DAY);
  }

  /** Every weekday falls into every month. */
  lemma WeekdayInMonth(n: nat, month: nat, dow: nat) returns (k: nat)
    requires n >= 1 && 1 <= month <= 12 && dow <= 6
    ensures n <= k < n + 373 && DateOf(k).month == month && (Weekday(k) + 1) % 7 == dow
  {
    var f := DateWithinAYear(n, month, 1);
    var j := (dow + 7 - f % 7) % 7;
    k := f + j;
    RunOfDays(f, j);
    NextResidue(f, dow);
  }

  lemma NextResidue(f: nat, dow: nat)
    requires f >= 1 && dow <= 6
    ensures var j := (dow + 7 - f % 7) % 7; j < 7 && ((f + j - 1) % 7 + 1) % 7 == dow
  {
    var j := (dow + 7 - f % 7) % 7;
    var q := (f + j) / 7;
    Residue(f + j - 1, if dow == 0 then q - 1 else q, if dow == 0 then 6 else dow - 1);
  }

  lemma Residue(x: int, q: int, r: nat)
    requires x == 7 * q + r && r < 7
    ensures x % 7 == r
  {
  }

  /** The days after the first of a month, up to the 28th, stay in it. */
  lemma {:induction false} RunOfDays(f: nat, j: nat)
    requires f >= 1 && DateOf(f).day == 1 && j <= 27
    ensures DateOf(f + j) == DateOf(f).(day := 1 + j)
  {
    if j > 0 {
      RunOfDays(f, j - 1);
    }
  }

  /**
   Every well-formed expression whose day fields can be met fires within the window. If February 29
   is its only date, the years around the reference must keep the four-year rule.
   */
  lemma SatisfiableFires(c: Cron, after: nat)
    requires after >= DAY * MICROS && WellFormed(c) && Satisfiable(c)
    requires OnlyLeapDay(c) ==>
               var y := DateOf(FirstMinute(after) / DAY + 1).year;
               forall z :: y <= z <= y + 4 && z % 4 == 0 ==> IsLeap(z)
    ensures NextCron(c, after).Some?
  {
    var n := FirstMinute(after) / DAY + 1;
    var k;
    if c.domStar && c.dowStar {
      var m :| m in c.months;
      k := DateWithinAYear(n, m, 1);
    } else if c.domStar || !c.dowStar {
      var m :| m in c.months;
      var w :| w in c.dows;
      k := WeekdayInMonth(n, m, w);
    } else if HasYearlyDate(c) {
      var m, d :| m in c.months && d in c.doms && 1 <= m <= 12 && EveryYear(m, d);
      k := DateWithinAYear(n, m, d);
    } else {
      k := LeapDayWithinFourYears(n);
    }
    DayInWindowFires(c, after, k);
  }

  /** Without a date that every year has, only February 29 is left. */
  lemma MatchIsLeapDay(c: Cron, t: nat)
    requires t >= DAY && Fires(t, c) && WellFormed(c) && !c.domStar && c.dowStar && !HasYearlyDate(c)
    ensures 2 in c.months && 29 in c.doms
    ensures DateOf(t / DAY).month == 2 && DateOf(t / DAY).day == 29
  {
    var d := DateOf(t / DAY);
    assert d.month in c.months && d.day in c.doms;
    assert !EveryYear(d.month, d.day);
  }

  /** An expression whose day fields no date meets never fires. */
  lemma UnsatisfiableNeverFires(c: Cron, after: nat)
    requires after >= DAY * MICROS && WellFormed(c) && !Satisfiable(c)
    ensures NextCron(c, after).None?
  {
    ScanLeast(c, FirstMinute(after), FirstMinute(after) + MAX_SCAN_DAYS * DAY);
    forall t | t >= DAY ensures !Fires(t, c) {
      if Fires(t, c) {
        MatchIsLeapDay(c, t);
        assert false;
      }
    }
  }

  /** Hour `h` and minute `m` of February 29 in `year`. */
  function LeapMinute(year: nat, h: nat, m: nat): nat
    requires year >= 1 && IsLeap(year)
  {
    Ordinal(Date(year, 2, 29)) * DAY + h * 60 + m
  }

  /** Minute `t` is an allowed time on some February 29. */
  ghost predicate OnLeapDay(c: Cron, t: nat) {
    exists y, h, m :: y >= 1 && IsLeap(y) && h in c.hours && m in c.minutes && t == LeapMinute(y, h, m)
  }

  lemma SplitMinute(t: nat)
    ensures t == t / DAY * DAY + t % DAY / 60 * 60 + t % 60
  {
  }

  lemma JoinMinute(n: nat, h: nat, m: nat)
    requires h <= 23 && m <= 59
    ensures var t := n * DAY + h * 60 + m; t / DAY == n && t % DAY / 60 == h && t % 60 == m
  {
  }

  lemma FiresIsOnLeapDay(c: Cron, t: nat)
    requires WellFormed(c) && OnlyLeapDay(c) && t >= DAY && Fires(t, c)
    ensures OnLeapDay(c, t)
  {
    MatchIsLeapDay(c, t);
    var d := DateOf(t / DAY);
    OrdinalDateOf(t / DAY);
    SplitMinute(t);
    assert d == Date(d.year, 2, 29) && IsLeap(d.year);
    assert t == LeapMinute(d.year, t % DAY / 60, t % 60);
  }

  lemma LeapDayOnlyFires(c: Cron, t: nat)
    requires WellFormed(c) && OnlyLeapDay(c) && t >= DAY
    ensures Fires(t, c) <==> OnLeapDay(c, t)
  {
    if Fires(t, c) {
      FiresIsOnLeapDay(c, t);
    }
    if OnLeapDay(c, t) {
      var y, h, m :| y >= 1 && IsLeap(y) && h in c.hours && m in c.minutes && t == LeapMinute(y, h, m);
      DateOfOrdinal(Date(y, 2, 29));
      JoinMinute(Ordinal(Date(y, 2, 29)), h, m);
    }
  }

  /** For February 29 alone, the expression fires exactly when the window holds a leap day to fire on. */
  lemma LeapDayFiresExactly(c: Cron, after: nat)
    requires after >= DAY * MICROS && WellFormed(c) && OnlyLeapDay(c)
    ensures NextCron(c, after).Some? <==>
              exists t :: FirstMinute(after) <= t <= FirstMinute(after) + MAX_SCAN_DAYS * DAY && OnLeapDay(c, t)
  {
    var first := FirstMinute(after);
    ScanLeast(c, first, first + MAX_SCAN_DAYS * DAY);
    forall t: nat | t >= DAY ensures Fires(t, c) <==> OnLeapDay(c, t) {
      LeapDayOnlyFires(c, t);
    }
  }

  lemma {:induction false} YearsAreLong(y: nat, z: nat)
    requires 1 <= y <= z
    ensures DaysBeforeYear(z) >= DaysBeforeYear(y) + 365 * (z - y)
    decreases z
  {
    if y < z {
      YearsAreLong(y, z - 1);
    }
  }

  /** Eight years pass between the leap days around a non-leap century year. */
  lemma NextLeapDay(y: nat, z: nat)
    requires y >= 1 && IsLeap(y) && !IsLeap(y + 4) && z >= 1 && IsLeap(z)
    ensures z <= y ==> Ordinal(Date(z, 2, 29)) <= Ordinal(Date(y, 2, 29))
    ensures z > y ==> Ordinal(Date(z, 2, 29)) >= Ordinal(Date(y, 2, 29)) + 2921
  {
    LeapDayOrdinal(y);
    LeapDayOrdinal(z);
    if z <= y {
      YearsAreLong(z, y);
    } else {
      EightApart(y, z);
      YearsAreLong(y + 1, z);
      assert DaysBeforeYear(y + 1) == DaysBeforeYear(y) + 366;
    }
  }

  lemma LeapDayOrdinal(y: nat)
    requires y >= 1 && IsLeap(y)
    ensures Ordinal(Date(y, 2, 29)) == DaysBeforeYear(y) + 60
  {
    MonthTable(y, 2);
  }

  lemma EightApart(y: nat, z: nat)
    requires y % 4 == 0 && z % 4 == 0 && z > y && z != y + 4
    ensures z >= y + 8
  {
    var p, q := y / 4, z / 4;
    assert y == 4 * p && z == 4 * q;
  }

  /** After the February 29 before a non-leap century year, the window is too short for the next one. */
  lemma CenturyGapNeverFires(c: Cron, after: nat, y: nat)
    requires after >= DAY * MICROS && WellFormed(c) && OnlyLeapDay(c)
    requires y >= 1 && IsLeap(y) && !IsLeap(y + 4)
    requires Ordinal(Date(y, 2, 29)) < FirstMinute(after) / DAY <= Ordinal(Date(y, 2, 29)) + 1420
    ensures NextCron(c, after).None?
  {
    LeapDayFiresExactly(c, after);
    var first := FirstMinute(after);
    forall t | first <= t && OnLeapDay(c, t)
      ensures t > first + MAX_SCAN_DAYS * DAY
    {
      var z, h, m :| z >= 1 && IsLeap(z) && h in c.hours && m in c.minutes && t == LeapMinute(z, h, m);
      JoinMinute(Ordinal(Date(z, 2, 29)), h, m);
      NextLeapDay(y, z);
      assert t / DAY >= first / DAY;
      SplitMinute(first);
    }
  }

  const LEAP_DAY := Cron({0}, {0}, {29}, {2}, {0, 1, 2, 3, 4, 5, 6}, false, true)

  lemma LeapDayExpression()
    ensures WellFormed(LEAP_DAY) && Satisfiable(LEAP_DAY)
  {
    assert LEAP_DAY.hours == {0} && 0 in LEAP_DAY.hours;
    assert 29 in LEAP_DAY.doms && 2 in LEAP_DAY.months && 0 in LEAP_DAY.dows;
  }

  /** `0 0 29 2 *` raises when asked on 2096-03-01, although February 29 exists. */
  lemma LeapDayGapWitness()
    ensures WellFormed(LEAP_DAY) && Satisfiable(LEAP_DAY)
    ensures NextCron(LEAP_DAY, Ordinal(Date(2096, 3, 1)) * DAY * MICROS).None?
  {
    LeapDayExpression();
    MonthTable(2096, 3);
    MonthTable(2096, 2);
    var day := Ordinal(Date(2096, 3, 1));
    assert day == Ordinal(Date(2096, 2, 29)) + 1;
    assert FirstMinute(day * DAY * MICROS) == day * DAY + 1;
    CenturyGapNeverFires(LEAP_DAY, day * DAY * MICROS, 2096);
  }
}
