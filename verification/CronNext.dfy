/** The search for the next activation. Times are nanoseconds of local time at an offset of whole minutes. */
module CronNext {
  import opened Options
  import opened Arithmetic
  import opened Calendar

  const SECOND := 1_000_000_000
  const MINUTE := 60 * SECOND
  const DAY_MINUTES := 1440

  /** Each field is the set of values it allows; every > 0 is the @every interval instead. */
  datatype Schedule = Schedule(minute: set<int>, hour: set<int>, dom: set<int>, month: set<int>, dow: set<int>,
                               starDOM: bool, starDOW: bool, every: int)

  /** When both day fields are restricted, either is enough. */
  predicate DayMatches(s: Schedule, n: nat) {
    var domHit := Civil(n).day in s.dom;
    var dowHit := Weekday(n) in s.dow;
    if s.starDOM && s.starDOW then true
    else if s.starDOM then dowHit
    else if s.starDOW then domHit
    else domHit || dowHit
  }

  /** Day n is one of these days of the week, counted in weeks from Sunday 7 January 2024. */
  ghost predicate OnOneOf(days: set<int>, n: int) {
    exists w :: w in days && (n - DayOf(Date(2024, 1, 7)) - w) % 7 == 0
  }

  predicate Weekdays(days: set<int>) {
    forall w :: w in days ==> 0 <= w <= 6
  }

  /** With only the day of the week restricted, a schedule matches exactly those days of every week. */
  lemma MatchesWeekdays(s: Schedule, n: nat)
    requires s.starDOM && !s.starDOW && Weekdays(s.dow)
    ensures DayMatches(s, n) <==> OnOneOf(s.dow, n)
  {
    WeekdayFromSunday(n);
    hide Civil, Weekday, DayOf;
    var since := n - DayOf(Date(2024, 1, 7));
    if DayMatches(s, n) {
      SameDay(since, since % 7);
    }
    if OnOneOf(s.dow, n) {
      var w :| w in s.dow && (since - w) % 7 == 0;
      SameDay(since, w);
    }
  }

  lemma SameDay(x: int, w: int)
    requires 0 <= w <= 6
    ensures x % 7 == w <==> (x - w) % 7 == 0
  {
    var q, r := x / 7, x % 7;
    assert x == 7 * q + r;
    if r >= w { DivideExact(x - w, q, 7, r - w); } else { DivideExact(x - w, q - 1, 7, r - w + 7); }
  }

  /** A schedule for Mondays alone fires only on days a whole number of weeks from Monday 8 January 2024. */
  lemma OnlyMondays(s: Schedule, k: nat)
    requires s.dow == {1} && s.starDOM && !s.starDOW && Fires(s, k)
    ensures (k / DAY_MINUTES - DayOf(Date(2024, 1, 8))) % 7 == 0
  {
    MatchesWeekdays(s, k / DAY_MINUTES);
    DayFormula(Date(2024, 1, 8));
    DayFormula(Date(2024, 1, 7));
  }

  /** The schedule fires at minute k, counted from 0001-01-01 00:00. */
  predicate Fires(s: Schedule, k: nat) {
    && Civil(k / DAY_MINUTES).month in s.month && DayMatches(s, k / DAY_MINUTES)
    && k % DAY_MINUTES / 60 in s.hour && k % 60 in s.minute
  }

  ghost predicate Silent(s: Schedule, from: nat, to: int) {
    forall k: nat :: from <= k < to ==> !Fires(s, k)
  }

  /** AddDate(5, 0, 0): the same day of the month five years on, 29 February becoming 1 March. */
  function FiveYearsOn(k: nat): int {
    var d := Civil(k / DAY_MINUTES);
    (if 1 <= d.month <= 12 then Ordinal(d.year + 5, d.month, d.day) else 0) * DAY_MINUTES + k % DAY_MINUTES
  }

  lemma MonthIsSilent(s: Schedule, k: nat)
    requires Civil(k / DAY_MINUTES).month !in s.month
    ensures k < NextMonth(k / DAY_MINUTES) * DAY_MINUTES
    ensures Silent(s, k, NextMonth(k / DAY_MINUTES) * DAY_MINUTES)
  {
    var n := k / DAY_MINUTES;
    NextMonthIsLater(n);
    hide NextMonth, Civil, DayMatches;
    forall j: nat | k <= j < NextMonth(n) * DAY_MINUTES ensures !Fires(s, j) {
      MonthRunsOn(n, j / DAY_MINUTES);
    }
  }

  lemma DayIsSilent(s: Schedule, k: nat)
    requires !DayMatches(s, k / DAY_MINUTES)
    ensures Silent(s, k, (k / DAY_MINUTES + 1) * DAY_MINUTES)
  {
    hide Civil, DayMatches;
    forall j: nat | k <= j < (k / DAY_MINUTES + 1) * DAY_MINUTES ensures !Fires(s, j) {
      assert j / DAY_MINUTES == k / DAY_MINUTES;
    }
  }

  lemma HourIsSilent(s: Schedule, k: nat)
    requires k % DAY_MINUTES / 60 !in s.hour
    ensures Silent(s, k, (k / 60 + 1) * 60)
  {
    hide Civil, DayMatches;
    forall j: nat | k <= j < (k / 60 + 1) * 60 ensures !Fires(s, j) {
      SameHour(k, j);
    }
  }

  lemma SameHour(k: nat, j: nat)
    requires k <= j < (k / 60 + 1) * 60
    ensures j % DAY_MINUTES / 60 == k % DAY_MINUTES / 60
  {
    HourOfDay(k);
    HourOfDay(j);
    assert j / 60 == k / 60;
  }

  lemma HourOfDay(k: nat)
    ensures k % DAY_MINUTES / 60 == k / 60 % 24
  {
    var d, r := k / DAY_MINUTES, k % DAY_MINUTES;
    var h, m := r / 60, r % 60;
    assert k == 60 * (24 * d + h) + m;
  }

  lemma SilentJoin(s: Schedule, a: nat, b: nat, c: int)
    requires Silent(s, a, b) && Silent(s, b, c)
    ensures Silent(s, a, c)
  {
    hide Fires;
  }

  lemma NextDayIs(n: nat)
    ensures 1 <= Civil(n).month <= 12 && Ordinal(Civil(n).year, Civil(n).month, Civil(n).day + 1) == n + 1
  {
    hide Civil, DaysBeforeYear, DaysBeforeMonth;
    CivilIsOrdinal(n);
  }

  /**
   The least whole minute strictly after t at which the schedule fires, or nothing when none
   comes within five years: the skips over months, days and hours pass over no match.
   */
  method Next(s: Schedule, t: nat) returns (r: Option<nat>)
    ensures s.every > 0 ==> r == Some((t + s.every) / SECOND * SECOND)
    ensures s.every <= 0 ==>
      var start := t / MINUTE + 1;
      match r
      case Some(u) =>
        && t < u && u % MINUTE == 0 && start <= u / MINUTE < FiveYearsOn(start)
        && Fires(s, u / MINUTE) && Silent(s, start, u / MINUTE)
      case None => Silent(s, start, FiveYearsOn(start))
    ensures r.Some? && s.every <= 0 && s.starDOM && !s.starDOW && Weekdays(s.dow) ==>
      OnOneOf(s.dow, r.value / MINUTE / DAY_MINUTES)
  {
    if s.every > 0 {
      return Some((t + s.every) / SECOND * SECOND);
    }
    hide Civil, Fires, Silent, DayMatches, Ordinal, FiveYearsOn, OnOneOf;
    var start := t / MINUTE + 1;
    var k: nat := start;
    var limit := FiveYearsOn(start);
    NothingYet(s, start);
    while k < limit
      invariant start <= k && Silent(s, start, k)
      decreases limit - k
    {
      ghost var before := k;
      var day := k / DAY_MINUTES;
      var date := Civil(day);
      if date.month !in s.month {
        MonthIsSilent(s, k);
        k := NextMonth(day) * DAY_MINUTES;
        SilentJoin(s, start, before, k);
        continue;
      }
      if !DayMatches(s, day) {
        DayIsSilent(s, k);
        NextDayIs(day);
        k := Ordinal(date.year, date.month, date.day + 1) * DAY_MINUTES;
        SilentJoin(s, start, before, k);
        continue;
      }
      if k % DAY_MINUTES / 60 !in s.hour {
        HourIsSilent(s, k);
        k := (k / 60 + 1) * 60;
        SilentJoin(s, start, before, k);
        continue;
      }
      if k % 60 !in s.minute {
        MinuteIsSilent(s, k);
        k := k + 1;
        SilentJoin(s, start, before, k);
        continue;
      }
      FiresHere(s, k);
      WholeMinute(t, k);
      if s.starDOM && !s.starDOW && Weekdays(s.dow) { MatchesWeekdays(s, day); }
      return Some(k * MINUTE);
    }
    UpTo(s, start, k, limit);
    return None;
  }

  lemma NothingYet(s: Schedule, k: nat)
    ensures Silent(s, k, k)
  {}

  lemma MinuteIsSilent(s: Schedule, k: nat)
    requires k % 60 !in s.minute
    ensures Silent(s, k, k + 1)
  {
    hide Civil, DayMatches;
    forall j: nat | k <= j < k + 1 ensures !Fires(s, j) { assert j == k; }
  }

  lemma FiresHere(s: Schedule, k: nat)
    requires Civil(k / DAY_MINUTES).month in s.month && DayMatches(s, k / DAY_MINUTES)
    requires k % DAY_MINUTES / 60 in s.hour && k % 60 in s.minute
    ensures Fires(s, k)
  {}

  lemma WholeMinute(t: nat, k: nat)
    requires t / MINUTE < k
    ensures t < k * MINUTE && k * MINUTE % MINUTE == 0 && k * MINUTE / MINUTE == k
  {
    assert t == t / MINUTE * MINUTE + t % MINUTE;
  }

  lemma UpTo(s: Schedule, a: nat, b: nat, c: int)
    requires Silent(s, a, b) && c <= b
    ensures Silent(s, a, c)
  {
    hide Fires;
  }

  /** An interval of at least a minute fires later than t, within a second of t + every. */
  lemma EveryIsLater(t: nat, every: int)
    requires every >= MINUTE
    ensures var u := (t + every) / SECOND * SECOND; t < u && t + every - SECOND < u <= t + every
  {}

  /** The horizon is a real five years: between 1825 and 1827 days on. */
  lemma HorizonIsFiveYears(k: nat)
    ensures k + 1825 * DAY_MINUTES <= FiveYearsOn(k) <= k + 1827 * DAY_MINUTES
  {
    hide Civil, Ordinal;
    var n := k / DAY_MINUTES;
    CivilIsOrdinal(n);
    FiveYearsLater(Civil(n));
    MonthInYear(Civil(n));
    assert k == n * DAY_MINUTES + k % DAY_MINUTES;
  }

  /** The date five years on; 29 February becomes 1 March. */
  function Anniversary(d: Date): Date {
    if d.month == 2 && d.day == 29 then Date(d.year + 5, 3, 1) else Date(d.year + 5, d.month, d.day)
  }

  /** The horizon is that date at the same time of day. */
  lemma HorizonDate(k: nat)
    ensures 0 <= FiveYearsOn(k) && FiveYearsOn(k) % DAY_MINUTES == k % DAY_MINUTES
    ensures Civil(FiveYearsOn(k) / DAY_MINUTES) == Anniversary(Civil(k / DAY_MINUTES))
  {
    hide Civil, DayOf, Ordinal, FiveYearsOn, Anniversary, ValidDate;
    var d := Civil(k / DAY_MINUTES);
    CivilIsOrdinal(k / DAY_MINUTES);
    FiveYears(d);
    OrdinalIsCivil(Anniversary(d));
    HorizonIs(k, DayOf(Anniversary(d)));
  }

  lemma HorizonIs(k: nat, m: nat)
    requires var d := Civil(k / DAY_MINUTES); ValidDate(d) && Ordinal(d.year + 5, d.month, d.day) == m
    ensures FiveYearsOn(k) % DAY_MINUTES == k % DAY_MINUTES && FiveYearsOn(k) / DAY_MINUTES == m
  {
    hide Civil, Ordinal;
    DivideExact(FiveYearsOn(k), m, DAY_MINUTES, k % DAY_MINUTES);
  }

  lemma FiveYears(d: Date)
    requires ValidDate(d)
    ensures ValidDate(Anniversary(d)) && DayOf(Anniversary(d)) == Ordinal(d.year + 5, d.month, d.day)
  {
    hide DaysBeforeYear, DaysBeforeMonth;
    if d.month == 2 && d.day == 29 { DayAfterFebruary(d.year + 5); }
  }

  lemma DayAfterFebruary(y: int)
    requires !Leap(y)
    ensures Ordinal(y, 2, 29) == Ordinal(y, 3, 1)
  {}

  lemma MonthInYear(d: Date)
    requires ValidDate(d)
    ensures 1 <= d.month <= 12 && DayOf(d) == Ordinal(d.year, d.month, d.day)
  {}

  lemma FiveYearsLater(d: Date)
    requires ValidDate(d)
    ensures DayOf(d) + 1825 <= Ordinal(d.year + 5, d.month, d.day) <= DayOf(d) + 1827
  {
    hide DaysBeforeYear, DaysBeforeMonth, Leap;
    NextYear(d.year);
    NextYear(d.year + 1);
    NextYear(d.year + 2);
    NextYear(d.year + 3);
    NextYear(d.year + 4);
    SameMonths(d.year, d.year + 5, d.month);
    Leaps(d.year);
  }

  /** Of five consecutive years, one or two are leap years, or none around a common century. */
  lemma Leaps(y: int)
    ensures
      var count := (if Leap(y) then 1 else 0) + (if Leap(y + 1) then 1 else 0) + (if Leap(y + 2) then 1 else 0)
        + (if Leap(y + 3) then 1 else 0) + (if Leap(y + 4) then 1 else 0);
      count <= 2 && (Leap(y) && !Leap(y + 5) ==> count >= 1) && (!Leap(y) && Leap(y + 5) ==> count <= 1)
  {
    LeapIsFourth(y);
    LeapIsFourth(y + 1);
    LeapIsFourth(y + 2);
    LeapIsFourth(y + 3);
    LeapIsFourth(y + 4);
    LeapIsFourth(y + 5);
    hide Leap;
  }

  lemma LeapIsFourth(y: int)
    ensures Leap(y) ==> y % 4 == 0
  {}

  lemma {:induction false} SameMonths(y: int, z: int, m: int)
    requires 1 <= m <= 13
    ensures DaysBeforeMonth(z, m) - DaysBeforeMonth(y, m)
      == if m <= 2 then 0 else (if Leap(z) then 1 else 0) - (if Leap(y) then 1 else 0)
    decreases m
  {
    if m > 1 { SameMonths(y, z, m - 1); }
  }
}
