/** The Gregorian calendar, day by day from 0001-01-01, a Monday. */
module Calendar {
  import opened Arithmetic
  datatype Date = Date(year: int, month: int, day: int)

  predicate Leap(y: int) {
    y % 4 == 0 && (y % 100 != 0 || y % 400 == 0)
  }

  function DaysIn(y: int, m: int): (n: int)
    ensures 28 <= n <= 31
  {
    if m == 2 then if Leap(y) then 29 else 28
    else if m == 4 || m == 6 || m == 9 || m == 11 then 30 else 31
  }

  predicate ValidDate(d: Date) {
    1 <= d.year && 1 <= d.month <= 12 && 1 <= d.day <= DaysIn(d.year, d.month)
  }

  function NextDay(d: Date): Date {
    if d.day < DaysIn(d.year, d.month) then d.(day := d.day + 1)
    else if d.month < 12 then Date(d.year, d.month + 1, 1)
    else Date(d.year + 1, 1, 1)
  }

  /** The date n days after 0001-01-01. */
  function Civil(n: nat): Date {
    if n == 0 then Date(1, 1, 1) else NextDay(Civil(n - 1))
  }

  /** 0 is Sunday. */
  function Weekday(n: nat): nat {
    (n + 1) % 7
  }

  // ---- from a date to its day ----

  function DaysBeforeYear(y: int): int {
    365 * (y - 1) + (y - 1) / 4 - (y - 1) / 100 + (y - 1) / 400
  }

  function DaysBeforeMonth(y: int, m: int): int
    requires 1 <= m <= 13
    decreases m
  {
    if m == 1 then 0 else DaysBeforeMonth(y, m - 1) + DaysIn(y, m - 1)
  }

  /** The day a date falls on; a day past the end of its month runs into the next, as time.Date has it. */
  function Ordinal(y: int, m: int, d: int): int
    requires 1 <= m <= 12
  {
    DaysBeforeYear(y) + DaysBeforeMonth(y, m) + d - 1
  }

  function DayOf(d: Date): int
    requires ValidDate(d)
  {
    Ordinal(d.year, d.month, d.day)
  }

  lemma YearLength(y: int)
    ensures DaysBeforeMonth(y, 13) == if Leap(y) then 366 else 365
  {
    assert DaysBeforeMonth(y, 3) == 31 + DaysIn(y, 2);
    assert DaysBeforeMonth(y, 6) == DaysBeforeMonth(y, 3) + 92;
    assert DaysBeforeMonth(y, 9) == DaysBeforeMonth(y, 6) + 92;
    assert DaysBeforeMonth(y, 12) == DaysBeforeMonth(y, 9) + 91;
  }

  lemma NextYear(y: int)
    requires 1 <= y
    ensures DaysBeforeYear(y + 1) == DaysBeforeYear(y) + if Leap(y) then 366 else 365
  {
    Quotient(y, 4);
    Quotient(y, 100);
    Quotient(y, 400);
    if y % 400 == 0 { FactorDivides(y, 4, 100); }
    if y % 100 == 0 { FactorDivides(y, 25, 4); }
  }

  lemma FactorDivides(y: int, k: int, d: int)
    requires 0 < d && 0 < k * d && y % (k * d) == 0
    ensures y % d == 0
  {
    var q := y / (k * d);
    assert y == q * (k * d) == (q * k) * d;
    DivideExact(y, q * k, d, 0);
  }

  lemma Quotient(y: int, k: int)
    requires 1 <= y && 1 <= k
    ensures y / k == (y - 1) / k + if y % k == 0 then 1 else 0
  {
    var q, r := (y - 1) / k, (y - 1) % k;
    assert y - 1 == q * k + r;
    if r == k - 1 {
      assert y == (q + 1) * k;
      DivideExact(y, q + 1, k, 0);
    } else {
      DivideExact(y, q, k, r + 1);
    }
  }

  lemma DayAdvances(d: Date)
    requires ValidDate(d)
    ensures ValidDate(NextDay(d)) && DayOf(NextDay(d)) == DayOf(d) + 1
  {
    if d.day == DaysIn(d.year, d.month) && d.month == 12 {
      YearLength(d.year);
      NextYear(d.year);
    }
  }

  /** Counting days and naming them agree. */
  lemma {:induction false} CivilIsOrdinal(n: nat)
    ensures ValidDate(Civil(n)) && DayOf(Civil(n)) == n
  {
    if n > 0 {
      CivilIsOrdinal(n - 1);
      DayAdvances(Civil(n - 1));
    }
  }

  // ---- order ----

  predicate Earlier(a: Date, b: Date) {
    a.year < b.year || (a.year == b.year && (a.month < b.month || (a.month == b.month && a.day < b.day)))
  }

  lemma {:induction false} MonthsGrow(y: int, m: int, k: int)
    requires 1 <= m <= k <= 13
    ensures DaysBeforeMonth(y, m) <= DaysBeforeMonth(y, k)
    ensures m < k ==> DaysBeforeMonth(y, m) + DaysIn(y, m) <= DaysBeforeMonth(y, k)
    decreases k
  {
    if m < k { MonthsGrow(y, m, k - 1); }
  }

  lemma {:induction false} YearsGrow(y: int, z: int)
    requires 1 <= y <= z
    ensures DaysBeforeYear(y) <= DaysBeforeYear(z)
    ensures y < z ==> DaysBeforeYear(y) + DaysBeforeMonth(y, 13) <= DaysBeforeYear(z)
    decreases z
  {
    hide DaysBeforeYear, DaysBeforeMonth;
    if y < z {
      YearsGrow(y, z - 1);
      NextYear(z - 1);
      YearLength(y);
    }
  }

  lemma EarlierIsLess(a: Date, b: Date)
    requires ValidDate(a) && ValidDate(b) && Earlier(a, b)
    ensures DayOf(a) < DayOf(b)
  {
    hide DaysBeforeYear, DaysBeforeMonth;
    MonthsGrow(a.year, a.month, 13);
    if a.year < b.year {
      YearsGrow(a.year, b.year);
      MonthsGrow(b.year, 1, b.month);
      NothingBeforeJanuary(b.year);
    } else if a.month < b.month {
      MonthsGrow(a.year, a.month, b.month);
    }
  }

  lemma NothingBeforeJanuary(y: int)
    ensures DaysBeforeMonth(y, 1) == 0
  {}

  /** Every date has its day, and the day has that date. */
  lemma OrdinalIsCivil(d: Date)
    requires ValidDate(d)
    ensures 0 <= DayOf(d) && Civil(DayOf(d)) == d
  {
    if d != Date(1, 1, 1) {
      assert Earlier(Date(1, 1, 1), d);
      EarlierIsLess(Date(1, 1, 1), d);
    }
    hide DaysBeforeYear, DaysBeforeMonth, DaysIn;
    FirstDay();
    CivilIsOrdinal(DayOf(d));
    var e := Civil(DayOf(d));
    if Earlier(e, d) { EarlierIsLess(e, d); }
    if Earlier(d, e) { EarlierIsLess(d, e); }
  }

  lemma FirstDay()
    ensures ValidDate(Date(1, 1, 1)) && DayOf(Date(1, 1, 1)) == 0
  {}

  /** The first of the month after the one that day n is in. */
  function NextMonth(n: nat): int {
    var d := Civil(n);
    if d.month < 12 && 1 <= d.month then Ordinal(d.year, d.month + 1, 1) else Ordinal(d.year + 1, 1, 1)
  }

  /** From a day to the end of its month, the month does not change. */
  lemma MonthRunsOn(n: nat, k: nat)
    requires n <= k < NextMonth(n)
    ensures Civil(k).month == Civil(n).month
  {
    CivilIsOrdinal(n);
    CivilIsOrdinal(k);
    var a, b := Civil(n), Civil(k);
    var next := if a.month < 12 then Date(a.year, a.month + 1, 1) else Date(a.year + 1, 1, 1);
    hide Ordinal, DaysIn;
    if Earlier(b, a) { EarlierIsLess(b, a); }
    if Earlier(next, b) { EarlierIsLess(next, b); }
  }

  lemma NextMonthIsLater(n: nat)
    ensures n < NextMonth(n)
  {
    CivilIsOrdinal(n);
    var a := Civil(n);
    var next := if a.month < 12 then Date(a.year, a.month + 1, 1) else Date(a.year + 1, 1, 1);
    EarlierIsLess(a, next);
  }

  // ---- the calendar by other accounts ----

  /** The day number as it is commonly computed, in years that begin in March. */
  lemma DayFormula(d: Date)
    requires ValidDate(d)
    ensures var y, m := if d.month <= 2 then d.year - 1 else d.year, if d.month <= 2 then d.month + 9 else d.month - 3;
      DayOf(d) == 365 * y + y / 4 - y / 100 + y / 400 + (153 * m + 2) / 5 + d.day - 307
  {
    NextYear(d.year);
    MonthFormula(d.year, d.month);
    hide DaysBeforeMonth, Leap, DaysIn;
  }

  lemma MonthFormula(y: int, m: int)
    requires 1 <= m <= 12
    ensures m <= 2 ==> DaysBeforeMonth(y, m) == (153 * (m + 9) + 2) / 5 - 306
    ensures m > 2 ==> DaysBeforeMonth(y, m) == (153 * (m - 3) + 2) / 5 + if Leap(y) then 60 else 59
  {
    assert DaysBeforeMonth(y, 3) == if Leap(y) then 60 else 59;
    assert DaysBeforeMonth(y, 5) == DaysBeforeMonth(y, 3) + 61;
    assert DaysBeforeMonth(y, 7) == DaysBeforeMonth(y, 5) + 61;
    assert DaysBeforeMonth(y, 9) == DaysBeforeMonth(y, 7) + 62;
    assert DaysBeforeMonth(y, 11) == DaysBeforeMonth(y, 9) + 61;
  }

  /** 1 January 1970 was a Thursday, and the weekdays follow each other. */
  lemma WeekdaysRun(n: nat)
    ensures DayOf(Date(1970, 1, 1)) == 719162 && Weekday(719162) == 4
    ensures Weekday(n + 1) == (Weekday(n) + 1) % 7
  {
    DayFormula(Date(1970, 1, 1));
  }

  /** Counted from Sunday 7 January 2024. */
  lemma WeekdayFromSunday(n: nat)
    ensures DayOf(Date(2024, 1, 7)) == 738891 && Weekday(n) == (n - DayOf(Date(2024, 1, 7))) % 7
  {
    DayFormula(Date(2024, 1, 7));
    assert 738891 % 7 == 6;
  }
}
