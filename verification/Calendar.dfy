/**
 * UTC calendar arithmetic: the usage windows of internal/store/subscriptions.go
 * and the age gate of internal/httpapi/auth_handlers.go.
 *
 * An instant is a number of nanoseconds since 0000-01-01T00:00:00Z in the
 * proleptic Gregorian calendar, a day is a number of days since then, and a
 * month is a number of months since then.
 */
module Calendar {
  import opened Prelude

  predicate Leap(y: int) {
    y % 4 == 0 && (y % 100 != 0 || y % 400 == 0)
  }

  /** The length of month `k`, that is of month `k % 12 + 1` of year `k / 12`. */
  function MonthLength(k: int): (n: int)
    ensures 28 <= n <= 31
  {
    var m := k % 12;
    if m == 1 then (if Leap(k / 12) then 29 else 28)
    else if m == 3 || m == 5 || m == 8 || m == 10 then 30
    else 31
  }

  /** Day number of the first day of month `k`: months abut, and month 0 starts on day 0. */
  function MonthStart(k: int): int
    decreases if k < 0 then -k else k
  {
    if k == 0 then 0
    else if k > 0 then MonthStart(k - 1) + MonthLength(k - 1)
    else MonthStart(k + 1) - MonthLength(k)
  }

  lemma MonthStep(k: int)
    ensures MonthStart(k + 1) == MonthStart(k) + MonthLength(k)
  {}

  lemma {:induction false} MonthsIncrease(j: int, k: int)
    requires j < k
    ensures MonthStart(j) < MonthStart(k)
    decreases k - j
  {
    MonthStep(k - 1);
    if j < k - 1 {
      MonthsIncrease(j, k - 1);
    }
  }

  /** The month that holds day `n`, searched from month `k`. */
  function MonthFrom(n: int, k: int): (r: int)
    ensures MonthStart(r) <= n < MonthStart(r + 1)
    decreases if n < MonthStart(k) then 2 * (MonthStart(k) - n) else
              if MonthStart(k + 1) <= n then n - MonthStart(k + 1) + 1 else 0
  {
    MonthStep(k);
    if n < MonthStart(k) then
      MonthStep(k - 1);
      MonthFrom(n, k - 1)
    else if MonthStart(k + 1) <= n then
      MonthStep(k + 1);
      MonthFrom(n, k + 1)
    else
      k
  }

  function MonthOf(n: int): (k: int)
    ensures MonthStart(k) <= n < MonthStart(k + 1)
  {
    MonthFrom(n, 0)
  }

  /** Months are disjoint, so the month of a day is the only one that holds it. */
  lemma MonthUnique(n: int, k: int)
    requires MonthStart(k) <= n < MonthStart(k + 1)
    ensures MonthOf(n) == k
  {
    var r := MonthOf(n);
    if r < k {
      if r + 1 < k { MonthsIncrease(r + 1, k); }
      assert false;
    } else if k < r {
      if k + 1 < r { MonthsIncrease(k + 1, r); }
      assert false;
    }
  }

  // ----- Go's time package on UTC days -----

  function Year(n: int): int { MonthOf(n) / 12 }
  function Month(n: int): int { MonthOf(n) % 12 + 1 }
  function Day(n: int): int { n - MonthStart(MonthOf(n)) + 1 }

  /** `time.Date`: months and days outside their range roll over. */
  function Date(y: int, m: int, d: int): int {
    MonthStart(12 * y + m - 1) + d - 1
  }

  predicate ValidDate(y: int, m: int, d: int) {
    1 <= m <= 12 && 1 <= d <= MonthLength(12 * y + m - 1)
  }

  function DayOf(t: int): int { t / DAY }

  function Midnight(n: int): int { n * DAY }

  /** `Time.AddDate` on a midnight. */
  function AddDate(n: int, years: int, months: int, days: int): int {
    Date(Year(n) + years, Month(n) + months, Day(n) + days)
  }

  lemma DateOfParts(n: int)
    ensures Date(Year(n), Month(n), Day(n)) == n
    ensures ValidDate(Year(n), Month(n), Day(n))
  {
    var k := MonthOf(n);
    assert 12 * (k / 12) + k % 12 == k;
    MonthStep(k);
  }

  /** `time.Date` and the accessors are inverse to each other on valid dates. */
  lemma PartsOfDate(y: int, m: int, d: int)
    requires ValidDate(y, m, d)
    ensures Year(Date(y, m, d)) == y && Month(Date(y, m, d)) == m && Day(Date(y, m, d)) == d
  {
    var k := 12 * y + m - 1;
    MonthStep(k);
    MonthUnique(Date(y, m, d), k);
  }

  // ----- dates in closed form -----

  /** The days before year `y`: 365 a year and one for each fourth, less each hundredth, more each four hundredth. */
  function YearStart(y: int): int {
    365 * y + (y + 3) / 4 - (y + 99) / 100 + (y + 399) / 400
  }

  /** The days of a common year before its month `m + 1`. */
  function DaysBefore(m: nat): nat {
    match m
    case 0 => 0
    case 1 => 31
    case 2 => 59
    case 3 => 90
    case 4 => 120
    case 5 => 151
    case 6 => 181
    case 7 => 212
    case 8 => 243
    case 9 => 273
    case 10 => 304
    case 11 => 334
    case _ => 365
  }

  lemma {:induction false} MonthsOfYear(y: int, m: nat)
    requires m <= 12
    ensures MonthStart(12 * y + m) == MonthStart(12 * y) + DaysBefore(m) + if m >= 2 && Leap(y) then 1 else 0
  {
    if m > 0 {
      MonthsOfYear(y, m - 1);
      var k := 12 * y + m - 1;
      assert k / 12 == y && k % 12 == m - 1;
      MonthStep(k);
    }
  }

  lemma Quotient4(a: int, q: int, r: int)
    requires a == 4 * q + r && 0 <= r < 4
    ensures a / 4 == q
  {
  }

  lemma Fourths(y: int)
    ensures (y + 4) / 4 == (y + 3) / 4 + if y % 4 == 0 then 1 else 0
  {
    var q, r := y / 4, y % 4;
    Quotient4(y + 4, q + 1, r);
    if r == 0 {
      Quotient4(y + 3, q, 3);
    } else {
      Quotient4(y + 3, q + 1, r - 1);
    }
  }

  lemma Quotient100(a: int, q: int, r: int)
    requires a == 100 * q + r && 0 <= r < 100
    ensures a / 100 == q
  {
  }

  lemma Hundredths(y: int)
    ensures (y + 100) / 100 == (y + 99) / 100 + if y % 100 == 0 then 1 else 0
  {
    var q, r := y / 100, y % 100;
    Quotient100(y + 100, q + 1, r);
    if r == 0 {
      Quotient100(y + 99, q, 99);
    } else {
      Quotient100(y + 99, q + 1, r - 1);
    }
  }

  lemma Quotient400(a: int, q: int, r: int)
    requires a == 400 * q + r && 0 <= r < 400
    ensures a / 400 == q
  {
  }

  lemma FourHundredths(y: int)
    ensures (y + 400) / 400 == (y + 399) / 400 + if y % 400 == 0 then 1 else 0
  {
    var q, r := y / 400, y % 400;
    Quotient400(y + 400, q + 1, r);
    if r == 0 {
      Quotient400(y + 399, q, 399);
    } else {
      Quotient400(y + 399, q + 1, r - 1);
    }
  }

  lemma Multiples(y: int, q: int)
    ensures y == 100 * q ==> y % 4 == 0
    ensures y == 400 * q ==> y % 100 == 0
  {
    if y == 100 * q { Quotient4(y, 25 * q, 0); }
    if y == 400 * q { Quotient100(y, 4 * q, 0); }
  }

  lemma YearStep(y: int)
    ensures YearStart(y + 1) == YearStart(y) + if Leap(y) then 366 else 365
  {
    Fourths(y);
    Hundredths(y);
    FourHundredths(y);
    Multiples(y, y / 100);
    Multiples(y, y / 400);
    assert YearStart(y + 1) == 365 * y + 365 + (y + 4) / 4 - (y + 100) / 100 + (y + 400) / 400;
  }

  lemma {:induction false} YearsAdd(y: int)
    ensures MonthStart(12 * y) == YearStart(y)
    decreases if y < 0 then -y else y
  {
    if y > 0 {
      YearsAdd(y - 1);
      MonthsOfYear(y - 1, 12);
      YearStep(y - 1);
    } else if y < 0 {
      YearsAdd(y + 1);
      MonthsOfYear(y, 12);
      YearStep(y);
    }
  }

  /** The day number of every valid date in closed form, without adding up months. */
  lemma DateInClosedForm(y: int, m: int, d: int)
    requires ValidDate(y, m, d)
    ensures Date(y, m, d) ==
            YearStart(y) + DaysBefore(m - 1) + d - 1 + if m > 2 then YearStart(y + 1) - YearStart(y) - 365 else 0
  {
    YearsAdd(y);
    YearStep(y);
    MonthsOfYear(y, m - 1);
  }

  // ----- usageWindows -----

  datatype Windows = Windows(dayStart: int, dayEnd: int, monthStart: int, monthEnd: int)

  function UsageWindows(now: int): Windows {
    var n := DayOf(now);
    var dayStart := Date(Year(n), Month(n), Day(n));
    var monthStart := Date(Year(n), Month(n), 1);
    Windows(
      Midnight(dayStart),
      Midnight(AddDate(dayStart, 0, 0, 1)),
      Midnight(monthStart),
      Midnight(AddDate(monthStart, 0, 1, 0)))
  }

  lemma {:induction false} WindowsExplicit(now: int)
    ensures UsageWindows(now) == Windows(
              Midnight(DayOf(now)), Midnight(DayOf(now) + 1),
              Midnight(MonthStart(MonthOf(DayOf(now)))), Midnight(MonthStart(MonthOf(DayOf(now)) + 1)))
  {
    var n := DayOf(now);
    DateOfParts(n);
    var k := MonthOf(n);
    assert 12 * (k / 12) + k % 12 == k;
    var first := Date(Year(n), Month(n), 1);
    assert first == MonthStart(k);
    MonthStep(k);
    MonthUnique(first, k);
    assert Date(Year(n), Month(n), Day(n) + 1) == n + 1;
  }

  lemma MidnightOrder(n: int, t: int)
    ensures Midnight(n) <= t <==> n <= DayOf(t)
    ensures DayOf(Midnight(n)) == n
    ensures t < Midnight(DayOf(t) + 1)
  {}

  /**
   * The day window holds `now`, is one day long, holds exactly the instants of the
   * same day, and the next window starts where it ends: windows tile the time line.
   */
  lemma {:induction false} DayWindowsTile(now: int, t: int)
    ensures var w := UsageWindows(now);
            && w.dayStart <= now < w.dayEnd
            && w.dayEnd == w.dayStart + DAY
            && (w.dayStart <= t < w.dayEnd <==> DayOf(t) == DayOf(now))
            && (UsageWindows(t).dayStart == w.dayStart <==> w.dayStart <= t < w.dayEnd)
            && UsageWindows(w.dayEnd).dayStart == w.dayEnd
  {
    WindowsExplicit(now);
    WindowsExplicit(t);
    WindowsExplicit(UsageWindows(now).dayEnd);
    MidnightOrder(DayOf(now), now);
    MidnightOrder(DayOf(now), t);
    MidnightOrder(DayOf(now) + 1, t);
    MidnightOrder(DayOf(now) + 1, now);
    MidnightOrder(DayOf(t), t);
  }

  /** A month has started by day `n` exactly when it is no later than the month of `n`. */
  lemma {:induction false} MonthOrder(n: int, k: int)
    ensures MonthStart(k) <= n <==> k <= MonthOf(n)
    ensures MonthOf(MonthStart(k)) == k
  {
    var r := MonthOf(n);
    if k < r { MonthsIncrease(k, r); }
    if r + 1 < k { MonthsIncrease(r + 1, k); }
    MonthsIncrease(k, k + 1);
    MonthUnique(MonthStart(k), k);
  }

  /** The first instant of month `k`. */
  function MonthInstant(k: int): int { Midnight(MonthStart(k)) }

  lemma MonthInstantOrder(k: int, t: int)
    ensures MonthInstant(k) <= t <==> k <= MonthOf(DayOf(t))
    ensures MonthOf(DayOf(MonthInstant(k))) == k
  {
    MidnightOrder(MonthStart(k), t);
    MonthOrder(DayOf(t), k);
  }

  lemma MonthWindow(now: int)
    ensures var k := MonthOf(DayOf(now));
            UsageWindows(now).monthStart == MonthInstant(k) && UsageWindows(now).monthEnd == MonthInstant(k + 1)
  {
    WindowsExplicit(now);
  }

  /** The month window holds exactly the instants of the same month. */
  lemma MonthWindowHolds(now: int, t: int)
    ensures var w := UsageWindows(now);
            w.monthStart <= t < w.monthEnd <==> MonthOf(DayOf(t)) == MonthOf(DayOf(now))
  {
    var k := MonthOf(DayOf(now));
    MonthWindow(now);
    MonthInstantOrder(k, t);
    MonthInstantOrder(k + 1, t);
  }

  /** Months tile the time line: windows coincide or are disjoint, and each ends where the next starts. */
  lemma {:induction false} MonthWindowsTile(now: int, t: int)
    ensures var w := UsageWindows(now);
            && w.monthStart <= now < w.monthEnd
            && (UsageWindows(t).monthStart == w.monthStart <==> w.monthStart <= t < w.monthEnd)
            && UsageWindows(w.monthEnd).monthStart == w.monthEnd
  {
    var w := UsageWindows(now);
    MonthWindowHolds(now, now);
    MonthWindowHolds(now, t);
    SameMonthStart(now, t);
    NextMonthStart(now);
  }

  lemma SameMonthStart(now: int, t: int)
    ensures UsageWindows(t).monthStart == UsageWindows(now).monthStart <==> MonthOf(DayOf(t)) == MonthOf(DayOf(now))
  {
    var k, j := MonthOf(DayOf(now)), MonthOf(DayOf(t));
    MonthWindow(now);
    MonthWindow(t);
    MonthInstantOrder(k, 0);
    MonthInstantOrder(j, 0);
  }

  lemma {:induction false} NextMonthStart(now: int)
    ensures UsageWindows(UsageWindows(now).monthEnd).monthStart == UsageWindows(now).monthEnd
  {
    var k := MonthOf(DayOf(now));
    MonthWindow(now);
    MonthWindow(MonthInstant(k + 1));
    MonthInstantOrder(k + 1, 0);
  }

  /** Every day window lies inside one month window. */
  lemma {:induction false} DayInsideMonth(now: int)
    ensures UsageWindows(now).monthStart <= UsageWindows(now).dayStart
    ensures UsageWindows(now).dayEnd <= UsageWindows(now).monthEnd
  {
    WindowsExplicit(now);
  }

  /** The windows hold exactly the instants of the day and the month of `now`. */
  ghost predicate Fit(w: Windows, now: int) {
    && (forall t :: w.dayStart <= t < w.dayEnd <==> DayOf(t) == DayOf(now))
    && (forall t :: w.monthStart <= t < w.monthEnd <==> MonthOf(DayOf(t)) == MonthOf(DayOf(now)))
  }

  lemma {:induction false} WindowsFit(now: int)
    ensures Fit(UsageWindows(now), now)
  {
    var w := UsageWindows(now);
    forall t
      ensures w.dayStart <= t < w.dayEnd <==> DayOf(t) == DayOf(now)
      ensures w.monthStart <= t < w.monthEnd <==> MonthOf(DayOf(t)) == MonthOf(DayOf(now))
    {
      DayWindowsTile(now, t);
      MonthWindowHolds(now, t);
    }
  }

  // ----- isAtLeastAge -----

  /** The cutoff date: day `n`, `years` years earlier. */
  function Cutoff(n: int, years: int): int {
    Date(Year(n) - years, Month(n), Day(n))
  }

  /** The age gate as written: `dob` and `now` are instants. */
  predicate IsAtLeastAge(dob: int, now: int, minimumAge: int) {
    if dob > now then false else dob <= Midnight(Cutoff(DayOf(now), minimumAge))
  }

  /** The age in whole years on day `n` of a person born on day `b`, by the birthday rule. */
  function AgeOn(b: int, n: int): int {
    Year(n) - Year(b) - if Month(n) < Month(b) || (Month(n) == Month(b) && Day(n) < Day(b)) then 1 else 0
  }

  /** The cutoff rolls over to 1 March: 29 February, counted back to a common year. */
  predicate RollsOver(n: int, years: int) {
    Month(n) == 2 && Day(n) == 29 && !Leap(Year(n) - years)
  }

  /** Day `d` of month `k` comes no later than day `d'` of month `k'`. */
  predicate NotLater(k: int, d: int, k': int, d': int) {
    k < k' || (k == k' && d <= d')
  }

  /** Real dates are ordered as their months and days are; a day past its month only moves later. */
  lemma {:induction false} DaysOrdered(k: int, d: int, k': int, d': int)
    requires 1 <= d <= MonthLength(k) && 1 <= d'
    ensures NotLater(k, d, k', d') ==> MonthStart(k) + d <= MonthStart(k') + d'
    ensures !NotLater(k, d, k', d') && d' <= MonthLength(k') ==> MonthStart(k) + d > MonthStart(k') + d'
  {
    MonthStep(k);
    MonthStep(k');
    if k + 1 < k' { MonthsIncrease(k + 1, k'); }
    if k' + 1 < k { MonthsIncrease(k' + 1, k); }
  }

  /** A month and the same month of another year differ in length by at most the leap day. */
  lemma SameMonthLength(k: int, years: int)
    ensures MonthLength(k - 12 * years) ==
            if k % 12 == 1 then (if Leap(k / 12 - years) then 29 else 28) else MonthLength(k)
  {
    assert (k - 12 * years) % 12 == k % 12 && (k - 12 * years) / 12 == k / 12 - years;
  }

  lemma CutoffByMonth(n: int, years: int)
    ensures Cutoff(n, years) == MonthStart(MonthOf(n) - 12 * years) + Day(n) - 1
    ensures RollsOver(n, years) <==> Day(n) > MonthLength(MonthOf(n) - 12 * years)
    ensures 1 <= Day(n) <= MonthLength(MonthOf(n)) && Day(n) <= MonthLength(MonthOf(n) - 12 * years) + 1
  {
    var k := MonthOf(n);
    MonthStep(k);
    SameMonthLength(k, years);
    assert 12 * (k / 12 - years) + (k % 12 + 1) - 1 == k - 12 * years;
  }

  /** The birthday rule compares the month and day of birth with those of the nominal cutoff. */
  lemma AgeByMonth(b: int, n: int, years: int)
    ensures AgeOn(b, n) >= years <==> NotLater(MonthOf(b), Day(b), MonthOf(n) - 12 * years, Day(n))
  {
    var j, k := MonthOf(b), MonthOf(n);
    assert j == 12 * (j / 12) + j % 12 && k == 12 * (k / 12) + k % 12;
    assert k - 12 * years == 12 * (k / 12 - years) + k % 12;
  }

  /** A real date against a nominal one that may run one day past its month. */
  lemma {:induction false} AgainstNominal(j: int, e: int, k: int, d: int)
    requires 1 <= e <= MonthLength(j) && 1 <= d <= MonthLength(k) + 1
    ensures MonthStart(j) + e <= MonthStart(k) + d <==>
            NotLater(j, e, k, d) || (d > MonthLength(k) && MonthStart(j) + e == MonthStart(k) + d)
  {
    DaysOrdered(j, e, k, d);
    if d > MonthLength(k) {
      DaysOrdered(j, e, k, MonthLength(k));
    }
  }

  /** The birth date is not after the cutoff: exactly the birthday rule, except at a roll over. */
  lemma {:induction false} CutoffIsBirthdayRule(b: int, n: int, years: int)
    ensures b <= Cutoff(n, years) <==> AgeOn(b, n) >= years || (RollsOver(n, years) && b == Cutoff(n, years))
  {
    var j, e, k, d := MonthOf(b), Day(b), MonthOf(n) - 12 * years, Day(n);
    assert AgeOn(b, n) >= years <==> NotLater(j, e, k, d) by { AgeByMonth(b, n, years); }
    assert 1 <= e <= MonthLength(j) && b == MonthStart(j) + e - 1 by { CutoffByMonth(b, 0); }
    CutoffByMonth(n, years);
    AgainstNominal(j, e, k, d);
  }

  /** At a roll over, the cutoff is 1 March of the cutoff year. */
  lemma RollsOverToMarch(n: int, years: int)
    requires RollsOver(n, years)
    ensures Cutoff(n, years) == Date(Year(n) - years, 3, 1)
  {
    var k := MonthOf(n) - 12 * years;
    CutoffByMonth(n, years);
    MonthStep(k);
    SameMonthLength(MonthOf(n), years);
    assert 12 * (Year(n) - years) + 3 - 1 == k + 1;
  }

  /**
   * The gate is the birthday rule, except on 29 February when the cutoff year is
   * a common year: a person born on 1 March of that year then passes a day early.
   */
  lemma AgeGateIsBirthdayRule(b: int, now: int, minimumAge: int)
    requires minimumAge >= 0
    ensures IsAtLeastAge(Midnight(b), now, minimumAge) <==>
            || AgeOn(b, DayOf(now)) >= minimumAge
            || (RollsOver(DayOf(now), minimumAge) && b == Date(Year(DayOf(now)) - minimumAge, 3, 1))
  {
    var n := DayOf(now);
    CutoffIsBirthdayRule(b, n, minimumAge);
    if RollsOver(n, minimumAge) {
      RollsOverToMarch(n, minimumAge);
    }
    CutoffNotAfter(n, minimumAge);
    GateByDay(b, now, minimumAge);
  }

  lemma GateByDay(b: int, now: int, minimumAge: int)
    ensures IsAtLeastAge(Midnight(b), now, minimumAge) <==> b <= DayOf(now) && b <= Cutoff(DayOf(now), minimumAge)
  {
    MidnightOrder(b, now);
    var c := Cutoff(DayOf(now), minimumAge);
    assert Midnight(b) <= Midnight(c) <==> b <= c;
  }

  /** A nominal date at most one day past its month is not after a later month's real date. */
  lemma NominalOrder(k: int, d: int, k': int, d': int)
    requires 1 <= d <= MonthLength(k) + 1 && 1 <= d' && k < k'
    ensures MonthStart(k) + d <= MonthStart(k') + d'
  {
    MonthStep(k);
    if k + 1 < k' { MonthsIncrease(k + 1, k'); }
  }

  /** A cutoff `years >= 0` years back is not after the day itself. */
  lemma CutoffNotAfter(n: int, years: int)
    requires years >= 0
    ensures Cutoff(n, years) <= n
  {
    var k, d := MonthOf(n), Day(n);
    assert n == MonthStart(k) + d - 1;
    assert Cutoff(n, years) == MonthStart(k - 12 * years) + d - 1 && 1 <= d <= MonthLength(k - 12 * years) + 1 by {
      CutoffByMonth(n, years);
    }
    if years > 0 { NominalOrder(k - 12 * years, d, k, d); }
  }

  /** Passing the gate is never lost as time goes on, whatever the birth instant. */
  lemma AgeGateMonotone(dob: int, now: int, later: int, minimumAge: int)
    requires now <= later
    ensures IsAtLeastAge(dob, now, minimumAge) ==> IsAtLeastAge(dob, later, minimumAge)
  {
    MidnightOrder(DayOf(now), later);
    MidnightOrder(DayOf(now), now);
    CutoffMonotone(DayOf(now), DayOf(later), minimumAge);
    assert Midnight(Cutoff(DayOf(now), minimumAge)) <= Midnight(Cutoff(DayOf(later), minimumAge));
  }

  lemma MonthsOrdered(n: int, n': int)
    requires n <= n'
    ensures MonthOf(n) <= MonthOf(n')
    ensures MonthOf(n) == MonthOf(n') ==> Day(n) <= Day(n')
  {
    MonthOrder(n', MonthOf(n));
  }

  /** Cutoffs keep the order of days, roll over included. */
  lemma CutoffMonotone(n: int, n': int, years: int)
    requires n <= n'
    ensures Cutoff(n, years) <= Cutoff(n', years)
  {
    MonthsOrdered(n, n');
    NominalCutoffs(MonthOf(n), Day(n), MonthOf(n'), Day(n'), n, n', years);
  }

  lemma NominalCutoffs(k: int, d: int, k': int, d': int, n: int, n': int, years: int)
    requires k == MonthOf(n) && d == Day(n) && k' == MonthOf(n') && d' == Day(n')
    requires NotLater(k, d, k', d')
    ensures Cutoff(n, years) <= Cutoff(n', years)
  {
    CutoffByMonth(n, years);
    CutoffByMonth(n', years);
    if k < k' { NominalOrder(k - 12 * years, d, k' - 12 * years, d'); }
  }
}
