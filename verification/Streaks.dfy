/**
 * Streaks (`GetPublicUserStats` in internal/store/analysis.go): challenge dates are
 * grouped by "date minus row number", and the groups turn out to be the maximal
 * runs of consecutive days. Days are day numbers.
 */
module Streaks {
  import opened Prelude

  /** `row_number() OVER (ORDER BY challenge_date)` over distinct dates. */
  ghost function RowNumber(days: set<int>, d: int): nat {
    |set x | x in days && x <= d|
  }

  /** `challenge_date - row_number`. */
  ghost function Group(days: set<int>, d: int): int {
    d - RowNumber(days, d)
  }

  ghost function GroupDays(days: set<int>, g: int): set<int> {
    set d | d in days && Group(days, d) == g
  }

  /** `min`, `max` and `count` of a group. */
  datatype Streak = Streak(first: int, last: int, length: nat)

  ghost function Minimum(s: set<int>): (m: int)
    requires s != {}
    ensures m in s && forall x :: x in s ==> m <= x
  {
    Inhabited(s);
    var x :| x in s;
    if s == {x} then x
    else
      var m := Minimum(s - {x});
      assert forall y :: y in s ==> y == x || y in s - {x};
      if x < m then x else m
  }

  ghost function Maximum(s: set<int>): (m: int)
    requires s != {}
    ensures m in s && forall x :: x in s ==> x <= m
  {
    Inhabited(s);
    var x :| x in s;
    if s == {x} then x
    else
      var m := Maximum(s - {x});
      assert forall y :: y in s ==> y == x || y in s - {x};
      if x > m then x else m
  }

  ghost function StreakAt(days: set<int>, d: int): Streak
    requires d in days
  {
    var group := GroupDays(days, Group(days, d));
    assert d in group;
    Streak(Minimum(group), Maximum(group), |group|)
  }

  ghost function Streaks(days: set<int>): set<Streak> {
    set d | d in days :: StreakAt(days, d)
  }

  /** `ORDER BY last_day DESC LIMIT 1`. */
  ghost predicate Newest(streaks: set<Streak>, s: Streak) {
    s in streaks && forall t :: t in streaks ==> t.last <= s.last
  }

  ghost function Recent(days: set<int>, today: int): set<Streak> {
    set s | s in Streaks(days) && s.last >= today - 1
  }

  /** `n` is a value that the query may return for the current streak. */
  ghost predicate IsCurrent(days: set<int>, today: int, n: nat) {
    if Recent(days, today) == {} then n == 0
    else exists s :: Newest(Recent(days, today), s) && n == s.length
  }

  /** `n` is the value of `COALESCE(max(length), 0)`. */
  ghost predicate IsBest(days: set<int>, n: nat) {
    if days == {} then n == 0
    else
      && (exists s :: s in Streaks(days) && s.length == n)
      && (forall s :: s in Streaks(days) ==> s.length <= n)
  }

  // ----- reference: runs of consecutive days -----

  /** Every day from `a` to `b` is a date. */
  ghost predicate Covered(days: set<int>, a: int, b: int) {
    forall x :: a <= x <= b ==> x in days
  }

  /** `a..b` is a run of consecutive days that cannot be extended. */
  ghost predicate MaximalRun(days: set<int>, a: int, b: int) {
    a <= b && Covered(days, a, b) && a - 1 !in days && b + 1 !in days
  }

  /** The number of consecutive days that end with `d`. */
  ghost function RunUpTo(days: set<int>, d: int): nat
    decreases |days|
  {
    if d !in days then 0 else 1 + RunUpTo(days - {d}, d - 1)
  }

  /** Two dates fall into one group exactly when every day between them is a date too. */
  lemma SameGroup(days: set<int>, a: int, b: int)
    requires a in days && b in days && a <= b
    ensures Group(days, a) == Group(days, b) <==> Covered(days, a, b)
  {
    var upToA := set x | x in days && x <= a;
    var upToB := set x | x in days && x <= b;
    var between := set x | x in days && a < x <= b;
    assert upToB == upToA + between;
    assert upToA * between == {};
    assert |upToB| == |upToA| + |between|;
    var whole := Interval(a + 1, b);
    IntervalSize(a + 1, b);
    assert between <= whole;
    SubsetSize(between, whole);
    if Covered(days, a, b) {
      assert whole == between;
    }
    if |between| == |whole| {
      forall x | a <= x <= b ensures x in days {
        assert x == a || x in whole;
      }
    }
  }

  /** A date belongs to the group of a maximal run exactly when it lies in the run. */
  lemma GroupOfRun(days: set<int>, a: int, b: int, d: int)
    requires MaximalRun(days, a, b) && d in days
    ensures a <= d <= b <==> Group(days, d) == Group(days, a)
  {
    assert a in days && b in days;
    if a <= d {
      SameGroup(days, a, d);
    } else {
      SameGroup(days, d, a);
    }
  }

  /** A maximal run is one group, whose first day, last day and count are those of the run. */
  lemma RunIsStreak(days: set<int>, a: int, b: int)
    requires MaximalRun(days, a, b)
    ensures a in days && b in days
    ensures GroupDays(days, Group(days, a)) == Interval(a, b)
    ensures StreakAt(days, a) == Streak(a, b, b - a + 1)
  {
    var group := GroupDays(days, Group(days, a));
    forall d
      ensures d in group <==> d in Interval(a, b)
    {
      if d in days {
        GroupOfRun(days, a, b, d);
      }
    }
    assert group == Interval(a, b);
    IntervalSize(a, b);
    assert a in group && b in group;
    assert Minimum(group) == a && Maximum(group) == b;
  }

  /** Every date lies in a maximal run. */
  lemma RunAround(days: set<int>, d: int) returns (a: int, b: int)
    requires d in days
    ensures MaximalRun(days, a, b) && a <= d <= b
  {
    var top, bottom := Maximum(days), Minimum(days);
    a := d;
    while a - 1 in days
      invariant a <= d && Covered(days, a, d)
      decreases a - bottom
    {
      a := a - 1;
    }
    b := d;
    while b + 1 in days
      invariant d <= b && Covered(days, a, b)
      decreases top - b
    {
      b := b + 1;
    }
  }

  lemma StreakIsMaximalRun(days: set<int>, d: int)
    requires d in days
    ensures var s := StreakAt(days, d); MaximalRun(days, s.first, s.last) && s.length == s.last - s.first + 1
  {
    var a, b := RunAround(days, d);
    RunIsStreak(days, a, b);
    GroupOfRun(days, a, b, d);
    assert StreakAt(days, d) == StreakAt(days, a);
  }

  lemma MaximalRunIsStreak(days: set<int>, s: Streak)
    requires MaximalRun(days, s.first, s.last) && s.length == s.last - s.first + 1
    ensures s in Streaks(days)
  {
    RunIsStreak(days, s.first, s.last);
    assert s.first in days && StreakAt(days, s.first) == s;
  }

  /**
   * Gaps and islands: the streaks of the query are exactly the maximal runs of
   * consecutive days, each with its first day, its last day and its length.
   */
  lemma StreaksAreMaximalRuns(days: set<int>, s: Streak)
    ensures s in Streaks(days) <==> MaximalRun(days, s.first, s.last) && s.length == s.last - s.first + 1
  {
    if s in Streaks(days) {
      StreakHasDay(days, s);
    }
    if MaximalRun(days, s.first, s.last) && s.length == s.last - s.first + 1 {
      MaximalRunIsStreak(days, s);
    }
  }

  lemma StreakHasDay(days: set<int>, s: Streak)
    requires s in Streaks(days)
    ensures MaximalRun(days, s.first, s.last) && s.length == s.last - s.first + 1
  {
    var d :| d in days && s == StreakAt(days, d);
    StreakIsMaximalRun(days, d);
  }

  // ----- current and best streak -----

  lemma {:induction false} RunLength(days: set<int>, a: int, d: int)
    requires a <= d + 1 && Covered(days, a, d) && a - 1 !in days
    ensures RunUpTo(days, d) == d - a + 1
    decreases d - a
  {
    if a <= d {
      RunLength(days - {d}, a, d - 1);
    }
  }

  /** The run that ends with the last date is the one streak that ends last. */
  lemma LastStreak(days: set<int>) returns (s: Streak)
    requires days != {}
    ensures s in Streaks(days) && s.last == Maximum(days) && s.length == RunUpTo(days, Maximum(days))
    ensures forall t :: t in Streaks(days) ==> t.last <= s.last && (t.last == s.last ==> t.length == s.length)
  {
    var top := Maximum(days);
    var a, b := RunAround(days, top);
    assert b in days && b == top;
    RunLength(days, a, top);
    s := Streak(a, top, top - a + 1);
    StreaksAreMaximalRuns(days, s);
    forall t | t in Streaks(days)
      ensures t.last <= top && (t.last == top ==> t.length == s.length)
    {
      StreaksAreMaximalRuns(days, t);
      assert t.last in days;
      if t.last == top {
        RunLength(days, t.first, top);
      }
    }
  }

  /**
   * The current streak is the run of consecutive days that ends with the last date,
   * if that is yesterday or later, and otherwise zero.
   */
  lemma {:induction false} CurrentStreak(days: set<int>, today: int, n: nat)
    ensures IsCurrent(days, today, n) <==>
            n == if days != {} && Maximum(days) >= today - 1 then RunUpTo(days, Maximum(days)) else 0
  {
    var recent := Recent(days, today);
    if days == {} {
      assert Streaks(days) == {};
    } else {
      var s := LastStreak(days);
      if s.last >= today - 1 {
        assert s in recent && Newest(recent, s);
      } else if recent != {} {
        var t := Pick(recent);
      }
    }
  }

  /** `n` is the greatest number of consecutive days in the set. */
  ghost predicate LongestRun(days: set<int>, n: nat) {
    && (forall a, b :: a <= b && Covered(days, a, b) ==> b - a + 1 <= n)
    && (n > 0 ==> exists a, b :: a <= b && Covered(days, a, b) && b - a + 1 == n)
  }

  lemma RunFits(days: set<int>, a: int, b: int, n: nat)
    requires IsBest(days, n) && a <= b && Covered(days, a, b)
    ensures b - a + 1 <= n
  {
    assert a in days;
    var lo, hi := RunAround(days, a);
    var s := Streak(lo, hi, hi - lo + 1);
    MaximalRunIsStreak(days, s);
  }

  lemma LongestIsBest(days: set<int>, n: nat)
    requires LongestRun(days, n)
    ensures IsBest(days, n)
  {
    if n > 0 {
      forall s | s in Streaks(days)
        ensures s.length <= n
      {
        StreakHasDay(days, s);
      }
      var a, b :| a <= b && Covered(days, a, b) && b - a + 1 == n;
      assert a in days;
      var lo, hi := RunAround(days, a);
      assert Covered(days, lo, hi);
      MaximalRunIsStreak(days, Streak(lo, hi, hi - lo + 1));
    } else {
      assert forall d :: d in days ==> Covered(days, d, d);
      assert forall d :: d !in days;
      assert days == {};
    }
  }

  /** The best streak is the length of the longest run of consecutive days in the set. */
  lemma BestStreak(days: set<int>, n: nat)
    ensures IsBest(days, n) <==> LongestRun(days, n)
  {
    if IsBest(days, n) {
      forall a, b | a <= b && Covered(days, a, b)
        ensures b - a + 1 <= n
      {
        RunFits(days, a, b, n);
      }
      if days != {} {
        var s :| s in Streaks(days) && s.length == n;
        StreakHasDay(days, s);
        assert Covered(days, s.first, s.last);
      }
    }
    if LongestRun(days, n) {
      LongestIsBest(days, n);
    }
  }

  /** The current streak never exceeds the best one. */
  lemma {:induction false} CurrentWithinBest(days: set<int>, today: int, current: nat, best: nat)
    requires IsCurrent(days, today, current) && IsBest(days, best)
    ensures current <= best
  {
    if Recent(days, today) != {} {
      var s :| Newest(Recent(days, today), s) && current == s.length;
      assert s in Streaks(days);
    }
  }
}
