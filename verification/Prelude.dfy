/** Types shared by every component, and a few facts about finite sets. */
module Prelude {

  datatype Option<+T> = None | Some(value: T)

  /** The error values of internal/store/store.go. */
  datatype Error =
    | NotFound
    | Conflict
    | Forbidden
    | Invalid
    | TokenInvalid
    | RateLimited
    | SubscriptionRequired
    | UsageLimit(period: Period, limit: int, resetAt: int)

  datatype Period = GlobalDaily | Daily | Monthly

  datatype Result<+T> = Ok(value: T) | Err(error: Error)

  // Instants count nanoseconds.
  const SECOND: int := 1_000_000_000
  const HOUR: int := 3_600_000_000_000
  const DAY: int := 86_400_000_000_000

  /** Cleanup keeps a row for this long after it has last mattered. */
  const RETENTION: int := 30 * DAY

  function Max(a: int, b: int): int {
    if a < b then b else a
  }

  /** A nonempty set has an element. */
  lemma Pick<T>(s: set<T>) returns (x: T)
    requires s != {}
    ensures x in s
  {
    x :| x in s;
  }

  /** There is a number above all those of a set. */
  lemma {:induction false} Above(s: set<int>) returns (x: int)
    ensures forall y :: y in s ==> y < x
    decreases s
  {
    if s == {} {
      x := 0;
    } else {
      var y := Pick(s);
      var rest := Above(s - {y});
      x := Max(rest, y + 1);
      assert forall z :: z in s ==> z == y || z in s - {y};
    }
  }

  lemma Inhabited(s: set<int>)
    requires s != {}
    ensures exists x :: x in s
  {
    var x := Pick(s);
  }

  /** A subset is no larger, and it is as large only when it is the whole set. */
  lemma {:induction false} SubsetSize<T>(a: set<T>, b: set<T>)
    requires a <= b
    ensures |a| <= |b|
    ensures |a| == |b| ==> a == b
  {
    assert b == a + (b - a);
    assert |b| == |a| + |b - a|;
  }

  /** Two sets that map into each other by mutually inverse functions have the same size. */
  lemma {:induction false} SameSize<A(!new), B(!new)>(a: set<A>, b: set<B>, f: A -> B, g: B -> A)
    requires forall x :: x in a ==> f(x) in b && g(f(x)) == x
    requires forall y :: y in b ==> g(y) in a && f(g(y)) == y
    ensures |a| == |b|
  {
    if a == {} {
      assert forall y :: y in b ==> g(y) in a;
      assert b == {};
    } else {
      var x :| x in a;
      SameSize(a - {x}, b - {f(x)}, f, g);
    }
  }

  predicate Between(x: int, a: int, b: int) { a <= x <= b }

  function Interval(a: int, b: int): set<int> {
    set x | a <= x <= b && Between(x, a, b)
  }

  lemma {:induction false} IntervalSize(a: int, b: int)
    requires a <= b + 1
    ensures |Interval(a, b)| == b - a + 1
    decreases b - a
  {
    if a == b + 1 {
      assert Interval(a, b) == {};
    } else {
      IntervalSize(a, b - 1);
      assert Interval(a, b) == Interval(a, b - 1) + {b};
    }
  }
}
