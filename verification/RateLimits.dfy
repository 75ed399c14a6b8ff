/**
 * The fixed-window rate limiter (internal/store/rate_limits.go) and the cleanup of its
 * rows (internal/store/accounts.go). Instants count nanoseconds since the zero time.
 */
module RateLimits {
  import opened Prelude

  datatype Counter = Counter(count: int, expiresAt: int)

  /** Rows by key and `window_started_at`. */
  type Rows = map<(string, int), Counter>

  /** `time.Time.Truncate`, which leaves the time alone when the window is not positive. */
  function Truncate(t: int, window: int): int {
    if window <= 0 then t else t - t % window
  }

  /** The insert succeeds, or the conflicting row still has room. */
  predicate Admits(rows: Rows, key: string, maximum: int, window: int, now: int) {
    var row := (key, Truncate(now, window));
    row in rows ==> rows[row].count < maximum
  }

  function Counted(rows: Rows, key: string, maximum: int, window: int, now: int): Rows {
    var row := (key, Truncate(now, window));
    if row !in rows then rows[row := Counter(1, row.1 + window)]
    else if rows[row].count < maximum then rows[row := rows[row].(count := rows[row].count + 1)]
    else rows
  }

  function Cleaned(rows: Rows, now: int): Rows {
    map r | r in rows && rows[r].expiresAt >= now :: rows[r]
  }

  class Limiter {
    var rows: Rows

    method AllowRateLimit(key: string, maximum: int, window: int, now: int)
      returns (expiresAt: int, error: Option<Error>)
      modifies this
      ensures rows == Counted(old(rows), key, maximum, window, now)
      ensures expiresAt == Truncate(now, window) + window
      ensures error == if Admits(old(rows), key, maximum, window, now) then None else Some(RateLimited)
    {
      var windowStart := Truncate(now, window);
      expiresAt := windowStart + window;
      var row := (key, windowStart);
      if row !in rows {
        rows := rows[row := Counter(1, expiresAt)];
        return expiresAt, None;
      }
      if rows[row].count < maximum {
        rows := rows[row := rows[row].(count := rows[row].count + 1)];
        return expiresAt, None;
      }
      return expiresAt, Some(RateLimited);
    }

    /** A counter is kept, unchanged, exactly while it has not expired. */
    method CleanupDatabase(now: int)
      modifies this
      ensures forall r :: r in rows <==> r in old(rows) && now <= old(rows)[r].expiresAt
      ensures forall r :: r in rows ==> rows[r] == old(rows)[r]
      ensures rows == Cleaned(old(rows), now)
    {
      rows := map r | r in rows && rows[r].expiresAt >= now :: rows[r];
    }
  }

  // ----- runs -----

  datatype State = State(now: int, rows: Rows)

  datatype Step =
    | Request(key: string, maximum: int, window: int)
    | Cleanup
    | Tick(to: int)

  function Next(s: State, step: Step): State {
    match step
    case Request(key, maximum, window) => s.(rows := Counted(s.rows, key, maximum, window, s.now))
    case Cleanup => s.(rows := Cleaned(s.rows, s.now))
    case Tick(to) => s.(now := Max(s.now, to))
  }

  function Run(s: State, steps: seq<Step>): State {
    if steps == [] then s else Next(Run(s, steps[..|steps| - 1]), steps[|steps| - 1])
  }

  /** 1 if the step is a request for `key` that is admitted at an instant in `from..to`, `to` excluded. */
  function Hit(s: State, step: Step, key: string, from: int, to: int): nat {
    if step.Request? && step.key == key && from <= s.now < to && Admits(s.rows, key, step.maximum, step.window, s.now)
    then 1 else 0
  }

  /** The number of requests for `key` that the run admits at instants in `from..to`, `to` excluded. */
  function Admitted(s: State, steps: seq<Step>, key: string, from: int, to: int): nat {
    if steps == [] then 0
    else
      Admitted(s, steps[..|steps| - 1], key, from, to)
      + Hit(Run(s, steps[..|steps| - 1]), steps[|steps| - 1], key, from, to)
  }

  /** The callers fix the maximum and the window of a key. */
  predicate Policy(steps: seq<Step>, key: string, maximum: int, window: int) {
    forall i :: 0 <= i < |steps| && steps[i].Request? && steps[i].key == key ==>
      steps[i].maximum == maximum && steps[i].window == window
  }

  // ----- aligned windows -----

  lemma AtLeastOnce(k: int, window: int)
    requires window > 0 && k >= 1
    ensures k * window >= window
  {
    assert k * window == (k - 1) * window + window;
  }

  lemma SmallMultiple(k: int, window: int)
    requires window > 0 && -window < k * window < window
    ensures k == 0
  {
    if k >= 1 {
      AtLeastOnce(k, window);
    }
    assert (-k) * window == -(k * window);
    if k <= -1 {
      AtLeastOnce(-k, window);
    }
  }

  /** Division with remainder is unique. */
  lemma {:induction false} Remainder(t: int, q: int, r: int, window: int)
    requires window > 0 && 0 <= r < window && t == q * window + r
    ensures t % window == r
  {
    var k := t / window;
    assert t == k * window + t % window;
    assert (k - q) * window == k * window - q * window;
    SmallMultiple(k - q, window);
  }

  /** An instant lies in exactly one aligned window. */
  lemma {:induction false} OneWindow(t: int, start: int, window: int)
    requires window > 0 && start % window == 0
    ensures start <= t < start + window <==> Truncate(t, window) == start
  {
    if start <= t < start + window {
      assert start == (start / window) * window;
      Remainder(t, start / window, t - start, window);
    }
  }

  /** The start of a window, and of the one after it, is aligned. */
  lemma {:induction false} Aligned(t: int, window: int)
    requires window > 0
    ensures Truncate(t, window) % window == 0 && (Truncate(t, window) + window) % window == 0
  {
    var start, q := Truncate(t, window), t / window;
    assert start == q * window;
    Remainder(start, q, 0, window);
    assert start + window == (q + 1) * window;
    Remainder(start + window, q + 1, 0, window);
  }

  // ----- the count of a window -----

  predicate Counting(s: State, key: string, start: int, window: int, n: int) {
    if (key, start) in s.rows then s.rows[(key, start)] == Counter(n, start + window) && n >= 1
    else n == 0 || start + window < s.now
  }

  /**
   * The row of an aligned window holds exactly the number of requests admitted in it,
   * and it disappears only after the window is over.
   */
  lemma {:induction false} WindowIsCounted(
    s: State, steps: seq<Step>, key: string, maximum: int, window: int, start: int)
    requires s.rows == map[] && window > 0 && start % window == 0
    requires Policy(steps, key, maximum, window)
    ensures Counting(Run(s, steps), key, start, window, Admitted(s, steps, key, start, start + window))
    ensures Admitted(s, steps, key, start, start + window) <= Max(1, maximum)
  {
    if steps != [] {
      var prefix := steps[..|steps| - 1];
      assert forall i :: 0 <= i < |prefix| ==> prefix[i] == steps[i];
      WindowIsCounted(s, prefix, key, maximum, window, start);
      var before, step := Run(s, prefix), steps[|steps| - 1];
      if step.Request? && step.key == key {
        OneWindow(before.now, start, window);
      }
    }
  }

  /**
   * A request is admitted exactly while fewer than the maximum have been admitted in its
   * window (one request passes even when the maximum is below one), whatever cleanups
   * have run in between.
   */
  lemma AdmittedWhileRoom(s: State, steps: seq<Step>, key: string, maximum: int, window: int)
    requires s.rows == map[] && window > 0 && Policy(steps, key, maximum, window)
    ensures var r := Run(s, steps);
            var start := Truncate(r.now, window);
            Admits(r.rows, key, maximum, window, r.now) <==>
            Admitted(s, steps, key, start, start + window) < Max(1, maximum)
  {
    var now := Run(s, steps).now;
    var start := Truncate(now, window);
    Aligned(now, window);
    OneWindow(now, start, window);
    WindowIsCounted(s, steps, key, maximum, window, start);
  }

  lemma {:induction false} AdmittedSplit(s: State, steps: seq<Step>, key: string, from: int, middle: int, to: int)
    requires from <= middle <= to
    ensures Admitted(s, steps, key, from, to) ==
            Admitted(s, steps, key, from, middle) + Admitted(s, steps, key, middle, to)
  {
    if steps != [] {
      AdmittedSplit(s, steps[..|steps| - 1], key, from, middle, to);
    }
  }

  /** An interval that starts in a window and is as long lies in that window and the next. */
  lemma TwoWindows(s: State, steps: seq<Step>, key: string, window: int, from: int, first: int, bound: int)
    requires first <= from < first + window
    requires Admitted(s, steps, key, first, first + window) <= bound
    requires Admitted(s, steps, key, first + window, first + window + window) <= bound
    ensures Admitted(s, steps, key, from, from + window) <= 2 * bound
  {
    var end := first + window + window;
    AdmittedSplit(s, steps, key, first, from, end);
    AdmittedSplit(s, steps, key, from, from + window, end);
    AdmittedSplit(s, steps, key, first, first + window, end);
  }

  /** Any interval as long as the window, wherever it starts, admits at most twice the maximum. */
  lemma TwiceTheMaximum(s: State, steps: seq<Step>, key: string, maximum: int, window: int, from: int)
    requires s.rows == map[] && window > 0 && Policy(steps, key, maximum, window)
    ensures Admitted(s, steps, key, from, from + window) <= 2 * Max(1, maximum)
  {
    var first := Truncate(from, window);
    Aligned(from, window);
    OneWindow(from, first, window);
    WindowIsCounted(s, steps, key, maximum, window, first);
    WindowIsCounted(s, steps, key, maximum, window, first + window);
    TwoWindows(s, steps, key, window, from, first, Max(1, maximum));
  }

  lemma LastStep(s: State, a: seq<Step>, b: seq<Step>, key: string, from: int, to: int)
    requires b != []
    ensures Run(s, a + b) == Next(Run(s, a + b[..|b| - 1]), b[|b| - 1])
    ensures Admitted(s, a + b, key, from, to) ==
            Admitted(s, a + b[..|b| - 1], key, from, to) + Hit(Run(s, a + b[..|b| - 1]), b[|b| - 1], key, from, to)
  {
    assert (a + b)[|a + b| - 1] == b[|b| - 1] && (a + b)[..|a + b| - 1] == a + b[..|b| - 1];
  }

  /**
   * A cleanup reopens no window: wherever it is put into a run, every later request of
   * the key gets the same answer, and as many are admitted.
   */
  lemma {:induction false} CleanupInvisible(
    s: State, before: seq<Step>, after: seq<Step>, key: string, maximum: int, window: int, from: int, to: int)
    requires s.rows == map[] && window > 0 && Policy(before + after, key, maximum, window)
    ensures var (plain, cleaned) := (Run(s, before + after), Run(s, before + [Cleanup] + after));
            && plain.now == cleaned.now
            && (Admits(plain.rows, key, maximum, window, plain.now) <==>
                Admits(cleaned.rows, key, maximum, window, cleaned.now))
    ensures Admitted(s, before + after, key, from, to) == Admitted(s, before + [Cleanup] + after, key, from, to)
    decreases |after|, 1
  {
    var now := Run(s, before + after).now;
    SameAdmitted(s, before, after, key, maximum, window, from, to);
    var start := Truncate(now, window);
    SameAdmitted(s, before, after, key, maximum, window, start, start + window);
    AdmittedWhileRoom(s, before + after, key, maximum, window);
    PolicyWithCleanup(before, after, key, maximum, window);
    AdmittedWhileRoom(s, before + [Cleanup] + after, key, maximum, window);
  }

  lemma PolicyWithCleanup(before: seq<Step>, after: seq<Step>, key: string, maximum: int, window: int)
    requires Policy(before + after, key, maximum, window)
    ensures Policy(before + [Cleanup] + after, key, maximum, window)
  {
    var steps := before + [Cleanup] + after;
    forall i | 0 <= i < |steps| && steps[i].Request? && steps[i].key == key
      ensures steps[i].maximum == maximum && steps[i].window == window
    {
      assert steps[i] == (before + after)[if i < |before| then i else i - 1];
    }
  }

  lemma CleanupLast(s: State, before: seq<Step>, after: seq<Step>, key: string, from: int, to: int)
    requires after == []
    ensures Run(s, before + after).now == Run(s, before + [Cleanup] + after).now
    ensures Admitted(s, before + after, key, from, to) == Admitted(s, before + [Cleanup] + after, key, from, to)
  {
    assert before + after == before && before + [Cleanup] + after == before + [Cleanup];
    assert (before + [Cleanup])[..|before|] == before;
  }

  lemma {:induction false} SameAdmitted(
    s: State, before: seq<Step>, after: seq<Step>, key: string, maximum: int, window: int, from: int, to: int)
    requires s.rows == map[] && window > 0 && Policy(before + after, key, maximum, window)
    ensures Run(s, before + after).now == Run(s, before + [Cleanup] + after).now
    ensures Admitted(s, before + after, key, from, to) == Admitted(s, before + [Cleanup] + after, key, from, to)
    decreases |after|, 0
  {
    if after == [] {
      CleanupLast(s, before, after, key, from, to);
    } else {
      var front := after[..|after| - 1];
      LastStep(s, before, after, key, from, to);
      LastStep(s, before + [Cleanup], after, key, from, to);
      PolicyOfFront(before, after, key, maximum, window);
      CleanupInvisible(s, before, front, key, maximum, window, from, to);
    }
  }

  lemma PolicyOfFront(before: seq<Step>, after: seq<Step>, key: string, maximum: int, window: int)
    requires after != [] && Policy(before + after, key, maximum, window)
    ensures Policy(before + after[..|after| - 1], key, maximum, window)
    ensures after[|after| - 1].Request? && after[|after| - 1].key == key ==>
              after[|after| - 1].maximum == maximum && after[|after| - 1].window == window
  {
    var front := before + after[..|after| - 1];
    assert forall i :: 0 <= i < |front| ==> front[i] == (before + after)[i];
    assert after[|after| - 1] == (before + after)[|before + after| - 1];
  }

  lemma {:induction false} RunAppend(s: State, a: seq<Step>, b: seq<Step>)
    ensures Run(s, a + b) == Run(Run(s, a), b)
  {
    if b == [] {
      assert a + b == a;
    } else {
      RunAppend(s, a, b[..|b| - 1]);
      LastStep(s, a, b, "", 0, 0);
    }
  }

  lemma {:induction false} AdmittedAppend(s: State, a: seq<Step>, b: seq<Step>, key: string, from: int, to: int)
    ensures Admitted(s, a + b, key, from, to) == Admitted(s, a, key, from, to) + Admitted(Run(s, a), b, key, from, to)
  {
    if b == [] {
      assert a + b == a;
    } else {
      AdmittedAppend(s, a, b[..|b| - 1], key, from, to);
      RunAppend(s, a, b[..|b| - 1]);
      LastStep(s, a, b, key, from, to);
    }
  }

  /** The same request again and again. */
  predicate Burst(steps: seq<Step>, key: string, maximum: nat, window: int) {
    forall i :: 0 <= i < |steps| ==> steps[i] == Request(key, maximum, window)
  }

  /** The counter of a window that has taken `n` requests; other rows stay as in `s`. */
  ghost predicate Holding(s: State, r: State, row: (string, int), n: nat) {
    && r.now == s.now
    && (if n == 0 then row !in r.rows else row in r.rows && r.rows[row].count == n)
    && (forall other :: other != row ==> (other in r.rows <==> other in s.rows))
  }

  lemma OneMore(s: State, r: State, step: Step, row: (string, int), n: nat)
    requires step.Request? && row == (step.key, Truncate(r.now, step.window))
    requires n < step.maximum && Holding(s, r, row, n)
    ensures Holding(s, Next(r, step), row, n + 1)
    ensures Admits(r.rows, step.key, step.maximum, step.window, r.now)
  {
  }

  /** A burst fills a fresh window up to the maximum. */
  lemma {:induction false} BurstFills(
    s: State, steps: seq<Step>, key: string, maximum: nat, window: int, from: int, to: int)
    requires Burst(steps, key, maximum, window) && |steps| <= maximum && from <= s.now < to
    requires (key, Truncate(s.now, window)) !in s.rows
    ensures Admitted(s, steps, key, from, to) == |steps|
    ensures Holding(s, Run(s, steps), (key, Truncate(s.now, window)), |steps|)
  {
    if steps != [] {
      var front, n := steps[..|steps| - 1], |steps| - 1;
      BurstFills(s, front, key, maximum, window, from, to);
      OneMore(s, Run(s, front), steps[n], (key, Truncate(s.now, window)), n);
    }
  }

  /** A burst at instant `t` in a window without a row. */
  lemma BurstAt(s: State, t: int, burst: seq<Step>, key: string, maximum: nat, window: int, from: int, to: int)
    requires Burst(burst, key, maximum, window) && |burst| == maximum
    requires s.now <= t && from <= t < to && (key, Truncate(t, window)) !in s.rows
    ensures Admitted(s, [Tick(t)] + burst, key, from, to) == maximum
    ensures Holding(State(t, s.rows), Run(s, [Tick(t)] + burst), (key, Truncate(t, window)), maximum)
  {
    assert [Tick(t)][..0] == [];
    assert Run(s, [Tick(t)]) == State(t, s.rows);
    RunAppend(s, [Tick(t)], burst);
    AdmittedAppend(s, [Tick(t)], burst, key, from, to);
    BurstFills(State(t, s.rows), burst, key, maximum, window, from, to);
  }

  /** The bound is reached: two bursts around a window boundary admit twice the maximum within two instants. */
  lemma TwiceIsReached(key: string, maximum: nat, window: int)
    requires window >= 2
    ensures var burst := seq(maximum, _ => Request(key, maximum, window));
            var steps := [Tick(window - 1)] + burst + ([Tick(window)] + burst);
            Admitted(State(0, map[]), steps, key, window - 1, window + 1) == 2 * maximum
  {
    var s, from, to := State(0, map[]), window - 1, window + 1;
    var burst := seq(maximum, _ => Request(key, maximum, window));
    OneWindow(window - 1, 0, window);
    OneWindow(window, window, window);
    BurstAt(s, window - 1, burst, key, maximum, window, from, to);
    BurstAt(Run(s, [Tick(window - 1)] + burst), window, burst, key, maximum, window, from, to);
    AdmittedAppend(s, [Tick(window - 1)] + burst, [Tick(window)] + burst, key, from, to);
  }
}
