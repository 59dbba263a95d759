/** Device-clock arithmetic without a year (cli/src/crashscan.rs), in milliseconds. */
module CrashClock {

  const SECOND := 1_000
  const DAY := 86_400_000
  const YEAR := 366 * DAY
  const HALF := YEAR / 2
  const FUTURE_SKEW := 120 * SECOND

  function AgeOf(now: int, line: int): int {
    var diff := now - line;
    if diff >= 0 then diff else if -diff <= FUTURE_SKEW then 0 else diff % YEAR
  }

  predicate NewerThan(line: int, cursor: int) {
    0 < (line - cursor) % YEAR < HALF
  }

  /** Shifting by whole years does not change a clock reading. */
  lemma {:induction false} WholeYears(x: int, k: int)
    ensures (x + k * YEAR) % YEAR == x % YEAR
    decreases if k < 0 then -k else k
  {
    if k > 0 {
      WholeYears(x, k - 1);
      assert (x + k * YEAR) == (x + (k - 1) * YEAR) + YEAR;
    } else if k < 0 {
      WholeYears(x, k + 1);
      assert (x + k * YEAR) == (x + (k + 1) * YEAR) - YEAR;
    }
  }

  /** Clock readings differ as the instants do, up to whole years. */
  lemma WrappedDifference(u: int, v: int, slack: int)
    ensures (u % YEAR - (v % YEAR - slack)) % YEAR == (u - v + slack) % YEAR
  {
    assert u == u / YEAR * YEAR + u % YEAR;
    assert v == v / YEAR * YEAR + v % YEAR;
    WholeYears(u % YEAR - v % YEAR + slack, u / YEAR - v / YEAR);
  }

  /** On clock readings under half a year apart, "newer" is "later". */
  lemma NewerIsLater(u: int, v: int, slack: int)
    requires -HALF <= u - (v - slack) < HALF
    ensures NewerThan(u % YEAR, v % YEAR - slack) <==> u > v - slack
  {
    WrappedDifference(u, v, slack);
    if u - v + slack < 0 {
      WholeYears(u - v + slack, 1);
    }
  }

  lemma NewerIsAsymmetric(a: int, b: int)
    requires NewerThan(a, b)
    ensures !NewerThan(b, a)
  {
    var f := (a - b) % YEAR;
    assert a - b == (a - b) / YEAR * YEAR + f;
    WholeYears(YEAR - f, -((a - b) / YEAR) - 1);
    assert b - a == YEAR - f + (-((a - b) / YEAR) - 1) * YEAR;
  }

  /** The age of a line under a year old is right exactly when no New Year lies
      between, or the age stays two minutes short of a year; otherwise it is
      reported as no age at all. */
  lemma AgeIsTrueIff(now: int, line: int)
    requires 0 <= now - line < YEAR
    ensures AgeOf(now % YEAR, line % YEAR) == now - line
      <==> line % YEAR <= now % YEAR || now - line < YEAR - 120_000
    ensures AgeOf(now % YEAR, line % YEAR) != now - line ==> AgeOf(now % YEAR, line % YEAR) == 0
  {
    WrappedDifference(now, line, 0);
    var diff := now % YEAR - line % YEAR;
    assert (now - line) % YEAR == now - line;
    if diff < 0 {
      WholeYears(diff, 1);
    }
  }
}
