/** Division facts the solver does not find by itself, each proved once and used everywhere. */
module Arithmetic {

  lemma MulAtLeast(a: int, n: int)
    requires a >= 1 && n >= 0
    ensures a * n >= n
  {
    assert a * n == (a - 1) * n + n;
  }

  /** Quotient and remainder are unique. */
  lemma DivModUnique(x: int, n: int, q: int, r: int)
    requires n > 0 && 0 <= r < n && x == q * n + r
    ensures x / n == q && x % n == r
  {
    var d := x / n - q;
    assert x == (x / n) * n + x % n;
    assert d * n == r - x % n;
    if d >= 1 {
      MulAtLeast(d, n);
    } else if d <= -1 {
      MulAtLeast(-d, n);
    }
  }

  lemma ModShift(x: int, turns: int, n: int)
    requires n > 0
    ensures (x + n * turns) % n == x % n
    ensures (x + n * turns) / n == x / n + turns
  {
    assert x + n * turns == (x / n + turns) * n + x % n;
    DivModUnique(x + n * turns, n, x / n + turns, x % n);
  }

  /** Cyclic positions compose: stepping from where an earlier window ended continues its stream. */
  lemma CyclicContinues(done: nat, more: nat, n: nat)
    requires n > 0
    ensures (done % n + more) % n == (done + more) % n
  {
    assert done + more == (done % n + more) + n * (done / n);
    ModShift(done % n + more, done / n, n);
  }
}
