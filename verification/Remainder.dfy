/** Facts about remainders that ring counters rest on. */
module Remainder {
  const WRAP: nat := 0x1_0000_0000    // one more than the largest uint

  lemma ModOf(q: nat, r: nat, n: nat)
    requires r < n
    ensures (n * q + r) % n == r
  {
    var x := n * q + r;
    var d := x / n - q;
    assert x % n == r - n * d;
    if d > 0 {
      MulAtLeast(n, d);
    } else if d < 0 {
      MulAtLeast(n, -d);
    }
  }

  lemma MulAtLeast(n: nat, d: nat)
    requires d > 0
    ensures n * d >= n
  {
  }

  /** Counting up by one and wrapping at n. */
  lemma ModNext(t: nat, n: nat)
    requires n > 0
    ensures (t + 1) % n == if t % n + 1 == n then 0 else t % n + 1
  {
    var q, r := t / n, t % n;
    if r + 1 == n {
      assert t + 1 == n * (q + 1);
      ModOf(q + 1, 0, n);
    } else {
      assert t + 1 == n * q + (r + 1);
      ModOf(q, r + 1, n);
    }
  }

  /** Numbers less than n apart have different remainders. */
  lemma ModDistinct(a: nat, b: nat, n: nat)
    requires a <= b < a + n && a % n == b % n
    ensures a == b
  {
    var d := b / n - a / n;
    assert b - a == n * d;
    if d > 0 {
      MulAtLeast(n, d);
    }
  }
}
