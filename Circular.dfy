/** Arithmetic on ring positions: reduction modulo the ring size. */
module Circular {

  lemma {:induction false} MulAtLeast(n: int, d: int)
    requires n > 0 && d >= 1
    ensures n * d >= n
  {
    if d > 1 {
      MulAtLeast(n, d - 1);
      assert n * d == n * (d - 1) + n;
    }
  }

  /** Euclidean division has one remainder. */
  lemma ModUnique(x: int, n: int, q: int, r: int)
    requires n > 0 && 0 <= r < n && x == q * n + r
    ensures x % n == r
  {
    var q', r' := x / n, x % n;
    assert x == q' * n + r';
    var d := q - q';
    assert d * n == r' - r;
    if d >= 1 {
      MulAtLeast(n, d);
      assert false;
    }
    if d <= -1 {
      MulAtLeast(n, -d);
      assert false;
    }
  }

  /** Reduction of a value below `2 * n`. */
  lemma ModInRange(x: int, n: int)
    requires 0 <= x < 2 * n
    ensures x % n == if x < n then x else x - n
  {
    if x < n {
      ModUnique(x, n, 0, x);
    } else {
      ModUnique(x, n, 1, x - n);
    }
  }

  /** Stepping one position on from a reduced position is stepping on and then reducing. */
  lemma ModSucc(x: int, n: int)
    requires 0 <= x && 0 < n
    ensures (x % n + 1) % n == (x + 1) % n
  {
    var q := x / n;
    if x % n + 1 < n {
      ModUnique(x + 1, n, q, x % n + 1);
      ModUnique(x % n + 1, n, 0, x % n + 1);
    } else {
      ModUnique(x + 1, n, q + 1, 0);
      ModUnique(x % n + 1, n, 1, 0);
    }
  }

  /** The position after `p` in a ring of `n` positions. */
  function NextPos(p: nat, n: nat): (q: nat)
    requires p < n
    ensures q < n
  {
    if p + 1 == n then 0 else p + 1
  }

  /** The position `k` steps after `p` in a ring of `n` positions. */
  function Advance(p: nat, k: nat, n: nat): (q: nat)
    requires p < n
    ensures q < n
  {
    if k == 0 then p else NextPos(Advance(p, k - 1, n), n)
  }

  lemma NextPosIsMod(p: nat, n: nat)
    requires p < n
    ensures NextPos(p, n) == (p + 1) % n
  {
    ModInRange(p + 1, n);
  }

  /** Stepping `k` times round the ring is adding `k` modulo the ring size. */
  lemma {:induction false} AdvanceIsMod(p: nat, k: nat, n: nat)
    requires p < n
    ensures Advance(p, k, n) == (p + k) % n
  {
    if k == 0 {
      ModInRange(p, n);
    } else {
      AdvanceIsMod(p, k - 1, n);
      NextPosIsMod(Advance(p, k - 1, n), n);
      ModSucc(p + k - 1, n);
    }
  }

  /** Within one round, stepping on wraps round at most once. */
  lemma {:induction false} AdvanceWithinRound(p: nat, k: nat, n: nat)
    requires p < n && k <= n
    ensures Advance(p, k, n) == if p + k < n then p + k else p + k - n
  {
    if k > 0 {
      AdvanceWithinRound(p, k - 1, n);
    }
  }
}
