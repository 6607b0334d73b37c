/** Finite sums over an index range, the arithmetic behind every balance equation. */
module Sums {

  /** w(0) + ... + w(n-1). */
  function SumTo(n: nat, w: int -> int): int {
    if n == 0 then 0 else SumTo(n - 1, w) + w(n - 1)
  }

  lemma {:induction false} SumSame(n: nat, w: int -> int, v: int -> int)
    requires forall i :: 0 <= i < n ==> w(i) == v(i)
    ensures SumTo(n, w) == SumTo(n, v)
  {
    if n == 0 {
    } else {
      SumSame(n - 1, w, v);
    }
  }

  /** Changing the weight of one index changes the sum by exactly that difference. */
  lemma {:induction false} SumPoint(n: nat, w: int -> int, v: int -> int, k: nat)
    requires k < n
    requires forall i :: 0 <= i < n && i != k ==> w(i) == v(i)
    ensures SumTo(n, v) == SumTo(n, w) - w(k) + v(k)
  {
    if k == n - 1 {
      SumSame(n - 1, w, v);
    } else {
      SumPoint(n - 1, w, v, k);
    }
  }

  lemma {:induction false} SumCombine(n: nat, w: int -> int, v: int -> int, u: int -> int, a: int, b: int)
    requires forall i :: 0 <= i < n ==> u(i) == a * w(i) + b * v(i)
    ensures SumTo(n, u) == a * SumTo(n, w) + b * SumTo(n, v)
  {
    if n == 0 {
    } else {
      SumCombine(n - 1, w, v, u, a, b);
    }
  }

  lemma {:induction false} SumMonotone(n: nat, w: int -> int, v: int -> int)
    requires forall i :: 0 <= i < n ==> w(i) <= v(i)
    ensures SumTo(n, w) <= SumTo(n, v)
  {
    if n == 0 {
    } else {
      SumMonotone(n - 1, w, v);
    }
  }

  lemma {:induction false} SumNonNegative(n: nat, w: int -> int)
    requires forall i :: 0 <= i < n ==> w(i) >= 0
    ensures SumTo(n, w) >= 0
  {
    if n == 0 {
    } else {
      SumNonNegative(n - 1, w);
    }
  }

  /** A single non-zero index carries the whole sum. */
  lemma {:induction false} SumSingle(n: nat, w: int -> int, k: nat)
    requires k < n
    requires forall i :: 0 <= i < n && i != k ==> w(i) == 0
    ensures SumTo(n, w) == w(k)
  {
    if k == n - 1 {
      SumNone(n - 1, w);
    } else {
      SumSingle(n - 1, w, k);
    }
  }

  lemma {:induction false} SumNone(n: nat, w: int -> int)
    requires forall i :: 0 <= i < n ==> w(i) == 0
    ensures SumTo(n, w) == 0
  {
    if n == 0 {
    } else {
      SumNone(n - 1, w);
    }
  }

  /** The sum over two adjacent ranges. */
  lemma {:induction false} SumAppend(n: nat, m: nat, w: int -> int, u: int -> int, v: int -> int)
    requires forall i :: 0 <= i < n ==> v(i) == w(i)
    requires forall k :: 0 <= k < m ==> v(n + k) == u(k)
    ensures SumTo(n + m, v) == SumTo(n, w) + SumTo(m, u)
  {
    if m == 0 {
      SumSame(n, w, v);
    } else {
      SumAppend(n, m - 1, w, u, v);
      assert v(n + (m - 1)) == u(m - 1);
    }
  }

  /** Further indices of weight zero change nothing. */
  lemma {:induction false} SumGrows(n: nat, m: nat, w: int -> int, v: int -> int)
    requires n <= m
    requires forall i :: 0 <= i < n ==> w(i) == v(i)
    requires forall i :: n <= i < m ==> v(i) == 0
    ensures SumTo(m, v) == SumTo(n, w)
    decreases m - n
  {
    if n == m {
      SumSame(n, w, v);
    } else {
      SumGrows(n, m - 1, w, v);
    }
  }
}
