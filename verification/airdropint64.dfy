/** distributeAirdrop as it runs: in place, in Go's int64 arithmetic
    (services/api/internal/services/airdrop_service.go). */
module AirdropInt64 {
  import opened Sums
  import opened Airdrop

  const TWO_TO_THE_63: int := 0x8000_0000_0000_0000

  predicate Int64(x: int) {
    -TWO_TO_THE_63 <= x < TWO_TO_THE_63
  }

  /** The value an int64 operation leaves when the exact result is x. */
  function Wrap(x: int): (r: int)
    ensures Int64(r) && (Int64(x) ==> r == x)
  {
    (x + TWO_TO_THE_63) % (2 * TWO_TO_THE_63) - TWO_TO_THE_63
  }

  lemma WrapTwice(x: int, y: int)
    ensures Wrap(Wrap(x) + y) == Wrap(x + y)
  {
  }

  /** Go's quotient truncates toward zero. */
  function Quotient(x: int, y: int): int
    requires y != 0
  {
    if x >= 0 then x / y else -(-x / y)
  }

  // ---------- the result, wrap-around included ----------

  function WrappedQuota(amount: int, total: int): Viewer -> Viewer
    requires total != 0
  {
    (v: Viewer) =>
      var w := Wrap(amount * v.seconds);
      v.(share := Wrap(Quotient(w, total)), remainder := Wrap(w - Quotient(w, total) * total))
  }

  function WrappedFloors(s: seq<Viewer>, amount: int, total: int): seq<Viewer>
    requires total != 0
  {
    Map(s, WrappedQuota(amount, total))
  }

  function WrappedLeft(s: seq<Viewer>, amount: int, total: int): int
    requires total != 0
  {
    Wrap(amount - TotalShares(WrappedFloors(s, amount, total)))
  }

  function WrappedBump(s: seq<Viewer>, k: int): (r: seq<Viewer>)
    ensures |r| == |s|
    ensures forall i :: 0 <= i < |s| ==> r[i] == if i < k then s[i].(share := Wrap(s[i].share + 1)) else s[i]
  {
    seq(|s|, i requires 0 <= i < |s| => if i < k then s[i].(share := Wrap(s[i].share + 1)) else s[i])
  }

  /** The last loop runs off the slice. */
  predicate Panics(s: seq<Viewer>, amount: int) {
    && amount > 0 && s != [] && Wrap(TotalSeconds(s)) != 0
    && WrappedLeft(s, amount, Wrap(TotalSeconds(s))) > |s|
  }

  /** What distributeAirdrop leaves in the slice when it does not panic. */
  function DistributeInt64(s: seq<Viewer>, amount: int): seq<Viewer> {
    var total := Wrap(TotalSeconds(s));
    if amount <= 0 || s == [] then s
    else if total == 0 then EqualSplit(s, amount)
    else WrappedBump(Sort(WrappedFloors(s, amount, total)), WrappedLeft(s, amount, total))
  }

  /** The condition under which the arithmetic is exact. */
  predicate FitsInt64(s: seq<Viewer>, amount: int) {
    && NonNegativeSeconds(s) && Int64(amount) && Int64(TotalSeconds(s))
    && forall v :: v in s ==> Int64(amount * v.seconds)
  }

  lemma ExactQuota(s: seq<Viewer>, amount: int, i: nat)
    requires FitsInt64(s, amount) && amount > 0 && TotalSeconds(s) > 0 && i < |s|
    ensures WrappedQuota(amount, TotalSeconds(s))(s[i]) == Quota(amount, TotalSeconds(s))(s[i])
  {
    var v, total := s[i], TotalSeconds(s);
    var w := amount * v.seconds;
    assert v in s;
    MulMonotone(amount, 0, v.seconds);
    QuotaExact(v, amount, total);
    MulMonotone(w / total, 1, total);
    assert total * (w / total) == (w / total) * total;
  }

  lemma ExactFloors(s: seq<Viewer>, amount: int)
    requires FitsInt64(s, amount) && amount > 0 && TotalSeconds(s) > 0
    ensures WrappedFloors(s, amount, TotalSeconds(s)) == Quotas(s, amount)
    ensures WrappedLeft(s, amount, TotalSeconds(s)) == Leftover(s, amount)
  {
    forall i | 0 <= i < |s|
      ensures WrappedQuota(amount, TotalSeconds(s))(s[i]) == Quota(amount, TotalSeconds(s))(s[i])
    {
      ExactQuota(s, amount, i);
    }
    assert WrappedFloors(s, amount, TotalSeconds(s)) == Quotas(s, amount);
    LeftoverBounds(s, amount);
    SharesNonNegative(s, amount);
  }

  lemma SharesNonNegative(s: seq<Viewer>, amount: int)
    requires NonNegativeSeconds(s) && amount > 0 && TotalSeconds(s) > 0
    ensures TotalShares(Quotas(s, amount)) >= 0
    ensures forall v :: v in Quotas(s, amount) ==> 0 <= v.share <= TotalShares(Quotas(s, amount))
  {
    var q := Quotas(s, amount);
    forall k | 0 <= k < |s|
      ensures At(q, Share())(k) >= 0
    {
      assert s[k] in s;
      QuotaExact(s[k], amount, TotalSeconds(s));
    }
    PrefixBound(|s|, |s|, At(q, Share()));
    forall v | v in q
      ensures 0 <= v.share <= TotalShares(q)
    {
      var i :| 0 <= i < |q| && q[i] == v;
      PrefixBound(|s|, i, At(q, Share()));
    }
  }

  /** As long as the total of the seconds and every single product fit, nothing wraps around: the last
      loop stays inside the slice and the result is the exact distribution. */
  lemma ExactWithinInt64(s: seq<Viewer>, amount: int)
    requires FitsInt64(s, amount)
    ensures !Panics(s, amount) && DistributeInt64(s, amount) == Distribute(s, amount)
  {
    PrefixBound(|s|, |s|, At(s, PositiveSeconds()));
    if amount > 0 && s != [] && TotalSeconds(s) > 0 {
      ExactFloors(s, amount);
      LeftoverBounds(s, amount);
      BumpFits(s, amount);
    }
  }

  lemma BumpFits(s: seq<Viewer>, amount: int)
    requires FitsInt64(s, amount) && amount > 0 && TotalSeconds(s) > 0
    ensures WrappedBump(Ranked(s, amount), Leftover(s, amount)) == Bump(Ranked(s, amount), Leftover(s, amount))
  {
    var r, q := Ranked(s, amount), Quotas(s, amount);
    SharesNonNegative(s, amount);
    SortCorrect(q);
    forall i | 0 <= i < |r| && i < Leftover(s, amount)
      ensures Wrap(r[i].share + 1) == r[i].share + 1
    {
      assert r[i] in multiset(r) && r[i] in q;
    }
  }

  /** A product that does not fit: were the remainder still right, the wrapped quotient would be more than
      two short, because both differ from the exact value by multiples of total and of 2^64. */
  lemma WrappedShort(w: int, total: int)
    requires w >= TWO_TO_THE_63 && 0 < total < TWO_TO_THE_63
    ensures var q := Quotient(Wrap(w), total);
            Int64(q) && Int64(Wrap(w) - q * total) && (Wrap(w) - q * total == w % total ==> w / total - q > 2)
  {
    var x := Wrap(w);
    var q, e := Quotient(x, total), w / total;
    QuotientExact(x, total);
    assert w == total * e + w % total;
    var k := (w + TWO_TO_THE_63) / (2 * TWO_TO_THE_63);
    assert w - x == k * (2 * TWO_TO_THE_63) && k >= 1;
    if x - q * total == w % total {
      Distribute3(total, e, q);
      assert q * total == total * q && e * total == total * e;
      assert total * (e - q) >= 2 * TWO_TO_THE_63;
      if e - q <= 2 {
        MulMonotone(total, e - q, 2);
        assert false;
      }
    }
  }

  lemma FloorExact(x: int, total: int)
    requires 0 <= x && 0 < total
    ensures 0 <= x / total <= x && 0 <= x - x / total * total < total
  {
    assert x == total * (x / total) + x % total;
    assert total * (x / total) == x / total * total;
    MulMonotone(x / total, 1, total);
  }

  lemma QuotientExact(x: int, total: int)
    requires Int64(x) && 0 < total
    ensures var q := Quotient(x, total); Int64(q) && -total < x - q * total < total
  {
    if x >= 0 {
      FloorExact(x, total);
    } else {
      FloorExact(-x, total);
      assert Quotient(x, total) * total == -(-x / total * total);
    }
  }

  /** Every row of the wrapped result still shows the wrapped quotient and remainder of its seconds. */
  lemma WrappedRow(s: seq<Viewer>, amount: int, total: int, p: nat)
    requires total != 0 && p < |s|
    ensures var x := Sort(WrappedFloors(s, amount, total))[p]; x == WrappedQuota(amount, total)(x)
  {
    var q := WrappedFloors(s, amount, total);
    SortCorrect(q);
    var x := Sort(q)[p];
    assert x in multiset(q);
    var i :| 0 <= i < |q| && q[i] == x;
    WrappedTwice(s[i], amount, total);
  }

  lemma WrappedTwice(v: Viewer, amount: int, total: int)
    requires total != 0
    ensures var x := WrappedQuota(amount, total)(v); WrappedQuota(amount, total)(x) == x
  {
  }

  lemma RankOf(s: seq<Viewer>, amount: int, i: nat) returns (p: nat)
    requires NonNegativeSeconds(s) && TotalSeconds(s) > 0 && i < |s|
    ensures p < |s| && Ranked(s, amount)[p].seconds == s[i].seconds
    ensures Ranked(s, amount)[p] == Quota(amount, TotalSeconds(s))(Ranked(s, amount)[p])
  {
    var q := Quotas(s, amount);
    SortCorrect(q);
    assert q[i] in multiset(Sort(q));
    p :| 0 <= p < |s| && Sort(q)[p] == q[i];
    RankedFacts(s, amount);
    assert Ranked(s, amount)[p] in Ranked(s, amount);
  }

  /** Two rows for the same overflowing product differ, whether or not they got an extra point. */
  lemma RowsDiffer(exact: Viewer, wrapped: Viewer, amount: int, total: int)
    requires 0 < total < TWO_TO_THE_63 && amount * exact.seconds >= TWO_TO_THE_63
    requires exact == Quota(amount, total)(exact) && wrapped == WrappedQuota(amount, total)(wrapped)
    ensures wrapped.seconds == exact.seconds && wrapped.remainder == exact.remainder ==>
        Wrap(wrapped.share + 1) < exact.share
    ensures wrapped.seconds == exact.seconds && wrapped.remainder == exact.remainder ==> wrapped.share < exact.share
  {
    WrappedShort(amount * exact.seconds, total);
  }

  lemma OverflowDiffers(s: seq<Viewer>, amount: int, i: nat)
    requires NonNegativeSeconds(s) && amount > 0 && 0 < TotalSeconds(s) < TWO_TO_THE_63
    requires i < |s| && !Int64(amount * s[i].seconds)
    ensures DistributeInt64(s, amount) != Distribute(s, amount)
  {
    var total := TotalSeconds(s);
    var p := RankOf(s, amount, i);
    WrappedRow(s, amount, total, p);
    assert s[i] in s;
    MulMonotone(amount, 0, s[i].seconds);
    RowsDiffer(Ranked(s, amount)[p], Sort(WrappedFloors(s, amount, total))[p], amount, total);
    BumpedRows(Ranked(s, amount), Leftover(s, amount), Sort(WrappedFloors(s, amount, total)),
        WrappedLeft(s, amount, total), p);
  }

  lemma BumpedRows(exact: seq<Viewer>, k: int, wrapped: seq<Viewer>, k': int, p: nat)
    requires p < |exact| == |wrapped|
    requires wrapped[p].seconds == exact[p].seconds && wrapped[p].remainder == exact[p].remainder ==>
               Wrap(wrapped[p].share + 1) < exact[p].share && wrapped[p].share < exact[p].share
    ensures WrappedBump(wrapped, k') != Bump(exact, k)
  {
    assert WrappedBump(wrapped, k')[p] != Bump(exact, k)[p];
  }

  /** Main result: as long as the total of the seconds fits, the result in int64 arithmetic is the exact
      distribution if and only if every single product fits (or there is nothing to hand out). */
  lemma ExactCondition(s: seq<Viewer>, amount: int)
    requires NonNegativeSeconds(s) && Int64(amount) && Int64(TotalSeconds(s))
    ensures DistributeInt64(s, amount) == Distribute(s, amount) <==> amount <= 0 || forall v :: v in s ==>
        Int64(amount * v.seconds)
    ensures DistributeInt64(s, amount) == Distribute(s, amount) ==> !Panics(s, amount)
  {
    PrefixBound(|s|, |s|, At(s, PositiveSeconds()));
    if amount > 0 && s != [] {
      if TotalSeconds(s) == 0 {
        forall v | v in s
          ensures amount * v.seconds == 0
        {
          var i :| 0 <= i < |s| && s[i] == v;
          PrefixBound(|s|, i, At(s, PositiveSeconds()));
        }
      } else if v :| v in s && !Int64(amount * v.seconds) {
        var i :| 0 <= i < |s| && s[i] == v;
        OverflowDiffers(s, amount, i);
      } else {
        ExactWithinInt64(s, amount);
      }
    }
  }

  /** A concrete overflow: with 2^61 accumulated seconds a single viewer and 4 points make
      the product wrap around to -2^63, and the last loop runs off the slice. */
  lemma OverflowPanics()
    ensures var s := [Viewer(0, TWO_TO_THE_63 / 4, 0, 0)];
            NonNegativeSeconds(s) && Int64(4) && Int64(TotalSeconds(s)) && !FitsInt64(s, 4) && Panics(s, 4)
  {
    var v := Viewer(0, TWO_TO_THE_63 / 4, 0, 0);
    SumSnoc([], v, PositiveSeconds());
    assert [] + [v] == [v];
    assert v in [v] && 4 * v.seconds == TWO_TO_THE_63;
    var q := WrappedQuota(4, v.seconds)(v);
    assert Wrap(TWO_TO_THE_63) == -TWO_TO_THE_63;
    assert q.share == -4;
    assert WrappedFloors([v], 4, v.seconds) == [] + [q];
    SumSnoc([], q, Share());
  }

  lemma {:induction false} PrefixBound(n: nat, i: nat, w: int -> int)
    requires i <= n && forall k :: 0 <= k < n ==> w(k) >= 0
    ensures 0 <= SumTo(i, w) <= SumTo(n, w)
    ensures i < n ==> w(i) <= SumTo(n, w)
    decreases n - i
  {
    if i < n {
      PrefixBound(n, i + 1, w);
      SumNonNegative(i, w);
    } else {
      SumNonNegative(n, w);
    }
  }

  // ---------- in place ----------

  /** The insertion sort that sort.SliceStable runs on each block, here on the whole slice. */
  method SliceStable(a: array<Viewer>)
    modifies a
    ensures a[..] == Sort(old(a[..]))
  {
    ghost var was := a[..];
    var i := 0;
    assert was[..0] == [];
    while i < a.Length
      invariant 0 <= i <= a.Length
      invariant a[..i] == Sort(was[..i]) && forall k :: i <= k < a.Length ==> a[k] == was[k]
    {
      assert was[..i + 1][..i] == was[..i];
      SiftDown(a, i);
      i := i + 1;
    }
    assert a[..] == a[..i] && was[..i] == was;
  }

  /** Moves a[i] down to its place in the sorted prefix a[..i] by swapping neighbours. */
  method SiftDown(a: array<Viewer>, i: nat)
    requires i < a.Length
    modifies a
    ensures a[..i + 1] == Insert(old(a[..i]), old(a[i]))
    ensures forall k :: i < k < a.Length ==> a[k] == old(a[k])
  {
    ghost var prefix, x := a[..i], a[i];
    var j := i;
    assert prefix[..i] == prefix && prefix[i..] == [];
    while j > 0 && Less(a[j], a[j - 1])
      invariant 0 <= j <= i && a[j] == x
      invariant forall k :: 0 <= k < j ==> a[k] == prefix[k]
      invariant forall k :: j < k <= i ==> a[k] == prefix[k - 1]
      invariant forall k :: i < k < a.Length ==> a[k] == old(a[k])
      invariant Insert(prefix, x) == Insert(prefix[..j], x) + prefix[j..]
    {
      InsertFurther(prefix, x, j);
      a[j], a[j - 1] := a[j - 1], a[j];
      j := j - 1;
    }
    assert a[..i + 1] == prefix[..j] + [x] + prefix[j..];
  }

  /** x goes in before the last of the first j elements. */
  lemma InsertFurther(prefix: seq<Viewer>, x: Viewer, j: nat)
    requires 0 < j <= |prefix| && Less(x, prefix[j - 1])
    requires Insert(prefix, x) == Insert(prefix[..j], x) + prefix[j..]
    ensures Insert(prefix, x) == Insert(prefix[..j - 1], x) + prefix[j - 1..]
  {
    assert prefix[..j][..j - 1] == prefix[..j - 1];
    assert prefix[j - 1..] == [prefix[j - 1]] + prefix[j..];
  }

  /** The running total of the positive seconds. */
  method SumSeconds(viewers: array<Viewer>) returns (total: int)
    ensures total == Wrap(TotalSeconds(viewers[..]))
  {
    total := 0;
    ghost var s := viewers[..];
    for i := 0 to viewers.Length
      invariant total == Wrap(SumTo(i, At(s, PositiveSeconds())))
    {
      WrapTwice(SumTo(i, At(s, PositiveSeconds())), At(s, PositiveSeconds())(i));
      if viewers[i].seconds > 0 {
        total := Wrap(total + viewers[i].seconds);
      }
    }
  }

  /** Floor shares and remainders; what is left of the amount is returned. */
  method FloorShares(viewers: array<Viewer>, amount: int, total: int) returns (remaining: int)
    requires Int64(amount) && total != 0
    modifies viewers
    ensures viewers[..] == WrappedFloors(old(viewers[..]), amount, total)
    ensures remaining == WrappedLeft(old(viewers[..]), amount, total)
  {
    ghost var s := viewers[..];
    ghost var q := WrappedFloors(s, amount, total);
    remaining := amount;
    for i := 0 to viewers.Length
      invariant viewers[i..] == s[i..] && viewers[..i] == q[..i]
      invariant remaining == Wrap(amount - SumTo(i, At(q, Share())))
    {
      assert viewers[i] == s[i];
      var v := viewers[i];
      var weighted := Wrap(amount * v.seconds);
      var share := Wrap(Quotient(weighted, total));
      var rest := Wrap(weighted - Quotient(weighted, total) * total);
      viewers[i] := v.(share := share, remainder := rest);
      WrapTwice(amount - SumTo(i, At(q, Share())), -share);
      remaining := Wrap(remaining - share);
      assert viewers[i + 1..] == s[i + 1..];
      assert viewers[i] == q[i];
    }
    assert viewers[..] == viewers[..viewers.Length] && q == q[..|q|];
  }

  /** One more point for each of the first viewers; running off the slice is a panic. */
  method GiveLeftover(viewers: array<Viewer>, remaining: int) returns (panicked: bool)
    modifies viewers
    ensures panicked <==> remaining > viewers.Length
    ensures !panicked ==> viewers[..] == WrappedBump(old(viewers[..]), remaining)
  {
    var i := 0;
    while i < remaining
      invariant 0 <= i <= viewers.Length && (i <= remaining || i == 0)
      invariant forall k :: 0 <= k < i ==> viewers[k] == old(viewers[k]).(share := Wrap(old(viewers[k]).share + 1))
      invariant forall k :: i <= k < viewers.Length ==> viewers[k] == old(viewers[k])
    {
      if i == viewers.Length {
        return true;
      }
      viewers[i] := viewers[i].(share := Wrap(viewers[i].share + 1));
      i := i + 1;
    }
    return false;
  }

  /** distributeAirdrop. */
  method DistributeAirdrop(viewers: array<Viewer>, amount: int) returns (panicked: bool)
    requires Int64(amount) && viewers.Length < TWO_TO_THE_63
    modifies viewers
    ensures panicked <==> Panics(old(viewers[..]), amount)
    ensures !panicked ==> viewers[..] == DistributeInt64(old(viewers[..]), amount)
  {
    if amount <= 0 || viewers.Length == 0 {
      return false;
    }
    var total := SumSeconds(viewers);
    if total == 0 {
      EvenShares(viewers, amount);
      return false;
    }
    var remaining := FloorShares(viewers, amount, total);
    SliceStable(viewers);
    panicked := GiveLeftover(viewers, remaining);
  }

  /** The even split, for when nobody has accumulated any seconds. */
  method EvenShares(viewers: array<Viewer>, amount: int)
    requires Int64(amount) && amount > 0 && 0 < viewers.Length < TWO_TO_THE_63
    modifies viewers
    ensures viewers[..] == EqualSplit(old(viewers[..]), amount)
  {
    ghost var s := viewers[..];
    var base, rest := amount / viewers.Length, amount % viewers.Length;
    for i := 0 to viewers.Length
      invariant viewers[i..] == s[i..]
      invariant viewers[..i] == EqualSplit(s, amount)[..i]
    {
      assert viewers[i] == s[i];
      viewers[i] := viewers[i].(share := base);
      if i < rest {
        viewers[i] := viewers[i].(share := viewers[i].share + 1);
      }
      assert viewers[i] == EqualSplit(s, amount)[i];
    }
    assert viewers[..] == viewers[..viewers.Length];
  }
}
