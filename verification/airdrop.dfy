/** The largest-remainder split of an airdrop among the active viewers of a channel
    (services/api/internal/services/airdrop_service.go). */
module Airdrop {
  import opened Sums

  /** A row of the viewer slice. A canonical UUID string is fixed-width lower-case hexadecimal,
      so comparing the strings is comparing the 128-bit numbers kept here. */
  datatype Viewer = Viewer(user: nat, seconds: int, share: int, remainder: int)

  /** The comparison handed to sort.SliceStable. */
  predicate Less(x: Viewer, y: Viewer) {
    if x.remainder == y.remainder then
      if x.seconds == y.seconds then x.user < y.user else x.seconds > y.seconds
    else x.remainder > y.remainder
  }

  // ---------- the split as a function ----------

  function Insert(s: seq<Viewer>, x: Viewer): (r: seq<Viewer>)
    ensures |r| == |s| + 1
  {
    if s == [] || !Less(x, s[|s| - 1]) then s + [x]
    else Insert(s[..|s| - 1], x) + [s[|s| - 1]]
  }

  function Sort(s: seq<Viewer>): (r: seq<Viewer>)
    ensures |r| == |s|
  {
    if s == [] then [] else Insert(Sort(s[..|s| - 1]), s[|s| - 1])
  }

  function At(s: seq<Viewer>, f: Viewer -> int): int -> int {
    i => if 0 <= i < |s| then f(s[i]) else 0
  }

  function SumOf(s: seq<Viewer>, f: Viewer -> int): int {
    SumTo(|s|, At(s, f))
  }

  function PositiveSeconds(): Viewer -> int {
    (v: Viewer) => if v.seconds > 0 then v.seconds else 0
  }

  function Share(): Viewer -> int {
    (v: Viewer) => v.share
  }

  function Remainder(): Viewer -> int {
    (v: Viewer) => v.remainder
  }

  function HasRemainder(): Viewer -> int {
    (v: Viewer) => if v.remainder > 0 then 1 else 0
  }

  function TotalSeconds(s: seq<Viewer>): int {
    SumOf(s, PositiveSeconds())
  }

  function TotalShares(s: seq<Viewer>): int {
    SumOf(s, Share())
  }

  function Map(s: seq<Viewer>, f: Viewer -> Viewer): (r: seq<Viewer>)
    ensures |r| == |s| && forall i :: 0 <= i < |s| ==> r[i] == f(s[i])
  {
    seq(|s|, i requires 0 <= i < |s| => f(s[i]))
  }

  function Quota(amount: int, total: int): Viewer -> Viewer
    requires total > 0
  {
    (v: Viewer) => v.(share := amount * v.seconds / total, remainder := amount * v.seconds % total)
  }

  function Quotas(s: seq<Viewer>, amount: int): seq<Viewer>
    requires TotalSeconds(s) > 0
  {
    Map(s, Quota(amount, TotalSeconds(s)))
  }

  /** One extra point for each of the first k viewers. */
  function Bump(s: seq<Viewer>, k: int): (r: seq<Viewer>)
    ensures |r| == |s|
    ensures forall i :: 0 <= i < |s| ==> r[i] == s[i].(share := s[i].share + if i < k then 1 else 0)
  {
    seq(|s|, i requires 0 <= i < |s| => s[i].(share := s[i].share + if i < k then 1 else 0))
  }

  function EqualSplit(s: seq<Viewer>, amount: int): (r: seq<Viewer>)
    requires s != []
    ensures |r| == |s|
    ensures forall i :: 0 <= i < |s| ==> r[i] == s[i].(share := amount / |s| + if i < amount % |s| then 1 else 0)
  {
    seq(|s|, i requires 0 <= i < |s| => s[i].(share := amount / |s| + if i < amount % |s| then 1 else 0))
  }

  function Leftover(s: seq<Viewer>, amount: int): int
    requires TotalSeconds(s) > 0
  {
    amount - TotalShares(Quotas(s, amount))
  }

  predicate NonNegativeSeconds(s: seq<Viewer>) {
    forall v :: v in s ==> v.seconds >= 0
  }

  /** What distributeAirdrop leaves in the slice when no int64 operation wraps around. */
  function Distribute(s: seq<Viewer>, amount: int): seq<Viewer> {
    if amount <= 0 || s == [] then s
    else if TotalSeconds(s) <= 0 then EqualSplit(s, amount)
    else Bump(Sort(Quotas(s, amount)), Leftover(s, amount))
  }

  // ---------- sorting ----------

  predicate Sorted(s: seq<Viewer>) {
    forall i, j :: 0 <= i < j < |s| ==> !Less(s[j], s[i])
  }

  lemma {:induction false} InsertMultiset(s: seq<Viewer>, x: Viewer)
    ensures multiset(Insert(s, x)) == multiset(s) + multiset{x}
  {
    if s == [] || !Less(x, s[|s| - 1]) {
    } else {
      InsertMultiset(s[..|s| - 1], x);
      assert s == s[..|s| - 1] + [s[|s| - 1]];
    }
  }

  lemma {:induction false} InsertSorted(s: seq<Viewer>, x: Viewer)
    requires Sorted(s)
    ensures Sorted(Insert(s, x))
  {
    if s == [] || !Less(x, s[|s| - 1]) {
    } else {
      var init, last := s[..|s| - 1], s[|s| - 1];
      InsertSorted(init, x);
      InsertMultiset(init, x);
      forall y | y in Insert(init, x)
        ensures !Less(last, y)
      {
        assert y in multiset(init) + multiset{x};
      }
      var r := Insert(init, x);
      assert forall i :: 0 <= i < |r| ==> r[i] in r;
    }
  }

  lemma {:induction false} SortCorrect(s: seq<Viewer>)
    ensures Sorted(Sort(s)) && multiset(Sort(s)) == multiset(s)
  {
    if s == [] {
    } else {
      var init, last := s[..|s| - 1], s[|s| - 1];
      SortCorrect(init);
      InsertSorted(Sort(init), last);
      InsertMultiset(Sort(init), last);
      assert s == init + [last];
    }
  }

  /** Viewers with the same key are the same viewer; then a sorted arrangement is unique. */
  predicate KeyDetermines(s: seq<Viewer>) {
    forall x, y :: x in s && y in s && !Less(x, y) && !Less(y, x) ==> x == y
  }

  lemma SortedHead(a: seq<Viewer>, x: Viewer)
    requires Sorted(a) && a != [] && x in multiset(a)
    ensures x == a[0] || !Less(x, a[0])
  {
    var i :| 0 <= i < |a| && a[i] == x;
  }

  lemma TailMultiset(a: seq<Viewer>)
    requires a != []
    ensures multiset(a[1..]) == multiset(a) - multiset{a[0]}
  {
    assert a == [a[0]] + a[1..];
  }

  lemma {:induction false} SortedUnique(a: seq<Viewer>, b: seq<Viewer>)
    requires Sorted(a) && Sorted(b) && multiset(a) == multiset(b) && KeyDetermines(a)
    ensures a == b
  {
    assert |multiset(a)| == |a| && |multiset(b)| == |b|;
    if a == [] {
    } else {
      assert a[0] in multiset(a) && b[0] in multiset(b);
      SortedHead(a, b[0]);
      SortedHead(b, a[0]);
      TailMultiset(a);
      TailMultiset(b);
      assert KeyDetermines(a[1..]) by {
        assert forall x :: x in a[1..] ==> x in a;
      }
      SortedUnique(a[1..], b[1..]);
    }
  }

  lemma SumSnoc(s: seq<Viewer>, x: Viewer, f: Viewer -> int)
    ensures SumOf(s + [x], f) == SumOf(s, f) + f(x)
  {
    SumSame(|s|, At(s, f), At(s + [x], f));
  }

  lemma {:induction false} InsertSum(s: seq<Viewer>, x: Viewer, f: Viewer -> int)
    ensures SumOf(Insert(s, x), f) == SumOf(s, f) + f(x)
  {
    if s == [] || !Less(x, s[|s| - 1]) {
      SumSnoc(s, x, f);
    } else {
      var init, last := s[..|s| - 1], s[|s| - 1];
      InsertSum(init, x, f);
      SumSnoc(Insert(init, x), last, f);
      SumSnoc(init, last, f);
      assert s == init + [last];
    }
  }

  lemma {:induction false} SortSum(s: seq<Viewer>, f: Viewer -> int)
    ensures SumOf(Sort(s), f) == SumOf(s, f)
  {
    if s == [] {
    } else {
      var init, last := s[..|s| - 1], s[|s| - 1];
      SortSum(init, f);
      InsertSum(Sort(init), last, f);
      SumSnoc(init, last, f);
      assert s == init + [last];
    }
  }

  lemma MapSnoc(s: seq<Viewer>, x: Viewer, f: Viewer -> Viewer)
    ensures multiset(Map(s + [x], f)) == multiset(Map(s, f)) + multiset{f(x)}
  {
    assert Map(s + [x], f) == Map(s, f) + [f(x)];
  }

  lemma {:induction false} InsertMap(s: seq<Viewer>, x: Viewer, f: Viewer -> Viewer)
    ensures multiset(Map(Insert(s, x), f)) == multiset(Map(s, f)) + multiset{f(x)}
  {
    if s == [] || !Less(x, s[|s| - 1]) {
      MapSnoc(s, x, f);
    } else {
      var init, last := s[..|s| - 1], s[|s| - 1];
      InsertMap(init, x, f);
      MapSnoc(Insert(init, x), last, f);
      MapSnoc(init, last, f);
      assert s == init + [last];
    }
  }

  lemma {:induction false} SortMap(s: seq<Viewer>, f: Viewer -> Viewer)
    ensures multiset(Map(Sort(s), f)) == multiset(Map(s, f))
  {
    if s == [] {
    } else {
      var init, last := s[..|s| - 1], s[|s| - 1];
      SortMap(init, f);
      InsertMap(Sort(init), last, f);
      MapSnoc(init, last, f);
      assert s == init + [last];
    }
  }

  // ---------- quotas and the leftover ----------

  lemma QuotaExact(v: Viewer, amount: int, total: int)
    requires total > 0
    ensures var q := Quota(amount, total)(v);
            && total * q.share + q.remainder == amount * v.seconds
            && 0 <= q.remainder < total
            && (amount >= 0 && v.seconds >= 0 ==> q.share >= 0)
  {
    var w := amount * v.seconds;
    assert w == total * (w / total) + w % total;
    if amount >= 0 && v.seconds >= 0 {
      assert w >= 0;
    }
  }

  function Weighted(amount: int): Viewer -> int {
    (v: Viewer) => amount * v.seconds
  }

  lemma WeightedSum(s: seq<Viewer>, amount: int)
    requires NonNegativeSeconds(s)
    ensures SumOf(s, Weighted(amount)) == amount * TotalSeconds(s)
  {
    forall i | 0 <= i < |s|
      ensures At(s, Weighted(amount))(i) == amount * At(s, PositiveSeconds())(i) + 0 * At(s, Share())(i)
    {
      assert s[i] in s;
      assert At(s, PositiveSeconds())(i) == s[i].seconds;
    }
    SumCombine(|s|, At(s, PositiveSeconds()), At(s, Share()), At(s, Weighted(amount)), amount, 0);
  }

  /** The undistributed points are the quota remainders, in units of the total. */
  lemma LeftoverExact(s: seq<Viewer>, amount: int)
    requires NonNegativeSeconds(s) && TotalSeconds(s) > 0
    ensures TotalSeconds(s) * Leftover(s, amount) == SumOf(Quotas(s, amount), Remainder())
  {
    var total := TotalSeconds(s);
    var q := Quotas(s, amount);
    forall i | 0 <= i < |s|
      ensures At(s, Weighted(amount))(i) == total * At(q, Share())(i) + 1 * At(q, Remainder())(i)
    {
      QuotaExact(s[i], amount, total);
      assert q[i] == Quota(amount, total)(s[i]);
    }
    SumCombine(|s|, At(q, Share()), At(q, Remainder()), At(s, Weighted(amount)), total, 1);
    WeightedSum(s, amount);
    Distribute3(total, amount, TotalShares(q));
  }

  lemma Distribute3(t: int, x: int, y: int)
    ensures t * (x - y) == x * t - t * y
  {
  }

  lemma MulMonotone(t: int, x: int, y: int)
    requires t >= 0 && x <= y
    ensures t * x <= t * y
  {
  }

  lemma MulLess(t: int, x: int, m: int)
    requires t > 0 && 0 <= t * x <= (t - 1) * m && m >= 0
    ensures 0 <= x <= m && (m > 0 ==> x < m)
  {
    Distribute3(m, t, 1);
    if x < 0 {
      MulMonotone(t, x, -1);
      assert false;
    }
    if x >= m && m > 0 {
      MulMonotone(t, m, x);
      assert false;
    }
    if m == 0 && x > 0 {
      MulMonotone(t, 1, x);
      assert false;
    }
  }

  /** The final loop stays inside the slice: fewer points are left over than there are viewers
      with a non-zero remainder (and none is left over when there is no such viewer). */
  lemma LeftoverBounds(s: seq<Viewer>, amount: int)
    requires NonNegativeSeconds(s) && TotalSeconds(s) > 0
    ensures var uneven := SumOf(Quotas(s, amount), HasRemainder());
            && 0 <= Leftover(s, amount) <= uneven <= |s|
            && Leftover(s, amount) < |s|
            && (uneven > 0 ==> Leftover(s, amount) < uneven)
  {
    var total := TotalSeconds(s);
    var q := Quotas(s, amount);
    LeftoverExact(s, amount);
    forall i | 0 <= i < |s|
      ensures 0 <= At(q, Remainder())(i) <= (total - 1) * At(q, HasRemainder())(i)
      ensures 0 <= At(q, HasRemainder())(i) <= 1
    {
      QuotaExact(s[i], amount, total);
      assert q[i] == Quota(amount, total)(s[i]);
      assert (total - 1) * 1 == total - 1;
      assert (total - 1) * 0 == 0;
    }
    SumNonNegative(|s|, At(q, Remainder()));
    SumNonNegative(|s|, At(q, HasRemainder()));
    var bound := i => (total - 1) * At(q, HasRemainder())(i);
    SumMonotone(|s|, At(q, Remainder()), bound);
    SumCombine(|s|, At(q, HasRemainder()), At(q, Remainder()), bound, total - 1, 0);
    SumOnes(|s|);
    SumMonotone(|s|, At(q, HasRemainder()), One());
    MulLess(total, Leftover(s, amount), SumOf(q, HasRemainder()));
  }

  function One(): int -> int {
    i => 1
  }

  lemma {:induction false} SumOnes(n: nat)
    ensures SumTo(n, One()) == n
  {
    if n == 0 {
    } else {
      SumOnes(n - 1);
    }
  }

  lemma {:induction false} CountPrefix(n: nat, w: int -> int, k: nat)
    requires k <= n
    requires forall i :: 0 <= i < n ==> w(i) <= 1
    requires forall i :: k <= i < n ==> w(i) == 0
    ensures SumTo(n, w) <= k
  {
    if n == 0 {
    } else {
      CountPrefix(n - 1, w, if k == n then n - 1 else k);
    }
  }

  /** The slice between the sort and the final loop. */
  function Ranked(s: seq<Viewer>, amount: int): (r: seq<Viewer>)
    requires TotalSeconds(s) > 0
    ensures |r| == |s|
  {
    Sort(Quotas(s, amount))
  }

  lemma RankedFacts(s: seq<Viewer>, amount: int)
    requires TotalSeconds(s) > 0 && NonNegativeSeconds(s)
    ensures Sorted(Ranked(s, amount))
    ensures forall v :: v in Ranked(s, amount) ==> v == Quota(amount, TotalSeconds(s))(v) && v.seconds >= 0
  {
    var q := Quotas(s, amount);
    SortCorrect(q);
    forall v | v in Sort(q)
      ensures v == Quota(amount, TotalSeconds(s))(v) && v.seconds >= 0
    {
      assert v in multiset(q);
      var i :| 0 <= i < |q| && q[i] == v;
      assert s[i] in s;
    }
  }

  lemma SortedZeroTail(r: seq<Viewer>, k: nat)
    requires Sorted(r) && k < |r| && r[k].remainder <= 0
    ensures SumOf(r, HasRemainder()) <= k
  {
    forall i | k <= i < |r|
      ensures At(r, HasRemainder())(i) == 0
    {
      assert i > k ==> !Less(r[i], r[k]);
    }
    CountPrefix(|r|, At(r, HasRemainder()), k);
  }

  /** Every viewer who gets an extra point had a non-zero remainder. */
  lemma ExtraOnlyForRemainder(s: seq<Viewer>, amount: int, k: nat)
    requires TotalSeconds(s) > 0 && NonNegativeSeconds(s) && k < Leftover(s, amount)
    ensures k < |s| && Ranked(s, amount)[k].remainder > 0
  {
    var q := Quotas(s, amount);
    LeftoverBounds(s, amount);
    SortSum(q, HasRemainder());
    SortCorrect(q);
    if Sort(q)[k].remainder <= 0 {
      SortedZeroTail(Sort(q), k);
      assert false;
    }
  }

  // ---------- the promises of the split ----------

  /** Main result: the shares add up to the amount, every share is the floor or the ceiling of the
      exact quota, a viewer without seconds gets nothing, and the viewers are only rearranged. */
  lemma Apportionment(s: seq<Viewer>, amount: int)
    requires amount > 0 && NonNegativeSeconds(s) && TotalSeconds(s) > 0
    ensures var d, total := Distribute(s, amount), TotalSeconds(s);
            && |d| == |s| && TotalShares(d) == amount
            && multiset(Map(d, Unallocated())) == multiset(Map(s, Unallocated()))
            && forall v :: v in d ==>
                 && amount * v.seconds - total < total * v.share < amount * v.seconds + total
                 && v.share >= 0 && (v.seconds == 0 ==> v.share == 0)
  {
    var d, r, total, extra := Distribute(s, amount), Ranked(s, amount), TotalSeconds(s), Leftover(s, amount);
    SumOnes(0);
    LeftoverBounds(s, amount);
    SharesAddUp(s, amount);
    SortMap(Quotas(s, amount), Unallocated());
    assert Map(d, Unallocated()) == Map(r, Unallocated());
    assert Map(Quotas(s, amount), Unallocated()) == Map(s, Unallocated());
    forall v | v in d
      ensures amount * v.seconds - total < total * v.share < amount * v.seconds + total
      ensures v.share >= 0 && (v.seconds == 0 ==> v.share == 0)
    {
      var i :| 0 <= i < |d| && d[i] == v;
      ShareBounds(s, amount, i);
    }
  }

  /** The viewer as loaded from the watch sessions, before any allocation. */
  function Unallocated(): Viewer -> Viewer {
    (v: Viewer) => v.(share := 0, remainder := 0)
  }

  lemma ShareBounds(s: seq<Viewer>, amount: int, i: nat)
    requires amount > 0 && NonNegativeSeconds(s) && TotalSeconds(s) > 0 && i < |s|
    ensures var v, total := Distribute(s, amount)[i], TotalSeconds(s);
            && amount * v.seconds - total < total * v.share < amount * v.seconds + total
            && v.share >= 0 && (v.seconds == 0 ==> v.share == 0)
  {
    var r, total := Ranked(s, amount)[i], TotalSeconds(s);
    RankedFacts(s, amount);
    assert r in Ranked(s, amount);
    QuotaExact(r, amount, total);
    assert total * (r.share + 1) == total * r.share + total;
    assert r.seconds == 0 ==> amount * r.seconds == 0;
    assert r.seconds == 0 ==> r.share == 0 && r.remainder == 0;
    if i < Leftover(s, amount) {
      ExtraOnlyForRemainder(s, amount, i);
    }
  }

  lemma {:induction false} BumpSum(s: seq<Viewer>, k: int)
    requires 0 <= k <= |s|
    ensures TotalShares(Bump(s, k)) == TotalShares(s) + k
  {
    if s == [] {
    } else {
      var init, last := s[..|s| - 1], s[|s| - 1];
      var k' := if k == |s| then k - 1 else k;
      BumpSum(init, k');
      SumSnoc(init, last, Share());
      var last' := last.(share := last.share + k - k');
      SumSnoc(Bump(init, k'), last', Share());
      assert s == init + [last];
      assert Bump(s, k) == Bump(init, k') + [last'];
    }
  }

  lemma SharesAddUp(s: seq<Viewer>, amount: int)
    requires amount > 0 && NonNegativeSeconds(s) && TotalSeconds(s) > 0
    ensures s != [] && TotalShares(Distribute(s, amount)) == amount
  {
    LeftoverBounds(s, amount);
    SortSum(Quotas(s, amount), Share());
    BumpSum(Ranked(s, amount), Leftover(s, amount));
  }

  lemma FairAt(s: seq<Viewer>, amount: int, i: nat, j: nat)
    requires amount > 0 && NonNegativeSeconds(s) && TotalSeconds(s) > 0 && i < |s| && j < |s|
    ensures var x, y := Distribute(s, amount)[i], Distribute(s, amount)[j];
            && (x.seconds > y.seconds ==> x.share >= y.share)
            && (x.seconds == y.seconds ==> x.share - y.share <= 1)
  {
    var r, total := Ranked(s, amount), TotalSeconds(s);
    RankedFacts(s, amount);
    assert r[i] in r && r[j] in r;
    if r[i].seconds > r[j].seconds {
      MulMonotone(amount, r[j].seconds + 1, r[i].seconds);
      QuotaOrder(amount * r[i].seconds, amount * r[j].seconds, total);
      if r[i].share == r[j].share {
        assert Less(r[i], r[j]);
        assert i < j;
      }
    }
  }

  /** Fairness: more seconds never means fewer points, equal seconds differ by at most one. */
  lemma Fairness(s: seq<Viewer>, amount: int, x: Viewer, y: Viewer)
    requires amount > 0 && NonNegativeSeconds(s) && TotalSeconds(s) > 0
    requires x in Distribute(s, amount) && y in Distribute(s, amount)
    ensures x.seconds > y.seconds ==> x.share >= y.share
    ensures x.seconds == y.seconds ==> -1 <= x.share - y.share <= 1
  {
    SharesAddUp(s, amount);
    var d := Distribute(s, amount);
    var i :| 0 <= i < |d| && d[i] == x;
    var j :| 0 <= j < |d| && d[j] == y;
    FairAt(s, amount, i, j);
    FairAt(s, amount, j, i);
  }

  /** Main result: who gets an extra point. Of two users of whom only one has more than the floor of the
      quota, that one has the larger remainder, or an equal one and more seconds, or both equal and the
      smaller id. */
  lemma ExtraPointOrder(s: seq<Viewer>, amount: int, x: Viewer, y: Viewer)
    requires amount > 0 && NonNegativeSeconds(s) && TotalSeconds(s) > 0
    requires x in Distribute(s, amount) && y in Distribute(s, amount) && x.user != y.user
    requires x.share > amount * x.seconds / TotalSeconds(s) && y.share == amount * y.seconds / TotalSeconds(s)
    ensures var forX, forY := amount * x.seconds % TotalSeconds(s), amount * y.seconds % TotalSeconds(s);
            || forX > forY
            || (forX == forY && (x.seconds > y.seconds || (x.seconds == y.seconds && x.user < y.user)))
  {
    SharesAddUp(s, amount);
    RankedFacts(s, amount);
    var d, r := Distribute(s, amount), Ranked(s, amount);
    var i :| 0 <= i < |d| && d[i] == x;
    var j :| 0 <= j < |d| && d[j] == y;
    assert r[i] in r && r[j] in r;
    assert i < Leftover(s, amount) <= j;
    assert !Less(r[j], r[i]);
  }

  lemma QuotaOrder(x: int, y: int, t: int)
    requires t > 0 && x > y
    ensures x / t > y / t || (x / t == y / t && x % t > y % t)
  {
    var q, q' := x / t, y / t;
    assert x == t * q + x % t && y == t * q' + y % t;
    if q < q' {
      MulMonotone(t, q + 1, q');
      assert false;
    }
  }

  /** How far an allocation of x points is from the exact quota of v, in units of 1/total. */
  function Deviation(v: Viewer, x: int, amount: int, total: int): int {
    var d := total * x - amount * v.seconds;
    if d >= 0 then d else -d
  }

  function DeviationAt(s: seq<Viewer>, shares: seq<int>, amount: int, total: int): int -> int {
    i => if 0 <= i < |s| && i < |shares| then Deviation(s[i], shares[i], amount, total) else 0
  }

  function TotalDeviation(s: seq<Viewer>, shares: seq<int>, amount: int, total: int): int {
    SumTo(|s|, DeviationAt(s, shares, amount, total))
  }

  function Shares(s: seq<Viewer>): (r: seq<int>)
    ensures |r| == |s| && forall i :: 0 <= i < |s| ==> r[i] == s[i].share
  {
    seq(|s|, i requires 0 <= i < |s| => s[i].share)
  }

  function ValueAt(x: seq<int>): int -> int {
    i => if 0 <= i < |x| then x[i] else 0
  }

  /** The deviation for x points is not below the line of the given slope through the computed share. */
  predicate OnLine(v: Viewer, x: int, amount: int, total: int, slope: int) {
    Deviation(v, x, amount, total) >= Deviation(v, v.share, amount, total) + slope * (x - v.share)
  }

  /** The deviation of one viewer is convex in the points given; around the computed share it lies
      above the line of slope total - 2 * cut, where cut separates the remainders that were
      rounded up from those that were not. */
  lemma SupportingLine(v: Viewer, q: int, r: int, x: int, amount: int, total: int, cut: int)
    requires total > 0 && 0 <= cut <= total && 0 <= r < total && total * q + r == amount * v.seconds
    requires (v.share == q && r <= cut) || (v.share == q + 1 && r >= cut)
    ensures OnLine(v, x, amount, total, total - 2 * cut)
  {
    var k := x - q;
    assert total * x == total * q + total * k;
    assert total * (q + 1) == total * q + total;
    assert (total - 2 * cut) * k == total * k - 2 * (cut * k);
    assert (total - 2 * cut) * (k - 1) == total * k - 2 * (cut * k) - total + 2 * cut;
    if k >= 1 {
      MulMonotone(cut, 1, k);
      MulMonotone(total, 1, k);
    } else {
      MulMonotone(total - cut, k, 0);
      assert (total - cut) * k == total * k - cut * k;
      MulMonotone(total, k, 0);
    }
  }

  /** The remainder that separates rounding up from rounding down. */
  function Cut(s: seq<Viewer>, amount: int): int
    requires TotalSeconds(s) > 0
  {
    var extra := Leftover(s, amount);
    if 0 < extra <= |s| then Ranked(s, amount)[extra - 1].remainder else TotalSeconds(s)
  }

  lemma CutSeparates(s: seq<Viewer>, amount: int, i: nat)
    requires amount > 0 && NonNegativeSeconds(s) && TotalSeconds(s) > 0 && i < |s|
    ensures 0 <= Cut(s, amount) <= TotalSeconds(s)
    ensures var r := Ranked(s, amount)[i].remainder;
            0 <= r < TotalSeconds(s) && if i < Leftover(s, amount) then r >= Cut(s, amount) else r <= Cut(s, amount)
  {
    var r, total, extra := Ranked(s, amount), TotalSeconds(s), Leftover(s, amount);
    LeftoverBounds(s, amount);
    RankedFacts(s, amount);
    assert r[i] in r;
    QuotaExact(r[i], amount, total);
    if extra > 0 {
      assert r[extra - 1] in r;
      QuotaExact(r[extra - 1], amount, total);
      assert i < extra - 1 ==> !Less(r[extra - 1], r[i]);
      assert extra - 1 < i ==> !Less(r[i], r[extra - 1]);
    }
  }

  lemma SupportAt(s: seq<Viewer>, amount: int, i: nat, x: int)
    requires amount > 0 && NonNegativeSeconds(s) && TotalSeconds(s) > 0 && i < |s|
    ensures OnLine(Distribute(s, amount)[i], x, amount, TotalSeconds(s), Slope(s, amount))
  {
    var r, total, extra := Ranked(s, amount), TotalSeconds(s), Leftover(s, amount);
    LeftoverBounds(s, amount);
    RankedFacts(s, amount);
    assert r[i] in r;
    QuotaExact(r[i], amount, total);
    CutSeparates(s, amount, i);
    SupportingLine(Distribute(s, amount)[i], r[i].share, r[i].remainder, x, amount, total, Cut(s, amount));
  }

  /** Main result: no integer allocation of the same amount, whole or negative, has a smaller total
      absolute deviation from the exact proportional quotas. */
  lemma LargestRemainderIsOptimal(s: seq<Viewer>, amount: int, other: seq<int>)
    requires amount > 0 && NonNegativeSeconds(s) && TotalSeconds(s) > 0
    requires |other| == |s| && SumTo(|other|, ValueAt(other)) == amount
    ensures var d, total := Distribute(s, amount), TotalSeconds(s);
            && TotalDeviation(d, Shares(d), amount, total) <= TotalDeviation(d, other, amount, total)
  {
    AllAboveLine(s, amount, other);
    LineMinimizes(Distribute(s, amount), other, amount, TotalSeconds(s), Slope(s, amount));
  }

  function Slope(s: seq<Viewer>, amount: int): int
    requires TotalSeconds(s) > 0
  {
    TotalSeconds(s) - 2 * Cut(s, amount)
  }

  lemma AllAboveLine(s: seq<Viewer>, amount: int, other: seq<int>)
    requires amount > 0 && NonNegativeSeconds(s) && TotalSeconds(s) > 0 && |other| == |s|
    ensures |Distribute(s, amount)| == |s| && TotalShares(Distribute(s, amount)) == amount
    ensures Supports(Distribute(s, amount), other, amount, TotalSeconds(s), Slope(s, amount))
  {
    SharesAddUp(s, amount);
    forall i | 0 <= i < |s|
      ensures AboveLine(Distribute(s, amount), other, amount, TotalSeconds(s), Slope(s, amount), i)
    {
      LineAt(s, amount, other, i);
    }
  }

  predicate Supports(d: seq<Viewer>, other: seq<int>, amount: int, total: int, slope: int) {
    forall i :: 0 <= i < |d| ==> AboveLine(d, other, amount, total, slope, i)
  }

  /** The allocation other deviates from the line of the given slope only upwards. */
  predicate AboveLine(d: seq<Viewer>, other: seq<int>, amount: int, total: int, slope: int, i: int) {
    DeviationAt(d, other, amount, total)(i)
    >= DeviationAt(d, Shares(d), amount, total)(i) + slope * (ValueAt(other)(i) - At(d, Share())(i))
  }

  lemma LineMinimizes(d: seq<Viewer>, other: seq<int>, amount: int, total: int, slope: int)
    requires |other| == |d| && SumTo(|other|, ValueAt(other)) == TotalShares(d)
    requires Supports(d, other, amount, total, slope)
    ensures TotalDeviation(d, Shares(d), amount, total) <= TotalDeviation(d, other, amount, total)
  {
    var theirs, ours, given, mine := DeviationAt(d, other, amount, total),
      DeviationAt(d, Shares(d), amount, total), ValueAt(other), At(d, Share());
    forall i | 0 <= i < |d|
      ensures theirs(i) >= ours(i) + slope * (given(i) - mine(i))
    {
      assert AboveLine(d, other, amount, total, slope, i);
    }
    SumAboveLine(|d|, theirs, ours, given, mine, slope);
    assert slope * 0 == 0;
  }

  lemma LineAt(s: seq<Viewer>, amount: int, other: seq<int>, i: nat)
    requires amount > 0 && NonNegativeSeconds(s) && TotalSeconds(s) > 0 && i < |s| == |other|
    ensures AboveLine(Distribute(s, amount), other, amount, TotalSeconds(s), Slope(s, amount), i)
  {
    LeftoverBounds(s, amount);
    SupportAt(s, amount, i, other[i]);
    PointAbove(Distribute(s, amount), other, amount, TotalSeconds(s), Slope(s, amount), i);
  }

  lemma PointAbove(d: seq<Viewer>, other: seq<int>, amount: int, total: int, slope: int, i: nat)
    requires i < |d| == |other| && OnLine(d[i], other[i], amount, total, slope)
    ensures AboveLine(d, other, amount, total, slope, i)
  {
    DeviationValues(d, other, amount, total, i);
  }

  lemma DeviationValues(d: seq<Viewer>, other: seq<int>, amount: int, total: int, i: nat)
    requires i < |d| == |other|
    ensures DeviationAt(d, other, amount, total)(i) == Deviation(d[i], other[i], amount, total)
    ensures DeviationAt(d, Shares(d), amount, total)(i) == Deviation(d[i], d[i].share, amount, total)
    ensures ValueAt(other)(i) == other[i] && At(d, Share())(i) == d[i].share
  {
  }

  lemma {:induction false} SumAboveLine(n: nat, v: int -> int, base: int -> int, given: int -> int, mine: int -> int,
          slope: int)
    requires forall i :: 0 <= i < n ==> v(i) >= base(i) + slope * (given(i) - mine(i))
    ensures SumTo(n, v) >= SumTo(n, base) + slope * (SumTo(n, given) - SumTo(n, mine))
  {
    if n > 0 {
      SumAboveLine(n - 1, v, base, given, mine, slope);
      var x, y := SumTo(n - 1, given) - SumTo(n - 1, mine), given(n - 1) - mine(n - 1);
      assert slope * (x + y) == slope * x + slope * y;
    } else {
      assert slope * 0 == 0;
    }
  }

  lemma QuotasPermute(a: seq<Viewer>, b: seq<Viewer>, amount: int)
    requires TotalSeconds(a) > 0 && TotalSeconds(a) == TotalSeconds(b) && Sort(a) == Sort(b)
    ensures multiset(Quotas(a, amount)) == multiset(Quotas(b, amount))
  {
    SortMap(a, Quota(amount, TotalSeconds(a)));
    SortMap(b, Quota(amount, TotalSeconds(b)));
  }

  predicate Loaded(s: seq<Viewer>) {
    forall v :: v in s ==> v == Unallocated()(v)
  }

  lemma SameWhenSorted(a: seq<Viewer>, b: seq<Viewer>)
    requires multiset(a) == multiset(b) && Loaded(a)
    ensures Sort(a) == Sort(b) && |a| == |b| && TotalSeconds(a) == TotalSeconds(b)
  {
    SortCorrect(a);
    SortCorrect(b);
    forall v | v in Sort(a)
      ensures v.share == 0 && v.remainder == 0
    {
      assert v in multiset(a);
      assert v == Unallocated()(v);
    }
    SortedUnique(Sort(a), Sort(b));
    SortSum(a, PositiveSeconds());
    SortSum(b, PositiveSeconds());
  }

  lemma SameWhenRanked(a: seq<Viewer>, b: seq<Viewer>, amount: int)
    requires Loaded(a) && TotalSeconds(a) > 0
    requires Sort(a) == Sort(b) && TotalSeconds(a) == TotalSeconds(b)
    ensures Ranked(a, amount) == Ranked(b, amount) && Leftover(a, amount) == Leftover(b, amount)
  {
    var qa, qb := Quotas(a, amount), Quotas(b, amount);
    QuotasPermute(a, b, amount);
    SortCorrect(qa);
    SortCorrect(qb);
    QuotaKeys(a, amount);
    SortedUnique(Sort(qa), Sort(qb));
    SortSum(qa, Share());
    SortSum(qb, Share());
  }

  /** Main result: in the weighted case the outcome does not depend on the order in which the
      viewers were loaded. */
  lemma OrderIndependence(a: seq<Viewer>, b: seq<Viewer>, amount: int)
    requires multiset(a) == multiset(b) && Loaded(a)
    requires amount > 0 && TotalSeconds(a) > 0
    ensures Distribute(a, amount) == Distribute(b, amount)
  {
    SameWhenSorted(a, b);
    SameWhenRanked(a, b, amount);
    SumOnes(0);
  }

  lemma QuotaKeys(a: seq<Viewer>, amount: int)
    requires TotalSeconds(a) > 0 && Loaded(a)
    ensures KeyDetermines(Sort(Quotas(a, amount)))
  {
    var q := Quotas(a, amount);
    SortCorrect(q);
    forall x | x in Sort(q)
      ensures x == Quota(amount, TotalSeconds(a))(x)
    {
      assert x in multiset(q);
      var i :| 0 <= i < |q| && q[i] == x;
    }
  }

  /** Without any seconds the amount is split evenly: the shares add up, differ by at most one, and
      the first viewers of the slice get the larger ones. */
  lemma EvenSplit(s: seq<Viewer>, amount: int)
    requires amount > 0 && s != [] && TotalSeconds(s) <= 0
    ensures var d := Distribute(s, amount);
            && |d| == |s| && TotalShares(d) == amount
            && Map(d, Unallocated()) == Map(s, Unallocated())
            && forall i, j :: 0 <= i <= j < |d| ==> 0 <= d[i].share - d[j].share <= 1
  {
    EqualSplitTotal(s, amount);
  }

  lemma EqualSplitTotal(s: seq<Viewer>, amount: int)
    requires s != []
    ensures TotalShares(EqualSplit(s, amount)) == amount
  {
    var n := |s|;
    var up := i => if i < amount % n then 1 else 0;
    SumCombine(n, One(), up, At(EqualSplit(s, amount), Share()), amount / n, 1);
    SumOnes(n);
    StepSum(n, up, amount % n);
    assert amount == (amount / n) * n + amount % n;
  }

  lemma {:induction false} StepSum(n: nat, w: int -> int, k: nat)
    requires k <= n && forall i :: 0 <= i < n ==> w(i) == if i < k then 1 else 0
    ensures SumTo(n, w) == k
  {
    if n == 0 {
    } else {
      if k == n {
        StepSum(n - 1, w, k - 1);
      } else {
        StepSum(n - 1, w, k);
      }
    }
  }

  predicate Idle(s: seq<Viewer>) {
    forall v :: v in s ==> v.seconds <= 0
  }

  predicate SameShares(a: seq<Viewer>, b: seq<Viewer>) {
    forall x, y :: x in a && y in b && x.user == y.user ==> x.share == y.share
  }

  /** Every order of the slice gives every viewer the same share. */
  ghost predicate OrderFree(s: seq<Viewer>, amount: int) {
    forall t :: multiset(t) == multiset(s) ==> SameShares(Distribute(t, amount), Distribute(s, amount))
  }

  lemma IdleSplit(s: seq<Viewer>, t: seq<Viewer>, amount: int)
    requires Idle(s) && s != [] && amount > 0 && multiset(t) == multiset(s)
    ensures t != [] && |t| == |s| && Distribute(t, amount) == EqualSplit(t, amount)
  {
    assert |multiset(t)| == |t| && |multiset(s)| == |s|;
    forall i | 0 <= i < |t|
      ensures At(t, PositiveSeconds())(i) == 0
    {
      assert t[i] in multiset(t) && t[i] in s;
    }
    SumNone(|t|, At(t, PositiveSeconds()));
  }

  lemma SwapEnds(s: seq<Viewer>)
    requires |s| >= 2
    ensures multiset(s[0 := s[|s| - 1]][|s| - 1 := s[0]]) == multiset(s)
  {
  }

  lemma DividedEvenly(s: seq<Viewer>, t: seq<Viewer>, amount: int)
    requires amount > 0 && s != [] && Idle(s) && amount % |s| == 0 && multiset(t) == multiset(s)
    ensures SameShares(Distribute(t, amount), Distribute(s, amount))
  {
    IdleSplit(s, s, amount);
    IdleSplit(s, t, amount);
  }

  /** The first and the last viewer can trade a point. */
  lemma PointTraded(s: seq<Viewer>, t: seq<Viewer>, amount: int)
    requires amount > 0 && s != [] && amount % |s| != 0 && t == s[0 := s[|s| - 1]][|s| - 1 := s[0]]
    ensures !SameShares(EqualSplit(t, amount), EqualSplit(s, amount))
  {
    var x, y := EqualSplit(t, amount)[|s| - 1], EqualSplit(s, amount)[0];
    assert x in EqualSplit(t, amount) && y in EqualSplit(s, amount) && x.user == y.user && x.share != y.share;
  }

  /** Main result: among idle viewers the split is independent of the order of the slice if and only if
      their number divides the amount. */
  lemma EvenSplitOrder(s: seq<Viewer>, amount: int)
    requires amount > 0 && s != [] && Idle(s)
    ensures OrderFree(s, amount) <==> amount % |s| == 0
  {
    if amount % |s| == 0 {
      forall t | multiset(t) == multiset(s)
        ensures SameShares(Distribute(t, amount), Distribute(s, amount))
      {
        DividedEvenly(s, t, amount);
      }
    } else {
      var t := s[0 := s[|s| - 1]][|s| - 1 := s[0]];
      SwapEnds(s);
      IdleSplit(s, s, amount);
      IdleSplit(s, t, amount);
      PointTraded(s, t, amount);
    }
  }

  // ---------- the order of the query ----------

  /** ORDER BY accumulated_seconds DESC, user_id ASC. */
  predicate QueryOrder(s: seq<Viewer>) {
    forall i, j :: 0 <= i < j < |s| ==>
        s[i].seconds > s[j].seconds
        || (s[i].seconds == s[j].seconds && s[i].user <= s[j].user)
  }

  /** Main result: the same active viewers always arrive in the same order, so the whole airdrop, idle
      viewers included, is determined by who is watching. */
  lemma QueryDeterminesSplit(a: seq<Viewer>, b: seq<Viewer>, amount: int)
    requires multiset(a) == multiset(b) && Loaded(a) && QueryOrder(a) && QueryOrder(b)
    ensures a == b && Distribute(a, amount) == Distribute(b, amount)
  {
    forall v | v in b
      ensures v == Unallocated()(v)
    {
      assert v in multiset(b) && v in a;
    }
    forall i, j | 0 <= i < j < |a|
      ensures !Less(a[j], a[i])
    {
      assert a[i] == Unallocated()(a[i]) && a[j] == Unallocated()(a[j]);
    }
    forall i, j | 0 <= i < j < |b|
      ensures !Less(b[j], b[i])
    {
      assert b[i] == Unallocated()(b[i]) && b[j] == Unallocated()(b[j]);
    }
    SortedUnique(a, b);
  }
}
