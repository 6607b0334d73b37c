/** The $TACHI side: what the balances owe to confirmed claims and standing debits, and how the
    database compares with the supply on the chain. */
module Solvency {
  import opened Sums
  import opened Store
  import opened Points
  import opened Claims
  import opened Spends
  import opened AirdropTx
  import opened Machine
  import opened Invariant
  import opened Preserve
  import opened Books

  // ---------- the sums ----------

  /** Balances of a selection of users. */
  function BalanceAt(balances: seq<Option<int>>, users: Selection): int -> int {
    u => if 0 <= u < |balances| && users(u) && balances[u].Some? then balances[u].value else 0
  }

  function ConfirmedAt(claims: seq<Option<ClaimRow>>, users: Selection): int -> int {
    c => if 0 <= c < |claims| && claims[c].Some? && claims[c].value.status == Confirmed && users(claims[c].value.user)
         then claims[c].value.amount else 0
  }

  function DebitAt(spends: seq<SpendRun>, users: Selection): int -> int {
    q => if 0 <= q < |spends| && spends[q].debited && users(spends[q].user) then spends[q].amount else 0
  }

  function Balances(db: Db, users: Selection): int {
    SumTo(|db.balances|, BalanceAt(db.balances, users))
  }

  function ConfirmedTotal(db: Db, users: Selection): int {
    SumTo(|db.claims|, ConfirmedAt(db.claims, users))
  }

  function DebitTotal(s: Sys, users: Selection): int {
    SumTo(|s.spends|, DebitAt(s.spends, users))
  }

  /** Balances are the confirmed claims minus the debits that still stand, for any set of users. */
  predicate Backed(s: Sys, users: Selection) {
    Balances(s.db, users) == ConfirmedTotal(s.db, users) - DebitTotal(s, users)
  }

  /** Minted minus burned, in raw units. */
  function SupplyAt(chain: seq<ChainTx>): int -> int {
    h => if 0 <= h < |chain| && chain[h].settlement == Succeeded
         then (if chain[h].call.Mint? then chain[h].raw else -chain[h].raw) else 0
  }

  function Supply(chain: seq<ChainTx>): int {
    SumTo(|chain|, SupplyAt(chain))
  }

  function MintedAt(s: Sys): int -> int {
    c => if 0 <= c < |s.claims| && SettledAs(s, s.claims[c].mint, Succeeded) then s.claims[c].res.amount else 0
  }

  function BurnedAt(s: Sys): int -> int {
    q => if 0 <= q < |s.spends| && SettledAs(s, s.spends[q].burn, Succeeded) then s.spends[q].amount else 0
  }

  /** Claims whose mint succeeded but which the database has not confirmed. */
  function UnconfirmedAt(s: Sys): int -> int {
    c => if 0 <= c < |s.claims| && SettledAs(s, s.claims[c].mint, Succeeded)
            && !(c < |s.db.claims| && s.db.claims[c].Some? && s.db.claims[c].value.status == Confirmed)
         then s.claims[c].res.amount else 0
  }

  /** Debits that stand although nothing was burned for them (yet). */
  function UnburnedAt(s: Sys): int -> int {
    q => if 0 <= q < |s.spends| && s.spends[q].debited && !SettledAs(s, s.spends[q].burn, Succeeded) then
        s.spends[q].amount else 0
  }

  predicate SupplyMatches(s: Sys) {
    Supply(s.chain) == ToRaw(SumTo(|s.claims|, MintedAt(s)) - SumTo(|s.spends|, BurnedAt(s)))
  }

  // ---------- balances ----------

  /** Nothing that Backed looks at changes. */
  predicate SameTachi(s: Sys, t: Sys) {
    && |s.db.balances| <= |t.db.balances| && |s.db.claims| <= |t.db.claims| && |s.spends| <= |t.spends|
    && (forall u :: 0 <= u < |t.db.balances| ==>
        BalanceOf(t.db.balances, u) == if u < |s.db.balances| then BalanceOf(s.db.balances, u) else 0)
    && (forall c :: 0 <= c < |t.db.claims| ==>
        ConfirmedRow(t.db.claims[c]) == if c < |s.db.claims| then ConfirmedRow(s.db.claims[c]) else None)
    && (forall q :: 0 <= q < |t.spends| ==>
        StandingDebit(t.spends[q]) == if q < |s.spends| then StandingDebit(s.spends[q]) else None)
  }

  function ConfirmedRow(row: Option<ClaimRow>): Option<(nat, int)> {
    if row.Some? && row.value.status == Confirmed then Some((row.value.user, row.value.amount)) else None
  }

  function StandingDebit(run: SpendRun): Option<(nat, int)> {
    if run.debited then Some((run.user, run.amount)) else None
  }

  lemma SameTachiBacked(s: Sys, t: Sys, users: Selection)
    requires SameTachi(s, t) && Backed(s, users)
    ensures Backed(t, users)
  {
    SumGrows(|s.db.balances|, |t.db.balances|, BalanceAt(s.db.balances, users), BalanceAt(t.db.balances, users)) by {
      assert forall u :: 0 <= u < |t.db.balances| ==>
          BalanceAt(t.db.balances, users)(u) == if users(u) then BalanceOf(t.db.balances, u) else 0;
    }
    SumGrows(|s.db.claims|, |t.db.claims|, ConfirmedAt(s.db.claims, users), ConfirmedAt(t.db.claims, users));
    SumGrows(|s.spends|, |t.spends|, DebitAt(s.spends, users), DebitAt(t.spends, users));
  }

  lemma BalancePoint(a: seq<Option<int>>, b: seq<Option<int>>, u: nat, users: Selection)
    requires u < |a| == |b| && b == a[u := b[u]]
    ensures SumTo(|b|, BalanceAt(b, users)) == SumTo(|a|, BalanceAt(a, users)) - BalanceAt(a, users)(u)
        + BalanceAt(b, users)(u)
  {
    SumPoint(|a|, BalanceAt(a, users), BalanceAt(b, users), u);
  }

  /** A finalization that takes effect credits the claim amount and confirms the claim. */
  lemma FinalizedBacked(s: Sys, t: Sys, c: nat, hash: Option<nat>)
    requires Inv(s) && c < |s.claims| && t.spends == s.spends
    requires Finalize(s.db, s.claims[c].res, hash).Ok? && t.db == Finalize(s.db, s.claims[c].res, hash).value.db
    ensures forall users: Selection :: Backed(s, users) ==> Backed(t, users)
  {
    assert ClaimOk(s, c);
    var user := s.claims[c].res.user;
    forall users: Selection | Backed(s, users)
      ensures Backed(t, users)
    {
      if t.db != s.db {
        BalancePoint(s.db.balances, t.db.balances, user, users);
        SumPoint(|s.db.claims|, ConfirmedAt(s.db.claims, users), ConfirmedAt(t.db.claims, users), c);
      }
    }
  }

  lemma FinalizeStepBacked(s: Sys, c: nat, a: ClaimAction, users: Selection)
    requires Inv(s) && ClaimEnabled(s, c, a) && (a.FinalizeClaim? || a.Recover?) && Backed(s, users)
    ensures Backed(ClaimActionStep(s, c, a), users)
  {
    var hash := if a.FinalizeClaim? then s.claims[c].mint else a.hash;
    if a.ending != Abort && Finalize(s.db, s.claims[c].res, hash).Ok? {
      FinalizedBacked(s, ClaimActionStep(s, c, a), c, hash);
    }
  }

  lemma StartSpendBacked(s: Sys, user: nat, coupon: string, amount: int, wallet: Option<string>, client: bool,
          ending: Ending, users: Selection)
    requires Inv(s) && Backed(s, users)
    ensures Backed(StartSpendStep(s, user, coupon, amount, wallet, client, ending), users)
  {
    if ending != Abort && ReserveSpend(s.db, user, amount, wallet).Ok? {
      var t := StartSpendStep(s, user, coupon, amount, wallet, client, ending);
      BalancePoint(s.db.balances, t.db.balances, user, users);
      SumSame(|s.spends|, DebitAt(s.spends, users), DebitAt(t.spends, users));
    }
  }

  lemma UndoSpendBacked(s: Sys, q: nat, ending: Ending, users: Selection)
    requires Inv(s) && SpendAt(s, q, RollingBackSpend) && Backed(s, users)
    ensures Backed(UndoSpendStep(s, q, ending), users)
  {
    assert SpendOk(s, q);
    var t, run := UndoSpendStep(s, q, ending), s.spends[q];
    SumPoint(|s.spends|, DebitAt(s.spends, users), DebitAt(t.spends, users), q);
    if ending != Abort {
      BalancePoint(s.db.balances, t.db.balances, run.user, users);
    }
  }

  lemma {:induction false} AirdropKeepsTachi(db: Db, channel: string, at: int, recipients: seq<Recipient>)
    ensures CreditAll(db, channel, at, recipients).balances == db.balances
    ensures CreditAll(db, channel, at, recipients).claims == db.claims
  {
    if recipients == [] {
    } else {
      AirdropKeepsTachi(db, channel, at, recipients[..|recipients| - 1]);
    }
  }

  lemma PointsStepKeepsTachi(s: Sys, a: PointsAction)
    requires Inv(s) && PointsEnabled(s, a)
    ensures SameTachi(s, PointsStep(s, a))
  {
    if a.AirdropPoints? {
      AirdropKeepsTachi(s.db, a.channel, a.at, Distribution(Airdrop.Distribute(a.viewers, a.amount)));
    }
  }

  /** A change of claim row c that confirms nothing. */
  lemma RowKeepsTachi(s: Sys, t: Sys, c: nat)
    requires t.spends == s.spends && t.db.balances == s.db.balances
    requires c < |s.db.claims| == |t.db.claims| && t.db.claims == s.db.claims[c := t.db.claims[c]]
    requires ConfirmedRow(t.db.claims[c]) == ConfirmedRow(s.db.claims[c])
    ensures SameTachi(s, t)
  {
  }

  lemma ClaimStepKeepsTachi(s: Sys, c: nat, a: ClaimAction)
    requires Inv(s) && ClaimEnabled(s, c, a) && !a.FinalizeClaim? && !a.Recover?
    ensures SameTachi(s, ClaimActionStep(s, c, a))
  {
    assert ClaimOk(s, c);
    RowKeepsTachi(s, ClaimActionStep(s, c, a), c);
  }

  lemma SpendStepKeepsTachi(s: Sys, q: nat, a: SpendAction)
    requires Inv(s) && SpendEnabled(s, q, a) && !a.UndoSpend?
    ensures SameTachi(s, SpendActionStep(s, q, a))
  {
  }

  lemma ClaimStepBacked(s: Sys, c: nat, a: ClaimAction, users: Selection)
    requires Inv(s) && ClaimEnabled(s, c, a) && Backed(s, users)
    ensures Backed(ClaimActionStep(s, c, a), users)
  {
    if a.FinalizeClaim? || a.Recover? {
      FinalizeStepBacked(s, c, a, users);
    } else {
      ClaimStepKeepsTachi(s, c, a);
      SameTachiBacked(s, ClaimActionStep(s, c, a), users);
    }
  }

  lemma SpendStepBacked(s: Sys, q: nat, a: SpendAction, users: Selection)
    requires Inv(s) && SpendEnabled(s, q, a) && Backed(s, users)
    ensures Backed(SpendActionStep(s, q, a), users)
  {
    if a.UndoSpend? {
      UndoSpendBacked(s, q, a.ending, users);
    } else {
      SpendStepKeepsTachi(s, q, a);
      SameTachiBacked(s, SpendActionStep(s, q, a), users);
    }
  }

  lemma StepBacked(s: Sys, e: Event, users: Selection)
    requires Inv(s) && Enabled(s, e) && Backed(s, users)
    ensures Backed(Step(s, e), users)
  {
    match e
    case OnPoints(a) =>
      PointsStepKeepsTachi(s, a);
      SameTachiBacked(s, Step(s, e), users);
    case OnClaim(c, a) => ClaimStepBacked(s, c, a, users);
    case StartSpend(user, coupon, amount, wallet, client, ending) => StartSpendBacked(s, user, coupon, amount, wallet,
        client, ending, users);
    case OnSpend(q, a) => SpendStepBacked(s, q, a, users);
    case _ =>
      assert SameTachi(s, Step(s, e));
      SameTachiBacked(s, Step(s, e), users);
  }

  /** Main result: for any set of users, the $TACHI balances are exactly the amounts of their
      confirmed claims minus their standing debits: every confirmed claim is credited once, no other
      claim is credited, and a debit is returned at most once. */
  lemma {:induction false} RunBacked(configs: map<string, int>, run: seq<Event>, users: Selection)
    requires Allowed(Start(configs), run)
    ensures Backed(Exec(Start(configs), run), users)
  {
    if run == [] {
    } else {
      RunBacked(configs, run[..|run| - 1], users);
      RunKeeps(configs, run[..|run| - 1]);
      StepBacked(Exec(Start(configs), run[..|run| - 1]), run[|run| - 1], users);
    }
  }

  // ---------- the supply ----------

  predicate SameSupply(s: Sys, t: Sys) {
    && t.chain == s.chain && |s.claims| <= |t.claims| && |s.spends| <= |t.spends|
    && (forall c :: 0 <= c < |t.claims| ==>
          if c < |s.claims| then t.claims[c].mint == s.claims[c].mint && t.claims[c].res == s.claims[c].res
              else t.claims[c].mint.None?)
    && (forall q :: 0 <= q < |t.spends| ==>
          if q < |s.spends| then t.spends[q].burn == s.spends[q].burn && t.spends[q].amount == s.spends[q].amount
              else t.spends[q].burn.None?)
  }

  lemma SameSupplyMatches(s: Sys, t: Sys)
    requires SameSupply(s, t) && SupplyMatches(s)
    ensures SupplyMatches(t)
  {
    SumGrows(|s.claims|, |t.claims|, MintedAt(s), MintedAt(t));
    SumGrows(|s.spends|, |t.spends|, BurnedAt(s), BurnedAt(t));
  }

  /** A transaction that was just sent changes no sum. */
  lemma SentSupply(s: Sys, t: Sys, x: ChainTx)
    requires Inv(s) && SupplyMatches(s) && t.chain == s.chain + [x] && x.settlement == Unmined
    requires |t.claims| == |s.claims| && |t.spends| == |s.spends|
    requires forall c :: 0 <= c < |s.claims| ==>
               && t.claims[c].res == s.claims[c].res
               && (t.claims[c].mint == s.claims[c].mint
                   || (s.claims[c].mint.None? && t.claims[c].mint == Some(|s.chain|)))
    requires forall q :: 0 <= q < |s.spends| ==>
               && t.spends[q].amount == s.spends[q].amount
               && (t.spends[q].burn == s.spends[q].burn
                   || (s.spends[q].burn.None? && t.spends[q].burn == Some(|s.chain|)))
    ensures SupplyMatches(t)
  {
    SumGrows(|s.chain|, |t.chain|, SupplyAt(s.chain), SupplyAt(t.chain));
    forall c | 0 <= c < |s.claims|
      ensures MintedAt(t)(c) == MintedAt(s)(c)
    {
      assert ClaimOk(s, c);
    }
    forall q | 0 <= q < |s.spends|
      ensures BurnedAt(t)(q) == BurnedAt(s)(q)
    {
      assert SpendOk(s, q);
    }
    SumSame(|s.claims|, MintedAt(s), MintedAt(t));
    SumSame(|s.spends|, BurnedAt(s), BurnedAt(t));
  }

  /** Mining a transaction moves the supply and the one call that sent it. */
  lemma MinedSupply(s: Sys, h: nat, success: bool)
    requires Inv(s) && h < |s.chain| && s.chain[h].settlement == Unmined && SupplyMatches(s)
    ensures SupplyMatches(MineStep(s, h, success))
  {
    var t := MineStep(s, h, success);
    SumPoint(|s.chain|, SupplyAt(s.chain), SupplyAt(t.chain), h);
    assert ChainOk(s, h);
    MinedClaims(s, t, h, success);
    MinedSpends(s, t, h, success);
    assert ToRaw(0) == 0;
  }

  lemma MinedClaims(s: Sys, t: Sys, h: nat, success: bool)
    requires Inv(s) && h < |s.chain| && s.chain[h].settlement == Unmined && t == MineStep(s, h, success)
        && ChainOk(s, h)
    ensures SumTo(|t.claims|, MintedAt(t)) == SumTo(|s.claims|, MintedAt(s))
              + if success && s.chain[h].call.Mint? then s.claims[s.chain[h].call.claim].res.amount else 0
    ensures s.chain[h].call.Mint? ==> s.chain[h].raw == ToRaw(s.claims[s.chain[h].call.claim].res.amount)
  {
    assert ChainOk(s, h);
    forall c | 0 <= c < |s.claims| && !(s.chain[h].call.Mint? && s.chain[h].call.claim == c)
      ensures MintedAt(t)(c) == MintedAt(s)(c)
    {
      assert ClaimOk(s, c);
    }
    if s.chain[h].call.Mint? {
      assert ClaimOk(s, s.chain[h].call.claim);
      SumPoint(|s.claims|, MintedAt(s), MintedAt(t), s.chain[h].call.claim);
    } else {
      SumSame(|s.claims|, MintedAt(s), MintedAt(t));
    }
  }

  lemma MinedSpends(s: Sys, t: Sys, h: nat, success: bool)
    requires Inv(s) && h < |s.chain| && s.chain[h].settlement == Unmined && t == MineStep(s, h, success)
        && ChainOk(s, h)
    ensures SumTo(|t.spends|, BurnedAt(t)) == SumTo(|s.spends|, BurnedAt(s))
              + if success && s.chain[h].call.Burn? then s.spends[s.chain[h].call.spend].amount else 0
    ensures s.chain[h].call.Burn? ==> s.chain[h].raw == ToRaw(s.spends[s.chain[h].call.spend].amount)
  {
    assert ChainOk(s, h);
    forall q | 0 <= q < |s.spends| && !(s.chain[h].call == Burn(q))
      ensures BurnedAt(t)(q) == BurnedAt(s)(q)
    {
      assert SpendOk(s, q);
    }
    if s.chain[h].call.Burn? {
      assert SpendOk(s, s.chain[h].call.spend);
      SumPoint(|s.spends|, BurnedAt(s), BurnedAt(t), s.chain[h].call.spend);
    } else {
      SumSame(|s.spends|, BurnedAt(s), BurnedAt(t));
    }
  }

  lemma PointsStepKeepsSupply(s: Sys, a: PointsAction)
    requires PointsEnabled(s, a)
    ensures SameSupply(s, PointsStep(s, a))
  {
  }

  lemma ClaimStepSupply(s: Sys, c: nat, a: ClaimAction)
    requires Inv(s) && ClaimEnabled(s, c, a) && SupplyMatches(s)
    ensures SupplyMatches(ClaimActionStep(s, c, a))
  {
    if a.BroadcastSent? {
      assert ClaimOk(s, c);
      SentSupply(s, BroadcastSentStep(s, c), MintTx(c, s.claims[c].res));
    } else {
      assert SameSupply(s, ClaimActionStep(s, c, a));
      SameSupplyMatches(s, ClaimActionStep(s, c, a));
    }
  }

  lemma SpendStepSupply(s: Sys, q: nat, a: SpendAction)
    requires Inv(s) && SpendEnabled(s, q, a) && SupplyMatches(s)
    ensures SupplyMatches(SpendActionStep(s, q, a))
  {
    if a.BurnSent? {
      assert SpendOk(s, q);
      SentSupply(s, BurnSentStep(s, q), ChainTx(Burn(q), ToRaw(s.spends[q].amount), Unmined));
    } else {
      assert SameSupply(s, SpendActionStep(s, q, a));
      SameSupplyMatches(s, SpendActionStep(s, q, a));
    }
  }

  lemma StepSupply(s: Sys, e: Event)
    requires Inv(s) && Enabled(s, e) && SupplyMatches(s)
    ensures SupplyMatches(Step(s, e))
  {
    match e
    case Mine(h, success) => MinedSupply(s, h, success);
    case OnPoints(a) =>
      PointsStepKeepsSupply(s, a);
      SameSupplyMatches(s, Step(s, e));
    case OnClaim(c, a) => ClaimStepSupply(s, c, a);
    case OnSpend(q, a) => SpendStepSupply(s, q, a);
    case _ =>
      assert SameSupply(s, Step(s, e));
      SameSupplyMatches(s, Step(s, e));
  }

  lemma {:induction false} RunSupply(configs: map<string, int>, run: seq<Event>)
    requires Allowed(Start(configs), run)
    ensures SupplyMatches(Exec(Start(configs), run))
  {
    if run == [] {
    } else {
      RunSupply(configs, run[..|run| - 1]);
      RunKeeps(configs, run[..|run| - 1]);
      StepSupply(Exec(Start(configs), run[..|run| - 1]), run[|run| - 1]);
    }
  }

  // ---------- solvency ----------

  /** On the chain, minted minus burned is the sum of all balances, plus the claims minted but not
      yet confirmed, plus the spends debited but not burned, all in raw units. */
  predicate SolventState(s: Sys) {
    && Supply(s.chain)
        == ToRaw(Balances(s.db, Every()) + SumTo(|s.claims|, UnconfirmedAt(s)) + SumTo(|s.spends|, UnburnedAt(s)))
    && ToRaw(Balances(s.db, Every())) <= Supply(s.chain)
  }

  lemma BackedIsSolvent(s: Sys)
    requires Inv(s) && Backed(s, Every()) && SupplyMatches(s)
    ensures SolventState(s)
  {
    ClaimsSplit(s);
    SpendsSplit(s);
    var open, idle := SumTo(|s.claims|, UnconfirmedAt(s)), SumTo(|s.spends|, UnburnedAt(s));
    assert SumTo(|s.claims|, MintedAt(s)) - SumTo(|s.spends|, BurnedAt(s)) == Balances(s.db, Every()) + open + idle;
  }

  /** Main result: every reachable state is solvent, so the balances never exceed the supply. */
  lemma Solvent(configs: map<string, int>, run: seq<Event>)
    requires Allowed(Start(configs), run)
    ensures SolventState(Exec(Start(configs), run))
    ensures var s := Exec(Start(configs), run);
            1_000_000_000_000_000_000 * Balances(s.db, Every()) <= Supply(s.chain)
  {
    RunKeeps(configs, run);
    RunBacked(configs, run, Every());
    RunSupply(configs, run);
    BackedIsSolvent(Exec(Start(configs), run));
  }

  lemma ClaimsSplit(s: Sys)
    requires Inv(s)
    ensures SumTo(|s.claims|, MintedAt(s)) == ConfirmedTotal(s.db, Every()) + SumTo(|s.claims|, UnconfirmedAt(s))
    ensures SumTo(|s.claims|, UnconfirmedAt(s)) >= 0
  {
    forall c | 0 <= c < |s.claims|
      ensures MintedAt(s)(c) == 1 * ConfirmedAt(s.db.claims, Every())(c) + 1 * UnconfirmedAt(s)(c)
      ensures UnconfirmedAt(s)(c) >= 0
    {
      assert ClaimOk(s, c);
    }
    SumCombine(|s.claims|, ConfirmedAt(s.db.claims, Every()), UnconfirmedAt(s), MintedAt(s), 1, 1);
    SumNonNegative(|s.claims|, UnconfirmedAt(s));
  }

  lemma SpendsSplit(s: Sys)
    requires Inv(s)
    ensures DebitTotal(s, Every()) == SumTo(|s.spends|, BurnedAt(s)) + SumTo(|s.spends|, UnburnedAt(s))
    ensures SumTo(|s.spends|, UnburnedAt(s)) >= 0
  {
    forall q | 0 <= q < |s.spends|
      ensures DebitAt(s.spends, Every())(q) == 1 * BurnedAt(s)(q) + 1 * UnburnedAt(s)(q)
      ensures UnburnedAt(s)(q) >= 0
    {
      assert SpendOk(s, q);
    }
    SumCombine(|s.spends|, BurnedAt(s), UnburnedAt(s), DebitAt(s.spends, Every()), 1, 1);
    SumNonNegative(|s.spends|, UnburnedAt(s));
  }
}
