/** The inductive invariant of the money system: what every claim, redemption, chain transaction and
    table looks like at each program point, kept by every step. */
module Invariant {
  import opened Store
  import opened Points
  import opened Claims
  import opened Spends
  import opened AirdropTx
  import opened Machine

  // ---------- the invariant ----------

  predicate OwnedItems(ledgers: seq<Ledger>, items: seq<Item>, user: nat) {
    forall k :: 0 <= k < |items| ==>
        items[k].ledger < |ledgers| && ledgers[items[k].ledger].user == user
        && items[k].amount > 0
  }

  predicate ReservationOk(s: Sys, c: nat)
    requires c < |s.claims|
  {
    var res := s.claims[c].res;
    && res.claim == c && res.amount > 0 && res.user < |s.db.balances|
    && ItemTotal(res.items) == res.amount && OwnedItems(s.db.ledgers, res.items, res.user)
  }

  predicate RowOk(s: Sys, c: nat)
    requires c < |s.claims| == |s.db.claims|
  {
    var run, row := s.claims[c], s.db.claims[c];
    row.Some? ==>
      && row.value.user == run.res.user && row.value.amount == run.res.amount && row.value.wallet == run.res.wallet
      && row.value.items == run.res.items && Recorded(s.db.log, run.res.items, c)
  }

  predicate MintOk(s: Sys, c: nat)
    requires c < |s.claims|
  {
    var run := s.claims[c];
    run.mint.Some? ==> run.mint.value < |s.chain| && s.chain[run.mint.value].call == Mint(c, run.res.wallet)
                       && s.chain[run.mint.value].raw == ToRaw(run.res.amount)
  }

  /** What the claim row says about the mint. */
  predicate StatusOk(s: Sys, c: nat)
    requires c < |s.claims| == |s.db.claims|
  {
    var mint := s.claims[c].mint;
    match s.db.claims[c]
    case None => mint.None?
    case Some(row) =>
      match row.status
      case Pending => row.txHash.None?
      case Broadcast => mint.Some? && row.txHash == mint
      case Confirmed => mint.Some? && row.txHash == mint && SettledAs(s, mint, Succeeded)
          && s.claims[c].res.user < |s.db.balances| && s.db.balances[s.claims[c].res.user].Some?
      case Failed => mint.Some? && row.txHash == mint && SettledAs(s, mint, Reverted)
      case FinalizeFailed => mint.Some? && row.txHash == mint && SettledAs(s, mint, Succeeded)
  }

  predicate HasStatus(s: Sys, c: nat, status: Status)
    requires c < |s.db.claims|
  {
    s.db.claims[c].Some? && s.db.claims[c].value.status == status
  }

  predicate PcOk(s: Sys, c: nat)
    requires c < |s.claims| == |s.db.claims|
  {
    var mint := s.claims[c].mint;
    match s.claims[c].pc
    case Broadcasting => HasStatus(s, c, Pending) && mint.None?
    case RollingBack => HasStatus(s, c, Pending) && mint.None?
    case RecordingBroadcast => HasStatus(s, c, Pending) && mint.Some?
    case AwaitingReceipt => HasStatus(s, c, Broadcast)
    case RecordingUnknown => HasStatus(s, c, Broadcast)
    case Compensating => HasStatus(s, c, Broadcast) && SettledAs(s, mint, Reverted)
    case Finalizing => HasStatus(s, c, Broadcast) && SettledAs(s, mint, Succeeded)
    case MarkingFinalizeFailed => (HasStatus(s, c, Broadcast) || HasStatus(s, c, Confirmed))
        && SettledAs(s, mint, Succeeded)
    case Paid(_) => HasStatus(s, c, Confirmed)
    case ReturnedError => true
  }

  predicate ClaimOk(s: Sys, c: nat)
    requires c < |s.claims| == |s.db.claims|
  {
    ReservationOk(s, c) && RowOk(s, c) && MintOk(s, c) && StatusOk(s, c) && PcOk(s, c)
  }

  predicate NotBurned(s: Sys, burn: Option<nat>) {
    burn.None? || SettledAs(s, burn, Reverted)
  }

  /** The record this call created has the given status. */
  predicate OwnRecord(s: Sys, q: nat, status: RedemptionStatus)
    requires q < |s.spends|
  {
    var run := s.spends[q];
    && run.redemption.Some? && run.redemption.value < |s.db.redemptions|
    && s.db.redemptions[run.redemption.value].status == status
  }

  /** The record this call created still waits for its voucher. */
  predicate OpenRecord(s: Sys, q: nat)
    requires q < |s.spends|
  {
    OwnRecord(s, q, Unresolved) && s.db.redemptions[s.spends[q].redemption.value].voucher.None?
  }

  predicate SpendPcOk(s: Sys, q: nat)
    requires q < |s.spends|
  {
    var run := s.spends[q];
    match run.pc
    case Burning => run.debited && run.burn.None?
    case AwaitingBurn => run.debited && run.burn.Some?
    case RollingBackSpend => run.debited && NotBurned(s, run.burn)
    case RecordingUnknownBurn => run.debited && run.burn.Some?
    case RecordingBurn => run.debited && SettledAs(s, run.burn, Succeeded)
    case CallingTachiya => run.debited && run.client && SettledAs(s, run.burn, Succeeded) && OpenRecord(s, q)
    case SavingVoucher(_) => run.debited && run.client && SettledAs(s, run.burn, Succeeded)
        && OpenRecord(s, q)
    case MarkingCompensation => run.debited && run.client && SettledAs(s, run.burn, Succeeded)
        && OpenRecord(s, q)
    case SavingWithoutClient => run.debited && !run.client && SettledAs(s, run.burn, Succeeded)
        && OpenRecord(s, q)
    case Returned(balance, voucher) =>
      && run.debited && SettledAs(s, run.burn, Succeeded) && balance == run.newBalance
      && (run.client ==>
          voucher.Some? && OwnRecord(s, q, Redeemed)
          && s.db.redemptions[run.redemption.value].voucher == voucher)
    case ReturnedSpendError => true
  }

  predicate SpendOk(s: Sys, q: nat)
    requires q < |s.spends|
  {
    var run := s.spends[q];
    && run.amount > 0 && run.user < |s.db.balances| && s.db.balances[run.user].Some?
    && (run.burn.Some? ==> run.burn.value < |s.chain| && s.chain[run.burn.value].call == Burn(q)
                           && s.chain[run.burn.value].raw == ToRaw(run.amount))
    && (!run.debited ==> NotBurned(s, run.burn))
    && (run.redemption.Some? ==> run.redemption.value < |s.db.redemptions|
                                 && Some(s.db.redemptions[run.redemption.value].txHash) == run.burn)
    && SpendPcOk(s, q)
  }

  /** Every chain transaction was sent by the call it names. */
  predicate ChainOk(s: Sys, h: nat)
    requires h < |s.chain|
  {
    match s.chain[h].call
    case Mint(c, _) => c < |s.claims| && s.claims[c].mint == Some(h)
    case Burn(q) => q < |s.spends| && s.spends[q].burn == Some(h)
  }

  predicate BurnDone(pc: SpendPc) {
    !pc.Burning? && !pc.AwaitingBurn? && !pc.RollingBackSpend?
  }

  /** A redemption record names a burn whose debit still stands. */
  predicate RedemptionOk(s: Sys, r: nat)
    requires r < |s.db.redemptions|
  {
    var rec := s.db.redemptions[r];
    && rec.txHash < |s.chain| && s.chain[rec.txHash].call.Burn?
    && var q := s.chain[rec.txHash].call.spend;
       q < |s.spends| && s.spends[q].burn == Some(rec.txHash) && s.spends[q].debited && BurnDone(s.spends[q].pc)
       && rec.user == s.spends[q].user && rec.coupon == s.spends[q].coupon && rec.amount == s.spends[q].amount
  }

  predicate TablesOk(db: Db) {
    && (forall l :: 0 <= l < |db.ledgers| ==> db.ledgers[l].spendable >= 0 && db.ledgers[l].user < |db.balances|)
    && (forall u :: 0 <= u < |db.balances| && db.balances[u].Some? ==> db.balances[u].value >= 0)
    && LogOnLedgers(db)
  }

  predicate Inv(s: Sys) {
    && |s.claims| == |s.db.claims|
    && TablesOk(s.db)
    && (forall c :: 0 <= c < |s.claims| ==> ClaimOk(s, c))
    && (forall q :: 0 <= q < |s.spends| ==> SpendOk(s, q))
    && (forall h :: 0 <= h < |s.chain| ==> ChainOk(s, h))
    && (forall r :: 0 <= r < |s.db.redemptions| ==> RedemptionOk(s, r))
  }

  // ---------- what a step may change ----------

  predicate ChainGrows(a: seq<ChainTx>, b: seq<ChainTx>) {
    && |a| <= |b|
    && forall h :: 0 <= h < |a| ==>
        b[h].call == a[h].call && b[h].raw == a[h].raw
        && (a[h].settlement != Unmined ==> b[h] == a[h])
  }

  predicate LedgersGrow(a: seq<Ledger>, b: seq<Ledger>) {
    |a| <= |b| && forall l :: 0 <= l < |a| ==> b[l].user == a[l].user && b[l].channel == a[l].channel
  }

  predicate BalancesGrow(a: seq<Option<int>>, b: seq<Option<int>>) {
    |a| <= |b| && forall u :: 0 <= u < |a| && a[u].Some? ==> b[u].Some?
  }

  predicate RedemptionsGrow(a: seq<Redemption>, b: seq<Redemption>) {
    && |a| <= |b|
    && forall r :: 0 <= r < |a| ==> b[r] == a[r].(status := b[r].status, voucher := b[r].voucher)
  }

  predicate LinksKept(s: Sys, t: Sys) {
    && |s.claims| <= |t.claims| && |s.spends| <= |t.spends|
    && (forall c :: 0 <= c < |s.claims| && s.claims[c].mint.Some? ==> t.claims[c].mint == s.claims[c].mint)
    && (forall q :: 0 <= q < |s.spends| && s.spends[q].burn.Some? ==> t.spends[q].burn == s.spends[q].burn)
  }

  predicate Grows(s: Sys, t: Sys) {
    && ChainGrows(s.chain, t.chain) && LedgersGrow(s.db.ledgers, t.db.ledgers)
    && BalancesGrow(s.db.balances, t.db.balances) && RedemptionsGrow(s.db.redemptions, t.db.redemptions)
    && LinksKept(s, t)
  }

  /** The debit rows of claim c are still in the log. */
  predicate LogKeeps(a: seq<Option<PointsTx>>, b: seq<Option<PointsTx>>, c: nat) {
    && |a| <= |b|
    && forall i :: 0 <= i < |a| && a[i].Some? && a[i].value.item.Some? && a[i].value.item.value.claim == c ==>
        b[i] == a[i]
  }

  lemma ClaimFrame(s: Sys, t: Sys, c: nat)
    requires c < |s.claims| == |s.db.claims| && c < |t.claims| == |t.db.claims| && ClaimOk(s, c)
    requires Grows(s, t) && LogKeeps(s.db.log, t.db.log, c)
    requires t.claims[c] == s.claims[c] && t.db.claims[c] == s.db.claims[c]
    ensures ClaimOk(t, c)
  {
    var items := s.claims[c].res.items;
    assert OwnedItems(t.db.ledgers, items, s.claims[c].res.user);
    if s.db.claims[c].Some? {
      assert Recorded(t.db.log, items, c);
    }
  }

  lemma SpendFrame(s: Sys, t: Sys, q: nat)
    requires q < |s.spends| && q < |t.spends| && SpendOk(s, q) && Grows(s, t)
    requires t.spends[q] == s.spends[q]
    requires var id := s.spends[q].redemption;
             id.Some? && id.value < |s.db.redemptions| ==> t.db.redemptions[id.value] == s.db.redemptions[id.value]
    ensures SpendOk(t, q)
  {
  }

  lemma ChainFrame(s: Sys, t: Sys, h: nat)
    requires h < |s.chain| && ChainOk(s, h) && Grows(s, t)
    ensures ChainOk(t, h)
  {
  }

  lemma RedemptionFrame(s: Sys, t: Sys, r: nat)
    requires r < |s.db.redemptions| && RedemptionOk(s, r) && Grows(s, t)
    requires var q := s.chain[s.db.redemptions[r].txHash].call.spend;
             t.spends[q].debited && BurnDone(t.spends[q].pc) && t.spends[q].user == s.spends[q].user
             && t.spends[q].coupon == s.spends[q].coupon && t.spends[q].amount == s.spends[q].amount
    ensures RedemptionOk(t, r)
  {
  }

  /** A step that concerns at most claim c (or appends it) and no redemption. */
  lemma ClaimStep(s: Sys, t: Sys, c: nat)
    requires Inv(s) && Grows(s, t) && TablesOk(t.db)
    requires t.spends == s.spends && t.db.redemptions == s.db.redemptions && |t.claims| == |t.db.claims|
    requires forall d :: 0 <= d < |s.claims| && d != c ==>
               t.claims[d] == s.claims[d] && t.db.claims[d] == s.db.claims[d] && LogKeeps(s.db.log, t.db.log, d)
    requires |t.claims| == |s.claims| || (|t.claims| == |s.claims| + 1 && c == |s.claims|)
    requires c < |t.claims| ==> ClaimOk(t, c)
    requires forall h :: |s.chain| <= h < |t.chain| ==> ChainOk(t, h)
    ensures Inv(t)
  {
    forall d | 0 <= d < |t.claims|
      ensures ClaimOk(t, d)
    {
      if d != c {
        ClaimFrame(s, t, d);
      }
    }
    forall q | 0 <= q < |t.spends|
      ensures SpendOk(t, q)
    {
      SpendFrame(s, t, q);
    }
    forall h | 0 <= h < |t.chain|
      ensures ChainOk(t, h)
    {
      if h < |s.chain| {
        ChainFrame(s, t, h);
      }
    }
    forall r | 0 <= r < |t.db.redemptions|
      ensures RedemptionOk(t, r)
    {
      RedemptionFrame(s, t, r);
    }
  }

  /** A step that concerns at most redemption call q (or appends it) and no claim. */
  lemma SpendStep(s: Sys, t: Sys, q: nat)
    requires Inv(s) && Grows(s, t) && TablesOk(t.db)
    requires t.claims == s.claims && t.db.claims == s.db.claims && t.db.log == s.db.log
    requires forall p :: 0 <= p < |s.spends| && p != q ==> t.spends[p] == s.spends[p]
    requires |t.spends| == |s.spends| || (|t.spends| == |s.spends| + 1 && q == |s.spends|)
    requires q < |t.spends| ==> SpendOk(t, q)
    requires q < |s.spends| ==> t.spends[q].user == s.spends[q].user && t.spends[q].coupon == s.spends[q].coupon
                                && t.spends[q].amount == s.spends[q].amount
                                && (BurnDone(s.spends[q].pc) ==>
                                    BurnDone(t.spends[q].pc)
                                    && t.spends[q].debited == s.spends[q].debited)
    requires forall r :: 0 <= r < |s.db.redemptions| && t.db.redemptions[r] != s.db.redemptions[r] ==>
               q < |s.spends| && s.spends[q].burn == Some(s.db.redemptions[r].txHash)
    requires forall h :: |s.chain| <= h < |t.chain| ==> ChainOk(t, h)
    requires forall r :: |s.db.redemptions| <= r < |t.db.redemptions| ==> RedemptionOk(t, r)
    ensures Inv(t)
  {
    forall d | 0 <= d < |t.claims|
      ensures ClaimOk(t, d)
    {
      ClaimFrame(s, t, d);
    }
    forall p | 0 <= p < |t.spends|
      ensures SpendOk(t, p)
    {
      if p != q {
        OtherRecord(s, t, p, q);
        SpendFrame(s, t, p);
      }
    }
    forall h | 0 <= h < |t.chain|
      ensures ChainOk(t, h)
    {
      if h < |s.chain| {
        ChainFrame(s, t, h);
      }
    }
    forall r | 0 <= r < |t.db.redemptions|
      ensures RedemptionOk(t, r)
    {
      if r < |s.db.redemptions| {
        assert RedemptionOk(s, r);
        RedemptionFrame(s, t, r);
      }
    }
  }

  /** Two calls never share a redemption record. */
  lemma OtherRecord(s: Sys, t: Sys, p: nat, q: nat)
    requires Inv(s) && p < |s.spends| && p != q
    requires RedemptionsGrow(s.db.redemptions, t.db.redemptions)
    requires forall r :: 0 <= r < |s.db.redemptions| && t.db.redemptions[r] != s.db.redemptions[r] ==>
               q < |s.spends| && s.spends[q].burn == Some(s.db.redemptions[r].txHash)
    ensures var id := s.spends[p].redemption;
            id.Some? && id.value < |s.db.redemptions| ==> t.db.redemptions[id.value] == s.db.redemptions[id.value]
  {
    assert SpendOk(s, p);
    assert q < |s.spends| ==> SpendOk(s, q);
  }
}
