/** Claim lifecycles, exactly-once settlement and spend safety over all runs. */
module Settlement {
  import opened Store
  import opened Points
  import opened Claims
  import opened Spends
  import opened Machine
  import opened Invariant
  import opened Preserve
  import opened AirdropTx
  import opened Books
  import opened Solvency

  // ---------- the life of a claim row ----------

  /** The edges of the status graph. */
  predicate Edge(a: Status, b: Status) {
    || a == b
    || (a == Pending && b == Broadcast)
    || (a == Broadcast && (b == Confirmed || b == Failed || b == FinalizeFailed))
    || (a == FinalizeFailed && b == Confirmed)
  }

  /** What one step may do to a claim row: delete it while pending, or follow one edge, keeping the
      hash once set and never touching a confirmed or failed row. */
  predicate RowFollows(a: Option<ClaimRow>, b: Option<ClaimRow>) {
    match (a, b)
    case (None, _) => b.None?
    case (Some(x), None) => x.status == Pending && x.txHash.None?
    case (Some(x), Some(y)) =>
      && Edge(x.status, y.status)
      && y == x.(status := y.status, txHash := y.txHash)
      && (x.txHash.Some? ==> y.txHash == x.txHash)
      && (x.status == Confirmed || x.status == Failed ==> y == x)
  }

  /** The old rows stay; new rows are pending. */
  predicate RowsKept(a: seq<Option<ClaimRow>>, b: seq<Option<ClaimRow>>) {
    && |a| <= |b| && b[..|a|] == a
    && forall c :: |a| <= c < |b| ==> b[c].Some? && b[c].value.status == Pending
  }

  lemma PointsKeepRows(s: Sys, a: PointsAction)
    requires PointsEnabled(s, a)
    ensures RowsKept(s.db.claims, PointsStep(s, a).db.claims)
  {
    if a.AirdropPoints? {
      AirdropKeepsTachi(s.db, a.channel, a.at, Distribution(Airdrop.Distribute(a.viewers, a.amount)));
    }
  }

  /** Only a step of claim c touches its row; a new row is pending. */
  lemma RowUntouched(s: Sys, e: Event, c: nat)
    requires Inv(s) && Enabled(s, e) && !(e.OnClaim? && e.c == c)
    ensures var a, b := s.db.claims, Step(s, e).db.claims;
            && |a| <= |b|
            && (c < |a| ==> b[c] == a[c])
            && (|a| <= c < |b| ==> b[c].Some? && b[c].value.status == Pending)
  {
    match e
    case OnPoints(a) =>
      PointsKeepRows(s, a);
      assert c < |s.db.claims| ==> Step(s, e).db.claims[c] == Step(s, e).db.claims[..|s.db.claims|][c];
    case OnClaim(d, a) => OnlyOwnRow(s, d, a);
    case OnSpend(q, a) => SpendStepKeepsPoints(s, q, a);
    case _ =>
  }

  lemma OnlyOwnRow(s: Sys, c: nat, a: ClaimAction)
    requires Inv(s) && ClaimEnabled(s, c, a)
    ensures var before, after := s.db.claims, ClaimActionStep(s, c, a).db.claims;
            c < |before| == |after| && after == before[c := after[c]]
  {
    assert ClaimOk(s, c);
  }

  lemma OwnRowFollows(s: Sys, c: nat, a: ClaimAction)
    requires Inv(s) && ClaimEnabled(s, c, a)
    ensures var t := ClaimActionStep(s, c, a);
            && c < |s.db.claims| == |t.db.claims| && RowFollows(s.db.claims[c], t.db.claims[c])
            && (!a.FinalizeClaim? && !a.Recover? ==> ConfirmedFlag(t.db, c) == ConfirmedFlag(s.db, c))
            && (!a.RollBackClaim? && !a.CompensateClaim? ==> ReturnedFlag(t.db, c) == ReturnedFlag(s.db, c))
  {
    assert ClaimOk(s, c);
  }

  lemma StepLifecycle(s: Sys, e: Event, c: nat)
    requires Inv(s) && Enabled(s, e) && c < |s.db.claims|
    ensures c < |Step(s, e).db.claims| && RowFollows(s.db.claims[c], Step(s, e).db.claims[c])
  {
    if e.OnClaim? && e.c == c {
      OwnRowFollows(s, c, e.claim);
    } else {
      RowUntouched(s, e, c);
      assert ClaimOk(s, c);
    }
  }

  /** What any number of steps may do to a claim row. */
  predicate RowReaches(a: Option<ClaimRow>, b: Option<ClaimRow>) {
    match (a, b)
    case (None, _) => b.None?
    case (Some(x), None) => x.status == Pending && x.txHash.None?
    case (Some(x), Some(y)) =>
      && y == x.(status := y.status, txHash := y.txHash)
      && (x.txHash.Some? ==> y.txHash == x.txHash)
      && (x.status == Confirmed || x.status == Failed ==> y == x)
      && (x.status != Pending ==> y.status != Pending)
      && (x.status == FinalizeFailed ==> y.status == FinalizeFailed || y.status == Confirmed)
  }

  lemma ReachesThrough(a: Option<ClaimRow>, b: Option<ClaimRow>, c: Option<ClaimRow>)
    requires RowReaches(a, b) && RowFollows(b, c)
    ensures RowReaches(a, c)
  {
  }

  lemma {:induction false} PrefixAllowed(s: Sys, run: seq<Event>, i: nat)
    requires i <= |run| && Allowed(s, run)
    ensures Allowed(s, run[..i])
  {
    if i == |run| {
      assert run[..i] == run;
    } else {
      var init := run[..|run| - 1];
      PrefixAllowed(s, init, i);
      assert init[..i] == run[..i];
    }
  }

  /** Main result: between any two states of a run, a claim row moves only forward along
      pending, broadcast, {confirmed, failed, finalize_failed}, with finalize_failed leading only to
      confirmed; confirmed and failed rows and a set hash never change; only pending rows vanish. */
  lemma {:induction false} RunLifecycle(configs: map<string, int>, run: seq<Event>, i: nat, c: nat)
    requires Allowed(Start(configs), run) && i <= |run| && Allowed(Start(configs), run[..i])
    requires c < |Exec(Start(configs), run[..i]).db.claims|
    ensures c < |Exec(Start(configs), run).db.claims|
    ensures RowReaches(Exec(Start(configs), run[..i]).db.claims[c], Exec(Start(configs), run).db.claims[c])
  {
    if i == |run| {
      assert run[..i] == run;
    } else {
      var init := run[..|run| - 1];
      assert init[..i] == run[..i];
      RunLifecycle(configs, init, i, c);
      RunKeeps(configs, init);
      StepLifecycle(Exec(Start(configs), init), run[|run| - 1], c);
      ReachesThrough(Exec(Start(configs), run[..i]).db.claims[c], Exec(Start(configs), init).db.claims[c],
                     Exec(Start(configs), run).db.claims[c]);
    }
  }

  /** A retry that names another hash than the one broadcast is rejected by both transactions, whatever
      the status of the row. */
  lemma OtherHashRejected(s: Sys, c: nat, hash: nat)
    requires Inv(s) && c < |s.claims| && s.db.claims[c].Some? && s.db.claims[c].value.txHash.Some?
    requires s.claims[c].mint != Some(hash)
    ensures Finalize(s.db, s.claims[c].res, Some(hash)) == Err(HashMismatch)
    ensures MarkFinalizeFailed(s.db, s.claims[c].res, Some(hash)) == Err(HashMismatch)
  {
    assert ClaimOk(s, c);
  }

  /** Does the retry name no hash, or the one that the row has? */
  predicate Agrees(row: ClaimRow, hash: Option<nat>) {
    hash.None? || row.txHash.None? || row.txHash == hash
  }

  /** The status a retry can still settle. */
  predicate Retriable(row: ClaimRow) {
    row.status == Broadcast || row.status == FinalizeFailed
  }

  /** Main result: what finalizeClaim does and answers in every reachable state, for a first call and for any
      retry. It settles a broadcast or finalize_failed claim with exactly its amount, repeats the current
      balance for a confirmed one, and otherwise says why not and changes nothing. */
  lemma FinalizeAnswers(s: Sys, c: nat, hash: Option<nat>)
    requires Inv(s) && c < |s.claims|
    ensures var r, row, user := Finalize(s.db, s.claims[c].res, hash), s.db.claims[c], s.claims[c].res.user;
            && (row.None? <==> r == Err(ClaimMissing))
            && (row.Some? && !Agrees(row.value, hash) <==> r == Err(HashMismatch))
            && (row.Some? && Agrees(row.value, hash) ==>
                && (Retriable(row.value) ==>
                    && r.Ok? && user < |s.db.balances|
                    && r.value.balance == BalanceOf(s.db.balances, user) + row.value.amount
                    && r.value.db.balances == s.db.balances[user := Some(r.value.balance)]
                    && OnlyStatus(s.db, r.value.db, c, Confirmed))
                && (row.value.status == Confirmed ==>
                    r.Ok? && r.value.db == s.db && s.db.balances[user] == Some(r.value.balance))
                && (!Retriable(row.value) && row.value.status != Confirmed ==>
                    r == Err(InvalidStatus(row.value.status))))
  {
    assert ClaimOk(s, c);
  }

  /** The same for markFinalizeFailedClaim, which never touches a balance. */
  lemma MarkAnswers(s: Sys, c: nat, hash: Option<nat>)
    requires Inv(s) && c < |s.claims|
    ensures var r, row := MarkFinalizeFailed(s.db, s.claims[c].res, hash), s.db.claims[c];
            && (row.None? <==> r == Err(ClaimMissing))
            && (row.Some? && !Agrees(row.value, hash) <==> r == Err(HashMismatch))
            && (row.Some? && Agrees(row.value, hash) ==>
                && (Retriable(row.value) ==>
                    r.Ok? && r.value.balances == s.db.balances && OnlyStatus(s.db, r.value, c, FinalizeFailed))
                && (row.value.status == Confirmed ==> r == Ok(s.db))
                && (!Retriable(row.value) && row.value.status != Confirmed ==>
                    r == Err(InvalidStatus(row.value.status))))
  {
    assert ClaimOk(s, c);
  }

  /** Of the claims only row c changes, to the status, and a hash it has stays. */
  predicate OnlyStatus(a: Db, b: Db, c: nat, status: Status)
    requires c < |a.claims| && a.claims[c].Some?
  {
    && |b.claims| == |a.claims| && b == a.(claims := b.claims, balances := b.balances)
    && b.claims[c].Some?
    && b.claims[c].value == a.claims[c].value.(status := status, txHash := b.claims[c].value.txHash)
    && (a.claims[c].value.txHash.Some? ==> b.claims[c].value.txHash == a.claims[c].value.txHash)
    && forall d :: 0 <= d < |a.claims| && d != c ==> b.claims[d] == a.claims[d]
  }

  /** The unique index on claims.tx_hash never fires: two rows never carry the same hash. */
  lemma HashesUnique(configs: map<string, int>, run: seq<Event>, c: nat, d: nat)
    requires Allowed(Start(configs), run)
    requires var claims := Exec(Start(configs), run).db.claims;
             && c < |claims| && d < |claims| && claims[c].Some? && claims[d].Some?
             && claims[c].value.txHash.Some? && claims[c].value.txHash == claims[d].value.txHash
    ensures c == d
  {
    RunKeeps(configs, run);
    var s := Exec(Start(configs), run);
    assert ClaimOk(s, c) && ClaimOk(s, d);
  }

  // ---------- exactly once ----------

  predicate Finalizes(e: Event, c: nat) {
    e.OnClaim? && e.c == c && (e.claim.FinalizeClaim? || e.claim.Recover?)
  }

  predicate GivesBack(e: Event, c: nat) {
    e.OnClaim? && e.c == c && (e.claim.RollBackClaim? || e.claim.CompensateClaim?)
  }

  /** Does this step write the $TACHI balance on behalf of claim c? */
  function CreditStep(s: Sys, e: Event, c: nat): int
    requires Enabled(s, e)
  {
    if Finalizes(e, c) && Step(s, e).db.balances != s.db.balances then 1 else 0
  }

  /** Does this step give points back on behalf of claim c? */
  function RefundStep(s: Sys, e: Event, c: nat): int
    requires Enabled(s, e)
  {
    if GivesBack(e, c) && Step(s, e).db.ledgers != s.db.ledgers then 1 else 0
  }

  function CreditCount(s: Sys, run: seq<Event>, c: nat): int
    requires Allowed(s, run)
  {
    if run == [] then 0
    else CreditCount(s, run[..|run| - 1], c) + CreditStep(Exec(s, run[..|run| - 1]), run[|run| - 1], c)
  }

  function RefundCount(s: Sys, run: seq<Event>, c: nat): int
    requires Allowed(s, run)
  {
    if run == [] then 0
    else RefundCount(s, run[..|run| - 1], c) + RefundStep(Exec(s, run[..|run| - 1]), run[|run| - 1], c)
  }

  function ConfirmedFlag(db: Db, c: nat): int {
    if c < |db.claims| && db.claims[c].Some? && db.claims[c].value.status == Confirmed then 1 else 0
  }

  /** Failed, or deleted by a rollback. */
  function ReturnedFlag(db: Db, c: nat): int {
    if c < |db.claims| && (db.claims[c].None? || db.claims[c].value.status == Failed) then 1 else 0
  }

  lemma FinalizeCounts(s: Sys, e: Event, c: nat)
    requires Inv(s) && Enabled(s, e) && Finalizes(e, c)
    ensures CreditStep(s, e, c) == ConfirmedFlag(Step(s, e).db, c) - ConfirmedFlag(s.db, c)
    ensures CreditStep(s, e, c) == 1 ==>
              Step(s, e).db.balances == s.db.balances[s.claims[c].res.user :=
                Some(BalanceOf(s.db.balances, s.claims[c].res.user) + s.claims[c].res.amount)]
  {
    assert ClaimOk(s, c);
    var user := s.claims[c].res.user;
    if ConfirmedFlag(Step(s, e).db, c) != ConfirmedFlag(s.db, c) {
      assert Step(s, e).db.balances[user] != s.db.balances[user];
    }
  }

  lemma ConfirmedElsewhere(s: Sys, e: Event, c: nat)
    requires Inv(s) && Enabled(s, e) && !Finalizes(e, c)
    ensures ConfirmedFlag(Step(s, e).db, c) == ConfirmedFlag(s.db, c)
  {
    if e.OnClaim? && e.c == c {
      OwnRowFollows(s, c, e.claim);
    } else {
      RowUntouched(s, e, c);
    }
  }

  lemma RefundVisible(ledgers: seq<Ledger>, items: seq<Item>)
    requires items != [] && OnLedgers(items, |ledgers|) && forall k :: 0 <= k < |items| ==> items[k].amount > 0
    ensures ApplyItems(ledgers, items, true) != ledgers
  {
    ApplyFirstBack(ledgers, items, |items| - 1);
    var l := items[|items| - 1].ledger;
    assert ApplyItems(ledgers, items, true)[l].spendable > ledgers[l].spendable;
  }

  lemma RefundCounts(s: Sys, e: Event, c: nat)
    requires Inv(s) && Enabled(s, e) && GivesBack(e, c)
    ensures RefundStep(s, e, c) == ReturnedFlag(Step(s, e).db, c) - ReturnedFlag(s.db, c)
  {
    assert ClaimOk(s, c);
    var items := s.claims[c].res.items;
    assert items == [] ==> ItemTotal(items) == 0;
    RefundVisible(s.db.ledgers, items);
  }

  lemma ReturnedElsewhere(s: Sys, e: Event, c: nat)
    requires Inv(s) && Enabled(s, e) && !GivesBack(e, c)
    ensures ReturnedFlag(Step(s, e).db, c) == ReturnedFlag(s.db, c)
  {
    if e.OnClaim? && e.c == c {
      OwnRowFollows(s, c, e.claim);
    } else {
      RowUntouched(s, e, c);
    }
  }

  /** Main result: over any run, with any number of retries, the balance is credited for claim c
      exactly once if it is confirmed and never otherwise; its points are given back exactly once if
      it failed or was rolled back and never otherwise; and never both. */
  lemma {:induction false} SettledExactlyOnce(configs: map<string, int>, run: seq<Event>, c: nat)
    requires Allowed(Start(configs), run)
    ensures CreditCount(Start(configs), run, c) == ConfirmedFlag(Exec(Start(configs), run).db, c)
    ensures RefundCount(Start(configs), run, c) == ReturnedFlag(Exec(Start(configs), run).db, c)
    ensures CreditCount(Start(configs), run, c) + RefundCount(Start(configs), run, c) <= 1
  {
    if run == [] {
    } else {
      var init, e := run[..|run| - 1], run[|run| - 1];
      var s := Exec(Start(configs), init);
      SettledExactlyOnce(configs, init, c);
      RunKeeps(configs, init);
      if Finalizes(e, c) {
        FinalizeCounts(s, e, c);
      } else {
        ConfirmedElsewhere(s, e, c);
      }
      if GivesBack(e, c) {
        RefundCounts(s, e, c);
      } else {
        ReturnedElsewhere(s, e, c);
      }
    }
  }

  // ---------- what the callers are told ----------

  /** Main result: a Claim call that returns a balance has its claim confirmed by a successful mint
      of exactly the claim amount. */
  lemma PaidClaimIsMinted(configs: map<string, int>, run: seq<Event>, c: nat)
    requires Allowed(Start(configs), run) && c < |Exec(Start(configs), run).claims|
    requires Exec(Start(configs), run).claims[c].pc.Paid?
    ensures var s := Exec(Start(configs), run);
            && |s.db.claims| == |s.claims| && HasStatus(s, c, Confirmed) && SettledAs(s, s.claims[c].mint, Succeeded)
            && s.chain[s.claims[c].mint.value].call == Mint(c, s.db.claims[c].value.wallet)
            && s.chain[s.claims[c].mint.value].raw == ToRaw(s.db.claims[c].value.amount)
  {
    RunKeeps(configs, run);
    assert ClaimOk(Exec(Start(configs), run), c);
  }

  /** What holds of redemptions in every reachable state. */
  predicate SpendsSafe(s: Sys) {
    && (forall u :: 0 <= u < |s.db.balances| && s.db.balances[u].Some? ==> s.db.balances[u].value >= 0)
    && (forall q :: 0 <= q < |s.spends| && !s.spends[q].debited ==> NotBurned(s, s.spends[q].burn))
    && (forall r :: 0 <= r < |s.db.redemptions| ==> RecordBacked(s, s.db.redemptions[r]))
    && (forall q :: 0 <= q < |s.spends| && s.spends[q].pc.Returned? && s.spends[q].client ==> VoucherSaved(s, q))
  }

  /** The record names a burn sent by a call with the same user, coupon and amount, still debited. */
  predicate RecordBacked(s: Sys, rec: Redemption) {
    exists q :: 0 <= q < |s.spends| && s.spends[q].burn == Some(rec.txHash) && s.spends[q].debited
                && s.spends[q].user == rec.user && s.spends[q].coupon == rec.coupon && s.spends[q].amount == rec.amount
  }

  predicate VoucherSaved(s: Sys, q: nat)
    requires q < |s.spends| && s.spends[q].pc.Returned?
  {
    var run := s.spends[q];
    && run.pc.voucher.Some? && run.burn.Some?
    && Redemption(run.user, run.coupon, run.amount, run.burn.value, Redeemed, run.pc.voucher) in s.db.redemptions
    && SettledAs(s, run.burn, Succeeded)
  }

  lemma SpendsSafeFromInv(s: Sys)
    requires Inv(s)
    ensures SpendsSafe(s)
  {
    forall q | 0 <= q < |s.spends|
      ensures !s.spends[q].debited ==> NotBurned(s, s.spends[q].burn)
      ensures s.spends[q].pc.Returned? && s.spends[q].client ==> VoucherSaved(s, q)
    {
      assert SpendOk(s, q);
      var id := s.spends[q].redemption;
      if s.spends[q].pc.Returned? && s.spends[q].client {
        assert RedemptionOk(s, id.value);
        assert s.db.redemptions[id.value] in s.db.redemptions;
      }
    }
    forall r | 0 <= r < |s.db.redemptions|
      ensures RecordBacked(s, s.db.redemptions[r])
    {
      assert RedemptionOk(s, r);
    }
  }

  /** Main result: over all interleavings no balance goes negative, a debit is returned only when
      nothing was burned, every redemption record is backed by a standing debit, and with a Tachiya
      client a successful return means the voucher is stored in a redeemed record of a real burn. */
  lemma SpendSafety(configs: map<string, int>, run: seq<Event>)
    requires Allowed(Start(configs), run)
    ensures SpendsSafe(Exec(Start(configs), run))
  {
    RunKeeps(configs, run);
    SpendsSafeFromInv(Exec(Start(configs), run));
  }
}
