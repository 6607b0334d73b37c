/** Every step of the money system keeps the invariant, and so does every run. */
module Preserve {
  import opened Store
  import opened Points
  import opened Claims
  import opened Spends
  import opened AirdropTx
  import opened Machine
  import opened Invariant

  // ---------- points and airdrops ----------

  /** A change of the points tables alone that keeps the rows other claims rely on. */
  lemma PointsOnly(s: Sys, db: Db)
    requires Inv(s) && TablesOk(db)
    requires db.claims == s.db.claims && db.redemptions == s.db.redemptions
    requires LedgersGrow(s.db.ledgers, db.ledgers) && BalancesGrow(s.db.balances, db.balances)
    requires |s.db.log| <= |db.log| && forall i :: 0 <= i < |s.db.log| ==> db.log[i] == s.db.log[i]
    ensures Inv(s.(db := db))
  {
    ClaimStep(s, s.(db := db), |s.claims|);
  }

  /** Credits append one log row and touch one ledger. */
  predicate CreditShape(a: Db, b: Db) {
    && b.claims == a.claims && b.redemptions == a.redemptions && b.balances == a.balances
    && LedgersGrow(a.ledgers, b.ledgers) && TablesOk(b)
    && |a.log| <= |b.log| && forall i :: 0 <= i < |a.log| ==> b.log[i] == a.log[i]
  }

  lemma AddRowShape(db: Db, user: nat, channel: string, at: int, source: Source, amount: int,
          externalId: Option<string>)
    requires TablesOk(db) && user < |db.balances| && amount > 0
    ensures CreditShape(db, AddRow(db, user, channel, at, source, amount, externalId))
  {
  }

  lemma {:induction false} CreditAllShape(db: Db, channel: string, at: int, recipients: seq<Recipient>)
    requires TablesOk(db) && forall r :: r in recipients ==> r.user < |db.balances| && r.points > 0
    ensures CreditShape(db, CreditAll(db, channel, at, recipients))
  {
    if recipients == [] {
    } else {
      var init, r := recipients[..|recipients| - 1], recipients[|recipients| - 1];
      CreditAllShape(db, channel, at, init);
      AddRowShape(CreditAll(db, channel, at, init), r.user, channel, at, Source.Airdrop, r.points, None);
    }
  }

  lemma CreditKeeps(s: Sys, user: nat, channel: string, at: int, source: Source, amount: int, meta: CreditMeta,
          ending: Ending)
    requires Inv(s) && user < |s.db.balances|
    ensures Inv(s.(db := Written(s.db, Credit(s.db, user, channel, at, source, amount, meta), ending)))
  {
    if ending != Abort && Credit(s.db, user, channel, at, source, amount, meta).Ok? {
      AddRowShape(s.db, user, channel, at, source, amount, meta.externalId);
      PointsOnly(s, AddRow(s.db, user, channel, at, source, amount, meta.externalId));
    }
  }

  lemma DeductKeeps(s: Sys, user: nat, channel: string, at: int, amount: int, ending: Ending)
    requires Inv(s)
    ensures Inv(s.(db := Written(s.db, Deduct(s.db, user, channel, at, amount), ending)))
  {
    var r := Deduct(s.db, user, channel, at, amount);
    if ending != Abort && r.Ok? {
      PointsOnly(s, r.value);
    }
  }

  lemma {:induction false} RecipientsAreViewers(viewers: seq<Airdrop.Viewer>, n: nat)
    requires forall v :: v in viewers ==> v.user < n
    ensures forall r :: r in Distribution(viewers) ==> r.user < n && r.points > 0
  {
    if viewers == [] {
    } else {
      RecipientsAreViewers(viewers[..|viewers| - 1], n);
    }
  }

  lemma SplitKeepsUsers(viewers: seq<Airdrop.Viewer>, amount: int, n: nat)
    requires Airdrop.NonNegativeSeconds(viewers) && amount > 0 && viewers != []
    requires forall v :: v in viewers ==> v.user < n
    ensures forall v :: v in Airdrop.Distribute(viewers, amount) ==> v.user < n
  {
    var d := Airdrop.Distribute(viewers, amount);
    if Airdrop.TotalSeconds(viewers) > 0 {
      Airdrop.Apportionment(viewers, amount);
    } else {
      Airdrop.EvenSplit(viewers, amount);
    }
    var a, b := Airdrop.Map(d, Airdrop.Unallocated()), Airdrop.Map(viewers, Airdrop.Unallocated());
    forall v | v in d
      ensures v.user < n
    {
      var i :| 0 <= i < |d| && d[i] == v;
      assert a[i] in multiset(b);
      var j :| 0 <= j < |b| && b[j] == a[i];
      assert viewers[j] in viewers;
    }
  }

  lemma AirdropKeeps(s: Sys, channel: string, at: int, viewers: seq<Airdrop.Viewer>, amount: int, ending: Ending)
    requires Inv(s) && Airdrop.NonNegativeSeconds(viewers) && forall v :: v in viewers ==> v.user < |s.db.balances|
    ensures Inv(AirdropStep(s, channel, at, viewers, amount, ending))
  {
    var r := Attempt(s.db, s.configs, channel, at, viewers, amount);
    if ending != Abort && r.Ok? {
      var d := Airdrop.Distribute(viewers, amount);
      SplitKeepsUsers(viewers, amount, |s.db.balances|);
      RecipientsAreViewers(d, |s.db.balances|);
      CreditAllShape(s.db, channel, at, Distribution(d));
      PointsOnly(s, r.value.db);
    }
  }

  // ---------- claims ----------

  lemma {:induction false} ApplyFirstBack(ledgers: seq<Ledger>, items: seq<Item>, n: nat)
    requires n <= |items| && forall k :: 0 <= k < |items| ==> items[k].amount > 0
    ensures forall l :: 0 <= l < |ledgers| ==> ApplyFirst(ledgers, items, n, true)[l].spendable >= ledgers[l].spendable
  {
    if n == 0 {
    } else {
      ApplyFirstBack(ledgers, items, n - 1);
    }
  }

  lemma StartedOwned(db: Db, user: nat, amount: int, rows: seq<Fetched>, wallet: Option<string>, at: int)
    requires FetchedFor(db.ledgers, user, rows) && Reserve(db, user, amount, rows, wallet, at).Ok?
    ensures var res := Reserve(db, user, amount, rows, wallet, at).value;
            OwnedItems(Reserved(db, res, at).ledgers, res.items, user)
  {
    ReservationItems(db, user, amount, rows, wallet, at);
    TakenAreOwned(db.ledgers, user, rows, Reserve(db, user, amount, rows, wallet, at).value.items);
  }

  lemma StartedItems(db: Db, user: nat, amount: int, rows: seq<Fetched>, wallet: Option<string>, at: int,
          res: Reservation)
    requires FetchedFor(db.ledgers, user, rows) && Reserve(db, user, amount, rows, wallet, at) == Ok(res)
    ensures res.amount > 0 && ItemTotal(res.items) == res.amount && res.claim == |db.claims|
    ensures forall k {:trigger res.items[k].tx} :: 0 <= k < |res.items| ==> res.items[k].tx == |db.log| + k
  {
    ReservationItems(db, user, amount, rows, wallet, at);
  }

  lemma ReservedRecorded(db: Db, res: Reservation, at: int)
    requires forall k {:trigger res.items[k].tx} :: 0 <= k < |res.items| ==> res.items[k].tx == |db.log| + k
    ensures Recorded(Reserved(db, res, at).log, res.items, res.claim)
  {
    DebitsRecorded(db.log, res.items, at, res.claim);
  }

  lemma StartedRecorded(db: Db, user: nat, amount: int, rows: seq<Fetched>, wallet: Option<string>, at: int,
          res: Reservation)
    requires FetchedFor(db.ledgers, user, rows) && Reserve(db, user, amount, rows, wallet, at) == Ok(res)
    ensures res.amount > 0 && ItemTotal(res.items) == res.amount
    ensures Recorded(Reserved(db, res, at).log, res.items, |db.claims|)
  {
    StartedItems(db, user, amount, rows, wallet, at, res);
    ReservedRecorded(db, res, at);
  }

  lemma TakenAreOwned(ledgers: seq<Ledger>, user: nat, rows: seq<Fetched>, items: seq<Item>)
    requires FetchedFor(ledgers, user, rows) && |items| <= |rows|
    requires forall k :: 0 <= k < |items| ==> items[k].ledger == rows[k].ledger && items[k].amount > 0
    ensures OwnedItems(ApplyItems(ledgers, items, false), items, user)
  {
  }

  lemma StartedClaimOk(s: Sys, user: nat, amount: int, rows: seq<Fetched>, wallet: Option<string>, at: int,
          ending: Ending)
    requires Inv(s) && user < |s.db.balances| && FetchedFor(s.db.ledgers, user, rows)
    requires ending != Abort && Reserve(s.db, user, amount, rows, wallet, at).Ok?
    ensures ClaimOk(StartClaimStep(s, user, amount, rows, wallet, at, ending), |s.claims|)
  {
    StartedOwned(s.db, user, amount, rows, wallet, at);
    StartedRecorded(s.db, user, amount, rows, wallet, at, Reserve(s.db, user, amount, rows, wallet, at).value);
  }

  lemma DebitAt(log: seq<Option<PointsTx>>, items: seq<Item>, at: int, claim: nat, k: nat)
    requires k < |items|
    ensures var b := log + DebitRows(items, at, claim);
            |log| + k < |b| && b[|log| + k] == ItemRow(items[k], at, false, Some(ItemRef(claim, k)))
  {
  }

  lemma DebitsRecorded(log: seq<Option<PointsTx>>, items: seq<Item>, at: int, claim: nat)
    requires forall k {:trigger items[k].tx} :: 0 <= k < |items| ==> items[k].tx == |log| + k
    ensures Recorded(log + DebitRows(items, at, claim), items, claim)
  {
    var b := log + DebitRows(items, at, claim);
    forall k | 0 <= k < |items|
      ensures items[k].tx < |b| && b[items[k].tx] == ItemRow(items[k], at, false, Some(ItemRef(claim, k)))
    {
      DebitAt(log, items, at, claim, k);
    }
  }

  lemma StartedTablesOk(s: Sys, user: nat, amount: int, rows: seq<Fetched>, wallet: Option<string>, at: int)
    requires Inv(s) && FetchedFor(s.db.ledgers, user, rows)
    requires Reserve(s.db, user, amount, rows, wallet, at).Ok?
    ensures TablesOk(Reserved(s.db, Reserve(s.db, user, amount, rows, wallet, at).value, at))
  {
    ReservationItems(s.db, user, amount, rows, wallet, at);
    ReservationLedgers(s.db, user, amount, rows, wallet, at);
  }

  lemma StartClaimKeeps(s: Sys, user: nat, amount: int, rows: seq<Fetched>, wallet: Option<string>, at: int,
          ending: Ending)
    requires Inv(s) && user < |s.db.balances| && FetchedFor(s.db.ledgers, user, rows)
    ensures Inv(StartClaimStep(s, user, amount, rows, wallet, at, ending))
  {
    if ending != Abort && Reserve(s.db, user, amount, rows, wallet, at).Ok? {
      StartedClaimOk(s, user, amount, rows, wallet, at, ending);
      StartedTablesOk(s, user, amount, rows, wallet, at);
      ClaimStep(s, StartClaimStep(s, user, amount, rows, wallet, at, ending), |s.claims|);
    }
  }

  /** A step of claim c that changes its row's status and hash, and its program counter. */
  lemma RowStep(s: Sys, t: Sys, c: nat)
    requires Inv(s) && c < |s.claims| && t.spends == s.spends && t.chain == s.chain
    requires t.db == s.db.(claims := t.db.claims, balances := t.db.balances)
    requires BalancesGrow(s.db.balances, t.db.balances) && TablesOk(t.db)
    requires |t.claims| == |s.claims| && t.claims == s.claims[c := t.claims[c]]
    requires t.claims[c].res == s.claims[c].res && t.claims[c].mint == s.claims[c].mint
    requires |t.db.claims| == |s.db.claims| && t.db.claims == s.db.claims[c := t.db.claims[c]]
    requires t.db.claims[c].Some? ==> s.db.claims[c].Some? && t.db.claims[c].value == s.db.claims[c].value.(
                                        status := t.db.claims[c].value.status, txHash := t.db.claims[c].value.txHash)
    requires StatusOk(t, c) && PcOk(t, c)
    ensures Inv(t)
  {
    assert ClaimOk(s, c);
    assert OwnedItems(t.db.ledgers, t.claims[c].res.items, t.claims[c].res.user);
    ClaimStep(s, t, c);
  }

  lemma GoToKeeps(s: Sys, c: nat, pc: ClaimPc)
    requires Inv(s) && c < |s.claims| && PcOk(GoTo(s, c, pc), c)
    ensures Inv(GoTo(s, c, pc))
  {
    assert ClaimOk(s, c);
    RowStep(s, GoTo(s, c, pc), c);
  }

  lemma BroadcastSentKeeps(s: Sys, c: nat)
    requires Inv(s) && ClaimAt(s, c, Broadcasting)
    ensures Inv(BroadcastSentStep(s, c))
  {
    var t := BroadcastSentStep(s, c);
    assert ClaimOk(s, c);
    assert t.db.ledgers == s.db.ledgers;
    assert OwnedItems(t.db.ledgers, t.claims[c].res.items, t.claims[c].res.user);
    ClaimStep(s, t, c);
  }

  /** A step that returns the items of claim c to the ledgers and ends its call. */
  lemma GiveBackStep(s: Sys, t: Sys, c: nat)
    requires Inv(s) && c < |s.claims| && t.spends == s.spends && t.chain == s.chain
    requires t.claims == s.claims[c := s.claims[c].(pc := ReturnedError)]
    requires t.db.balances == s.db.balances && t.db.redemptions == s.db.redemptions
    requires t.db.ledgers == ApplyItems(s.db.ledgers, s.claims[c].res.items, true)
    requires |t.db.claims| == |s.db.claims| && t.db.claims == s.db.claims[c := t.db.claims[c]]
    requires LogOnLedgers(t.db) && forall d :: 0 <= d < |s.claims| && d != c ==> LogKeeps(s.db.log, t.db.log, d)
    requires RowOk(t, c) && StatusOk(t, c)
    ensures Inv(t)
  {
    var items := s.claims[c].res.items;
    assert ClaimOk(s, c);
    ApplyFirstBack(s.db.ledgers, items, |items|);
    assert OwnedItems(t.db.ledgers, items, s.claims[c].res.user);
    ClaimStep(s, t, c);
  }

  lemma RollBackKeeps(s: Sys, c: nat, ending: Ending)
    requires Inv(s) && ClaimAt(s, c, RollingBack)
    ensures Inv(RollBackStep(s, c, ending))
  {
    assert ClaimOk(s, c);
    if ending == Abort {
      GoToKeeps(s, c, ReturnedError);
    } else {
      var t, items := RollBackStep(s, c, ending), s.claims[c].res.items;
      RolledBackLog(s.db.log, items, c);
      assert LogOnLedgers(t.db);
      GiveBackStep(s, t, c);
    }
  }

  /** Rolling claim c back deletes log rows of claim c only. */
  lemma RolledBackLog(log: seq<Option<PointsTx>>, items: seq<Item>, c: nat)
    requires Recorded(log, items, c)
    ensures forall d :: d != c ==> LogKeeps(log, DeleteRows(log, items), d)
    ensures forall i :: 0 <= i < |log| ==> DeleteRows(log, items)[i] == log[i] || DeleteRows(log, items)[i].None?
  {
    DeleteRowsSum(log, items, c, Every());
    DeletedAreNone(log, items, |items|);
  }

  lemma {:induction false} DeletedAreNone(log: seq<Option<PointsTx>>, items: seq<Item>, n: nat)
    requires n <= |items|
    ensures forall i :: 0 <= i < |log| ==>
        DeleteFirst(log, items, n)[i] == log[i]
        || DeleteFirst(log, items, n)[i].None?
  {
    if n == 0 {
    } else {
      DeletedAreNone(log, items, n - 1);
    }
  }

  lemma RecordBroadcastKeeps(s: Sys, c: nat, ending: Ending)
    requires Inv(s) && ClaimAt(s, c, RecordingBroadcast) && s.claims[c].mint.Some?
    ensures Inv(RecordBroadcastStep(s, c, ending))
  {
    assert ClaimOk(s, c);
    RowStep(s, RecordBroadcastStep(s, c, ending), c);
  }

  lemma ReceiptKeeps(s: Sys, c: nat, verdict: Verdict)
    requires Inv(s) && ClaimAt(s, c, AwaitingReceipt) && Truthful(s, s.claims[c].mint, verdict)
    ensures Inv(GoTo(s, c, AfterReceipt(verdict)))
  {
    assert ClaimOk(s, c);
    GoToKeeps(s, c, AfterReceipt(verdict));
  }

  lemma CompensateKeeps(s: Sys, c: nat, at: int, ending: Ending)
    requires Inv(s) && ClaimAt(s, c, Compensating) && s.claims[c].mint.Some?
    ensures Inv(CompensateStep(s, c, at, ending))
  {
    assert ClaimOk(s, c);
    if ending == Abort {
      GoToKeeps(s, c, ReturnedError);
    } else {
      var t, items := CompensateStep(s, c, at, ending), s.claims[c].res.items;
      assert Recorded(t.db.log, items, c);
      GiveBackStep(s, t, c);
    }
  }

  lemma RecordUnknownKeeps(s: Sys, c: nat, ending: Ending)
    requires Inv(s) && ClaimAt(s, c, RecordingUnknown) && s.claims[c].mint.Some?
    ensures Inv(RecordUnknownStep(s, c, ending))
  {
    assert ClaimOk(s, c);
    RowStep(s, RecordUnknownStep(s, c, ending), c);
  }

  lemma FinalizeKeeps(s: Sys, c: nat, ending: Ending)
    requires Inv(s) && ClaimAt(s, c, Finalizing) && s.claims[c].mint.Some?
    ensures Inv(FinalizeStep(s, c, ending))
  {
    assert ClaimOk(s, c);
    RowStep(s, FinalizeStep(s, c, ending), c);
  }

  lemma MarkKeeps(s: Sys, c: nat, ending: Ending)
    requires Inv(s) && ClaimAt(s, c, MarkingFinalizeFailed) && s.claims[c].mint.Some?
    ensures Inv(MarkStep(s, c, ending))
  {
    assert ClaimOk(s, c);
    RowStep(s, MarkStep(s, c, ending), c);
  }

  lemma RecoverKeeps(s: Sys, c: nat, hash: Option<nat>, ending: Ending)
    requires Inv(s) && Recoverable(s, c)
    ensures Inv(RecoverStep(s, c, hash, ending))
  {
    assert ClaimOk(s, c);
    RowStep(s, RecoverStep(s, c, hash, ending), c);
  }

  lemma RetryMarkKeeps(s: Sys, c: nat, hash: Option<nat>, ending: Ending)
    requires Inv(s) && Recoverable(s, c)
    ensures Inv(RetryMarkStep(s, c, hash, ending))
  {
    assert ClaimOk(s, c);
    RowStep(s, RetryMarkStep(s, c, hash, ending), c);
  }

  lemma MineKeeps(s: Sys, h: nat, success: bool)
    requires Inv(s) && h < |s.chain| && s.chain[h].settlement == Unmined
    ensures Inv(MineStep(s, h, success))
  {
    ClaimStep(s, MineStep(s, h, success), |s.claims|);
  }

  // ---------- redemptions ----------

  lemma StartSpendKeeps(s: Sys, user: nat, coupon: string, amount: int, wallet: Option<string>, client: bool,
          ending: Ending)
    requires Inv(s) && user < |s.db.balances|
    ensures Inv(StartSpendStep(s, user, coupon, amount, wallet, client, ending))
  {
    SpendStep(s, StartSpendStep(s, user, coupon, amount, wallet, client, ending), |s.spends|);
  }

  lemma SpendToKeeps(s: Sys, q: nat, pc: SpendPc)
    requires Inv(s) && q < |s.spends| && SpendPcOk(SpendTo(s, q, pc), q)
    requires BurnDone(s.spends[q].pc) ==> BurnDone(pc)
    ensures Inv(SpendTo(s, q, pc))
  {
    assert SpendOk(s, q);
    SpendStep(s, SpendTo(s, q, pc), q);
  }

  lemma BurnSentKeeps(s: Sys, q: nat)
    requires Inv(s) && SpendAt(s, q, Burning)
    ensures Inv(BurnSentStep(s, q))
  {
    assert SpendOk(s, q);
    SpendStep(s, BurnSentStep(s, q), q);
  }

  lemma BurnReturnsKeeps(s: Sys, q: nat, verdict: Verdict)
    requires Inv(s) && SpendAt(s, q, AwaitingBurn) && Truthful(s, s.spends[q].burn, verdict)
    ensures Inv(SpendTo(s, q, AfterBurn(verdict)))
  {
    assert SpendOk(s, q);
    SpendToKeeps(s, q, AfterBurn(verdict));
  }

  lemma UndoSpendKeeps(s: Sys, q: nat, ending: Ending)
    requires Inv(s) && SpendAt(s, q, RollingBackSpend)
    ensures Inv(UndoSpendStep(s, q, ending))
  {
    assert SpendOk(s, q);
    SpendStep(s, UndoSpendStep(s, q, ending), q);
  }

  lemma RecordBurnKeeps(s: Sys, q: nat, ending: Ending)
    requires Inv(s) && (SpendAt(s, q, RecordingBurn) || SpendAt(s, q, RecordingUnknownBurn)) && s.spends[q].burn.Some?
    ensures Inv(RecordBurnStep(s, q, ending))
  {
    assert SpendOk(s, q);
    SpendStep(s, RecordBurnStep(s, q, ending), q);
  }

  lemma TachiyaKeeps(s: Sys, q: nat, voucher: Option<string>)
    requires Inv(s) && SpendAt(s, q, CallingTachiya)
    ensures Inv(SpendTo(s, q, AfterTachiya(voucher)))
  {
    assert SpendOk(s, q);
    SpendToKeeps(s, q, AfterTachiya(voucher));
  }

  /** Updating the record of call q while moving its program counter. */
  lemma SaveAs(s: Sys, q: nat, pc: SpendPc, ending: Ending, status: RedemptionStatus, voucher: Option<string>)
    requires Inv(s) && q < |s.spends| && s.spends[q].redemption.Some? && BurnDone(pc)
    requires var t := SpendTo(s, q, pc).(
               db := if ending == Abort then s.db
                   else UpdateRedemption(s.db, s.spends[q].redemption.value, status, voucher));
             SpendPcOk(t, q)
    ensures Inv(SpendTo(s, q, pc).(
               db := if ending == Abort then s.db
                   else UpdateRedemption(s.db, s.spends[q].redemption.value, status, voucher)))
  {
    assert SpendOk(s, q);
    SpendStep(s, SpendTo(s, q, pc).(
               db := if ending == Abort then s.db
                   else UpdateRedemption(s.db, s.spends[q].redemption.value, status, voucher)), q);
  }

  lemma SaveKeeps(s: Sys, q: nat, ending: Ending)
    requires Inv(s) && SpendEnabled(s, q, SaveRedemption(ending))
    ensures Inv(SaveStep(s, q, ending))
  {
    assert SpendOk(s, q);
    var balance := s.spends[q].newBalance;
    match s.spends[q].pc
    case SavingVoucher(code) =>
      SaveAs(s, q, if ending == Commit then Returned(balance, Some(code))
          else ReturnedSpendError, ending, Redeemed, Some(code));
    case SavingWithoutClient =>
      SaveAs(s, q, Returned(balance, None), ending, Redeemed, None);
    case MarkingCompensation =>
      SaveAs(s, q, ReturnedSpendError, ending, CompensationNeeded, None);
  }

  // ---------- every step, every run ----------

  lemma PointsStepKeeps(s: Sys, a: PointsAction)
    requires Inv(s) && PointsEnabled(s, a)
    ensures Inv(PointsStep(s, a))
  {
    match a
    case CreditPoints(user, channel, at, source, amount, meta, ending) => CreditKeeps(s, user, channel, at, source,
        amount, meta, ending);
    case DeductPoints(user, channel, at, amount, ending) => DeductKeeps(s, user, channel, at, amount, ending);
    case AirdropPoints(channel, at, viewers, amount, ending) => AirdropKeeps(s, channel, at, viewers, amount, ending);
    case StartClaim(user, amount, rows, wallet, at, ending) => StartClaimKeeps(s, user, amount, rows, wallet, at,
        ending);
  }

  lemma ClaimStepKeeps(s: Sys, c: nat, a: ClaimAction)
    requires Inv(s) && ClaimEnabled(s, c, a)
    ensures Inv(ClaimActionStep(s, c, a))
  {
    match a
    case BroadcastFails => assert ClaimOk(s, c); GoToKeeps(s, c, RollingBack);
    case BroadcastSent => BroadcastSentKeeps(s, c);
    case RollBackClaim(ending) => RollBackKeeps(s, c, ending);
    case RecordBroadcast(ending) => RecordBroadcastKeeps(s, c, ending);
    case ReceiptArrives(verdict) => ReceiptKeeps(s, c, verdict);
    case CompensateClaim(at, ending) => CompensateKeeps(s, c, at, ending);
    case RecordUnknownReceipt(ending) => RecordUnknownKeeps(s, c, ending);
    case FinalizeClaim(ending) => FinalizeKeeps(s, c, ending);
    case MarkClaim(ending) => MarkKeeps(s, c, ending);
    case Recover(hash, ending) => RecoverKeeps(s, c, hash, ending);
    case RetryMark(hash, ending) => RetryMarkKeeps(s, c, hash, ending);
  }

  lemma SpendStepKeeps(s: Sys, q: nat, a: SpendAction)
    requires Inv(s) && SpendEnabled(s, q, a)
    ensures Inv(SpendActionStep(s, q, a))
  {
    match a
    case BurnNotSent => assert SpendOk(s, q); SpendToKeeps(s, q, RollingBackSpend);
    case BurnSent => BurnSentKeeps(s, q);
    case BurnReturns(verdict) => BurnReturnsKeeps(s, q, verdict);
    case UndoSpend(ending) => UndoSpendKeeps(s, q, ending);
    case RecordBurn(ending) => RecordBurnKeeps(s, q, ending);
    case TachiyaAnswers(voucher) => TachiyaKeeps(s, q, voucher);
    case SaveRedemption(ending) => SaveKeeps(s, q, ending);
  }

  lemma StepKeeps(s: Sys, e: Event)
    requires Inv(s) && Enabled(s, e)
    ensures Inv(Step(s, e))
  {
    match e
    case Register => PointsOnly(s, s.db.(balances := s.db.balances + [None]));
    case Mine(hash, success) => MineKeeps(s, hash, success);
    case OnPoints(a) => PointsStepKeeps(s, a);
    case OnClaim(c, a) => ClaimStepKeeps(s, c, a);
    case StartSpend(user, coupon, amount, wallet, client, ending) => StartSpendKeeps(s, user, coupon, amount, wallet,
        client, ending);
    case OnSpend(q, a) => SpendStepKeeps(s, q, a);
  }

  /** Main result: every state of every run meets the invariant. */
  lemma {:induction false} RunKeeps(configs: map<string, int>, run: seq<Event>)
    requires Allowed(Start(configs), run)
    ensures Inv(Exec(Start(configs), run))
  {
    if run == [] {
    } else {
      RunKeeps(configs, run[..|run| - 1]);
      StepKeeps(Exec(Start(configs), run[..|run| - 1]), run[|run| - 1]);
    }
  }
}
