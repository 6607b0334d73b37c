/** The running service: Claim and Redeem as the sources write them, one transaction or chain call
    after the other, with other calls free to run in between. Every call is proved to be a run of the
    machine, so all results about runs apply to it, and its result is proved to tell the truth. */
module Backend {
  import opened Store
  import opened Points
  import opened Claims
  import opened Spends
  import opened Machine
  import opened Invariant
  import opened Runs
  import opened Tables

  /** The ways Claim can fail. A flag tells whether the clean-up transaction reported success. */
  datatype ClaimFailure =
    | ClaimRefused(reason: ClaimError)
    | ClaimNotReserved
    | NotBroadcast(rolledBack: bool)
    | BroadcastUnrecorded
    | ReceiptFailed(compensated: bool)
    | ReceiptUnknown(recorded: bool)
    | NotFinalized(marked: bool)

  datatype SpendFailure =
    | SpendRefused(reason: SpendError)
    | SpendNotReserved
    | BurnFailed(returned: bool)
    | BurnUnknown(recorded: bool)
    | BurnUnrecorded
    | TachiyaFailed(marked: bool)
    | VoucherUnsaved

  datatype Redeemed = RedeemedFor(balance: int, voucher: Option<string>)

  /** The reservation is refused for the reason given. */
  ghost predicate RefusedFor(db: Db, user: nat, amount: int, wallet: Option<string>, reason: ClaimError) {
    exists rows, at :: FetchedFor(db.ledgers, user, rows) && Reserve(db, user, amount, rows, wallet, at) == Err(reason)
  }

  /** What the result of a call says about its claim in the state t it returns in. */
  predicate ClaimTold(t: Sys, res: Reservation, r: Result<int, ClaimFailure>) {
    var c := res.claim;
    && c < |t.claims| == |t.db.claims| && t.claims[c].res == res
    && t.claims[c].pc == (if r.Ok? then Paid(r.value) else ReturnedError)
    && match r
       case Ok(balance) =>
         && HasStatus(t, c, Confirmed) && SettledAs(t, t.claims[c].mint, Succeeded)
         && res.user < |t.db.balances| && t.db.balances[res.user] == Some(balance)
       case Err(NotBroadcast(rolledBack)) => t.claims[c].mint.None?
           && (if rolledBack then t.db.claims[c].None? else true)
       case Err(BroadcastUnrecorded) => t.claims[c].mint.Some?
           && (HasStatus(t, c, Pending) || HasStatus(t, c, Broadcast))
       case Err(ReceiptFailed(compensated)) =>
         && SettledAs(t, t.claims[c].mint, Reverted)
         && (HasStatus(t, c, Failed) || (!compensated && HasStatus(t, c, Broadcast)))
       case Err(ReceiptUnknown(_)) =>
         t.claims[c].mint.Some? && HasStatus(t, c, Broadcast) && t.db.claims[c].value.txHash == t.claims[c].mint
       case Err(NotFinalized(marked)) =>
         && SettledAs(t, t.claims[c].mint, Succeeded)
         && (HasStatus(t, c, FinalizeFailed) || HasStatus(t, c, Confirmed) || (!marked && HasStatus(t, c, Broadcast)))
       case Err(ClaimNotReserved) => HasStatus(t, c, Pending) && t.claims[c].mint.None?
       case Err(ClaimRefused(_)) => false
  }

  /** The call got the next claim, for the user and amount asked for. */
  predicate Got(s: Sys, t: Sys, user: nat, amount: int, res: Reservation) {
    && res.claim == |s.claims| < |t.claims| && t.claims[res.claim].res == res
    && res.user == user && (amount != 0 ==> res.amount == amount)
  }

  /** What happened to a Claim call: how its transactions ended, whether the mint was sent, and what the
      receipt said. settle is the rollback, the compensation, the record of an unknown receipt, or the
      finalization; last is the state before it. Parts that the call did not get to are arbitrary. */
  datatype ClaimTrace = ClaimTrace(reserve: Ending, sent: bool, record: Ending, verdict: Verdict, settle: Ending,
                                   mark: Ending, last: Sys)

  /** How a call that is not refused must end; None is success. */
  function ClaimOutcome(x: ClaimTrace): Option<ClaimFailure> {
    if x.reserve != Commit then Some(ClaimNotReserved)
    else if !x.sent then Some(NotBroadcast(x.settle == Commit))
    else if x.record != Commit then Some(BroadcastUnrecorded)
    else if x.verdict == StatusFailed then Some(ReceiptFailed(x.settle == Commit))
    else if x.verdict == Unknown then Some(ReceiptUnknown(x.settle == Commit))
    else if x.settle != Commit then Some(NotFinalized(x.mark == Commit))
    else None
  }

  predicate AnswersClaim(x: ClaimTrace, r: Result<int, ClaimFailure>) {
    match ClaimOutcome(x)
    case None => r.Ok?
    case Some(failure) => r == Err(failure)
  }

  /** The user's balance is raised by exactly the claim amount. */
  predicate Raised(s: Sys, t: Sys, res: Reservation, balance: int) {
    && res.user < |s.db.balances| && balance == BalanceOf(s.db.balances, res.user) + res.amount
    && t.db.balances == s.db.balances[res.user := Some(balance)]
  }

  /** The call's last transaction did that. */
  ghost predicate PaidOut(s: Sys, x: ClaimTrace, t: Sys, res: Reservation, balance: int) {
    Reaches(s, x.last, Anyone) && Raised(x.last, t, res, balance)
  }

  // ---------- what each last transaction of a claim leaves behind ----------

  lemma StartedTold(s: Sys, user: nat, amount: int, rows: seq<Fetched>, wallet: Option<string>, at: int,
          ending: Ending)
    requires Inv(s) && FetchedFor(s.db.ledgers, user, rows) && user < |s.db.balances| && ending != Abort
    requires Reserve(s.db, user, amount, rows, wallet, at).Ok?
    ensures var t := StartClaimStep(s, user, amount, rows, wallet, at, ending);
            var res := Reserve(s.db, user, amount, rows, wallet, at).value;
            && Got(s, t, user, amount, res) && ClaimAt(t, res.claim, if ending == Commit then Broadcasting
                else ReturnedError)
            && (ending != Commit ==> ClaimTold(t, res, Err(ClaimNotReserved)))
  {
  }

  lemma RolledBackTold(s: Sys, c: nat, ending: Ending)
    requires Inv(s) && ClaimAt(s, c, RollingBack)
    ensures var t := RollBackStep(s, c, ending);
            Inv(t) && Reaches(s, t, Anyone) && ClaimTold(t, s.claims[c].res, Err(NotBroadcast(ending == Commit)))
  {
    assert ClaimOk(s, c);
    Steps(s, OnClaim(c, RollBackClaim(ending)));
  }

  lemma UnrecordedTold(s: Sys, c: nat, ending: Ending)
    requires Inv(s) && ClaimAt(s, c, RecordingBroadcast) && s.claims[c].mint.Some?
    ensures var t := RecordBroadcastStep(s, c, ending);
            && Inv(t) && Reaches(s, t, Anyone)
            && (ending != Commit ==> ClaimTold(t, s.claims[c].res, Err(BroadcastUnrecorded)))
  {
    assert ClaimOk(s, c);
    Steps(s, OnClaim(c, RecordBroadcast(ending)));
  }

  lemma CompensatedTold(s: Sys, c: nat, at: int, ending: Ending)
    requires Inv(s) && ClaimAt(s, c, Compensating) && s.claims[c].mint.Some?
    ensures var t, res := CompensateStep(s, c, at, ending), s.claims[c].res;
            && Inv(t) && Reaches(s, t, Anyone)
            && Compensate(s.db, res, s.claims[c].mint.value, at).Ok?
            && ClaimTold(t, res, Err(ReceiptFailed(ending == Commit)))
            && (ending == Commit ==> HasStatus(t, c, Failed))
  {
    assert ClaimOk(s, c);
    Steps(s, OnClaim(c, CompensateClaim(at, ending)));
  }

  lemma UnknownTold(s: Sys, c: nat, ending: Ending)
    requires Inv(s) && ClaimAt(s, c, RecordingUnknown) && s.claims[c].mint.Some?
    ensures var t := RecordUnknownStep(s, c, ending);
            Inv(t) && Reaches(s, t, Anyone) && ClaimTold(t, s.claims[c].res, Err(ReceiptUnknown(ending == Commit)))
  {
    assert ClaimOk(s, c);
    Steps(s, OnClaim(c, RecordUnknownReceipt(ending)));
  }

  /** The finalization of a claim whose mint is known to have succeeded cannot be refused. */
  lemma FinalizePays(s: Sys, c: nat)
    requires Inv(s) && ClaimAt(s, c, Finalizing) && s.claims[c].mint.Some?
    ensures var t, user := FinalizeStep(s, c, Commit), s.claims[c].res.user;
            var balance := BalanceOf(s.db.balances, user) + s.claims[c].res.amount;
            && c < |t.claims| && t.claims[c].pc == Paid(balance) && user < |s.db.balances|
            && t.db.balances == s.db.balances[user := Some(balance)]
  {
    assert ClaimOk(s, c);
  }

  lemma FinalizedTold(s: Sys, c: nat, ending: Ending)
    requires Inv(s) && ClaimAt(s, c, Finalizing) && s.claims[c].mint.Some?
    ensures var t := FinalizeStep(s, c, ending);
            && Inv(t) && Reaches(s, t, Anyone) && c < |t.claims|
            && (ending != Commit ==> t.claims[c].pc == MarkingFinalizeFailed)
            && (t.claims[c].pc.Paid? ==> ClaimTold(t, s.claims[c].res, Ok(t.claims[c].pc.balance)))
  {
    assert ClaimOk(s, c);
    Steps(s, OnClaim(c, FinalizeClaim(ending)));
  }

  lemma MarkedTold(s: Sys, c: nat, ending: Ending)
    requires Inv(s) && ClaimAt(s, c, MarkingFinalizeFailed) && s.claims[c].mint.Some?
    ensures var t, res := MarkStep(s, c, ending), s.claims[c].res;
            && Inv(t) && Reaches(s, t, Anyone)
            && MarkFinalizeFailed(s.db, res, s.claims[c].mint).Ok?
            && ClaimTold(t, res, Err(NotFinalized(ending == Commit)))
  {
    assert ClaimOk(s, c);
    Steps(s, OnClaim(c, MarkClaim(ending)));
  }

  // ---------- redemptions ----------

  /** The order that a Redeem call carries out. */
  datatype Order = Order(user: nat, coupon: string, amount: int, client: bool)

  predicate Carries(s: Sys, q: nat, order: Order) {
    && q < |s.spends| && s.spends[q].user == order.user && s.spends[q].coupon == order.coupon
    && s.spends[q].amount == order.amount && s.spends[q].client == order.client
  }

  predicate Burnt(t: Sys, q: nat)
    requires q < |t.spends|
  {
    t.spends[q].debited && SettledAs(t, t.spends[q].burn, Succeeded)
  }

  /** The record created by this call, with the fields of its order. */
  predicate Record(t: Sys, q: nat, status: RedemptionStatus, voucher: Option<string>)
    requires q < |t.spends|
  {
    var run := t.spends[q];
    run.burn.Some? && Redemption(run.user, run.coupon, run.amount, run.burn.value, status, voucher) in t.db.redemptions
  }

  /** What happened to a Redeem call; settle is the return of the debit or the record of the burn, voucher
      is what Tachiya answered. Parts that the call did not get to are arbitrary. */
  datatype SpendTrace = SpendTrace(reserve: Ending, sent: bool, verdict: Verdict, settle: Ending,
                                   voucher: Option<string>, save: Ending)

  /** How a call that is not refused must end. */
  function SpendOutcome(x: SpendTrace, client: bool): Result<Option<string>, SpendFailure> {
    if x.reserve != Commit then Err(SpendNotReserved)
    else if !x.sent || x.verdict == StatusFailed then Err(BurnFailed(x.settle == Commit))
    else if x.verdict == Unknown then Err(BurnUnknown(x.settle == Commit))
    else if x.settle != Commit then Err(BurnUnrecorded)
    else if !client then Ok(None)
    else if x.voucher.None? then Err(TachiyaFailed(x.save == Commit))
    else if x.save != Commit then Err(VoucherUnsaved)
    else Ok(x.voucher)
  }

  predicate AnswersSpend(x: SpendTrace, order: Order, r: Result<Redeemed, SpendFailure>) {
    match SpendOutcome(x, order.client)
    case Ok(voucher) => r.Ok? && r.value.voucher == voucher
    case Err(failure) => r == Err(failure)
  }

  /** If the call got to its last update and that took effect, its record holds what Tachiya answered. */
  predicate RecordHolds(x: SpendTrace, t: Sys, q: nat, order: Order)
    requires q < |t.spends|
  {
    x.reserve == Commit && x.sent && x.verdict == Success && x.settle == Commit && x.save != Abort ==>
      if !order.client then Record(t, q, RedemptionStatus.Redeemed, None)
      else if x.voucher.None? then Record(t, q, CompensationNeeded, None)
      else Record(t, q, RedemptionStatus.Redeemed, x.voucher)
  }

  /** What the result of a Redeem call says about the state t it returns in. */
  predicate SpendTold(t: Sys, q: nat, order: Order, r: Result<Redeemed, SpendFailure>) {
    && Carries(t, q, order)
    && t.spends[q].pc == (if r.Ok? then Returned(r.value.balance, r.value.voucher) else ReturnedSpendError)
    && match r
       case Ok(RedeemedFor(balance, voucher)) =>
         && Burnt(t, q) && balance == t.spends[q].newBalance
         && voucher.Some? == order.client && (order.client ==> Record(t, q, RedemptionStatus.Redeemed, voucher))
       case Err(BurnFailed(returned)) => NotBurned(t, t.spends[q].burn) && (returned ==> !t.spends[q].debited)
       case Err(BurnUnknown(recorded)) => t.spends[q].debited && t.spends[q].burn.Some?
           && (recorded ==> Record(t, q, Unresolved, None))
       case Err(BurnUnrecorded) => Burnt(t, q)
       case Err(TachiyaFailed(marked)) => Burnt(t, q)
           && (OwnRecord(t, q, CompensationNeeded) || (!marked && OwnRecord(t, q, Unresolved)))
       case Err(VoucherUnsaved) => Burnt(t, q)
           && (OwnRecord(t, q, RedemptionStatus.Redeemed) || OwnRecord(t, q, Unresolved))
       case Err(SpendNotReserved) => t.spends[q].debited && t.spends[q].burn.None?
       case Err(SpendRefused(_)) => false
  }

  lemma UndoneTold(s: Sys, q: nat, order: Order, ending: Ending)
    requires Inv(s) && SpendAt(s, q, RollingBackSpend) && Carries(s, q, order)
    ensures var t := UndoSpendStep(s, q, ending);
            && Inv(t) && Reaches(s, t, Anyone) && RollbackSpend(s.db, order.user, order.amount).Ok?
            && SpendTold(t, q, order, Err(BurnFailed(ending == Commit)))
  {
    assert SpendOk(s, q);
    Steps(s, OnSpend(q, UndoSpend(ending)));
  }

  lemma RecordedTold(s: Sys, q: nat, order: Order, ending: Ending)
    requires Inv(s) && (SpendAt(s, q, RecordingBurn) || SpendAt(s, q, RecordingUnknownBurn)) && s.spends[q].burn.Some?
        && Carries(s, q, order)
    ensures var t := RecordBurnStep(s, q, ending);
            && Inv(t) && Reaches(s, t, Anyone)
            && (s.spends[q].pc == RecordingUnknownBurn ==> SpendTold(t, q, order, Err(BurnUnknown(ending == Commit))))
            && (s.spends[q].pc == RecordingBurn && ending != Commit ==> SpendTold(t, q, order, Err(BurnUnrecorded)))
  {
    assert SpendOk(s, q);
    Steps(s, OnSpend(q, RecordBurn(ending)));
    var t := RecordBurnStep(s, q, ending);
    if ending == Commit {
      assert t.db.redemptions[|s.db.redemptions|] in t.db.redemptions;
    }
  }

  /** The call's answer after the last update of its record. */
  function SaveAnswer(run: SpendRun, ending: Ending): Result<Redeemed, SpendFailure> {
    match run.pc
    case SavingVoucher(code) => if ending == Commit then Ok(RedeemedFor(run.newBalance, Some(code)))
        else Err(VoucherUnsaved)
    case SavingWithoutClient => Ok(RedeemedFor(run.newBalance, None))
    case _ => Err(TachiyaFailed(ending == Commit))
  }

  /** The record after the update that the program point asks for. */
  predicate SavedFor(pc: SpendPc, t: Sys, q: nat)
    requires q < |t.spends|
  {
    match pc
    case SavingVoucher(code) => Record(t, q, RedemptionStatus.Redeemed, Some(code))
    case SavingWithoutClient => Record(t, q, RedemptionStatus.Redeemed, None)
    case _ => Record(t, q, CompensationNeeded, None)
  }

  lemma SavedTold(s: Sys, q: nat, order: Order, ending: Ending)
    requires Inv(s) && SpendEnabled(s, q, SaveRedemption(ending)) && Carries(s, q, order)
    ensures var t := SaveStep(s, q, ending);
            Inv(t) && Reaches(s, t, Anyone) && SpendTold(t, q, order, SaveAnswer(s.spends[q], ending))
            && (ending != Abort ==> SavedFor(s.spends[q].pc, t, q))
  {
    Steps(s, OnSpend(q, SaveRedemption(ending)));
    AnswerSaved(s, q, order, ending);
  }

  lemma AnswerSaved(s: Sys, q: nat, order: Order, ending: Ending)
    requires Inv(s) && SpendEnabled(s, q, SaveRedemption(ending)) && Carries(s, q, order)
    ensures SpendTold(SaveStep(s, q, ending), q, order, SaveAnswer(s.spends[q], ending))
    ensures ending != Abort ==> SavedFor(s.spends[q].pc, SaveStep(s, q, ending), q)
  {
    var t, id := SaveStep(s, q, ending), s.spends[q].redemption.value;
    assert SpendOk(s, q);
    assert RedemptionOk(s, id);
    assert t.db.redemptions[id] in t.db.redemptions;
  }

  lemma VoucherAnswered(run: SpendRun, t: Sys, q: nat, order: Order, voucher: Option<string>, ending: Ending)
    requires run.pc == if order.client then AfterTachiya(voucher) else SavingWithoutClient
    requires q < |t.spends| && (ending != Abort ==> SavedFor(run.pc, t, q))
    ensures var x := SpendTrace(Commit, true, Success, Commit, voucher, ending);
            AnswersSpend(x, order, SaveAnswer(run, ending)) && RecordHolds(x, t, q, order)
  {
  }

  class Service {
    const tables: Database
    const configs: map<string, int>
    /** Book-keeping of the calls that got a reservation. */
    var claims: seq<ClaimRun>
    var spends: seq<SpendRun>
    var chain: seq<ChainTx>

    constructor (limits: map<string, int>)
      ensures View() == Start(limits)
    {
      tables := new Database();
      configs := limits;
      claims, spends, chain := [], [], [];
    }

    ghost function View(): Sys
      reads this, tables
    {
      Sys(tables.State(), claims, spends, chain, configs)
    }

    /** Other calls run: any number of their steps. The contract is all that callers know. */
    method Others(ghost me: Caller)
      requires Inv(View())
      modifies this, tables
      ensures Inv(View()) && Reaches(old(View()), View(), Anyone) && OwnKept(old(View()), View(), me)
    {
      ReachesSelf(View(), Anyone);
    }

    // ---------- the transactions and chain calls of Claim ----------
    // An aborted transaction leaves no trace, so its body is not played.

    method TryReserve(user: nat, amount: int, wallet: Option<string>, at: int)
        returns (r: Result<Reservation, ClaimFailure>, ghost e: Event, ghost ending: Ending)
      requires Inv(View()) && user < |tables.balances|
      modifies this`claims, tables
      ensures Enabled(old(View()), e) && View() == Step(old(View()), e)
      ensures r.Ok? ==> && Got(old(View()), View(), user, amount, r.value) && ending == Commit
                        && ClaimAt(View(), r.value.claim, Broadcasting)
      ensures r.Err? && r.error.ClaimRefused? ==>
                && View() == old(View()) && ending != Abort
                && RefusedFor(old(tables.State()), user, amount, wallet, r.error.reason)
      ensures r.Err? && !r.error.ClaimRefused? ==>
                && r.error == ClaimNotReserved && ending != Commit
                && (View() == old(View()) || exists res ::
                      Got(old(View()), View(), user, amount, res) && ClaimTold(View(), res, Err(r.error)))
    {
      ghost var s := View();
      var rows := SelectSpendable(tables.ledgers, user);
      var how: Ending := *;
      ending := how;
      e := OnPoints(StartClaim(user, amount, rows, wallet, at, how));
      if how == Abort {
        return Err(ClaimNotReserved), e, how;
      }
      var reserved := tables.ReserveClaim(user, amount, rows, wallet, at);
      if reserved.Err? {
        return Err(ClaimRefused(reserved.error)), e, how;
      }
      claims := claims + [ClaimRun(reserved.value, None, if how == Commit then Broadcasting else ReturnedError)];
      StartedTold(s, user, amount, rows, wallet, at, how);
      r := if how == Commit then Ok(reserved.value) else Err(ClaimNotReserved);
    }

    /** MintBroadcastOnChain: an error comes without a hash and means that nothing was sent. */
    method Broadcast(res: Reservation) returns (hash: Option<nat>)
      requires ClaimAt(View(), res.claim, Broadcasting) && claims[res.claim].res == res
      modifies this`claims, this`chain
      ensures View() == if hash.Some? then BroadcastSentStep(old(View()), res.claim)
          else GoTo(old(View()), res.claim, RollingBack)
      ensures hash.Some? ==> hash == claims[res.claim].mint
    {
      var sent: bool := *;
      if sent {
        hash := Some(|chain|);
        chain := chain + [MintTx(res.claim, res)];
        claims := claims[res.claim := claims[res.claim].(mint := hash, pc := RecordingBroadcast)];
      } else {
        hash := None;
        claims := claims[res.claim := claims[res.claim].(pc := RollingBack)];
      }
    }

    method TryRollBack(res: Reservation) returns (ok: bool, ghost ending: Ending)
      requires ClaimAt(View(), res.claim, RollingBack) && claims[res.claim].res == res
      modifies this`claims, tables
      ensures View() == RollBackStep(old(View()), res.claim, ending) && ok == (ending == Commit)
    {
      var how: Ending := *;
      if how != Abort {
        tables.RollbackClaimReservation(res);
      }
      claims := claims[res.claim := claims[res.claim].(pc := ReturnedError)];
      return how == Commit, how;
    }

    method TryRecordBroadcast(res: Reservation, hash: nat) returns (ok: bool, ghost ending: Ending)
      requires ClaimAt(View(), res.claim, RecordingBroadcast) && claims[res.claim].res == res
          && claims[res.claim].mint == Some(hash)
      modifies this`claims, tables
      ensures View() == RecordBroadcastStep(old(View()), res.claim, ending) && ok == (ending == Commit)
    {
      var how: Ending := *;
      if how != Abort {
        tables.MarkClaimBroadcast(res, hash);
      }
      claims := claims[res.claim := claims[res.claim].(pc := if how == Commit then AwaitingReceipt else ReturnedError)];
      return how == Commit, how;
    }

    /** WaitMintReceiptOnChain: a definite answer agrees with the chain. */
    method AwaitReceipt(res: Reservation, hash: nat) returns (verdict: Verdict)
      requires ClaimAt(View(), res.claim, AwaitingReceipt) && claims[res.claim].res == res
          && claims[res.claim].mint == Some(hash)
      modifies this`claims
      ensures Truthful(old(View()), Some(hash), verdict)
          && View() == GoTo(old(View()), res.claim, AfterReceipt(verdict))
    {
      verdict := Receipt(hash);
      claims := claims[res.claim := claims[res.claim].(pc := AfterReceipt(verdict))];
    }

    method Receipt(hash: nat) returns (verdict: Verdict)
      ensures Truthful(View(), Some(hash), verdict)
    {
      var seen: bool := *;
      if !seen || hash >= |chain| || chain[hash].settlement == Unmined {
        return Unknown;
      }
      return if chain[hash].settlement == Succeeded then Success else StatusFailed;
    }

    method TryCompensate(res: Reservation, hash: nat, at: int) returns (ok: bool, ghost ending: Ending)
      requires ClaimAt(View(), res.claim, Compensating) && claims[res.claim].res == res
          && claims[res.claim].mint == Some(hash)
      modifies this`claims, tables
      ensures View() == CompensateStep(old(View()), res.claim, at, ending)
      ensures ok == (ending == Commit && Compensate(old(tables.State()), res, hash, at).Ok?)
    {
      var how: Ending := *;
      ok := how == Commit;
      if how != Abort {
        var done := tables.MarkClaimFailedAndCompensate(res, hash, at);
        ok := ok && done.Ok?;
      }
      claims := claims[res.claim := claims[res.claim].(pc := ReturnedError)];
      ending := how;
    }

    method TryRecordUnknown(res: Reservation, hash: nat) returns (ok: bool, ghost ending: Ending)
      requires ClaimAt(View(), res.claim, RecordingUnknown) && claims[res.claim].res == res
          && claims[res.claim].mint == Some(hash)
      modifies this`claims, tables
      ensures View() == RecordUnknownStep(old(View()), res.claim, ending) && ok == (ending == Commit)
    {
      var how: Ending := *;
      if how != Abort {
        tables.RecordClaimReceiptUnknown(res, hash);
      }
      claims := claims[res.claim := claims[res.claim].(pc := ReturnedError)];
      return how == Commit, how;
    }

    /** A finalization that commits pays out; any other leaves the call to mark its claim. */
    method TryFinalize(res: Reservation, hash: nat) returns (r: Option<int>, ghost ending: Ending)
      requires Inv(View()) && ClaimAt(View(), res.claim, Finalizing) && claims[res.claim].res == res
          && claims[res.claim].mint == Some(hash)
      modifies this`claims, tables
      ensures View() == FinalizeStep(old(View()), res.claim, ending)
      ensures Inv(View()) && Reaches(old(View()), View(), Anyone) && r.Some? == (ending == Commit)
      ensures r.Some? ==> ClaimTold(View(), res, Ok(r.value)) && Raised(old(View()), View(), res, r.value)
      ensures r.None? ==> ClaimAt(View(), res.claim, MarkingFinalizeFailed)
                          && claims[res.claim] == old(claims[res.claim]).(pc := MarkingFinalizeFailed)
    {
      ghost var s := View();
      var how: Ending := *;
      r := None;
      if how != Abort {
        var done := tables.FinalizeClaim(res, Some(hash));
        r := if how == Commit && done.Ok? then Some(done.value) else None;
      }
      claims := claims[res.claim := claims[res.claim].(pc := if r.Some? then Paid(r.value) else MarkingFinalizeFailed)];
      ending := how;
      FinalizePays(s, res.claim);
      FinalizedTold(s, res.claim, how);
    }

    method TryMark(res: Reservation, hash: nat) returns (ok: bool, ghost ending: Ending)
      requires ClaimAt(View(), res.claim, MarkingFinalizeFailed) && claims[res.claim].res == res
          && claims[res.claim].mint == Some(hash)
      modifies this`claims, tables
      ensures View() == MarkStep(old(View()), res.claim, ending)
      ensures ok == (ending == Commit && MarkFinalizeFailed(old(tables.State()), res, Some(hash)).Ok?)
    {
      var how: Ending := *;
      ok := how == Commit;
      if how != Abort {
        var done := tables.MarkFinalizeFailedClaim(res, Some(hash));
        ok := ok && done.Ok?;
      }
      claims := claims[res.claim := claims[res.claim].(pc := ReturnedError)];
      ending := how;
    }

    // ---------- the transactions and foreign calls of Redeem ----------

    method TrySpend(order: Order, wallet: Option<string>)
        returns (r: Result<int, SpendFailure>, ghost e: Event, ghost ending: Ending)
      requires order.user < |tables.balances|
      modifies this`spends, tables
      ensures Enabled(old(View()), e) && View() == Step(old(View()), e)
      ensures r.Ok? ==> SpendAt(View(), |old(spends)|, Burning) && Carries(View(), |old(spends)|, order)
                        && ending == Commit && r.value == spends[|old(spends)|].newBalance
                            == BalanceOf(old(tables.balances), order.user) - order.amount
      ensures r.Err? && r.error.SpendRefused? ==>
                && View() == old(View()) && ending != Abort
                && ReserveSpend(old(tables.State()), order.user, order.amount, wallet) == Err(r.error.reason)
      ensures r.Err? && !r.error.SpendRefused? ==>
                r.error == SpendNotReserved && ending != Commit
                    && (View() == old(View()) || SpendTold(View(), |old(spends)|, order, Err(r.error)))
    {
      var how: Ending := *;
      ending := how;
      e := StartSpend(order.user, order.coupon, order.amount, wallet, order.client, how);
      if how == Abort {
        return Err(SpendNotReserved), e, how;
      }
      var reserved := tables.ReserveBalance(order.user, order.amount, wallet);
      if reserved.Err? {
        return Err(SpendRefused(reserved.error)), e, how;
      }
      var next := if how == Commit then Burning else ReturnedSpendError;
      spends := spends + [
        SpendRun(order.user, order.coupon, order.amount, reserved.value, order.client, true, None, None, next)];
      r := if how == Commit then Ok(reserved.value) else Err(SpendNotReserved);
    }

    /** BurnOnChain: sends the burn and waits for its receipt. An error with a hash means that the
        outcome is unknown; an error without one that nothing was burned. */
    method BurnOnChain(order: Order, q: nat)
        returns (hash: Option<nat>, ok: bool, ghost sent: bool, ghost verdict: Verdict)
      requires Inv(View()) && SpendAt(View(), q, Burning) && Carries(View(), q, order)
      modifies this, tables
      ensures Inv(View()) && Reaches(old(View()), View(), Anyone) && Carries(View(), q, order)
      ensures spends[q].newBalance == old(spends[q].newBalance)
      ensures ok == (sent && verdict == Success) && hash.Some? == (sent && verdict != StatusFailed)
      ensures hash.Some? ==>
          spends[q].burn == hash
          && spends[q].pc == if ok then RecordingBurn else RecordingUnknownBurn
      ensures hash.None? ==> spends[q].pc == RollingBackSpend
    {
      ghost var s := View();
      var goesOut: bool := *;
      if !goesOut {
        spends := spends[q := spends[q].(pc := RollingBackSpend)];
        Steps(s, OnSpend(q, BurnNotSent));
        return None, false, false, Unknown;
      }
      var id := |chain|;
      chain := chain + [ChainTx(Burn(q), ToRaw(order.amount), Unmined)];
      spends := spends[q := spends[q].(burn := Some(id), pc := AwaitingBurn)];
      Steps(s, OnSpend(q, BurnSent));
      ghost var t := View();
      Others(SpendCall(q));
      ReachesThen(s, t, View(), Anyone);
      t := View();
      var answer := Receipt(id);
      spends := spends[q := spends[q].(pc := AfterBurn(answer))];
      Steps(t, OnSpend(q, BurnReturns(answer)));
      ReachesThen(s, t, View(), Anyone);
      return if answer == StatusFailed then None else Some(id), answer == Success, true, answer;
    }

    method TryReturn(order: Order, q: nat) returns (ok: bool, ghost ending: Ending)
      requires SpendAt(View(), q, RollingBackSpend) && Carries(View(), q, order)
      modifies this`spends, tables
      ensures View() == UndoSpendStep(old(View()), q, ending)
      ensures ok == (ending == Commit && RollbackSpend(old(tables.State()), order.user, order.amount).Ok?)
    {
      var how: Ending := *;
      var applied := false;
      if how != Abort {
        var done := tables.ReturnBalance(order.user, order.amount);
        applied := done.Ok?;
      }
      spends := spends[q := spends[q].(debited := !applied, pc := ReturnedSpendError)];
      return how == Commit && applied, how;
    }

    method TryRecordBurn(order: Order, q: nat, hash: nat) returns (id: Option<nat>, ghost ending: Ending)
      requires (SpendAt(View(), q, RecordingBurn) || SpendAt(View(), q, RecordingUnknownBurn))
          && Carries(View(), q, order)
      requires spends[q].burn == Some(hash)
      modifies this`spends, tables
      ensures View() == RecordBurnStep(old(View()), q, ending) && id.Some? == (ending == Commit)
      ensures id.Some? && old(spends[q].pc) == RecordingBurn ==> spends[q].redemption == id
    {
      var how: Ending := *;
      id := None;
      var next := ReturnedSpendError;
      var record := spends[q].redemption;
      if how != Abort {
        var created := tables.CreatePendingCouponRedemption(order.user, order.coupon, order.amount, hash);
        if how == Commit {
          id := Some(created);
          if spends[q].pc == RecordingBurn {
            next, record := if order.client then CallingTachiya else SavingWithoutClient, id;
          }
        }
      }
      spends := spends[q := spends[q].(redemption := record, pc := next)];
      ending := how;
    }

    /** The call to Tachiya, which may fail, while others run. */
    method RedeemCoupon(order: Order, q: nat) returns (voucher: Option<string>)
      requires Inv(View()) && SpendAt(View(), q, CallingTachiya) && Carries(View(), q, order)
      modifies this, tables
      ensures Inv(View()) && Reaches(old(View()), View(), Anyone) && Carries(View(), q, order)
      ensures spends[q] == old(spends[q]).(pc := AfterTachiya(voucher))
    {
      ghost var s := View();
      voucher := *;
      spends := spends[q := spends[q].(pc := AfterTachiya(voucher))];
      Steps(s, OnSpend(q, TachiyaAnswers(voucher)));
      ghost var t := View();
      Others(SpendCall(q));
      ReachesThen(s, t, View(), Anyone);
    }

    /** Without a client there is nothing to ask. */
    method AskTachiya(order: Order, q: nat) returns (voucher: Option<string>)
      requires Inv(View()) && Carries(View(), q, order)
      requires spends[q].pc == if order.client then CallingTachiya else SavingWithoutClient
      modifies this, tables
      ensures Inv(View()) && Reaches(old(View()), View(), Anyone) && Carries(View(), q, order)
      ensures spends[q]
           == old(spends[q]).(pc := if order.client then AfterTachiya(voucher) else SavingWithoutClient)
    {
      ReachesSelf(View(), Anyone);
      if !order.client {
        return None;
      }
      voucher := RedeemCoupon(order, q);
    }

    method TrySave(q: nat, id: nat) returns (r: Result<Redeemed, SpendFailure>, ghost ending: Ending)
      requires q < |spends| && spends[q].redemption == Some(id)
      requires spends[q].pc.SavingVoucher? || spends[q].pc.MarkingCompensation? || spends[q].pc.SavingWithoutClient?
      modifies this`spends, tables
      ensures View() == SaveStep(old(View()), q, ending) && r == SaveAnswer(old(spends[q]), ending)
    {
      var how: Ending := *;
      var run := spends[q];
      if run.pc.SavingVoucher? {
        if how != Abort {
          tables.UpdateRecord(id, RedemptionStatus.Redeemed, Some(run.pc.code));
        }
        r := if how == Commit then Ok(RedeemedFor(run.newBalance, Some(run.pc.code))) else Err(VoucherUnsaved);
      } else if run.pc.SavingWithoutClient? {
        if how != Abort {
          tables.UpdateRecord(id, RedemptionStatus.Redeemed, None);
        }
        r := Ok(RedeemedFor(run.newBalance, None));
      } else {
        if how != Abort {
          tables.UpdateRecord(id, CompensationNeeded, None);
        }
        r := Err(TachiyaFailed(how == Commit));
      }
      spends := spends[q := run.(pc := if r.Ok? then Returned(r.value.balance, r.value.voucher)
          else ReturnedSpendError)];
      ending := how;
    }

    // ---------- Redeem ----------

    /** Redeem, whatever else happens at the same time. */
    method Redeem(order: Order, wallet: Option<string>) returns (r: Result<Redeemed, SpendFailure>, ghost x: SpendTrace)
      requires Inv(View()) && order.user < |tables.balances|
      modifies this, tables
      ensures Inv(View()) && Reaches(old(View()), View(), Anyone)
      ensures r.Ok? ==> r.value.balance == BalanceOf(old(tables.balances), order.user) - order.amount
      ensures r.Err? && r.error.SpendRefused? ==>
                && View() == old(View())
                && ReserveSpend(old(tables.State()), order.user, order.amount, wallet) == Err(r.error.reason)
      ensures (r.Err? && r.error.SpendRefused?) || AnswersSpend(x, order, r)
      ensures (View() == old(View()) && r.Err? && (r.error.SpendRefused? || r.error.SpendNotReserved?))
              || (SpendTold(View(), |old(spends)|, order, r) && RecordHolds(x, View(), |old(spends)|, order))
    {
      ghost var s := View();
      x := SpendTrace(Abort, false, Unknown, Abort, None, Abort);
      if order.amount <= 0 {
        ReachesSelf(s, Anyone);
        return Err(SpendRefused(SpendAmountInvalid)), x;
      }
      var q := |spends|;
      var reserved, e, ending := TrySpend(order, wallet);
      Steps(s, e);
      if reserved.Err? {
        return Err(reserved.error), x.(reserve := ending);
      }
      ghost var t := View();
      Others(SpendCall(q));
      ReachesThen(s, t, View(), Anyone);
      t := View();
      r, x := SettleBurn(order, q);
      ReachesThen(s, t, View(), Anyone);
    }

    /** From the burn to its record. */
    method SettleBurn(order: Order, q: nat) returns (r: Result<Redeemed, SpendFailure>, ghost x: SpendTrace)
      requires Inv(View()) && SpendAt(View(), q, Burning) && Carries(View(), q, order)
      modifies this, tables
      ensures Inv(View()) && Reaches(old(View()), View(), Anyone)
      ensures SpendTold(View(), q, order, r) && AnswersSpend(x, order, r) && RecordHolds(x, View(), q, order)
      ensures r.Ok? ==> r.value.balance == old(spends[q].newBalance)
    {
      ghost var s := View();
      var hash, ok, sent, verdict := BurnOnChain(order, q);
      x := SpendTrace(Commit, sent, verdict, Abort, None, Abort);
      ghost var t := View();
      Others(SpendCall(q));
      ReachesThen(s, t, View(), Anyone);
      t := View();
      if hash.None? {
        var returned, ending := TryReturn(order, q);
        UndoneTold(t, q, order, ending);
        ReachesThen(s, t, View(), Anyone);
        return Err(BurnFailed(returned)), x.(settle := ending);
      }
      r, x := SettleRecord(order, q, hash.value, ok, verdict);
      ReachesThen(s, t, View(), Anyone);
    }

    /** From the record of a burn that was not reported as failed to the end. */
    method SettleRecord(order: Order, q: nat, hash: nat, ok: bool, ghost verdict: Verdict)
        returns (r: Result<Redeemed, SpendFailure>, ghost x: SpendTrace)
      requires Inv(View()) && Carries(View(), q, order) && spends[q].burn == Some(hash)
      requires verdict != StatusFailed && ok == (verdict == Success)
      requires spends[q].pc == if ok then RecordingBurn else RecordingUnknownBurn
      modifies this, tables
      ensures Inv(View()) && Reaches(old(View()), View(), Anyone)
      ensures SpendTold(View(), q, order, r) && AnswersSpend(x, order, r) && RecordHolds(x, View(), q, order)
      ensures x.reserve == Commit && x.sent && x.verdict == verdict
      ensures r.Ok? ==> r.value.balance == old(spends[q].newBalance)
    {
      ghost var s := View();
      var id, ending := TryRecordBurn(order, q, hash);
      RecordedTold(s, q, order, ending);
      x := SpendTrace(Commit, true, verdict, ending, None, Abort);
      if !ok {
        return Err(BurnUnknown(id.Some?)), x;
      }
      if id.None? {
        return Err(BurnUnrecorded), x;
      }
      ghost var t := View();
      Others(SpendCall(q));
      ReachesThen(s, t, View(), Anyone);
      t := View();
      r, x := SettleVoucher(order, q, id.value);
      ReachesThen(s, t, View(), Anyone);
    }

    /** From the recorded burn to the voucher. */
    method SettleVoucher(order: Order, q: nat, id: nat) returns (r: Result<Redeemed, SpendFailure>, ghost x: SpendTrace)
      requires Inv(View()) && Carries(View(), q, order) && spends[q].redemption == Some(id)
      requires spends[q].pc == if order.client then CallingTachiya else SavingWithoutClient
      modifies this, tables
      ensures Inv(View()) && Reaches(old(View()), View(), Anyone)
      ensures SpendTold(View(), q, order, r) && AnswersSpend(x, order, r) && RecordHolds(x, View(), q, order)
      ensures x.reserve == Commit && x.sent && x.verdict == Success && x.settle == Commit
      ensures r.Ok? ==> r.value.balance == old(spends[q].newBalance)
    {
      ghost var s := View();
      var voucher := AskTachiya(order, q);
      ghost var t := View();
      var answer, ending := TrySave(q, id);
      SavedTold(t, q, order, ending);
      VoucherAnswered(t.spends[q], View(), q, order, voucher, ending);
      ReachesThen(s, t, View(), Anyone);
      return answer, SpendTrace(Commit, true, Success, Commit, voucher, ending);
    }

    // ---------- Claim ----------

    /** Claim, whatever else happens at the same time. */
    method Claim(user: nat, amount: int, wallet: Option<string>, at: int)
        returns (r: Result<int, ClaimFailure>, ghost x: ClaimTrace)
      requires Inv(View()) && user < |tables.balances|
      modifies this, tables
      ensures Inv(View()) && Reaches(old(View()), View(), Anyone)
      ensures r.Err? && r.error.ClaimRefused? ==>
                View() == old(View()) && RefusedFor(old(tables.State()), user, amount, wallet, r.error.reason)
      ensures (r.Err? && r.error.ClaimRefused?) || AnswersClaim(x, r)
      ensures (View() == old(View()) && r.Err? && (r.error.ClaimRefused? || r.error.ClaimNotReserved?))
              || exists res :: Got(old(View()), View(), user, amount, res) && ClaimTold(View(), res, r)
                               && (r.Ok? ==> PaidOut(old(View()), x, View(), res, r.value))
    {
      ghost var s := View();
      var reserved, e, ending := TryReserve(user, amount, wallet, at);
      Steps(s, e);
      if reserved.Err? {
        return Err(reserved.error), ClaimTrace(ending, false, Abort, Unknown, Abort, Abort, s);
      }
      ghost var t := View();
      Others(ClaimCall(reserved.value.claim));
      ReachesThen(s, t, View(), Anyone);
      t := View();
      r, x := SettleReservation(reserved.value);
      ReachesThen(s, t, View(), Anyone);
      if r.Ok? {
        ReachesThen(s, t, x.last, Anyone);
      }
      assert Got(s, View(), user, amount, reserved.value);
    }

    /** From the broadcast to its record. */
    method SettleReservation(res: Reservation) returns (r: Result<int, ClaimFailure>, ghost x: ClaimTrace)
      requires Inv(View()) && ClaimAt(View(), res.claim, Broadcasting) && claims[res.claim].res == res
      modifies this, tables
      ensures Inv(View()) && Reaches(old(View()), View(), Anyone) && ClaimTold(View(), res, r) && AnswersClaim(x, r)
      ensures r.Ok? ==> PaidOut(old(View()), x, View(), res, r.value)
    {
      ghost var s := View();
      var hash := Broadcast(res);
      x := ClaimTrace(Commit, hash.Some?, Abort, Unknown, Abort, Abort, s);
      Steps(s, OnClaim(res.claim, if hash.Some? then BroadcastSent else BroadcastFails));
      ghost var t := View();
      Others(ClaimCall(res.claim));
      ReachesThen(s, t, View(), Anyone);
      t := View();
      if hash.None? {
        var ok, ending := TryRollBack(res);
        RolledBackTold(t, res.claim, ending);
        ReachesThen(s, t, View(), Anyone);
        return Err(NotBroadcast(ok)), x.(settle := ending);
      }
      var ok, ending := TryRecordBroadcast(res, hash.value);
      UnrecordedTold(t, res.claim, ending);
      ReachesThen(s, t, View(), Anyone);
      if !ok {
        return Err(BroadcastUnrecorded), x.(record := ending);
      }
      t := View();
      Others(ClaimCall(res.claim));
      ReachesThen(s, t, View(), Anyone);
      t := View();
      r, x := SettleReceipt(res, hash.value);
      ReachesThen(s, t, View(), Anyone);
      if r.Ok? {
        ReachesThen(s, t, x.last, Anyone);
      }
    }

    /** From the receipt to the end. */
    method SettleReceipt(res: Reservation, hash: nat) returns (r: Result<int, ClaimFailure>, ghost x: ClaimTrace)
      requires Inv(View()) && ClaimAt(View(), res.claim, AwaitingReceipt) && claims[res.claim].res == res
          && claims[res.claim].mint == Some(hash)
      modifies this, tables
      ensures Inv(View()) && Reaches(old(View()), View(), Anyone) && ClaimTold(View(), res, r) && AnswersClaim(x, r)
      ensures x.reserve == Commit && x.sent && x.record == Commit
      ensures r.Ok? ==> PaidOut(old(View()), x, View(), res, r.value)
    {
      ghost var s := View();
      var verdict := AwaitReceipt(res, hash);
      x := ClaimTrace(Commit, true, Commit, verdict, Abort, Abort, s);
      Steps(s, OnClaim(res.claim, ReceiptArrives(verdict)));
      ghost var t := View();
      Others(ClaimCall(res.claim));
      ReachesThen(s, t, View(), Anyone);
      t := View();
      match verdict
      case StatusFailed =>
        var now: int := *;
        var ok, ending := TryCompensate(res, hash, now);
        CompensatedTold(t, res.claim, now, ending);
        ReachesThen(s, t, View(), Anyone);
        return Err(ReceiptFailed(ok)), x.(settle := ending);
      case Unknown =>
        var ok, ending := TryRecordUnknown(res, hash);
        UnknownTold(t, res.claim, ending);
        ReachesThen(s, t, View(), Anyone);
        return Err(ReceiptUnknown(ok)), x.(settle := ending);
      case Success =>
        r, x := SettleFinal(res, hash);
        ReachesThen(s, t, View(), Anyone);
        if r.Ok? {
          ReachesThen(s, t, x.last, Anyone);
        }
    }

    /** The finalization, and its mark when it reports an error. */
    method SettleFinal(res: Reservation, hash: nat) returns (r: Result<int, ClaimFailure>, ghost x: ClaimTrace)
      requires Inv(View()) && ClaimAt(View(), res.claim, Finalizing) && claims[res.claim].res == res
          && claims[res.claim].mint == Some(hash)
      modifies this, tables
      ensures Inv(View()) && Reaches(old(View()), View(), Anyone) && ClaimTold(View(), res, r) && AnswersClaim(x, r)
      ensures x.reserve == Commit && x.sent && x.record == Commit && x.verdict == Success
      ensures r.Ok? ==> PaidOut(old(View()), x, View(), res, r.value)
    {
      ghost var s := View();
      ReachesSelf(s, Anyone);
      var balance, ending := TryFinalize(res, hash);
      x := ClaimTrace(Commit, true, Commit, Success, ending, Abort, s);
      if balance.Some? {
        return Ok(balance.value), x;
      }
      ghost var t := View();
      var ok, how := MarkFinal(res, hash);
      ReachesThen(s, t, View(), Anyone);
      return Err(NotFinalized(ok)), x.(mark := how);
    }

    /** The mark of a finalization that reported an error. */
    method MarkFinal(res: Reservation, hash: nat) returns (ok: bool, ghost ending: Ending)
      requires Inv(View()) && ClaimAt(View(), res.claim, MarkingFinalizeFailed) && claims[res.claim].res == res
          && claims[res.claim].mint == Some(hash)
      modifies this, tables
      ensures Inv(View()) && Reaches(old(View()), View(), Anyone) && ClaimTold(View(), res, Err(NotFinalized(ok)))
      ensures ok == (ending == Commit)
    {
      ghost var s := View();
      Others(ClaimCall(res.claim));
      ghost var t := View();
      ok, ending := TryMark(res, hash);
      MarkedTold(t, res.claim, ending);
      ReachesThen(s, t, View(), Anyone);
    }
  }
}
