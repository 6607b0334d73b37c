/** The money system as a state machine. Every database transaction is one atomic step, every
    running Claim or Redeem call is a process with its own program counter, and the chain settles
    transactions at any time. Calls interleave freely and any step may fail. */
module Machine {
  import opened Store
  import opened Points
  import opened Claims
  import opened Spends
  import opened AirdropTx
  import Airdrop

  /** How a transaction ends: committed; rolled back; committed with an error reported to the caller. */
  datatype Ending = Commit | Abort | Lost

  datatype Settlement = Unmined | Succeeded | Reverted

  datatype ChainCall = Mint(claim: nat, to: string) | Burn(spend: nat)

  /** A transaction known to the chain, in raw token units; its hash is its position. */
  datatype ChainTx = ChainTx(call: ChainCall, raw: int, settlement: Settlement)

  const RAW_UNIT: int := 1_000_000_000_000_000_000

  function ToRaw(whole: int): int {
    whole * RAW_UNIT
  }

  /** Where a Claim call stands, named after the step it takes next. */
  datatype ClaimPc =
    | Broadcasting | RollingBack | RecordingBroadcast | AwaitingReceipt | Compensating
    | RecordingUnknown | Finalizing | MarkingFinalizeFailed
    | Paid(balance: int) | ReturnedError

  datatype ClaimRun = ClaimRun(res: Reservation, mint: Option<nat>, pc: ClaimPc)

  datatype SpendPc =
    | Burning | AwaitingBurn | RollingBackSpend | RecordingUnknownBurn | RecordingBurn
    | CallingTachiya | SavingVoucher(code: string) | MarkingCompensation | SavingWithoutClient
    | Returned(balance: int, voucher: Option<string>) | ReturnedSpendError

  /** debited tells whether the amount taken by this call is still taken. */
  datatype SpendRun = SpendRun(user: nat, coupon: string, amount: int, newBalance: int, client: bool,
                               debited: bool, burn: Option<nat>, redemption: Option<nat>, pc: SpendPc)

  datatype Sys = Sys(db: Db, claims: seq<ClaimRun>, spends: seq<SpendRun>, chain: seq<ChainTx>,
                     configs: map<string, int>)

  datatype Verdict = Success | StatusFailed | Unknown

  /** Transactions on the points tables, including the one that starts a claim. */
  datatype PointsAction =
    | CreditPoints(user: nat, channel: string, at: int, source: Source, amount: int, meta: CreditMeta, ending: Ending)
    | DeductPoints(user: nat, channel: string, at: int, amount: int, ending: Ending)
    | AirdropPoints(channel: string, at: int, viewers: seq<Airdrop.Viewer>, amount: int, ending: Ending)
    | StartClaim(user: nat, amount: int, rows: seq<Fetched>, wallet: Option<string>, at: int, ending: Ending)

  /** The later steps of a Claim call, and what a recovery job does to its claim. */
  datatype ClaimAction =
    | BroadcastFails
    | BroadcastSent
    | RollBackClaim(ending: Ending)
    | RecordBroadcast(ending: Ending)
    | ReceiptArrives(verdict: Verdict)
    | CompensateClaim(at: int, ending: Ending)
    | RecordUnknownReceipt(ending: Ending)
    | FinalizeClaim(ending: Ending)
    | MarkClaim(ending: Ending)
    | Recover(hash: Option<nat>, ending: Ending)
    | RetryMark(hash: Option<nat>, ending: Ending)

  /** The later steps of a Redeem call. */
  datatype SpendAction =
    | BurnNotSent
    | BurnSent
    | BurnReturns(verdict: Verdict)
    | UndoSpend(ending: Ending)
    | RecordBurn(ending: Ending)
    | TachiyaAnswers(voucher: Option<string>)
    | SaveRedemption(ending: Ending)

  datatype Event =
    | Register
    | Mine(mined: nat, success: bool)
    | OnPoints(points: PointsAction)
    | OnClaim(c: nat, claim: ClaimAction)
    | StartSpend(user: nat, coupon: string, amount: int, wallet: Option<string>, client: bool, ending: Ending)
    | OnSpend(q: nat, spend: SpendAction)

  /** The tables after a transaction whose body, run on its own, would give the result. */
  function Written<E>(db: Db, result: Result<Db, E>, ending: Ending): Db {
    if ending == Abort || result.Err? then db else result.value
  }

  predicate ClaimAt(s: Sys, c: nat, pc: ClaimPc) {
    c < |s.claims| && s.claims[c].pc == pc
  }

  predicate SpendAt(s: Sys, q: nat, pc: SpendPc) {
    q < |s.spends| && s.spends[q].pc == pc
  }

  function GoTo(s: Sys, c: nat, pc: ClaimPc): Sys
    requires c < |s.claims|
  {
    s.(claims := s.claims[c := s.claims[c].(pc := pc)])
  }

  function SpendTo(s: Sys, q: nat, pc: SpendPc): Sys
    requires q < |s.spends|
  {
    s.(spends := s.spends[q := s.spends[q].(pc := pc)])
  }

  predicate SettledAs(s: Sys, hash: Option<nat>, settlement: Settlement) {
    hash.Some? && hash.value < |s.chain| && s.chain[hash.value].settlement == settlement
  }

  /** A receipt report agrees with the chain; an unknown receipt is always possible. */
  predicate Truthful(s: Sys, hash: Option<nat>, verdict: Verdict) {
    match verdict
    case Success => SettledAs(s, hash, Succeeded)
    case StatusFailed => SettledAs(s, hash, Reverted)
    case Unknown => true
  }

  /** The claims a recovery job may name: any row that is not broadcast, and a broadcast one whose call
      has returned without settling it although the mint succeeded. */
  predicate Recoverable(s: Sys, c: nat) {
    && c < |s.db.claims| && c < |s.claims|
    && (s.db.claims[c].Some? && s.db.claims[c].value.status == Broadcast ==>
          s.claims[c].pc == ReturnedError && SettledAs(s, s.claims[c].mint, Succeeded))
  }

  predicate PointsEnabled(s: Sys, a: PointsAction) {
    match a
    case CreditPoints(user, _, _, source, _, _, _) => user < |s.db.balances|
        && (source.TPoint? || source.WatchTime? || source.Click?)
    case DeductPoints(_, _, _, _, _) => true
    case AirdropPoints(_, _, viewers, _, _) =>
      Airdrop.NonNegativeSeconds(viewers) && forall v :: v in viewers ==> v.user < |s.db.balances|
    case StartClaim(user, _, rows, _, _, _) => user < |s.db.balances| && FetchedFor(s.db.ledgers, user, rows)
  }

  predicate ClaimEnabled(s: Sys, c: nat, a: ClaimAction) {
    && c < |s.claims|
    && match a
       case BroadcastFails => ClaimAt(s, c, Broadcasting)
       case BroadcastSent => ClaimAt(s, c, Broadcasting)
       case RollBackClaim(_) => ClaimAt(s, c, RollingBack)
       case RecordBroadcast(_) => ClaimAt(s, c, RecordingBroadcast) && s.claims[c].mint.Some?
       case ReceiptArrives(verdict) => ClaimAt(s, c, AwaitingReceipt) && Truthful(s, s.claims[c].mint, verdict)
       case CompensateClaim(_, _) => ClaimAt(s, c, Compensating) && s.claims[c].mint.Some?
       case RecordUnknownReceipt(_) => ClaimAt(s, c, RecordingUnknown) && s.claims[c].mint.Some?
       case FinalizeClaim(_) => ClaimAt(s, c, Finalizing) && s.claims[c].mint.Some?
       case MarkClaim(_) => ClaimAt(s, c, MarkingFinalizeFailed) && s.claims[c].mint.Some?
       case Recover(_, _) => Recoverable(s, c)
       case RetryMark(_, _) => Recoverable(s, c)
  }

  predicate SpendEnabled(s: Sys, q: nat, a: SpendAction) {
    && q < |s.spends|
    && match a
       case BurnNotSent => SpendAt(s, q, Burning)
       case BurnSent => SpendAt(s, q, Burning)
       case BurnReturns(verdict) => SpendAt(s, q, AwaitingBurn) && Truthful(s, s.spends[q].burn, verdict)
       case UndoSpend(_) => SpendAt(s, q, RollingBackSpend)
       case RecordBurn(_) => (SpendAt(s, q, RecordingBurn) || SpendAt(s, q, RecordingUnknownBurn))
           && s.spends[q].burn.Some?
       case TachiyaAnswers(_) => SpendAt(s, q, CallingTachiya)
       case SaveRedemption(_) =>
         && s.spends[q].redemption.Some?
         && (s.spends[q].pc.SavingVoucher? || s.spends[q].pc.MarkingCompensation?
             || s.spends[q].pc.SavingWithoutClient?)
  }

  predicate Enabled(s: Sys, e: Event) {
    match e
    case Register => true
    case Mine(hash, _) => hash < |s.chain| && s.chain[hash].settlement == Unmined
    case OnPoints(a) => PointsEnabled(s, a)
    case OnClaim(c, a) => ClaimEnabled(s, c, a)
    case StartSpend(user, _, _, _, _, _) => user < |s.db.balances|
    case OnSpend(q, a) => SpendEnabled(s, q, a)
  }

  // ---------- the steps of points and airdrops ----------

  function AirdropStep(s: Sys, channel: string, at: int, viewers: seq<Airdrop.Viewer>, amount: int,
          ending: Ending): Sys {
    var r := Attempt(s.db, s.configs, channel, at, viewers, amount);
    if ending == Abort || r.Err? then s else s.(db := r.value.db)
  }

  // ---------- the steps of a claim ----------

  function StartClaimStep(s: Sys, user: nat, amount: int, rows: seq<Fetched>, wallet: Option<string>, at: int,
          ending: Ending): Sys {
    var r := Reserve(s.db, user, amount, rows, wallet, at);
    if ending == Abort || r.Err? then s
    else s.(db := Reserved(s.db, r.value, at),
            claims := s.claims + [ClaimRun(r.value, None, if ending == Commit then Broadcasting else ReturnedError)])
  }

  /** The mint of a claim: its amount in raw units, to the wallet resolved when it was reserved. */
  function MintTx(c: nat, res: Reservation): ChainTx {
    ChainTx(Mint(c, res.wallet), ToRaw(res.amount), Unmined)
  }

  function BroadcastSentStep(s: Sys, c: nat): Sys
    requires c < |s.claims|
  {
    s.(chain := s.chain + [MintTx(c, s.claims[c].res)],
       claims := s.claims[c := s.claims[c].(mint := Some(|s.chain|), pc := RecordingBroadcast)])
  }

  function RollBackStep(s: Sys, c: nat, ending: Ending): Sys
    requires c < |s.claims|
  {
    GoTo(s, c, ReturnedError).(db := if ending == Abort then s.db else Rollback(s.db, s.claims[c].res))
  }

  function RecordBroadcastStep(s: Sys, c: nat, ending: Ending): Sys
    requires c < |s.claims| && s.claims[c].mint.Some?
  {
    GoTo(s, c, if ending == Commit then AwaitingReceipt else ReturnedError).(
      db := if ending == Abort then s.db else MarkBroadcast(s.db, s.claims[c].res, s.claims[c].mint.value))
  }

  function AfterReceipt(verdict: Verdict): ClaimPc {
    match verdict
    case Success => Finalizing
    case StatusFailed => Compensating
    case Unknown => RecordingUnknown
  }

  function CompensateStep(s: Sys, c: nat, at: int, ending: Ending): Sys
    requires c < |s.claims| && s.claims[c].mint.Some?
  {
    GoTo(s, c, ReturnedError).(db := Written(s.db, Compensate(s.db, s.claims[c].res, s.claims[c].mint.value, at),
        ending))
  }

  function RecordUnknownStep(s: Sys, c: nat, ending: Ending): Sys
    requires c < |s.claims| && s.claims[c].mint.Some?
  {
    GoTo(s, c, ReturnedError).(
      db := if ending == Abort then s.db else RecordUnknown(s.db, s.claims[c].res, s.claims[c].mint.value))
  }

  function FinalizedDb(db: Db, r: Result<Finalized, ClaimError>, ending: Ending): Db {
    if ending == Abort || r.Err? then db else r.value.db
  }

  function FinalizeStep(s: Sys, c: nat, ending: Ending): Sys
    requires c < |s.claims|
  {
    var r := Finalize(s.db, s.claims[c].res, s.claims[c].mint);
    GoTo(s, c, if ending == Commit && r.Ok? then Paid(r.value.balance) else MarkingFinalizeFailed).(
      db := FinalizedDb(s.db, r, ending))
  }

  function MarkStep(s: Sys, c: nat, ending: Ending): Sys
    requires c < |s.claims|
  {
    GoTo(s, c, ReturnedError).(db := Written(s.db, MarkFinalizeFailed(s.db, s.claims[c].res, s.claims[c].mint), ending))
  }

  function RecoverStep(s: Sys, c: nat, hash: Option<nat>, ending: Ending): Sys
    requires c < |s.claims|
  {
    s.(db := FinalizedDb(s.db, Finalize(s.db, s.claims[c].res, hash), ending))
  }

  function RetryMarkStep(s: Sys, c: nat, hash: Option<nat>, ending: Ending): Sys
    requires c < |s.claims|
  {
    s.(db := Written(s.db, MarkFinalizeFailed(s.db, s.claims[c].res, hash), ending))
  }

  // ---------- the steps of a redemption ----------

  function StartSpendStep(s: Sys, user: nat, coupon: string, amount: int, wallet: Option<string>, client: bool,
          ending: Ending): Sys {
    var r := ReserveSpend(s.db, user, amount, wallet);
    if ending == Abort || r.Err? then s
    else s.(db := r.value,
            spends := s.spends + [
              SpendRun(user, coupon, amount, BalanceOf(r.value.balances, user), client, true, None, None,
                       if ending == Commit then Burning else ReturnedSpendError)])
  }

  function BurnSentStep(s: Sys, q: nat): Sys
    requires q < |s.spends|
  {
    s.(chain := s.chain + [ChainTx(Burn(q), ToRaw(s.spends[q].amount), Unmined)],
       spends := s.spends[q := s.spends[q].(burn := Some(|s.chain|), pc := AwaitingBurn)])
  }

  /** A failed receipt is reported without a hash, exactly like a burn that was never sent. */
  function AfterBurn(verdict: Verdict): SpendPc {
    match verdict
    case Success => RecordingBurn
    case StatusFailed => RollingBackSpend
    case Unknown => RecordingUnknownBurn
  }

  function UndoSpendStep(s: Sys, q: nat, ending: Ending): Sys
    requires q < |s.spends|
  {
    var run := s.spends[q];
    var r := RollbackSpend(s.db, run.user, run.amount);
    s.(db := Written(s.db, r, ending),
       spends := s.spends[q := run.(debited := ending == Abort || r.Err?, pc := ReturnedSpendError)])
  }

  function RecordBurnStep(s: Sys, q: nat, ending: Ending): Sys
    requires q < |s.spends| && s.spends[q].burn.Some?
  {
    var run := s.spends[q];
    var db := if ending == Abort then s.db
        else CreateRedemption(s.db, run.user, run.coupon, run.amount, run.burn.value);
    if ending == Commit && run.pc == RecordingBurn then
      s.(db := db, spends := s.spends[q := run.(redemption := Some(|s.db.redemptions|),
                                                pc := if run.client then CallingTachiya else SavingWithoutClient)])
    else SpendTo(s, q, ReturnedSpendError).(db := db)
  }

  function AfterTachiya(voucher: Option<string>): SpendPc {
    if voucher.Some? then SavingVoucher(voucher.value) else MarkingCompensation
  }

  function SaveStep(s: Sys, q: nat, ending: Ending): Sys
    requires q < |s.spends| && s.spends[q].redemption.Some?
  {
    var run, id := s.spends[q], s.spends[q].redemption.value;
    match run.pc
    case SavingVoucher(code) =>
      SpendTo(s, q, if ending == Commit then Returned(run.newBalance, Some(code)) else ReturnedSpendError).(
        db := if ending == Abort then s.db else UpdateRedemption(s.db, id, Redeemed, Some(code)))
    case SavingWithoutClient =>
      SpendTo(s, q, Returned(run.newBalance, None)).(
        db := if ending == Abort then s.db else UpdateRedemption(s.db, id, Redeemed, None))
    case _ =>
      SpendTo(s, q, ReturnedSpendError).(
        db := if ending == Abort then s.db else UpdateRedemption(s.db, id, CompensationNeeded, None))
  }

  // ---------- all steps ----------

  function PointsStep(s: Sys, a: PointsAction): Sys
    requires PointsEnabled(s, a)
  {
    match a
    case CreditPoints(user, channel, at, source, amount, meta, ending) =>
      s.(db := Written(s.db, Credit(s.db, user, channel, at, source, amount, meta), ending))
    case DeductPoints(user, channel, at, amount,
        ending) => s.(db := Written(s.db, Deduct(s.db, user, channel, at, amount), ending))
    case AirdropPoints(channel, at, viewers, amount, ending) => AirdropStep(s, channel, at, viewers, amount, ending)
    case StartClaim(user, amount, rows, wallet, at, ending) => StartClaimStep(s, user, amount, rows, wallet, at, ending)
  }

  function ClaimActionStep(s: Sys, c: nat, a: ClaimAction): Sys
    requires ClaimEnabled(s, c, a)
  {
    match a
    case BroadcastFails => GoTo(s, c, RollingBack)
    case BroadcastSent => BroadcastSentStep(s, c)
    case RollBackClaim(ending) => RollBackStep(s, c, ending)
    case RecordBroadcast(ending) => RecordBroadcastStep(s, c, ending)
    case ReceiptArrives(verdict) => GoTo(s, c, AfterReceipt(verdict))
    case CompensateClaim(at, ending) => CompensateStep(s, c, at, ending)
    case RecordUnknownReceipt(ending) => RecordUnknownStep(s, c, ending)
    case FinalizeClaim(ending) => FinalizeStep(s, c, ending)
    case MarkClaim(ending) => MarkStep(s, c, ending)
    case Recover(hash, ending) => RecoverStep(s, c, hash, ending)
    case RetryMark(hash, ending) => RetryMarkStep(s, c, hash, ending)
  }

  function SpendActionStep(s: Sys, q: nat, a: SpendAction): Sys
    requires SpendEnabled(s, q, a)
  {
    match a
    case BurnNotSent => SpendTo(s, q, RollingBackSpend)
    case BurnSent => BurnSentStep(s, q)
    case BurnReturns(verdict) => SpendTo(s, q, AfterBurn(verdict))
    case UndoSpend(ending) => UndoSpendStep(s, q, ending)
    case RecordBurn(ending) => RecordBurnStep(s, q, ending)
    case TachiyaAnswers(voucher) => SpendTo(s, q, AfterTachiya(voucher))
    case SaveRedemption(ending) => SaveStep(s, q, ending)
  }

  function MineStep(s: Sys, hash: nat, success: bool): Sys
    requires hash < |s.chain|
  {
    s.(chain := s.chain[hash := s.chain[hash].(settlement := if success then Succeeded else Reverted)])
  }

  function Step(s: Sys, e: Event): Sys
    requires Enabled(s, e)
  {
    match e
    case Register => s.(db := s.db.(balances := s.db.balances + [None]))
    case Mine(hash, success) => MineStep(s, hash, success)
    case OnPoints(a) => PointsStep(s, a)
    case OnClaim(c, a) => ClaimActionStep(s, c, a)
    case StartSpend(user, coupon, amount, wallet, client, ending) => StartSpendStep(s, user, coupon, amount, wallet,
        client, ending)
    case OnSpend(q, a) => SpendActionStep(s, q, a)
  }

  // ---------- runs ----------

  function Start(configs: map<string, int>): Sys {
    Sys(Db([], [], [], [], [], []), [], [], [], configs)
  }

  predicate Allowed(s: Sys, run: seq<Event>)
    decreases |run|, 0
  {
    run == [] || (Allowed(s, run[..|run| - 1]) && Enabled(Exec(s, run[..|run| - 1]), run[|run| - 1]))
  }

  function Exec(s: Sys, run: seq<Event>): Sys
    requires Allowed(s, run)
    decreases |run|, 1
  {
    if run == [] then s else Step(Exec(s, run[..|run| - 1]), run[|run| - 1])
  }
}
