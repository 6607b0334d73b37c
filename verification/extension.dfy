/** T-point receipts: what they add to the ledgers over any run, and the call that completes one
    (services/api/internal/services/extension_service.go). */
module Extension {
  import opened Sums
  import opened Store
  import opened Points
  import opened AirdropTx
  import opened Machine
  import opened Invariant
  import opened Preserve
  import opened Caps
  import opened Runs
  import Airdrop
  import Backend

  // ---------- what receipts add up to ----------

  /** By how much this step raises the selected balances, if it is the credit of a receipt. */
  function ReceiptGain(s: Sys, e: Event, sel: Selection): int
    requires Enabled(s, e)
  {
    if e.OnPoints? && e.points.CreditPoints? && e.points.meta.externalId.Some?
    then TotalSpendable(Step(s, e).db, sel) - TotalSpendable(s.db, sel) else 0
  }

  function ReceiptTotal(s: Sys, run: seq<Event>, sel: Selection): int
    requires Allowed(s, run)
  {
    if run == [] then 0
    else ReceiptTotal(s, run[..|run| - 1], sel) + ReceiptGain(Exec(s, run[..|run| - 1]), run[|run| - 1], sel)
  }

  function ReceiptAt(log: seq<Option<PointsTx>>, sel: Selection): int -> int {
    i => if 0 <= i < |log| && log[i].Some? && log[i].value.externalId.Some? && sel(log[i].value.ledger) then
        log[i].value.delta else 0
  }

  function ReceiptRows(log: seq<Option<PointsTx>>, sel: Selection): int {
    SumTo(|log|, ReceiptAt(log, sel))
  }

  lemma ReceiptSnoc(log: seq<Option<PointsTx>>, x: PointsTx, sel: Selection)
    ensures ReceiptRows(log + [Some(x)], sel) == ReceiptRows(log, sel)
         + if x.externalId.Some? && sel(x.ledger) then x.delta else 0
  {
    SumSame(|log|, ReceiptAt(log, sel), ReceiptAt(log + [Some(x)], sel));
  }

  lemma {:induction false} AirdropKeepsReceipts(db: Db, channel: string, at: int, recipients: seq<Recipient>,
          sel: Selection)
    ensures ReceiptRows(CreditAll(db, channel, at, recipients).log, sel) == ReceiptRows(db.log, sel)
  {
    if recipients == [] {
    } else {
      var before, r := CreditAll(db, channel, at, recipients[..|recipients| - 1]), recipients[|recipients| - 1];
      AirdropKeepsReceipts(db, channel, at, recipients[..|recipients| - 1], sel);
      ReceiptSnoc(before.log,
          PointsTx(FindLedger(before.ledgers, r.user, channel), Source.Airdrop, r.points, at, None, None), sel);
    }
  }

  lemma CreditReceipts(s: Sys, a: PointsAction, sel: Selection)
    requires PointsEnabled(s, a) && a.CreditPoints?
    ensures ReceiptRows(PointsStep(s, a).db.log, sel) == ReceiptRows(s.db.log, sel) + ReceiptGain(s, OnPoints(a), sel)
  {
    var t := PointsStep(s, a);
    if t.db != s.db {
      UpsertSum(s.db.ledgers, a.user, a.channel, a.at, a.amount, sel);
      ReceiptSnoc(s.db.log,
          PointsTx(FindLedger(s.db.ledgers, a.user, a.channel), a.source, a.amount, a.at, a.meta.externalId, None),
          sel);
    }
  }

  lemma StepReceipts(s: Sys, e: Event, sel: Selection)
    requires Inv(s) && Enabled(s, e)
    ensures ReceiptRows(Step(s, e).db.log, sel) == ReceiptRows(s.db.log, sel) + ReceiptGain(s, e, sel)
  {
    if Quiet(e) {
      OtherStepQuiet(s, e);
      var a, b := s.db.log, Step(s, e).db.log;
      SumGrows(|a|, |b|, ReceiptAt(a, sel), ReceiptAt(b, sel));
    } else if e.points.CreditPoints? {
      CreditReceipts(s, e.points, sel);
    } else {
      var a := e.points;
      AirdropKeepsReceipts(s.db, a.channel, a.at, Distribution(Airdrop.Distribute(a.viewers, a.amount)), sel);
    }
  }

  /** Main result: over any retries and interleaving, the balances of any ledgers have grown through
      receipts by exactly the sum of their log rows with a transaction id. */
  lemma {:induction false} ReceiptsAddUp(configs: map<string, int>, run: seq<Event>, sel: Selection)
    requires Allowed(Start(configs), run)
    ensures ReceiptTotal(Start(configs), run, sel) == ReceiptRows(Exec(Start(configs), run).db.log, sel)
  {
    if run == [] {
    } else {
      ReceiptsAddUp(configs, run[..|run| - 1], sel);
      RunKeeps(configs, run[..|run| - 1]);
      StepReceipts(Exec(Start(configs), run[..|run| - 1]), run[|run| - 1], sel);
    }
  }

  /** Two different weights of one make a sum of at least two. */
  lemma {:induction false} TwoOnes(n: nat, w: int -> int, i: nat, j: nat)
    requires i < j < n && w(i) == w(j) == 1 && forall k :: 0 <= k < n ==> w(k) >= 0
    ensures SumTo(n, w) >= 2
  {
    if j == n - 1 {
      SumMonotone(n - 1, k => if k == i then 1 else 0, w);
      SumSingle(n - 1, k => if k == i then 1 else 0, i);
    } else {
      TwoOnes(n - 1, w, i, j);
    }
  }

  /** Main result: those rows carry distinct transaction ids. */
  lemma ReceiptIdsDistinct(configs: map<string, int>, run: seq<Event>, i: nat, j: nat)
    requires Allowed(Start(configs), run)
    requires var log := Exec(Start(configs), run).db.log;
             && i < |log| && j < |log| && log[i].Some? && log[j].Some?
             && log[i].value.externalId.Some? && log[i].value.externalId == log[j].value.externalId
    ensures i == j
  {
    var log := Exec(Start(configs), run).db.log;
    var id := log[i].value.externalId.value;
    ExternalCreditedOnce(configs, run, id);
    if i < j {
      TwoOnes(|log|, ExternalAt(log, id), i, j);
    } else if j < i {
      TwoOnes(|log|, ExternalAt(log, id), j, i);
    }
  }

  // ---------- completing a receipt ----------

  datatype ExtClaims = ExtClaims(userId: string, channel: string)

  datatype Receipt = Receipt(sku: string, userId: string, kind: string, amount: int, transactionId: string)

  datatype ExtError =
    | InvalidExtJwt | InvalidReceipt | InvalidReceiptType | InvalidReceiptAmount | UserNotFound | DuplicateTransaction
    | NotCommitted | TokensNotIssued

  /** The checks before any write. */
  function Reject(ext: ExtClaims, receipt: Receipt, sku: string): Option<ExtError> {
    if receipt.sku != sku || receipt.userId == "" || receipt.userId != ext.userId then Some(InvalidReceipt)
    else if receipt.kind != "bits" then Some(InvalidReceiptType)
    else if receipt.amount <= 0 then Some(InvalidReceiptAmount)
    else if receipt.transactionId == "" || |sku| > 255 || |receipt.transactionId| > 255 then Some(InvalidReceipt)
    else None
  }

  /** The receipt is the viewer's own, for this product. */
  predicate OwnReceipt(ext: ExtClaims, receipt: Receipt, sku: string) {
    receipt.sku == sku && receipt.userId == ext.userId && receipt.userId != ""
  }

  /** The fields fit the columns of the log, and the receipt can be told from others. */
  predicate Storable(receipt: Receipt, sku: string) {
    |sku| <= 255 && 0 < |receipt.transactionId| <= 255
  }

  /** Exactly which receipts are refused before any write, and with which error. */
  lemma RejectExact(ext: ExtClaims, receipt: Receipt, sku: string)
    ensures var r, own := Reject(ext, receipt, sku), OwnReceipt(ext, receipt, sku);
            var bits, positive := receipt.kind == "bits", receipt.amount > 0;
            && (r == None <==> own && bits && positive && Storable(receipt, sku))
            && (r == Some(InvalidReceiptType) <==> own && !bits)
            && (r == Some(InvalidReceiptAmount) <==> own && bits && !positive)
            && (r == Some(InvalidReceipt) <==> !own || (bits && positive && !Storable(receipt, sku)))
  {
  }

  predicate Accepted(ext: Option<ExtClaims>, receipt: Option<Receipt>, sku: string, user: Option<nat>) {
    ext.Some? && receipt.Some? && user.Some? && Reject(ext.value, receipt.value, sku).None?
  }

  /** The receipt's points were new and are on the ledger now. */
  ghost predicate Completed(a: Db, b: Db, ext: Option<ExtClaims>, receipt: Option<Receipt>, sku: string,
          user: Option<nat>, at: int) {
    && Accepted(ext, receipt, sku, user) && !ExternalIdUsed(a.log, receipt.value.transactionId)
    && b == AddRow(a, user.value, ext.value.channel, at, Source.TPoint, receipt.value.amount,
        Some(receipt.value.transactionId))
  }

  /** CompleteTPointTransactionContext. ext, receipt and user are what verifying the two tokens and looking
      the viewer up gave. A duplicate leaves no trace of the ledger write that came before the index refused
      the log row. When the tokens cannot be issued the points stay, and a retry is a duplicate. */
  method CompleteTPoint(svc: Backend.Service, ext: Option<ExtClaims>, receipt: Option<Receipt>, sku: string,
          user: Option<nat>, at: int)
    returns (r: Result<(), ExtError>, ghost how: Ending, ghost issued: bool)
    requires Inv(svc.View()) && (user.Some? ==> user.value < |svc.tables.balances|)
    modifies svc.tables
    ensures Inv(svc.View()) && Reaches(old(svc.View()), svc.View(), Anyone)
    ensures r.Ok? || r == Err(TokensNotIssued) ==>
        Completed(old(svc.tables.State()), svc.tables.State(), ext, receipt, sku, user, at)
    ensures r == Err(TokensNotIssued) ==> ExternalIdUsed(svc.tables.log, receipt.value.transactionId)
    ensures r.Err? && r.error != NotCommitted && r.error != TokensNotIssued ==> svc.View() == old(svc.View())
    ensures ext.None? ==> r == Err(InvalidExtJwt)
    ensures ext.Some? && receipt.None? ==> r == Err(InvalidReceipt)
    ensures ext.Some? && receipt.Some? && Reject(ext.value, receipt.value, sku).Some? ==>
              r == Err(Reject(ext.value, receipt.value, sku).value)
    ensures ext.Some? && receipt.Some? && Reject(ext.value, receipt.value, sku).None? && user.None? ==>
              r == Err(UserNotFound)
    ensures Accepted(ext, receipt, sku, user) ==>
              r == if how == Abort then Err(NotCommitted)
                   else if ExternalIdUsed(old(svc.tables.log), receipt.value.transactionId) then
                     Err(DuplicateTransaction)
                   else if how == Lost then Err(NotCommitted)
                   else if issued then Ok(()) else Err(TokensNotIssued)
  {
    how, issued := Commit, false;
    ghost var s := svc.View();
    ReachesSelf(s, Anyone);
    if ext.None? {
      return Err(InvalidExtJwt), how, issued;
    }
    if receipt.None? {
      return Err(InvalidReceipt), how, issued;
    }
    var rejected := Reject(ext.value, receipt.value, sku);
    if rejected.Some? {
      return Err(rejected.value), how, issued;
    }
    if user.None? {
      return Err(UserNotFound), how, issued;
    }
    var ending: Ending, tokens: bool := *, *;
    how, issued := ending, tokens;
    var meta := CreditMeta(Some(sku), Some(receipt.value.transactionId));
    Steps(s, OnPoints(CreditPoints(user.value, ext.value.channel, at, Source.TPoint, receipt.value.amount, meta,
        ending)));
    if ending == Abort {
      return Err(NotCommitted), how, issued;
    }
    var added := svc.tables.AddPointsWithMeta(user.value, ext.value.channel, at, Source.TPoint, receipt.value.amount,
        meta);
    if added.Err? {
      return Err(DuplicateTransaction), how, issued;
    }
    if ending == Lost {
      return Err(NotCommitted), how, issued;
    }
    assert svc.tables.log[|s.db.log|].value.externalId == Some(receipt.value.transactionId);
    return if tokens then Ok(()) else Err(TokensNotIssued), how, issued;
  }
}
