/** Points ledgers and their transaction log: credits, deductions, and the item lists that claims
    take out of the ledgers and put back. */
module Points {
  import opened Sums
  import opened Store

  // ---------- what the tables add up to, for any selection of ledgers ----------

  type Selection = int -> bool

  function Spendable(ledgers: seq<Ledger>, sel: Selection): int -> int {
    i => if 0 <= i < |ledgers| && sel(i) then ledgers[i].spendable else 0
  }

  function Cumulative(ledgers: seq<Ledger>, sel: Selection): int -> int {
    i => if 0 <= i < |ledgers| && sel(i) then ledgers[i].cumulative else 0
  }

  function Logged(log: seq<Option<PointsTx>>, sel: Selection): int -> int {
    i => if 0 <= i < |log| && log[i].Some? && sel(log[i].value.ledger) then log[i].value.delta else 0
  }

  function Moved(history: seq<Movement>, sel: Selection): int -> int {
    i => if 0 <= i < |history| && sel(history[i].ledger) then history[i].amount else 0
  }

  function Credited(history: seq<Movement>, sel: Selection): int -> int {
    i => if 0 <= i < |history| && sel(history[i].ledger) && history[i].amount > 0 then history[i].amount else 0
  }

  function ItemAt(items: seq<Item>, sel: Selection): int -> int {
    k => if 0 <= k < |items| && sel(items[k].ledger) then items[k].amount else 0
  }

  function ItemsOn(items: seq<Item>, sel: Selection): int {
    SumTo(|items|, ItemAt(items, sel))
  }

  /** A claim holds its items as long as its row exists and is not failed. */
  function Held(claims: seq<Option<ClaimRow>>, sel: Selection): int -> int {
    i => if 0 <= i < |claims| && claims[i].Some? && claims[i].value.status != Failed
         then ItemsOn(claims[i].value.items, sel) else 0
  }

  function TotalSpendable(db: Db, sel: Selection): int {
    SumTo(|db.ledgers|, Spendable(db.ledgers, sel))
  }

  function TotalCumulative(db: Db, sel: Selection): int {
    SumTo(|db.ledgers|, Cumulative(db.ledgers, sel))
  }

  function TotalLogged(db: Db, sel: Selection): int {
    SumTo(|db.log|, Logged(db.log, sel))
  }

  function TotalHeld(db: Db, sel: Selection): int {
    SumTo(|db.claims|, Held(db.claims, sel))
  }

  function TotalMoved(db: Db, sel: Selection): int {
    SumTo(|db.history|, Moved(db.history, sel))
  }

  function TotalCredited(db: Db, sel: Selection): int {
    SumTo(|db.history|, Credited(db.history, sel))
  }

  /** The three books agree: log rows explain the balances, balances plus points held by claims are
      credits minus deductions, and the cumulative totals are the credits. */
  predicate Balanced(db: Db, sel: Selection) {
    && TotalSpendable(db, sel) == TotalLogged(db, sel)
    && TotalSpendable(db, sel) + TotalHeld(db, sel) == TotalMoved(db, sel)
    && TotalCumulative(db, sel) == TotalCredited(db, sel)
  }

  // ---------- credits and deductions ----------

  datatype PointsError = InvalidAmount | InvalidSku | InvalidExternalId | DuplicateExternalId | InsufficientPoints

  /** The row of the unique (user, channel) pair, or the table's length. */
  function FindLedger(ledgers: seq<Ledger>, user: nat, channel: string): (r: nat)
    ensures r <= |ledgers|
    ensures r < |ledgers| ==> ledgers[r].user == user && ledgers[r].channel == channel
    ensures forall i :: 0 <= i < r ==> !(ledgers[i].user == user && ledgers[i].channel == channel)
  {
    if ledgers == [] then 0
    else
      var r := FindLedger(ledgers[..|ledgers| - 1], user, channel);
      var last := ledgers[|ledgers| - 1];
      if r < |ledgers| - 1 then r
      else if last.user == user && last.channel == channel then |ledgers| - 1
      else |ledgers|
  }

  function Upsert(ledgers: seq<Ledger>, user: nat, channel: string, at: int, amount: int): seq<Ledger> {
    var l := FindLedger(ledgers, user, channel);
    if l < |ledgers| then
      ledgers[l := ledgers[l].(spendable := ledgers[l].spendable + amount,
                               cumulative := ledgers[l].cumulative + amount)]
    else ledgers + [Ledger(user, channel, at, amount, amount)]
  }

  /** The two writes of addPointsWithMetaAt. */
  function AddRow(db: Db, user: nat, channel: string, at: int, source: Source, amount: int,
          externalId: Option<string>): Db {
    var l := FindLedger(db.ledgers, user, channel);
    db.(ledgers := Upsert(db.ledgers, user, channel, at, amount),
        log := db.log + [Some(PointsTx(l, source, amount, at, externalId, None))],
        history := db.history + [Movement(l, amount)])
  }

  predicate ExternalIdUsed(log: seq<Option<PointsTx>>, id: string) {
    exists i :: 0 <= i < |log| && log[i].Some? && log[i].value.externalId == Some(id)
  }

  datatype CreditMeta = CreditMeta(sku: Option<string>, externalId: Option<string>)

  function Credit(db: Db, user: nat, channel: string, at: int, source: Source, amount: int,
          meta: CreditMeta): Result<Db, PointsError> {
    if amount <= 0 then Err(InvalidAmount)
    else if meta.sku.Some? && |meta.sku.value| > 255 then Err(InvalidSku)
    else if meta.externalId.Some? && |meta.externalId.value| > 255 then Err(InvalidExternalId)
    else if meta.externalId.Some? && ExternalIdUsed(db.log, meta.externalId.value) then Err(DuplicateExternalId)
    else Ok(AddRow(db, user, channel, at, source, amount, meta.externalId))
  }

  function Deduct(db: Db, user: nat, channel: string, at: int, amount: int): Result<Db, PointsError> {
    var l := FindLedger(db.ledgers, user, channel);
    if amount <= 0 then Err(InvalidAmount)
    else if l == |db.ledgers| || db.ledgers[l].spendable < amount then Err(InsufficientPoints)
    else Ok(db.(ledgers := db.ledgers[l := db.ledgers[l].(spendable := db.ledgers[l].spendable - amount)],
                log := db.log + [Some(PointsTx(l, Source.Spend, -amount, at, None, None))],
                history := db.history + [Movement(l, -amount)]))
  }

  /** The unique index on (user, channel). */
  predicate OneLedgerEach(ledgers: seq<Ledger>) {
    forall i, j :: 0 <= i < j < |ledgers| ==>
        !(ledgers[i].user == ledgers[j].user && ledgers[i].channel == ledgers[j].channel)
  }

  /** The user has at least this many points on the channel. */
  predicate Owns(ledgers: seq<Ledger>, user: nat, channel: string, amount: int) {
    exists l :: 0 <= l < |ledgers| && ledgers[l].user == user && ledgers[l].channel == channel
                && ledgers[l].spendable >= amount
  }

  /** Ledger by ledger, the balances of the user on the channel change by x and all others stay. */
  predicate ChangedBy(a: seq<Ledger>, b: seq<Ledger>, user: nat, channel: string, x: int) {
    |b| == |a| && forall l :: 0 <= l < |a| ==>
        b[l] == if a[l].user == user && a[l].channel == channel then a[l].(spendable := a[l].spendable + x) else a[l]
  }

  /** Main result: a deduction succeeds exactly when the amount is positive and the ledger of the user and
      the channel has it; then it takes exactly the amount from that ledger, and logs exactly that. */
  lemma DeductExact(db: Db, user: nat, channel: string, at: int, amount: int)
    requires OneLedgerEach(db.ledgers)
    ensures var r := Deduct(db, user, channel, at, amount);
            && (r.Ok? <==> amount > 0 && Owns(db.ledgers, user, channel, amount))
            && (r == Err(InvalidAmount) <==> amount <= 0)
            && (r == Err(InsufficientPoints) <==> amount > 0 && !Owns(db.ledgers, user, channel, amount))
            && (r.Ok? ==>
                && ChangedBy(db.ledgers, r.value.ledgers, user, channel, -amount)
                && r.value == db.(ledgers := r.value.ledgers, log := r.value.log, history := r.value.history)
                && exists l: nat :: l < |db.ledgers| && db.ledgers[l].user == user && db.ledgers[l].channel == channel
                     && r.value.log == db.log + [Some(PointsTx(l, Source.Spend, -amount, at, None, None))]
                     && r.value.history == db.history + [Movement(l, -amount)])
  {
    var l := FindLedger(db.ledgers, user, channel);
    if k :| 0 <= k < |db.ledgers| && db.ledgers[k].user == user && db.ledgers[k].channel == channel {
      assert k == l;
    }
  }

  /** A credit goes through exactly when its fields are valid and its id is new; then the ledger of the
      user and the channel, a new one if need be, gets exactly the amount, and exactly that is logged. */
  lemma CreditExact(db: Db, user: nat, channel: string, at: int, source: Source, amount: int, meta: CreditMeta)
    requires OneLedgerEach(db.ledgers)
    ensures var r := Credit(db, user, channel, at, source, amount, meta);
            && (r.Ok? <==> amount > 0 && Creditable(db.log, meta))
            && (r.Ok? ==>
                && OneLedgerEach(r.value.ledgers)
                && r.value == db.(ledgers := r.value.ledgers, log := r.value.log, history := r.value.history)
                && exists l: nat :: l < |r.value.ledgers|
                     && LedgerCredited(db.ledgers, r.value.ledgers, l, user, channel, at, amount)
                     && r.value.log == db.log + [Some(PointsTx(l, source, amount, at, meta.externalId, None))]
                     && r.value.history == db.history + [Movement(l, amount)])
  {
    var l := FindLedger(db.ledgers, user, channel);
    if amount > 0 && Creditable(db.log, meta) {
      assert LedgerCredited(db.ledgers, AddRow(db, user, channel, at, source, amount, meta.externalId).ledgers, l, user,
          channel, at, amount);
    }
  }

  predicate Creditable(log: seq<Option<PointsTx>>, meta: CreditMeta) {
    && (meta.sku.Some? ==> |meta.sku.value| <= 255)
    && (meta.externalId.Some? ==> |meta.externalId.value| <= 255 && forall i :: 0 <= i < |log| && log[i].Some? ==>
          log[i].value.externalId != meta.externalId)
  }

  /** Ledger l belongs to the user and the channel and got the amount; if it is new, it dates from now. */
  predicate LedgerCredited(a: seq<Ledger>, b: seq<Ledger>, l: nat, user: nat, channel: string, at: int, amount: int) {
    && l < |b| && b[l].user == user && b[l].channel == channel && |a| <= |b| <= |a| + 1
    && (forall k :: 0 <= k < |a| && k != l ==> b[k] == a[k])
    && if l < |a|
       then |b| == |a| && b[l] == a[l].(spendable := a[l].spendable + amount, cumulative := a[l].cumulative + amount)
       else l == |a| && b[l] == Ledger(user, channel, at, amount, amount)
  }

  // ---------- applying the items of a claim ----------

  function MovedPoints(ledgers: seq<Ledger>, l: nat, x: int): (r: seq<Ledger>)
    ensures |r| == |ledgers|
    ensures forall i :: 0 <= i < |r| ==> r[i] == ledgers[i].(spendable := r[i].spendable)
  {
    if l < |ledgers| then ledgers[l := ledgers[l].(spendable := ledgers[l].spendable + x)] else ledgers
  }

  /** The first n items leave the ledgers (back == false) or return to them (back == true). */
  function ApplyFirst(ledgers: seq<Ledger>, items: seq<Item>, n: nat, back: bool): (r: seq<Ledger>)
    requires n <= |items|
    ensures |r| == |ledgers|
    ensures forall i :: 0 <= i < |r| ==> r[i] == ledgers[i].(spendable := r[i].spendable)
  {
    if n == 0 then ledgers
    else MovedPoints(ApplyFirst(ledgers, items, n - 1, back), items[n - 1].ledger, Signed(items[n - 1].amount, back))
  }

  function ApplyItems(ledgers: seq<Ledger>, items: seq<Item>, back: bool): seq<Ledger> {
    ApplyFirst(ledgers, items, |items|, back)
  }

  function Signed(x: int, back: bool): int {
    if back then x else -x
  }

  /** The log rows written beside the items. */
  function ItemRow(item: Item, at: int, back: bool, ref: Option<ItemRef>): Option<PointsTx> {
    Some(PointsTx(item.ledger, Source.Claim, Signed(item.amount, back), at, None, ref))
  }

  function DebitRows(items: seq<Item>, at: int, claim: nat): (r: seq<Option<PointsTx>>)
    ensures |r| == |items|
    ensures forall k :: 0 <= k < |items| ==> r[k] == ItemRow(items[k], at, false, Some(ItemRef(claim, k)))
  {
    seq(|items|, k requires 0 <= k < |items| => ItemRow(items[k], at, false, Some(ItemRef(claim, k))))
  }

  function RefundRows(items: seq<Item>, at: int): (r: seq<Option<PointsTx>>)
    ensures |r| == |items|
    ensures forall k :: 0 <= k < |items| ==> r[k] == ItemRow(items[k], at, true, None)
  {
    seq(|items|, k requires 0 <= k < |items| => ItemRow(items[k], at, true, None))
  }

  function DeleteFirst(log: seq<Option<PointsTx>>, items: seq<Item>, n: nat): (r: seq<Option<PointsTx>>)
    requires n <= |items|
    ensures |r| == |log|
  {
    if n == 0 then log
    else
      var r, it := DeleteFirst(log, items, n - 1), items[n - 1];
      if it.tx < |r| then r[it.tx := None] else r
  }

  function DeleteRows(log: seq<Option<PointsTx>>, items: seq<Item>): seq<Option<PointsTx>> {
    DeleteFirst(log, items, |items|)
  }

  predicate OnLedgers(items: seq<Item>, n: nat) {
    forall k :: 0 <= k < |items| ==> items[k].ledger < n
  }

  // ---------- how each write moves the sums ----------

  lemma SpendablePoint(a: seq<Ledger>, b: seq<Ledger>, l: nat, sel: Selection)
    requires l < |a| == |b| && b == a[l := b[l]]
    ensures SumTo(|b|, Spendable(b, sel)) == SumTo(|a|, Spendable(a, sel)) + if sel(l) then
        b[l].spendable - a[l].spendable else 0
    ensures SumTo(|b|, Cumulative(b, sel)) == SumTo(|a|, Cumulative(a, sel)) + if sel(l) then
        b[l].cumulative - a[l].cumulative else 0
  {
    SumPoint(|a|, Spendable(a, sel), Spendable(b, sel), l);
    SumPoint(|a|, Cumulative(a, sel), Cumulative(b, sel), l);
  }

  lemma SpendableSnoc(a: seq<Ledger>, x: Ledger, sel: Selection)
    ensures SumTo(|a| + 1, Spendable(a + [x], sel)) == SumTo(|a|, Spendable(a, sel)) + if sel(|a|) then x.spendable
        else 0
    ensures SumTo(|a| + 1, Cumulative(a + [x], sel)) == SumTo(|a|, Cumulative(a, sel)) + if sel(|a|) then x.cumulative
        else 0
  {
    SumSame(|a|, Spendable(a, sel), Spendable(a + [x], sel));
    SumSame(|a|, Cumulative(a, sel), Cumulative(a + [x], sel));
  }

  lemma LogSnoc(log: seq<Option<PointsTx>>, x: PointsTx, sel: Selection)
    ensures SumTo(|log| + 1, Logged(log + [Some(x)], sel)) == SumTo(|log|, Logged(log, sel))
         + if sel(x.ledger) then x.delta else 0
  {
    SumSame(|log|, Logged(log, sel), Logged(log + [Some(x)], sel));
  }

  lemma HistorySnoc(h: seq<Movement>, x: Movement, sel: Selection)
    ensures SumTo(|h| + 1, Moved(h + [x], sel)) == SumTo(|h|, Moved(h, sel)) + if sel(x.ledger) then x.amount else 0
    ensures SumTo(|h| + 1, Credited(h + [x], sel)) == SumTo(|h|, Credited(h, sel)) + if sel(x.ledger)
        && x.amount > 0 then x.amount else 0
  {
    SumSame(|h|, Moved(h, sel), Moved(h + [x], sel));
    SumSame(|h|, Credited(h, sel), Credited(h + [x], sel));
  }

  lemma UpsertSum(ledgers: seq<Ledger>, user: nat, channel: string, at: int, amount: int, sel: Selection)
    ensures var r, l := Upsert(ledgers, user, channel, at, amount), FindLedger(ledgers, user, channel);
            && SumTo(|r|, Spendable(r, sel)) == SumTo(|ledgers|, Spendable(ledgers, sel))
                + (if sel(l) then amount else 0)
            && SumTo(|r|, Cumulative(r, sel)) == SumTo(|ledgers|, Cumulative(ledgers, sel))
                + (if sel(l) then amount else 0)
  {
    var l := FindLedger(ledgers, user, channel);
    if l < |ledgers| {
      SpendablePoint(ledgers, Upsert(ledgers, user, channel, at, amount), l, sel);
    } else {
      SpendableSnoc(ledgers, Ledger(user, channel, at, amount, amount), sel);
    }
  }

  lemma AddRowBalanced(db: Db, user: nat, channel: string, at: int, source: Source, amount: int,
          externalId: Option<string>, sel: Selection)
    requires amount > 0 && Balanced(db, sel)
    ensures Balanced(AddRow(db, user, channel, at, source, amount, externalId), sel)
  {
    var l := FindLedger(db.ledgers, user, channel);
    UpsertSum(db.ledgers, user, channel, at, amount, sel);
    LogSnoc(db.log, PointsTx(l, source, amount, at, externalId, None), sel);
    HistorySnoc(db.history, Movement(l, amount), sel);
  }

  /** Points of ledger l are spent, with the log row x. */
  lemma SpentBalanced(a: Db, b: Db, l: nat, amount: int, x: PointsTx, sel: Selection)
    requires Balanced(a, sel) && l < |a.ledgers| && amount > 0 && x.ledger == l && x.delta == -amount
    requires b.ledgers == a.ledgers[l := a.ledgers[l].(spendable := a.ledgers[l].spendable - amount)]
    requires b.log == a.log + [Some(x)] && b.history == a.history + [Movement(l, -amount)] && b.claims == a.claims
    ensures Balanced(b, sel)
  {
    SpendablePoint(a.ledgers, b.ledgers, l, sel);
    LogSnoc(a.log, x, sel);
    HistorySnoc(a.history, Movement(l, -amount), sel);
  }

  lemma DeductBalanced(db: Db, user: nat, channel: string, at: int, amount: int, sel: Selection)
    requires Balanced(db, sel) && Deduct(db, user, channel, at, amount).Ok?
    ensures Balanced(Deduct(db, user, channel, at, amount).value, sel)
  {
    var l := FindLedger(db.ledgers, user, channel);
    SpentBalanced(db, Deduct(db, user, channel, at, amount).value, l, amount,
        PointsTx(l, Source.Spend, -amount, at, None, None), sel);
  }

  lemma MovedSum(ledgers: seq<Ledger>, l: nat, x: int, sel: Selection)
    requires l < |ledgers|
    ensures var r := MovedPoints(ledgers, l, x);
            SumTo(|r|, Spendable(r, sel)) == SumTo(|ledgers|, Spendable(ledgers, sel)) + if sel(l) then x else 0
  {
    SumPoint(|ledgers|, Spendable(ledgers, sel), Spendable(MovedPoints(ledgers, l, x), sel), l);
  }

  lemma {:induction false} ApplyFirstSum(ledgers: seq<Ledger>, items: seq<Item>, n: nat, back: bool, sel: Selection)
    requires OnLedgers(items, |ledgers|) && n <= |items|
    ensures var r := ApplyFirst(ledgers, items, n, back);
            SumTo(|r|, Spendable(r, sel)) == SumTo(|ledgers|, Spendable(ledgers, sel))
                + Signed(SumTo(n, ItemAt(items, sel)), back)
  {
    if n == 0 {
    } else {
      ApplyFirstSum(ledgers, items, n - 1, back, sel);
      assert SumTo(n, ItemAt(items, sel)) == SumTo(n - 1, ItemAt(items, sel)) + if sel(items[n - 1].ledger) then
          items[n - 1].amount else 0;
      MovedSum(ApplyFirst(ledgers, items, n - 1, back), items[n - 1].ledger, Signed(items[n - 1].amount, back), sel);
    }
  }

  lemma ApplyItemsSum(ledgers: seq<Ledger>, items: seq<Item>, back: bool, sel: Selection)
    requires OnLedgers(items, |ledgers|)
    ensures var r := ApplyItems(ledgers, items, back);
            && SumTo(|r|, Spendable(r, sel)) == SumTo(|ledgers|, Spendable(ledgers, sel))
                + Signed(ItemsOn(items, sel), back)
            && SumTo(|r|, Cumulative(r, sel)) == SumTo(|ledgers|, Cumulative(ledgers, sel))
  {
    ApplyFirstSum(ledgers, items, |items|, back, sel);
    SumSame(|ledgers|, Cumulative(ledgers, sel), Cumulative(ApplyItems(ledgers, items, back), sel));
  }

  lemma LogAppend(log: seq<Option<PointsTx>>, rows: seq<Option<PointsTx>>, sel: Selection)
    ensures SumTo(|log| + |rows|, Logged(log + rows, sel)) == SumTo(|log|, Logged(log, sel))
        + SumTo(|rows|, Logged(rows, sel))
  {
    SumAppend(|log|, |rows|, Logged(log, sel), Logged(rows, sel), Logged(log + rows, sel));
  }

  /** Log rows that mirror the items. */
  predicate Mirrors(rows: seq<Option<PointsTx>>, items: seq<Item>, back: bool) {
    && |rows| == |items|
    && forall k :: 0 <= k < |rows| ==> rows[k].Some? && rows[k].value.ledger == items[k].ledger
                                       && rows[k].value.delta == Signed(items[k].amount, back)
  }

  lemma MirrorSum(log: seq<Option<PointsTx>>, rows: seq<Option<PointsTx>>, items: seq<Item>, back: bool, sel: Selection)
    requires Mirrors(rows, items, back)
    ensures SumTo(|log| + |items|, Logged(log + rows, sel)) == SumTo(|log|, Logged(log, sel))
        + Signed(ItemsOn(items, sel), back)
  {
    LogAppend(log, rows, sel);
    SumCombine(|items|, ItemAt(items, sel), ItemAt(items, sel), Logged(rows, sel), Signed(1, back), 0);
  }

  /** Every item still has its own debit row in the log. */
  predicate Recorded(log: seq<Option<PointsTx>>, items: seq<Item>, claim: nat) {
    forall k {:trigger items[k].tx} :: 0 <= k < |items| ==>
      && items[k].tx < |log| && log[items[k].tx].Some?
      && log[items[k].tx] == ItemRow(items[k], log[items[k].tx].value.at, false, Some(ItemRef(claim, k)))
  }

  lemma {:induction false} DeleteFirstSum(log: seq<Option<PointsTx>>, items: seq<Item>, n: nat, claim: nat,
          sel: Selection)
    requires Recorded(log, items, claim) && n <= |items|
    ensures SumTo(|log|, Logged(DeleteFirst(log, items, n), sel)) == SumTo(|log|, Logged(log, sel))
        + SumTo(n, ItemAt(items, sel))
    ensures forall i :: 0 <= i < |log| ==>
              DeleteFirst(log, items, n)[i] == log[i]
              || (log[i].Some? && exists k :: 0 <= k < n && log[i].value.item == Some(ItemRef(claim, k)))
  {
    if n == 0 {
    } else {
      DeleteFirstSum(log, items, n - 1, claim, sel);
      var mid, it := DeleteFirst(log, items, n - 1), items[n - 1];
      assert log[it.tx].value.item == Some(ItemRef(claim, n - 1));
      assert mid[it.tx] == log[it.tx];
      SumPoint(|log|, Logged(mid, sel), Logged(DeleteFirst(log, items, n), sel), it.tx);
    }
  }

  lemma DeleteRowsSum(log: seq<Option<PointsTx>>, items: seq<Item>, claim: nat, sel: Selection)
    requires Recorded(log, items, claim)
    ensures SumTo(|log|, Logged(DeleteRows(log, items), sel)) == SumTo(|log|, Logged(log, sel)) + ItemsOn(items, sel)
    ensures forall i :: 0 <= i < |log| ==>
              DeleteRows(log, items)[i] == log[i]
              || (log[i].Some? && exists k :: 0 <= k < |items| && log[i].value.item == Some(ItemRef(claim, k)))
  {
    DeleteFirstSum(log, items, |items|, claim, sel);
  }
}
