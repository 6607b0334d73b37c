/** The database transactions of a claim (services/api/internal/services/claim_service.go), each as
    a function from the tables before to the tables after. */
module Claims {
  import opened Sums
  import opened Store
  import opened Points

  datatype ClaimError =
    | ClaimAmountInvalid
    | ClaimInsufficientBalance
    | ClaimWalletNotLinked
    | ClaimMissing
    | HashMismatch
    | InvalidStatus(status: Status)
    | BalanceMissing
    | LedgerMissing
    | UserMissing

  /** What a running claim remembers of its reservation. */
  datatype Reservation = Reservation(user: nat, wallet: string, amount: int, claim: nat, items: seq<Item>)

  // ---------- reserving points ----------

  /** A row of the locking SELECT: a ledger id and the balance read. */
  datatype Fetched = Fetched(ledger: nat, spendable: int)

  predicate Older(ledgers: seq<Ledger>, a: nat, b: nat)
    requires a < |ledgers| && b < |ledgers|
  {
    ledgers[a].created < ledgers[b].created || (ledgers[a].created == ledgers[b].created && a < b)
  }

  /** The result of the SELECT: exactly the user's ledgers with points, oldest first. */
  predicate FetchedFor(ledgers: seq<Ledger>, user: nat, rows: seq<Fetched>) {
    && (forall k :: 0 <= k < |rows| ==>
          && rows[k].ledger < |ledgers| && ledgers[rows[k].ledger].user == user
          && rows[k].spendable == ledgers[rows[k].ledger].spendable > 0)
    && (forall i, j :: 0 <= i < j < |rows| ==> Older(ledgers, rows[i].ledger, rows[j].ledger))
    && (forall l :: 0 <= l < |ledgers| && ledgers[l].user == user && ledgers[l].spendable > 0 ==>
          exists k :: 0 <= k < |rows| && rows[k].ledger == l)
  }

  /** The points in the first n rows. */
  function FetchedUpTo(rows: seq<Fetched>, n: nat): int
    requires n <= |rows|
  {
    if n == 0 then 0 else FetchedUpTo(rows, n - 1) + rows[n - 1].spendable
  }

  function FetchedTotal(rows: seq<Fetched>): int {
    FetchedUpTo(rows, |rows|)
  }

  function Every(): Selection {
    i => true
  }

  function Only(l: int): Selection {
    i => i == l
  }

  function ItemTotal(items: seq<Item>): int {
    ItemsOn(items, Every())
  }

  /** Takes from the first n ledgers, in the order fetched, until the amount is covered. */
  function Greedy(rows: seq<Fetched>, n: nat, amount: int, firstTx: nat): seq<Item>
    requires n <= |rows|
  {
    if n == 0 then []
    else
      var taken := Greedy(rows, n - 1, amount, firstTx);
      var row, left := rows[n - 1], amount - ItemTotal(taken);
      if left <= 0 then taken
      else taken + [Item(row.ledger, firstTx + |taken|, if row.spendable > left then left else row.spendable)]
  }

  function ClaimAmount(rows: seq<Fetched>, amount: int): int {
    if amount == 0 then FetchedTotal(rows) else amount
  }

  function ReservationOf(db: Db, user: nat, amount: int, rows: seq<Fetched>, wallet: string): Reservation {
    Reservation(user, wallet, ClaimAmount(rows, amount), |db.claims|,
        Greedy(rows, |rows|, ClaimAmount(rows, amount), |db.log|))
  }

  /** The tables after reserving: a pending claim, its items taken out and logged. */
  function Reserved(db: Db, res: Reservation, at: int): Db {
    db.(claims := db.claims + [Some(ClaimRow(res.user, res.wallet, res.amount, Pending, None, res.items))],
        ledgers := ApplyItems(db.ledgers, res.items, false),
        log := db.log + DebitRows(res.items, at, res.claim))
  }

  function Reserve(db: Db, user: nat, amount: int, rows: seq<Fetched>, wallet: Option<string>,
          at: int): Result<Reservation, ClaimError> {
    var claimAmount := ClaimAmount(rows, amount);
    if claimAmount <= 0 then Err(ClaimAmountInvalid)
    else if FetchedTotal(rows) < claimAmount then Err(ClaimInsufficientBalance)
    else if wallet.None? then Err(ClaimWalletNotLinked)
    else Ok(ReservationOf(db, user, amount, rows, wallet.value))
  }

  // ---------- the later transactions ----------

  /** The claim row that WHERE id = ? AND user_id = ? selects. */
  function FindClaim(db: Db, res: Reservation): Option<ClaimRow> {
    if res.claim < |db.claims| && db.claims[res.claim].Some? && db.claims[res.claim].value.user == res.user
    then db.claims[res.claim] else None
  }

  function UpdateClaim(db: Db, res: Reservation, status: Status, txHash: Option<nat>): Db {
    match FindClaim(db, res)
    case None => db
    case Some(row) => db.(claims := db.claims[res.claim := Some(row.(status := status, txHash := txHash))])
  }

  function MarkBroadcast(db: Db, res: Reservation, hash: nat): Db {
    UpdateClaim(db, res, Broadcast, Some(hash))
  }

  function RecordUnknown(db: Db, res: Reservation, hash: nat): Db {
    UpdateClaim(db, res, Broadcast, Some(hash))
  }

  function Rollback(db: Db, res: Reservation): Db {
    db.(claims := if res.claim < |db.claims| then db.claims[res.claim := None] else db.claims,
        ledgers := ApplyItems(db.ledgers, res.items, true),
        log := DeleteRows(db.log, res.items))
  }

  function Compensate(db: Db, res: Reservation, hash: nat, at: int): Result<Db, ClaimError> {
    if !OnLedgers(res.items, |db.ledgers|) then Err(LedgerMissing)
    else
      Ok(UpdateClaim(db, res, Failed, Some(hash)).(
           ledgers := ApplyItems(db.ledgers, res.items, true),
           log := db.log + RefundRows(res.items, at)))
  }

  /** The guard of the conditional updates in finalizeClaim and markFinalizeFailedClaim. */
  predicate Finalizable(row: ClaimRow, hash: Option<nat>) {
    && (row.status == Broadcast || row.status == FinalizeFailed)
    && (hash.None? || row.txHash.None? || row.txHash == hash)
  }

  function KeepHash(row: ClaimRow, hash: Option<nat>): Option<nat> {
    if hash.Some? then hash else row.txHash
  }

  function MarkFinalizeFailed(db: Db, res: Reservation, hash: Option<nat>): Result<Db, ClaimError> {
    match FindClaim(db, res)
    case None => Err(ClaimMissing)
    case Some(row) =>
      if Finalizable(row, hash) then Ok(UpdateClaim(db, res, FinalizeFailed, KeepHash(row, hash)))
      else if hash.Some? && row.txHash.Some? && row.txHash != hash then Err(HashMismatch)
      else if row.status == Confirmed then Ok(db)
      else Err(InvalidStatus(row.status))
  }

  function BalanceOf(balances: seq<Option<int>>, user: nat): int {
    if user < |balances| && balances[user].Some? then balances[user].value else 0
  }

  /** The tables after finalizing, with the balance returned to the caller. */
  datatype Finalized = Finalized(db: Db, balance: int)

  function Finalize(db: Db, res: Reservation, hash: Option<nat>): Result<Finalized, ClaimError> {
    match FindClaim(db, res)
    case None => Err(ClaimMissing)
    case Some(row) =>
      if Finalizable(row, hash) then
        if res.user >= |db.balances| then Err(UserMissing)
        else
          var balance := BalanceOf(db.balances, res.user) + res.amount;
          Ok(Finalized(UpdateClaim(db, res, Confirmed, KeepHash(row, hash)).(
                         balances := db.balances[res.user := Some(balance)]), balance))
      else if hash.Some? && row.txHash.Some? && row.txHash != hash then Err(HashMismatch)
      else if row.status == Confirmed then
        if res.user < |db.balances| && db.balances[res.user].Some?
        then Ok(Finalized(db, db.balances[res.user].value)) else Err(BalanceMissing)
      else Err(InvalidStatus(row.status))
  }

  // ---------- the greedy reservation ----------

  lemma ItemTotalSnoc(items: seq<Item>, item: Item)
    ensures ItemTotal(items + [item]) == ItemTotal(items) + item.amount
  {
    SumSame(|items|, ItemAt(items, Every()), ItemAt(items + [item], Every()));
  }

  lemma {:induction false} GreedySpec(rows: seq<Fetched>, n: nat, amount: int, firstTx: nat)
    requires n <= |rows| && forall k :: 0 <= k < |rows| ==> rows[k].spendable > 0
    requires amount > 0
    ensures var g, total := Greedy(rows, n, amount, firstTx), FetchedUpTo(rows, n);
            && |g| <= n
            && (forall k :: 0 <= k < |g| ==>
                g[k].ledger == rows[k].ledger && g[k].tx == firstTx + k
                && 0 < g[k].amount <= rows[k].spendable)
            && (forall k :: 0 <= k < |g| - 1 ==> g[k].amount == rows[k].spendable)
            && total >= 0
            && ItemTotal(g) == (if amount < total then amount else total)
            && (amount >= total ==> |g| == n && forall k :: 0 <= k < |g| ==> g[k].amount == rows[k].spendable)
  {
    if n == 0 {
    } else {
      GreedySpec(rows, n - 1, amount, firstTx);
      var taken, g := Greedy(rows, n - 1, amount, firstTx), Greedy(rows, n, amount, firstTx);
      if |g| > |taken| {
        ItemTotalSnoc(taken, g[|taken|]);
      }
    }
  }

  /** The loop may stop as soon as nothing remains. */
  lemma {:induction false} GreedyStops(rows: seq<Fetched>, amount: int, firstTx: nat, i: nat, n: nat)
    requires i <= n <= |rows| && ItemTotal(Greedy(rows, i, amount, firstTx)) == amount
    ensures Greedy(rows, n, amount, firstTx) == Greedy(rows, i, amount, firstTx)
  {
    if i == n {
    } else {
      GreedyStops(rows, amount, firstTx, i, n - 1);
    }
  }

  lemma {:induction false} ApplyFirstAt(ledgers: seq<Ledger>, items: seq<Item>, n: nat, back: bool, l: nat)
    requires OnLedgers(items, |ledgers|) && l < |ledgers| && n <= |items|
    ensures ApplyFirst(ledgers, items, n, back)[l].spendable == ledgers[l].spendable
        + Signed(SumTo(n, ItemAt(items, Only(l))), back)
  {
    if n == 0 {
    } else {
      ApplyFirstAt(ledgers, items, n - 1, back, l);
    }
  }

  lemma ApplyItemsAt(ledgers: seq<Ledger>, items: seq<Item>, back: bool, l: nat)
    requires OnLedgers(items, |ledgers|) && l < |ledgers|
    ensures ApplyItems(ledgers, items, back)[l].spendable == ledgers[l].spendable
        + Signed(ItemsOn(items, Only(l)), back)
  {
    ApplyFirstAt(ledgers, items, |items|, back, l);
  }

  /** Main result, first half: the items of a reservation are a prefix of the fetched ledgers, oldest
      first, and cover the claim amount exactly; claiming 0 takes everything. */
  lemma ReservationItems(db: Db, user: nat, amount: int, rows: seq<Fetched>, wallet: Option<string>, at: int)
    requires FetchedFor(db.ledgers, user, rows)
    requires Reserve(db, user, amount, rows, wallet, at).Ok?
    ensures var res := Reserve(db, user, amount, rows, wallet, at).value;
            && res.amount > 0 && ItemTotal(res.items) == res.amount && 0 < |res.items| <= |rows|
            && (amount != 0 ==> res.amount == amount)
            && (amount == 0 ==> |res.items| == |rows|)
            && (forall k :: 0 <= k < |res.items| ==>
                res.items[k].ledger == rows[k].ledger
                && res.items[k].tx == |db.log| + k)
            && (forall k :: 0 <= k < |res.items| ==> 0 < res.items[k].amount <= rows[k].spendable)
            && (forall k :: 0 <= k < |res.items| && (amount == 0 || k < |res.items| - 1) ==>
                res.items[k].amount == rows[k].spendable)
  {
    var res := Reserve(db, user, amount, rows, wallet, at).value;
    GreedySpec(rows, |rows|, res.amount, |db.log|);
    assert res.items == [] ==> ItemTotal(res.items) == 0;
  }

  /** Main result, second half: what the reservation leaves in the ledgers. Every ledger touched but
      the last is emptied (all of them when claiming 0), the later ones and everybody else's keep
      their balance, and no balance goes below zero. */
  lemma ReservationLedgers(db: Db, user: nat, amount: int, rows: seq<Fetched>, wallet: Option<string>, at: int)
    requires FetchedFor(db.ledgers, user, rows)
    requires Reserve(db, user, amount, rows, wallet, at).Ok?
    ensures var res := Reserve(db, user, amount, rows, wallet, at).value;
            var after, n := Reserved(db, res, at).ledgers, |res.items|;
            && n <= |rows|
            && (forall k :: 0 <= k < n && (amount == 0 || k < n - 1) ==> after[rows[k].ledger].spendable == 0)
            && (forall k :: n <= k < |rows| ==> after[rows[k].ledger] == db.ledgers[rows[k].ledger])
            && (forall l :: 0 <= l < |after| && db.ledgers[l].user != user ==> after[l] == db.ledgers[l])
            && (forall l :: 0 <= l < |after| && db.ledgers[l].spendable >= 0 ==> after[l].spendable >= 0)
  {
    var res := Reserve(db, user, amount, rows, wallet, at).value;
    ReservationItems(db, user, amount, rows, wallet, at);
    var after := Reserved(db, res, at).ledgers;
    forall l | 0 <= l < |after|
      ensures SpendableAfter(db.ledgers, rows, res.items, l)
    {
      LedgerAfter(db.ledgers, user, rows, res.items, l);
    }
    forall l | 0 <= l < |after|
      ensures db.ledgers[l].user != user ==> after[l] == db.ledgers[l]
      ensures db.ledgers[l].spendable >= 0 ==> after[l].spendable >= 0
    {
      assert SpendableAfter(db.ledgers, rows, res.items, l);
    }
    forall k | 0 <= k < |rows|
      ensures after[rows[k].ledger].spendable == rows[k].spendable - if k < |res.items| then res.items[k].amount else 0
    {
      assert SpendableAfter(db.ledgers, rows, res.items, rows[k].ledger);
    }
  }

  /** Main result: points are taken from the oldest ledgers first. As long as a ledger of the user keeps
      points, no ledger of the user that was created later is touched. */
  lemma OldestFirst(db: Db, user: nat, amount: int, rows: seq<Fetched>, wallet: Option<string>, at: int, a: nat, b: nat)
    requires FetchedFor(db.ledgers, user, rows) && Reserve(db, user, amount, rows, wallet, at).Ok?
    requires a < |db.ledgers| && b < |db.ledgers| && db.ledgers[a].user == user && db.ledgers[b].user == user
    requires db.ledgers[a].created < db.ledgers[b].created && db.ledgers[a].spendable > 0
    ensures var after := Reserved(db, Reserve(db, user, amount, rows, wallet, at).value, at).ledgers;
            |after| == |db.ledgers| && (after[a].spendable > 0 ==> after[b] == db.ledgers[b])
  {
    var res := Reserve(db, user, amount, rows, wallet, at).value;
    var n := |res.items|;
    ReservationItems(db, user, amount, rows, wallet, at);
    ReservationLedgers(db, user, amount, rows, wallet, at);
    LedgerAfter(db.ledgers, user, rows, res.items, b);
    var i :| 0 <= i < |rows| && rows[i].ledger == a;
    if j :| 0 <= j < |rows| && rows[j].ledger == b {
      assert j <= i ==> j == i || Older(db.ledgers, rows[j].ledger, rows[i].ledger);
      assert i < j;
    }
  }

  /** What a reservation writes beside the ledgers: one claim, and one row for each item. */
  lemma ReservationLogged(db: Db, user: nat, amount: int, rows: seq<Fetched>, wallet: Option<string>, at: int)
    requires Reserve(db, user, amount, rows, wallet, at).Ok?
    ensures var res := Reserve(db, user, amount, rows, wallet, at).value;
            var after := Reserved(db, res, at);
            && wallet.Some? && after == db.(claims := after.claims, ledgers := after.ledgers, log := after.log)
            && after.claims == db.claims + [Some(ClaimRow(user, wallet.value, res.amount, Pending, None, res.items))]
            && RowsWritten(db.log, after.log, res.items, |db.claims|, at)
  {
  }

  predicate RowsWritten(a: seq<Option<PointsTx>>, b: seq<Option<PointsTx>>, items: seq<Item>, claim: nat, at: int) {
    && |b| == |a| + |items| && b[..|a|] == a
    && forall k :: 0 <= k < |items| ==>
         b[|a| + k] == Some(PointsTx(items[k].ledger, Source.Claim, -items[k].amount, at, None,
                                     Some(ItemRef(claim, k))))
  }

  /** A compensation adds one row for each item, the opposite of its debit. */
  lemma RefundLogged(db: Db, res: Reservation, hash: nat, at: int)
    requires OnLedgers(res.items, |db.ledgers|)
    ensures var r := Compensate(db, res, hash, at);
            && r.Ok? && |r.value.log| == |db.log| + |res.items| && r.value.log[..|db.log|] == db.log
            && forall k :: 0 <= k < |res.items| ==>
                 r.value.log[|db.log| + k]
                 == Some(PointsTx(res.items[k].ledger, Source.Claim, res.items[k].amount, at, None, None))
  {
  }

  /** The balance of ledger l once the items are taken. */
  predicate SpendableAfter(ledgers: seq<Ledger>, rows: seq<Fetched>, items: seq<Item>, l: int)
    requires 0 <= l < |ledgers|
  {
    var after := ApplyItems(ledgers, items, false)[l].spendable;
    && (forall k :: 0 <= k < |rows| && rows[k].ledger == l ==>
        after == ledgers[l].spendable - if k < |items| then items[k].amount else 0)
    && ((forall k :: 0 <= k < |rows| ==> rows[k].ledger != l) ==> after == ledgers[l].spendable)
  }

  lemma LedgerAfter(ledgers: seq<Ledger>, user: nat, rows: seq<Fetched>, items: seq<Item>, l: nat)
    requires FetchedFor(ledgers, user, rows) && |items| <= |rows| && l < |ledgers|
    requires forall k :: 0 <= k < |items| ==> items[k].ledger == rows[k].ledger
    ensures SpendableAfter(ledgers, rows, items, l)
  {
    ApplyItemsAt(ledgers, items, false, l);
    if k :| 0 <= k < |rows| && rows[k].ledger == l {
      forall i | 0 <= i < |rows| && i != k
        ensures rows[i].ledger != l
      {
        assert if i < k then Older(ledgers, rows[i].ledger, rows[k].ledger)
            else Older(ledgers, rows[k].ledger, rows[i].ledger);
      }
      if k < |items| {
        SumSingle(|items|, ItemAt(items, Only(l)), k);
      } else {
        SumNone(|items|, ItemAt(items, Only(l)));
      }
    } else {
      SumNone(|items|, ItemAt(items, Only(l)));
    }
  }

  function OfUser(ledgers: seq<Ledger>, user: nat): Selection {
    i => 0 <= i < |ledgers| && ledgers[i].user == user
  }

  lemma ItemsSelected(items: seq<Item>, sel: Selection)
    requires forall k :: 0 <= k < |items| ==> sel(items[k].ledger)
    ensures ItemsOn(items, sel) == ItemTotal(items)
  {
    SumSame(|items|, ItemAt(items, sel), ItemAt(items, Every()));
  }

  lemma Drained(ledgers: seq<Ledger>, user: nat, rows: seq<Fetched>, items: seq<Item>, l: nat)
    requires FetchedFor(ledgers, user, rows) && l < |ledgers| && ledgers[l].spendable >= 0 && |items| == |rows|
    requires forall k :: 0 <= k < |rows| ==> items[k].ledger == rows[k].ledger && items[k].amount == rows[k].spendable
    ensures Spendable(ApplyItems(ledgers, items, false), OfUser(ledgers, user))(l) == 0
  {
    LedgerAfter(ledgers, user, rows, items, l);
    assert SpendableAfter(ledgers, rows, items, l);
  }

  /** What the SELECT adds up to is the user's whole balance. */
  lemma FetchedIsWholeBalance(ledgers: seq<Ledger>, user: nat, rows: seq<Fetched>)
    requires FetchedFor(ledgers, user, rows)
    requires forall l :: 0 <= l < |ledgers| ==> ledgers[l].spendable >= 0
    ensures FetchedTotal(rows) == SumTo(|ledgers|, Spendable(ledgers, OfUser(ledgers, user)))
  {
    var sel, n := OfUser(ledgers, user), |ledgers|;
    if rows == [] {
      SumNone(n, Spendable(ledgers, sel));
    } else {
      FetchedPositive(rows, |rows|);
      var items := Greedy(rows, |rows|, FetchedTotal(rows), 0);
      GreedySpec(rows, |rows|, FetchedTotal(rows), 0);
      ItemsSelected(items, sel);
      ApplyItemsSum(ledgers, items, false, sel);
      forall l | 0 <= l < n
        ensures Spendable(ApplyItems(ledgers, items, false), sel)(l) == 0
      {
        Drained(ledgers, user, rows, items, l);
      }
      SumNone(n, Spendable(ApplyItems(ledgers, items, false), sel));
    }
  }

  lemma {:induction false} FetchedPositive(rows: seq<Fetched>, n: nat)
    requires 0 < n <= |rows| && forall k :: 0 <= k < |rows| ==> rows[k].spendable > 0
    ensures FetchedUpTo(rows, n) > 0
  {
    if n == 1 {
    } else {
      FetchedPositive(rows, n - 1);
    }
  }

  /** When a reservation is refused, in terms of the user's whole balance. */
  lemma ReservationRefused(db: Db, user: nat, amount: int, rows: seq<Fetched>, wallet: Option<string>, at: int)
    requires FetchedFor(db.ledgers, user, rows)
    requires forall l :: 0 <= l < |db.ledgers| ==> db.ledgers[l].spendable >= 0
    ensures var r, total := Reserve(db, user, amount, rows, wallet, at), TotalSpendable(db, OfUser(db.ledgers, user));
            && total >= 0
            && (r == Err(ClaimAmountInvalid) <==> amount < 0 || (amount == 0 && total == 0))
            && (r == Err(ClaimInsufficientBalance) <==> amount > total)
            && (r == Err(ClaimWalletNotLinked) <==> wallet.None? && 0 <= amount <= total && total > 0)
            && (r.Ok? <==> wallet.Some? && 0 <= amount <= total && total > 0)
  {
    FetchedIsWholeBalance(db.ledgers, user, rows);
    SumNonNegative(|db.ledgers|, Spendable(db.ledgers, OfUser(db.ledgers, user)));
  }

  // ---------- every transaction keeps the books ----------

  lemma HeldSnoc(claims: seq<Option<ClaimRow>>, x: ClaimRow, sel: Selection)
    requires x.status != Failed
    ensures SumTo(|claims| + 1, Held(claims + [Some(x)], sel)) == SumTo(|claims|, Held(claims, sel))
        + ItemsOn(x.items, sel)
  {
    SumSame(|claims|, Held(claims, sel), Held(claims + [Some(x)], sel));
  }

  lemma HeldPoint(a: seq<Option<ClaimRow>>, b: seq<Option<ClaimRow>>, c: nat, sel: Selection)
    requires c < |a| == |b| && b == a[c := b[c]]
    ensures SumTo(|b|, Held(b, sel)) == SumTo(|a|, Held(a, sel)) - Held(a, sel)(c) + Held(b, sel)(c)
  {
    SumPoint(|a|, Held(a, sel), Held(b, sel), c);
  }

  /** Points that leave the ledgers with their log rows and arrive in a claim, or the reverse. */
  lemma PointsShift(a: Db, b: Db, sel: Selection, d: int)
    requires Balanced(a, sel) && b.history == a.history
    requires TotalSpendable(b, sel) == TotalSpendable(a, sel) - d && TotalLogged(b, sel) == TotalLogged(a, sel) - d
    requires TotalHeld(b, sel) == TotalHeld(a, sel) + d && TotalCumulative(b, sel) == TotalCumulative(a, sel)
    ensures Balanced(b, sel)
  {
  }

  /** The items of a claim leave the ledgers (back == false) or return to them. */
  lemma ItemsMoved(a: Db, b: Db, items: seq<Item>, back: bool, sel: Selection)
    requires OnLedgers(items, |a.ledgers|) && b.ledgers == ApplyItems(a.ledgers, items, back)
    ensures TotalSpendable(b, sel) == TotalSpendable(a, sel) + Signed(ItemsOn(items, sel), back)
    ensures TotalCumulative(b, sel) == TotalCumulative(a, sel)
  {
    ApplyItemsSum(a.ledgers, items, back, sel);
  }

  /** Claim c stops holding its items. */
  lemma ClaimReleased(a: Db, b: Db, c: nat, sel: Selection)
    requires c < |a.claims| == |b.claims| && b.claims == a.claims[c := b.claims[c]]
    requires a.claims[c].Some? && a.claims[c].value.status != Failed
    requires b.claims[c].None? || b.claims[c].value.status == Failed
    ensures TotalHeld(b, sel) == TotalHeld(a, sel) - ItemsOn(a.claims[c].value.items, sel)
  {
    HeldPoint(a.claims, b.claims, c, sel);
  }

  /** The items move together with the log rows that mirror them, and the claim's hold changes. */
  lemma ItemsLogged(a: Db, b: Db, items: seq<Item>, rows: seq<Option<PointsTx>>, back: bool, sel: Selection)
    requires Balanced(a, sel) && OnLedgers(items, |a.ledgers|) && Mirrors(rows, items, back)
    requires b.ledgers == ApplyItems(a.ledgers, items, back) && b.log == a.log + rows && b.history == a.history
    requires TotalHeld(b, sel) == TotalHeld(a, sel) - Signed(ItemsOn(items, sel), back)
    ensures Balanced(b, sel)
  {
    ItemsMoved(a, b, items, back, sel);
    MirrorSum(a.log, rows, items, back, sel);
    PointsShift(a, b, sel, -Signed(ItemsOn(items, sel), back));
  }

  lemma ReservedBalanced(db: Db, res: Reservation, at: int, sel: Selection)
    requires Balanced(db, sel) && OnLedgers(res.items, |db.ledgers|)
    ensures Balanced(Reserved(db, res, at), sel)
  {
    HeldSnoc(db.claims, ClaimRow(res.user, res.wallet, res.amount, Pending, None, res.items), sel);
    ItemsLogged(db, Reserved(db, res, at), res.items, DebitRows(res.items, at, res.claim), false, sel);
  }

  /** The claim row agrees with the reservation and still holds its points. */
  predicate HoldsReservation(db: Db, res: Reservation) {
    && FindClaim(db, res).Some?
    && FindClaim(db, res).value.items == res.items
    && FindClaim(db, res).value.status != Failed
  }

  lemma UpdateClaimBalanced(db: Db, res: Reservation, status: Status, txHash: Option<nat>, sel: Selection)
    requires Balanced(db, sel) && HoldsReservation(db, res) && status != Failed
    ensures Balanced(UpdateClaim(db, res, status, txHash), sel)
  {
    HeldPoint(db.claims, UpdateClaim(db, res, status, txHash).claims, res.claim, sel);
  }

  lemma FinalizeBalanced(db: Db, res: Reservation, hash: Option<nat>, sel: Selection)
    requires Balanced(db, sel) && HoldsReservation(db, res)
    requires Finalize(db, res, hash).Ok?
    ensures Balanced(Finalize(db, res, hash).value.db, sel)
  {
    var row := FindClaim(db, res).value;
    UpdateClaimBalanced(db, res, Confirmed, KeepHash(row, hash), sel);
  }

  lemma MarkBalanced(db: Db, res: Reservation, hash: Option<nat>, sel: Selection)
    requires Balanced(db, sel) && HoldsReservation(db, res)
    requires MarkFinalizeFailed(db, res, hash).Ok?
    ensures Balanced(MarkFinalizeFailed(db, res, hash).value, sel)
  {
    var row := FindClaim(db, res).value;
    UpdateClaimBalanced(db, res, FinalizeFailed, KeepHash(row, hash), sel);
  }

  lemma RollbackBalanced(db: Db, res: Reservation, sel: Selection)
    requires Balanced(db, sel) && HoldsReservation(db, res)
    requires OnLedgers(res.items, |db.ledgers|) && Recorded(db.log, res.items, res.claim)
    ensures Balanced(Rollback(db, res), sel)
  {
    var after := Rollback(db, res);
    ItemsMoved(db, after, res.items, true, sel);
    DeleteRowsSum(db.log, res.items, res.claim, sel);
    ClaimReleased(db, after, res.claim, sel);
    PointsShift(db, after, sel, -ItemsOn(res.items, sel));
  }

  lemma CompensateBalanced(db: Db, res: Reservation, hash: nat, at: int, sel: Selection)
    requires Balanced(db, sel) && HoldsReservation(db, res)
    requires Compensate(db, res, hash, at).Ok?
    ensures Balanced(Compensate(db, res, hash, at).value, sel)
  {
    var after := Compensate(db, res, hash, at).value;
    ClaimReleased(db, after, res.claim, sel);
    ItemsLogged(db, after, res.items, RefundRows(res.items, at), true, sel);
  }
}
