/** The tables as mutable state. Each method is the body of one database transaction, statement by
    statement as in the services, and is proved to have the effect of the corresponding function. A
    method that reports an error restores the tables, as db.Transaction does. */
module Tables {
  import opened Sums
  import opened Store
  import opened Points
  import opened Claims
  import opened Spends
  import opened AirdropTx
  import Airdrop

  class Database {
    var ledgers: seq<Ledger>
    var log: seq<Option<PointsTx>>
    var claims: seq<Option<ClaimRow>>
    var balances: seq<Option<int>>
    var redemptions: seq<Redemption>
    ghost var history: seq<Movement>

    constructor ()
      ensures State() == Db([], [], [], [], [], [])
    {
      ledgers, log, claims, balances, redemptions, history := [], [], [], [], [], [];
    }

    ghost function State(): Db
      reads this
    {
      Db(ledgers, log, claims, balances, redemptions, history)
    }

    // ---------- points ----------

    /** The upsert and the log row of addPointsWithMetaAt. */
    method AddPointsAt(user: nat, channel: string, at: int, source: Source, amount: int, externalId: Option<string>)
        returns (ok: bool)
      modifies this
      ensures ok == (externalId.None? || !ExternalIdUsed(old(log), externalId.value))
      ensures State() == if ok then AddRow(old(State()), user, channel, at, source, amount, externalId)
          else old(State())
    {
      ghost var before := State();
      var saved := ledgers;
      var l := LookUp(user, channel);
      if l == |ledgers| {
        ledgers := ledgers + [Ledger(user, channel, at, amount, amount)];
      } else {
        ledgers := ledgers[l := ledgers[l].(spendable := ledgers[l].spendable + amount,
            cumulative := ledgers[l].cumulative + amount)];
      }
      var used := false;
      if externalId.Some? {
        used := HasExternalId(externalId.value);
      }
      if used {
        ledgers := saved;
        return false;
      }
      log := log + [Some(PointsTx(l, source, amount, at, externalId, None))];
      history := history + [Movement(l, amount)];
      return true;
    }

    /** The row of the unique (user, channel) index, or the table's length. */
    method LookUp(user: nat, channel: string) returns (l: nat)
      ensures l == FindLedger(ledgers, user, channel)
    {
      l := 0;
      while l < |ledgers| && !(ledgers[l].user == user && ledgers[l].channel == channel)
        invariant l <= |ledgers|
        invariant forall i :: 0 <= i < l ==> !(ledgers[i].user == user && ledgers[i].channel == channel)
      {
        l := l + 1;
      }
    }

    /** The partial unique index on external_transaction_id. */
    method HasExternalId(id: string) returns (used: bool)
      ensures used == ExternalIdUsed(log, id)
    {
      used := false;
      for i := 0 to |log|
        invariant used == exists k :: 0 <= k < i && log[k].Some? && log[k].value.externalId == Some(id)
      {
        if log[i].Some? && log[i].value.externalId == Some(id) {
          used := true;
        }
      }
    }

    method AddPointsWithMeta(user: nat, channel: string, at: int, source: Source, amount: int, meta: CreditMeta)
        returns (r: Result<(), PointsError>)
      modifies this
      ensures var spec := Credit(old(State()), user, channel, at, source, amount, meta);
              && r.Ok? == spec.Ok? && (r.Err? ==> r.error == spec.error)
              && State() == if spec.Ok? then spec.value else old(State())
    {
      if amount <= 0 {
        return Err(InvalidAmount);
      }
      if meta.sku.Some? && |meta.sku.value| > 255 {
        return Err(InvalidSku);
      }
      if meta.externalId.Some? && |meta.externalId.value| > 255 {
        return Err(InvalidExternalId);
      }
      var ok := AddPointsAt(user, channel, at, source, amount, meta.externalId);
      return if ok then Ok(()) else Err(DuplicateExternalId);
    }

    method DeductPoints(user: nat, channel: string, at: int, amount: int) returns (r: Result<(), PointsError>)
      modifies this
      ensures var spec := Deduct(old(State()), user, channel, at, amount);
              && r.Ok? == spec.Ok? && (r.Err? ==> r.error == spec.error)
              && State() == if spec.Ok? then spec.value else old(State())
    {
      if amount <= 0 {
        return Err(InvalidAmount);
      }
      var l := LookUp(user, channel);
      if l == |ledgers| || ledgers[l].spendable < amount {
        return Err(InsufficientPoints);
      }
      ledgers := ledgers[l := ledgers[l].(spendable := ledgers[l].spendable - amount)];
      log := log + [Some(PointsTx(l, Source.Spend, -amount, at, None, None))];
      history := history + [Movement(l, -amount)];
      return Ok(());
    }

    // ---------- claims ----------

    /** reserveClaim, on the rows that the locking SELECT returned. */
    method ReserveClaim(user: nat, amount: int, rows: seq<Fetched>, wallet: Option<string>, at: int)
        returns (r: Result<Reservation, ClaimError>)
      requires FetchedFor(ledgers, user, rows)
      modifies this
      ensures r == Reserve(old(State()), user, amount, rows, wallet, at)
      ensures State() == if r.Ok? then Reserved(old(State()), r.value, at) else old(State())
    {
      var totalSpendable := SumRows(rows);
      var claimAmount := if amount == 0 then totalSpendable else amount;
      if claimAmount <= 0 {
        return Err(ClaimAmountInvalid);
      }
      if totalSpendable < claimAmount {
        return Err(ClaimInsufficientBalance);
      }
      if wallet.None? {
        return Err(ClaimWalletNotLinked);
      }
      var claim := |claims|;
      claims := claims + [Some(ClaimRow(user, wallet.value, claimAmount, Pending, None, []))];
      FetchedDistinct(ledgers, user, rows);
      var items := TakePoints(claim, rows, claimAmount, at);
      return Ok(Reservation(user, wallet.value, claimAmount, claim, items));
    }

    method SumRows(rows: seq<Fetched>) returns (total: int)
      ensures total == FetchedTotal(rows)
    {
      total := 0;
      for i := 0 to |rows|
        invariant total == FetchedUpTo(rows, i)
      {
        total := total + rows[i].spendable;
      }
    }

    /** The loop of reserveClaim. */
    method TakePoints(claim: nat, rows: seq<Fetched>, amount: int, at: int) returns (items: seq<Item>)
      requires claim < |claims| && claims[claim].Some? && claims[claim].value.items == []
      requires Unread(rows, 0, ledgers) && Distinct(rows) && 0 < amount <= FetchedTotal(rows)
      modifies this`ledgers, this`log, this`claims
      ensures items == Greedy(rows, |rows|, amount, |old(log)|)
      ensures ledgers == ApplyItems(old(ledgers), items, false) && log == old(log) + DebitRows(items, at, claim)
      ensures claims == old(claims)[claim := Some(old(claims)[claim].value.(items := items))]
    {
      ghost var ledgers0, log0, claims0 := ledgers, log, claims;
      items := [];
      var remaining := amount;
      var i := 0;
      assert log == log + DebitRows([], at, claim);
      while i < |rows| && remaining != 0
        invariant 0 <= i <= |rows|
        invariant Chosen(rows, amount, |log0|, i, items, remaining)
        invariant Taken(ledgers0, log0, rows, i, items, at, claim, ledgers, log)
        invariant claims == claims0[claim := Some(claims0[claim].value.(items := items))]
      {
        var row := rows[i];
        var deduct := if row.spendable > remaining then remaining else row.spendable;
        var item := Item(row.ledger, |log|, deduct);
        ChooseRow(rows, amount, |log0|, i, items, remaining, item);
        TakeNext(ledgers0, log0, rows, i, items, item, at, claim, ledgers, log);
        TakeRow(claim, row.spendable - deduct, item, |items|, at);
        items := items + [item];
        remaining := remaining - item.amount;
        i := i + 1;
      }
      ChosenAll(rows, amount, |log0|, i, items, remaining);
    }

    /** The writes of one round: the ledger, its log row and the claim item. */
    method TakeRow(claim: nat, newBalance: int, item: Item, index: nat, at: int)
      requires claim < |claims| && claims[claim].Some? && item.ledger < |ledgers| && item.tx == |log|
      modifies this`ledgers, this`log, this`claims
      ensures ledgers == old(ledgers)[item.ledger := old(ledgers)[item.ledger].(spendable := newBalance)]
      ensures log == old(log) + [ItemRow(item, at, false, Some(ItemRef(claim, index)))]
      ensures claims
           == old(claims)[claim := Some(old(claims)[claim].value.(items := old(claims)[claim].value.items + [item]))]
    {
      ledgers := ledgers[item.ledger := ledgers[item.ledger].(spendable := newBalance)];
      log := log + [Some(PointsTx(item.ledger, Source.Claim, -item.amount, at, None, Some(ItemRef(claim, index))))];
      claims := claims[claim := Some(claims[claim].value.(items := claims[claim].value.items + [item]))];
    }

    method MarkClaimBroadcast(res: Reservation, hash: nat)
      modifies this`claims
      ensures State() == MarkBroadcast(old(State()), res, hash)
    {
      if res.claim < |claims| && claims[res.claim].Some? && claims[res.claim].value.user == res.user {
        claims := claims[res.claim := Some(claims[res.claim].value.(status := Broadcast, txHash := Some(hash)))];
      }
    }

    method RecordClaimReceiptUnknown(res: Reservation, hash: nat)
      modifies this`claims
      ensures State() == RecordUnknown(old(State()), res, hash)
    {
      if res.claim < |claims| && claims[res.claim].Some? && claims[res.claim].value.user == res.user {
        claims := claims[res.claim := Some(claims[res.claim].value.(status := Broadcast, txHash := Some(hash)))];
      }
    }

    method RollbackClaimReservation(res: Reservation)
      modifies this`claims, this`ledgers, this`log
      ensures State() == Rollback(old(State()), res)
    {
      if res.claim < |claims| {
        claims := claims[res.claim := None];
      }
      RestoreItems(res.items);
    }

    /** The loop of rollbackClaimReservation. */
    method RestoreItems(items: seq<Item>)
      modifies this`ledgers, this`log
      ensures ledgers == ApplyItems(old(ledgers), items, true) && log == DeleteRows(old(log), items)
    {
      for i := 0 to |items|
        invariant ledgers == ApplyFirst(old(ledgers), items, i, true)
        invariant log == DeleteFirst(old(log), items, i)
      {
        ReturnPoints(items[i]);
        if items[i].tx < |log| {
          log := log[items[i].tx := None];
        }
      }
    }

    /** An UPDATE that adds the item's points back; it affects no row when the ledger is missing. */
    method ReturnPoints(item: Item)
      modifies this`ledgers
      ensures ledgers == MovedPoints(old(ledgers), item.ledger, item.amount)
    {
      if item.ledger < |ledgers| {
        var ledger := ledgers[item.ledger];
        ledgers := ledgers[item.ledger := ledger.(spendable := ledger.spendable + item.amount)];
      }
    }

    method MarkClaimFailedAndCompensate(res: Reservation, hash: nat, at: int) returns (r: Result<(), ClaimError>)
      modifies this`claims, this`ledgers, this`log
      ensures var spec := Compensate(old(State()), res, hash, at);
              && r.Ok? == spec.Ok? && (r.Err? ==> r.error == spec.error)
              && State() == if spec.Ok? then spec.value else old(State())
    {
      var savedClaims, savedLedgers, savedLog := claims, ledgers, log;
      if res.claim < |claims| && claims[res.claim].Some? && claims[res.claim].value.user == res.user {
        claims := claims[res.claim := Some(claims[res.claim].value.(status := Failed, txHash := Some(hash)))];
      }
      var ok := GiveBack(res.items, at);
      if !ok {
        claims, ledgers, log := savedClaims, savedLedgers, savedLog;
        return Err(LedgerMissing);
      }
      return Ok(());
    }

    /** The loop of markClaimFailedAndCompensate; stops at a ledger that cannot be loaded. */
    method GiveBack(items: seq<Item>, at: int) returns (ok: bool)
      modifies this`ledgers, this`log
      ensures ok == OnLedgers(items, |old(ledgers)|)
      ensures ok ==> ledgers == ApplyItems(old(ledgers), items, true) && log == old(log) + RefundRows(items, at)
    {
      var i := 0;
      assert log == log + RefundRows(items, at)[..0];
      while i < |items|
        invariant 0 <= i <= |items| && forall k :: 0 <= k < i ==> items[k].ledger < |old(ledgers)|
        invariant ledgers == ApplyFirst(old(ledgers), items, i, true)
        invariant log == old(log) + RefundRows(items, at)[..i]
      {
        var item := items[i];
        if item.ledger >= |ledgers| {
          return false;
        }
        RefundNext(old(log), items, at, i);
        ReturnPoints(item);
        log := log + [Some(PointsTx(item.ledger, Source.Claim, item.amount, at, None, None))];
        i := i + 1;
      }
      assert RefundRows(items, at)[..i] == RefundRows(items, at);
      return true;
    }

    /** An UPDATE with the guard of finalizeClaim; tells whether a row was affected. */
    method UpdateFinalizable(res: Reservation, hash: Option<nat>, status: Status) returns (affected: bool)
      modifies this`claims
      ensures affected == (FindClaim(old(State()), res).Some? && Finalizable(FindClaim(old(State()), res).value, hash))
      ensures State() == if affected then
          UpdateClaim(old(State()), res, status, KeepHash(FindClaim(old(State()), res).value, hash))
                         else old(State())
    {
      affected := false;
      if res.claim < |claims| && claims[res.claim].Some? && claims[res.claim].value.user == res.user {
        var row := claims[res.claim].value;
        if (row.status == Broadcast || row.status == FinalizeFailed)
            && (hash.None? || row.txHash.None? || row.txHash == hash) {
          claims := claims[res.claim := Some(row.(status := status, txHash := if hash.Some? then hash
              else row.txHash))];
          affected := true;
        }
      }
    }

    method MarkFinalizeFailedClaim(res: Reservation, hash: Option<nat>) returns (r: Result<(), ClaimError>)
      modifies this`claims
      ensures var spec := MarkFinalizeFailed(old(State()), res, hash);
              && r.Ok? == spec.Ok? && (r.Err? ==> r.error == spec.error)
              && State() == if spec.Ok? then spec.value else old(State())
    {
      var affected := UpdateFinalizable(res, hash, FinalizeFailed);
      if affected {
        return Ok(());
      }
      if !(res.claim < |claims| && claims[res.claim].Some? && claims[res.claim].value.user == res.user) {
        return Err(ClaimMissing);
      }
      var existing := claims[res.claim].value;
      if hash.Some? && existing.txHash.Some? && existing.txHash != hash {
        return Err(HashMismatch);
      }
      if existing.status == Confirmed {
        return Ok(());
      }
      return Err(InvalidStatus(existing.status));
    }

    method FinalizeClaim(res: Reservation, hash: Option<nat>) returns (r: Result<int, ClaimError>)
      modifies this`claims, this`balances
      ensures var spec := Finalize(old(State()), res, hash);
              && r.Ok? == spec.Ok? && (r.Err? ==> r.error == spec.error) && (r.Ok? ==> r.value == spec.value.balance)
              && State() == if spec.Ok? then spec.value.db else old(State())
    {
      var saved := claims;
      var affected := UpdateFinalizable(res, hash, Confirmed);
      if !affected {
        if !(res.claim < |claims| && claims[res.claim].Some? && claims[res.claim].value.user == res.user) {
          return Err(ClaimMissing);
        }
        var existing := claims[res.claim].value;
        if hash.Some? && existing.txHash.Some? && existing.txHash != hash {
          return Err(HashMismatch);
        }
        if existing.status == Confirmed {
          if res.user >= |balances| || balances[res.user].None? {
            return Err(BalanceMissing);
          }
          return Ok(balances[res.user].value);
        }
        return Err(InvalidStatus(existing.status));
      }
      if res.user >= |balances| {
        claims := saved;
        return Err(UserMissing);
      }
      var before := if balances[res.user].Some? then balances[res.user].value else 0;
      balances := balances[res.user := Some(before + res.amount)];
      return Ok(balances[res.user].value);
    }

    // ---------- redemptions ----------

    method ReserveBalance(user: nat, amount: int, wallet: Option<string>) returns (r: Result<int, SpendError>)
      modifies this`balances
      ensures var spec := ReserveSpend(old(State()), user, amount, wallet);
              && r.Ok? == spec.Ok? && (r.Err? ==> r.error == spec.error)
              && (r.Ok? ==> r.value == BalanceOf(spec.value.balances, user) == BalanceOf(old(balances), user) - amount)
              && State() == if spec.Ok? then spec.value else old(State())
    {
      if amount <= 0 {
        return Err(SpendAmountInvalid);
      }
      if user >= |balances| || balances[user].None? || balances[user].value < amount {
        return Err(SpendInsufficientBalance);
      }
      if wallet.None? {
        return Err(SpendWalletNotLinked);
      }
      var newBalance := balances[user].value - amount;
      balances := balances[user := Some(newBalance)];
      return Ok(newBalance);
    }

    method ReturnBalance(user: nat, amount: int) returns (r: Result<(), SpendError>)
      modifies this`balances
      ensures var spec := RollbackSpend(old(State()), user, amount);
              && r.Ok? == spec.Ok? && (r.Err? ==> r.error == spec.error)
              && State() == if spec.Ok? then spec.value else old(State())
    {
      if user >= |balances| || balances[user].None? {
        return Err(BalanceRowMissing);
      }
      balances := balances[user := Some(balances[user].value + amount)];
      return Ok(());
    }

    method CreatePendingCouponRedemption(user: nat, coupon: string, amount: int, hash: nat) returns (id: nat)
      modifies this`redemptions
      ensures id == |old(redemptions)| && State() == CreateRedemption(old(State()), user, coupon, amount, hash)
    {
      id := |redemptions|;
      redemptions := redemptions + [Redemption(user, coupon, amount, hash, Unresolved, None)];
    }

    method UpdateRecord(id: nat, status: RedemptionStatus, voucher: Option<string>)
      modifies this`redemptions
      ensures State() == UpdateRedemption(old(State()), id, status, voucher)
    {
      if id < |redemptions| {
        redemptions := redemptions[id := redemptions[id].(
          status := status, voucher := if voucher.Some? then voucher else redemptions[id].voucher)];
      }
    }
  }

  /** The items chosen from the first i rows, and what remains to be taken. */
  predicate Chosen(rows: seq<Fetched>, amount: int, firstTx: nat, i: nat, items: seq<Item>, remaining: int) {
    && i <= |rows|
    && items == Greedy(rows, i, amount, firstTx) && remaining == amount - ItemTotal(items) && remaining >= 0
    && (remaining > 0 ==> remaining == amount - FetchedUpTo(rows, i))
  }

  lemma ChooseRow(rows: seq<Fetched>, amount: int, firstTx: nat, i: nat, items: seq<Item>, remaining: int, item: Item)
    requires Chosen(rows, amount, firstTx, i, items, remaining) && i < |rows| && remaining > 0
    requires item == Item(rows[i].ledger, firstTx + |items|, if rows[i].spendable > remaining then remaining
        else rows[i].spendable)
    ensures Chosen(rows, amount, firstTx, i + 1, items + [item], remaining - item.amount)
  {
    ItemTotalSnoc(items, item);
  }

  lemma ChosenAll(rows: seq<Fetched>, amount: int, firstTx: nat, i: nat, items: seq<Item>, remaining: int)
    requires Chosen(rows, amount, firstTx, i, items, remaining)
    requires i == |rows| || remaining == 0
    ensures items == Greedy(rows, |rows|, amount, firstTx)
  {
    if i < |rows| {
      GreedyStops(rows, amount, firstTx, i, |rows|);
    }
  }

  /** The rows from i on still show the balances that were read. */
  predicate Unread(rows: seq<Fetched>, i: nat, ledgers: seq<Ledger>) {
    forall k :: i <= k < |rows| ==> rows[k].ledger < |ledgers| && ledgers[rows[k].ledger].spendable == rows[k].spendable
  }

  predicate Distinct(rows: seq<Fetched>) {
    forall i, k :: 0 <= i < k < |rows| ==> rows[i].ledger != rows[k].ledger
  }

  lemma FetchedDistinct(ledgers: seq<Ledger>, user: nat, rows: seq<Fetched>)
    requires FetchedFor(ledgers, user, rows)
    ensures Distinct(rows)
  {
    assert forall i, k :: 0 <= i < k < |rows| ==> Older(ledgers, rows[i].ledger, rows[k].ledger);
  }

  lemma ReadRow(rows: seq<Fetched>, i: nat, ledgers: seq<Ledger>, balance: int)
    requires i < |rows| && Unread(rows, i, ledgers) && Distinct(rows)
    ensures rows[i].ledger < |ledgers|
    ensures Unread(rows, i + 1, ledgers[rows[i].ledger := ledgers[rows[i].ledger].(spendable := balance)])
  {
  }

  /** Applying items depends on those items only. */
  lemma {:induction false} ApplyPrefix(ledgers: seq<Ledger>, items: seq<Item>, more: seq<Item>, n: nat, back: bool)
    requires n <= |items| <= |more| && more[..|items|] == items
    ensures ApplyFirst(ledgers, more, n, back) == ApplyFirst(ledgers, items, n, back)
  {
    if n == 0 {
    } else {
      ApplyPrefix(ledgers, items, more, n - 1, back);
      assert more[n - 1] == more[..|items|][n - 1];
    }
  }

  /** One more item out of the ledgers. */
  lemma TakeItem(ledgers: seq<Ledger>, items: seq<Item>, item: Item, balance: int)
    requires item.ledger < |ledgers|
        && ApplyItems(ledgers, items, false)[item.ledger].spendable == balance + item.amount
    ensures var r := ApplyItems(ledgers, items, false);
            ApplyItems(ledgers, items + [item], false) == r[item.ledger := r[item.ledger].(spendable := balance)]
  {
    ApplyPrefix(ledgers, items, items + [item], |items|, false);
  }

  /** One more debit row in the log. */
  lemma LogItem(log: seq<Option<PointsTx>>, items: seq<Item>, item: Item, at: int, claim: nat)
    ensures log + DebitRows(items + [item], at, claim) == log + DebitRows(items, at, claim)
        + [ItemRow(item, at, false, Some(ItemRef(claim, |items|)))]
  {
    assert DebitRows(items + [item], at, claim) == DebitRows(items, at, claim)
        + [ItemRow(item, at, false, Some(ItemRef(claim, |items|)))];
  }

  /** One more refund row in the log. */
  lemma RefundNext(log: seq<Option<PointsTx>>, items: seq<Item>, at: int, i: nat)
    requires i < |items|
    ensures log + RefundRows(items, at)[..i + 1] == log + RefundRows(items, at)[..i]
        + [ItemRow(items[i], at, true, None)]
  {
    assert RefundRows(items, at)[..i + 1] == RefundRows(items, at)[..i] + [RefundRows(items, at)[i]];
  }

  /** The tables once the items are taken, with the rows from i on still unread. */
  predicate Taken(ledgers0: seq<Ledger>, log0: seq<Option<PointsTx>>, rows: seq<Fetched>, i: nat, items: seq<Item>,
                  at: int, claim: nat, ledgers: seq<Ledger>, log: seq<Option<PointsTx>>) {
    && ledgers == ApplyItems(ledgers0, items, false) && log == log0 + DebitRows(items, at, claim)
    && Unread(rows, i, ledgers) && Distinct(rows)
  }

  lemma TakeNext(ledgers0: seq<Ledger>, log0: seq<Option<PointsTx>>, rows: seq<Fetched>, i: nat, items: seq<Item>,
                 item: Item, at: int, claim: nat, ledgers: seq<Ledger>, log: seq<Option<PointsTx>>)
    requires Taken(ledgers0, log0, rows, i, items, at, claim, ledgers, log) && i < |rows|
        && item.ledger == rows[i].ledger
    ensures item.ledger < |ledgers| && |log| == |log0| + |items|
    ensures Taken(ledgers0, log0, rows, i + 1, items + [item], at, claim,
                  ledgers[item.ledger := ledgers[item.ledger].(spendable := rows[i].spendable - item.amount)],
                  log + [ItemRow(item, at, false, Some(ItemRef(claim, |items|)))])
  {
    assert ledgers[rows[i].ledger].spendable == rows[i].spendable;
    TakeItem(ledgers0, items, item, rows[i].spendable - item.amount);
    LogItem(log0, items, item, at, claim);
    ReadRow(rows, i, ledgers, rows[i].spendable - item.amount);
  }

  /** The locking SELECT with its ORDER BY: the user's ledgers with points, oldest first. */
  method SelectSpendable(ledgers: seq<Ledger>, user: nat) returns (rows: seq<Fetched>)
    ensures FetchedFor(ledgers, user, rows)
  {
    rows := [];
    for l := 0 to |ledgers|
      invariant FetchedFor(ledgers[..l], user, rows)
    {
      if ledgers[l].user == user && ledgers[l].spendable > 0 {
        var p := |rows|;
        while p > 0 && ledgers[rows[p - 1].ledger].created > ledgers[l].created
          invariant 0 <= p <= |rows|
          invariant forall k :: p <= k < |rows| ==> ledgers[rows[k].ledger].created > ledgers[l].created
        {
          p := p - 1;
        }
        InsertRow(ledgers, user, rows, l, p);
        rows := WithRow(ledgers, rows, l, p);
      } else {
        SkipRow(ledgers, user, rows, l);
      }
    }
    assert ledgers[..|ledgers|] == ledgers;
  }

  /** rows with a row for ledger l put in at position p. */
  function WithRow(ledgers: seq<Ledger>, rows: seq<Fetched>, l: nat, p: nat): seq<Fetched>
    requires l < |ledgers| && p <= |rows|
  {
    rows[..p] + [Fetched(l, ledgers[l].spendable)] + rows[p..]
  }

  predicate InPlace(ledgers: seq<Ledger>, user: nat, rows: seq<Fetched>, l: nat, p: nat) {
    && l < |ledgers| && FetchedFor(ledgers[..l], user, rows) && p <= |rows|
    && ledgers[l].user == user && ledgers[l].spendable > 0
    && (forall k :: p <= k < |rows| ==> ledgers[rows[k].ledger].created > ledgers[l].created)
    && (p > 0 ==> ledgers[rows[p - 1].ledger].created <= ledgers[l].created)
  }

  lemma InsertOrder(ledgers: seq<Ledger>, user: nat, rows: seq<Fetched>, l: nat, p: nat, i: nat, j: nat)
    requires InPlace(ledgers, user, rows, l, p) && i < j <= |rows|
    ensures var r := WithRow(ledgers, rows, l, p); Older(ledgers, r[i].ledger, r[j].ledger)
  {
    var a := ledgers[..l];
    if i != p && j != p {
      assert Older(a, rows[if i < p then i else i - 1].ledger, rows[if j < p then j else j - 1].ledger);
    } else if j == p {
      assert i < p - 1 ==> Older(a, rows[i].ledger, rows[p - 1].ledger);
    }
  }

  lemma InsertCovers(ledgers: seq<Ledger>, user: nat, rows: seq<Fetched>, l: nat, p: nat, m: nat)
    requires InPlace(ledgers, user, rows, l, p) && m <= l && ledgers[m].user == user && ledgers[m].spendable > 0
    ensures var r := WithRow(ledgers, rows, l, p); exists k :: 0 <= k < |r| && r[k].ledger == m
  {
    var r := WithRow(ledgers, rows, l, p);
    if m == l {
      assert r[p].ledger == l;
    } else {
      assert ledgers[..l][m] == ledgers[m];
      var k :| 0 <= k < |rows| && rows[k].ledger == m;
      assert r[if k < p then k else k + 1].ledger == m;
    }
  }

  lemma InsertRow(ledgers: seq<Ledger>, user: nat, rows: seq<Fetched>, l: nat, p: nat)
    requires InPlace(ledgers, user, rows, l, p)
    ensures FetchedFor(ledgers[..l + 1], user, WithRow(ledgers, rows, l, p))
  {
    var b, r := ledgers[..l + 1], WithRow(ledgers, rows, l, p);
    forall k | 0 <= k < |r|
      ensures r[k].ledger < |b| && b[r[k].ledger].user == user && r[k].spendable == b[r[k].ledger].spendable > 0
    {
      assert k == p || r[k] == rows[if k < p then k else k - 1];
    }
    forall i, j | 0 <= i < j < |r|
      ensures Older(b, r[i].ledger, r[j].ledger)
    {
      InsertOrder(ledgers, user, rows, l, p, i, j);
    }
    forall m | 0 <= m < |b| && b[m].user == user && b[m].spendable > 0
      ensures exists k :: 0 <= k < |r| && r[k].ledger == m
    {
      InsertCovers(ledgers, user, rows, l, p, m);
    }
  }

  lemma SkipRow(ledgers: seq<Ledger>, user: nat, rows: seq<Fetched>, l: nat)
    requires l < |ledgers| && FetchedFor(ledgers[..l], user, rows)
    requires ledgers[l].user != user || ledgers[l].spendable <= 0
    ensures FetchedFor(ledgers[..l + 1], user, rows)
  {
    var a, b := ledgers[..l], ledgers[..l + 1];
    assert forall i :: 0 <= i < l ==> b[i] == a[i];
    assert forall i, j :: 0 <= i < j < |rows| ==> Older(a, rows[i].ledger, rows[j].ledger) ==>
        Older(b, rows[i].ledger, rows[j].ledger);
  }
}
