/** The database writes of a $TACHI redemption (services/api/internal/services/spend_service.go). */
module Spends {
  import opened Store

  datatype SpendError = SpendAmountInvalid | SpendInsufficientBalance | SpendWalletNotLinked | BalanceRowMissing

  function ReserveSpend(db: Db, user: nat, amount: int, wallet: Option<string>): Result<Db, SpendError> {
    if amount <= 0 then Err(SpendAmountInvalid)
    else if user >= |db.balances| || db.balances[user].None? || db.balances[user].value < amount then
        Err(SpendInsufficientBalance)
    else if wallet.None? then Err(SpendWalletNotLinked)
    else Ok(db.(balances := db.balances[user := Some(db.balances[user].value - amount)]))
  }

  /** The user has a $TACHI balance of at least this amount. */
  predicate Affords(db: Db, user: nat, amount: int) {
    user < |db.balances| && db.balances[user].Some? && db.balances[user].value >= amount
  }

  /** Exactly when a redemption is refused, and why; the whole balance may be spent. Otherwise exactly the
      amount is taken from exactly this user. */
  lemma SpendRefused(db: Db, user: nat, amount: int, wallet: Option<string>)
    ensures var r := ReserveSpend(db, user, amount, wallet);
            && (r == Err(SpendAmountInvalid) <==> amount <= 0)
            && (r == Err(SpendInsufficientBalance) <==> amount > 0 && !Affords(db, user, amount))
            && (r == Err(SpendWalletNotLinked) <==> amount > 0 && Affords(db, user, amount) && wallet.None?)
            && (r.Ok? <==> amount > 0 && Affords(db, user, amount) && wallet.Some?)
            && (r.Ok? ==>
                && r.value == db.(balances := r.value.balances) && |r.value.balances| == |db.balances|
                && forall u :: 0 <= u < |db.balances| ==>
                     r.value.balances[u] == if u == user then Some(db.balances[u].value - amount) else db.balances[u])
  {
  }

  function RollbackSpend(db: Db, user: nat, amount: int): Result<Db, SpendError> {
    if user >= |db.balances| || db.balances[user].None? then Err(BalanceRowMissing)
    else Ok(db.(balances := db.balances[user := Some(db.balances[user].value + amount)]))
  }

  function CreateRedemption(db: Db, user: nat, coupon: string, amount: int, hash: nat): Db {
    db.(redemptions := db.redemptions + [Redemption(user, coupon, amount, hash, Unresolved, None)])
  }

  function UpdateRedemption(db: Db, id: nat, status: RedemptionStatus, voucher: Option<string>): Db {
    if id < |db.redemptions| then
      db.(redemptions := db.redemptions[id := db.redemptions[id].(
            status := status, voucher := if voucher.Some? then voucher else db.redemptions[id].voucher)])
    else db
  }
}
