/** The tables behind points, claims, $TACHI balances and coupon redemptions. A row's id is its
    position in the table, so a fresh id is the next position; a deleted row leaves None. */
module Store {
  datatype Option<+T> = None | Some(value: T)

  datatype Result<+T, +E> = Ok(value: T) | Err(error: E)

  datatype Source = TPoint | WatchTime | Click | Spend | Claim | Airdrop

  datatype Ledger = Ledger(user: nat, channel: string, created: int, spendable: int, cumulative: int)

  /** Which claim item refers to a log row; claim_items.points_transaction_id is unique. */
  datatype ItemRef = ItemRef(claim: nat, index: nat)

  datatype PointsTx = PointsTx(ledger: nat, source: Source, delta: int, at: int,
                               externalId: Option<string>, item: Option<ItemRef>)

  datatype Item = Item(ledger: nat, tx: nat, amount: int)

  datatype Status = Pending | Broadcast | Confirmed | Failed | FinalizeFailed

  datatype ClaimRow = ClaimRow(user: nat, wallet: string, amount: int, status: Status,
                               txHash: Option<nat>, items: seq<Item>)

  datatype RedemptionStatus = Unresolved | Redeemed | CompensationNeeded

  datatype Redemption = Redemption(user: nat, coupon: string, amount: int, txHash: nat,
                                   status: RedemptionStatus, voucher: Option<string>)

  /** A committed credit (positive) or deduction (negative). Not a table: the reference against
      which the tables are compared. */
  datatype Movement = Movement(ledger: nat, amount: int)

  /** balances[u] is None while user u has no row in tachi_balances; users are 0, 1, 2, ... */
  datatype Db = Db(ledgers: seq<Ledger>, log: seq<Option<PointsTx>>, claims: seq<Option<ClaimRow>>,
                   balances: seq<Option<int>>, redemptions: seq<Redemption>, history: seq<Movement>)
}
