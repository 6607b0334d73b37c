/** Points conservation and ledger-log agreement over all runs. */
module Books {
  import opened Sums
  import opened Store
  import opened Points
  import opened Claims
  import opened Spends
  import opened AirdropTx
  import opened Machine
  import opened Invariant
  import opened Preserve

  // ---------- every step keeps the books, for any selection of ledgers ----------

  lemma Holds(s: Sys, c: nat)
    requires Inv(s) && c < |s.claims| && s.db.claims[c].Some? && s.db.claims[c].value.status != Failed
    ensures HoldsReservation(s.db, s.claims[c].res) && s.claims[c].res.claim == c
    ensures OnLedgers(s.claims[c].res.items, |s.db.ledgers|) && Recorded(s.db.log, s.claims[c].res.items, c)
  {
    assert ClaimOk(s, c);
  }

  lemma AirdropBalanced(s: Sys, channel: string, at: int, viewers: seq<Airdrop.Viewer>, amount: int, ending: Ending,
          sel: Selection)
    requires Balanced(s.db, sel) && Airdrop.NonNegativeSeconds(viewers)
    ensures Balanced(AirdropStep(s, channel, at, viewers, amount, ending).db, sel)
  {
    if ending != Abort && Attempt(s.db, s.configs, channel, at, viewers, amount).Ok? {
      var d := Airdrop.Distribute(viewers, amount);
      SplitTotal(viewers, amount);
      DistributionTotal(d);
      CreditAllBalanced(s.db, channel, at, Distribution(d), sel);
    }
  }

  lemma StartClaimBalanced(s: Sys, user: nat, amount: int, rows: seq<Fetched>, wallet: Option<string>, at: int,
          ending: Ending, sel: Selection)
    requires Balanced(s.db, sel) && FetchedFor(s.db.ledgers, user, rows)
    ensures Balanced(StartClaimStep(s, user, amount, rows, wallet, at, ending).db, sel)
  {
    var r := Reserve(s.db, user, amount, rows, wallet, at);
    if ending != Abort && r.Ok? {
      ReservationItems(s.db, user, amount, rows, wallet, at);
      ReservedBalanced(s.db, r.value, at, sel);
    }
  }

  lemma RollBackBalanced(s: Sys, c: nat, ending: Ending, sel: Selection)
    requires Inv(s) && ClaimAt(s, c, RollingBack) && Balanced(s.db, sel)
    ensures Balanced(RollBackStep(s, c, ending).db, sel)
  {
    assert ClaimOk(s, c);
    Holds(s, c);
    RollbackBalanced(s.db, s.claims[c].res, sel);
  }

  lemma CompensateStepBalanced(s: Sys, c: nat, at: int, ending: Ending, sel: Selection)
    requires Inv(s) && ClaimAt(s, c, Compensating) && s.claims[c].mint.Some? && Balanced(s.db, sel)
    ensures Balanced(CompensateStep(s, c, at, ending).db, sel)
  {
    assert ClaimOk(s, c);
    Holds(s, c);
    CompensateBalanced(s.db, s.claims[c].res, s.claims[c].mint.value, at, sel);
  }

  /** Setting the status of a claim that holds its points, by an UPDATE that may not commit. */
  lemma StatusBalanced(s: Sys, c: nat, status: Status, hash: Option<nat>, sel: Selection)
    requires Inv(s) && c < |s.claims| && s.db.claims[c].Some? && s.db.claims[c].value.status != Failed
    requires Balanced(s.db, sel) && status != Failed
    ensures Balanced(UpdateClaim(s.db, s.claims[c].res, status, hash), sel)
  {
    Holds(s, c);
    UpdateClaimBalanced(s.db, s.claims[c].res, status, hash, sel);
  }

  lemma FinalizedBalanced(s: Sys, c: nat, hash: Option<nat>, ending: Ending, sel: Selection)
    requires Inv(s) && c < |s.claims| && Balanced(s.db, sel)
    ensures Balanced(FinalizedDb(s.db, Finalize(s.db, s.claims[c].res, hash), ending), sel)
  {
    assert ClaimOk(s, c);
    if Finalize(s.db, s.claims[c].res, hash).Ok? {
      Holds(s, c);
      FinalizeBalanced(s.db, s.claims[c].res, hash, sel);
    }
  }

  lemma MarkedBalanced(s: Sys, c: nat, hash: Option<nat>, ending: Ending, sel: Selection)
    requires Inv(s) && c < |s.claims| && Balanced(s.db, sel)
    ensures Balanced(Written(s.db, MarkFinalizeFailed(s.db, s.claims[c].res, hash), ending), sel)
  {
    assert ClaimOk(s, c);
    if MarkFinalizeFailed(s.db, s.claims[c].res, hash).Ok? {
      Holds(s, c);
      MarkBalanced(s.db, s.claims[c].res, hash, sel);
    }
  }

  /** The tables that the books are made of. */
  predicate SamePoints(a: Db, b: Db) {
    a.ledgers == b.ledgers && a.log == b.log && a.claims == b.claims && a.history == b.history
  }

  lemma PointsStepBalanced(s: Sys, a: PointsAction, sel: Selection)
    requires Inv(s) && PointsEnabled(s, a) && Balanced(s.db, sel)
    ensures Balanced(PointsStep(s, a).db, sel)
  {
    match a
    case CreditPoints(user, channel, at, source, amount, meta, ending) =>
      if amount > 0 {
        AddRowBalanced(s.db, user, channel, at, source, amount, meta.externalId, sel);
      }
    case DeductPoints(user, channel, at, amount, ending) =>
      if Deduct(s.db, user, channel, at, amount).Ok? {
        DeductBalanced(s.db, user, channel, at, amount, sel);
      }
    case AirdropPoints(channel, at, viewers, amount, ending) => AirdropBalanced(s, channel, at, viewers, amount, ending,
        sel);
    case StartClaim(user, amount, rows, wallet, at, ending) => StartClaimBalanced(s, user, amount, rows, wallet, at,
        ending, sel);
  }

  lemma ClaimStepBalanced(s: Sys, c: nat, a: ClaimAction, sel: Selection)
    requires Inv(s) && ClaimEnabled(s, c, a) && Balanced(s.db, sel)
    ensures Balanced(ClaimActionStep(s, c, a).db, sel)
  {
    assert ClaimOk(s, c);
    match a
    case BroadcastFails =>
    case BroadcastSent =>
    case ReceiptArrives(_) =>
    case RollBackClaim(ending) => RollBackBalanced(s, c, ending, sel);
    case RecordBroadcast(_) => StatusBalanced(s, c, Broadcast, s.claims[c].mint, sel);
    case CompensateClaim(at, ending) => CompensateStepBalanced(s, c, at, ending, sel);
    case RecordUnknownReceipt(_) => StatusBalanced(s, c, Broadcast, s.claims[c].mint, sel);
    case FinalizeClaim(ending) => FinalizedBalanced(s, c, s.claims[c].mint, ending, sel);
    case MarkClaim(ending) => MarkedBalanced(s, c, s.claims[c].mint, ending, sel);
    case Recover(hash, ending) => FinalizedBalanced(s, c, hash, ending, sel);
    case RetryMark(hash, ending) => MarkedBalanced(s, c, hash, ending, sel);
  }

  lemma SpendStepKeepsPoints(s: Sys, q: nat, a: SpendAction)
    requires SpendEnabled(s, q, a)
    ensures SamePoints(s.db, SpendActionStep(s, q, a).db)
  {
  }

  lemma StepBalanced(s: Sys, e: Event, sel: Selection)
    requires Inv(s) && Enabled(s, e) && Balanced(s.db, sel)
    ensures Balanced(Step(s, e).db, sel)
  {
    match e
    case OnPoints(a) => PointsStepBalanced(s, a, sel);
    case OnClaim(c, a) => ClaimStepBalanced(s, c, a, sel);
    case OnSpend(q, a) => SpendStepKeepsPoints(s, q, a);
    case _ => assert SamePoints(s.db, Step(s, e).db);
  }

  /** Main result: whatever the interleaving and whichever step fails, for any selection of ledgers
      the surviving log rows add up to the balances, the balances plus the points held by claims are
      the credits minus the deductions, and the cumulative totals are the credits. */
  lemma {:induction false} RunBalanced(configs: map<string, int>, run: seq<Event>, sel: Selection)
    requires Allowed(Start(configs), run)
    ensures Balanced(Exec(Start(configs), run).db, sel)
  {
    if run == [] {
    } else {
      RunBalanced(configs, run[..|run| - 1], sel);
      RunKeeps(configs, run[..|run| - 1]);
      StepBalanced(Exec(Start(configs), run[..|run| - 1]), run[|run| - 1], sel);
    }
  }

  // ---------- what it means for one ledger ----------

  /** Main result: in every reachable state a ledger's balance is the sum of the deltas of its
      surviving transactions, and lies between zero and its cumulative total. */
  lemma LedgerAgreesWithLog(configs: map<string, int>, run: seq<Event>, l: nat)
    requires Allowed(Start(configs), run) && l < |Exec(Start(configs), run).db.ledgers|
    ensures var db := Exec(Start(configs), run).db;
            && db.ledgers[l].spendable == SumTo(|db.log|, Logged(db.log, Only(l)))
            && 0 <= db.ledgers[l].spendable <= db.ledgers[l].cumulative
            && db.ledgers[l].cumulative == SumTo(|db.history|, Credited(db.history, Only(l)))
  {
    var s := Exec(Start(configs), run);
    RunKeeps(configs, run);
    RunBalanced(configs, run, Only(l));
    SumSingle(|s.db.ledgers|, Spendable(s.db.ledgers, Only(l)), l);
    SumSingle(|s.db.ledgers|, Cumulative(s.db.ledgers, Only(l)), l);
    SumMonotone(|s.db.history|, Moved(s.db.history, Only(l)), Credited(s.db.history, Only(l)));
    forall c | 0 <= c < |s.db.claims|
      ensures Held(s.db.claims, Only(l))(c) >= 0
    {
      assert ClaimOk(s, c);
      SumNonNegative(|s.claims[c].res.items|, ItemAt(s.claims[c].res.items, Only(l)));
    }
    SumNonNegative(|s.db.claims|, Held(s.db.claims, Only(l)));
  }

  // ---------- what it means for one user ----------

  /** The amount of an existing, not failed claim of the user. */
  function OpenAmount(claims: seq<Option<ClaimRow>>, user: nat): int -> int {
    i => if 0 <= i < |claims| && claims[i].Some? && claims[i].value.user == user && claims[i].value.status != Failed
         then claims[i].value.amount else 0
  }

  lemma HeldIsOpenAmount(s: Sys, user: nat, c: nat)
    requires Inv(s) && c < |s.claims|
    ensures Held(s.db.claims, OfUser(s.db.ledgers, user))(c) == OpenAmount(s.db.claims, user)(c)
  {
    assert ClaimOk(s, c);
    var res, sel := s.claims[c].res, OfUser(s.db.ledgers, user);
    if res.user == user {
      ItemsSelected(res.items, sel);
    } else {
      SumNone(|res.items|, ItemAt(res.items, sel));
    }
  }

  /** Main result: a user's points plus the amounts of the user's existing, not failed claims are the
      user's credits minus deductions. */
  lemma UserPointsConserved(configs: map<string, int>, run: seq<Event>, user: nat)
    requires Allowed(Start(configs), run)
    ensures var db := Exec(Start(configs), run).db;
            var mine := OfUser(db.ledgers, user);
            && SumTo(|db.ledgers|, Spendable(db.ledgers, mine)) + SumTo(|db.claims|, OpenAmount(db.claims, user))
               == SumTo(|db.history|, Moved(db.history, mine))
  {
    var s := Exec(Start(configs), run);
    RunKeeps(configs, run);
    RunBalanced(configs, run, OfUser(s.db.ledgers, user));
    forall c | 0 <= c < |s.db.claims|
      ensures Held(s.db.claims, OfUser(s.db.ledgers, user))(c) == OpenAmount(s.db.claims, user)(c)
    {
      HeldIsOpenAmount(s, user, c);
    }
    SumSame(|s.db.claims|, Held(s.db.claims, OfUser(s.db.ledgers, user)), OpenAmount(s.db.claims, user));
  }
}
