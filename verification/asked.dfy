/** What callers ask for and what the books record: over any run, the movements of points are exactly the
    amounts of the credits, deductions and airdrops that were due. */
module Asked {
  import opened Sums
  import opened Store
  import opened Points
  import opened Claims
  import opened AirdropTx
  import opened Machine
  import opened Invariant
  import opened Preserve
  import opened Books
  import opened Caps
  import Airdrop

  /** A selection of pairs of a user and a channel. */
  type Who = (nat, string) -> bool

  function LedgersOf(ledgers: seq<Ledger>, who: Who): Selection {
    l => 0 <= l < |ledgers| && who(ledgers[l].user, ledgers[l].channel)
  }

  function MovedFor(db: Db, who: Who): int {
    SumTo(|db.history|, Moved(db.history, LedgersOf(db.ledgers, who)))
  }

  function SharesFor(viewers: seq<Airdrop.Viewer>, channel: string, who: Who): int -> int {
    i => if 0 <= i < |viewers| && who(viewers[i].user, channel) then viewers[i].share else 0
  }

  /** The points that this event is due to give to the selected users and channels, or to take from them:
      none if its transaction is rolled back or must be refused. */
  function Due(s: Sys, e: Event, who: Who): int {
    match e
    case OnPoints(CreditPoints(user, channel, _, _, amount, meta, ending)) =>
      if ending != Abort && amount > 0 && Creditable(s.db.log, meta) && who(user, channel) then amount else 0
    case OnPoints(DeductPoints(user, channel, _, amount, ending)) =>
      if ending != Abort && amount > 0 && Owns(s.db.ledgers, user, channel, amount) && who(user, channel) then -amount
      else 0
    case OnPoints(AirdropPoints(channel, at, viewers, amount, ending)) =>
      if ending != Abort && amount > 0 && viewers != []
         && WithinConfigured(s.configs, channel, DayTotal(s.db, channel, Day(at)) + amount)
      then SumTo(|viewers|, SharesFor(Airdrop.Distribute(viewers, amount), channel, who)) else 0
    case _ => 0
  }

  function TotalDue(s: Sys, run: seq<Event>, who: Who): int
    requires Allowed(s, run)
  {
    if run == [] then 0
    else TotalDue(s, run[..|run| - 1], who) + Due(Exec(s, run[..|run| - 1]), run[|run| - 1], who)
  }

  // ---------- movements and ledgers ----------

  predicate LedgersOk(db: Db) {
    OneLedgerEach(db.ledgers) && forall i :: 0 <= i < |db.history| ==> db.history[i].ledger < |db.ledgers|
  }

  lemma MovedSame(a: Db, b: Db, who: Who)
    requires LedgersOk(a) && b.history == a.history
    requires |b.ledgers| == |a.ledgers| && LedgersGrow(a.ledgers, b.ledgers)
    ensures LedgersOk(b) && MovedFor(b, who) == MovedFor(a, who)
  {
    SumSame(|a.history|, Moved(a.history, LedgersOf(a.ledgers, who)), Moved(a.history, LedgersOf(b.ledgers, who)));
  }

  lemma MovedSnoc(a: Db, b: Db, l: nat, amount: int, who: Who)
    requires LedgersOk(a) && LedgersGrow(a.ledgers, b.ledgers) && OneLedgerEach(b.ledgers)
    requires b.history == a.history + [Movement(l, amount)] && l < |b.ledgers|
    ensures LedgersOk(b)
    ensures MovedFor(b, who) == MovedFor(a, who)
         + if who(b.ledgers[l].user, b.ledgers[l].channel) then amount else 0
  {
    SumSame(|a.history|, Moved(a.history, LedgersOf(a.ledgers, who)), Moved(a.history, LedgersOf(b.ledgers, who)));
    HistorySnoc(a.history, Movement(l, amount), LedgersOf(b.ledgers, who));
  }

  lemma CreditMoves(db: Db, user: nat, channel: string, at: int, source: Source, amount: int, meta: CreditMeta,
          who: Who)
    requires LedgersOk(db) && amount > 0 && Creditable(db.log, meta)
    ensures var r := Credit(db, user, channel, at, source, amount, meta);
            && r.Ok? && LedgersOk(r.value)
            && MovedFor(r.value, who) == MovedFor(db, who) + if who(user, channel) then amount else 0
  {
    CreditExact(db, user, channel, at, source, amount, meta);
    var b := Credit(db, user, channel, at, source, amount, meta).value;
    var l: nat :| l < |b.ledgers| && LedgerCredited(db.ledgers, b.ledgers, l, user, channel, at, amount)
                  && b.history == db.history + [Movement(l, amount)];
    MovedSnoc(db, b, l, amount, who);
  }

  lemma DeductMoves(db: Db, user: nat, channel: string, at: int, amount: int, who: Who)
    requires LedgersOk(db) && amount > 0 && Owns(db.ledgers, user, channel, amount)
    ensures var r := Deduct(db, user, channel, at, amount);
            && r.Ok? && LedgersOk(r.value)
            && MovedFor(r.value, who) == MovedFor(db, who) - if who(user, channel) then amount else 0
  {
    DeductExact(db, user, channel, at, amount);
    var b := Deduct(db, user, channel, at, amount).value;
    var l: nat :| l < |db.ledgers| && db.ledgers[l].user == user && db.ledgers[l].channel == channel
                  && b.history == db.history + [Movement(l, -amount)];
    MovedSnoc(db, b, l, -amount, who);
  }

  // ---------- airdrops ----------

  function PointsFor(recipients: seq<Recipient>, channel: string, who: Who): int -> int {
    i => if 0 <= i < |recipients| && who(recipients[i].user, channel) then recipients[i].points else 0
  }

  lemma {:induction false} CreditAllMoves(db: Db, channel: string, at: int, recipients: seq<Recipient>, who: Who)
    requires LedgersOk(db) && forall r :: r in recipients ==> r.points > 0
    ensures var b := CreditAll(db, channel, at, recipients);
            && LedgersOk(b)
            && MovedFor(b, who) == MovedFor(db, who) + SumTo(|recipients|, PointsFor(recipients, channel, who))
  {
    if recipients == [] {
    } else {
      var init, r := recipients[..|recipients| - 1], recipients[|recipients| - 1];
      CreditAllMoves(db, channel, at, init, who);
      CreditMoves(CreditAll(db, channel, at, init), r.user, channel, at, Source.Airdrop, r.points,
          CreditMeta(None, None), who);
      SumSame(|init|, PointsFor(init, channel, who), PointsFor(recipients, channel, who));
    }
  }

  lemma {:induction false} DistributionFor(viewers: seq<Airdrop.Viewer>, channel: string, who: Who)
    requires forall v :: v in viewers ==> v.share >= 0
    ensures var d := Distribution(viewers);
            && SumTo(|d|, PointsFor(d, channel, who)) == SumTo(|viewers|, SharesFor(viewers, channel, who))
            && forall r :: r in d ==> r.points > 0
  {
    if viewers == [] {
    } else {
      var init, v := viewers[..|viewers| - 1], viewers[|viewers| - 1];
      var d, e := Distribution(init), Distribution(viewers);
      assert viewers == init + [v];
      DistributionFor(init, channel, who);
      SumSame(|init|, SharesFor(init, channel, who), SharesFor(viewers, channel, who));
      SumSame(|d|, PointsFor(d, channel, who), PointsFor(e, channel, who));
      assert v.share <= 0 ==> e == d;
      assert v.share > 0 ==> e == d + [Recipient(v.user, v.share)];
    }
  }

  lemma AirdropMoves(s: Sys, a: PointsAction, who: Who)
    requires PointsEnabled(s, a) && a.AirdropPoints? && LedgersOk(s.db)
    ensures LedgersOk(PointsStep(s, a).db)
    ensures MovedFor(PointsStep(s, a).db, who) == MovedFor(s.db, who) + Due(s, OnPoints(a), who)
  {
    var d := Airdrop.Distribute(a.viewers, a.amount);
    AttemptRefused(s.db, s.configs, a.channel, a.at, a.viewers, a.amount);
    if a.ending != Abort && Attempt(s.db, s.configs, a.channel, a.at, a.viewers, a.amount).Ok? {
      SplitTotal(a.viewers, a.amount);
      DistributionFor(d, a.channel, who);
      CreditAllMoves(s.db, a.channel, a.at, Distribution(d), who);
    }
  }

  // ---------- runs ----------

  predicate MovesPoints(e: Event) {
    e.OnPoints? && !e.points.StartClaim?
  }

  predicate NothingMoves(a: Db, b: Db) {
    b.history == a.history && |b.ledgers| == |a.ledgers| && LedgersGrow(a.ledgers, b.ledgers)
  }

  lemma StartClaimMovesNothing(s: Sys, a: PointsAction)
    requires PointsEnabled(s, a) && a.StartClaim?
    ensures NothingMoves(s.db, PointsStep(s, a).db)
  {
  }

  lemma ClaimMovesNothing(s: Sys, c: nat, a: ClaimAction)
    requires ClaimEnabled(s, c, a)
    ensures NothingMoves(s.db, ClaimActionStep(s, c, a).db)
  {
  }

  lemma OthersMoveNothing(s: Sys, e: Event)
    requires Enabled(s, e) && !MovesPoints(e)
    ensures NothingMoves(s.db, Step(s, e).db)
  {
    match e
    case OnPoints(a) => StartClaimMovesNothing(s, a);
    case OnClaim(c, a) => ClaimMovesNothing(s, c, a);
    case OnSpend(q, a) => SpendStepKeepsPoints(s, q, a);
    case _ =>
  }

  lemma CreditStepMoves(s: Sys, a: PointsAction, who: Who)
    requires PointsEnabled(s, a) && a.CreditPoints? && LedgersOk(s.db)
    ensures LedgersOk(PointsStep(s, a).db)
    ensures MovedFor(PointsStep(s, a).db, who) == MovedFor(s.db, who) + Due(s, OnPoints(a), who)
  {
    CreditExact(s.db, a.user, a.channel, a.at, a.source, a.amount, a.meta);
    if a.amount > 0 && Creditable(s.db.log, a.meta) {
      CreditMoves(s.db, a.user, a.channel, a.at, a.source, a.amount, a.meta, who);
    }
  }

  lemma DeductStepMoves(s: Sys, a: PointsAction, who: Who)
    requires PointsEnabled(s, a) && a.DeductPoints? && LedgersOk(s.db)
    ensures LedgersOk(PointsStep(s, a).db)
    ensures MovedFor(PointsStep(s, a).db, who) == MovedFor(s.db, who) + Due(s, OnPoints(a), who)
  {
    DeductExact(s.db, a.user, a.channel, a.at, a.amount);
    if a.amount > 0 && Owns(s.db.ledgers, a.user, a.channel, a.amount) {
      DeductMoves(s.db, a.user, a.channel, a.at, a.amount, who);
    }
  }

  lemma StepMoves(s: Sys, e: Event, who: Who)
    requires Enabled(s, e) && LedgersOk(s.db)
    ensures LedgersOk(Step(s, e).db)
    ensures MovedFor(Step(s, e).db, who) == MovedFor(s.db, who) + Due(s, e, who)
  {
    if !MovesPoints(e) {
      OthersMoveNothing(s, e);
      MovedSame(s.db, Step(s, e).db, who);
    } else if e.points.CreditPoints? {
      CreditStepMoves(s, e.points, who);
    } else if e.points.DeductPoints? {
      DeductStepMoves(s, e.points, who);
    } else {
      AirdropMoves(s, e.points, who);
    }
  }

  /** Main result: over any run, the movements recorded for any users and channels are exactly what the
      credits, deductions and airdrops of the run were due to give and take. */
  lemma {:induction false} MovementsAreDue(configs: map<string, int>, run: seq<Event>, who: Who)
    requires Allowed(Start(configs), run)
    ensures LedgersOk(Exec(Start(configs), run).db)
    ensures MovedFor(Exec(Start(configs), run).db, who) == TotalDue(Start(configs), run, who)
  {
    if run == [] {
    } else {
      MovementsAreDue(configs, run[..|run| - 1], who);
      StepMoves(Exec(Start(configs), run[..|run| - 1]), run[|run| - 1], who);
    }
  }

  /** Main result: a user's points plus the amounts of the user's existing, not failed claims are what the
      credits, deductions and airdrops of the run were due to give to and take from the user. */
  lemma UserGetsWhatIsDue(configs: map<string, int>, run: seq<Event>, user: nat)
    requires Allowed(Start(configs), run)
    ensures var db := Exec(Start(configs), run).db;
            && SumTo(|db.ledgers|, Spendable(db.ledgers, OfUser(db.ledgers, user)))
               + SumTo(|db.claims|, OpenAmount(db.claims, user))
               == TotalDue(Start(configs), run, (u, channel) => u == user)
  {
    var db, who: Who := Exec(Start(configs), run).db, (u, channel) => u == user;
    MovementsAreDue(configs, run, who);
    UserPointsConserved(configs, run, user);
    SumSame(|db.history|, Moved(db.history, LedgersOf(db.ledgers, who)), Moved(db.history, OfUser(db.ledgers, user)));
  }

  // ---------- when a ledger was created ----------

  /** Row i is the oldest one of ledger l, a credit made when the ledger was created. */
  predicate Opens(db: Db, l: nat, i: nat)
    requires l < |db.ledgers|
  {
    && i < |db.log| && db.log[i].Some? && db.log[i].value.ledger == l && db.log[i].value.at == db.ledgers[l].created
    && db.log[i].value.delta > 0 && db.log[i].value.item.None?
    && forall j :: 0 <= j < i && db.log[j].Some? ==> db.log[j].value.ledger != l
  }

  predicate HasOpening(db: Db, l: nat)
    requires l < |db.ledgers|
  {
    exists i :: 0 <= i < |db.log| && Opens(db, l, i)
  }

  predicate Dated(db: Db) {
    forall l :: 0 <= l < |db.ledgers| ==> HasOpening(db, l)
  }

  /** Rows stay, except those of claim items; ledgers keep their dates. */
  predicate DatesKept(a: Db, b: Db) {
    && |b.ledgers| >= |a.ledgers| && |b.log| >= |a.log|
    && (forall l :: 0 <= l < |a.ledgers| ==> b.ledgers[l].created == a.ledgers[l].created)
    && forall i :: 0 <= i < |a.log| ==>
        b.log[i] == a.log[i] || (b.log[i].None? && a.log[i].Some? && a.log[i].value.item.Some?)
  }

  lemma StillOpens(a: Db, b: Db, l: nat, i: nat)
    requires DatesKept(a, b) && l < |a.ledgers| && Opens(a, l, i)
    ensures Opens(b, l, i)
  {
  }

  lemma DatedSame(a: Db, b: Db)
    requires Dated(a) && DatesKept(a, b) && |b.ledgers| == |a.ledgers|
    ensures Dated(b)
  {
    forall l | 0 <= l < |b.ledgers|
      ensures HasOpening(b, l)
    {
      assert HasOpening(a, l);
      var i :| 0 <= i < |a.log| && Opens(a, l, i);
      StillOpens(a, b, l, i);
    }
  }

  lemma CreditDates(db: Db, user: nat, channel: string, at: int, source: Source, amount: int, meta: CreditMeta)
    requires LedgersOk(db) && LogOnLedgers(db) && Dated(db) && amount > 0 && Creditable(db.log, meta)
    ensures var r := Credit(db, user, channel, at, source, amount, meta);
            r.Ok? && LedgersOk(r.value) && LogOnLedgers(r.value) && Dated(r.value)
  {
    CreditExact(db, user, channel, at, source, amount, meta);
    CreditMoves(db, user, channel, at, source, amount, meta, (u, c) => false);
    var b := Credit(db, user, channel, at, source, amount, meta).value;
    var l: nat :| l < |b.ledgers| && LedgerCredited(db.ledgers, b.ledgers, l, user, channel, at, amount)
                  && b.log == db.log + [Some(PointsTx(l, source, amount, at, meta.externalId, None))];
    forall k | 0 <= k < |b.ledgers|
      ensures HasOpening(b, k)
    {
      if k < |db.ledgers| {
        assert HasOpening(db, k);
        var i :| 0 <= i < |db.log| && Opens(db, k, i);
        StillOpens(db, b, k, i);
      } else {
        assert Opens(b, k, |db.log|);
      }
    }
  }

  lemma {:induction false} CreditAllDates(db: Db, channel: string, at: int, recipients: seq<Recipient>)
    requires LedgersOk(db) && LogOnLedgers(db) && Dated(db) && forall r :: r in recipients ==> r.points > 0
    ensures var b := CreditAll(db, channel, at, recipients); LedgersOk(b) && LogOnLedgers(b) && Dated(b)
  {
    if recipients == [] {
    } else {
      var init, r := recipients[..|recipients| - 1], recipients[|recipients| - 1];
      CreditAllDates(db, channel, at, init);
      CreditDates(CreditAll(db, channel, at, init), r.user, channel, at, Source.Airdrop, r.points,
          CreditMeta(None, None));
    }
  }

  lemma {:induction false} DeletedAreItems(log: seq<Option<PointsTx>>, items: seq<Item>, n: nat, claim: nat)
    requires n <= |items| && Recorded(log, items, claim)
    ensures var b := DeleteFirst(log, items, n);
            forall i :: 0 <= i < |log| ==>
              b[i] == log[i] || (b[i].None? && log[i].Some? && log[i].value.item.Some?)
  {
    if n == 0 {
    } else {
      DeletedAreItems(log, items, n - 1, claim);
    }
  }

  lemma ClaimStepDates(s: Sys, c: nat, a: ClaimAction)
    requires Inv(s) && ClaimEnabled(s, c, a)
    ensures DatesKept(s.db, ClaimActionStep(s, c, a).db)
  {
    assert ClaimOk(s, c);
    match a
    case RollBackClaim(ending) => DeletedAreItems(s.db.log, s.claims[c].res.items, |s.claims[c].res.items|, c);
    case CompensateClaim(at, ending) =>
    case _ => OtherClaimStepQuiet(s, c, a);
  }

  lemma CreditStepDates(s: Sys, a: PointsAction)
    requires Inv(s) && PointsEnabled(s, a) && a.CreditPoints? && LedgersOk(s.db) && Dated(s.db)
    ensures Dated(PointsStep(s, a).db)
  {
    CreditExact(s.db, a.user, a.channel, a.at, a.source, a.amount, a.meta);
    if a.amount > 0 && Creditable(s.db.log, a.meta) {
      CreditDates(s.db, a.user, a.channel, a.at, a.source, a.amount, a.meta);
    }
  }

  lemma AirdropDates(s: Sys, a: PointsAction)
    requires Inv(s) && PointsEnabled(s, a) && a.AirdropPoints? && LedgersOk(s.db) && Dated(s.db)
    ensures Dated(PointsStep(s, a).db)
  {
    if a.ending != Abort && Attempt(s.db, s.configs, a.channel, a.at, a.viewers, a.amount).Ok? {
      SplitTotal(a.viewers, a.amount);
      DistributionTotal(Airdrop.Distribute(a.viewers, a.amount));
      CreditAllDates(s.db, a.channel, a.at, Distribution(Airdrop.Distribute(a.viewers, a.amount)));
    }
  }

  lemma TakingKeepsDates(s: Sys, a: PointsAction)
    requires PointsEnabled(s, a) && (a.DeductPoints? || a.StartClaim?)
    ensures DatesKept(s.db, PointsStep(s, a).db) && |PointsStep(s, a).db.ledgers| == |s.db.ledgers|
  {
  }

  lemma StepDates(s: Sys, e: Event)
    requires Inv(s) && Enabled(s, e) && LedgersOk(s.db) && Dated(s.db)
    ensures Dated(Step(s, e).db)
  {
    if e.OnPoints? && e.points.CreditPoints? {
      CreditStepDates(s, e.points);
    } else if e.OnPoints? && e.points.AirdropPoints? {
      AirdropDates(s, e.points);
    } else {
      if e.OnPoints? {
        TakingKeepsDates(s, e.points);
      } else {
        OthersMoveNothing(s, e);
        OthersKeepDates(s, e);
      }
      DatedSame(s.db, Step(s, e).db);
    }
  }

  lemma OthersKeepDates(s: Sys, e: Event)
    requires Inv(s) && Enabled(s, e) && !e.OnPoints?
    ensures DatesKept(s.db, Step(s, e).db)
  {
    match e
    case OnClaim(c, a) => ClaimStepDates(s, c, a);
    case OnSpend(q, a) => SpendStepKeepsPoints(s, q, a);
    case _ =>
  }

  /** Main result: in every reachable state a ledger's creation time, by which reservations order the
      ledgers, is the time of its oldest row, the credit that opened it. */
  lemma {:induction false} LedgersDated(configs: map<string, int>, run: seq<Event>)
    requires Allowed(Start(configs), run)
    ensures Dated(Exec(Start(configs), run).db)
  {
    if run == [] {
    } else {
      LedgersDated(configs, run[..|run| - 1]);
      RunKeeps(configs, run[..|run| - 1]);
      MovementsAreDue(configs, run[..|run| - 1], (u, channel) => false);
      StepDates(Exec(Start(configs), run[..|run| - 1]), run[|run| - 1]);
    }
  }
}
