/** One attempt of an airdrop transaction: the daily cap, the split, and the credits
    (services/api/internal/services/airdrop_service.go). */
module AirdropTx {
  import opened Sums
  import opened Store
  import opened Points
  import Airdrop
  import AirdropInt64

  const DEFAULT_DAILY_LIMIT: int := 5000
  const SECONDS_PER_DAY: int := 86400

  datatype AirdropError =
    | InvalidPointsAmount
    | NoActiveViewers
    | DailyLimitExceeded(limit: int, todayTotal: int, requested: int, remaining: int)

  datatype Recipient = Recipient(user: nat, points: int)

  datatype Outcome = Outcome(db: Db, distribution: seq<Recipient>)

  /** The UTC day of a time in seconds since the epoch. */
  function Day(at: int): int {
    at / SECONDS_PER_DAY
  }

  predicate IsAirdrop(db: Db, row: Option<PointsTx>, channel: string, day: int) {
    && row.Some? && row.value.source == Source.Airdrop && Day(row.value.at) == day
    && row.value.ledger < |db.ledgers| && db.ledgers[row.value.ledger].channel == channel
  }

  function AirdropAt(db: Db, channel: string, day: int): int -> int {
    i => if 0 <= i < |db.log| && IsAirdrop(db, db.log[i], channel, day) then db.log[i].value.delta else 0
  }

  /** The sum of airdrop deltas recorded for a channel on one UTC day. */
  function DayTotal(db: Db, channel: string, day: int): int {
    SumTo(|db.log|, AirdropAt(db, channel, day))
  }

  function DailyLimit(configs: map<string, int>, channel: string): int {
    if channel in configs && configs[channel] > 0 then configs[channel] else DEFAULT_DAILY_LIMIT
  }

  function Distribution(viewers: seq<Airdrop.Viewer>): seq<Recipient> {
    if viewers == [] then []
    else
      var v := viewers[|viewers| - 1];
      Distribution(viewers[..|viewers| - 1]) + if v.share <= 0 then [] else [Recipient(v.user, v.share)]
  }

  function CreditAll(db: Db, channel: string, at: int, recipients: seq<Recipient>): Db {
    if recipients == [] then db
    else
      var r := recipients[|recipients| - 1];
      AddRow(CreditAll(db, channel, at, recipients[..|recipients| - 1]), r.user, channel, at, Source.Airdrop, r.points,
          None)
  }

  /** The guard of the source, which avoids computing todayTotal + amount. */
  predicate Exceeds(todayTotal: int, limit: int, amount: int) {
    todayTotal > limit || amount > limit - todayTotal
  }

  function Attempt(db: Db, configs: map<string, int>, channel: string, at: int, viewers: seq<Airdrop.Viewer>,
          amount: int): Result<Outcome, AirdropError> {
    var limit, todayTotal := DailyLimit(configs, channel), DayTotal(db, channel, Day(at));
    if amount <= 0 then Err(InvalidPointsAmount)
    else if viewers == [] then Err(NoActiveViewers)
    else if Exceeds(todayTotal, limit, amount) then
      Err(DailyLimitExceeded(limit, todayTotal, amount, if limit - todayTotal < 0 then 0 else limit - todayTotal))
    else
      var distribution := Distribution(Airdrop.Distribute(viewers, amount));
      Ok(Outcome(CreditAll(db, channel, at, distribution), distribution))
  }

  /** The total stays within the channel's configured limit, if there is a positive one, else within 5000. */
  predicate WithinConfigured(configs: map<string, int>, channel: string, total: int) {
    total <= if channel in configs && configs[channel] > 0 then configs[channel] else 5000
  }

  /** Why an airdrop is refused, in terms of the day's total, the request and the configured limit. */
  predicate RefusedBecause(configs: map<string, int>, channel: string, todayTotal: int, viewers: nat, amount: int,
      reason: AirdropError) {
    match reason
    case InvalidPointsAmount => amount <= 0
    case NoActiveViewers => amount > 0 && viewers == 0
    case DailyLimitExceeded(limit, total, requested, remaining) =>
      && amount > 0 && viewers > 0 && !WithinConfigured(configs, channel, todayTotal + amount)
      && total == todayTotal && requested == amount
      && (channel in configs && configs[channel] > 0 ==> limit == configs[channel])
      && (channel !in configs || configs[channel] <= 0 ==> limit == 5000)
      && 0 <= remaining < amount && (remaining > 0 ==> todayTotal + remaining == limit)
      && (remaining == 0 ==> todayTotal >= limit)
  }

  /** Main result: exactly when an airdrop is refused, and what the refusal says. */
  lemma AttemptRefused(db: Db, configs: map<string, int>, channel: string, at: int, viewers: seq<Airdrop.Viewer>,
          amount: int)
    ensures var r, total := Attempt(db, configs, channel, at, viewers, amount), DayTotal(db, channel, Day(at));
            && (r.Ok? <==> amount > 0 && viewers != [] && WithinConfigured(configs, channel, total + amount))
            && (r.Err? ==> RefusedBecause(configs, channel, total, |viewers|, amount, r.error))
  {
  }

  /** For int64 values with a non-negative total the guard cannot overflow and is the plain check. */
  lemma GuardIsExact(todayTotal: int, limit: int, amount: int)
    requires AirdropInt64.Int64(todayTotal) && AirdropInt64.Int64(limit) && AirdropInt64.Int64(amount)
    requires todayTotal >= 0 && limit > 0 && amount > 0
    ensures Exceeds(todayTotal, limit, amount) <==> todayTotal + amount > limit
    ensures todayTotal <= limit ==> AirdropInt64.Wrap(limit - todayTotal) == limit - todayTotal
    ensures !Exceeds(todayTotal, limit, amount) ==> AirdropInt64.Int64(todayTotal + amount)
  {
  }

  // ---------- what an attempt writes ----------

  function PointsAt(recipients: seq<Recipient>): int -> int {
    i => if 0 <= i < |recipients| then recipients[i].points else 0
  }

  function TotalPoints(recipients: seq<Recipient>): int {
    SumTo(|recipients|, PointsAt(recipients))
  }

  lemma PointsSnoc(recipients: seq<Recipient>, r: Recipient)
    ensures TotalPoints(recipients + [r]) == TotalPoints(recipients) + r.points
  {
    SumSame(|recipients|, PointsAt(recipients), PointsAt(recipients + [r]));
  }

  lemma {:induction false} DistributionTotal(viewers: seq<Airdrop.Viewer>)
    requires forall v :: v in viewers ==> v.share >= 0
    ensures TotalPoints(Distribution(viewers)) == Airdrop.TotalShares(viewers)
    ensures forall r :: r in Distribution(viewers) ==> r.points > 0
  {
    if viewers == [] {
    } else {
      var init, v := viewers[..|viewers| - 1], viewers[|viewers| - 1];
      assert viewers == init + [v];
      DistributionTotal(init);
      Airdrop.SumSnoc(init, v, Airdrop.Share());
      PointsSnoc(Distribution(init), Recipient(v.user, v.share));
      assert Distribution(init) + [] == Distribution(init);
    }
  }

  /** Every log row belongs to a ledger. */
  predicate LogOnLedgers(db: Db) {
    forall i :: 0 <= i < |db.log| && db.log[i].Some? ==> db.log[i].value.ledger < |db.ledgers|
  }

  lemma AddRowDayTotal(db: Db, user: nat, channel: string, at: int, amount: int, channel': string, day: int)
    requires LogOnLedgers(db)
    ensures var after := AddRow(db, user, channel, at, Source.Airdrop, amount, None);
            && LogOnLedgers(after)
            && DayTotal(after, channel', day) == DayTotal(db, channel', day) + if channel' == channel
                && day == Day(at) then amount else 0
  {
    var after := AddRow(db, user, channel, at, Source.Airdrop, amount, None);
    SumSame(|db.log|, AirdropAt(db, channel', day), AirdropAt(after, channel', day));
  }

  lemma {:induction false} CreditAllDayTotal(db: Db, channel: string, at: int, recipients: seq<Recipient>,
          channel': string, day: int)
    requires LogOnLedgers(db)
    ensures var after := CreditAll(db, channel, at, recipients);
            && LogOnLedgers(after)
            && DayTotal(after, channel', day) == DayTotal(db, channel', day)
               + if channel' == channel && day == Day(at) then TotalPoints(recipients) else 0
  {
    if recipients == [] {
    } else {
      var init, r := recipients[..|recipients| - 1], recipients[|recipients| - 1];
      CreditAllDayTotal(db, channel, at, init, channel', day);
      AddRowDayTotal(CreditAll(db, channel, at, init), r.user, channel, at, r.points, channel', day);
      assert recipients == init + [r];
      PointsSnoc(init, r);
    }
  }

  lemma {:induction false} CreditAllBalanced(db: Db, channel: string, at: int, recipients: seq<Recipient>,
          sel: Selection)
    requires Balanced(db, sel) && forall r :: r in recipients ==> r.points > 0
    ensures Balanced(CreditAll(db, channel, at, recipients), sel)
  {
    if recipients == [] {
    } else {
      var init, r := recipients[..|recipients| - 1], recipients[|recipients| - 1];
      CreditAllBalanced(db, channel, at, init, sel);
      AddRowBalanced(CreditAll(db, channel, at, init), r.user, channel, at, Source.Airdrop, r.points, None, sel);
    }
  }

  /** A successful attempt hands out exactly the amount, and the day's total stays within the cap. */
  lemma AttemptWithinLimit(db: Db, configs: map<string, int>, channel: string, at: int, viewers: seq<Airdrop.Viewer>,
          amount: int)
    requires LogOnLedgers(db) && Airdrop.NonNegativeSeconds(viewers)
    requires Attempt(db, configs, channel, at, viewers, amount).Ok?
    ensures var outcome := Attempt(db, configs, channel, at, viewers, amount).value;
            && TotalPoints(outcome.distribution) == amount
            && (forall r :: r in outcome.distribution ==> r.points > 0)
            && DayTotal(outcome.db, channel, Day(at)) == DayTotal(db, channel, Day(at)) + amount
            && WithinConfigured(configs, channel, DayTotal(outcome.db, channel, Day(at)))
            && forall channel', day :: channel' != channel || day != Day(at) ==>
                 DayTotal(outcome.db, channel', day) == DayTotal(db, channel', day)
  {
    var d := Airdrop.Distribute(viewers, amount);
    SplitTotal(viewers, amount);
    DistributionTotal(d);
    CreditAllDayTotal(db, channel, at, Distribution(d), channel, Day(at));
    forall channel', day | channel' != channel || day != Day(at)
      ensures DayTotal(CreditAll(db, channel, at, Distribution(d)), channel', day) == DayTotal(db, channel', day)
    {
      CreditAllDayTotal(db, channel, at, Distribution(d), channel', day);
    }
  }

  lemma SplitTotal(viewers: seq<Airdrop.Viewer>, amount: int)
    requires Airdrop.NonNegativeSeconds(viewers) && viewers != [] && amount > 0
    ensures Airdrop.TotalShares(Airdrop.Distribute(viewers, amount)) == amount
    ensures forall v :: v in Airdrop.Distribute(viewers, amount) ==> v.share >= 0
  {
    if Airdrop.TotalSeconds(viewers) > 0 {
      Airdrop.Apportionment(viewers, amount);
    } else {
      Airdrop.EvenSplit(viewers, amount);
    }
  }
}
