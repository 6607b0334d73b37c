/** The airdrop call: one serializable transaction, retried when the database reports a conflict. */
module AirdropService {
  import opened Sums
  import opened Store
  import opened Points
  import opened Machine
  import opened Invariant
  import opened AirdropTx
  import opened Runs
  import opened Tables
  import opened Caps
  import Airdrop
  import AirdropInt64
  import Backend

  const MAX_ATTEMPTS: nat := 5

  /** A conflict means that the transaction was rolled back; other errors may come after a commit. */
  datatype AirdropFailure = AirdropRefused(reason: AirdropError) | Conflict | NotCommitted

  /** Being in the half-open interval of the UTC day is having that day number. */
  lemma DayInterval(at: int, created: int)
    ensures var start := at - at % 86400;
            && start == at / SECONDS_PER_DAY * SECONDS_PER_DAY && start <= at < start + 86400
            && (start <= created < start + 86400 <==> Day(created) == Day(at))
  {
  }

  /** The sum over the log joined with its ledgers. */
  method TodayTotal(tables: Database, channel: string, at: int) returns (total: int)
    ensures total == DayTotal(tables.State(), channel, Day(at))
  {
    var start := at / SECONDS_PER_DAY * SECONDS_PER_DAY;
    total := 0;
    for i := 0 to |tables.log|
      invariant total == SumTo(i, AirdropAt(tables.State(), channel, Day(at)))
    {
      var row := tables.log[i];
      if row.Some? && row.value.ledger < |tables.ledgers| && tables.ledgers[row.value.ledger].channel == channel
         && row.value.source == Source.Airdrop && start <= row.value.at < start + SECONDS_PER_DAY {
        total := total + row.value.delta;
      }
      if row.Some? {
        DayInterval(at, row.value.at);
      }
    }
  }

  /** What the transaction does with whatever viewers it finds, int64 arithmetic included; None means that
      the split panics, and the transaction is rolled back. */
  function AttemptInt64(db: Db, configs: map<string, int>, channel: string, at: int, viewers: seq<Airdrop.Viewer>,
          amount: int)
    : Option<Result<Outcome, AirdropError>>
  {
    var limit, todayTotal := DailyLimit(configs, channel), DayTotal(db, channel, Day(at));
    if viewers == [] then Some(Err(NoActiveViewers))
    else if Exceeds(todayTotal, limit, amount) then
      Some(Err(DailyLimitExceeded(limit, todayTotal, amount, if limit - todayTotal < 0 then 0 else limit - todayTotal)))
    else if AirdropInt64.Panics(viewers, amount) then None
    else
      var distribution := Distribution(AirdropInt64.DistributeInt64(viewers, amount));
      Some(Ok(Outcome(CreditAll(db, channel, at, distribution), distribution)))
  }

  lemma AttemptIsExact(db: Db, configs: map<string, int>, channel: string, at: int, viewers: seq<Airdrop.Viewer>,
          amount: int)
    requires amount > 0 && AirdropInt64.FitsInt64(viewers, amount)
    ensures AttemptInt64(db, configs, channel, at, viewers, amount)
        == Some(Attempt(db, configs, channel, at, viewers, amount))
  {
    AirdropInt64.ExactWithinInt64(viewers, amount);
  }

  /** The body of the transaction. */
  method TryAirdrop(tables: Database, configs: map<string, int>, channel: string, at: int, viewers: seq<Airdrop.Viewer>,
          amount: int)
    returns (r: Option<Result<seq<Recipient>, AirdropError>>)
    requires amount > 0 && AirdropInt64.Int64(amount) && |viewers| < AirdropInt64.TWO_TO_THE_63
    modifies tables
    ensures var spec := AttemptInt64(old(tables.State()), configs, channel, at, viewers, amount);
            match spec
            case None => r == None && tables.State() == old(tables.State())
            case Some(Err(reason)) => r == Some(Err(reason)) && tables.State() == old(tables.State())
            case Some(Ok(outcome)) => r == Some(Ok(outcome.distribution)) && tables.State() == outcome.db
  {
    if viewers == [] {
      return Some(Err(NoActiveViewers));
    }
    var limit := DailyLimit(configs, channel);
    var todayTotal := TodayTotal(tables, channel, at);
    if todayTotal > limit || amount > limit - todayTotal {
      var remaining := limit - todayTotal;
      if remaining < 0 {
        remaining := 0;
      }
      return Some(Err(DailyLimitExceeded(limit, todayTotal, amount, remaining)));
    }
    var slice := new Airdrop.Viewer[|viewers|](i requires 0 <= i < |viewers| => viewers[i]);
    assert slice[..] == viewers;
    var panicked := AirdropInt64.DistributeAirdrop(slice, amount);
    if panicked {
      return None;
    }
    var distribution := CreditViewers(tables, channel, at, slice[..]);
    return Some(Ok(distribution));
  }

  /** The loop that credits every viewer with a share. */
  method CreditViewers(tables: Database, channel: string, at: int, viewers: seq<Airdrop.Viewer>)
      returns (distribution: seq<Recipient>)
    modifies tables
    ensures distribution == Distribution(viewers)
    ensures tables.State() == CreditAll(old(tables.State()), channel, at, distribution)
  {
    distribution := [];
    for i := 0 to |viewers|
      invariant distribution == Distribution(viewers[..i])
      invariant tables.State() == CreditAll(old(tables.State()), channel, at, distribution)
    {
      assert viewers[..i + 1][..i] == viewers[..i];
      if viewers[i].share > 0 {
        var ok := tables.AddPointsAt(viewers[i].user, channel, at, Source.Airdrop, viewers[i].share, None);
        var r := Recipient(viewers[i].user, viewers[i].share);
        assert (distribution + [r])[..|distribution|] == distribution;
        distribution := distribution + [r];
      }
    }
    assert viewers[..|viewers|] == viewers;
  }

  // ---------- attempts ----------

  /** One attempt: the states around it, and how its transaction ended. */
  datatype Try = Try(before: Sys, after: Sys, at: int, viewers: seq<Airdrop.Viewer>, ending: Ending)

  /** The attempt credits exactly the distribution, which adds up to the amount, within the day's cap. */
  predicate Delivered(a: Db, b: Db, configs: map<string, int>, channel: string, at: int, amount: int,
      distribution: seq<Recipient>) {
    && TotalPoints(distribution) == amount && Appended(a, b, channel, at, distribution)
    && DayTotal(b, channel, Day(at)) == DayTotal(a, channel, Day(at)) + amount
    && WithinConfigured(configs, channel, DayTotal(b, channel, Day(at)))
  }

  predicate TryTold(x: Try, channel: string, amount: int, r: Result<seq<Recipient>, AirdropFailure>) {
    && x.after == AirdropStep(x.before, channel, x.at, x.viewers, amount, x.ending)
    && match r
       case Ok(distribution) =>
         && x.ending == Commit && x.viewers != []
         && Delivered(x.before.db, x.after.db, x.before.configs, channel, x.at, amount, distribution)
       case Err(AirdropRefused(reason)) =>
         && x.after == x.before && x.ending != Abort
         && RefusedBecause(x.before.configs, channel, DayTotal(x.before.db, channel, Day(x.at)), |x.viewers|, amount,
             reason)
       case Err(Conflict) => x.after == x.before && x.ending == Abort
       case Err(NotCommitted) => x.ending != Commit
  }

  lemma DeliveredFromAttempt(db: Db, configs: map<string, int>, channel: string, at: int, viewers: seq<Airdrop.Viewer>,
          amount: int)
    requires LogOnLedgers(db) && Airdrop.NonNegativeSeconds(viewers)
        && Attempt(db, configs, channel, at, viewers, amount).Ok?
    ensures var outcome := Attempt(db, configs, channel, at, viewers, amount).value;
            Delivered(db, outcome.db, configs, channel, at, amount, outcome.distribution)
  {
    AttemptWithinLimit(db, configs, channel, at, viewers, amount);
    RowsAreDistribution(db, channel, at, Attempt(db, configs, channel, at, viewers, amount).value.distribution);
  }

  /** What the environment promises of the session query: its order, freshly loaded rows of distinct
      registered users, and seconds whose products with the amount fit int64. */
  predicate Promised(viewers: seq<Airdrop.Viewer>, amount: int, users: nat) {
    && AirdropInt64.FitsInt64(viewers, amount) && |viewers| < AirdropInt64.TWO_TO_THE_63
    && Airdrop.QueryOrder(viewers) && Airdrop.Loaded(viewers)
    && (forall i, j :: 0 <= i < j < |viewers| ==> viewers[i].user != viewers[j].user)
    && (forall v :: v in viewers ==> v.user < users)
  }

  /** The active sessions of the channel, read inside the transaction. */
  method ActiveViewers(svc: Backend.Service, amount: int) returns (viewers: seq<Airdrop.Viewer>)
    requires AirdropInt64.Int64(amount)
    ensures Promised(viewers, amount, |svc.tables.balances|)
  {
    viewers := *;
    if !Promised(viewers, amount, |svc.tables.balances|) {
      viewers := [];
      assert Airdrop.TotalSeconds([]) == 0;
    }
  }

  /** One round of the retry loop. */
  method OneTry(svc: Backend.Service, channel: string, amount: int)
      returns (r: Result<seq<Recipient>, AirdropFailure>, ghost x: Try)
    requires Inv(svc.View()) && amount > 0 && AirdropInt64.Int64(amount)
    modifies svc, svc.tables
    ensures Inv(svc.View()) && Reaches(old(svc.View()), svc.View(), Anyone)
    ensures x.before == old(svc.View()) && x.after == svc.View() && TryTold(x, channel, amount, r)
  {
    ghost var s := svc.View();
    var at: int, how: Ending := *, *;
    var viewers := ActiveViewers(svc, amount);
    Steps(s, OnPoints(AirdropPoints(channel, at, viewers, amount, how)));
    x := Try(s, AirdropStep(s, channel, at, viewers, amount, how), at, viewers, how);
    if how == Abort {
      var conflict: bool := *;
      return Err(if conflict then Conflict else NotCommitted), x;
    }
    AttemptIsExact(s.db, svc.configs, channel, at, viewers, amount);
    AttemptRefused(s.db, svc.configs, channel, at, viewers, amount);
    var done := TryAirdrop(svc.tables, svc.configs, channel, at, viewers, amount);
    if done.value.Err? {
      return Err(AirdropRefused(done.value.error)), x;
    }
    DeliveredFromAttempt(s.db, svc.configs, channel, at, viewers, amount);
    r := if how == Commit then Ok(done.value.value) else Err(NotCommitted);
  }

  /** The attempts follow each other with only the steps of other calls in between, and all but the
      last left no trace. */
  ghost predicate Retried(s: Sys, tries: seq<Try>, t: Sys) {
    if tries == [] then Reaches(s, t, Anyone)
    else
      var last := tries[|tries| - 1];
      Retried(s, tries[..|tries| - 1], last.before) && Reaches(last.after, t, Anyone)
      && forall k :: 0 <= k < |tries| - 1 ==> tries[k].after == tries[k].before
  }

  predicate AllUndone(tries: seq<Try>) {
    forall k :: 0 <= k < |tries| ==> tries[k].after == tries[k].before
  }

  lemma RetriedOnce(s: Sys, tries: seq<Try>, x: Try)
    requires Retried(s, tries, x.before) && AllUndone(tries)
    ensures Retried(s, tries + [x], x.after)
    ensures x.after == x.before ==> AllUndone(tries + [x])
  {
    ReachesSelf(x.after, Anyone);
    assert (tries + [x])[..|tries|] == tries;
  }

  lemma RetriedLater(s: Sys, tries: seq<Try>, t: Sys, u: Sys)
    requires Retried(s, tries, t) && Reaches(t, u, Anyone)
    ensures Retried(s, tries, u)
  {
    ReachesThen(if tries == [] then s else tries[|tries| - 1].after, t, u, Anyone);
  }

  /** ExecuteContext: at most five attempts. Only the last one can have an effect, and its result tells
      which; a success hands out exactly the amount. */
  method ExecuteContext(svc: Backend.Service, channel: string, amount: int)
    returns (r: Result<seq<Recipient>, AirdropFailure>, ghost tries: seq<Try>)
    requires Inv(svc.View()) && AirdropInt64.Int64(amount)
    modifies svc, svc.tables
    ensures Inv(svc.View()) && |tries| <= MAX_ATTEMPTS && Retried(old(svc.View()), tries, svc.View())
    ensures amount <= 0 ==>
        tries == [] && svc.View() == old(svc.View())
        && r == Err(AirdropRefused(InvalidPointsAmount))
    ensures amount > 0 ==> tries != [] && TryTold(tries[|tries| - 1], channel, amount, r)
    ensures tries != [] && r != Err(Conflict) ==> tries[|tries| - 1].after == svc.View()
    ensures r == Err(Conflict) ==> |tries| == MAX_ATTEMPTS && AllUndone(tries)
  {
    tries := [];
    ghost var s := svc.View();
    ReachesSelf(s, Anyone);
    if amount <= 0 {
      return Err(AirdropRefused(InvalidPointsAmount)), tries;
    }
    r := Err(Conflict);
    for attempt := 0 to MAX_ATTEMPTS
      invariant Inv(svc.View()) && |tries| == attempt && Retrying(s, tries, svc.View(), channel, amount)
      invariant r == Err(Conflict)
    {
      ghost var x;
      r, x := OneTry(svc, channel, amount);
      ghost var before := tries;
      RetriedOnce(s, tries, x);
      tries := tries + [x];
      if r != Err(Conflict) {
        return;
      }
      svc.Others(Anyone);
      RoundOver(s, before, x, svc.View(), channel, amount);
    }
  }

  /** The state of the loop: every attempt so far ended in a conflict. */
  ghost predicate Retrying(s: Sys, tries: seq<Try>, t: Sys, channel: string, amount: int) {
    && Retried(s, tries, t) && AllUndone(tries)
    && (tries != [] ==> TryTold(tries[|tries| - 1], channel, amount, Err(Conflict)))
  }

  lemma RoundOver(s: Sys, tries: seq<Try>, x: Try, t: Sys, channel: string, amount: int)
    requires Retrying(s, tries, x.before, channel, amount) && TryTold(x, channel, amount, Err(Conflict))
    requires Reaches(x.after, t, Anyone)
    ensures Retrying(s, tries + [x], t, channel, amount)
  {
    RetriedOnce(s, tries, x);
    RetriedLater(s, tries + [x], x.after, t);
  }
}
