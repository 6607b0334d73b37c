/** The daily airdrop cap and the idempotence of external credits over all runs. */
module Caps {
  import opened Sums
  import opened Store
  import opened Points
  import opened Claims
  import opened Spends
  import opened AirdropTx
  import opened Machine
  import opened Invariant
  import opened Preserve
  import opened Books

  // ---------- what steps do to the log ----------

  /** A row that is neither an airdrop nor an external credit. */
  predicate Plain(row: Option<PointsTx>) {
    row.Some? ==> row.value.source != Source.Airdrop && row.value.externalId.None?
  }

  /** Rows stay, except plain rows that are deleted; the new rows are plain. */
  predicate PlainChange(a: seq<Option<PointsTx>>, b: seq<Option<PointsTx>>) {
    && |a| <= |b|
    && (forall i :: 0 <= i < |a| ==> b[i] == a[i] || (Plain(a[i]) && b[i].None?))
    && (forall i :: |a| <= i < |b| ==> Plain(b[i]))
  }

  lemma {:induction false} DeletedPlain(log: seq<Option<PointsTx>>, items: seq<Item>, n: nat)
    requires n <= |items| && forall k :: 0 <= k < |items| ==> items[k].tx < |log| && Plain(log[items[k].tx])
    ensures PlainChange(log, DeleteFirst(log, items, n))
  {
    if n == 0 {
    } else {
      DeletedPlain(log, items, n - 1);
    }
  }

  /** What every step but credits and airdrops does to the log and the ledgers. */
  predicate QuietStep(s: Sys, t: Sys) {
    PlainChange(s.db.log, t.db.log) && LedgersGrow(s.db.ledgers, t.db.ledgers) && t.configs == s.configs
  }

  lemma AppendQuiet(a: seq<Option<PointsTx>>, rows: seq<Option<PointsTx>>)
    requires forall k :: 0 <= k < |rows| ==> Plain(rows[k])
    ensures PlainChange(a, a + rows)
  {
  }

  lemma RollBackQuiet(s: Sys, c: nat, ending: Ending)
    requires Inv(s) && ClaimAt(s, c, RollingBack)
    ensures QuietStep(s, RollBackStep(s, c, ending))
  {
    assert ClaimOk(s, c);
    DeletedPlain(s.db.log, s.claims[c].res.items, |s.claims[c].res.items|);
  }

  lemma CompensateQuiet(s: Sys, c: nat, at: int, ending: Ending)
    requires c < |s.claims| && s.claims[c].mint.Some?
    ensures QuietStep(s, CompensateStep(s, c, at, ending))
  {
    AppendQuiet(s.db.log, RefundRows(s.claims[c].res.items, at));
  }

  lemma OtherClaimStepQuiet(s: Sys, c: nat, a: ClaimAction)
    requires ClaimEnabled(s, c, a) && !a.RollBackClaim? && !a.CompensateClaim?
    ensures ClaimActionStep(s, c, a).db.log == s.db.log && ClaimActionStep(s, c, a).db.ledgers == s.db.ledgers
    ensures ClaimActionStep(s, c, a).configs == s.configs
  {
  }

  lemma ClaimStepQuiet(s: Sys, c: nat, a: ClaimAction)
    requires Inv(s) && ClaimEnabled(s, c, a)
    ensures QuietStep(s, ClaimActionStep(s, c, a))
  {
    match a
    case RollBackClaim(ending) => RollBackQuiet(s, c, ending);
    case CompensateClaim(at, ending) => CompensateQuiet(s, c, at, ending);
    case _ => OtherClaimStepQuiet(s, c, a);
  }

  predicate Quiet(e: Event) {
    !(e.OnPoints? && (e.points.CreditPoints? || e.points.AirdropPoints?))
  }

  lemma StartClaimQuiet(s: Sys, user: nat, amount: int, rows: seq<Fetched>, wallet: Option<string>, at: int,
          ending: Ending)
    ensures QuietStep(s, StartClaimStep(s, user, amount, rows, wallet, at, ending))
  {
    var r := Reserve(s.db, user, amount, rows, wallet, at);
    if r.Ok? {
      AppendQuiet(s.db.log, DebitRows(r.value.items, at, r.value.claim));
    }
  }

  lemma DeductQuiet(s: Sys, user: nat, channel: string, at: int, amount: int, ending: Ending)
    ensures QuietStep(s, s.(db := Written(s.db, Deduct(s.db, user, channel, at, amount), ending)))
  {
  }

  lemma OtherStepQuiet(s: Sys, e: Event)
    requires Inv(s) && Enabled(s, e) && Quiet(e)
    ensures QuietStep(s, Step(s, e))
  {
    match e
    case OnPoints(DeductPoints(user, channel, at, amount, ending)) => DeductQuiet(s, user, channel, at, amount, ending);
    case OnPoints(StartClaim(user, amount, rows, wallet, at, ending)) => StartClaimQuiet(s, user, amount, rows, wallet,
        at, ending);
    case OnClaim(c, a) => ClaimStepQuiet(s, c, a);
    case OnSpend(q, a) => SpendStepKeepsPoints(s, q, a);
    case _ =>
  }

  // ---------- the daily cap ----------

  lemma PlainKeepsDayTotal(a: Db, b: Db, channel: string, day: int)
    requires LogOnLedgers(a) && LedgersGrow(a.ledgers, b.ledgers)
    requires |a.log| <= |b.log|
    requires forall i :: 0 <= i < |a.log| ==> b.log[i] == a.log[i] || (Plain(a.log[i]) && b.log[i].None?)
    requires forall i :: |a.log| <= i < |b.log| && b.log[i].Some? ==> b.log[i].value.source != Source.Airdrop
    ensures DayTotal(b, channel, day) == DayTotal(a, channel, day)
  {
    SumGrows(|a.log|, |b.log|, AirdropAt(a, channel, day), AirdropAt(b, channel, day));
  }

  ghost predicate WithinCap(s: Sys) {
    forall channel, day :: WithinConfigured(s.configs, channel, DayTotal(s.db, channel, day))
  }

  lemma AirdropWithinCap(s: Sys, a: PointsAction)
    requires Inv(s) && PointsEnabled(s, a) && a.AirdropPoints? && WithinCap(s)
    ensures WithinCap(PointsStep(s, a)) && PointsStep(s, a).configs == s.configs
  {
    var t := PointsStep(s, a);
    if t.db != s.db {
      AttemptWithinLimit(s.db, s.configs, a.channel, a.at, a.viewers, a.amount);
      forall channel, day
        ensures WithinConfigured(s.configs, channel, DayTotal(t.db, channel, day))
      {
        if channel != a.channel || day != Day(a.at) {
          assert DayTotal(t.db, channel, day) == DayTotal(s.db, channel, day);
        }
      }
    }
  }

  lemma StepWithinCap(s: Sys, e: Event)
    requires Inv(s) && Enabled(s, e) && WithinCap(s)
    ensures WithinCap(Step(s, e)) && Step(s, e).configs == s.configs
  {
    if e.OnPoints? && e.points.AirdropPoints? {
      AirdropWithinCap(s, e.points);
    } else {
      var t := Step(s, e);
      if Quiet(e) {
        OtherStepQuiet(s, e);
      }
      forall channel, day
        ensures WithinConfigured(t.configs, channel, DayTotal(t.db, channel, day))
      {
        PlainKeepsDayTotal(s.db, t.db, channel, day);
      }
    }
  }

  /** Main result: with the channels' limits fixed, the airdrop deltas recorded for a channel on one
      UTC day never exceed its configured limit, or 5000 without a positive one, whatever else happens and
      whichever attempts fail. */
  lemma {:induction false} DailyCap(configs: map<string, int>, run: seq<Event>)
    requires Allowed(Start(configs), run)
    ensures WithinCap(Exec(Start(configs), run)) && Exec(Start(configs), run).configs == configs
    ensures var db := Exec(Start(configs), run).db;
            && (forall channel, day :: channel in configs && configs[channel] > 0 ==>
                DayTotal(db, channel, day) <= configs[channel])
            && (forall channel, day :: channel !in configs || configs[channel] <= 0 ==>
                DayTotal(db, channel, day) <= 5000)
  {
    if run == [] {
      forall channel: string, day: int
        ensures DayTotal(Start(configs).db, channel, day) == 0
      {
        SumNone(0, AirdropAt(Start(configs).db, channel, day));
      }
    } else {
      DailyCap(configs, run[..|run| - 1]);
      RunKeeps(configs, run[..|run| - 1]);
      StepWithinCap(Exec(Start(configs), run[..|run| - 1]), run[|run| - 1]);
    }
  }

  /** The log row credits the recipient's ledger of the channel with the points. */
  predicate RowCredits(db: Db, row: Option<PointsTx>, channel: string, at: int, r: Recipient) {
    && row.Some? && row.value.source == Source.Airdrop && row.value.delta == r.points && row.value.at == at
    && row.value.ledger < |db.ledgers|
    && db.ledgers[row.value.ledger].user == r.user && db.ledgers[row.value.ledger].channel == channel
  }

  lemma AddRowCredits(db: Db, channel: string, at: int, r: Recipient)
    ensures var after := AddRow(db, r.user, channel, at, Source.Airdrop, r.points, None);
            && |after.log| == |db.log| + 1 && after.log[..|db.log|] == db.log && LedgersGrow(db.ledgers, after.ledgers)
            && RowCredits(after, after.log[|db.log|], channel, at, r)
  {
  }

  /** The rows appended to the log credit exactly the recipients, in order. */
  predicate Appended(a: Db, b: Db, channel: string, at: int, recipients: seq<Recipient>) {
    && |b.log| == |a.log| + |recipients| && b.log[..|a.log|] == a.log && LedgersGrow(a.ledgers, b.ledgers)
    && forall k :: 0 <= k < |recipients| ==> RowCredits(b, b.log[|a.log| + k], channel, at, recipients[k])
  }

  lemma AppendedSnoc(a: Db, b: Db, c: Db, channel: string, at: int, recipients: seq<Recipient>, r: Recipient)
    requires Appended(a, b, channel, at, recipients)
    requires |c.log| == |b.log| + 1 && c.log[..|b.log|] == b.log && LedgersGrow(b.ledgers, c.ledgers)
    requires RowCredits(c, c.log[|b.log|], channel, at, r)
    ensures Appended(a, c, channel, at, recipients + [r])
  {
    assert c.log[..|a.log|] == c.log[..|b.log|][..|a.log|];
    forall k | 0 <= k < |recipients|
      ensures RowCredits(c, c.log[|a.log| + k], channel, at, recipients[k])
    {
      assert c.log[|a.log| + k] == c.log[..|b.log|][|a.log| + k];
    }
  }

  /** The log rows an attempt appends are exactly its distribution, in order. */
  lemma {:induction false} RowsAreDistribution(db: Db, channel: string, at: int, recipients: seq<Recipient>)
    ensures Appended(db, CreditAll(db, channel, at, recipients), channel, at, recipients)
  {
    if recipients == [] {
    } else {
      var init, r := recipients[..|recipients| - 1], recipients[|recipients| - 1];
      RowsAreDistribution(db, channel, at, init);
      AddRowCredits(CreditAll(db, channel, at, init), channel, at, r);
      AppendedSnoc(db, CreditAll(db, channel, at, init), CreditAll(db, channel, at, recipients), channel, at, init, r);
      assert recipients == init + [r];
    }
  }

  // ---------- external credits ----------

  /** Does this step credit the external transaction id? */
  function ExternalStep(s: Sys, e: Event, id: string): int
    requires Enabled(s, e)
  {
    if e.OnPoints? && e.points.CreditPoints? && e.points.meta.externalId == Some(id) && Step(s, e).db != s.db then 1
        else 0
  }

  function ExternalCount(s: Sys, run: seq<Event>, id: string): int
    requires Allowed(s, run)
  {
    if run == [] then 0
    else ExternalCount(s, run[..|run| - 1], id) + ExternalStep(Exec(s, run[..|run| - 1]), run[|run| - 1], id)
  }

  function ExternalAt(log: seq<Option<PointsTx>>, id: string): int -> int {
    i => if 0 <= i < |log| && log[i].Some? && log[i].value.externalId == Some(id) then 1 else 0
  }

  /** The number of log rows carrying the id. */
  function ExternalRows(log: seq<Option<PointsTx>>, id: string): int {
    SumTo(|log|, ExternalAt(log, id))
  }

  lemma PlainKeepsExternal(a: seq<Option<PointsTx>>, b: seq<Option<PointsTx>>, id: string)
    requires PlainChange(a, b)
    ensures ExternalRows(b, id) == ExternalRows(a, id)
  {
    SumGrows(|a|, |b|, ExternalAt(a, id), ExternalAt(b, id));
  }

  lemma ExternalSnoc(log: seq<Option<PointsTx>>, x: PointsTx, id: string)
    ensures ExternalRows(log + [Some(x)], id) == ExternalRows(log, id) + if x.externalId == Some(id) then 1 else 0
  {
    SumSame(|log|, ExternalAt(log, id), ExternalAt(log + [Some(x)], id));
  }

  lemma {:induction false} AirdropKeepsExternal(db: Db, channel: string, at: int, recipients: seq<Recipient>,
          id: string)
    ensures ExternalRows(CreditAll(db, channel, at, recipients).log, id) == ExternalRows(db.log, id)
  {
    if recipients == [] {
    } else {
      var before, r := CreditAll(db, channel, at, recipients[..|recipients| - 1]), recipients[|recipients| - 1];
      AirdropKeepsExternal(db, channel, at, recipients[..|recipients| - 1], id);
      var l := FindLedger(before.ledgers, r.user, channel);
      ExternalSnoc(before.log, PointsTx(l, Source.Airdrop, r.points, at, None, None), id);
    }
  }

  lemma CreditExternal(s: Sys, a: PointsAction, id: string)
    requires PointsEnabled(s, a) && a.CreditPoints?
    ensures var credited := ExternalStep(s, OnPoints(a), id);
            && ExternalRows(PointsStep(s, a).db.log, id) == ExternalRows(s.db.log, id) + credited
            && (credited == 1 ==> ExternalRows(s.db.log, id) == 0)
            && (credited == 1 ==>
                PointsStep(s, a).db.history == s.db.history
                + [Movement(FindLedger(s.db.ledgers, a.user, a.channel), a.amount)])
  {
    var t := PointsStep(s, a);
    if t.db != s.db {
      var l := FindLedger(s.db.ledgers, a.user, a.channel);
      ExternalSnoc(s.db.log, PointsTx(l, a.source, a.amount, a.at, a.meta.externalId, None), id);
      if a.meta.externalId == Some(id) {
        SumNone(|s.db.log|, ExternalAt(s.db.log, id));
      }
      assert |t.db.log| == |s.db.log| + 1;
    }
  }

  lemma StepExternal(s: Sys, e: Event, id: string)
    requires Inv(s) && Enabled(s, e)
    ensures ExternalRows(Step(s, e).db.log, id) == ExternalRows(s.db.log, id) + ExternalStep(s, e, id)
    ensures ExternalStep(s, e, id) == 1 ==> ExternalRows(s.db.log, id) == 0
  {
    if Quiet(e) {
      OtherStepQuiet(s, e);
      PlainKeepsExternal(s.db.log, Step(s, e).db.log, id);
    } else if e.points.CreditPoints? {
      CreditExternal(s, e.points, id);
    } else {
      var a := e.points;
      AirdropKeepsExternal(s.db, a.channel, a.at, Distribution(Airdrop.Distribute(a.viewers, a.amount)), id);
    }
  }

  /** Main result: over any sequence of retries and concurrent completions, an external transaction
      id is credited exactly as often as it appears in the log, and that is at most once. */
  lemma {:induction false} ExternalCreditedOnce(configs: map<string, int>, run: seq<Event>, id: string)
    requires Allowed(Start(configs), run)
    ensures ExternalCount(Start(configs), run, id) == ExternalRows(Exec(Start(configs), run).db.log, id)
    ensures 0 <= ExternalCount(Start(configs), run, id) <= 1
  {
    if run == [] {
    } else {
      var init, e := run[..|run| - 1], run[|run| - 1];
      ExternalCreditedOnce(configs, init, id);
      RunKeeps(configs, init);
      StepExternal(Exec(Start(configs), init), e, id);
    }
  }
}
