/** Which claims a recovery job may retry: exactly those that it has read as neither pending nor broadcast. */
module Recovery {
  import opened Sums
  import opened Store
  import opened Points
  import opened Claims
  import opened Machine
  import opened Invariant
  import opened Preserve
  import opened Runs
  import opened Settlement

  /** The two transactions that a job may retry, with the hash it names. */
  datatype Retry =
    | RetryFinalize(hash: Option<nat>, ending: Ending)
    | RetryFinalizeMark(hash: Option<nat>, ending: Ending)

  function ActionOf(retry: Retry): ClaimAction {
    match retry
    case RetryFinalize(hash, ending) => Recover(hash, ending)
    case RetryFinalizeMark(hash, ending) => RetryMark(hash, ending)
  }

  /** The retry, whatever the row's status. */
  function RetryStep(s: Sys, c: nat, retry: Retry): Sys
    requires c < |s.claims|
  {
    match retry
    case RetryFinalize(hash, ending) => RecoverStep(s, c, hash, ending)
    case RetryFinalizeMark(hash, ending) => RetryMarkStep(s, c, hash, ending)
  }

  /** Credits and refunds of claim c over a run. */
  function Settlements(s: Sys, run: seq<Event>, c: nat): int
    requires Allowed(s, run)
  {
    CreditCount(s, run, c) + RefundCount(s, run, c)
  }

  /** What the job reads; None when the row is deleted. */
  function StatusRead(db: Db, c: nat): Option<Status>
    requires c < |db.claims|
  {
    if db.claims[c].Some? then Some(db.claims[c].value.status) else None
  }

  /** Does the retry write a balance? */
  function RetryCredit(s: Sys, c: nat, retry: Retry): int
    requires c < |s.claims|
  {
    if RetryStep(s, c, retry).db.balances != s.db.balances then 1 else 0
  }

  /** A run after which the job reads claim c, what happens until it calls, the call, and any further run. */
  datatype History = History(configs: map<string, int>, run: seq<Event>, mid: seq<Event>, c: nat, retry: Retry,
                             more: seq<Event>)

  predicate ReadsIn(h: History) {
    && Allowed(Start(h.configs), h.run)
    && h.c < |Exec(Start(h.configs), h.run).claims| && h.c < |Exec(Start(h.configs), h.run).db.claims|
  }

  function AtRead(h: History): Sys
    requires ReadsIn(h)
  {
    Exec(Start(h.configs), h.run)
  }

  predicate CallsIn(h: History) {
    ReadsIn(h) && Allowed(AtRead(h), h.mid) && h.c < |Exec(AtRead(h), h.mid).claims|
  }

  function AtCall(h: History): Sys
    requires CallsIn(h)
  {
    Exec(AtRead(h), h.mid)
  }

  predicate Possible(h: History) {
    CallsIn(h) && Allowed(RetryStep(AtCall(h), h.c, h.retry), h.more)
  }

  function SettlementsIn(h: History): int
    requires Possible(h)
  {
    Settlements(Start(h.configs), h.run, h.c) + Settlements(AtRead(h), h.mid, h.c)
    + RetryCredit(AtCall(h), h.c, h.retry)
    + Settlements(RetryStep(AtCall(h), h.c, h.retry), h.more, h.c)
  }

  /** Retrying a claim that the job has read with this status never makes it settle twice. */
  ghost predicate SafeToRetry(mark: bool, status: Option<Status>) {
    forall h: History ::
      Possible(h) && h.retry.RetryFinalizeMark? == mark && StatusRead(AtRead(h).db, h.c) == status ==>
        SettlementsIn(h) <= 1
  }

  // ---------- every other status is safe ----------

  lemma {:induction false} SettlementsJoin(s: Sys, first: seq<Event>, t: Sys, rest: seq<Event>, c: nat)
    requires Allowed(s, first) && Exec(s, first) == t && Allowed(t, rest) && Allowed(s, first + rest)
    ensures Settlements(s, first + rest, c) == Settlements(s, first, c) + Settlements(t, rest, c)
  {
    if rest == [] {
      assert first + rest == first;
    } else {
      var init := rest[..|rest| - 1];
      assert (first + rest)[..|first + rest| - 1] == first + init;
      RunsJoin(s, first, t, init, Exec(t, init));
      SettlementsJoin(s, first, t, init, c);
    }
  }

  lemma RetryIsAStep(s: Sys, c: nat, retry: Retry)
    requires Inv(s) && c < |s.claims| && StatusRead(s.db, c) != Some(Broadcast)
    ensures var e := OnClaim(c, ActionOf(retry));
            && Enabled(s, e) && Step(s, e) == RetryStep(s, c, retry)
            && Allowed(s, [e]) && Exec(s, [e]) == Step(s, e) && Settlements(s, [e], c) == RetryCredit(s, c, retry)
  {
    var e := OnClaim(c, ActionOf(retry));
    assert Step(s, e) == RetryStep(s, c, retry);
    SettlementOf(s, e, c);
  }

  lemma SettlementOf(s: Sys, e: Event, c: nat)
    requires Enabled(s, e)
    ensures Allowed(s, [e]) && Exec(s, [e]) == Step(s, e)
    ensures Settlements(s, [e], c) == CreditStep(s, e, c) + RefundStep(s, e, c)
  {
    OneMore(s, [], s, e, Step(s, e));
    assert [] + [e] == [e] && [e][..0] == [];
    assert CreditCount(s, [], c) == 0 && RefundCount(s, [], c) == 0;
  }

  /** Once read as neither pending nor broadcast, a claim is never broadcast again. */
  lemma NeverBroadcastAgain(h: History)
    requires CallsIn(h)
    requires StatusRead(AtRead(h).db, h.c) != Some(Pending) && StatusRead(AtRead(h).db, h.c) != Some(Broadcast)
    ensures Allowed(Start(h.configs), h.run + h.mid) && Exec(Start(h.configs), h.run + h.mid) == AtCall(h)
    ensures h.c < |AtCall(h).db.claims| && StatusRead(AtCall(h).db, h.c) != Some(Broadcast)
  {
    RunsJoin(Start(h.configs), h.run, AtRead(h), h.mid, AtCall(h));
    assert (h.run + h.mid)[..|h.run|] == h.run;
    RunLifecycle(h.configs, h.run + h.mid, |h.run|, h.c);
  }

  lemma OtherStatusSafe(h: History)
    requires Possible(h)
    requires StatusRead(AtRead(h).db, h.c) != Some(Pending) && StatusRead(AtRead(h).db, h.c) != Some(Broadcast)
    ensures SettlementsIn(h) <= 1
  {
    var start, first, s, e := Start(h.configs), h.run + h.mid, AtCall(h), OnClaim(h.c, ActionOf(h.retry));
    var t := RetryStep(s, h.c, h.retry);
    NeverBroadcastAgain(h);
    SettlementsJoin(start, h.run, AtRead(h), h.mid, h.c);
    RunKeeps(h.configs, first);
    RetryIsAStep(s, h.c, h.retry);
    RunsJoin(start, first, s, [e], t);
    SettlementsJoin(start, first, s, [e], h.c);
    RunsJoin(start, first + [e], t, h.more, Exec(t, h.more));
    SettlementsJoin(start, first + [e], t, h.more, h.c);
    SettledExactlyOnce(h.configs, first + [e] + h.more, h.c);
  }

  // ---------- pending and broadcast are not ----------

  /** One user with 5 points. */
  function Funded(): Sys {
    Sys(Db([Ledger(0, "", 0, 5, 5)], [Some(PointsTx(0, Source.TPoint, 5, 0, None, None))], [], [None], [],
        [Movement(0, 5)]),
        [], [], [], map[])
  }

  function Funding(): seq<Event> {
    [Register, OnPoints(CreditPoints(0, "", 0, Source.TPoint, 5, CreditMeta(None, None), Commit))]
  }

  /** The user's claim of those points, with its call at the given point. */
  function Claiming(status: Status, mint: Option<nat>, pc: ClaimPc, chain: seq<ChainTx>,
          balances: seq<Option<int>>): Sys {
    var item := Item(0, 1, 5);
    var res := Reservation(0, "", 5, 0, [item]);
    Sys(Db([Ledger(0, "", 0, 0, 5)],
           [Some(PointsTx(0, Source.TPoint, 5, 0, None, None)), ItemRow(item, 0, false, Some(ItemRef(0, 0)))],
           [Some(ClaimRow(0, "", 5, status, if status == Pending then None else mint, [item]))],
           balances, [], [Movement(0, 5)]),
        [ClaimRun(res, mint, pc)], [], chain, map[])
  }

  function Minted(settlement: Machine.Settlement): seq<ChainTx> {
    [ChainTx(Mint(0, ""), ToRaw(5), settlement)]
  }

  /** The mint succeeded, but the call saw no receipt and is about to record that. */
  function Overtaken(): Sys {
    Claiming(Broadcast, Some(0), RecordingUnknown, Minted(Succeeded), [None])
  }

  lemma FundingLeads()
    ensures Allowed(Start(map[]), Funding()) && Exec(Start(map[]), Funding()) == Funded()
  {
    var registered := Sys(Db([], [], [], [None], [], []), [], [], [], map[]);
    OneMore(Start(map[]), [], Start(map[]), Funding()[0], registered);
    assert [] + [Funding()[0]] == [Funding()[0]];
    OneMore(Start(map[]), [Funding()[0]], registered, Funding()[1], Funded());
    assert [Funding()[0]] + [Funding()[1]] == Funding();
  }

  lemma FiveReserved()
    ensures FetchedFor(Funded().db.ledgers, 0, [Fetched(0, 5)])
    ensures Reserve(Funded().db, 0, 5, [Fetched(0, 5)], Some(""), 0) == Ok(Reservation(0, "", 5, 0, [Item(0, 1, 5)]))
  {
    var rows := [Fetched(0, 5)];
    assert rows[0].ledger == 0;
    assert FetchedUpTo(rows, 0) == 0;
    assert Greedy(rows, 0, 5, 1) == [] && ItemTotal([]) == 0;
    assert Greedy(rows, 1, 5, 1) == [Item(0, 1, 5)];
  }

  lemma FiveTaken()
    ensures Reserved(Funded().db, Reservation(0, "", 5, 0, [Item(0, 1, 5)]), 0)
         == Claiming(Pending, None, Broadcasting, [], [None]).db
  {
    var item := Item(0, 1, 5);
    assert ApplyFirst(Funded().db.ledgers, [item], 0, false) == Funded().db.ledgers;
    assert ApplyItems(Funded().db.ledgers, [item], false) == [Ledger(0, "", 0, 0, 5)];
    assert DebitRows([item], 0, 0) == [ItemRow(item, 0, false, Some(ItemRef(0, 0)))];
  }

  /** The user asks for the points. */
  function Requesting(): seq<Event> {
    Funding() + [OnPoints(StartClaim(0, 5, [Fetched(0, 5)], Some(""), 0, Commit))]
  }

  function Requested(): Sys {
    Claiming(Pending, None, Broadcasting, [], [None])
  }

  lemma RequestingLeads()
    ensures Allowed(Start(map[]), Requesting()) && Exec(Start(map[]), Requesting()) == Requested()
  {
    FundingLeads();
    FiveReserved();
    FiveTaken();
    OneMore(Start(map[]), Funding(), Funded(), OnPoints(StartClaim(0, 5, [Fetched(0, 5)], Some(""), 0, Commit)),
            Requested());
  }

  /** The claim is broadcast, its receipt does not come in time, and the mint succeeds. */
  function Overtaking(): seq<Event> {
    [OnClaim(0, BroadcastSent)] + [OnClaim(0, RecordBroadcast(Commit))] + [OnClaim(0, ReceiptArrives(Unknown))]
    + [Mine(0, true)]
  }

  function Sent(): Sys {
    Claiming(Pending, Some(0), RecordingBroadcast, Minted(Unmined), [None])
  }

  function Awaiting(pc: ClaimPc): Sys {
    Claiming(Broadcast, Some(0), pc, Minted(Unmined), [None])
  }

  lemma BroadcastLeads()
    ensures var e, f := OnClaim(0, BroadcastSent), OnClaim(0, RecordBroadcast(Commit));
            && Enabled(Requested(), e) && Step(Requested(), e) == Sent()
            && Enabled(Sent(), f) && Step(Sent(), f) == Awaiting(AwaitingReceipt)
  {
  }

  lemma SilenceLeads()
    ensures var e, f := OnClaim(0, ReceiptArrives(Unknown)), Mine(0, true);
            && Enabled(Awaiting(AwaitingReceipt), e)
            && Step(Awaiting(AwaitingReceipt), e) == Awaiting(RecordingUnknown)
            && Enabled(Awaiting(RecordingUnknown), f) && Step(Awaiting(RecordingUnknown), f) == Overtaken()
  {
  }

  lemma OvertakingLeads()
    ensures Allowed(Requested(), Overtaking()) && Exec(Requested(), Overtaking()) == Overtaken()
  {
    var run1 := [OnClaim(0, BroadcastSent)];
    var run2 := run1 + [OnClaim(0, RecordBroadcast(Commit))];
    var run3 := run2 + [OnClaim(0, ReceiptArrives(Unknown))];
    BroadcastLeads();
    SilenceLeads();
    assert [] + run1 == run1;
    OneMore(Requested(), [], Requested(), OnClaim(0, BroadcastSent), Sent());
    OneMore(Requested(), run1, Sent(), OnClaim(0, RecordBroadcast(Commit)), Awaiting(AwaitingReceipt));
    OneMore(Requested(), run2, Awaiting(AwaitingReceipt), OnClaim(0, ReceiptArrives(Unknown)),
            Awaiting(RecordingUnknown));
    OneMore(Requested(), run3, Awaiting(RecordingUnknown), Mine(0, true), Overtaken());
  }

  /** A retry of finalizeClaim has confirmed the claim. */
  function Hasty(): Sys {
    Claiming(Confirmed, Some(0), RecordingUnknown, Minted(Succeeded), [Some(5)])
  }

  /** A retry of markFinalizeFailedClaim has opened the claim for finalizeClaim. */
  function HastilyMarked(): Sys {
    Claiming(FinalizeFailed, Some(0), RecordingUnknown, Minted(Succeeded), [None])
  }

  lemma RetryGoesThrough()
    ensures RetryStep(Overtaken(), 0, RetryFinalize(Some(0), Commit)) == Hasty()
    ensures RetryCredit(Overtaken(), 0, RetryFinalize(Some(0), Commit)) == 1
    ensures RetryStep(Overtaken(), 0, RetryFinalizeMark(Some(0), Commit)) == HastilyMarked()
    ensures RetryCredit(Overtaken(), 0, RetryFinalizeMark(Some(0), Commit)) == 0
  {
    assert Overtaken().db.balances[0] != Hasty().db.balances[0];
  }

  lemma MarkedIsConfirmed()
    ensures var e := OnClaim(0, Recover(Some(0), Commit));
            && Enabled(HastilyMarked(), e) && Step(HastilyMarked(), e) == Hasty()
            && CreditStep(HastilyMarked(), e, 0) == 1
  {
    assert HastilyMarked().db.balances[0] != Hasty().db.balances[0];
  }

  /** The call's record of the unknown receipt reopens the claim; then the job may confirm it again. */
  function Reopening(): seq<Event> {
    [OnClaim(0, RecordUnknownReceipt(Commit))] + [OnClaim(0, Recover(Some(0), Commit))]
  }

  /** The claim with its call returned. */
  function Reported(status: Status, balance: int): Sys {
    Claiming(status, Some(0), ReturnedError, Minted(Succeeded), [Some(balance)])
  }

  lemma UnknownReopens()
    ensures var e := OnClaim(0, RecordUnknownReceipt(Commit));
            Enabled(Hasty(), e) && Step(Hasty(), e) == Reported(Broadcast, 5)
  {
  }

  lemma RetryCredits()
    ensures var e := OnClaim(0, Recover(Some(0), Commit));
            && Enabled(Reported(Broadcast, 5), e) && Step(Reported(Broadcast, 5), e) == Reported(Confirmed, 10)
            && CreditStep(Reported(Broadcast, 5), e, 0) == 1
  {
    assert Reported(Broadcast, 5).db.balances[0] != Reported(Confirmed, 10).db.balances[0];
  }

  lemma ReopeningCredits()
    ensures Allowed(Hasty(), Reopening()) && Settlements(Hasty(), Reopening(), 0) >= 1
  {
    var first, second := OnClaim(0, RecordUnknownReceipt(Commit)), OnClaim(0, Recover(Some(0), Commit));
    UnknownReopens();
    RetryCredits();
    SettlementOf(Hasty(), first, 0);
    SettlementOf(Reported(Broadcast, 5), second, 0);
    RunsJoin(Hasty(), [first], Reported(Broadcast, 5), [second], Reported(Confirmed, 10));
    SettlementsJoin(Hasty(), [first], Reported(Broadcast, 5), [second], 0);
  }

  /** What follows the retry. */
  function Aftermath(mark: bool): seq<Event> {
    if mark then [OnClaim(0, Recover(Some(0), Commit))] + Reopening() else Reopening()
  }

  function HastyRetry(mark: bool): Retry {
    if mark then RetryFinalizeMark(Some(0), Commit) else RetryFinalize(Some(0), Commit)
  }

  lemma AftermathCredits(mark: bool)
    ensures var t := RetryStep(Overtaken(), 0, HastyRetry(mark));
            && Allowed(t, Aftermath(mark))
            && RetryCredit(Overtaken(), 0, HastyRetry(mark)) + Settlements(t, Aftermath(mark), 0) >= 2
  {
    var e := OnClaim(0, Recover(Some(0), Commit));
    RetryGoesThrough();
    ReopeningCredits();
    if mark {
      MarkedIsConfirmed();
      SettlementOf(HastilyMarked(), e, 0);
      RunsJoin(HastilyMarked(), [e], Hasty(), Reopening(), Exec(Hasty(), Reopening()));
      SettlementsJoin(HastilyMarked(), [e], Hasty(), Reopening(), 0);
    }
  }

  lemma {:induction false} SettlementsNotNegative(s: Sys, run: seq<Event>, c: nat)
    requires Allowed(s, run)
    ensures Settlements(s, run, c) >= 0
  {
    if run == [] {
    } else {
      SettlementsNotNegative(s, run[..|run| - 1], c);
    }
  }

  /** The parts of a history, put together. */
  lemma HistoryOf(h: History, read: Sys, call: Sys, after: Sys)
    requires Allowed(Start(h.configs), h.run) && Exec(Start(h.configs), h.run) == read
    requires Allowed(read, h.mid) && Exec(read, h.mid) == call
    requires h.c < |read.claims| && h.c < |read.db.claims| && h.c < |call.claims|
    requires RetryStep(call, h.c, h.retry) == after && Allowed(after, h.more)
    ensures Possible(h) && AtRead(h) == read
    ensures SettlementsIn(h) >= RetryCredit(call, h.c, h.retry) + Settlements(after, h.more, h.c)
  {
    SettlementsNotNegative(Start(h.configs), h.run, h.c);
    SettlementsNotNegative(read, h.mid, h.c);
  }

  lemma Refutes(h: History)
    requires Possible(h) && SettlementsIn(h) >= 2
    ensures !SafeToRetry(h.retry.RetryFinalizeMark?, StatusRead(AtRead(h).db, h.c))
  {
  }

  lemma PendingUnsafe(mark: bool)
    ensures !SafeToRetry(mark, Some(Pending))
  {
    var h := History(map[], Requesting(), Overtaking(), 0, HastyRetry(mark), Aftermath(mark));
    RequestingLeads();
    OvertakingLeads();
    AftermathCredits(mark);
    HistoryOf(h, Requested(), Overtaken(), RetryStep(Overtaken(), 0, HastyRetry(mark)));
    Refutes(h);
  }

  lemma OvertakingFromStart() returns (run: seq<Event>)
    ensures Allowed(Start(map[]), run) && Exec(Start(map[]), run) == Overtaken()
  {
    run := Requesting() + Overtaking();
    RequestingLeads();
    OvertakingLeads();
    RunsJoin(Start(map[]), Requesting(), Requested(), Overtaking(), Overtaken());
  }

  /** The job calls at once. */
  lemma AtOnceUnsafe(run: seq<Event>, call: Sys, retry: Retry, after: Sys, more: seq<Event>)
    requires Allowed(Start(map[]), run) && Exec(Start(map[]), run) == call
    requires |call.claims| > 0 && |call.db.claims| > 0 && StatusRead(call.db, 0) == Some(Broadcast)
    requires RetryStep(call, 0, retry) == after && Allowed(after, more)
    requires RetryCredit(call, 0, retry) + Settlements(after, more, 0) >= 2
    ensures !SafeToRetry(retry.RetryFinalizeMark?, Some(Broadcast))
  {
    var h := History(map[], run, [], 0, retry, more);
    assert Allowed(call, []) && Exec(call, []) == call;
    HistoryOf(h, call, call, after);
    Refutes(h);
  }

  lemma BroadcastUnsafe(mark: bool)
    ensures !SafeToRetry(mark, Some(Broadcast))
  {
    var run := OvertakingFromStart();
    AftermathCredits(mark);
    AtOnceUnsafe(run, Overtaken(), HastyRetry(mark), RetryStep(Overtaken(), 0, HastyRetry(mark)), Aftermath(mark));
  }

  /** Main result: a recovery job may retry finalizeClaim or markFinalizeFailedClaim on a claim that it
      has read before if and only if the status it read is neither pending nor broadcast. A broadcast
      claim may still be open in its own call, whose unguarded write of an unknown receipt reopens what
      the retry has settled, and the next retry credits it a second time; a pending one may be broadcast
      by the time of the call. */
  lemma RecoveryCondition(mark: bool, status: Option<Status>)
    ensures SafeToRetry(mark, status) <==> status != Some(Pending) && status != Some(Broadcast)
  {
    PendingUnsafe(mark);
    BroadcastUnsafe(mark);
    if status != Some(Pending) && status != Some(Broadcast) {
      forall h: History | Possible(h) && h.retry.RetryFinalizeMark? == mark && StatusRead(AtRead(h).db, h.c) == status
        ensures SettlementsIn(h) <= 1
      {
        OtherStatusSafe(h);
      }
    }
  }
}
