/** Runs of wallet and token requests from any state: what other requests leave alone, when a link is refused,
    and that a request which uses a nonce or token is the only one. */
module WalletRuns {
  import opened Store
  import opened Wallet

  predicate Ran(a: Auth, run: seq<Event>, b: Auth) {
    Allowed(a, run) && Exec(a, run) == b
  }

  // ---------- runs put together ----------

  lemma OneMore(a: Auth, run: seq<Event>, b: Auth, e: Event)
    requires Ran(a, run, b) && Enabled(b, e)
    ensures Ran(a, run + [e], Step(b, e))
    ensures forall secret :: UseCount(a, run + [e], secret) == UseCount(a, run, secret) + Uses(b, e, secret)
  {
    assert (run + [e])[..|run|] == run;
  }

  lemma OneStep(a: Auth, e: Event)
    requires Enabled(a, e)
    ensures Ran(a, [e], Step(a, e))
    ensures forall secret :: UseCount(a, [e], secret) == Uses(a, e, secret)
  {
    var run := [e];
    assert run[..|run| - 1] == [];
    assert Ran(a, [], a);
  }

  lemma {:induction false} RunsJoin(a: Auth, first: seq<Event>, b: Auth, rest: seq<Event>, c: Auth)
    requires Ran(a, first, b) && Ran(b, rest, c)
    ensures Ran(a, first + rest, c)
    ensures forall secret ::
              UseCount(a, first + rest, secret) == UseCount(a, first, secret) + UseCount(b, rest, secret)
  {
    if rest == [] {
      assert first + rest == first;
    } else {
      var init, e := rest[..|rest| - 1], rest[|rest| - 1];
      RunsJoin(a, first, b, init, Exec(b, init));
      OneMore(a, first + init, Exec(b, init), e);
      assert first + rest == first + init + [e];
    }
  }

  lemma {:induction false} UsesNotNegative(a: Auth, run: seq<Event>, secret: nat)
    requires Allowed(a, run)
    ensures UseCount(a, run, secret) >= 0
  {
    if run == [] {
    } else {
      UsesNotNegative(a, run[..|run| - 1], secret);
    }
  }

  /** Main result: a request whose steps use a nonce or token uses it once, and nothing else ever does,
      before, meanwhile or later. */
  lemma OnlyUse(before: seq<Event>, a: Auth, run: seq<Event>, b: Auth, later: seq<Event>, secret: nat)
    requires Ran(Start(), before, a) && Ran(a, run, b) && Allowed(b, later) && UseCount(a, run, secret) >= 1
    ensures UseCount(Start(), before, secret) == 0 && UseCount(a, run, secret) == 1 && UseCount(b, later, secret) == 0
  {
    RunsJoin(Start(), before, a, run, b);
    RunsJoin(Start(), before + run, b, later, Exec(b, later));
    UsedOnce(before + run + later, secret);
    UsesNotNegative(Start(), before, secret);
    UsesNotNegative(b, later, secret);
  }

  // ---------- moments of a run ----------

  type Condition = Auth -> bool

  /** The condition holds in some state of the run. */
  predicate SomeMoment(a: Auth, run: seq<Event>, p: Condition) {
    exists i :: 0 <= i <= |run| && Allowed(a, run[..i]) && p(Exec(a, run[..i]))
  }

  lemma MomentAt(a: Auth, first: seq<Event>, b: Auth, rest: seq<Event>, p: Condition)
    requires Ran(a, first, b) && p(b)
    ensures SomeMoment(a, first + rest, p)
  {
    assert (first + rest)[..|first|] == first;
  }

  lemma OneMoreAt(a: Auth, run: seq<Event>, b: Auth, e: Event, p: Condition)
    requires Ran(a, run, b) && Enabled(b, e) && p(b)
    ensures Ran(a, run + [e], Step(b, e)) && SomeMoment(a, run + [e], p)
  {
    OneMore(a, run, b, e);
    MomentAt(a, run, b, [e], p);
  }

  lemma MomentLater(a: Auth, before: seq<Event>, b: Auth, run: seq<Event>, p: Condition)
    requires Ran(a, before, b) && SomeMoment(b, run, p)
    ensures SomeMoment(a, before + run, p)
  {
    var i :| 0 <= i <= |run| && Allowed(b, run[..i]) && p(Exec(b, run[..i]));
    RunsJoin(a, before, b, run[..i], Exec(b, run[..i]));
    assert (before + run)[..|before| + i] == before + run[..i];
  }

  function NonceGone(nonce: nat): Condition {
    (a: Auth) => nonce !in a.nonces
  }

  function NonceHeld(nonce: nat): Condition {
    (a: Auth) => nonce in a.held
  }

  function TokenGone(token: nat): Condition {
    (a: Auth) => token !in a.tokens
  }

  /** Another user has the address, or the user's link is refused by an index. */
  function AddressLost(user: nat, address: nat): Condition {
    (a: Auth) => LinkedElsewhere(a.providers, user, address) || LosesRace(a, user, address)
  }

  predicate LosesRace(a: Auth, user: nat, address: nat) {
    exists c :: 0 <= c < |a.calls| && a.calls[c].LinkCleared? && a.calls[c].user == user
                && a.calls[c].address == address && LinkRefused(a, c)
  }

  function Owned(user: nat, address: nat): Condition {
    (a: Auth) => Owns(a.providers, user, address)
  }

  predicate Owns(rows: seq<Provider>, user: nat, address: nat) {
    exists k :: 0 <= k < |rows| && rows[k].active && rows[k].user == user && rows[k].address == address
  }

  // ---------- steps of others ----------

  /** The step is not taken by the given request. */
  predicate Foreign(e: Event, me: nat) {
    match e
    case IssueNonce(c, _, _) => c != me
    case Rotate(c, _, _) => c != me
    case CountLink(c) => c != me
    case ClearLink(c) => c != me
    case WriteLink(c) => c != me
    case LookLogin(c) => c != me
    case WriteLogin(c, _, _) => c != me
    case GiveUp(c) => c != me
    case _ => true
  }

  predicate Issues(e: Event, secret: nat) {
    match e
    case NewToken(_, token, _) => token == secret
    case IssueNonce(_, nonce, _) => nonce == secret
    case Rotate(_, next, _) => next == secret
    case WriteLogin(_, token, _) => token == secret
    case _ => false
  }

  predicate ForeignRun(run: seq<Event>, me: nat) {
    forall i :: 0 <= i < |run| ==> Foreign(run[i], me)
  }

  predicate Spares(run: seq<Event>, secret: nat) {
    forall i :: 0 <= i < |run| ==> !Issues(run[i], secret)
  }

  /** Users and rows are only added; a row keeps its user and its address. */
  predicate RowsStay(a: Auth, b: Auth) {
    && a.users <= b.users && |a.calls| <= |b.calls| && |a.providers| <= |b.providers|
    && forall i :: 0 <= i < |a.providers| ==>
        b.providers[i].user == a.providers[i].user && b.providers[i].address == a.providers[i].address
  }

  lemma StepStays(a: Auth, e: Event)
    requires Enabled(a, e)
    ensures RowsStay(a, Step(a, e))
    ensures forall me: nat :: Foreign(e, me) && me < |a.calls| ==> Step(a, e).calls[me] == a.calls[me]
    ensures forall secret :: !Issues(e, secret) && secret !in a.used ==> secret !in Step(a, e).used
  {
  }

  lemma {:induction false} RunKeeps(a: Auth, run: seq<Event>)
    requires Allowed(a, run)
    ensures Sound(a) ==> Sound(Exec(a, run))
    ensures RowsStay(a, Exec(a, run))
  {
    if run == [] {
    } else {
      var init, e := run[..|run| - 1], run[|run| - 1];
      RunKeeps(a, init);
      StepStays(Exec(a, init), e);
      if Sound(a) {
        StepSound(Exec(a, init), e);
      }
    }
  }

  lemma {:induction false} OthersKeep(a: Auth, run: seq<Event>, me: nat)
    requires Allowed(a, run) && ForeignRun(run, me) && me < |a.calls|
    ensures me < |Exec(a, run).calls| && Exec(a, run).calls[me] == a.calls[me]
  {
    if run == [] {
    } else {
      var init := run[..|run| - 1];
      assert forall i :: 0 <= i < |init| ==> init[i] == run[i];
      OthersKeep(a, init, me);
      StepStays(Exec(a, init), run[|run| - 1]);
    }
  }

  lemma {:induction false} StaysUnused(a: Auth, run: seq<Event>, secret: nat)
    requires Allowed(a, run) && Spares(run, secret) && secret !in a.used
    ensures secret !in Exec(a, run).used
  {
    if run == [] {
    } else {
      var init := run[..|run| - 1];
      assert forall i :: 0 <= i < |init| ==> init[i] == run[i];
      StaysUnused(a, init, secret);
      StepStays(Exec(a, init), run[|run| - 1]);
    }
  }

  lemma Interleaved(a: Auth, run: seq<Event>, b: Auth, me: nat, mine: nat)
    requires Sound(a) && Ran(a, run, b) && ForeignRun(run, me) && Spares(run, mine) && me < |a.calls|
    ensures Sound(b) && RowsStay(a, b) && b.calls[me] == a.calls[me] && (mine !in a.used ==> mine !in b.used)
  {
    RunKeeps(a, run);
    OthersKeep(a, run, me);
    if mine !in a.used {
      StaysUnused(a, run, mine);
    }
  }

  /** The steps of a link from its delete on. */
  lemma LinkRun(a: Auth, first: seq<Event>, b: Auth, c: nat, rest: seq<Event>, w: Auth)
    requires Ran(a, first, b) && Enabled(b, ClearLink(c)) && Ran(ClearLinkStep(b, c), rest, w)
    requires Enabled(w, WriteLink(c)) && w.calls[c] == ClearLinkStep(b, c).calls[c]
    ensures var run := first + [ClearLink(c)] + rest + [WriteLink(c)];
            && Ran(a, run, WriteLinkStep(w, c))
            && (!LinkRefused(w, c) ==> UseCount(a, run, b.calls[c].nonce) >= 1)
            && (LinkRefused(w, c) ==> SomeMoment(a, run, AddressLost(b.calls[c].user, b.calls[c].address)))
  {
    OneMore(a, first, b, ClearLink(c));
    RunsJoin(a, first + [ClearLink(c)], ClearLinkStep(b, c), rest, w);
    OneMore(a, first + [ClearLink(c)] + rest, w, WriteLink(c));
    UsesNotNegative(a, first + [ClearLink(c)] + rest, b.calls[c].nonce);
    if LinkRefused(w, c) {
      assert LosesRace(w, w.calls[c].user, w.calls[c].address);
      MomentAt(a, first + [ClearLink(c)] + rest, w, [WriteLink(c)], AddressLost(b.calls[c].user, b.calls[c].address));
    }
  }

  // ---------- whom a login is for ----------

  /** The owner whom a login names is found by its look-up, or owns the address when the row is written. */
  lemma LoginOwnerOwns(looked: Auth, w: Auth, c: nat, token: nat, expires: int)
    requires Enabled(looked, LookLogin(c)) && LookLoginStep(looked, c).calls[c].LoginLooked?
    requires Enabled(w, WriteLogin(c, token, expires)) && w.calls[c] == LookLoginStep(looked, c).calls[c]
    ensures var owner, address := LoginOwner(w, c), w.calls[c].address;
            || Owns(LookLoginStep(looked, c).providers, owner, address)
            || Owns(WriteLoginStep(w, c, token, expires).providers, owner, address)
  {
    var call := w.calls[c];
    var k, l := ActiveOf(looked.providers, call.address), ActiveOf(w.providers, call.address);
    var rows := WriteLoginStep(w, c, token, expires).providers;
    if k < |looked.providers| {
      assert looked.providers[k].active;
    } else {
      assert rows[l].active && rows[l].user == LoginOwner(w, c) && rows[l].address == call.address;
    }
  }

  /** The steps of a login that commits. */
  lemma LoginRun(a: Auth, first: seq<Event>, looked: Auth, c: nat, rest: seq<Event>, before: Auth, token: nat,
          expires: int)
    requires Ran(a, first, looked) && Enabled(looked, LookLogin(c)) && Ran(LookLoginStep(looked, c), rest, before)
    requires Enabled(before, WriteLogin(c, token, expires)) && before.calls[c] == LookLoginStep(looked, c).calls[c]
    ensures var run, call := first + [LookLogin(c)] + rest + [WriteLogin(c, token, expires)], looked.calls[c];
            && Ran(a, run, WriteLoginStep(before, c, token, expires)) && UseCount(a, run, call.nonce) >= 1
            && SomeMoment(a, run, Owned(LoginOwner(before, c), call.address))
  {
    var found, last := LookLoginStep(looked, c), WriteLogin(c, token, expires);
    var begun, call := first + [LookLogin(c)], looked.calls[c];
    OneMore(a, first, looked, LookLogin(c));
    RunsJoin(a, begun, found, rest, before);
    OneMore(a, begun + rest, before, last);
    UsesNotNegative(a, begun + rest, call.nonce);
    LoginOwnerOwns(looked, before, c, token, expires);
    if Owns(found.providers, LoginOwner(before, c), call.address) {
      MomentAt(a, begun, found, rest + [last], Owned(LoginOwner(before, c), call.address));
      assert begun + (rest + [last]) == begun + rest + [last];
    } else {
      var run := begun + rest + [last];
      MomentAt(a, run, WriteLoginStep(before, c, token, expires), [], Owned(LoginOwner(before, c), call.address));
      assert run + [] == run;
    }
  }

  // ---------- when a link is refused ----------

  /** Row i has become active between the two states. */
  predicate Activated(a: Auth, b: Auth, i: nat) {
    i < |b.providers| && b.providers[i].active && (i < |a.providers| ==> !a.providers[i].active)
  }

  /** Since the count another user has taken the address, or since the delete another row has become the
      user's wallet. */
  predicate Overtaken(counted: Auth, cleared: Auth, written: Auth, user: nat, address: nat) {
    exists i :: 0 <= i < |written.providers| && i != RowOf(written.providers, user, address)
      && if written.providers[i].user == user then Activated(cleared, written, i)
         else written.providers[i].address == address && Activated(counted, written, i)
  }

  /** What is known when the row is written. */
  predicate Prepared(counted: Auth, cleared: Auth, written: Auth, c: nat) {
    && RowsStay(counted, written) && RowsStay(cleared, written) && Enabled(written, WriteLink(c))
    && !LinkedElsewhere(counted.providers, written.calls[c].user, written.calls[c].address)
    && written.calls[c].doomed == ActiveRows(cleared.providers, written.calls[c].user)
  }

  lemma RefusedIfOvertaken(counted: Auth, cleared: Auth, w: Auth, c: nat)
    requires Prepared(counted, cleared, w, c)
    ensures LinkRefused(w, c) <==> Overtaken(counted, cleared, w, w.calls[c].user, w.calls[c].address)
  {
    var call := w.calls[c];
    RowOfSame(w.providers, call.doomed, call.user, call.address);
    var rows, k := Deactivated(w.providers, call.doomed), RowOf(w.providers, call.user, call.address);
    forall i | 0 <= i < |rows| && i != k
      ensures rows[i].active && (rows[i].user == call.user || rows[i].address == call.address)
          <==> if rows[i].user == call.user then Activated(cleared, w, i)
               else rows[i].address == call.address && Activated(counted, w, i)
    {
      RowDecides(counted, cleared, w, c, i);
    }
  }

  lemma RowDecides(counted: Auth, cleared: Auth, w: Auth, c: nat, i: nat)
    requires Prepared(counted, cleared, w, c) && i < |w.providers|
    ensures var call, row := w.calls[c], w.providers[i];
            row.active && i !in call.doomed && (row.user == call.user || row.address == call.address)
            <==> if row.user == call.user then Activated(cleared, w, i)
                 else row.address == call.address && Activated(counted, w, i)
  {
    var row := w.providers[i];
    if row.user != w.calls[c].user && i < |counted.providers| && row.address == w.calls[c].address {
      assert counted.providers[i].address == row.address && counted.providers[i].user == row.user;
    }
  }

  /** Main result: a link that has counted no other owner is refused by the index if and only if, while it
      ran, another user's link or login to the address or another link of the same user committed. */
  lemma RefusalCondition(a: Auth, c: nat, first: seq<Event>, b: Auth, rest: seq<Event>, w: Auth)
    requires Sound(a) && Enabled(a, CountLink(c)) && CountLinkStep(a, c).calls[c].LinkCounted?
    requires Ran(CountLinkStep(a, c), first, b) && ForeignRun(first, c)
    requires Enabled(b, ClearLink(c)) && Ran(ClearLinkStep(b, c), rest, w) && ForeignRun(rest, c)
    ensures Enabled(w, WriteLink(c))
    ensures LinkRefused(w, c) <==>
            Overtaken(CountLinkStep(a, c), ClearLinkStep(b, c), w, a.calls[c].user, a.calls[c].address)
  {
    OthersKeep(CountLinkStep(a, c), first, c);
    RunKeeps(CountLinkStep(a, c), first);
    OthersKeep(ClearLinkStep(b, c), rest, c);
    RunKeeps(ClearLinkStep(b, c), rest);
    RefusedIfOvertaken(CountLinkStep(a, c), ClearLinkStep(b, c), w, c);
  }
}
