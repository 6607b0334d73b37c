/** Runs from any state: how the steps of one call and of everybody else put together form a run. */
module Runs {
  import opened Store
  import opened Claims
  import opened Machine
  import opened Invariant
  import opened Preserve

  datatype Caller = Anyone | ClaimCall(c: nat) | SpendCall(q: nat)

  /** The step is not taken by the given call; a recovery job is not the call itself. */
  predicate Foreign(e: Event, me: Caller) {
    match me
    case Anyone => true
    case ClaimCall(c) => !(e.OnClaim? && e.c == c && !e.claim.Recover? && !e.claim.RetryMark?)
    case SpendCall(q) => !(e.OnSpend? && e.q == q)
  }

  predicate ForeignRun(run: seq<Event>, me: Caller) {
    forall i :: 0 <= i < |run| ==> Foreign(run[i], me)
  }

  /** Some run of steps that are not taken by the call leads from s to t. */
  ghost predicate Reaches(s: Sys, t: Sys, me: Caller) {
    exists run :: Allowed(s, run) && ForeignRun(run, me) && Exec(s, run) == t
  }

  lemma ReachesSelf(s: Sys, me: Caller)
    ensures Reaches(s, s, me)
  {
    assert Allowed(s, []) && Exec(s, []) == s;
  }

  lemma OneMore(s: Sys, run: seq<Event>, t: Sys, e: Event, u: Sys)
    requires Allowed(s, run) && Exec(s, run) == t && Enabled(t, e) && Step(t, e) == u
    ensures Allowed(s, run + [e]) && Exec(s, run + [e]) == u
  {
    assert (run + [e])[..|run|] == run;
  }

  lemma LastStep(s: Sys, run: seq<Event>, e: Event)
    requires Allowed(s, run + [e])
    ensures Allowed(s, run) && Enabled(Exec(s, run), e) && Exec(s, run + [e]) == Step(Exec(s, run), e)
  {
    assert (run + [e])[..|run|] == run;
  }

  lemma {:induction false} RunsJoin(s: Sys, first: seq<Event>, t: Sys, rest: seq<Event>, u: Sys)
    requires Allowed(s, first) && Exec(s, first) == t && Allowed(t, rest) && Exec(t, rest) == u
    ensures Allowed(s, first + rest) && Exec(s, first + rest) == u
  {
    if rest == [] {
      assert first + rest == first;
    } else {
      var init, e := rest[..|rest| - 1], rest[|rest| - 1];
      assert rest == init + [e];
      LastStep(t, init, e);
      RunsJoin(s, first, t, init, Exec(t, init));
      OneMore(s, first + init, Exec(t, init), e, u);
      assert first + rest == first + init + [e];
    }
  }

  lemma ReachesThen(s: Sys, t: Sys, u: Sys, me: Caller)
    requires Reaches(s, t, me) && Reaches(t, u, me)
    ensures Reaches(s, u, me)
  {
    var first :| Allowed(s, first) && ForeignRun(first, me) && Exec(s, first) == t;
    var rest :| Allowed(t, rest) && ForeignRun(rest, me) && Exec(t, rest) == u;
    RunsJoin(s, first, t, rest, u);
    assert ForeignRun(first + rest, me);
  }

  lemma ReachesAnyone(s: Sys, t: Sys, me: Caller)
    requires Reaches(s, t, me)
    ensures Reaches(s, t, Anyone)
  {
    var run :| Allowed(s, run) && ForeignRun(run, me) && Exec(s, run) == t;
    assert ForeignRun(run, Anyone);
  }

  /** One step is a run, and keeps the invariant. */
  lemma Steps(s: Sys, e: Event)
    requires Inv(s) && Enabled(s, e)
    ensures Inv(Step(s, e)) && Reaches(s, Step(s, e), Anyone)
  {
    StepKeeps(s, e);
    assert Allowed(s, []) && Exec(s, []) == s;
    assert [e][..0] == [];
    assert Allowed(s, [e]) && Exec(s, [e]) == Step(s, e);
    assert ForeignRun([e], Anyone);
  }

  lemma {:induction false} RunKeepsFrom(s: Sys, run: seq<Event>)
    requires Inv(s) && Allowed(s, run)
    ensures Inv(Exec(s, run))
  {
    if run == [] {
    } else {
      RunKeepsFrom(s, run[..|run| - 1]);
      StepKeeps(Exec(s, run[..|run| - 1]), run[|run| - 1]);
    }
  }

  /** What the steps of others leave alone: the call's own record. */
  predicate OwnKept(s: Sys, t: Sys, me: Caller) {
    match me
    case Anyone => true
    case ClaimCall(c) => c < |s.claims| ==> c < |t.claims| && t.claims[c] == s.claims[c]
    case SpendCall(q) => q < |s.spends| ==> q < |t.spends| && t.spends[q] == s.spends[q]
  }

  lemma ForeignStep(s: Sys, e: Event, me: Caller)
    requires Enabled(s, e) && Foreign(e, me)
    ensures OwnKept(s, Step(s, e), me)
  {
  }

  lemma {:induction false} ForeignRunKeeps(s: Sys, run: seq<Event>, me: Caller)
    requires Allowed(s, run) && ForeignRun(run, me)
    ensures OwnKept(s, Exec(s, run), me)
  {
    if run == [] {
    } else {
      var init := run[..|run| - 1];
      assert forall i :: 0 <= i < |init| ==> init[i] == run[i];
      ForeignRunKeeps(s, init, me);
      ForeignStep(Exec(s, init), run[|run| - 1], me);
    }
  }

  /** While others take any number of steps, the invariant holds and the call stays where it is. */
  lemma Interleaved(s: Sys, t: Sys, me: Caller)
    requires Inv(s) && Reaches(s, t, me)
    ensures Inv(t) && OwnKept(s, t, me) && Reaches(s, t, Anyone)
  {
    var run :| Allowed(s, run) && ForeignRun(run, me) && Exec(s, run) == t;
    RunKeepsFrom(s, run);
    ForeignRunKeeps(s, run, me);
    ReachesAnyone(s, t, me);
  }
}
