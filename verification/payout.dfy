/** Wallets and money together: a claim is minted to the address that was its user's one wallet when the
    reservation looked it up (services/api/internal/services/claim_service.go). */
module Payout {
  import opened Store
  import opened Claims
  import opened Machine
  import opened Invariant
  import opened Preserve
  import Wallet

  /** What resolveWalletAddress returned inside a reservation that may still be open. */
  datatype LookUp = LookUp(user: nat, wallet: Option<string>)

  datatype Joint = Joint(auth: Wallet.Auth, sys: Sys, lookUps: seq<LookUp>)

  /** Wallets change between the look-up of a reservation and its commit; l is the look-up it made. */
  datatype JointEvent = OnAuth(auth: Wallet.Event) | ResolveWallet(user: nat) | OnMoney(l: nat, money: Event)

  /** The checksum spelling of an address. */
  type Spelling = nat -> string

  function Spelled(spell: Spelling, address: Option<nat>): Option<string> {
    if address.Some? then Some(spell(address.value)) else None
  }

  predicate UsesLookUp(e: Event, lookUps: seq<LookUp>, l: nat) {
    e.OnPoints? && e.points.StartClaim? ==> l < |lookUps| && lookUps[l] == LookUp(e.points.user, e.points.wallet)
  }

  predicate JointEnabled(j: Joint, e: JointEvent) {
    match e
    case OnAuth(a) => Wallet.Enabled(j.auth, a)
    case ResolveWallet(_) => true
    case OnMoney(l, m) => Enabled(j.sys, m) && UsesLookUp(m, j.lookUps, l)
  }

  function JointStep(j: Joint, e: JointEvent, spell: Spelling): Joint
    requires JointEnabled(j, e)
  {
    match e
    case OnAuth(a) => j.(auth := Wallet.Step(j.auth, a))
    case ResolveWallet(user) =>
      j.(lookUps := j.lookUps + [LookUp(user, Spelled(spell, Wallet.Resolve(j.auth.providers, user)))])
    case OnMoney(_, m) => j.(sys := Step(j.sys, m))
  }

  function JointStart(configs: map<string, int>): Joint {
    Joint(Wallet.Start(), Start(configs), [])
  }

  predicate JointAllowed(configs: map<string, int>, run: seq<JointEvent>, spell: Spelling)
    decreases |run|, 0
  {
    run == []
    || (JointAllowed(configs, run[..|run| - 1], spell)
        && JointEnabled(JointExec(configs, run[..|run| - 1], spell), run[|run| - 1]))
  }

  function JointExec(configs: map<string, int>, run: seq<JointEvent>, spell: Spelling): Joint
    requires JointAllowed(configs, run, spell)
    decreases |run|, 1
  {
    if run == [] then JointStart(configs)
    else JointStep(JointExec(configs, run[..|run| - 1], spell), run[|run| - 1], spell)
  }

  /** Both machines keep their invariants. */
  lemma {:induction false} JointKeeps(configs: map<string, int>, run: seq<JointEvent>, spell: Spelling)
    requires JointAllowed(configs, run, spell)
    ensures Inv(JointExec(configs, run, spell).sys) && Wallet.Sound(JointExec(configs, run, spell).auth)
  {
    if run == [] {
      RunKeeps(configs, []);
      Wallet.RunSound([]);
    } else {
      var init, e := run[..|run| - 1], run[|run| - 1];
      JointKeeps(configs, init, spell);
      match e
      case OnAuth(a) => Wallet.StepSound(JointExec(configs, init, spell).auth, a);
      case ResolveWallet(_) =>
      case OnMoney(_, m) => StepKeeps(JointExec(configs, init, spell).sys, m);
    }
  }

  /** The address is the user's wallet in this state, and nobody else's. */
  ghost predicate IsWallet(rows: seq<Wallet.Provider>, user: nat, address: nat) {
    && Wallet.Resolve(rows, user) == Some(address)
    && forall other: nat :: other != user ==> Wallet.Resolve(rows, other) != Some(address)
  }

  lemma {:induction false} ResolvedRow(rows: seq<Wallet.Provider>, user: nat)
    requires Wallet.Resolve(rows, user).Some?
    ensures exists k :: 0 <= k < |rows| && rows[k].active && rows[k].user == user
                        && rows[k].address == Wallet.Resolve(rows, user).value
  {
    if Wallet.Resolve(rows[..|rows| - 1], user).None? {
      assert rows[|rows| - 1].active;
    } else {
      ResolvedRow(rows[..|rows| - 1], user);
    }
  }

  lemma ResolvedIsWallet(rows: seq<Wallet.Provider>, user: nat)
    requires Wallet.OneActive(rows) && Wallet.Resolve(rows, user).Some?
    ensures IsWallet(rows, user, Wallet.Resolve(rows, user).value)
  {
    ResolvedRow(rows, user);
    forall other: nat | other != user
      ensures Wallet.Resolve(rows, other) != Wallet.Resolve(rows, user)
    {
      if Wallet.Resolve(rows, other).Some? {
        ResolvedRow(rows, other);
      }
    }
  }

  /** At some moment of the run the wallet is the spelling of the user's one address. */
  ghost predicate WasWallet(configs: map<string, int>, run: seq<JointEvent>, spell: Spelling, user: nat,
      wallet: string) {
    exists i :: 0 <= i <= |run| && JointAllowed(configs, run[..i], spell)
                && HasWallet(JointExec(configs, run[..i], spell).auth.providers, spell, user, wallet)
  }

  ghost predicate HasWallet(rows: seq<Wallet.Provider>, spell: Spelling, user: nat, wallet: string) {
    var r := Wallet.Resolve(rows, user);
    r.Some? && wallet == spell(r.value) && IsWallet(rows, user, r.value)
  }

  lemma WasWalletLater(configs: map<string, int>, run: seq<JointEvent>, spell: Spelling, user: nat, wallet: string)
    requires run != [] && WasWallet(configs, run[..|run| - 1], spell, user, wallet)
    ensures WasWallet(configs, run, spell, user, wallet)
  {
    var init := run[..|run| - 1];
    var i :| 0 <= i <= |init| && JointAllowed(configs, init[..i], spell)
             && HasWallet(JointExec(configs, init[..i], spell).auth.providers, spell, user, wallet);
    assert init[..i] == run[..i];
  }

  lemma {:induction false} LookUpsAreWallets(configs: map<string, int>, run: seq<JointEvent>, spell: Spelling,
          l: nat)
    requires JointAllowed(configs, run, spell) && l < |JointExec(configs, run, spell).lookUps|
    requires JointExec(configs, run, spell).lookUps[l].wallet.Some?
    ensures var found := JointExec(configs, run, spell).lookUps[l];
            WasWallet(configs, run, spell, found.user, found.wallet.value)
  {
    var init, e := run[..|run| - 1], run[|run| - 1];
    var before, found := JointExec(configs, init, spell), JointExec(configs, run, spell).lookUps[l];
    if l < |before.lookUps| {
      LookUpsAreWallets(configs, init, spell, l);
    } else {
      JointKeeps(configs, init, spell);
      ResolvedIsWallet(before.auth.providers, found.user);
      assert init[..|init|] == init;
      assert HasWallet(before.auth.providers, spell, found.user, found.wallet.value);
    }
    WasWalletLater(configs, run, spell, found.user, found.wallet.value);
  }

  /** That moment lies before the reservation of claim c commits. */
  ghost predicate WasWalletBefore(configs: map<string, int>, run: seq<JointEvent>, spell: Spelling, c: nat, user: nat,
      wallet: string) {
    exists j :: 0 <= j <= |run| && JointAllowed(configs, run[..j], spell)
                && |JointExec(configs, run[..j], spell).sys.claims| <= c
                && WasWallet(configs, run[..j], spell, user, wallet)
  }

  lemma StillBefore(configs: map<string, int>, run: seq<JointEvent>, spell: Spelling, c: nat, user: nat,
          wallet: string)
    requires run != [] && WasWalletBefore(configs, run[..|run| - 1], spell, c, user, wallet)
    ensures WasWalletBefore(configs, run, spell, c, user, wallet)
  {
    var init := run[..|run| - 1];
    var j :| 0 <= j <= |init| && JointAllowed(configs, init[..j], spell)
             && |JointExec(configs, init[..j], spell).sys.claims| <= c
             && WasWallet(configs, init[..j], spell, user, wallet);
    assert run[..j] == init[..j];
  }

  /** A reservation is kept by every step of a call. */
  lemma CallsKeepReservations(s: Sys, d: nat, a: ClaimAction)
    requires ClaimEnabled(s, d, a)
    ensures var t := ClaimActionStep(s, d, a);
            |t.claims| == |s.claims| && forall c :: 0 <= c < |s.claims| ==> t.claims[c].res == s.claims[c].res
  {
  }

  /** Only a reservation starts a claim, with the wallet it looked up. */
  lemma PointsKeepReservations(s: Sys, a: PointsAction)
    requires PointsEnabled(s, a)
    ensures var t := PointsStep(s, a);
            || t.claims == s.claims
            || (&& a.StartClaim? && |t.claims| == |s.claims| + 1 && t.claims[..|s.claims|] == s.claims
                && var res := t.claims[|s.claims|].res; res.user == a.user && a.wallet == Some(res.wallet))
  {
  }

  lemma ReservationsStay(s: Sys, e: Event, c: nat)
    requires Enabled(s, e) && c < |Step(s, e).claims|
    ensures var t := Step(s, e).claims[c].res;
            if c < |s.claims| then t == s.claims[c].res
            else && c == |s.claims| && e.OnPoints? && e.points.StartClaim?
                 && t.user == e.points.user && e.points.wallet == Some(t.wallet)
  {
    match e
    case OnPoints(a) =>
      PointsKeepReservations(s, a);
      assert c < |s.claims| ==> Step(s, e).claims[c] == Step(s, e).claims[..|s.claims|][c];
    case OnClaim(d, a) => CallsKeepReservations(s, d, a);
    case OnSpend(q, a) => assert Step(s, e).claims == s.claims;
    case _ =>
  }

  lemma {:induction false} ReservationsUseWallets(configs: map<string, int>, run: seq<JointEvent>, spell: Spelling,
          c: nat)
    requires JointAllowed(configs, run, spell) && c < |JointExec(configs, run, spell).sys.claims|
    ensures var res := JointExec(configs, run, spell).sys.claims[c].res;
            WasWalletBefore(configs, run, spell, c, res.user, res.wallet)
  {
    var init, e := run[..|run| - 1], run[|run| - 1];
    var before, res := JointExec(configs, init, spell), JointExec(configs, run, spell).sys.claims[c].res;
    if e.OnMoney? {
      ReservationsStay(before.sys, e.money, c);
    }
    if c < |before.sys.claims| {
      ReservationsUseWallets(configs, init, spell, c);
    } else {
      LookUpsAreWallets(configs, init, spell, e.l);
      assert init[..|init|] == init;
      assert WasWalletBefore(configs, init, spell, c, res.user, res.wallet);
    }
    StillBefore(configs, run, spell, c, res.user, res.wallet);
  }

  /** Main result: whatever links, unlinks and logins interleave with claims, every mint goes to an address
      that was, at a moment before the claim's reservation committed, its user's one wallet and nobody
      else's. */
  lemma MintsToWallet(configs: map<string, int>, run: seq<JointEvent>, spell: Spelling, h: nat)
    requires JointAllowed(configs, run, spell) && h < |JointExec(configs, run, spell).sys.chain|
    requires JointExec(configs, run, spell).sys.chain[h].call.Mint?
    ensures var s := JointExec(configs, run, spell).sys;
            var c := s.chain[h].call.claim;
            && c < |s.claims|
            && WasWalletBefore(configs, run, spell, c, s.claims[c].res.user, s.chain[h].call.to)
  {
    var s := JointExec(configs, run, spell).sys;
    var c := s.chain[h].call.claim;
    JointKeeps(configs, run, spell);
    assert ChainOk(s, h) && ClaimOk(s, c);
    ReservationsUseWallets(configs, run, spell, c);
  }
}
