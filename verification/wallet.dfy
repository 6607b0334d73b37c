/** Wallet links, sign-in nonces and refresh tokens: which address a user's claims resolve to, and that
    one-time records are used once (services/api/internal/services/user_service.go and auth_service.go).
    The statements of different transactions interleave: a plain read sees what is committed, a deleted row
    is held until its transaction ends, and a unique index is checked when a row is written. */
module Wallet {
  import opened Store

  /** A web3 row of auth_providers; rows are kept in order of creation, a deleted row stays as inactive.
      An address stands for its checksum spelling, which LinkWallet and Web3Verify store. */
  datatype Provider = Provider(user: nat, address: nat, active: bool)

  /** A web3_nonces row (the owner is an address) or a refresh_tokens row (the owner is a user). */
  datatype OneTime = OneTime(owner: nat, expires: int)

  /** A request between two of its statements. */
  datatype Call =
    | NoncesCleared(address: nat, doomed: set<nat>)
    | RefreshRead(token: nat, owner: nat)
    | LinkChecked(user: nat, address: nat, nonce: nat)
    | LinkCounted(user: nat, address: nat, nonce: nat)
    | LinkCleared(user: nat, address: nat, nonce: nat, doomed: set<nat>)
    | LoginChecked(address: nat, nonce: nat)
    | LoginLooked(address: nat, nonce: nat, found: Option<nat>)
    | Done

  /** The committed rows, the nonces deleted by transactions that have not ended, and the requests. used
      holds every nonce and token ever issued: generateNonce never repeats itself. */
  datatype Auth = Auth(users: nat, providers: seq<Provider>, nonces: map<nat, OneTime>, tokens: map<nat, OneTime>,
                       used: set<nat>, held: set<nat>, calls: seq<Call>)

  // ---------- the rows ----------

  function Deactivated(rows: seq<Provider>, doomed: set<nat>): (r: seq<Provider>)
    ensures |r| == |rows|
    ensures forall i :: 0 <= i < |rows| ==> r[i] == rows[i].(active := rows[i].active && i !in doomed)
  {
    seq(|rows|, i requires 0 <= i < |rows| => rows[i].(active := rows[i].active && i !in doomed))
  }

  /** What UPDATE ... SET deleted_at finds for the user. */
  function ActiveRows(rows: seq<Provider>, user: nat): set<nat> {
    set i: nat | i < |rows| && rows[i].active && rows[i].user == user
  }

  /** The first row of the user with the address, deleted or not, or the table's length. */
  function RowOf(rows: seq<Provider>, user: nat, address: nat): (k: nat)
    ensures k <= |rows| && (k < |rows| ==> rows[k].user == user && rows[k].address == address)
    ensures forall i :: 0 <= i < k ==> !(rows[i].user == user && rows[i].address == address)
  {
    if rows == [] then 0
    else
      var k := RowOf(rows[..|rows| - 1], user, address);
      if k < |rows| - 1 || (rows[k].user == user && rows[k].address == address) then k else |rows|
  }

  predicate LinkedElsewhere(rows: seq<Provider>, user: nat, address: nat) {
    exists i :: 0 <= i < |rows| && rows[i].active && rows[i].address == address && rows[i].user != user
  }

  /** The active row of an address, or the table's length. */
  function ActiveOf(rows: seq<Provider>, address: nat): (k: nat)
    ensures k <= |rows| && (k < |rows| ==> rows[k].active && rows[k].address == address)
    ensures forall i :: 0 <= i < k ==> !(rows[i].active && rows[i].address == address)
  {
    if rows == [] then 0
    else
      var k := ActiveOf(rows[..|rows| - 1], address);
      if k < |rows| - 1 || (rows[k].active && rows[k].address == address) then k else |rows|
  }

  /** resolveWalletAddress: the oldest active row of the user. */
  function Resolve(rows: seq<Provider>, user: nat): (r: Option<nat>)
    ensures r.Some? <==> exists i :: 0 <= i < |rows| && rows[i].active && rows[i].user == user
  {
    if rows == [] then None
    else
      var last := rows[|rows| - 1];
      var r := Resolve(rows[..|rows| - 1], user);
      if r.Some? then r else if last.active && last.user == user then Some(last.address) else None
  }

  /** What the two partial unique indexes on auth_providers demand. */
  predicate OneActive(rows: seq<Provider>) {
    forall i, j :: 0 <= i < j < |rows| && rows[i].active && rows[j].active ==>
      rows[i].user != rows[j].user && rows[i].address != rows[j].address
  }

  /** With one active row, that row decides. */
  lemma {:induction false} ResolveIs(rows: seq<Provider>, user: nat, k: nat)
    requires OneActive(rows) && k < |rows| && rows[k].active && rows[k].user == user
    ensures Resolve(rows, user) == Some(rows[k].address)
  {
    var init := rows[..|rows| - 1];
    if k == |rows| - 1 {
      assert Resolve(init, user).None?;
    } else {
      ResolveIs(init, user, k);
    }
  }

  lemma {:induction false} ResolveSame(a: seq<Provider>, b: seq<Provider>, user: nat)
    requires |a| <= |b| && forall i :: 0 <= i < |a| && (a[i].user == user || b[i].user == user) ==> b[i] == a[i]
    requires forall i :: |a| <= i < |b| ==> b[i].user != user
    ensures Resolve(b, user) == Resolve(a, user)
    decreases |b|
  {
    if b == [] {
    } else if |b| > |a| {
      ResolveSame(a, b[..|b| - 1], user);
    } else {
      ResolveSame(a[..|a| - 1], b[..|b| - 1], user);
    }
  }

  /** The row of the address is revived or created. */
  function Written(rows: seq<Provider>, user: nat, address: nat): seq<Provider> {
    var k := RowOf(rows, user, address);
    if k < |rows| then rows[k := rows[k].(active := true)] else rows + [Provider(user, address, true)]
  }

  /** A unique index refuses the row: another active row has the user or the address. */
  predicate Refused(rows: seq<Provider>, user: nat, address: nat) {
    var k := RowOf(rows, user, address);
    exists i :: 0 <= i < |rows| && i != k && rows[i].active && (rows[i].user == user || rows[i].address == address)
  }

  /** The refusals are exactly the violations of the two partial unique indexes. */
  lemma RefusedIsViolation(rows: seq<Provider>, user: nat, address: nat)
    requires OneActive(rows)
    ensures Refused(rows, user, address) <==> !OneActive(Written(rows, user, address))
  {
    var r, k := Written(rows, user, address), RowOf(rows, user, address);
    assert r[k].active && r[k].user == user && r[k].address == address;
    assert forall i :: 0 <= i < |rows| && i != k ==> r[i] == rows[i];
    if i :| 0 <= i < |rows| && i != k && rows[i].active && (rows[i].user == user || rows[i].address == address) {
      assert r[i].active && r[k].active;
    }
  }

  /** Writing the row makes the address the user's one wallet. */
  lemma WrittenIsWallet(rows: seq<Provider>, user: nat, address: nat)
    requires OneActive(rows) && !Refused(rows, user, address)
    ensures OneActive(Written(rows, user, address)) && Resolve(Written(rows, user, address), user) == Some(address)
  {
    RefusedIsViolation(rows, user, address);
    ResolveIs(Written(rows, user, address), user, RowOf(rows, user, address));
  }

  /** Deactivating rows of the user and writing one leaves everybody else's wallet. */
  lemma OtherWallet(rows: seq<Provider>, doomed: set<nat>, user: nat, address: nat, other: nat)
    requires other != user && forall i :: i in doomed && i < |rows| ==> rows[i].user == user
    ensures Resolve(Written(Deactivated(rows, doomed), user, address), other) == Resolve(rows, other)
  {
    ResolveSame(rows, Written(Deactivated(rows, doomed), user, address), other);
  }

  /** Undisturbed, a link is refused exactly when another user has the address. */
  lemma UndisturbedLink(rows: seq<Provider>, user: nat, address: nat)
    requires OneActive(rows)
    ensures Refused(Deactivated(rows, ActiveRows(rows, user)), user, address) <==> LinkedElsewhere(rows, user, address)
  {
    var r := Deactivated(rows, ActiveRows(rows, user));
    var k := RowOf(r, user, address);
    assert k < |r| ==> r[k].user == user;
    if i :| 0 <= i < |rows| && rows[i].active && rows[i].address == address && rows[i].user != user {
      assert r[i].active && i != k;
    }
  }

  // ---------- the steps ----------

  /** The nonces that the call's open transaction has deleted. */
  function HeldBy(call: Call): set<nat> {
    match call
    case NoncesCleared(_, doomed) => doomed
    case LinkCounted(_, _, nonce) => {nonce}
    case LinkCleared(_, _, nonce, _) => {nonce}
    case LoginLooked(_, nonce, _) => {nonce}
    case _ => {}
  }

  datatype Event =
    | Register
    | NewToken(user: nat, token: nat, expires: int)
    | UnlinkWallet(user: nat)
    | DropNonce(nonce: nat)
    | DropToken(token: nat)
    | ClearNonces(address: nat)
    | IssueNonce(c: nat, nonce: nat, expires: int)
    | ReadToken(token: nat, now: int)
    | Rotate(c: nat, next: nat, expires: int)
    | CheckLink(user: nat, address: nat, nonce: nat, now: int)
    | CountLink(c: nat)
    | ClearLink(c: nat)
    | WriteLink(c: nat)
    | CheckLogin(address: nat, nonce: nat, now: int)
    | LookLogin(c: nat)
    | WriteLogin(c: nat, token: nat, expires: int)
    | GiveUp(c: nat)

  predicate NonceFor(auth: Auth, nonce: nat, address: nat, now: int) {
    nonce in auth.nonces && auth.nonces[nonce].owner == address && now <= auth.nonces[nonce].expires
  }

  function NoncesOf(auth: Auth, address: nat): set<nat> {
    set n | n in auth.nonces && auth.nonces[n].owner == address
  }

  /** A statement on a held row waits, what generateNonce returns is fresh, and every other statement
      follows the call's previous one. */
  predicate Enabled(auth: Auth, e: Event) {
    match e
    case Register => true
    case NewToken(user, token, _) => user < auth.users && token !in auth.used
    case UnlinkWallet(_) => true
    case DropNonce(nonce) => nonce !in auth.held
    case DropToken(_) => true
    case ClearNonces(address) => NoncesOf(auth, address) !! auth.held
    case IssueNonce(c, nonce, _) => c < |auth.calls| && auth.calls[c].NoncesCleared? && nonce !in auth.used
    case ReadToken(token, now) => token in auth.tokens && now <= auth.tokens[token].expires
        && auth.tokens[token].owner < auth.users
    case Rotate(c, next, _) => c < |auth.calls| && auth.calls[c].RefreshRead? && next !in auth.used
    case CheckLink(user, address, nonce, now) => user < auth.users && NonceFor(auth, nonce, address, now)
    case CountLink(c) => c < |auth.calls| && auth.calls[c].LinkChecked? && auth.calls[c].nonce !in auth.held
    case ClearLink(c) => c < |auth.calls| && auth.calls[c].LinkCounted?
    case WriteLink(c) => c < |auth.calls| && auth.calls[c].LinkCleared?
    case CheckLogin(address, nonce, now) => NonceFor(auth, nonce, address, now)
    case LookLogin(c) => c < |auth.calls| && auth.calls[c].LoginChecked? && auth.calls[c].nonce !in auth.held
    case WriteLogin(c, token, _) => c < |auth.calls| && auth.calls[c].LoginLooked? && token !in auth.used
    case GiveUp(c) => c < |auth.calls|
  }

  function Begin(auth: Auth, call: Call): Auth {
    auth.(calls := auth.calls + [call], held := auth.held + HeldBy(call))
  }

  function GoOn(auth: Auth, c: nat, call: Call): Auth
    requires c < |auth.calls|
  {
    auth.(calls := auth.calls[c := call], held := auth.held + HeldBy(call))
  }

  /** The transaction ends; what it had deleted is free again, or gone if it committed. */
  function Finish(auth: Auth, c: nat): Auth
    requires c < |auth.calls|
  {
    auth.(calls := auth.calls[c := Done], held := auth.held - HeldBy(auth.calls[c]))
  }

  /** The affected rows of the DELETE decide: zero means that another request has used the token. */
  function RotateStep(auth: Auth, c: nat, next: nat, expires: int): Auth
    requires c < |auth.calls| && auth.calls[c].RefreshRead?
  {
    var call := auth.calls[c];
    if call.token !in auth.tokens then Finish(auth, c)
    else Finish(auth, c).(tokens := (auth.tokens - {call.token})[next := OneTime(call.owner, expires)],
        used := auth.used + {next})
  }

  function CountLinkStep(auth: Auth, c: nat): Auth
    requires c < |auth.calls| && auth.calls[c].LinkChecked?
  {
    var call := auth.calls[c];
    if call.nonce !in auth.nonces || LinkedElsewhere(auth.providers, call.user, call.address) then Finish(auth, c)
    else GoOn(auth, c, LinkCounted(call.user, call.address, call.nonce))
  }

  function ClearLinkStep(auth: Auth, c: nat): Auth
    requires c < |auth.calls| && auth.calls[c].LinkCounted?
  {
    var call := auth.calls[c];
    GoOn(auth, c, LinkCleared(call.user, call.address, call.nonce, ActiveRows(auth.providers, call.user)))
  }

  predicate LinkRefused(auth: Auth, c: nat)
    requires c < |auth.calls| && auth.calls[c].LinkCleared?
  {
    var call := auth.calls[c];
    Refused(Deactivated(auth.providers, call.doomed), call.user, call.address)
  }

  function WriteLinkStep(auth: Auth, c: nat): Auth
    requires c < |auth.calls| && auth.calls[c].LinkCleared?
  {
    var call := auth.calls[c];
    if LinkRefused(auth, c) then Finish(auth, c)
    else Finish(auth, c).(providers := Written(Deactivated(auth.providers, call.doomed), call.user, call.address),
                          nonces := auth.nonces - {call.nonce})
  }

  function LookLoginStep(auth: Auth, c: nat): Auth
    requires c < |auth.calls| && auth.calls[c].LoginChecked?
  {
    var call, k := auth.calls[c], ActiveOf(auth.providers, auth.calls[c].address);
    if call.nonce !in auth.nonces then Finish(auth, c)
    else
      var found := if k < |auth.providers| then Some(auth.providers[k].user) else None;
      GoOn(auth, c, LoginLooked(call.address, call.nonce, found))
  }

  /** Whom the login is for: the owner it found; if it found none, the owner whose row makes the index
      refuse its own; otherwise a new user. */
  function LoginOwner(auth: Auth, c: nat): nat
    requires c < |auth.calls| && auth.calls[c].LoginLooked?
  {
    var call, k := auth.calls[c], ActiveOf(auth.providers, auth.calls[c].address);
    if call.found.Some? then call.found.value else if k < |auth.providers| then auth.providers[k].user else auth.users
  }

  function WriteLoginStep(auth: Auth, c: nat, token: nat, expires: int): Auth
    requires c < |auth.calls| && auth.calls[c].LoginLooked?
  {
    var call, owner := auth.calls[c], LoginOwner(auth, c);
    var isNew := call.found.None? && ActiveOf(auth.providers, call.address) == |auth.providers|;
    Finish(auth, c).(users := if isNew then auth.users + 1 else auth.users,
                     providers := if isNew then auth.providers + [Provider(owner, call.address, true)]
                         else auth.providers,
                     nonces := auth.nonces - {call.nonce},
                     tokens := auth.tokens[token := OneTime(owner, expires)], used := auth.used + {token})
  }

  function IssueNonceStep(auth: Auth, c: nat, nonce: nat, expires: int): Auth
    requires c < |auth.calls| && auth.calls[c].NoncesCleared?
  {
    var call := auth.calls[c];
    Finish(auth, c).(nonces := (auth.nonces - call.doomed)[nonce := OneTime(call.address, expires)],
                     used := auth.used + {nonce})
  }

  function Step(auth: Auth, e: Event): Auth
    requires Enabled(auth, e)
  {
    match e
    case Register => auth.(users := auth.users + 1)
    case NewToken(user, token, expires) => auth.(tokens := auth.tokens[token := OneTime(user, expires)],
        used := auth.used + {token})
    case UnlinkWallet(user) => auth.(providers := Deactivated(auth.providers, ActiveRows(auth.providers, user)))
    case DropNonce(nonce) => auth.(nonces := auth.nonces - {nonce})
    case DropToken(token) => auth.(tokens := auth.tokens - {token})
    case ClearNonces(address) => Begin(auth, NoncesCleared(address, NoncesOf(auth, address)))
    case IssueNonce(c, nonce, expires) => IssueNonceStep(auth, c, nonce, expires)
    case ReadToken(token, _) => Begin(auth, RefreshRead(token, auth.tokens[token].owner))
    case Rotate(c, next, expires) => RotateStep(auth, c, next, expires)
    case CheckLink(user, address, nonce, _) => Begin(auth, LinkChecked(user, address, nonce))
    case CountLink(c) => CountLinkStep(auth, c)
    case ClearLink(c) => ClearLinkStep(auth, c)
    case WriteLink(c) => WriteLinkStep(auth, c)
    case CheckLogin(address, nonce, _) => Begin(auth, LoginChecked(address, nonce))
    case LookLogin(c) => LookLoginStep(auth, c)
    case WriteLogin(c, token, expires) => WriteLoginStep(auth, c, token, expires)
    case GiveUp(c) => Finish(auth, c)
  }

  function Start(): Auth {
    Auth(0, [], map[], map[], {}, {}, [])
  }

  predicate Allowed(auth: Auth, run: seq<Event>)
    decreases |run|, 0
  {
    run == [] || (Allowed(auth, run[..|run| - 1]) && Enabled(Exec(auth, run[..|run| - 1]), run[|run| - 1]))
  }

  function Exec(auth: Auth, run: seq<Event>): Auth
    requires Allowed(auth, run)
    decreases |run|, 1
  {
    if run == [] then auth else Step(Exec(auth, run[..|run| - 1]), run[|run| - 1])
  }

  // ---------- what every run keeps ----------

  predicate RowsSound(auth: Auth) {
    OneActive(auth.providers) && forall i :: 0 <= i < |auth.providers| ==> auth.providers[i].user < auth.users
  }

  predicate SecretsSound(auth: Auth) {
    && auth.nonces.Keys <= auth.used && auth.tokens.Keys <= auth.used && auth.nonces.Keys !! auth.tokens.Keys
    && auth.held <= auth.nonces.Keys
  }

  predicate CallSound(auth: Auth, call: Call) {
    && HeldBy(call) <= auth.held
    && match call
       case RefreshRead(token, owner) => owner < auth.users
           && (token in auth.tokens ==> auth.tokens[token].owner == owner) && token in auth.used
       case LinkChecked(user, _, _) => user < auth.users
       case LinkCounted(user, _, _) => user < auth.users
       case LinkCleared(user, _, _, doomed) =>
         user < auth.users && forall i :: i in doomed ==> i < |auth.providers| && auth.providers[i].user == user
       case LoginLooked(_, _, found) => found.Some? ==> found.value < auth.users
       case _ => true
  }

  predicate CallsSound(auth: Auth) {
    && (forall c :: 0 <= c < |auth.calls| ==> CallSound(auth, auth.calls[c]))
    && (forall c, d :: 0 <= c < d < |auth.calls| ==> HeldBy(auth.calls[c]) !! HeldBy(auth.calls[d]))
  }

  predicate Sound(auth: Auth) {
    RowsSound(auth) && SecretsSound(auth) && CallsSound(auth)
  }

  /** Users, the owners of rows and the owners of live tokens never change. */
  predicate Grows(a: Auth, b: Auth) {
    && a.users <= b.users && |a.providers| <= |b.providers| && a.used <= b.used
    && (forall i :: 0 <= i < |a.providers| ==> b.providers[i].user == a.providers[i].user)
    && (forall t :: t in a.used && t in b.tokens ==> t in a.tokens && b.tokens[t] == a.tokens[t])
  }

  lemma CallKept(a: Auth, b: Auth, call: Call)
    requires CallSound(a, call) && Grows(a, b) && HeldBy(call) <= b.held
    ensures CallSound(b, call)
  {
  }

  lemma NoCallMoves(a: Auth, b: Auth)
    requires CallsSound(a) && Grows(a, b) && b.calls == a.calls && b.held == a.held
    ensures CallsSound(b)
  {
    forall c | 0 <= c < |b.calls|
      ensures CallSound(b, b.calls[c])
    {
      CallKept(a, b, a.calls[c]);
    }
  }

  lemma CallBegins(a: Auth, b: Auth, call: Call)
    requires CallsSound(a) && Grows(a, b) && b.calls == a.calls + [call] && b.held == a.held + HeldBy(call)
    requires HeldBy(call) !! a.held && CallSound(b, call)
    ensures CallsSound(b)
  {
    forall c | 0 <= c < |a.calls|
      ensures CallSound(b, b.calls[c])
    {
      CallKept(a, b, a.calls[c]);
    }
  }

  lemma CallGoesOn(a: Auth, b: Auth, c: nat, call: Call)
    requires CallsSound(a) && Grows(a, b) && c < |a.calls| && b.calls == a.calls[c := call] && CallSound(b, call)
    requires b.held == a.held + HeldBy(call) && (HeldBy(call) == HeldBy(a.calls[c]) || HeldBy(call) !! a.held)
    ensures CallsSound(b)
  {
    forall d | 0 <= d < |b.calls| && d != c
      ensures CallSound(b, b.calls[d])
    {
      CallKept(a, b, a.calls[d]);
    }
  }

  lemma CallFinishes(a: Auth, b: Auth, c: nat)
    requires CallsSound(a) && Grows(a, b) && c < |a.calls| && b.calls == a.calls[c := Done]
        && b.held == a.held - HeldBy(a.calls[c])
    ensures CallsSound(b)
  {
    forall d | 0 <= d < |b.calls| && d != c
      ensures CallSound(b, b.calls[d])
    {
      assert HeldBy(a.calls[c]) !! HeldBy(a.calls[d]);
      CallKept(a, b, a.calls[d]);
    }
  }

  lemma IssueNonceSound(auth: Auth, c: nat, nonce: nat, expires: int)
    requires Sound(auth) && Enabled(auth, IssueNonce(c, nonce, expires))
    ensures Sound(IssueNonceStep(auth, c, nonce, expires))
  {
    assert CallSound(auth, auth.calls[c]);
    CallFinishes(auth, IssueNonceStep(auth, c, nonce, expires), c);
  }

  lemma RotateSound(auth: Auth, c: nat, next: nat, expires: int)
    requires Sound(auth) && Enabled(auth, Rotate(c, next, expires))
    ensures Sound(RotateStep(auth, c, next, expires))
  {
    assert CallSound(auth, auth.calls[c]);
    CallFinishes(auth, RotateStep(auth, c, next, expires), c);
  }

  lemma CountLinkSound(auth: Auth, c: nat)
    requires Sound(auth) && Enabled(auth, CountLink(c))
    ensures Sound(CountLinkStep(auth, c))
  {
    var t := CountLinkStep(auth, c);
    assert CallSound(auth, auth.calls[c]);
    if t.calls[c] == Done {
      CallFinishes(auth, t, c);
    } else {
      CallGoesOn(auth, t, c, t.calls[c]);
    }
  }

  lemma ClearLinkSound(auth: Auth, c: nat)
    requires Sound(auth) && Enabled(auth, ClearLink(c))
    ensures Sound(ClearLinkStep(auth, c))
  {
    assert CallSound(auth, auth.calls[c]);
    CallGoesOn(auth, ClearLinkStep(auth, c), c, ClearLinkStep(auth, c).calls[c]);
  }

  lemma WriteLinkSound(auth: Auth, c: nat)
    requires Sound(auth) && Enabled(auth, WriteLink(c))
    ensures Sound(WriteLinkStep(auth, c))
  {
    var call := auth.calls[c];
    assert CallSound(auth, call);
    CallFinishes(auth, WriteLinkStep(auth, c), c);
    if !LinkRefused(auth, c) {
      WrittenIsWallet(Deactivated(auth.providers, call.doomed), call.user, call.address);
    }
  }

  lemma LookLoginSound(auth: Auth, c: nat)
    requires Sound(auth) && Enabled(auth, LookLogin(c))
    ensures Sound(LookLoginStep(auth, c))
  {
    var t := LookLoginStep(auth, c);
    if t.calls[c] == Done {
      CallFinishes(auth, t, c);
    } else {
      CallGoesOn(auth, t, c, t.calls[c]);
    }
  }

  lemma WriteLoginSound(auth: Auth, c: nat, token: nat, expires: int)
    requires Sound(auth) && Enabled(auth, WriteLogin(c, token, expires))
    ensures Sound(WriteLoginStep(auth, c, token, expires))
  {
    assert CallSound(auth, auth.calls[c]);
    CallFinishes(auth, WriteLoginStep(auth, c, token, expires), c);
  }

  lemma StepSound(auth: Auth, e: Event)
    requires Sound(auth) && Enabled(auth, e)
    ensures Sound(Step(auth, e))
  {
    var t := Step(auth, e);
    match e
    case Register => NoCallMoves(auth, t);
    case NewToken(_, _, _) => NoCallMoves(auth, t);
    case UnlinkWallet(_) => NoCallMoves(auth, t);
    case DropNonce(_) => NoCallMoves(auth, t);
    case DropToken(_) => NoCallMoves(auth, t);
    case ClearNonces(address) => CallBegins(auth, t, NoncesCleared(address, NoncesOf(auth, address)));
    case IssueNonce(c, nonce, expires) => IssueNonceSound(auth, c, nonce, expires);
    case ReadToken(token, _) => CallBegins(auth, t, RefreshRead(token, auth.tokens[token].owner));
    case Rotate(c, next, expires) => RotateSound(auth, c, next, expires);
    case CheckLink(user, address, nonce, _) => CallBegins(auth, t, LinkChecked(user, address, nonce));
    case CountLink(c) => CountLinkSound(auth, c);
    case ClearLink(c) => ClearLinkSound(auth, c);
    case WriteLink(c) => WriteLinkSound(auth, c);
    case CheckLogin(address, nonce, _) => CallBegins(auth, t, LoginChecked(address, nonce));
    case LookLogin(c) => LookLoginSound(auth, c);
    case WriteLogin(c, token, expires) => WriteLoginSound(auth, c, token, expires);
    case GiveUp(c) => CallFinishes(auth, t, c);
  }

  /** Main result: however the statements of links, logins and unlinks interleave, in every reachable state
      a user has at most one active wallet and an active address belongs to one user. */
  lemma {:induction false} RunSound(run: seq<Event>)
    requires Allowed(Start(), run)
    ensures Sound(Exec(Start(), run))
  {
    if run == [] {
    } else {
      RunSound(run[..|run| - 1]);
      StepSound(Exec(Start(), run[..|run| - 1]), run[|run| - 1]);
    }
  }

  // ---------- used once ----------

  /** Does this step commit an operation that uses up the nonce or token? */
  function Uses(auth: Auth, e: Event, secret: nat): int
    requires Enabled(auth, e)
  {
    match e
    case Rotate(c, _, _) => if auth.calls[c].token == secret && secret in auth.tokens then 1 else 0
    case WriteLink(c) => if auth.calls[c].nonce == secret && !LinkRefused(auth, c) then 1 else 0
    case WriteLogin(c, _, _) => if auth.calls[c].nonce == secret then 1 else 0
    case _ => 0
  }

  function UseCount(auth: Auth, run: seq<Event>, secret: nat): int
    requires Allowed(auth, run)
  {
    if run == [] then 0
    else UseCount(auth, run[..|run| - 1], secret) + Uses(Exec(auth, run[..|run| - 1]), run[|run| - 1], secret)
  }

  predicate Live(auth: Auth, secret: nat) {
    secret in auth.nonces || secret in auth.tokens
  }

  lemma UseEnds(auth: Auth, e: Event, secret: nat)
    requires Sound(auth) && Enabled(auth, e) && Uses(auth, e, secret) == 1
    ensures Live(auth, secret) && !Live(Step(auth, e), secret)
  {
    assert CallSound(auth, auth.calls[e.c]);
  }

  lemma NothingRevives(auth: Auth, e: Event, secret: nat)
    requires Sound(auth) && Enabled(auth, e)
    ensures Live(Step(auth, e), secret) && !Live(auth, secret) ==> secret !in auth.used
    ensures auth.used <= Step(auth, e).used
  {
  }

  /** Main result: over any interleaving, a nonce or refresh token is used by at most one committed
      operation, and by none while it is still in circulation. */
  lemma {:induction false} UsedOnce(run: seq<Event>, secret: nat)
    requires Allowed(Start(), run)
    ensures 0 <= UseCount(Start(), run, secret) <= 1
    ensures Live(Exec(Start(), run), secret) || secret !in Exec(Start(), run).used ==>
        UseCount(Start(), run, secret) == 0
  {
    if run == [] {
    } else {
      var init, e := run[..|run| - 1], run[|run| - 1];
      var auth := Exec(Start(), init);
      UsedOnce(init, secret);
      RunSound(init);
      NothingRevives(auth, e, secret);
      if Uses(auth, e, secret) == 1 {
        UseEnds(auth, e, secret);
      }
    }
  }

  /** Two requests that have read the same token: once one has rotated it, the other finds no row to
      delete and issues nothing. */
  lemma SecondRotationFails(auth: Auth, c: nat, next: nat, expires: int, d: nat, other: nat, until: int)
    requires Sound(auth) && Enabled(auth, Rotate(c, next, expires)) && c != d && d < |auth.calls|
        && auth.calls[d].RefreshRead?
    requires auth.calls[d].token == auth.calls[c].token && auth.calls[c].token in auth.tokens
    ensures var t := RotateStep(auth, c, next, expires);
            t.calls[d] == auth.calls[d] && RotateStep(t, d, other, until).tokens == t.tokens
  {
  }

  /** A rotation hands the session on: the user keeps exactly as many live tokens, and no other token
      changes. */
  lemma RotationKeepsSessions(auth: Auth, c: nat, next: nat, expires: int)
    requires Sound(auth) && Enabled(auth, Rotate(c, next, expires)) && auth.calls[c].token in auth.tokens
    ensures var token, after := auth.calls[c].token, RotateStep(auth, c, next, expires).tokens;
            && |after| == |auth.tokens| && token !in after && next in after
                && after[next].owner == auth.tokens[token].owner
            && forall t :: t != token && t != next ==>
                (t in after <==> t in auth.tokens)
                && (t in auth.tokens ==> after[t] == auth.tokens[t])
  {
    var token := auth.calls[c].token;
    assert CallSound(auth, auth.calls[c]);
    assert auth.tokens == (auth.tokens - {token})[token := auth.tokens[token]];
  }

  // ---------- wallets ----------

  /** Main result: a link that is not refused makes the address the one that the user's claims resolve,
      leaves the wallets of all other users, and uses up its nonce. */
  lemma LinkedWalletIsUsed(run: seq<Event>, c: nat)
    requires Allowed(Start(), run) && Enabled(Exec(Start(), run), WriteLink(c)) && !LinkRefused(Exec(Start(), run), c)
    ensures var before, after := Exec(Start(), run), Step(Exec(Start(), run), WriteLink(c));
            && Resolve(after.providers, before.calls[c].user) == Some(before.calls[c].address)
            && (forall other :: other != before.calls[c].user ==>
                Resolve(after.providers, other) == Resolve(before.providers, other))
            && before.calls[c].nonce in before.nonces && before.calls[c].nonce !in after.nonces
  {
    var auth := Exec(Start(), run);
    RunSound(run);
    LinkIsWallet(auth, c);
  }

  lemma LinkIsWallet(auth: Auth, c: nat)
    requires Sound(auth) && Enabled(auth, WriteLink(c)) && !LinkRefused(auth, c)
    ensures var call, rows := auth.calls[c], WriteLinkStep(auth, c).providers;
            && Resolve(rows, call.user) == Some(call.address) && call.nonce in auth.nonces
            && forall other :: other != call.user ==> Resolve(rows, other) == Resolve(auth.providers, other)
  {
    var call := auth.calls[c];
    assert CallSound(auth, call);
    WrittenIsWallet(Deactivated(auth.providers, call.doomed), call.user, call.address);
    forall other | other != call.user
      ensures Resolve(WriteLinkStep(auth, c).providers, other) == Resolve(auth.providers, other)
    {
      OtherWallet(auth.providers, call.doomed, call.user, call.address, other);
    }
  }

  /** After an unlink the user has no wallet, and everybody else's stays. */
  lemma UnlinkRemoves(auth: Auth, user: nat, other: nat)
    requires other != user
    ensures var rows := Step(auth, UnlinkWallet(user)).providers;
            Resolve(rows, user).None? && Resolve(rows, other) == Resolve(auth.providers, other)
  {
    ResolveSame(auth.providers, Step(auth, UnlinkWallet(user)).providers, other);
  }

  /** The index is needed: of two links of one user to different addresses that both cleared the user's
      rows before either wrote, the second is refused. */
  lemma SecondLinkRefused(auth: Auth, c: nat, d: nat)
    requires Sound(auth) && Enabled(auth, WriteLink(c)) && Enabled(auth, WriteLink(d)) && c != d
        && !LinkRefused(auth, c)
    requires auth.calls[c].user == auth.calls[d].user && auth.calls[c].address != auth.calls[d].address
    requires RowOf(auth.providers, auth.calls[c].user, auth.calls[c].address) !in auth.calls[d].doomed
    ensures WriteLinkStep(auth, c).calls[d] == auth.calls[d] && LinkRefused(WriteLinkStep(auth, c), d)
  {
    var call, other := auth.calls[c], auth.calls[d];
    var rows := WriteLinkStep(auth, c).providers;
    var k := RowOf(Deactivated(auth.providers, call.doomed), call.user, call.address);
    RowOfSame(auth.providers, call.doomed, call.user, call.address);
    assert rows[k].active && rows[k].user == call.user && rows[k].address == call.address;
    assert Deactivated(rows, other.doomed)[k] == rows[k];
  }

  /** Of two users who both counted nobody at one address, the one who writes second is refused. */
  lemma SecondOwnerRefused(auth: Auth, c: nat, d: nat)
    requires Sound(auth) && Enabled(auth, WriteLink(c)) && Enabled(auth, WriteLink(d)) && c != d
        && !LinkRefused(auth, c)
    requires auth.calls[c].user != auth.calls[d].user && auth.calls[c].address == auth.calls[d].address
    ensures WriteLinkStep(auth, c).calls[d] == auth.calls[d] && LinkRefused(WriteLinkStep(auth, c), d)
  {
    var call, other := auth.calls[c], auth.calls[d];
    var rows := WriteLinkStep(auth, c).providers;
    var k := RowOf(Deactivated(auth.providers, call.doomed), call.user, call.address);
    assert rows[k].active && rows[k].user == call.user && rows[k].address == call.address;
    assert CallSound(auth, other);
    assert Deactivated(rows, other.doomed)[k] == rows[k];
  }

  lemma RowOfSame(rows: seq<Provider>, doomed: set<nat>, user: nat, address: nat)
    ensures RowOf(Deactivated(rows, doomed), user, address) == RowOf(rows, user, address)
  {
    var r := Deactivated(rows, doomed);
    var k, l := RowOf(r, user, address), RowOf(rows, user, address);
    assert k < |r| ==> rows[k].user == user && rows[k].address == address;
    assert l < |rows| ==> r[l].user == user && r[l].address == address;
  }

  /** A link during which nothing else commits is refused only when another user has the address, which
      the count before it has already found out. */
  lemma UndisturbedLinkSucceeds(auth: Auth, c: nat)
    requires Sound(auth) && Enabled(auth, CountLink(c)) && auth.calls[c].nonce in auth.nonces
    requires !LinkedElsewhere(auth.providers, auth.calls[c].user, auth.calls[c].address)
    ensures var counted := CountLinkStep(auth, c);
            && counted.calls[c].LinkCounted?
            && var cleared := ClearLinkStep(counted, c); cleared.calls[c].LinkCleared? && !LinkRefused(cleared, c)
  {
    UndisturbedLink(auth.providers, auth.calls[c].user, auth.calls[c].address);
  }

  /** Signing in with an address that nobody has makes it the wallet of a new user. */
  lemma NewOwnersWallet(auth: Auth, c: nat, token: nat, expires: int)
    requires Sound(auth) && Enabled(auth, WriteLogin(c, token, expires))
    requires auth.calls[c].found.None?
    ensures var t := WriteLoginStep(auth, c, token, expires);
            Resolve(t.providers, LoginOwner(auth, c)) == Some(auth.calls[c].address)
  {
    var t := WriteLoginStep(auth, c, token, expires);
    WriteLoginSound(auth, c, token, expires);
    ResolveIs(t.providers, LoginOwner(auth, c), ActiveOf(auth.providers, auth.calls[c].address));
  }

  /** A login leaves every user's wallet as it is. */
  lemma LoginKeepsWallets(auth: Auth, c: nat, token: nat, expires: int, user: nat)
    requires Sound(auth) && Enabled(auth, WriteLogin(c, token, expires)) && user < auth.users
    ensures Resolve(WriteLoginStep(auth, c, token, expires).providers, user) == Resolve(auth.providers, user)
  {
    ResolveSame(auth.providers, WriteLoginStep(auth, c, token, expires).providers, user);
  }

  /** The token is for the user whom the look-up found, else for the one who took the address since,
      else for a new user; no other token changes. */
  lemma LoginToken(auth: Auth, c: nat, token: nat, expires: int)
    requires Sound(auth) && Enabled(auth, WriteLogin(c, token, expires))
    ensures var t, call := WriteLoginStep(auth, c, token, expires), auth.calls[c];
            && token in t.tokens && t.tokens[token] == OneTime(LoginOwner(auth, c), expires)
                && LoginOwner(auth, c) < t.users
            && (call.found.Some? ==> LoginOwner(auth, c) == call.found.value && t.users == auth.users)
            && (call.found.None? ==>
                  (t.users > auth.users <==> forall i :: 0 <= i < |auth.providers| && auth.providers[i].active ==>
                                               auth.providers[i].address != call.address))
            && (forall x :: x in auth.tokens ==> x in t.tokens && t.tokens[x] == auth.tokens[x])
  {
    assert CallSound(auth, auth.calls[c]);
  }
}
