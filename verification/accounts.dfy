/** The wallet and token requests statement by statement, with other requests free to run in between
    (services/api/internal/services/user_service.go and auth_service.go). */
module AccountService {
  import opened Store
  import opened Wallet
  import opened WalletRuns

  datatype AuthError = InvalidNonce | InvalidSignature | ProviderLinked | InvalidToken | UserNotFound | Unavailable

  /** What must have been the case at some moment of a request for it to fail with this error. */
  function LinkCause(error: AuthError, user: nat, address: nat, nonce: nat): Condition {
    match error
    case InvalidNonce => NonceGone(nonce)
    case ProviderLinked => AddressLost(user, address)
    case Unavailable => NonceHeld(nonce)
    case _ => (a: Auth) => false
  }

  function LoginCause(error: AuthError, nonce: nat): Condition {
    match error
    case InvalidNonce => NonceGone(nonce)
    case Unavailable => NonceHeld(nonce)
    case _ => (a: Auth) => false
  }

  class Accounts {
    var users: nat
    var providers: seq<Provider>
    var nonces: map<nat, OneTime>
    var tokens: map<nat, OneTime>
    ghost var used: set<nat>
    var held: set<nat>
    var calls: seq<Call>

    constructor ()
      ensures State() == Start()
    {
      users, providers, nonces, tokens, used, held, calls := 0, [], map[], map[], {}, {}, [];
    }

    ghost function State(): Auth
      reads this
    {
      Auth(users, providers, nonces, tokens, used, held, calls)
    }

    /** Other requests run: any steps that are not this request's own and do not issue the secret that it
        is about to issue. */
    method Others(ghost c: nat, ghost mine: nat) returns (ghost run: seq<Event>)
      requires Sound(State()) && c < |calls|
      modifies this
      ensures Ran(old(State()), run, State()) && ForeignRun(run, c) && Spares(run, mine)
      ensures Sound(State()) && c < |calls| && calls[c] == old(calls[c]) && (mine !in old(used) ==> mine !in used)
    {
      run := [];
      Interleaved(State(), run, State(), c, mine);
    }

    method Begin(call: Call) returns (c: nat)
      modifies this`calls, this`held
      ensures c == |old(calls)| && State() == Wallet.Begin(old(State()), call)
    {
      c := |calls|;
      calls := calls + [call];
      held := held + HeldBy(call);
    }

    method End(c: nat)
      requires c < |calls|
      modifies this`calls, this`held
      ensures State() == Finish(old(State()), c)
    {
      held := held - HeldBy(calls[c]);
      calls := calls[c := Done];
    }

    // ---------- linking a wallet ----------

    /** The reads before the transaction. */
    method CheckLink(user: nat, address: nat, nonce: nat, now: int, signed: bool) returns (r: Result<nat, AuthError>)
      requires user < users
      modifies this`calls, this`held
      ensures r.Ok? ==>
          && r.value == |old(calls)| && signed
          && Enabled(old(State()), Event.CheckLink(user, address, nonce, now))
          && State() == Step(old(State()), Event.CheckLink(user, address, nonce, now))
      ensures r.Err? ==> State() == old(State())
      ensures r == Err(InvalidNonce) <==> !NonceFor(old(State()), nonce, address, now)
      ensures r == Err(InvalidSignature) <==> NonceFor(old(State()), nonce, address, now) && !signed
      ensures r.Ok? <==> NonceFor(old(State()), nonce, address, now) && signed
    {
      if !(nonce in nonces && nonces[nonce].owner == address) || now > nonces[nonce].expires {
        return Err(InvalidNonce);
      }
      if !signed {
        return Err(InvalidSignature);
      }
      var c := Begin(LinkChecked(user, address, nonce));
      return Ok(c);
    }

    /** The transaction deletes the nonce and counts other owners. */
    method CountLink(c: nat) returns (r: Result<(), AuthError>)
      requires Enabled(State(), Event.CountLink(c))
      modifies this`calls, this`held
      ensures State() == CountLinkStep(old(State()), c)
      ensures r.Ok? <==> calls[c].LinkCounted?
      ensures r.Err? ==> r.error == if old(calls[c]).nonce !in nonces then InvalidNonce else ProviderLinked
    {
      var call := calls[c];
      if call.nonce !in nonces {
        End(c);
        return Err(InvalidNonce);
      }
      var count := CountElsewhere(call.user, call.address);
      if count > 0 {
        End(c);
        return Err(ProviderLinked);
      }
      held := held + {call.nonce};
      calls := calls[c := LinkCounted(call.user, call.address, call.nonce)];
      return Ok(());
    }

    method CountElsewhere(user: nat, address: nat) returns (count: nat)
      ensures count > 0 <==> LinkedElsewhere(providers, user, address)
    {
      count := 0;
      for i := 0 to |providers|
        invariant count > 0 <==> exists k :: 0 <= k < i && providers[k].active && providers[k].address == address
                                             && providers[k].user != user
      {
        if providers[i].active && providers[i].address == address && providers[i].user != user {
          count := count + 1;
        }
      }
    }

    /** The user's active rows are marked as deleted. */
    method ClearLink(c: nat)
      requires Enabled(State(), Event.ClearLink(c))
      modifies this`calls, this`held
      ensures State() == ClearLinkStep(old(State()), c)
    {
      var call := calls[c];
      var doomed := FindActiveRows(call.user);
      held := held + {call.nonce};
      calls := calls[c := LinkCleared(call.user, call.address, call.nonce, doomed)];
    }

    method FindActiveRows(user: nat) returns (doomed: set<nat>)
      ensures doomed == ActiveRows(providers, user)
    {
      doomed := {};
      for i := 0 to |providers|
        invariant doomed == set k: nat | k < i && providers[k].active && providers[k].user == user
      {
        if providers[i].active && providers[i].user == user {
          doomed := doomed + {i};
        }
      }
    }

    /** The row is revived or created, unless an index refuses it; then the transaction is rolled back. */
    method WriteLink(c: nat) returns (r: Result<(), AuthError>)
      requires Enabled(State(), Event.WriteLink(c))
      modifies this
      ensures State() == WriteLinkStep(old(State()), c)
      ensures r == if LinkRefused(old(State()), c) then Err(ProviderLinked) else Ok(())
    {
      var call, rows := calls[c], Deactivated(providers, calls[c].doomed);
      var k := FindRow(rows, call.user, call.address);
      var refused := IndexRefuses(rows, k, call.user, call.address);
      End(c);
      if refused {
        return Err(ProviderLinked);
      }
      providers := if k < |rows| then rows[k := rows[k].(active := true)]
          else rows + [Provider(call.user, call.address, true)];
      nonces := nonces - {call.nonce};
      return Ok(());
    }

    method FindRow(rows: seq<Provider>, user: nat, address: nat) returns (k: nat)
      ensures k == RowOf(rows, user, address)
    {
      k := 0;
      while k < |rows| && !(rows[k].user == user && rows[k].address == address)
        invariant k <= |rows| && forall i :: 0 <= i < k ==> !(rows[i].user == user && rows[i].address == address)
      {
        k := k + 1;
      }
    }

    method IndexRefuses(rows: seq<Provider>, k: nat, user: nat, address: nat) returns (refused: bool)
      requires k == RowOf(rows, user, address)
      ensures refused == Refused(rows, user, address)
    {
      refused := false;
      for i := 0 to |rows|
        invariant refused <==>
          exists j :: 0 <= j < i && j != k && rows[j].active && (rows[j].user == user || rows[j].address == address)
      {
        if i != k && rows[i].active && (rows[i].user == user || rows[i].address == address) {
          refused := true;
        }
      }
    }

    /** LinkWalletContext, with other requests between its statements. A wait for a held nonce that is cut
        short fails like any other database error. */
    method LinkWallet(user: nat, address: nat, nonce: nat, now: int, signed: bool)
        returns (r: Result<nat, AuthError>, ghost run: seq<Event>)
      requires Sound(State()) && user < users
      modifies this
      ensures Sound(State()) && Ran(old(State()), run, State())
      ensures r.Ok? ==> && r.value == address && signed && Resolve(providers, user) == Some(address)
                        && nonce !in nonces && UseCount(old(State()), run, nonce) >= 1
      ensures !(nonce in old(nonces) && old(nonces)[nonce].owner == address && old(nonces)[nonce].expires >= now) ==>
                r == Err(InvalidNonce) && run == []
      ensures NonceFor(old(State()), nonce, address, now) && !signed ==> r == Err(InvalidSignature) && run == []
      ensures NonceFor(old(State()), nonce, address, now) && signed && r.Err? ==>
                SomeMoment(old(State()), run, LinkCause(r.error, user, address, nonce))
    {
      run := [];
      var checked := CheckLink(user, address, nonce, now, signed);
      if checked.Err? {
        return Err(checked.error), run;
      }
      var c := checked.value;
      OneStep(old(State()), Event.CheckLink(user, address, nonce, now));
      StepSound(old(State()), Event.CheckLink(user, address, nonce, now));
      ghost var rest;
      ghost var begun := State();
      r, rest := CountAndCommit(c);
      run := [Event.CheckLink(user, address, nonce, now)] + rest;
      RunsJoin(old(State()), [Event.CheckLink(user, address, nonce, now)], begun, rest, State());
      if r.Err? {
        MomentLater(old(State()), [Event.CheckLink(user, address, nonce, now)], begun, rest,
            LinkCause(r.error, user, address, nonce));
      }
    }

    /** The transaction. */
    method CountAndCommit(c: nat) returns (r: Result<nat, AuthError>, ghost run: seq<Event>)
      requires Sound(State()) && c < |calls| && calls[c].LinkChecked?
      modifies this
      ensures Sound(State()) && Ran(old(State()), run, State())
      ensures r.Ok? ==> && r.value == old(calls[c]).address && Resolve(providers, old(calls[c]).user) == Some(r.value)
                        && old(calls[c]).nonce !in nonces && UseCount(old(State()), run, old(calls[c]).nonce) >= 1
      ensures r.Err? ==>
                SomeMoment(old(State()), run,
                    LinkCause(r.error, old(calls[c]).user, old(calls[c]).address, old(calls[c]).nonce))
    {
      ghost var call := calls[c];
      var failed;
      failed, run := TryCount(c);
      if failed.Some? {
        return Err(failed.value), run;
      }
      ghost var counted, rest := State(), [];
      r, rest := CommitLink(c);
      RunsJoin(old(State()), run, counted, rest, State());
      UsesNotNegative(old(State()), run, call.nonce);
      if r.Err? {
        MomentLater(old(State()), run, counted, rest, AddressLost(call.user, call.address));
      }
      run := run + rest;
    }

    /** The first statements of the transaction. */
    method TryCount(c: nat) returns (failed: Option<AuthError>, ghost run: seq<Event>)
      requires Sound(State()) && c < |calls| && calls[c].LinkChecked?
      modifies this
      ensures Sound(State()) && Ran(old(State()), run, State())
      ensures failed.None? ==>
                && c < |calls| && calls[c].LinkCounted? && calls[c].user == old(calls[c]).user
                && calls[c].address == old(calls[c]).address && calls[c].nonce == old(calls[c]).nonce
      ensures failed.Some? ==>
                SomeMoment(old(State()), run,
                    LinkCause(failed.value, old(calls[c]).user, old(calls[c]).address, old(calls[c]).nonce))
    {
      run := Others(c, 0);
      ghost var reached, call := State(), calls[c];
      if calls[c].nonce in held {
        OneMoreAt(old(State()), run, reached, GiveUp(c), NonceHeld(call.nonce));
        StepSound(reached, GiveUp(c));
        End(c);
        return Some(Unavailable), run + [GiveUp(c)];
      }
      OneMore(old(State()), run, reached, Event.CountLink(c));
      StepSound(reached, Event.CountLink(c));
      var counted := CountLink(c);
      if counted.Err? {
        OneMoreAt(old(State()), run, reached, Event.CountLink(c),
            LinkCause(counted.error, call.user, call.address, call.nonce));
        return Some(counted.error), run + [Event.CountLink(c)];
      }
      return None, run + [Event.CountLink(c)];
    }

    /** The rest of the transaction. */
    method CommitLink(c: nat) returns (r: Result<nat, AuthError>, ghost run: seq<Event>)
      requires Sound(State()) && c < |calls| && calls[c].LinkCounted?
      modifies this
      ensures Sound(State()) && Ran(old(State()), run, State())
      ensures r.Ok? ==> && r.value == old(calls[c]).address && Resolve(providers, old(calls[c]).user) == Some(r.value)
                        && old(calls[c]).nonce !in nonces && UseCount(old(State()), run, old(calls[c]).nonce) >= 1
      ensures r.Err? ==>
                && r.error == ProviderLinked
                && SomeMoment(old(State()), run, AddressLost(old(calls[c]).user, old(calls[c]).address))
    {
      run := Others(c, 0);
      ghost var reached := State();
      StepSound(reached, Event.ClearLink(c));
      ClearLink(c);
      ghost var rest := Others(c, 0);
      ghost var before := State();
      LinkRun(old(State()), run, reached, c, rest, before);
      StepSound(before, Event.WriteLink(c));
      run := run + [Event.ClearLink(c)] + rest + [Event.WriteLink(c)];
      var address := calls[c].address;
      var written := WriteLink(c);
      if written.Err? {
        return Err(written.error), run;
      }
      LinkIsWallet(before, c);
      return Ok(address), run;
    }

    // ---------- signing in with a wallet ----------

    method CheckLogin(address: nat, nonce: nat, now: int, signed: bool) returns (r: Result<nat, AuthError>)
      modifies this`calls, this`held, this`nonces
      ensures r.Ok? ==>
          && r.value == |old(calls)| && signed
          && Enabled(old(State()), Event.CheckLogin(address, nonce, now))
          && State() == Step(old(State()), Event.CheckLogin(address, nonce, now))
      ensures r.Err? ==>
          State() == old(State())
          || (r == Err(InvalidNonce) && nonce !in old(held) && State() == Step(old(State()), DropNonce(nonce)))
      ensures r == Err(InvalidNonce) <==> !NonceFor(old(State()), nonce, address, now)
      ensures r == Err(InvalidSignature) <==> NonceFor(old(State()), nonce, address, now) && !signed
      ensures r.Ok? <==> NonceFor(old(State()), nonce, address, now) && signed
    {
      if !(nonce in nonces && nonces[nonce].owner == address) {
        return Err(InvalidNonce);
      }
      if now > nonces[nonce].expires {
        if nonce !in held {
          nonces := nonces - {nonce};
        }
        return Err(InvalidNonce);
      }
      if !signed {
        return Err(InvalidSignature);
      }
      var c := Begin(LoginChecked(address, nonce));
      return Ok(c);
    }

    /** The transaction deletes the nonce and looks for the owner. */
    method LookLogin(c: nat) returns (ok: bool)
      requires Enabled(State(), Event.LookLogin(c))
      modifies this`calls, this`held
      ensures State() == LookLoginStep(old(State()), c) && ok == calls[c].LoginLooked?
    {
      var call := calls[c];
      if call.nonce !in nonces {
        End(c);
        return false;
      }
      var k := FindActive(call.address);
      held := held + {call.nonce};
      calls := calls[c := LoginLooked(call.address, call.nonce, if k < |providers| then Some(providers[k].user)
          else None)];
      return true;
    }

    method FindActive(address: nat) returns (k: nat)
      ensures k == ActiveOf(providers, address)
    {
      k := 0;
      while k < |providers| && !(providers[k].active && providers[k].address == address)
        invariant k <= |providers| && forall i :: 0 <= i < k ==>
            !(providers[i].active && providers[i].address == address)
      {
        k := k + 1;
      }
    }

    /** A new user with a row, or, when the index refuses the row, the user of the row in the way. */
    method WriteLogin(c: nat, token: nat, expires: int) returns (user: nat)
      requires Enabled(State(), Event.WriteLogin(c, token, expires))
      modifies this
      ensures user == LoginOwner(old(State()), c) && State() == WriteLoginStep(old(State()), c, token, expires)
    {
      var call := calls[c];
      var k := FindActive(call.address);
      End(c);
      if call.found.Some? {
        user := call.found.value;
      } else if k < |providers| {
        user := providers[k].user;
      } else {
        user := users;
        users := users + 1;
        providers := providers + [Provider(user, call.address, true)];
      }
      nonces := nonces - {call.nonce};
      tokens := tokens[token := OneTime(user, expires)];
      used := used + {token};
    }

    /** Web3VerifyContext: the token is for a user to whom the address is linked at some moment of the
        request. */
    method Web3Verify(address: nat, nonce: nat, now: int, signed: bool, token: nat, expires: int)
        returns (r: Result<nat, AuthError>, ghost run: seq<Event>)
      requires Sound(State()) && token !in used
      modifies this
      ensures Sound(State()) && Ran(old(State()), run, State())
      ensures r.Ok? ==> && signed && token in tokens && tokens[token] == OneTime(r.value, expires)
                        && r.value < users && SomeMoment(old(State()), run, Owned(r.value, address))
                        && nonce !in nonces && UseCount(old(State()), run, nonce) >= 1
      ensures !(nonce in old(nonces) && old(nonces)[nonce].owner == address && old(nonces)[nonce].expires >= now) ==>
                r == Err(InvalidNonce) && tokens == old(tokens) && providers == old(providers)
      ensures NonceFor(old(State()), nonce, address, now) && !signed ==> r == Err(InvalidSignature) && run == []
      ensures NonceFor(old(State()), nonce, address, now) && signed && r.Err? ==>
                SomeMoment(old(State()), run, LoginCause(r.error, nonce))
    {
      run := [];
      var checked := CheckLogin(address, nonce, now, signed);
      if checked.Err? {
        if State() != old(State()) {
          OneStep(old(State()), DropNonce(nonce));
          StepSound(old(State()), DropNonce(nonce));
          run := [DropNonce(nonce)];
        }
        return Err(checked.error), run;
      }
      ghost var first := Event.CheckLogin(address, nonce, now);
      ghost var begun, rest := State(), [];
      OneStep(old(State()), first);
      StepSound(old(State()), first);
      r, rest := LookAndCommit(checked.value, token, expires);
      RunsJoin(old(State()), [first], begun, rest, State());
      run := [first] + rest;
      MomentLater(old(State()), [first], begun, rest, if r.Ok? then Owned(r.value, address)
          else LoginCause(r.error, nonce));
    }

    /** The transaction. */
    method LookAndCommit(c: nat, token: nat, expires: int) returns (r: Result<nat, AuthError>, ghost run: seq<Event>)
      requires Sound(State()) && token !in used && c < |calls| && calls[c].LoginChecked?
      modifies this
      ensures Sound(State()) && Ran(old(State()), run, State())
      ensures r.Ok? ==> && token in tokens && tokens[token] == OneTime(r.value, expires) && r.value < users
                        && SomeMoment(old(State()), run, Owned(r.value, old(calls[c]).address))
                        && old(calls[c]).nonce !in nonces && UseCount(old(State()), run, old(calls[c]).nonce) >= 1
      ensures r.Err? ==> SomeMoment(old(State()), run, LoginCause(r.error, old(calls[c]).nonce))
    {
      ghost var looked;
      var failed;
      failed, run, looked := TryLook(c, token);
      if failed.Some? {
        return Err(failed.value), run;
      }
      ghost var rest := Others(c, token);
      ghost var before := State();
      LoginRun(old(State()), run, looked, c, rest, before, token, expires);
      LoginToken(before, c, token, expires);
      StepSound(before, Event.WriteLogin(c, token, expires));
      var user := WriteLogin(c, token, expires);
      return Ok(user), run + [Event.LookLogin(c)] + rest + [Event.WriteLogin(c, token, expires)];
    }

    /** The first statements of the transaction; looked is the state that the look-up sees, and run leads
        there if they succeed. */
    method TryLook(c: nat, ghost token: nat)
        returns (failed: Option<AuthError>, ghost run: seq<Event>, ghost looked: Auth)
      requires Sound(State()) && token !in used && c < |calls| && calls[c].LoginChecked?
      modifies this
      ensures Sound(State()) && token !in used
      ensures failed.None? ==>
                && Ran(old(State()), run, looked) && Enabled(looked, Event.LookLogin(c))
                && looked.calls[c] == old(calls[c])
                && State() == LookLoginStep(looked, c) && c < |calls| && calls[c].LoginLooked?
      ensures failed.Some? ==>
                && Ran(old(State()), run, State())
                && SomeMoment(old(State()), run, LoginCause(failed.value, old(calls[c]).nonce))
    {
      run := Others(c, token);
      looked := State();
      ghost var nonce := calls[c].nonce;
      if calls[c].nonce in held {
        OneMoreAt(old(State()), run, looked, GiveUp(c), NonceHeld(nonce));
        StepSound(looked, GiveUp(c));
        End(c);
        return Some(Unavailable), run + [GiveUp(c)], looked;
      }
      StepSound(looked, Event.LookLogin(c));
      var ok := LookLogin(c);
      if !ok {
        OneMoreAt(old(State()), run, looked, Event.LookLogin(c), NonceGone(nonce));
        return Some(InvalidNonce), run + [Event.LookLogin(c)], looked;
      }
      return None, run, looked;
    }

    // ---------- refresh tokens ----------

    /** The DELETE by row and the new token; zero affected rows end the request. */
    method Rotate(c: nat, next: nat, expires: int) returns (ok: bool)
      requires Enabled(State(), Event.Rotate(c, next, expires))
      modifies this
      ensures State() == RotateStep(old(State()), c, next, expires) && ok == (old(calls[c]).token in old(tokens))
    {
      var call := calls[c];
      var affected := if call.token in tokens then 1 else 0;
      tokens := tokens - {call.token};
      End(c);
      if affected == 0 {
        return false;
      }
      tokens := tokens[next := OneTime(call.owner, expires)];
      used := used + {next};
      return true;
    }

    /** RefreshContext. */
    method Refresh(token: nat, now: int, next: nat, expires: int)
        returns (r: Result<nat, AuthError>, ghost run: seq<Event>)
      requires Sound(State()) && next !in used
      modifies this
      ensures Sound(State()) && Ran(old(State()), run, State())
      ensures r.Ok? ==> && token in old(tokens) && now <= old(tokens)[token].expires
                        && r.value == next && next in tokens && tokens[next].owner == old(tokens)[token].owner
                        && token !in tokens && UseCount(old(State()), run, token) >= 1
      ensures token in old(tokens) && now > old(tokens)[token].expires ==>
                r == Err(InvalidToken) && run == [DropToken(token)]
      ensures token !in old(tokens) ==> r == Err(InvalidToken) && run == []
      ensures token in old(tokens) && now <= old(tokens)[token].expires && r.Err? ==>
                if old(tokens)[token].owner >= old(users) then r == Err(UserNotFound) && run == []
                else r == Err(InvalidToken) && next !in tokens && SomeMoment(old(State()), run, TokenGone(token))
    {
      run := [];
      if token !in tokens {
        return Err(InvalidToken), run;
      }
      var stored := tokens[token];
      if now > stored.expires {
        OneStep(State(), DropToken(token));
        StepSound(State(), DropToken(token));
        tokens := tokens - {token};
        return Err(InvalidToken), [DropToken(token)];
      }
      if stored.owner >= users {
        return Err(UserNotFound), run;
      }
      ghost var first := ReadToken(token, now);
      OneStep(State(), first);
      StepSound(State(), first);
      var c := Begin(RefreshRead(token, stored.owner));
      ghost var begun := State();
      ghost var rest := Others(c, next);
      ghost var before, last := State(), Event.Rotate(c, next, expires);
      RunsJoin(old(State()), [first], begun, rest, before);
      OneMore(old(State()), [first] + rest, before, last);
      UsesNotNegative(old(State()), [first] + rest, token);
      StepSound(before, last);
      var ok := Rotate(c, next, expires);
      if !ok {
        MomentAt(old(State()), [first] + rest, before, [last], TokenGone(token));
      }
      return if ok then Ok(next) else Err(InvalidToken), [first] + rest + [last];
    }

    // ---------- nonces ----------

    method FindNonces(address: nat) returns (found: set<nat>)
      ensures found == NoncesOf(State(), address)
    {
      found := set n | n in nonces && nonces[n].owner == address;
    }

    /** Web3NonceContext: the nonces of the address that its DELETE sees go when the new one is committed. */
    method Web3Nonce(address: nat, nonce: nat, expires: int) returns (ok: bool, ghost run: seq<Event>)
      requires Sound(State()) && nonce !in used
      modifies this
      ensures Sound(State()) && Ran(old(State()), run, State())
      ensures !ok ==> run == [] && exists n :: n in old(held) && n in old(nonces) && old(nonces)[n].owner == address
      ensures ok ==> nonce in nonces && nonces[nonce] == OneTime(address, expires)
      ensures ok ==> forall n :: n in old(nonces) && old(nonces)[n].owner == address ==> n !in nonces
    {
      run := [];
      var doomed := FindNonces(address);
      if !(doomed !! held) {
        return false, run;
      }
      ghost var first := ClearNonces(address);
      OneStep(State(), first);
      StepSound(State(), first);
      var c := Begin(NoncesCleared(address, doomed));
      ghost var begun := State();
      ghost var rest := Others(c, nonce);
      ghost var before, last := State(), IssueNonce(c, nonce, expires);
      RunsJoin(old(State()), [first], begun, rest, before);
      OneMore(old(State()), [first] + rest, before, last);
      StepSound(before, last);
      DoomedAreOld(before, c);
      End(c);
      nonces := (nonces - doomed)[nonce := OneTime(address, expires)];
      used := used + {nonce};
      return true, [first] + rest + [last];
    }

    /** resolveWalletAddress. */
    method ResolveWalletAddress(user: nat) returns (r: Option<nat>)
      ensures r == Resolve(providers, user)
    {
      r := None;
      for i := 0 to |providers|
        invariant r == Resolve(providers[..i], user)
      {
        assert providers[..i + 1][..i] == providers[..i];
        if r.None? && providers[i].active && providers[i].user == user {
          r := Some(providers[i].address);
        }
      }
      assert providers[..|providers|] == providers;
    }
  }

  lemma DoomedAreOld(auth: Auth, c: nat)
    requires Sound(auth) && c < |auth.calls| && auth.calls[c].NoncesCleared?
    ensures auth.calls[c].doomed <= auth.used
  {
    assert CallSound(auth, auth.calls[c]);
  }
}
