/** What every run of the credential registry promises. */
module TenantProofs {
  import opened Journals
  import opened HandoverTypes
  import opened SessionText
  import opened TenantSpec
  import D = Decimal

  // ---- distinct credentials

  lemma SmallerMap(a: map<Digest, Bootstrap>, b: map<Digest, Bootstrap>)
    requires a.Keys <= b.Keys
    ensures |a| <= |b|
  {
    var rest := b.Keys - a.Keys;
    assert a.Keys + rest == b.Keys;
    assert |a.Keys + rest| == |a.Keys| + |rest|;
  }

  lemma InstallKeepsSize(live: map<Digest, Bootstrap>, digest: Digest, bootstrap: Bootstrap)
    ensures |live[digest := bootstrap]| <= |live| + 1
  {
  }

  lemma RegisterKeepsValid(r: Registry, id: AccountId)
    requires Valid(r)
    ensures Valid(Registered(r, id))
  {
  }

  lemma GrantKeepsValid(r: Registry, id: AccountId, token: string, expires: Option<int>, now: int)
    requires Valid(r)
    ensures Valid(Granted(r, id, token, expires, now))
  {
  }

  lemma BootstrapKeepsValid(r: Registry, id: AccountId, token: string, expires: int, now: int, after: Registry)
    requires Valid(r) && Bootstrapped(r, id, token, expires, now, after)
    ensures Valid(after)
  {
    var live := Unexpired(r.bootstraps, now);
    SmallerMap(live, r.bootstraps);
    if JudgeBootstrap(r, id, token, expires, now).Installed? {
      InstallKeepsSize(live, Digest(token), Bootstrap(id, expires));
      forall i <- after.credentials | after.credentials[i].hash.Some?
        ensures after.credentials[i].hash.value !in after.bootstraps
      {
        assert !HoldsGrant(r.credentials[i], Digest(token));
      }
    } else {
      SmallerMap(after.bootstraps, r.bootstraps);
    }
  }

  lemma RevokeKeepsValid(r: Registry, id: AccountId)
    requires Valid(r)
    ensures Valid(Revoked(r, id))
  {
    SmallerMap(Revoked(r, id).bootstraps, r.bootstraps);
  }

  lemma LoginKeepsValid(r: Registry, id: AccountId, token: string, now: int)
    requires Valid(r)
    ensures Valid(LoggedIn(r, id, token, now))
  {
    SmallerMap(LoggedIn(r, id, token, now).bootstraps, r.bootstraps);
  }

  /** Grants stay pairwise distinct and apart from the login tokens, every login
      token opens a registered runtime, and there are never more than the limit. */
  lemma EventKeepsValid(r: Registry, event: Event, after: Registry)
    requires Valid(r) && Next(r, event, after)
    ensures Valid(after)
  {
    match event
    case Register(id) => RegisterKeepsValid(r, id);
    case SetGrant(id, token, until, now) => GrantKeepsValid(r, id, token, until, now);
    case SetBootstrap(id, token, expires, now) => BootstrapKeepsValid(r, id, token, expires, now, after);
    case Revoke(id) => RevokeKeepsValid(r, id);
    case Login(id, token, now) => LoginKeepsValid(r, id, token, now);
  }

  lemma {:induction false} RunKeepsValid(states: seq<Registry>, events: seq<Event>, i: nat)
    requires Run(states, events) && Valid(states[0]) && i <= |events|
    ensures Valid(states[i])
  {
    if i > 0 {
      RunKeepsValid(states, events, i - 1);
      assert NextAt(states, events, i - 1);
      EventKeepsValid(states[i - 1], events[i - 1], states[i]);
    }
  }

  lemma MatchIsUnique(r: Registry, digest: Digest, now: int)
    requires Valid(r)
    ensures |Matches(r, digest, now)| <= 1
  {
    var found := Matches(r, digest, now);
    if id :| id in found {
      forall other | other in found ensures other == id {
        assert r.credentials[id].hash == r.credentials[other].hash;
      }
      assert found == {id};
    }
  }

  /** In every reachable registry a bearer token opens at most one runtime, and a
      login token opens none as a bearer token. */
  lemma BearerIsUnambiguous(states: seq<Registry>, events: seq<Event>, token: string, now: int)
    requires Run(states, events) && states[0] == EMPTY
    ensures |Matches(states[|events|], Digest(token), now)| <= 1
    ensures Digest(token) in states[|events|].bootstraps ==> Matches(states[|events|], Digest(token), now) == {}
  {
    RunKeepsValid(states, events, |events|);
    MatchIsUnique(states[|events|], Digest(token), now);
  }

  // ---- sessions

  /** The registrations among the first `i` events that took effect for this runtime. */
  ghost function Registrations(states: seq<Registry>, events: seq<Event>, id: AccountId, i: nat): (n: nat)
    requires Run(states, events) && i <= |events|
    ensures n <= i
  {
    if i == 0 then 0
    else
      Registrations(states, events, id, i - 1)
      + if events[i - 1] == Register(id) && id !in states[i - 1].credentials then 1 else 0
  }

  /** The generation this many registrations later: zero is skipped, so a turn takes 2^64 - 1. */
  function Later(generation: nat, registrations: nat): nat
    requires generation > 0
  {
    (generation - 1 + registrations) % UINT64 + 1
  }

  lemma LaterSteps(generation: nat, registrations: nat)
    requires 0 < generation <= UINT64
    ensures NextGeneration(Later(generation, registrations)) == Later(generation, registrations + 1)
    ensures Later(generation, registrations) == generation <==> registrations % UINT64 == 0
  {
  }

  lemma GenerationMoves(r: Registry, event: Event, after: Registry, id: AccountId)
    requires CanonicalId(id) && Next(r, event, after)
    ensures GenerationOf(after, id) ==
              if event == Register(id) && id !in r.credentials then NextGeneration(GenerationOf(r, id)) else GenerationOf(r, id)
    ensures id in after.credentials <==> (id in r.credentials && event != Revoke(id)) || event == Register(id)
  {
  }

  lemma MovesAt(states: seq<Registry>, events: seq<Event>, id: AccountId, i: nat)
    requires Run(states, events) && CanonicalId(id) && i < |events|
    ensures GenerationOf(states[i + 1], id) ==
              if events[i] == Register(id) && id !in states[i].credentials then NextGeneration(GenerationOf(states[i], id))
              else GenerationOf(states[i], id)
    ensures id in states[i + 1].credentials <==>
              (id in states[i].credentials && events[i] != Revoke(id)) || events[i] == Register(id)
  {
    assert NextAt(states, events, i);
    GenerationMoves(states[i], events[i], states[i + 1], id);
  }

  lemma {:induction false} SinceMinted(states: seq<Registry>, events: seq<Event>, id: AccountId, generation: nat, i: nat)
    requires Run(states, events) && CanonicalId(id) && GenerationOf(states[0], id) == generation && 0 < generation <= UINT64
    requires i <= |events|
    ensures GenerationOf(states[i], id) == Later(generation, Registrations(states, events, id, i))
  {
    if i > 0 {
      SinceMinted(states, events, id, generation, i - 1);
      MovesAt(states, events, id, i - 1);
      LaterSteps(generation, Registrations(states, events, id, i - 1));
    }
  }

  /** Registered, and the generation counter is where it was: it has made whole turns, if
      it moved at all. */
  ghost predicate CameBack(states: seq<Registry>, events: seq<Event>, id: AccountId)
    requires Run(states, events)
  {
    id in states[|events|].credentials && Registrations(states, events, id, |events|) % UINT64 == 0
  }

  /** Exactly when a session opens its runtime, over any run: unexpired, and the runtime is
      registered under the generation of then. */
  lemma SessionOpens(signing: Signing, states: seq<Registry>, events: seq<Event>, id: AccountId,
                     minted: int, ttl: int, now: int)
    requires Lawful(signing) && Run(states, events) && Valid(states[0]) && id in states[0].credentials
    requires 0 - D.LIMIT_63 <= UnixSeconds(minted + ttl) < D.LIMIT_63
    ensures var session, end := Minted(signing, states[0], id, minted, ttl), states[|events|];
            Authenticated(signing, end, session, now) ==
              if UnixSeconds(now) < UnixSeconds(minted + ttl) && CameBack(states, events, id) then Some(id) else None
  {
    var g := states[0].credentials[id].generation;
    RunKeepsValid(states, events, |events|);
    SinceMinted(states, events, id, g, |events|);
    LaterSteps(g, Registrations(states, events, id, |events|));
    SessionRoundTrip(signing, id, g, UnixSeconds(minted + ttl));
  }

  lemma {:induction false} RevokedSince(states: seq<Registry>, events: seq<Event>, id: AccountId, i: nat)
    requires Run(states, events) && CanonicalId(id) && id in states[0].credentials && i <= |events|
    ensures id in states[i].credentials && Registrations(states, events, id, i) == 0 <==> Revoke(id) !in events[..i]
  {
    if i > 0 {
      RevokedSince(states, events, id, i - 1);
      MovesAt(states, events, id, i - 1);
      assert events[..i] == events[..i - 1] + [events[i - 1]];
    }
  }

  lemma NeverRevoked(states: seq<Registry>, events: seq<Event>, id: AccountId)
    requires Run(states, events) && CanonicalId(id) && id in states[0].credentials
    requires Registrations(states, events, id, |events|) < UINT64
    ensures CameBack(states, events, id) <==> Revoke(id) !in events
  {
    RevokedSince(states, events, id, |events|);
    assert events[..|events|] == events;
  }

  /** Short of a whole turn of the counter: a session opens its own runtime exactly while it
      is unexpired and that runtime was never revoked. */
  lemma SessionLives(signing: Signing, states: seq<Registry>, events: seq<Event>, id: AccountId,
                     minted: int, ttl: int, now: int)
    requires Lawful(signing) && Run(states, events) && Valid(states[0]) && id in states[0].credentials
    requires Registrations(states, events, id, |events|) < UINT64
    requires 0 - D.LIMIT_63 <= UnixSeconds(minted + ttl) < D.LIMIT_63
    ensures var session := Minted(signing, states[0], id, minted, ttl);
            Authenticated(signing, states[|events|], session, now) ==
              if UnixSeconds(now) < UnixSeconds(minted + ttl) && Revoke(id) !in events then Some(id) else None
  {
    SessionOpens(signing, states, events, id, minted, ttl, now);
    NeverRevoked(states, events, id);
  }

  // ---- a session that survives its revocation

  /** Revoke and register, again and again. */
  function Turned(r: Registry, id: AccountId, events: nat): Registry {
    if events == 0 then r
    else if events % 2 == 1 then Revoked(Turned(r, id, events - 1), id)
    else Registered(Turned(r, id, events - 1), id)
  }

  function TurnStates(r: Registry, id: AccountId, turns: nat): seq<Registry> {
    seq(2 * turns + 1, i requires 0 <= i => Turned(r, id, i))
  }

  function TurnEvents(id: AccountId, turns: nat): seq<Event> {
    seq(2 * turns, i => if i % 2 == 0 then Revoke(id) else Register(id))
  }

  lemma {:induction false} TurnedHolds(r: Registry, id: AccountId, events: nat)
    requires CanonicalId(id) && id in r.credentials
    ensures id in Turned(r, id, events).credentials <==> events % 2 == 0
  {
    if events > 0 { TurnedHolds(r, id, events - 1); }
  }

  lemma TurnsRun(r: Registry, id: AccountId, turns: nat)
    ensures Run(TurnStates(r, id, turns), TurnEvents(id, turns))
  {
    var states, events := TurnStates(r, id, turns), TurnEvents(id, turns);
    forall i: nat | i < |events| ensures NextAt(states, events, i) {
      assert states[i + 1] == Turned(r, id, i + 1) && states[i] == Turned(r, id, i);
    }
  }

  lemma {:induction false} TurnsRegister(r: Registry, id: AccountId, turns: nat, i: nat)
    requires CanonicalId(id) && id in r.credentials && i <= 2 * turns
    requires Run(TurnStates(r, id, turns), TurnEvents(id, turns))
    ensures Registrations(TurnStates(r, id, turns), TurnEvents(id, turns), id, i) == i / 2
    decreases i
  {
    if i > 0 {
      TurnsRegister(r, id, turns, i - 1);
      TurnedHolds(r, id, i - 1);
    }
  }

  lemma TurnsComeBack(r: Registry, id: AccountId, turns: nat)
    requires CanonicalId(id) && id in r.credentials
    requires Run(TurnStates(r, id, turns), TurnEvents(id, turns))
    ensures CameBack(TurnStates(r, id, turns), TurnEvents(id, turns), id) <==> turns % UINT64 == 0
  {
    TurnsRegister(r, id, turns, 2 * turns);
    TurnedHolds(r, id, 2 * turns);
  }

  /** The failing runs: minted at the first registration, then revoked and registered again
      any number of times, a session opens the runtime exactly after whole turns of
      2^64 - 1, although every turn revoked it. */
  lemma WrapRevives(signing: Signing, turns: nat, minted: int, ttl: int, now: int)
    requires Lawful(signing) && 0 - D.LIMIT_63 <= UnixSeconds(minted + ttl) < D.LIMIT_63
    requires UnixSeconds(now) < UnixSeconds(minted + ttl)
    ensures var first := Registered(EMPTY, "a");
            var states, events := TurnStates(first, "a", turns), TurnEvents("a", turns);
            && Next(EMPTY, Register("a"), first) && Run(states, events) && (turns > 0 ==> Revoke("a") in events)
            && Authenticated(signing, states[|events|], Minted(signing, first, "a", minted, ttl), now)
               == if turns % UINT64 == 0 then Some("a") else None
  {
    var first := Registered(EMPTY, "a");
    var states, events := TurnStates(first, "a", turns), TurnEvents("a", turns);
    RegisterKeepsValid(EMPTY, "a");
    TurnsRun(first, "a", turns);
    TurnsComeBack(first, "a", turns);
    SessionOpens(signing, states, events, "a", minted, ttl, now);
    assert turns > 0 ==> events[0] == Revoke("a");
  }

  /** Only a signature over its own first four parts lets a string in, and only for
      a runtime that is registered now. */
  lemma OnlySignedOpens(signing: Signing, r: Registry, value: string, now: int)
    requires Authenticated(signing, r, value, now).Some?
    ensures Authenticated(signing, r, value, now).value in r.credentials
    ensures exists payload, signature ::
              value == payload + "." + signature && signing.decode(signature) == Some(signing.sign(payload))
  {
    ReadIsSigned(signing, value);
  }

  // ---- login tokens are spent once

  ghost predicate Unknown(r: Registry, digest: Digest) {
    digest !in r.bootstraps && forall id <- r.credentials :: !HoldsGrant(r.credentials[id], digest)
  }

  predicate Introduces(event: Event, token: string) {
    (event.SetGrant? || event.SetBootstrap?) && event.token == token
  }

  lemma UnknownStays(r: Registry, event: Event, after: Registry, token: string)
    requires Next(r, event, after) && Unknown(r, Digest(token)) && !Introduces(event, token)
    ensures Unknown(after, Digest(token))
  {
  }

  lemma {:induction false} StaysUnknown(states: seq<Registry>, events: seq<Event>, token: string, i: nat)
    requires Run(states, events) && 0 < i <= |events| && Unknown(states[1], Digest(token))
    requires forall k :: 0 < k < i ==> !Introduces(events[k], token)
    ensures Unknown(states[i], Digest(token))
  {
    if i > 1 {
      StaysUnknown(states, events, token, i - 1);
      assert NextAt(states, events, i - 1);
      UnknownStays(states[i - 1], events[i - 1], states[i], token);
    }
  }

  /** A login with a one-use token spends it: until someone installs the same token
      again, it opens nothing, neither by login nor as a bearer token. */
  lemma TokenIsSpent(states: seq<Registry>, events: seq<Event>, token: string, i: nat, id: AccountId, now: int)
    requires Run(states, events) && Valid(states[0]) && 0 < i <= |events|
    requires events[0].Login? && events[0].token == token
    requires OpensByBootstrap(states[0], events[0].id, token, events[0].now)
    requires forall k :: 0 < k < i ==> !Introduces(events[k], token)
    ensures !OpensByGrant(states[i], id, token, now) && !OpensByBootstrap(states[i], id, token, now)
    ensures Matches(states[i], Digest(token), now) == {}
  {
    var digest := Digest(token);
    forall other <- states[0].credentials ensures !HoldsGrant(states[0].credentials[other], digest) {
      assert digest in states[0].bootstraps;
    }
    assert NextAt(states, events, 0);
    StaysUnknown(states, events, token, i);
  }
}
