/** What the credential registry answers, and what a grant or a login token is good for. */
module TenantAnswers {
  import opened Journals
  import opened HandoverTypes
  import opened TenantSpec
  import opened TenantProofs

  /** This token is the dashboard grant of the runtime. */
  predicate GrantOf(r: Registry, id: AccountId, token: string) {
    id in r.credentials && r.credentials[id].hash == Some(Digest(token))
  }

  /** Still good at this time. */
  predicate Before(expires: Option<int>, now: int) {
    expires.Some? ==> now < expires.value
  }

  /** The grants and the registration of one runtime are what they were. */
  predicate SameCredential(r: Registry, d: Registry, id: AccountId) {
    (id in d.credentials <==> id in r.credentials) && (id in r.credentials ==> d.credentials[id] == r.credentials[id])
  }

  /** A registration takes effect exactly for a canonical runtime that has none, and starts
      without a grant; no other runtime and no token changes. */
  lemma RegisteredExactly(r: Registry, id: AccountId, other: AccountId)
    ensures var d := Registered(r, id);
            && d.bootstraps == r.bootstraps && (other != id ==> SameCredential(r, d, other))
            && (CanonicalId(id) && id !in r.credentials ==>
                  id in d.credentials && d.credentials[id].hash.None? && d.credentials[id].grantExpires.None?)
            && (!CanonicalId(id) || id in r.credentials ==> d == r)
  {
  }

  /** Each refusal of a grant in its order; a set grant is the runtime's only one. */
  lemma GrantExactly(r: Registry, id: AccountId, token: string, expires: Option<int>, now: int, other: AccountId)
    ensures var (reply, d) := (JudgeGrant(r, id, token, expires, now), Granted(r, id, token, expires, now));
            var long, known := ByteLength(token) >= 32, id in r.credentials;
            var taken, isToken := exists holder :: holder != id && GrantOf(r, holder, token), Digest(token) in r.bootstraps;
            && (reply.GrantTooShort? <==> !long)
            && (reply.GrantInPast? <==> long && !Before(expires, now))
            && (reply.GrantUnregistered? <==> long && Before(expires, now) && !known)
            && (reply.GrantOfAnother? <==> long && Before(expires, now) && known && taken)
            && (reply.GrantIsBootstrap? <==> long && Before(expires, now) && known && !taken && isToken)
            && (reply.GrantSet? <==> long && Before(expires, now) && known && !taken && !isToken)
            && (!reply.GrantSet? ==> d == r)
            && (reply.GrantSet? ==>
                  && GrantOf(d, id, token) && d.credentials[id].grantExpires == expires
                  && d.credentials[id].generation == r.credentials[id].generation
                  && d.bootstraps == r.bootstraps && d.generations == r.generations && (other != id ==> SameCredential(r, d, other)))
  {
    assert forall holder <- r.credentials :: GrantOf(r, holder, token) == HoldsGrant(r.credentials[holder], Digest(token));
  }

  /** Active at this time. */
  predicate ActiveToken(r: Registry, digest: Digest, now: int) {
    digest in r.bootstraps && now < r.bootstraps[digest].expires
  }

  /** Each refusal of a login token in its order; an installed one joins the active ones. */
  lemma TokenExactly(r: Registry, id: AccountId, token: string, expires: int, now: int, after: Registry, digest: Digest)
    requires Bootstrapped(r, id, token, expires, now, after)
    ensures var reply, actives := JudgeBootstrap(r, id, token, expires, now), set d | d in r.bootstraps && ActiveToken(r, d, now);
            var formed := ByteLength(token) >= 32 && IsTrimmed(token);
            var isGrant, active, full := exists holder :: GrantOf(r, holder, token), ActiveToken(r, Digest(token), now), |actives| >= 256;
            var known := id in r.credentials;
            && (reply.BadToken? <==> !formed)
            && (reply.InPast? <==> formed && expires <= now)
            && (reply.Unregistered? <==> formed && now < expires && !known)
            && (reply.IsGrant? <==> formed && now < expires && known && isGrant)
            && (reply.AlreadyActive? <==> formed && now < expires && known && !isGrant && active)
            && (reply.TooMany? <==> formed && now < expires && known && !isGrant && !active && full)
            && (reply.Installed? <==> formed && now < expires && known && !isGrant && !active && !full)
            && after.credentials == r.credentials && after.generations == r.generations
            && (digest in after.bootstraps && !(reply.Installed? && digest == Digest(token)) ==>
                  digest in r.bootstraps && after.bootstraps[digest] == r.bootstraps[digest])
            && (ActiveToken(r, digest, now) ==> digest in after.bootstraps)
            && (reply.Installed? ==> Digest(token) in after.bootstraps && after.bootstraps[Digest(token)] == Bootstrap(id, expires))
            && (reply.Installed? || reply.TooMany? ==> digest in after.bootstraps ==> now < after.bootstraps[digest].expires)
            && (reply.BadToken? || reply.InPast? || reply.Unregistered? || reply.IsGrant? ==> after == r)
  {
    assert forall holder <- r.credentials :: GrantOf(r, holder, token) == HoldsGrant(r.credentials[holder], Digest(token));
    assert (set d | d in r.bootstraps && ActiveToken(r, d, now)) == Unexpired(r.bootstraps, now).Keys;
  }

  /** Revocation takes the runtime's credential and all its login tokens, and nothing else. */
  lemma RevokedExactly(r: Registry, id: AccountId, other: AccountId, digest: Digest)
    ensures var d := Revoked(r, id);
            && id !in d.credentials && d.generations == r.generations && (other != id ==> SameCredential(r, d, other))
            && (digest in d.bootstraps <==> digest in r.bootstraps && r.bootstraps[digest].runtime != id)
            && (digest in d.bootstraps ==> d.bootstraps[digest] == r.bootstraps[digest])
  {
  }

  /** A token opens a registered runtime by login exactly as its own unexpired grant, or else
      as its own unexpired login token, which is then gone. */
  lemma LoginExactly(r: Registry, id: AccountId, token: string, now: int, digest: Digest)
    ensures var d := LoggedIn(r, id, token, now);
            var byGrant := GrantOf(r, id, token) && Before(r.credentials[id].grantExpires, now);
            var byToken := ActiveToken(r, Digest(token), now) && r.bootstraps[Digest(token)].runtime == id && id in r.credentials && !byGrant;
            && (OpensByGrant(r, id, token, now) <==> byGrant) && (OpensByBootstrap(r, id, token, now) <==> byToken)
            && d.credentials == r.credentials && d.generations == r.generations
            && (byGrant || id !in r.credentials ==> d == r)
            && (!byGrant && id in r.credentials ==>
                  (digest in d.bootstraps <==> ActiveToken(r, digest, now) && !(byToken && digest == Digest(token))))
            && (digest in d.bootstraps ==> d.bootstraps[digest] == r.bootstraps[digest])
  {
  }

  // ---- over runs

  /** The event gives or takes the runtime's grant. */
  predicate MovesGrant(event: Event, id: AccountId) {
    event == Revoke(id) || (event.SetGrant? && event.id == id)
  }

  lemma GrantStays(r: Registry, event: Event, d: Registry, id: AccountId)
    requires Next(r, event, d) && id in r.credentials && !MovesGrant(event, id)
    ensures id in d.credentials && d.credentials[id] == r.credentials[id]
  {
  }

  lemma {:induction false} GrantStaysOver(states: seq<Registry>, events: seq<Event>, id: AccountId, i: nat)
    requires Run(states, events) && id in states[0].credentials && i <= |events|
    requires forall k :: 0 <= k < i ==> !MovesGrant(events[k], id)
    ensures id in states[i].credentials && states[i].credentials[id] == states[0].credentials[id]
    decreases i
  {
    if i > 0 {
      GrantStaysOver(states, events, id, i - 1);
      assert NextAt(states, events, i - 1);
      GrantStays(states[i - 1], events[i - 1], states[i], id);
    }
  }

  /** A grant that was set opens its runtime, alone among all bearer tokens, until it expires,
      through every run that neither revokes the runtime nor sets it another grant. */
  lemma GrantOpens(r: Registry, id: AccountId, token: string, expires: Option<int>, at: int, states: seq<Registry>,
                   events: seq<Event>, bearer: string, now: int)
    requires Valid(r) && JudgeGrant(r, id, token, expires, at).GrantSet?
    requires Run(states, events) && states[0] == Granted(r, id, token, expires, at)
    requires forall k :: 0 <= k < |events| ==> !MovesGrant(events[k], id)
    ensures id in Matches(states[|events|], Digest(bearer), now) <==> bearer == token && Before(expires, now)
    ensures bearer == token && Before(expires, now) ==> Matches(states[|events|], Digest(bearer), now) == {id}
  {
    var d := states[|events|];
    GrantExactly(r, id, token, expires, at, id);
    GrantKeepsValid(r, id, token, expires, at);
    RunKeepsValid(states, events, |events|);
    GrantStaysOver(states, events, id, |events|);
    MatchIsUnique(d, Digest(bearer), now);
    if bearer == token && Before(expires, now) {
      forall other | other in Matches(d, Digest(bearer), now) ensures other == id {
        assert d.credentials[other].hash == d.credentials[id].hash;
      }
    }
  }

  /** A revoked runtime is opened by no bearer token until it is registered again and given a
      grant. */
  lemma RevokedIsClosed(r: Registry, id: AccountId, states: seq<Registry>, events: seq<Event>, bearer: string, now: int)
    requires Run(states, events) && states[0] == Revoked(r, id)
    requires forall k :: 0 <= k < |events| ==> !(events[k].SetGrant? && events[k].id == id)
    ensures id !in Matches(states[|events|], Digest(bearer), now)
  {
    NoGrantStays(states, events, id, |events|);
  }

  lemma NoGrantNext(r: Registry, event: Event, d: Registry, id: AccountId)
    requires Next(r, event, d) && (id in r.credentials ==> r.credentials[id].hash.None?) && !(event.SetGrant? && event.id == id)
    ensures id in d.credentials ==> d.credentials[id].hash.None?
  {
  }

  lemma {:induction false} NoGrantStays(states: seq<Registry>, events: seq<Event>, id: AccountId, i: nat)
    requires Run(states, events) && i <= |events| && (id in states[0].credentials ==> states[0].credentials[id].hash.None?)
    requires forall k :: 0 <= k < i ==> !(events[k].SetGrant? && events[k].id == id)
    ensures id in states[i].credentials ==> states[i].credentials[id].hash.None?
    decreases i
  {
    if i > 0 {
      NoGrantStays(states, events, id, i - 1);
      assert NextAt(states, events, i - 1);
      NoGrantNext(states[i - 1], events[i - 1], states[i], id);
    }
  }

  /** The event is over by this time, and does not take, spend or renew the login token. */
  predicate LeavesToken(event: Event, id: AccountId, token: string, now: int) {
    match event
    case Revoke(other) => other != id
    case Login(other, used, at) => at <= now && !(other == id && used == token)
    case SetBootstrap(_, other, _, at) => at <= now && other != token
    case SetGrant(_, _, _, at) => at <= now
    case Register(_) => true
  }

  /** The login token is held for its runtime, and is nobody's grant. */
  ghost predicate HoldsToken(r: Registry, id: AccountId, token: string, expires: int) {
    && id in r.credentials && Digest(token) in r.bootstraps && r.bootstraps[Digest(token)] == Bootstrap(id, expires)
    && forall holder <- r.credentials :: !HoldsGrant(r.credentials[holder], Digest(token))
  }

  lemma TokenStays(r: Registry, event: Event, d: Registry, id: AccountId, token: string, expires: int, now: int)
    requires Next(r, event, d) && HoldsToken(r, id, token, expires) && LeavesToken(event, id, token, now) && now < expires
    ensures HoldsToken(d, id, token, expires)
  {
    match event
    case SetBootstrap(other, used, until, at) => TokenExactly(r, other, used, until, at, d, Digest(token));
    case Login(other, used, at) => LoginExactly(r, other, used, at, Digest(token));
    case _ =>
  }

  lemma {:induction false} TokenStaysOver(states: seq<Registry>, events: seq<Event>, id: AccountId, token: string, expires: int,
                                          now: int, i: nat)
    requires Run(states, events) && i <= |events| && HoldsToken(states[0], id, token, expires) && now < expires
    requires forall k :: 0 <= k < i ==> LeavesToken(events[k], id, token, now)
    ensures HoldsToken(states[i], id, token, expires)
    decreases i
  {
    if i > 0 {
      TokenStaysOver(states, events, id, token, expires, now, i - 1);
      assert NextAt(states, events, i - 1);
      TokenStays(states[i - 1], events[i - 1], states[i], id, token, expires, now);
    }
  }

  /** An installed login token logs its runtime in, and no other, until it expires: through
      every run up to then that neither spends nor reinstalls it nor revokes the runtime. */
  lemma TokenOpens(r: Registry, id: AccountId, token: string, expires: int, at: int, states: seq<Registry>, events: seq<Event>,
                   other: AccountId, now: int)
    requires JudgeBootstrap(r, id, token, expires, at).Installed? && Run(states, events)
    requires Bootstrapped(r, id, token, expires, at, states[0]) && now < expires
    requires forall k :: 0 <= k < |events| ==> LeavesToken(events[k], id, token, now)
    ensures OpensByBootstrap(states[|events|], other, token, now) <==> other == id
  {
    TokenExactly(r, id, token, expires, at, states[0], Digest(token));
    forall holder <- states[0].credentials ensures !HoldsGrant(states[0].credentials[holder], Digest(token)) {
      assert !GrantOf(r, holder, token);
    }
    TokenStaysOver(states, events, id, token, expires, now, |events|);
    LoginExactly(states[|events|], other, token, now, Digest(token));
  }
}
