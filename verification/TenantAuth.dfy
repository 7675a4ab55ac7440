/** The authenticator of a hosted cell: it keeps the registry in maps and changes
    them entry by entry. The order in which a map is walked is arbitrary. */
module TenantAuth {
  import opened Journals
  import opened HandoverTypes
  import opened SessionText
  import opened TenantSpec
  import D = Decimal
  import opened TenantProofs

  class TenantAuthenticator {
    var credentials: map<AccountId, Credential>
    var bootstraps: map<Digest, Bootstrap>
    var generations: map<AccountId, nat>
    const signing: Signing
    const sessionTTL: int

    function State(): Registry
      reads this
    {
      Registry(credentials, bootstraps, generations)
    }

    constructor (signing: Signing, sessionTTL: int)
      ensures State() == EMPTY && Valid(State()) && this.signing == signing && this.sessionTTL == sessionTTL
    {
      credentials, bootstraps, generations := map[], map[], map[];
      this.signing, this.sessionTTL := signing, sessionTTL;
    }

    method RegisterRuntime(id: AccountId) returns (ok: bool)
      requires Valid(State())
      modifies this
      ensures Next(old(State()), Register(id), State()) && Valid(State())
      ensures ok == CanonicalId(id)
    {
      EventKeepsValid(State(), Register(id), Registered(State(), id));
      if !CanonicalId(id) { return false; }
      if id in credentials { return true; }
      var generation := ((if id in generations then generations[id] else 0) + 1) % (UINT64 + 1);
      if generation == 0 { generation := 1; }
      generations := generations[id := generation];
      credentials := credentials[id := Credential(generation, None, None)];
      ok := true;
    }

    /** Whether some runtime other than `except` holds the digest as its grant. */
    method FindGrant(digest: Digest, except: Option<AccountId>) returns (found: bool)
      ensures found == exists id <- credentials :: Some(id) != except && HoldsGrant(credentials[id], digest)
    {
      var remaining := credentials.Keys;
      while remaining != {}
        invariant remaining <= credentials.Keys
        invariant forall id <- credentials ::
            id !in remaining && HoldsGrant(credentials[id], digest) ==> Some(id) == except
        decreases |remaining|
      {
        var id :| id in remaining;
        remaining := remaining - {id};
        if Some(id) != except && HoldsGrant(credentials[id], digest) { return true; }
      }
      found := false;
    }

    method SetDashboardGrant(id: AccountId, token: string, expiresAt: Option<int>, now: int) returns (reply: GrantReply)
      requires Valid(State())
      modifies this
      ensures Next(old(State()), SetGrant(id, token, expiresAt, now), State()) && Valid(State())
      ensures reply == JudgeGrant(old(State()), id, token, expiresAt, now)
    {
      var event := SetGrant(id, token, expiresAt, now);
      EventKeepsValid(State(), event, Granted(State(), id, token, expiresAt, now));
      if ByteLength(token) < MINIMUM_TOKEN_LENGTH { return GrantTooShort; }
      if expiresAt.Some? && expiresAt.value <= now { return GrantInPast; }
      if id !in credentials { return GrantUnregistered; }
      var digest := Digest(token);
      var taken := FindGrant(digest, Some(id));
      if taken { return GrantOfAnother; }
      if digest in bootstraps { return GrantIsBootstrap; }
      var credential := credentials[id];
      if HoldsGrant(credential, digest) {
        credentials := credentials[id := credential.(grantExpires := expiresAt)];
        return GrantSet;
      }
      credentials := credentials[id := credential.(hash := Some(digest), grantExpires := expiresAt)];
      reply := GrantSet;
    }

    method SetDashboardBootstrap(id: AccountId, token: string, expiresAt: int, now: int)
      returns (reply: BootstrapReply)
      requires Valid(State())
      modifies this
      ensures Next(old(State()), SetBootstrap(id, token, expiresAt, now), State()) && Valid(State())
      ensures reply == JudgeBootstrap(old(State()), id, token, expiresAt, now)
    {
      if ByteLength(token) < MINIMUM_TOKEN_LENGTH || !IsTrimmed(token) { return BadToken; }
      if expiresAt <= now { return InPast; }
      if id !in credentials { return Unregistered; }
      var digest := Digest(token);
      var taken := FindGrant(digest, None);
      if taken { return IsGrant; }
      var active := Sweep(digest, now);
      if active {
        BootstrapKeepsValid(old(State()), id, token, expiresAt, now, State());
        return AlreadyActive;
      }
      if |bootstraps| >= MAXIMUM_BOOTSTRAPS {
        BootstrapKeepsValid(old(State()), id, token, expiresAt, now, State());
        return TooMany;
      }
      bootstraps := bootstraps[digest := Bootstrap(id, expiresAt)];
      BootstrapKeepsValid(old(State()), id, token, expiresAt, now, State());
      reply := Installed;
    }

    /** Drops expired tokens until all are gone or the digest turns up active. */
    method Sweep(digest: Digest, now: int) returns (active: bool)
      modifies this`bootstraps
      ensures active == (digest in old(bootstraps) && old(bootstraps)[digest].expires > now)
      ensures SomeDropped(old(bootstraps), bootstraps, now)
      ensures !active ==> bootstraps == Unexpired(old(bootstraps), now)
    {
      var remaining := bootstraps.Keys;
      while remaining != {}
        invariant remaining <= bootstraps.Keys
        invariant SomeDropped(old(bootstraps), bootstraps, now)
        invariant forall d <- bootstraps :: d !in remaining ==> d != digest && bootstraps[d].expires > now
        decreases |remaining|
      {
        var d :| d in remaining;
        remaining := remaining - {d};
        if bootstraps[d].expires <= now {
          bootstraps := bootstraps - {d};
        } else if d == digest {
          return true;
        }
      }
      active := false;
    }

    method RevokeRuntime(id: AccountId)
      requires Valid(State())
      modifies this
      ensures Next(old(State()), Revoke(id), State()) && Valid(State())
    {
      RevokeKeepsValid(State(), id);
      credentials := credentials - {id};
      DropBootstraps(id);
    }

    method DropBootstraps(id: AccountId)
      modifies this`bootstraps
      ensures bootstraps ==
                map d | d in old(bootstraps) && old(bootstraps)[d].runtime != id :: old(bootstraps)[d]
    {
      var remaining := bootstraps.Keys;
      while remaining != {}
        invariant remaining <= bootstraps.Keys
        invariant forall d <- bootstraps :: d in old(bootstraps) && bootstraps[d] == old(bootstraps)[d]
        invariant forall d <- old(bootstraps) :: old(bootstraps)[d].runtime != id ==> d in bootstraps
        invariant forall d <- bootstraps :: d !in remaining ==> bootstraps[d].runtime != id
        decreases |remaining|
      {
        var d :| d in remaining;
        remaining := remaining - {d};
        if bootstraps[d].runtime == id { bootstraps := bootstraps - {d}; }
      }
    }

    /** A bearer token opens the one runtime whose live grant it is. */
    method AuthenticateToken(token: string, now: int) returns (matched: AccountId, ok: bool)
      requires Valid(State())
      ensures ok <==> exists id <- credentials :: OpensByGrant(State(), id, token, now)
      ensures ok ==> Matches(State(), Digest(token), now) == {matched}
    {
      var found, matches := CountMatches(Digest(token), now);
      MatchIsUnique(State(), Digest(token), now);
      assert forall id <- credentials :: OpensByGrant(State(), id, token, now) <==> id in Matches(State(), Digest(token), now);
      matched, ok := found, matches == 1;
      if ok {
        OneElement(Matches(State(), Digest(token), now), found);
      }
    }

    static lemma OneElement(s: set<AccountId>, x: AccountId)
      requires x in s && |s| == 1
      ensures s == {x}
    {
      var rest := s - {x};
      assert s == rest + {x};
    }

    method CountMatches(candidate: Digest, now: int) returns (found: AccountId, matches: nat)
      ensures matches == |Matches(State(), candidate, now)|
      ensures matches > 0 ==> found in Matches(State(), candidate, now)
    {
      found, matches := "", 0;
      ghost var seen: set<AccountId> := {};
      var remaining := credentials.Keys;
      while remaining != {}
        invariant remaining <= credentials.Keys
        invariant seen == set id | id in Matches(State(), candidate, now) && id !in remaining
        invariant matches == |seen| && (matches > 0 ==> found in seen)
        decreases |remaining|
      {
        var id :| id in remaining;
        remaining := remaining - {id};
        if GrantLive(credentials[id], now) && HoldsGrant(credentials[id], candidate) {
          seen := seen + {id};
          found := id;
          matches := matches + 1;
        }
      }
      assert seen == Matches(State(), candidate, now);
    }

    /** A login opens by the runtime's live grant, or by one of its one-use tokens,
        which is taken away with every expired one. */
    method AuthenticateLoginToken(id: AccountId, token: string, now: int) returns (ok: bool)
      requires Valid(State())
      modifies this
      ensures Next(old(State()), Login(id, token, now), State()) && Valid(State())
      ensures ok == (OpensByGrant(old(State()), id, token, now) || OpensByBootstrap(old(State()), id, token, now))
    {
      LoginKeepsValid(State(), id, token, now);
      if id !in credentials { return false; }
      var candidate := Digest(token);
      if GrantLive(credentials[id], now) && HoldsGrant(credentials[id], candidate) { return true; }
      ok := Take(id, candidate, now);
    }

    method Take(id: AccountId, candidate: Digest, now: int) returns (matched: bool)
      modifies this`bootstraps
      ensures matched == (candidate in old(bootstraps) && old(bootstraps)[candidate].runtime == id
                          && old(bootstraps)[candidate].expires > now)
      ensures bootstraps ==
                if matched then Unexpired(old(bootstraps), now) - {candidate} else Unexpired(old(bootstraps), now)
    {
      matched := false;
      var remaining := bootstraps.Keys;
      while remaining != {}
        invariant remaining <= bootstraps.Keys
        invariant forall d <- bootstraps :: d in old(bootstraps) && bootstraps[d] == old(bootstraps)[d]
        invariant forall d <- bootstraps :: d !in remaining ==>
            bootstraps[d].expires > now && !(d == candidate && bootstraps[d].runtime == id)
        invariant forall d <- old(bootstraps) ::
            d !in bootstraps && old(bootstraps)[d].expires > now ==> d == candidate && matched
        invariant matched ==> candidate in old(bootstraps) && candidate !in bootstraps
                              && old(bootstraps)[candidate].runtime == id && old(bootstraps)[candidate].expires > now
        decreases |remaining|
      {
        var d :| d in remaining;
        remaining := remaining - {d};
        if bootstraps[d].expires <= now {
          bootstraps := bootstraps - {d};
        } else if bootstraps[d].runtime == id && d == candidate {
          bootstraps := bootstraps - {d};
          matched := true;
        }
      }
    }

    /** The session of a registered runtime, or none. */
    method NewSession(id: AccountId, now: int) returns (session: Option<string>)
      ensures session ==
                if id in credentials then Some(Minted(signing, State(), id, now, sessionTTL)) else None
    {
      if id !in credentials { return None; }
      var generation := D.FormatUint(credentials[id].generation);
      var payload := "v2." + id + "." + generation + "." + D.FormatInt(UnixSeconds(now + sessionTTL));
      PayloadText(id, credentials[id].generation, UnixSeconds(now + sessionTTL));
      SessionIsSignedPayload(signing, id, credentials[id].generation, UnixSeconds(now + sessionTTL));
      session := Some(payload + "." + signing.encode(signing.sign(payload)));
    }

    method AuthenticateSession(value: string, now: int) returns (id: Option<AccountId>)
      ensures id == Authenticated(signing, State(), value, now)
    {
      var parts := Split(value);
      if |parts| != 5 || parts[0] != "v2" { return None; }
      if !CanonicalId(parts[1]) { return None; }
      var generation := D.ParseUint(parts[2], UINT64);
      if generation.None? || generation.value == 0 { return None; }
      var expires := D.ParseInt(parts[3]);
      if expires.None? || expires.value <= UnixSeconds(now) { return None; }
      var signature := signing.decode(parts[4]);
      if signature.None? { return None; }
      if signature.value != signing.sign(Join(parts[..4])) { return None; }
      if parts[1] !in credentials || credentials[parts[1]].generation != generation.value { return None; }
      id := Some(parts[1]);
    }
  }
}
