/** The credential registry of a hosted cell: runtimes, their dashboard grants, and
    the one-use login tokens that open a browser session. */
module TenantSpec {
  import opened Journals
  import opened HandoverTypes
  import opened SessionText

  const MINIMUM_TOKEN_LENGTH := 32
  const MAXIMUM_BOOTSTRAPS := 256
  const NANOSECONDS := 1_000_000_000

  /** An injective digest: two tokens share one only if they are the same token. */
  datatype Digest = Digest(token: string)

  /** Times are in nanoseconds. A grant without an expiry never ends. */
  datatype Credential = Credential(generation: nat, hash: Option<Digest>, grantExpires: Option<int>)
  datatype Bootstrap = Bootstrap(runtime: AccountId, expires: int)
  datatype Registry = Registry(credentials: map<AccountId, Credential>, bootstraps: map<Digest, Bootstrap>,
                               generations: map<AccountId, nat>)

  const EMPTY := Registry(map[], map[], map[])

  function UnixSeconds(time: int): int {
    time / NANOSECONDS
  }

  // ---- tokens

  /** The letters that count as white space. */
  predicate IsSpace(c: char) {
    || c in "\t\n\r \U{0b}\U{0c}\U{85}\U{a0}\U{1680}\U{2028}\U{2029}\U{202f}\U{205f}\U{3000}"
    || '\U{2000}' <= c <= '\U{200a}'
  }

  predicate IsTrimmed(token: string) {
    token == "" || (!IsSpace(token[0]) && !IsSpace(token[|token| - 1]))
  }

  /** The number of bytes a text takes in UTF-8. */
  function ByteLength(s: string): nat {
    if s == "" then 0
    else
      var c := s[|s| - 1];
      ByteLength(s[..|s| - 1]) +
        (if c < '\U{80}' then 1 else if c < '\U{800}' then 2 else if c < '\U{10000}' then 3 else 4)
  }

  // ---- what is held

  predicate HoldsGrant(credential: Credential, digest: Digest) {
    credential.hash == Some(digest)
  }

  predicate GrantLive(credential: Credential, now: int) {
    credential.grantExpires.None? || now < credential.grantExpires.value
  }

  /** The runtimes a bearer token opens at a given time. */
  function Matches(r: Registry, digest: Digest, now: int): set<AccountId> {
    set id | id in r.credentials && HoldsGrant(r.credentials[id], digest) && GrantLive(r.credentials[id], now)
  }

  function Unexpired(bootstraps: map<Digest, Bootstrap>, now: int): map<Digest, Bootstrap> {
    map d | d in bootstraps && bootstraps[d].expires > now :: bootstraps[d]
  }

  // ---- what every run keeps

  ghost predicate CredentialsValid(r: Registry) {
    forall id <- r.credentials ::
      CanonicalId(id) && id in r.generations && r.credentials[id].generation == r.generations[id]
  }

  ghost predicate GenerationsValid(r: Registry) {
    forall id <- r.generations :: 0 < r.generations[id] <= UINT64
  }

  ghost predicate GrantsDistinct(r: Registry) {
    forall i <- r.credentials, j <- r.credentials ::
      i != j && r.credentials[i].hash.Some? ==> r.credentials[i].hash != r.credentials[j].hash
  }

  ghost predicate GrantsAreNotBootstraps(r: Registry) {
    forall id <- r.credentials :: r.credentials[id].hash.Some? ==> r.credentials[id].hash.value !in r.bootstraps
  }

  ghost predicate BootstrapsRegistered(r: Registry) {
    forall d <- r.bootstraps :: r.bootstraps[d].runtime in r.credentials
  }

  ghost predicate Valid(r: Registry) {
    && CredentialsValid(r) && GenerationsValid(r) && GrantsDistinct(r) && GrantsAreNotBootstraps(r)
    && BootstrapsRegistered(r) && |r.bootstraps| <= MAXIMUM_BOOTSTRAPS
  }

  // ---- operations

  /** The generation after this one. It wraps at 64 bits, and zero is skipped. */
  function NextGeneration(generation: nat): nat {
    if (generation + 1) % (UINT64 + 1) == 0 then 1 else (generation + 1) % (UINT64 + 1)
  }

  function GenerationOf(r: Registry, id: AccountId): nat {
    if id in r.generations then r.generations[id] else 0
  }

  function Registered(r: Registry, id: AccountId): Registry {
    if !CanonicalId(id) || id in r.credentials then r
    else
      var generation := NextGeneration(GenerationOf(r, id));
      r.(generations := r.generations[id := generation],
         credentials := r.credentials[id := Credential(generation, None, None)])
  }

  datatype GrantReply = GrantSet | GrantTooShort | GrantInPast | GrantUnregistered | GrantOfAnother | GrantIsBootstrap

  function JudgeGrant(r: Registry, id: AccountId, token: string, expires: Option<int>, now: int): GrantReply {
    if ByteLength(token) < MINIMUM_TOKEN_LENGTH then GrantTooShort
    else if expires.Some? && expires.value <= now then GrantInPast
    else if id !in r.credentials then GrantUnregistered
    else if exists other <- r.credentials :: other != id && HoldsGrant(r.credentials[other], Digest(token)) then
      GrantOfAnother
    else if Digest(token) in r.bootstraps then GrantIsBootstrap
    else GrantSet
  }

  function Granted(r: Registry, id: AccountId, token: string, expires: Option<int>, now: int): Registry {
    if !JudgeGrant(r, id, token, expires, now).GrantSet? then r
    else
      r.(credentials := r.credentials[id := r.credentials[id].(hash := Some(Digest(token)), grantExpires := expires)])
  }

  datatype BootstrapReply = Installed | BadToken | InPast | Unregistered | IsGrant | AlreadyActive | TooMany

  function JudgeBootstrap(r: Registry, id: AccountId, token: string, expires: int, now: int): BootstrapReply {
    var digest := Digest(token);
    if ByteLength(token) < MINIMUM_TOKEN_LENGTH || !IsTrimmed(token) then BadToken
    else if expires <= now then InPast
    else if id !in r.credentials then Unregistered
    else if exists other <- r.credentials :: HoldsGrant(r.credentials[other], digest) then IsGrant
    else if digest in r.bootstraps && r.bootstraps[digest].expires > now then AlreadyActive
    else if |Unexpired(r.bootstraps, now)| >= MAXIMUM_BOOTSTRAPS then TooMany
    else Installed
  }

  /** Some of the expired tokens are gone, and nothing else is. */
  ghost predicate SomeDropped(before: map<Digest, Bootstrap>, after: map<Digest, Bootstrap>, now: int) {
    && (forall d <- after :: d in before && after[d] == before[d])
    && (forall d <- before :: before[d].expires > now ==> d in after)
  }

  /** A token found active stops the sweep, so how many expired ones are gone by
      then depends on the order of the sweep. Every other ending has swept all. */
  ghost predicate Bootstrapped(r: Registry, id: AccountId, token: string, expires: int, now: int, after: Registry) {
    var reply := JudgeBootstrap(r, id, token, expires, now);
    var live := Unexpired(r.bootstraps, now);
    && after == r.(bootstraps := after.bootstraps)
    && match reply
       case Installed => after.bootstraps == live[Digest(token) := Bootstrap(id, expires)]
       case TooMany => after.bootstraps == live
       case AlreadyActive => SomeDropped(r.bootstraps, after.bootstraps, now)
       case _ => after.bootstraps == r.bootstraps
  }

  function Revoked(r: Registry, id: AccountId): Registry {
    r.(credentials := r.credentials - {id},
       bootstraps := map d | d in r.bootstraps && r.bootstraps[d].runtime != id :: r.bootstraps[d])
  }

  predicate OpensByGrant(r: Registry, id: AccountId, token: string, now: int) {
    id in r.credentials && HoldsGrant(r.credentials[id], Digest(token)) && GrantLive(r.credentials[id], now)
  }

  predicate OpensByBootstrap(r: Registry, id: AccountId, token: string, now: int) {
    && id in r.credentials && !OpensByGrant(r, id, token, now)
    && Digest(token) in r.bootstraps && r.bootstraps[Digest(token)].runtime == id
    && r.bootstraps[Digest(token)].expires > now
  }

  /** A login by grant changes nothing. Any other login sweeps the expired tokens
      and takes the one it opens with. */
  function LoggedIn(r: Registry, id: AccountId, token: string, now: int): Registry {
    if id !in r.credentials || OpensByGrant(r, id, token, now) then r
    else
      var live := Unexpired(r.bootstraps, now);
      r.(bootstraps := if OpensByBootstrap(r, id, token, now) then live - {Digest(token)} else live)
  }

  // ---- sessions

  /** A session string, minted for a registered runtime. */
  function Minted(signing: Signing, r: Registry, id: AccountId, now: int, ttl: int): string
    requires id in r.credentials
  {
    Session(signing, id, r.credentials[id].generation, UnixSeconds(now + ttl))
  }

  function Authenticated(signing: Signing, r: Registry, value: string, now: int): Option<AccountId> {
    var claim := ReadSession(signing, value);
    if claim.None? || claim.value.expires <= UnixSeconds(now) then None
    else if claim.value.id !in r.credentials then None
    else if r.credentials[claim.value.id].generation != claim.value.generation then None
    else Some(claim.value.id)
  }

  // ---- runs

  datatype Event =
    | Register(id: AccountId)
    | SetGrant(id: AccountId, token: string, until: Option<int>, now: int)
    | SetBootstrap(id: AccountId, token: string, expires: int, now: int)
    | Revoke(id: AccountId)
    | Login(id: AccountId, token: string, now: int)

  ghost predicate Next(r: Registry, event: Event, after: Registry) {
    match event
    case Register(id) => after == Registered(r, id)
    case SetGrant(id, token, until, now) => after == Granted(r, id, token, until, now)
    case SetBootstrap(id, token, expires, now) => Bootstrapped(r, id, token, expires, now, after)
    case Revoke(id) => after == Revoked(r, id)
    case Login(id, token, now) => after == LoggedIn(r, id, token, now)
  }

  ghost predicate NextAt(states: seq<Registry>, events: seq<Event>, i: nat)
    requires i < |events| && |states| == |events| + 1
  {
    Next(states[i], events[i], states[i + 1])
  }

  /** One registry before every event and one at the end. */
  ghost predicate Run(states: seq<Registry>, events: seq<Event>) {
    |states| == |events| + 1 && forall i: nat :: i < |events| ==> NextAt(states, events, i)
  }
}
