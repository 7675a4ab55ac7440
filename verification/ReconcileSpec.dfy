/** Configuration authority of one cell: which assignments are desired, which
    configuration each application has acknowledged, and when a session may start. */
module ReconcileSpec {
  import opened Journals
  import opened HandoverTypes

  /** What an application lets through: everything, reads only, or everything but
      settings changes. */
  datatype Gate = Unmanaged | Pending | Ready

  /** `required` is the start configuration a rebind reuses. */
  datatype App = App(instance: nat, gate: Gate, required: bool)

  /** The configuration one application instance acknowledged for one placement. */
  datatype Sync = Sync(epoch: nat, revision: nat, digest: string, application: nat)

  /** A session start that has passed its check and still holds the reconcile lock. */
  datatype Check = Check(id: AccountId, instance: Option<nat>)

  datatype State = State(
    maxAccounts: nat, transport: bool, revision: nat, runtimes: map<AccountId, Assignment>, syncs: map<AccountId, Sync>,
    apps: map<AccountId, App>, fresher: nat, starting: Option<Check>)

  const MAXIMUM_LEASE := 15 * 60

  datatype Request = Request(revision: nat, runtimes: seq<Assignment>, preserve: seq<AccountId>)

  /** What the request meets outside: the clock, the grant checks, runtimes the supervisor
      answers "locked" for, the order the added runtimes come in, which of them start and
      register, and whether every metrics placement is accepted. */
  datatype Surroundings = Surroundings(
    now: int, grantsAccepted: bool, locked: set<AccountId>, order: seq<AccountId>, startable: set<AccountId>,
    registrable: set<AccountId>, placed: bool)

  datatype Refusal = Invalid | StaleRevision | InvalidPreserved | OverLimit | Locked | RevisionReused | OwnerChanged | StaleEpoch

  datatype Answer = Published | PublishedWithError | Repeated | Refused(why: Refusal) | StartFailed

  function GateFor(required: bool, ready: bool): Gate {
    if !required then Unmanaged else if ready then Ready else Pending
  }

  function TupleOf(assignment: Assignment, instance: nat): Sync {
    Sync(assignment.placementEpoch, assignment.revision, assignment.digest, instance)
  }

  predicate Applied(s: State, id: AccountId, assignment: Assignment) {
    id in s.apps && id in s.syncs && s.syncs[id] == TupleOf(assignment, s.apps[id].instance)
  }

  predicate ConfigurationReady(s: State, id: AccountId, assignment: Assignment) {
    assignment.revision == 0 || Applied(s, id, assignment)
  }

  // ---- reading a request

  predicate ValidAssignment(a: Assignment, now: int) {
    && CanonicalId(a.runtimeId) && CanonicalId(a.tenantId) && a.placementEpoch > 0
    && (if a.revision == 0 then a.digest == "" else ValidDigest(a.digest))
    && now < a.leaseExpiresAt <= now + MAXIMUM_LEASE
    && (a.onDisconnect == "" || a.onDisconnect == "hold" || a.onDisconnect == "release")
  }

  predicate ValidList(runtimes: seq<Assignment>, now: int) {
    && (forall i :: 0 <= i < |runtimes| ==> ValidAssignment(runtimes[i], now))
    && (forall i, j :: 0 <= i < j < |runtimes| ==> runtimes[i].runtimeId != runtimes[j].runtimeId)
  }

  predicate ValidRequest(s: State, request: Request, around: Surroundings) {
    && request.revision > 0 && (s.maxAccounts > 0 ==> |request.runtimes| <= s.maxAccounts) && around.grantsAccepted
    && ValidList(request.runtimes, around.now)
  }

  /** Both disconnect policies are kept as "hold". */
  function ById(runtimes: seq<Assignment>): map<AccountId, Assignment> {
    if runtimes == [] then map[]
    else
      var last := runtimes[|runtimes| - 1];
      ById(runtimes[..|runtimes| - 1])[last.runtimeId := last.(onDisconnect := "hold")]
  }

  predicate ValidPreserve(s: State, preserve: seq<AccountId>, named: map<AccountId, Assignment>) {
    && (preserve != [] ==> s.transport)
    && (forall i :: 0 <= i < |preserve| ==> CanonicalId(preserve[i]) && preserve[i] !in named)
    && (forall i, j :: 0 <= i < j < |preserve| ==> preserve[i] != preserve[j])
  }

  function Preserved(preserve: seq<AccountId>): set<AccountId> {
    set i | 0 <= i < |preserve| :: preserve[i]
  }

  function Desired(s: State, request: Request): map<AccountId, Assignment> {
    var named := ById(request.runtimes);
    map id | id in named.Keys + Preserved(request.preserve) * s.runtimes.Keys ::
      if id in named then named[id] else s.runtimes[id]
  }

  predicate KeepsOwners(s: State, desired: map<AccountId, Assignment>, preserved: set<AccountId>) {
    forall id :: id in desired && id !in preserved && id in s.runtimes ==> s.runtimes[id].tenantId == desired[id].tenantId
  }

  predicate KeepsEpochs(s: State, desired: map<AccountId, Assignment>, preserved: set<AccountId>) {
    forall id :: id in desired && id !in preserved && id in s.runtimes ==>
      s.runtimes[id].placementEpoch <= desired[id].placementEpoch
  }

  predicate AnyLocked(desired: map<AccountId, Assignment>, preserved: set<AccountId>, locked: set<AccountId>) {
    exists id :: id in desired && id !in preserved && id in locked
  }

  /** Every answer that leaves the cell as it was, in the order the checks run. The two
      checks on retained runtimes share one loop, so an owner change may be reported as a
      stale epoch of another runtime; the model reports the owner first. */
  function Verdict(s: State, request: Request, around: Surroundings): Option<Answer> {
    var named := ById(request.runtimes);
    var preserved := Preserved(request.preserve);
    var desired := Desired(s, request);
    if !ValidRequest(s, request, around) then Some(Refused(Invalid))
    else if request.revision < s.revision then Some(Refused(StaleRevision))
    else if !ValidPreserve(s, request.preserve, named) then Some(Refused(InvalidPreserved))
    else if s.maxAccounts > 0 && |desired| > s.maxAccounts then Some(Refused(OverLimit))
    else if AnyLocked(desired, preserved, around.locked) then Some(Refused(Locked))
    else if request.revision == s.revision then
      Some(if s.runtimes == desired then Repeated else Refused(RevisionReused))
    else if !KeepsOwners(s, desired, preserved) then Some(Refused(OwnerChanged))
    else if !KeepsEpochs(s, desired, preserved) then Some(Refused(StaleEpoch))
    else None
  }

  // ---- acting on it

  function Started(s: State, id: AccountId, required: bool): State {
    s.(apps := s.apps[id := App(s.fresher, GateFor(required, false), required)], fresher := s.fresher + 1)
  }

  /** Start what is new, one by one, until one fails. A runtime that started but could not
      register stays until it is drained. */
  function AddAll(s: State, desired: map<AccountId, Assignment>, order: seq<AccountId>, around: Surroundings): (State, bool)
    decreases |order|
  {
    if order == [] then (s, true)
    else
      var id := order[0];
      if id in s.apps || id !in around.startable then (s, false)
      else
        var started := Started(s, id, id in desired && desired[id].revision > 0);
        if id !in around.registrable then (started, false) else AddAll(started, desired, order[1..], around)
  }

  function Gated(s: State, desired: map<AccountId, Assignment>, preserved: set<AccountId>): map<AccountId, App> {
    map id | id in s.apps ::
      if id in desired && id !in preserved then
        s.apps[id].(gate := GateFor(desired[id].revision > 0, ConfigurationReady(s, id, desired[id])))
      else s.apps[id]
  }

  function KeptSyncs(s: State, desired: map<AccountId, Assignment>, preserved: set<AccountId>): map<AccountId, Sync> {
    map id | id in s.syncs
             && (id in s.runtimes ==> id in desired)
             && (id in desired && id !in preserved ==> desired[id].revision > 0) :: s.syncs[id]
  }

  function Publish(s: State, revision: nat, desired: map<AccountId, Assignment>, preserved: set<AccountId>): State {
    s.(apps := Gated(s, desired, preserved), revision := revision, runtimes := desired,
       syncs := KeptSyncs(s, desired, preserved))
  }

  ghost predicate ValidOrder(s: State, desired: map<AccountId, Assignment>, preserved: set<AccountId>, order: seq<AccountId>) {
    && (forall i, j :: 0 <= i < j < |order| ==> order[i] != order[j])
    && (forall id :: id in order <==> id in desired && id !in preserved && id !in s.runtimes)
  }

  function Reconcile(s: State, request: Request, around: Surroundings): (State, Answer) {
    var verdict := Verdict(s, request, around);
    if verdict.Some? then (s, verdict.value)
    else
      var desired, preserved := Desired(s, request), Preserved(request.preserve);
      var (added, allStarted) := AddAll(s, desired, around.order, around);
      if !allStarted then (added, StartFailed)
      else (Publish(added, request.revision, desired, preserved), if around.placed then Published else PublishedWithError)
  }

  // ---- acknowledging a configuration

  datatype SyncAnswer = SyncReady | SyncRefused

  /** `applied` says that the canonical sections were installed. */
  function Acknowledge(s: State, id: AccountId, epoch: nat, revision: nat, digest: string, applied: bool)
    : (State, SyncAnswer)
  {
    if revision == 0 || !ValidDigest(digest) then (s, SyncRefused)
    else if id !in s.runtimes then (s, SyncRefused)
    else
      var assignment := s.runtimes[id];
      if epoch == 0 || assignment.placementEpoch != epoch || assignment.revision != revision || assignment.digest != digest
         || id !in s.apps then (s, SyncRefused)
      else
        var previous := if id in s.syncs then Some(s.syncs[id]) else None;
        var same := previous.Some? && previous.value.epoch == epoch;
        if same && (revision < previous.value.revision || (revision == previous.value.revision && digest != previous.value.digest))
        then (s, SyncRefused)
        else if same && revision == previous.value.revision && previous.value.application == s.apps[id].instance then
          (s.(apps := s.apps[id := s.apps[id].(gate := Ready)]), SyncReady)
        else if !applied then (s, SyncRefused)
        else
          (s.(syncs := s.syncs[id := Sync(epoch, revision, digest, s.apps[id].instance)],
              apps := s.apps[id := s.apps[id].(gate := Ready)]), SyncReady)
  }

  // ---- starting a session

  function CheckStart(s: State, id: AccountId, epoch: nat): State {
    if id in s.runtimes && s.runtimes[id].placementEpoch == epoch && s.runtimes[id].startSession
       && ConfigurationReady(s, id, s.runtimes[id]) then
      s.(starting := Some(Check(id, if id in s.apps then Some(s.apps[id].instance) else None)))
    else s
  }

  // ---- runs

  datatype Event =
    | Reconciled(request: Request, around: Surroundings)
    | Acknowledged(id: AccountId, epoch: nat, revision: nat, digest: string, applied: bool)
    | StartChecked(id: AccountId, epoch: nat)
    | StartDone
    | SourceFenced(id: AccountId)
    | Forgotten(id: AccountId)
    | Rebound(id: AccountId)
    | Removed(id: AccountId)

  /** Only a rebind or a removal can run while a session start holds the reconcile lock. A
      first archive activation forgets an assignment, whether or not an application lives. */
  ghost predicate Enabled(s: State, e: Event) {
    match e
    case StartDone => s.starting.Some?
    case Rebound(id) => id in s.apps
    case Removed(id) => id in s.apps
    case Reconciled(request, around) =>
      s.starting.None? && ValidOrder(s, Desired(s, request), Preserved(request.preserve), around.order)
    case _ => s.starting.None?
  }

  /** Stop, move the profile, start again with the start configuration kept by the supervisor. */
  function Rebind(s: State, id: AccountId): State
    requires id in s.apps
  {
    Started(s, id, s.apps[id].required)
  }

  ghost function Apply(s: State, e: Event): State
    requires Enabled(s, e)
  {
    match e
    case Reconciled(request, around) => Reconcile(s, request, around).0
    case Acknowledged(id, epoch, revision, digest, applied) => Acknowledge(s, id, epoch, revision, digest, applied).0
    case StartChecked(id, epoch) => CheckStart(s, id, epoch)
    case StartDone => s.(starting := None)
    case SourceFenced(id) => if id in s.apps then s.(apps := s.apps[id := s.apps[id].(gate := Pending)]) else s
    case Forgotten(id) => s.(runtimes := s.runtimes - {id}, syncs := s.syncs - {id})
    case Rebound(id) => Rebind(s, id)
    case Removed(id) => s.(apps := s.apps - {id})
  }

  ghost predicate Allowed(s: State, events: seq<Event>)
    decreases |events|
  {
    events != [] ==> Enabled(s, events[0]) && Allowed(Apply(s, events[0]), events[1..])
  }

  ghost function Run(s: State, events: seq<Event>): State
    requires Allowed(s, events)
    decreases |events|
  {
    if events == [] then s else Run(Apply(s, events[0]), events[1..])
  }

  function NewState(maxAccounts: nat, transport: bool): State {
    State(maxAccounts, transport, 0, map[], map[], map[], 0, None)
  }
}
