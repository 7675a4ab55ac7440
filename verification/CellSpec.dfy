/** One cell (a supervisor and its orchestrator) as a value, and every critical
    section that touches handover state as a function on it. The class in
    Supervisor.dfy does the same work in place. */
module CellSpec {
  import opened Journals
  import opened HandoverTypes

  /** A constructed application. `watched` says a stop watcher waits for it. */
  datatype Runtime = Runtime(application: nat, directory: Path, watched: bool)

  datatype Cell = Cell(
    cellId: string,
    maxAccounts: nat,
    profileId: Path -> string,
    closed: bool,
    accounts: map<AccountId, Runtime>,
    stopping: map<AccountId, Runtime>,
    pending: map<AccountId, Path>,
    dataDirs: map<Path, AccountId>,
    finished: set<nat>,
    playerBindings: map<AccountId, string>,
    assignments: map<AccountId, Assignment>,
    fences: Fences,
    adoptions: Adoptions,
    locals: Locals,
    fenceDisk: Disk<Fences>,
    adoptionDisk: Disk<Adoptions>,
    localDisk: Disk<Locals>)

  /** What a look at the file system reports while a target is reserved. */
  datatype FileView = FileView(existing: set<Path>, readable: bool)

  // ---- reading

  predicate IsLive(c: Cell, id: AccountId) {
    id in c.accounts || id in c.pending || id in c.stopping
  }

  function DirectoryOf(c: Cell, id: AccountId): Option<Path> {
    if id in c.accounts then Some(c.accounts[id].directory)
    else if id in c.pending then Some(c.pending[id])
    else if id in c.stopping then Some(c.stopping[id].directory)
    else None
  }

  function FenceOf(fences: Fences, id: AccountId): Option<Fence> {
    if id in fences then Some(fences[id]) else None
  }

  function LocalOf(locals: Locals, id: AccountId): Option<LocalBinding> {
    if id in locals then Some(locals[id]) else None
  }

  predicate Departed(fence: Option<Fence>, targetEpoch: nat) {
    fence.Some? && fence.value.Epoch() >= targetEpoch
  }

  predicate ImportActive(profile: Option<TargetProfile>, fence: Option<Fence>) {
    profile.Some? && profile.value.state == Active && !Departed(fence, profile.value.targetEpoch)
  }

  predicate LocalIsActive(local: Option<LocalBinding>, fence: Option<Fence>) {
    local.Some? && local.value.state == LocalActive && !Departed(fence, local.value.targetEpoch)
  }

  predicate HasActiveImport(c: Cell, id: AccountId) {
    ImportActive(CurrentProfile(c.adoptions, id), FenceOf(c.fences, id))
  }

  predicate HasActiveLocal(c: Cell, id: AccountId) {
    LocalIsActive(LocalOf(c.locals, id), FenceOf(c.fences, id))
  }

  /** Requests for a runtime in this condition are answered with "locked". */
  predicate HandoverFenced(c: Cell, id: AccountId) {
    if id in c.locals then !HasActiveLocal(c, id)
    else !HasActiveImport(c, id) && (CurrentProfile(c.adoptions, id).Some? || id in c.fences)
  }

  predicate IdentityOnDisk(c: Cell, directory: Path, expected: string, readable: bool) {
    readable && c.profileId(directory) == expected
  }

  predicate PinsConfiguration(identity: Identity, assignment: Assignment) {
    && assignment.revision >= identity.configurationRevision
    && (assignment.revision == identity.configurationRevision ==> assignment.digest == identity.configurationDigest)
  }

  /** An imported or settings-only runtime accepts only its own active placement. */
  predicate AssignmentAccepted(c: Cell, id: AccountId, assignment: Option<Assignment>, readable: bool) {
    var local := LocalOf(c.locals, id);
    var profile := CurrentProfile(c.adoptions, id);
    if local.Some? then
      && HasActiveLocal(c, id) && assignment.Some? && assignment.value.runtimeId == id
      && assignment.value.placementEpoch == local.value.targetEpoch
      && assignment.value.tenantId == local.value.identity.tenantId
      && PinsConfiguration(local.value.identity, assignment.value)
      && IdentityOnDisk(c, local.value.directory, local.value.profileId, readable)
    else if profile.Some? then
      && HasActiveImport(c, id) && assignment.Some? && assignment.value.runtimeId == id
      && assignment.value.tenantId == profile.value.receipt.identity.tenantId
      && assignment.value.placementEpoch == profile.value.targetEpoch
      && PinsConfiguration(profile.value.receipt.identity, assignment.value)
    else
      true
  }

  function AccountDirectory(c: Cell, id: AccountId): Path {
    var profile := CurrentProfile(c.adoptions, id);
    if id in c.locals then c.locals[id].directory
    else if profile.Some? then profile.value.directory
    else if id in c.playerBindings && c.playerBindings[id] != "" then PlayerDirectory(c.playerBindings[id])
    else StagingDirectory(id)
  }

  /** May this runtime open this directory, given every fence and retirement? */
  predicate ProfileFenced(c: Cell, id: AccountId, directory: Path) {
    var profile := CurrentProfile(c.adoptions, id);
    var active := HasActiveImport(c, id);
    if id in c.locals then
      !HasActiveLocal(c, id) || directory != c.locals[id].directory
    else
      || (exists owner :: owner in c.locals && Related(c.locals[owner].directory, directory))
      || (profile.Some? && (!active || directory != profile.value.directory))
      || (exists retired :: retired in c.adoptions.retired && Related(retired, directory))
      || (exists operation :: operation in c.adoptions.operations
            && Related(c.adoptions.operations[operation].directory, directory)
            && !(active && c.adoptions.operations[operation] == profile.value
                 && directory == c.adoptions.operations[operation].directory))
      || (exists owner :: owner in c.fences
            && ((owner == id && !active) || Related(c.fences[owner].directory, directory)))
  }

  /** A journal entry that promises this runtime a slot on the cell. */
  predicate ClaimsSlot(c: Cell, id: AccountId) {
    var profile := CurrentProfile(c.adoptions, id);
    if id in c.locals then
      HasActiveLocal(c, id) || c.locals[id].state == LocalReserved
    else
      id in c.adoptions.current
      && (profile.None? || profile.value.state != Active || HasActiveImport(c, id))
  }

  function LiveIds(c: Cell): set<AccountId> {
    c.accounts.Keys + c.pending.Keys + c.stopping.Keys
  }

  function ReservedIds(c: Cell, exclude: AccountId): set<AccountId> {
    set id | id in c.locals.Keys + c.adoptions.current.Keys && id != exclude && !IsLive(c, id) && ClaimsSlot(c, id)
  }

  function LiveCount(c: Cell): nat {
    |c.accounts| + |c.pending| + |c.stopping|
  }

  predicate HasCapacity(c: Cell, id: AccountId) {
    c.maxAccounts > 0 ==> LiveCount(c) + |ReservedIds(c, id)| < c.maxAccounts
  }

  // ---- accounts

  /** Nothing that a restart reads back has changed. */
  ghost predicate SameDocuments(c: Cell, d: Cell) {
    && d.cellId == c.cellId && d.profileId == c.profileId && d.maxAccounts == c.maxAccounts
    && d.fences == c.fences && d.fenceDisk == c.fenceDisk
    && d.adoptions == c.adoptions && d.adoptionDisk == c.adoptionDisk
    && d.locals == c.locals && d.localDisk == c.localDisk
  }

  /** AddAccount looks its directory up before it takes the lock. A rebind in between can
      leave it with the staging place; any other stale answer is refused, as
      DirectoryOwnership.StaleDirectoryIsRefused shows. */
  predicate MayHaveRead(c: Cell, id: AccountId, directory: Path) {
    directory == AccountDirectory(c, id) || directory == StagingDirectory(id)
  }

  predicate CanAdd(c: Cell, id: AccountId, directory: Path, assignment: Option<Assignment>, readable: bool) {
    var profile := CurrentProfile(c.adoptions, id);
    && CanonicalId(id)
    && AssignmentAccepted(c, id, assignment, readable)
    && !ProfileFenced(c, id, directory)
    && (profile.Some? ==> IdentityOnDisk(c, directory, profile.value.receipt.profileId, readable))
    && !c.closed && !IsLive(c, id) && HasCapacity(c, id) && directory !in c.dataDirs
  }

  /** AddAccount up to the point where the application is constructed. */
  function BeginAdd(c: Cell, id: AccountId, directory: Path, assignment: Option<Assignment>, readable: bool): (d: Cell)
    ensures SameDocuments(c, d)
  {
    if CanAdd(c, id, directory, assignment, readable) then
      c.(pending := c.pending[id := directory], dataDirs := c.dataDirs[directory := id])
    else c
  }

  /** AddAccount after construction; a closed supervisor tears the application down. */
  function FinishAdd(c: Cell, id: AccountId, application: nat, constructed: bool): (d: Cell)
    ensures SameDocuments(c, d)
  {
    if id !in c.pending then c
    else if constructed && !c.closed then
      c.(pending := c.pending - {id}, accounts := c.accounts[id := Runtime(application, c.pending[id], false)])
    else
      c.(pending := c.pending - {id}, dataDirs := c.dataDirs - {c.pending[id]})
  }

  function BeginStop(c: Cell, id: AccountId): (d: Cell)
    ensures SameDocuments(c, d)
  {
    if id in c.accounts then
      c.(accounts := c.accounts - {id}, stopping := c.stopping[id := c.accounts[id]])
    else c
  }

  /** The application's Wait has returned. */
  function Finish(c: Cell, application: nat): (d: Cell)
    ensures SameDocuments(c, d)
  {
    c.(finished := c.finished + {application})
  }

  predicate CanRelease(c: Cell, id: AccountId, application: nat) {
    application in c.finished && id in c.stopping && c.stopping[id].application == application
  }

  /** releaseStoppedAccount, called only after the application's Wait returned. */
  function Release(c: Cell, id: AccountId, application: nat): (d: Cell)
    ensures SameDocuments(c, d)
  {
    if CanRelease(c, id, application) then
      var directory := c.stopping[id].directory;
      c.(stopping := c.stopping - {id},
         dataDirs := if directory in c.dataDirs && c.dataDirs[directory] == id then c.dataDirs - {directory} else c.dataDirs)
    else c
  }

  predicate CanWatch(c: Cell, id: AccountId, application: nat) {
    id in c.stopping && c.stopping[id].application == application && !c.stopping[id].watched
  }

  function WatchStop(c: Cell, id: AccountId, application: nat): (d: Cell)
    ensures SameDocuments(c, d)
  {
    if CanWatch(c, id, application) then
      c.(stopping := c.stopping[id := c.stopping[id].(watched := true)])
    else c
  }

  /** RemoveAccount: it reports success when Session.Stop and Wait both did. */
  function Remove(c: Cell, id: AccountId, stopped: bool, waited: bool): (Cell, bool) {
    if !(id in c.accounts || id in c.stopping) then (c, false)
    else
      var running := id in c.accounts;
      var c1 := BeginStop(c, id);
      var application := c1.stopping[id].application;
      if waited then (Release(Finish(c1, application), id, application), running ==> stopped)
      else (WatchStop(c1, id, application), false)
  }

  predicate CanBind(c: Cell, id: AccountId, key: string) {
    && ValidComponent(key) && id !in c.playerBindings && id !in c.locals
    && CurrentProfile(c.adoptions, id).None?
    && !ProfileFenced(c, id, PlayerDirectory(key)) && !ProfileFenced(c, id, StagingDirectory(id))
  }

  /** The middle of a rebind, between stopping the runtime and starting it again. A
      reconcile may have started the runtime once more in between. */
  function BindPlayer(c: Cell, id: AccountId, key: string): (d: Cell)
    ensures SameDocuments(c, d)
  {
    if CanBind(c, id, key) then c.(playerBindings := c.playerBindings[id := key]) else c
  }

  function Publish(c: Cell, assignments: map<AccountId, Assignment>): (d: Cell)
    ensures SameDocuments(c, d)
  {
    c.(assignments := assignments)
  }

  function Close(c: Cell): (d: Cell)
    ensures SameDocuments(c, d)
  {
    c.(closed := true)
  }

  // ---- source handover

  function SaveFence(c: Cell, id: AccountId, fence: Fence, outcome: WriteOutcome): (Cell, bool) {
    if !ValidFence(id, fence) then (c, false)
    else
      var fences := c.fences[id := fence];
      (c.(fences := fences, fenceDisk := Write(c.fenceDisk, fences, outcome)), outcome.Synced?)
  }

  predicate OwnsImport(c: Cell, identity: Identity) {
    var profile := CurrentProfile(c.adoptions, identity.runtimeId);
    && profile.Some? && profile.value.targetEpoch == identity.sourceEpoch
    && SameOwner(profile.value.receipt.identity, identity)
  }

  predicate OwnsLocal(c: Cell, identity: Identity) {
    var local := LocalOf(c.locals, identity.runtimeId);
    && local.Some? && local.value.targetEpoch == identity.sourceEpoch
    && SameOwner(local.value.identity, identity)
  }

  predicate FenceRequestOwned(c: Cell, identity: Identity, archive: bool) {
    var id := identity.runtimeId;
    && !c.closed
    && !(archive && id in c.locals)
    && (HasActiveLocal(c, id) ==> OwnsLocal(c, identity))
    && (id !in c.locals && HasActiveImport(c, id) ==> OwnsImport(c, identity))
    && (id in c.fences && c.fences[id].identity != identity ==>
          || (HasActiveLocal(c, id) && OwnsLocal(c, identity))
          || (HasActiveImport(c, id) && OwnsImport(c, identity)))
  }

  /** `ready` is the configuration gate; `settled` stands for the safety-lock,
      archive-inspection and drain checks of a first fence. */
  predicate CanFence(c: Cell, identity: Identity, ready: bool, settled: bool) {
    var id := identity.runtimeId;
    && id in c.assignments && id in c.accounts && identity.sourceCellId == c.cellId
    && c.assignments[id].tenantId == identity.tenantId
    && c.assignments[id].placementEpoch == identity.sourceEpoch
    && c.assignments[id].revision == identity.configurationRevision
    && c.assignments[id].digest == identity.configurationDigest
    && ready && settled
  }

  /** The fence to publish: the one in memory on a retry, else a new one. */
  function FenceToSave(c: Cell, identity: Identity, archive: bool, ready: bool, settled: bool): Option<Fence> {
    var id := identity.runtimeId;
    if !FenceRequestOwned(c, identity, archive) then None
    else if id in c.fences && c.fences[id].identity == identity then Some(c.fences[id])
    else if CanFence(c, identity, ready, settled) then Some(Fence(identity, c.accounts[id].directory, "", false))
    else None
  }

  /** The first half of a stop: nothing is stopped before the fence is durable. */
  function FenceSource(c: Cell, identity: Identity, archive: bool, ready: bool, settled: bool, outcome: WriteOutcome)
    : (Cell, bool)
  {
    var fence := FenceToSave(c, identity, archive, ready, settled);
    if fence.None? then (c, false) else SaveFence(c, identity.runtimeId, fence.value, outcome)
  }

  function StoppedFence(c: Cell, identity: Identity, readable: bool, settled: bool): Option<Fence> {
    var id := identity.runtimeId;
    if !(id in c.fences && c.fences[id].identity == identity && c.fenceDisk.possible == {c.fences}) then None
    else
      var fence := c.fences[id];
      var profileId := c.profileId(fence.directory);
      if fence.directory in c.dataDirs || !readable || profileId == "" || !settled
         || (fence.stopped && profileId != fence.profileId) then None
      else Some(fence.(stopped := true, profileId := profileId))
  }

  /** The second half: the directory is released and still holds its identity.
      The handover locks are held throughout, so the first save is still durable. */
  function ConfirmStopped(c: Cell, identity: Identity, readable: bool, settled: bool, outcome: WriteOutcome)
    : (Cell, Option<Fence>)
  {
    var fence := StoppedFence(c, identity, readable, settled);
    if fence.None? then (c, None)
    else
      var (c1, saved) := SaveFence(c, identity.runtimeId, fence.value, outcome);
      (c1, if saved then fence else None)
  }

  /** Stop the runtime if it still runs, then confirm. */
  function StopAndConfirm(c: Cell, identity: Identity, stopped: bool, waited: bool, readable: bool, settled: bool,
                          outcome: WriteOutcome): (Cell, Option<Fence>)
  {
    var id := identity.runtimeId;
    if id in c.accounts || id in c.stopping then
      var (c1, removed) := Remove(c, id, stopped, waited);
      if !removed then (c1, None) else ConfirmStopped(c1, identity, readable, settled, outcome)
    else ConfirmStopped(c, identity, readable, settled, outcome)
  }

  /** One whole request. The receipt is the returned fence. */
  function PrepareSource(c: Cell, identity: Identity, archive: bool, ready: bool, settled: bool, first: WriteOutcome,
                         stopped: bool, waited: bool, readable: bool, flushed: bool, second: WriteOutcome)
    : (Cell, Option<Fence>)
  {
    var (c1, fenced) := FenceSource(c, identity, archive, ready, settled, first);
    if !fenced then (c1, None)
    else StopAndConfirm(c1, identity, stopped, waited, readable, archive || flushed, second)
  }

  // ---- target handover

  /** Directories the runtime may have used here before, all retired by a reservation. */
  function OldDirectories(c: Cell, id: AccountId): set<Path> {
    var profile := CurrentProfile(c.adoptions, id);
    {StagingDirectory(id)}
    + (if id in c.playerBindings && c.playerBindings[id] != "" then {PlayerDirectory(c.playerBindings[id])} else {})
    + (if profile.Some? then {profile.value.directory} else {})
    + (if id in c.fences then {c.fences[id].directory} else {})
  }

  predicate DirectoryReservable(c: Cell, id: AccountId, directory: Path, target: Path, files: FileView) {
    && (forall live :: live in c.dataDirs ==> !Related(directory, live))
    && (forall operation :: operation in c.adoptions.operations ==>
          c.adoptions.operations[operation].directory == directory ==> c.adoptions.operations[operation].Owner() == id)
    && (directory in c.adoptions.retired ==> c.adoptions.retired[directory] == id)
    && (directory != target ==> files.readable && (directory in files.existing ==> id in c.fences))
  }

  predicate ContinuesImport(c: Cell, id: AccountId, profile: TargetProfile) {
    var previous := CurrentProfile(c.adoptions, id);
    previous.Some? ==>
      && id in c.fences && c.fences[id].stopped && c.fences[id].Epoch() >= previous.value.targetEpoch
      && profile.receipt.identity.sourceEpoch > c.fences[id].Epoch() && previous.value.state == Active
      && SameOwner(previous.value.receipt.identity, profile.receipt.identity)
  }

  predicate ContinuesFence(c: Cell, id: AccountId, profile: TargetProfile) {
    id in c.fences ==>
      && c.fences[id].stopped && profile.receipt.identity.sourceEpoch > c.fences[id].Epoch()
      && SameOwner(c.fences[id].identity, profile.receipt.identity)
      && c.fences[id].profileId == profile.receipt.profileId
  }

  predicate CanReserve(c: Cell, profile: TargetProfile, files: FileView) {
    var id := profile.Owner();
    && id !in c.locals && !c.closed && !IsLive(c, id) && HasCapacity(c, id)
    && ContinuesImport(c, id, profile) && ContinuesFence(c, id, profile)
    && profile.directory !in files.existing
    && forall directory :: directory in OldDirectories(c, id) + {profile.directory} ==>
         DirectoryReservable(c, id, directory, profile.directory, files)
  }

  function RetireAll(directories: set<Path>, id: AccountId): map<Path, AccountId> {
    map directory | directory in directories :: id
  }

  function AfterReservation(adoptions: Adoptions, profile: TargetProfile, retire: set<Path>): Adoptions {
    Adoptions(
      adoptions.operations[profile.Operation() := profile],
      adoptions.current[profile.Owner() := profile.Operation()],
      adoptions.retired + RetireAll(retire, profile.Owner()))
  }

  /** Reserve in memory; the reservation stays closed even when the save fails. */
  function Reserve(c: Cell, profile: TargetProfile, files: FileView): (Cell, bool) {
    var id := profile.Owner();
    if !(profile.state == Reserved && profile.targetCellId == c.cellId && ValidTarget(profile)
         && profile.Operation() !in c.adoptions.operations && CanReserve(c, profile, files)) then (c, false)
    else
      (c.(adoptions := AfterReservation(c.adoptions, profile, OldDirectories(c, id) - {profile.directory})), true)
  }

  function SaveAdoptions(c: Cell, outcome: WriteOutcome): (Cell, bool) {
    (c.(adoptionDisk := Write(c.adoptionDisk, c.adoptions, outcome)), outcome.Synced?)
  }

  function WithState(adoptions: Adoptions, profile: TargetProfile, state: AdoptionState): Adoptions {
    adoptions.(operations := adoptions.operations[profile.Operation() := profile.(state := state)])
  }

  /** Write the document first and adopt it in memory only on success. */
  function SaveState(c: Cell, profile: TargetProfile, state: AdoptionState, outcome: WriteOutcome): (Cell, bool) {
    var adoptions := WithState(c.adoptions, profile, state);
    (c.(adoptionDisk := Write(c.adoptionDisk, adoptions, outcome),
        adoptions := if outcome.Synced? then adoptions else c.adoptions), outcome.Synced?)
  }

  /** The archive is in place and re-hashed. The locks are held since the
      reservation was saved, so that save is still the durable document. */
  predicate CanPublishRestored(c: Cell, id: AccountId) {
    var profile := CurrentProfile(c.adoptions, id);
    profile.Some? && profile.value.state != Active && c.adoptionDisk.possible == {c.adoptions}
  }

  function PublishRestored(c: Cell, id: AccountId, outcome: WriteOutcome): (Cell, bool) {
    if CanPublishRestored(c, id) then SaveState(c, CurrentProfile(c.adoptions, id).value, Restored, outcome)
    else (c, false)
  }

  /** One whole restore request. `proved` stands for the configuration proof,
      `intact` for the archive's integrity checks. */
  function Restore(c: Cell, receipt: Receipt, targetEpoch: nat, proved: bool, files: FileView, first: WriteOutcome,
                   intact: bool, second: WriteOutcome): (Cell, Option<TargetProfile>)
  {
    var id := receipt.identity.runtimeId;
    var operation := receipt.identity.operationId;
    var profile := TargetProfile(receipt, c.cellId, targetEpoch, TransferDirectory(operation), Reserved);
    if !ValidTarget(profile) || !proved || c.closed then (c, None)
    else if operation in c.adoptions.operations then
      var previous := c.adoptions.operations[operation];
      if previous.receipt != receipt || previous.targetEpoch != targetEpoch || previous.targetCellId != c.cellId
         || CurrentOperation(c.adoptions, id) != operation then (c, None)
      else if previous.state == Active then (c, if HasActiveImport(c, id) then Some(previous) else None)
      else DeliverRestore(c, id, first, intact, second)
    else
      var (c1, reserved) := Reserve(c, profile, files);
      if !reserved then (c, None) else DeliverRestore(c1, id, first, intact, second)
  }

  function DeliverRestore(c: Cell, id: AccountId, first: WriteOutcome, intact: bool, second: WriteOutcome)
    : (Cell, Option<TargetProfile>)
  {
    var (c1, saved) := SaveAdoptions(c, first);
    if !saved || !intact then (c1, None)
    else
      var (c2, published) := PublishRestored(c1, id, second);
      (c2, if published then CurrentProfile(c2.adoptions, id) else None)
  }

  predicate CanActivate(c: Cell, expected: TargetProfile, intact: bool) {
    var id := expected.Owner();
    var current := CurrentProfile(c.adoptions, id);
    && ValidTarget(expected) && !c.closed
    && current.Some? && current.value.receipt == expected.receipt
    && current.value.targetEpoch == expected.targetEpoch
    && current.value.targetCellId == c.cellId == expected.targetCellId
    && current.value.state != Reserved
    && !(HandoverFenced(c, id) && current.value.state == Active)
    && (current.value.state == Active || intact)
  }

  function Activate(c: Cell, expected: TargetProfile, intact: bool, outcome: WriteOutcome)
    : (Cell, Option<TargetProfile>)
  {
    var id := expected.Owner();
    if !CanActivate(c, expected, intact) then (c, None)
    else
      var current := CurrentProfile(c.adoptions, id).value;
      var (c1, saved) := SaveState(c, current, Active, outcome);
      if !saved then (c1, None)
      else (if current.state == Active then c1 else c1.(assignments := c1.assignments - {id}),
            Some(current.(state := Active)))
  }

  // ---- settings-only bindings

  function SaveLocal(c: Cell, id: AccountId, binding: LocalBinding, outcome: WriteOutcome)
    : (Cell, Option<LocalBinding>)
  {
    if !ValidLocal(binding) || binding.identity.runtimeId != id then (c, None)
    else
      var locals := c.locals[id := binding];
      (c.(locals := locals, localDisk := Write(c.localDisk, locals, outcome)),
       if outcome.Synced? then Some(binding) else None)
  }

  predicate LocalReservationRepeats(c: Cell, identity: Identity) {
    var id := identity.runtimeId;
    id in c.locals && c.locals[id].identity == identity && c.locals[id].targetCellId == c.cellId
  }

  predicate PreviousStopped(c: Cell, id: AccountId, targetEpoch: nat) {
    id in c.fences && c.fences[id].stopped && c.fences[id].Epoch() >= targetEpoch
  }

  /** Whatever this runtime was here before has stopped, under the same owner. */
  predicate PreviousAllowsLocal(c: Cell, identity: Identity) {
    var id := identity.runtimeId;
    var profile := CurrentProfile(c.adoptions, id);
    && (id in c.locals ==>
          && SameOwner(c.locals[id].identity, identity) && c.locals[id].targetEpoch < identity.sourceEpoch
          && c.locals[id].state == LocalActive && PreviousStopped(c, id, c.locals[id].targetEpoch))
    && (profile.Some? ==>
          && SameOwner(profile.value.receipt.identity, identity) && profile.value.targetEpoch < identity.sourceEpoch
          && profile.value.state == Active && PreviousStopped(c, id, profile.value.targetEpoch))
    && (id in c.fences ==>
          && c.fences[id].stopped && c.fences[id].Epoch() < identity.sourceEpoch
          && SameOwner(c.fences[id].identity, identity))
  }

  predicate LocalPlaceFree(c: Cell, id: AccountId, directory: Path) {
    && (forall live :: live in c.dataDirs ==> !Related(live, directory))
    && (forall owner :: owner in c.locals && owner != id ==> c.locals[owner].directory != directory)
  }

  predicate KnownIdentity(c: Cell, id: AccountId, directory: Path, readable: bool) {
    var profile := CurrentProfile(c.adoptions, id);
    if id in c.locals then IdentityOnDisk(c, directory, c.locals[id].profileId, readable)
    else if profile.Some? then IdentityOnDisk(c, directory, profile.value.receipt.profileId, readable)
    else if id in c.fences then IdentityOnDisk(c, directory, c.fences[id].profileId, readable)
    else id in c.playerBindings && c.playerBindings[id] != "" ==> readable
  }

  predicate CanReserveLocal(c: Cell, identity: Identity, readable: bool) {
    var id := identity.runtimeId;
    var directory := AccountDirectory(c, id);
    && PreviousAllowsLocal(c, identity) && !IsLive(c, id) && HasCapacity(c, id)
    && LocalPlaceFree(c, id, directory) && KnownIdentity(c, id, directory, readable)
  }

  /** `leased` stands for the symlink check and the profile lease. */
  function LocalToReserve(c: Cell, identity: Identity, readable: bool, leased: bool): Option<LocalBinding> {
    var id := identity.runtimeId;
    var directory := AccountDirectory(c, id);
    if identity.sourceCellId == c.cellId || !ValidFence(id, Fence(identity, StagingDirectory(id), "", false)) || c.closed
    then None
    else if LocalReservationRepeats(c, identity) then
      if c.locals[id].state == LocalReserved then Some(c.locals[id]) else None
    else if CanReserveLocal(c, identity, readable) && leased then
      Some(LocalBinding(identity, c.cellId, identity.sourceEpoch + 1, directory, c.profileId(directory), LocalReserved))
    else None
  }

  function ReserveLocal(c: Cell, identity: Identity, readable: bool, leased: bool, outcome: WriteOutcome)
    : (Cell, Option<LocalBinding>)
  {
    var binding := LocalToReserve(c, identity, readable, leased);
    if binding.None? then (c, None) else SaveLocal(c, identity.runtimeId, binding.value, outcome)
  }

  predicate CanActivateLocal(c: Cell, expected: LocalBinding, readable: bool) {
    var id := expected.identity.runtimeId;
    && ValidLocal(expected) && expected.targetCellId == c.cellId && expected.state == LocalReserved && !c.closed
    && id in c.locals && c.locals[id].(state := LocalReserved) == expected
    && !Departed(FenceOf(c.fences, id), expected.targetEpoch)
    && IdentityOnDisk(c, c.locals[id].directory, c.locals[id].profileId, readable)
  }

  function ActivateLocal(c: Cell, expected: LocalBinding, readable: bool, outcome: WriteOutcome)
    : (Cell, Option<LocalBinding>)
  {
    var id := expected.identity.runtimeId;
    if !CanActivateLocal(c, expected, readable) then (c, None)
    else SaveLocal(c, id, c.locals[id].(state := LocalActive), outcome)
  }

  // ---- restart

  function Reload(c: Cell, fences: Fences, adoptions: Adoptions, locals: Locals, bindings: map<AccountId, string>): Cell {
    c.(closed := false, accounts := map[], stopping := map[], pending := map[], dataDirs := map[],
       playerBindings := bindings, assignments := map[], fences := fences, adoptions := adoptions, locals := locals)
  }

  /** Only the process ends: it reads back what the machine still shows. */
  function Exit(c: Cell, bindings: map<AccountId, string>): Cell {
    Reload(c, c.fenceDisk.visible, c.adoptionDisk.visible, c.localDisk.visible, bindings)
  }

  /** Power loss: each journal comes back as any document it may hold. */
  function Crash(c: Cell, fences: Fences, adoptions: Adoptions, locals: Locals, bindings: map<AccountId, string>): Cell {
    if fences in c.fenceDisk.possible && adoptions in c.adoptionDisk.possible && locals in c.localDisk.possible then
      Reload(c, fences, adoptions, locals, bindings)
        .(fenceDisk := Fresh(fences), adoptionDisk := Fresh(adoptions), localDisk := Fresh(locals))
    else c
  }

  // ---- runs

  /** Critical sections of the account table and of the published assignments. */
  datatype AccountStep =
    | StepBeginAdd(id: AccountId, directory: Path, assignment: Option<Assignment>, readable: bool)
    | StepFinishAdd(id: AccountId, application: nat, constructed: bool)
    | StepBeginStop(id: AccountId)
    | StepFinish(application: nat)
    | StepRelease(id: AccountId, application: nat)
    | StepWatch(id: AccountId, application: nat)
    | StepBind(id: AccountId, key: string)
    | StepPublish(assignments: map<AccountId, Assignment>)
    | StepClose

  datatype SourceStep =
    | StepFence(identity: Identity, archive: bool, ready: bool, settled: bool, outcome: WriteOutcome)
    | StepConfirm(identity: Identity, readable: bool, settled: bool, outcome: WriteOutcome)

  datatype TargetStep =
    | StepReserve(profile: TargetProfile, files: FileView)
    | StepSaveAdoptions(outcome: WriteOutcome)
    | StepRestored(id: AccountId, outcome: WriteOutcome)
    | StepActivate(expected: TargetProfile, intact: bool, outcome: WriteOutcome)

  datatype LocalStep =
    | StepReserveLocal(identity: Identity, readable: bool, leased: bool, outcome: WriteOutcome)
    | StepActivateLocal(binding: LocalBinding, readable: bool, outcome: WriteOutcome)

  datatype RestartStep =
    | StepExit(bindings: map<AccountId, string>)
    | StepCrash(fences: Fences, adoptions: Adoptions, locals: Locals, bindings: map<AccountId, string>)

  datatype Step =
    | OnAccounts(account: AccountStep)
    | OnSource(source: SourceStep)
    | OnTarget(target: TargetStep)
    | OnLocal(local: LocalStep)
    | OnRestart(restart: RestartStep)

  function ApplyAccount(c: Cell, s: AccountStep): (d: Cell)
    ensures SameDocuments(c, d)
  {
    match s
    case StepBeginAdd(id, directory, assignment, readable) =>
      if MayHaveRead(c, id, directory) then BeginAdd(c, id, directory, assignment, readable) else c
    case StepFinishAdd(id, application, constructed) => FinishAdd(c, id, application, constructed)
    case StepBeginStop(id) => BeginStop(c, id)
    case StepFinish(application) => Finish(c, application)
    case StepRelease(id, application) => Release(c, id, application)
    case StepWatch(id, application) => WatchStop(c, id, application)
    case StepBind(id, key) => BindPlayer(c, id, key)
    case StepPublish(assignments) => Publish(c, assignments)
    case StepClose => Close(c)
  }

  function ApplySource(c: Cell, s: SourceStep): Cell {
    match s
    case StepFence(identity, archive, ready, settled, outcome) =>
      FenceSource(c, identity, archive, ready, settled, outcome).0
    case StepConfirm(identity, readable, settled, outcome) => ConfirmStopped(c, identity, readable, settled, outcome).0
  }

  function ApplyTarget(c: Cell, s: TargetStep): Cell {
    match s
    case StepReserve(profile, files) => Reserve(c, profile, files).0
    case StepSaveAdoptions(outcome) => SaveAdoptions(c, outcome).0
    case StepRestored(id, outcome) => PublishRestored(c, id, outcome).0
    case StepActivate(expected, intact, outcome) => Activate(c, expected, intact, outcome).0
  }

  function ApplyLocal(c: Cell, s: LocalStep): Cell {
    match s
    case StepReserveLocal(identity, readable, leased, outcome) => ReserveLocal(c, identity, readable, leased, outcome).0
    case StepActivateLocal(binding, readable, outcome) => ActivateLocal(c, binding, readable, outcome).0
  }

  function ApplyRestart(c: Cell, s: RestartStep): Cell {
    if !ValidBindings(s.bindings) then c
    else
      match s
      case StepExit(bindings) => Exit(c, bindings)
      case StepCrash(fences, adoptions, locals, bindings) => Crash(c, fences, adoptions, locals, bindings)
  }

  function Apply(c: Cell, s: Step): Cell {
    match s
    case OnAccounts(step) => ApplyAccount(c, step)
    case OnSource(step) => ApplySource(c, step)
    case OnTarget(step) => ApplyTarget(c, step)
    case OnLocal(step) => ApplyLocal(c, step)
    case OnRestart(step) => ApplyRestart(c, step)
  }

  /** Player keys are rendered from letters, digits and hyphens. */
  predicate ValidBindings(bindings: map<AccountId, string>) {
    forall id :: id in bindings ==> bindings[id] == "" || ValidComponent(bindings[id])
  }

  function RunSteps(c: Cell, steps: seq<Step>): Cell
    decreases |steps|
  {
    if steps == [] then c else RunSteps(Apply(c, steps[0]), steps[1..])
  }

  function NewCell(cellId: string, maxAccounts: nat, profileId: Path -> string): Cell {
    Cell(cellId, maxAccounts, profileId, false, map[], map[], map[], map[], {}, map[], map[], map[], NoAdoptions, map[],
         Fresh(map[]), Fresh(NoAdoptions), Fresh(map[]))
  }
}
