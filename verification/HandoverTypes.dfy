/** The records of the three handover journals, with the checks their writers and
    loaders apply. */
module HandoverTypes {
  import opened Journals

  type AccountId = string

  /** A directory below the data root, as its path components. */
  type Path = seq<string>

  const MAXIMUM_EPOCH: nat := 0x7FFF_FFFF_FFFF_FFFF
  const MAXIMUM_PROFILE_ID: nat := 128
  const MAXIMUM_ARCHIVE_FILES: nat := 100000
  const MAXIMUM_ARCHIVE_BYTES: nat := 0x4_0000_0000

  predicate IdentifierLetter(c: char) {
    'a' <= c <= 'z' || '0' <= c <= '9'
  }

  predicate CanonicalId(id: string) {
    && 1 <= |id| <= 64
    && IdentifierLetter(id[0])
    && forall i :: 0 <= i < |id| ==> IdentifierLetter(id[i]) || id[i] == '-' || id[i] == '_'
  }

  predicate ValidDigest(digest: string) {
    |digest| == 64 && forall i :: 0 <= i < |digest| ==> '0' <= digest[i] <= '9' || 'a' <= digest[i] <= 'f'
  }

  predicate ValidComponent(name: string) {
    && name != "" && name != "." && name != ".."
    && forall i :: 0 <= i < |name| ==> name[i] != '/' && name[i] != '\\' && name[i] != ':' && name[i] != '\0'
  }

  predicate ValidProfileDirectory(directory: Path) {
    |directory| == 2 && (directory[0] == "Accounts" || directory[0] == "Players") && ValidComponent(directory[1])
  }

  predicate PathWithin(root: Path, candidate: Path) {
    root <= candidate
  }

  predicate Related(left: Path, right: Path) {
    PathWithin(left, right) || PathWithin(right, left)
  }

  function StagingDirectory(id: AccountId): Path {
    ["Accounts", id]
  }

  function PlayerDirectory(key: string): Path {
    ["Players", key]
  }

  function TransferDirectory(operation: string): Path {
    ["Accounts", "transfer-" + operation]
  }

  lemma TransferDirectoryInjective(a: string, b: string)
    requires TransferDirectory(a) == TransferDirectory(b)
    ensures a == b
  {
    var prefix := "transfer-";
    assert TransferDirectory(a)[1] == TransferDirectory(b)[1];
    assert (prefix + a)[|prefix|..] == a && (prefix + b)[|prefix|..] == b;
  }

  /** What the backend wants one cell to run. */
  datatype Assignment = Assignment(
    runtimeId: string, tenantId: string, placementEpoch: nat, leaseExpiresAt: int, startSession: bool,
    revision: nat, digest: string, onDisconnect: string, metricsGrant: Option<(string, int)>)

  datatype Identity = Identity(
    operationId: string, accountId: string, runtimeId: string, tenantId: string, sourceCellId: string,
    sourceEpoch: nat, configurationRevision: nat, configurationDigest: string)

  predicate ValidIdentity(id: AccountId, identity: Identity) {
    && CanonicalId(identity.runtimeId) && CanonicalId(identity.tenantId) && CanonicalId(identity.sourceCellId)
    && CanonicalId(identity.operationId) && CanonicalId(identity.accountId)
    && id == identity.runtimeId && identity.sourceEpoch != 0 && identity.configurationRevision != 0
    && ValidDigest(identity.configurationDigest)
  }

  predicate SameOwner(left: Identity, right: Identity) {
    left.accountId == right.accountId && left.tenantId == right.tenantId
  }

  // ---- source fences

  datatype Fence = Fence(identity: Identity, directory: Path, profileId: string, stopped: bool) {
    function Epoch(): nat { identity.sourceEpoch }
  }

  type Fences = map<AccountId, Fence>

  predicate ValidProfileId(profileId: string) {
    profileId != "" && |profileId| <= MAXIMUM_PROFILE_ID
  }

  predicate ValidFence(id: AccountId, fence: Fence) {
    && ValidIdentity(id, fence.identity)
    && ValidProfileDirectory(fence.directory)
    && (fence.stopped ==> ValidProfileId(fence.profileId))
  }

  /** What the fence loader accepts at start. */
  predicate AcceptFences(fences: Fences) {
    forall id :: id in fences ==> ValidFence(id, fences[id])
  }

  // ---- archive adoptions

  datatype AdoptionState = Reserved | Restored | Active

  datatype Receipt = Receipt(
    identity: Identity, schemaVersion: nat, profileId: string, sha256: string, files: nat, bytes: nat)

  datatype TargetProfile = TargetProfile(
    receipt: Receipt, targetCellId: string, targetEpoch: nat, directory: Path, state: AdoptionState) {
    function Owner(): AccountId { receipt.identity.runtimeId }
    function Operation(): string { receipt.identity.operationId }
  }

  datatype Adoptions = Adoptions(
    operations: map<string, TargetProfile>, current: map<AccountId, string>, retired: map<Path, AccountId>)

  predicate ValidTarget(profile: TargetProfile) {
    var identity := profile.receipt.identity;
    && ValidFence(identity.runtimeId, Fence(identity, profile.directory, "", false))
    && CanonicalId(profile.targetCellId) && profile.targetCellId != identity.sourceCellId
    && identity.sourceEpoch < MAXIMUM_EPOCH && profile.targetEpoch == identity.sourceEpoch + 1
    && profile.directory == TransferDirectory(identity.operationId)
    && profile.directory != StagingDirectory(identity.runtimeId)
    && profile.receipt.schemaVersion == 1 && ValidDigest(profile.receipt.sha256)
    && ValidProfileId(profile.receipt.profileId)
    && 1 <= profile.receipt.files <= MAXIMUM_ARCHIVE_FILES
    && 1 <= profile.receipt.bytes <= MAXIMUM_ARCHIVE_BYTES
  }

  /** A missing current entry reads as the empty operation, which names no record. */
  function CurrentOperation(adoptions: Adoptions, id: AccountId): string {
    if id in adoptions.current then adoptions.current[id] else ""
  }

  function CurrentProfile(adoptions: Adoptions, id: AccountId): Option<TargetProfile> {
    var operation := CurrentOperation(adoptions, id);
    if operation in adoptions.operations then Some(adoptions.operations[operation]) else None
  }

  predicate RetiredTo(adoptions: Adoptions, directory: Path, id: AccountId) {
    directory in adoptions.retired && adoptions.retired[directory] == id
  }

  /** An older generation of the same runtime agrees with the current one and is retired. */
  predicate Precedes(adoptions: Adoptions, previous: TargetProfile, profile: TargetProfile) {
    && previous.targetEpoch < profile.targetEpoch
    && SameOwner(previous.receipt.identity, profile.receipt.identity)
    && previous.targetCellId == profile.targetCellId
    && previous.receipt.profileId == profile.receipt.profileId
    && RetiredTo(adoptions, previous.directory, profile.Owner())
  }

  predicate OperationAccepted(adoptions: Adoptions, operation: string)
    requires operation in adoptions.operations
  {
    var profile := adoptions.operations[operation];
    operation == profile.Operation() && ValidTarget(profile) && profile.Owner() in adoptions.current
  }

  predicate CurrentAccepted(adoptions: Adoptions, id: AccountId)
    requires id in adoptions.current
  {
    var operation := adoptions.current[id];
    && operation in adoptions.operations
    && adoptions.operations[operation].Owner() == id
    && RetiredTo(adoptions, StagingDirectory(id), id)
    && forall key :: key in adoptions.operations && key != operation && adoptions.operations[key].Owner() == id ==>
         Precedes(adoptions, adoptions.operations[key], adoptions.operations[operation])
  }

  predicate RetirementAccepted(adoptions: Adoptions, directory: Path)
    requires directory in adoptions.retired
  {
    var id := adoptions.retired[directory];
    var profile := CurrentProfile(adoptions, id);
    && profile.Some?
    && ValidFence(id, Fence(profile.value.receipt.identity, directory, "", false))
    && directory != profile.value.directory
  }

  /** What the adoption loader accepts at start. */
  predicate AcceptAdoptions(adoptions: Adoptions) {
    && (forall operation :: operation in adoptions.operations ==> OperationAccepted(adoptions, operation))
    && (forall id :: id in adoptions.current ==> CurrentAccepted(adoptions, id))
    && (forall directory :: directory in adoptions.retired ==> RetirementAccepted(adoptions, directory))
  }

  /** The orchestrator refuses a journal that was written for another cell. */
  predicate BelongsTo(adoptions: Adoptions, cellId: string) {
    forall operation :: operation in adoptions.operations ==> adoptions.operations[operation].targetCellId == cellId
  }

  const NoAdoptions := Adoptions(map[], map[], map[])

  // ---- settings-only bindings

  datatype LocalState = LocalReserved | LocalActive

  datatype LocalBinding = LocalBinding(
    identity: Identity, targetCellId: string, targetEpoch: nat, directory: Path, profileId: string, state: LocalState)

  type Locals = map<AccountId, LocalBinding>

  predicate ValidLocal(binding: LocalBinding) {
    var identity := binding.identity;
    && CanonicalId(binding.targetCellId) && binding.targetCellId != identity.sourceCellId
    && identity.sourceEpoch < MAXIMUM_EPOCH && binding.targetEpoch == identity.sourceEpoch + 1
    && ValidFence(identity.runtimeId, Fence(identity, binding.directory, binding.profileId, true))
  }

  /** What the settings-only loader accepts at start. */
  predicate AcceptLocals(locals: Locals) {
    && (forall id :: id in locals ==> ValidLocal(locals[id]) && locals[id].identity.runtimeId == id)
    && (forall a, b :: a in locals && b in locals && a != b ==> locals[a].directory != locals[b].directory)
  }
}
