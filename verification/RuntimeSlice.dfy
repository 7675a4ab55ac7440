/** Everything a cell holds about one runtime, in memory and on disk, and the moves
    a cell can make on it. The handover invariants live here, free of maps. */
module RuntimeSlice {
  import opened Journals
  import opened HandoverTypes
  import opened CellSpec

  /** One runtime's part of an adoption document. */
  datatype Owned = Owned(profile: Option<TargetProfile>, generations: set<Path>, retired: set<Path>)

  datatype Slice = Slice(
    live: Option<Path>,
    assignment: Option<Assignment>,
    fence: Option<Fence>, fenceDisk: Disk<Option<Fence>>,
    owned: Owned, ownedDisk: Disk<Owned>,
    local: Option<LocalBinding>, localDisk: Disk<Option<LocalBinding>>)

  datatype Move =
    | Stay
    | Start(directory: Path)
    | Stop
    | Assign(assignment: Option<Assignment>)
    | RewriteFence(outcome: WriteOutcome)
    | RewriteOwned(outcome: WriteOutcome)
    | RewriteLocal(outcome: WriteOutcome)
    | NewFence(fence: Fence, outcome: WriteOutcome)
    | StopFence(profileId: string, outcome: WriteOutcome)
    | ReserveTarget(profile: TargetProfile, retire: set<Path>)
    | SaveTarget(state: AdoptionState, outcome: WriteOutcome, unassign: bool)
    | NewLocal(binding: LocalBinding, outcome: WriteOutcome)
    | LocalOn(outcome: WriteOutcome)
    | ReloadFrom(oldFence: Option<Fence>, oldOwned: Owned, oldLocal: Option<LocalBinding>)
    | ReloadVisible

  predicate ActiveImport(s: Slice) { ImportActive(s.owned.profile, s.fence) }

  predicate ActiveLocal(s: Slice) { LocalIsActive(s.local, s.fence) }

  /** A directory this runtime can have run on. */
  predicate Home(directory: Path, owned: Owned, id: AccountId) {
    && |directory| == 2
    && (directory[0] == "Players" || directory == StagingDirectory(id) || directory in owned.generations)
  }

  predicate FirstHome(directory: Path, id: AccountId) {
    |directory| == 2 && (directory[0] == "Players" || directory == StagingDirectory(id))
  }

  predicate SameFence(left: Fence, right: Fence) {
    left.identity == right.identity && left.directory == right.directory
  }

  predicate SameGeneration(left: TargetProfile, right: TargetProfile) {
    left.(state := right.state) == right
  }

  predicate SameBinding(left: LocalBinding, right: LocalBinding) {
    left.(state := right.state) == right
  }

  function Rank(state: AdoptionState): nat {
    match state case Reserved => 0 case Restored => 1 case Active => 2
  }

  /** Journal order of fences: a later epoch, or the same fence with no stop lost. */
  predicate FenceLe(left: Option<Fence>, right: Option<Fence>) {
    left.Some? ==>
      && right.Some?
      && (left.value.Epoch() < right.value.Epoch()
          || (SameFence(left.value, right.value) && (left.value.stopped ==> right.value == left.value)))
  }

  /** Generations only move to later epochs; states are compared by ProfileLe. */
  predicate GenerationLe(left: Option<TargetProfile>, right: Option<TargetProfile>) {
    left.Some? ==>
      && right.Some?
      && (left.value.targetEpoch < right.value.targetEpoch || SameGeneration(left.value, right.value))
  }

  predicate OwnedLe(left: Owned, right: Owned) {
    GenerationLe(left.profile, right.profile) && left.generations <= right.generations && left.retired <= right.retired
  }

  predicate ProfileLe(left: Option<TargetProfile>, right: Option<TargetProfile>) {
    left.Some? ==>
      && right.Some?
      && (left.value.targetEpoch < right.value.targetEpoch
          || (SameGeneration(left.value, right.value) && Rank(left.value.state) <= Rank(right.value.state)))
  }

  predicate LocalLe(left: Option<LocalBinding>, right: Option<LocalBinding>) {
    left.Some? ==>
      && right.Some?
      && (left.value.targetEpoch < right.value.targetEpoch
          || (SameBinding(left.value, right.value) && (left.value.state == LocalActive ==> right.value.state == LocalActive)))
  }

  // ---- moves

  predicate MayStart(s: Slice, directory: Path, id: AccountId, profileId: Path -> string) {
    && s.live.None?
    && (if s.local.Some? then ActiveLocal(s) && directory == s.local.value.directory
        else if s.owned.profile.Some? then
          && ActiveImport(s) && directory == s.owned.profile.value.directory
          && profileId(directory) == s.owned.profile.value.receipt.profileId
        else s.fence.None? && FirstHome(directory, id))
  }

  predicate OwnsByImport(s: Slice, epoch: nat) {
    s.local.None? && ActiveImport(s) && s.owned.profile.value.targetEpoch == epoch
  }

  predicate OwnsByLocal(s: Slice, epoch: nat) {
    ActiveLocal(s) && s.local.value.targetEpoch == epoch
  }

  predicate MayFence(s: Slice, fence: Fence, id: AccountId) {
    && s.live == Some(fence.directory) && !fence.stopped && fence.identity.runtimeId == id
    && s.assignment.Some? && s.assignment.value.placementEpoch == fence.Epoch()
    && (s.fence.Some? ==> OwnsByLocal(s, fence.Epoch()) || (ActiveImport(s) && s.owned.profile.value.targetEpoch == fence.Epoch()))
    && (ActiveLocal(s) ==> OwnsByLocal(s, fence.Epoch()))
    && (s.local.None? && ActiveImport(s) ==> OwnsByImport(s, fence.Epoch()))
  }

  predicate MayReserve(s: Slice, profile: TargetProfile, retire: set<Path>, id: AccountId) {
    && s.local.None? && s.live.None?
    && profile.state == Reserved && profile.Owner() == id && |profile.directory| == 2 && profile.directory[0] == "Accounts"
    && profile.directory != StagingDirectory(id) && profile.directory !in s.owned.generations
    && profile.targetEpoch == profile.receipt.identity.sourceEpoch + 1
    && (s.owned.profile.Some? ==>
          s.owned.profile.value.state == Active && Departed(s.fence, s.owned.profile.value.targetEpoch))
    && (s.fence.Some? ==>
          && s.fence.value.stopped && profile.receipt.identity.sourceEpoch > s.fence.value.Epoch()
          && s.fence.value.profileId == profile.receipt.profileId)
    && StagingDirectory(id) in retire && profile.directory !in retire
    && (s.owned.profile.Some? ==> s.owned.profile.value.directory in retire)
    && (s.fence.Some? && s.fence.value.directory != profile.directory ==> s.fence.value.directory in retire)
    && forall directory :: directory in retire ==>
         || FirstHome(directory, id)
         || (s.owned.profile.Some? && directory == s.owned.profile.value.directory)
         || (s.fence.Some? && directory == s.fence.value.directory)
  }

  predicate MaySave(s: Slice, state: AdoptionState) {
    && s.owned.profile.Some? && state != Reserved
    && (state == Restored ==> s.owned.profile.value.state != Active && s.ownedDisk.possible == {s.owned})
    && (state == Active ==> s.owned.profile.value.state != Reserved)
  }

  predicate MayReserveLocal(s: Slice, binding: LocalBinding, id: AccountId, profileId: Path -> string) {
    && s.live.None? && binding.state == LocalReserved
    && binding.targetEpoch == binding.identity.sourceEpoch + 1
    && binding.profileId == profileId(binding.directory)
    && (s.local.Some? ==>
          && s.local.value.targetEpoch < binding.targetEpoch && binding.directory == s.local.value.directory
          && binding.profileId == s.local.value.profileId)
    && (s.owned.profile.Some? ==>
          && s.owned.profile.value.state == Active && s.fence.Some? && s.fence.value.stopped
          && Departed(s.fence, s.owned.profile.value.targetEpoch))
    && (s.local.None? && s.owned.profile.Some? ==>
          && binding.directory == s.owned.profile.value.directory
          && binding.profileId == s.owned.profile.value.receipt.profileId)
    && (s.local.None? && s.owned.profile.None? ==> FirstHome(binding.directory, id))
  }

  predicate May(s: Slice, move: Move, id: AccountId, profileId: Path -> string) {
    match move
    case Start(directory) => MayStart(s, directory, id, profileId)
    case NewFence(fence, _) => MayFence(s, fence, id)
    case StopFence(expected, _) =>
      && s.fence.Some? && s.live != Some(s.fence.value.directory) && expected == profileId(s.fence.value.directory)
      && (s.fence.value.stopped ==> s.fence.value.profileId == expected)
      && s.fenceDisk.possible == {s.fence}
    case ReserveTarget(profile, retire) => MayReserve(s, profile, retire, id)
    case SaveTarget(state, _, _) => MaySave(s, state)
    case NewLocal(binding, _) => MayReserveLocal(s, binding, id, profileId)
    case LocalOn(_) => s.local.Some? && !Departed(s.fence, s.local.value.targetEpoch)
    case ReloadFrom(fence, owned, local) =>
      fence in s.fenceDisk.possible && owned in s.ownedDisk.possible && local in s.localDisk.possible
    case _ => true
  }

  function Reloaded(s: Slice, fence: Option<Fence>, owned: Owned, local: Option<LocalBinding>): Slice {
    s.(live := None, assignment := None, fence := fence, owned := owned, local := local)
  }

  function WithProfileState(owned: Owned, state: AdoptionState): Owned {
    if owned.profile.None? then owned else owned.(profile := Some(owned.profile.value.(state := state)))
  }

  function SavedTarget(s: Slice, state: AdoptionState, outcome: WriteOutcome, unassign: bool): Slice {
    var owned := WithProfileState(s.owned, state);
    s.(ownedDisk := Write(s.ownedDisk, owned, outcome), owned := if outcome.Synced? then owned else s.owned,
       assignment := if unassign then None else s.assignment)
  }

  function Next(s: Slice, move: Move): Slice {
    match move
    case Stay => s
    case Start(directory) => s.(live := Some(directory))
    case Stop => s.(live := None)
    case Assign(assignment) => s.(assignment := assignment)
    case RewriteFence(outcome) => s.(fenceDisk := Write(s.fenceDisk, s.fence, outcome))
    case RewriteOwned(outcome) => s.(ownedDisk := Write(s.ownedDisk, s.owned, outcome))
    case RewriteLocal(outcome) => s.(localDisk := Write(s.localDisk, s.local, outcome))
    case NewFence(fence, outcome) =>
      s.(fence := Some(fence), fenceDisk := Write(s.fenceDisk, Some(fence), outcome))
    case StopFence(expected, outcome) =>
      if s.fence.None? then s
      else
        var fence := Some(s.fence.value.(stopped := true, profileId := expected));
        s.(fence := fence, fenceDisk := Write(s.fenceDisk, fence, outcome))
    case ReserveTarget(profile, retire) =>
      s.(owned := Owned(Some(profile), s.owned.generations + {profile.directory}, s.owned.retired + retire))
    case SaveTarget(state, outcome, unassign) => SavedTarget(s, state, outcome, unassign)
    case NewLocal(binding, outcome) =>
      s.(local := Some(binding), localDisk := Write(s.localDisk, Some(binding), outcome))
    case LocalOn(outcome) =>
      if s.local.None? then s
      else
        var local := Some(s.local.value.(state := LocalActive));
        s.(local := local, localDisk := Write(s.localDisk, local, outcome))
    case ReloadFrom(fence, owned, local) =>
      Reloaded(s, fence, owned, local).(fenceDisk := Fresh(fence), ownedDisk := Fresh(owned), localDisk := Fresh(local))
    case ReloadVisible => Reloaded(s, s.fenceDisk.visible, s.ownedDisk.visible, s.localDisk.visible)
  }

  // ---- the invariant

  ghost predicate FenceOrder(s: Slice, id: AccountId, profileId: Path -> string) {
    && s.fenceDisk.visible in s.fenceDisk.possible
    && FenceLe(s.fenceDisk.visible, s.fence)
    && (forall f :: f in s.fenceDisk.possible ==> FenceLe(f, s.fenceDisk.visible))
    && (s.fence.Some? && s.fence.value.stopped ==>
          forall f :: f in s.fenceDisk.possible ==> f.Some? && SameFence(f.value, s.fence.value))
    && (s.fenceDisk.visible.Some? && s.fenceDisk.visible.value.stopped ==>
          forall f :: f in s.fenceDisk.possible ==> f.Some? && SameFence(f.value, s.fenceDisk.visible.value))
    && FenceFormed(s.fence, id, profileId)
    && (forall f :: f in s.fenceDisk.possible ==> FenceFormed(f, id, profileId))
  }

  predicate FenceFormed(fence: Option<Fence>, id: AccountId, profileId: Path -> string) {
    fence.Some? ==>
      && fence.value.identity.runtimeId == id
      && (fence.value.stopped ==> fence.value.profileId == profileId(fence.value.directory))
  }

  ghost predicate Delivered(owned: Owned, possible: set<Owned>) {
    owned.profile.Some? && owned.profile.value.state != Reserved ==>
      forall o :: o in possible ==> o.profile.Some? && SameGeneration(o.profile.value, owned.profile.value)
  }

  ghost predicate OwnedOrder(s: Slice) {
    && s.ownedDisk.visible in s.ownedDisk.possible
    && OwnedLe(s.ownedDisk.visible, s.owned)
    && (forall o :: o in s.ownedDisk.possible ==> OwnedLe(o, s.ownedDisk.visible))
    && Delivered(s.owned, s.ownedDisk.possible)
    && Delivered(s.ownedDisk.visible, s.ownedDisk.possible)
  }

  ghost predicate LocalOrder(s: Slice) {
    && s.localDisk.visible in s.localDisk.possible
    && LocalLe(s.localDisk.visible, s.local)
    && (forall l :: l in s.localDisk.possible ==> LocalLe(l, s.localDisk.visible))
  }

  /** What must hold between the three journals whichever versions come back. */
  predicate Agree(f: Option<Fence>, o: Owned, l: Option<LocalBinding>, id: AccountId, profileId: Path -> string) {
    && (f.Some? && o.profile.Some? && f.value.Epoch() >= o.profile.value.targetEpoch ==>
          profileId(f.value.directory) == o.profile.value.receipt.profileId)
    && (l.Some? && o.profile.Some? ==>
          && profileId(l.value.directory) == o.profile.value.receipt.profileId
          && Departed(f, o.profile.value.targetEpoch))
    && (l.Some? ==> l.value.profileId == profileId(l.value.directory))
    && (f.Some? ==> Home(f.value.directory, o, id))
    && (l.Some? ==> Home(l.value.directory, o, id))
    && (f.Some? && o.profile.Some? && f.value.Epoch() < o.profile.value.targetEpoch ==> f.value.directory in o.retired)
    && (o.profile.Some? ==> o.profile.value.directory in o.generations)
    && (forall d :: d in o.retired ==> Home(d, o, id))
    && (forall d :: d in o.generations ==> |d| == 2)
  }

  /** The version in memory and every version a restart may bring back. */
  function Versions<T(==)>(memory: T, disk: Disk<T>): set<T> {
    disk.possible + {memory}
  }

  ghost predicate AllAgree(s: Slice, id: AccountId, profileId: Path -> string) {
    forall f, o, l | f in Versions(s.fence, s.fenceDisk) && o in Versions(s.owned, s.ownedDisk)
                     && l in Versions(s.local, s.localDisk) :: Agree(f, o, l, id, profileId)
  }

  predicate LivesAtHome(s: Slice, id: AccountId, profileId: Path -> string) {
    s.live.Some? ==>
      if s.local.Some? then s.local.value.state == LocalActive && s.live.value == s.local.value.directory
      else if s.owned.profile.Some? then
        && s.owned.profile.value.state == Active && s.live.value == s.owned.profile.value.directory
        && profileId(s.live.value) == s.owned.profile.value.receipt.profileId
      else FirstHome(s.live.value, id)
  }

  /** A fenced runtime that owns nothing newer runs only where it was fenced, and not
      at all once it is known to have stopped. */
  predicate FenceHolds(s: Slice) {
    s.fence.Some? && !ActiveImport(s) && !ActiveLocal(s) ==>
      && (s.fence.value.stopped ==> s.live.None?)
      && (s.live.Some? ==> s.live.value == s.fence.value.directory)
  }

  ghost predicate Inv(s: Slice, id: AccountId, profileId: Path -> string) {
    && FenceOrder(s, id, profileId)
    && OwnedOrder(s)
    && LocalOrder(s)
    && AllAgree(s, id, profileId)
    && LivesAtHome(s, id, profileId)
    && FenceHolds(s)
  }

  // ---- every move keeps it

  lemma NewFenceIsLater(s: Slice, fence: Fence, id: AccountId, profileId: Path -> string)
    requires Inv(s, id, profileId) && MayFence(s, fence, id)
    ensures s.fence.Some? ==> s.fence.value.Epoch() < fence.Epoch()
  {
  }

  lemma NewFenceKeepsOrder(s: Slice, fence: Fence, outcome: WriteOutcome, id: AccountId, profileId: Path -> string)
    requires Inv(s, id, profileId) && May(s, NewFence(fence, outcome), id, profileId)
    ensures FenceOrder(Next(s, NewFence(fence, outcome)), id, profileId)
  {
  }

  lemma MoveKeepsFenceOrder(s: Slice, move: Move, id: AccountId, profileId: Path -> string)
    requires Inv(s, id, profileId) && May(s, move, id, profileId)
    ensures FenceOrder(Next(s, move), id, profileId)
  {
    match move
    case NewFence(fence, outcome) => NewFenceKeepsOrder(s, fence, outcome, id, profileId);
    case StopFence(_, _) =>
    case RewriteFence(_) =>
    case ReloadFrom(_, _, _) =>
    case _ =>
  }

  lemma MoveKeepsOwnedOrder(s: Slice, move: Move, id: AccountId, profileId: Path -> string)
    requires Inv(s, id, profileId) && May(s, move, id, profileId)
    ensures OwnedOrder(Next(s, move))
  {
  }

  lemma MoveKeepsLocalOrder(s: Slice, move: Move, id: AccountId, profileId: Path -> string)
    requires Inv(s, id, profileId) && May(s, move, id, profileId)
    ensures LocalOrder(Next(s, move))
  {
  }

  lemma NewFenceAgrees(s: Slice, fence: Fence, o: Owned, l: Option<LocalBinding>, id: AccountId, profileId: Path -> string)
    requires Inv(s, id, profileId) && MayFence(s, fence, id)
    requires o in Versions(s.owned, s.ownedDisk) && l in Versions(s.local, s.localDisk)
    ensures Agree(Some(fence), o, l, id, profileId)
  {
    NewFenceIsLater(s, fence, id, profileId);
    assert Agree(s.fence, o, s.local, id, profileId) && Agree(s.fence, o, l, id, profileId);
    assert Agree(s.fence, s.owned, s.local, id, profileId);
  }

  lemma StoppedFenceAgrees(f: Fence, expected: string, o: Owned, l: Option<LocalBinding>, id: AccountId,
                           profileId: Path -> string)
    requires Agree(Some(f), o, l, id, profileId)
    ensures Agree(Some(f.(stopped := true, profileId := expected)), o, l, id, profileId)
  {
  }

  lemma ReservationAgrees(s: Slice, move: Move, f: Option<Fence>, id: AccountId, profileId: Path -> string)
    requires Inv(s, id, profileId) && move.ReserveTarget? && May(s, move, id, profileId)
    requires f in Versions(s.fence, s.fenceDisk)
    ensures Agree(f, Next(s, move).owned, None, id, profileId)
  {
    assert Agree(f, s.owned, s.local, id, profileId) && Agree(s.fence, s.owned, s.local, id, profileId);
  }

  lemma SavedStateAgrees(f: Option<Fence>, o: Owned, l: Option<LocalBinding>, state: AdoptionState, id: AccountId,
                         profileId: Path -> string)
    requires Agree(f, o, l, id, profileId) && o.profile.Some?
    ensures Agree(f, o.(profile := Some(o.profile.value.(state := state))), l, id, profileId)
  {
  }

  lemma NewLocalAgrees(s: Slice, binding: LocalBinding, f: Option<Fence>, o: Owned, id: AccountId,
                       profileId: Path -> string)
    requires Inv(s, id, profileId) && MayReserveLocal(s, binding, id, profileId)
    requires f in Versions(s.fence, s.fenceDisk) && o in Versions(s.owned, s.ownedDisk)
    ensures Agree(f, o, Some(binding), id, profileId)
  {
    assert Agree(f, o, s.local, id, profileId);
    assert Agree(s.fence, s.owned, s.local, id, profileId) && Agree(f, s.owned, s.local, id, profileId);
  }

  lemma LocalOnAgrees(f: Option<Fence>, o: Owned, l: LocalBinding, id: AccountId, profileId: Path -> string)
    requires Agree(f, o, Some(l), id, profileId)
    ensures Agree(f, o, Some(l.(state := LocalActive)), id, profileId)
  {
  }

  lemma MoveKeepsAgreement(s: Slice, move: Move, id: AccountId, profileId: Path -> string)
    requires Inv(s, id, profileId) && May(s, move, id, profileId)
    ensures AllAgree(Next(s, move), id, profileId)
  {
    var t := Next(s, move);
    forall f, o, l | f in Versions(t.fence, t.fenceDisk) && o in Versions(t.owned, t.ownedDisk)
                     && l in Versions(t.local, t.localDisk)
      ensures Agree(f, o, l, id, profileId)
    {
      match move {
        case NewFence(fence, _) =>
          if f == Some(fence) { NewFenceAgrees(s, fence, o, l, id, profileId); }
        case StopFence(expected, _) =>
          if f == t.fence {
            assert Agree(s.fence, o, l, id, profileId);
            StoppedFenceAgrees(s.fence.value, expected, o, l, id, profileId);
          }
        case ReserveTarget(_, _) =>
          if o == t.owned {
            assert LocalLe(l, s.local);
            ReservationAgrees(s, move, f, id, profileId);
          }
        case SaveTarget(state, outcome, _) =>
          if o !in Versions(s.owned, s.ownedDisk) {
            assert Agree(f, s.owned, l, id, profileId);
            SavedStateAgrees(f, s.owned, l, state, id, profileId);
          }
        case NewLocal(binding, _) =>
          if l == Some(binding) { NewLocalAgrees(s, binding, f, o, id, profileId); }
        case LocalOn(_) =>
          if l == t.local {
            assert Agree(f, o, s.local, id, profileId);
            LocalOnAgrees(f, o, s.local.value, id, profileId);
          }
        case _ =>
      }
    }
  }

  lemma MoveKeepsLiveness(s: Slice, move: Move, id: AccountId, profileId: Path -> string)
    requires Inv(s, id, profileId) && May(s, move, id, profileId)
    ensures LivesAtHome(Next(s, move), id, profileId) && FenceHolds(Next(s, move))
  {
  }

  lemma MoveKeepsInv(s: Slice, move: Move, id: AccountId, profileId: Path -> string)
    requires Inv(s, id, profileId) && May(s, move, id, profileId)
    ensures Inv(Next(s, move), id, profileId)
  {
    MoveKeepsFenceOrder(s, move, id, profileId);
    MoveKeepsOwnedOrder(s, move, id, profileId);
    MoveKeepsLocalOrder(s, move, id, profileId);
    MoveKeepsAgreement(s, move, id, profileId);
    MoveKeepsLiveness(s, move, id, profileId);
  }
}
