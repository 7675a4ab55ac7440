/** What a success answer promises: after any later crash, failed save or retry, the
    journals still hold the acknowledged state or a later one. */
module Acknowledgement {
  import opened Journals
  import opened HandoverTypes
  import opened CellSpec
  import opened RuntimeSlice
  import opened CellProjection
  import opened CellInvariant

  /** Every version a restart can bring back is at or after this one. */
  ghost predicate FenceFloor(s: Slice, floor: Fence) {
    forall f :: f in Versions(s.fence, s.fenceDisk) ==> FenceLe(Some(floor), f)
  }

  ghost predicate TargetFloor(s: Slice, floor: TargetProfile) {
    forall o :: o in Versions(s.owned, s.ownedDisk) ==> ProfileLe(Some(floor), o.profile)
  }

  ghost predicate LocalFloor(s: Slice, floor: LocalBinding) {
    forall l :: l in Versions(s.local, s.localDisk) ==> LocalLe(Some(floor), l)
  }

  lemma MoveKeepsFenceFloor(s: Slice, move: Move, id: AccountId, profileId: Path -> string, floor: Fence)
    requires Inv(s, id, profileId) && May(s, move, id, profileId) && FenceFloor(s, floor)
    ensures FenceFloor(Next(s, move), floor)
  {
  }

  lemma MoveKeepsTargetFloor(s: Slice, move: Move, id: AccountId, profileId: Path -> string, floor: TargetProfile)
    requires Inv(s, id, profileId) && May(s, move, id, profileId) && TargetFloor(s, floor)
    ensures TargetFloor(Next(s, move), floor)
  {
  }

  lemma MoveKeepsLocalFloor(s: Slice, move: Move, id: AccountId, profileId: Path -> string, floor: LocalBinding)
    requires Inv(s, id, profileId) && May(s, move, id, profileId) && LocalFloor(s, floor)
    ensures LocalFloor(Next(s, move), floor)
  {
  }

  // ---- whole cells

  lemma StepKeepsFloors(c: Cell, s: Step, id: AccountId)
    requires CellInv(c)
    ensures forall floor :: FenceFloor(Project(c, id), floor) ==> FenceFloor(Project(Apply(c, s), id), floor)
    ensures forall floor :: TargetFloor(Project(c, id), floor) ==> TargetFloor(Project(Apply(c, s), id), floor)
    ensures forall floor :: LocalFloor(Project(c, id), floor) ==> LocalFloor(Project(Apply(c, s), id), floor)
  {
    StepIsMove(c, s, id);
    var slice, move := Project(c, id), MoveOf(c, s, id);
    forall floor | FenceFloor(slice, floor) { MoveKeepsFenceFloor(slice, move, id, c.profileId, floor); }
    forall floor | TargetFloor(slice, floor) { MoveKeepsTargetFloor(slice, move, id, c.profileId, floor); }
    forall floor | LocalFloor(slice, floor) { MoveKeepsLocalFloor(slice, move, id, c.profileId, floor); }
  }

  lemma {:induction false} RunKeepsFenceFloor(c: Cell, steps: seq<Step>, id: AccountId, floor: Fence)
    requires CellInv(c) && FenceFloor(Project(c, id), floor)
    ensures FenceFloor(Project(RunSteps(c, steps), id), floor)
    decreases |steps|
  {
    if steps != [] {
      StepKeepsCellInv(c, steps[0]);
      StepKeepsFloors(c, steps[0], id);
      RunKeepsFenceFloor(Apply(c, steps[0]), steps[1..], id, floor);
    }
  }

  lemma {:induction false} RunKeepsTargetFloor(c: Cell, steps: seq<Step>, id: AccountId, floor: TargetProfile)
    requires CellInv(c) && TargetFloor(Project(c, id), floor)
    ensures TargetFloor(Project(RunSteps(c, steps), id), floor)
    decreases |steps|
  {
    if steps != [] {
      StepKeepsCellInv(c, steps[0]);
      StepKeepsFloors(c, steps[0], id);
      RunKeepsTargetFloor(Apply(c, steps[0]), steps[1..], id, floor);
    }
  }

  lemma {:induction false} RunKeepsLocalFloor(c: Cell, steps: seq<Step>, id: AccountId, floor: LocalBinding)
    requires CellInv(c) && LocalFloor(Project(c, id), floor)
    ensures LocalFloor(Project(RunSteps(c, steps), id), floor)
    decreases |steps|
  {
    if steps != [] {
      StepKeepsCellInv(c, steps[0]);
      StepKeepsFloors(c, steps[0], id);
      RunKeepsLocalFloor(Apply(c, steps[0]), steps[1..], id, floor);
    }
  }

  // ---- every acknowledged document holds the acknowledged record or a later one

  ghost predicate FenceSurvives(c: Cell, floor: Fence) {
    var id := floor.identity.runtimeId;
    forall fences: Fences :: fences in Versions(c.fences, c.fenceDisk) ==>
      && id in fences
      && (floor.Epoch() < fences[id].Epoch()
          || (SameFence(floor, fences[id]) && (floor.stopped ==> fences[id] == floor)))
  }

  ghost predicate TargetSurvives(c: Cell, floor: TargetProfile) {
    forall adoptions :: adoptions in Versions(c.adoptions, c.adoptionDisk) ==>
      ProfileLe(Some(floor), CurrentProfile(adoptions, floor.Owner()))
  }

  ghost predicate LocalSurvives(c: Cell, floor: LocalBinding) {
    forall locals :: locals in Versions(c.locals, c.localDisk) ==>
      LocalLe(Some(floor), LocalOf(locals, floor.identity.runtimeId))
  }

  lemma FenceFloorMeans(c: Cell, floor: Fence)
    ensures FenceSurvives(c, floor) <==> FenceFloor(Project(c, floor.identity.runtimeId), floor)
  {
    var id := floor.identity.runtimeId;
    var s := Project(c, id);
    if FenceFloor(s, floor) {
      forall fences | fences in Versions(c.fences, c.fenceDisk) ensures FenceLe(Some(floor), FenceOf(fences, id)) {
        assert FencePart(id)(fences) in Versions(s.fence, s.fenceDisk);
      }
    }
  }

  lemma TargetFloorMeans(c: Cell, floor: TargetProfile)
    ensures TargetSurvives(c, floor) <==> TargetFloor(Project(c, floor.Owner()), floor)
  {
  }

  lemma LocalFloorMeans(c: Cell, floor: LocalBinding)
    ensures LocalSurvives(c, floor) <==> LocalFloor(Project(c, floor.identity.runtimeId), floor)
  {
  }

  lemma SavedFenceSurvives(d: Cell, floor: Fence, steps: seq<Step>)
    requires CellInv(d) && FenceSurvives(d, floor)
    ensures FenceSurvives(RunSteps(d, steps), floor)
  {
    FenceFloorMeans(d, floor);
    RunKeepsFenceFloor(d, steps, floor.identity.runtimeId, floor);
    FenceFloorMeans(RunSteps(d, steps), floor);
  }

  lemma SavedTargetSurvives(d: Cell, floor: TargetProfile, steps: seq<Step>)
    requires CellInv(d) && TargetSurvives(d, floor)
    ensures TargetSurvives(RunSteps(d, steps), floor)
  {
    TargetFloorMeans(d, floor);
    RunKeepsTargetFloor(d, steps, floor.Owner(), floor);
    TargetFloorMeans(RunSteps(d, steps), floor);
  }

  lemma SavedLocalSurvives(d: Cell, floor: LocalBinding, steps: seq<Step>)
    requires CellInv(d) && LocalSurvives(d, floor)
    ensures LocalSurvives(RunSteps(d, steps), floor)
  {
    LocalFloorMeans(d, floor);
    RunKeepsLocalFloor(d, steps, floor.identity.runtimeId, floor);
    LocalFloorMeans(RunSteps(d, steps), floor);
  }

  lemma ConfirmedIsSaved(c: Cell, identity: Identity, readable: bool, settled: bool, outcome: WriteOutcome)
    requires ConfirmStopped(c, identity, readable, settled, outcome).1.Some?
    ensures var (d, receipt) := ConfirmStopped(c, identity, readable, settled, outcome);
            receipt.value.identity == identity && receipt.value.stopped && FenceSurvives(d, receipt.value)
  {
  }

  lemma ConfirmKeepsInv(c: Cell, identity: Identity, readable: bool, settled: bool, outcome: WriteOutcome)
    requires CellInv(c)
    ensures CellInv(ConfirmStopped(c, identity, readable, settled, outcome).0)
  {
    StepReaches(c, OnSource(StepConfirm(identity, readable, settled, outcome)), ConfirmStopped(c, identity, readable, settled, outcome).0);
  }

  /** A stop receipt survives: whatever the cell does afterwards, every fence journal a
      restart can find holds this stopped fence or one of a later epoch. */
  lemma StopReceiptSurvives(c: Cell, identity: Identity, readable: bool, settled: bool, outcome: WriteOutcome, steps: seq<Step>)
    requires CellInv(c) && ConfirmStopped(c, identity, readable, settled, outcome).1.Some?
    ensures var (d, receipt) := ConfirmStopped(c, identity, readable, settled, outcome);
            && receipt.value.identity == identity && receipt.value.stopped
            && FenceSurvives(RunSteps(d, steps), receipt.value)
  {
    var (d, receipt) := ConfirmStopped(c, identity, readable, settled, outcome);
    ConfirmedIsSaved(c, identity, readable, settled, outcome);
    ConfirmKeepsInv(c, identity, readable, settled, outcome);
    SavedFenceSurvives(d, receipt.value, steps);
  }

  lemma RestoredIsSaved(c: Cell, id: AccountId, outcome: WriteOutcome)
    requires Keyed(c.adoptions) && PublishRestored(c, id, outcome).1
    ensures var d := PublishRestored(c, id, outcome).0;
            var profile := CurrentProfile(d.adoptions, id);
            profile.Some? && profile.value.state == Restored && TargetSurvives(d, profile.value)
  {
  }

  lemma RestoreKeepsInv(c: Cell, id: AccountId, outcome: WriteOutcome)
    requires CellInv(c)
    ensures CellInv(PublishRestored(c, id, outcome).0)
  {
    StepReaches(c, OnTarget(StepRestored(id, outcome)), PublishRestored(c, id, outcome).0);
  }

  /** A published restore survives as that generation, restored or active, or a later one. */
  lemma RestoreSurvives(c: Cell, id: AccountId, outcome: WriteOutcome, steps: seq<Step>)
    requires CellInv(c) && PublishRestored(c, id, outcome).1
    ensures var d := PublishRestored(c, id, outcome).0;
            var profile := CurrentProfile(d.adoptions, id);
            profile.Some? && profile.value.state == Restored && TargetSurvives(RunSteps(d, steps), profile.value)
  {
    var d := PublishRestored(c, id, outcome).0;
    InvKeyed(c);
    RestoredIsSaved(c, id, outcome);
    RestoreKeepsInv(c, id, outcome);
    SavedTargetSurvives(d, CurrentProfile(d.adoptions, id).value, steps);
  }

  lemma ActivatedIsSaved(c: Cell, expected: TargetProfile, intact: bool, outcome: WriteOutcome)
    requires Keyed(c.adoptions) && Activate(c, expected, intact, outcome).1.Some?
    ensures var (d, profile) := Activate(c, expected, intact, outcome);
            profile.value.state == Active && TargetSurvives(d, profile.value)
  {
  }

  lemma ActivateKeepsInv(c: Cell, expected: TargetProfile, intact: bool, outcome: WriteOutcome)
    requires CellInv(c)
    ensures CellInv(Activate(c, expected, intact, outcome).0)
  {
    StepReaches(c, OnTarget(StepActivate(expected, intact, outcome)), Activate(c, expected, intact, outcome).0);
  }

  /** An acknowledged activation is active in every document, or replaced by a later generation. */
  lemma ActivationSurvives(c: Cell, expected: TargetProfile, intact: bool, outcome: WriteOutcome, steps: seq<Step>)
    requires CellInv(c) && Activate(c, expected, intact, outcome).1.Some?
    ensures var (d, profile) := Activate(c, expected, intact, outcome);
            profile.value.state == Active && TargetSurvives(RunSteps(d, steps), profile.value)
  {
    var (d, profile) := Activate(c, expected, intact, outcome);
    InvKeyed(c);
    ActivatedIsSaved(c, expected, intact, outcome);
    ActivateKeepsInv(c, expected, intact, outcome);
    SavedTargetSurvives(d, profile.value, steps);
  }

  lemma LocalIsSaved(c: Cell, id: AccountId, binding: LocalBinding, outcome: WriteOutcome)
    requires SaveLocal(c, id, binding, outcome).1.Some?
    ensures LocalSurvives(SaveLocal(c, id, binding, outcome).0, binding)
  {
  }

  /** The settings-only journal: a saved binding survives, and stays active once it is. */
  lemma LocalReservationSurvives(c: Cell, identity: Identity, readable: bool, leased: bool, outcome: WriteOutcome,
                                 steps: seq<Step>)
    requires CellInv(c) && ReserveLocal(c, identity, readable, leased, outcome).1.Some?
    ensures var (d, binding) := ReserveLocal(c, identity, readable, leased, outcome);
            LocalSurvives(RunSteps(d, steps), binding.value)
  {
    var (d, binding) := ReserveLocal(c, identity, readable, leased, outcome);
    LocalIsSaved(c, identity.runtimeId, binding.value, outcome);
    ReserveLocalKeepsInv(c, identity, readable, leased, outcome);
    SavedLocalSurvives(d, binding.value, steps);
  }

  lemma ReserveLocalKeepsInv(c: Cell, identity: Identity, readable: bool, leased: bool, outcome: WriteOutcome)
    requires CellInv(c)
    ensures CellInv(ReserveLocal(c, identity, readable, leased, outcome).0)
  {
    StepReaches(c, OnLocal(StepReserveLocal(identity, readable, leased, outcome)), ReserveLocal(c, identity, readable, leased, outcome).0);
  }

  lemma LocalActivationSurvives(c: Cell, expected: LocalBinding, readable: bool, outcome: WriteOutcome, steps: seq<Step>)
    requires CellInv(c) && ActivateLocal(c, expected, readable, outcome).1.Some?
    ensures var (d, binding) := ActivateLocal(c, expected, readable, outcome);
            binding.value.state == LocalActive && LocalSurvives(RunSteps(d, steps), binding.value)
  {
    var (d, binding) := ActivateLocal(c, expected, readable, outcome);
    LocalIsSaved(c, expected.identity.runtimeId, binding.value, outcome);
    ActivateLocalKeepsInv(c, expected, readable, outcome);
    SavedLocalSurvives(d, binding.value, steps);
  }

  lemma ActivateLocalKeepsInv(c: Cell, expected: LocalBinding, readable: bool, outcome: WriteOutcome)
    requires CellInv(c)
    ensures CellInv(ActivateLocal(c, expected, readable, outcome).0)
  {
    StepReaches(c, OnLocal(StepActivateLocal(expected, readable, outcome)), ActivateLocal(c, expected, readable, outcome).0);
  }
}
