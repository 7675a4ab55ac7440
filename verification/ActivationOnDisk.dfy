/** Is a generation that is active in memory also active on disk? Yes, until the
    process alone exits between an activation's rename and its directory sync. */
module ActivationOnDisk {
  import opened Journals
  import opened HandoverTypes
  import opened CellSpec
  import opened RuntimeSlice
  import opened CellProjection
  import opened CellInvariant

  predicate IsActive(owned: Owned) {
    owned.profile.Some? && owned.profile.value.state == Active
  }

  ghost predicate OnDisk(owned: Owned, disk: Disk<Owned>) {
    forall o :: o in disk.possible ==> ProfileLe(owned.profile, o.profile)
  }

  /** Active in memory implies active in every document a power loss can leave. */
  ghost predicate ActiveIsDurable(s: Slice) {
    IsActive(s.owned) ==> OnDisk(s.owned, s.ownedDisk)
  }

  /** The visible document has activated a generation that memory has not. */
  predicate ActivationPending(s: Slice) {
    && IsActive(s.ownedDisk.visible) && s.owned.profile.Some? && !IsActive(s.owned)
    && SameGeneration(s.ownedDisk.visible.profile.value, s.owned.profile.value)
  }

  /** What makes the answer exact: an activation that memory does not have is missing
      from some possible document too. */
  ghost predicate DiskFollowsMemory(s: Slice) {
    && ActiveIsDurable(s)
    && (IsActive(s.ownedDisk.visible) && !ActivationPending(s) ==> OnDisk(s.ownedDisk.visible, s.ownedDisk))
    && (s.owned.profile.Some? && !IsActive(s.owned) ==>
          exists o :: o in s.ownedDisk.possible
                      && !(IsActive(o) && SameGeneration(o.profile.value, s.owned.profile.value)))
  }

  lemma ActivationWritten(s: Slice, outcome: WriteOutcome, unassign: bool, id: AccountId, profileId: Path -> string)
    requires Inv(s, id, profileId) && MaySave(s, Active) && DiskFollowsMemory(s)
    ensures DiskFollowsMemory(SavedTarget(s, Active, outcome, unassign))
  {
  }

  lemma RestoreWritten(s: Slice, outcome: WriteOutcome, unassign: bool, id: AccountId, profileId: Path -> string)
    requires Inv(s, id, profileId) && MaySave(s, Restored) && DiskFollowsMemory(s)
    ensures DiskFollowsMemory(SavedTarget(s, Restored, outcome, unassign))
  {
  }

  lemma MemoryRewritten(s: Slice, outcome: WriteOutcome, id: AccountId, profileId: Path -> string)
    requires Inv(s, id, profileId) && DiskFollowsMemory(s)
    ensures DiskFollowsMemory(Next(s, RewriteOwned(outcome)))
  {
  }

  lemma TargetReserved(s: Slice, profile: TargetProfile, retire: set<Path>, id: AccountId, profileId: Path -> string)
    requires Inv(s, id, profileId) && MayReserve(s, profile, retire, id) && DiskFollowsMemory(s)
    ensures DiskFollowsMemory(Next(s, ReserveTarget(profile, retire)))
  {
  }

  /** A bare process exit keeps the property exactly when no activation is pending. */
  lemma VisibleReloaded(s: Slice)
    requires DiskFollowsMemory(s) && OwnedOrder(s)
    ensures DiskFollowsMemory(Next(s, ReloadVisible)) <==> !ActivationPending(s)
    ensures ActiveIsDurable(Next(s, ReloadVisible)) <==> !ActivationPending(s)
  {
  }

  lemma MoveKeepsActiveDurable(s: Slice, move: Move, id: AccountId, profileId: Path -> string)
    requires Inv(s, id, profileId) && May(s, move, id, profileId) && DiskFollowsMemory(s)
    requires move.ReloadVisible? ==> !ActivationPending(s)
    ensures DiskFollowsMemory(Next(s, move))
  {
    match move
    case SaveTarget(state, outcome, unassign) =>
      if state == Active {
        ActivationWritten(s, outcome, unassign, id, profileId);
      } else {
        RestoreWritten(s, outcome, unassign, id, profileId);
      }
    case RewriteOwned(outcome) => MemoryRewritten(s, outcome, id, profileId);
    case ReserveTarget(profile, retire) => TargetReserved(s, profile, retire, id, profileId);
    case ReloadVisible => VisibleReloaded(s);
    case ReloadFrom(fence, owned, local) => assert owned in Next(s, move).ownedDisk.possible;
    case _ =>
  }

  // ---- whole runs

  /** No exit of the bare process while an activation's directory sync is outstanding. */
  ghost predicate SettledRun(c: Cell, steps: seq<Step>, id: AccountId)
    decreases |steps|
  {
    steps != [] ==>
      && (steps[0].OnRestart? && steps[0].restart.StepExit? ==> !ActivationPending(Project(c, id)))
      && SettledRun(Apply(c, steps[0]), steps[1..], id)
  }

  lemma OnlyExitReloadsVisible(c: Cell, s: Step, id: AccountId)
    ensures MoveOf(c, s, id).ReloadVisible? ==> s.OnRestart? && s.restart.StepExit?
  {
  }

  lemma {:induction false} RunKeepsActiveDurable(c: Cell, steps: seq<Step>, id: AccountId)
    requires CellInv(c) && DiskFollowsMemory(Project(c, id)) && SettledRun(c, steps, id)
    ensures DiskFollowsMemory(Project(RunSteps(c, steps), id))
    decreases |steps|
  {
    if steps != [] {
      StepIsMove(c, steps[0], id);
      OnlyExitReloadsVisible(c, steps[0], id);
      MoveKeepsActiveDurable(Project(c, id), MoveOf(c, steps[0], id), id, c.profileId);
      StepKeepsCellInv(c, steps[0]);
      RunKeepsActiveDurable(Apply(c, steps[0]), steps[1..], id);
    }
  }

  /** From a fresh data root, crashes included: a generation that is active in memory is
      active, or already replaced by a later one, in every document on disk. */
  lemma ActiveInMemoryIsOnDisk(cellId: string, maxAccounts: nat, profileId: Path -> string, steps: seq<Step>, id: AccountId,
                               adoptions: Adoptions)
    requires SettledRun(NewCell(cellId, maxAccounts, profileId), steps, id)
    requires adoptions in RunSteps(NewCell(cellId, maxAccounts, profileId), steps).adoptionDisk.possible
    ensures var c := RunSteps(NewCell(cellId, maxAccounts, profileId), steps);
            IsActive(OwnedBy(c.adoptions, id)) ==>
              ProfileLe(CurrentProfile(c.adoptions, id), CurrentProfile(adoptions, id))
  {
    var start := NewCell(cellId, maxAccounts, profileId);
    NewCellInv(cellId, maxAccounts, profileId);
    NewCellProjects(cellId, maxAccounts, profileId, id);
    RunKeepsActiveDurable(start, steps, id);
    var c := RunSteps(start, steps);
    assert OwnedPart(id)(adoptions) in Project(c, id).ownedDisk.possible;
  }

  /** The exact condition for the remaining case, in any state that meets the invariant. */
  lemma ExitKeepsActiveDurable(c: Cell, bindings: map<AccountId, string>, id: AccountId)
    requires CellInv(c) && DiskFollowsMemory(Project(c, id)) && ValidBindings(bindings)
    ensures ActiveIsDurable(Project(Exit(c, bindings), id)) <==> !ActivationPending(Project(c, id))
  {
  }

  // ---- the failing run

  const RUNTIME := "r"

  function Digest(): (digest: string)
    ensures ValidDigest(digest)
  {
    seq(64, i => '0')
  }

  function SourceIdentity(): Identity {
    Identity("o", "a", RUNTIME, "t", "far", 1, 1, Digest())
  }

  function ArrivingProfile(): TargetProfile {
    TargetProfile(Receipt(SourceIdentity(), 1, "p", Digest(), 1, 1), "near", 2, TransferDirectory("o"), Reserved)
  }

  /** Reserve, restore, activate with a failed directory sync, then only the process exits. */
  function LostActivation(): seq<Step> {
    [OnTarget(StepReserve(ArrivingProfile(), FileView({}, true))),
     OnTarget(StepSaveAdoptions(Synced)),
     OnTarget(StepRestored(RUNTIME, Synced)),
     OnTarget(StepActivate(ArrivingProfile().(state := Restored), true, RenamedUnsynced)),
     OnRestart(StepExit(map[]))]
  }

  function DocumentIn(state: AdoptionState): Adoptions {
    Adoptions(map["o" := ArrivingProfile().(state := state)], map[RUNTIME := "o"], map[StagingDirectory(RUNTIME) := RUNTIME])
  }

  function OneProfile(directory: Path): string { "p" }

  function CellHolding(memory: Adoptions, disk: Disk<Adoptions>): Cell {
    NewCell("near", 0, OneProfile).(adoptions := memory, adoptionDisk := disk)
  }

  lemma ArrivingIsValid()
    ensures ValidTarget(ArrivingProfile())
  {
  }

  lemma ArrivingIsAdmitted(c: Cell)
    requires c == CellHolding(NoAdoptions, Fresh(NoAdoptions))
    ensures CanReserve(c, ArrivingProfile(), FileView({}, true))
    ensures OldDirectories(c, RUNTIME) - {ArrivingProfile().directory} == {StagingDirectory(RUNTIME)}
  {
  }

  lemma ArrivingIsReserved()
    ensures Apply(NewCell("near", 0, OneProfile), LostActivation()[0]) == CellHolding(DocumentIn(Reserved), Fresh(NoAdoptions))
  {
    var c := NewCell("near", 0, OneProfile);
    var profile := ArrivingProfile();
    var d, reserved := Reserve(c, profile, FileView({}, true)).0, Reserve(c, profile, FileView({}, true)).1;
    assert c == CellHolding(NoAdoptions, Fresh(NoAdoptions));
    ArrivingIsValid();
    ArrivingIsAdmitted(c);
    assert reserved && d.adoptions == AfterReservation(NoAdoptions, profile, {StagingDirectory(RUNTIME)});
    ReservedIsReplaced(c, profile, FileView({}, true));
    assert d.adoptions == DocumentIn(Reserved);
    assert c.(adoptions := DocumentIn(Reserved)) == CellHolding(DocumentIn(Reserved), Fresh(NoAdoptions));
  }

  lemma ArrivingIsSaved()
    ensures Apply(CellHolding(DocumentIn(Reserved), Fresh(NoAdoptions)), LostActivation()[1])
            == CellHolding(DocumentIn(Reserved), Fresh(DocumentIn(Reserved)))
  {
  }

  lemma ArrivingIsRestored()
    ensures Apply(CellHolding(DocumentIn(Reserved), Fresh(DocumentIn(Reserved))), LostActivation()[2])
            == CellHolding(DocumentIn(Restored), Fresh(DocumentIn(Restored)))
  {
    assert WithState(DocumentIn(Reserved), ArrivingProfile(), Restored) == DocumentIn(Restored);
  }

  function HalfActivated(memory: AdoptionState): Cell {
    CellHolding(DocumentIn(memory), Disk(DocumentIn(Active), {DocumentIn(Restored), DocumentIn(Active)}))
  }

  lemma ArrivingIsActivated()
    ensures Apply(CellHolding(DocumentIn(Restored), Fresh(DocumentIn(Restored))), LostActivation()[3]) == HalfActivated(Restored)
  {
    var c := CellHolding(DocumentIn(Restored), Fresh(DocumentIn(Restored)));
    ArrivingIsValid();
    assert WithState(DocumentIn(Restored), ArrivingProfile().(state := Restored), Active) == DocumentIn(Active);
    var d := Activate(c, ArrivingProfile().(state := Restored), true, RenamedUnsynced).0;
    assert d == c.(adoptionDisk := Disk(DocumentIn(Active), {DocumentIn(Restored), DocumentIn(Active)}));
  }

  lemma ArrivingIsReread()
    ensures Apply(HalfActivated(Restored), LostActivation()[4]) == HalfActivated(Active)
  {
  }

  lemma LostActivationEnds()
    ensures RunSteps(NewCell("near", 0, OneProfile), LostActivation()) == HalfActivated(Active)
  {
    ArrivingIsReserved();
    ArrivingIsSaved();
    ArrivingIsRestored();
    ArrivingIsActivated();
    ArrivingIsReread();
    var states := [NewCell("near", 0, OneProfile), CellHolding(DocumentIn(Reserved), Fresh(NoAdoptions)),
                   CellHolding(DocumentIn(Reserved), Fresh(DocumentIn(Reserved))),
                   CellHolding(DocumentIn(Restored), Fresh(DocumentIn(Restored))), HalfActivated(Restored), HalfActivated(Active)];
    RunAlong(states, LostActivation());
  }

  /** The property fails without the condition: the restarted process holds an active
      generation that a later power loss turns back into a restored one. */
  lemma ActivationCanBeLost()
    ensures var c := RunSteps(NewCell("near", 0, OneProfile), LostActivation());
            && IsActive(OwnedBy(c.adoptions, RUNTIME))
            && exists adoptions :: adoptions in c.adoptionDisk.possible && !IsActive(OwnedBy(adoptions, RUNTIME))
  {
    LostActivationEnds();
    assert DocumentIn(Restored) in HalfActivated(Active).adoptionDisk.possible;
    assert !IsActive(OwnedBy(DocumentIn(Restored), RUNTIME));
  }
}
