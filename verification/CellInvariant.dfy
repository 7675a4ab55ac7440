/** The invariant of a whole cell holds in every reachable state: whatever a cell
    writes, its own loaders accept after any restart. */
module CellInvariant {
  import opened Journals
  import opened HandoverTypes
  import opened CellSpec
  import opened RuntimeSlice
  import opened CellProjection
  import opened CellJournals

  lemma WriteVersions<T>(memory: T, disk: Disk<T>, document: T, outcome: WriteOutcome)
    ensures Versions(document, Write(disk, document, outcome)) <= Versions(memory, disk) + {document}
    ensures Versions(memory, Write(disk, document, outcome)) <= Versions(memory, disk) + {document}
  {
  }

  ghost predicate AdoptionsFit(c: Cell, adoptions: Adoptions) {
    AcceptAdoptions(adoptions) && BelongsTo(adoptions, c.cellId)
  }

  lemma JournalsKept(c: Cell, d: Cell)
    requires JournalsAccepted(c) && d.cellId == c.cellId
    requires forall x :: x in Versions(d.fences, d.fenceDisk) ==> x in Versions(c.fences, c.fenceDisk) || AcceptFences(x)
    requires forall x :: x in Versions(d.adoptions, d.adoptionDisk) ==>
               x in Versions(c.adoptions, c.adoptionDisk) || AdoptionsFit(c, x)
    requires forall x :: x in Versions(d.locals, d.localDisk) ==> x in Versions(c.locals, c.localDisk) || AcceptLocals(x)
    ensures JournalsAccepted(d)
  {
  }

  lemma AccountsKeepJournals(c: Cell, s: AccountStep)
    requires JournalsAccepted(c)
    ensures JournalsAccepted(ApplyAccount(c, s))
  {
  }

  lemma FenceSaveAccepted(c: Cell, id: AccountId, fence: Fence, outcome: WriteOutcome)
    requires JournalsAccepted(c)
    ensures JournalsAccepted(SaveFence(c, id, fence, outcome).0)
  {
  }

  lemma SourceKeepsJournals(c: Cell, s: SourceStep)
    requires JournalsAccepted(c)
    ensures JournalsAccepted(ApplySource(c, s))
  {
    match s
    case StepFence(identity, archive, ready, settled, outcome) =>
      var fence := FenceToSave(c, identity, archive, ready, settled);
      if fence.Some? { FenceSaveAccepted(c, identity.runtimeId, fence.value, outcome); }
    case StepConfirm(identity, readable, settled, outcome) =>
      var fence := StoppedFence(c, identity, readable, settled);
      if fence.Some? { FenceSaveAccepted(c, identity.runtimeId, fence.value, outcome); }
  }

  lemma LocalSaveAccepted(c: Cell, id: AccountId, binding: LocalBinding, outcome: WriteOutcome)
    requires JournalsAccepted(c)
    requires forall owner :: owner in c.locals && owner != id ==> c.locals[owner].directory != binding.directory
    ensures JournalsAccepted(SaveLocal(c, id, binding, outcome).0)
  {
    if ValidLocal(binding) && binding.identity.runtimeId == id {
      assert c.locals in Versions(c.locals, c.localDisk);
      LocalAccepted(c.locals, id, binding);
      WriteVersions(c.locals, c.localDisk, c.locals[id := binding], outcome);
      JournalsKept(c, SaveLocal(c, id, binding, outcome).0);
    }
  }

  lemma LocalDirectoryUnshared(c: Cell, identity: Identity, readable: bool, leased: bool)
    requires AcceptLocals(c.locals) && LocalToReserve(c, identity, readable, leased).Some?
    ensures var binding := LocalToReserve(c, identity, readable, leased).value;
            forall owner :: owner in c.locals && owner != identity.runtimeId ==>
              c.locals[owner].directory != binding.directory
  {
  }

  lemma LocalKeepsJournals(c: Cell, s: LocalStep)
    requires JournalsAccepted(c)
    ensures JournalsAccepted(ApplyLocal(c, s))
  {
    assert AcceptLocals(c.locals) by { assert c.locals in Versions(c.locals, c.localDisk); }
    match s
    case StepReserveLocal(identity, readable, leased, outcome) =>
      var binding := LocalToReserve(c, identity, readable, leased);
      if binding.Some? {
        LocalDirectoryUnshared(c, identity, readable, leased);
        LocalSaveAccepted(c, identity.runtimeId, binding.value, outcome);
      }
    case StepActivateLocal(expected, readable, outcome) =>
      var id := expected.identity.runtimeId;
      if CanActivateLocal(c, expected, readable) {
        LocalSaveAccepted(c, id, c.locals[id].(state := LocalActive), outcome);
      }
  }

  /** One adoption write: the new document is on disk, the old or the new one in memory. */
  lemma AdoptionSaveAccepted(c: Cell, d: Cell, document: Adoptions, outcome: WriteOutcome)
    requires JournalsAccepted(c) && AdoptionsFit(c, document)
    requires d.cellId == c.cellId && d.fences == c.fences && d.fenceDisk == c.fenceDisk
    requires d.locals == c.locals && d.localDisk == c.localDisk
    requires d.adoptionDisk == c.adoptionDisk || d.adoptionDisk == Write(c.adoptionDisk, document, outcome)
    requires d.adoptions == c.adoptions || d.adoptions == document
    ensures JournalsAccepted(d)
  {
  }

  lemma ReservationFits(c: Cell, profile: TargetProfile, files: FileView)
    requires CellInv(c) && Reserve(c, profile, files).1
    ensures AdoptionsFit(c, Reserve(c, profile, files).0.adoptions)
  {
    assert c.fences in Versions(c.fences, c.fenceDisk) && c.adoptions in Versions(c.adoptions, c.adoptionDisk);
    ReservationContinues(c, profile, files);
    ReservationAccepted(c.adoptions, profile, OldDirectories(c, profile.Owner()) - {profile.directory});
  }

  lemma StateFits(c: Cell, id: AccountId, state: AdoptionState)
    requires AdoptionsFit(c, c.adoptions) && CurrentProfile(c.adoptions, id).Some?
    ensures AdoptionsFit(c, WithState(c.adoptions, CurrentProfile(c.adoptions, id).value, state))
  {
    var profile := CurrentProfile(c.adoptions, id).value;
    StateAccepted(c.adoptions, id, profile, state);
    AcceptedIsKeyed(c.adoptions);
    StateIsOnlyChange(c.adoptions, id, profile, state);
  }

  lemma StateSaveAccepted(c: Cell, id: AccountId, state: AdoptionState, outcome: WriteOutcome)
    requires JournalsAccepted(c) && CurrentProfile(c.adoptions, id).Some?
    ensures JournalsAccepted(SaveState(c, CurrentProfile(c.adoptions, id).value, state, outcome).0)
  {
    var profile := CurrentProfile(c.adoptions, id).value;
    assert c.adoptions in Versions(c.adoptions, c.adoptionDisk);
    StateFits(c, id, state);
    AdoptionSaveAccepted(c, SaveState(c, profile, state, outcome).0, WithState(c.adoptions, profile, state), outcome);
  }

  lemma ActivationKeepsJournals(c: Cell, expected: TargetProfile, intact: bool, outcome: WriteOutcome)
    requires JournalsAccepted(c)
    ensures JournalsAccepted(Activate(c, expected, intact, outcome).0)
  {
    if CanActivate(c, expected, intact) {
      var id := expected.Owner();
      var saved := SaveState(c, CurrentProfile(c.adoptions, id).value, Active, outcome).0;
      StateSaveAccepted(c, id, Active, outcome);
      JournalsKept(saved, Activate(c, expected, intact, outcome).0);
    }
  }

  lemma TargetKeepsJournals(c: Cell, s: TargetStep)
    requires CellInv(c)
    ensures JournalsAccepted(ApplyTarget(c, s))
  {
    match s
    case StepReserve(profile, files) =>
      var (d, reserved) := Reserve(c, profile, files);
      if reserved {
        ReservationFits(c, profile, files);
        AdoptionSaveAccepted(c, d, d.adoptions, Synced);
      }
    case StepSaveAdoptions(outcome) =>
      assert c.adoptions in Versions(c.adoptions, c.adoptionDisk);
      AdoptionSaveAccepted(c, SaveAdoptions(c, outcome).0, c.adoptions, outcome);
    case StepRestored(id, outcome) =>
      if CanPublishRestored(c, id) { StateSaveAccepted(c, id, Restored, outcome); }
    case StepActivate(expected, intact, outcome) => ActivationKeepsJournals(c, expected, intact, outcome);
  }

  lemma RestartKeepsJournals(c: Cell, s: RestartStep)
    requires JournalsAccepted(c) && DisksCoherent(c)
    ensures JournalsAccepted(ApplyRestart(c, s))
  {
    JournalsKept(c, ApplyRestart(c, s));
  }

  lemma StepKeepsJournals(c: Cell, s: Step)
    requires CellInv(c)
    ensures JournalsAccepted(Apply(c, s))
  {
    match s
    case OnAccounts(step) => AccountsKeepJournals(c, step);
    case OnSource(step) => SourceKeepsJournals(c, step);
    case OnTarget(step) => TargetKeepsJournals(c, step);
    case OnLocal(step) => LocalKeepsJournals(c, step);
    case OnRestart(step) => RestartKeepsJournals(c, step);
  }

  // ---- everything together

  predicate SameTables(c: Cell, d: Cell) {
    && d.accounts == c.accounts && d.pending == c.pending && d.stopping == c.stopping && d.dataDirs == c.dataDirs
    && d.playerBindings == c.playerBindings && d.finished == c.finished
  }

  ghost predicate SameIdentity(c: Cell, d: Cell) {
    d.cellId == c.cellId && d.profileId == c.profileId && d.maxAccounts == c.maxAccounts
  }

  lemma SaveOnlyFences(c: Cell, id: AccountId, fence: Fence, outcome: WriteOutcome)
    ensures var d := SaveFence(c, id, fence, outcome).0;
            d == c.(fences := d.fences, fenceDisk := d.fenceDisk) && (Coherent(c.fenceDisk) ==> Coherent(d.fenceDisk))
  {
  }

  lemma SourceOnlyFences(c: Cell, s: SourceStep)
    ensures var d := ApplySource(c, s);
            d == c.(fences := d.fences, fenceDisk := d.fenceDisk) && (Coherent(c.fenceDisk) ==> Coherent(d.fenceDisk))
  {
    match s
    case StepFence(identity, archive, ready, settled, outcome) =>
      var fence := FenceToSave(c, identity, archive, ready, settled);
      if fence.Some? { SaveOnlyFences(c, identity.runtimeId, fence.value, outcome); }
    case StepConfirm(identity, readable, settled, outcome) =>
      var fence := StoppedFence(c, identity, readable, settled);
      if fence.Some? { SaveOnlyFences(c, identity.runtimeId, fence.value, outcome); }
  }

  lemma StateOnlyAdoptions(c: Cell, profile: TargetProfile, state: AdoptionState, outcome: WriteOutcome)
    ensures var d := SaveState(c, profile, state, outcome).0;
            && d == c.(adoptions := d.adoptions, adoptionDisk := d.adoptionDisk)
            && (Coherent(c.adoptionDisk) ==> Coherent(d.adoptionDisk))
  {
  }

  lemma TargetOnlyAdoptions(c: Cell, s: TargetStep)
    ensures var d := ApplyTarget(c, s);
            && d == c.(adoptions := d.adoptions, adoptionDisk := d.adoptionDisk, assignments := d.assignments)
            && (Coherent(c.adoptionDisk) ==> Coherent(d.adoptionDisk))
  {
    match s
    case StepReserve(profile, files) => ReservedIsReplaced(c, profile, files);
    case StepSaveAdoptions(outcome) =>
    case StepRestored(id, outcome) =>
      if CanPublishRestored(c, id) {
        StateOnlyAdoptions(c, CurrentProfile(c.adoptions, id).value, Restored, outcome);
      }
    case StepActivate(expected, intact, outcome) =>
      if CanActivate(c, expected, intact) {
        StateOnlyAdoptions(c, CurrentProfile(c.adoptions, expected.Owner()).value, Active, outcome);
      }
  }

  lemma SaveOnlyLocals(c: Cell, id: AccountId, binding: LocalBinding, outcome: WriteOutcome)
    ensures var d := SaveLocal(c, id, binding, outcome).0;
            d == c.(locals := d.locals, localDisk := d.localDisk) && (Coherent(c.localDisk) ==> Coherent(d.localDisk))
  {
  }

  lemma LocalOnlyBindings(c: Cell, s: LocalStep)
    ensures var d := ApplyLocal(c, s);
            d == c.(locals := d.locals, localDisk := d.localDisk) && (Coherent(c.localDisk) ==> Coherent(d.localDisk))
  {
    match s
    case StepReserveLocal(identity, readable, leased, outcome) =>
      var binding := LocalToReserve(c, identity, readable, leased);
      if binding.Some? { SaveOnlyLocals(c, identity.runtimeId, binding.value, outcome); }
    case StepActivateLocal(expected, readable, outcome) =>
      if CanActivateLocal(c, expected, readable) {
        var id := expected.identity.runtimeId;
        SaveOnlyLocals(c, id, c.locals[id].(state := LocalActive), outcome);
      }
  }

  lemma HandoverKeepsTables(c: Cell, s: Step)
    requires s.OnSource? || s.OnTarget? || s.OnLocal?
    ensures SameTables(c, Apply(c, s)) && SameIdentity(c, Apply(c, s)) && Apply(c, s).closed == c.closed
  {
    match s
    case OnSource(step) => SourceOnlyFences(c, step);
    case OnTarget(step) => TargetOnlyAdoptions(c, step);
    case OnLocal(step) => LocalOnlyBindings(c, step);
  }

  lemma RestartKeepsTables(c: Cell, s: RestartStep)
    requires DirectoriesOwned(c) && ValidBindings(c.playerBindings)
    ensures DirectoriesOwned(ApplyRestart(c, s)) && ValidBindings(ApplyRestart(c, s).playerBindings)
  {
  }

  lemma StepKeepsTables(c: Cell, s: Step)
    requires DirectoriesOwned(c) && ValidBindings(c.playerBindings)
    ensures DirectoriesOwned(Apply(c, s)) && ValidBindings(Apply(c, s).playerBindings)
  {
    match s
    case OnAccounts(step) => StepKeepsDirectories(c, step); AccountsKeepBindings(c, step);
    case OnRestart(step) => RestartKeepsTables(c, step);
    case _ =>
      HandoverKeepsTables(c, s);
      SameTablesOwned(c, Apply(c, s));
  }

  lemma AccountsKeepBindings(c: Cell, s: AccountStep)
    requires ValidBindings(c.playerBindings)
    ensures ValidBindings(ApplyAccount(c, s).playerBindings)
  {
  }

  lemma StepKeepsDisks(c: Cell, s: Step)
    requires DisksCoherent(c)
    ensures DisksCoherent(Apply(c, s))
  {
    match s
    case OnAccounts(step) => 
    case OnSource(step) => SourceOnlyFences(c, step);
    case OnTarget(step) => TargetOnlyAdoptions(c, step);
    case OnLocal(step) => LocalOnlyBindings(c, step);
    case OnRestart(step) =>
  }

  lemma InvKeyed(c: Cell)
    requires CellInv(c)
    ensures Keyed(c.adoptions)
  {
    assert c.adoptions in Versions(c.adoptions, c.adoptionDisk);
    AcceptedIsKeyed(c.adoptions);
  }

  /** What StepMoves says of a cell that meets its invariant. */
  lemma StepIsMove(c: Cell, s: Step, id: AccountId)
    requires CellInv(c)
    ensures Inv(Project(c, id), id, c.profileId) && Moves(c, Apply(c, s), MoveOf(c, s, id), id)
  {
    InvKeyed(c);
    StepMoves(c, s, id);
  }

  lemma StepKeepsSlices(c: Cell, s: Step, id: AccountId)
    requires CellInv(c)
    ensures Inv(Project(Apply(c, s), id), id, Apply(c, s).profileId)
  {
    StepIsMove(c, s, id);
    MoveKeepsInv(Project(c, id), MoveOf(c, s, id), id, c.profileId);
  }

  /** One step of a cell keeps the whole invariant, restarts and crashes included. */
  lemma StepKeepsCellInv(c: Cell, s: Step)
    requires CellInv(c)
    ensures CellInv(Apply(c, s))
  {
    StepKeepsTables(c, s);
    StepKeepsJournals(c, s);
    StepKeepsDisks(c, s);
    forall id { StepKeepsSlices(c, s, id); }
  }

  lemma StepReaches(c: Cell, s: Step, d: Cell)
    requires CellInv(c) && d == Apply(c, s)
    ensures CellInv(d)
  {
    StepKeepsCellInv(c, s);
  }

  lemma {:induction false} RunKeepsCellInv(c: Cell, steps: seq<Step>)
    requires CellInv(c)
    ensures CellInv(RunSteps(c, steps))
    decreases |steps|
  {
    if steps == [] {
    } else {
      StepKeepsCellInv(c, steps[0]);
      RunKeepsCellInv(Apply(c, steps[0]), steps[1..]);
    }
  }

  lemma NewCellProjects(cellId: string, maxAccounts: nat, profileId: Path -> string, id: AccountId)
    ensures Project(NewCell(cellId, maxAccounts, profileId), id)
            == Slice(None, None, None, Fresh(None), Owned(None, {}, {}), Fresh(Owned(None, {}, {})), None, Fresh(None))
  {
    var s := Project(NewCell(cellId, maxAccounts, profileId), id);
    assert OwnedBy(NoAdoptions, id) == Owned(None, {}, {});
    assert s.fenceDisk.possible == {None};
    assert s.ownedDisk.possible == {Owned(None, {}, {})};
    assert s.localDisk.possible == {None};
  }

  lemma NewCellInv(cellId: string, maxAccounts: nat, profileId: Path -> string)
    ensures CellInv(NewCell(cellId, maxAccounts, profileId))
  {
  }

  /** Writer and loader agree: after any run from a fresh data root, every document a
      restart can find on disk is one the loaders accept. */
  lemma WrittenIsAccepted(cellId: string, maxAccounts: nat, profileId: Path -> string, steps: seq<Step>)
    ensures var c := RunSteps(NewCell(cellId, maxAccounts, profileId), steps);
            && (forall fences :: fences in c.fenceDisk.possible ==> AcceptFences(fences))
            && (forall adoptions :: adoptions in c.adoptionDisk.possible ==>
                  AcceptAdoptions(adoptions) && BelongsTo(adoptions, cellId))
            && (forall locals :: locals in c.localDisk.possible ==> AcceptLocals(locals))
  {
    NewCellInv(cellId, maxAccounts, profileId);
    RunKeepsCellInv(NewCell(cellId, maxAccounts, profileId), steps);
    RunKeepsCellId(NewCell(cellId, maxAccounts, profileId), steps);
  }

  lemma StepKeepsCellId(c: Cell, s: Step)
    ensures SameIdentity(c, Apply(c, s))
  {
    match s
    case OnAccounts(step) => 
    case OnRestart(step) =>
    case _ => HandoverKeepsTables(c, s);
  }

  lemma {:induction false} RunKeepsCellId(c: Cell, steps: seq<Step>)
    ensures RunSteps(c, steps).cellId == c.cellId && RunSteps(c, steps).profileId == c.profileId
    decreases |steps|
  {
    if steps == [] {
    } else {
      StepKeepsCellId(c, steps[0]);
      RunKeepsCellId(Apply(c, steps[0]), steps[1..]);
    }
  }

  lemma {:induction false} RunAppend(c: Cell, first: seq<Step>, second: seq<Step>)
    ensures RunSteps(c, first + second) == RunSteps(RunSteps(c, first), second)
    decreases |first|
  {
    if first == [] {
      assert first + second == second;
    } else {
      assert (first + second)[1..] == first[1..] + second;
      RunAppend(Apply(c, first[0]), first[1..], second);
    }
  }

  /** Four stretches of a run, one after the other. */
  lemma Stretches(c: Cell, first: seq<Step>, d: Cell, second: seq<Step>, e: Cell, third: seq<Step>, f: Cell, last: seq<Step>, g: Cell)
    requires RunSteps(c, first) == d && RunSteps(d, second) == e && RunSteps(e, third) == f && RunSteps(f, last) == g
    ensures RunSteps(c, first + second + third + last) == g
  {
    RunAppend(c, first, second);
    RunAppend(c, first + second, third);
    RunAppend(c, first + second + third, last);
  }

  /** A run spelled out state by state. */
  lemma {:induction false} RunAlong(states: seq<Cell>, steps: seq<Step>)
    requires |states| == |steps| + 1
    requires forall i :: 0 <= i < |steps| ==> Apply(states[i], steps[i]) == states[i + 1]
    ensures RunSteps(states[0], steps) == states[|steps|]
    decreases |steps|
  {
    if steps != [] {
      RunAlong(states[1..], steps[1..]);
    }
  }
}
