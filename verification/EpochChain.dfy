/** Epochs only move forward: fences, generations and settings-only bindings of one
    runtime, and when an activation seen in memory is also the one on disk. */
module EpochChain {
  import opened Journals
  import opened HandoverTypes
  import opened CellSpec
  import opened RuntimeSlice
  import opened CellProjection
  import opened CellInvariant
  import opened Acknowledgement

  // ---- one process never goes back

  predicate Restarts(move: Move) {
    move.ReloadFrom? || move.ReloadVisible?
  }

  lemma MoveOnlyAdvances(s: Slice, move: Move, id: AccountId, profileId: Path -> string)
    requires Inv(s, id, profileId) && May(s, move, id, profileId) && !Restarts(move)
    ensures FenceLe(s.fence, Next(s, move).fence)
    ensures ProfileLe(s.owned.profile, Next(s, move).owned.profile)
    ensures LocalLe(s.local, Next(s, move).local)
    ensures s.owned.retired <= Next(s, move).owned.retired
  {
  }

  /** Between restarts a runtime's fence changes identity only for a later epoch, its
      archive generation never regresses, its binding never loses activation, and no
      directory leaves the retired set. */
  lemma StepOnlyAdvances(c: Cell, s: Step, id: AccountId)
    requires CellInv(c) && !s.OnRestart?
    ensures var d := Apply(c, s);
            && FenceLe(FenceOf(c.fences, id), FenceOf(d.fences, id))
            && ProfileLe(CurrentProfile(c.adoptions, id), CurrentProfile(d.adoptions, id))
            && LocalLe(LocalOf(c.locals, id), LocalOf(d.locals, id))
            && (forall directory :: RetiredTo(c.adoptions, directory, id) ==> RetiredTo(d.adoptions, directory, id))
  {
    var d, move := Apply(c, s), MoveOf(c, s, id);
    StepIsMove(c, s, id);
    HandoverDoesNotRestart(c, s, id);
    MoveOnlyAdvances(Project(c, id), move, id, c.profileId);
    Advanced(c, d, move, id);
  }

  lemma HandoverDoesNotRestart(c: Cell, s: Step, id: AccountId)
    requires !s.OnRestart?
    ensures !Restarts(MoveOf(c, s, id))
  {
  }

  lemma Advanced(c: Cell, d: Cell, move: Move, id: AccountId)
    requires Project(d, id) == Next(Project(c, id), move)
    requires Project(c, id).owned.retired <= Next(Project(c, id), move).owned.retired
    ensures FenceOf(d.fences, id) == Next(Project(c, id), move).fence
    ensures CurrentProfile(d.adoptions, id) == Next(Project(c, id), move).owned.profile
    ensures LocalOf(d.locals, id) == Next(Project(c, id), move).local
    ensures forall directory :: RetiredTo(c.adoptions, directory, id) ==> RetiredTo(d.adoptions, directory, id)
  {
    assert OwnedBy(d.adoptions, id) == Next(Project(c, id), move).owned;
    forall directory | RetiredTo(c.adoptions, directory, id) ensures RetiredTo(d.adoptions, directory, id) {
      assert directory in OwnedBy(c.adoptions, id).retired;
      assert directory in OwnedBy(d.adoptions, id).retired;
    }
  }

  // ---- across restarts

  /** A generation whose departure was acknowledged is never active again: not in this
      process, not after any crash. */
  lemma DepartedStaysInactive(c: Cell, steps: seq<Step>, floor: Fence, profile: TargetProfile)
    requires CellInv(c) && FenceSurvives(c, floor) && floor.identity.runtimeId == profile.Owner()
    requires profile.targetEpoch <= floor.Epoch()
    ensures var d := RunSteps(c, steps);
            var current := CurrentProfile(d.adoptions, profile.Owner());
            current.Some? && current.value.targetEpoch <= profile.targetEpoch ==> !HasActiveImport(d, profile.Owner())
  {
    SavedFenceSurvives(c, floor, steps);
    var d := RunSteps(c, steps);
    assert d.fences in Versions(d.fences, d.fenceDisk);
  }

  /** A settings-only binding and an active archive import exclude each other in every
      combination of documents a restart can find. */
  lemma LocalExcludesImport(c: Cell, id: AccountId, fences: Fences, adoptions: Adoptions, locals: Locals)
    requires CellInv(c) && id in locals
    requires fences in Versions(c.fences, c.fenceDisk) && adoptions in Versions(c.adoptions, c.adoptionDisk)
    requires locals in Versions(c.locals, c.localDisk)
    ensures !ImportActive(CurrentProfile(adoptions, id), FenceOf(fences, id))
  {
    DocumentsAgree(c, id, fences, adoptions, locals);
  }

  lemma SliceInv(c: Cell, id: AccountId)
    requires CellInv(c)
    ensures Inv(Project(c, id), id, c.profileId)
  {
  }

  lemma DocumentsProject(c: Cell, id: AccountId, fences: Fences, adoptions: Adoptions, locals: Locals)
    requires fences in Versions(c.fences, c.fenceDisk) && adoptions in Versions(c.adoptions, c.adoptionDisk)
    requires locals in Versions(c.locals, c.localDisk)
    ensures FenceOf(fences, id) in Versions(Project(c, id).fence, Project(c, id).fenceDisk)
    ensures OwnedBy(adoptions, id) in Versions(Project(c, id).owned, Project(c, id).ownedDisk)
    ensures LocalOf(locals, id) in Versions(Project(c, id).local, Project(c, id).localDisk)
  {
  }

  lemma VersionsAgree(s: Slice, f: Option<Fence>, o: Owned, l: Option<LocalBinding>, id: AccountId, profileId: Path -> string)
    requires Inv(s, id, profileId) && f in Versions(s.fence, s.fenceDisk) && o in Versions(s.owned, s.ownedDisk)
    requires l in Versions(s.local, s.localDisk)
    ensures Agree(f, o, l, id, profileId)
  {
  }

  lemma DocumentsAgree(c: Cell, id: AccountId, fences: Fences, adoptions: Adoptions, locals: Locals)
    requires CellInv(c)
    requires fences in Versions(c.fences, c.fenceDisk) && adoptions in Versions(c.adoptions, c.adoptionDisk)
    requires locals in Versions(c.locals, c.localDisk)
    ensures Agree(FenceOf(fences, id), OwnedBy(adoptions, id), LocalOf(locals, id), id, c.profileId)
  {
    SliceInv(c, id);
    DocumentsProject(c, id, fences, adoptions, locals);
    VersionsAgree(Project(c, id), FenceOf(fences, id), OwnedBy(adoptions, id), LocalOf(locals, id), id, c.profileId);
  }

  /** Old target epoch at most the fence's epoch, below the new source epoch, on one
      directory that carries one profile. */
  predicate Chained(previous: TargetProfile, fence: Option<Fence>, profile: TargetProfile, profileId: Path -> string) {
    && fence.Some?
    && previous.targetEpoch <= fence.value.Epoch() < profile.receipt.identity.sourceEpoch < profile.targetEpoch
    && profileId(fence.value.directory) == profile.receipt.profileId == previous.receipt.profileId
  }

  lemma ReservationChained(s: Slice, profile: TargetProfile, retire: set<Path>, f: Option<Fence>, o: Owned, id: AccountId,
                           profileId: Path -> string)
    requires Inv(s, id, profileId) && MayReserve(s, profile, retire, id)
    requires f in Versions(s.fence, s.fenceDisk) && o in Versions(s.owned, s.ownedDisk) && o.profile.Some?
    ensures Chained(o.profile.value, f, profile, profileId)
  {
    VersionsAgree(s, f, o, s.local, id, profileId);
    VersionsAgree(s, s.fence, s.owned, s.local, id, profileId);
    VersionsAgree(s, s.fence, o, s.local, id, profileId);
  }

  /** The chain holds between a new generation and every version of the old journals. */
  lemma GenerationsAreChained(c: Cell, profile: TargetProfile, files: FileView, fences: Fences, adoptions: Adoptions)
    requires CellInv(c) && Reserve(c, profile, files).1
    requires fences in Versions(c.fences, c.fenceDisk) && adoptions in Versions(c.adoptions, c.adoptionDisk)
    requires CurrentProfile(adoptions, profile.Owner()).Some?
    ensures Chained(CurrentProfile(adoptions, profile.Owner()).value, FenceOf(fences, profile.Owner()), profile, c.profileId)
  {
    var id := profile.Owner();
    InvKeyed(c);
    SliceInv(c, id);
    DocumentsProject(c, id, fences, adoptions, c.locals);
    MayReserveWhenReserved(c, profile, files);
    ReservationChained(Project(c, id), profile, OldDirectories(c, id) - {profile.directory}, FenceOf(fences, id),
                       OwnedBy(adoptions, id), id, c.profileId);
  }

  /** The per-cell rule behind all of this: a stopped fence without an active import or
      binding means the runtime is in none of the account tables. */
  lemma StoppedIsNotLive(c: Cell, id: AccountId)
    requires CellInv(c) && id in c.fences && c.fences[id].stopped && !HasActiveImport(c, id) && !HasActiveLocal(c, id)
    ensures !IsLive(c, id)
  {
    SliceInv(c, id);
    assert Project(c, id).live.None?;
  }

  /** A first activation finds a live runtime only where a settings-only binding runs it,
      and the generation it activates has then departed already; otherwise there is no
      runtime that could miss the forgotten assignment. */
  lemma ActivationFindsNoRuntime(c: Cell, expected: TargetProfile, intact: bool)
    requires CellInv(c) && CanActivate(c, expected, intact)
    requires CurrentProfile(c.adoptions, expected.Owner()).value.state != Active
    ensures var id := expected.Owner();
            IsLive(c, id) ==>
              && id in c.locals && c.locals[id].state == LocalActive && DirectoryOf(c, id) == Some(c.locals[id].directory)
              && Departed(FenceOf(c.fences, id), expected.targetEpoch)
  {
    var id := expected.Owner();
    SliceInv(c, id);
    DocumentsAgree(c, id, c.fences, c.adoptions, c.locals);
    assert LivesAtHome(Project(c, id), id, c.profileId);
  }
}
