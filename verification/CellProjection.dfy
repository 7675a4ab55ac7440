/** A step of a cell is, for each runtime, one move of that runtime's slice. */
module CellProjection {
  import opened Journals
  import opened HandoverTypes
  import opened CellSpec
  import opened RuntimeSlice

  function FencePart(id: AccountId): Fences -> Option<Fence> { fences => FenceOf(fences, id) }

  function LocalPart(id: AccountId): Locals -> Option<LocalBinding> { locals => LocalOf(locals, id) }

  function OwnedBy(adoptions: Adoptions, id: AccountId): Owned {
    Owned(CurrentProfile(adoptions, id),
          set operation | operation in adoptions.operations && adoptions.operations[operation].Owner() == id ::
            adoptions.operations[operation].directory,
          set directory | directory in adoptions.retired && adoptions.retired[directory] == id)
  }

  function OwnedPart(id: AccountId): Adoptions -> Owned { adoptions => OwnedBy(adoptions, id) }

  function AssignmentOf(assignments: map<AccountId, Assignment>, id: AccountId): Option<Assignment> {
    if id in assignments then Some(assignments[id]) else None
  }

  ghost function Project(c: Cell, id: AccountId): Slice {
    Slice(DirectoryOf(c, id), AssignmentOf(c.assignments, id),
          FenceOf(c.fences, id), Part(c.fenceDisk, FencePart(id)),
          OwnedBy(c.adoptions, id), Part(c.adoptionDisk, OwnedPart(id)),
          LocalOf(c.locals, id), Part(c.localDisk, LocalPart(id)))
  }

  /** Live runtimes and reserved directories are two views of one relation. */
  ghost predicate DirectoriesOwned(c: Cell) {
    && c.accounts.Keys !! c.pending.Keys && c.accounts.Keys !! c.stopping.Keys && c.pending.Keys !! c.stopping.Keys
    && (forall id :: IsLive(c, id) ==>
          DirectoryOf(c, id).value in c.dataDirs && c.dataDirs[DirectoryOf(c, id).value] == id)
    && (forall directory :: directory in c.dataDirs ==> DirectoryOf(c, c.dataDirs[directory]) == Some(directory))
  }

  ghost predicate JournalsAccepted(c: Cell) {
    && (forall fences :: fences in Versions(c.fences, c.fenceDisk) ==> AcceptFences(fences))
    && (forall adoptions :: adoptions in Versions(c.adoptions, c.adoptionDisk) ==>
          AcceptAdoptions(adoptions) && BelongsTo(adoptions, c.cellId))
    && (forall locals :: locals in Versions(c.locals, c.localDisk) ==> AcceptLocals(locals))
  }

  ghost predicate DisksCoherent(c: Cell) {
    Coherent(c.fenceDisk) && Coherent(c.adoptionDisk) && Coherent(c.localDisk)
  }

  ghost predicate CellInv(c: Cell) {
    && DirectoriesOwned(c)
    && JournalsAccepted(c)
    && DisksCoherent(c)
    && ValidBindings(c.playerBindings)
    && forall id :: Inv(Project(c, id), id, c.profileId)
  }

  // ---- the move each step is

  function AddMove(who: AccountId, directory: Path, admitted: bool, id: AccountId): Move {
    if who == id && admitted then Start(directory) else Stay
  }

  function EndMove(ended: bool): Move {
    if ended then Stop else Stay
  }

  function AccountMove(c: Cell, s: AccountStep, id: AccountId): Move {
    match s
    case StepBeginAdd(who, directory, assignment, readable) =>
      AddMove(who, directory, MayHaveRead(c, who, directory) && CanAdd(c, who, directory, assignment, readable), id)
    case StepFinishAdd(who, _, constructed) =>
      EndMove(id == who && who in c.pending && !(constructed && !c.closed))
    case StepRelease(who, application) =>
      EndMove(id == who && CanRelease(c, who, application))
    case StepPublish(assignments) => Assign(AssignmentOf(assignments, id))
    case _ => Stay
  }

  function FenceMove(c: Cell, identity: Identity, fence: Option<Fence>, outcome: WriteOutcome, id: AccountId): Move {
    if fence.None? || !ValidFence(identity.runtimeId, fence.value) then Stay
    else if identity.runtimeId == id && FenceOf(c.fences, id) != fence then NewFence(fence.value, outcome)
    else RewriteFence(outcome)
  }

  function StopMove(identity: Identity, fence: Option<Fence>, outcome: WriteOutcome, id: AccountId): Move {
    if fence.None? || !ValidFence(identity.runtimeId, fence.value) then Stay
    else if identity.runtimeId == id then StopFence(fence.value.profileId, outcome)
    else RewriteFence(outcome)
  }

  function SourceMove(c: Cell, s: SourceStep, id: AccountId): Move {
    match s
    case StepFence(identity, archive, ready, settled, outcome) =>
      FenceMove(c, identity, FenceToSave(c, identity, archive, ready, settled), outcome, id)
    case StepConfirm(identity, readable, settled, outcome) =>
      StopMove(identity, StoppedFence(c, identity, readable, settled), outcome, id)
  }

  function ReservationMove(c: Cell, profile: TargetProfile, reserved: bool, id: AccountId): Move {
    if profile.Owner() == id && reserved then ReserveTarget(profile, OldDirectories(c, id) - {profile.directory}) else Stay
  }

  function StateMove(written: bool, own: bool, state: AdoptionState, outcome: WriteOutcome, unassign: bool): Move {
    if !written then Stay else if own then SaveTarget(state, outcome, unassign) else RewriteOwned(outcome)
  }

  function Unassigns(c: Cell, id: AccountId, outcome: WriteOutcome): bool {
    var profile := CurrentProfile(c.adoptions, id);
    outcome.Synced? && profile.Some? && profile.value.state != Active
  }

  function TargetMove(c: Cell, s: TargetStep, id: AccountId): Move {
    match s
    case StepReserve(profile, files) => ReservationMove(c, profile, Reserve(c, profile, files).1, id)
    case StepSaveAdoptions(outcome) => RewriteOwned(outcome)
    case StepRestored(who, outcome) => StateMove(CanPublishRestored(c, who), who == id, Restored, outcome, false)
    case StepActivate(expected, intact, outcome) =>
      StateMove(CanActivate(c, expected, intact), expected.Owner() == id, Active, outcome,
                Unassigns(c, expected.Owner(), outcome))
  }

  function NewLocalMove(c: Cell, who: AccountId, binding: Option<LocalBinding>, outcome: WriteOutcome, id: AccountId): Move {
    if binding.None? || !ValidLocal(binding.value) then Stay
    else if who == id && LocalOf(c.locals, id) != binding then NewLocal(binding.value, outcome)
    else RewriteLocal(outcome)
  }

  function LocalOnMove(c: Cell, expected: LocalBinding, allowed: bool, outcome: WriteOutcome, id: AccountId): Move {
    var who := expected.identity.runtimeId;
    if !allowed || who !in c.locals || !ValidLocal(c.locals[who].(state := LocalActive)) then Stay
    else if who == id then LocalOn(outcome)
    else RewriteLocal(outcome)
  }

  function LocalMove(c: Cell, s: LocalStep, id: AccountId): Move {
    match s
    case StepReserveLocal(identity, readable, leased, outcome) =>
      NewLocalMove(c, identity.runtimeId, LocalToReserve(c, identity, readable, leased), outcome, id)
    case StepActivateLocal(expected, readable, outcome) =>
      LocalOnMove(c, expected, CanActivateLocal(c, expected, readable), outcome, id)
  }

  function RestartMove(c: Cell, s: RestartStep, id: AccountId): Move {
    if !ValidBindings(s.bindings) then Stay
    else
      match s
      case StepExit(_) => ReloadVisible
      case StepCrash(fences, adoptions, locals, _) =>
        if fences in c.fenceDisk.possible && adoptions in c.adoptionDisk.possible && locals in c.localDisk.possible
        then ReloadFrom(FenceOf(fences, id), OwnedBy(adoptions, id), LocalOf(locals, id))
        else Stay
  }

  function MoveOf(c: Cell, s: Step, id: AccountId): Move {
    match s
    case OnAccounts(step) => AccountMove(c, step, id)
    case OnSource(step) => SourceMove(c, step, id)
    case OnTarget(step) => TargetMove(c, step, id)
    case OnLocal(step) => LocalMove(c, step, id)
    case OnRestart(step) => RestartMove(c, step, id)
  }

  // ---- writes, projected

  lemma FenceWritten(c: Cell, who: AccountId, fence: Fence, outcome: WriteOutcome, id: AccountId)
    requires ValidFence(who, fence)
    ensures var s := Project(c, id);
            var f := if who == id then Some(fence) else s.fence;
            Project(SaveFence(c, who, fence, outcome).0, id)
            == s.(fence := f, fenceDisk := Write(s.fenceDisk, f, outcome))
  {
  }

  lemma LocalWritten(c: Cell, who: AccountId, binding: LocalBinding, outcome: WriteOutcome, id: AccountId)
    requires ValidLocal(binding) && binding.identity.runtimeId == who
    ensures var s := Project(c, id);
            var l := if who == id then Some(binding) else s.local;
            Project(SaveLocal(c, who, binding, outcome).0, id)
            == s.(local := l, localDisk := Write(s.localDisk, l, outcome))
  {
  }

  /** Operations are filed under their own names and current entries under their owners. */
  predicate Keyed(adoptions: Adoptions) {
    && "" !in adoptions.operations
    && (forall operation :: operation in adoptions.operations ==> adoptions.operations[operation].Operation() == operation)
    && (forall id :: id in adoptions.current ==>
          adoptions.current[id] in adoptions.operations && adoptions.operations[adoptions.current[id]].Owner() == id)
    && (forall operation :: operation in adoptions.operations ==>
          adoptions.operations[operation].directory == TransferDirectory(operation))
  }

  lemma AcceptedIsKeyed(adoptions: Adoptions)
    requires AcceptAdoptions(adoptions)
    ensures Keyed(adoptions)
  {
    forall operation | operation in adoptions.operations
      ensures operation != "" && adoptions.operations[operation].Operation() == operation
      ensures adoptions.operations[operation].directory == TransferDirectory(operation)
    {
      assert OperationAccepted(adoptions, operation);
    }
    forall id | id in adoptions.current
      ensures adoptions.current[id] in adoptions.operations && adoptions.operations[adoptions.current[id]].Owner() == id
    {
      assert CurrentAccepted(adoptions, id);
    }
  }

  lemma CurrentIsKeyed(adoptions: Adoptions, id: AccountId)
    requires Keyed(adoptions)
    ensures CurrentProfile(adoptions, id).Some? <==> id in adoptions.current
    ensures CurrentProfile(adoptions, id).Some? ==>
              && CurrentProfile(adoptions, id).value.Owner() == id
              && CurrentProfile(adoptions, id).value.Operation() == adoptions.current[id]
  {
  }

  function Generations(operations: map<string, TargetProfile>, id: AccountId): set<Path> {
    set operation | operation in operations && operations[operation].Owner() == id :: operations[operation].directory
  }

  lemma GenerationsAfter(operations: map<string, TargetProfile>, operation: string, profile: TargetProfile, id: AccountId)
    requires operation in operations ==>
               operations[operation].Owner() == profile.Owner() && operations[operation].directory == profile.directory
    ensures Generations(operations[operation := profile], id)
            == Generations(operations, id) + if profile.Owner() == id then {profile.directory} else {}
  {
    var after := operations[operation := profile];
    forall d | d in Generations(operations, id) ensures d in Generations(after, id) {
      var key :| key in operations && operations[key].Owner() == id && operations[key].directory == d;
      assert key in after && after[key].directory == d;
    }
    if profile.Owner() == id {
      assert after[operation].directory == profile.directory;
    }
  }

  /** Changing the state of a current profile is invisible to every other runtime. */
  lemma StateOwned(adoptions: Adoptions, who: AccountId, state: AdoptionState, id: AccountId)
    requires Keyed(adoptions) && CurrentProfile(adoptions, who).Some?
    ensures var changed := WithState(adoptions, CurrentProfile(adoptions, who).value, state);
            OwnedBy(changed, id) == if who == id then WithProfileState(OwnedBy(adoptions, id), state) else OwnedBy(adoptions, id)
  {
    CurrentIsKeyed(adoptions, who);
    CurrentIsKeyed(adoptions, id);
    var profile := CurrentProfile(adoptions, who).value;
    var operation := profile.Operation();
    GenerationsAfter(adoptions.operations, operation, profile.(state := state), id);
    if who == id {
      assert profile.directory in Generations(adoptions.operations, id);
    }
    assert Generations(WithState(adoptions, profile, state).operations, id) == Generations(adoptions.operations, id);
  }

  lemma AdoptionsWritten(c: Cell, document: Adoptions, memory: Adoptions, outcome: WriteOutcome, id: AccountId)
    ensures Project(c.(adoptionDisk := Write(c.adoptionDisk, document, outcome), adoptions := memory), id)
            == Project(c, id).(ownedDisk := Write(Project(c, id).ownedDisk, OwnedBy(document, id), outcome),
                               owned := OwnedBy(memory, id))
  {
  }

  lemma StateWritten(c: Cell, who: AccountId, profile: TargetProfile, state: AdoptionState, outcome: WriteOutcome, id: AccountId)
    requires Keyed(c.adoptions) && CurrentProfile(c.adoptions, who) == Some(profile)
    ensures Project(SaveState(c, profile, state, outcome).0, id)
            == if who == id then SavedTarget(Project(c, id), state, outcome, false)
               else Next(Project(c, id), RewriteOwned(outcome))
  {
    var changed := WithState(c.adoptions, profile, state);
    var memory := if outcome.Synced? then changed else c.adoptions;
    StateOwned(c.adoptions, who, state, id);
    AdoptionsWritten(c, changed, memory, outcome, id);
    assert SaveState(c, profile, state, outcome).0
           == c.(adoptionDisk := Write(c.adoptionDisk, changed, outcome), adoptions := memory);
  }

  /** All generations of a runtime sit in the directories of their operations. */
  lemma FreshOperationDirectory(adoptions: Adoptions, operation: string, id: AccountId)
    requires Keyed(adoptions) && operation !in adoptions.operations
    ensures TransferDirectory(operation) !in OwnedBy(adoptions, id).generations
  {
    if TransferDirectory(operation) in OwnedBy(adoptions, id).generations {
      var other :| other in adoptions.operations && adoptions.operations[other].directory == TransferDirectory(operation);
      TransferDirectoryInjective(operation, other);
    }
  }

  function RetiredBy(retired: map<Path, AccountId>, id: AccountId): set<Path> {
    set directory | directory in retired && retired[directory] == id
  }

  lemma RetiredAfter(retired: map<Path, AccountId>, directories: set<Path>, who: AccountId, id: AccountId)
    requires forall directory :: directory in directories && directory in retired ==> retired[directory] == who
    ensures RetiredBy(retired + RetireAll(directories, who), id)
            == RetiredBy(retired, id) + if who == id then directories else {}
  {
  }

  lemma ReservationOwned(c: Cell, profile: TargetProfile, files: FileView, id: AccountId)
    requires Keyed(c.adoptions) && Reserve(c, profile, files).1
    ensures var retire := OldDirectories(c, profile.Owner()) - {profile.directory};
            var before := OwnedBy(c.adoptions, id);
            OwnedBy(Reserve(c, profile, files).0.adoptions, id)
            == if profile.Owner() == id
               then Owned(Some(profile), before.generations + {profile.directory}, before.retired + retire)
               else before
  {
    var who := profile.Owner();
    var retire := OldDirectories(c, who) - {profile.directory};
    CurrentIsKeyed(c.adoptions, id);
    GenerationsAfter(c.adoptions.operations, profile.Operation(), profile, id);
    forall d | d in retire && d in c.adoptions.retired ensures c.adoptions.retired[d] == who {
      assert DirectoryReservable(c, who, d, profile.directory, files);
    }
    RetiredAfter(c.adoptions.retired, retire, who, id);
    assert profile.Operation() != "" by {
      assert CanonicalId(profile.Operation());
    }
  }

  // ---- each step, projected

  ghost predicate Moves(c: Cell, d: Cell, move: Move, id: AccountId) {
    May(Project(c, id), move, id, c.profileId) && Project(d, id) == Next(Project(c, id), move) && d.profileId == c.profileId
  }

  lemma MayStartWhenAdded(c: Cell, id: AccountId, directory: Path, assignment: Option<Assignment>, readable: bool)
    requires MayHaveRead(c, id, directory) && CanAdd(c, id, directory, assignment, readable)
    ensures MayStart(Project(c, id), directory, id, c.profileId)
  {
  }

  ghost predicate SameJournals(c: Cell, d: Cell) {
    SameDocuments(c, d) && d.assignments == c.assignments
  }

  lemma Started(c: Cell, d: Cell, directory: Path, id: AccountId)
    requires SameJournals(c, d) && DirectoryOf(d, id) == Some(directory)
    requires MayStart(Project(c, id), directory, id, c.profileId)
    ensures Moves(c, d, Start(directory), id)
  {
  }

  lemma AddBegun(c: Cell, who: AccountId, directory: Path, assignment: Option<Assignment>, readable: bool, id: AccountId)
    requires MayHaveRead(c, who, directory)
    ensures Moves(c, BeginAdd(c, who, directory, assignment, readable),
                  AddMove(who, directory, CanAdd(c, who, directory, assignment, readable), id), id)
  {
    var d := BeginAdd(c, who, directory, assignment, readable);
    if CanAdd(c, who, directory, assignment, readable) && who == id {
      MayStartWhenAdded(c, who, directory, assignment, readable);
      Started(c, d, directory, id);
    } else {
      assert DirectoryOf(d, id) == DirectoryOf(c, id);
      LiveMoves(c, d, id, false);
    }
  }

  lemma LiveAfterFinish(c: Cell, who: AccountId, application: nat, constructed: bool, id: AccountId)
    requires DirectoriesOwned(c)
    ensures DirectoryOf(FinishAdd(c, who, application, constructed), id)
            == if id == who && who in c.pending && !(constructed && !c.closed) then None else DirectoryOf(c, id)
  {
  }

  lemma LiveAfterStop(c: Cell, who: AccountId, id: AccountId)
    requires DirectoriesOwned(c)
    ensures DirectoryOf(BeginStop(c, who), id) == DirectoryOf(c, id)
  {
  }

  lemma LiveAfterRelease(c: Cell, who: AccountId, application: nat, id: AccountId)
    requires DirectoriesOwned(c)
    ensures DirectoryOf(Release(c, who, application), id)
            == if id == who && CanRelease(c, who, application) then None else DirectoryOf(c, id)
  {
  }

  lemma LiveMoves(c: Cell, d: Cell, id: AccountId, stopped: bool)
    requires SameJournals(c, d) && DirectoryOf(d, id) == if stopped then None else DirectoryOf(c, id)
    ensures Moves(c, d, EndMove(stopped), id)
  {
  }

  lemma AddFinished(c: Cell, who: AccountId, application: nat, constructed: bool, id: AccountId)
    requires DirectoriesOwned(c)
    ensures Moves(c, FinishAdd(c, who, application, constructed),
                  EndMove(id == who && who in c.pending && !(constructed && !c.closed)), id)
  {
  }

  lemma StopBegun(c: Cell, who: AccountId, id: AccountId)
    requires DirectoriesOwned(c)
    ensures Moves(c, BeginStop(c, who), Stay, id)
  {
    LiveAfterStop(c, who, id);
    LiveMoves(c, BeginStop(c, who), id, false);
  }

  lemma Released(c: Cell, who: AccountId, application: nat, id: AccountId)
    requires DirectoriesOwned(c)
    ensures Moves(c, Release(c, who, application), EndMove(id == who && CanRelease(c, who, application)), id)
  {
    var d := Release(c, who, application);
    LiveAfterRelease(c, who, application, id);
    assert d.assignments == c.assignments;
    LiveMoves(c, d, id, id == who && CanRelease(c, who, application));
  }

  lemma Watched(c: Cell, who: AccountId, application: nat, id: AccountId)
    ensures Moves(c, WatchStop(c, who, application), Stay, id)
  {
  }

  lemma Bound(c: Cell, who: AccountId, key: string, id: AccountId)
    ensures Moves(c, BindPlayer(c, who, key), Stay, id)
  {
  }

  lemma FinishedOrClosed(c: Cell, application: nat, id: AccountId)
    ensures Moves(c, Finish(c, application), Stay, id) && Moves(c, Close(c), Stay, id)
  {
  }

  lemma Assigned(c: Cell, assignments: map<AccountId, Assignment>, id: AccountId)
    ensures Moves(c, Publish(c, assignments), Assign(AssignmentOf(assignments, id)), id)
  {
  }

  lemma AccountMoves(c: Cell, s: AccountStep, id: AccountId)
    requires DirectoriesOwned(c)
    ensures Moves(c, ApplyAccount(c, s), AccountMove(c, s, id), id)
  {
    match s
    case StepBeginAdd(who, directory, assignment, readable) =>
      if MayHaveRead(c, who, directory) { AddBegun(c, who, directory, assignment, readable, id); }
    case StepFinishAdd(who, application, constructed) => AddFinished(c, who, application, constructed, id);
    case StepBeginStop(who) => StopBegun(c, who, id);
    case StepRelease(who, application) => Released(c, who, application, id);
    case StepWatch(who, application) => Watched(c, who, application, id);
    case StepFinish(application) => FinishedOrClosed(c, application, id);
    case StepBind(who, key) => Bound(c, who, key, id);
    case StepClose => FinishedOrClosed(c, 0, id);
    case StepPublish(assignments) => Assigned(c, assignments, id);
  }

  lemma MayFenceWhenRequested(c: Cell, identity: Identity, archive: bool, ready: bool, settled: bool)
    requires var fence := FenceToSave(c, identity, archive, ready, settled);
             fence.Some? && FenceOf(c.fences, identity.runtimeId) != fence
    ensures MayFence(Project(c, identity.runtimeId), FenceToSave(c, identity, archive, ready, settled).value,
                     identity.runtimeId)
  {
  }

  /** The three ways a fence save can look to one runtime. */
  lemma FenceMoves(c: Cell, d: Cell, move: Move, fence: Option<Fence>, outcome: WriteOutcome, id: AccountId)
    requires d.profileId == c.profileId && May(Project(c, id), move, id, c.profileId)
    requires move == RewriteFence(outcome) ==> fence == Project(c, id).fence
    requires move.NewFence? ==> move.outcome == outcome && fence == Some(move.fence)
    requires move.StopFence? ==>
               && move.outcome == outcome && Project(c, id).fence.Some?
               && fence == Some(Project(c, id).fence.value.(stopped := true, profileId := move.profileId))
    requires move == RewriteFence(outcome) || move.NewFence? || move.StopFence?
    requires Project(d, id) == Project(c, id).(fence := fence, fenceDisk := Write(Project(c, id).fenceDisk, fence, outcome))
    ensures Moves(c, d, move, id)
  {
  }

  lemma Fenced(c: Cell, identity: Identity, archive: bool, ready: bool, settled: bool, outcome: WriteOutcome, id: AccountId)
    ensures Moves(c, FenceSource(c, identity, archive, ready, settled, outcome).0,
                  FenceMove(c, identity, FenceToSave(c, identity, archive, ready, settled), outcome, id), id)
  {
    var who := identity.runtimeId;
    var fence := FenceToSave(c, identity, archive, ready, settled);
    if fence.Some? && ValidFence(who, fence.value) {
      FenceWritten(c, who, fence.value, outcome, id);
      if FenceOf(c.fences, who) != fence {
        MayFenceWhenRequested(c, identity, archive, ready, settled);
      }
      FenceMoves(c, SaveFence(c, who, fence.value, outcome).0, FenceMove(c, identity, fence, outcome, id),
                 if who == id then fence else FenceOf(c.fences, id), outcome, id);
    }
  }

  lemma MayStopWhenConfirmed(c: Cell, identity: Identity, readable: bool, settled: bool, outcome: WriteOutcome)
    requires DirectoriesOwned(c)
    requires StoppedFence(c, identity, readable, settled).Some?
    ensures May(Project(c, identity.runtimeId), StopFence(StoppedFence(c, identity, readable, settled).value.profileId, outcome),
                identity.runtimeId, c.profileId)
  {
  }

  lemma Confirmed(c: Cell, identity: Identity, readable: bool, settled: bool, outcome: WriteOutcome, id: AccountId)
    requires DirectoriesOwned(c)
    ensures Moves(c, ConfirmStopped(c, identity, readable, settled, outcome).0,
                  StopMove(identity, StoppedFence(c, identity, readable, settled), outcome, id), id)
  {
    var who := identity.runtimeId;
    var fence := StoppedFence(c, identity, readable, settled);
    if fence.Some? && ValidFence(who, fence.value) {
      FenceWritten(c, who, fence.value, outcome, id);
      MayStopWhenConfirmed(c, identity, readable, settled, outcome);
      FenceMoves(c, SaveFence(c, who, fence.value, outcome).0, StopMove(identity, fence, outcome, id),
                 if who == id then fence else FenceOf(c.fences, id), outcome, id);
    }
  }

  lemma SourceMoves(c: Cell, s: SourceStep, id: AccountId)
    requires DirectoriesOwned(c)
    ensures Moves(c, ApplySource(c, s), SourceMove(c, s, id), id)
  {
    match s
    case StepFence(identity, archive, ready, settled, outcome) => Fenced(c, identity, archive, ready, settled, outcome, id);
    case StepConfirm(identity, readable, settled, outcome) => Confirmed(c, identity, readable, settled, outcome, id);
  }

  lemma MayReserveWhenReserved(c: Cell, profile: TargetProfile, files: FileView)
    requires Keyed(c.adoptions) && Reserve(c, profile, files).1
    ensures MayReserve(Project(c, profile.Owner()), profile, OldDirectories(c, profile.Owner()) - {profile.directory},
                       profile.Owner())
  {
    var id := profile.Owner();
    var retire := OldDirectories(c, id) - {profile.directory};
    FreshOperationDirectory(c.adoptions, profile.Operation(), id);
    if CurrentProfile(c.adoptions, id).Some? {
      CurrentIsKeyed(c.adoptions, id);
      var previous := CurrentProfile(c.adoptions, id).value;
      assert previous.directory in OwnedBy(c.adoptions, id).generations by {
        assert c.adoptions.operations[c.adoptions.current[id]] == previous;
      }
    }
    assert forall directory :: directory in retire ==>
      || FirstHome(directory, id)
      || (CurrentProfile(c.adoptions, id).Some? && directory == CurrentProfile(c.adoptions, id).value.directory)
      || (id in c.fences && directory == c.fences[id].directory);
  }

  lemma OwnedMoves(c: Cell, d: Cell, profile: TargetProfile, retire: set<Path>, id: AccountId)
    requires d.profileId == c.profileId && MayReserve(Project(c, id), profile, retire, id)
    requires var before := Project(c, id).owned;
             Project(d, id) == Project(c, id).(owned :=
               Owned(Some(profile), before.generations + {profile.directory}, before.retired + retire))
    ensures Moves(c, d, ReserveTarget(profile, retire), id)
  {
  }

  lemma MemoryReplaced(c: Cell, adoptions: Adoptions, id: AccountId)
    ensures Project(c.(adoptions := adoptions), id) == Project(c, id).(owned := OwnedBy(adoptions, id))
  {
  }

  lemma ReservedIsReplaced(c: Cell, profile: TargetProfile, files: FileView)
    ensures Reserve(c, profile, files).0 == c.(adoptions := Reserve(c, profile, files).0.adoptions)
  {
  }

  lemma ReservationMoves(c: Cell, profile: TargetProfile, files: FileView, id: AccountId)
    requires Keyed(c.adoptions)
    ensures Moves(c, Reserve(c, profile, files).0, ReservationMove(c, profile, Reserve(c, profile, files).1, id), id)
  {
    var (d, reserved) := Reserve(c, profile, files);
    ReservedIsReplaced(c, profile, files);
    MemoryReplaced(c, d.adoptions, id);
    if reserved {
      ReservationOwned(c, profile, files, id);
      if profile.Owner() == id {
        MayReserveWhenReserved(c, profile, files);
        OwnedMoves(c, d, profile, OldDirectories(c, id) - {profile.directory}, id);
      }
    }
  }

  lemma SettledPart(c: Cell, id: AccountId)
    requires c.adoptionDisk.possible == {c.adoptions}
    ensures Project(c, id).ownedDisk.possible == {Project(c, id).owned}
  {
  }

  lemma RestoredMoves(c: Cell, who: AccountId, outcome: WriteOutcome, id: AccountId)
    requires Keyed(c.adoptions)
    ensures Moves(c, PublishRestored(c, who, outcome).0, StateMove(CanPublishRestored(c, who), who == id, Restored, outcome, false), id)
  {
    if CanPublishRestored(c, who) {
      StateWritten(c, who, CurrentProfile(c.adoptions, who).value, Restored, outcome, id);
      SettledPart(c, id);
    }
    var d := PublishRestored(c, who, outcome).0;
    StateMoves(c, d, CanPublishRestored(c, who), who == id, Restored, outcome, false, id);
  }

  lemma Unassigned(c: Cell, who: AccountId, id: AccountId)
    ensures Project(c.(assignments := c.assignments - {who}), id)
            == if who == id then Project(c, id).(assignment := None) else Project(c, id)
  {
  }

  lemma Activated(c: Cell, expected: TargetProfile, intact: bool, outcome: WriteOutcome, id: AccountId)
    requires Keyed(c.adoptions) && CanActivate(c, expected, intact)
    ensures var who := expected.Owner();
            Project(Activate(c, expected, intact, outcome).0, id)
            == if who != id then Next(Project(c, id), RewriteOwned(outcome))
               else SavedTarget(Project(c, id), Active, outcome, Unassigns(c, who, outcome))
  {
    var who := expected.Owner();
    var profile := CurrentProfile(c.adoptions, who).value;
    StateWritten(c, who, profile, Active, outcome, id);
    Unassigned(SaveState(c, profile, Active, outcome).0, who, id);
  }

  lemma StateMoves(c: Cell, d: Cell, written: bool, own: bool, state: AdoptionState, outcome: WriteOutcome, unassign: bool,
                   id: AccountId)
    requires d.profileId == c.profileId
    requires !written ==> Project(d, id) == Project(c, id)
    requires written ==> Project(d, id) == if own then SavedTarget(Project(c, id), state, outcome, unassign)
                                           else Next(Project(c, id), RewriteOwned(outcome))
    requires written && own ==> MaySave(Project(c, id), state)
    ensures Moves(c, d, StateMove(written, own, state, outcome, unassign), id)
  {
  }

  lemma ActivationMoves(c: Cell, expected: TargetProfile, intact: bool, outcome: WriteOutcome, id: AccountId)
    requires Keyed(c.adoptions)
    ensures Moves(c, Activate(c, expected, intact, outcome).0,
                  StateMove(CanActivate(c, expected, intact), expected.Owner() == id, Active, outcome,
                            Unassigns(c, expected.Owner(), outcome)), id)
  {
    if CanActivate(c, expected, intact) {
      Activated(c, expected, intact, outcome, id);
    }
    StateMoves(c, Activate(c, expected, intact, outcome).0, CanActivate(c, expected, intact), expected.Owner() == id, Active,
               outcome, Unassigns(c, expected.Owner(), outcome), id);
  }

  lemma TargetMoves(c: Cell, s: TargetStep, id: AccountId)
    requires Keyed(c.adoptions)
    ensures Moves(c, ApplyTarget(c, s), TargetMove(c, s, id), id)
  {
    match s
    case StepReserve(profile, files) => ReservationMoves(c, profile, files, id);
    case StepSaveAdoptions(outcome) => AdoptionsWritten(c, c.adoptions, c.adoptions, outcome, id);
    case StepRestored(who, outcome) => RestoredMoves(c, who, outcome, id);
    case StepActivate(expected, intact, outcome) => ActivationMoves(c, expected, intact, outcome, id);
  }

  lemma MayReserveLocalWhenReserved(c: Cell, identity: Identity, readable: bool, leased: bool)
    requires var binding := LocalToReserve(c, identity, readable, leased);
             binding.Some? && LocalOf(c.locals, identity.runtimeId) != binding
    ensures MayReserveLocal(Project(c, identity.runtimeId), LocalToReserve(c, identity, readable, leased).value,
                            identity.runtimeId, c.profileId)
  {
  }

  lemma LocalToReserveOwner(c: Cell, identity: Identity, readable: bool, leased: bool)
    requires LocalToReserve(c, identity, readable, leased).Some?
    ensures LocalToReserve(c, identity, readable, leased).value.identity.runtimeId == identity.runtimeId
  {
  }

  lemma LocalWriteMoves(c: Cell, d: Cell, move: Move, local: Option<LocalBinding>, outcome: WriteOutcome, id: AccountId)
    requires d.profileId == c.profileId && May(Project(c, id), move, id, c.profileId)
    requires move == RewriteLocal(outcome) ==> local == Project(c, id).local
    requires move.NewLocal? ==> move.outcome == outcome && local == Some(move.binding)
    requires move.LocalOn? ==>
               && move.outcome == outcome && Project(c, id).local.Some?
               && local == Some(Project(c, id).local.value.(state := LocalActive))
    requires move == RewriteLocal(outcome) || move.NewLocal? || move.LocalOn?
    requires Project(d, id) == Project(c, id).(local := local, localDisk := Write(Project(c, id).localDisk, local, outcome))
    ensures Moves(c, d, move, id)
  {
  }

  lemma LocalReservationMoves(c: Cell, identity: Identity, readable: bool, leased: bool, outcome: WriteOutcome, id: AccountId)
    ensures Moves(c, ReserveLocal(c, identity, readable, leased, outcome).0,
                  NewLocalMove(c, identity.runtimeId, LocalToReserve(c, identity, readable, leased), outcome, id), id)
  {
    var who := identity.runtimeId;
    var binding := LocalToReserve(c, identity, readable, leased);
    if binding.Some? && ValidLocal(binding.value) {
      LocalToReserveOwner(c, identity, readable, leased);
      LocalWritten(c, who, binding.value, outcome, id);
      if LocalOf(c.locals, who) != binding {
        MayReserveLocalWhenReserved(c, identity, readable, leased);
      }
      LocalWriteMoves(c, SaveLocal(c, who, binding.value, outcome).0, NewLocalMove(c, who, binding, outcome, id),
                      if who == id then binding else LocalOf(c.locals, id), outcome, id);
    }
  }

  lemma LocalActivationMoves(c: Cell, expected: LocalBinding, readable: bool, outcome: WriteOutcome, id: AccountId)
    ensures Moves(c, ActivateLocal(c, expected, readable, outcome).0,
                  LocalOnMove(c, expected, CanActivateLocal(c, expected, readable), outcome, id), id)
  {
    var who := expected.identity.runtimeId;
    if CanActivateLocal(c, expected, readable) && ValidLocal(c.locals[who].(state := LocalActive)) {
      var binding := c.locals[who].(state := LocalActive);
      LocalWritten(c, who, binding, outcome, id);
      LocalWriteMoves(c, SaveLocal(c, who, binding, outcome).0, LocalOnMove(c, expected, true, outcome, id),
                      if who == id then Some(binding) else LocalOf(c.locals, id), outcome, id);
    }
  }

  lemma LocalMoves(c: Cell, s: LocalStep, id: AccountId)
    ensures Moves(c, ApplyLocal(c, s), LocalMove(c, s, id), id)
  {
    match s
    case StepReserveLocal(identity, readable, leased, outcome) =>
      LocalReservationMoves(c, identity, readable, leased, outcome, id);
    case StepActivateLocal(binding, readable, outcome) => LocalActivationMoves(c, binding, readable, outcome, id);
  }

  lemma RestartMoves(c: Cell, s: RestartStep, id: AccountId)
    ensures Moves(c, ApplyRestart(c, s), RestartMove(c, s, id), id)
  {
    if s.StepCrash? && ValidBindings(s.bindings) && s.fences in c.fenceDisk.possible
       && s.adoptions in c.adoptionDisk.possible && s.locals in c.localDisk.possible {
      assert FencePart(id)(s.fences) in Project(c, id).fenceDisk.possible;
      assert OwnedPart(id)(s.adoptions) in Project(c, id).ownedDisk.possible;
      assert LocalPart(id)(s.locals) in Project(c, id).localDisk.possible;
      var t := Project(ApplyRestart(c, s), id);
      assert t.fenceDisk.possible == {FenceOf(s.fences, id)};
      assert t.ownedDisk.possible == {OwnedBy(s.adoptions, id)};
      assert t.localDisk.possible == {LocalOf(s.locals, id)};
    }
  }

  /** Refinement: whatever a cell does is, for every runtime, one permitted move. */
  lemma StepMoves(c: Cell, s: Step, id: AccountId)
    requires DirectoriesOwned(c) && Keyed(c.adoptions)
    ensures Moves(c, Apply(c, s), MoveOf(c, s, id), id)
  {
    match s
    case OnAccounts(step) => AccountMoves(c, step, id);
    case OnSource(step) => SourceMoves(c, step, id);
    case OnTarget(step) => TargetMoves(c, step, id);
    case OnLocal(step) => LocalMoves(c, step, id);
    case OnRestart(step) => RestartMoves(c, step, id);
  }
}
