/** The invariant of a whole cell: its directory table, and the agreement between
    what its writers write and what its loaders accept. */
module CellJournals {
  import opened Journals
  import opened HandoverTypes
  import opened CellSpec
  import opened RuntimeSlice
  import opened CellProjection

  // ---- directory ownership

  lemma SameDirectoriesOwned(c: Cell, d: Cell)
    requires DirectoriesOwned(c) && d.dataDirs == c.dataDirs
    requires d.accounts.Keys !! d.pending.Keys && d.accounts.Keys !! d.stopping.Keys && d.pending.Keys !! d.stopping.Keys
    requires forall id :: DirectoryOf(d, id) == DirectoryOf(c, id)
    ensures DirectoriesOwned(d)
  {
  }

  lemma FreedDirectoryOwned(c: Cell, d: Cell, freed: AccountId)
    requires DirectoriesOwned(c) && IsLive(c, freed) && d.dataDirs == c.dataDirs - {DirectoryOf(c, freed).value}
    requires d.accounts.Keys !! d.pending.Keys && d.accounts.Keys !! d.stopping.Keys && d.pending.Keys !! d.stopping.Keys
    requires forall id :: DirectoryOf(d, id) == if id == freed then None else DirectoryOf(c, id)
    ensures DirectoriesOwned(d)
  {
  }

  lemma TakenDirectoryOwned(c: Cell, d: Cell, id: AccountId, directory: Path)
    requires DirectoriesOwned(c) && !IsLive(c, id) && directory !in c.dataDirs && d.dataDirs == c.dataDirs[directory := id]
    requires d.accounts == c.accounts && d.stopping == c.stopping && d.pending == c.pending[id := directory]
    ensures DirectoriesOwned(d)
  {
    forall who | IsLive(d, who)
      ensures DirectoryOf(d, who).value in d.dataDirs && d.dataDirs[DirectoryOf(d, who).value] == who
    {
      assert who != id ==> IsLive(c, who) && DirectoryOf(d, who) == DirectoryOf(c, who);
    }
    forall taken | taken in d.dataDirs ensures DirectoryOf(d, d.dataDirs[taken]) == Some(taken) {
      if taken != directory {
        assert DirectoryOf(c, c.dataDirs[taken]) == Some(taken);
      }
    }
  }

  lemma AddKeepsDirectories(c: Cell, id: AccountId, directory: Path, assignment: Option<Assignment>, readable: bool)
    requires DirectoriesOwned(c)
    ensures DirectoriesOwned(BeginAdd(c, id, directory, assignment, readable))
  {
    if CanAdd(c, id, directory, assignment, readable) {
      TakenDirectoryOwned(c, BeginAdd(c, id, directory, assignment, readable), id, directory);
    }
  }

  lemma AddedKeepsDirectories(c: Cell, id: AccountId, application: nat)
    requires DirectoriesOwned(c) && id in c.pending && !c.closed
    ensures DirectoriesOwned(FinishAdd(c, id, application, true))
  {
    forall who { LiveAfterFinish(c, id, application, true, who); }
    SameDirectoriesOwned(c, FinishAdd(c, id, application, true));
  }

  lemma FailedKeepsDirectories(c: Cell, id: AccountId, application: nat, constructed: bool)
    requires DirectoriesOwned(c) && id in c.pending && !(constructed && !c.closed)
    ensures DirectoriesOwned(FinishAdd(c, id, application, constructed))
  {
    forall who { LiveAfterFinish(c, id, application, constructed, who); }
    FreedDirectoryOwned(c, FinishAdd(c, id, application, constructed), id);
  }

  lemma FinishKeepsDirectories(c: Cell, id: AccountId, application: nat, constructed: bool)
    requires DirectoriesOwned(c)
    ensures DirectoriesOwned(FinishAdd(c, id, application, constructed))
  {
    if id in c.pending {
      if constructed && !c.closed {
        AddedKeepsDirectories(c, id, application);
      } else {
        FailedKeepsDirectories(c, id, application, constructed);
      }
    }
  }

  lemma StopKeepsDirectories(c: Cell, id: AccountId)
    requires DirectoriesOwned(c)
    ensures DirectoriesOwned(BeginStop(c, id))
  {
    var d := BeginStop(c, id);
    forall who ensures DirectoryOf(d, who) == DirectoryOf(c, who) { LiveAfterStop(c, id, who); }
    SameDirectoriesOwned(c, d);
  }

  lemma ReleaseKeepsDirectories(c: Cell, id: AccountId, application: nat)
    requires DirectoriesOwned(c)
    ensures DirectoriesOwned(Release(c, id, application))
  {
    if CanRelease(c, id, application) {
      forall who { LiveAfterRelease(c, id, application, who); }
      assert IsLive(c, id) && DirectoryOf(c, id).value == c.stopping[id].directory;
      FreedDirectoryOwned(c, Release(c, id, application), id);
    }
  }

  lemma WatchKeepsDirectories(c: Cell, id: AccountId, application: nat)
    requires DirectoriesOwned(c)
    ensures DirectoriesOwned(WatchStop(c, id, application))
  {
    var d := WatchStop(c, id, application);
    assert d.stopping.Keys == c.stopping.Keys;
    SameDirectoriesOwned(c, d);
  }

  lemma SameTablesOwned(c: Cell, d: Cell)
    requires DirectoriesOwned(c) && d.dataDirs == c.dataDirs
    requires d.accounts == c.accounts && d.pending == c.pending && d.stopping == c.stopping
    ensures DirectoriesOwned(d)
  {
    forall id ensures DirectoryOf(d, id) == DirectoryOf(c, id) {}
    SameDirectoriesOwned(c, d);
  }

  lemma BindKeepsDirectories(c: Cell, id: AccountId, key: string)
    requires DirectoriesOwned(c)
    ensures DirectoriesOwned(BindPlayer(c, id, key))
  {
    SameTablesOwned(c, BindPlayer(c, id, key));
  }

  lemma OtherStepsKeepDirectories(c: Cell, application: nat, assignments: map<AccountId, Assignment>)
    requires DirectoriesOwned(c)
    ensures DirectoriesOwned(Finish(c, application)) && DirectoriesOwned(Publish(c, assignments)) && DirectoriesOwned(Close(c))
  {
    SameTablesOwned(c, Finish(c, application));
    SameTablesOwned(c, Publish(c, assignments));
    SameTablesOwned(c, Close(c));
  }

  lemma StepKeepsDirectories(c: Cell, s: AccountStep)
    requires DirectoriesOwned(c)
    ensures DirectoriesOwned(ApplyAccount(c, s))
  {
    match s
    case StepBeginAdd(id, directory, assignment, readable) => AddKeepsDirectories(c, id, directory, assignment, readable);
    case StepFinishAdd(id, application, constructed) => FinishKeepsDirectories(c, id, application, constructed);
    case StepBeginStop(id) => StopKeepsDirectories(c, id);
    case StepRelease(id, application) => ReleaseKeepsDirectories(c, id, application);
    case StepWatch(id, application) => WatchKeepsDirectories(c, id, application);
    case StepFinish(application) => OtherStepsKeepDirectories(c, application, map[]);
    case StepBind(id, key) => BindKeepsDirectories(c, id, key);
    case StepPublish(assignments) => OtherStepsKeepDirectories(c, 0, assignments);
    case StepClose => OtherStepsKeepDirectories(c, 0, map[]);
  }

  // ---- what is written is what is accepted

  lemma LocalAccepted(locals: Locals, id: AccountId, binding: LocalBinding)
    requires AcceptLocals(locals) && ValidLocal(binding) && binding.identity.runtimeId == id
    requires forall owner :: owner in locals && owner != id ==> locals[owner].directory != binding.directory
    ensures AcceptLocals(locals[id := binding])
  {
  }

  /** Two adoption documents that differ in states only. */
  predicate SameButStates(a: Adoptions, b: Adoptions) {
    && a.operations.Keys == b.operations.Keys && a.current == b.current && a.retired == b.retired
    && forall operation :: operation in a.operations ==> SameGeneration(a.operations[operation], b.operations[operation])
  }

  lemma SameCurrentAccepted(a: Adoptions, b: Adoptions, id: AccountId)
    requires SameButStates(a, b) && id in a.current && CurrentAccepted(a, id)
    ensures CurrentAccepted(b, id)
  {
  }

  lemma SameOperationAccepted(a: Adoptions, b: Adoptions, operation: string)
    requires SameButStates(a, b) && operation in a.operations && OperationAccepted(a, operation)
    ensures OperationAccepted(b, operation)
  {
  }

  lemma SameRetirementAccepted(a: Adoptions, b: Adoptions, directory: Path)
    requires SameButStates(a, b) && directory in a.retired && RetirementAccepted(a, directory)
    ensures RetirementAccepted(b, directory)
  {
  }

  /** The loader does not read states, so saving one keeps the document acceptable. */
  lemma StatesAccepted(a: Adoptions, b: Adoptions)
    requires AcceptAdoptions(a) && SameButStates(a, b)
    ensures AcceptAdoptions(b)
  {
    forall operation | operation in a.operations { SameOperationAccepted(a, b, operation); }
    forall id | id in a.current { SameCurrentAccepted(a, b, id); }
    forall directory | directory in a.retired { SameRetirementAccepted(a, b, directory); }
  }

  lemma StateIsOnlyChange(adoptions: Adoptions, id: AccountId, profile: TargetProfile, state: AdoptionState)
    requires Keyed(adoptions) && CurrentProfile(adoptions, id) == Some(profile)
    ensures SameButStates(adoptions, WithState(adoptions, profile, state))
  {
  }

  lemma StateAccepted(adoptions: Adoptions, id: AccountId, profile: TargetProfile, state: AdoptionState)
    requires AcceptAdoptions(adoptions) && CurrentProfile(adoptions, id) == Some(profile)
    ensures AcceptAdoptions(WithState(adoptions, profile, state))
  {
    AcceptedIsKeyed(adoptions);
    StateIsOnlyChange(adoptions, id, profile, state);
    StatesAccepted(adoptions, WithState(adoptions, profile, state));
  }

  /** What a reservation has checked about its owner before it is written. */
  predicate Continues(a: Adoptions, profile: TargetProfile, retire: set<Path>) {
    var id := profile.Owner();
    var previous := CurrentProfile(a, id);
    && ValidTarget(profile) && profile.Operation() !in a.operations
    && (previous.Some? ==> Precedes(AfterReservation(a, profile, retire), previous.value, profile))
    && (forall d :: d in retire && d in a.retired ==> a.retired[d] == id)
    && (forall d :: d in retire ==> ValidProfileDirectory(d))
    && profile.directory !in retire && StagingDirectory(id) in retire
    && profile.directory !in a.retired
  }

  lemma RetirementKept(a: Adoptions, profile: TargetProfile, retire: set<Path>, directory: Path)
    requires forall d :: d in retire && d in a.retired ==> a.retired[d] == profile.Owner()
    requires directory in a.retired
    ensures RetiredTo(AfterReservation(a, profile, retire), directory, a.retired[directory])
  {
  }

  lemma PrecedesKept(a: Adoptions, profile: TargetProfile, retire: set<Path>, left: TargetProfile, right: TargetProfile)
    requires forall d :: d in retire && d in a.retired ==> a.retired[d] == profile.Owner()
    requires Precedes(a, left, right)
    ensures Precedes(AfterReservation(a, profile, retire), left, right)
  {
  }

  lemma ReservedOperations(a: Adoptions, profile: TargetProfile, retire: set<Path>)
    requires AcceptAdoptions(a) && Continues(a, profile, retire)
    ensures var b := AfterReservation(a, profile, retire);
            forall operation :: operation in b.operations ==> OperationAccepted(b, operation)
  {
  }

  lemma ReservedOwnGeneration(a: Adoptions, profile: TargetProfile, retire: set<Path>, key: string)
    requires AcceptAdoptions(a) && Continues(a, profile, retire)
    requires key in a.operations && a.operations[key].Owner() == profile.Owner()
    ensures Precedes(AfterReservation(a, profile, retire), a.operations[key], profile)
  {
    var id := profile.Owner();
    assert OperationAccepted(a, key) && CurrentAccepted(a, id);
    if key != a.current[id] {
      var last := a.operations[a.current[id]];
      assert Precedes(a, a.operations[key], last);
      PrecedesKept(a, profile, retire, a.operations[key], last);
    }
  }

  lemma ReservedOwnCurrent(a: Adoptions, profile: TargetProfile, retire: set<Path>)
    requires AcceptAdoptions(a) && Continues(a, profile, retire)
    ensures var b := AfterReservation(a, profile, retire);
            profile.Owner() in b.current && CurrentAccepted(b, profile.Owner())
  {
    var b := AfterReservation(a, profile, retire);
    var id := profile.Owner();
    forall key | key in b.operations && key != b.current[id] && b.operations[key].Owner() == id
      ensures Precedes(b, b.operations[key], profile)
    {
      ReservedOwnGeneration(a, profile, retire, key);
    }
  }

  lemma ReservedOtherCurrent(a: Adoptions, profile: TargetProfile, retire: set<Path>, id: AccountId)
    requires forall d :: d in retire && d in a.retired ==> a.retired[d] == profile.Owner()
    requires profile.Operation() !in a.operations
    requires id in a.current && CurrentAccepted(a, id) && id != profile.Owner()
    ensures CurrentAccepted(AfterReservation(a, profile, retire), id)
  {
  }

  lemma ReservedCurrents(a: Adoptions, profile: TargetProfile, retire: set<Path>)
    requires AcceptAdoptions(a) && Continues(a, profile, retire)
    ensures var b := AfterReservation(a, profile, retire);
            forall id :: id in b.current ==> CurrentAccepted(b, id)
  {
    var b := AfterReservation(a, profile, retire);
    forall id | id in b.current ensures CurrentAccepted(b, id) {
      if id != profile.Owner() {
        ReservedOtherCurrent(a, profile, retire, id);
      } else {
        ReservedOwnCurrent(a, profile, retire);
      }
    }
  }

  lemma ReservedCurrentProfile(a: Adoptions, profile: TargetProfile, retire: set<Path>, id: AccountId)
    requires Keyed(a) && profile.Operation() !in a.operations && profile.Operation() != ""
    ensures CurrentProfile(AfterReservation(a, profile, retire), id)
            == if id == profile.Owner() then Some(profile) else CurrentProfile(a, id)
  {
  }

  lemma FenceOfReceipt(id: AccountId, profile: TargetProfile, directory: Path)
    requires ValidTarget(profile) && profile.Owner() == id && ValidProfileDirectory(directory)
    ensures ValidFence(id, Fence(profile.receipt.identity, directory, "", false))
  {
  }

  lemma ReservedRetirement(a: Adoptions, profile: TargetProfile, retire: set<Path>, directory: Path)
    requires AcceptAdoptions(a) && Keyed(a) && Continues(a, profile, retire)
    requires directory in AfterReservation(a, profile, retire).retired
    ensures RetirementAccepted(AfterReservation(a, profile, retire), directory)
  {
    var b := AfterReservation(a, profile, retire);
    var id := b.retired[directory];
    assert CanonicalId(profile.Operation());
    ReservedCurrentProfile(a, profile, retire, id);
    if directory in a.retired {
      assert RetirementAccepted(a, directory);
      RetirementKept(a, profile, retire, directory);
    }
    if id == profile.Owner() {
      assert ValidProfileDirectory(directory) && directory != profile.directory;
      FenceOfReceipt(id, profile, directory);
    }
  }

  /** A reservation that passed its checks leaves a document the loader accepts. */
  lemma ReservationAccepted(a: Adoptions, profile: TargetProfile, retire: set<Path>)
    requires AcceptAdoptions(a) && Continues(a, profile, retire)
    ensures AcceptAdoptions(AfterReservation(a, profile, retire))
  {
    AcceptedIsKeyed(a);
    ReservedOperations(a, profile, retire);
    ReservedCurrents(a, profile, retire);
    var b := AfterReservation(a, profile, retire);
    forall directory | directory in b.retired ensures RetirementAccepted(b, directory) {
      ReservedRetirement(a, profile, retire, directory);
    }
  }

  // ---- reservations meet those conditions

  lemma OwnAgreement(c: Cell, id: AccountId)
    requires Inv(Project(c, id), id, c.profileId)
    ensures Agree(FenceOf(c.fences, id), OwnedBy(c.adoptions, id), LocalOf(c.locals, id), id, c.profileId)
    ensures FenceFormed(FenceOf(c.fences, id), id, c.profileId)
  {
  }

  lemma OperationNotRetired(c: Cell, profile: TargetProfile, files: FileView)
    requires Keyed(c.adoptions) && Inv(Project(c, profile.Owner()), profile.Owner(), c.profileId)
    requires Reserve(c, profile, files).1
    ensures profile.directory !in c.adoptions.retired
  {
    var id := profile.Owner();
    OwnAgreement(c, id);
    FreshOperationDirectory(c.adoptions, profile.Operation(), id);
    assert DirectoryReservable(c, id, profile.directory, profile.directory, files);
    assert !Home(profile.directory, OwnedBy(c.adoptions, id), id);
    assert profile.directory !in OwnedBy(c.adoptions, id).retired;
  }

  lemma PreviousIsOld(c: Cell, profile: TargetProfile)
    requires Keyed(c.adoptions) && profile.Operation() !in c.adoptions.operations
    requires profile.directory == TransferDirectory(profile.Operation())
    requires CurrentProfile(c.adoptions, profile.Owner()).Some?
    ensures CurrentProfile(c.adoptions, profile.Owner()).value.directory
            in OldDirectories(c, profile.Owner()) - {profile.directory}
  {
    var previous := CurrentProfile(c.adoptions, profile.Owner()).value;
    CurrentIsKeyed(c.adoptions, profile.Owner());
    if previous.directory == profile.directory {
      TransferDirectoryInjective(previous.Operation(), profile.Operation());
    }
  }

  /** Why the new generation continues the old one: the stopped fence names the same
      profile as the generation that ran under it. */
  lemma ReservationPrecedes(c: Cell, profile: TargetProfile, files: FileView)
    requires Keyed(c.adoptions) && BelongsTo(c.adoptions, c.cellId)
    requires Inv(Project(c, profile.Owner()), profile.Owner(), c.profileId)
    requires Reserve(c, profile, files).1 && CurrentProfile(c.adoptions, profile.Owner()).Some?
    ensures Precedes(AfterReservation(c.adoptions, profile, OldDirectories(c, profile.Owner()) - {profile.directory}),
                     CurrentProfile(c.adoptions, profile.Owner()).value, profile)
  {
    OwnAgreement(c, profile.Owner());
    PreviousIsOld(c, profile);
  }

  lemma OldDirectoryValid(c: Cell, id: AccountId, directory: Path)
    requires AcceptFences(c.fences) && Keyed(c.adoptions) && ValidBindings(c.playerBindings) && CanonicalId(id)
    requires forall operation :: operation in c.adoptions.operations ==> OperationAccepted(c.adoptions, operation)
    requires directory in OldDirectories(c, id)
    ensures ValidProfileDirectory(directory)
  {
  }

  lemma ReservationContinues(c: Cell, profile: TargetProfile, files: FileView)
    requires AcceptFences(c.fences) && AcceptAdoptions(c.adoptions) && BelongsTo(c.adoptions, c.cellId)
    requires ValidBindings(c.playerBindings) && Inv(Project(c, profile.Owner()), profile.Owner(), c.profileId)
    requires Reserve(c, profile, files).1
    ensures Continues(c.adoptions, profile, OldDirectories(c, profile.Owner()) - {profile.directory})
  {
    var id := profile.Owner();
    var retire := OldDirectories(c, id) - {profile.directory};
    AcceptedIsKeyed(c.adoptions);
    OperationNotRetired(c, profile, files);
    if CurrentProfile(c.adoptions, id).Some? {
      ReservationPrecedes(c, profile, files);
    }
    forall d | d in retire ensures ValidProfileDirectory(d) && (d in c.adoptions.retired ==> c.adoptions.retired[d] == id) {
      assert CanonicalId(id);
      OldDirectoryValid(c, id, d);
      assert DirectoryReservable(c, id, d, profile.directory, files);
    }
  }
}
