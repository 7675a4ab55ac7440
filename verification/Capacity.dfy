/** The account limit: live runtimes and runtimes promised a slot by a journal, each
    counted once, never exceed it while reservations turn into runtimes and back. */
module Capacity {
  import opened Journals
  import opened HandoverTypes
  import opened CellSpec
  import opened RuntimeSlice
  import opened CellProjection
  import opened CellInvariant
  import opened EpochChain
  import opened ActivationOnDisk

  function Claims(c: Cell): set<AccountId> {
    set id | id in c.locals.Keys + c.adoptions.current.Keys && ClaimsSlot(c, id)
  }

  function Occupied(c: Cell): set<AccountId> {
    LiveIds(c) + Claims(c)
  }

  predicate WithinLimit(c: Cell) {
    c.maxAccounts > 0 ==> |Occupied(c)| <= c.maxAccounts
  }

  predicate ClaimsHere(s: Slice) {
    if s.local.Some? then ActiveLocal(s) || s.local.value.state == LocalReserved
    else s.owned.profile.Some? && (s.owned.profile.value.state != Active || ActiveImport(s))
  }

  predicate Occupies(s: Slice) {
    s.live.Some? || ClaimsHere(s)
  }

  lemma OccupiedProjects(c: Cell, id: AccountId)
    requires Keyed(c.adoptions)
    ensures id in Occupied(c) <==> Occupies(Project(c, id))
  {
  }

  predicate TakesSlot(move: Move) {
    move.Start? || move.ReserveTarget? || move.NewLocal?
  }

  lemma MoveFreesOrKeeps(s: Slice, move: Move, id: AccountId, profileId: Path -> string)
    requires Inv(s, id, profileId) && May(s, move, id, profileId) && !Restarts(move) && !TakesSlot(move)
    ensures Occupies(Next(s, move)) ==> Occupies(s)
  {
  }

  // ---- what a restart may claim again

  /** These three journal entries, read back together, promise the runtime no slot. */
  predicate Unpromised(fence: Option<Fence>, profile: Option<TargetProfile>, local: Option<LocalBinding>) {
    if local.Some? then local.value.state == LocalActive && Departed(fence, local.value.targetEpoch)
    else profile.Some? ==> profile.value.state == Active && Departed(fence, profile.value.targetEpoch)
  }

  ghost predicate DepartureOnDisk(s: Slice, epoch: nat) {
    forall f :: f in s.fenceDisk.possible ==> Departed(f, epoch)
  }

  /** Journal by journal: no binding that may come back is merely reserved, if none may
      come back no generation is unfinished, and the departure of each is on disk. */
  ghost predicate ReleasedOnDisk(s: Slice) {
    && (forall l :: l in s.localDisk.possible && l.Some? ==>
          l.value.state == LocalActive && DepartureOnDisk(s, l.value.targetEpoch))
    && (None in s.localDisk.possible ==>
          forall o :: o in s.ownedDisk.possible && o.profile.Some? ==>
            IsActive(o) && DepartureOnDisk(s, o.profile.value.targetEpoch))
  }

  lemma ReleasedOnDiskMeans(s: Slice, id: AccountId, profileId: Path -> string)
    requires Inv(s, id, profileId)
    ensures ReleasedOnDisk(s) <==>
              forall f, o, l | f in s.fenceDisk.possible && o in s.ownedDisk.possible && l in s.localDisk.possible ::
                Unpromised(f, o.profile, l)
  {
    assert s.fenceDisk.visible in s.fenceDisk.possible && s.ownedDisk.visible in s.ownedDisk.possible;
  }

  /** A free slot stays free through every crash exactly when its release is on disk. */
  lemma CrashKeepsSlotFree(s: Slice, id: AccountId, profileId: Path -> string)
    requires Inv(s, id, profileId) && !Occupies(s)
    ensures (forall f, o, l | f in s.fenceDisk.possible && o in s.ownedDisk.possible && l in s.localDisk.possible ::
               !Occupies(Next(s, ReloadFrom(f, o, l)))) <==> ReleasedOnDisk(s)
  {
    ReleasedOnDiskMeans(s, id, profileId);
    forall f, o, l ensures Occupies(Next(s, ReloadFrom(f, o, l))) <==> !Unpromised(f, o.profile, l) {
    }
  }

  /** Through a bare process exit it does exactly when the visible entries release it. */
  lemma ExitKeepsSlotFree(s: Slice)
    requires !Occupies(s)
    ensures !Occupies(Next(s, ReloadVisible))
            <==> Unpromised(s.fenceDisk.visible, s.ownedDisk.visible.profile, s.localDisk.visible)
  {
  }

  /** For a runtime that never had a binding: its activation and its departure are on disk. */
  lemma ArchiveReleasedOnDisk(s: Slice, id: AccountId, profileId: Path -> string)
    requires Inv(s, id, profileId) && !Occupies(s) && s.local.None? && s.owned.profile.Some?
    ensures ReleasedOnDisk(s) <==> ActiveIsDurable(s) && DepartureOnDisk(s, s.owned.profile.value.targetEpoch)
  {
  }

  // ---- restarts of a whole cell

  datatype Documents = Documents(fences: Fences, adoptions: Adoptions, locals: Locals) {
    predicate Frees(id: AccountId) {
      Unpromised(FenceOf(fences, id), CurrentProfile(adoptions, id), LocalOf(locals, id))
    }

    function Promised(): set<AccountId> {
      set id | id in locals.Keys + adoptions.current.Keys && !Frees(id)
    }
  }

  /** The documents a restart reads back, if it is a restart this cell can see. */
  function Reread(c: Cell, s: RestartStep): Option<Documents> {
    if !ValidBindings(s.bindings) then None
    else
      match s
      case StepExit(_) => Some(Documents(c.fenceDisk.visible, c.adoptionDisk.visible, c.localDisk.visible))
      case StepCrash(fences, adoptions, locals, _) =>
        if fences in c.fenceDisk.possible && adoptions in c.adoptionDisk.possible && locals in c.localDisk.possible
        then Some(Documents(fences, adoptions, locals))
        else None
  }

  lemma PromisedAreNotFreed(documents: Documents)
    requires Keyed(documents.adoptions)
    ensures forall id :: id in documents.Promised() <==> !documents.Frees(id)
  {
  }

  lemma OccupiedByDocuments(c: Cell)
    requires Keyed(c.adoptions) && LiveIds(c) == {}
    ensures Occupied(c) == Documents(c.fences, c.adoptions, c.locals).Promised()
  {
  }

  lemma RereadReplaces(c: Cell, s: RestartStep)
    ensures Reread(c, s).None? ==> ApplyRestart(c, s) == c
    ensures Reread(c, s).Some? ==>
              var d := ApplyRestart(c, s);
              Documents(d.fences, d.adoptions, d.locals) == Reread(c, s).value && LiveIds(d) == {}
  {
  }

  lemma OccupiedAfter(c: Cell, s: RestartStep)
    requires CellInv(c) && Reread(c, s).Some?
    ensures Occupied(ApplyRestart(c, s)) == Reread(c, s).value.Promised()
    ensures forall id :: id in Reread(c, s).value.Promised() <==> !Reread(c, s).value.Frees(id)
  {
    var d := ApplyRestart(c, s);
    StepReaches(c, OnRestart(s), d);
    InvKeyed(d);
    RereadReplaces(c, s);
    OccupiedByDocuments(d);
    PromisedAreNotFreed(Reread(c, s).value);
  }

  /** Every runtime without a slot is released by what the restart reads back. */
  ghost predicate FreeSlotsStay(c: Cell, s: RestartStep) {
    Reread(c, s).Some? ==> forall id :: id !in Occupied(c) ==> Reread(c, s).value.Frees(id)
  }

  /** A restart takes back no free slot exactly when the documents release them all. */
  lemma RestartReclaimsNothing(c: Cell, s: RestartStep)
    requires CellInv(c)
    ensures Occupied(ApplyRestart(c, s)) <= Occupied(c) <==> FreeSlotsStay(c, s)
  {
    if Reread(c, s).Some? {
      OccupiedAfter(c, s);
    } else {
      RereadReplaces(c, s);
    }
  }

  /** Whatever documents a power loss leaves: none takes back a free slot exactly when the
      release of every free runtime is on disk. */
  lemma CrashesReclaimNothing(c: Cell, bindings: map<AccountId, string>)
    requires CellInv(c) && ValidBindings(bindings)
    ensures (forall fences, adoptions, locals :: FreeSlotsStay(c, StepCrash(fences, adoptions, locals, bindings)))
            <==> (forall id :: id !in Occupied(c) ==> ReleasedOnDisk(Project(c, id)))
  {
    if forall fences, adoptions, locals :: FreeSlotsStay(c, StepCrash(fences, adoptions, locals, bindings)) {
      forall id | id !in Occupied(c) ensures ReleasedOnDisk(Project(c, id)) {
        ReleasedWhenKept(c, bindings, id);
      }
    }
    if forall id :: id !in Occupied(c) ==> ReleasedOnDisk(Project(c, id)) {
      forall fences, adoptions, locals ensures FreeSlotsStay(c, StepCrash(fences, adoptions, locals, bindings)) {
        KeptWhenReleased(c, StepCrash(fences, adoptions, locals, bindings));
      }
    }
  }

  lemma ReleasedWhenKept(c: Cell, bindings: map<AccountId, string>, id: AccountId)
    requires CellInv(c) && ValidBindings(bindings) && id !in Occupied(c)
    requires forall fences, adoptions, locals :: FreeSlotsStay(c, StepCrash(fences, adoptions, locals, bindings))
    ensures ReleasedOnDisk(Project(c, id))
  {
    var s := Project(c, id);
    SliceInv(c, id);
    forall f, o, l | f in s.fenceDisk.possible && o in s.ownedDisk.possible && l in s.localDisk.possible
      ensures Unpromised(f, o.profile, l)
    {
      var documents := DocumentsOf(c, id, f, o, l);
      var crash := StepCrash(documents.fences, documents.adoptions, documents.locals, bindings);
      assert FreeSlotsStay(c, crash) && Reread(c, crash) == Some(documents);
    }
    ReleasedOnDiskMeans(s, id, c.profileId);
  }

  lemma DocumentsOf(c: Cell, id: AccountId, f: Option<Fence>, o: Owned, l: Option<LocalBinding>) returns (documents: Documents)
    requires var s := Project(c, id);
             f in s.fenceDisk.possible && o in s.ownedDisk.possible && l in s.localDisk.possible
    ensures documents.fences in c.fenceDisk.possible && FenceOf(documents.fences, id) == f
    ensures documents.adoptions in c.adoptionDisk.possible && OwnedBy(documents.adoptions, id) == o
    ensures documents.locals in c.localDisk.possible && LocalOf(documents.locals, id) == l
  {
    var fences :| fences in c.fenceDisk.possible && FencePart(id)(fences) == f;
    var adoptions :| adoptions in c.adoptionDisk.possible && OwnedPart(id)(adoptions) == o;
    var locals :| locals in c.localDisk.possible && LocalPart(id)(locals) == l;
    documents := Documents(fences, adoptions, locals);
  }

  lemma KeptWhenReleased(c: Cell, s: RestartStep)
    requires CellInv(c) && s.StepCrash? && forall id :: id !in Occupied(c) ==> ReleasedOnDisk(Project(c, id))
    ensures FreeSlotsStay(c, s)
  {
    if Reread(c, s).Some? {
      var documents := Reread(c, s).value;
      forall id | id !in Occupied(c) ensures documents.Frees(id) {
        ReleasedIsFreed(c, documents, id);
      }
    }
  }

  lemma ReleasedIsFreed(c: Cell, documents: Documents, id: AccountId)
    requires CellInv(c) && ReleasedOnDisk(Project(c, id))
    requires documents.fences in c.fenceDisk.possible && documents.adoptions in c.adoptionDisk.possible
    requires documents.locals in c.localDisk.possible
    ensures documents.Frees(id)
  {
    var s := Project(c, id);
    SliceInv(c, id);
    ReleasedOnDiskMeans(s, id, c.profileId);
    assert FencePart(id)(documents.fences) in s.fenceDisk.possible;
    assert OwnedPart(id)(documents.adoptions) in s.ownedDisk.possible;
    assert LocalPart(id)(documents.locals) in s.localDisk.possible;
  }

  /** Settled journals are enough, for a crash and an exit alike. */
  lemma SettledJournalsRelease(c: Cell, s: RestartStep)
    requires CellInv(c) && c.fenceDisk.possible == {c.fences} && c.localDisk.possible == {c.locals}
    requires forall id :: ActiveIsDurable(Project(c, id))
    ensures FreeSlotsStay(c, s)
  {
    if Reread(c, s).Some? {
      var documents := Reread(c, s).value;
      InvKeyed(c);
      forall id | id !in Occupied(c) ensures documents.Frees(id) {
        OccupiedProjects(c, id);
        assert OwnedPart(id)(documents.adoptions) in Project(c, id).ownedDisk.possible;
        SettledIsReleased(Project(c, id), id, c.profileId, OwnedBy(documents.adoptions, id));
      }
    }
  }

  lemma SettledIsReleased(s: Slice, id: AccountId, profileId: Path -> string, owned: Owned)
    requires Inv(s, id, profileId) && !Occupies(s) && ActiveIsDurable(s) && owned in s.ownedDisk.possible
    ensures Unpromised(s.fence, owned.profile, s.local)
  {
  }

  // ---- steps

  /** The only runtime a step can add to the count, and only with room for it. */
  function Admitted(c: Cell, s: Step): Option<AccountId> {
    match s
    case OnAccounts(StepBeginAdd(id, directory, assignment, readable)) =>
      if MayHaveRead(c, id, directory) && CanAdd(c, id, directory, assignment, readable) then Some(id) else None
    case OnTarget(StepReserve(profile, files)) =>
      if Reserve(c, profile, files).1 then Some(profile.Owner()) else None
    case OnLocal(StepReserveLocal(identity, readable, leased, _)) =>
      var binding := LocalToReserve(c, identity, readable, leased);
      if binding.Some? && LocalOf(c.locals, identity.runtimeId) != binding then Some(identity.runtimeId) else None
    case _ => None
  }

  lemma AdmittedHasRoom(c: Cell, s: Step)
    requires Admitted(c, s).Some?
    ensures !IsLive(c, Admitted(c, s).value) && HasCapacity(c, Admitted(c, s).value)
  {
    match s
    case OnTarget(StepReserve(profile, files)) => ReservedHasRoom(c, profile, files);
    case OnLocal(StepReserveLocal(identity, readable, leased, _)) => BoundHasRoom(c, identity, readable, leased);
    case _ =>
  }

  lemma ReservedHasRoom(c: Cell, profile: TargetProfile, files: FileView)
    requires Reserve(c, profile, files).1
    ensures !IsLive(c, profile.Owner()) && HasCapacity(c, profile.Owner())
  {
  }

  lemma BoundHasRoom(c: Cell, identity: Identity, readable: bool, leased: bool)
    requires LocalToReserve(c, identity, readable, leased).Some?
    requires LocalOf(c.locals, identity.runtimeId) != LocalToReserve(c, identity, readable, leased)
    ensures !IsLive(c, identity.runtimeId) && HasCapacity(c, identity.runtimeId)
  {
  }

  lemma OnlyAdmittedTakesSlot(c: Cell, s: Step, id: AccountId)
    ensures TakesSlot(MoveOf(c, s, id)) ==> Admitted(c, s) == Some(id)
  {
  }

  lemma OnlyRestartRestarts(c: Cell, s: Step, id: AccountId)
    ensures Restarts(MoveOf(c, s, id)) ==> s.OnRestart?
  {
  }

  lemma StepOccupies(c: Cell, s: Step, id: AccountId)
    requires CellInv(c) && !s.OnRestart?
    ensures id in Occupied(Apply(c, s)) ==> id in Occupied(c) || Admitted(c, s) == Some(id)
  {
    var d, move := Apply(c, s), MoveOf(c, s, id);
    InvKeyed(c);
    StepIsMove(c, s, id);
    StepKeepsCellInv(c, s);
    InvKeyed(d);
    OccupiedProjects(c, id);
    OccupiedProjects(d, id);
    OnlyAdmittedTakesSlot(c, s, id);
    OnlyRestartRestarts(c, s, id);
    if !TakesSlot(move) {
      MoveFreesOrKeeps(Project(c, id), move, id, c.profileId);
    }
  }

  lemma DisjointUnion<T>(a: set<T>, b: set<T>)
    requires a !! b
    ensures |a + b| == |a| + |b|
  {
  }

  lemma LiveIdsCounted(c: Cell)
    requires DirectoriesOwned(c)
    ensures |LiveIds(c)| == LiveCount(c)
  {
  }

  lemma OccupiedSplits(c: Cell, id: AccountId)
    requires !IsLive(c, id)
    ensures Occupied(c) - {id} == LiveIds(c) + ReservedIds(c, id) && LiveIds(c) !! ReservedIds(c, id)
  {
  }

  /** The code's count for admitting a runtime is the number of other slots in use. */
  lemma CountOf(c: Cell, id: AccountId)
    requires DirectoriesOwned(c) && !IsLive(c, id)
    ensures |Occupied(c) - {id}| == LiveCount(c) + |ReservedIds(c, id)|
  {
    LiveIdsCounted(c);
    OccupiedSplits(c, id);
    DisjointUnion(LiveIds(c), ReservedIds(c, id));
  }

  lemma SubsetIsSmaller<T>(a: set<T>, b: set<T>)
    requires a <= b
    ensures |a| <= |b|
  {
    DisjointUnion(a, b - a);
    assert a + (b - a) == b;
  }

  /** One step never takes the cell over its limit, a restart when it takes back no slot. */
  lemma StepKeepsLimit(c: Cell, s: Step)
    requires CellInv(c) && WithinLimit(c) && (s.OnRestart? ==> FreeSlotsStay(c, s.restart))
    ensures WithinLimit(Apply(c, s))
  {
    var d := Apply(c, s);
    if s.OnRestart? {
      RestartReclaimsNothing(c, s.restart);
    } else {
      forall id | id in Occupied(d) ensures id in Occupied(c) || Admitted(c, s) == Some(id) {
        StepOccupies(c, s, id);
      }
    }
    StepKeepsCellId(c, s);
    LimitKept(c, d, Admitted(c, s), s);
  }

  lemma LimitKept(c: Cell, d: Cell, admitted: Option<AccountId>, s: Step)
    requires CellInv(c) && WithinLimit(c) && d.maxAccounts == c.maxAccounts && admitted == Admitted(c, s)
    requires forall id :: id in Occupied(d) ==> id in Occupied(c) || admitted == Some(id)
    ensures WithinLimit(d)
  {
    if admitted.Some? {
      var id := admitted.value;
      AdmittedHasRoom(c, s);
      CountOf(c, id);
      DisjointUnion(Occupied(c) - {id}, {id});
      SubsetIsSmaller(Occupied(d), Occupied(c) - {id} + {id});
    } else {
      SubsetIsSmaller(Occupied(d), Occupied(c));
    }
  }

  // ---- runs

  /** No restart of the run takes back a free slot. */
  ghost predicate RestartsRelease(c: Cell, steps: seq<Step>)
    decreases |steps|
  {
    steps != [] ==>
      (steps[0].OnRestart? ==> FreeSlotsStay(c, steps[0].restart)) && RestartsRelease(Apply(c, steps[0]), steps[1..])
  }

  /** From within the limit no such run leaves it; LimitHoldsExactly below says when any run does. */
  lemma {:induction false} RunKeepsLimit(c: Cell, steps: seq<Step>)
    requires CellInv(c) && WithinLimit(c) && RestartsRelease(c, steps)
    ensures WithinLimit(RunSteps(c, steps))
    decreases |steps|
  {
    if steps != [] {
      StepKeepsLimit(c, steps[0]);
      StepKeepsCellInv(c, steps[0]);
      RunKeepsLimit(Apply(c, steps[0]), steps[1..]);
    }
  }

  /** The documents themselves promise no more slots than there are. */
  predicate Fits(c: Cell, s: RestartStep) {
    Reread(c, s).Some? && c.maxAccounts > 0 ==> |Reread(c, s).value.Promised()| <= c.maxAccounts
  }

  ghost predicate RestartsFit(c: Cell, steps: seq<Step>)
    decreases |steps|
  {
    steps != [] ==> (steps[0].OnRestart? ==> Fits(c, steps[0].restart)) && RestartsFit(Apply(c, steps[0]), steps[1..])
  }

  ghost predicate WithinLimitThroughout(c: Cell, steps: seq<Step>)
    decreases |steps|
  {
    WithinLimit(c) && (steps != [] ==> WithinLimitThroughout(Apply(c, steps[0]), steps[1..]))
  }

  lemma StepHoldsLimit(c: Cell, s: Step)
    requires CellInv(c) && WithinLimit(c)
    ensures WithinLimit(Apply(c, s)) <==> (s.OnRestart? ==> Fits(c, s.restart))
  {
    if !s.OnRestart? {
      StepKeepsLimit(c, s);
    } else if Reread(c, s.restart).Some? {
      OccupiedAfter(c, s.restart);
      StepKeepsCellId(c, s);
    } else {
      RereadReplaces(c, s.restart);
    }
  }

  /** The exact condition over whole runs: only a restart can take the cell over its limit,
      and it does exactly when the documents it reads promise too many slots. */
  lemma {:induction false} LimitHoldsExactly(c: Cell, steps: seq<Step>)
    requires CellInv(c) && WithinLimit(c)
    ensures WithinLimitThroughout(c, steps) <==> RestartsFit(c, steps)
    decreases |steps|
  {
    if steps != [] {
      var d := Apply(c, steps[0]);
      StepReaches(c, steps[0], d);
      StepHoldsLimit(c, steps[0]);
      if WithinLimit(d) {
        LimitHoldsExactly(d, steps[1..]);
      } else {
        assert !WithinLimitThroughout(d, steps[1..]);
      }
    }
  }
}
