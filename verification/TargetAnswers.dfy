/** Which restore and activation requests a cell answers, and with which generation. */
module TargetAnswers {
  import opened Journals
  import opened HandoverTypes
  import opened CellSpec
  import opened CellProjection
  import opened SourceAnswers
  import opened AdmissionAnswers

  // ---- the archive and the generation it becomes

  /** An archive receipt a cell of this name may take in for the epoch after its source's. */
  predicate GoodReceipt(r: Receipt, targetEpoch: nat, cellId: string) {
    var i := r.identity;
    && GoodIdentity(i) && CanonicalId(cellId) && cellId != i.sourceCellId
    && targetEpoch == i.sourceEpoch + 1 <= 0x7FFF_FFFF_FFFF_FFFF
    && ["Accounts", "transfer-" + i.operationId] != ["Accounts", i.runtimeId]
    && ValidComponent("transfer-" + i.operationId)
    && r.schemaVersion == 1 && ValidDigest(r.sha256) && 1 <= |r.profileId| <= 128
    && 1 <= r.files <= 100_000 && 1 <= r.bytes <= 0x4_0000_0000
  }

  /** The generation that the receipt stands for on this cell. */
  function GenerationOf(r: Receipt, targetEpoch: nat, cellId: string, state: AdoptionState): TargetProfile {
    TargetProfile(r, cellId, targetEpoch, ["Accounts", "transfer-" + r.identity.operationId], state)
  }

  lemma TargetIs(r: Receipt, targetEpoch: nat, cellId: string, state: AdoptionState)
    ensures ValidTarget(GenerationOf(r, targetEpoch, cellId, state)) <==> GoodReceipt(r, targetEpoch, cellId)
  {
    IdentityIs(r.identity);
  }

  // ---- a new reservation

  /** Somewhere the runtime may have lived on this cell. */
  predicate OldPlace(c: Cell, id: AccountId, place: Path) {
    var current := CurrentProfile(c.adoptions, id);
    || place == ["Accounts", id]
    || (id in c.playerBindings && c.playerBindings[id] != "" && place == ["Players", c.playerBindings[id]])
    || (current.Some? && place == current.value.directory)
    || (id in c.fences && place == c.fences[id].directory)
  }

  /** The runtime's earlier generation and fence are behind it, under the same owner, and the
      fence holds the same profile. */
  predicate ContinuesHistory(c: Cell, r: Receipt) {
    var i, current := r.identity, CurrentProfile(c.adoptions, r.identity.runtimeId);
    && (current.Some? ==>
          && current.value.state == Active && LeftAt(c, i.runtimeId, current.value.targetEpoch)
          && (current.value.receipt.identity.accountId, current.value.receipt.identity.tenantId) == (i.accountId, i.tenantId))
    && (i.runtimeId in c.fences ==>
          var fence := c.fences[i.runtimeId];
          && fence.stopped && fence.identity.sourceEpoch < i.sourceEpoch && fence.profileId == r.profileId
          && (fence.identity.accountId, fence.identity.tenantId) == (i.accountId, i.tenantId))
  }

  /** No live runtime is in, under or around the place, and no other runtime's generation or
      retirement has it. */
  predicate PlaceIsOpen(c: Cell, id: AccountId, place: Path) {
    && (forall live :: live in c.dataDirs ==> !Overlap(live, place))
    && (forall o :: o in c.adoptions.operations && c.adoptions.operations[o].directory == place ==>
          c.adoptions.operations[o].receipt.identity.runtimeId == id)
    && (place in c.adoptions.retired ==> c.adoptions.retired[place] == id)
  }

  ghost predicate MayReserve(c: Cell, r: Receipt, files: FileView) {
    var id, target := r.identity.runtimeId, ["Accounts", "transfer-" + r.identity.operationId];
    && id !in c.locals && id !in c.accounts && id !in c.pending && id !in c.stopping && !c.closed && Room(c, id)
    && ContinuesHistory(c, r) && target !in files.existing && PlaceIsOpen(c, id, target)
    && (forall place :: OldPlace(c, id, place) && place != target ==> PlaceMayRetire(c, id, place, files))
  }

  lemma OldPlacesAre(c: Cell, id: AccountId)
    ensures forall place :: place in OldDirectories(c, id) <==> OldPlace(c, id, place)
  {
  }

  /** An old place that exists is explained by a fence. */
  predicate PlaceMayRetire(c: Cell, id: AccountId, place: Path, files: FileView) {
    PlaceIsOpen(c, id, place) && files.readable && (place in files.existing ==> id in c.fences)
  }

  lemma PlaceExactly(c: Cell, id: AccountId, place: Path, target: Path, files: FileView)
    ensures DirectoryReservable(c, id, place, target, files)
            <==> if place == target then PlaceIsOpen(c, id, place) else PlaceMayRetire(c, id, place, files)
  {
  }

  lemma HistoryExactly(c: Cell, r: Receipt, profile: TargetProfile)
    requires profile.receipt == r
    ensures ContinuesImport(c, r.identity.runtimeId, profile) && ContinuesFence(c, r.identity.runtimeId, profile)
            <==> ContinuesHistory(c, r)
  {
  }

  lemma PlacesExactly(c: Cell, id: AccountId, target: Path, files: FileView)
    ensures (forall place :: place in OldDirectories(c, id) + {target} ==> DirectoryReservable(c, id, place, target, files))
            <==> PlaceIsOpen(c, id, target)
                 && forall place :: OldPlace(c, id, place) && place != target ==> PlaceMayRetire(c, id, place, files)
  {
    OldPlacesAre(c, id);
    forall place
      ensures DirectoryReservable(c, id, place, target, files)
              <==> if place == target then PlaceIsOpen(c, id, place) else PlaceMayRetire(c, id, place, files)
    {
      PlaceExactly(c, id, place, target, files);
    }
  }

  lemma ReservableExactly(c: Cell, r: Receipt, targetEpoch: nat, files: FileView)
    requires DirectoriesOwned(c)
    ensures CanReserve(c, GenerationOf(r, targetEpoch, c.cellId, Reserved), files) <==> MayReserve(c, r, files)
  {
    var profile := GenerationOf(r, targetEpoch, c.cellId, Reserved);
    HistoryExactly(c, r, profile);
    PlacesExactly(c, r.identity.runtimeId, profile.directory, files);
    if !IsLive(c, r.identity.runtimeId) { RoomExactly(c, r.identity.runtimeId); }
  }

  // ---- restoring

  /** The operation is known here, for this very request, and is the runtime's newest. */
  predicate KnownAs(c: Cell, r: Receipt, targetEpoch: nat) {
    var o := r.identity.operationId;
    && o in c.adoptions.operations && r.identity.runtimeId in c.adoptions.current && c.adoptions.current[r.identity.runtimeId] == o
    && var known := c.adoptions.operations[o];
       (known.receipt, known.targetEpoch, known.targetCellId) == (r, targetEpoch, c.cellId)
  }

  predicate KnownActive(c: Cell, r: Receipt) {
    r.identity.operationId in c.adoptions.operations && c.adoptions.operations[r.identity.operationId].state == Active
  }

  ghost predicate MayRestore(c: Cell, r: Receipt, targetEpoch: nat, proved: bool, files: FileView) {
    && GoodReceipt(r, targetEpoch, c.cellId) && proved && !c.closed
    && (if r.identity.operationId in c.adoptions.operations then KnownAs(c, r, targetEpoch) else MayReserve(c, r, files))
  }

  lemma DeliveredExactly(c: Cell, id: AccountId, first: WriteOutcome, intact: bool, second: WriteOutcome)
    requires CurrentProfile(c.adoptions, id).Some? && CurrentProfile(c.adoptions, id).value.state != Active
    ensures var (d, profile) := DeliverRestore(c, id, first, intact, second);
            && (profile.Some? <==> first == Synced && intact && second == Synced)
            && (profile.Some? && CurrentProfile(c.adoptions, id).value.Operation() == CurrentOperation(c.adoptions, id) ==>
                  profile == Some(CurrentProfile(c.adoptions, id).value.(state := Restored)))
  {
    var c1 := SaveAdoptions(c, first).0;
    if first == Synced { assert c1.adoptionDisk.possible == {c1.adoptions}; }
  }

  lemma ReservedIs(c: Cell, r: Receipt, targetEpoch: nat, files: FileView)
    requires DirectoriesOwned(c) && GoodReceipt(r, targetEpoch, c.cellId) && r.identity.operationId !in c.adoptions.operations
    ensures var profile := GenerationOf(r, targetEpoch, c.cellId, Reserved);
            var (d, reserved) := Reserve(c, profile, files);
            && (reserved <==> MayReserve(c, r, files))
            && (reserved ==> CurrentProfile(d.adoptions, r.identity.runtimeId) == Some(profile)
                             && CurrentOperation(d.adoptions, r.identity.runtimeId) == profile.Operation()
                             && d.cellId == c.cellId)
  {
    TargetIs(r, targetEpoch, c.cellId, Reserved);
    ReservableExactly(c, r, targetEpoch, files);
  }

  lemma NewIsRestored(c: Cell, r: Receipt, targetEpoch: nat, proved: bool, files: FileView, first: WriteOutcome,
                      intact: bool, second: WriteOutcome)
    requires DirectoriesOwned(c) && r.identity.operationId !in c.adoptions.operations
    ensures var profile := Restore(c, r, targetEpoch, proved, files, first, intact, second).1;
            && (profile.Some? <==>
                  MayRestore(c, r, targetEpoch, proved, files) && first == Synced && intact && second == Synced)
            && (profile.Some? ==> profile == Some(GenerationOf(r, targetEpoch, c.cellId, Restored)))
  {
    TargetIs(r, targetEpoch, c.cellId, Reserved);
    if GoodReceipt(r, targetEpoch, c.cellId) && proved && !c.closed {
      var (c1, reserved) := Reserve(c, GenerationOf(r, targetEpoch, c.cellId, Reserved), files);
      ReservedIs(c, r, targetEpoch, files);
      if reserved { DeliveredExactly(c1, r.identity.runtimeId, first, intact, second); }
    }
  }

  lemma KnownIs(c: Cell, r: Receipt, targetEpoch: nat)
    requires AcceptAdoptions(c.adoptions) && KnownAs(c, r, targetEpoch)
    ensures var known := c.adoptions.operations[r.identity.operationId];
            && CurrentProfile(c.adoptions, r.identity.runtimeId) == Some(known)
            && known == GenerationOf(r, targetEpoch, c.cellId, known.state)
            && known.Operation() == CurrentOperation(c.adoptions, r.identity.runtimeId)
  {
    assert OperationAccepted(c.adoptions, r.identity.operationId);
  }

  lemma KnownAnswer(c: Cell, r: Receipt, targetEpoch: nat, files: FileView, first: WriteOutcome, intact: bool, second: WriteOutcome)
    requires r.identity.operationId in c.adoptions.operations && GoodReceipt(r, targetEpoch, c.cellId) && !c.closed
    ensures var known, id := c.adoptions.operations[r.identity.operationId], r.identity.runtimeId;
            Restore(c, r, targetEpoch, true, files, first, intact, second)
            == if !KnownAs(c, r, targetEpoch) then (c, None)
               else if known.state == Active then (c, if HasActiveImport(c, id) then Some(known) else None)
               else DeliverRestore(c, id, first, intact, second)
  {
    TargetIs(r, targetEpoch, c.cellId, Reserved);
  }

  lemma BadIsRefused(c: Cell, r: Receipt, targetEpoch: nat, proved: bool, files: FileView, first: WriteOutcome,
                     intact: bool, second: WriteOutcome)
    requires !GoodReceipt(r, targetEpoch, c.cellId) || c.closed || !proved
    ensures Restore(c, r, targetEpoch, proved, files, first, intact, second).1.None?
  {
    TargetIs(r, targetEpoch, c.cellId, Reserved);
  }

  lemma KnownIsRestored(c: Cell, r: Receipt, targetEpoch: nat, proved: bool, files: FileView, first: WriteOutcome,
                        intact: bool, second: WriteOutcome)
    requires AcceptAdoptions(c.adoptions) && r.identity.operationId in c.adoptions.operations
    ensures var profile := Restore(c, r, targetEpoch, proved, files, first, intact, second).1;
            && (profile.Some? <==>
                  && MayRestore(c, r, targetEpoch, proved, files)
                  && (if KnownActive(c, r) then !LeftAt(c, r.identity.runtimeId, targetEpoch)
                      else first == Synced && intact && second == Synced))
            && (profile.Some? ==>
                  profile == Some(GenerationOf(r, targetEpoch, c.cellId, if KnownActive(c, r) then Active else Restored)))
  {
    if !GoodReceipt(r, targetEpoch, c.cellId) || c.closed || !proved {
      BadIsRefused(c, r, targetEpoch, proved, files, first, intact, second);
    } else {
      KnownAnswer(c, r, targetEpoch, files, first, intact, second);
      if KnownAs(c, r, targetEpoch) {
        KnownIs(c, r, targetEpoch);
        RunsExactly(c, r.identity.runtimeId);
        if !KnownActive(c, r) { DeliveredExactly(c, r.identity.runtimeId, first, intact, second); }
      }
    }
  }

  /** A restore is answered exactly for a good receipt with a proved configuration that is
      either new here and reservable, or this runtime's newest known operation; then, unless
      its generation is active and has not departed, both saves are synced and the archive
      is intact. The answer is the generation of this very request. */
  lemma RestoredExactly(c: Cell, r: Receipt, targetEpoch: nat, proved: bool, files: FileView, first: WriteOutcome,
                        intact: bool, second: WriteOutcome)
    requires AcceptAdoptions(c.adoptions) && DirectoriesOwned(c)
    ensures var profile := Restore(c, r, targetEpoch, proved, files, first, intact, second).1;
            && (profile.Some? <==>
                  && MayRestore(c, r, targetEpoch, proved, files)
                  && (if KnownActive(c, r) then !LeftAt(c, r.identity.runtimeId, targetEpoch)
                      else first == Synced && intact && second == Synced))
            && (profile.Some? ==>
                  profile == Some(GenerationOf(r, targetEpoch, c.cellId, if KnownActive(c, r) then Active else Restored)))
  {
    if r.identity.operationId in c.adoptions.operations {
      KnownIsRestored(c, r, targetEpoch, proved, files, first, intact, second);
    } else {
      NewIsRestored(c, r, targetEpoch, proved, files, first, intact, second);
    }
  }

  // ---- what a reservation leaves in memory

  /** The runtime's newest generation is this one, and its old places are retired to it. */
  ghost predicate Reserves(c: Cell, d: Cell, r: Receipt, generation: TargetProfile) {
    var id, o := r.identity.runtimeId, r.identity.operationId;
    && d.adoptions.operations == c.adoptions.operations[o := generation]
    && d.adoptions.current == c.adoptions.current[id := o]
    && (forall place :: place in d.adoptions.retired <==>
          place in c.adoptions.retired || (OldPlace(c, id, place) && place != generation.directory))
    && (forall place :: place in d.adoptions.retired ==>
          d.adoptions.retired[place]
          == if OldPlace(c, id, place) && place != generation.directory then id else c.adoptions.retired[place])
  }

  lemma ReservedStands(c: Cell, r: Receipt, targetEpoch: nat, files: FileView)
    requires DirectoriesOwned(c) && GoodReceipt(r, targetEpoch, c.cellId) && r.identity.operationId !in c.adoptions.operations
    requires MayReserve(c, r, files)
    ensures var profile := GenerationOf(r, targetEpoch, c.cellId, Reserved);
            Reserves(c, Reserve(c, profile, files).0, r, profile)
  {
    ReservedIs(c, r, targetEpoch, files);
    OldPlacesAre(c, r.identity.runtimeId);
  }

  lemma DeliveryKeeps(c: Cell, id: AccountId, first: WriteOutcome, intact: bool, second: WriteOutcome)
    requires CurrentProfile(c.adoptions, id).Some?
    ensures var (d, profile) := DeliverRestore(c, id, first, intact, second);
            d.adoptions == if profile.None? then c.adoptions else WithState(c.adoptions, CurrentProfile(c.adoptions, id).value, Restored)
  {
  }

  lemma DeliveryReserves(c: Cell, c1: Cell, r: Receipt, reserved: TargetProfile, first: WriteOutcome, intact: bool, second: WriteOutcome)
    requires Reserves(c, c1, r, reserved) && reserved.receipt == r
    ensures var (d, profile) := DeliverRestore(c1, r.identity.runtimeId, first, intact, second);
            Reserves(c, d, r, if profile.Some? then reserved.(state := Restored) else reserved)
  {
    var id, o := r.identity.runtimeId, r.identity.operationId;
    assert CurrentProfile(c1.adoptions, id) == Some(reserved);
    DeliveryKeeps(c1, id, first, intact, second);
    assert c1.adoptions.operations[o := reserved.(state := Restored)] == c.adoptions.operations[o := reserved.(state := Restored)];
  }

  lemma NewIsDelivered(c: Cell, r: Receipt, targetEpoch: nat, proved: bool, files: FileView, first: WriteOutcome,
                       intact: bool, second: WriteOutcome)
    requires DirectoriesOwned(c) && r.identity.operationId !in c.adoptions.operations
    ensures Restore(c, r, targetEpoch, proved, files, first, intact, second)
            == if MayRestore(c, r, targetEpoch, proved, files)
               then DeliverRestore(Reserve(c, GenerationOf(r, targetEpoch, c.cellId, Reserved), files).0, r.identity.runtimeId,
                                   first, intact, second)
               else (c, None)
  {
    TargetIs(r, targetEpoch, c.cellId, Reserved);
    if GoodReceipt(r, targetEpoch, c.cellId) { ReservedIs(c, r, targetEpoch, files); }
  }

  /** Whatever becomes of its saves and its archive, a new request that may be restored leaves
      its generation and the retired places in memory, and so keeps the runtime out. */
  lemma ReservationStands(c: Cell, r: Receipt, targetEpoch: nat, proved: bool, files: FileView, first: WriteOutcome,
                          intact: bool, second: WriteOutcome)
    requires DirectoriesOwned(c) && r.identity.operationId !in c.adoptions.operations
    ensures var (d, profile) := Restore(c, r, targetEpoch, proved, files, first, intact, second);
            && (MayRestore(c, r, targetEpoch, proved, files) ==>
                  Reserves(c, d, r, GenerationOf(r, targetEpoch, c.cellId, if profile.Some? then Restored else Reserved)))
            && (!MayRestore(c, r, targetEpoch, proved, files) ==> d == c)
  {
    NewIsDelivered(c, r, targetEpoch, proved, files, first, intact, second);
    if MayRestore(c, r, targetEpoch, proved, files) {
      var reserved := GenerationOf(r, targetEpoch, c.cellId, Reserved);
      ReservedStands(c, r, targetEpoch, files);
      DeliveryReserves(c, Reserve(c, reserved, files).0, r, reserved, first, intact, second);
    }
  }

  // ---- activating

  predicate MayActivate(c: Cell, e: TargetProfile, intact: bool) {
    var id, current := e.receipt.identity.runtimeId, CurrentProfile(c.adoptions, e.receipt.identity.runtimeId);
    && !c.closed && e.targetCellId == c.cellId && GoodReceipt(e.receipt, e.targetEpoch, c.cellId)
    && e == GenerationOf(e.receipt, e.targetEpoch, c.cellId, e.state)
    && current.Some? && current.value.receipt == e.receipt && current.value.targetEpoch == e.targetEpoch
    && current.value.targetCellId == c.cellId
    && (match current.value.state
        case Reserved => false
        case Restored => intact
        case Active => if id in c.locals then RunsBound(c, id) else !LeftAt(c, id, e.targetEpoch))
  }

  /** An activation is answered exactly for the restored generation of this very request, whose
      archive is intact, or the active one that may still run here; its save must be synced.
      The first answer makes the cell forget the runtime's old assignment. */
  lemma ActivatedExactly(c: Cell, e: TargetProfile, intact: bool, outcome: WriteOutcome)
    ensures var (d, profile) := Activate(c, e, intact, outcome);
            var id, current := e.receipt.identity.runtimeId, CurrentProfile(c.adoptions, e.receipt.identity.runtimeId);
            && (profile.Some? <==> MayActivate(c, e, intact) && outcome == Synced)
            && (profile.Some? ==>
                  && profile == Some(current.value.(state := Active))
                  && d.adoptions == c.adoptions.(operations := c.adoptions.operations[e.receipt.identity.operationId := profile.value])
                  && d.adoptionDisk == Fresh(d.adoptions)
                  && d.assignments == (if current.value.state == Active then c.assignments else c.assignments - {id}))
            && (profile.None? ==> d.adoptions == c.adoptions && d.assignments == c.assignments)
  {
    TargetIs(e.receipt, e.targetEpoch, e.targetCellId, e.state);
    RunsExactly(c, e.receipt.identity.runtimeId);
  }
}
