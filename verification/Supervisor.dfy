/** The supervisor and its orchestrator as one object with the source's fields. Every
    method does one critical section in place and is proved to be that step of CellSpec. */
module Supervisor {
  import opened Journals
  import opened HandoverTypes
  import opened CellSpec
  import opened CellProjection
  import Capacity

  class Supervisor {
    const cellId: string
    const maxAccounts: nat
    const profileId: Path -> string
    var closed: bool
    var accounts: map<AccountId, Runtime>
    var stopping: map<AccountId, Runtime>
    var pending: map<AccountId, Path>
    var dataDirs: map<Path, AccountId>
    var playerBindings: map<AccountId, string>
    var runtimes: map<AccountId, Assignment>
    var sourceFences: Fences
    var profileAdoptions: Adoptions
    var localProfiles: Locals
    // What only the machine knows: ended applications and the state of each file.
    ghost var finished: set<nat>
    ghost var fenceDisk: Disk<Fences>
    ghost var adoptionDisk: Disk<Adoptions>
    ghost var localDisk: Disk<Locals>

    ghost function View(): Cell
      reads this
    {
      Cell(cellId, maxAccounts, profileId, closed, accounts, stopping, pending, dataDirs, finished, playerBindings, runtimes,
           sourceFences, profileAdoptions, localProfiles, fenceDisk, adoptionDisk, localDisk)
    }

    constructor (cellId: string, maxAccounts: nat, profileId: Path -> string)
      ensures View() == NewCell(cellId, maxAccounts, profileId)
    {
      this.cellId, this.maxAccounts, this.profileId := cellId, maxAccounts, profileId;
      closed, accounts, stopping, pending, dataDirs := false, map[], map[], map[], map[];
      playerBindings, runtimes, sourceFences, profileAdoptions, localProfiles := map[], map[], map[], NoAdoptions, map[];
      finished, fenceDisk, adoptionDisk, localDisk := {}, Fresh(map[]), Fresh(NoAdoptions), Fresh(map[]);
    }

    // ---- reading

    method ActiveProfile(id: AccountId) returns (profile: Option<TargetProfile>, active: bool)
      ensures profile == CurrentProfile(View().adoptions, id) && active == HasActiveImport(View(), id)
    {
      var operation := if id in profileAdoptions.current then profileAdoptions.current[id] else "";
      if operation !in profileAdoptions.operations {
        return None, false;
      }
      profile := Some(profileAdoptions.operations[operation]);
      if profile.value.state != Active {
        return profile, false;
      }
      if id in sourceFences && sourceFences[id].Epoch() >= profile.value.targetEpoch {
        return profile, false;
      }
      active := true;
    }

    method ActiveLocalProfile(id: AccountId) returns (binding: Option<LocalBinding>, active: bool)
      ensures binding == LocalOf(View().locals, id) && active == HasActiveLocal(View(), id)
    {
      if id !in localProfiles {
        return None, false;
      }
      binding := Some(localProfiles[id]);
      if binding.value.state != LocalActive {
        return binding, false;
      }
      if id in sourceFences && sourceFences[id].Epoch() >= binding.value.targetEpoch {
        return binding, false;
      }
      active := true;
    }

    method RuntimeHandoverFenced(id: AccountId) returns (fenced: bool)
      ensures fenced == HandoverFenced(View(), id)
    {
      var binding, activeLocal := ActiveLocalProfile(id);
      if binding.Some? {
        return !activeLocal;
      }
      var profile, active := ActiveProfile(id);
      if active {
        return false;
      }
      fenced := profile.Some? || id in sourceFences;
    }

    method HoldsLocalSlot(id: AccountId, exclude: AccountId) returns (held: bool)
      requires id in localProfiles
      ensures held == (id in ReservedIds(View(), exclude))
    {
      if id == exclude || id in accounts || id in pending || id in stopping {
        return false;
      }
      var binding, active := ActiveLocalProfile(id);
      held := active || localProfiles[id].state == LocalReserved;
    }

    method HoldsImportSlot(id: AccountId, exclude: AccountId) returns (held: bool)
      requires id in profileAdoptions.current
      ensures held == (id !in localProfiles && id in ReservedIds(View(), exclude))
    {
      if id in localProfiles || id == exclude || id in accounts || id in pending || id in stopping {
        return false;
      }
      var profile, active := ActiveProfile(id);
      held := profile.None? || profile.value.state != Active || active;
    }

    /** The first counting loop: settings-only bindings. */
    method LocalSlots(exclude: AccountId) returns (count: nat)
      ensures Counted(ReservedIds(View(), exclude), localProfiles.Keys, {}, count)
    {
      var rest := localProfiles.Keys;
      count := 0;
      NoneCounted(ReservedIds(View(), exclude), rest);
      while rest != {}
        invariant Counted(ReservedIds(View(), exclude), localProfiles.Keys, rest, count)
      {
        var id :| id in rest;
        OneCounted(ReservedIds(View(), exclude), localProfiles.Keys, rest, id, count);
        var held := HoldsLocalSlot(id, exclude);
        count := if held then count + 1 else count;
        rest := rest - {id};
      }
    }

    /** The second counting loop: archive imports without a settings-only binding. */
    method ImportSlots(exclude: AccountId) returns (count: nat)
      ensures Counted(ReservedIds(View(), exclude) - localProfiles.Keys, profileAdoptions.current.Keys, {}, count)
    {
      var rest := profileAdoptions.current.Keys;
      count := 0;
      NoneCounted(ReservedIds(View(), exclude) - localProfiles.Keys, rest);
      while rest != {}
        invariant Counted(ReservedIds(View(), exclude) - localProfiles.Keys, profileAdoptions.current.Keys, rest, count)
      {
        var id :| id in rest;
        OneCounted(ReservedIds(View(), exclude) - localProfiles.Keys, profileAdoptions.current.Keys, rest, id, count);
        var held := HoldsImportSlot(id, exclude);
        count := if held then count + 1 else count;
        rest := rest - {id};
      }
    }

    method ReservedProfileSlots(exclude: AccountId) returns (count: nat)
      ensures count == |ReservedIds(View(), exclude)|
    {
      var locals := LocalSlots(exclude);
      var imports := ImportSlots(exclude);
      count := locals + imports;
      BothCounted(View(), exclude, locals, imports);
    }

    method HasRoomFor(id: AccountId) returns (room: bool)
      ensures room == HasCapacity(View(), id)
    {
      if maxAccounts == 0 {
        return true;
      }
      var reserved := ReservedProfileSlots(id);
      room := |accounts| + |pending| + |stopping| + reserved < maxAccounts;
    }

    method AccountDataDir(id: AccountId) returns (directory: Path)
      ensures directory == AccountDirectory(View(), id)
    {
      var profile, active := ActiveProfile(id);
      if id in localProfiles {
        directory := localProfiles[id].directory;
      } else if profile.Some? {
        directory := profile.value.directory;
      } else if id in playerBindings && playerBindings[id] != "" {
        directory := PlayerDirectory(playerBindings[id]);
      } else {
        directory := StagingDirectory(id);
      }
    }

    method SourceProfileFenced(id: AccountId, directory: Path) returns (fenced: bool)
      ensures fenced == ProfileFenced(View(), id, directory)
    {
      if id in localProfiles {
        var binding, activeLocal := ActiveLocalProfile(id);
        return !activeLocal || directory != binding.value.directory;
      }
      var found := AnyLocalRelated(localProfiles, directory);
      if found { return true; }
      var profile, active := ActiveProfile(id);
      if profile.Some? && (!active || directory != profile.value.directory) {
        return true;
      }
      found := AnyRetiredRelated(profileAdoptions.retired, directory);
      if found { return true; }
      found := AnyGenerationRelated(profileAdoptions.operations, directory, if active then profile else None);
      if found { return true; }
      fenced := AnyFenceRelated(sourceFences, id, active, directory);
    }

    method ValidateAdoptedAssignment(id: AccountId, assignment: Option<Assignment>, readable: bool) returns (accepted: bool)
      ensures accepted == AssignmentAccepted(View(), id, assignment, readable)
    {
      if id in localProfiles {
        var binding, activeLocal := ActiveLocalProfile(id);
        if !activeLocal || assignment.None? || assignment.value.runtimeId != id
           || assignment.value.placementEpoch != binding.value.targetEpoch
           || assignment.value.tenantId != binding.value.identity.tenantId
           || assignment.value.revision < binding.value.identity.configurationRevision
           || (assignment.value.revision == binding.value.identity.configurationRevision
               && assignment.value.digest != binding.value.identity.configurationDigest) {
          return false;
        }
        return readable && profileId(binding.value.directory) == binding.value.profileId;
      }
      var profile, active := ActiveProfile(id);
      if profile.None? {
        return true;
      }
      var identity := profile.value.receipt.identity;
      accepted := active && assignment.Some? && assignment.value.runtimeId == id
                  && assignment.value.tenantId == identity.tenantId
                  && assignment.value.placementEpoch == profile.value.targetEpoch
                  && assignment.value.revision >= identity.configurationRevision
                  && (assignment.value.revision != identity.configurationRevision
                      || assignment.value.digest == identity.configurationDigest);
    }

    // ---- accounts

    /** The checks under the lock, on the directory that was looked up before it. */
    method MayAdd(id: AccountId, directory: Path, assignment: Option<Assignment>, readable: bool) returns (may: bool)
      ensures may == CanAdd(View(), id, directory, assignment, readable)
    {
      if !CanonicalId(id) { return false; }
      var accepted := ValidateAdoptedAssignment(id, assignment, readable);
      if !accepted { return false; }
      var fenced := SourceProfileFenced(id, directory);
      if fenced { return false; }
      var profile, active := ActiveProfile(id);
      if profile.Some? && !(readable && profileId(directory) == profile.value.receipt.profileId) { return false; }
      if closed || id in accounts || id in stopping || id in pending { return false; }
      var room := HasRoomFor(id);
      if !room { return false; }
      may := directory !in dataDirs;
    }

    /** AddAccount from taking the lock until the application is constructed. */
    method BeginAddAccount(id: AccountId, directory: Path, assignment: Option<Assignment>, readable: bool)
      returns (started: bool)
      modifies this`pending, this`dataDirs
      ensures started == CanAdd(old(View()), id, directory, assignment, readable)
      ensures View() == BeginAdd(old(View()), id, directory, assignment, readable)
    {
      started := MayAdd(id, directory, assignment, readable);
      if started {
        pending := pending[id := directory];
        dataDirs := dataDirs[directory := id];
      }
    }

    /** AddAccount after construction. A supervisor that closed meanwhile keeps nothing. */
    method FinishAddAccount(id: AccountId, application: nat, constructed: bool) returns (registered: bool)
      requires id in pending
      modifies this`pending, this`dataDirs, this`accounts
      ensures registered == (constructed && !closed)
      ensures View() == FinishAdd(old(View()), id, application, constructed)
    {
      var directory := pending[id];
      pending := pending - {id};
      if !constructed || closed {
        dataDirs := dataDirs - {directory};
        return false;
      }
      accounts := accounts[id := Runtime(application, directory, false)];
      registered := true;
    }

    method ClaimStopWatcher(id: AccountId, application: nat) returns (watch: bool)
      modifies this`stopping
      ensures watch == CanWatch(old(View()), id, application)
      ensures View() == WatchStop(old(View()), id, application)
    {
      watch := id in stopping && stopping[id].application == application && !stopping[id].watched;
      if watch {
        stopping := stopping[id := stopping[id].(watched := true)];
      }
    }

    /** Called once the application's Wait has returned. */
    method ReleaseStoppedAccount(id: AccountId, application: nat)
      requires application in finished
      modifies this`stopping, this`dataDirs
      ensures View() == Release(old(View()), id, application)
    {
      if id !in stopping || stopping[id].application != application {
        return;
      }
      var directory := stopping[id].directory;
      stopping := stopping - {id};
      if directory in dataDirs && dataDirs[directory] == id {
        dataDirs := dataDirs - {directory};
      }
    }

    method RemoveAccount(id: AccountId, stopped: bool, waited: bool) returns (removed: bool)
      modifies this`accounts, this`stopping, this`dataDirs, this`finished
      ensures (View(), removed) == Remove(old(View()), id, stopped, waited)
    {
      var newlyStopping := id in accounts;
      if newlyStopping {
        stopping := stopping[id := accounts[id]];
        accounts := accounts - {id};
      } else if id !in stopping {
        return false;
      }
      var application := stopping[id].application;
      if waited {
        finished := finished + {application};
        ReleaseStoppedAccount(id, application);
        removed := newlyStopping ==> stopped;
      } else {
        var watch := ClaimStopWatcher(id, application);
        removed := false;
      }
    }

    // ---- source handover

    /** The fence is kept in memory whatever happens to the file. */
    method SaveSourceFence(id: AccountId, fence: Fence, outcome: WriteOutcome) returns (saved: bool)
      modifies this`sourceFences, this`fenceDisk
      ensures (View(), saved) == SaveFence(old(View()), id, fence, outcome)
    {
      if !ValidFence(id, fence) {
        return false;
      }
      sourceFences := sourceFences[id := fence];
      fenceDisk := Write(fenceDisk, sourceFences, outcome);
      saved := outcome.Synced?;
    }

    /** Everything a stop request checks before it may publish a fence. */
    method FenceToPublish(identity: Identity, archive: bool, ready: bool, settled: bool) returns (fence: Option<Fence>)
      ensures fence == FenceToSave(View(), identity, archive, ready, settled)
    {
      var id := identity.runtimeId;
      if closed { return None; }
      var imported, activeImport := ActiveProfile(id);
      var local, activeLocal := ActiveLocalProfile(id);
      if archive && local.Some? { return None; }
      var localOwns := activeLocal && local.value.targetEpoch == identity.sourceEpoch
                       && SameOwner(local.value.identity, identity);
      var importOwns := activeImport && imported.value.targetEpoch == identity.sourceEpoch
                        && SameOwner(imported.value.receipt.identity, identity);
      if activeLocal && !localOwns { return None; }
      if local.None? && activeImport && !importOwns { return None; }
      if id in sourceFences && sourceFences[id].identity != identity && !localOwns && !importOwns { return None; }
      if id in sourceFences && sourceFences[id].identity == identity {
        return Some(sourceFences[id]);
      }
      if id !in runtimes || id !in accounts || identity.sourceCellId != cellId { return None; }
      var assignment := runtimes[id];
      if assignment.tenantId != identity.tenantId || assignment.placementEpoch != identity.sourceEpoch
         || assignment.revision != identity.configurationRevision || assignment.digest != identity.configurationDigest
         || !ready || !settled {
        return None;
      }
      fence := Some(Fence(identity, accounts[id].directory, "", false));
    }

    /** The directory is free and still holds the identity it had: publish the stop. */
    method ConfirmSourceStopped(identity: Identity, readable: bool, settled: bool, outcome: WriteOutcome)
      returns (receipt: Option<Fence>)
      requires identity.runtimeId in sourceFences && sourceFences[identity.runtimeId].identity == identity
      requires fenceDisk.possible == {sourceFences}
      modifies this`sourceFences, this`fenceDisk
      ensures (View(), receipt) == ConfirmStopped(old(View()), identity, readable, settled, outcome)
    {
      var fence := sourceFences[identity.runtimeId];
      if fence.directory in dataDirs { return None; }
      var found := profileId(fence.directory);
      if !readable || found == "" || (fence.stopped && found != fence.profileId) || !settled { return None; }
      fence := fence.(stopped := true, profileId := found);
      var saved := SaveSourceFence(identity.runtimeId, fence, outcome);
      receipt := if saved then Some(fence) else None;
    }

    method PublishFence(identity: Identity, archive: bool, ready: bool, settled: bool, outcome: WriteOutcome)
      returns (published: bool)
      modifies this`sourceFences, this`fenceDisk
      ensures (View(), published) == FenceSource(old(View()), identity, archive, ready, settled, outcome)
      ensures published ==>
                && identity.runtimeId in sourceFences && sourceFences[identity.runtimeId].identity == identity
                && fenceDisk.possible == {sourceFences}
    {
      var fence := FenceToPublish(identity, archive, ready, settled);
      if fence.None? { return false; }
      published := SaveSourceFence(identity.runtimeId, fence.value, outcome);
    }

    method StopAndConfirmSource(identity: Identity, stopped: bool, waited: bool, readable: bool, settled: bool,
                                outcome: WriteOutcome)
      returns (receipt: Option<Fence>)
      requires identity.runtimeId in sourceFences && sourceFences[identity.runtimeId].identity == identity
      requires fenceDisk.possible == {sourceFences}
      modifies this`sourceFences, this`fenceDisk, this`accounts, this`stopping, this`dataDirs, this`finished
      ensures (View(), receipt) == StopAndConfirm(old(View()), identity, stopped, waited, readable, settled, outcome)
    {
      if identity.runtimeId in accounts || identity.runtimeId in stopping {
        var removed := RemoveAccount(identity.runtimeId, stopped, waited);
        if !removed { return None; }
      }
      receipt := ConfirmSourceStopped(identity, readable, settled, outcome);
    }

    method PrepareSourceHandover(identity: Identity, archive: bool, ready: bool, settled: bool, first: WriteOutcome,
                                 stopped: bool, waited: bool, readable: bool, flushed: bool, second: WriteOutcome)
      returns (receipt: Option<Fence>)
      modifies this`sourceFences, this`fenceDisk, this`accounts, this`stopping, this`dataDirs, this`finished
      ensures (View(), receipt)
              == PrepareSource(old(View()), identity, archive, ready, settled, first, stopped, waited, readable, flushed, second)
    {
      var published := PublishFence(identity, archive, ready, settled, first);
      if !published { return None; }
      receipt := StopAndConfirmSource(identity, stopped, waited, readable, archive || flushed, second);
    }

    // ---- target handover

    /** The inner scans of a reservation for one directory. */
    method MayUseDirectory(id: AccountId, directory: Path, target: Path, files: FileView) returns (may: bool)
      ensures may == DirectoryReservable(View(), id, directory, target, files)
    {
      var live := AnyRetiredRelated(dataDirs, directory);
      if live { return false; }
      var rest := profileAdoptions.operations.Keys;
      while rest != {}
        invariant rest <= profileAdoptions.operations.Keys
        invariant forall operation :: operation in profileAdoptions.operations.Keys - rest ==>
                    profileAdoptions.operations[operation].directory == directory ==>
                      profileAdoptions.operations[operation].Owner() == id
      {
        var operation :| operation in rest;
        var imported := profileAdoptions.operations[operation];
        if imported.directory == directory && imported.Owner() != id { return false; }
        rest := rest - {operation};
      }
      if directory in profileAdoptions.retired && profileAdoptions.retired[directory] != id { return false; }
      may := directory == target || (files.readable && (directory !in files.existing || id in sourceFences));
    }

    method OldPlaces(id: AccountId) returns (places: set<Path>)
      ensures places == OldDirectories(View(), id)
    {
      var current, active := ActiveProfile(id);
      places := {StagingDirectory(id)};
      if id in playerBindings && playerBindings[id] != "" { places := places + {PlayerDirectory(playerBindings[id])}; }
      if current.Some? { places := places + {current.value.directory}; }
      if id in sourceFences { places := places + {sourceFences[id].directory}; }
    }

    /** The reservation's outer loop: every old directory and the new one are checked, and
        the old ones are retired in a copy of the document. */
    method RetireOldDirectories(places: set<Path>, profile: TargetProfile, files: FileView)
      returns (document: Option<map<Path, AccountId>>)
      ensures document == if AllReservable(View(), places + {profile.directory}, profile, files)
                          then Some(View().adoptions.retired + RetireAll(places - {profile.directory}, profile.Owner()))
                          else None
    {
      var rest := places + {profile.directory};
      var retired := profileAdoptions.retired;
      while rest != {}
        invariant rest <= places + {profile.directory}
        invariant AllReservable(View(), places + {profile.directory} - rest, profile, files)
        invariant retired == profileAdoptions.retired + RetireAll(places - {profile.directory} - rest, profile.Owner())
      {
        var directory :| directory in rest;
        var may := MayUseDirectory(profile.Owner(), directory, profile.directory, files);
        if !may { return None; }
        OneRetired(profileAdoptions.retired, places - {profile.directory}, rest, directory, profile.Owner());
        rest := rest - {directory};
        if directory != profile.directory {
          retired := retired[directory := profile.Owner()];
        }
      }
      assert places - {profile.directory} - rest == places - {profile.directory};
      document := Some(retired);
    }

    method MayReserve(profile: TargetProfile, files: FileView) returns (places: set<Path>, may: bool)
      ensures places == OldDirectories(View(), profile.Owner())
      ensures may == (var c := View();
                      var id := profile.Owner();
                      && id !in c.locals && !c.closed && !IsLive(c, id) && HasCapacity(c, id)
                      && ContinuesImport(c, id, profile) && ContinuesFence(c, id, profile)
                      && profile.directory !in files.existing)
    {
      var id := profile.Owner();
      var identity := profile.receipt.identity;
      places := OldPlaces(id);
      if id in localProfiles || closed || id in accounts || id in pending || id in stopping { return places, false; }
      var room := HasRoomFor(id);
      if !room { return places, false; }
      var previous, active := ActiveProfile(id);
      if previous.Some? {
        if id !in sourceFences { return places, false; }
        var fence := sourceFences[id];
        if !fence.stopped || fence.Epoch() < previous.value.targetEpoch || identity.sourceEpoch <= fence.Epoch()
           || previous.value.state != Active || !SameOwner(previous.value.receipt.identity, identity) {
          return places, false;
        }
      }
      if id in sourceFences {
        var fence := sourceFences[id];
        if !fence.stopped || identity.sourceEpoch <= fence.Epoch() || !SameOwner(fence.identity, identity)
           || fence.profileId != profile.receipt.profileId {
          return places, false;
        }
      }
      may := profile.directory !in files.existing;
    }

    /** The reservation is published in memory before it is saved. */
    method ReserveTargetProfile(profile: TargetProfile, files: FileView) returns (reserved: bool)
      requires profile.state == Reserved && profile.targetCellId == cellId && ValidTarget(profile)
      requires profile.Operation() !in profileAdoptions.operations
      modifies this`profileAdoptions
      ensures (View(), reserved) == Reserve(old(View()), profile, files)
    {
      var places, may := MayReserve(profile, files);
      if !may { return false; }
      var document := RetireOldDirectories(places, profile, files);
      if document.None? { return false; }
      profileAdoptions := Adoptions(
        profileAdoptions.operations[profile.Operation() := profile],
        profileAdoptions.current[profile.Owner() := profile.Operation()],
        document.value);
      reserved := true;
    }

    method SaveProfileAdoptions(document: Adoptions, outcome: WriteOutcome) returns (saved: bool)
      modifies this`adoptionDisk
      ensures saved == outcome.Synced? && adoptionDisk == Write(old(adoptionDisk), document, outcome)
    {
      adoptionDisk := Write(adoptionDisk, document, outcome);
      saved := outcome.Synced?;
    }

    /** A state is adopted in memory only after its document is durable. */
    method SaveProfileState(profile: TargetProfile, state: AdoptionState, outcome: WriteOutcome) returns (saved: bool)
      modifies this`adoptionDisk, this`profileAdoptions
      ensures (View(), saved) == SaveState(old(View()), profile, state, outcome)
    {
      var document := profileAdoptions.(operations := profileAdoptions.operations[profile.Operation() := profile.(state := state)]);
      saved := SaveProfileAdoptions(document, outcome);
      if saved {
        profileAdoptions := document;
      }
    }

    /** The second half of a restore: persist, install, re-hash, publish "restored". */
    method DeliverArchive(id: AccountId, first: WriteOutcome, intact: bool, second: WriteOutcome)
      returns (restored: Option<TargetProfile>)
      requires Keyed(profileAdoptions) && CurrentProfile(profileAdoptions, id).Some?
      requires CurrentProfile(profileAdoptions, id).value.state != Active
      modifies this`adoptionDisk, this`profileAdoptions
      ensures (View(), restored) == DeliverRestore(old(View()), id, first, intact, second)
    {
      var saved := SaveProfileAdoptions(profileAdoptions, first);
      if !saved || !intact { return None; }
      var profile, active := ActiveProfile(id);
      CurrentIsKeyed(profileAdoptions, id);
      saved := SaveProfileState(profile.value, Restored, second);
      restored := if saved then Some(profile.value.(state := Restored)) else None;
    }

    method RestoreTargetProfile(receipt: Receipt, targetEpoch: nat, proved: bool, files: FileView, first: WriteOutcome,
                                intact: bool, second: WriteOutcome)
      returns (restored: Option<TargetProfile>)
      requires Keyed(profileAdoptions)
      modifies this`adoptionDisk, this`profileAdoptions
      ensures (View(), restored) == Restore(old(View()), receipt, targetEpoch, proved, files, first, intact, second)
    {
      var id := receipt.identity.runtimeId;
      var operation := receipt.identity.operationId;
      var profile := TargetProfile(receipt, cellId, targetEpoch, TransferDirectory(operation), Reserved);
      if !ValidTarget(profile) || !proved || closed { return None; }
      if operation in profileAdoptions.operations {
        var previous := profileAdoptions.operations[operation];
        if previous.receipt != receipt || previous.targetEpoch != targetEpoch || previous.targetCellId != cellId
           || CurrentOperation(profileAdoptions, id) != operation {
          return None;
        }
        if previous.state == Active {
          var current, active := ActiveProfile(id);
          return if active then Some(previous) else None;
        }
      } else {
        var reserved := ReserveTargetProfile(profile, files);
        if !reserved { return None; }
        NewestIsCurrent(old(View()), profile, files);
      }
      restored := DeliverArchive(id, first, intact, second);
    }

    method ActivateTargetProfile(expected: TargetProfile, intact: bool, outcome: WriteOutcome)
      returns (activated: Option<TargetProfile>)
      modifies this`adoptionDisk, this`profileAdoptions, this`runtimes
      ensures (View(), activated) == Activate(old(View()), expected, intact, outcome)
    {
      var id := expected.Owner();
      if !ValidTarget(expected) || closed { return None; }
      var current, active := ActiveProfile(id);
      if current.None? || current.value.receipt != expected.receipt || current.value.targetEpoch != expected.targetEpoch
         || current.value.targetCellId != cellId || expected.targetCellId != cellId || current.value.state == Reserved {
        return None;
      }
      var fenced := RuntimeHandoverFenced(id);
      if fenced && current.value.state == Active { return None; }
      var alreadyActive := current.value.state == Active;
      if !alreadyActive && !intact { return None; }
      var saved := SaveProfileState(current.value, Active, outcome);
      if !saved { return None; }
      if !alreadyActive {
        runtimes := runtimes - {id};
      }
      activated := Some(current.value.(state := Active));
    }

    // ---- settings-only bindings

    method SaveLocalProfileBinding(id: AccountId, binding: LocalBinding, outcome: WriteOutcome)
      returns (saved: Option<LocalBinding>)
      modifies this`localProfiles, this`localDisk
      ensures (View(), saved) == SaveLocal(old(View()), id, binding, outcome)
    {
      if !ValidLocal(binding) || binding.identity.runtimeId != id { return None; }
      localProfiles := localProfiles[id := binding];
      localDisk := Write(localDisk, localProfiles, outcome);
      saved := if outcome.Synced? then Some(binding) else None;
    }

    /** The checks on what this runtime did here before. */
    method PreviousHasStopped(identity: Identity) returns (stopped: bool)
      ensures stopped == PreviousAllowsLocal(View(), identity)
    {
      var id := identity.runtimeId;
      var fenceStopped := id in sourceFences && sourceFences[id].stopped;
      var fenceEpoch := if id in sourceFences then sourceFences[id].Epoch() else 0;
      if id in localProfiles {
        var current := localProfiles[id];
        if !SameOwner(current.identity, identity) || current.targetEpoch >= identity.sourceEpoch
           || current.state != LocalActive || !fenceStopped || fenceEpoch < current.targetEpoch {
          return false;
        }
      }
      var imported, active := ActiveProfile(id);
      if imported.Some? {
        var profile := imported.value;
        if !SameOwner(profile.receipt.identity, identity) || profile.targetEpoch >= identity.sourceEpoch
           || profile.state != Active || !fenceStopped || fenceEpoch < profile.targetEpoch {
          return false;
        }
      }
      stopped := id in sourceFences ==>
        fenceStopped && fenceEpoch < identity.sourceEpoch && SameOwner(sourceFences[id].identity, identity);
    }

    method LocalDirectoryFree(id: AccountId, directory: Path) returns (free: bool)
      ensures free == LocalPlaceFree(View(), id, directory)
    {
      var used := AnyRetiredRelated(dataDirs, directory);
      if used { return false; }
      var rest := localProfiles.Keys;
      while rest != {}
        invariant rest <= localProfiles.Keys
        invariant forall owner :: owner in localProfiles.Keys - rest && owner != id ==> localProfiles[owner].directory != directory
      {
        var owner :| owner in rest;
        if owner != id && localProfiles[owner].directory == directory { return false; }
        rest := rest - {owner};
      }
      free := true;
    }

    /** A known profile must still be there under its own identity. */
    method KnownIdentityHolds(id: AccountId, directory: Path, readable: bool) returns (holds: bool)
      ensures holds == KnownIdentity(View(), id, directory, readable)
    {
      var imported, active := ActiveProfile(id);
      if id in localProfiles {
        holds := readable && profileId(directory) == localProfiles[id].profileId;
      } else if imported.Some? {
        holds := readable && profileId(directory) == imported.value.receipt.profileId;
      } else if id in sourceFences {
        holds := readable && profileId(directory) == sourceFences[id].profileId;
      } else {
        holds := !(id in playerBindings && playerBindings[id] != "") || readable;
      }
    }

    method PrepareLocalProfile(identity: Identity, readable: bool, leased: bool, outcome: WriteOutcome)
      returns (prepared: Option<LocalBinding>)
      modifies this`localProfiles, this`localDisk
      ensures (View(), prepared) == ReserveLocal(old(View()), identity, readable, leased, outcome)
    {
      var id := identity.runtimeId;
      if identity.sourceCellId == cellId || !ValidFence(id, Fence(identity, StagingDirectory(id), "", false)) { return None; }
      var directory := AccountDataDir(id);
      if closed { return None; }
      if id in localProfiles && localProfiles[id].identity == identity && localProfiles[id].targetCellId == cellId {
        if localProfiles[id].state != LocalReserved { return None; }
        prepared := SaveLocalProfileBinding(id, localProfiles[id], outcome);
        return;
      }
      var stopped := PreviousHasStopped(identity);
      if !stopped || id in accounts || id in pending || id in stopping { return None; }
      var room := HasRoomFor(id);
      if !room { return None; }
      var free := LocalDirectoryFree(id, directory);
      if !free { return None; }
      var known := KnownIdentityHolds(id, directory, readable);
      if !known || !leased { return None; }
      prepared := SaveLocalProfileBinding(
        id, LocalBinding(identity, cellId, identity.sourceEpoch + 1, directory, profileId(directory), LocalReserved), outcome);
    }

    method ActivateLocalProfile(expected: LocalBinding, readable: bool, outcome: WriteOutcome)
      returns (activated: Option<LocalBinding>)
      modifies this`localProfiles, this`localDisk
      ensures (View(), activated) == ActivateLocal(old(View()), expected, readable, outcome)
    {
      var id := expected.identity.runtimeId;
      if !ValidLocal(expected) || expected.targetCellId != cellId || expected.state != LocalReserved { return None; }
      if closed || id !in localProfiles || localProfiles[id].(state := LocalReserved) != expected { return None; }
      if id in sourceFences && sourceFences[id].Epoch() >= expected.targetEpoch { return None; }
      var current := localProfiles[id];
      if !readable || profileId(current.directory) != current.profileId { return None; }
      activated := SaveLocalProfileBinding(id, current.(state := LocalActive), outcome);
    }

    // ---- player rebind

    /** The middle of a rebind: the runtime has stopped and its files have moved. */
    method BindToPlayer(id: AccountId, key: string) returns (bound: bool)
      modifies this`playerBindings
      ensures bound == CanBind(old(View()), id, key)
      ensures View() == BindPlayer(old(View()), id, key)
    {
      if !ValidComponent(key) || id in playerBindings || id in localProfiles { return false; }
      var profile, active := ActiveProfile(id);
      if profile.Some? { return false; }
      var fencedPlayer := SourceProfileFenced(id, PlayerDirectory(key));
      if fencedPlayer { return false; }
      var fencedStaging := SourceProfileFenced(id, StagingDirectory(id));
      if fencedStaging { return false; }
      playerBindings := playerBindings[id := key];
      bound := true;
    }
  }

  /** After a reservation the new operation is the current, reserved one. */
  lemma NewestIsCurrent(c: Cell, profile: TargetProfile, files: FileView)
    requires Keyed(c.adoptions) && Reserve(c, profile, files).1
    ensures Keyed(Reserve(c, profile, files).0.adoptions)
    ensures CurrentProfile(Reserve(c, profile, files).0.adoptions, profile.Owner()) == Some(profile)
    ensures profile.state == Reserved
  {
  }

  ghost predicate AllReservable(c: Cell, directories: set<Path>, profile: TargetProfile, files: FileView) {
    forall directory :: directory in directories ==>
      DirectoryReservable(c, profile.Owner(), directory, profile.directory, files)
  }

  lemma OneRetired(retired: map<Path, AccountId>, all: set<Path>, rest: set<Path>, directory: Path, id: AccountId)
    requires directory in rest
    ensures retired + RetireAll(all - (rest - {directory}), id)
            == if directory in all then (retired + RetireAll(all - rest, id))[directory := id] else retired + RetireAll(all - rest, id)
  {
  }

  /** The count so far covers the slots among the keys that were taken out of the rest. */
  ghost predicate Counted(slots: set<AccountId>, keys: set<AccountId>, rest: set<AccountId>, count: nat) {
    rest <= keys && count == |slots * (keys - rest)|
  }

  lemma NoneCounted(slots: set<AccountId>, keys: set<AccountId>)
    ensures Counted(slots, keys, keys, 0)
  {
  }

  lemma OneCounted(slots: set<AccountId>, keys: set<AccountId>, rest: set<AccountId>, id: AccountId, count: nat)
    requires Counted(slots, keys, rest, count) && id in rest
    ensures id in keys && Counted(slots, keys, rest - {id}, if id in slots then count + 1 else count)
  {
    var seen := slots * (keys - rest);
    assert slots * (keys - (rest - {id})) == if id in slots then seen + {id} else seen;
  }

  lemma SplitCount(slots: set<AccountId>, locals: set<AccountId>, imports: set<AccountId>)
    requires slots - locals <= imports
    ensures |slots * (locals - {})| + |(slots - locals) * (imports - {})| == |slots|
  {
    Capacity.DisjointUnion(slots * locals, slots - locals);
    assert slots * locals + (slots - locals) == slots;
    assert slots * (locals - {}) == slots * locals && (slots - locals) * (imports - {}) == slots - locals;
  }

  lemma ReservedAreKeyed(c: Cell, exclude: AccountId)
    ensures ReservedIds(c, exclude) - c.locals.Keys <= c.adoptions.current.Keys
  {
  }

  lemma BothCounted(c: Cell, exclude: AccountId, locals: nat, imports: nat)
    requires Counted(ReservedIds(c, exclude), c.locals.Keys, {}, locals)
    requires Counted(ReservedIds(c, exclude) - c.locals.Keys, c.adoptions.current.Keys, {}, imports)
    ensures locals + imports == |ReservedIds(c, exclude)|
  {
    ReservedAreKeyed(c, exclude);
    SplitCount(ReservedIds(c, exclude), c.locals.Keys, c.adoptions.current.Keys);
  }

  // ---- the scans of the fence check, each an early-exit loop

  method AnyLocalRelated(locals: Locals, directory: Path) returns (found: bool)
    ensures found <==> exists owner :: owner in locals && Related(locals[owner].directory, directory)
  {
    var rest := locals.Keys;
    while rest != {}
      invariant rest <= locals.Keys
      invariant forall owner :: owner in locals.Keys - rest ==> !Related(locals[owner].directory, directory)
    {
      var owner :| owner in rest;
      if PathWithin(locals[owner].directory, directory) || PathWithin(directory, locals[owner].directory) {
        return true;
      }
      rest := rest - {owner};
    }
    found := false;
  }

  method AnyRetiredRelated(retired: map<Path, AccountId>, directory: Path) returns (found: bool)
    ensures found <==> exists path :: path in retired && Related(path, directory)
  {
    var rest := retired.Keys;
    while rest != {}
      invariant rest <= retired.Keys
      invariant forall path :: path in retired.Keys - rest ==> !Related(path, directory)
    {
      var path :| path in rest;
      if PathWithin(path, directory) || PathWithin(directory, path) {
        return true;
      }
      rest := rest - {path};
    }
    found := false;
  }

  method AnyGenerationRelated(operations: map<string, TargetProfile>, directory: Path, own: Option<TargetProfile>)
    returns (found: bool)
    ensures found <==> exists operation :: operation in operations && Related(operations[operation].directory, directory)
                         && !(own == Some(operations[operation]) && directory == operations[operation].directory)
  {
    var rest := operations.Keys;
    while rest != {}
      invariant rest <= operations.Keys
      invariant forall operation :: operation in operations.Keys - rest ==>
                  !(Related(operations[operation].directory, directory)
                    && !(own == Some(operations[operation]) && directory == operations[operation].directory))
    {
      var operation :| operation in rest;
      var profile := operations[operation];
      if (PathWithin(profile.directory, directory) || PathWithin(directory, profile.directory))
         && (own != Some(profile) || directory != profile.directory) {
        return true;
      }
      rest := rest - {operation};
    }
    found := false;
  }

  method AnyFenceRelated(fences: Fences, id: AccountId, active: bool, directory: Path) returns (found: bool)
    ensures found <==> exists owner :: owner in fences
                         && ((owner == id && !active) || Related(fences[owner].directory, directory))
  {
    var rest := fences.Keys;
    while rest != {}
      invariant rest <= fences.Keys
      invariant forall owner :: owner in fences.Keys - rest ==>
                  !((owner == id && !active) || Related(fences[owner].directory, directory))
    {
      var owner :| owner in rest;
      var path := fences[owner].directory;
      if (owner == id && !active) || PathWithin(path, directory) || PathWithin(directory, path) {
        return true;
      }
      rest := rest - {owner};
    }
    found := false;
  }
}
