/** Whole handover requests, as the control plane sends them. */
module Requests {
  import opened Journals
  import opened HandoverTypes
  import opened CellSpec
  import opened RuntimeSlice
  import opened CellProjection
  import opened CellInvariant
  import opened Acknowledgement
  import opened EpochChain
  import opened ActivationOnDisk

  lemma FenceKeepsInv(c: Cell, identity: Identity, archive: bool, ready: bool, settled: bool, outcome: WriteOutcome)
    requires CellInv(c)
    ensures CellInv(FenceSource(c, identity, archive, ready, settled, outcome).0)
  {
    StepReaches(c, OnSource(StepFence(identity, archive, ready, settled, outcome)),
                FenceSource(c, identity, archive, ready, settled, outcome).0);
  }

  lemma StopKeepsInv(c: Cell, id: AccountId, application: nat)
    requires CellInv(c)
    ensures CellInv(BeginStop(c, id)) && CellInv(WatchStop(c, id, application))
  {
    StepReaches(c, OnAccounts(StepBeginStop(id)), BeginStop(c, id));
    StepReaches(c, OnAccounts(StepWatch(id, application)), WatchStop(c, id, application));
  }

  lemma ReleaseKeepsInv(c: Cell, id: AccountId, application: nat)
    requires CellInv(c)
    ensures CellInv(Release(Finish(c, application), id, application))
  {
    var finished := Finish(c, application);
    StepReaches(c, OnAccounts(StepFinish(application)), finished);
    StepReaches(finished, OnAccounts(StepRelease(id, application)), Release(finished, id, application));
  }

  lemma RemoveKeepsInv(c: Cell, id: AccountId, stopped: bool, waited: bool)
    requires CellInv(c)
    ensures CellInv(Remove(c, id, stopped, waited).0)
  {
    if id in c.accounts || id in c.stopping {
      var c1 := BeginStop(c, id);
      StopKeepsInv(c, id, 0);
      var application := c1.stopping[id].application;
      if waited {
        ReleaseKeepsInv(c1, id, application);
      } else {
        StopKeepsInv(c1, id, application);
      }
    }
  }

  lemma RemoveKeepsFences(c: Cell, id: AccountId, stopped: bool, waited: bool)
    ensures SameDocuments(c, Remove(c, id, stopped, waited).0)
  {
  }

  lemma StopAndConfirmSurvives(c: Cell, identity: Identity, stopped: bool, waited: bool, readable: bool, settled: bool,
                               outcome: WriteOutcome, steps: seq<Step>)
    requires CellInv(c) && StopAndConfirm(c, identity, stopped, waited, readable, settled, outcome).1.Some?
    ensures var (d, receipt) := StopAndConfirm(c, identity, stopped, waited, readable, settled, outcome);
            && receipt.value.identity == identity && receipt.value.stopped
            && FenceSurvives(RunSteps(d, steps), receipt.value)
  {
    var id := identity.runtimeId;
    if id in c.accounts || id in c.stopping {
      var removed := Remove(c, id, stopped, waited).0;
      RemoveKeepsInv(c, id, stopped, waited);
      StopReceiptSurvives(removed, identity, readable, settled, outcome, steps);
    } else {
      StopReceiptSurvives(c, identity, readable, settled, outcome, steps);
    }
  }

  /** A SourceStopped answer is backed by every later version of the fence journal. */
  lemma PrepareReceiptSurvives(c: Cell, identity: Identity, archive: bool, ready: bool, settled: bool, first: WriteOutcome,
                               stopped: bool, waited: bool, readable: bool, flushed: bool, second: WriteOutcome,
                               steps: seq<Step>)
    requires CellInv(c)
    requires PrepareSource(c, identity, archive, ready, settled, first, stopped, waited, readable, flushed, second).1.Some?
    ensures var (d, receipt) :=
              PrepareSource(c, identity, archive, ready, settled, first, stopped, waited, readable, flushed, second);
            && receipt.value.identity == identity && receipt.value.stopped
            && FenceSurvives(RunSteps(d, steps), receipt.value)
  {
    var fenced := FenceSource(c, identity, archive, ready, settled, first).0;
    FenceKeepsInv(c, identity, archive, ready, settled, first);
    StopAndConfirmSurvives(fenced, identity, stopped, waited, readable, archive || flushed, second, steps);
  }

  lemma PublishedFence(c: Cell, identity: Identity, archive: bool, ready: bool, settled: bool, outcome: WriteOutcome)
    requires FenceSource(c, identity, archive, ready, settled, outcome).1
    ensures var d := FenceSource(c, identity, archive, ready, settled, outcome).0;
            && identity.runtimeId in d.fences && d.fences[identity.runtimeId].identity == identity
            && d.adoptions == c.adoptions && d.locals == c.locals && FenceRequestOwned(c, identity, archive)
  {
  }

  lemma FencedAway(c: Cell, d: Cell, identity: Identity, archive: bool)
    requires CellInv(c) && FenceRequestOwned(c, identity, archive)
    requires identity.runtimeId in d.fences && d.fences[identity.runtimeId].identity == identity
    requires d.adoptions == c.adoptions && d.locals == c.locals
    ensures !HasActiveImport(d, identity.runtimeId) && !HasActiveLocal(d, identity.runtimeId)
  {
    var id := identity.runtimeId;
    if id in c.locals {
      LocalExcludesImport(c, id, c.fences, c.adoptions, c.locals);
    }
  }

  /** Once its fence is published the source owns neither an active import nor an active
      binding: either none existed, or the fence is at its own epoch. */
  lemma FencedOwnsNothing(c: Cell, identity: Identity, archive: bool, ready: bool, settled: bool, outcome: WriteOutcome)
    requires CellInv(c) && FenceSource(c, identity, archive, ready, settled, outcome).1
    ensures var d := FenceSource(c, identity, archive, ready, settled, outcome).0;
            !HasActiveImport(d, identity.runtimeId) && !HasActiveLocal(d, identity.runtimeId)
  {
    var d := FenceSource(c, identity, archive, ready, settled, outcome).0;
    PublishedFence(c, identity, archive, ready, settled, outcome);
    FencedAway(c, d, identity, archive);
  }

  /** Nothing in the journals lets the runtime run here. */
  predicate OwnsNothing(c: Cell, id: AccountId) {
    !HasActiveImport(c, id) && !HasActiveLocal(c, id)
  }

  lemma ConfirmedOwnsNothing(c: Cell, identity: Identity, readable: bool, settled: bool, outcome: WriteOutcome)
    requires OwnsNothing(c, identity.runtimeId)
    ensures OwnsNothing(ConfirmStopped(c, identity, readable, settled, outcome).0, identity.runtimeId)
  {
  }

  lemma ConfirmedIsNotLive(c: Cell, identity: Identity, readable: bool, settled: bool, outcome: WriteOutcome)
    requires CellInv(c) && OwnsNothing(c, identity.runtimeId)
    requires ConfirmStopped(c, identity, readable, settled, outcome).1.Some?
    ensures !IsLive(ConfirmStopped(c, identity, readable, settled, outcome).0, identity.runtimeId)
  {
    var d := ConfirmStopped(c, identity, readable, settled, outcome).0;
    ConfirmKeepsInv(c, identity, readable, settled, outcome);
    ConfirmedOwnsNothing(c, identity, readable, settled, outcome);
    assert identity.runtimeId in d.fences && d.fences[identity.runtimeId].stopped;
    StoppedIsNotLive(d, identity.runtimeId);
  }

  /** A SourceStopped answer also means that the runtime is in none of the account tables. */
  lemma PreparedIsNotLive(c: Cell, identity: Identity, archive: bool, ready: bool, settled: bool, first: WriteOutcome,
                          stopped: bool, waited: bool, readable: bool, flushed: bool, second: WriteOutcome)
    requires CellInv(c)
    requires PrepareSource(c, identity, archive, ready, settled, first, stopped, waited, readable, flushed, second).1.Some?
    ensures !IsLive(PrepareSource(c, identity, archive, ready, settled, first, stopped, waited, readable, flushed, second).0,
                    identity.runtimeId)
  {
    var id := identity.runtimeId;
    var fenced := FenceSource(c, identity, archive, ready, settled, first).0;
    FenceKeepsInv(c, identity, archive, ready, settled, first);
    FencedOwnsNothing(c, identity, archive, ready, settled, first);
    if id in fenced.accounts || id in fenced.stopping {
      var removed := Remove(fenced, id, stopped, waited).0;
      RemoveKeepsInv(fenced, id, stopped, waited);
      RemoveKeepsFences(fenced, id, stopped, waited);
      ConfirmedIsNotLive(removed, identity, readable, archive || flushed, second);
    } else {
      ConfirmedIsNotLive(fenced, identity, readable, archive || flushed, second);
    }
  }

  // ---- restore

  lemma ReserveKeepsInv(c: Cell, profile: TargetProfile, files: FileView)
    requires CellInv(c)
    ensures CellInv(Reserve(c, profile, files).0)
  {
    StepReaches(c, OnTarget(StepReserve(profile, files)), Reserve(c, profile, files).0);
  }

  lemma SaveKeepsInv(c: Cell, outcome: WriteOutcome)
    requires CellInv(c)
    ensures CellInv(SaveAdoptions(c, outcome).0)
  {
    StepReaches(c, OnTarget(StepSaveAdoptions(outcome)), SaveAdoptions(c, outcome).0);
  }

  lemma DeliverSurvives(c: Cell, id: AccountId, first: WriteOutcome, intact: bool, second: WriteOutcome, steps: seq<Step>)
    requires CellInv(c) && DeliverRestore(c, id, first, intact, second).1.Some?
    ensures var (d, profile) := DeliverRestore(c, id, first, intact, second);
            TargetSurvives(RunSteps(d, steps), profile.value)
  {
    var saved := SaveAdoptions(c, first).0;
    SaveKeepsInv(c, first);
    RestoreSurvives(saved, id, second, steps);
  }

  /** An active generation is a floor of its journal exactly when it is active on disk. */
  lemma ActiveIsFloor(c: Cell, id: AccountId, profile: TargetProfile)
    requires CurrentProfile(c.adoptions, id) == Some(profile) && profile.Owner() == id && profile.state == Active
    ensures TargetSurvives(c, profile) <==> ActiveIsDurable(Project(c, id))
  {
    TargetFloorMeans(c, profile);
  }

  /** The request repeats an operation whose generation is already active. */
  predicate RepeatsActive(c: Cell, receipt: Receipt) {
    var operation := receipt.identity.operationId;
    operation in c.adoptions.operations && c.adoptions.operations[operation].state == Active
  }

  lemma ActiveAnswer(c: Cell, receipt: Receipt, targetEpoch: nat, proved: bool, files: FileView,
                     first: WriteOutcome, intact: bool, second: WriteOutcome)
    requires CellInv(c) && RepeatsActive(c, receipt)
    requires Restore(c, receipt, targetEpoch, proved, files, first, intact, second).1.Some?
    ensures var (d, profile) := Restore(c, receipt, targetEpoch, proved, files, first, intact, second);
            && d == c && CurrentProfile(c.adoptions, receipt.identity.runtimeId) == Some(profile.value)
            && profile.value.Owner() == receipt.identity.runtimeId && profile.value.state == Active
  {
    InvKeyed(c);
    CurrentIsKeyed(c.adoptions, receipt.identity.runtimeId);
  }

  /** A generation survives every run exactly when all journal versions have reached it. */
  lemma SurvivesExactly(c: Cell, profile: TargetProfile)
    requires CellInv(c)
    ensures (forall steps :: TargetSurvives(RunSteps(c, steps), profile)) <==> TargetSurvives(c, profile)
  {
    if TargetSurvives(c, profile) {
      forall steps ensures TargetSurvives(RunSteps(c, steps), profile) {
        SavedTargetSurvives(c, profile, steps);
      }
    } else {
      var none: seq<Step> := [];
      assert !TargetSurvives(RunSteps(c, none), profile);
    }
  }

  /** The answer to a repeated request for an active generation writes nothing, so what it
      acknowledges is lost by some crash exactly when the activation is not on disk. */
  lemma RepeatedRestoreSurvives(c: Cell, receipt: Receipt, targetEpoch: nat, proved: bool, files: FileView,
                                first: WriteOutcome, intact: bool, second: WriteOutcome)
    requires CellInv(c) && RepeatsActive(c, receipt)
    requires Restore(c, receipt, targetEpoch, proved, files, first, intact, second).1.Some?
    ensures var (d, profile) := Restore(c, receipt, targetEpoch, proved, files, first, intact, second);
            (forall steps :: TargetSurvives(RunSteps(d, steps), profile.value))
            <==> ActiveIsDurable(Project(c, receipt.identity.runtimeId))
  {
    var profile := Restore(c, receipt, targetEpoch, proved, files, first, intact, second).1.value;
    ActiveAnswer(c, receipt, targetEpoch, proved, files, first, intact, second);
    ActiveIsFloor(c, receipt.identity.runtimeId, profile);
    SurvivesExactly(c, profile);
  }

  /** Every other acknowledged restore survives whatever follows. */
  lemma RestoreReceiptSurvives(c: Cell, receipt: Receipt, targetEpoch: nat, proved: bool, files: FileView,
                               first: WriteOutcome, intact: bool, second: WriteOutcome, steps: seq<Step>)
    requires CellInv(c) && !RepeatsActive(c, receipt)
    requires Restore(c, receipt, targetEpoch, proved, files, first, intact, second).1.Some?
    ensures var (d, profile) := Restore(c, receipt, targetEpoch, proved, files, first, intact, second);
            TargetSurvives(RunSteps(d, steps), profile.value)
  {
    var id, operation := receipt.identity.runtimeId, receipt.identity.operationId;
    if operation in c.adoptions.operations {
      DeliverSurvives(c, id, first, intact, second, steps);
    } else {
      var profile := TargetProfile(receipt, c.cellId, targetEpoch, TransferDirectory(operation), Reserved);
      var reserved := Reserve(c, profile, files).0;
      ReserveKeepsInv(c, profile, files);
      DeliverSurvives(reserved, id, first, intact, second, steps);
    }
  }

  // ---- a repeated answer that is lost

  /** Power fails after the repeated request was answered. */
  function TurnedBack(): Step {
    OnRestart(StepCrash(map[], DocumentIn(Restored), map[], map[]))
  }

  lemma RepeatIsAnswered(c: Cell, receipt: Receipt)
    requires c == HalfActivated(Active) && receipt == ArrivingProfile().receipt
    ensures Restore(c, receipt, 2, true, FileView({}, true), Synced, true, Synced)
            == (c, Some(ArrivingProfile().(state := Active)))
  {
    ArrivingIsValid();
  }

  /** Reserve, restore, activate without a sync, exit, repeat the request, get the answer,
      lose power: the generation that was acknowledged as active is merely restored. */
  lemma RepeatedReceiptCanBeLost()
    ensures var c := RunSteps(NewCell("near", 0, OneProfile), LostActivation());
            var (d, profile) := Restore(c, ArrivingProfile().receipt, 2, true, FileView({}, true), Synced, true, Synced);
            && profile == Some(ArrivingProfile().(state := Active))
            && !TargetSurvives(Apply(d, TurnedBack()), profile.value)
  {
    var c, active := HalfActivated(Active), ArrivingProfile().(state := Active);
    LostActivationEnds();
    RepeatIsAnswered(c, ArrivingProfile().receipt);
    TurnedBackIsRestored(c, Apply(c, TurnedBack()), active);
  }

  lemma TurnedBackIsRestored(c: Cell, d: Cell, active: TargetProfile)
    requires c == HalfActivated(Active) && d == Apply(c, TurnedBack()) && active == ArrivingProfile().(state := Active)
    ensures !TargetSurvives(d, active)
  {
    assert d.adoptions == DocumentIn(Restored);
    assert CurrentProfile(d.adoptions, RUNTIME) == Some(ArrivingProfile().(state := Restored));
    assert d.adoptions in Versions(d.adoptions, d.adoptionDisk);
  }
}
