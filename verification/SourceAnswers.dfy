/** Which stop requests a cell answers, read off the request and the cell it meets. */
module SourceAnswers {
  import opened Journals
  import opened HandoverTypes
  import opened CellSpec

  // ---- what the journals say of one runtime

  /** A fence of the runtime is at this epoch or past it. */
  predicate LeftAt(c: Cell, id: AccountId, epoch: nat) {
    id in c.fences && c.fences[id].identity.sourceEpoch >= epoch
  }

  /** The runtime may run from its settings-only binding. */
  predicate RunsBound(c: Cell, id: AccountId) {
    id in c.locals && c.locals[id].state == LocalActive && !LeftAt(c, id, c.locals[id].targetEpoch)
  }

  /** The runtime may run from its newest archive generation. */
  predicate RunsImported(c: Cell, id: AccountId) {
    var current := CurrentProfile(c.adoptions, id);
    current.Some? && current.value.state == Active && !LeftAt(c, id, current.value.targetEpoch)
  }

  lemma RunsExactly(c: Cell, id: AccountId)
    ensures HasActiveLocal(c, id) <==> RunsBound(c, id)
    ensures HasActiveImport(c, id) <==> RunsImported(c, id)
  {
  }

  /** Requests for a runtime are answered "locked" exactly while a binding, an import or a
      fence is there for it and neither binding nor import lets it run. */
  lemma LockedExactly(c: Cell, id: AccountId)
    ensures HandoverFenced(c, id)
            <==> && (id in c.locals || id in c.fences || CurrentProfile(c.adoptions, id).Some?)
                 && !RunsBound(c, id) && (id in c.locals || !RunsImported(c, id))
  {
    RunsExactly(c, id);
  }

  predicate GoodIdentity(i: Identity) {
    && (forall name <- {i.runtimeId, i.tenantId, i.sourceCellId, i.operationId, i.accountId} :: CanonicalId(name))
    && i.sourceEpoch > 0 && i.configurationRevision > 0 && ValidDigest(i.configurationDigest)
  }

  ghost predicate GoodPlace(place: Path) {
    exists root, name :: root in {"Accounts", "Players"} && ValidComponent(name) && place == [root, name]
  }

  // ---- the request

  /** The request is for the placement that owns the runtime's profile here. */
  predicate BindingIsIts(c: Cell, i: Identity) {
    && i.runtimeId in c.locals
    && var b := c.locals[i.runtimeId];
       b.targetEpoch == i.sourceEpoch && b.identity.accountId == i.accountId && b.identity.tenantId == i.tenantId
  }

  predicate ImportIsIts(c: Cell, i: Identity) {
    var current := CurrentProfile(c.adoptions, i.runtimeId);
    && current.Some? && current.value.targetEpoch == i.sourceEpoch
    && current.value.receipt.identity.accountId == i.accountId && current.value.receipt.identity.tenantId == i.tenantId
  }

  predicate Repeats(c: Cell, i: Identity) {
    i.runtimeId in c.fences && c.fences[i.runtimeId].identity == i
  }

  /** Nobody else's profile or handover: an active binding or import is of this very
      placement, and a fence of another handover gives way to such a placement only. */
  predicate OwnsProfile(c: Cell, i: Identity, archive: bool) {
    var id := i.runtimeId;
    && (archive ==> id !in c.locals)
    && (RunsBound(c, id) ==> BindingIsIts(c, i))
    && (RunsImported(c, id) && id !in c.locals ==> ImportIsIts(c, i))
    && (id in c.fences && !Repeats(c, i) ==> RunsBound(c, id) || (RunsImported(c, id) && ImportIsIts(c, i)))
  }

  /** A first fence: the runtime runs here under exactly this placement and configuration,
      which is applied, and the source is inspected and drained. */
  predicate RunsAsPlaced(c: Cell, i: Identity, ready: bool, settled: bool) {
    && i.runtimeId in c.accounts && i.runtimeId in c.assignments && i.sourceCellId == c.cellId && ready && settled
    && var a := c.assignments[i.runtimeId];
       (a.tenantId, a.placementEpoch, a.revision, a.digest)
       == (i.tenantId, i.sourceEpoch, i.configurationRevision, i.configurationDigest)
  }

  predicate FenceAllowed(c: Cell, i: Identity, archive: bool, ready: bool, settled: bool) {
    && !c.closed && OwnsProfile(c, i, archive) && GoodIdentity(i)
    && (Repeats(c, i) || RunsAsPlaced(c, i, ready, settled))
  }

  /** The place that is fenced: where it was fenced before, else where it runs. */
  function FencedPlace(c: Cell, i: Identity): Path {
    if Repeats(c, i) then c.fences[i.runtimeId].directory
    else if i.runtimeId in c.accounts then c.accounts[i.runtimeId].directory
    else []
  }

  function StoredStop(c: Cell, i: Identity): Option<string> {
    if Repeats(c, i) && c.fences[i.runtimeId].stopped then Some(c.fences[i.runtimeId].profileId) else None
  }

  lemma OwnedExactly(c: Cell, i: Identity, archive: bool)
    ensures FenceRequestOwned(c, i, archive) <==> !c.closed && OwnsProfile(c, i, archive)
  {
    RunsExactly(c, i.runtimeId);
  }

  lemma IdentityIs(i: Identity)
    ensures ValidIdentity(i.runtimeId, i) <==> GoodIdentity(i)
  {
    var names := {i.runtimeId, i.tenantId, i.sourceCellId, i.operationId, i.accountId};
    assert i.runtimeId in names && i.tenantId in names && i.sourceCellId in names && i.operationId in names && i.accountId in names;
  }

  lemma PlaceIs(place: Path)
    ensures ValidProfileDirectory(place) <==> GoodPlace(place)
  {
    if ValidProfileDirectory(place) { assert place == [place[0], place[1]]; }
  }

  /** The fence that a request leaves in memory. */
  function StandingFence(c: Cell, i: Identity): Fence {
    if Repeats(c, i) then c.fences[i.runtimeId] else Fence(i, FencedPlace(c, i), "", false)
  }

  lemma FenceChosen(c: Cell, i: Identity, archive: bool, ready: bool, settled: bool)
    ensures var fence := FenceToSave(c, i, archive, ready, settled);
            && (fence.Some? <==> !c.closed && OwnsProfile(c, i, archive) && (Repeats(c, i) || RunsAsPlaced(c, i, ready, settled)))
            && (fence.Some? ==> fence.value == StandingFence(c, i))
  {
    OwnedExactly(c, i, archive);
  }

  /** A fence is published exactly for a request that is allowed, when its save is synced:
      the stored fence on a repeat, else a new one for the directory the runtime runs in. It
      stands in memory, and so keeps the runtime out, even when its save fails. */
  lemma FencedExactly(c: Cell, i: Identity, archive: bool, ready: bool, settled: bool, outcome: WriteOutcome)
    ensures var (d, fenced) := FenceSource(c, i, archive, ready, settled, outcome);
            var place, stop := FencedPlace(c, i), StoredStop(c, i);
            var allowed := FenceAllowed(c, i, archive, ready, settled) && GoodPlace(place) && (stop.Some? ==> 1 <= |stop.value| <= 128);
            && (fenced <==> allowed && outcome == Synced) && (!allowed ==> d == c)
            && (allowed ==>
                  && d == c.(fences := d.fences, fenceDisk := Write(c.fenceDisk, d.fences, outcome))
                  && d.fences == c.fences[i.runtimeId := StandingFence(c, i)])
  {
    FenceChosen(c, i, archive, ready, settled);
    IdentityIs(i);
    PlaceIs(FencedPlace(c, i));
    assert ValidFence(i.runtimeId, StandingFence(c, i))
      <==> GoodIdentity(i) && GoodPlace(FencedPlace(c, i)) && (StoredStop(c, i).Some? ==> 1 <= |StoredStop(c, i).value| <= 128);
  }

  // ---- the whole request

  /** Stop and Wait succeed as far as there is something to stop or to wait for. */
  predicate Removable(c: Cell, id: AccountId, stopped: bool, waited: bool) {
    (id in c.accounts ==> stopped && waited) && (id in c.stopping ==> waited)
  }

  /** Nobody holds the place once this runtime is gone. */
  predicate FreeWithout(c: Cell, id: AccountId, place: Path) {
    place in c.dataDirs ==>
      && c.dataDirs[place] == id
      && ((id in c.accounts && c.accounts[id].directory == place)
          || (id !in c.accounts && id in c.stopping && c.stopping[id].directory == place))
  }

  lemma RemovedExactly(c: Cell, id: AccountId, stopped: bool, waited: bool)
    ensures var (d, removed) := Remove(c, id, stopped, waited);
            && (removed <==> (id in c.accounts || id in c.stopping) && Removable(c, id, stopped, waited))
            && (removed ==>
                  && d == c.(accounts := c.accounts - {id}, stopping := c.stopping - {id}, dataDirs := d.dataDirs, finished := d.finished)
                  && (forall place :: place in d.dataDirs <==> place in c.dataDirs && !FreeWithout(c, id, place))
                  && (forall place :: place in d.dataDirs ==> d.dataDirs[place] == c.dataDirs[place]))
  {
    if waited && id in c.accounts {
      assert (c.stopping[id := c.accounts[id]]) - {id} == c.stopping - {id};
    }
    assert id !in c.accounts ==> c.accounts - {id} == c.accounts;
  }

  lemma ConfirmedExactly(c: Cell, i: Identity, readable: bool, settled: bool, outcome: WriteOutcome)
    requires Repeats(c, i) ==> c.fenceDisk == Fresh(c.fences) && ValidFence(i.runtimeId, c.fences[i.runtimeId])
    ensures !Repeats(c, i) ==> ConfirmStopped(c, i, readable, settled, outcome).1.None?
    ensures var (d, receipt) := ConfirmStopped(c, i, readable, settled, outcome);
            Repeats(c, i) ==>
            var fence, found := c.fences[i.runtimeId], c.profileId(c.fences[i.runtimeId].directory);
            && (receipt.Some? <==>
                  && fence.directory !in c.dataDirs && readable && settled && 1 <= |found| <= 128
                  && (fence.stopped ==> fence.profileId == found) && outcome == Synced)
            && (receipt.Some? ==>
                  && receipt == Some(Fence(i, fence.directory, found, true))
                  && d == c.(fences := c.fences[i.runtimeId := receipt.value], fenceDisk := Fresh(d.fences)))
  {
    assert Repeats(c, i) ==> c.fenceDisk.possible == {c.fences};
  }

  lemma StoppedExactly(c: Cell, i: Identity, stopped: bool, waited: bool, readable: bool, settled: bool, outcome: WriteOutcome)
    requires Repeats(c, i) && c.fenceDisk == Fresh(c.fences) && ValidFence(i.runtimeId, c.fences[i.runtimeId])
    ensures var (d, receipt) := StopAndConfirm(c, i, stopped, waited, readable, settled, outcome);
            var id, fence := i.runtimeId, c.fences[i.runtimeId];
            var found := c.profileId(fence.directory);
            && (receipt.Some? <==>
                  && Removable(c, id, stopped, waited) && FreeWithout(c, id, fence.directory) && readable && settled
                  && 1 <= |found| <= 128 && (fence.stopped ==> fence.profileId == found) && outcome == Synced)
            && (receipt.Some? ==>
                  && receipt == Some(Fence(i, fence.directory, found, true))
                  && d.fences == c.fences[id := receipt.value] && d.fenceDisk == Fresh(d.fences)
                  && id !in d.accounts && id !in d.stopping)
  {
    var id := i.runtimeId;
    if id in c.accounts || id in c.stopping {
      var (d, removed) := Remove(c, id, stopped, waited);
      RemovedExactly(c, id, stopped, waited);
      if removed { ConfirmedExactly(d, i, readable, settled, outcome); }
    } else {
      ConfirmedExactly(c, i, readable, settled, outcome);
    }
  }

  /** Everything after the fence works out. */
  predicate CanStop(c: Cell, i: Identity, place: Path, stop: Option<string>, stopped: bool, waited: bool, readable: bool) {
    var found := c.profileId(place);
    && Removable(c, i.runtimeId, stopped, waited) && FreeWithout(c, i.runtimeId, place) && readable
    && 1 <= |found| <= 128 && (stop == None || stop == Some(found))
  }

  lemma FencedIsValid(c: Cell, i: Identity, archive: bool, ready: bool, settled: bool, outcome: WriteOutcome)
    requires FenceSource(c, i, archive, ready, settled, outcome).1
    ensures var d := FenceSource(c, i, archive, ready, settled, outcome).0;
            && Repeats(d, i) && ValidFence(i.runtimeId, d.fences[i.runtimeId]) && d.fenceDisk == Fresh(d.fences)
            && d == c.(fences := d.fences, fenceDisk := d.fenceDisk)
            && d.fences[i.runtimeId].directory == FencedPlace(c, i)
            && (d.fences[i.runtimeId].stopped <==> StoredStop(c, i).Some?)
            && (StoredStop(c, i).Some? ==> d.fences[i.runtimeId].profileId == StoredStop(c, i).value)
            && d.fences == c.fences[i.runtimeId := d.fences[i.runtimeId]]
  {
  }

  lemma StoppedAfterFence(c: Cell, c1: Cell, i: Identity, place: Path, stop: Option<string>, stopped: bool, waited: bool,
                          readable: bool, settled: bool, outcome: WriteOutcome)
    requires Repeats(c1, i) && ValidFence(i.runtimeId, c1.fences[i.runtimeId]) && c1.fenceDisk == Fresh(c1.fences)
    requires c1 == c.(fences := c1.fences, fenceDisk := c1.fenceDisk) && c1.fences[i.runtimeId].directory == place
    requires stop == if c1.fences[i.runtimeId].stopped then Some(c1.fences[i.runtimeId].profileId) else None
    requires c1.fences == c.fences[i.runtimeId := c1.fences[i.runtimeId]]
    ensures var (d, receipt) := StopAndConfirm(c1, i, stopped, waited, readable, settled, outcome);
            && (receipt.Some? <==> CanStop(c, i, place, stop, stopped, waited, readable) && settled && outcome == Synced)
            && (receipt.Some? ==>
                  && receipt == Some(Fence(i, place, c.profileId(place), true))
                  && d.fences == c.fences[i.runtimeId := receipt.value] && d.fenceDisk == Fresh(d.fences)
                  && i.runtimeId !in d.accounts && i.runtimeId !in d.stopping)
  {
    StoppedExactly(c1, i, stopped, waited, readable, settled, outcome);
    var receipt := StopAndConfirm(c1, i, stopped, waited, readable, settled, outcome).1;
    if receipt.Some? {
      assert c1.fences[i.runtimeId := receipt.value] == c.fences[i.runtimeId := receipt.value];
    }
  }

  /** A stop request is answered exactly when its fence is allowed, what runs is stopped and
      waited for, the place is free and still has its identity, and both saves are synced.
      The receipt is the stopped fence of this very request, for the place it ran in. */
  lemma PreparedExactly(c: Cell, i: Identity, archive: bool, ready: bool, settled: bool, first: WriteOutcome,
                        stopped: bool, waited: bool, readable: bool, flushed: bool, second: WriteOutcome)
    ensures var (d, receipt) := PrepareSource(c, i, archive, ready, settled, first, stopped, waited, readable, flushed, second);
            var place := FencedPlace(c, i);
            && (receipt.Some? <==>
                  && FenceAllowed(c, i, archive, ready, settled) && GoodPlace(place) && first == Synced
                  && CanStop(c, i, place, StoredStop(c, i), stopped, waited, readable) && (archive || flushed)
                  && second == Synced)
            && (receipt.Some? ==>
                  && receipt == Some(Fence(i, place, c.profileId(place), true))
                  && d.fences == c.fences[i.runtimeId := receipt.value] && d.fenceDisk == Fresh(d.fences)
                  && i.runtimeId !in d.accounts && i.runtimeId !in d.stopping)
  {
    var (c1, fenced) := FenceSource(c, i, archive, ready, settled, first);
    FencedExactly(c, i, archive, ready, settled, first);
    if fenced {
      FencedIsValid(c, i, archive, ready, settled, first);
      StoppedAfterFence(c, c1, i, FencedPlace(c, i), StoredStop(c, i), stopped, waited, readable, archive || flushed, second);
    }
  }

  /** Nothing is stopped before its fence is durable: a request whose fence is not allowed or
      not synced leaves every account table as it was. */
  lemma UnfencedKeepsRunning(c: Cell, i: Identity, archive: bool, ready: bool, settled: bool, first: WriteOutcome,
                             stopped: bool, waited: bool, readable: bool, flushed: bool, second: WriteOutcome)
    requires !FenceAllowed(c, i, archive, ready, settled) || !GoodPlace(FencedPlace(c, i)) || first != Synced
    ensures var (d, receipt) := PrepareSource(c, i, archive, ready, settled, first, stopped, waited, readable, flushed, second);
            receipt.None? && d == c.(fences := d.fences, fenceDisk := d.fenceDisk)
  {
    FencedExactly(c, i, archive, ready, settled, first);
  }
}
