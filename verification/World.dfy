/** Many cells and one placement history per runtime: at most one cell ever runs it. */
module World {
  import opened Journals
  import opened HandoverTypes
  import opened CellSpec
  import opened RuntimeSlice
  import opened CellProjection
  import opened CellInvariant
  import opened ActivationOnDisk

  /** The backend placed the runtime on this cell at this epoch. As a receipt: the cell
      has acknowledged that the runtime stopped there at this epoch. */
  datatype Placement = Placement(cell: string, epoch: nat)

  datatype World = World(cells: map<string, Cell>, history: seq<Placement>, receipts: set<Placement>)

  datatype WorldStep =
    | At(cell: string, step: Step)
    | Place(cell: string, epoch: nat)

  predicate Placed(w: World, cell: string, epoch: nat) {
    Placement(cell, epoch) in w.history
  }

  /** What the backend is assumed to respect, for one runtime. Crashes, retries, failed
      saves and reconciles with any assignment it ever had are all unrestricted. */
  predicate StepPermitted(w: World, cell: string, s: Step, runtime: AccountId) {
    match s
    case OnAccounts(StepBeginAdd(id, _, assignment, _)) =>
      id == runtime ==> assignment.Some? && Placed(w, cell, assignment.value.placementEpoch)
    case OnAccounts(StepPublish(assignments)) =>
      runtime in assignments ==> Placed(w, cell, assignments[runtime].placementEpoch)
    case OnTarget(StepActivate(expected, _, _)) => expected.Owner() == runtime ==> Placed(w, cell, expected.targetEpoch)
    case OnLocal(StepActivateLocal(expected, _, _)) =>
      expected.identity.runtimeId == runtime ==> Placed(w, cell, expected.targetEpoch)
    case _ => true
  }

  /** A placement needs the stop receipt of the one before it. */
  predicate Permitted(w: World, s: WorldStep, runtime: AccountId) {
    match s
    case At(cell, step) => cell in w.cells && StepPermitted(w, cell, step, runtime)
    case Place(cell, epoch) =>
      w.history == []
      || (var last := w.history[|w.history| - 1]; last in w.receipts && epoch == last.epoch + 1)
  }

  function ReceiptsOf(c: Cell, s: Step, runtime: AccountId): set<nat> {
    match s
    case OnSource(StepConfirm(identity, readable, settled, outcome)) =>
      if identity.runtimeId == runtime && ConfirmStopped(c, identity, readable, settled, outcome).1.Some?
      then {identity.sourceEpoch} else {}
    case _ => {}
  }

  function ApplyWorld(w: World, s: WorldStep, runtime: AccountId): World {
    match s
    case At(cell, step) =>
      if cell !in w.cells then w
      else
        World(w.cells[cell := Apply(w.cells[cell], step)], w.history,
              w.receipts + set epoch | epoch in ReceiptsOf(w.cells[cell], step, runtime) :: Placement(cell, epoch))
    case Place(cell, epoch) => w.(history := w.history + [Placement(cell, epoch)])
  }

  predicate RunPermitted(w: World, steps: seq<WorldStep>, runtime: AccountId)
    decreases |steps|
  {
    steps != [] ==> Permitted(w, steps[0], runtime) && RunPermitted(ApplyWorld(w, steps[0], runtime), steps[1..], runtime)
  }

  function RunWorld(w: World, steps: seq<WorldStep>, runtime: AccountId): World
    decreases |steps|
  {
    if steps == [] then w else RunWorld(ApplyWorld(w, steps[0], runtime), steps[1..], runtime)
  }

  // ---- one cell's part

  predicate FenceCovers(f: Option<Fence>, epoch: nat) {
    f.Some? && (epoch < f.value.Epoch() || (epoch == f.value.Epoch() && f.value.stopped))
  }

  ghost predicate ActivesBacked(s: Slice, placed: set<nat>) {
    && (forall o :: o in Versions(s.owned, s.ownedDisk) && IsActive(o) ==> o.profile.value.targetEpoch in placed)
    && (forall l :: l in Versions(s.local, s.localDisk) && l.Some? && l.value.state == LocalActive ==>
          l.value.targetEpoch in placed)
  }

  ghost predicate FencesBacked(s: Slice, placed: set<nat>, receipts: set<nat>) {
    && (forall f :: f in Versions(s.fence, s.fenceDisk) && f.Some? ==> f.value.Epoch() in placed)
    && (forall f, epoch | f in Versions(s.fence, s.fenceDisk) && epoch in receipts :: FenceCovers(f, epoch))
  }

  predicate PresenceBacked(s: Slice, placed: set<nat>) {
    && (s.assignment.Some? ==> s.assignment.value.placementEpoch in placed)
    && (s.live.Some? ==> placed != {})
  }

  /** Whatever is active, fenced, assigned or live here was placed here, and every
      receipt is backed by all versions of the fence journal. */
  ghost predicate Backed(s: Slice, placed: set<nat>, receipts: set<nat>) {
    ActivesBacked(s, placed) && FencesBacked(s, placed, receipts) && PresenceBacked(s, placed)
  }

  predicate MovePlaced(s: Slice, move: Move, placed: set<nat>) {
    match move
    case Start(_) => placed != {}
    case Assign(assignment) => assignment.Some? ==> assignment.value.placementEpoch in placed
    case SaveTarget(state, _, _) =>
      state == Active && s.owned.profile.Some? ==> s.owned.profile.value.targetEpoch in placed
    case LocalOn(_) => s.local.Some? ==> s.local.value.targetEpoch in placed
    case _ => true
  }

  lemma MoveKeepsActives(s: Slice, move: Move, placed: set<nat>, id: AccountId, profileId: Path -> string)
    requires May(s, move, id, profileId) && ActivesBacked(s, placed) && MovePlaced(s, move, placed)
    requires s.ownedDisk.visible in s.ownedDisk.possible && s.localDisk.visible in s.localDisk.possible
    ensures ActivesBacked(Next(s, move), placed)
  {
  }

  lemma MoveKeepsFences(s: Slice, move: Move, placed: set<nat>, receipts: set<nat>, id: AccountId, profileId: Path -> string)
    requires Inv(s, id, profileId) && May(s, move, id, profileId)
    requires FencesBacked(s, placed, receipts) && PresenceBacked(s, placed)
    ensures FencesBacked(Next(s, move), placed, receipts)
  {
    assert forall epoch :: epoch in receipts ==> FenceCovers(s.fence, epoch);
    if move.NewFence? {
      NewFenceIsLater(s, move.fence, id, profileId);
    }
  }

  lemma MoveKeepsBacked(s: Slice, move: Move, placed: set<nat>, receipts: set<nat>, id: AccountId, profileId: Path -> string)
    requires Inv(s, id, profileId) && May(s, move, id, profileId) && Backed(s, placed, receipts)
    requires MovePlaced(s, move, placed)
    ensures Backed(Next(s, move), placed, receipts)
  {
    MoveKeepsActives(s, move, placed, id, profileId);
    MoveKeepsFences(s, move, placed, receipts, id, profileId);
    assert PresenceBacked(Next(s, move), placed);
  }

  /** The heart of it: a cell that gave up its latest placement does not run the runtime. */
  lemma ClosedAfterReceipt(s: Slice, placed: set<nat>, receipts: set<nat>, last: nat, id: AccountId, profileId: Path -> string)
    requires Inv(s, id, profileId) && Backed(s, placed, receipts)
    requires last in receipts && forall epoch :: epoch in placed ==> epoch <= last
    ensures s.live.None?
  {
    assert s.fence in Versions(s.fence, s.fenceDisk) && s.owned in Versions(s.owned, s.ownedDisk);
    assert s.local in Versions(s.local, s.localDisk);
    assert FenceCovers(s.fence, last) && s.fence.value.Epoch() in placed;
  }

  // ---- all cells

  function PlacedAt(history: seq<Placement>, cell: string): set<nat> {
    set p | p in history && p.cell == cell :: p.epoch
  }

  function ReceiptsAt(receipts: set<Placement>, cell: string): set<nat> {
    set p | p in receipts && p.cell == cell :: p.epoch
  }

  /** Epochs rise along the history, and every placement but the last has its receipt. */
  predicate HistoryHolds(w: World) {
    && (forall i, j :: 0 <= i < j < |w.history| ==> w.history[i].epoch < w.history[j].epoch)
    && (forall i :: 0 <= i < |w.history| - 1 ==> w.history[i] in w.receipts)
  }

  ghost predicate CellHolds(w: World, cell: string, runtime: AccountId)
    requires cell in w.cells
  {
    && CellInv(w.cells[cell])
    && Backed(Project(w.cells[cell], runtime), PlacedAt(w.history, cell), ReceiptsAt(w.receipts, cell))
  }

  ghost predicate WorldInv(w: World, runtime: AccountId) {
    HistoryHolds(w) && forall cell :: cell in w.cells ==> CellHolds(w, cell, runtime)
  }

  function LastCell(w: World): Option<string> {
    if w.history == [] then None else Some(w.history[|w.history| - 1].cell)
  }

  lemma {:induction false} LatestVisit(history: seq<Placement>, cell: string) returns (i: nat)
    requires PlacedAt(history, cell) != {}
    requires forall i, j :: 0 <= i < j < |history| ==> history[i].epoch < history[j].epoch
    ensures i < |history| && history[i].cell == cell
    ensures forall epoch :: epoch in PlacedAt(history, cell) ==> epoch <= history[i].epoch
  {
    i := |history| - 1;
    var last := history[i];
    if last.cell != cell {
      var before := history[..i];
      assert history == before + [last];
      assert PlacedAt(before, cell) == PlacedAt(history, cell);
      i := LatestVisit(before, cell);
    } else {
      forall epoch | epoch in PlacedAt(history, cell) ensures epoch <= last.epoch {
        var p :| p in history && p.cell == cell && p.epoch == epoch;
        var k :| 0 <= k < |history| && history[k] == p;
      }
    }
  }

  lemma CellFacts(w: World, cell: string, runtime: AccountId)
    requires WorldInv(w, runtime) && cell in w.cells
    ensures HistoryHolds(w) && CellHolds(w, cell, runtime)
    ensures Inv(Project(w.cells[cell], runtime), runtime, w.cells[cell].profileId)
  {
  }

  lemma SliceIsLast(w: World, s: Slice, cell: string, runtime: AccountId, profileId: Path -> string)
    requires HistoryHolds(w) && Inv(s, runtime, profileId) && s.live.Some?
    requires Backed(s, PlacedAt(w.history, cell), ReceiptsAt(w.receipts, cell))
    ensures LastCell(w) == Some(cell)
  {
    var i := LatestVisit(w.history, cell);
    if i < |w.history| - 1 {
      assert w.history[i] in w.receipts;
      ClosedAfterReceipt(s, PlacedAt(w.history, cell), ReceiptsAt(w.receipts, cell), w.history[i].epoch, runtime, profileId);
    }
  }

  /** A cell that runs the runtime is the cell it was last placed on. */
  lemma LiveIsLast(w: World, cell: string, runtime: AccountId)
    requires WorldInv(w, runtime) && cell in w.cells && IsLive(w.cells[cell], runtime)
    ensures LastCell(w) == Some(cell)
  {
    CellFacts(w, cell, runtime);
    SliceIsLast(w, Project(w.cells[cell], runtime), cell, runtime, w.cells[cell].profileId);
  }

  lemma PermittedIsPlaced(w: World, cell: string, s: Step, runtime: AccountId)
    requires cell in w.cells && Keyed(w.cells[cell].adoptions) && StepPermitted(w, cell, s, runtime)
    ensures MovePlaced(Project(w.cells[cell], runtime), MoveOf(w.cells[cell], s, runtime), PlacedAt(w.history, cell))
  {
    var c := w.cells[cell];
    match s
    case OnAccounts(step) => PermittedAccount(w, cell, c, step, runtime);
    case OnTarget(step) => PermittedTarget(w, cell, c, step, runtime);
    case _ =>
  }

  lemma PermittedAccount(w: World, cell: string, c: Cell, s: AccountStep, runtime: AccountId)
    requires StepPermitted(w, cell, OnAccounts(s), runtime)
    ensures MovePlaced(Project(c, runtime), AccountMove(c, s, runtime), PlacedAt(w.history, cell))
  {
    match s
    case StepBeginAdd(id, _, assignment, _) =>
      if id == runtime { assert assignment.value.placementEpoch in PlacedAt(w.history, cell); }
    case StepPublish(assignments) =>
    case _ =>
  }

  lemma PermittedTarget(w: World, cell: string, c: Cell, s: TargetStep, runtime: AccountId)
    requires Keyed(c.adoptions) && StepPermitted(w, cell, OnTarget(s), runtime)
    ensures MovePlaced(Project(c, runtime), TargetMove(c, s, runtime), PlacedAt(w.history, cell))
  {
  }

  lemma ReceiptIsSaved(c: Cell, s: Step, runtime: AccountId, epoch: nat)
    requires epoch in ReceiptsOf(c, s, runtime)
    ensures forall f :: f in Versions(Project(Apply(c, s), runtime).fence, Project(Apply(c, s), runtime).fenceDisk) ==>
              FenceCovers(f, epoch)
  {
  }

  lemma CellStepBacked(c: Cell, d: Cell, s: Step, placed: set<nat>, receipts: set<nat>, runtime: AccountId)
    requires CellInv(c) && d == Apply(c, s) && Backed(Project(c, runtime), placed, receipts)
    requires MovePlaced(Project(c, runtime), MoveOf(c, s, runtime), placed)
    ensures Backed(Project(d, runtime), placed, receipts + ReceiptsOf(c, s, runtime))
  {
    StepIsMove(c, s, runtime);
    MoveKeepsBacked(Project(c, runtime), MoveOf(c, s, runtime), placed, receipts, runtime, c.profileId);
    forall epoch | epoch in ReceiptsOf(c, s, runtime)
      ensures forall f :: f in Versions(Project(d, runtime).fence, Project(d, runtime).fenceDisk) ==> FenceCovers(f, epoch)
    {
      ReceiptIsSaved(c, s, runtime, epoch);
    }
    MoreReceipts(Project(d, runtime), placed, receipts, ReceiptsOf(c, s, runtime));
  }

  lemma MoreReceipts(s: Slice, placed: set<nat>, receipts: set<nat>, added: set<nat>)
    requires Backed(s, placed, receipts)
    requires forall epoch :: epoch in added ==>
               forall f :: f in Versions(s.fence, s.fenceDisk) ==> FenceCovers(f, epoch)
    ensures Backed(s, placed, receipts + added)
  {
  }

  lemma MorePlaced(s: Slice, placed: set<nat>, more: set<nat>, receipts: set<nat>)
    requires Backed(s, placed, receipts) && placed <= more
    ensures Backed(s, more, receipts)
  {
  }

  lemma ReceiptsAfter(receipts: set<Placement>, cell: string, added: set<nat>, other: string)
    ensures ReceiptsAt(receipts + set epoch | epoch in added :: Placement(cell, epoch), other)
            == ReceiptsAt(receipts, other) + if other == cell then added else {}
  {
    var news := set epoch | epoch in added :: Placement(cell, epoch);
    if other == cell {
      forall epoch | epoch in added ensures epoch in ReceiptsAt(receipts + news, other) {
        assert Placement(cell, epoch) in receipts + news;
      }
    }
    forall epoch | epoch in ReceiptsAt(receipts, other) ensures epoch in ReceiptsAt(receipts + news, other) {
      assert Placement(other, epoch) in receipts + news;
    }
  }

  lemma AtKeepsCell(w: World, cell: string, s: Step, runtime: AccountId)
    requires WorldInv(w, runtime) && cell in w.cells && StepPermitted(w, cell, s, runtime)
    ensures CellHolds(ApplyWorld(w, At(cell, s), runtime), cell, runtime)
  {
    var c, d := w.cells[cell], Apply(w.cells[cell], s);
    var placed, receipts := PlacedAt(w.history, cell), ReceiptsAt(w.receipts, cell);
    CellFacts(w, cell, runtime);
    InvKeyed(c);
    PermittedIsPlaced(w, cell, s, runtime);
    CellStepBacked(c, d, s, placed, receipts, runtime);
    StepReaches(c, s, d);
    ReceiptsAfter(w.receipts, cell, ReceiptsOf(c, s, runtime), cell);
    Assembled(ApplyWorld(w, At(cell, s), runtime), cell, d, placed, receipts + ReceiptsOf(c, s, runtime), runtime);
  }

  lemma Assembled(w: World, cell: string, d: Cell, placed: set<nat>, receipts: set<nat>, runtime: AccountId)
    requires cell in w.cells && w.cells[cell] == d && CellInv(d) && Backed(Project(d, runtime), placed, receipts)
    requires PlacedAt(w.history, cell) == placed && ReceiptsAt(w.receipts, cell) == receipts
    ensures CellHolds(w, cell, runtime)
  {
  }

  lemma UntouchedCell(w: World, next: World, cell: string, runtime: AccountId)
    requires cell in w.cells && CellHolds(w, cell, runtime)
    requires cell in next.cells && next.cells[cell] == w.cells[cell] && next.history == w.history
    requires ReceiptsAt(next.receipts, cell) == ReceiptsAt(w.receipts, cell)
    ensures CellHolds(next, cell, runtime)
  {
  }

  lemma OtherUntouched(w: World, next: World, cell: string, s: Step, other: string, runtime: AccountId)
    requires cell in w.cells && other in w.cells && other != cell && next == ApplyWorld(w, At(cell, s), runtime)
    ensures other in next.cells && next.cells[other] == w.cells[other] && next.history == w.history
    ensures ReceiptsAt(next.receipts, other) == ReceiptsAt(w.receipts, other)
  {
  }

  lemma PlaceKeepsCell(w: World, placed: string, epoch: nat, cell: string, runtime: AccountId)
    requires WorldInv(w, runtime) && cell in w.cells
    ensures CellHolds(ApplyWorld(w, Place(placed, epoch), runtime), cell, runtime)
  {
    var next := ApplyWorld(w, Place(placed, epoch), runtime);
    CellFacts(w, cell, runtime);
    forall e | e in PlacedAt(w.history, cell) ensures e in PlacedAt(next.history, cell) {
      assert Placement(cell, e) in next.history;
    }
    MorePlaced(Project(w.cells[cell], runtime), PlacedAt(w.history, cell), PlacedAt(next.history, cell),
               ReceiptsAt(w.receipts, cell));
    Assembled(next, cell, w.cells[cell], PlacedAt(next.history, cell), ReceiptsAt(next.receipts, cell), runtime);
  }

  lemma HistoryKept(w: World, s: WorldStep, runtime: AccountId)
    requires HistoryHolds(w) && Permitted(w, s, runtime)
    ensures HistoryHolds(ApplyWorld(w, s, runtime))
  {
  }

  lemma StepKeepsWorldInv(w: World, s: WorldStep, runtime: AccountId)
    requires WorldInv(w, runtime) && Permitted(w, s, runtime)
    ensures WorldInv(ApplyWorld(w, s, runtime), runtime)
  {
    var next := ApplyWorld(w, s, runtime);
    HistoryKept(w, s, runtime);
    forall cell | cell in next.cells ensures CellHolds(next, cell, runtime) {
      match s
      case At(at, step) =>
        if at == cell {
          AtKeepsCell(w, cell, step, runtime);
        } else {
          CellFacts(w, cell, runtime);
          OtherUntouched(w, next, at, step, cell, runtime);
          UntouchedCell(w, next, cell, runtime);
        }
      case Place(placed, epoch) => PlaceKeepsCell(w, placed, epoch, cell, runtime);
    }
  }

  lemma {:induction false} RunKeepsWorldInv(w: World, steps: seq<WorldStep>, runtime: AccountId)
    requires WorldInv(w, runtime) && RunPermitted(w, steps, runtime)
    ensures WorldInv(RunWorld(w, steps, runtime), runtime)
    decreases |steps|
  {
    if steps != [] {
      StepKeepsWorldInv(w, steps[0], runtime);
      RunKeepsWorldInv(ApplyWorld(w, steps[0], runtime), steps[1..], runtime);
    }
  }

  ghost predicate FreshWorld(w: World) {
    && w.history == [] && w.receipts == {}
    && forall cell :: cell in w.cells ==> w.cells[cell] == NewCell(cell, w.cells[cell].maxAccounts, w.cells[cell].profileId)
  }

  lemma FreshWorldInv(w: World, runtime: AccountId)
    requires FreshWorld(w)
    ensures WorldInv(w, runtime)
  {
    forall cell | cell in w.cells ensures CellHolds(w, cell, runtime) {
      var c := w.cells[cell];
      NewCellInv(cell, c.maxAccounts, c.profileId);
      NewCellProjects(cell, c.maxAccounts, c.profileId, runtime);
    }
  }

  /** Single runner: however steps of any number of cells, crashes and retries interleave,
      a runtime is in accounts, pending or stopping of at most one cell, and that cell is
      the one the backend placed it on last. */
  lemma SingleRunner(w: World, steps: seq<WorldStep>, runtime: AccountId, a: string, b: string)
    requires FreshWorld(w) && RunPermitted(w, steps, runtime)
    ensures var end := RunWorld(w, steps, runtime);
            a in end.cells && IsLive(end.cells[a], runtime) ==>
              && LastCell(end) == Some(a)
              && (b in end.cells && IsLive(end.cells[b], runtime) ==> a == b)
  {
    FreshWorldInv(w, runtime);
    RunKeepsWorldInv(w, steps, runtime);
    var end := RunWorld(w, steps, runtime);
    if a in end.cells && IsLive(end.cells[a], runtime) {
      LiveIsLast(end, a, runtime);
      if b in end.cells && IsLive(end.cells[b], runtime) {
        LiveIsLast(end, b, runtime);
      }
    }
  }
}
