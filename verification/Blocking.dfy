/** A directory that was once fenced or retired on a cell is never opened again, except by
    a runtime whose own active settings-only binding is that very directory. */
module Blocking {
  import opened Journals
  import opened HandoverTypes
  import opened CellSpec
  import opened RuntimeSlice
  import opened CellProjection
  import opened CellInvariant
  import opened EpochChain

  predicate BlockedBy(f: Option<Fence>, o: Owned, directory: Path) {
    (f.Some? && f.value.directory == directory) || directory in o.retired
  }

  /** A fence, a retirement or a settings-only binding closes the directory. */
  predicate Closes(f: Option<Fence>, o: Owned, l: Option<LocalBinding>, directory: Path) {
    BlockedBy(f, o, directory) || (l.Some? && l.value.directory == directory)
  }

  ghost predicate RetiredForGood(s: Slice, directory: Path) {
    forall o :: o in Versions(s.owned, s.ownedDisk) ==> directory in o.retired
  }

  /** Whichever documents come back, this runtime's journals close the directory, and no
      binding of its own takes it elsewhere while a fence alone closes it. */
  ghost predicate Blocks(s: Slice, directory: Path) {
    || RetiredForGood(s, directory)
    || ((forall l :: l in Versions(s.local, s.localDisk) && l.Some? ==> l.value.directory == directory)
        && forall f, o, l | f in Versions(s.fence, s.fenceDisk) && o in Versions(s.owned, s.ownedDisk)
                            && l in Versions(s.local, s.localDisk) :: Closes(f, o, l, directory))
  }

  /** The directory is retired, or a binding of the runtime is nowhere else. */
  ghost predicate InPlace(s: Slice, directory: Path) {
    RetiredForGood(s, directory) || (s.local.Some? ==> s.local.value.directory == directory)
  }

  /** A fence is replaced only once its directory is retired in every document. */
  lemma ReplacedFenceIsRetired(s: Slice, fence: Fence, o: Owned, directory: Path, id: AccountId, profileId: Path -> string)
    requires Inv(s, id, profileId) && MayFence(s, fence, id) && s.local.None? && o in Versions(s.owned, s.ownedDisk)
    requires BlockedBy(s.fence, o, directory)
    ensures directory in o.retired || s.fence.None?
  {
    VersionsAgree(s, s.fence, o, s.local, id, profileId);
  }

  lemma MoveKeepsRetired(s: Slice, move: Move, directory: Path, id: AccountId, profileId: Path -> string)
    requires Inv(s, id, profileId) && May(s, move, id, profileId) && RetiredForGood(s, directory)
    ensures RetiredForGood(Next(s, move), directory)
  {
    assert directory in s.owned.retired;
  }

  lemma FenceKeepsBlock(s: Slice, fence: Fence, outcome: WriteOutcome, directory: Path, id: AccountId, profileId: Path -> string)
    requires Inv(s, id, profileId) && MayFence(s, fence, id) && Blocks(s, directory)
    ensures Blocks(Next(s, NewFence(fence, outcome)), directory)
  {
    var t := Next(s, NewFence(fence, outcome));
    if !RetiredForGood(s, directory) {
      forall f, o, l | f in Versions(t.fence, t.fenceDisk) && o in Versions(t.owned, t.ownedDisk) && l in Versions(t.local, t.localDisk)
        ensures Closes(f, o, l, directory)
      {
        assert Closes(s.fence, o, s.local, directory);
        if s.local.None? { ReplacedFenceIsRetired(s, fence, o, directory, id, profileId); }
      }
    } else {
      MoveKeepsRetired(s, NewFence(fence, outcome), directory, id, profileId);
    }
  }

  lemma MoveKeepsBlock(s: Slice, move: Move, directory: Path, id: AccountId, profileId: Path -> string)
    requires Inv(s, id, profileId) && May(s, move, id, profileId) && Blocks(s, directory)
    requires InPlace(Next(s, move), directory)
    ensures Blocks(Next(s, move), directory)
  {
    var t := Next(s, move);
    if move.NewFence? {
      FenceKeepsBlock(s, move.fence, move.outcome, directory, id, profileId);
    } else if RetiredForGood(s, directory) {
      MoveKeepsRetired(s, move, directory, id, profileId);
    } else if !RetiredForGood(t, directory) {
      forall f, o, l | f in Versions(t.fence, t.fenceDisk) && o in Versions(t.owned, t.ownedDisk) && l in Versions(t.local, t.localDisk)
        ensures Closes(f, o, l, directory)
      {
        OthersKeepClosed(s, move, f, o, l, directory, id, profileId);
      }
    }
  }

  lemma OthersKeepClosed(s: Slice, move: Move, f: Option<Fence>, o: Owned, l: Option<LocalBinding>, directory: Path,
                         id: AccountId, profileId: Path -> string)
    requires Inv(s, id, profileId) && May(s, move, id, profileId) && !move.NewFence?
    requires Blocks(s, directory) && !RetiredForGood(s, directory)
    requires var t := Next(s, move);
             && (t.local.Some? ==> t.local.value.directory == directory)
             && f in Versions(t.fence, t.fenceDisk) && o in Versions(t.owned, t.ownedDisk) && l in Versions(t.local, t.localDisk)
    ensures Closes(f, o, l, directory)
  {
    match move
    case StopFence(_, _) => assert Closes(s.fence, o, l, directory);
    case ReserveTarget(_, _) => assert Closes(f, s.owned, l, directory);
    case SaveTarget(_, _, _) => assert Closes(f, s.owned, l, directory);
    case LocalOn(_) => assert Closes(f, o, s.local, directory);
    case _ =>
  }

  /** Through the whole run the directory is retired, or the runtime is bound nowhere else. */
  ghost predicate StaysInPlace(c: Cell, steps: seq<Step>, directory: Path, id: AccountId)
    decreases |steps|
  {
    InPlace(Project(c, id), directory) && (steps != [] ==> StaysInPlace(Apply(c, steps[0]), steps[1..], directory, id))
  }

  lemma {:induction false} RunKeepsBlock(c: Cell, steps: seq<Step>, directory: Path, id: AccountId)
    requires CellInv(c) && Blocks(Project(c, id), directory) && StaysInPlace(c, steps, directory, id)
    ensures Blocks(Project(RunSteps(c, steps), id), directory)
    decreases |steps|
  {
    if steps != [] {
      StepIsMove(c, steps[0], id);
      MoveKeepsBlock(Project(c, id), MoveOf(c, steps[0], id), directory, id, c.profileId);
      StepKeepsCellInv(c, steps[0]);
      RunKeepsBlock(Apply(c, steps[0]), steps[1..], directory, id);
    }
  }

  lemma BlockIsInMemory(c: Cell, directory: Path, id: AccountId)
    requires Blocks(Project(c, id), directory)
    ensures || (id in c.fences && c.fences[id].directory == directory) || directory in c.adoptions.retired
            || (id in c.locals && c.locals[id].directory == directory)
  {
    var s := Project(c, id);
    assert RetiredForGood(s, directory) || Closes(s.fence, s.owned, s.local, directory);
  }

  /** The runtime's own active settings-only binding is this directory. */
  predicate OpensOwn(c: Cell, who: AccountId, directory: Path) {
    HasActiveLocal(c, who) && directory == c.locals[who].directory
  }

  /** A directory related to a blocked one is open to a runtime if and only if it is the
      runtime's own active settings-only binding. */
  lemma BlockedIsRefused(c: Cell, blocked: Path, id: AccountId, who: AccountId, directory: Path)
    requires Blocks(Project(c, id), blocked) && Related(blocked, directory)
    ensures !ProfileFenced(c, who, directory) <==> OpensOwn(c, who, directory)
  {
    BlockIsInMemory(c, blocked, id);
  }

  /** Once every document blocks a directory, every run keeps it, what lies inside it and
      what lies around it shut to all runtimes: one is admitted there only under its own
      active settings-only binding of that very directory. */
  lemma BlockedForever(c: Cell, steps: seq<Step>, blocked: Path, id: AccountId, who: AccountId, directory: Path,
                       assignment: Option<Assignment>, readable: bool)
    requires CellInv(c) && Blocks(Project(c, id), blocked) && StaysInPlace(c, steps, blocked, id) && Related(blocked, directory)
    ensures var d := RunSteps(c, steps);
            && (!ProfileFenced(d, who, directory) <==> OpensOwn(d, who, directory))
            && (CanAdd(d, who, directory, assignment, readable) ==> OpensOwn(d, who, directory))
  {
    RunKeepsBlock(c, steps, blocked, id);
    BlockedIsRefused(RunSteps(c, steps), blocked, id, who, directory);
  }

  /** A durable fence blocks its directory. */
  lemma SavedFenceBlocks(c: Cell, id: AccountId)
    requires c.fenceDisk.possible == {c.fences} && id in c.fences
    requires forall locals: Locals :: locals in Versions(c.locals, c.localDisk) && id in locals ==>
               locals[id].directory == c.fences[id].directory
    ensures Blocks(Project(c, id), c.fences[id].directory)
  {
  }

  /** A durable reservation blocks every directory it retired. */
  lemma SavedRetirementBlocks(c: Cell, id: AccountId, directory: Path)
    requires c.adoptionDisk.possible == {c.adoptions} && RetiredTo(c.adoptions, directory, id)
    ensures Blocks(Project(c, id), directory)
  {
  }

  // ---- inside one process: the blocked set only grows

  predicate Closed(c: Cell, directory: Path, id: AccountId) {
    Closes(FenceOf(c.fences, id), OwnedBy(c.adoptions, id), LocalOf(c.locals, id), directory)
  }

  lemma MoveKeepsClosed(s: Slice, move: Move, directory: Path, id: AccountId, profileId: Path -> string)
    requires Inv(s, id, profileId) && May(s, move, id, profileId) && !Restarts(move) && Closes(s.fence, s.owned, s.local, directory)
    requires var t := Next(s, move); t.local.Some? ==> t.local.value.directory == directory || directory in t.owned.retired
    ensures Closes(Next(s, move).fence, Next(s, move).owned, Next(s, move).local, directory)
  {
    if move.NewFence? && s.local.None? { ReplacedFenceIsRetired(s, move.fence, s.owned, directory, id, profileId); }
  }

  /** A directory closed for a runtime stays so while the process runs, saved or not, as
      long as it is retired or the runtime is bound nowhere else. */
  lemma ClosedOnlyGrows(c: Cell, s: Step, directory: Path, id: AccountId)
    requires CellInv(c) && !s.OnRestart? && Closed(c, directory, id)
    requires var d := Apply(c, s);
             id in d.locals ==> d.locals[id].directory == directory || RetiredTo(d.adoptions, directory, id)
    ensures Closed(Apply(c, s), directory, id)
  {
    var d, move := Apply(c, s), MoveOf(c, s, id);
    StepIsMove(c, s, id);
    HandoverDoesNotRestart(c, s, id);
    assert Next(Project(c, id), move) == Project(d, id);
    MoveKeepsClosed(Project(c, id), move, directory, id, c.profileId);
  }
}
