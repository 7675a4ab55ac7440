/** The account limit can be passed: a slot that memory frees but the disk does not is
    given away, and a power loss claims it again. Two runs show the two ways: a fence that
    failed to reach the disk, and an activation that did. */
module CapacityExample {
  import opened Journals
  import opened HandoverTypes
  import opened CellSpec
  import opened CellInvariant
  import opened Capacity
  import opened ActivationOnDisk

  function Arriving(id: AccountId): Identity {
    Identity("o", "a", id, "t", "far", 1, 1, Digest())
  }

  function Leaving(): Identity {
    Identity("o", "a", "r", "t", "near", 2, 1, Digest())
  }

  function Bound(id: AccountId, state: LocalState): LocalBinding {
    LocalBinding(Arriving(id), "near", 2, StagingDirectory(id), "p", state)
  }

  function Placement(): Assignment { Assignment("r", "t", 2, 0, false, 1, Digest(), "", None) }

  function LeavingFence(): Fence { Fence(Leaving(), StagingDirectory("r"), "", false) }

  function Running(): Runtime { Runtime(7, StagingDirectory("r"), false) }

  function Taken(): map<Path, AccountId> { map[StagingDirectory("r") := "r"] }

  function One(state: LocalState): Locals { map["r" := Bound("r", state)] }

  function Holding(locals: Locals, disk: Disk<Locals>): Cell {
    NewCell("near", 1, OneProfile).(locals := locals, localDisk := disk)
  }

  function Placed(disk: Disk<Locals>): Cell {
    Holding(One(LocalActive), disk).(assignments := map["r" := Placement()])
  }

  function Unfenced(disk: Disk<Locals>): Cell {
    Placed(disk).(accounts := map["r" := Running()], dataDirs := Taken())
  }

  function Fenced(disk: Disk<Locals>, fence: Fence, fenceDisk: Disk<Fences>): Cell {
    Placed(disk).(fences := map["r" := fence], fenceDisk := fenceDisk, finished := {7})
  }

  function Drained(): Cell {
    Fenced(Fresh(One(LocalActive)), LeavingFence(), Fresh(map[]))
  }

  /** Run r from its active binding. */
  function Entering(): seq<Step> {
    [OnAccounts(StepPublish(map["r" := Placement()])),
     OnAccounts(StepBeginAdd("r", StagingDirectory("r"), Some(Placement()), true)),
     OnAccounts(StepFinishAdd("r", 7, true))]
  }

  /** Fence it, stop it. */
  function Departing(fenceOutcome: WriteOutcome): seq<Step> {
    [OnSource(StepFence(Leaving(), false, true, true, fenceOutcome)),
     OnAccounts(StepBeginStop("r")),
     OnAccounts(StepFinish(7)),
     OnAccounts(StepRelease("r", 7))]
  }

  lemma IdentitiesAreValid()
    ensures ValidIdentity("r", Arriving("r")) && ValidIdentity("q", Arriving("q")) && ValidIdentity("r", Leaving())
    ensures ValidComponent("r") && ValidComponent("q")
  {
  }

  // ---- r is bound here

  function Binding(activation: WriteOutcome): seq<Step> {
    [OnLocal(StepReserveLocal(Arriving("r"), true, true, Synced)),
     OnLocal(StepActivateLocal(Bound("r", LocalReserved), true, activation))]
  }

  function BindingDisk(activation: WriteOutcome): Disk<Locals> {
    Write(Fresh(One(LocalReserved)), One(LocalActive), activation)
  }

  lemma FirstIsReserved(c: Cell, d: Cell)
    requires c == NewCell("near", 1, OneProfile) && d == Holding(One(LocalReserved), Fresh(One(LocalReserved)))
    ensures ReserveLocal(c, Arriving("r"), true, true, Synced).0 == d
  {
    IdentitiesAreValid();
    assert ReservedIds(c, "r") == {};
    assert CanReserveLocal(c, Arriving("r"), true);
    assert LocalToReserve(c, Arriving("r"), true, true) == Some(Bound("r", LocalReserved));
  }

  lemma FirstIsActivated(c: Cell, d: Cell, activation: WriteOutcome)
    requires c == Holding(One(LocalReserved), Fresh(One(LocalReserved)))
    requires d == Holding(One(LocalActive), BindingDisk(activation))
    ensures ActivateLocal(c, Bound("r", LocalReserved), true, activation).0 == d
  {
    IdentitiesAreValid();
    assert c.locals["r" := Bound("r", LocalActive)] == One(LocalActive);
  }

  lemma FirstIsBound(c: Cell, d: Cell, e: Cell, activation: WriteOutcome, steps: seq<Step>)
    requires c == NewCell("near", 1, OneProfile) && d == Holding(One(LocalReserved), Fresh(One(LocalReserved)))
    requires e == Holding(One(LocalActive), BindingDisk(activation)) && steps == Binding(activation)
    ensures RunSteps(c, steps) == e
  {
    FirstIsReserved(c, d);
    FirstIsActivated(d, e, activation);
    RunAlong([c, d, e], steps);
  }

  // ---- r runs, is fenced and stops

  function Starting(disk: Disk<Locals>): Cell {
    Placed(disk).(pending := map["r" := StagingDirectory("r")], dataDirs := Taken())
  }

  lemma FirstMayStart(c: Cell, disk: Disk<Locals>)
    requires c == Placed(disk)
    ensures CanAdd(c, "r", StagingDirectory("r"), Some(Placement()), true) && MayHaveRead(c, "r", StagingDirectory("r"))
  {
    IdentitiesAreValid();
    assert ReservedIds(c, "r") == {};
  }

  lemma FirstStarts(c: Cell, d: Cell, disk: Disk<Locals>)
    requires c == Placed(disk) && d == Starting(disk)
    ensures ApplyAccount(c, StepBeginAdd("r", StagingDirectory("r"), Some(Placement()), true)) == d
  {
    FirstMayStart(c, disk);
  }

  lemma FirstRuns(c: Cell, d: Cell, disk: Disk<Locals>)
    requires c == Starting(disk) && d == Unfenced(disk)
    ensures FinishAdd(c, "r", 7, true) == d
  {
    assert c.pending - {"r"} == map[];
  }

  function FenceJournal(outcome: WriteOutcome): Disk<Fences> {
    Write(Fresh(map[]), map["r" := LeavingFence()], outcome)
  }

  function FencedCell(disk: Disk<Locals>, outcome: WriteOutcome): Cell {
    Unfenced(disk).(fences := map["r" := LeavingFence()], fenceDisk := FenceJournal(outcome))
  }

  lemma FirstIsFenced(c: Cell, d: Cell, disk: Disk<Locals>, outcome: WriteOutcome)
    requires c == Unfenced(disk) && d == FencedCell(disk, outcome)
    ensures FenceSource(c, Leaving(), false, true, true, outcome).0 == d
  {
    IdentitiesAreValid();
    assert FenceToSave(c, Leaving(), false, true, true) == Some(LeavingFence());
    assert c.fences["r" := LeavingFence()] == map["r" := LeavingFence()];
  }

  function StoppingCell(disk: Disk<Locals>, outcome: WriteOutcome): Cell {
    FencedCell(disk, outcome).(accounts := map[], stopping := map["r" := Running()])
  }

  lemma FirstStops(c: Cell, d: Cell, disk: Disk<Locals>, outcome: WriteOutcome)
    requires c == FencedCell(disk, outcome) && d == StoppingCell(disk, outcome)
    ensures BeginStop(c, "r") == d
  {
    assert c.accounts - {"r"} == map[];
  }

  lemma FirstIsReleased(c: Cell, d: Cell, disk: Disk<Locals>, outcome: WriteOutcome)
    requires c == StoppingCell(disk, outcome).(finished := {7})
    requires d == Fenced(disk, LeavingFence(), FenceJournal(outcome))
    ensures Release(c, "r", 7) == d
  {
    assert c.stopping - {"r"} == map[] && Taken() - {StagingDirectory("r")} == map[];
  }

  lemma Three(c: Cell, first: Step, d: Cell, second: Step, e: Cell, third: Step, f: Cell)
    requires Apply(c, first) == d && Apply(d, second) == e && Apply(e, third) == f
    ensures RunSteps(c, [first, second, third]) == f
  {
    RunAlong([c, d, e, f], [first, second, third]);
  }

  lemma FirstEnters(c0: Cell, c1: Cell, c2: Cell, c3: Cell, disk: Disk<Locals>, steps: seq<Step>)
    requires c0 == Holding(One(LocalActive), disk) && c1 == Placed(disk) && c2 == Starting(disk) && c3 == Unfenced(disk)
    requires steps == Entering()
    ensures RunSteps(c0, steps) == c3
  {
    FirstStarts(c1, c2, disk);
    FirstRuns(c2, c3, disk);
    Three(c0, steps[0], c1, steps[1], c2, steps[2], c3);
  }

  lemma FirstLeaves(c3: Cell, c4: Cell, c5: Cell, c6: Cell, c7: Cell, disk: Disk<Locals>, outcome: WriteOutcome, steps: seq<Step>)
    requires c3 == Unfenced(disk) && c4 == FencedCell(disk, outcome) && c5 == StoppingCell(disk, outcome)
    requires c6 == StoppingCell(disk, outcome).(finished := {7})
    requires c7 == Fenced(disk, LeavingFence(), FenceJournal(outcome)) && steps == Departing(outcome)
    ensures RunSteps(c3, steps) == c7
  {
    FirstIsFenced(c3, c4, disk, outcome);
    FirstStops(c4, c5, disk, outcome);
    FirstIsReleased(c6, c7, disk, outcome);
    RunAlong([c3, c4, c5, c6, c7], steps);
  }

  lemma FirstDeparted(disk: Disk<Locals>, activation: WriteOutcome, outcome: WriteOutcome, c: Cell, f: Cell, last: seq<Step>, g: Cell)
    requires c == NewCell("near", 1, OneProfile) && disk == BindingDisk(activation)
    requires f == Fenced(disk, LeavingFence(), FenceJournal(outcome)) && RunSteps(f, last) == g
    ensures RunSteps(c, Binding(activation) + Entering() + Departing(outcome) + last) == g
  {
    var d, e := Holding(One(LocalActive), disk), Unfenced(disk);
    var stopping := StoppingCell(disk, outcome);
    var first, second, third := Binding(activation), Entering(), Departing(outcome);
    FirstIsBound(c, Holding(One(LocalReserved), Fresh(One(LocalReserved))), d, activation, first);
    FirstEnters(d, Placed(disk), Starting(disk), e, disk, second);
    FirstLeaves(e, FencedCell(disk, outcome), stopping, stopping.(finished := {7}), f, disk, outcome, third);
    Stretches(c, first, d, second, e, third, f, last, g);
  }

  lemma TwoIsMore(c: Cell)
    requires Occupied(c) == {"r", "q"} && c.maxAccounts == 1
    ensures !WithinLimit(c)
  {
    assert "r" != "q";
    assert |{"r", "q"}| == 2;
  }

  // ---- the fence is lost

  function BothBound(): Locals {
    map["r" := Bound("r", LocalActive), "q" := Bound("q", LocalReserved)]
  }

  /** The slot goes to q's binding; the lost fence makes r's binding active again. */
  function Giving(): seq<Step> {
    [OnLocal(StepReserveLocal(Arriving("q"), true, true, Synced)),
     OnRestart(StepCrash(map[], NoAdoptions, BothBound(), map[]))]
  }

  function Overbooking(): seq<Step> {
    Binding(Synced) + Entering() + Departing(NotRenamed) + Giving()
  }

  lemma SecondIsAdmitted(c: Cell)
    requires c == Drained()
    ensures LocalToReserve(c, Arriving("q"), true, true) == Some(Bound("q", LocalReserved))
  {
    IdentitiesAreValid();
    assert !ClaimsSlot(c, "r");
    assert ReservedIds(c, "q") == {} && HasCapacity(c, "q");
    assert CanReserveLocal(c, Arriving("q"), true);
  }

  lemma Bounded(c: Cell, identity: Identity, binding: LocalBinding)
    requires LocalToReserve(c, identity, true, true) == Some(binding) && ValidLocal(binding)
    requires binding.identity.runtimeId == identity.runtimeId
    ensures ReserveLocal(c, identity, true, true, Synced).0
            == c.(locals := c.locals[identity.runtimeId := binding], localDisk := Fresh(c.locals[identity.runtimeId := binding]))
  {
  }

  lemma SecondBinds(c: Cell, s: Step, d: Cell)
    requires c == Drained() && d == c.(locals := BothBound(), localDisk := Fresh(BothBound()))
    requires s == OnLocal(StepReserveLocal(Arriving("q"), true, true, Synced))
    ensures Apply(c, s) == d
  {
    IdentitiesAreValid();
    SecondIsAdmitted(c);
    Bounded(c, Arriving("q"), Bound("q", LocalReserved));
    assert c.locals["q" := Bound("q", LocalReserved)] == BothBound();
  }

  lemma FenceIsLost(c: Cell, s: Step, d: Cell)
    requires c == Drained().(locals := BothBound(), localDisk := Fresh(BothBound()))
    requires d == Holding(BothBound(), Fresh(BothBound())).(finished := {7})
    requires s == OnRestart(StepCrash(map[], NoAdoptions, BothBound(), map[]))
    ensures Apply(c, s) == d
  {
  }

  lemma BothClaim(d: Cell)
    requires d == Holding(BothBound(), Fresh(BothBound())).(finished := {7})
    ensures !WithinLimit(d)
  {
    assert ClaimsSlot(d, "r") && ClaimsSlot(d, "q");
    TwoIsMore(d);
  }

  lemma GivingEnds(c: Cell, given: Cell, d: Cell, steps: seq<Step>)
    requires c == Drained() && given == c.(locals := BothBound(), localDisk := Fresh(BothBound()))
    requires d == Holding(BothBound(), Fresh(BothBound())).(finished := {7}) && steps == Giving()
    ensures RunSteps(c, steps) == d
  {
    SecondBinds(c, steps[0], given);
    FenceIsLost(given, steps[1], d);
    RunAlong([c, given, d], steps);
  }

  /** One slot, two runtimes holding it. */
  lemma LimitCanBePassed()
    ensures !WithinLimit(RunSteps(NewCell("near", 1, OneProfile), Overbooking()))
  {
    var c, d, steps := Drained(), Holding(BothBound(), Fresh(BothBound())).(finished := {7}), Giving();
    GivingEnds(c, c.(locals := BothBound(), localDisk := Fresh(BothBound())), d, steps);
    BothClaim(d);
    FirstDeparted(BindingDisk(Synced), Synced, NotRenamed, NewCell("near", 1, OneProfile), c, steps, d);
  }

  // ---- the activation is lost

  function LeftFence(): Fence { LeavingFence().(stopped := true, profileId := "p") }

  function Stopped(): Fences { map["r" := LeftFence()] }

  function Imported(): TargetProfile {
    TargetProfile(Receipt(Identity("x", "a", "q", "t", "far", 1, 1, Digest()), 1, "p", Digest(), 1, 1), "near", 2,
                  TransferDirectory("x"), Reserved)
  }

  function Import(): Adoptions {
    Adoptions(map["x" := Imported()], map["q" := "x"], map[StagingDirectory("q") := "q"])
  }

  /** Fence and stop of r are synced, and q's archive gets the slot; r's binding comes back
      as merely reserved, which claims a slot whatever the fence says. */
  function Importing(): seq<Step> {
    [OnSource(StepConfirm(Leaving(), true, true, Synced)),
     OnTarget(StepReserve(Imported(), FileView({}, true))),
     OnTarget(StepSaveAdoptions(Synced)),
     OnRestart(StepCrash(Stopped(), Import(), One(LocalReserved), map[]))]
  }

  function Forgetting(): seq<Step> {
    Binding(NotRenamed) + Entering() + Departing(Synced) + Importing()
  }

  function Halted(): Cell {
    Fenced(Fresh(One(LocalReserved)), LeftFence(), Fresh(Stopped()))
  }

  lemma StopIsConfirmed(c: Cell, s: Step, d: Cell)
    requires c == Fenced(Fresh(One(LocalReserved)), LeavingFence(), FenceJournal(Synced)) && d == Halted()
    requires s == OnSource(StepConfirm(Leaving(), true, true, Synced))
    ensures Apply(c, s) == d
  {
    IdentitiesAreValid();
    assert StoppedFence(c, Leaving(), true, true) == Some(LeftFence());
    assert c.fences["r" := LeftFence()] == Stopped();
  }

  lemma ImportIsValid()
    ensures ValidTarget(Imported())
  {
  }

  lemma ImportHasRoom(c: Cell)
    requires c == Halted()
    ensures HasCapacity(c, "q") && CurrentProfile(c.adoptions, "q").None? && "q" !in c.fences && "q" !in c.locals
  {
    assert !ClaimsSlot(c, "r");
    assert ReservedIds(c, "q") == {};
  }

  lemma ImportIsAdmitted(c: Cell, files: FileView)
    requires c == Halted() && files == FileView({}, true)
    ensures CanReserve(c, Imported(), files)
    ensures OldDirectories(c, "q") - {Imported().directory} == {StagingDirectory("q")}
  {
    ImportHasRoom(c);
  }

  lemma ImportReplaces(c: Cell, d: Cell, files: FileView, retired: set<Path>)
    requires ValidTarget(Imported()) && CanReserve(c, Imported(), files) && c.cellId == "near" && c.adoptions == NoAdoptions
    requires retired == OldDirectories(c, "q") - {Imported().directory}
    ensures Reserve(c, Imported(), files).0 == c.(adoptions := AfterReservation(NoAdoptions, Imported(), retired))
  {
  }

  lemma ImportIsReserved(c: Cell, d: Cell, files: FileView)
    requires c == Halted() && d == c.(adoptions := Import()) && files == FileView({}, true)
    ensures Reserve(c, Imported(), files).0 == d
  {
    ImportIsValid();
    ImportIsAdmitted(c, files);
    ImportReplaces(c, d, files, {StagingDirectory("q")});
    ImportIsOnly();
  }

  lemma ImportIsOnly()
    ensures AfterReservation(NoAdoptions, Imported(), {StagingDirectory("q")}) == Import()
  {
  }

  lemma ImportSteps(c: Cell, s: Step, d: Cell, files: FileView)
    requires Reserve(c, Imported(), files).0 == d && s == OnTarget(StepReserve(Imported(), files))
    ensures Apply(c, s) == d
  {
  }

  lemma ActivationIsLost(c: Cell, s: Step, d: Cell)
    requires c == Halted().(adoptions := Import(), adoptionDisk := Fresh(Import()))
    requires d == c.(locals := One(LocalReserved), assignments := map[])
    requires s == OnRestart(StepCrash(Stopped(), Import(), One(LocalReserved), map[]))
    ensures Apply(c, s) == d
  {
  }

  lemma BothReserved(d: Cell)
    requires d == Halted().(adoptions := Import(), adoptionDisk := Fresh(Import()), locals := One(LocalReserved), assignments := map[])
    ensures !WithinLimit(d)
  {
    assert ClaimsSlot(d, "r") && ClaimsSlot(d, "q");
    TwoIsMore(d);
  }

  lemma ImportIsSaved(c: Cell, s: Step, d: Cell)
    requires c == Halted().(adoptions := Import()) && d == c.(adoptionDisk := Fresh(Import()))
    requires s == OnTarget(StepSaveAdoptions(Synced))
    ensures Apply(c, s) == d
  {
  }

  lemma ImportingEnds(halted: Cell, reserved: Cell, saved: Cell, d: Cell, steps: seq<Step>)
    requires halted == Halted()
    requires reserved == halted.(adoptions := Import()) && saved == reserved.(adoptionDisk := Fresh(Import()))
    requires d == saved.(locals := One(LocalReserved), assignments := map[]) && steps == Importing()[1..]
    ensures RunSteps(halted, steps) == d
  {
    ImportIsReserved(halted, reserved, FileView({}, true));
    ImportSteps(halted, steps[0], reserved, FileView({}, true));
    ImportIsSaved(reserved, steps[1], saved);
    ActivationIsLost(saved, steps[2], d);
    assert steps == [steps[0], steps[1], steps[2]];
    Three(halted, steps[0], reserved, steps[1], saved, steps[2], d);
  }

  lemma StopThenImport(c: Cell, halted: Cell, d: Cell, steps: seq<Step>)
    requires c == Fenced(Fresh(One(LocalReserved)), LeavingFence(), FenceJournal(Synced)) && halted == Halted()
    requires steps == Importing() && RunSteps(halted, steps[1..]) == d
    ensures RunSteps(c, steps) == d
  {
    StopIsConfirmed(c, steps[0], halted);
  }

  /** The fence is on disk, and still two runtimes hold the one slot. */
  lemma LimitCanBePassedBehindFence()
    ensures !WithinLimit(RunSteps(NewCell("near", 1, OneProfile), Forgetting()))
  {
    var disk, steps := BindingDisk(NotRenamed), Importing();
    var c, halted := Fenced(disk, LeavingFence(), FenceJournal(Synced)), Halted();
    var reserved := halted.(adoptions := Import());
    var saved := reserved.(adoptionDisk := Fresh(Import()));
    var d := saved.(locals := One(LocalReserved), assignments := map[]);
    ImportingEnds(halted, reserved, saved, d, steps[1..]);
    StopThenImport(c, halted, d, steps);
    BothReserved(d);
    FirstDeparted(disk, NotRenamed, Synced, NewCell("near", 1, OneProfile), c, steps, d);
  }
}
