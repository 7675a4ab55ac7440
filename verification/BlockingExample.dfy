/** A blocked directory can be opened: two runtimes are bound to one player, the first one
    leaves, and the second one's settings-only binding is the directory it left. */
module BlockingExample {
  import opened Journals
  import opened HandoverTypes
  import opened CellSpec
  import opened CellProjection
  import opened CellInvariant
  import opened Blocking
  import opened ActivationOnDisk

  function Shared(): Path { PlayerDirectory("k") }

  function Leaving(): Identity {
    Identity("o", "a", "r", "t", "near", 2, 1, Digest())
  }

  function Arriving(): Identity {
    Identity("o", "a", "q", "t", "far", 1, 1, Digest())
  }

  function Placement(id: AccountId): Assignment { Assignment(id, "t", 2, 0, false, 1, Digest(), "", None) }

  function Bound(state: LocalState): LocalBinding { LocalBinding(Arriving(), "near", 2, Shared(), "p", state) }

  function LiveFence(): Fence { Fence(Leaving(), Shared(), "", false) }

  function LeftFence(): Fence { LiveFence().(stopped := true, profileId := "p") }

  /** Both runtimes have the player of key k, as after one was removed and added anew. */
  function Both(): map<AccountId, string> { map["r" := "k", "q" := "k"] }

  function Shares(): Cell {
    NewCell("near", 0, OneProfile).(playerBindings := Both(), assignments := map["r" := Placement("r")])
  }

  function Starting(): Cell {
    Shares().(pending := map["r" := Shared()], dataDirs := map[Shared() := "r"])
  }

  function Unfenced(): Cell {
    Shares().(accounts := map["r" := Runtime(7, Shared(), false)], dataDirs := map[Shared() := "r"])
  }

  function WithFence(c: Cell, fence: Fence): Cell {
    c.(fences := map["r" := fence], fenceDisk := Fresh(map["r" := fence]))
  }

  function Stopping(): Cell {
    WithFence(Unfenced(), LiveFence()).(accounts := map[], stopping := map["r" := Runtime(7, Shared(), false)])
  }

  function Left(fence: Fence): Cell {
    WithFence(Shares(), fence).(finished := {7})
  }

  function WithLocal(state: LocalState): Cell {
    Left(LeftFence()).(locals := map["q" := Bound(state)], localDisk := Fresh(map["q" := Bound(state)]))
  }

  function Binding(): seq<Step> {
    [OnAccounts(StepBind("r", "k")), OnAccounts(StepBind("q", "k")), OnAccounts(StepPublish(map["r" := Placement("r")]))]
  }

  /** Run r in the shared directory. */
  function Entering(): seq<Step> {
    [OnAccounts(StepBeginAdd("r", Shared(), Some(Placement("r")), true)), OnAccounts(StepFinishAdd("r", 7, true))]
  }

  /** Fence it, stop it and confirm the stop. */
  function Departing(): seq<Step> {
    [OnSource(StepFence(Leaving(), false, true, true, Synced)), OnAccounts(StepBeginStop("r")), OnAccounts(StepFinish(7)),
     OnAccounts(StepRelease("r", 7)), OnSource(StepConfirm(Leaving(), true, true, Synced))]
  }

  /** Bind q, settings only. */
  function Reusing(): seq<Step> {
    [OnLocal(StepReserveLocal(Arriving(), true, true, Synced)), OnLocal(StepActivateLocal(Bound(LocalReserved), true, Synced))]
  }

  lemma NamesAreValid()
    ensures ValidIdentity("r", Leaving()) && ValidIdentity("q", Arriving())
    ensures ValidComponent("k") && ValidProfileDirectory(Shared()) && ValidLocal(Bound(LocalReserved)) && ValidLocal(Bound(LocalActive))
  {
  }

  lemma BothBind(c: Cell, d: Cell, e: Cell)
    requires c == NewCell("near", 0, OneProfile) && d == c.(playerBindings := map["r" := "k"])
    requires e == c.(playerBindings := Both())
    ensures BindPlayer(c, "r", "k") == d && BindPlayer(d, "q", "k") == e
  {
    NamesAreValid();
    assert map["r" := "k"]["q" := "k"] == Both();
  }

  lemma FirstMayStart(c: Cell)
    requires c == Shares()
    ensures CanAdd(c, "r", Shared(), Some(Placement("r")), true) && MayHaveRead(c, "r", Shared())
  {
    NamesAreValid();
  }

  lemma FirstRuns(c: Cell, d: Cell, e: Cell)
    requires c == Shares() && d == Starting() && e == Unfenced()
    ensures Apply(c, OnAccounts(StepBeginAdd("r", Shared(), Some(Placement("r")), true))) == d && FinishAdd(d, "r", 7, true) == e
  {
    FirstMayStart(c);
    assert d.pending - {"r"} == map[];
  }

  lemma BothAreBound(c: Cell, d: Cell, e: Cell, f: Cell, steps: seq<Step>)
    requires c == NewCell("near", 0, OneProfile) && d == c.(playerBindings := map["r" := "k"])
    requires e == c.(playerBindings := Both()) && f == Shares() && steps == Binding()
    ensures RunSteps(c, steps) == f
  {
    BothBind(c, d, e);
    RunAlong([c, d, e, f], steps);
  }

  lemma FirstEnters(c: Cell, d: Cell, e: Cell, steps: seq<Step>)
    requires c == Shares() && d == Starting() && e == Unfenced() && steps == Entering()
    ensures RunSteps(c, steps) == e
  {
    FirstRuns(c, d, e);
    RunAlong([c, d, e], steps);
  }

  lemma FirstIsFenced(c: Cell, d: Cell)
    requires c == Unfenced() && d == WithFence(Unfenced(), LiveFence())
    ensures FenceSource(c, Leaving(), false, true, true, Synced).0 == d
  {
    NamesAreValid();
    assert FenceToSave(c, Leaving(), false, true, true) == Some(LiveFence());
    assert c.fences["r" := LiveFence()] == map["r" := LiveFence()];
  }

  lemma FirstStops(c: Cell, d: Cell)
    requires c == WithFence(Unfenced(), LiveFence()) && d == Stopping()
    ensures BeginStop(c, "r") == d
  {
    assert c.accounts - {"r"} == map[];
  }

  lemma FirstIsReleased(c: Cell, d: Cell)
    requires c == Stopping().(finished := {7}) && d == Left(LiveFence())
    ensures Release(c, "r", 7) == d
  {
    assert c.stopping - {"r"} == map[] && c.dataDirs - {Shared()} == map[];
  }

  lemma StopIsConfirmed(c: Cell, d: Cell)
    requires c == Left(LiveFence()) && d == Left(LeftFence())
    ensures ConfirmStopped(c, Leaving(), true, true, Synced).0 == d
  {
    NamesAreValid();
    assert StoppedFence(c, Leaving(), true, true) == Some(LeftFence());
    assert c.fences["r" := LeftFence()] == map["r" := LeftFence()];
  }

  lemma FirstLeaves(c: Cell, d: Cell, e: Cell, f: Cell, g: Cell, h: Cell, steps: seq<Step>)
    requires c == Unfenced() && d == WithFence(Unfenced(), LiveFence()) && e == Stopping() && f == Stopping().(finished := {7})
    requires g == Left(LiveFence()) && h == Left(LeftFence()) && steps == Departing()
    ensures RunSteps(c, steps) == h
  {
    FirstIsFenced(c, d);
    FirstStops(d, e);
    FirstIsReleased(f, g);
    StopIsConfirmed(g, h);
    RunAlong([c, d, e, f, g, h], steps);
  }

  lemma SecondIsReserved(c: Cell, d: Cell)
    requires c == Left(LeftFence()) && d == WithLocal(LocalReserved)
    ensures ReserveLocal(c, Arriving(), true, true, Synced).0 == d
  {
    NamesAreValid();
    assert CanReserveLocal(c, Arriving(), true);
    assert LocalToReserve(c, Arriving(), true, true) == Some(Bound(LocalReserved));
  }

  lemma SecondIsActivated(c: Cell, d: Cell)
    requires c == WithLocal(LocalReserved) && d == WithLocal(LocalActive)
    ensures ActivateLocal(c, Bound(LocalReserved), true, Synced).0 == d
  {
    NamesAreValid();
    assert c.locals["q" := Bound(LocalActive)] == map["q" := Bound(LocalActive)];
  }

  lemma SecondIsBound(c: Cell, d: Cell, e: Cell, steps: seq<Step>)
    requires c == Left(LeftFence()) && d == WithLocal(LocalReserved) && e == WithLocal(LocalActive) && steps == Reusing()
    ensures RunSteps(c, steps) == e
  {
    SecondIsReserved(c, d);
    SecondIsActivated(d, e);
    RunAlong([c, d, e], steps);
  }

  lemma SecondOpens(d: Cell)
    requires d == WithLocal(LocalActive)
    ensures CanAdd(d, "q", Shared(), Some(Placement("q")), true) && Blocks(Project(d, "r"), Shared())
  {
    NamesAreValid();
    assert !ProfileFenced(d, "q", Shared());
    SavedFenceBlocks(d, "r");
  }

  function Reopening(): seq<Step> {
    Binding() + Entering() + Departing() + Reusing()
  }

  lemma Reopened(c: Cell, d: Cell)
    requires c == NewCell("near", 0, OneProfile) && d == WithLocal(LocalActive)
    ensures RunSteps(c, Reopening()) == d
  {
    var shares, unfenced, stopping, left := Shares(), Unfenced(), Stopping(), Left(LeftFence());
    BothAreBound(c, c.(playerBindings := map["r" := "k"]), c.(playerBindings := Both()), shares, Binding());
    FirstEnters(shares, Starting(), unfenced, Entering());
    FirstLeaves(unfenced, WithFence(unfenced, LiveFence()), stopping, stopping.(finished := {7}), Left(LiveFence()), left, Departing());
    SecondIsBound(left, WithLocal(LocalReserved), d, Reusing());
    Stretches(c, Binding(), shares, Entering(), unfenced, Departing(), left, Reusing(), d);
  }

  /** From a fresh root: r's synced, stopped fence blocks the directory, r has no binding in
      any document, and q may be added to that directory. */
  lemma BlockedCanBeOpened()
    ensures var d := RunSteps(NewCell("near", 0, OneProfile), Reopening());
            && Blocks(Project(d, "r"), Shared()) && "r" !in d.locals
            && CanAdd(d, "q", Shared(), Some(Placement("q")), true)
  {
    var d := WithLocal(LocalActive);
    Reopened(NewCell("near", 0, OneProfile), d);
    SecondOpens(d);
  }
}
