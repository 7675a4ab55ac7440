/** How an admitted runtime starts and ends, and what closing and restarting leave of it. */
module AccountAnswers {
  import opened Journals
  import opened HandoverTypes
  import opened CellSpec
  import opened CellInvariant

  lemma FinishIs(c: Cell, admitted: Cell, id: AccountId, place: Path, application: nat, constructed: bool)
    requires admitted == c.(pending := c.pending[id := place], dataDirs := c.dataDirs[place := id])
    requires id !in c.pending && place !in c.dataDirs
    ensures FinishAdd(admitted, id, application, constructed)
            == if constructed && !c.closed
               then c.(accounts := c.accounts[id := Runtime(application, place, false)], dataDirs := c.dataDirs[place := id])
               else c
  {
    assert c.pending[id := place] - {id} == c.pending;
    assert c.dataDirs[place := id] - {place} == c.dataDirs;
  }

  /** An admitted runtime is started exactly if its application was constructed; a failed
      construction leaves no trace, and neither does one that met a closed supervisor. */
  lemma AddedExactly(c: Cell, id: AccountId, place: Path, assignment: Option<Assignment>, readable: bool, application: nat,
                     constructed: bool)
    requires CanAdd(c, id, place, assignment, readable)
    ensures var admitted := BeginAdd(c, id, place, assignment, readable);
            && FinishAdd(admitted, id, application, constructed)
               == (if constructed
                   then c.(accounts := c.accounts[id := Runtime(application, place, false)], dataDirs := c.dataDirs[place := id])
                   else c)
            && FinishAdd(Close(admitted), id, application, constructed) == Close(c)
  {
    var admitted := BeginAdd(c, id, place, assignment, readable);
    FinishIs(c, admitted, id, place, application, constructed);
    FinishIs(Close(c), Close(admitted), id, place, application, constructed);
  }

  lemma ReleaseIgnoresWatch(c: Cell, id: AccountId, application: nat)
    requires id in c.stopping && c.stopping[id].application == application
    ensures Release(Finish(WatchStop(c, id, application), application), id, application)
            == Release(Finish(c, application), id, application)
  {
    var watched := WatchStop(c, id, application);
    assert watched.stopping - {id} == c.stopping - {id};
    assert watched.stopping[id].directory == c.stopping[id].directory;
  }

  /** A removal that gave up waiting and one that waited leave the same behind, once the
      application of the former has ended as well. */
  lemma LateReleaseAgrees(c: Cell, id: AccountId, stopped: bool)
    requires id in c.accounts || id in c.stopping
    ensures var application := if id in c.accounts then c.accounts[id].application else c.stopping[id].application;
            && !Remove(c, id, stopped, false).1
            && Release(Finish(Remove(c, id, stopped, false).0, application), id, application) == Remove(c, id, stopped, true).0
  {
    ReleaseIgnoresWatch(BeginStop(c, id), id, BeginStop(c, id).stopping[id].application);
  }

  /** Only the first caller gets to watch a stopping application. */
  lemma WatchedOnce(c: Cell, id: AccountId, application: nat)
    ensures var d := WatchStop(c, id, application);
            && (d != c <==> id in c.stopping && c.stopping[id].application == application && !c.stopping[id].watched)
            && !CanWatch(d, id, application)
            && (d != c ==> d == c.(stopping := c.stopping[id := Runtime(application, c.stopping[id].directory, true)]))
  {
    if CanWatch(c, id, application) {
      assert WatchStop(c, id, application).stopping[id].watched;
    }
  }

  /** A late watcher releases neither an application that has not ended nor another one that
      took its place. */
  lemma OtherApplicationIsKept(c: Cell, id: AccountId, application: nat)
    requires application !in c.finished || (id in c.stopping ==> c.stopping[id].application != application)
    ensures Release(c, id, application) == c
  {
  }

  // ---- closing

  predicate StaysClosed(c: Cell, d: Cell) {
    && d.closed && (forall id :: id in d.accounts ==> id in c.accounts) && (forall id :: id in d.pending ==> id in c.pending)
    && (forall id :: id in d.stopping ==> id in c.stopping || id in c.accounts)
  }

  lemma NobodyIsAdmitted(c: Cell, id: AccountId, directory: Path, assignment: Option<Assignment>, readable: bool)
    requires c.closed
    ensures BeginAdd(c, id, directory, assignment, readable) == c
  {
  }

  lemma OnlyBinds(c: Cell, id: AccountId, key: string)
    ensures SameTables(c, BindPlayer(c, id, key).(playerBindings := c.playerBindings)) && BindPlayer(c, id, key).closed == c.closed
  {
  }

  lemma StartStaysClosed(c: Cell, id: AccountId, application: nat, constructed: bool)
    requires c.closed
    ensures StaysClosed(c, FinishAdd(c, id, application, constructed)) && StaysClosed(c, BeginStop(c, id))
  {
  }

  lemma ReleaseStaysClosed(c: Cell, id: AccountId, application: nat)
    requires c.closed
    ensures StaysClosed(c, Release(c, id, application)) && StaysClosed(c, WatchStop(c, id, application))
  {
  }

  lemma ClosedAccounts(c: Cell, s: AccountStep)
    requires c.closed
    ensures StaysClosed(c, ApplyAccount(c, s))
  {
    match s
    case StepBeginAdd(id, directory, assignment, readable) => NobodyIsAdmitted(c, id, directory, assignment, readable);
    case StepBind(id, key) => OnlyBinds(c, id, key);
    case StepFinishAdd(id, application, constructed) => StartStaysClosed(c, id, application, constructed);
    case StepBeginStop(id) => StartStaysClosed(c, id, 0, false);
    case StepRelease(id, application) => ReleaseStaysClosed(c, id, application);
    case StepWatch(id, application) => ReleaseStaysClosed(c, id, application);
    case _ =>
  }

  lemma ClosedStep(c: Cell, s: Step)
    requires c.closed && !s.OnRestart?
    ensures StaysClosed(c, Apply(c, s))
  {
    match s
    case OnAccounts(step) => ClosedAccounts(c, step);
    case OnSource(step) => SourceOnlyFences(c, step);
    case OnTarget(step) => TargetOnlyAdoptions(c, step);
    case OnLocal(step) => LocalOnlyBindings(c, step);
  }

  /** Once the supervisor is closed, no runtime is admitted or started in this process. */
  lemma {:induction false} ClosedForGood(c: Cell, steps: seq<Step>)
    requires c.closed && forall s :: s in steps ==> !s.OnRestart?
    ensures StaysClosed(c, RunSteps(c, steps))
    decreases |steps|
  {
    if steps != [] {
      assert !steps[0].OnRestart?;
      ClosedStep(c, steps[0]);
      ClosedForGood(Apply(c, steps[0]), steps[1..]);
    }
  }

  // ---- restarting

  /** The process starts anew: open, with nothing running and nothing assigned. */
  ghost predicate Anew(d: Cell, c: Cell, bindings: map<AccountId, string>) {
    && !d.closed && d.accounts == map[] && d.pending == map[] && d.stopping == map[] && d.dataDirs == map[]
    && d.assignments == map[] && d.playerBindings == bindings
    && d.cellId == c.cellId && d.maxAccounts == c.maxAccounts && d.profileId == c.profileId
  }

  /** After a bare exit the process reads what the machine shows, and the files are as they
      were; after a power loss each file holds one of the documents it might, and the process
      reads that. */
  lemma RestartedExactly(c: Cell, s: RestartStep)
    requires ValidBindings(s.bindings)
    ensures var d := ApplyRestart(c, s);
            && (s.StepExit? ==>
                  && Anew(d, c, s.bindings) && d.fences == c.fenceDisk.visible && d.adoptions == c.adoptionDisk.visible
                  && d.locals == c.localDisk.visible
                  && d.fenceDisk == c.fenceDisk && d.adoptionDisk == c.adoptionDisk && d.localDisk == c.localDisk)
            && (s.StepCrash? && s.fences in c.fenceDisk.possible && s.adoptions in c.adoptionDisk.possible
                && s.locals in c.localDisk.possible ==>
                  && Anew(d, c, s.bindings) && d.fences == s.fences && d.adoptions == s.adoptions && d.locals == s.locals
                  && d.fenceDisk == Disk(s.fences, {s.fences}) && d.adoptionDisk == Disk(s.adoptions, {s.adoptions})
                  && d.localDisk == Disk(s.locals, {s.locals}))
  {
  }

  /** What a replacement of a file leaves there: nothing new, both documents, or the new one
      alone. */
  lemma WrittenExactly<T>(disk: Disk<T>, document: T, outcome: WriteOutcome, after: T)
    ensures var d := Write(disk, document, outcome);
            && d.visible == (if outcome.NotRenamed? then disk.visible else document)
            && (after in d.possible <==>
                  || (after in disk.possible && !outcome.Synced?)
                  || (after == document && !outcome.NotRenamed?))
  {
  }
}
