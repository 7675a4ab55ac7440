/** Directories belong to live runtimes, one each, until their application has ended. */
module DirectoryOwnership {
  import opened Journals
  import opened HandoverTypes
  import opened CellSpec
  import opened CellProjection
  import opened CellInvariant
  import opened EpochChain

  /** In every reachable state the reserved directories and the live runtimes correspond
      one to one, and each runtime is in exactly one table. */
  lemma DirectoriesMatchRuntimes(cellId: string, maxAccounts: nat, profileId: Path -> string, steps: seq<Step>)
    ensures var c := RunSteps(NewCell(cellId, maxAccounts, profileId), steps);
            && (forall a, b :: IsLive(c, a) && IsLive(c, b) && a != b ==> DirectoryOf(c, a) != DirectoryOf(c, b))
            && c.dataDirs.Keys == (set id | id in LiveIds(c) :: DirectoryOf(c, id).value)
            && |c.dataDirs| == LiveCount(c)
  {
    var c := RunSteps(NewCell(cellId, maxAccounts, profileId), steps);
    NewCellInv(cellId, maxAccounts, profileId);
    RunKeepsCellInv(NewCell(cellId, maxAccounts, profileId), steps);
    TablesMatch(c);
  }

  lemma NoSharing(c: Cell, a: AccountId, b: AccountId)
    requires DirectoriesOwned(c) && IsLive(c, a) && IsLive(c, b) && a != b
    ensures DirectoryOf(c, a) != DirectoryOf(c, b)
  {
  }

  lemma TablesMatch(c: Cell)
    requires DirectoriesOwned(c)
    ensures forall a, b :: IsLive(c, a) && IsLive(c, b) && a != b ==> DirectoryOf(c, a) != DirectoryOf(c, b)
    ensures c.dataDirs.Keys == (set id | id in LiveIds(c) :: DirectoryOf(c, id).value)
    ensures |c.dataDirs| == LiveCount(c)
  {
    forall a, b | IsLive(c, a) && IsLive(c, b) && a != b { NoSharing(c, a, b); }
    KeysAreDirectories(c);
    AsManyDirectories(c);
  }

  lemma AsManyIds(c: Cell)
    requires DirectoriesOwned(c)
    ensures |c.dataDirs| == |LiveIds(c)|
  {
    assert forall id :: id in LiveIds(c) <==> IsLive(c, id);
    SameSize(LiveIds(c), c.dataDirs, id => DirectoryOf(c, id));
  }

  lemma AsManyDirectories(c: Cell)
    requires DirectoriesOwned(c)
    ensures |c.dataDirs| == LiveCount(c)
  {
    AsManyIds(c);
    Sizes(c.accounts.Keys, c.pending.Keys, c.stopping.Keys);
  }

  lemma KeysAreDirectories(c: Cell)
    requires DirectoriesOwned(c)
    ensures c.dataDirs.Keys == (set id | id in LiveIds(c) :: DirectoryOf(c, id).value)
  {
  }

  lemma Sizes(a: set<AccountId>, b: set<AccountId>, c: set<AccountId>)
    requires a !! b && a !! c && b !! c
    ensures |a + b + c| == |a| + |b| + |c|
  {
  }

  /** A one-to-one table has as many entries as it has owners. */
  lemma {:induction false} SameSize(ids: set<AccountId>, table: map<Path, AccountId>, at: AccountId -> Option<Path>)
    requires forall id :: id in ids ==> at(id).Some? && at(id).value in table && table[at(id).value] == id
    requires forall directory :: directory in table ==> table[directory] in ids && at(table[directory]) == Some(directory)
    ensures |table| == |ids|
    decreases ids
  {
    if ids == {} {
      assert table == map[];
    } else {
      var id :| id in ids;
      var directory := at(id).value;
      var rest := table - {directory};
      assert |rest| == |table| - 1 by { assert rest.Keys == table.Keys - {directory}; }
      SameSize(ids - {id}, rest, at);
    }
  }

  // ---- held until the application has ended

  function RuntimeOf(c: Cell, id: AccountId): Option<Runtime> {
    if id in c.accounts then Some(c.accounts[id]) else if id in c.stopping then Some(c.stopping[id]) else None
  }

  predicate Runs(c: Cell, id: AccountId, application: nat, directory: Path) {
    RuntimeOf(c, id).Some? && RuntimeOf(c, id).value.application == application && RuntimeOf(c, id).value.directory == directory
  }

  lemma ReleaseHolds(c: Cell, who: AccountId, released: nat, id: AccountId, application: nat, directory: Path)
    requires DirectoriesOwned(c) && Runs(c, id, application, directory)
    ensures Runs(Release(c, who, released), id, application, directory) || application in c.finished
  {
  }

  lemma FinishHolds(c: Cell, who: AccountId, started: nat, constructed: bool, id: AccountId, application: nat, directory: Path)
    requires DirectoriesOwned(c) && Runs(c, id, application, directory)
    ensures Runs(FinishAdd(c, who, started, constructed), id, application, directory)
  {
  }

  lemma StopHolds(c: Cell, who: AccountId, id: AccountId, application: nat, directory: Path)
    requires DirectoriesOwned(c) && Runs(c, id, application, directory)
    ensures Runs(BeginStop(c, who), id, application, directory)
  {
  }

  lemma WatchHolds(c: Cell, who: AccountId, watched: nat, id: AccountId, application: nat, directory: Path)
    requires Runs(c, id, application, directory)
    ensures Runs(WatchStop(c, who, watched), id, application, directory)
  {
  }

  predicate SameRuntimes(c: Cell, d: Cell) {
    d.accounts == c.accounts && d.stopping == c.stopping && c.finished <= d.finished
  }

  lemma BeginKeepsRuntimes(c: Cell, id: AccountId, directory: Path, assignment: Option<Assignment>, readable: bool)
    ensures SameRuntimes(c, BeginAdd(c, id, directory, assignment, readable))
  {
  }

  lemma BindKeepsRuntimes(c: Cell, id: AccountId, key: string)
    ensures SameRuntimes(c, BindPlayer(c, id, key))
  {
  }

  lemma OthersKeepRuntimes(c: Cell, s: AccountStep)
    requires s.StepBeginAdd? || s.StepFinish? || s.StepBind? || s.StepPublish? || s.StepClose?
    ensures SameRuntimes(c, ApplyAccount(c, s))
  {
    match s
    case StepBeginAdd(id, directory, assignment, readable) => BeginKeepsRuntimes(c, id, directory, assignment, readable);
    case StepBind(id, key) => BindKeepsRuntimes(c, id, key);
    case _ =>
  }

  lemma FinishedGrows(c: Cell, s: AccountStep)
    ensures c.finished <= ApplyAccount(c, s).finished
  {
  }

  lemma AccountsHold(c: Cell, s: AccountStep, id: AccountId, application: nat, directory: Path)
    requires DirectoriesOwned(c) && Runs(c, id, application, directory)
    ensures Runs(ApplyAccount(c, s), id, application, directory) || application in c.finished
  {
    match s
    case StepFinishAdd(who, started, constructed) => FinishHolds(c, who, started, constructed, id, application, directory);
    case StepBeginStop(who) => StopHolds(c, who, id, application, directory);
    case StepRelease(who, released) => ReleaseHolds(c, who, released, id, application, directory);
    case StepWatch(who, watched) => WatchHolds(c, who, watched, id, application, directory);
    case _ => OthersKeepRuntimes(c, s);
  }

  lemma HandoverHolds(c: Cell, s: Step, id: AccountId, application: nat, directory: Path)
    requires Runs(c, id, application, directory) && (s.OnSource? || s.OnTarget? || s.OnLocal?)
    ensures Runs(Apply(c, s), id, application, directory) && Apply(c, s).finished == c.finished
  {
    HandoverKeepsTables(c, s);
  }

  lemma StepHolds(c: Cell, s: Step, id: AccountId, application: nat, directory: Path)
    requires DirectoriesOwned(c) && Runs(c, id, application, directory) && !s.OnRestart?
    ensures Runs(Apply(c, s), id, application, directory) || application in c.finished
    ensures c.finished <= Apply(c, s).finished
  {
    if s.OnAccounts? {
      FinishedGrows(c, s.account);
      AccountsHold(c, s.account, id, application, directory);
    } else {
      HandoverHolds(c, s, id, application, directory);
    }
  }

  predicate NoRestart(steps: seq<Step>) {
    forall i :: 0 <= i < |steps| ==> !steps[i].OnRestart?
  }

  lemma {:induction false} FinishedOnlyGrows(c: Cell, steps: seq<Step>)
    requires NoRestart(steps)
    ensures c.finished <= RunSteps(c, steps).finished
    decreases |steps|
  {
    if steps != [] {
      var s := steps[0];
      if s.OnAccounts? { FinishedGrows(c, s.account); } else { HandoverKeepsTables(c, s); }
      FinishedOnlyGrows(Apply(c, s), steps[1..]);
    }
  }

  /** A running or stopping runtime keeps its directory, whatever requests and watchers
      do, until the Wait of its application has completed. */
  lemma {:induction false} DirectoryHeldUntilFinished(c: Cell, steps: seq<Step>, id: AccountId, application: nat, directory: Path)
    requires CellInv(c) && Runs(c, id, application, directory) && NoRestart(steps)
    requires application !in RunSteps(c, steps).finished
    ensures var d := RunSteps(c, steps);
            Runs(d, id, application, directory) && directory in d.dataDirs && d.dataDirs[directory] == id
    decreases |steps|
  {
    if steps == [] {
      assert IsLive(c, id) && DirectoryOf(c, id) == Some(directory);
    } else {
      FinishedOnlyGrows(c, steps);
      StepHolds(c, steps[0], id, application, directory);
      StepKeepsCellInv(c, steps[0]);
      DirectoryHeldUntilFinished(Apply(c, steps[0]), steps[1..], id, application, directory);
    }
  }

  // ---- a directory that was looked up before the lock

  /** What decides a runtime's directory is only ever added to. */
  predicate PlacesKept(c: Cell, d: Cell, id: AccountId) {
    && (id in c.locals ==> id in d.locals)
    && (CurrentProfile(c.adoptions, id).Some? ==> CurrentProfile(d.adoptions, id).Some?)
    && (id in c.playerBindings ==> id in d.playerBindings && d.playerBindings[id] == c.playerBindings[id])
  }

  lemma AccountsKeepPlayers(c: Cell, s: AccountStep, id: AccountId)
    requires id in c.playerBindings
    ensures var d := ApplyAccount(c, s); id in d.playerBindings && d.playerBindings[id] == c.playerBindings[id]
  {
  }

  lemma StepKeepsPlaces(c: Cell, s: Step, id: AccountId)
    requires CellInv(c) && !s.OnRestart?
    ensures PlacesKept(c, Apply(c, s), id)
  {
    StepOnlyAdvances(c, s, id);
    if s.OnAccounts? {
      if id in c.playerBindings { AccountsKeepPlayers(c, s.account, id); }
    } else {
      HandoverKeepsTables(c, s);
    }
  }

  lemma {:induction false} RunKeepsPlaces(c: Cell, steps: seq<Step>, id: AccountId)
    requires CellInv(c) && NoRestart(steps)
    ensures PlacesKept(c, RunSteps(c, steps), id)
    decreases |steps|
  {
    if steps != [] {
      StepKeepsPlaces(c, steps[0], id);
      StepKeepsCellInv(c, steps[0]);
      RunKeepsPlaces(Apply(c, steps[0]), steps[1..], id);
    }
  }

  /** However much happens between looking a directory up and taking the lock: an answer
      that the fence check lets through is the present directory or the staging place. */
  lemma StaleDirectoryIsRefused(c: Cell, steps: seq<Step>, id: AccountId)
    requires CellInv(c) && NoRestart(steps)
    ensures var d, directory := RunSteps(c, steps), AccountDirectory(c, id);
            ProfileFenced(d, id, directory) || MayHaveRead(d, id, directory)
  {
    RunKeepsPlaces(c, steps, id);
  }
}
