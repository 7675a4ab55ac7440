/** The controller fence: one small file holds the highest control epoch that any
    controller has been admitted with, across requests, processes and power losses. */
module ControlFence {
  import opened Journals
  import opened HandoverTypes
  import D = Decimal

  datatype Answer = Admitted(epoch: nat) | InvalidEpoch | Unavailable | Stale

  /** The header names an epoch from 1 to 2^63 - 1 in canonical decimal, or is absent. */
  function HeaderEpoch(values: seq<string>): Option<nat> {
    if values == [] then Some(0)
    else if |values| == 1 && D.Digits(values[0]) && 0 < D.ValueOf(values[0]) <= MAXIMUM_EPOCH
            && D.Format(D.ValueOf(values[0])) == values[0] then Some(D.ValueOf(values[0]))
    else None
  }

  /** What one request does to a process's memory and to the file. Zero is a missing file.
      `ready` stands for the directory, the lock and a readable file. */
  function Handle(memory: nat, disk: Disk<nat>, values: seq<string>, ready: bool, outcome: WriteOutcome)
    : (nat, Disk<nat>, Answer)
  {
    var epoch := HeaderEpoch(values);
    if epoch.None? then (memory, disk, InvalidEpoch)
    else if !ready then (memory, disk, Unavailable)
    else
      var minimum := if disk.visible > memory then disk.visible else memory;
      if epoch.value < minimum then (minimum, disk, Stale)
      else if epoch.value == 0 then (minimum, disk, Admitted(0))
      else (epoch.value, Write(disk, epoch.value, outcome), if outcome.Synced? then Admitted(epoch.value) else Unavailable)
  }

  lemma HeaderEpochAccepts(values: seq<string>, epoch: nat)
    ensures HeaderEpoch(values) == Some(epoch) <==>
              (epoch == 0 && values == []) || (1 <= epoch <= MAXIMUM_EPOCH && values == [D.Format(epoch)])
  {
    D.ValueOfFormat(epoch);
  }

  class FenceFile {
    ghost var disk: Disk<nat>
    var epoch: nat

    ghost predicate Valid()
      reads this
    {
      disk.visible == epoch
    }

    method Read(ready: bool) returns (persisted: Option<nat>)
      ensures persisted == if ready then Some(epoch) else None
    {
      persisted := if ready then Some(epoch) else None;
    }

    method Replace(newEpoch: nat, outcome: WriteOutcome) returns (saved: bool)
      requires Valid()
      modifies this
      ensures Valid() && disk == Write(old(disk), newEpoch, outcome) && saved == outcome.Synced?
    {
      disk := Write(disk, newEpoch, outcome);
      if !outcome.NotRenamed? { epoch := newEpoch; }
      saved := outcome.Synced?;
    }
  }

  method ParseHeader(values: seq<string>) returns (epoch: Option<nat>)
    ensures epoch == HeaderEpoch(values)
  {
    if |values| == 0 { return Some(0); }
    if |values| != 1 { return None; }
    epoch := D.ParseUint(values[0], MAXIMUM_EPOCH);
    if epoch.Some? {
      var printed := D.FormatUint(epoch.value);
      if epoch.value == 0 || printed != values[0] { epoch := None; }
    }
  }

  /** One orchestrator process. */
  class Controller {
    var controlEpoch: nat

    constructor ()
      ensures controlEpoch == 0
    {
      controlEpoch := 0;
    }

    method WithControlFence(file: FenceFile, values: seq<string>, ready: bool, outcome: WriteOutcome) returns (answer: Answer)
      requires file.Valid()
      modifies this, file
      ensures file.Valid()
      ensures (controlEpoch, file.disk, answer) == Handle(old(controlEpoch), old(file.disk), values, ready, outcome)
    {
      var epoch := ParseHeader(values);
      if epoch.None? { return InvalidEpoch; }
      var persisted := file.Read(ready);
      if persisted.None? { return Unavailable; }
      var minimum := controlEpoch;
      if persisted.value > minimum {
        minimum := persisted.value;
        controlEpoch := persisted.value;
      }
      if epoch.value < minimum { return Stale; }
      if epoch.value > 0 {
        controlEpoch := epoch.value;
        var saved := file.Replace(epoch.value, outcome);
        if !saved { return Unavailable; }
      }
      answer := Admitted(epoch.value);
    }
  }

  // ---- runs of any number of processes on one data root

  datatype State = State(disk: Disk<nat>, memories: map<nat, nat>, admitted: seq<nat>)

  /** A lock file serializes requests, so each is one step. */
  datatype Event =
    | Request(process: nat, values: seq<string>, ready: bool, outcome: WriteOutcome)
    | ProcessRestart(process: nat)
    | PowerLoss(survivor: nat)

  function Memory(s: State, process: nat): nat {
    if process in s.memories then s.memories[process] else 0
  }

  function Apply(s: State, e: Event): State {
    match e
    case Request(process, values, ready, outcome) =>
      var (memory, disk, answer) := Handle(Memory(s, process), s.disk, values, ready, outcome);
      State(disk, s.memories[process := memory], if answer.Admitted? then s.admitted + [answer.epoch] else s.admitted)
    case ProcessRestart(process) => s.(memories := s.memories - {process})
    case PowerLoss(survivor) =>
      if survivor in s.disk.possible then State(Fresh(survivor), map[], s.admitted) else s
  }

  function Run(s: State, events: seq<Event>): State
    decreases |events|
  {
    if events == [] then s else Run(Apply(s, events[0]), events[1..])
  }

  function Last(admitted: seq<nat>): nat {
    if admitted == [] then 0 else admitted[|admitted| - 1]
  }

  predicate Rising(admitted: seq<nat>) {
    forall i, j :: 0 <= i < j < |admitted| ==> admitted[i] <= admitted[j]
  }

  /** No file a power loss can leave is behind the last admitted mutation. */
  ghost predicate HighWater(s: State) {
    && s.disk.visible in s.disk.possible
    && (forall epoch :: epoch in s.disk.possible ==> Last(s.admitted) <= epoch <= s.disk.visible)
    && Rising(s.admitted)
  }

  lemma EventKeepsHighWater(s: State, e: Event)
    requires HighWater(s)
    ensures HighWater(Apply(s, e))
  {
    if e.Request? && Handle(Memory(s, e.process), s.disk, e.values, e.ready, e.outcome).2.Admitted? {
      var epoch := Handle(Memory(s, e.process), s.disk, e.values, e.ready, e.outcome).2.epoch;
      assert Last(s.admitted) <= s.disk.visible <= epoch;
      forall i | 0 <= i < |s.admitted| ensures s.admitted[i] <= epoch {
        assert s.admitted[i] <= Last(s.admitted);
      }
    }
  }

  lemma {:induction false} RunKeepsHighWater(s: State, events: seq<Event>)
    requires HighWater(s)
    ensures HighWater(Run(s, events))
    decreases |events|
  {
    if events != [] {
      EventKeepsHighWater(s, events[0]);
      RunKeepsHighWater(Apply(s, events[0]), events[1..]);
    }
  }

  /** Admitted epochs never decrease, and after a positive one no unfenced mutation is
      admitted, whatever fails or restarts in between. */
  lemma AdmittedEpochsRise(events: seq<Event>)
    ensures var s := Run(State(Fresh(0), map[], []), events);
            && Rising(s.admitted)
            && (forall i, j :: 0 <= i < j < |s.admitted| && s.admitted[i] > 0 ==> s.admitted[j] > 0)
            && (forall epoch :: epoch in s.disk.possible ==> Last(s.admitted) <= epoch)
  {
    RunKeepsHighWater(State(Fresh(0), map[], []), events);
  }

  /** A refused request admits nothing, and an admitted one is durable before its handler
      runs even when an earlier save of the same epoch was not. */
  lemma AdmittedIsDurable(memory: nat, disk: Disk<nat>, values: seq<string>, ready: bool, outcome: WriteOutcome)
    ensures var (newMemory, newDisk, answer) := Handle(memory, disk, values, ready, outcome);
            && newMemory >= memory
            && (answer.Admitted? && answer.epoch > 0 ==> newDisk.possible == {answer.epoch} && newMemory == answer.epoch)
            && (answer.Admitted? ==> answer.epoch >= memory && answer.epoch >= disk.visible)
  {
  }

  /** The request names this epoch: none at all is epoch zero. */
  predicate NamesEpoch(values: seq<string>, epoch: nat) {
    if epoch == 0 then values == [] else epoch < 0x8000_0000_0000_0000 && values == [D.Format(epoch)]
  }

  /** Each answer of one request: an epoch is admitted exactly when it is named, the file can
      be read, neither memory nor file is past it, and a positive one is synced; it is stale
      exactly when one of them is past it; an unreadable file or a failed save is a refusal. */
  lemma AnsweredExactly(memory: nat, disk: Disk<nat>, values: seq<string>, ready: bool, outcome: WriteOutcome, epoch: nat)
    ensures var (newMemory, newDisk, answer) := Handle(memory, disk, values, ready, outcome);
            var named, current := NamesEpoch(values, epoch), memory <= epoch && disk.visible <= epoch;
            && (answer == Admitted(epoch) <==> named && ready && current && (epoch > 0 ==> outcome == Synced))
            && (named && ready && !current ==> answer == Stale)
            && (named && (!ready || (current && epoch > 0 && outcome != Synced)) ==> answer == Unavailable)
            && (answer == InvalidEpoch <==> forall e: nat :: !NamesEpoch(values, e))
            && (!ready ==> newMemory == memory)
            && (!(named && ready && current && epoch > 0) && named ==> newDisk == disk)
            && (named && ready && current && epoch > 0 ==> newDisk == Write(disk, epoch, outcome) && newMemory == epoch)
            && (named && ready && !current ==> newMemory == if memory < disk.visible then disk.visible else memory)
  {
    forall e: nat ensures HeaderEpoch(values) == Some(e) <==> NamesEpoch(values, e) { HeaderEpochAccepts(values, e); }
    if HeaderEpoch(values).Some? { assert NamesEpoch(values, HeaderEpoch(values).value); }
  }

  /** Why an equal epoch is written again: after a failed directory sync every process
      reads the new epoch, yet a power loss may still bring the old file back. */
  lemma VisibleIsNotDurable(epoch: nat)
    requires 1 <= epoch <= MAXIMUM_EPOCH
    ensures var failed := Run(State(Fresh(0), map[], []), [Request(0, [D.Format(epoch)], true, RenamedUnsynced)]);
            var repeated := Apply(failed, Request(1, [D.Format(epoch)], true, Synced));
            && failed.admitted == [] && failed.disk.visible == epoch && 0 in failed.disk.possible
            && repeated.admitted == [epoch] && repeated.disk.possible == {epoch}
  {
    var request := Request(0, [D.Format(epoch)], true, RenamedUnsynced);
    HeaderEpochAccepts(request.values, epoch);
    var failed := Apply(State(Fresh(0), map[], []), request);
    assert Run(State(Fresh(0), map[], []), [request]) == Run(failed, []);
  }
}
