/** What the configuration authority promises over every run. */
module ReconcileProofs {
  import opened Journals
  import opened HandoverTypes
  import opened ReconcileSpec

  // ---- the exact-tuple gate

  /** A ready gate means that this very application acknowledged the desired tuple. */
  predicate GateHolds(s: State) {
    forall id :: id in s.apps && id in s.runtimes && s.apps[id].gate == Ready ==> Applied(s, id, s.runtimes[id])
  }

  /** Instances are never reused. */
  predicate InstancesHold(s: State) {
    && (forall id :: id in s.apps ==> s.apps[id].instance < s.fresher)
    && (forall a, b :: a in s.apps && b in s.apps && s.apps[a].instance == s.apps[b].instance ==> a == b)
    && (forall id :: id in s.syncs ==> s.syncs[id].application < s.fresher)
  }

  lemma {:induction false} AddKeepsGate(s: State, desired: map<AccountId, Assignment>, order: seq<AccountId>, around: Surroundings)
    requires GateHolds(s) && InstancesHold(s)
    ensures var d := AddAll(s, desired, order, around).0;
            && GateHolds(d) && InstancesHold(d)
            && d.runtimes == s.runtimes && d.syncs == s.syncs && d.revision == s.revision && d.starting == s.starting
            && d.maxAccounts == s.maxAccounts && d.transport == s.transport
    decreases |order|
  {
    if order != [] {
      var id := order[0];
      if id !in s.apps && id in around.startable {
        var started := Started(s, id, id in desired && desired[id].revision > 0);
        StartKeepsGate(s, id, id in desired && desired[id].revision > 0);
        AddKeepsGate(started, desired, order[1..], around);
      }
    }
  }

  lemma StartKeepsGate(s: State, id: AccountId, required: bool)
    requires GateHolds(s) && InstancesHold(s)
    ensures GateHolds(Started(s, id, required)) && InstancesHold(Started(s, id, required))
  {
  }

  /** What one successful publication leaves: live applications gated by the new tuples,
      nothing changed for a preserved runtime. */
  lemma PublishSetsGates(s: State, revision: nat, desired: map<AccountId, Assignment>, preserved: set<AccountId>, id: AccountId)
    requires id in s.apps && id in desired
    ensures var d := Publish(s, revision, desired, preserved);
            && (id !in preserved ==>
                  && (d.apps[id].gate == Unmanaged <==> desired[id].revision == 0)
                  && (d.apps[id].gate == Ready <==> desired[id].revision > 0 && Applied(d, id, desired[id])))
            && (id in preserved ==> d.apps[id] == s.apps[id])
  {
  }

  lemma PublishKeepsGate(s: State, revision: nat, desired: map<AccountId, Assignment>, preserved: set<AccountId>)
    requires GateHolds(s) && InstancesHold(s)
    requires forall id :: id in preserved && id in desired ==> id in s.runtimes && desired[id] == s.runtimes[id]
    ensures GateHolds(Publish(s, revision, desired, preserved)) && InstancesHold(Publish(s, revision, desired, preserved))
  {
    var d := Publish(s, revision, desired, preserved);
    forall id | id in d.apps && id in d.runtimes && d.apps[id].gate == Ready ensures Applied(d, id, d.runtimes[id]) {
      PublishSetsGates(s, revision, desired, preserved, id);
      if id in preserved { assert Applied(s, id, s.runtimes[id]); }
    }
  }

  lemma PreservedAreCurrent(s: State, request: Request, around: Surroundings)
    requires Verdict(s, request, around).None?
    ensures forall id :: id in Preserved(request.preserve) && id in Desired(s, request) ==>
              id in s.runtimes && Desired(s, request)[id] == s.runtimes[id]
  {
  }

  lemma ReconcileKeepsGate(s: State, request: Request, around: Surroundings)
    requires GateHolds(s) && InstancesHold(s)
    ensures GateHolds(Reconcile(s, request, around).0) && InstancesHold(Reconcile(s, request, around).0)
  {
    if Verdict(s, request, around).None? {
      var desired, preserved := Desired(s, request), Preserved(request.preserve);
      var (added, allStarted) := AddAll(s, desired, around.order, around);
      AddKeepsGate(s, desired, around.order, around);
      PreservedAreCurrent(s, request, around);
      if allStarted { PublishKeepsGate(added, request.revision, desired, preserved); }
    }
  }

  lemma AcknowledgeKeepsGate(s: State, id: AccountId, epoch: nat, revision: nat, digest: string, applied: bool)
    requires GateHolds(s) && InstancesHold(s)
    ensures var d := Acknowledge(s, id, epoch, revision, digest, applied).0; GateHolds(d) && InstancesHold(d)
  {
  }

  lemma EventKeepsGate(s: State, e: Event)
    requires GateHolds(s) && InstancesHold(s) && Enabled(s, e)
    ensures GateHolds(Apply(s, e)) && InstancesHold(Apply(s, e))
  {
    match e
    case Reconciled(request, around) => ReconcileKeepsGate(s, request, around);
    case Acknowledged(id, epoch, revision, digest, applied) => AcknowledgeKeepsGate(s, id, epoch, revision, digest, applied);
    case Rebound(id) => StartKeepsGate(s, id, s.apps[id].required);
    case _ =>
      var d := Apply(s, e);
      forall who | who in d.apps && who in d.runtimes && d.apps[who].gate == Ready ensures Applied(d, who, d.runtimes[who]) {
        assert Applied(s, who, s.runtimes[who]);
      }
  }

  lemma {:induction false} RunKeepsGate(s: State, events: seq<Event>)
    requires GateHolds(s) && InstancesHold(s) && Allowed(s, events)
    ensures GateHolds(Run(s, events)) && InstancesHold(Run(s, events))
    decreases |events|
  {
    if events != [] {
      EventKeepsGate(s, events[0]);
      RunKeepsGate(Apply(s, events[0]), events[1..]);
    }
  }

  /** In every reachable state a ready gate stands on the exact desired tuple. */
  lemma ReadyMeansApplied(maxAccounts: nat, transport: bool, events: seq<Event>, id: AccountId)
    requires Allowed(NewState(maxAccounts, transport), events)
    ensures var s := Run(NewState(maxAccounts, transport), events);
            id in s.apps && id in s.runtimes && s.apps[id].gate == Ready ==>
              id in s.syncs && s.syncs[id] == TupleOf(s.runtimes[id], s.apps[id].instance)
  {
    RunKeepsGate(NewState(maxAccounts, transport), events);
  }

  // ---- session starts

  /** What a session start has checked stays true while it holds the reconcile lock. */
  predicate CheckHolds(s: State) {
    s.starting.Some? ==>
      var check := s.starting.value;
      && check.id in s.runtimes && s.runtimes[check.id].startSession
      && (s.runtimes[check.id].revision > 0 ==>
            && check.instance.Some? && check.id in s.syncs
            && s.syncs[check.id] == TupleOf(s.runtimes[check.id], check.instance.value))
  }

  lemma EventKeepsCheck(s: State, e: Event)
    requires CheckHolds(s) && Enabled(s, e)
    ensures CheckHolds(Apply(s, e))
  {
    if e.Reconciled? && Verdict(s, e.request, e.around).None? {
      AddIgnoresCheck(s, Desired(s, e.request), e.around.order, e.around);
    }
  }

  lemma {:induction false} AddIgnoresCheck(s: State, desired: map<AccountId, Assignment>, order: seq<AccountId>, around: Surroundings)
    ensures AddAll(s, desired, order, around).0.starting == s.starting
    decreases |order|
  {
    if order != [] && order[0] !in s.apps && order[0] in around.startable {
      AddIgnoresCheck(Started(s, order[0], order[0] in desired && desired[order[0]].revision > 0), desired, order[1..], around);
    }
  }

  lemma {:induction false} RunKeepsCheck(s: State, events: seq<Event>)
    requires CheckHolds(s) && Allowed(s, events)
    ensures CheckHolds(Run(s, events))
    decreases |events|
  {
    if events != [] {
      EventKeepsCheck(s, events[0]);
      RunKeepsCheck(Apply(s, events[0]), events[1..]);
    }
  }

  /** A session is started on a configured application exactly when the assignment is
      unmanaged or the application is still the one that was checked. */
  lemma StartIsConfigured(maxAccounts: nat, transport: bool, events: seq<Event>)
    requires Allowed(NewState(maxAccounts, transport), events)
    ensures var s := Run(NewState(maxAccounts, transport), events);
            s.starting.Some? && s.starting.value.id in s.apps ==>
              var check := s.starting.value;
              && check.id in s.runtimes && s.runtimes[check.id].startSession
              && (ConfigurationReady(s, check.id, s.runtimes[check.id])
                  <==> s.runtimes[check.id].revision == 0 || check.instance == Some(s.apps[check.id].instance))
  {
    RunKeepsCheck(NewState(maxAccounts, transport), events);
  }

  /** A rebind between the check and the start always leads to an unconfigured start. */
  lemma RebindSpoilsStart(s: State)
    requires CheckHolds(s) && InstancesHold(s) && s.starting.Some? && s.starting.value.id in s.apps
    requires s.runtimes[s.starting.value.id].revision > 0
    ensures var id := s.starting.value.id; !ConfigurationReady(Rebind(s, id), id, s.runtimes[id])
  {
  }

  // ---- managed applications and rebinds

  predicate ManagedAreGated(s: State) {
    forall id :: id in s.apps && id in s.runtimes && s.runtimes[id].revision > 0 ==> s.apps[id].gate != Unmanaged
  }

  lemma {:induction false} AddKeepsManaged(s: State, desired: map<AccountId, Assignment>, order: seq<AccountId>, around: Surroundings)
    requires ManagedAreGated(s) && forall id :: id in order ==> id !in s.runtimes
    ensures ManagedAreGated(AddAll(s, desired, order, around).0)
    decreases |order|
  {
    if order != [] && order[0] !in s.apps && order[0] in around.startable {
      AddKeepsManaged(Started(s, order[0], order[0] in desired && desired[order[0]].revision > 0), desired, order[1..], around);
    }
  }

  lemma PublishKeepsManaged(s: State, revision: nat, desired: map<AccountId, Assignment>, preserved: set<AccountId>)
    requires ManagedAreGated(s)
    requires forall id :: id in preserved && id in desired ==> id in s.runtimes && desired[id] == s.runtimes[id]
    ensures ManagedAreGated(Publish(s, revision, desired, preserved))
  {
  }

  lemma ReconcileKeepsManaged(s: State, request: Request, around: Surroundings)
    requires GateHolds(s) && InstancesHold(s) && ManagedAreGated(s)
    requires ValidOrder(s, Desired(s, request), Preserved(request.preserve), around.order)
    ensures ManagedAreGated(Reconcile(s, request, around).0)
  {
    if Verdict(s, request, around).None? {
      var desired, preserved := Desired(s, request), Preserved(request.preserve);
      var (added, allStarted) := AddAll(s, desired, around.order, around);
      AddKeepsManaged(s, desired, around.order, around);
      AddKeepsGate(s, desired, around.order, around);
      PreservedAreCurrent(s, request, around);
      if allStarted { PublishKeepsManaged(added, request.revision, desired, preserved); }
    }
  }

  /** Every event but a rebind keeps managed applications behind a gate. */
  lemma EventKeepsManaged(s: State, e: Event)
    requires GateHolds(s) && InstancesHold(s) && ManagedAreGated(s) && Enabled(s, e) && !e.Rebound?
    ensures ManagedAreGated(Apply(s, e))
  {
    if e.Reconciled? { ReconcileKeepsManaged(s, e.request, e.around); }
  }

  /** So does every run without one. */
  lemma {:induction false} RunKeepsManaged(s: State, events: seq<Event>)
    requires GateHolds(s) && InstancesHold(s) && ManagedAreGated(s) && Allowed(s, events)
    requires forall i :: 0 <= i < |events| ==> !events[i].Rebound?
    ensures ManagedAreGated(Run(s, events))
    decreases |events|
  {
    if events != [] {
      EventKeepsManaged(s, events[0]);
      EventKeepsGate(s, events[0]);
      RunKeepsManaged(Apply(s, events[0]), events[1..]);
    }
  }

  /** A rebind does so exactly when the application was first started under a managed
      assignment: it reuses the configuration of that first start. */
  lemma RebindKeepsManaged(s: State, id: AccountId)
    requires ManagedAreGated(s) && id in s.apps && id in s.runtimes && s.runtimes[id].revision > 0
    ensures ManagedAreGated(Rebind(s, id)) <==> s.apps[id].required
  {
  }

  function Plain(): Assignment {
    Assignment("r", "t", 1, 60, false, 0, "", "hold", None)
  }

  function Managed(): Assignment {
    Plain().(revision := 1, digest := seq(64, i => '0'))
  }

  /** Placed without a configuration, then with one, then moved to its player directory. */
  function LostGate(): seq<Event> {
    [Reconciled(Request(1, [Plain()], []), Surroundings(0, true, {}, ["r"], {"r"}, {"r"}, true)),
     Reconciled(Request(2, [Managed()], []), Surroundings(0, true, {}, [], {}, {}, true)),
     Rebound("r")]
  }

  lemma NamedAlone(a: Assignment)
    requires a.onDisconnect == "hold"
    ensures ById([a]) == map[a.runtimeId := a] && Preserved([]) == {}
  {
  }

  lemma FirstIsPlaced(s: State)
    requires s == NewState(0, false)
    ensures Enabled(s, LostGate()[0])
    ensures Apply(s, LostGate()[0])
            == s.(revision := 1, runtimes := map["r" := Plain()], apps := map["r" := App(0, Unmanaged, false)], fresher := 1)
  {
    var around := Surroundings(0, true, {}, ["r"], {"r"}, {"r"}, true);
    NamedAlone(Plain());
    var desired := map["r" := Plain()];
    assert Desired(s, Request(1, [Plain()], [])) == desired;
    assert AddAll(s, desired, ["r"], around) == AddAll(Started(s, "r", false), desired, ["r"][1..], around);
    assert Started(s, "r", false).apps == map["r" := App(0, Unmanaged, false)];
  }

  lemma SecondIsPlaced(s: State)
    requires s == State(0, false, 1, map["r" := Plain()], map[], map["r" := App(0, Unmanaged, false)], 1, None)
    ensures Enabled(s, LostGate()[1])
    ensures Apply(s, LostGate()[1]) == s.(revision := 2, runtimes := map["r" := Managed()], apps := map["r" := App(0, Pending, false)])
  {
    NamedAlone(Managed());
    assert Desired(s, Request(2, [Managed()], [])) == map["r" := Managed()];
  }

  /** The failing run: a managed application that executes everything. */
  lemma RebindCanLoseTheGate()
    ensures Allowed(NewState(0, false), LostGate())
    ensures var s := Run(NewState(0, false), LostGate());
            "r" in s.apps && "r" in s.runtimes && s.runtimes["r"].revision > 0 && s.apps["r"].gate == Unmanaged
  {
    var events := LostGate();
    var s0 := NewState(0, false);
    FirstIsPlaced(s0);
    var s1 := Apply(s0, events[0]);
    SecondIsPlaced(s1);
    var s2 := Apply(s1, events[1]);
    assert events[1..][1..] == [Rebound("r")];
    assert Run(Apply(s2, Rebound("r")), []) == Apply(s2, Rebound("r"));
  }

  // ---- a start that a rebind overtakes

  function Playing(): Assignment {
    Managed().(startSession := true)
  }

  /** Placed, configured, checked for a start, and moved before the start is done. */
  function OvertakenStart(): seq<Event> {
    [Reconciled(Request(1, [Playing()], []), Surroundings(0, true, {}, ["r"], {"r"}, {"r"}, true)),
     Acknowledged("r", 1, 1, Playing().digest, true),
     StartChecked("r", 1),
     Rebound("r")]
  }

  function Configured(starting: Option<Check>): State {
    State(0, false, 1, map["r" := Playing()], map["r" := Sync(1, 1, Playing().digest, 0)], map["r" := App(0, Ready, true)], 1,
          starting)
  }

  lemma PlayingIsPlaced(s: State, d: State)
    requires s == NewState(0, false)
    requires d == s.(revision := 1, runtimes := map["r" := Playing()], apps := map["r" := App(0, Pending, true)], fresher := 1)
    ensures Enabled(s, OvertakenStart()[0]) && Apply(s, OvertakenStart()[0]) == d
  {
    var around, desired := Surroundings(0, true, {}, ["r"], {"r"}, {"r"}, true), map["r" := Playing()];
    NamedAlone(Playing());
    assert Desired(s, Request(1, [Playing()], [])) == desired;
    assert AddAll(s, desired, ["r"], around) == AddAll(Started(s, "r", true), desired, ["r"][1..], around);
    assert Started(s, "r", true).apps == map["r" := App(0, Pending, true)];
  }

  lemma PlayingIsConfigured(s: State, d: State)
    requires s == NewState(0, false).(revision := 1, runtimes := map["r" := Playing()], apps := map["r" := App(0, Pending, true)], fresher := 1)
    requires d == Configured(None)
    ensures Acknowledge(s, "r", 1, 1, Playing().digest, true).0 == d
  {
  }

  lemma FourEvents(s: State, s1: State, s2: State, s3: State, s4: State, events: seq<Event>)
    requires |events| == 4 && Enabled(s, events[0]) && s1 == Apply(s, events[0]) && Enabled(s1, events[1]) && s2 == Apply(s1, events[1])
    requires Enabled(s2, events[2]) && s3 == Apply(s2, events[2]) && Enabled(s3, events[3]) && s4 == Apply(s3, events[3])
    ensures Allowed(s, events) && Run(s, events) == s4
  {
    assert Allowed(s4, events[1..][1..][1..][1..]) && Run(s4, events[1..][1..][1..][1..]) == s4;
    assert Allowed(s3, events[1..][1..][1..]) && Run(s3, events[1..][1..][1..]) == s4;
    assert Allowed(s2, events[1..][1..]) && Run(s2, events[1..][1..]) == s4;
  }

  /** The start is checked on one application and done on another that has acknowledged
      nothing: an unconfigured session of a managed runtime. */
  lemma StartCanBeUnconfigured()
    ensures Allowed(NewState(0, false), OvertakenStart())
    ensures var s := Run(NewState(0, false), OvertakenStart());
            && s.starting.Some? && s.starting.value.id == "r" && Enabled(s, StartDone)
            && "r" in s.apps && "r" in s.runtimes && s.runtimes["r"].revision > 0
            && !ConfigurationReady(s, "r", s.runtimes["r"])
  {
    var events, s := OvertakenStart(), NewState(0, false);
    var placed := s.(revision := 1, runtimes := map["r" := Playing()], apps := map["r" := App(0, Pending, true)], fresher := 1);
    var configured, checked := Configured(None), Configured(Some(Check("r", Some(0))));
    PlayingIsPlaced(s, placed);
    PlayingIsConfigured(placed, configured);
    FourEvents(s, placed, configured, checked, Rebind(checked, "r"), events);
  }
}
