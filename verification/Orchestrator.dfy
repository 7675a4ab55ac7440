/** The orchestrator's reconcile and acknowledgement handlers in place, loop by loop. */
module Orchestrator {
  import opened Journals
  import opened HandoverTypes
  import opened ReconcileSpec
  import ReconcileAnswers

  class Orchestrator {
    const maxAccounts: nat
    const handoverTransport: bool
    var revision: nat
    var runtimes: map<AccountId, Assignment>
    var configurationSyncs: map<AccountId, Sync>
    var applications: map<AccountId, App>
    var nextInstance: nat

    ghost function View(): State
      reads this
    {
      State(maxAccounts, handoverTransport, revision, runtimes, configurationSyncs, applications, nextInstance, None)
    }

    constructor (maxAccounts: nat, handoverTransport: bool)
      ensures View() == NewState(maxAccounts, handoverTransport)
    {
      this.maxAccounts, this.handoverTransport := maxAccounts, handoverTransport;
      revision, runtimes, configurationSyncs, applications, nextInstance := 0, map[], map[], map[], 0;
    }

    method IsReady(id: AccountId, assignment: Assignment) returns (ready: bool)
      ensures ready == ConfigurationReady(View(), id, assignment)
    {
      if assignment.revision == 0 { return true; }
      if id !in applications || id !in configurationSyncs { return false; }
      var applied := configurationSyncs[id];
      ready := applied.epoch == assignment.placementEpoch && applied.revision == assignment.revision
               && applied.digest == assignment.digest && applied.application == applications[id].instance;
    }

    method ValidateReconcile(request: Request, around: Surroundings) returns (named: Option<map<AccountId, Assignment>>)
      ensures named == if ValidRequest(View(), request, around) then Some(ById(request.runtimes)) else None
    {
      if request.revision == 0 || (maxAccounts > 0 && |request.runtimes| > maxAccounts) || !around.grantsAccepted { return None; }
      named := ValidateRuntimes(request.runtimes, around.now);
    }

    /** The preserve loop: previous assignments join the desired set unchanged. */
    method AddPreserved(preserve: seq<AccountId>, named: map<AccountId, Assignment>)
      returns (desired: Option<map<AccountId, Assignment>>)
      ensures desired == if ValidPreserve(View(), preserve, named) then Some(Joined(named, preserve, runtimes)) else None
    {
      var joined := named;
      var i := 0;
      JoinedNone(named, runtimes);
      while i < |preserve|
        invariant i <= |preserve| && ValidPreserve(View(), preserve[..i], named) && joined == Joined(named, preserve[..i], runtimes)
      {
        var id := preserve[i];
        OneMorePreserved(View(), preserve, i, named);
        if !CanonicalId(id) || id in preserve[..i] || id in named || !handoverTransport { return None; }
        if id in runtimes { joined := joined[id := runtimes[id]]; }
        i := i + 1;
      }
      assert preserve[..i] == preserve;
      desired := Some(joined);
    }

    /** AddAccount for each new runtime; the caller drains what was added when one fails. */
    method AddAccounts(desired: map<AccountId, Assignment>, order: seq<AccountId>, around: Surroundings) returns (all: bool)
      modifies this`applications, this`nextInstance
      ensures (View(), all) == AddAll(old(View()), desired, order, around)
    {
      var i := 0;
      while i < |order|
        invariant i <= |order|
        invariant runtimes == old(runtimes) && revision == old(revision) && configurationSyncs == old(configurationSyncs)
        invariant AddAll(View(), desired, order[i..], around) == AddAll(old(View()), desired, order, around)
      {
        var id := order[i];
        assert order[i..][1..] == order[i + 1..];
        if id in applications || id !in around.startable { return false; }
        var required := id in desired && desired[id].revision > 0;
        applications := applications[id := App(nextInstance, GateFor(required, false), required)];
        nextInstance := nextInstance + 1;
        if id !in around.registrable { return false; }
        i := i + 1;
      }
      all := true;
    }

    /** One pass of SetControlConfigurationReady over the live desired applications. */
    method SetGates(desired: map<AccountId, Assignment>, preserved: set<AccountId>)
      modifies this`applications
      ensures View() == old(View()).(apps := Gated(old(View()), desired, preserved))
    {
      ghost var before := View();
      var rest := applications.Keys;
      while rest != {}
        invariant applications.Keys == before.apps.Keys && rest <= before.apps.Keys
        invariant forall id :: id in rest ==> applications[id] == before.apps[id]
        invariant forall id :: id in before.apps.Keys - rest ==> applications[id] == Gated(before, desired, preserved)[id]
        invariant runtimes == old(runtimes) && revision == old(revision) && configurationSyncs == old(configurationSyncs)
        invariant nextInstance == old(nextInstance)
      {
        var id :| id in rest;
        rest := rest - {id};
        if id in desired && id !in preserved {
          var ready := IsReady(id, desired[id]);
          applications := applications[id := applications[id].(gate := GateFor(desired[id].revision > 0, ready))];
        }
      }
    }

    method Publish(newRevision: nat, desired: map<AccountId, Assignment>, preserved: set<AccountId>)
      modifies this`applications, this`revision, this`runtimes, this`configurationSyncs
      ensures View() == ReconcileSpec.Publish(old(View()), newRevision, desired, preserved)
    {
      SetGates(desired, preserved);
      configurationSyncs := map id | id in configurationSyncs
                                     && (id in runtimes ==> id in desired)
                                     && (id in desired && id !in preserved ==> desired[id].revision > 0) :: configurationSyncs[id];
      revision := newRevision;
      runtimes := desired;
    }

    method Judge(request: Request, around: Surroundings)
      returns (verdict: Option<Answer>, desired: map<AccountId, Assignment>, preserved: set<AccountId>)
      ensures verdict == Verdict(View(), request, around) && preserved == Preserved(request.preserve)
      ensures verdict.None? ==> desired == Desired(View(), request)
    {
      desired, preserved := map[], set i | 0 <= i < |request.preserve| :: request.preserve[i];
      var named := ValidateReconcile(request, around);
      if named.None? { return Some(Refused(Invalid)), desired, preserved; }
      if request.revision < revision { return Some(Refused(StaleRevision)), desired, preserved; }
      var joined := AddPreserved(request.preserve, named.value);
      if joined.None? { return Some(Refused(InvalidPreserved)), desired, preserved; }
      desired := joined.value;
      JoinedIsDesired(View(), request);
      if maxAccounts > 0 && |desired| > maxAccounts { return Some(Refused(OverLimit)), desired, preserved; }
      var locked := FindLocked(desired, preserved, around.locked);
      if locked { return Some(Refused(Locked)), desired, preserved; }
      if request.revision == revision {
        var same := SameAssignments(runtimes, desired);
        return Some(if same then Repeated else Refused(RevisionReused)), desired, preserved;
      }
      var owners, epochs := CheckRetained(runtimes, desired, preserved);
      verdict := if !owners then Some(Refused(OwnerChanged)) else if !epochs then Some(Refused(StaleEpoch)) else None;
    }

    method Reconcile(request: Request, around: Surroundings) returns (answer: Answer)
      modifies this`applications, this`nextInstance, this`revision, this`runtimes, this`configurationSyncs
      ensures (View(), answer) == ReconcileSpec.Reconcile(old(View()), request, around)
    {
      var verdict, desired, preserved := Judge(request, around);
      if verdict.Some? { return verdict.value; }
      var all := AddAccounts(desired, around.order, around);
      if !all { return StartFailed; }
      GatedTwice(View(), request.revision, desired, preserved);
      Publish(request.revision, desired, preserved);
      if !around.placed { return PublishedWithError; }
      SetGates(desired, preserved);
      answer := Published;
    }

    /** The settings of one placement are installed, or found installed already. */
    method HandleConfigurationSync(id: AccountId, epoch: nat, newRevision: nat, digest: string, applied: bool)
      returns (answer: SyncAnswer)
      modifies this`applications, this`configurationSyncs
      ensures (View(), answer) == Acknowledge(old(View()), id, epoch, newRevision, digest, applied)
    {
      if newRevision == 0 || !ValidDigest(digest) || id !in runtimes { return SyncRefused; }
      var assignment := runtimes[id];
      if epoch == 0 || assignment.placementEpoch != epoch || assignment.revision != newRevision || assignment.digest != digest
         || id !in applications {
        return SyncRefused;
      }
      var application := applications[id];
      if id in configurationSyncs && configurationSyncs[id].epoch == epoch {
        var previous := configurationSyncs[id];
        if newRevision < previous.revision || (newRevision == previous.revision && digest != previous.digest) {
          return SyncRefused;
        }
        if newRevision == previous.revision && previous.application == application.instance {
          applications := applications[id := application.(gate := Ready)];
          return SyncReady;
        }
      }
      if !applied { return SyncRefused; }
      configurationSyncs := configurationSyncs[id := Sync(epoch, newRevision, digest, application.instance)];
      applications := applications[id := application.(gate := Ready)];
      answer := SyncReady;
    }

    /** The restart half of a rebind reuses the retained start configuration. */
    method RestartRebound(id: AccountId)
      requires id in applications
      modifies this`applications, this`nextInstance
      ensures View() == Rebind(old(View()), id)
    {
      var required := applications[id].required;
      applications := applications[id := App(nextInstance, GateFor(required, false), required)];
      nextInstance := nextInstance + 1;
    }
  }

  /** The gate pass after publication finds every gate as the pass before it left it. */
  lemma GatedTwice(s: State, newRevision: nat, desired: map<AccountId, Assignment>, preserved: set<AccountId>)
    ensures var d := ReconcileSpec.Publish(s, newRevision, desired, preserved); Gated(d, desired, preserved) == d.apps
  {
  }

  // ---- preserved assignments

  function Joined(named: map<AccountId, Assignment>, preserve: seq<AccountId>, current: map<AccountId, Assignment>)
    : map<AccountId, Assignment>
  {
    map id | id in named.Keys + Preserved(preserve) * current.Keys :: if id in named then named[id] else current[id]
  }

  lemma JoinedNone(named: map<AccountId, Assignment>, current: map<AccountId, Assignment>)
    ensures Joined(named, [], current) == named
  {
  }

  lemma JoinedIsDesired(s: State, request: Request)
    ensures Joined(ById(request.runtimes), request.preserve, s.runtimes) == Desired(s, request)
  {
  }

  lemma PreservedGrows(preserve: seq<AccountId>, i: nat)
    requires i < |preserve|
    ensures Preserved(preserve[..i + 1]) == Preserved(preserve[..i]) + {preserve[i]}
  {
  }

  lemma OneMorePreserved(s: State, preserve: seq<AccountId>, i: nat, named: map<AccountId, Assignment>)
    requires i < |preserve| && ValidPreserve(s, preserve[..i], named)
    ensures ValidPreserve(s, preserve[..i + 1], named)
            <==> CanonicalId(preserve[i]) && preserve[i] !in preserve[..i] && preserve[i] !in named && s.transport
    ensures ValidPreserve(s, preserve, named) ==> ValidPreserve(s, preserve[..i + 1], named)
    ensures preserve[i] !in named ==>
              Joined(named, preserve[..i + 1], s.runtimes)
              == if preserve[i] in s.runtimes then Joined(named, preserve[..i], s.runtimes)[preserve[i] := s.runtimes[preserve[i]]]
                 else Joined(named, preserve[..i], s.runtimes)
  {
    var before, more := preserve[..i], preserve[..i + 1];
    PreservedGrows(preserve, i);
    assert more == before + [preserve[i]] && more[i] == preserve[i];
    if ValidPreserve(s, more, named) {
      forall k | 0 <= k < i ensures before[k] != preserve[i] {
        assert more[k] != more[i];
      }
    }
  }

  // ---- scans over the desired set

  method FindLocked(desired: map<AccountId, Assignment>, preserved: set<AccountId>, locked: set<AccountId>) returns (found: bool)
    ensures found == AnyLocked(desired, preserved, locked)
  {
    var rest := desired.Keys;
    while rest != {}
      invariant rest <= desired.Keys
      invariant forall id :: id in desired.Keys - rest ==> id in preserved || id !in locked
    {
      var id :| id in rest;
      if id !in preserved && id in locked { return true; }
      rest := rest - {id};
    }
    found := false;
  }

  method CheckRetained(current: map<AccountId, Assignment>, desired: map<AccountId, Assignment>, preserved: set<AccountId>)
    returns (owners: bool, epochs: bool)
    ensures owners <==> forall id :: id in desired && id !in preserved && id in current ==>
                          current[id].tenantId == desired[id].tenantId
    ensures epochs <==> forall id :: id in desired && id !in preserved && id in current ==>
                          current[id].placementEpoch <= desired[id].placementEpoch
  {
    owners, epochs := true, true;
    var rest := desired.Keys;
    while rest != {}
      invariant rest <= desired.Keys
      invariant owners <==> forall id :: id in desired.Keys - rest && id !in preserved && id in current ==>
                              current[id].tenantId == desired[id].tenantId
      invariant epochs <==> forall id :: id in desired.Keys - rest && id !in preserved && id in current ==>
                              current[id].placementEpoch <= desired[id].placementEpoch
    {
      var id :| id in rest;
      rest := rest - {id};
      if id !in preserved && id in current {
        if current[id].tenantId != desired[id].tenantId { owners := false; }
        if desired[id].placementEpoch < current[id].placementEpoch { epochs := false; }
      }
    }
  }

  /** The validation loop, with a set of the identifiers already seen. */
  method ValidateRuntimes(list: seq<Assignment>, now: int) returns (named: Option<map<AccountId, Assignment>>)
    ensures named == if ValidList(list, now) then Some(ById(list)) else None
  {
    var seen: map<AccountId, Assignment> := map[];
    var i := 0;
    while i < |list|
      invariant i <= |list| && ValidList(list[..i], now) && seen == ById(list[..i])
    {
      var assignment := list[i];
      OneMoreValid(list, i, now);
      if !ValidAssignment(assignment, now) || assignment.runtimeId in seen { return None; }
      seen := seen[assignment.runtimeId := assignment.(onDisconnect := "hold")];
      i := i + 1;
    }
    assert list[..i] == list;
    named := Some(seen);
  }

  lemma OneMoreValid(list: seq<Assignment>, i: nat, now: int)
    requires i < |list| && ValidList(list[..i], now)
    ensures ValidList(list[..i + 1], now) <==> ValidAssignment(list[i], now) && list[i].runtimeId !in ById(list[..i])
    ensures ValidList(list, now) ==> ValidList(list[..i + 1], now)
    ensures ById(list[..i + 1]) == ById(list[..i])[list[i].runtimeId := list[i].(onDisconnect := "hold")]
  {
    var before, more := list[..i], list[..i + 1];
    assert more[..i] == before && more == before + [list[i]];
    ReconcileAnswers.ByIdHasIds(before, list[i].runtimeId);
    if ValidList(more, now) {
      assert ValidAssignment(more[i], now);
      forall k | 0 <= k < i ensures before[k].runtimeId != list[i].runtimeId {
        assert more[k].runtimeId != more[i].runtimeId;
      }
    }
  }

  method SameAssignments(left: map<AccountId, Assignment>, right: map<AccountId, Assignment>) returns (same: bool)
    ensures same == (left == right)
  {
    if |left| != |right| { return false; }
    var rest := left.Keys;
    while rest != {}
      invariant rest <= left.Keys
      invariant forall id :: id in left.Keys - rest ==> id in right && left[id] == right[id]
    {
      var id :| id in rest;
      if id !in right || left[id] != right[id] { return false; }
      rest := rest - {id};
    }
    SameSizeSameKeys(left, right);
    same := true;
  }

  lemma SameSizeSameKeys(left: map<AccountId, Assignment>, right: map<AccountId, Assignment>)
    requires |left| == |right| && forall id :: id in left ==> id in right && left[id] == right[id]
    ensures left == right
  {
    var extra := right.Keys - left.Keys;
    assert right.Keys == left.Keys + extra;
    assert |right.Keys| == |left.Keys| + |extra|;
    assert extra == {};
  }
}
