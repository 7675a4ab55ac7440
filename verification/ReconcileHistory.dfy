/** What successive reconciles may change, and what they never do. */
module ReconcileHistory {
  import opened HandoverTypes
  import opened ReconcileSpec
  import opened ReconcileProofs

  lemma {:induction false} AddOnlyStarts(s: State, desired: map<AccountId, Assignment>, order: seq<AccountId>, around: Surroundings)
    ensures var d := AddAll(s, desired, order, around).0;
            && d.revision == s.revision && d.runtimes == s.runtimes && d.syncs == s.syncs
            && s.apps.Keys <= d.apps.Keys
            && (forall id :: id in s.apps ==> d.apps[id] == s.apps[id])
            && (forall id :: id in d.apps ==> id in s.apps || id in order)
    decreases |order|
  {
    if order != [] && order[0] !in s.apps && order[0] in around.startable {
      AddOnlyStarts(Started(s, order[0], order[0] in desired && desired[order[0]].revision > 0), desired, order[1..], around);
    }
  }

  lemma {:induction false} AllAreStarted(s: State, desired: map<AccountId, Assignment>, order: seq<AccountId>, around: Surroundings)
    requires AddAll(s, desired, order, around).1
    ensures forall id :: id in order ==> id !in s.apps && id in AddAll(s, desired, order, around).0.apps
    decreases |order|
  {
    if order != [] {
      var started := Started(s, order[0], order[0] in desired && desired[order[0]].revision > 0);
      AllAreStarted(started, desired, order[1..], around);
      AddOnlyStarts(started, desired, order[1..], around);
      assert order == [order[0]] + order[1..];
    }
  }

  /** Every answer before publication leaves revision, assignments and acknowledgements as
      they were, and an equal revision is accepted only with identical assignments. */
  lemma RefusalsChangeNothing(s: State, request: Request, around: Surroundings)
    ensures var (d, answer) := Reconcile(s, request, around);
            && (answer.Refused? || answer.Repeated? ==> d == s)
            && (answer.Repeated? ==> request.revision == s.revision && Desired(s, request) == s.runtimes)
            && (answer.StartFailed? ==> d.revision == s.revision && d.runtimes == s.runtimes && d.syncs == s.syncs)
            && (answer.Published? || answer.PublishedWithError? ==> request.revision > s.revision)
  {
    AddOnlyStarts(s, Desired(s, request), around.order, around);
  }

  predicate Accepted(answer: Answer) {
    answer.Published? || answer.PublishedWithError?
  }

  /** A publication installs exactly the desired set; retained runtimes keep tenant and
      epoch order; new ones were started by this very reconcile. */
  lemma PublicationFollowsHistory(s: State, request: Request, around: Surroundings, id: AccountId)
    requires ValidOrder(s, Desired(s, request), Preserved(request.preserve), around.order)
    requires Accepted(Reconcile(s, request, around).1)
    ensures var d := Reconcile(s, request, around).0;
            && d.revision == request.revision && d.runtimes == Desired(s, request)
            && (id in s.runtimes && id in d.runtimes ==>
                  && d.runtimes[id].tenantId == s.runtimes[id].tenantId
                  && d.runtimes[id].placementEpoch >= s.runtimes[id].placementEpoch)
            && (id in d.runtimes && id !in s.runtimes ==> id !in s.apps && id in d.apps)
  {
    AddOnlyStarts(s, Desired(s, request), around.order, around);
    AllAreStarted(s, Desired(s, request), around.order, around);
    PreservedAreCurrent(s, request, around);
  }

  /** A preserved runtime keeps exactly its previous assignment, application and gate, and
      is never constructed. */
  lemma PreservedIsUntouched(s: State, request: Request, around: Surroundings, id: AccountId)
    requires ValidOrder(s, Desired(s, request), Preserved(request.preserve), around.order)
    requires id in request.preserve && Accepted(Reconcile(s, request, around).1)
    ensures var d := Reconcile(s, request, around).0;
            && (id in d.runtimes <==> id in s.runtimes) && (id in s.runtimes ==> d.runtimes[id] == s.runtimes[id])
            && (id in d.apps <==> id in s.apps) && (id in s.apps ==> d.apps[id] == s.apps[id])
            && (id in s.runtimes && id in s.syncs ==> id in d.syncs && d.syncs[id] == s.syncs[id])
  {
    assert id in Preserved(request.preserve);
    AddOnlyStarts(s, Desired(s, request), around.order, around);
    PreservedAreCurrent(s, request, around);
  }

  // ---- over runs

  lemma EventKeepsRevision(s: State, e: Event)
    requires Enabled(s, e)
    ensures s.revision <= Apply(s, e).revision
  {
    if e.Reconciled? { RefusalsChangeNothing(s, e.request, e.around); AddOnlyStarts(s, Desired(s, e.request), e.around.order, e.around); }
  }

  /** Accepted desired revisions never decrease. */
  lemma {:induction false} RevisionsRise(s: State, events: seq<Event>)
    requires Allowed(s, events)
    ensures s.revision <= Run(s, events).revision
    decreases |events|
  {
    if events != [] {
      EventKeepsRevision(s, events[0]);
      RevisionsRise(Apply(s, events[0]), events[1..]);
    }
  }

  /** The runtime stays in the desired set through the whole run. */
  ghost predicate Retained(s: State, events: seq<Event>, id: AccountId)
    requires Allowed(s, events)
    decreases |events|
  {
    id in s.runtimes && (events != [] ==> Retained(Apply(s, events[0]), events[1..], id))
  }

  lemma EventKeepsOwner(s: State, e: Event, id: AccountId)
    requires Enabled(s, e) && id in s.runtimes && id in Apply(s, e).runtimes
    ensures var d := Apply(s, e);
            d.runtimes[id].tenantId == s.runtimes[id].tenantId && d.runtimes[id].placementEpoch >= s.runtimes[id].placementEpoch
  {
    if e.Reconciled? {
      var answer := Reconcile(s, e.request, e.around).1;
      RefusalsChangeNothing(s, e.request, e.around);
      if Accepted(answer) { PublicationFollowsHistory(s, e.request, e.around, id); }
    }
  }

  /** A runtime that stays desired keeps its tenant, and its placement epoch never falls. */
  lemma {:induction false} RetainedKeepsOwner(s: State, events: seq<Event>, id: AccountId)
    requires Allowed(s, events) && Retained(s, events, id)
    ensures var d := Run(s, events);
            && id in d.runtimes && d.runtimes[id].tenantId == s.runtimes[id].tenantId
            && d.runtimes[id].placementEpoch >= s.runtimes[id].placementEpoch
    decreases |events|
  {
    if events != [] {
      var next := Apply(s, events[0]);
      assert id in next.runtimes by { assert Retained(next, events[1..], id); }
      EventKeepsOwner(s, events[0], id);
      RetainedKeepsOwner(next, events[1..], id);
    }
  }
}
