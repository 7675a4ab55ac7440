/** Which answer a request gets, read off the request itself and the state it meets. */
module ReconcileAnswers {
  import opened Journals
  import opened HandoverTypes
  import opened ReconcileSpec
  import opened ReconcileHistory

  // ---- the request's own conditions, over its lists

  /** A positive placement whose lease ends within the next fifteen minutes, with a digest
      exactly when it has a configuration. */
  predicate Sound(a: Assignment, now: int) {
    && CanonicalId(a.runtimeId) && CanonicalId(a.tenantId) && a.placementEpoch != 0
    && (a.revision > 0 ==> ValidDigest(a.digest)) && (a.revision == 0 ==> |a.digest| == 0)
    && 0 < a.leaseExpiresAt - now <= 900 && a.onDisconnect in ["", "hold", "release"]
  }

  predicate WellFormed(s: State, r: Request, around: Surroundings) {
    && r.revision != 0 && around.grantsAccepted && (|r.runtimes| <= s.maxAccounts || s.maxAccounts == 0)
    && (forall i :: 0 <= i < |r.runtimes| ==> Sound(r.runtimes[i], around.now))
    && (forall i, j :: 0 <= i < |r.runtimes| && 0 <= j < |r.runtimes| && i != j ==>
          r.runtimes[i].runtimeId != r.runtimes[j].runtimeId)
  }

  /** Preserved runtimes are named once, not assigned as well, and need the transport. */
  predicate SoundPreserve(s: State, r: Request) {
    && (s.transport || r.preserve == [])
    && (forall id :: id in r.preserve ==> CanonicalId(id))
    && (forall i :: 0 <= i < |r.runtimes| ==> r.runtimes[i].runtimeId !in r.preserve)
    && (forall i, j :: 0 <= i < |r.preserve| && 0 <= j < |r.preserve| && i != j ==> r.preserve[i] != r.preserve[j])
  }

  function Kept(s: State, r: Request): set<AccountId> {
    set id | id in s.runtimes.Keys && id in r.preserve
  }

  predicate Fits(s: State, r: Request) {
    s.maxAccounts == 0 || |r.runtimes| + |Kept(s, r)| <= s.maxAccounts
  }

  predicate Lists(r: Request, id: AccountId) {
    exists i :: 0 <= i < |r.runtimes| && r.runtimes[i].runtimeId == id
  }

  predicate NoneLocked(r: Request, around: Surroundings) {
    forall i :: 0 <= i < |r.runtimes| ==> r.runtimes[i].runtimeId !in around.locked
  }

  /** The request asks for exactly what is there. */
  predicate AsksForTheSame(s: State, r: Request) {
    && (forall i :: 0 <= i < |r.runtimes| ==> var a := r.runtimes[i];
          a.runtimeId in s.runtimes && s.runtimes[a.runtimeId] == a.(onDisconnect := "hold"))
    && (forall id :: id in s.runtimes ==> id in r.preserve || Lists(r, id))
  }

  predicate SameTenants(s: State, r: Request) {
    forall i :: 0 <= i < |r.runtimes| && r.runtimes[i].runtimeId in s.runtimes ==>
      r.runtimes[i].tenantId == s.runtimes[r.runtimes[i].runtimeId].tenantId
  }

  predicate NoOlderEpochs(s: State, r: Request) {
    forall i :: 0 <= i < |r.runtimes| && r.runtimes[i].runtimeId in s.runtimes ==>
      r.runtimes[i].placementEpoch >= s.runtimes[r.runtimes[i].runtimeId].placementEpoch
  }

  predicate AllStart(s: State, order: seq<AccountId>, around: Surroundings) {
    forall id :: id in order ==> id !in s.apps && id in around.startable && id in around.registrable
  }

  // ---- the desired set, element by element

  lemma {:induction false} ByIdHasIds(list: seq<Assignment>, id: AccountId)
    ensures id in ById(list) <==> exists k :: 0 <= k < |list| && list[k].runtimeId == id
  {
    if list != [] {
      var prefix, last := list[..|list| - 1], list[|list| - 1];
      ByIdHasIds(prefix, id);
      assert list == prefix + [last];
      if exists k :: 0 <= k < |list| && list[k].runtimeId == id && last.runtimeId != id {
        var k :| 0 <= k < |list| && list[k].runtimeId == id;
        assert prefix[k].runtimeId == id;
      }
      if exists k :: 0 <= k < |prefix| && prefix[k].runtimeId == id {
        var k :| 0 <= k < |prefix| && prefix[k].runtimeId == id;
        assert list[k].runtimeId == id;
      }
      assert list[|list| - 1].runtimeId == last.runtimeId;
    }
  }

  predicate Distinct(list: seq<Assignment>) {
    forall i, j :: 0 <= i < j < |list| ==> list[i].runtimeId != list[j].runtimeId
  }

  lemma {:induction false} ByIdGrows(list: seq<Assignment>)
    requires Distinct(list)
    ensures |ById(list)| == |list|
    decreases |list|
  {
    if list != [] {
      var prefix, last := list[..|list| - 1], list[|list| - 1];
      ByIdGrows(prefix);
      ByIdHasIds(prefix, last.runtimeId);
      assert ById(list).Keys == ById(prefix).Keys + {last.runtimeId};
      assert |ById(list).Keys| == |ById(prefix).Keys| + 1;
    }
  }

  lemma {:induction false} ByIdHolds(list: seq<Assignment>, i: nat)
    requires Distinct(list) && i < |list|
    ensures list[i].runtimeId in ById(list) && ById(list)[list[i].runtimeId] == list[i].(onDisconnect := "hold")
    decreases |list|
  {
    if i < |list| - 1 { ByIdHolds(list[..|list| - 1], i); }
  }

  lemma ListsById(r: Request, id: AccountId)
    ensures Lists(r, id) <==> id in ById(r.runtimes)
  {
    ByIdHasIds(r.runtimes, id);
  }

  /** The desired set: the listed assignments, and the preserved ones that are there. */
  lemma DesiredHas(s: State, r: Request, id: AccountId)
    requires Distinct(r.runtimes)
    ensures id in Desired(s, r) <==> Lists(r, id) || id in Kept(s, r)
    ensures id in Kept(s, r) && !Lists(r, id) ==> Desired(s, r)[id] == s.runtimes[id]
  {
    ListsById(r, id);
  }

  lemma DesiredLists(s: State, r: Request, i: nat)
    requires Distinct(r.runtimes) && i < |r.runtimes|
    ensures var id := r.runtimes[i].runtimeId; id in Desired(s, r) && Desired(s, r)[id] == r.runtimes[i].(onDisconnect := "hold")
  {
    ByIdHolds(r.runtimes, i);
  }

  lemma NeverBoth(s: State, r: Request, id: AccountId)
    requires SoundPreserve(s, r)
    ensures !(id in r.preserve && id in ById(r.runtimes))
  {
    ListsById(r, id);
  }

  lemma DisjointSizes(a: set<AccountId>, b: set<AccountId>, both: set<AccountId>)
    requires a !! b && both == a + b
    ensures |both| == |a| + |b|
  {
  }

  lemma DesiredSize(s: State, r: Request)
    requires Distinct(r.runtimes) && SoundPreserve(s, r)
    ensures |Desired(s, r)| == |r.runtimes| + |Kept(s, r)|
  {
    var named, kept, desired := ById(r.runtimes), Kept(s, r), Desired(s, r);
    ByIdGrows(r.runtimes);
    forall id | id in kept ensures id !in named { NeverBoth(s, r, id); }
    forall id ensures id in desired <==> id in named.Keys + kept { DesiredHas(s, r, id); ListsById(r, id); }
    DisjointSizes(named.Keys, kept, desired.Keys);
    assert |named.Keys| == |named| && |desired.Keys| == |desired|;
  }

  // ---- each check of the verdict

  lemma RequestIsValid(s: State, r: Request, around: Surroundings)
    ensures ValidRequest(s, r, around) <==> WellFormed(s, r, around)
  {
    assert forall i :: 0 <= i < |r.runtimes| ==> (Sound(r.runtimes[i], around.now) <==> ValidAssignment(r.runtimes[i], around.now));
  }

  lemma PreserveIsValid(s: State, r: Request)
    ensures ValidPreserve(s, r.preserve, ById(r.runtimes)) <==> SoundPreserve(s, r)
  {
    forall id ensures Lists(r, id) <==> id in ById(r.runtimes) { ListsById(r, id); }
  }

  lemma LockedIsListed(s: State, r: Request, around: Surroundings)
    requires Distinct(r.runtimes) && SoundPreserve(s, r)
    ensures AnyLocked(Desired(s, r), Preserved(r.preserve), around.locked) <==> !NoneLocked(r, around)
  {
    forall id ensures id in Desired(s, r) <==> Lists(r, id) || id in Kept(s, r) { DesiredHas(s, r, id); }
    forall id ensures !(id in r.preserve && Lists(r, id)) { NeverBoth(s, r, id); ListsById(r, id); }
    if i :| 0 <= i < |r.runtimes| && r.runtimes[i].runtimeId in around.locked {
      var id := r.runtimes[i].runtimeId;
      assert Lists(r, id) && id !in r.preserve && id in Desired(s, r);
    }
  }

  lemma OwnersAreListed(s: State, r: Request)
    requires Distinct(r.runtimes) && SoundPreserve(s, r)
    ensures KeepsOwners(s, Desired(s, r), Preserved(r.preserve)) <==> SameTenants(s, r)
    ensures KeepsEpochs(s, Desired(s, r), Preserved(r.preserve)) <==> NoOlderEpochs(s, r)
  {
    forall id | id in Desired(s, r) && id !in r.preserve
      ensures exists i :: 0 <= i < |r.runtimes| && r.runtimes[i].runtimeId == id
    {
      DesiredHas(s, r, id);
    }
    forall i | 0 <= i < |r.runtimes|
      ensures var id := r.runtimes[i].runtimeId;
              id in Desired(s, r) && id !in r.preserve && Desired(s, r)[id] == r.runtimes[i].(onDisconnect := "hold")
    {
      DesiredLists(s, r, i);
    }
  }

  lemma SameIsListed(s: State, r: Request)
    requires Distinct(r.runtimes) && SoundPreserve(s, r)
    ensures s.runtimes == Desired(s, r) <==> AsksForTheSame(s, r)
  {
    forall i | 0 <= i < |r.runtimes|
      ensures var id := r.runtimes[i].runtimeId;
              id in Desired(s, r) && Desired(s, r)[id] == r.runtimes[i].(onDisconnect := "hold")
    {
      DesiredLists(s, r, i);
    }
    forall id
      ensures id in Desired(s, r) <==> Lists(r, id) || id in Kept(s, r)
      ensures id in Kept(s, r) && !Lists(r, id) ==> Desired(s, r)[id] == s.runtimes[id]
    {
      DesiredHas(s, r, id);
    }
    if AsksForTheSame(s, r) {
      forall id | id in Desired(s, r) ensures id in s.runtimes && s.runtimes[id] == Desired(s, r)[id] {
        if i :| 0 <= i < |r.runtimes| && r.runtimes[i].runtimeId == id {}
      }
    }
  }

  lemma {:induction false} AllAreAdded(s: State, desired: map<AccountId, Assignment>, order: seq<AccountId>, around: Surroundings)
    requires forall i, j :: 0 <= i < j < |order| ==> order[i] != order[j]
    ensures AddAll(s, desired, order, around).1 <==> AllStart(s, order, around)
    decreases |order|
  {
    if order != [] {
      assert order == [order[0]] + order[1..];
      if order[0] !in s.apps && order[0] in around.startable {
        AllAreAdded(Started(s, order[0], order[0] in desired && desired[order[0]].revision > 0), desired, order[1..], around);
      }
    }
  }

  // ---- the answer

  /** Everything that is checked before revisions are compared for reuse. */
  predicate Admissible(s: State, r: Request, around: Surroundings) {
    WellFormed(s, r, around) && r.revision >= s.revision && SoundPreserve(s, r) && Fits(s, r) && NoneLocked(r, around)
  }

  lemma VerdictIs(s: State, r: Request, around: Surroundings)
    requires WellFormed(s, r, around) && SoundPreserve(s, r) && r.revision >= s.revision
    ensures var verdict := Verdict(s, r, around);
            if !Fits(s, r) then verdict == Some(Refused(OverLimit))
            else if !NoneLocked(r, around) then verdict == Some(Refused(Locked))
            else if r.revision == s.revision then
              verdict == Some(if AsksForTheSame(s, r) then Repeated else Refused(RevisionReused))
            else if !SameTenants(s, r) then verdict == Some(Refused(OwnerChanged))
            else if !NoOlderEpochs(s, r) then verdict == Some(Refused(StaleEpoch))
            else verdict.None?
  {
    RequestIsValid(s, r, around);
    PreserveIsValid(s, r);
    DesiredSize(s, r);
    LockedIsListed(s, r, around);
    SameIsListed(s, r);
    OwnersAreListed(s, r);
  }

  /** A request is refused exactly for its first failing condition. */
  lemma RefusedExactly(s: State, r: Request, around: Surroundings)
    ensures var answer := Reconcile(s, r, around).1;
            && (answer == Refused(Invalid) <==> !WellFormed(s, r, around))
            && (answer == Refused(StaleRevision) <==> WellFormed(s, r, around) && r.revision < s.revision)
            && (answer == Refused(InvalidPreserved) <==>
                  WellFormed(s, r, around) && r.revision >= s.revision && !SoundPreserve(s, r))
            && (answer == Refused(OverLimit) <==>
                  WellFormed(s, r, around) && r.revision >= s.revision && SoundPreserve(s, r) && !Fits(s, r))
            && (answer == Refused(Locked) <==>
                  WellFormed(s, r, around) && r.revision >= s.revision && SoundPreserve(s, r) && Fits(s, r)
                  && !NoneLocked(r, around))
            && (answer == Refused(RevisionReused) <==>
                  Admissible(s, r, around) && r.revision == s.revision && !AsksForTheSame(s, r))
            && (answer == Refused(OwnerChanged) <==>
                  Admissible(s, r, around) && r.revision > s.revision && !SameTenants(s, r))
            && (answer == Refused(StaleEpoch) <==>
                  Admissible(s, r, around) && r.revision > s.revision && SameTenants(s, r) && !NoOlderEpochs(s, r))
  {
    RequestIsValid(s, r, around);
    PreserveIsValid(s, r);
    if WellFormed(s, r, around) && r.revision >= s.revision && SoundPreserve(s, r) { VerdictIs(s, r, around); }
  }

  predicate Good(s: State, r: Request, around: Surroundings) {
    Admissible(s, r, around) && r.revision > s.revision && SameTenants(s, r) && NoOlderEpochs(s, r)
  }

  predicate InForceAlready(s: State, r: Request, around: Surroundings) {
    Admissible(s, r, around) && r.revision == s.revision && AsksForTheSame(s, r)
  }

  lemma VerdictDecides(s: State, r: Request, around: Surroundings)
    ensures var (verdict, answer) := (Verdict(s, r, around), Reconcile(s, r, around).1);
            var started := AddAll(s, Desired(s, r), around.order, around).1;
            && (verdict.Some? ==> answer == verdict.value && (answer.Refused? || answer.Repeated?))
            && (verdict.None? ==>
                  answer == if !started then StartFailed else if around.placed then Published else PublishedWithError)
  {
  }

  lemma VerdictIsNone(s: State, r: Request, around: Surroundings)
    ensures Verdict(s, r, around).None? <==> Good(s, r, around)
    ensures Verdict(s, r, around) == Some(Repeated) <==> InForceAlready(s, r, around)
  {
    RequestIsValid(s, r, around);
    PreserveIsValid(s, r);
    if WellFormed(s, r, around) && r.revision >= s.revision && SoundPreserve(s, r) { VerdictIs(s, r, around); }
  }

  /** A good request is never refused: it is found in force, or published when everything
      new starts and registers, and its answer then reports whether metrics were placed. */
  lemma AcceptedExactly(s: State, r: Request, around: Surroundings)
    requires forall i, j :: 0 <= i < j < |around.order| ==> around.order[i] != around.order[j]
    ensures var answer := Reconcile(s, r, around).1;
            && (answer == Repeated <==> InForceAlready(s, r, around))
            && (answer == Published <==> Good(s, r, around) && AllStart(s, around.order, around) && around.placed)
            && (answer == PublishedWithError <==> Good(s, r, around) && AllStart(s, around.order, around) && !around.placed)
            && (answer == StartFailed <==> Good(s, r, around) && !AllStart(s, around.order, around))
  {
    VerdictDecides(s, r, around);
    VerdictIsNone(s, r, around);
    AllAreAdded(s, Desired(s, r), around.order, around);
  }

  /** What an accepted request puts in force: each listed assignment, with its disconnect
      policy kept as hold, the preserved ones that were there, and nothing else. */
  lemma InstalledExactly(s: State, r: Request, around: Surroundings, id: AccountId)
    requires Accepted(Reconcile(s, r, around).1)
    ensures var d := Reconcile(s, r, around).0;
            && d.revision == r.revision
            && (id in d.runtimes <==> Lists(r, id) || (id in r.preserve && id in s.runtimes))
            && (forall i :: 0 <= i < |r.runtimes| && r.runtimes[i].runtimeId == id ==>
                  id in d.runtimes && d.runtimes[id] == r.runtimes[i].(onDisconnect := "hold"))
            && (id in r.preserve && id in s.runtimes ==> id in d.runtimes && d.runtimes[id] == s.runtimes[id])
  {
    VerdictDecides(s, r, around);
    VerdictIsNone(s, r, around);
    DesiredHas(s, r, id);
    NeverBoth(s, r, id);
    ListsById(r, id);
    forall i | 0 <= i < |r.runtimes| && r.runtimes[i].runtimeId == id
      ensures id in Desired(s, r) && Desired(s, r)[id] == r.runtimes[i].(onDisconnect := "hold")
    {
      DesiredLists(s, r, i);
    }
  }

  /** The request wants this runtime without a managed configuration. */
  predicate ListsUnmanaged(r: Request, id: AccountId) {
    exists i :: 0 <= i < |r.runtimes| && r.runtimes[i].runtimeId == id && r.runtimes[i].revision == 0
  }

  /** An accepted request forgets the acknowledgements of exactly the runtimes it removes and
      of those it lists without a configuration, and keeps all others as they are. */
  lemma ForgetsExactly(s: State, r: Request, around: Surroundings, id: AccountId)
    requires Accepted(Reconcile(s, r, around).1)
    ensures var d := Reconcile(s, r, around).0;
            && (id in d.syncs <==> id in s.syncs && (id in s.runtimes ==> id in d.runtimes) && !ListsUnmanaged(r, id))
            && (id in d.syncs ==> d.syncs[id] == s.syncs[id])
  {
    VerdictDecides(s, r, around);
    VerdictIsNone(s, r, around);
    AddOnlyStarts(s, Desired(s, r), around.order, around);
    DesiredHas(s, r, id);
    NeverBoth(s, r, id);
    ListsById(r, id);
    forall i | 0 <= i < |r.runtimes| && r.runtimes[i].runtimeId == id
      ensures id in Desired(s, r) && Desired(s, r)[id] == r.runtimes[i].(onDisconnect := "hold")
    {
      DesiredLists(s, r, i);
    }
  }

  // ---- acknowledgements and session starts

  /** The acknowledged tuple is the one in force for a live application. */
  predicate InForce(s: State, id: AccountId, epoch: nat, revision: nat, digest: string) {
    && id in s.runtimes && id in s.apps && epoch != 0 && revision != 0 && ValidDigest(digest)
    && s.runtimes[id].placementEpoch == epoch && s.runtimes[id].revision == revision && s.runtimes[id].digest == digest
  }

  /** Within one placement configurations only move forward. */
  predicate GoesBack(s: State, id: AccountId, epoch: nat, revision: nat, digest: string) {
    && id in s.syncs && s.syncs[id].epoch == epoch
    && (s.syncs[id].revision > revision || (s.syncs[id].revision == revision && s.syncs[id].digest != digest))
  }

  /** An acknowledgement is answered ready if and only if it is for the tuple in force, does
      not go back, and was installed now or by this application instance before. */
  lemma AcknowledgedExactly(s: State, id: AccountId, epoch: nat, revision: nat, digest: string, applied: bool)
    ensures var (d, answer) := Acknowledge(s, id, epoch, revision, digest, applied);
            var tuple := if id in s.apps then Some(Sync(epoch, revision, digest, s.apps[id].instance)) else None;
            && (answer.SyncReady? <==>
                  && InForce(s, id, epoch, revision, digest) && !GoesBack(s, id, epoch, revision, digest)
                  && (applied || (id in s.syncs && tuple == Some(s.syncs[id]))))
            && (answer.SyncReady? ==>
                  && id in s.apps && id in d.syncs && id in d.apps && d.syncs[id] == tuple.value
                  && d == s.(syncs := s.syncs[id := tuple.value], apps := s.apps[id := s.apps[id].(gate := Ready)]))
            && (!answer.SyncReady? ==> d == s)
  {
  }

  /** A session start passes its check if and only if it is for the placement in force, that
      placement wants a session, and its configuration is acknowledged or not required. */
  lemma StartsExactly(s: State, id: AccountId, epoch: nat)
    requires s.starting.None?
    ensures var d := CheckStart(s, id, epoch);
            && (d.starting.Some? <==>
                  && id in s.runtimes && s.runtimes[id].placementEpoch == epoch && s.runtimes[id].startSession
                  && (s.runtimes[id].revision == 0
                      || (id in s.apps && id in s.syncs
                          && s.syncs[id] == Sync(epoch, s.runtimes[id].revision, s.runtimes[id].digest, s.apps[id].instance))))
            && (d.starting.Some? ==>
                  d.starting == Some(Check(id, if id in s.apps then Some(s.apps[id].instance) else None)))
            && d.(starting := None) == s
  {
  }

  // ---- what a fence, a forgotten assignment and a removal leave behind

  /** What may open the gate of a runtime's application: a request, an acknowledgement of its
      own, or its restart. */
  predicate MayOpen(e: Event, id: AccountId) {
    e.Reconciled? || (e.Acknowledged? && e.id == id) || (e.Rebound? && e.id == id)
  }

  predicate Closed(s: State, id: AccountId) {
    id in s.apps ==> s.apps[id].gate == Pending
  }

  lemma {:induction false} ClosedIsKept(s: State, events: seq<Event>, id: AccountId)
    requires Allowed(s, events) && Closed(s, id) && forall e :: e in events ==> !MayOpen(e, id)
    ensures Closed(Run(s, events), id)
    decreases |events|
  {
    if events != [] {
      assert !MayOpen(events[0], id);
      ClosedIsKept(Apply(s, events[0]), events[1..], id);
    }
  }

  /** Behind its source fence an application lets no settings change through, over every run
      without a request, an acknowledgement of its own, or its restart. */
  lemma FencedStaysClosed(s: State, id: AccountId, events: seq<Event>)
    requires Allowed(s, [SourceFenced(id)] + events) && forall e :: e in events ==> !MayOpen(e, id)
    ensures Closed(Run(s, [SourceFenced(id)] + events), id)
  {
    assert ([SourceFenced(id)] + events)[1..] == events;
    ClosedIsKept(Apply(s, SourceFenced(id)), events, id);
  }

  predicate Out(s: State, id: AccountId) {
    id !in s.runtimes && id !in s.syncs
  }

  lemma {:induction false} OutIsKept(s: State, events: seq<Event>, id: AccountId)
    requires Allowed(s, events) && Out(s, id) && forall e :: e in events ==> !e.Reconciled?
    ensures Out(Run(s, events), id)
    decreases |events|
  {
    if events != [] {
      assert !events[0].Reconciled?;
      OutIsKept(Apply(s, events[0]), events[1..], id);
    }
  }

  /** After the cell forgot an assignment, no acknowledgement and no session start of that
      runtime passes until the next request. */
  lemma ForgottenStaysOut(s: State, id: AccountId, events: seq<Event>, epoch: nat, revision: nat, digest: string, applied: bool)
    requires Allowed(s, [Forgotten(id)] + events) && forall e :: e in events ==> !e.Reconciled?
    ensures var after := Run(s, [Forgotten(id)] + events);
            && Acknowledge(after, id, epoch, revision, digest, applied) == (after, SyncRefused)
            && CheckStart(after, id, epoch) == after
  {
    assert ([Forgotten(id)] + events)[1..] == events;
    OutIsKept(Apply(s, Forgotten(id)), events, id);
  }

  lemma {:induction false} AbsenceIsKept(s: State, events: seq<Event>, id: AccountId)
    requires Allowed(s, events) && id !in s.apps && forall e :: e in events ==> !e.Reconciled?
    ensures id !in Run(s, events).apps
    decreases |events|
  {
    if events != [] {
      assert !events[0].Reconciled?;
      AbsenceIsKept(Apply(s, events[0]), events[1..], id);
    }
  }

  /** A removed application is gone until a request starts it again. */
  lemma RemovedStaysGone(s: State, id: AccountId, events: seq<Event>)
    requires Allowed(s, [Removed(id)] + events) && forall e :: e in events ==> !e.Reconciled?
    ensures id !in Run(s, [Removed(id)] + events).apps
  {
    assert ([Removed(id)] + events)[1..] == events;
    AbsenceIsKept(Apply(s, Removed(id)), events, id);
  }

  /** What concerns one runtime leaves every other runtime's assignment, acknowledgement and
      application as they are. */
  lemma OthersAreUntouched(s: State, e: Event, other: AccountId)
    requires Enabled(s, e) && !e.Reconciled? && (e.StartDone? || e.id != other)
    ensures var d := Apply(s, e);
            && (other in d.runtimes <==> other in s.runtimes) && (other in s.runtimes ==> d.runtimes[other] == s.runtimes[other])
            && (other in d.syncs <==> other in s.syncs) && (other in s.syncs ==> d.syncs[other] == s.syncs[other])
            && (other in d.apps <==> other in s.apps) && (other in s.apps ==> d.apps[other] == s.apps[other])
  {
  }
}
