/** The marker's mutations in place, keyed by the effect they are for. */
module PurchaseMarker {
  import opened Journals
  import opened PurchaseSpec

  datatype Action = ActionArm | ActionDispatch | ActionDisarm | ActionReject

  class PurchaseMarker {
    var purchases: map<int, Record>
    var snapshot: Snapshot
    ghost var latest: int

    ghost function View(): State
      reads this
    {
      State(snapshot, if EFFECT in purchases then Some(purchases[EFFECT]) else None, latest)
    }

    /** The checks of a purchase context, one early return after another. */
    method ContextHolds(r: Request, now: int, pending: string) returns (holds: bool)
      ensures holds == ContextOk(View(), r, now, pending)
    {
      if r.effect != EFFECT || r.cost != COST || r.bonus <= 0 || r.endsUnix <= 0 || r.reserve < 0
         || r.interval < 30 || r.interval > 3600 || r.balance < 0 {
        return false;
      }
      if !snapshot.contract || snapshot.baseline.None? { return false; }
      var baseline := snapshot.baseline.value;
      if baseline > now || snapshot.baselineGeneration != snapshot.generation
         || (snapshot.changedAt.Some? && baseline < snapshot.changedAt.value) || now - baseline >= FRESHNESS {
        return false;
      }
      if snapshot.effectEnds.None? { return false; }
      var ends := snapshot.effectEnds.value;
      if now >= ends || ends - now <= WINDOW_GUARD || Unix(ends) != r.endsUnix { return false; }
      if snapshot.cursor.Some? && SameOccurrence(snapshot.cursor.value * SECOND, ends) { return false; }
      if EFFECT in purchases && SameOccurrence(purchases[EFFECT].ends, ends) {
        var record := purchases[EFFECT];
        var ownedPending := record.outcome == Unresolved && pending != "" && record.operation == pending;
        if !ownedPending && (record.outcome == Unresolved || record.outcome == Accepted || record.outcome == Confirmed) {
          return false;
        }
      }
      if snapshot.status.None? { return false; }
      var status := snapshot.status.value;
      if !SameOccurrence(status.ends, ends) || status.observedAt != baseline || status.generation != snapshot.generation
         || status.boosted {
        return false;
      }
      if snapshot.offer.None? || snapshot.offer.value.cost != r.cost || snapshot.offer.value.bonus != r.bonus { return false; }
      if snapshot.rubies.None? { return false; }
      var rubies := snapshot.rubies.value;
      if rubies.observedAt != baseline || rubies.generation != snapshot.generation || rubies.value != r.balance { return false; }
      holds := rubies.value - r.reserve >= snapshot.offer.value.cost;
    }

    /** The four mutations share one transaction. Only the daily effect can be armed. */
    method MutatePurchase(action: Action, r: Request, operation: string, token: string, now: int, controls: bool)
      returns (passed: bool)
      modifies this`purchases
      ensures r.effect != EFFECT ==> View() == old(View())
      ensures r.effect == EFFECT && action.ActionArm? ==> (View(), passed) == Arm(old(View()), r, operation, token, now, controls)
      ensures r.effect == EFFECT && action.ActionDispatch? ==> (View(), passed) == Dispatch(old(View()), r, operation, token, now, controls)
      ensures r.effect == EFFECT && action.ActionDisarm? ==> View() == Disarm(old(View()), operation, token)
      ensures r.effect == EFFECT && action.ActionReject? ==> View() == Reject(old(View()), operation, token)
    {
      if (action.ActionArm? || action.ActionDispatch?) && !controls { return false; }
      var found := r.effect in purchases;
      var matches := found && purchases[r.effect].operation == operation
                     && (purchases[r.effect].token == "" || token == "" || purchases[r.effect].token == token);
      match action
      case ActionArm =>
        var holds := ContextHolds(r, now, "");
        if !holds { return false; }
        purchases := purchases[r.effect := Record(operation, token, r.endsUnix * SECOND, Unresolved, None, r.cost, r.reserve, r.balance)];
        passed := true;
      case ActionDispatch =>
        if !matches || purchases[r.effect].outcome != Unresolved { return false; }
        var holds := ContextHolds(r, now, operation);
        if !holds { return false; }
        if purchases[r.effect].dispatchedAt.None? {
          purchases := purchases[r.effect := purchases[r.effect].(dispatchedAt := Some(now))];
        }
        passed := true;
      case ActionDisarm =>
        if matches && purchases[r.effect].outcome == Unresolved { purchases := purchases - {r.effect}; }
        passed := true;
      case ActionReject =>
        if matches && purchases[r.effect].outcome != Accepted && purchases[r.effect].outcome != Confirmed {
          purchases := purchases[r.effect := purchases[r.effect].(outcome := Rejected)];
        }
        passed := true;
    }

    method ReconcilePurchase(ending: Ending)
      modifies this`purchases
      ensures View() == ReconcileMarker(old(View()), ending)
    {
      if EFFECT !in purchases { return; }
      var record := purchases[EFFECT];
      if record.outcome != Unresolved || record.operation == "" || record.dispatchedAt.None? { return; }
      if ending == ExchangeAccepted {
        purchases := purchases[EFFECT := record.(outcome := Accepted)];
        return;
      }
      if ending != EndedOpen { return; }
      if snapshot.baseline.None? || snapshot.baseline.value <= record.dispatchedAt.value
         || snapshot.baselineGeneration != snapshot.generation || snapshot.status.None? {
        return;
      }
      var status := snapshot.status.value;
      if status.observedAt != snapshot.baseline.value || !SameOccurrence(status.ends, record.ends) || status.boosted { return; }
      purchases := purchases[EFFECT := record.(outcome := Rejected)];
    }
  }
}
