/** At most one purchase command leaves per effect window. */
module PurchaseProofs {
  import opened Journals
  import opened PurchaseSpec

  /** A present window is the newest one, and an unresolved marker carries its plan's window. */
  ghost predicate Sound(s: State, plans: string -> Request) {
    && (s.snapshot.effectEnds.Some? ==> s.snapshot.effectEnds.value == s.latest)
    && (s.record.Some? && s.record.value.operation != "" ==>
          s.record.value.ends == plans(s.record.value.operation).endsUnix * SECOND)
  }

  lemma StepKeepsSound(s: State, step: Step, plans: string -> Request)
    requires Sound(s, plans) && Enabled(s, step)
    ensures Sound(Apply(s, step, plans), plans) && Apply(s, step, plans).latest >= s.latest
  {
  }

  // ---- the steps that give a window back

  /** The record is this operation's, and the tokens agree where both are known. */
  predicate OwnedBy(record: Record, operation: string, token: string) {
    record.operation == operation && (token == record.token || record.token == "" || token == "")
  }

  /** The game's answer is to the command of this record. */
  predicate AnswersTo(record: Record, operation: string, token: string) {
    (record.token != "" && record.token == token) || (record.operation != "" && record.operation == operation)
  }

  /** A dispatched purchase that nothing has settled yet. */
  predicate Waiting(record: Option<Record>) {
    record.Some? && record.value.outcome == Unresolved && record.value.operation != "" && record.value.dispatchedAt.Some?
  }

  /** A complete snapshot of this session, taken after the dispatch, that shows the record's
      window without the boost. */
  predicate LaterInactive(n: Snapshot, record: Record) {
    && record.dispatchedAt.Some? && n.baseline.Some? && n.status.Some?
    && record.dispatchedAt.value < n.baseline.value && n.baselineGeneration == n.generation
    && n.status.value.observedAt == n.baseline.value && !n.status.value.boosted
    && record.ends - OCCURRENCE_TOLERANCE <= n.status.value.ends <= record.ends + OCCURRENCE_TOLERANCE
  }

  /** Only these steps may give a window back: its own operation disarms or rejects the
      marker while it is unresolved, the game answers it with an error, or its operation
      ended open and a later snapshot shows the window without the boost. */
  predicate Clears(s: State, step: Step) {
    && s.record.Some?
    && var record := s.record.value;
       match step
       case Disarming(operation, token) => record.outcome == Unresolved && OwnedBy(record, operation, token)
       case Rejecting(operation, token) => record.outcome == Unresolved && OwnedBy(record, operation, token)
       case Acknowledging(operation, token, code) => code != 0 && AnswersTo(record, operation, token)
       case Reconciling(ending) => ending == EndedOpen && Waiting(s.record) && LaterInactive(s.snapshot, record)
       case _ => false
  }

  predicate NothingCleared(s: State, steps: seq<Step>, plans: string -> Request)
    decreases |steps|
  {
    steps != [] ==> !Clears(s, steps[0]) && NothingCleared(Apply(s, steps[0], plans), steps[1..], plans)
  }

  predicate Held(record: Option<Record>) {
    record.Some? && record.value.outcome != Rejected
  }

  /** Those steps do give it back, and no other step does: a held marker goes or is rejected
      exactly by a clearing step. A boosted status replaces a record of another window. */
  lemma ClearsExactly(s: State, step: Step, plans: string -> Request)
    requires Held(s.record) && !step.Arming? && !step.Confirming?
    ensures Clears(s, step) <==> !Held(Apply(s, step, plans).record)
    ensures Clears(s, step) ==>
              var record := Apply(s, step, plans).record;
              if step.Disarming? then record.None? else record == Some(s.record.value.(outcome := Rejected))
  {
  }

  /** Every ending of the operation's durable receipt: an accepted exchange settles a waiting
      marker as accepted, an open ending settles it as rejected on later evidence only, and
      everything else leaves the marker as it was. */
  lemma EndingDecides(s: State, ending: Ending)
    ensures var d := ReconcileMarker(s, ending);
            && d.snapshot == s.snapshot && d.latest == s.latest
            && (Waiting(s.record) && ending == ExchangeAccepted ==> d.record == Some(s.record.value.(outcome := Accepted)))
            && (Waiting(s.record) && ending == EndedOpen && LaterInactive(s.snapshot, s.record.value) ==>
                  d.record == Some(s.record.value.(outcome := Rejected)))
            && (d.record != s.record ==> Waiting(s.record) && (ending == ExchangeAccepted || ending == EndedOpen))
            && (ending == EndedOpen && d.record != s.record ==> LaterInactive(s.snapshot, s.record.value))
  {
  }

  /** The game's answer: zero accepts the record it belongs to unless it was confirmed, any
      other code rejects it, and an answer to something else changes nothing. */
  lemma AnswerDecides(s: State, operation: string, token: string, code: int)
    ensures var d := Acknowledge(s, operation, token, code);
            && d.snapshot == s.snapshot && d.latest == s.latest
            && (s.record.None? || !AnswersTo(s.record.value, operation, token) ==> d.record == s.record)
            && (s.record.Some? && AnswersTo(s.record.value, operation, token) ==>
                  d.record == Some(s.record.value.(outcome :=
                    if code != 0 then Rejected else if s.record.value.outcome == Confirmed then Confirmed else Accepted)))
  {
  }

  /** A boosted status confirms the record of its window, or records one of its own. */
  lemma BoostConfirms(s: State)
    ensures var (d, ends) := (ConfirmBoosted(s), s.snapshot.effectEnds);
            && d.snapshot == s.snapshot && d.latest == s.latest && (ends.None? ==> d == s)
            && (ends.Some? ==>
                  && d.record.Some? && d.record.value.outcome == Confirmed
                  && -OCCURRENCE_TOLERANCE <= d.record.value.ends - ends.value <= OCCURRENCE_TOLERANCE
                  && (s.record.Some? && -OCCURRENCE_TOLERANCE <= s.record.value.ends - ends.value <= OCCURRENCE_TOLERANCE ==>
                        d.record.value.(outcome := s.record.value.outcome) == s.record.value)
                  && (d.record.value.operation != "" ==> s.record.Some? && s.record.value.operation == d.record.value.operation))
  {
  }

  /** The window of a dispatched operation stays taken: its marker still holds it, or the
      window has passed. */
  predicate Taken(s: State, operation: string, ends: int) {
    || s.latest - ends > OCCURRENCE_TOLERANCE
    || (s.record.Some? && s.record.value.operation == operation && s.record.value.ends == ends && Holds(s.record.value.outcome))
  }

  lemma DispatchTakes(s: State, operation: string, token: string, now: int, controls: bool, plans: string -> Request)
    requires Dispatch(s, plans(operation), operation, token, now, controls).1
    ensures var d := Dispatch(s, plans(operation), operation, token, now, controls).0;
            d.record.Some? && d.record.value.ends == s.record.value.ends && Taken(d, operation, s.record.value.ends)
  {
  }

  lemma StepKeepsTaken(s: State, step: Step, operation: string, ends: int, plans: string -> Request)
    requires Sound(s, plans) && Enabled(s, step) && Taken(s, operation, ends) && operation != ""
    requires !Clears(s, step)
    requires ends <= s.latest
    ensures Taken(Apply(s, step, plans), operation, ends)
  {
  }

  lemma {:induction false} RunKeepsTaken(s: State, steps: seq<Step>, operation: string, ends: int, plans: string -> Request)
    requires Sound(s, plans) && Allowed(s, steps, plans) && NothingCleared(s, steps, plans)
    requires Taken(s, operation, ends) && operation != "" && ends <= s.latest
    ensures Taken(Run(s, steps, plans), operation, ends) && Sound(Run(s, steps, plans), plans)
    decreases |steps|
  {
    if steps != [] {
      StepKeepsSound(s, steps[0], plans);
      StepKeepsTaken(s, steps[0], operation, ends, plans);
      RunKeepsTaken(Apply(s, steps[0], plans), steps[1..], operation, ends, plans);
    }
  }

  /** Two different operations never both pass dispatch for one window, unless a disarm, a
      rejection or a reconciliation to rejected lies between them. The first operation's
      window end is the whole second of the effect end it was dispatched for. */
  lemma OnePurchasePerWindow(s: State, first: string, firstToken: string, firstNow: int, steps: seq<Step>,
                             second: string, secondToken: string, secondNow: int, plans: string -> Request)
    requires Sound(s, plans) && first != "" && first != second
    requires Dispatch(s, plans(first), first, firstToken, firstNow, true).1
    requires var d := Dispatch(s, plans(first), first, firstToken, firstNow, true).0;
             && Allowed(d, steps, plans) && NothingCleared(d, steps, plans)
             && Dispatch(Run(d, steps, plans), plans(second), second, secondToken, secondNow, true).1
    ensures var d := Dispatch(s, plans(first), first, firstToken, firstNow, true).0;
            var e := Run(d, steps, plans);
            && s.record.value.ends <= s.snapshot.effectEnds.value < s.record.value.ends + SECOND
            && e.snapshot.effectEnds.Some? && !SameOccurrence(s.record.value.ends, e.snapshot.effectEnds.value)
            && e.snapshot.effectEnds.value - s.snapshot.effectEnds.value > OCCURRENCE_TOLERANCE - SECOND
  {
    var d := Dispatch(s, plans(first), first, firstToken, firstNow, true).0;
    DispatchTakes(s, first, firstToken, firstNow, true, plans);
    StepKeepsSound(s, Dispatching(first, firstToken, firstNow, true), plans);
    RunKeepsTaken(d, steps, first, s.record.value.ends, plans);
    RunOnlyAdvances(d, steps, plans);
  }

  lemma {:induction false} RunOnlyAdvances(s: State, steps: seq<Step>, plans: string -> Request)
    requires Sound(s, plans) && Allowed(s, steps, plans)
    ensures Run(s, steps, plans).latest >= s.latest
    decreases |steps|
  {
    if steps != [] {
      StepKeepsSound(s, steps[0], plans);
      RunOnlyAdvances(Apply(s, steps[0], plans), steps[1..], plans);
    }
  }

  // ---- what a stamped marker cost

  predicate TenMinutesApart(a: int, b: int) {
    a - b > 600 * SECOND || b - a > 600 * SECOND
  }

  /** The approved purchase: the daily effect at its price, within the allowed settings. */
  predicate Approved(r: Request) {
    && r.effect == 2 && r.cost == 2500 && r.bonus >= 1 && r.endsUnix >= 1 && r.reserve >= 0
    && 3600 >= r.interval >= 30 && r.balance >= 0
  }

  /** A complete snapshot of this connection, less than two minutes old and no older than the
      session, in which the effect is unboosted. */
  predicate Current(n: Snapshot, now: int) {
    && n.contract && n.baseline.Some? && n.baselineGeneration == n.generation && n.effectEnds.Some? && n.status.Some?
    && now - 120 * SECOND < n.baseline.value <= now
    && (n.changedAt.None? || n.changedAt.value <= n.baseline.value)
    && n.status.value == Status(false, n.status.value.ends, n.baseline.value, n.generation)
    && !TenMinutesApart(n.status.value.ends, n.effectEnds.value)
  }

  /** The window is the requested one, has more than half a minute left, and was not bought
      according to the cursor. */
  predicate Open(n: Snapshot, r: Request, now: int) {
    && n.effectEnds.Some? && n.effectEnds.value - 30 * SECOND > now
    && r.endsUnix * SECOND <= n.effectEnds.value < (r.endsUnix + 1) * SECOND
    && (n.cursor.None? || TenMinutesApart(n.cursor.value * SECOND, n.effectEnds.value))
  }

  /** The live offer is the quoted one, and the expected balance of this very snapshot above
      the reserve covers it. */
  predicate Paid(n: Snapshot, r: Request) {
    && n.offer == Some(Offer(r.cost, r.bonus)) && n.baseline.Some?
    && n.rubies == Some(Rubies(r.balance, n.baseline.value, n.generation)) && r.balance >= r.reserve + r.cost
  }

  predicate Covered(s: State, r: Request, now: int) {
    Approved(r) && Current(s.snapshot, now) && Open(s.snapshot, r, now) && Paid(s.snapshot, r)
  }

  /** No record holds this window. */
  predicate WindowFree(s: State) {
    s.snapshot.effectEnds.Some? && Held(s.record) ==> TenMinutesApart(s.record.value.ends, s.snapshot.effectEnds.value)
  }

  lemma ContextIs(s: State, r: Request, now: int)
    ensures ContextOk(s, r, now, "") <==> Covered(s, r, now) && WindowFree(s)
    ensures forall pending :: ContextOk(s, r, now, pending) ==> Covered(s, r, now)
  {
  }

  /** Arming passes exactly for a covered purchase of a free window, and leaves a marker of
      this operation for the requested second. */
  lemma ArmedExactly(s: State, r: Request, operation: string, token: string, now: int, controls: bool)
    ensures var (d, passed) := Arm(s, r, operation, token, now, controls);
            && (passed <==> controls && Covered(s, r, now) && WindowFree(s))
            && (if passed then
                  d == s.(record := Some(Record(operation, token, r.endsUnix * SECOND, Unresolved, None, 2500, r.reserve, r.balance)))
                else d == s)
  {
    ContextIs(s, r, now);
  }

  /** Dispatch passes exactly for its own armed, unresolved marker while the purchase is
      still covered (a nameless operation never owns a held window); the first pass stamps it
      and later ones change nothing. */
  lemma DispatchedExactly(s: State, r: Request, operation: string, token: string, now: int, controls: bool)
    ensures var (d, passed) := Dispatch(s, r, operation, token, now, controls);
            && (passed <==> controls && Covered(s, r, now) && s.record.Some? && s.record.value.outcome == Unresolved
                            && OwnedBy(s.record.value, operation, token) && (operation != "" || WindowFree(s)))
            && (!passed || Stamped(s.record) ==> d == s)
            && (passed && !Stamped(s.record) ==> d == s.(record := Some(s.record.value.(dispatchedAt := Some(now)))))
  {
    ContextIs(s, r, now);
  }

  /** What is armed may be sent: right after arming, the same operation passes dispatch. */
  lemma ArmedMayDispatch(s: State, r: Request, operation: string, token: string, now: int)
    requires operation != "" && Covered(s, r, now) && WindowFree(s)
    ensures var armed := Arm(s, r, operation, token, now, true).0;
            && Dispatch(armed, r, operation, token, now, true).1
            && Stamped(Dispatch(armed, r, operation, token, now, true).0.record)
  {
    ArmedExactly(s, r, operation, token, now, true);
    DispatchedExactly(Arm(s, r, operation, token, now, true).0, r, operation, token, now, true);
  }

  predicate Stamped(record: Option<Record>) {
    record.Some? && record.value.dispatchedAt.Some?
  }

  /** Only a dispatch stamps a marker, only its own, and only when the cost is covered. */
  lemma OnlyDispatchStamps(s: State, step: Step, plans: string -> Request)
    requires Stamped(Apply(s, step, plans).record)
    ensures var record := Apply(s, step, plans).record.value;
            if Stamped(s.record) then
              s.record.value.operation == record.operation && s.record.value.dispatchedAt == record.dispatchedAt
            else
              && step.Dispatching? && step.controls && step.operation == record.operation
              && record.dispatchedAt == Some(step.now) && Covered(s, plans(record.operation), step.now)
  {
  }

  lemma {:induction false} RunLast(s: State, steps: seq<Step>, plans: string -> Request)
    requires steps != []
    ensures Run(s, steps, plans) == Apply(Run(s, steps[..|steps| - 1], plans), steps[|steps| - 1], plans)
    decreases |steps|
  {
    if |steps| > 1 {
      RunLast(Apply(s, steps[0], plans), steps[1..], plans);
      assert steps[1..][..|steps| - 2] == steps[..|steps| - 1][1..];
    }
  }

  /** However a marker came to be stamped: some dispatch of its own operation stamped it, at
      that time, when the balance covered the cost. */
  lemma {:induction false} StampedWasCovered(s: State, steps: seq<Step>, plans: string -> Request) returns (k: nat)
    requires !Stamped(s.record) && Stamped(Run(s, steps, plans).record)
    ensures var record := Run(s, steps, plans).record.value;
            && k < |steps| && steps[k].Dispatching? && steps[k].controls && steps[k].operation == record.operation
            && record.dispatchedAt == Some(steps[k].now)
            && Covered(Run(s, steps[..k], plans), plans(record.operation), steps[k].now)
    decreases |steps|
  {
    k := |steps| - 1;
    var before := Run(s, steps[..k], plans);
    RunLast(s, steps, plans);
    OnlyDispatchStamps(before, steps[k], plans);
    if Stamped(before.record) {
      k := StampedWasCovered(s, steps[..k], plans);
      assert steps[..|steps| - 1][..k] == steps[..k];
    }
  }
}
