/** The daily booster purchase: one durable marker decides whether a purchase command may
    leave for the current effect window. Times are nanoseconds. */
module PurchaseSpec {
  import opened Journals

  const SECOND: int := 1_000_000_000
  const EFFECT := 2
  const COST := 2500
  const FRESHNESS: int := 120 * SECOND
  const WINDOW_GUARD: int := 30 * SECOND
  const OCCURRENCE_TOLERANCE: int := 600 * SECOND

  datatype Outcome = Unresolved | Accepted | Confirmed | Rejected

  datatype Record = Record(
    operation: string, token: string, ends: int, outcome: Outcome, dispatchedAt: Option<int>, cost: int, reserve: int,
    rubyBefore: int)

  /** The resolved arguments of one purchase operation. */
  datatype Request = Request(
    effect: int, endsUnix: int, cost: int, bonus: int, reserve: int, interval: int, balance: int)

  datatype Status = Status(boosted: bool, ends: int, observedAt: int, generation: nat)

  datatype Offer = Offer(cost: int, bonus: int)

  /** A ruby balance, rounded down, with the observation it comes from. */
  datatype Rubies = Rubies(value: int, observedAt: int, generation: nat)

  /** What the account snapshots say. `contract` is the catalog check of the effect. */
  datatype Snapshot = Snapshot(
    contract: bool, generation: nat, changedAt: Option<int>, baseline: Option<int>, baselineGeneration: nat,
    effectEnds: Option<int>, cursor: Option<int>, status: Option<Status>, offer: Option<Offer>, rubies: Option<Rubies>)

  /** `latest` is the end of the newest effect window observed so far. */
  datatype State = State(snapshot: Snapshot, record: Option<Record>, latest: int)

  function Unix(t: int): int {
    t / SECOND
  }

  predicate SameOccurrence(left: int, right: int) {
    -OCCURRENCE_TOLERANCE <= left - right <= OCCURRENCE_TOLERANCE
  }

  predicate ApprovedRequest(r: Request) {
    && r.effect == EFFECT && r.cost == COST && r.bonus > 0 && r.endsUnix > 0 && r.reserve >= 0
    && 30 <= r.interval <= 3600 && r.balance >= 0
  }

  predicate BaselineFresh(s: Snapshot, now: int) {
    && s.baseline.Some? && s.baseline.value <= now && s.baselineGeneration == s.generation
    && (s.changedAt.Some? ==> s.baseline.value >= s.changedAt.value)
    && now - s.baseline.value < FRESHNESS
  }

  predicate WindowOpen(s: Snapshot, r: Request, now: int) {
    && s.effectEnds.Some? && now < s.effectEnds.value && s.effectEnds.value - now > WINDOW_GUARD
    && Unix(s.effectEnds.value) == r.endsUnix
    && (s.cursor.Some? ==> !SameOccurrence(s.cursor.value * SECOND, s.effectEnds.value))
  }

  predicate Holds(outcome: Outcome) {
    outcome == Unresolved || outcome == Accepted || outcome == Confirmed
  }

  /** A record of this window blocks every operation but the pending one that owns it. */
  predicate MarkerFree(record: Option<Record>, ends: int, pending: string) {
    record.Some? && SameOccurrence(record.value.ends, ends) && Holds(record.value.outcome) ==>
      record.value.outcome == Unresolved && pending != "" && record.value.operation == pending
  }

  predicate StatusInactive(s: Snapshot) {
    && s.status.Some? && s.baseline.Some? && s.effectEnds.Some?
    && SameOccurrence(s.status.value.ends, s.effectEnds.value) && s.status.value.observedAt == s.baseline.value
    && s.status.value.generation == s.generation && !s.status.value.boosted
  }

  predicate Affordable(s: Snapshot, r: Request) {
    && s.offer.Some? && s.offer.value.cost == r.cost == COST && s.offer.value.bonus == r.bonus
    && s.baseline.Some? && s.rubies.Some? && s.rubies.value.observedAt == s.baseline.value
    && s.rubies.value.generation == s.generation
    && s.rubies.value.value == r.balance && s.rubies.value.value - r.reserve >= s.offer.value.cost
  }

  predicate ContextOk(s: State, r: Request, now: int, pending: string) {
    && ApprovedRequest(r) && s.snapshot.contract && BaselineFresh(s.snapshot, now) && WindowOpen(s.snapshot, r, now)
    && MarkerFree(s.record, s.snapshot.effectEnds.value, pending) && StatusInactive(s.snapshot) && Affordable(s.snapshot, r)
  }

  predicate Matches(record: Option<Record>, operation: string, token: string) {
    && record.Some? && record.value.operation == operation
    && (record.value.token == "" || token == "" || record.value.token == token)
  }

  // ---- the marker's mutations; each answers whether the operation may go on

  function Arm(s: State, r: Request, operation: string, token: string, now: int, controls: bool): (State, bool) {
    if !controls || !ContextOk(s, r, now, "") then (s, false)
    else
      (s.(record := Some(Record(operation, token, r.endsUnix * SECOND, Unresolved, None, r.cost, r.reserve, r.balance))), true)
  }

  predicate MayDispatch(s: State, r: Request, operation: string, token: string, now: int, controls: bool) {
    && controls && Matches(s.record, operation, token) && s.record.value.outcome == Unresolved
    && ContextOk(s, r, now, operation)
  }

  function Dispatch(s: State, r: Request, operation: string, token: string, now: int, controls: bool): (State, bool) {
    if !MayDispatch(s, r, operation, token, now, controls) then (s, false)
    else if s.record.value.dispatchedAt.Some? then (s, true)
    else (s.(record := Some(s.record.value.(dispatchedAt := Some(now)))), true)
  }

  function Disarm(s: State, operation: string, token: string): State {
    if Matches(s.record, operation, token) && s.record.value.outcome == Unresolved then s.(record := None) else s
  }

  function WithOutcome(s: State, outcome: Outcome): State
    requires s.record.Some?
  {
    s.(record := Some(s.record.value.(outcome := outcome)))
  }

  function Reject(s: State, operation: string, token: string): State {
    if Matches(s.record, operation, token) && s.record.value.outcome != Accepted && s.record.value.outcome != Confirmed
    then WithOutcome(s, Rejected) else s
  }

  // ---- evidence from the game

  /** The purchase answer, matched by response token or by operation. */
  function Acknowledge(s: State, operation: string, token: string, code: int): State {
    if s.record.None? || !((s.record.value.token != "" && token == s.record.value.token)
                           || (s.record.value.operation != "" && operation == s.record.value.operation)) then s
    else if code != 0 then WithOutcome(s, Rejected)
    else if s.record.value.outcome == Confirmed then s
    else WithOutcome(s, Accepted)
  }

  /** A boosted status confirms this window's record, or starts one of its own. */
  function ConfirmBoosted(s: State): State {
    if s.snapshot.effectEnds.None? then s
    else
      var ends := s.snapshot.effectEnds.value;
      if s.record.Some? && SameOccurrence(s.record.value.ends, ends) then WithOutcome(s, Confirmed)
      else s.(record := Some(Record("", "", ends, Confirmed, None, 0, 0, 0)))
  }

  /** How the durable receipt of the operation ended. */
  datatype Ending = Running | ExchangeAccepted | EndedOpen | EndedOther

  function ReconcileMarker(s: State, ending: Ending): State {
    if s.record.None? || s.record.value.outcome != Unresolved || s.record.value.operation == "" || s.record.value.dispatchedAt.None?
    then s
    else
      match ending
      case ExchangeAccepted => WithOutcome(s, Accepted)
      case EndedOpen =>
        var snapshot := s.snapshot;
        if snapshot.baseline.Some? && snapshot.baseline.value > s.record.value.dispatchedAt.value
           && snapshot.baselineGeneration == snapshot.generation && snapshot.status.Some?
           && snapshot.status.value.observedAt == snapshot.baseline.value
           && SameOccurrence(snapshot.status.value.ends, s.record.value.ends) && !snapshot.status.value.boosted
        then WithOutcome(s, Rejected) else s
      case _ => s
  }

  // ---- runs

  datatype Step =
    | Arming(operation: string, token: string, now: int, controls: bool)
    | Dispatching(operation: string, token: string, now: int, controls: bool)
    | Disarming(operation: string, token: string)
    | Rejecting(operation: string, token: string)
    | Acknowledging(operation: string, token: string, code: int)
    | Confirming
    | Reconciling(ending: Ending)
    | Observing(snapshot: Snapshot)

  /** Effect windows only advance; an operation has a name and keeps its arguments. */
  predicate Enabled(s: State, step: Step) {
    match step
    case Observing(snapshot) => snapshot.effectEnds.Some? ==> snapshot.effectEnds.value >= s.latest
    case Arming(operation, _, _, _) => operation != ""
    case _ => true
  }

  function Observe(s: State, snapshot: Snapshot): State {
    State(snapshot, s.record, if snapshot.effectEnds.Some? && snapshot.effectEnds.value > s.latest then snapshot.effectEnds.value else s.latest)
  }

  function Apply(s: State, step: Step, plans: string -> Request): State {
    match step
    case Arming(operation, token, now, controls) => Arm(s, plans(operation), operation, token, now, controls).0
    case Dispatching(operation, token, now, controls) => Dispatch(s, plans(operation), operation, token, now, controls).0
    case Disarming(operation, token) => Disarm(s, operation, token)
    case Rejecting(operation, token) => Reject(s, operation, token)
    case Acknowledging(operation, token, code) => Acknowledge(s, operation, token, code)
    case Confirming => ConfirmBoosted(s)
    case Reconciling(ending) => ReconcileMarker(s, ending)
    case Observing(snapshot) => Observe(s, snapshot)
  }

  predicate Allowed(s: State, steps: seq<Step>, plans: string -> Request)
    decreases |steps|
  {
    steps != [] ==> Enabled(s, steps[0]) && Allowed(Apply(s, steps[0], plans), steps[1..], plans)
  }

  function Run(s: State, steps: seq<Step>, plans: string -> Request): State
    decreases |steps|
  {
    if steps == [] then s else Run(Apply(s, steps[0], plans), steps[1..], plans)
  }
}
