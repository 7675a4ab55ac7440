/** The attack launch ledger as a value, next to the naive log of everything it was told. */
module LedgerSpec {
  import opened Journals

  const NANOSECONDS := 1_000_000_000
  const RETENTION: int := 48 * 3600 * NANOSECONDS
  const PRUNE_INTERVAL: int := 3600 * NANOSECONDS

  datatype Row = Row(operation: string, ordinal: nat, feature: string, launchedAt: int)

  type Key = (string, nat)

  function KeyOf(row: Row): Key {
    (row.operation, row.ordinal)
  }

  /** A finished attack receipt: its launches belong to one feature channel, if any. */
  datatype Receipt = Receipt(id: string, completedAt: Option<int>, feature: Option<string>, launches: nat, gap: bool)

  datatype Ledger = Ledger(
    launches: map<string, seq<int>>, seen: map<Key, int>, coveredFrom: Option<int>, pending: seq<Row>, lastPrune: int)

  function Times(launches: map<string, seq<int>>, feature: string): seq<int> {
    if feature in launches then launches[feature] else []
  }

  // ---- sorted slices

  predicate Sorted(times: seq<int>) {
    forall i, j :: 0 <= i < j < |times| ==> times[i] <= times[j]
  }

  /** The first position after every time that is not later. */
  function UpperBound(times: seq<int>, t: int): (p: nat)
    ensures p <= |times|
  {
    if times == [] || times[0] > t then 0 else 1 + UpperBound(times[1..], t)
  }

  /** The first position that is not earlier. */
  function LowerBound(times: seq<int>, t: int): (p: nat)
    ensures p <= |times|
  {
    if times == [] || times[0] >= t then 0 else 1 + LowerBound(times[1..], t)
  }

  function InsertTime(times: seq<int>, t: int): seq<int> {
    var p := UpperBound(times, t);
    times[..p] + [t] + times[p..]
  }

  // ---- operations

  function Insert(l: Ledger, row: Row): (Ledger, bool) {
    if KeyOf(row) in l.seen then (l, false)
    else
      (l.(seen := l.seen[KeyOf(row) := row.launchedAt],
          launches := l.launches[row.feature := InsertTime(Times(l.launches, row.feature), row.launchedAt)]), true)
  }

  /** Insert in order; the second result is what was new. */
  function InsertAll(l: Ledger, rows: seq<Row>): (Ledger, seq<Row>)
    decreases |rows|
  {
    if rows == [] then (l, [])
    else
      var (before, news) := InsertAll(l, rows[..|rows| - 1]);
      var (after, isNew) := Insert(before, rows[|rows| - 1]);
      (after, if isNew then news + [rows[|rows| - 1]] else news)
  }

  function PruneSlices(launches: map<string, seq<int>>, before: int): map<string, seq<int>> {
    map feature | feature in launches :: launches[feature][LowerBound(launches[feature], before)..]
  }

  function PruneSeen(seen: map<Key, int>, before: int): map<Key, int> {
    map key | key in seen && seen[key] >= before :: seen[key]
  }

  function Prune(l: Ledger, before: int): Ledger {
    l.(launches := PruneSlices(l.launches, before), seen := PruneSeen(l.seen, before))
  }

  function LaunchTime(receipt: Receipt, current: int): int {
    if receipt.completedAt.Some? then receipt.completedAt.value else current
  }

  /** No row for a launch before the horizon, another intent, or a blank identifier. */
  function LaunchRows(receipt: Receipt, current: int, horizon: int): seq<Row> {
    var launchedAt := LaunchTime(receipt, current);
    if launchedAt < horizon || receipt.feature.None? || receipt.id == "" then []
    else seq(receipt.launches, i requires 0 <= i => Row(receipt.id, i, receipt.feature.value, launchedAt))
  }

  function MarkGap(l: Ledger, at: int): Ledger {
    if l.coveredFrom.None? || at > l.coveredFrom.value then l.(coveredFrom := Some(at)) else l
  }

  function PruneWhenDue(l: Ledger, current: int): Ledger {
    if current - l.lastPrune >= PRUNE_INTERVAL then Prune(l, current - RETENTION).(lastPrune := current) else l
  }

  /** One receipt. The last result is what was handed to the store successfully. */
  function Record(l: Ledger, receipt: Receipt, current: int, appends: bool): (Ledger, seq<Row>) {
    var marked := if receipt.gap then MarkGap(l, current) else l;
    var (inserted, news) := InsertAll(marked, LaunchRows(receipt, current, current - RETENTION));
    var batch := inserted.pending + news;
    var pruned := PruneWhenDue(inserted, current);
    (pruned.(pending := if appends then [] else batch), if appends then batch else [])
  }

  function Open(rows: seq<Row>, coveredFrom: Option<int>, current: int): Ledger {
    InsertAll(Ledger(map[], map[], coveredFrom, [], current), rows).0
  }

  /** The answer for one feature channel, or none when the window cannot be vouched for. */
  function CountSince(l: Ledger, feature: string, since: int, now: int): Option<nat> {
    if since > now || since < now - RETENTION || (l.coveredFrom.Some? && since <= l.coveredFrom.value) then None
    else Some(|Times(l.launches, feature)| - LowerBound(Times(l.launches, feature), since))
  }

  // ---- the naive log

  /** Everything the ledger was told, everything it took, and everything the store got.
      Rows before `floor` may have been forgotten. */
  datatype History = History(ledger: Ledger, offered: seq<Row>, accepted: seq<Row>, stored: seq<Row>, floor: int, clock: int)

  function CountRows(rows: seq<Row>, feature: string, since: int): nat {
    if rows == [] then 0
    else CountRows(rows[..|rows| - 1], feature, since)
         + if rows[|rows| - 1].feature == feature && rows[|rows| - 1].launchedAt >= since then 1 else 0
  }

  function KeysSince(rows: seq<Row>, feature: string, since: int): set<Key> {
    set i | 0 <= i < |rows| && rows[i].feature == feature && rows[i].launchedAt >= since :: KeyOf(rows[i])
  }

  datatype Event = Event(receipt: Receipt, current: int, appends: bool)

  function Apply(h: History, e: Event): History {
    var rows := LaunchRows(e.receipt, e.current, e.current - RETENTION);
    var marked := if e.receipt.gap then MarkGap(h.ledger, e.current) else h.ledger;
    var (ledger, handed) := Record(h.ledger, e.receipt, e.current, e.appends);
    History(ledger, h.offered + rows, h.accepted + InsertAll(marked, rows).1, h.stored + handed,
            if e.current - h.ledger.lastPrune >= PRUNE_INTERVAL then e.current - RETENTION else h.floor, e.current)
  }

  predicate ClockRises(h: History, events: seq<Event>)
    decreases |events|
  {
    events != [] ==> h.clock <= events[0].current && ClockRises(Apply(h, events[0]), events[1..])
  }

  function Run(h: History, events: seq<Event>): History
    decreases |events|
  {
    if events == [] then h else Run(Apply(h, events[0]), events[1..])
  }

  /** A ledger opened on stored rows within the retention. */
  function Opened(rows: seq<Row>, coveredFrom: Option<int>, current: int): History {
    var news := InsertAll(Ledger(map[], map[], coveredFrom, [], current), rows).1;
    History(Open(rows, coveredFrom, current), rows, news, news, current - RETENTION, current)
  }

  /** The rows the store returns: those launched at or after the horizon. */
  function Reaching(rows: seq<Row>, horizon: int): seq<Row> {
    if rows == [] then []
    else
      var kept := Reaching(rows[..|rows| - 1], horizon);
      if rows[|rows| - 1].launchedAt >= horizon then kept + [rows[|rows| - 1]] else kept
  }

  // ---- over several processes

  /** The running ledger, and the coverage boundary in the store. */
  datatype Life = Life(history: History, boundary: Option<int>)

  /** A receipt, whose gap may fail to reach the store without anyone noticing, or a new
      process that reads the store. */
  datatype Turn = Told(event: Event, marked: bool) | Reopened(current: int)

  function Later(boundary: Option<int>, at: int): Option<int> {
    if boundary.Some? && boundary.value >= at then boundary else Some(at)
  }

  function Live(l: Life, turn: Turn): Life {
    match turn
    case Told(event, marked) =>
      Life(Apply(l.history, event),
           if event.receipt.gap && marked then Later(l.boundary, event.current) else l.boundary)
    case Reopened(current) =>
      l.(history := Opened(Reaching(l.history.stored, current - RETENTION), l.boundary, current))
  }

  function LiveOn(l: Life, turns: seq<Turn>): Life
    decreases |turns|
  {
    if turns == [] then l else LiveOn(Live(l, turns[0]), turns[1..])
  }
}
