/** The sorted, pruned ledger answers what a count over the whole log would. */
module LedgerProofs {
  import opened Journals
  import opened LedgerSpec

  // ---- sorted slices

  lemma {:induction false} UpperBoundSplits(times: seq<int>, t: int)
    requires Sorted(times)
    ensures forall i :: 0 <= i < UpperBound(times, t) ==> times[i] <= t
    ensures forall i :: UpperBound(times, t) <= i < |times| ==> times[i] > t
  {
    if times != [] && times[0] <= t {
      UpperBoundSplits(times[1..], t);
      assert forall i :: 0 < i < |times| ==> times[i] == times[1..][i - 1];
    }
  }

  lemma {:induction false} LowerBoundSplits(times: seq<int>, t: int)
    requires Sorted(times)
    ensures forall i :: 0 <= i < LowerBound(times, t) ==> times[i] < t
    ensures forall i :: LowerBound(times, t) <= i < |times| ==> times[i] >= t
  {
    if times != [] && times[0] < t {
      LowerBoundSplits(times[1..], t);
      assert forall i :: 0 < i < |times| ==> times[i] == times[1..][i - 1];
    }
  }

  /** The position is determined by the split. */
  lemma LowerBoundIs(times: seq<int>, t: int, p: nat)
    requires Sorted(times) && p <= |times|
    requires (p > 0 ==> times[p - 1] < t) && (p < |times| ==> times[p] >= t)
    ensures LowerBound(times, t) == p
  {
    LowerBoundSplits(times, t);
  }

  lemma UpperBoundIs(times: seq<int>, t: int, p: nat)
    requires Sorted(times) && p <= |times|
    requires (p > 0 ==> times[p - 1] <= t) && (p < |times| ==> times[p] > t)
    ensures UpperBound(times, t) == p
  {
    UpperBoundSplits(times, t);
  }

  function CountFrom(times: seq<int>, since: int): nat {
    |times| - LowerBound(times, since)
  }

  lemma InsertCounts(times: seq<int>, t: int, since: int)
    requires Sorted(times)
    ensures Sorted(InsertTime(times, t))
    ensures CountFrom(InsertTime(times, t), since) == CountFrom(times, since) + if t >= since then 1 else 0
  {
    var p, more := UpperBound(times, t), InsertTime(times, t);
    UpperBoundSplits(times, t);
    LowerBoundSplits(times, since);
    var low := LowerBound(times, since);
    LowerBoundIs(more, since, if t >= since then low else low + 1);
  }

  lemma {:induction false} LowerBoundRises(times: seq<int>, low: int, high: int)
    requires low <= high
    ensures LowerBound(times, low) <= LowerBound(times, high)
  {
    if times != [] && times[0] < low { LowerBoundRises(times[1..], low, high); }
  }

  lemma PruneCounts(times: seq<int>, before: int, since: int)
    requires Sorted(times) && before <= since
    ensures Sorted(times[LowerBound(times, before)..])
    ensures CountFrom(times[LowerBound(times, before)..], since) == CountFrom(times, since)
  {
  }

  // ---- the ledger matches the log

  ghost predicate SlicesMatch(l: Ledger, accepted: seq<Row>, floor: int) {
    && (forall feature :: feature in l.launches ==> Sorted(l.launches[feature]))
    && (forall feature, since | since >= floor ::
          CountFrom(Times(l.launches, feature), since) == CountRows(accepted, feature, since))
  }

  /** The remembered keys are those of the accepted rows that are still in reach, each once. */
  ghost predicate KeysMatch(l: Ledger, accepted: seq<Row>, floor: int) {
    KeysHeld(l.seen, accepted, floor) && KeysBacked(l.seen, accepted, floor) && KeysDistinct(accepted, floor)
  }

  ghost predicate KeysHeld(seen: map<Key, int>, accepted: seq<Row>, floor: int) {
    forall i :: 0 <= i < |accepted| && accepted[i].launchedAt >= floor ==>
      KeyOf(accepted[i]) in seen && seen[KeyOf(accepted[i])] == accepted[i].launchedAt
  }

  ghost predicate KeysBacked(seen: map<Key, int>, accepted: seq<Row>, floor: int) {
    forall key :: key in seen ==>
      seen[key] >= floor
      && exists i :: 0 <= i < |accepted| && KeyOf(accepted[i]) == key && accepted[i].launchedAt == seen[key]
  }

  ghost predicate KeysDistinct(accepted: seq<Row>, floor: int) {
    forall i, j :: 0 <= i < j < |accepted| && accepted[i].launchedAt >= floor && accepted[j].launchedAt >= floor ==>
      KeyOf(accepted[i]) != KeyOf(accepted[j])
  }

  lemma CountMore(rows: seq<Row>, row: Row, feature: string, since: int)
    ensures CountRows(rows + [row], feature, since)
            == CountRows(rows, feature, since) + if row.feature == feature && row.launchedAt >= since then 1 else 0
  {
  }

  lemma InsertMatches(l: Ledger, accepted: seq<Row>, floor: int, row: Row)
    requires SlicesMatch(l, accepted, floor) && KeyOf(row) !in l.seen
    ensures SlicesMatch(Insert(l, row).0, accepted + [row], floor)
  {
    var d, times := Insert(l, row).0, Times(l.launches, row.feature);
    InsertCounts(times, row.launchedAt, floor);
    forall feature, since | since >= floor
      ensures CountFrom(Times(d.launches, feature), since) == CountRows(accepted + [row], feature, since)
    {
      CountMore(accepted, row, feature, since);
      if feature == row.feature { InsertCounts(times, row.launchedAt, since); }
    }
  }

  lemma InsertBacks(seen: map<Key, int>, accepted: seq<Row>, floor: int, row: Row)
    requires KeysBacked(seen, accepted, floor) && row.launchedAt >= floor
    ensures KeysBacked(seen[KeyOf(row) := row.launchedAt], accepted + [row], floor)
  {
    var later, more := seen[KeyOf(row) := row.launchedAt], accepted + [row];
    forall key | key in later
      ensures exists i :: 0 <= i < |more| && KeyOf(more[i]) == key && more[i].launchedAt == later[key]
    {
      if key == KeyOf(row) {
        assert more[|accepted|] == row;
      } else {
        var i :| 0 <= i < |accepted| && KeyOf(accepted[i]) == key && accepted[i].launchedAt == seen[key];
        assert more[i] == accepted[i];
      }
    }
  }

  lemma InsertKeys(l: Ledger, accepted: seq<Row>, floor: int, row: Row)
    requires KeysMatch(l, accepted, floor) && KeyOf(row) !in l.seen && row.launchedAt >= floor
    ensures KeysMatch(Insert(l, row).0, accepted + [row], floor)
  {
    InsertBacks(l.seen, accepted, floor, row);
  }

  lemma {:induction false} InsertAllMatches(l: Ledger, accepted: seq<Row>, floor: int, rows: seq<Row>)
    requires SlicesMatch(l, accepted, floor) && KeysMatch(l, accepted, floor)
    requires forall i :: 0 <= i < |rows| ==> rows[i].launchedAt >= floor
    ensures var (d, news) := InsertAll(l, rows); SlicesMatch(d, accepted + news, floor) && KeysMatch(d, accepted + news, floor)
    decreases |rows|
  {
    if rows == [] {
      assert accepted + [] == accepted;
    } else {
      var row := rows[|rows| - 1];
      InsertAllMatches(l, accepted, floor, rows[..|rows| - 1]);
      var (before, news) := InsertAll(l, rows[..|rows| - 1]);
      if KeyOf(row) !in before.seen {
        InsertMatches(before, accepted + news, floor, row);
        InsertKeys(before, accepted + news, floor, row);
        assert accepted + (news + [row]) == (accepted + news) + [row];
      }
    }
  }

  lemma PruneMatches(l: Ledger, accepted: seq<Row>, floor: int, before: int)
    requires SlicesMatch(l, accepted, floor) && floor <= before
    ensures SlicesMatch(Prune(l, before), accepted, before)
  {
    var d := Prune(l, before);
    forall feature | feature in d.launches ensures Sorted(d.launches[feature]) {
      PruneCounts(l.launches[feature], before, before);
    }
    forall feature, since | since >= before
      ensures CountFrom(Times(d.launches, feature), since) == CountRows(accepted, feature, since)
    {
      if feature in l.launches { PruneCounts(l.launches[feature], before, since); }
    }
  }

  lemma PruneKeys(l: Ledger, accepted: seq<Row>, floor: int, before: int)
    requires KeysMatch(l, accepted, floor) && floor <= before
    ensures KeysMatch(Prune(l, before), accepted, before)
  {
  }

  // ---- over runs

  ghost predicate Valid(h: History) {
    && Matches(h.ledger, h.accepted, h.floor)
    && h.floor <= h.clock - RETENTION
    && h.stored + h.ledger.pending == h.accepted
  }

  lemma {:induction false} InsertAllKeeps(l: Ledger, rows: seq<Row>)
    ensures var d := InsertAll(l, rows).0;
            d.pending == l.pending && d.lastPrune == l.lastPrune && d.coveredFrom == l.coveredFrom
    decreases |rows|
  {
    if rows != [] { InsertAllKeeps(l, rows[..|rows| - 1]); }
  }

  lemma RowsAreRecent(receipt: Receipt, current: int, horizon: int)
    ensures forall i :: 0 <= i < |LaunchRows(receipt, current, horizon)| ==>
              LaunchRows(receipt, current, horizon)[i].launchedAt >= horizon
  {
  }

  ghost predicate Matches(l: Ledger, accepted: seq<Row>, floor: int) {
    SlicesMatch(l, accepted, floor) && KeysMatch(l, accepted, floor)
  }

  /** Slices and keys are all that matching looks at. */
  lemma MatchesFrame(l: Ledger, d: Ledger, accepted: seq<Row>, floor: int)
    requires Matches(l, accepted, floor) && d.launches == l.launches && d.seen == l.seen
    ensures Matches(d, accepted, floor)
  {
  }

  /** What was handed to the store and what waits are, in order, what was accepted. */
  lemma NothingDropped(l: Ledger, receipt: Receipt, current: int, appends: bool, stored: seq<Row>, accepted: seq<Row>)
    requires stored + l.pending == accepted
    ensures var marked := if receipt.gap then MarkGap(l, current) else l;
            var news := InsertAll(marked, LaunchRows(receipt, current, current - RETENTION)).1;
            var (d, handed) := Record(l, receipt, current, appends);
            stored + handed + d.pending == accepted + news
  {
    var marked := if receipt.gap then MarkGap(l, current) else l;
    var rows := LaunchRows(receipt, current, current - RETENTION);
    InsertAllKeeps(marked, rows);
    assert stored + (l.pending + InsertAll(marked, rows).1) == accepted + InsertAll(marked, rows).1;
  }

  lemma PrunedMatches(l: Ledger, accepted: seq<Row>, floor: int, before: int, current: int)
    requires Matches(l, accepted, floor) && floor <= before
    ensures Matches(Prune(l, before).(lastPrune := current), accepted, before)
  {
    var d := Prune(l, before);
    PruneMatches(l, accepted, floor, before);
    PruneKeys(l, accepted, floor, before);
    MatchesFrame(d, d.(lastPrune := current), accepted, before);
  }

  lemma PruningMatches(l: Ledger, accepted: seq<Row>, floor: int, current: int)
    requires Matches(l, accepted, floor) && floor <= current - RETENTION
    ensures Matches(PruneWhenDue(l, current), accepted,
                    if current - l.lastPrune >= PRUNE_INTERVAL then current - RETENTION else floor)
  {
    if current - l.lastPrune >= PRUNE_INTERVAL {
      PrunedMatches(l, accepted, floor, current - RETENTION, current);
    }
  }

  lemma InsertedThenPruned(marked: Ledger, accepted: seq<Row>, floor: int, rows: seq<Row>, current: int)
    requires Matches(marked, accepted, floor) && floor <= current - RETENTION
    requires forall i :: 0 <= i < |rows| ==> rows[i].launchedAt >= current - RETENTION
    ensures var (inserted, news) := InsertAll(marked, rows);
            Matches(PruneWhenDue(inserted, current), accepted + news,
                    if current - marked.lastPrune >= PRUNE_INTERVAL then current - RETENTION else floor)
  {
    var (inserted, news) := InsertAll(marked, rows);
    InsertAllMatches(marked, accepted, floor, rows);
    InsertAllKeeps(marked, rows);
    PruningMatches(inserted, accepted + news, floor, current);
  }

  lemma RowsMatch(marked: Ledger, accepted: seq<Row>, floor: int, receipt: Receipt, current: int)
    requires Matches(marked, accepted, floor) && floor <= current - RETENTION
    ensures var (inserted, news) := InsertAll(marked, LaunchRows(receipt, current, current - RETENTION));
            Matches(PruneWhenDue(inserted, current), accepted + news,
                    if current - marked.lastPrune >= PRUNE_INTERVAL then current - RETENTION else floor)
  {
    RowsAreRecent(receipt, current, current - RETENTION);
    InsertedThenPruned(marked, accepted, floor, LaunchRows(receipt, current, current - RETENTION), current);
  }

  lemma AppliedParts(h: History, e: Event, marked: Ledger, inserted: Ledger, news: seq<Row>)
    requires marked == if e.receipt.gap then MarkGap(h.ledger, e.current) else h.ledger
    requires (inserted, news) == InsertAll(marked, LaunchRows(e.receipt, e.current, e.current - RETENTION))
    ensures var (d, pruned) := (Apply(h, e), PruneWhenDue(inserted, e.current));
            && d.ledger.launches == pruned.launches && d.ledger.seen == pruned.seen && d.accepted == h.accepted + news
            && d.floor == if e.current - marked.lastPrune >= PRUNE_INTERVAL then e.current - RETENTION else h.floor
  {
  }

  lemma EventMatches(h: History, e: Event, d: History)
    requires Matches(h.ledger, h.accepted, h.floor) && h.floor <= h.clock - RETENTION && h.clock <= e.current
    requires d == Apply(h, e)
    ensures Matches(d.ledger, d.accepted, d.floor)
  {
    var marked := if e.receipt.gap then MarkGap(h.ledger, e.current) else h.ledger;
    var (inserted, news) := InsertAll(marked, LaunchRows(e.receipt, e.current, e.current - RETENTION));
    MatchesFrame(h.ledger, marked, h.accepted, h.floor);
    RowsMatch(marked, h.accepted, h.floor, e.receipt, e.current);
    AppliedParts(h, e, marked, inserted, news);
    MatchesFrame(PruneWhenDue(inserted, e.current), d.ledger, d.accepted, d.floor);
  }

  lemma EventKeepsValid(h: History, e: Event)
    requires Valid(h) && h.clock <= e.current
    ensures Valid(Apply(h, e))
  {
    EventMatches(h, e, Apply(h, e));
    NothingDropped(h.ledger, e.receipt, e.current, e.appends, h.stored, h.accepted);
  }

  lemma {:induction false} RunKeepsValid(h: History, events: seq<Event>)
    requires Valid(h) && ClockRises(h, events)
    ensures Valid(Run(h, events)) && Run(h, events).clock >= h.clock
    decreases |events|
  {
    if events != [] {
      EventKeepsValid(h, events[0]);
      RunKeepsValid(Apply(h, events[0]), events[1..]);
    }
  }

  lemma OpenedIsValid(rows: seq<Row>, coveredFrom: Option<int>, current: int)
    requires forall i :: 0 <= i < |rows| ==> rows[i].launchedAt >= current - RETENTION
    ensures Valid(Opened(rows, coveredFrom, current))
  {
    var start := Ledger(map[], map[], coveredFrom, [], current);
    assert SlicesMatch(start, [], current - RETENTION) && KeysMatch(start, [], current - RETENTION);
    InsertAllMatches(start, [], current - RETENTION, rows);
    InsertAllKeeps(start, rows);
    var news := InsertAll(start, rows).1;
    assert [] + news == news && news + [] == news;
  }

  // ---- the answer

  lemma NewKeyIsFresh(rows: seq<Row>, row: Row, feature: string, since: int)
    requires forall i :: 0 <= i < |rows| && rows[i].launchedAt >= since ==> KeyOf(rows[i]) != KeyOf(row)
    ensures KeyOf(row) !in KeysSince(rows, feature, since)
  {
  }

  lemma {:induction false} DistinctRowsCount(rows: seq<Row>, feature: string, since: int)
    requires forall i, j :: 0 <= i < j < |rows| && rows[i].launchedAt >= since && rows[j].launchedAt >= since ==>
               KeyOf(rows[i]) != KeyOf(rows[j])
    ensures CountRows(rows, feature, since) == |KeysSince(rows, feature, since)|
    decreases |rows|
  {
    if rows != [] {
      var before, row := rows[..|rows| - 1], rows[|rows| - 1];
      DistinctRowsCount(before, feature, since);
      assert rows == before + [row];
      KeysOfOneMore(before, row, feature, since);
      if row.launchedAt >= since { NewKeyIsFresh(before, row, feature, since); }
    }
  }

  lemma KeysOfOneMore(rows: seq<Row>, row: Row, feature: string, since: int)
    ensures KeysSince(rows + [row], feature, since)
            == KeysSince(rows, feature, since) + if row.feature == feature && row.launchedAt >= since then {KeyOf(row)} else {}
  {
    var more := rows + [row];
    forall key | key in KeysSince(rows, feature, since) ensures key in KeysSince(more, feature, since) {
      var i :| 0 <= i < |rows| && rows[i].feature == feature && rows[i].launchedAt >= since && KeyOf(rows[i]) == key;
      assert more[i] == rows[i];
    }
    assert more[|rows|] == row;
  }

  /** An available answer is the number of distinct (operation, ordinal) rows taken at or
      after `since`, whatever was inserted, repeated or pruned before. */
  lemma AnswerIsNaive(h: History, feature: string, since: int, now: int)
    requires Valid(h) && now >= h.clock && CountSince(h.ledger, feature, since, now).Some?
    ensures CountSince(h.ledger, feature, since, now).value == |KeysSince(h.accepted, feature, since)|
  {
    assert since >= h.floor;
    DistinctRowsCount(h.accepted, feature, since);
    assert CountFrom(Times(h.ledger.launches, feature), since) == CountRows(h.accepted, feature, since);
  }

  /** The same, from a fresh opening through any receipts with a clock that never goes back. */
  lemma AnswerOverRuns(rows: seq<Row>, coveredFrom: Option<int>, openedAt: int, events: seq<Event>, feature: string, since: int,
                       now: int)
    requires forall i :: 0 <= i < |rows| ==> rows[i].launchedAt >= openedAt - RETENTION
    requires ClockRises(Opened(rows, coveredFrom, openedAt), events)
    ensures var h := Run(Opened(rows, coveredFrom, openedAt), events);
            now >= h.clock && CountSince(h.ledger, feature, since, now).Some? ==>
              CountSince(h.ledger, feature, since, now).value == |KeysSince(h.accepted, feature, since)|
  {
    var h := Run(Opened(rows, coveredFrom, openedAt), events);
    OpenedIsValid(rows, coveredFrom, openedAt);
    RunKeepsValid(Opened(rows, coveredFrom, openedAt), events);
    if now >= h.clock && CountSince(h.ledger, feature, since, now).Some? { AnswerIsNaive(h, feature, since, now); }
  }

  // ---- receipts with a completion time are counted once, ever

  /** Every offer of one launch of this operation carries the same time and channel, as
      offers with a completion time do. */
  predicate Consistent(rows: seq<Row>, operation: string) {
    forall i, j :: 0 <= i < |rows| && 0 <= j < |rows| && rows[i].operation == operation && KeyOf(rows[i]) == KeyOf(rows[j]) ==>
      rows[i] == rows[j]
  }

  predicate Distinct(rows: seq<Row>) {
    forall i, j :: 0 <= i < j < |rows| ==> KeyOf(rows[i]) != KeyOf(rows[j])
  }

  predicate DistinctFor(rows: seq<Row>, operation: string) {
    forall i, j :: 0 <= i < j < |rows| && rows[i].operation == operation ==> KeyOf(rows[i]) != KeyOf(rows[j])
  }

  /** Of this operation exactly the offered rows were accepted, each once. */
  ghost predicate TakenOnce(accepted: seq<Row>, offered: seq<Row>, operation: string) {
    && (forall row :: row in accepted && row.operation == operation ==> row in offered)
    && (forall row :: row in offered && row.operation == operation ==> row in accepted)
    && DistinctFor(accepted, operation)
  }

  lemma {:induction false} InsertAllOffers(l: Ledger, accepted: seq<Row>, floor: int, offered: seq<Row>, rows: seq<Row>,
                                           operation: string)
    requires Matches(l, accepted, floor) && forall i :: 0 <= i < |rows| ==> rows[i].launchedAt >= floor
    requires Consistent(offered + rows, operation) && TakenOnce(accepted, offered, operation)
    ensures TakenOnce(accepted + InsertAll(l, rows).1, offered + rows, operation)
    decreases |rows|
  {
    if rows == [] {
      assert accepted + [] == accepted && offered + [] == offered;
    } else {
      var prefix, row := rows[..|rows| - 1], rows[|rows| - 1];
      assert rows == prefix + [row] && offered + rows == (offered + prefix) + [row];
      ConsistentPrefix(offered + prefix, row, operation);
      InsertAllMatches(l, accepted, floor, prefix);
      InsertAllOffers(l, accepted, floor, offered, prefix, operation);
      var (before, news) := InsertAll(l, prefix);
      OfferOne(before, accepted + news, floor, offered + prefix, row, operation);
      assert accepted + (news + [row]) == (accepted + news) + [row];
    }
  }

  lemma ConsistentPrefix(rows: seq<Row>, row: Row, operation: string)
    requires Consistent(rows + [row], operation)
    ensures Consistent(rows, operation)
    ensures row.operation == operation ==> forall i :: 0 <= i < |rows| && KeyOf(rows[i]) == KeyOf(row) ==> rows[i] == row
  {
    var more := rows + [row];
    assert more[|rows|] == row && forall i :: 0 <= i < |rows| ==> more[i] == rows[i];
  }

  /** A known key is the very row that is offered; an unknown one was never accepted. */
  lemma OfferOne(l: Ledger, accepted: seq<Row>, floor: int, offered: seq<Row>, row: Row, operation: string)
    requires Matches(l, accepted, floor) && row.launchedAt >= floor && TakenOnce(accepted, offered, operation)
    requires row.operation == operation ==>
               forall i :: 0 <= i < |offered| && KeyOf(offered[i]) == KeyOf(row) ==> offered[i] == row
    ensures TakenOnce(if KeyOf(row) in l.seen then accepted else accepted + [row], offered + [row], operation)
  {
    if row.operation == operation {
      forall i | 0 <= i < |accepted| && KeyOf(accepted[i]) == KeyOf(row) ensures accepted[i] == row && KeyOf(row) in l.seen {
        assert accepted[i] in offered;
      }
      if KeyOf(row) in l.seen {
        var i :| 0 <= i < |accepted| && KeyOf(accepted[i]) == KeyOf(row);
      }
    }
  }

  lemma EventKeepsOffers(h: History, e: Event, operation: string)
    requires Valid(h) && TakenOnce(h.accepted, h.offered, operation) && h.clock <= e.current
    requires Consistent(Apply(h, e).offered, operation)
    ensures TakenOnce(Apply(h, e).accepted, Apply(h, e).offered, operation)
  {
    var marked := if e.receipt.gap then MarkGap(h.ledger, e.current) else h.ledger;
    var rows := LaunchRows(e.receipt, e.current, e.current - RETENTION);
    RowsAreRecent(e.receipt, e.current, e.current - RETENTION);
    MatchesFrame(h.ledger, marked, h.accepted, h.floor);
    InsertAllOffers(marked, h.accepted, h.floor, h.offered, rows, operation);
  }

  lemma {:induction false} RunOffersGrow(h: History, events: seq<Event>)
    ensures h.offered <= Run(h, events).offered
    decreases |events|
  {
    if events != [] { RunOffersGrow(Apply(h, events[0]), events[1..]); }
  }

  lemma {:induction false} RunKeepsOffers(h: History, events: seq<Event>, operation: string)
    requires Valid(h) && TakenOnce(h.accepted, h.offered, operation) && ClockRises(h, events)
    requires Consistent(Run(h, events).offered, operation)
    ensures TakenOnce(Run(h, events).accepted, Run(h, events).offered, operation)
    decreases |events|
  {
    if events != [] {
      var next := Apply(h, events[0]);
      RunOffersGrow(next, events[1..]);
      EventKeepsValid(h, events[0]);
      EventKeepsOffers(h, events[0], operation);
      RunKeepsOffers(next, events[1..], operation);
    }
  }

  lemma OpenedTakesOnce(rows: seq<Row>, coveredFrom: Option<int>, openedAt: int, operation: string)
    requires forall i :: 0 <= i < |rows| ==> rows[i].launchedAt >= openedAt - RETENTION
    requires Consistent(rows, operation)
    ensures TakenOnce(Opened(rows, coveredFrom, openedAt).accepted, rows, operation)
  {
    var empty := Ledger(map[], map[], coveredFrom, [], openedAt);
    assert [] + rows == rows && [] + InsertAll(empty, rows).1 == InsertAll(empty, rows).1;
    InsertAllOffers(empty, [], openedAt - RETENTION, [], rows, operation);
  }

  /** Every receipt of this operation has one completion time and one channel, if any. */
  predicate Completes(events: seq<Event>, operation: string, at: int, channel: string) {
    forall i :: 0 <= i < |events| && events[i].receipt.id == operation ==>
      events[i].receipt.completedAt == Some(at) && (events[i].receipt.feature.Some? ==> events[i].receipt.feature.value == channel)
  }

  predicate LaunchedAt(rows: seq<Row>, operation: string, at: int, channel: string) {
    forall i :: 0 <= i < |rows| && rows[i].operation == operation ==> rows[i].launchedAt == at && rows[i].feature == channel
  }

  lemma {:induction false} OffersAgree(h: History, events: seq<Event>, operation: string, at: int, channel: string)
    requires LaunchedAt(h.offered, operation, at, channel) && Completes(events, operation, at, channel)
    ensures LaunchedAt(Run(h, events).offered, operation, at, channel)
    decreases |events|
  {
    if events != [] {
      OffersAgree(Apply(h, events[0]), events[1..], operation, at, channel);
    }
  }

  function Own(keys: set<Key>, operation: string): set<Key> {
    set key | key in keys && key.0 == operation
  }

  lemma OwnIsOffered(accepted: seq<Row>, offered: seq<Row>, operation: string, feature: string, since: int)
    requires TakenOnce(accepted, offered, operation)
    ensures Own(KeysSince(accepted, feature, since), operation) == Own(KeysSince(offered, feature, since), operation)
  {
    forall key | key in Own(KeysSince(accepted, feature, since), operation) ensures key in KeysSince(offered, feature, since) {
      var i :| 0 <= i < |accepted| && accepted[i].feature == feature && accepted[i].launchedAt >= since && KeyOf(accepted[i]) == key;
      assert accepted[i] in offered;
    }
    forall key | key in Own(KeysSince(offered, feature, since), operation) ensures key in KeysSince(accepted, feature, since) {
      var i :| 0 <= i < |offered| && offered[i].feature == feature && offered[i].launchedAt >= since && KeyOf(offered[i]) == key;
      assert offered[i] in accepted;
    }
  }

  /** An operation whose receipts carry its completion time adds each of its launches in the
      window to an available answer exactly once, whatever the other receipts do: repeats
      are not taken again even after the key was pruned or the ledger reopened. */
  lemma CompletedCountedOnce(rows: seq<Row>, coveredFrom: Option<int>, openedAt: int, events: seq<Event>, operation: string,
                             at: int, channel: string, feature: string, since: int, now: int)
    requires forall i :: 0 <= i < |rows| ==> rows[i].launchedAt >= openedAt - RETENTION
    requires ClockRises(Opened(rows, coveredFrom, openedAt), events)
    requires LaunchedAt(rows, operation, at, channel) && Completes(events, operation, at, channel)
    ensures var h := Run(Opened(rows, coveredFrom, openedAt), events);
            var own := Own(KeysSince(h.offered, feature, since), operation);
            && DistinctFor(h.accepted, operation)
            && (now >= h.clock && CountSince(h.ledger, feature, since, now).Some? ==>
                  CountSince(h.ledger, feature, since, now).value
                  == |KeysSince(h.accepted, feature, since) - own| + |own|)
  {
    var start := Opened(rows, coveredFrom, openedAt);
    var h := Run(start, events);
    OpenedIsValid(rows, coveredFrom, openedAt);
    OffersAgree(start, events, operation, at, channel);
    OpenedTakesOnce(rows, coveredFrom, openedAt, operation);
    RunKeepsOffers(start, events, operation);
    OwnIsOffered(h.accepted, h.offered, operation, feature, since);
    AnswerOverRuns(rows, coveredFrom, openedAt, events, feature, since, now);
    var keys, own := KeysSince(h.accepted, feature, since), Own(KeysSince(h.offered, feature, since), operation);
    assert keys == (keys - own) + own;
  }

  // ---- how many launches a receipt stands for

  /** A receipt is counted when it has a name and a channel and its launches are in reach. */
  predicate Counted(receipt: Receipt, current: int) {
    && receipt.id != "" && receipt.feature.Some?
    && (if receipt.completedAt.Some? then receipt.completedAt.value else current) >= current - 48 * 3600 * NANOSECONDS
  }

  /** One of the launches that the receipt stands for. */
  predicate LaunchOf(receipt: Receipt, current: int, row: Row) {
    && row.operation == receipt.id && row.ordinal < receipt.launches && receipt.feature == Some(row.feature)
    && row.launchedAt == (if receipt.completedAt.Some? then receipt.completedAt.value else current)
  }

  /** One row for each launch, numbered from zero, or none at all. */
  lemma RowsAreLaunches(receipt: Receipt, current: int)
    ensures var rows := LaunchRows(receipt, current, current - RETENTION);
            && |rows| == (if Counted(receipt, current) then receipt.launches else 0)
            && (forall i :: 0 <= i < |rows| ==> rows[i].ordinal == i && LaunchOf(receipt, current, rows[i]))
  {
  }

  predicate HasKey(rows: seq<Row>, key: Key) {
    exists i :: 0 <= i < |rows| && KeyOf(rows[i]) == key
  }

  lemma {:induction false} SeenGrows(l: Ledger, rows: seq<Row>, key: Key)
    ensures key in InsertAll(l, rows).0.seen <==> key in l.seen || HasKey(rows, key)
    decreases |rows|
  {
    if rows != [] {
      var prefix, last := rows[..|rows| - 1], rows[|rows| - 1];
      SeenGrows(l, prefix, key);
      assert rows == prefix + [last];
      assert HasKey(rows, key) <==> HasKey(prefix, key) || KeyOf(last) == key by {
        if HasKey(prefix, key) {
          var i :| 0 <= i < |prefix| && KeyOf(prefix[i]) == key;
          assert rows[i] == prefix[i];
        }
        assert rows[|rows| - 1] == last;
      }
    }
  }

  lemma {:induction false} NewRowIsTaken(l: Ledger, rows: seq<Row>, row: Row)
    requires Distinct(rows)
    ensures row in InsertAll(l, rows).1 <==> row in rows && KeyOf(row) !in l.seen
    decreases |rows|
  {
    if rows != [] {
      var prefix, last := rows[..|rows| - 1], rows[|rows| - 1];
      NewRowIsTaken(l, prefix, row);
      SeenGrows(l, prefix, KeyOf(last));
      assert rows == prefix + [last];
    }
  }

  /** What one receipt adds: exactly its launches that are not remembered, and nothing when
      it is not counted. */
  lemma ReceiptAdds(h: History, e: Event, row: Row)
    ensures var d := Apply(h, e);
            && h.accepted <= d.accepted
            && (row in d.accepted[|h.accepted|..] <==>
                  Counted(e.receipt, e.current) && LaunchOf(e.receipt, e.current, row) && KeyOf(row) !in h.ledger.seen)
  {
    var marked := if e.receipt.gap then MarkGap(h.ledger, e.current) else h.ledger;
    var rows := LaunchRows(e.receipt, e.current, e.current - RETENTION);
    RowsAreLaunches(e.receipt, e.current);
    NewRowIsTaken(marked, rows, row);
    if Counted(e.receipt, e.current) && LaunchOf(e.receipt, e.current, row) { assert rows[row.ordinal] == row; }
  }

  function Below(operation: string, n: nat): set<Key> {
    set i | 0 <= i < n :: (operation, i)
  }

  function KeysOf(rows: seq<Row>, operation: string): set<Key> {
    set i | 0 <= i < |rows| && rows[i].operation == operation :: KeyOf(rows[i])
  }

  function Most(a: nat, b: nat): nat {
    if a < b then b else a
  }

  /** The most launches that any counted receipt of this operation reports. */
  function MostLaunches(events: seq<Event>, operation: string): nat
    decreases |events|
  {
    if events == [] then 0
    else
      var e := events[0];
      Most(if e.receipt.id == operation && operation != "" && e.receipt.feature.Some? then e.receipt.launches else 0,
           MostLaunches(events[1..], operation))
  }

  lemma BelowMost(operation: string, a: nat, b: nat)
    ensures Below(operation, Most(a, b)) == Below(operation, a) + Below(operation, b)
  {
  }

  lemma RowKeys(receipt: Receipt, current: int, operation: string)
    ensures KeysOf(LaunchRows(receipt, current, current - RETENTION), operation)
            == if receipt.id == operation && Counted(receipt, current) then Below(operation, receipt.launches) else {}
  {
    var rows := LaunchRows(receipt, current, current - RETENTION);
    RowsAreLaunches(receipt, current);
    forall key | key in Below(operation, receipt.launches) && receipt.id == operation && Counted(receipt, current)
      ensures key in KeysOf(rows, operation)
    {
      assert KeyOf(rows[key.1]) == key;
    }
  }

  lemma KeysOfBoth(a: seq<Row>, b: seq<Row>, operation: string)
    ensures KeysOf(a + b, operation) == KeysOf(a, operation) + KeysOf(b, operation)
  {
    var both := a + b;
    forall key | key in KeysOf(a, operation) ensures key in KeysOf(both, operation) {
      var i :| 0 <= i < |a| && a[i].operation == operation && KeyOf(a[i]) == key;
      assert both[i] == a[i];
    }
    forall key | key in KeysOf(b, operation) ensures key in KeysOf(both, operation) {
      var i :| 0 <= i < |b| && b[i].operation == operation && KeyOf(b[i]) == key;
      assert both[|a| + i] == b[i];
    }
  }

  /** Offered over a run: the launches of the receipt that reports most, and what was there. */
  lemma {:induction false} OffersOver(h: History, events: seq<Event>, operation: string, at: int, channel: string)
    requires Valid(h) && ClockRises(h, events) && Completes(events, operation, at, channel)
    requires at >= Run(h, events).clock - RETENTION
    ensures KeysOf(Run(h, events).offered, operation)
            == KeysOf(h.offered, operation) + Below(operation, MostLaunches(events, operation))
    decreases |events|
  {
    if events != [] {
      var e, next := events[0], Apply(h, events[0]);
      EventKeepsValid(h, e);
      RunKeepsValid(next, events[1..]);
      OffersOver(next, events[1..], operation, at, channel);
      RowKeys(e.receipt, e.current, operation);
      KeysOfBoth(h.offered, LaunchRows(e.receipt, e.current, e.current - RETENTION), operation);
      var own := if e.receipt.id == operation && operation != "" && e.receipt.feature.Some? then e.receipt.launches else 0;
      BelowMost(operation, own, MostLaunches(events[1..], operation));
    }
  }

  lemma OwnIsAll(rows: seq<Row>, operation: string, at: int, channel: string, feature: string, since: int)
    requires LaunchedAt(rows, operation, at, channel) && at >= since
    ensures Own(KeysSince(rows, feature, since), operation) == if feature == channel then KeysOf(rows, operation) else {}
  {
  }

  /** The share of such an operation in an available answer for its channel: the launches of
      its receipt that reports most, together with its rows that were stored before; in any
      other channel it has none. */
  lemma ShareOfOperation(rows: seq<Row>, coveredFrom: Option<int>, openedAt: int, events: seq<Event>, operation: string,
                         at: int, channel: string, feature: string, since: int, now: int)
    requires forall i :: 0 <= i < |rows| ==> rows[i].launchedAt >= openedAt - RETENTION
    requires ClockRises(Opened(rows, coveredFrom, openedAt), events)
    requires LaunchedAt(rows, operation, at, channel) && Completes(events, operation, at, channel)
    requires var h := Run(Opened(rows, coveredFrom, openedAt), events);
             now >= h.clock && CountSince(h.ledger, feature, since, now).Some? && at >= since
    ensures var h := Run(Opened(rows, coveredFrom, openedAt), events);
            var share := if feature == channel then KeysOf(rows, operation) + Below(operation, MostLaunches(events, operation))
                         else {};
            && Own(KeysSince(h.accepted, feature, since), operation) == share
            && CountSince(h.ledger, feature, since, now).value == |KeysSince(h.accepted, feature, since) - share| + |share|
  {
    var start := Opened(rows, coveredFrom, openedAt);
    var h := Run(start, events);
    OpenedIsValid(rows, coveredFrom, openedAt);
    OffersOver(start, events, operation, at, channel);
    OffersAgree(start, events, operation, at, channel);
    OpenedTakesOnce(rows, coveredFrom, openedAt, operation);
    RunKeepsOffers(start, events, operation);
    OwnIsOffered(h.accepted, h.offered, operation, feature, since);
    OwnIsAll(h.offered, operation, at, channel, feature, since);
    CompletedCountedOnce(rows, coveredFrom, openedAt, events, operation, at, channel, feature, since, now);
  }

  lemma {:induction false} BelowHas(operation: string, n: nat)
    ensures |Below(operation, n)| == n
  {
    if n > 0 {
      BelowHas(operation, n - 1);
      assert Below(operation, n) == Below(operation, n - 1) + {(operation, n - 1)};
    }
  }

  /** Every launch counts: when the rows stored before are numbered from zero, the operation
      adds to its channel's answer the most launches that were stored or reported. */
  lemma LaunchesAreCounted(rows: seq<Row>, coveredFrom: Option<int>, openedAt: int, events: seq<Event>, operation: string,
                           at: int, channel: string, since: int, now: int, stored: nat)
    requires forall i :: 0 <= i < |rows| ==> rows[i].launchedAt >= openedAt - RETENTION
    requires ClockRises(Opened(rows, coveredFrom, openedAt), events)
    requires LaunchedAt(rows, operation, at, channel) && Completes(events, operation, at, channel)
    requires KeysOf(rows, operation) == Below(operation, stored)
    requires var h := Run(Opened(rows, coveredFrom, openedAt), events);
             now >= h.clock && CountSince(h.ledger, channel, since, now).Some? && at >= since
    ensures var h := Run(Opened(rows, coveredFrom, openedAt), events);
            var others := set key | key in KeysSince(h.accepted, channel, since) && key.0 != operation;
            CountSince(h.ledger, channel, since, now).value == |others| + Most(stored, MostLaunches(events, operation))
  {
    var h := Run(Opened(rows, coveredFrom, openedAt), events);
    var keys, most := KeysSince(h.accepted, channel, since), Most(stored, MostLaunches(events, operation));
    ShareOfOperation(rows, coveredFrom, openedAt, events, operation, at, channel, channel, since, now);
    BelowMost(operation, stored, MostLaunches(events, operation));
    BelowHas(operation, most);
    assert keys - Below(operation, most) == set key | key in keys && key.0 != operation by {
      assert Own(keys, operation) == Below(operation, most);
      assert forall key :: key in keys && key.0 == operation <==> key in Own(keys, operation);
    }
  }

  // ---- when there is an answer, and what is kept

  /** An answer is given exactly for a window that has begun, reaches back no more than two
      days, and starts after the coverage boundary. */
  lemma AnsweredExactly(l: Ledger, feature: string, since: int, now: int)
    ensures CountSince(l, feature, since, now).Some?
            <==> 0 <= now - since <= 48 * 3600 * NANOSECONDS && (l.coveredFrom.None? || l.coveredFrom.value < since)
  {
  }

  /** Nothing launched before this time is held any more. */
  ghost predicate HoldsFrom(l: Ledger, before: int) {
    && (forall key :: key in l.seen ==> l.seen[key] >= before)
    && (forall feature, i | feature in l.launches && 0 <= i < |l.launches[feature]| :: l.launches[feature][i] >= before)
  }

  /** Once an hour, and not more often, a receipt makes the ledger forget what is out of
      reach; the next hour is counted from then. */
  lemma ForgetsHourly(h: History, e: Event)
    requires Valid(h) && h.clock <= e.current
    ensures var (l, d) := (h.ledger, Apply(h, e).ledger);
            && (e.current >= l.lastPrune + 3600 * NANOSECONDS ==>
                  d.lastPrune == e.current && HoldsFrom(d, e.current - 48 * 3600 * NANOSECONDS))
            && (e.current < l.lastPrune + 3600 * NANOSECONDS ==> d.lastPrune == l.lastPrune && l.seen.Keys <= d.seen.Keys)
  {
    var marked := if e.receipt.gap then MarkGap(h.ledger, e.current) else h.ledger;
    var rows := LaunchRows(e.receipt, e.current, e.current - RETENTION);
    var inserted := InsertAll(marked, rows).0;
    InsertAllKeeps(marked, rows);
    MatchesFrame(h.ledger, marked, h.accepted, h.floor);
    RowsAreRecent(e.receipt, e.current, e.current - RETENTION);
    InsertAllMatches(marked, h.accepted, h.floor, rows);
    forall key ensures key in inserted.seen <==> key in marked.seen || HasKey(rows, key) { SeenGrows(marked, rows, key); }
    forall feature | feature in inserted.launches ensures Sorted(inserted.launches[feature]) {}
    forall feature | feature in inserted.launches { LowerBoundSplits(inserted.launches[feature], e.current - RETENTION); }
  }

  // ---- coverage

  /** The coverage boundary only moves forward; a stream gap moves it to the present. */
  lemma CoverageOnlyRises(h: History, e: Event)
    ensures var d := Apply(h, e);
            && (h.ledger.coveredFrom.Some? ==>
                  d.ledger.coveredFrom.Some? && d.ledger.coveredFrom.value >= h.ledger.coveredFrom.value)
            && (e.receipt.gap ==> d.ledger.coveredFrom.Some? && d.ledger.coveredFrom.value >= e.current)
  {
    var marked := if e.receipt.gap then MarkGap(h.ledger, e.current) else h.ledger;
    InsertAllKeeps(marked, LaunchRows(e.receipt, e.current, e.current - RETENTION));
  }

  /** The boundary is at or after this time. */
  predicate Passed(boundary: Option<int>, at: int) {
    boundary.Some? && boundary.value >= at
  }

  lemma {:induction false} PassedStays(l: Life, turns: seq<Turn>, at: int)
    requires Passed(l.history.ledger.coveredFrom, at) && Passed(l.boundary, at)
    ensures Passed(LiveOn(l, turns).history.ledger.coveredFrom, at)
    decreases |turns|
  {
    if turns != [] {
      match turns[0] {
        case Told(event, _) => CoverageOnlyRises(l.history, event);
        case Reopened(current) =>
          InsertAllKeeps(Ledger(map[], map[], l.boundary, [], current), Reaching(l.history.stored, current - RETENTION));
      }
      PassedStays(Live(l, turns[0]), turns[1..], at);
    }
  }

  /** After some turns a window that starts at or before this time is answered. */
  ghost predicate CanBeAnswered(l: Life, at: int) {
    exists turns, feature, since, now :: since <= at && CountSince(LiveOn(l, turns).history.ledger, feature, since, now).Some?
  }

  /** The gap is lost when its mark did not reach the store: the next process reads the old
      boundary and answers the window that starts at the gap. */
  lemma UnmarkedGapIsAnswered(l: Life, e: Event, feature: string)
    requires e.receipt.gap && !Passed(l.boundary, e.current)
    ensures CountSince(LiveOn(Live(l, Told(e, false)), [Reopened(e.current)]).history.ledger, feature, e.current, e.current).Some?
  {
    var rows := Reaching(Live(l, Told(e, false)).history.stored, e.current - RETENTION);
    InsertAllKeeps(Ledger(map[], map[], l.boundary, [], e.current), rows);
    assert LiveOn(Live(l, Told(e, false)), [Reopened(e.current)]).history == Opened(rows, l.boundary, e.current);
  }

  /** Through any later receipts and any number of processes, no window that starts at or
      before a gap is answered, if and only if the gap's mark reached the store or the
      store's boundary was already as late. */
  lemma GapIsNotAnswered(l: Life, e: Event, marked: bool)
    requires e.receipt.gap
    ensures CanBeAnswered(Live(l, Told(e, marked)), e.current) <==> !marked && !Passed(l.boundary, e.current)
  {
    var d := Live(l, Told(e, marked));
    if marked || Passed(l.boundary, e.current) {
      CoverageOnlyRises(l.history, e);
      forall turns, feature, since, now | since <= e.current
        ensures CountSince(LiveOn(d, turns).history.ledger, feature, since, now).None?
      {
        PassedStays(d, turns, e.current);
      }
    } else {
      UnmarkedGapIsAnswered(l, e, "");
    }
  }

  /** A restart from what the store was given answers the same, when nothing waits. */
  lemma ReopenedAnswersAlike(h: History, reopenedAt: int, feature: string, since: int, now: int)
    requires Valid(h) && h.ledger.pending == [] && h.clock <= reopenedAt <= now
    requires CountSince(h.ledger, feature, since, now).Some?
    ensures CountSince(Open(Reaching(h.stored, reopenedAt - RETENTION), h.ledger.coveredFrom, reopenedAt), feature, since, now)
            == CountSince(h.ledger, feature, since, now)
  {
    var kept := Reaching(h.stored, reopenedAt - RETENTION);
    var again := Opened(kept, h.ledger.coveredFrom, reopenedAt);
    var empty := Ledger(map[], map[], h.ledger.coveredFrom, [], reopenedAt);
    assert h.stored + [] == h.stored == h.accepted;
    ReachingIsRecent(h.stored, reopenedAt - RETENTION);
    OpenedIsValid(kept, h.ledger.coveredFrom, reopenedAt);
    InsertAllKeeps(empty, kept);
    ReachingDistinct(h.stored, reopenedAt - RETENTION, h.floor);
    AllAreNew(empty, kept);
    ReachingKeepsKeys(h.stored, reopenedAt - RETENTION, feature, since);
    SameAnswers(h, again, feature, since, now);
  }

  lemma SameAnswers(h: History, again: History, feature: string, since: int, now: int)
    requires Valid(h) && Valid(again) && h.clock <= now && again.clock <= now
    requires again.ledger.coveredFrom == h.ledger.coveredFrom && CountSince(h.ledger, feature, since, now).Some?
    requires KeysSince(again.accepted, feature, since) == KeysSince(h.accepted, feature, since)
    ensures CountSince(again.ledger, feature, since, now) == CountSince(h.ledger, feature, since, now)
  {
    AnswerIsNaive(h, feature, since, now);
    AnswerIsNaive(again, feature, since, now);
  }

  lemma {:induction false} ReachingIsRecent(rows: seq<Row>, horizon: int)
    ensures forall i :: 0 <= i < |Reaching(rows, horizon)| ==>
              Reaching(rows, horizon)[i].launchedAt >= horizon && Reaching(rows, horizon)[i] in rows
    decreases |rows|
  {
    if rows != [] { ReachingIsRecent(rows[..|rows| - 1], horizon); }
  }

  lemma {:induction false} ReachingDistinct(rows: seq<Row>, horizon: int, floor: int)
    requires floor <= horizon
    requires forall i, j :: 0 <= i < j < |rows| && rows[i].launchedAt >= floor && rows[j].launchedAt >= floor ==>
               KeyOf(rows[i]) != KeyOf(rows[j])
    ensures Distinct(Reaching(rows, horizon))
    decreases |rows|
  {
    if rows != [] {
      var prefix, last := rows[..|rows| - 1], rows[|rows| - 1];
      ReachingDistinct(prefix, horizon, floor);
      ReachingIsRecent(prefix, horizon);
      var kept := Reaching(prefix, horizon);
      forall i | 0 <= i < |kept| && last.launchedAt >= horizon ensures KeyOf(kept[i]) != KeyOf(last) {
        var k :| 0 <= k < |prefix| && prefix[k] == kept[i];
        assert rows[k] == kept[i];
      }
    }
  }

  lemma {:induction false} AllAreNew(l: Ledger, rows: seq<Row>)
    requires Distinct(rows) && forall i :: 0 <= i < |rows| ==> KeyOf(rows[i]) !in l.seen
    ensures InsertAll(l, rows).1 == rows
    ensures forall key :: key in InsertAll(l, rows).0.seen ==> key in l.seen || exists i :: 0 <= i < |rows| && KeyOf(rows[i]) == key
    decreases |rows|
  {
    if rows != [] {
      var prefix, last := rows[..|rows| - 1], rows[|rows| - 1];
      AllAreNew(l, prefix);
      assert rows == prefix + [last];
    }
  }

  lemma {:induction false} ReachingKeepsKeys(rows: seq<Row>, horizon: int, feature: string, since: int)
    requires horizon <= since
    ensures KeysSince(Reaching(rows, horizon), feature, since) == KeysSince(rows, feature, since)
    decreases |rows|
  {
    if rows != [] {
      var prefix, last := rows[..|rows| - 1], rows[|rows| - 1];
      ReachingKeepsKeys(prefix, horizon, feature, since);
      KeysOfOneMore(prefix, last, feature, since);
      KeysOfOneMore(Reaching(prefix, horizon), last, feature, since);
      assert rows == prefix + [last];
    }
  }
}
