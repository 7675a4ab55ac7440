/** The ledger's slices and maps updated in place, with the binary searches it uses. */
module AttackLaunchLedger {
  import opened Journals
  import opened LedgerSpec
  import opened LedgerProofs

  /** sort.Search for the first later time. */
  method SearchAfter(times: seq<int>, t: int) returns (position: nat)
    requires Sorted(times)
    ensures position == UpperBound(times, t)
  {
    var low, high := 0, |times|;
    while low < high
      invariant low <= high <= |times|
      invariant (low > 0 ==> times[low - 1] <= t) && (high < |times| ==> times[high] > t)
    {
      var middle := (low + high) / 2;
      if times[middle] > t { high := middle; } else { low := middle + 1; }
    }
    UpperBoundIs(times, t, low);
    position := low;
  }

  /** sort.Search for the first time that is not earlier. */
  method SearchNotBefore(times: seq<int>, t: int) returns (position: nat)
    requires Sorted(times)
    ensures position == LowerBound(times, t)
  {
    var low, high := 0, |times|;
    while low < high
      invariant low <= high <= |times|
      invariant (low > 0 ==> times[low - 1] < t) && (high < |times| ==> times[high] >= t)
    {
      var middle := (low + high) / 2;
      if times[middle] >= t { high := middle; } else { low := middle + 1; }
    }
    LowerBoundIs(times, t, low);
    position := low;
  }

  method CutSlices(launches: map<string, seq<int>>, before: int) returns (cut: map<string, seq<int>>)
    requires forall feature :: feature in launches ==> Sorted(launches[feature])
    ensures cut == PruneSlices(launches, before)
    ensures forall feature :: feature in cut ==> Sorted(cut[feature])
  {
    cut := map[];
    var rest := launches.Keys;
    while rest != {}
      invariant rest <= launches.Keys && cut.Keys == launches.Keys - rest
      invariant forall feature :: feature in cut ==>
                  cut[feature] == launches[feature][LowerBound(launches[feature], before)..] && Sorted(cut[feature])
    {
      var feature :| feature in rest;
      rest := rest - {feature};
      var first := SearchNotBefore(launches[feature], before);
      PruneCounts(launches[feature], before, before);
      cut := cut[feature := launches[feature][first..]];
    }
  }

  class AttackLaunchLedger {
    var launches: map<string, seq<int>>
    var seen: map<Key, int>
    var coveredFrom: Option<int>
    var pending: seq<Row>
    var lastPrune: int

    ghost function View(): Ledger
      reads this
    {
      Ledger(launches, seen, coveredFrom, pending, lastPrune)
    }

    predicate SlicesSorted()
      reads this
    {
      forall feature :: feature in launches ==> Sorted(launches[feature])
    }

    constructor (rows: seq<Row>, coveredFrom: Option<int>, current: int)
      ensures View() == Open(rows, coveredFrom, current) && SlicesSorted()
    {
      launches, seen, pending := map[], map[], [];
      this.coveredFrom, lastPrune := coveredFrom, current;
      new;
      ghost var start := View();
      var i := 0;
      while i < |rows|
        invariant i <= |rows| && SlicesSorted() && View() == InsertAll(start, rows[..i]).0
      {
        assert rows[..i + 1][..i] == rows[..i];
        var isNew := InsertLaunch(rows[i]);
        i := i + 1;
      }
      assert rows[..i] == rows;
    }

    method InsertLaunch(row: Row) returns (isNew: bool)
      requires SlicesSorted()
      modifies this`launches, this`seen
      ensures SlicesSorted() && (View(), isNew) == Insert(old(View()), row)
    {
      if KeyOf(row) in seen { return false; }
      seen := seen[KeyOf(row) := row.launchedAt];
      var times := Times(launches, row.feature);
      var position := SearchAfter(times, row.launchedAt);
      InsertCounts(times, row.launchedAt, row.launchedAt);
      launches := launches[row.feature := times[..position] + [row.launchedAt] + times[position..]];
      isNew := true;
    }

    method InsertLaunches(rows: seq<Row>) returns (news: seq<Row>)
      requires SlicesSorted()
      modifies this`launches, this`seen
      ensures SlicesSorted() && (View(), news) == InsertAll(old(View()), rows)
    {
      news := [];
      var i := 0;
      while i < |rows|
        invariant i <= |rows| && SlicesSorted() && (View(), news) == InsertAll(old(View()), rows[..i])
      {
        assert rows[..i + 1][..i] == rows[..i];
        var isNew := InsertLaunch(rows[i]);
        if isNew { news := news + [rows[i]]; }
        i := i + 1;
      }
      assert rows[..i] == rows;
    }

    /** Cut every slice at the horizon, then forget the keys before it. */
    method PruneLaunches(before: int)
      requires SlicesSorted()
      modifies this`launches, this`seen
      ensures SlicesSorted() && View() == Prune(old(View()), before)
    {
      launches := CutSlices(launches, before);
      seen := map key | key in seen && seen[key] >= before :: seen[key];
    }

    method PruneLaunchesWhenDue(current: int)
      requires SlicesSorted()
      modifies this`launches, this`seen, this`lastPrune
      ensures SlicesSorted() && View() == PruneWhenDue(old(View()), current)
    {
      if current - lastPrune >= PRUNE_INTERVAL {
        lastPrune := current;
        PruneLaunches(current - RETENTION);
      }
    }

    method RecordReceipt(receipt: Receipt, current: int, appends: bool) returns (handed: seq<Row>)
      requires SlicesSorted()
      modifies this
      ensures SlicesSorted() && (View(), handed) == Record(old(View()), receipt, current, appends)
    {
      if receipt.gap && (coveredFrom.None? || current > coveredFrom.value) {
        coveredFrom := Some(current);
      }
      ghost var marked := View();
      var rows := LaunchRows(receipt, current, current - RETENTION);
      var news := InsertLaunches(rows);
      InsertAllKeeps(marked, rows);
      var batch := pending + news;
      pending := [];
      PruneLaunchesWhenDue(current);
      if appends {
        handed := batch;
      } else {
        handed, pending := [], batch;
      }
    }

    /** One channel of AttackLaunchCountsSince. */
    method CountLaunchesSince(feature: string, since: int, now: int) returns (count: Option<nat>)
      requires SlicesSorted()
      ensures count == CountSince(View(), feature, since, now)
    {
      if since > now || since < now - RETENTION { return None; }
      if coveredFrom.Some? && since <= coveredFrom.value { return None; }
      var times := Times(launches, feature);
      var first := SearchNotBefore(times, since);
      count := Some(|times| - first);
    }
  }
}
