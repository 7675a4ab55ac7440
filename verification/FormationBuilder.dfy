/** The builder's loops, which fill fixed rows and count requests in one shared map. */
module FormationBuilder {
  import opened Journals
  import opened FormationSpec

  // ---- wrap-around bookkeeping

  lemma WrapTwice(a: int, b: int)
    ensures Wrap(Wrap(a) + b) == Wrap(a + b)
  {
  }

  lemma WrapOfInt64(x: Int64)
    ensures Wrap(x) == x
  {
  }

  predicate IsInt64(x: int) {
    -MAX_INT64 - 1 <= x <= MAX_INT64
  }

  function Requested(requested: map<Int64, Int64>, item: int): Int64 {
    if IsInt64(item) && item in requested then requested[item] else 0
  }

  lemma TotalMore(pairs: seq<Pair>, pair: Pair, item: int)
    ensures PairTotal(pairs + [pair], item) == PairTotal(pairs, item) + if pair.item == item then pair.quantity else 0
    ensures Sum(pairs + [pair]) == Sum(pairs) + pair.quantity
  {
  }

  lemma {:induction false} EmptyTail(pairs: seq<Pair>, n: nat, item: int)
    requires item != EMPTY.item
    ensures PairTotal(pairs + seq(n, i => EMPTY), item) == PairTotal(pairs, item)
    ensures Sum(pairs + seq(n, i => EMPTY)) == Sum(pairs)
    decreases n
  {
    if n == 0 {
      assert pairs + seq(n, i => EMPTY) == pairs;
    } else {
      EmptyTail(pairs, n - 1, item);
      var shorter := pairs + seq(n - 1, i => EMPTY);
      assert pairs + seq(n, i => EMPTY) == shorter + [EMPTY];
      TotalMore(shorter, EMPTY, item);
    }
  }

  predicate Counted(requested: map<Int64, Int64>, item: int) {
    IsInt64(item) && item in requested
  }

  /** Every item's count grew by what the function says, in 64-bit arithmetic, and exactly
      the items that take something were added. */
  ghost predicate Adds(before: map<Int64, Int64>, after: map<Int64, Int64>, taken: int -> int) {
    && (forall item :: item > 0 ==> AddsItem(before, after, item, taken(item)))
    && (forall item :: item in after ==> item in before || item > 0)
  }

  ghost predicate AddsItem(before: map<Int64, Int64>, after: map<Int64, Int64>, item: int, taken: int) {
    && Requested(after, item) == Wrap(Requested(before, item) + taken)
    && taken >= 0 && (Counted(after, item) <==> Counted(before, item) || taken > 0)
  }

  lemma AddsNothing(requested: map<Int64, Int64>, taken: int -> int)
    requires forall item :: item > 0 ==> taken(item) == 0
    ensures Adds(requested, requested, taken)
  {
  }

  lemma AddsMore(before: map<Int64, Int64>, middle: map<Int64, Int64>, after: map<Int64, Int64>, first: int -> int,
                 second: int -> int, both: int -> int)
    requires Adds(before, middle, first) && Adds(middle, after, second)
    requires forall item :: item > 0 ==> both(item) == first(item) + second(item)
    ensures Adds(before, after, both)
  {
    forall item | item > 0 ensures AddsItem(before, after, item, both(item)) {
      assert AddsItem(before, middle, item, first(item)) && AddsItem(middle, after, item, second(item));
      WrapTwice(Requested(before, item) + first(item), second(item));
    }
  }

  function Pairs(pairs: seq<Pair>): int -> int { item => PairTotal(pairs, item) }

  function One(item: int, quantity: int): int -> int { other => if other == item then quantity else 0 }

  lemma AddsOne(requested: map<Int64, Int64>, item: Int64, quantity: Int64)
    requires quantity > 0 && item > 0
    ensures Adds(requested, requested[item := Wrap(Requested(requested, item) + quantity)], One(item, quantity))
  {
  }

  /** One more pair of the row was counted. */
  lemma PairCounted(before: map<Int64, Int64>, middle: map<Int64, Int64>, after: map<Int64, Int64>, done: seq<Pair>, pair: Pair)
    requires Adds(before, middle, Pairs(done)) && Adds(middle, after, One(pair.item, pair.quantity))
    ensures Adds(before, after, Pairs(done + [pair]))
  {
    forall item | item > 0 ensures PairTotal(done + [pair], item) == PairTotal(done, item) + One(pair.item, pair.quantity)(item) {
      TotalMore(done, pair, item);
    }
    AddsMore(before, middle, after, Pairs(done), One(pair.item, pair.quantity), Pairs(done + [pair]));
  }

  lemma RowCounted(before: map<Int64, Int64>, after: map<Int64, Int64>, done: seq<Pair>, row: seq<Pair>, n: nat)
    requires Adds(before, after, Pairs(done)) && row == done + seq(n, i => EMPTY)
    ensures Adds(before, after, Pairs(row)) && Sum(row) == Sum(done)
  {
    forall item | item > 0 ensures Pairs(done)(item) == Pairs(row)(item) {
      EmptyTail(done, n, item);
    }
    AddsSame(before, after, Pairs(done), Pairs(row));
    EmptyTail(done, n, 0);
  }

  /** The pairs of the first slots. */
  function Done(slots: seq<Slot>, n: nat): seq<Pair>
    requires n <= |slots|
  {
    seq(n, i requires 0 <= i < n => PairOf(slots[i]))
  }

  lemma DoneMore(slots: seq<Slot>, n: nat)
    requires n < |slots|
    ensures Done(slots, n + 1) == Done(slots, n) + [PairOf(slots[n])]
  {
  }

  lemma RowIsDone(slots: seq<Slot>, capacity: nat)
    requires |slots| <= capacity
    ensures PairsOf(slots, capacity) == Done(slots, |slots|) + seq(capacity - |slots|, i => EMPTY)
  {
  }

  /** The first n slots are counted in the map and in the total. */
  ghost predicate Progress(before: map<Int64, Int64>, after: map<Int64, Int64>, slots: seq<Slot>, n: nat, total: Int64)
    requires n <= |slots|
  {
    Adds(before, after, Pairs(Done(slots, n))) && total == Wrap(Sum(Done(slots, n)))
  }

  lemma ProgressStarts(requested: map<Int64, Int64>, slots: seq<Slot>)
    ensures Progress(requested, requested, slots, 0, 0)
  {
  }

  lemma ProgressMore(before: map<Int64, Int64>, middle: map<Int64, Int64>, after: map<Int64, Int64>, slots: seq<Slot>, n: nat,
                     total: Int64)
    requires n < |slots| && Progress(before, middle, slots, n, total)
    requires Adds(middle, after, One(PairOf(slots[n]).item, PairOf(slots[n]).quantity))
    ensures Progress(before, after, slots, n + 1, Wrap(total + PairOf(slots[n]).quantity))
    ensures PairOf(slots[n]) == EMPTY ==> Wrap(total + PairOf(slots[n]).quantity) == total
  {
    PairCounted(before, middle, after, Done(slots, n), PairOf(slots[n]));
    DoneMore(slots, n);
    TotalMore(Done(slots, n), PairOf(slots[n]), 0);
    WrapTwice(Sum(Done(slots, n)), PairOf(slots[n]).quantity);
    WrapOfInt64(total);
  }

  lemma ProgressEnds(before: map<Int64, Int64>, after: map<Int64, Int64>, slots: seq<Slot>, capacity: nat, total: Int64)
    requires |slots| <= capacity && Progress(before, after, slots, |slots|, total)
    ensures Adds(before, after, Pairs(PairsOf(slots, capacity))) && total == Wrap(Sum(PairsOf(slots, capacity)))
  {
    RowIsDone(slots, capacity);
    RowCounted(before, after, Done(slots, |slots|), PairsOf(slots, capacity), capacity - |slots|);
  }

  /** The row holds the first n slots at their places and is empty after them. */
  ghost predicate Filled(row: seq<Pair>, slots: seq<Slot>, n: nat)
    requires n <= |slots| <= |row|
  {
    forall k :: 0 <= k < |row| ==> row[k] == if k < n then PairOf(slots[k]) else EMPTY
  }

  ghost predicate FirstValid(slots: seq<Slot>, n: nat, asTools: bool, catalog: Catalog)
    requires n <= |slots|
  {
    forall k :: 0 <= k < n ==> ValidSlot(slots[k], asTools, catalog)
  }

  lemma FirstValidMore(slots: seq<Slot>, n: nat, asTools: bool, catalog: Catalog)
    requires n < |slots| && FirstValid(slots, n, asTools, catalog)
    ensures FirstValid(slots, n + 1, asTools, catalog) <==> ValidSlot(slots[n], asTools, catalog)
    ensures !ValidSlot(slots[n], asTools, catalog) ==> !FirstValid(slots, |slots|, asTools, catalog)
  {
  }

  lemma FilledMore(row: seq<Pair>, slots: seq<Slot>, n: nat)
    requires n < |slots| <= |row| && Filled(row, slots, n)
    ensures Filled(row[n := PairOf(slots[n])], slots, n + 1)
    ensures PairOf(slots[n]) == EMPTY ==> row[n := PairOf(slots[n])] == row
  {
  }

  lemma FilledEnds(row: seq<Pair>, slots: seq<Slot>)
    requires |slots| <= |row| && Filled(row, slots, |slots|)
    ensures row == PairsOf(slots, |row|)
  {
  }

  class FormationBuilder {
    var requested: map<Int64, Int64>

    constructor ()
      ensures requested == map[]
    {
      requested := map[];
    }

    /** One turn of the row loop: check the slot, count it, put it at its place. */
    method PlaceSlot(slot: Slot, row: array<Pair>, place: nat, total: Int64, asTools: bool, catalog: Catalog)
      returns (newTotal: Int64, ok: bool)
      requires place < row.Length && row[place] == EMPTY
      modifies this, row
      ensures ok <==> ValidSlot(slot, asTools, catalog)
      ensures ok ==> row[..] == old(row[..])[place := PairOf(slot)] && newTotal == Wrap(total + PairOf(slot).quantity)
      ensures ok ==> Adds(old(requested), requested, One(PairOf(slot).item, PairOf(slot).quantity))
    {
      newTotal := total;
      if slot.quantity < 0 { return total, false; }
      if slot.item.None? || slot.quantity == 0 {
        AddsNothing(requested, One(EMPTY.item, EMPTY.quantity));
        WrapOfInt64(total);
        return total, slot.quantity == 0;
      }
      var item := slot.item.value;
      if item <= 0 || !Official(catalog, asTools, item) { return total, false; }
      AddsOne(requested, item, slot.quantity);
      requested := requested[item := Wrap(Requested(requested, item) + slot.quantity)];
      newTotal := Wrap(total + slot.quantity);
      row[place] := Pair(item, slot.quantity);
      ok := true;
    }

    /** Fill one row of a fixed capacity and add what it takes to the shared map. */
    method BuildPairs(slots: seq<Slot>, capacity: nat, asTools: bool, catalog: Catalog)
      returns (pairs: seq<Pair>, total: Int64, ok: bool)
      modifies this
      ensures ok <==> ValidSlots(slots, capacity, asTools, catalog)
      ensures ok ==> pairs == PairsOf(slots, capacity) && total == Wrap(Sum(pairs))
      ensures ok ==> Adds(old(requested), requested, Pairs(pairs))
    {
      if |slots| > capacity { return [], 0, false; }
      var result := new Pair[capacity](_ => EMPTY);
      total := 0;
      var i := 0;
      ProgressStarts(requested, slots);
      while i < |slots|
        invariant i <= |slots| && FirstValid(slots, i, asTools, catalog)
        invariant Filled(result[..], slots, i)
        invariant Progress(old(requested), requested, slots, i, total)
      {
        ghost var counted, row, before := requested, result[..], total;
        FirstValidMore(slots, i, asTools, catalog);
        assert result[i] == row[i];
        total, ok := PlaceSlot(slots[i], result, i, total, asTools, catalog);
        if !ok { return [], 0, false; }
        ProgressMore(old(requested), counted, requested, slots, i, before);
        FilledMore(row, slots, i);
        i := i + 1;
      }
      pairs, ok := result[..], true;
      FilledEnds(pairs, slots);
      ProgressEnds(old(requested), requested, slots, capacity, total);
    }

    method BuildLane(lane: Lane, units: nat, tools: nat, catalog: Catalog) returns (flank: Flank, total: Int64, ok: bool)
      modifies this
      ensures ok <==> ValidLane(lane, units, tools, catalog)
      ensures ok ==> flank == FlankOf(lane, units, tools) && total == Wrap(Sum(flank.units))
      ensures ok ==> Adds(old(requested), requested, OfFlank(flank))
    {
      flank := Flank([], []);
      var troops, unitTotal, troopsOk := BuildPairs(lane.troops, units, false, catalog);
      if !troopsOk { return flank, 0, false; }
      ghost var middle := requested;
      var toolPairs, toolTotal, toolsOk := BuildPairs(lane.tools, tools, true, catalog);
      if !toolsOk { return flank, 0, false; }
      flank, total, ok := Flank(troops, toolPairs), unitTotal, true;
      AddsMore(old(requested), middle, requested, Pairs(troops), Pairs(toolPairs), OfFlank(flank));
    }

    method BuildWave(wave: Wave, catalog: Catalog) returns (built: BuiltWave, total: Int64, ok: bool)
      modifies this
      ensures ok <==> ValidWave(wave, catalog)
      ensures ok ==> built == WaveOf(wave) && total == Wrap(WaveTroops(built))
      ensures ok ==> Adds(old(requested), requested, OfWave(built))
    {
      built := BuiltWave(Flank([], []), Flank([], []), Flank([], []));
      var left, leftTotal, leftOk := BuildLane(wave.left, 2, 2, catalog);
      if !leftOk { return built, 0, false; }
      ghost var first := requested;
      var middle, middleTotal, middleOk := BuildLane(wave.middle, 6, 3, catalog);
      if !middleOk { return built, 0, false; }
      ghost var second := requested;
      var right, rightTotal, rightOk := BuildLane(wave.right, 2, 2, catalog);
      if !rightOk { return built, 0, false; }
      built, ok := BuiltWave(left, middle, right), true;
      var sum: int := leftTotal;
      sum := Wrap(sum + middleTotal);
      total := Wrap(sum + rightTotal);
      WaveAdded(old(requested), first, second, requested, built);
      WrapThree(Sum(left.units), Sum(middle.units), Sum(right.units));
    }

    method BuildWaves(waves: seq<Wave>, catalog: Catalog) returns (built: seq<BuiltWave>, total: Int64, ok: bool)
      modifies this
      ensures ok <==> FirstWavesValid(waves, |waves|, catalog)
      ensures ok ==> built == WavesOf(waves) && total == Wrap(Troops(built))
      ensures ok ==> Adds(old(requested), requested, OfWaves(built))
    {
      built, total := [], 0;
      var i := 0;
      AddsNothing(requested, OfWaves([]));
      while i < |waves|
        invariant i <= |waves| && built == WavesOf(waves[..i]) && FirstWavesValid(waves, i, catalog)
        invariant WavesProgress(old(requested), requested, built, total)
      {
        ghost var counted, before := requested, built;
        FirstWavesMore(waves, i, catalog);
        var wave, units, valid := BuildWave(waves[i], catalog);
        if !valid { return [], 0, false; }
        WaveCounted(old(requested), counted, requested, before, wave, total);
        WavesOfMore(waves, i);
        built := built + [wave];
        total := Wrap(total + units);
        i := i + 1;
      }
      assert waves[..i] == waves;
      ok := true;
    }

    method CountTool(slot: Slot, catalog: Catalog) returns (ok: bool)
      modifies this
      ensures ok <==> ValidTool(slot, catalog)
      ensures ok ==> Adds(old(requested), requested, ToolIn(slot))
    {
      if slot.item.None? {
        AddsNothing(requested, ToolIn(slot));
        return slot.quantity == 0;
      }
      var item := slot.item.value;
      if item <= 0 || slot.quantity != 1 || item !in catalog.tools || item !in catalog.support { return false; }
      AddsOne(requested, item, 1);
      ghost var counted := requested;
      requested := requested[item := Wrap(Requested(requested, item) + 1)];
      AddsSame(counted, requested, One(item, 1), ToolIn(slot));
      ok := true;
    }

    method BuildSupportTools(slots: seq<Slot>, catalog: Catalog) returns (tools: seq<Int64>, ok: bool)
      modifies this
      ensures ok <==> ValidTools(slots, catalog)
      ensures ok ==> tools == ToolsOf(slots) && Adds(old(requested), requested, OfTools(tools))
    {
      if |slots| > COURTYARD_TOOL_SLOTS { return [], false; }
      var result := new Int64[COURTYARD_TOOL_SLOTS](_ => NO_TOOL);
      var i := 0;
      NoToolCounted(requested, slots);
      while i < |slots|
        invariant i <= |slots| && forall k :: 0 <= k < i ==> ValidTool(slots[k], catalog)
        invariant forall k :: 0 <= k < COURTYARD_TOOL_SLOTS ==>
                    result[k] == if k < i && slots[k].item.Some? then slots[k].item.value else NO_TOOL
        invariant Adds(old(requested), requested, OfTools(ToolsOf(slots[..i])))
      {
        ghost var counted := requested;
        var valid := CountTool(slots[i], catalog);
        if !valid { return [], false; }
        ToolCounted(old(requested), counted, requested, slots, i);
        if slots[i].item.Some? { result[i] := slots[i].item.value; }
        i := i + 1;
      }
      assert slots[..i] == slots;
      tools, ok := result[..], true;
    }

    /** The final loop over everything that was requested. */
    method CheckStock(stock: map<int, Int64>, copies: int) returns (ok: bool)
      requires copies >= 1
      ensures ok <==> forall item :: item in requested ==> Covered(stock, item, requested[item], copies)
    {
      var rest := requested.Keys;
      while rest != {}
        invariant rest <= requested.Keys
        invariant forall item :: item in requested.Keys - rest ==> Covered(stock, item, requested[item], copies)
      {
        var item :| item in rest;
        if requested[item] > MAX_INT64 / copies { return false; }
        if Wrap(requested[item] * copies) > Stationed(stock, item) { return false; }
        rest := rest - {item};
      }
      ok := true;
    }

    /** Waves, courtyard troops and courtyard tools into one formation, before the stock check. */
    method BuildRows(setup: Setup, catalog: Catalog) returns (built: Option<Built>)
      requires requested == map[]
      modifies this
      ensures built == if ValidSetup(setup, catalog) && Wrap(Troops(WavesOf(setup.waves))) > 0 then Some(FormationOf(setup)) else None
      ensures built.Some? ==> Adds(map[], requested, OfBuilt(built.value))
    {
      if |setup.waves| < 1 || |setup.waves| > MAXIMUM_WAVES { return None; }
      var waves, total, wavesOk := BuildWaves(setup.waves, catalog);
      if !wavesOk || total <= 0 { return None; }
      ghost var afterWaves := requested;
      var troops, troopTotal, troopsOk := BuildPairs(setup.courtyardTroops, COURTYARD_TROOP_SLOTS, false, catalog);
      if !troopsOk { return None; }
      ghost var afterTroops := requested;
      var tools, toolsOk := BuildSupportTools(setup.courtyardTools, catalog);
      if !toolsOk { return None; }
      var formation := Built(waves, troops, tools);
      FormationAdded(afterWaves, afterTroops, requested, formation);
      built := Some(formation);
    }

    method BuildFormation(setup: Setup, stock: map<int, Int64>, catalog: Catalog, copies: int) returns (built: Option<Built>)
      requires requested == map[]
      modifies this
      ensures built == if Succeeds(setup, stock, catalog, copies) then Some(FormationOf(setup)) else None
    {
      if copies < 1 { return None; }
      built := BuildRows(setup, catalog);
      if built.None? { return; }
      var covered := CheckStock(stock, copies);
      StockChecked(setup, stock, copies, requested);
      if !covered { built := None; }
    }
  }

  /** When the builder succeeds: a valid request with troops, and the stock covers the
      64-bit count of every item that it takes. */
  ghost predicate Succeeds(setup: Setup, stock: map<int, Int64>, catalog: Catalog, copies: int) {
    && copies >= 1 && ValidSetup(setup, catalog) && Wrap(Troops(WavesOf(setup.waves))) > 0
    && StockCovers(setup, stock, copies)
  }

  ghost predicate StockCovers(setup: Setup, stock: map<int, Int64>, copies: int)
    requires copies >= 1
  {
    forall item :: item > 0 && Taken(FormationOf(setup), item) > 0 ==>
      Covered(stock, item, Wrap(Taken(FormationOf(setup), item)), copies)
  }

  lemma StockChecked(setup: Setup, stock: map<int, Int64>, copies: int, requested: map<Int64, Int64>)
    requires copies >= 1 && Adds(map[], requested, OfBuilt(FormationOf(setup)))
    ensures (forall item :: item in requested ==> Covered(stock, item, requested[item], copies)) <==> StockCovers(setup, stock, copies)
  {
    var taken := OfBuilt(FormationOf(setup));
    forall item: Int64 | item in requested ensures taken(item) > 0 && requested[item] == Wrap(taken(item)) {
      assert AddsItem(map[], requested, item, taken(item)) && Counted(requested, item);
    }
    forall item | item > 0 && taken(item) > 0 ensures Counted(requested, item) && requested[item] == Wrap(taken(item)) {
      assert AddsItem(map[], requested, item, taken(item));
    }
    if forall item :: item in requested ==> Covered(stock, item, requested[item], copies) {
      forall item | item > 0 && Taken(FormationOf(setup), item) > 0
        ensures Covered(stock, item, Wrap(Taken(FormationOf(setup), item)), copies)
      {
        assert taken(item) > 0 && Counted(requested, item);
      }
    }
    if StockCovers(setup, stock, copies) {
      forall item: Int64 | item in requested ensures Covered(stock, item, requested[item], copies) {
        assert taken(item) == Taken(FormationOf(setup), item) > 0;
      }
    }
  }

  lemma FormationAdded(afterWaves: map<Int64, Int64>, afterTroops: map<Int64, Int64>, after: map<Int64, Int64>, built: Built)
    requires Adds(map[], afterWaves, OfWaves(built.waves)) && Adds(afterWaves, afterTroops, Pairs(built.supportTroops))
    requires Adds(afterTroops, after, OfTools(built.supportTools))
    ensures Adds(map[], after, OfBuilt(built))
  {
    var two := (item: int) => WavesTotal(built.waves, item) + PairTotal(built.supportTroops, item);
    AddsMore(map[], afterWaves, afterTroops, OfWaves(built.waves), Pairs(built.supportTroops), two);
    AddsMore(map[], afterTroops, after, two, OfTools(built.supportTools), OfBuilt(built));
  }

  function OfFlank(flank: Flank): int -> int { item => FlankTotal(flank, item) }

  function OfWave(wave: BuiltWave): int -> int { item => WaveTotal(wave, item) }

  function OfWaves(waves: seq<BuiltWave>): int -> int { item => WavesTotal(waves, item) }

  function OfTools(tools: seq<Int64>): int -> int { item => ToolTotal(tools, item) }

  function OfBuilt(built: Built): int -> int { item => Taken(built, item) }

  function ToolIn(slot: Slot): int -> int { item => if slot.item.Some? && slot.item.value == item && item > 0 then 1 else 0 }

  lemma AddsSame(before: map<Int64, Int64>, after: map<Int64, Int64>, first: int -> int, second: int -> int)
    requires Adds(before, after, first) && forall item :: item > 0 ==> first(item) == second(item)
    ensures Adds(before, after, second)
  {
  }

  lemma WrapThree(a: int, b: int, c: int)
    ensures Wrap(Wrap(Wrap(a) + Wrap(b)) + Wrap(c)) == Wrap(a + b + c)
  {
    WrapTwice(a, Wrap(b));
    WrapTwice(b, a);
    WrapTwice(a + b, Wrap(c));
    WrapTwice(c, a + b);
  }

  lemma WaveAdded(before: map<Int64, Int64>, first: map<Int64, Int64>, second: map<Int64, Int64>, after: map<Int64, Int64>,
                  wave: BuiltWave)
    requires Adds(before, first, OfFlank(wave.left)) && Adds(first, second, OfFlank(wave.middle))
    requires Adds(second, after, OfFlank(wave.right))
    ensures Adds(before, after, OfWave(wave))
  {
    var two := (item: int) => FlankTotal(wave.left, item) + FlankTotal(wave.middle, item);
    AddsMore(before, first, second, OfFlank(wave.left), OfFlank(wave.middle), two);
    AddsMore(before, second, after, two, OfFlank(wave.right), OfWave(wave));
  }

  ghost predicate WavesProgress(before: map<Int64, Int64>, after: map<Int64, Int64>, built: seq<BuiltWave>, total: Int64) {
    Adds(before, after, OfWaves(built)) && total == Wrap(Troops(built))
  }

  lemma WavesMore(built: seq<BuiltWave>, wave: BuiltWave, item: int)
    ensures WavesTotal(built + [wave], item) == WavesTotal(built, item) + WaveTotal(wave, item)
    ensures Troops(built + [wave]) == Troops(built) + WaveTroops(wave)
  {
  }

  lemma WaveCounted(before: map<Int64, Int64>, middle: map<Int64, Int64>, after: map<Int64, Int64>, built: seq<BuiltWave>,
                    wave: BuiltWave, total: Int64)
    requires WavesProgress(before, middle, built, total) && Adds(middle, after, OfWave(wave))
    ensures WavesProgress(before, after, built + [wave], Wrap(total + Wrap(WaveTroops(wave))))
  {
    forall item | item > 0 ensures OfWaves(built + [wave])(item) == OfWaves(built)(item) + OfWave(wave)(item) {
      WavesMore(built, wave, item);
    }
    AddsMore(before, middle, after, OfWaves(built), OfWave(wave), OfWaves(built + [wave]));
    WavesMore(built, wave, 0);
    WrapTwice(Troops(built), Wrap(WaveTroops(wave)));
    WrapTwice(WaveTroops(wave), Troops(built));
  }

  ghost predicate FirstWavesValid(waves: seq<Wave>, n: nat, catalog: Catalog)
    requires n <= |waves|
  {
    forall k :: 0 <= k < n ==> ValidWave(waves[k], catalog)
  }

  lemma FirstWavesMore(waves: seq<Wave>, n: nat, catalog: Catalog)
    requires n < |waves| && FirstWavesValid(waves, n, catalog)
    ensures FirstWavesValid(waves, n + 1, catalog) <==> ValidWave(waves[n], catalog)
    ensures !ValidWave(waves[n], catalog) ==> !FirstWavesValid(waves, |waves|, catalog)
  {
  }

  lemma WavesOfMore(waves: seq<Wave>, i: nat)
    requires i < |waves|
    ensures WavesOf(waves[..i + 1]) == WavesOf(waves[..i]) + [WaveOf(waves[i])]
  {
  }

  lemma NoToolCounted(requested: map<Int64, Int64>, slots: seq<Slot>)
    ensures Adds(requested, requested, OfTools(ToolsOf(slots[..0])))
  {
    forall item | item > 0 ensures ToolTotal(ToolsOf(slots[..0]), item) == 0 {
      ThreeTools(ToolsOf(slots[..0]), item);
    }
    AddsNothing(requested, OfTools(ToolsOf(slots[..0])));
  }

  /** A tool fills its own place; the places after it stay empty. */
  lemma ToolCounted(before: map<Int64, Int64>, middle: map<Int64, Int64>, after: map<Int64, Int64>, slots: seq<Slot>, i: nat)
    requires i < |slots| <= COURTYARD_TOOL_SLOTS
    requires Adds(before, middle, OfTools(ToolsOf(slots[..i]))) && Adds(middle, after, ToolIn(slots[i]))
    ensures Adds(before, after, OfTools(ToolsOf(slots[..i + 1])))
  {
    var less, more := ToolsOf(slots[..i]), ToolsOf(slots[..i + 1]);
    forall item | item > 0 ensures ToolTotal(more, item) == ToolTotal(less, item) + ToolIn(slots[i])(item) {
      ThreeTools(less, item);
      ThreeTools(more, item);
    }
    AddsMore(before, middle, after, OfTools(less), ToolIn(slots[i]), OfTools(more));
  }

  lemma ThreeTools(tools: seq<Int64>, item: int)
    requires |tools| == COURTYARD_TOOL_SLOTS && item > 0
    ensures ToolTotal(tools, item)
            == (if tools[0] == item then 1 else 0) + (if tools[1] == item then 1 else 0) + (if tools[2] == item then 1 else 0)
  {
    assert tools[..2][..1] == tools[..1] && tools[..1][..0] == [];
    assert ToolTotal(tools[..1], item) == if tools[0] == item then 1 else 0;
  }
}
