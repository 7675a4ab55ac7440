/** What a built formation conserves. */
module FormationProofs {
  import opened Journals
  import opened FormationSpec
  import opened FormationBuilder

  // ---- from the request to the rows

  /** How many of one item a row of slots asks for. */
  function Asked(slots: seq<Slot>, item: int): int {
    if slots == [] then 0
    else
      var last := slots[|slots| - 1];
      Asked(slots[..|slots| - 1], item) + if last.item.Some? && last.item.value == item then last.quantity else 0
  }

  function AskedByLane(lane: Lane, item: int): int {
    Asked(lane.troops, item) + Asked(lane.tools, item)
  }

  function AskedByWaves(waves: seq<Wave>, item: int): int {
    if waves == [] then 0
    else
      var last := waves[|waves| - 1];
      AskedByWaves(waves[..|waves| - 1], item) + AskedByLane(last.left, item) + AskedByLane(last.middle, item) + AskedByLane(last.right, item)
  }

  function AskedBySetup(setup: Setup, item: int): int {
    AskedByWaves(setup.waves, item) + Asked(setup.courtyardTroops, item) + Asked(setup.courtyardTools, item)
  }

  lemma {:induction false} DoneConserves(slots: seq<Slot>, n: nat, item: int)
    requires item > 0 && n <= |slots|
    ensures PairTotal(Done(slots, n), item) == Asked(slots[..n], item)
    decreases n
  {
    if n == 0 {
      assert Done(slots, 0) == [] && slots[..0] == [];
    } else {
      DoneConserves(slots, n - 1, item);
      DoneMore(slots, n - 1);
      TotalMore(Done(slots, n - 1), PairOf(slots[n - 1]), item);
      assert slots[..n][..n - 1] == slots[..n - 1];
    }
  }

  lemma RowConserves(slots: seq<Slot>, capacity: nat, item: int)
    requires item > 0 && |slots| <= capacity
    ensures PairTotal(PairsOf(slots, capacity), item) == Asked(slots, item)
  {
    RowIsDone(slots, capacity);
    EmptyTail(Done(slots, |slots|), capacity - |slots|, item);
    DoneConserves(slots, |slots|, item);
    assert slots[..|slots|] == slots;
  }

  lemma LaneConserves(lane: Lane, units: nat, tools: nat, item: int)
    requires item > 0 && |lane.troops| <= units && |lane.tools| <= tools
    ensures FlankTotal(FlankOf(lane, units, tools), item) == AskedByLane(lane, item)
  {
    RowConserves(lane.troops, units, item);
    RowConserves(lane.tools, tools, item);
  }

  lemma {:induction false} WavesConserve(waves: seq<Wave>, catalog: Catalog, item: int)
    requires item > 0 && forall i :: 0 <= i < |waves| ==> ValidWave(waves[i], catalog)
    ensures WavesTotal(WavesOf(waves), item) == AskedByWaves(waves, item)
    decreases |waves|
  {
    if waves == [] {
      assert WavesOf(waves) == [];
    } else {
      var before, last := waves[..|waves| - 1], waves[|waves| - 1];
      WavesConserve(before, catalog, item);
      assert WavesOf(waves)[..|waves| - 1] == WavesOf(before);
      LaneConserves(last.left, 2, 2, item);
      LaneConserves(last.middle, 6, 3, item);
      LaneConserves(last.right, 2, 2, item);
    }
  }

  lemma {:induction false} AskedPrefix(slots: seq<Slot>, n: nat, item: int)
    requires n < |slots|
    ensures Asked(slots[..n + 1], item)
            == Asked(slots[..n], item) + if slots[n].item.Some? && slots[n].item.value == item then slots[n].quantity else 0
  {
    assert slots[..n + 1][..n] == slots[..n];
  }

  lemma ToolsConserve(slots: seq<Slot>, catalog: Catalog, item: int)
    requires item > 0 && ValidTools(slots, catalog)
    ensures ToolTotal(ToolsOf(slots), item) == Asked(slots, item)
  {
    ThreeTools(ToolsOf(slots), item);
    assert slots[..|slots|] == slots && slots[..0] == [];
    if |slots| > 0 { AskedPrefix(slots, 0, item); }
    if |slots| > 1 { AskedPrefix(slots, 1, item); }
    if |slots| > 2 { AskedPrefix(slots, 2, item); }
  }

  /** Conservation: the emitted waves and courtyard slots take of each item exactly what
      the request asked for. */
  lemma FormationConserves(setup: Setup, catalog: Catalog, item: int)
    requires ValidSetup(setup, catalog) && item > 0
    ensures Taken(FormationOf(setup), item) == AskedBySetup(setup, item)
  {
    WavesConserve(setup.waves, catalog, item);
    RowConserves(setup.courtyardTroops, COURTYARD_TROOP_SLOTS, item);
    ToolsConserve(setup.courtyardTools, catalog, item);
  }

  // ---- fixed rows

  /** No item is requested for this place. */
  predicate Unused(slots: seq<Slot>, place: nat) {
    place >= |slots| || slots[place].item.None? || slots[place].quantity == 0
  }

  predicate FixedRow(row: seq<Pair>, slots: seq<Slot>, capacity: nat) {
    && |row| == capacity
    && (forall place :: 0 <= place < capacity ==> (row[place] == Pair(-1, 0) <==> Unused(slots, place)))
    && (forall place :: 0 <= place < capacity && !Unused(slots, place) ==>
          row[place] == Pair(slots[place].item.value, slots[place].quantity))
  }

  predicate FixedFlank(flank: Flank, lane: Lane, units: nat, tools: nat) {
    FixedRow(flank.units, lane.troops, units) && FixedRow(flank.tools, lane.tools, tools)
  }

  predicate FixedTools(row: seq<Int64>, slots: seq<Slot>) {
    && |row| == 3
    && (forall place :: 0 <= place < 3 ==> (row[place] == -1 <==> Unused(slots, place)))
    && (forall place :: 0 <= place < 3 && !Unused(slots, place) ==> row[place] == slots[place].item.value)
  }

  lemma RowIsFixed(slots: seq<Slot>, capacity: nat, asTools: bool, catalog: Catalog)
    requires ValidSlots(slots, capacity, asTools, catalog)
    ensures FixedRow(PairsOf(slots, capacity), slots, capacity)
  {
  }

  lemma ToolsAreFixed(slots: seq<Slot>, catalog: Catalog)
    requires ValidTools(slots, catalog)
    ensures FixedTools(ToolsOf(slots), slots)
  {
  }

  lemma FlankIsFixed(lane: Lane, units: nat, tools: nat, catalog: Catalog)
    requires ValidLane(lane, units, tools, catalog)
    ensures FixedFlank(FlankOf(lane, units, tools), lane, units, tools)
  {
    RowIsFixed(lane.troops, units, false, catalog);
    RowIsFixed(lane.tools, tools, true, catalog);
  }

  /** Every row of every wave and of the courtyard has its fixed capacity, and a place holds
      what its slot asks for, or the empty marker exactly when that is nothing. */
  lemma RowsAreFixed(setup: Setup, catalog: Catalog)
    requires ValidSetup(setup, catalog)
    ensures var built := FormationOf(setup);
            && |built.waves| == |setup.waves|
            && (forall wave :: 0 <= wave < |setup.waves| ==>
                  && FixedFlank(built.waves[wave].left, setup.waves[wave].left, 2, 2)
                  && FixedFlank(built.waves[wave].middle, setup.waves[wave].middle, 6, 3)
                  && FixedFlank(built.waves[wave].right, setup.waves[wave].right, 2, 2))
            && FixedRow(built.supportTroops, setup.courtyardTroops, 8) && FixedTools(built.supportTools, setup.courtyardTools)
  {
    forall wave | 0 <= wave < |setup.waves|
      ensures ValidWave(setup.waves[wave], catalog) && FormationOf(setup).waves[wave] == WaveOf(setup.waves[wave])
    {
    }
    forall wave | 0 <= wave < |setup.waves|
      ensures FixedFlank(FormationOf(setup).waves[wave].left, setup.waves[wave].left, 2, 2)
      ensures FixedFlank(FormationOf(setup).waves[wave].middle, setup.waves[wave].middle, 6, 3)
      ensures FixedFlank(FormationOf(setup).waves[wave].right, setup.waves[wave].right, 2, 2)
    {
      FlankIsFixed(setup.waves[wave].left, 2, 2, catalog);
      FlankIsFixed(setup.waves[wave].middle, 6, 3, catalog);
      FlankIsFixed(setup.waves[wave].right, 2, 2, catalog);
    }
    RowIsFixed(setup.courtyardTroops, COURTYARD_TROOP_SLOTS, false, catalog);
    ToolsAreFixed(setup.courtyardTools, catalog);
  }

  // ---- which requests are built

  /** The slot asks for nothing, or for some of a fitting item. */
  predicate Sound(slot: Slot, fitting: set<int>) {
    slot.quantity == 0 || (slot.quantity > 0 && slot.item.Some? && slot.item.value > 0 && slot.item.value in fitting)
  }

  predicate SoundRow(slots: seq<Slot>, places: nat, fitting: set<int>) {
    |slots| <= places && forall slot :: slot in slots ==> Sound(slot, fitting)
  }

  predicate SoundLane(lane: Lane, units: nat, tools: nat, catalog: Catalog) {
    SoundRow(lane.troops, units, catalog.units) && SoundRow(lane.tools, tools, catalog.tools - catalog.support)
  }

  predicate SoundWave(wave: Wave, catalog: Catalog) {
    SoundLane(wave.left, 2, 2, catalog) && SoundLane(wave.middle, 6, 3, catalog) && SoundLane(wave.right, 2, 2, catalog)
  }

  /** The slot is empty or holds one tool that supports the courtyard. */
  predicate SoundTool(slot: Slot, catalog: Catalog) {
    || (slot.item.None? && slot.quantity == 0)
    || (slot.item.Some? && slot.item.value > 0 && slot.quantity == 1 && slot.item.value in catalog.tools * catalog.support)
  }

  predicate SoundSetup(setup: Setup, catalog: Catalog) {
    && 1 <= |setup.waves| <= 30 && (forall wave :: wave in setup.waves ==> SoundWave(wave, catalog))
    && SoundRow(setup.courtyardTroops, 8, catalog.units)
    && |setup.courtyardTools| <= 3 && (forall slot :: slot in setup.courtyardTools ==> SoundTool(slot, catalog))
  }

  lemma RowIsSound(slots: seq<Slot>, places: nat, asTools: bool, catalog: Catalog)
    ensures ValidSlots(slots, places, asTools, catalog)
            <==> SoundRow(slots, places, if asTools then catalog.tools - catalog.support else catalog.units)
  {
    forall i | 0 <= i < |slots|
      ensures ValidSlot(slots[i], asTools, catalog)
              <==> Sound(slots[i], if asTools then catalog.tools - catalog.support else catalog.units)
    {
    }
  }

  lemma LaneIsSound(lane: Lane, units: nat, tools: nat, catalog: Catalog)
    ensures ValidLane(lane, units, tools, catalog) <==> SoundLane(lane, units, tools, catalog)
  {
    RowIsSound(lane.troops, units, false, catalog);
    RowIsSound(lane.tools, tools, true, catalog);
  }

  lemma SetupIsSound(setup: Setup, catalog: Catalog)
    ensures ValidSetup(setup, catalog) <==> SoundSetup(setup, catalog)
  {
    forall wave | wave in setup.waves ensures ValidWave(wave, catalog) <==> SoundWave(wave, catalog) {
      LaneIsSound(wave.left, 2, 2, catalog);
      LaneIsSound(wave.middle, 6, 3, catalog);
      LaneIsSound(wave.right, 2, 2, catalog);
    }
    RowIsSound(setup.courtyardTroops, 8, false, catalog);
    forall slot | slot in setup.courtyardTools ensures ValidTool(slot, catalog) <==> SoundTool(slot, catalog) {
    }
  }

  /** How many troops a row of slots asks for. */
  function Quantity(slots: seq<Slot>): int {
    if slots == [] then 0 else Quantity(slots[..|slots| - 1]) + slots[|slots| - 1].quantity
  }

  function Fighters(waves: seq<Wave>): int {
    if waves == [] then 0
    else
      var last := waves[|waves| - 1];
      Fighters(waves[..|waves| - 1]) + Quantity(last.left.troops) + Quantity(last.middle.troops) + Quantity(last.right.troops)
  }

  lemma {:induction false} DoneSums(slots: seq<Slot>, n: nat)
    requires n <= |slots| && forall slot :: slot in slots ==> slot.quantity == 0 || slot.item.Some?
    ensures Sum(Done(slots, n)) == Quantity(slots[..n])
    decreases n
  {
    if n == 0 {
      assert Done(slots, 0) == [] && slots[..0] == [];
    } else {
      DoneSums(slots, n - 1);
      DoneMore(slots, n - 1);
      TotalMore(Done(slots, n - 1), PairOf(slots[n - 1]), 0);
      assert slots[..n][..n - 1] == slots[..n - 1];
    }
  }

  lemma RowSums(slots: seq<Slot>, places: nat, fitting: set<int>)
    requires SoundRow(slots, places, fitting)
    ensures Sum(PairsOf(slots, places)) == Quantity(slots)
  {
    RowIsDone(slots, places);
    EmptyTail(Done(slots, |slots|), places - |slots|, 0);
    DoneSums(slots, |slots|);
    assert slots[..|slots|] == slots;
  }

  lemma {:induction false} WavesSum(waves: seq<Wave>, catalog: Catalog)
    requires forall wave :: wave in waves ==> SoundWave(wave, catalog)
    ensures Troops(WavesOf(waves)) == Fighters(waves)
    decreases |waves|
  {
    if waves == [] {
      assert WavesOf(waves) == [];
    } else {
      var before, last := waves[..|waves| - 1], waves[|waves| - 1];
      assert waves == before + [last];
      assert SoundWave(last, catalog) && forall wave :: wave in before ==> SoundWave(wave, catalog);
      WavesSum(before, catalog);
      assert WavesOf(waves)[..|waves| - 1] == WavesOf(before);
      RowSums(last.left.troops, 2, catalog.units);
      RowSums(last.middle.troops, 6, catalog.units);
      RowSums(last.right.troops, 2, catalog.units);
    }
  }

  /** A signed 64-bit counter shows this after counting up to x. */
  ghost predicate Shows(counter: int, x: int) {
    -0x8000_0000_0000_0000 <= counter <= 0x7FFF_FFFF_FFFF_FFFF && exists turns: int :: counter == x + turns * TWO_64
  }

  lemma WrapShows(x: int, counter: int)
    ensures Shows(counter, x) <==> counter == Wrap(x)
  {
    var w := Wrap(x);
    var turns := (w - x) / TWO_64;
    assert w == x + turns * TWO_64;
    if Shows(counter, x) {
      var others: int :| counter == x + others * TWO_64;
      assert counter - w == (others - turns) * TWO_64;
    }
  }

  /** One counted item of all copies fits the stock, as far as the counters show. */
  predicate Affordable(asked: int, copies: int, stocked: int)
    requires copies >= 1
  {
    var counted := Wrap(asked);
    counted <= 0x7FFF_FFFF_FFFF_FFFF / copies && Wrap(counted * copies) <= stocked
  }

  /** A formation is built exactly when it is wanted at least once, its rows are sound, the
      troop counter of its waves ends above zero, and every item asked for is affordable. */
  lemma BuiltExactly(setup: Setup, stock: map<int, Int64>, catalog: Catalog, copies: int)
    ensures Succeeds(setup, stock, catalog, copies)
            <==> && copies >= 1 && SoundSetup(setup, catalog) && Wrap(Fighters(setup.waves)) > 0
                 && forall item :: item > 0 && AskedBySetup(setup, item) > 0 ==>
                      Affordable(AskedBySetup(setup, item), copies, if item in stock then stock[item] else 0)
  {
    SetupIsSound(setup, catalog);
    if copies >= 1 && SoundSetup(setup, catalog) {
      WavesSum(setup.waves, catalog);
      forall item | item > 0
        ensures Taken(FormationOf(setup), item) == AskedBySetup(setup, item)
        ensures Covered(stock, item, Wrap(AskedBySetup(setup, item)), copies)
                <==> Affordable(AskedBySetup(setup, item), copies, if item in stock then stock[item] else 0)
      {
        FormationConserves(setup, catalog, item);
      }
    }
  }

  // ---- the stock

  lemma NoWrap(taken: int, copies: int, stocked: Int64)
    requires copies >= 1 && 0 < taken <= MAX_INT64
    requires Wrap(taken) <= MAX_INT64 / copies && Wrap(Wrap(taken) * copies) <= stocked
    ensures copies * taken <= stocked
  {
    WrapOfInt64(taken);
    assert taken * copies <= MAX_INT64 by {
      assert taken <= MAX_INT64 / copies;
      ProductBound(taken, copies);
    }
    assert taken * copies == copies * taken && copies * taken >= 1 by { Positive(taken, copies); }
    WrapOfInt64(taken * copies);
  }

  lemma ProductBound(taken: int, copies: int)
    requires copies >= 1 && 0 < taken <= MAX_INT64 / copies
    ensures taken * copies <= MAX_INT64
  {
  }

  lemma Positive(taken: int, copies: int)
    requires copies >= 1 && taken > 0
    ensures copies * taken >= taken
  {
  }

  /** All copies of a built formation fit the stock exactly when no item's count passed the
      64-bit range. */
  lemma BuiltFitsStock(setup: Setup, stock: map<int, Int64>, catalog: Catalog, copies: int)
    requires Succeeds(setup, stock, catalog, copies)
    ensures (forall item :: item > 0 && Taken(FormationOf(setup), item) > 0 ==>
               copies * Taken(FormationOf(setup), item) <= Stationed(stock, item))
            <==> (forall item :: item > 0 ==> Taken(FormationOf(setup), item) <= MAX_INT64)
  {
    var built := FormationOf(setup);
    if forall item :: item > 0 ==> Taken(built, item) <= MAX_INT64 {
      forall item | item > 0 && Taken(built, item) > 0 ensures copies * Taken(built, item) <= Stationed(stock, item) {
        NoWrap(Taken(built, item), copies, Stationed(stock, item));
      }
    }
    if forall item :: item > 0 && Taken(built, item) > 0 ==> copies * Taken(built, item) <= Stationed(stock, item) {
      forall item | item > 0 ensures Taken(built, item) <= MAX_INT64 {
        if Taken(built, item) > 0 { Positive(Taken(built, item), copies); }
      }
    }
  }

  // ---- the failing input

  /** Two tool slots whose sum wraps to a negative count. */
  function Overflowing(): Setup {
    var lane := Lane([Slot(Some(1), 1)], [Slot(Some(7), MAX_INT64), Slot(Some(7), 1)]);
    Setup([Wave(lane, Lane([], []), Lane([], []))], [], [])
  }

  const CATALOG := Catalog({1}, {7}, {})

  lemma OverflowingIsValid()
    ensures ValidSetup(Overflowing(), CATALOG)
  {
  }

  lemma OverflowingAsks(item: int)
    requires item > 0
    ensures var lane := Overflowing().waves[0].left;
            && Asked(lane.troops, item) == (if item == 1 then 1 else 0)
            && Asked(lane.tools, item) == if item == 7 then MAX_INT64 + 1 else 0
  {
  }

  lemma OverflowingTakes(item: int)
    requires item > 0
    ensures Taken(FormationOf(Overflowing()), item) == (if item == 1 then 1 else 0) + if item == 7 then MAX_INT64 + 1 else 0
  {
    OverflowingIsValid();
    FormationConserves(Overflowing(), CATALOG, item);
    OverflowingAsks(item);
    var waves := Overflowing().waves;
    assert waves[..0] == [] && AskedByWaves([], item) == 0;
    assert AskedByLane(waves[0].middle, item) == 0 && AskedByLane(waves[0].right, item) == 0;
    assert AskedByWaves(waves, item) == AskedByLane(waves[0].left, item);
  }

  /** One troop in stock and no tool: the builder accepts 2^63 tools. */
  lemma OverflowPasses()
    ensures Succeeds(Overflowing(), map[1 := 1], CATALOG, 1)
    ensures Taken(FormationOf(Overflowing()), 7) > Stationed(map[1 := 1], 7)
  {
    OverflowingIsValid();
    OverflowingCovered();
    OverflowingTakes(7);
    OverflowingTroops();
  }

  lemma OverflowingCovered()
    ensures StockCovers(Overflowing(), map[1 := 1], 1)
  {
    forall item | item > 0 && Taken(FormationOf(Overflowing()), item) > 0
      ensures Covered(map[1 := 1], item, Wrap(Taken(FormationOf(Overflowing()), item)), 1)
    {
      OverflowingTakes(item);
      if item == 7 { assert Wrap(MAX_INT64 + 1) == -MAX_INT64 - 1; }
    }
  }

  lemma OverflowingTroops()
    ensures Wrap(Troops(WavesOf(Overflowing().waves))) == 1
  {
    var waves := WavesOf(Overflowing().waves);
    assert waves == [WaveOf(Overflowing().waves[0])] && waves[..0] == [];
    var wave := waves[0];
    assert wave.left.units == [Pair(1, 1), EMPTY];
    assert wave.left.units[..1] == [Pair(1, 1)] && wave.left.units[..1][..0] == [];
    assert Sum([Pair(1, 1)]) == 1;
    EmptyRow(6);
    EmptyRow(2);
    assert wave.middle.units == seq(6, i => EMPTY) && wave.right.units == seq(2, i => EMPTY);
  }

  lemma EmptyRow(n: nat)
    ensures Sum(seq(n, i => EMPTY)) == 0
  {
    EmptyTail([], n, 0);
    assert [] + seq(n, i => EMPTY) == seq(n, i => EMPTY);
  }
}
