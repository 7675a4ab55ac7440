/** What an attack formation contains, and when its request may be built. */
module FormationSpec {
  import opened Journals

  const MAXIMUM_WAVES := 30
  const COURTYARD_TROOP_SLOTS := 8
  const COURTYARD_TOOL_SLOTS := 3
  const MAX_INT64: int := 0x7FFF_FFFF_FFFF_FFFF
  const TWO_64: int := 0x1_0000_0000_0000_0000

  type Int64 = x: int | -MAX_INT64 - 1 <= x <= MAX_INT64

  /** Two's-complement wrap-around of a 64-bit sum or product. */
  function Wrap(x: int): (w: Int64)
    ensures (x - w) % TWO_64 == 0
  {
    (x + MAX_INT64 + 1) % TWO_64 - MAX_INT64 - 1
  }

  datatype Slot = Slot(item: Option<Int64>, quantity: Int64)

  datatype Lane = Lane(troops: seq<Slot>, tools: seq<Slot>)

  datatype Wave = Wave(left: Lane, middle: Lane, right: Lane)

  /** The request after troop families were resolved to items. */
  datatype Setup = Setup(waves: seq<Wave>, courtyardTroops: seq<Slot>, courtyardTools: seq<Slot>)

  /** Yes-or-no lookups in the official game data. */
  datatype Catalog = Catalog(units: set<int>, tools: set<int>, support: set<int>)

  datatype Pair = Pair(item: Int64, quantity: Int64)

  const EMPTY := Pair(-1, 0)
  const NO_TOOL: Int64 := -1

  datatype Flank = Flank(units: seq<Pair>, tools: seq<Pair>)

  datatype BuiltWave = BuiltWave(left: Flank, middle: Flank, right: Flank)

  datatype Built = Built(waves: seq<BuiltWave>, supportTroops: seq<Pair>, supportTools: seq<Int64>)

  // ---- one slot row

  predicate Official(catalog: Catalog, asTools: bool, item: int) {
    if asTools then item in catalog.tools && item !in catalog.support else item in catalog.units
  }

  predicate ValidSlot(slot: Slot, asTools: bool, catalog: Catalog) {
    && slot.quantity >= 0
    && (slot.item.None? ==> slot.quantity == 0)
    && (slot.item.Some? && slot.quantity > 0 ==> slot.item.value > 0 && Official(catalog, asTools, slot.item.value))
  }

  predicate ValidSlots(slots: seq<Slot>, capacity: nat, asTools: bool, catalog: Catalog) {
    |slots| <= capacity && forall i :: 0 <= i < |slots| ==> ValidSlot(slots[i], asTools, catalog)
  }

  function PairOf(slot: Slot): Pair {
    if slot.item.None? || slot.quantity == 0 then EMPTY else Pair(slot.item.value, slot.quantity)
  }

  /** The fixed row: each slot at its own place, the rest empty. */
  function PairsOf(slots: seq<Slot>, capacity: nat): seq<Pair> {
    seq(capacity, i requires 0 <= i => if i < |slots| then PairOf(slots[i]) else EMPTY)
  }

  predicate ValidTool(slot: Slot, catalog: Catalog) {
    if slot.item.None? then slot.quantity == 0
    else slot.item.value > 0 && slot.quantity == 1 && slot.item.value in catalog.tools && slot.item.value in catalog.support
  }

  predicate ValidTools(slots: seq<Slot>, catalog: Catalog) {
    |slots| <= COURTYARD_TOOL_SLOTS && forall i :: 0 <= i < |slots| ==> ValidTool(slots[i], catalog)
  }

  function ToolsOf(slots: seq<Slot>): seq<Int64> {
    seq(COURTYARD_TOOL_SLOTS, i requires 0 <= i => if i < |slots| && slots[i].item.Some? then slots[i].item.value else NO_TOOL)
  }

  // ---- lanes, waves and the whole formation

  predicate ValidLane(lane: Lane, units: nat, tools: nat, catalog: Catalog) {
    ValidSlots(lane.troops, units, false, catalog) && ValidSlots(lane.tools, tools, true, catalog)
  }

  function FlankOf(lane: Lane, units: nat, tools: nat): Flank {
    Flank(PairsOf(lane.troops, units), PairsOf(lane.tools, tools))
  }

  predicate ValidWave(wave: Wave, catalog: Catalog) {
    ValidLane(wave.left, 2, 2, catalog) && ValidLane(wave.middle, 6, 3, catalog) && ValidLane(wave.right, 2, 2, catalog)
  }

  function WaveOf(wave: Wave): BuiltWave {
    BuiltWave(FlankOf(wave.left, 2, 2), FlankOf(wave.middle, 6, 3), FlankOf(wave.right, 2, 2))
  }

  function WavesOf(waves: seq<Wave>): seq<BuiltWave> {
    seq(|waves|, i requires 0 <= i < |waves| => WaveOf(waves[i]))
  }

  function FormationOf(setup: Setup): Built {
    Built(WavesOf(setup.waves), PairsOf(setup.courtyardTroops, COURTYARD_TROOP_SLOTS), ToolsOf(setup.courtyardTools))
  }

  // ---- what a formation takes, without any wrap-around

  function PairTotal(pairs: seq<Pair>, item: int): int {
    if pairs == [] then 0
    else PairTotal(pairs[..|pairs| - 1], item) + if pairs[|pairs| - 1].item == item then pairs[|pairs| - 1].quantity else 0
  }

  function ToolTotal(tools: seq<Int64>, item: int): nat {
    if tools == [] then 0 else ToolTotal(tools[..|tools| - 1], item) + if tools[|tools| - 1] == item && item > 0 then 1 else 0
  }

  function FlankTotal(flank: Flank, item: int): int {
    PairTotal(flank.units, item) + PairTotal(flank.tools, item)
  }

  function WaveTotal(wave: BuiltWave, item: int): int {
    FlankTotal(wave.left, item) + FlankTotal(wave.middle, item) + FlankTotal(wave.right, item)
  }

  function WavesTotal(waves: seq<BuiltWave>, item: int): int {
    if waves == [] then 0 else WavesTotal(waves[..|waves| - 1], item) + WaveTotal(waves[|waves| - 1], item)
  }

  /** How many of one item one copy of the formation takes. */
  function Taken(built: Built, item: int): int {
    WavesTotal(built.waves, item) + PairTotal(built.supportTroops, item) + ToolTotal(built.supportTools, item)
  }

  function Sum(pairs: seq<Pair>): int {
    if pairs == [] then 0 else Sum(pairs[..|pairs| - 1]) + pairs[|pairs| - 1].quantity
  }

  function WaveTroops(wave: BuiltWave): int {
    Sum(wave.left.units) + Sum(wave.middle.units) + Sum(wave.right.units)
  }

  function Troops(waves: seq<BuiltWave>): int {
    if waves == [] then 0 else Troops(waves[..|waves| - 1]) + WaveTroops(waves[|waves| - 1])
  }

  // ---- when the builder succeeds

  predicate ValidSetup(setup: Setup, catalog: Catalog) {
    && 1 <= |setup.waves| <= MAXIMUM_WAVES
    && (forall i :: 0 <= i < |setup.waves| ==> ValidWave(setup.waves[i], catalog))
    && ValidSlots(setup.courtyardTroops, COURTYARD_TROOP_SLOTS, false, catalog)
    && ValidTools(setup.courtyardTools, catalog)
  }

  function Stationed(stock: map<int, Int64>, item: int): Int64 {
    if item in stock then stock[item] else 0
  }

  /** The stock check of one item, in 64-bit arithmetic. */
  predicate Covered(stock: map<int, Int64>, item: int, amount: Int64, copies: int)
    requires copies >= 1
  {
    amount <= MAX_INT64 / copies && Wrap(amount * copies) <= Stationed(stock, item)
  }
}
