/**
 Composition of replays with one uniform expert size: the R10 bridge
 (`phios/elastic_router_r10.py`), the R11 train-to-holdout comparison of one
 layer (`phios/elastic_holdout_r11.py`) and the R12 census of every layer and
 holdout (`phios/elastic_census_r12.py`).
 */
module HoldoutCensus {
  import opened Wrappers
  import opened Sequences
  import opened Ranking
  import opened RouterCapture
  import opened ShadowReplays
  import SharedReview
  import R9 = ShadowCache

  const MAX_EXPERT_BYTES := 16 * 1024 * 1024
  const MAX_BUDGET_BYTES := 2 * 1024 * 1024 * 1024
  const MAX_ACCESSES := 4096
  const MAX_RESOURCES := 128
  const MAX_PINS := 16
  const MAX_CENSUS_LAYERS := 32
  const MAX_CENSUS_CELLS := 96
  const STAGED_LIMIT := 10_000_000_000_000_000

  datatype StudyError = BadCapture | BadArguments | TooLarge | TooFewHoldouts | CensusBounds

  datatype Plan = Plan(size: int, capacity: int, reserve: int, maxPins: int) {
    predicate InRange() {
      && 1 <= size <= MAX_EXPERT_BYTES && 1 <= capacity <= MAX_BUDGET_BYTES
      && 0 <= reserve <= capacity && 0 <= maxPins <= MAX_PINS
    }

    function Effective(): int {
      capacity - reserve
    }

    /** One slot always stays unpinned beside at least one pin. */
    predicate TwoSlots() {
      Effective() >= 2 * size
    }

    function PinLimit(): nat
      requires InRange() && TwoSlots()
    {
      var spare := Slots(Effective(), size) - 1;
      if maxPins < spare then maxPins else spare
    }
  }

  /** `effective // size`: how many experts of one size fit. */
  function Slots(effective: int, size: int): (n: nat)
    requires size >= 1
    ensures effective >= size ==> n >= 1
    decreases effective
  {
    if effective < size then 0 else 1 + Slots(effective - size, size)
  }

  lemma {:induction false} SlotsIsQuotient(effective: nat, size: nat)
    requires size >= 1
    ensures Slots(effective, size) == effective / size
    ensures Times(Slots(effective, size), size) <= effective
    decreases effective
  {
    if effective >= size {
      SlotsIsQuotient(effective - size, size);
      Quotient(effective, size, 1 + (effective - size) / size, (effective - size) % size);
    } else {
      Quotient(effective, size, 0, effective);
    }
  }

  // ------------------------------------------------------------ pin learning

  /** Higher training frequency first, ties by expert id. */
  predicate LearnsBefore(counts: multiset<int>, a: int, b: int) {
    counts[a] > counts[b] || (counts[a] == counts[b] && a < b)
  }

  function LearnOrder(counts: multiset<int>): (int, int) -> bool {
    (a, b) => LearnsBefore(counts, a, b)
  }

  function Ranked(groups: seq<seq<int>>): seq<int> {
    Sort(Distinct(Concat(groups)), LearnOrder(multiset(Concat(groups))))
  }

  /** `_learn`. */
  function Learn(groups: seq<seq<int>>, maximum: nat): seq<int> {
    var ranked := Ranked(groups);
    if maximum < |ranked| then ranked[..maximum] else ranked
  }

  lemma LearnIsStrict(counts: multiset<int>, xs: seq<int>)
    ensures StrictTotalOn(LearnOrder(counts), xs)
  {
  }

  /** The `limit` most used experts, or all of them: more uses first, at equal uses the smaller id. */
  ghost predicate TopUsed(pins: seq<int>, used: seq<int>, limit: int) {
    && NoDup(pins) && |pins| <= limit && (forall a :: a in pins ==> a in used)
    && (|pins| < limit ==> forall b :: b in used ==> b in pins)
    && (forall i, j :: 0 <= i < j < |pins| ==> MoreUsed(used, pins[i], pins[j]))
    && (forall a, b :: a in pins && b in used && b !in pins ==> MoreUsed(used, a, b))
  }

  ghost predicate MoreUsed(used: seq<int>, a: int, b: int) {
    var x, y := multiset(used)[a], multiset(used)[b];
    y < x || (y == x && a < b)
  }

  /** The learned pins are the `maximum` most used training experts, each once. */
  lemma LearnedAreTop(groups: seq<seq<int>>, maximum: nat)
    ensures TopUsed(Learn(groups, maximum), Concat(groups), maximum)
  {
    var all := Concat(groups);
    var counts := multiset(all);
    var ranked := Ranked(groups);
    var pins := Learn(groups, maximum);
    hide Concat, Distinct, Sort;
    DistinctElems(all);
    LearnIsStrict(counts, Distinct(all));
    SortIsSorted(Distinct(all), LearnOrder(counts));
    forall i, j | 0 <= i < j < |ranked|
      ensures MoreUsed(all, ranked[i], ranked[j])
    {
      assert LearnOrder(counts)(ranked[i], ranked[j]);
    }
    forall a, b | a in pins && b in all && b !in pins
      ensures MoreUsed(all, a, b)
    {
      assert b in ranked;
      var i :| 0 <= i < |pins| && pins[i] == a;
      var j :| 0 <= j < |ranked| && ranked[j] == b;
      assert pins[i] == ranked[i];
      assert j >= |pins|;
    }
  }

  /** Only how often each expert was used in training matters, not when. */
  lemma LearnDependsOnCounts(a: seq<seq<int>>, b: seq<seq<int>>, maximum: nat)
    requires multiset(Concat(a)) == multiset(Concat(b))
    ensures Learn(a, maximum) == Learn(b, maximum)
  {
    hide Concat, Distinct, Sort, LearnOrder;
    var less := LearnOrder(multiset(Concat(a)));
    var da, db := Distinct(Concat(a)), Distinct(Concat(b));
    DistinctElems(Concat(a));
    DistinctElems(Concat(b));
    forall y
      ensures y in da <==> y in db
    {
      assert y in multiset(Concat(a)) <==> y in multiset(Concat(b));
    }
    SameMembersSameMultiset(da, db);
    LearnIsStrict(multiset(Concat(a)), da);
    LearnIsStrict(multiset(Concat(a)), db);
    SortIsSorted(da, less);
    SortIsSorted(db, less);
    SortedUnique(Sort(da, less), Sort(db, less), da, less);
  }

  // ------------------------------------------------------------ one replay

  datatype Replay = Replay(shadow: R9.Review, steps: nat, accesses: nat, unique: nat)

  /** The routed experts of one layer of one split, flattened in order. */
  function Routed(events: seq<RawEvent>, layer: int, split: string): seq<int> {
    Concat(Project(events, split, layer))
  }

  /** What the cache study can take: its access and resource caps. */
  predicate Fits(events: seq<RawEvent>, layer: int, holdout: string, pins: seq<int>) {
    var routed := Routed(events, layer, holdout);
    |routed| <= MAX_ACCESSES && |Elems(routed) + Elems(pins)| <= MAX_RESOURCES
  }

  ghost predicate CaptureOf(c: Checked, events: seq<RawEvent>) {
    Acceptable(events, c.expertCount) && Describes(c, events)
  }

  predicate GoodPins(pins: seq<int>, expertCount: int) {
    && |pins| <= 128 && (forall p :: p in pins ==> 0 <= p < expertCount)
    && |Elems(pins)| == |pins|
  }

  lemma GoodPinsIff(pins: seq<int>, expertCount: int)
    ensures GoodPins(pins, expertCount)
        <==> |pins| <= 128 && NoDup(pins) && forall p :: p in pins ==> 0 <= p < expertCount
  {
    NoDupCardinality(pins);
  }

  function ReplayOf(events: seq<RawEvent>, layer: int, holdout: string, size: nat, effective: int, pins: seq<int>): Replay {
    var routed := Routed(events, layer, holdout);
    Replay(Outcome(pins, size, effective, routed), |Project(events, holdout, layer)|, |routed|, |Elems(routed)|)
  }

  /** A declared layer has a non-empty series of non-empty groups of declared experts in every split. */
  lemma SeriesShape(events: seq<RawEvent>, c: Checked, layer: int, split: string)
    requires CaptureOf(c, events) && layer in c.layers && split in c.phases
    ensures split in c.streams && layer in c.streams[split]
    ensures c.streams[split][layer] == Project(events, split, layer)
    ensures Routed(events, layer, split) != []
    ensures forall e :: e in Routed(events, layer, split) ==> 0 <= e < c.expertCount
  {
    hide Project, Phases, Concat;
    assert EvenlyCovered(events, split);
    var groups := Project(events, split, layer);
    assert groups != [];
    forall g | g in groups
      ensures g != [] && forall e :: e in g ==> 0 <= e < c.expertCount
    {
      ProjectMembers(events, split, layer, g);
      var i :| 0 <= i < |events| && events[i].experts == g;
      assert GoodAt(events, i, c.expertCount);
    }
    assert groups[0] in groups && groups[0][0] in groups[0];
    ConcatElems(groups, groups[0][0]);
    forall e | e in Concat(groups)
      ensures 0 <= e < c.expertCount
    {
      ConcatElems(groups, e);
      var i :| 0 <= i < |groups| && e in groups[i];
      assert groups[i] in groups;
    }
  }

  lemma ProjectMembers(events: seq<RawEvent>, split: string, layer: int, g: seq<int>)
    requires g in Project(events, split, layer)
    ensures exists i :: 0 <= i < |events| && events[i].experts == g
  {
    var n := |events| - 1;
    if g in Project(events[..n], split, layer) {
      ProjectMembers(events[..n], split, layer, g);
      var i :| 0 <= i < n && events[..n][i].experts == g;
      assert events[i].experts == g;
    }
  }

  /** `bridge`, on a capture already checked: one holdout of one layer through the pinned cache. */
  method Bridge(events: seq<RawEvent>, c: Checked, layer: int, holdout: string,
                size: int, capacity: int, reserve: int, pins: seq<int>)
    returns (r: Result<Replay, StudyError>)
    requires CaptureOf(c, events) && c.phases != []
    ensures r.Success? <==>
      && layer in c.layers && holdout in c.phases[1..] && Plan(size, capacity, reserve, 0).InRange()
      && |pins| <= 128 && NoDup(pins) && (forall p :: p in pins ==> 0 <= p < c.expertCount)
      && Fits(events, layer, holdout, pins)
    ensures r.Success? ==> r.value == ReplayOf(events, layer, holdout, size, capacity - reserve, pins)
  {
    hide Acceptable, Describes, Project, Phases, GoodPins, Fits, Plan.InRange, Concat, Elems, SortedInts, Inside;
    hide R9.Study.Account, R9.Study.Room, Weight;
    GoodPinsIff(pins, c.expertCount);
    if layer !in c.layers || holdout !in c.phases[1..] || !Plan(size, capacity, reserve, 0).InRange() {
      return Failure(BadArguments);
    }
    if !GoodPins(pins, c.expertCount) {
      return Failure(BadArguments);
    }
    SeriesShape(events, c, layer, holdout);
    var groups := c.streams[holdout][layer];
    var selected := Concat(groups);
    var numbers := SortedInts(Elems(selected) + Elems(pins));
    CapsAre(events, layer, holdout, pins);
    if !(1 <= |selected| <= MAX_ACCESSES) || |numbers| > MAX_RESOURCES {
      return Failure(TooLarge);
    }
    PinnedResources(Elems(selected), pins);
    PinsSorted(pins);
    SizeInRange(size, capacity, reserve);
    var shadow := R9.Simulate(Inside(numbers, pins), Uniform(size), selected, capacity - reserve);
    r := Success(Replay(shadow, |groups|, |selected|, |Elems(selected)|));
  }

  lemma SizeInRange(size: int, capacity: int, reserve: int)
    requires Plan(size, capacity, reserve, 0).InRange()
    ensures size >= 1
  {
  }

  lemma CapsAre(events: seq<RawEvent>, layer: int, holdout: string, pins: seq<int>)
    ensures var routed := Routed(events, layer, holdout);
      Fits(events, layer, holdout, pins)
      <==> |routed| <= MAX_ACCESSES && |SortedInts(Elems(routed) + Elems(pins))| <= MAX_RESOURCES
  {
    SortedLength(Elems(Routed(events, layer, holdout)) + Elems(pins));
  }

  // ------------------------------------------------------------ one layer

  /** One layer on one holdout: plain LRU against the learned pins. */
  datatype Cell = Cell(
    holdout: string, steps: nat, accesses: nat, unique: nat, lruStaged: int, pinStaged: int, delta: int,
    lruHits: int, pinHits: int, preload: int, peak: int)

  function CellOf(events: seq<RawEvent>, layer: int, holdout: string, size: nat, effective: int, pins: seq<int>): Cell {
    var routed := Routed(events, layer, holdout);
    var lru := Shadow([], size, effective).Account(routed);
    var pinned := Shadow(pins, size, effective).Account(routed);
    Cell(holdout, |Project(events, holdout, layer)|, |routed|, |Elems(routed)|,
         lru.staged, pinned.staged, lru.staged - pinned.staged, lru.hits, pinned.hits,
         PinnedBytes(pins, size), pinned.peak)
  }

  function PinsFor(events: seq<RawEvent>, layer: int, plan: Plan): seq<int>
    requires plan.InRange() && plan.TwoSlots()
  {
    Learn(Project(events, "train", layer), plan.PinLimit())
  }

  /**
   What a completed pair of replays satisfies: every access is cacheable, the
   byte difference is exactly the extra hits less the pins, and the counters
   lie in the ranges the census re-checks.
   */
  ghost predicate Sound(cell: Cell, plan: Plan) {
    && plan.size >= 0 && cell.delta == cell.lruStaged - cell.pinStaged
    && 0 <= cell.lruHits <= cell.accesses && 0 <= cell.pinHits <= cell.accesses
    && cell.delta + cell.preload + Times(cell.lruHits, plan.size) == Times(cell.pinHits, plan.size)
    && 1 <= cell.accesses <= MAX_ACCESSES
    && 1 <= cell.lruStaged <= STAGED_LIMIT && 1 <= cell.pinStaged <= STAGED_LIMIT
    && Times(cell.unique, plan.size) <= cell.lruStaged <= Times(cell.accesses, plan.size)
    && 0 <= cell.preload <= 16 * plan.size && 0 <= cell.peak <= plan.Effective()
  }

  /** The most pins asked for that leave one slot free, counted in experts of one size. */
  ghost predicate IsPinLimit(n: int, plan: Plan) {
    && 0 <= n <= plan.maxPins && plan.size >= 0 && Times(n + 1, plan.size) <= plan.Effective()
    && (n < plan.maxPins ==> Times(n + 2, plan.size) > plan.Effective())
  }

  lemma PinLimitIs(plan: Plan)
    requires plan.InRange() && plan.TwoSlots()
    ensures IsPinLimit(plan.PinLimit(), plan)
  {
    hide Slots, Times;
    var slots := Slots(plan.Effective(), plan.size);
    SlotsIsQuotient(plan.Effective(), plan.size);
    TimesGrows(plan.PinLimit() + 1, slots, plan.size);
    SlotsAreAll(plan.Effective(), plan.size);
  }

  lemma {:induction false} SlotsAreAll(effective: nat, size: nat)
    requires size >= 1
    ensures Times(Slots(effective, size) + 1, size) > effective
    decreases effective
  {
    if effective >= size {
      SlotsAreAll(effective - size, size);
    }
  }

  lemma LearnedPinsFit(events: seq<RawEvent>, c: Checked, layer: int, plan: Plan)
    requires CaptureOf(c, events) && layer in c.layers && plan.InRange() && plan.TwoSlots()
    ensures var pins := PinsFor(events, layer, plan);
      && GoodPins(pins, c.expertCount) && NoDup(pins) && |pins| <= MAX_PINS
      && Times(|pins| + 1, plan.size) <= plan.Effective()
  {
    hide Acceptable, Describes, Project, Phases, Learn;
    TrainIsPhase(events, c);
    SeriesShape(events, c, layer, "train");
    var pins := PinsFor(events, layer, plan);
    LearnedAreTop(Project(events, "train", layer), plan.PinLimit());
    NoDupCardinality(pins);
    SlotsIsQuotient(plan.Effective(), plan.size);
    TimesGrows(|pins| + 1, Slots(plan.Effective(), plan.size), plan.size);
  }

  lemma TrainIsPhase(events: seq<RawEvent>, c: Checked)
    requires CaptureOf(c, events)
    ensures "train" in c.phases && c.phases != [] && c.layers != []
  {
    SharedReview.DescribedShape(events, c);
  }

  /** Every completed cell is sound, and neither replay is held or bypasses anything. */
  lemma CellIsSound(events: seq<RawEvent>, c: Checked, layer: int, holdout: string, plan: Plan)
    requires CaptureOf(c, events) && layer in c.layers && holdout in c.phases
    requires plan.InRange() && plan.TwoSlots() && Fits(events, layer, holdout, PinsFor(events, layer, plan))
    ensures var pins := PinsFor(events, layer, plan);
      && Sound(CellOf(events, layer, holdout, plan.size, plan.Effective(), pins), plan)
      && (var routed := Routed(events, layer, holdout);
          && Outcome([], plan.size, plan.Effective(), routed).Reviewed?
          && Outcome(pins, plan.size, plan.Effective(), routed).Reviewed?
          && Shadow([], plan.size, plan.Effective()).Account(routed).bypassed == 0
          && Shadow(pins, plan.size, plan.Effective()).Account(routed).bypassed == 0)
  {
    hide *;
    var pins := PinsFor(events, layer, plan);
    var routed := Routed(events, layer, holdout);
    LearnedPinsFit(events, c, layer, plan);
    SeriesShape(events, c, layer, holdout);
    FitsBounds(events, layer, holdout, pins);
    PairIsSound(events, layer, holdout, plan, pins);
  }

  lemma FitsBounds(events: seq<RawEvent>, layer: int, holdout: string, pins: seq<int>)
    requires Fits(events, layer, holdout, pins)
    ensures |Routed(events, layer, holdout)| <= MAX_ACCESSES
  {
  }

  lemma PairIsSound(events: seq<RawEvent>, layer: int, holdout: string, plan: Plan, pins: seq<int>)
    requires plan.InRange() && |pins| <= MAX_PINS && NoDup(pins) && Times(|pins| + 1, plan.size) <= plan.Effective()
    requires plan.TwoSlots() && 1 <= |Routed(events, layer, holdout)| <= MAX_ACCESSES
    ensures Sound(CellOf(events, layer, holdout, plan.size, plan.Effective(), pins), plan)
    ensures var routed := Routed(events, layer, holdout);
      && Outcome([], plan.size, plan.Effective(), routed).Reviewed?
      && Outcome(pins, plan.size, plan.Effective(), routed).Reviewed?
      && Shadow([], plan.size, plan.Effective()).Account(routed).bypassed == 0
      && Shadow(pins, plan.size, plan.Effective()).Account(routed).bypassed == 0
  {
    hide Routed, Project, R9.Study.Account, Elems, Outcome, Shadow, PinnedBytes;
    var routed := Routed(events, layer, holdout);
    UniformReplay(pins, plan.size, plan.Effective(), routed);
    UniformReplay([], plan.size, plan.Effective(), routed);
    var lru := Shadow([], plan.size, plan.Effective()).Account(routed);
    var pinned := Shadow(pins, plan.size, plan.Effective()).Account(routed);
    TimesGrows(|pins|, MAX_PINS, plan.size);
    TimesGrows(lru.hits, |routed|, plan.size);
    StagedBound(plan.size, |pins|, |routed|);
    assert Times(0, plan.size) == 0 && Times(1, plan.size) == plan.size;
    TimesGrows(1, |pins| + 1, plan.size);
  }

  lemma StagedBound(size: nat, pins: nat, accesses: nat)
    requires size <= MAX_EXPERT_BYTES && pins <= MAX_PINS && accesses <= MAX_ACCESSES
    ensures Times(pins, size) + Times(accesses, size) <= STAGED_LIMIT
    ensures Times(MAX_PINS, size) == 16 * size
  {
    TimesGrows(pins, MAX_PINS, size);
    TimesGrows(accesses, MAX_ACCESSES, size);
    TimesIsProduct(MAX_PINS, size);
    TimesIsProduct(MAX_ACCESSES, size);
  }

  // ------------------------------------------------------------ totals

  /** The sum over completed cells of one of their figures. */
  function Total(cells: seq<Cell>, f: Cell -> int): int {
    if cells == [] then 0 else Total(cells[..|cells| - 1], f) + f(cells[|cells| - 1])
  }

  function Improved(c: Cell): int { if c.delta > 0 then 1 else 0 }
  function Unchanged(c: Cell): int { if c.delta == 0 then 1 else 0 }
  function Regressed(c: Cell): int { if c.delta < 0 then 1 else 0 }
  function LruStaged(c: Cell): int { c.lruStaged }
  function PinStaged(c: Cell): int { c.pinStaged }
  function Delta(c: Cell): int { c.delta }
  function Preload(c: Cell): int { c.preload }
  function Uses(c: Cell): int { c.accesses }
  function LruHits(c: Cell): int { c.lruHits }
  function PinHits(c: Cell): int { c.pinHits }

  lemma {:induction false} TotalConcat(a: seq<Cell>, b: seq<Cell>, f: Cell -> int)
    ensures Total(a + b, f) == Total(a, f) + Total(b, f)
  {
    if b == [] {
      assert a + b == a;
    } else {
      var n := |b| - 1;
      assert (a + b)[..|a + b| - 1] == a + b[..n];
      TotalConcat(a, b[..n], f);
    }
  }

  /** Counts of improved, equal and regressed cells add up to the cells; deltas to the byte totals. */
  lemma {:induction false} TotalsPartition(cells: seq<Cell>, plan: Plan)
    requires plan.size >= 0 && forall k :: 0 <= k < |cells| ==> Sound(cells[k], plan)
    ensures Total(cells, Improved) + Total(cells, Unchanged) + Total(cells, Regressed) == |cells|
    ensures Total(cells, Delta) == Total(cells, LruStaged) - Total(cells, PinStaged)
    ensures Total(cells, LruHits) >= 0 && Total(cells, PinHits) >= 0
    ensures Total(cells, Delta) + Total(cells, Preload) + Times(Total(cells, LruHits), plan.size)
         == Times(Total(cells, PinHits), plan.size)
    ensures Total(cells, LruStaged) >= |cells|
    ensures Total(cells, LruHits) <= Total(cells, Uses) && Total(cells, PinHits) <= Total(cells, Uses)
  {
    hide Times;
    if cells == [] {
      assert Times(0, plan.size) == 0 by { TimesIsProduct(0, plan.size); }
    } else {
      var n := |cells| - 1;
      TotalsPartition(cells[..n], plan);
      var cell := cells[n];
      TimesAdds(Total(cells[..n], PinHits), cell.pinHits, plan.size);
      TimesAdds(Total(cells[..n], LruHits), cell.lruHits, plan.size);
    }
  }

  /** Every cell is improved when each pinned replay stages fewer bytes, and regressed when each stages more. */
  lemma {:induction false} AllImprovedIff(cells: seq<Cell>)
    requires forall k :: 0 <= k < |cells| ==> cells[k].delta == cells[k].lruStaged - cells[k].pinStaged
    ensures 0 <= Total(cells, Improved) <= |cells| && 0 <= Total(cells, Regressed) <= |cells|
    ensures Total(cells, Improved) == |cells| <==> forall k :: 0 <= k < |cells| ==> cells[k].pinStaged < cells[k].lruStaged
    ensures Total(cells, Regressed) == |cells| <==> forall k :: 0 <= k < |cells| ==> cells[k].pinStaged > cells[k].lruStaged
  {
    if cells != [] {
      var n := |cells| - 1;
      AllImprovedIff(cells[..n]);
      assert forall k :: 0 <= k < n ==> cells[..n][k] == cells[k];
    }
  }

  /** The least signed delta among the cells. */
  ghost predicate IsWorst(worst: Option<int>, cells: seq<Cell>) {
    && (worst.None? <==> cells == [])
    && (forall k :: 0 <= k < |cells| ==> worst.Some? && worst.value <= cells[k].delta)
    && (worst.Some? ==> exists k :: 0 <= k < |cells| && cells[k].delta == worst.value)
  }

  lemma WorstSnoc(worst: Option<int>, cells: seq<Cell>, cell: Cell)
    requires IsWorst(worst, cells)
    ensures IsWorst(Some(if worst.Some? && worst.value < cell.delta then worst.value else cell.delta), cells + [cell])
  {
    var longer := cells + [cell];
    assert longer[|cells|] == cell;
    if worst.Some? {
      var k :| 0 <= k < |cells| && cells[k].delta == worst.value;
      assert longer[k] == cells[k];
    }
  }

  // ------------------------------------------------------------ R11

  datatype LayerReport =
    | LayerHeld
    | LayerReviewed(layer: int, pins: seq<int>, trainSteps: nat, trainUses: nat, cells: seq<Cell>, improved: int, equal: int,
                    regressed: int, uses: int, lruStaged: int, pinStaged: int)

  /** A layer's report: every holdout once, in order, under the training-only pins, with its sums. */
  ghost predicate Reports(report: LayerReport, events: seq<RawEvent>, c: Checked, layer: int, plan: Plan)
    requires plan.InRange() && c.phases != []
  {
    if plan.capacity - plan.reserve < 2 * plan.size then report == LayerHeld
    else
      && report.LayerReviewed? && report.layer == layer
      && report.pins == PinsFor(events, layer, plan)
      && (exists limit :: IsPinLimit(limit, plan) && TopUsed(report.pins, Routed(events, layer, "train"), limit))
      && report.trainSteps == |Project(events, "train", layer)| && report.trainUses == |Routed(events, layer, "train")|
      && CellsUpTo(report.cells, events, c, layer, plan, |c.phases| - 1)
      && SumsLayer(report)
  }

  /** A layer's figures are the sums over its cells. */
  ghost predicate SumsLayer(report: LayerReport) {
    && report.LayerReviewed?
    && report.improved == Total(report.cells, Improved) && report.equal == Total(report.cells, Unchanged)
    && report.regressed == Total(report.cells, Regressed) && report.uses == Total(report.cells, Uses)
    && report.lruStaged == Total(report.cells, LruStaged) && report.pinStaged == Total(report.cells, PinStaged)
  }

  /** One cell per holdout, the first `n` holdouts in declared order. */
  ghost predicate CellsUpTo(cells: seq<Cell>, events: seq<RawEvent>, c: Checked, layer: int, plan: Plan, n: int)
    requires plan.InRange() && plan.TwoSlots()
  {
    && |cells| == n < |c.phases|
    && forall k :: 0 <= k < |cells| ==>
         CellAt(cells[k], events, layer, c.phases[k + 1], plan)
  }

  ghost predicate CellAt(cell: Cell, events: seq<RawEvent>, layer: int, holdout: string, plan: Plan)
    requires plan.InRange() && plan.TwoSlots()
  {
    && cell == CellOf(events, layer, holdout, plan.size, plan.Effective(), PinsFor(events, layer, plan))
    && Sound(cell, plan)
  }

  ghost predicate LayerFits(events: seq<RawEvent>, c: Checked, layer: int, plan: Plan)
    requires plan.InRange() && plan.TwoSlots()
  {
    forall k :: 1 <= k < |c.phases| ==> Fits(events, layer, c.phases[k], PinsFor(events, layer, plan))
  }

  /**
   `evaluate`: refused for bad arguments, too few holdouts or a trace past the
   caps and for nothing else; its pairing and range checks are assertions.
   */
  method EvaluateLayer(events: seq<RawEvent>, c: Checked, layer: int, plan: Plan)
    returns (r: Result<LayerReport, StudyError>)
    requires CaptureOf(c, events)
    ensures r.Success? <==>
      && layer in c.layers && plan.InRange() && |c.phases| >= 3
      && (plan.capacity - plan.reserve >= 2 * plan.size ==> LayerFits(events, c, layer, plan))
    ensures r.Success? ==> Reports(r.value, events, c, layer, plan)
  {
    hide Acceptable, Describes, Project, Phases, Learn, CellAt, Fits, SumsLayer, Total, AddCell, Concat, TopUsed, IsPinLimit;
    if layer !in c.layers || !plan.InRange() {
      return Failure(BadArguments);
    }
    if |c.phases| < 3 {
      return Failure(TooFewHoldouts);
    }
    if !plan.TwoSlots() {
      return Success(LayerHeld);
    }
    TrainIsPhase(events, c);
    SeriesShape(events, c, layer, "train");
    var pins := Learn(c.streams["train"][layer], plan.PinLimit());
    LearnedPinsFit(events, c, layer, plan);
    PinLimitIs(plan);
    LearnedAreTop(Project(events, "train", layer), plan.PinLimit());
    var report := LayerReviewed(layer, pins, |c.streams["train"][layer]|, |Concat(c.streams["train"][layer])|, [], 0, 0, 0, 0, 0, 0);
    NoCells(report);
    var k := 1;
    while k < |c.phases|
      invariant 1 <= k <= |c.phases|
      invariant report.LayerReviewed? && report.layer == layer && report.pins == pins
      invariant report.trainSteps == |Project(events, "train", layer)|
      invariant report.trainUses == |Routed(events, layer, "train")|
      invariant CellsUpTo(report.cells, events, c, layer, plan, k - 1)
      invariant forall j :: 1 <= j < k ==> Fits(events, layer, c.phases[j], pins)
      invariant SumsLayer(report)
    {
      var cell := ReplayPair(events, c, layer, c.phases[k], k, plan, pins);
      if cell.Failure? {
        return Failure(cell.error);
      }
      report := AddCell(report, cell.value);
      k := k + 1;
    }
    r := Success(report);
  }

  lemma NoCells(report: LayerReport)
    requires report.LayerReviewed? && report.cells == [] && report.improved == report.equal == report.regressed == 0
    requires report.uses == report.lruStaged == report.pinStaged == 0
    ensures SumsLayer(report)
  {
  }

  function AddCell(report: LayerReport, cell: Cell): (r: LayerReport)
    requires report.LayerReviewed?
    ensures r.LayerReviewed? && r.layer == report.layer && r.pins == report.pins && r.trainSteps == report.trainSteps && r.trainUses == report.trainUses
    ensures r.cells == report.cells + [cell]
    ensures SumsLayer(report) ==> SumsLayer(r)
  {
    assert (report.cells + [cell])[..|report.cells|] == report.cells;
    report.(
      cells := report.cells + [cell],
      improved := report.improved + (if cell.delta > 0 then 1 else 0),
      regressed := report.regressed + (if cell.delta < 0 then 1 else 0),
      equal := report.equal + (if cell.delta == 0 then 1 else 0),
      uses := report.uses + cell.accesses,
      lruStaged := report.lruStaged + cell.lruStaged,
      pinStaged := report.pinStaged + cell.pinStaged)
  }

  /** The two replays of one holdout, without and with the pins. */
  method ReplayPair(events: seq<RawEvent>, c: Checked, layer: int, holdout: string, k: nat, plan: Plan, pins: seq<int>)
    returns (r: Result<Cell, StudyError>)
    requires CaptureOf(c, events) && layer in c.layers && 1 <= k < |c.phases| && holdout == c.phases[k]
    requires plan.InRange() && plan.TwoSlots() && pins == PinsFor(events, layer, plan)
    ensures r.Success? <==> Fits(events, layer, holdout, pins)
    ensures r.Success? ==> CellAt(r.value, events, layer, holdout, plan)
  {
    hide Acceptable, Describes, Project, Phases, Learn, Sound, R9.Study.Account, PinsFor, Fits, GoodPins, Shadow,
         PinnedBytes, Elems, Routed;
    assert c.phases[1..][k - 1] == holdout;
    LearnedPinsFit(events, c, layer, plan);
    FewerPins(events, layer, holdout, pins);
    GoodPinsIff(pins, c.expertCount);
    NoPinsGood(c.expertCount);
    GoodPinsIff([], c.expertCount);
    var baseline := Bridge(events, c, layer, holdout, plan.size, plan.capacity, plan.reserve, []);
    if baseline.Failure? {
      return Failure(baseline.error);
    }
    var candidate := Bridge(events, c, layer, holdout, plan.size, plan.capacity, plan.reserve, pins);
    if candidate.Failure? {
      return Failure(candidate.error);
    }
    CellIsSound(events, c, layer, holdout, plan);
    var left, right := baseline.value.shadow, candidate.value.shadow;
    assert left.Reviewed? && right.Reviewed? && left.baseline == right.baseline;
    var cell := Cell(holdout, baseline.value.steps, baseline.value.accesses, baseline.value.unique,
                     left.tally.staged, right.tally.staged, left.tally.staged - right.tally.staged,
                     left.tally.hits, right.tally.hits, right.preload, right.tally.peak);
    r := Success(cell);
  }

  lemma NoPinsGood(expertCount: int)
    ensures GoodPins([], expertCount)
  {
    assert Elems<int>([]) == {};
  }

  lemma FewerPins(events: seq<RawEvent>, layer: int, holdout: string, pins: seq<int>)
    ensures Fits(events, layer, holdout, pins) ==> Fits(events, layer, holdout, [])
  {
    var routed := Elems(Routed(events, layer, holdout));
    assert Elems<int>([]) == {};
    SubsetSize(routed, routed + Elems(pins));
  }

  lemma SubsetSize(a: set<int>, b: set<int>)
    requires a <= b
    ensures |a| <= |b|
  {
    assert b == a + (b - a);
  }

  // ------------------------------------------------------------ R12

  datatype Figures = Figures(
    improved: int, equal: int, regressed: int, lruStaged: int, pinStaged: int, preload: int,
    uses: int, lruHits: int, pinHits: int, worst: Option<int>)

  datatype Census =
    | CensusHeld
    | CensusReviewed(rows: seq<LayerReport>, layersLower: int, layersEqual: int, layersHigher: int, figures: Figures)

  /** All cells, layer by layer. */
  ghost function AllCells(rows: seq<LayerReport>): seq<Cell> {
    if rows == [] then []
    else
      var row := rows[|rows| - 1];
      AllCells(rows[..|rows| - 1]) + (if row.LayerReviewed? then row.cells else [])
  }

  ghost function LayerCount(rows: seq<LayerReport>, sign: int -> bool): int {
    if rows == [] then 0
    else
      var row := rows[|rows| - 1];
      LayerCount(rows[..|rows| - 1], sign)
      + (if row.LayerReviewed? && sign(Total(row.cells, Delta)) then 1 else 0)
  }

  function Lower(delta: int): bool { delta > 0 }
  function Equal(delta: int): bool { delta == 0 }
  function Higher(delta: int): bool { delta < 0 }

  /** Every census figure is the corresponding sum over all layer and holdout cells. */
  ghost predicate Sums(census: Census) {
    && census.CensusReviewed?
    && SumsCells(census.figures, AllCells(census.rows))
    && census.layersLower == LayerCount(census.rows, Lower)
    && census.layersEqual == LayerCount(census.rows, Equal)
    && census.layersHigher == LayerCount(census.rows, Higher)
  }

  /** The bytes a layer's holdouts save, added up. */
  ghost function LayerDelta(row: LayerReport): int {
    if row.LayerReviewed? then Total(row.cells, LruStaged) - Total(row.cells, PinStaged) else 0
  }

  /** Each layer is lower, equal or higher by the bytes its holdouts save together. */
  ghost predicate LayersPartition(census: Census) {
    && census.CensusReviewed?
    && census.layersLower + census.layersEqual + census.layersHigher == |census.rows|
    && (census.layersLower == |census.rows| <==> forall i :: 0 <= i < |census.rows| ==> LayerDelta(census.rows[i]) > 0)
    && (census.layersEqual == |census.rows| <==> forall i :: 0 <= i < |census.rows| ==> LayerDelta(census.rows[i]) == 0)
    && (census.layersHigher == |census.rows| <==> forall i :: 0 <= i < |census.rows| ==> LayerDelta(census.rows[i]) < 0)
  }

  ghost predicate SumsCells(f: Figures, cells: seq<Cell>) {
    && f.improved == Total(cells, Improved) && f.equal == Total(cells, Unchanged)
    && f.regressed == Total(cells, Regressed)
    && f.lruStaged == Total(cells, LruStaged) && f.pinStaged == Total(cells, PinStaged)
    && f.preload == Total(cells, Preload) && f.uses == Total(cells, Uses)
    && f.lruHits == Total(cells, LruHits) && f.pinHits == Total(cells, PinHits)
    && IsWorst(f.worst, cells)
  }

  /** Improved, unchanged and regressed partition the cells; the byte change is the extra hits less the pins. */
  ghost predicate Balanced(f: Figures, cells: int, plan: Plan) {
    && f.improved + f.equal + f.regressed == cells
    && plan.size >= 0 && f.lruHits >= 0 && f.pinHits >= 0
    && f.lruStaged - f.pinStaged + f.preload + Times(f.lruHits, plan.size) == Times(f.pinHits, plan.size)
    && f.lruStaged >= cells
  }

  ghost predicate RowsUpTo(rows: seq<LayerReport>, events: seq<RawEvent>, c: Checked, plan: Plan, n: int)
    requires plan.InRange() && c.phases != []
  {
    && |rows| == n <= |c.layers|
    && forall i :: 0 <= i < |rows| ==> Reports(rows[i], events, c, c.layers[i], plan)
  }

  /** What `census` demands of its inputs, and the caps each cell must meet once it is not held. */
  ghost predicate CensusAccepts(events: seq<RawEvent>, c: Checked, plan: Plan) {
    && plan.InRange() && |c.phases| >= 3
    && |c.layers| <= MAX_CENSUS_LAYERS && Times(|c.layers|, |c.phases| - 1) <= MAX_CENSUS_CELLS
    && (plan.capacity - plan.reserve >= 2 * plan.size ==>
          forall i :: 0 <= i < |c.layers| ==> LayerFits(events, c, c.layers[i], plan))
  }

  /**
   `census`: fails exactly when its inputs are refused. The re-checks of every
   cell's ranges and arithmetic and of the totals are assertions, and each
   figure is the sum over all layer and holdout cells.
   */
  method TakeCensus(events: seq<RawEvent>, expertCount: int, plan: Plan) returns (r: Result<Census, StudyError>)
    ensures r.Success? <==> exists c :: SharedReview.CaptureOf(c, events, expertCount) && CensusAccepts(events, c, plan)
    ensures r.Success? ==> exists c ::
      && SharedReview.CaptureOf(c, events, expertCount) && CensusAccepts(events, c, plan) && c.phases != []
      && (if plan.capacity - plan.reserve < 2 * plan.size then r.value == CensusHeld
          else
            && Sums(r.value) && LayersPartition(r.value) && RowsUpTo(r.value.rows, events, c, plan, |c.layers|)
            && |AllCells(r.value.rows)| == Times(|c.layers|, |c.phases| - 1)
            && Balanced(r.value.figures, Times(|c.layers|, |c.phases| - 1), plan))
  {
    hide Acceptable, Describes, Reports, Sums, LayersPartition, LayerFits;
    var checked := Validate(events, expertCount);
    if checked.Failure? {
      return Failure(BadCapture);
    }
    var c := checked.value;
    assert SharedReview.CaptureOf(c, events, expertCount);
    forall d | SharedReview.CaptureOf(d, events, expertCount)
      ensures CensusAccepts(events, d, plan) <==> CensusAccepts(events, c, plan)
    {
      SameAcceptance(events, c, d, plan);
    }
    if !plan.InRange() {
      return Failure(BadArguments);
    }
    if |c.phases| < 3 {
      return Failure(TooFewHoldouts);
    }
    TimesIsProduct(|c.layers|, |c.phases| - 1);
    if |c.layers| > MAX_CENSUS_LAYERS || |c.layers| * (|c.phases| - 1) > MAX_CENSUS_CELLS {
      return Failure(CensusBounds);
    }
    if !plan.TwoSlots() {
      return Success(CensusHeld);
    }
    r := CountLayers(events, c, plan);
  }

  lemma SameAcceptance(events: seq<RawEvent>, c: Checked, d: Checked, plan: Plan)
    requires CaptureOf(c, events) && CaptureOf(d, events)
    ensures CensusAccepts(events, d, plan) <==> CensusAccepts(events, c, plan)
  {
    hide Acceptable, Describes, Fits, PinsFor;
    SharedReview.DescriptionUnique(events, c, d);
  }

  /** The loop over the layers. */
  method CountLayers(events: seq<RawEvent>, c: Checked, plan: Plan) returns (r: Result<Census, StudyError>)
    requires CaptureOf(c, events) && |c.phases| >= 3 && plan.InRange() && plan.TwoSlots()
    ensures r.Success? <==> forall i :: 0 <= i < |c.layers| ==> LayerFits(events, c, c.layers[i], plan)
    ensures r.Success? ==> Sums(r.value) && LayersPartition(r.value) && RowsUpTo(r.value.rows, events, c, plan, |c.layers|)
    ensures r.Success? ==> |AllCells(r.value.rows)| == Times(|c.layers|, |c.phases| - 1)
    ensures r.Success? ==> Balanced(r.value.figures, Times(|c.layers|, |c.phases| - 1), plan)
  {
    hide Acceptable, Describes, Reports, LayerFits, Sums, LayersPartition;
    var census := EmptyCensus();
    EmptySums();
    var i := 0;
    while i < |c.layers|
      invariant i <= |c.layers|
      invariant Sums(census) && census.CensusReviewed? && RowsUpTo(census.rows, events, c, plan, i)
      invariant forall j :: 0 <= j < i ==> LayerFits(events, c, c.layers[j], plan)
    {
      assert c.layers[i] in c.layers;
      var report := EvaluateLayer(events, c, c.layers[i], plan);
      if report.Failure? {
        return Failure(report.error);
      }
      ReportIsSound(report.value, events, c, c.layers[i], plan);
      census := AddLayer(census, report.value, plan);
      i := i + 1;
    }
    RowsAreSound(census.rows, events, c, plan, |c.layers|);
    LayersAddUp(census, events, c, plan);
    CensusTotals(census, plan);
    TrainIsPhase(events, c);
    TimesGrows(1, |c.layers|, |c.phases| - 1);
    assert census.figures.lruStaged > 0;
    r := Success(census);
  }

  function EmptyCensus(): Census {
    CensusReviewed([], 0, 0, 0, Figures(0, 0, 0, 0, 0, 0, 0, 0, 0, None))
  }

  lemma EmptySums()
    ensures Sums(EmptyCensus())
  {
  }

  lemma CensusTotals(census: Census, plan: Plan)
    requires Sums(census) && plan.size >= 0
    requires forall k :: 0 <= k < |AllCells(census.rows)| ==> Sound(AllCells(census.rows)[k], plan)
    ensures Balanced(census.figures, |AllCells(census.rows)|, plan)
  {
    hide Sound, AllCells, Total, IsWorst;
    TotalsPartition(AllCells(census.rows), plan);
  }

  lemma ReportIsSound(report: LayerReport, events: seq<RawEvent>, c: Checked, layer: int, plan: Plan)
    requires plan.InRange() && plan.TwoSlots() && c.phases != [] && Reports(report, events, c, layer, plan)
    ensures report.LayerReviewed? && |report.cells| == |c.phases| - 1
    ensures forall k :: 0 <= k < |report.cells| ==> Sound(report.cells[k], plan)
  {
    hide Sound, CellOf;
  }

  lemma LayersAddUp(census: Census, events: seq<RawEvent>, c: Checked, plan: Plan)
    requires plan.InRange() && plan.TwoSlots() && c.phases != [] && Sums(census)
    requires RowsUpTo(census.rows, events, c, plan, |c.layers|)
    ensures LayersPartition(census)
  {
    hide SumsCells, Reports, LayerCount, LayerDelta, AllCells;
    forall i | 0 <= i < |census.rows|
      ensures census.rows[i].LayerReviewed? && LayerDelta(census.rows[i]) == Total(census.rows[i].cells, Delta)
    {
      ReportIsSound(census.rows[i], events, c, c.layers[i], plan);
      DeltaIsSaving(census.rows[i], plan);
    }
    CountsAddUp(census.rows);
  }

  lemma DeltaIsSaving(row: LayerReport, plan: Plan)
    requires row.LayerReviewed? && plan.size >= 0 && forall k :: 0 <= k < |row.cells| ==> Sound(row.cells[k], plan)
    ensures LayerDelta(row) == Total(row.cells, Delta)
  {
    hide Sound, Total;
    TotalsPartition(row.cells, plan);
  }

  lemma {:induction false} CountsAddUp(rows: seq<LayerReport>)
    requires forall i :: 0 <= i < |rows| ==> rows[i].LayerReviewed? && LayerDelta(rows[i]) == Total(rows[i].cells, Delta)
    ensures var lower, equal, higher := LayerCount(rows, Lower), LayerCount(rows, Equal), LayerCount(rows, Higher);
      && lower >= 0 && equal >= 0 && higher >= 0 && lower + equal + higher == |rows|
      && (lower == |rows| <==> forall i :: 0 <= i < |rows| ==> LayerDelta(rows[i]) > 0)
      && (equal == |rows| <==> forall i :: 0 <= i < |rows| ==> LayerDelta(rows[i]) == 0)
      && (higher == |rows| <==> forall i :: 0 <= i < |rows| ==> LayerDelta(rows[i]) < 0)
  {
    hide LayerDelta, Total;
    if rows != [] {
      var n := |rows| - 1;
      CountsAddUp(rows[..n]);
      assert forall i :: 0 <= i < n ==> rows[..n][i] == rows[i];
    }
  }

  /** Layers times holdouts cells, each of them sound. */
  lemma {:induction false} RowsAreSound(rows: seq<LayerReport>, events: seq<RawEvent>, c: Checked, plan: Plan, n: int)
    requires plan.InRange() && plan.TwoSlots() && c.phases != [] && RowsUpTo(rows, events, c, plan, n)
    ensures |AllCells(rows)| == Times(n, |c.phases| - 1)
    ensures forall k :: 0 <= k < |AllCells(rows)| ==> Sound(AllCells(rows)[k], plan)
  {
    hide Sound, Reports;
    if n > 0 {
      RowsAreSound(rows[..n - 1], events, c, plan, n - 1);
      ReportIsSound(rows[n - 1], events, c, c.layers[n - 1], plan);
    }
  }

  /** The loop over one layer's cells, each re-checked before it is counted. */
  method AddLayer(census0: Census, report: LayerReport, ghost plan: Plan) returns (census: Census)
    requires Sums(census0) && census0.CensusReviewed? && report.LayerReviewed?
    requires forall k :: 0 <= k < |report.cells| ==> Sound(report.cells[k], plan)
    ensures Sums(census) && census.CensusReviewed? && census.rows == census0.rows + [report]
  {
    hide Sound, AllCells, LayerCount, Total, SumsCells;
    ghost var before := AllCells(census0.rows);
    var figures := census0.figures;
    var perLayer := 0;
    var k := 0;
    assert before + report.cells[..0] == before;
    TotalsEmpty(report.cells);
    while k < |report.cells|
      invariant k <= |report.cells|
      invariant perLayer == Total(report.cells[..k], Delta)
      invariant SumsCells(figures, before + report.cells[..k])
    {
      var cell := report.cells[k];
      CellChecks(cell, plan);
      assert Rechecked(cell, plan);
      assert (before + report.cells[..k]) + [cell] == before + report.cells[..k + 1];
      assert report.cells[..k] + [cell] == report.cells[..k + 1];
      TotalSnoc(report.cells[..k], cell, Delta);
      perLayer := perLayer + cell.delta;
      FiguresSnoc(figures, before + report.cells[..k], cell);
      figures := AddToFigures(figures, cell);
      k := k + 1;
    }
    assert report.cells[..k] == report.cells;
    AppendRow(census0.rows, report, Lower);
    AppendRow(census0.rows, report, Equal);
    AppendRow(census0.rows, report, Higher);
    census := CensusReviewed(
      census0.rows + [report],
      census0.layersLower + (if perLayer > 0 then 1 else 0),
      census0.layersEqual + (if perLayer == 0 then 1 else 0),
      census0.layersHigher + (if perLayer < 0 then 1 else 0),
      figures);
  }

  lemma TotalsEmpty(cells: seq<Cell>)
    ensures Total(cells[..0], Delta) == 0
  {
  }

  lemma TotalSnoc(cells: seq<Cell>, cell: Cell, f: Cell -> int)
    ensures Total(cells + [cell], f) == Total(cells, f) + f(cell)
  {
    assert (cells + [cell])[..|cells|] == cells;
  }

  /** The checks `census` repeats on each row it receives. */
  predicate Rechecked(cell: Cell, plan: Plan) {
    && 1 <= cell.lruStaged <= STAGED_LIMIT && 1 <= cell.pinStaged <= STAGED_LIMIT
    && -STAGED_LIMIT <= cell.delta <= STAGED_LIMIT && cell.delta == cell.lruStaged - cell.pinStaged
    && 1 <= cell.accesses <= MAX_ACCESSES
    && 0 <= cell.lruHits <= cell.accesses && 0 <= cell.pinHits <= cell.accesses
    && 0 <= cell.preload <= 16 * plan.size && 0 <= cell.peak <= plan.Effective()
  }

  lemma CellChecks(cell: Cell, plan: Plan)
    requires Sound(cell, plan)
    ensures Rechecked(cell, plan)
  {
  }

  lemma AppendRow(rows: seq<LayerReport>, report: LayerReport, sign: int -> bool)
    requires report.LayerReviewed?
    ensures AllCells(rows + [report]) == AllCells(rows) + report.cells
    ensures LayerCount(rows + [report], sign)
      == LayerCount(rows, sign) + (if sign(Total(report.cells, Delta)) then 1 else 0)
  {
    assert (rows + [report])[..|rows|] == rows;
  }

  function AddToFigures(f: Figures, cell: Cell): Figures {
    Figures(
      f.improved + (if cell.delta > 0 then 1 else 0),
      f.equal + (if cell.delta == 0 then 1 else 0),
      f.regressed + (if cell.delta < 0 then 1 else 0),
      f.lruStaged + cell.lruStaged,
      f.pinStaged + cell.pinStaged,
      f.preload + cell.preload,
      f.uses + cell.accesses,
      f.lruHits + cell.lruHits,
      f.pinHits + cell.pinHits,
      Some(if f.worst.Some? && f.worst.value < cell.delta then f.worst.value else cell.delta))
  }

  lemma FiguresSnoc(f: Figures, cells: seq<Cell>, cell: Cell)
    requires SumsCells(f, cells)
    ensures SumsCells(AddToFigures(f, cell), cells + [cell])
  {
    hide Total, IsWorst;
    forall g: Cell -> int
      ensures Total(cells + [cell], g) == Total(cells, g) + g(cell)
    {
      TotalSnoc(cells, cell, g);
    }
    WorstSnoc(f.worst, cells, cell);
  }
}
