/**
 The R13 study of `phios/elastic_shared_r13.py`: validate a capture, reserve
 headroom for the largest possible group, pin from training data, and replay
 every holdout with and without the pins.
 */
module SharedReview {
  import opened Wrappers
  import opened Sequences
  import opened RouterCapture
  import opened PinRanking
  import Headroom
  import SharedCache
  import CacheLaws

  const MAX_LAYERS := 32
  const MAX_TOTAL_ACCESSES := 16384
  const MAX_ACCESS_PER_HOLDOUT := 8192
  const MAX_PINS := 32
  const MAX_CAPACITY_BYTES := 64 * 1024 * 1024 * 1024

  datatype Row = Row(holdout: string, uses: int, baseline: SharedCache.Tally, candidate: SharedCache.Tally, delta: int)

  datatype Summary = Summary(
    lower: int, equal: int, higher: int, worst: Option<int>,
    totalBaseline: int, totalCandidate: int, totalPreload: int, totalUses: int)

  datatype Review = Held(largestAtomic: int) | Reviewed(pins: seq<Resource>, rows: seq<Row>, summary: Summary)

  datatype ReviewError = BadCapture(capture: CaptureError) | TooFewHoldouts | BadBudget | AccessLimit

  datatype Budget = Budget(capacity: int, reserve: int, maxPins: int) {
    predicate Valid() {
      1 <= capacity <= MAX_CAPACITY_BYTES && 0 <= reserve <= capacity && 0 <= maxPins <= MAX_PINS
    }

    function Effective(): int {
      capacity - reserve
    }
  }

  // --------------------------------------------------------------- headroom

  function LayerVector(size: Resource -> nat, layer: int, expertCount: nat): seq<nat> {
    seq(expertCount, e => size(Resource(layer, e)))
  }

  /** The largest eight-expert total any layer can demand. */
  function LargestAtomic(size: Resource -> nat, layers: seq<int>, expertCount: nat): nat {
    if layers == [] then 0
    else
      var top := Headroom.TopSum(LayerVector(size, layers[0], expertCount), 8);
      var rest := LargestAtomic(size, layers[1..], expertCount);
      if top < rest then rest else top
  }

  lemma LargestBoundsLayer(size: Resource -> nat, layers: seq<int>, expertCount: nat, layer: int)
    requires layer in layers
    ensures Headroom.TopSum(LayerVector(size, layer, expertCount), 8) <= LargestAtomic(size, layers, expertCount)
  {
  }

  lemma ElemsAtMostLength(s: seq<int>)
    ensures |Elems(s)| <= |s|
  {
    if s == [] {
      assert Elems(s) == {};
    } else {
      ElemsAtMostLength(s[1..]);
      assert Elems(s) == Elems(s[1..]) + {s[0]};
    }
  }

  /** A group of distinct experts weighs what picking its entries from the layer's vector sums to. */
  lemma {:induction false} GroupIsChosen(size: Resource -> nat, layer: int, expertCount: nat, experts: seq<int>)
    requires NoDup(experts) && forall x :: x in experts ==> 0 <= x < expertCount
    ensures Weight(Group(layer, experts), size)
         == Headroom.Chosen(LayerVector(size, layer, expertCount), expertCount, Elems(experts))
  {
    var v := LayerVector(size, layer, expertCount);
    if experts == [] {
      NothingChosen(v, expertCount);
      assert Elems(experts) == {};
    } else {
      NoDupCons(experts[0], experts[1..]);
      assert experts == [experts[0]] + experts[1..];
      assert experts[0] in experts && forall x :: x in experts[1..] ==> x in experts;
      assert Group(layer, experts)[1..] == Group(layer, experts[1..]);
      GroupIsChosen(size, layer, expertCount, experts[1..]);
      Headroom.ChosenWithout(v, expertCount, Elems(experts), experts[0]);
      assert Elems(experts) - {experts[0]} == Elems(experts[1..]);
    }
  }

  lemma NothingChosen(v: seq<nat>, n: nat)
    requires n <= |v|
    ensures Headroom.Chosen(v, n, {}) == 0
  {
  }

  lemma DistinctWeight<T>(s: seq<T>, size: T -> nat)
    ensures Weight(Distinct(s), size) <= Weight(s, size)
  {
    if s != [] {
      var n := |s| - 1;
      DistinctWeight(s[..n], size);
      assert s == s[..n] + [s[n]];
      WeightConcat(s[..n], [s[n]], size);
      WeightConcat(Distinct(s[..n]), [s[n]], size);
    }
  }

  /** Headroom suffices: pins kept below it leave room for every group a valid capture can demand. */
  lemma HeadroomSuffices(events: seq<RawEvent>, c: Checked, split: string, size: Resource -> nat,
                         pins: seq<Resource>, effective: int)
    requires Acceptable(events, c.expertCount) && Describes(c, events) && split in c.phases
    requires Weight(pins, size) <= effective - LargestAtomic(size, c.layers, c.expertCount)
    ensures SharedCache.Cache(pins, size, effective).AllFit(Groups(OfSplit(events, split)))
  {
    hide Distinct, Project, OfSplit, Phases, Headroom.TopSum;
    var groups := Groups(OfSplit(events, split));
    forall group | group in groups
      ensures SharedCache.Cache(pins, size, effective).GroupFits(group)
    {
      var k :| 0 <= k < |groups| && groups[k] == group;
      GroupShape(events, c, split, k);
      var e := OfSplit(events, split)[k];
      GroupBounded(size, c, e);
      WeightConcat(pins, group, size);
      DistinctWeight(pins + group, size);
    }
  }

  lemma GroupBounded(size: Resource -> nat, c: Checked, e: RawEvent)
    requires GoodFields(e, c.expertCount) && e.layer in c.layers && c.expertCount >= 0
    ensures Weight(Group(e.layer, e.experts), size) <= LargestAtomic(size, c.layers, c.expertCount)
  {
    RoutableBounded(size, c.layers, c.expertCount, e.layer, e.experts);
  }

  /** A group some capture over these layers could route: at most eight distinct experts of one layer. */
  ghost predicate Routable(layers: seq<int>, expertCount: int, layer: int, experts: seq<int>) {
    layer in layers && NoDup(experts) && |experts| <= 8 && forall x :: x in experts ==> 0 <= x < expertCount
  }

  /** The weight of the heaviest such group. */
  ghost predicate Heaviest(size: Resource -> nat, layers: seq<int>, expertCount: int, n: int) {
    && (exists layer, experts :: Routable(layers, expertCount, layer, experts) && Weight(Group(layer, experts), size) == n)
    && (forall layer, experts :: Routable(layers, expertCount, layer, experts) ==> Weight(Group(layer, experts), size) <= n)
  }

  lemma RoutableBounded(size: Resource -> nat, layers: seq<int>, expertCount: nat, layer: int, experts: seq<int>)
    requires Routable(layers, expertCount, layer, experts)
    ensures Weight(Group(layer, experts), size) <= LargestAtomic(size, layers, expertCount)
  {
    var v := LayerVector(size, layer, expertCount);
    GroupIsChosen(size, layer, expertCount, experts);
    ElemsAtMostLength(experts);
    Headroom.TopMajorises(v, |v|, Elems(experts), 8);
    assert v[..|v|] == v;
    LargestBoundsLayer(size, layers, expertCount, layer);
  }

  lemma {:induction false} LargestIsSomeLayer(size: Resource -> nat, layers: seq<int>, expertCount: nat) returns (layer: int)
    requires layers != []
    ensures layer in layers
    ensures LargestAtomic(size, layers, expertCount) == Headroom.TopSum(LayerVector(size, layer, expertCount), 8)
  {
    hide Headroom.TopSum;
    layer := layers[0];
    if |layers| > 1 {
      var other := LargestIsSomeLayer(size, layers[1..], expertCount);
      if LargestAtomic(size, layers, expertCount) == LargestAtomic(size, layers[1..], expertCount) {
        layer := other;
      }
    }
  }

  lemma {:induction false} GroupSum(size: Resource -> nat, layer: int, expertCount: nat, experts: seq<int>, s: seq<nat>)
    requires |s| == |experts| && forall i :: 0 <= i < |s| ==> s[i] == size(Resource(layer, experts[i]))
    ensures Weight(Group(layer, experts), size) == Headroom.Sum(s)
  {
    if s != [] {
      GroupSum(size, layer, expertCount, experts[1..], s[1..]);
      assert Group(layer, experts)[1..] == Group(layer, experts[1..]);
    }
  }

  /** The reserve is exactly the weight of the heaviest group: none weighs more and one weighs as much. */
  lemma LargestIsHeaviest(size: Resource -> nat, layers: seq<int>, expertCount: nat)
    requires layers != []
    ensures Heaviest(size, layers, expertCount, LargestAtomic(size, layers, expertCount))
  {
    hide Headroom.TopSum, LargestAtomic;
    var layer := LargestIsSomeLayer(size, layers, expertCount);
    var v := LayerVector(size, layer, expertCount);
    var picks := Headroom.TopAttained(v, 8);
    var experts: seq<int> := picks;
    GroupSum(size, layer, expertCount, experts, Headroom.Prefix(Headroom.SortDesc(v), 8));
    assert Routable(layers, expertCount, layer, experts);
    forall l, e | Routable(layers, expertCount, l, e)
      ensures Weight(Group(l, e), size) <= LargestAtomic(size, layers, expertCount)
    {
      RoutableBounded(size, layers, expertCount, l, e);
    }
  }

  // ------------------------------------------------------------ the review

  function Uses(events: seq<RawEvent>, split: string): nat {
    CacheLaws.Accesses(Groups(OfSplit(events, split)))
  }

  function TotalUses(events: seq<RawEvent>, splits: seq<string>): nat {
    if splits == [] then 0
    else TotalUses(events, splits[..|splits| - 1]) + Uses(events, splits[|splits| - 1])
  }

  /** Everything `evaluate` demands of its inputs before it replays anything. */
  ghost predicate Reviewable(events: seq<RawEvent>, c: Checked, budget: Budget) {
    && 0 < |c.layers| <= MAX_LAYERS && |c.phases| >= 3
    && 1 <= budget.capacity <= 64 * 1024 * 1024 * 1024 && 0 <= budget.reserve <= budget.capacity
    && 0 <= budget.maxPins <= 32
    && (forall name :: name in c.phases ==> Canonical(events, name, c.layers))
    && (forall k :: 1 <= k < |c.phases| ==> Uses(events, c.phases[k]) <= MAX_ACCESS_PER_HOLDOUT)
    && TotalUses(events, c.phases[1..]) <= MAX_TOTAL_ACCESSES
  }

  /** One holdout, replayed twice through the reference cache. */
  ghost predicate RowFor(row: Row, events: seq<RawEvent>, holdout: string, size: Resource -> nat,
                         effective: int, pins: seq<Resource>)
  {
    var trace := Groups(OfSplit(events, holdout));
    && row.holdout == holdout
    && row.baseline == SharedCache.Cache([], size, effective).Replay(trace).tally
    && row.candidate == SharedCache.Cache(pins, size, effective).Replay(trace).tally
    && row.delta == row.baseline.staged - row.candidate.staged
    && row.uses == row.baseline.uses == row.candidate.uses == Uses(events, holdout)
    && row.baseline.staged > 0
    && row.candidate.preload == Weight(pins, size)
  }

  /** The summary, recomputed from the rows. */
  function Summarise(rows: seq<Row>): Summary {
    if rows == [] then Summary(0, 0, 0, None, 0, 0, 0, 0)
    else
      var s := Summarise(rows[..|rows| - 1]);
      var row := rows[|rows| - 1];
      Summary(
        s.lower + (if row.delta > 0 then 1 else 0),
        s.equal + (if row.delta == 0 then 1 else 0),
        s.higher + (if row.delta < 0 then 1 else 0),
        Some(if s.worst.Some? && s.worst.value < row.delta then s.worst.value else row.delta),
        s.totalBaseline + row.baseline.staged,
        s.totalCandidate + row.candidate.staged,
        s.totalPreload + row.candidate.preload,
        s.totalUses + row.uses)
  }

  /** `worst` is the delta of some row and no row's delta is below it. */
  predicate IsWorst(rows: seq<Row>, worst: int) {
    (exists row :: row in rows && row.delta == worst) && (forall row :: row in rows ==> worst <= row.delta)
  }

  predicate AllLower(rows: seq<Row>) {
    forall row :: row in rows ==> row.delta > 0
  }

  lemma WorstStep(rows: seq<Row>, row: Row, worst: Option<int>)
    requires rows == [] || (worst.Some? && IsWorst(rows, worst.value))
    requires rows == [] ==> worst == None
    ensures IsWorst(rows + [row], if worst.Some? && worst.value < row.delta then worst.value else row.delta)
  {
    assert row in rows + [row];
    if worst.Some? && worst.value < row.delta {
      var w :| w in rows && w.delta == worst.value;
      assert w in rows + [row];
    }
  }

  lemma AllLowerStep(rows: seq<Row>, row: Row)
    ensures AllLower(rows + [row]) <==> AllLower(rows) && row.delta > 0
  {
    assert row in rows + [row];
    assert forall x :: x in rows ==> x in rows + [row];
  }

  /** The three counts partition the holdouts; the worst delta is a row's delta and bounds them all. */
  lemma {:induction false} SummaryPartition(rows: seq<Row>)
    ensures var s := Summarise(rows);
      && s.lower + s.equal + s.higher == |rows|
      && 0 <= s.lower && 0 <= s.equal && 0 <= s.higher
      && (s.lower == |rows| <==> AllLower(rows))
      && (rows == [] ==> s.worst == None) && (rows != [] ==> s.worst.Some? && IsWorst(rows, s.worst.value))
  {
    if rows != [] {
      hide IsWorst, AllLower;
      var n := |rows| - 1;
      SummaryPartition(rows[..n]);
      WorstStep(rows[..n], rows[n], Summarise(rows[..n]).worst);
      AllLowerStep(rows[..n], rows[n]);
      assert rows == rows[..n] + [rows[n]];
    }
  }

  function SumOf(rows: seq<Row>, f: Row -> int): int {
    if rows == [] then 0 else f(rows[0]) + SumOf(rows[1..], f)
  }

  function Fewer(row: Row): int { if row.candidate.staged < row.baseline.staged then 1 else 0 }
  function AsMany(row: Row): int { if row.candidate.staged == row.baseline.staged then 1 else 0 }
  function More(row: Row): int { if row.candidate.staged > row.baseline.staged then 1 else 0 }
  function BaselineBytes(row: Row): int { row.baseline.staged }
  function CandidateBytes(row: Row): int { row.candidate.staged }
  function PreloadBytes(row: Row): int { row.candidate.preload }
  function Accesses(row: Row): int { row.baseline.uses }

  /** What the summary's figures count and add up, row by row. */
  ghost predicate SummarySays(s: Summary, rows: seq<Row>) {
    && s.lower == SumOf(rows, Fewer) && s.equal == SumOf(rows, AsMany) && s.higher == SumOf(rows, More)
    && s.totalBaseline == SumOf(rows, BaselineBytes) && s.totalCandidate == SumOf(rows, CandidateBytes)
    && s.totalPreload == SumOf(rows, PreloadBytes) && s.totalUses == SumOf(rows, Accesses)
    && (s.worst.None? <==> rows == [])
    && (s.worst.Some? ==> exists k :: 0 <= k < |rows| && WorstAt(s.worst.value, rows, k))
  }

  /** Row `k` saves least, and `worst` is what it saves. */
  ghost predicate WorstAt(worst: int, rows: seq<Row>, k: nat)
    requires k < |rows|
  {
    && worst == rows[k].baseline.staged - rows[k].candidate.staged
    && forall j :: 0 <= j < |rows| ==> worst <= rows[j].baseline.staged - rows[j].candidate.staged
  }

  lemma {:induction false} SumOfSnoc(rows: seq<Row>, row: Row, f: Row -> int)
    ensures SumOf(rows + [row], f) == SumOf(rows, f) + f(row)
  {
    if rows == [] {
      assert rows + [row] == [row];
    } else {
      assert (rows + [row])[1..] == rows[1..] + [row];
      SumOfSnoc(rows[1..], row, f);
    }
  }

  lemma WorstSnoc(rows: seq<Row>, row: Row, worst: Option<int>)
    requires (worst.None? <==> rows == [])
    requires worst.Some? ==> exists k :: 0 <= k < |rows| && WorstAt(worst.value, rows, k)
    requires row.delta == row.baseline.staged - row.candidate.staged
    ensures var least := if worst.Some? && worst.value < row.delta then worst.value else row.delta;
      exists k :: 0 <= k < |rows + [row]| && WorstAt(least, rows + [row], k)
  {
    var longer := rows + [row];
    if worst.Some? && worst.value < row.delta {
      var k :| 0 <= k < |rows| && WorstAt(worst.value, rows, k);
      assert WorstAt(worst.value, longer, k);
    } else {
      assert WorstAt(row.delta, longer, |rows|);
    }
  }

  lemma {:induction false} SummaryMeans(rows: seq<Row>)
    requires forall row :: row in rows ==> row.delta == row.baseline.staged - row.candidate.staged
    requires forall row :: row in rows ==> row.uses == row.baseline.uses
    ensures SummarySays(Summarise(rows), rows)
  {
    if rows != [] {
      hide SumOf, WorstAt;
      var n := |rows| - 1;
      var row := rows[n];
      assert row in rows && forall x :: x in rows[..n] ==> x in rows;
      SummaryMeans(rows[..n]);
      SummaryStep(rows[..n], row);
      assert rows == rows[..n] + [row];
    }
  }

  lemma SummaryStep(rows: seq<Row>, row: Row)
    requires SummarySays(Summarise(rows), rows)
    requires row.delta == row.baseline.staged - row.candidate.staged && row.uses == row.baseline.uses
    ensures SummarySays(Summarise(rows + [row]), rows + [row])
  {
    hide SumOf, WorstAt;
    assert (rows + [row])[..|rows|] == rows;
    SumOfSnoc(rows, row, Fewer);
    SumOfSnoc(rows, row, AsMany);
    SumOfSnoc(rows, row, More);
    SumOfSnoc(rows, row, BaselineBytes);
    SumOfSnoc(rows, row, CandidateBytes);
    SumOfSnoc(rows, row, PreloadBytes);
    SumOfSnoc(rows, row, Accesses);
    WorstSnoc(rows, row, Summarise(rows).worst);
  }

  /**
   What a caller may rely on: `largest` is the weight of the heaviest group any
   layer can route and `ranks` the training ranking by uses per byte. Too little
   room for that group holds the review; otherwise the pins are the greedy
   choice from what is left, and every holdout has its row.
   */
  ghost predicate Certified(review: Review, events: seq<RawEvent>, c: Checked, size: Resource -> nat, budget: Budget,
                            largest: int, ranks: seq<Resource>)
    requires c.phases != [] && forall r :: size(r) > 0
  {
    && Heaviest(size, c.layers, c.expertCount, largest)
    && ByRate(ranks, Concat(Groups(OfSplit(events, "train"))), size)
    && if largest > budget.capacity - budget.reserve then review == Held(largest)
       else
         && review.Reviewed? && budget.maxPins >= 0
         && review.pins == Inside(ranks, review.pins)
         && GreedyFor(review.pins, ranks, size, budget.capacity - budget.reserve - largest, budget.maxPins)
         && |review.pins| <= budget.maxPins && Weight(review.pins, size) <= budget.capacity - budget.reserve - largest
         && |review.rows| == |c.phases| - 1
         && (forall k :: 0 <= k < |review.rows| ==>
               RowFor(review.rows[k], events, c.phases[k + 1], size, budget.capacity - budget.reserve, review.pins))
         && review.summary == Summarise(review.rows) && SummarySays(review.summary, review.rows)
         && review.summary.totalUses == TotalUses(events, c.phases[1..])
  }

  /** A review is held exactly when some group a layer can route overflows the effective capacity. */
  lemma HeldIff(review: Review, events: seq<RawEvent>, c: Checked, size: Resource -> nat, budget: Budget, largest: int,
                ranks: seq<Resource>)
    requires c.phases != [] && (forall r :: size(r) > 0)
    requires Certified(review, events, c, size, budget, largest, ranks)
    ensures review.Held? <==> exists layer, experts ::
      Routable(c.layers, c.expertCount, layer, experts) && Weight(Group(layer, experts), size) > budget.capacity - budget.reserve
  {
    hide GreedyFor, RowFor, ByRate, Weight, Group, OfSplit, Groups, Concat, TotalUses, Summarise, SummarySays;
    var layer, experts :| Routable(c.layers, c.expertCount, layer, experts) && Weight(Group(layer, experts), size) == largest;
  }

  ghost predicate CaptureOf(c: Checked, events: seq<RawEvent>, expertCount: int) {
    Acceptable(events, expertCount) && Describes(c, events) && c.expertCount == expertCount
  }

  /** A capture has one description as far as a review can see. */
  lemma DescriptionUnique(events: seq<RawEvent>, c: Checked, d: Checked)
    requires Describes(c, events) && Describes(d, events)
    ensures c.layers == d.layers && c.phases == d.phases
  {
    AscendingUnique(c.layers, d.layers);
  }

  lemma {:induction false} AscendingUnique(a: seq<int>, b: seq<int>)
    requires Ascending(a) && Ascending(b)
    requires forall y :: y in a ==> y in b
    requires forall y :: y in b ==> y in a
    ensures a == b
  {
    if a != [] {
      assert a[0] in a;
    }
    if b != [] {
      assert b[0] in b;
    }
    if a != [] && b != [] {
      AscendingHead(a);
      AscendingHead(b);
      assert a[0] == b[0];
      AscendingUnique(a[1..], b[1..]);
    }
  }

  lemma AscendingHead(a: seq<int>)
    requires Ascending(a) && a != []
    ensures Ascending(a[1..])
    ensures forall y :: y in a ==> y == a[0] || y in a[1..]
    ensures forall y :: y in a[1..] ==> y in a && a[0] < y
  {
    assert a == [a[0]] + a[1..];
  }

  lemma LargestNeedsAllLayers(size: Resource -> nat, events: seq<RawEvent>, c: Checked, holdout: string, pins: seq<Resource>, effective: int)
    requires Acceptable(events, c.expertCount) && Describes(c, events) && holdout in c.phases
    requires NoDup(pins) && (forall r :: size(r) > 0)
    requires Weight(pins, size) <= effective - LargestAtomic(size, c.layers, c.expertCount)
    ensures var trace := Groups(OfSplit(events, holdout));
            var cache := SharedCache.Cache(pins, size, effective);
      && cache.Outcome(trace) == Success(cache.Replay(trace).tally)
      && cache.Replay(trace).tally.uses == Uses(events, holdout)
      && cache.Replay(trace).tally.preload == Weight(pins, size)
  {
    HeadroomSuffices(events, c, holdout, size, pins, effective);
    CacheLaws.SharedConservation(SharedCache.Cache(pins, size, effective), Groups(OfSplit(events, holdout)));
  }

  /** Every holdout demands something, so even the unpinned replay stages bytes. */
  lemma BaselineStagesBytes(size: Resource -> nat, events: seq<RawEvent>, c: Checked, holdout: string, effective: int)
    requires Acceptable(events, c.expertCount) && Describes(c, events) && holdout in c.phases
    requires (forall r :: size(r) > 0) && LargestAtomic(size, c.layers, c.expertCount) <= effective
    ensures SharedCache.Cache([], size, effective).Replay(Groups(OfSplit(events, holdout))).tally.staged > 0
  {
    hide Acceptable, Describes, OfSplit, Groups, LargestAtomic, SharedCache.Cache.Replay, SharedCache.Cache.AllFit;
    assert Weight([], size) == 0;
    HeadroomSuffices(events, c, holdout, size, [], effective);
    var r := FirstDemand(events, c, holdout);
    StagesDemand(SharedCache.Cache([], size, effective), Groups(OfSplit(events, holdout)), r);
  }

  /** A holdout's first group has a member. */
  lemma FirstDemand(events: seq<RawEvent>, c: Checked, holdout: string) returns (r: Resource)
    requires Acceptable(events, c.expertCount) && Describes(c, events) && holdout in c.phases
    ensures var trace := Groups(OfSplit(events, holdout)); trace != [] && r in trace[0]
  {
    hide OfSplit, Project, Phases;
    NoRemainder(events, c, holdout);
    TwoLayersOfSteps(|c.layers|, |Project(events, holdout, c.layers[0])|);
    GroupShape(events, c, holdout, 0);
    var e := OfSplit(events, holdout)[0];
    r := Resource(e.layer, e.experts[0]);
    assert Groups(OfSplit(events, holdout))[0][0] == r;
  }

  lemma StagesDemand(cache: SharedCache.Cache<Resource>, trace: seq<seq<Resource>>, r: Resource)
    requires cache.pinned == [] && cache.effective >= 0 && cache.AllFit(trace)
    requires trace != [] && r in trace[0] && cache.size(r) > 0
    ensures cache.Replay(trace).tally.staged > 0
  {
    hide CacheLaws.Demands, SharedCache.Cache.Replay, SharedCache.Cache.AllFit;
    assert Weight([], cache.size) == 0;
    CacheLaws.SharedConservation(cache, trace);
    DemandsIncludes(cache, trace, 0, r);
    DistinctElems(CacheLaws.Demands(cache, trace));
    WeightSubset([r], Distinct(CacheLaws.Demands(cache, trace)), cache.size);
    assert Weight([r], cache.size) == cache.size(r);
  }

  lemma TwoLayersOfSteps(l: nat, s: nat)
    requires l > 0 && s >= 2
    ensures l * s > 0
  {
  }

  lemma {:induction false} DemandsIncludes(cache: SharedCache.Cache<Resource>, trace: seq<seq<Resource>>, k: nat, r: Resource)
    requires k < |trace| && r in trace[k] && r !in cache.pinned
    ensures r in CacheLaws.Demands(cache, trace)
  {
    var n := |trace| - 1;
    if k < n {
      assert trace[..n][k] == trace[k];
      DemandsIncludes(cache, trace[..n], k, r);
    } else {
      OutsideElems(trace[n], cache.pinned);
    }
  }

  /** The paired replay of one holdout; the census check between the two is an assertion. */
  method ReplayHoldout(events: seq<RawEvent>, trace: seq<seq<Resource>>, ghost c: Checked, holdout: string,
                       size: Resource -> nat, effective: int, pins: seq<Resource>)
    returns (row: Row)
    requires Acceptable(events, c.expertCount) && Describes(c, events) && holdout in c.phases
    requires trace == Groups(OfSplit(events, holdout)) && NoDup(pins) && (forall r :: size(r) > 0)
    requires Weight(pins, size) <= effective - LargestAtomic(size, c.layers, c.expertCount)
    ensures RowFor(row, events, holdout, size, effective, pins)
  {
    hide SharedCache.Cache.Outcome, SharedCache.Cache.Replay, Acceptable, Describes, OfSplit, LargestAtomic;
    assert Weight([], size) == 0;
    LargestNeedsAllLayers(size, events, c, holdout, [], effective);
    LargestNeedsAllLayers(size, events, c, holdout, pins, effective);
    BaselineStagesBytes(size, events, c, holdout, effective);
    DistinctOfNoDup(pins);
    var baseline := SharedCache.Simulate(trace, size, effective, []);
    var candidate := SharedCache.Simulate(trace, size, effective, pins);
    assert baseline.Success? && candidate.Success?;
    assert baseline.value.uses == candidate.value.uses;
    row := Row(holdout, baseline.value.uses, baseline.value, candidate.value,
               baseline.value.staged - candidate.value.staged);
  }

  /** The budget, coverage and size limits checked before anything is replayed. */
  method CheckLimits(events: seq<RawEvent>, c: Checked, bySplit: map<string, seq<seq<Resource>>>)
    returns (total: Option<nat>)
    requires c.phases != []
    requires forall name :: name in c.phases ==> name in bySplit && bySplit[name] == Groups(OfSplit(events, name))
    ensures total.Some? <==>
      && (forall k :: 1 <= k < |c.phases| ==> Uses(events, c.phases[k]) <= MAX_ACCESS_PER_HOLDOUT)
      && TotalUses(events, c.phases[1..]) <= MAX_TOTAL_ACCESSES
    ensures total.Some? ==> total.value == TotalUses(events, c.phases[1..])
  {
    hide Uses, OfSplit, Groups;
    var holdouts := c.phases[1..];
    var count := 0;
    var k := 0;
    while k < |holdouts|
      invariant k <= |holdouts|
      invariant forall j :: 1 <= j <= k ==> Uses(events, c.phases[j]) <= MAX_ACCESS_PER_HOLDOUT
      invariant count == TotalUses(events, holdouts[..k])
    {
      assert holdouts[k] == c.phases[k + 1];
      var accesses := CacheLaws.Accesses(bySplit[holdouts[k]]);
      UsesOf(events, holdouts[k]);
      if accesses > MAX_ACCESS_PER_HOLDOUT {
        return None;
      }
      assert holdouts[..k + 1][..k] == holdouts[..k];
      count := count + accesses;
      k := k + 1;
    }
    assert holdouts[..k] == holdouts;
    total := if count > MAX_TOTAL_ACCESSES then None else Some(count);
  }

  lemma UsesOf(events: seq<RawEvent>, split: string)
    ensures Uses(events, split) == CacheLaws.Accesses(Groups(OfSplit(events, split)))
  {
  }

  /**
   `evaluate`. It succeeds on exactly the reviewable captures: none of the
   raises inside the replays, and none of its own accounting checks, adds a
   failure. A held review has no headroom; any other is certified row by row.
   */
  method Evaluate(events: seq<RawEvent>, expertCount: int, size: Resource -> nat, budget: Budget)
    returns (r: Result<Review, ReviewError>)
    requires forall x :: size(x) > 0
    ensures r.Success? <==> exists c :: CaptureOf(c, events, expertCount) && Reviewable(events, c, budget)
    ensures r.Success? ==> exists c, largest, ranks ::
      && CaptureOf(c, events, expertCount) && Reviewable(events, c, budget) && c.phases != []
      && Certified(r.value, events, c, size, budget, largest, ranks)
    ensures r.Success? ==> (r.value.Held? <==> exists c, layer, experts ::
      && CaptureOf(c, events, expertCount) && Routable(c.layers, c.expertCount, layer, experts)
      && Weight(Group(layer, experts), size) > budget.capacity - budget.reserve)
  {
    hide Acceptable, Describes, Certified;
    var checked := Validate(events, expertCount);
    if checked.Failure? {
      return Failure(BadCapture(checked.error));
    }
    var c := checked.value;
    assert CaptureOf(c, events, expertCount);
    forall d | CaptureOf(d, events, expertCount)
      ensures d.layers == c.layers && d.phases == c.phases
    {
      DescriptionUnique(events, c, d);
    }
    DescribedShape(events, c);
    if |c.layers| > MAX_LAYERS || |c.phases| < 3 {
      return Failure(TooFewHoldouts);
    }
    if !budget.Valid() {
      return Failure(BadBudget);
    }
    var split := SplitEvents(events, c.layers, c.phases);
    if split.Failure? {
      return Failure(BadCapture(split.error));
    }
    var total := CheckLimits(events, c, split.value);
    if total.None? {
      return Failure(AccessLimit);
    }
    assert Reviewable(events, c, budget);
    var review, largest, ranks := Replay(events, c, split.value, size, budget, total.value);
    HeldIff(review, events, c, size, budget, largest, ranks);
    r := Success(review);
  }

  lemma DescribedShape(events: seq<RawEvent>, c: Checked)
    requires Acceptable(events, c.expertCount) && Describes(c, events)
    ensures c.layers != [] && c.phases != [] && c.expertCount > 0
    ensures forall e :: e in events ==> e.split in c.phases
    ensures "train" in c.phases
  {
    hide Project, Phases;
    PhaseMembers(events);
    assert GoodAt(events, 0, c.expertCount);
    FirstIsTrain(events, c.expertCount);
  }

  /** Headroom, pins and the holdout loop, once the inputs are known to be reviewable. */
  method Replay(events: seq<RawEvent>, c: Checked, bySplit: map<string, seq<seq<Resource>>>,
                size: Resource -> nat, budget: Budget, eventCount: nat)
    returns (review: Review, ghost largest: int, ghost ranks: seq<Resource>)
    requires CaptureOf(c, events, c.expertCount) && Reviewable(events, c, budget) && (forall x :: size(x) > 0)
    requires c.expertCount >= 0 && "train" in c.phases
    requires forall name :: name in c.phases ==> name in bySplit && bySplit[name] == Groups(OfSplit(events, name))
    requires eventCount == TotalUses(events, c.phases[1..])
    ensures Certified(review, events, c, size, budget, largest, ranks)
  {
    hide Acceptable, Describes, GreedyFor, RankTrain, RowFor, OfSplit, Groups, Uses, Canonical, LargestAtomic, Heaviest, ByRate,
         SummarySays, Summarise;
    var effective := budget.Effective();
    var atomic := LargestAtomic(size, c.layers, c.expertCount);
    var ranked := RankTrain(bySplit["train"], size);
    largest, ranks := atomic, ranked;
    LargestIsHeaviest(size, c.layers, c.expertCount);
    RankTrainByRate(bySplit["train"], size);
    if atomic > effective {
      review := Held(atomic);
      return;
    }
    RankTrainMembers(bySplit["train"], size);
    var pins := SelectPins(ranked, size, effective - atomic, budget.maxPins);
    PinsDistinct(pins, ranked, size, effective - atomic, budget.maxPins);
    var rows, summary := ReplayHoldouts(events, c, bySplit, size, effective, pins);
    assert summary.totalBaseline > 0 && summary.totalUses == eventCount;
    RowsSummarised(rows, events, c, size, effective, pins);
    review := Reviewed(pins, rows, summary);
  }

  lemma RowsSummarised(rows: seq<Row>, events: seq<RawEvent>, c: Checked, size: Resource -> nat, effective: int,
                       pins: seq<Resource>)
    requires |rows| + 1 == |c.phases|
    requires forall k :: 0 <= k < |rows| ==> RowFor(rows[k], events, c.phases[k + 1], size, effective, pins)
    ensures SummarySays(Summarise(rows), rows)
  {
    hide SharedCache.Cache.Replay, OfSplit, Groups, Uses, Weight, SummarySays, Summarise;
    forall row | row in rows
      ensures row.delta == row.baseline.staged - row.candidate.staged && row.uses == row.baseline.uses
    {
      var k :| 0 <= k < |rows| && rows[k] == row;
      assert RowFor(rows[k], events, c.phases[k + 1], size, effective, pins);
    }
    SummaryMeans(rows);
  }

  lemma NothingSummarised(rows: seq<Row>)
    requires rows == []
    ensures Summarise(rows) == Summary(0, 0, 0, None, 0, 0, 0, 0)
  {
  }

  /** The counters after one more holdout. */
  method Tallied(before: Summary, ghost rows: seq<Row>, row: Row) returns (summary: Summary)
    requires before == Summarise(rows)
    ensures summary == Summarise(rows + [row])
    ensures summary.totalUses == before.totalUses + row.uses
    ensures summary.totalBaseline == before.totalBaseline + row.baseline.staged
  {
    assert (rows + [row])[..|rows|] == rows;
    summary := Summary(
      before.lower + (if row.delta > 0 then 1 else 0),
      before.equal + (if row.delta == 0 then 1 else 0),
      before.higher + (if row.delta < 0 then 1 else 0),
      Some(if before.worst.Some? && before.worst.value < row.delta then before.worst.value else row.delta),
      before.totalBaseline + row.baseline.staged,
      before.totalCandidate + row.candidate.staged,
      before.totalPreload + row.candidate.preload,
      before.totalUses + row.uses);
  }

  /** The holdout loop: one certified row per holdout, accumulated as the summary of the rows so far. */
  method ReplayHoldouts(events: seq<RawEvent>, c: Checked, bySplit: map<string, seq<seq<Resource>>>,
                        size: Resource -> nat, effective: int, pins: seq<Resource>)
    returns (rows: seq<Row>, summary: Summary)
    requires CaptureOf(c, events, c.expertCount) && |c.phases| >= 3 && (forall x :: size(x) > 0)
    requires c.expertCount >= 0 && NoDup(pins)
    requires Weight(pins, size) <= effective - LargestAtomic(size, c.layers, c.expertCount)
    requires forall name :: name in c.phases ==> name in bySplit && bySplit[name] == Groups(OfSplit(events, name))
    ensures |rows| == |c.phases| - 1
    ensures forall k :: 0 <= k < |rows| ==> RowFor(rows[k], events, c.phases[k + 1], size, effective, pins)
    ensures summary == Summarise(rows) && summary.totalBaseline > 0
    ensures summary.totalUses == TotalUses(events, c.phases[1..])
  {
    hide Acceptable, Describes, RowFor, OfSplit, Groups, Uses, LargestAtomic, Weight, TotalUses, Summarise;
    rows := [];
    NoUses(events);
    summary := Summary(0, 0, 0, None, 0, 0, 0, 0);
    NothingSummarised(rows);
    var k := 1;
    while k < |c.phases|
      invariant 1 <= k <= |c.phases| && |rows| == k - 1
      invariant forall j :: 0 <= j < |rows| ==> RowFor(rows[j], events, c.phases[j + 1], size, effective, pins)
      invariant summary == Summarise(rows)
      invariant summary.totalUses == TotalUses(events, c.phases[1..][..k - 1])
      invariant summary.totalBaseline >= |rows|
    {
      var name := c.phases[k];
      assert name in c.phases;
      var row := ReplayHoldout(events, bySplit[name], c, name, size, effective, pins);
      RowCounts(row, events, name, size, effective, pins);
      UsesStep(events, c.phases, k);
      summary := Tallied(summary, rows, row);
      rows := rows + [row];
      k := k + 1;
    }
    assert c.phases[1..][..k - 1] == c.phases[1..];
  }

  lemma NoUses(events: seq<RawEvent>)
    ensures TotalUses(events, []) == 0
  {
  }

  lemma UsesStep(events: seq<RawEvent>, phases: seq<string>, k: nat)
    requires 1 <= k < |phases|
    ensures TotalUses(events, phases[1..][..k]) == TotalUses(events, phases[1..][..k - 1]) + Uses(events, phases[k])
  {
    assert phases[1..][..k][..k - 1] == phases[1..][..k - 1] && phases[1..][k - 1] == phases[k];
  }

  lemma PinsDistinct(pins: seq<Resource>, ranks: seq<Resource>, size: Resource -> nat, capacity: int, maxPins: nat)
    requires GreedyFor(pins, ranks, size, capacity, maxPins)
    ensures NoDup(pins)
  {
  }

  lemma RowCounts(row: Row, events: seq<RawEvent>, holdout: string, size: Resource -> nat, effective: int, pins: seq<Resource>)
    requires RowFor(row, events, holdout, size, effective, pins)
    ensures row.uses == Uses(events, holdout) && row.baseline.staged > 0
  {
  }
}
