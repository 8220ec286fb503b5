/**
 Training-only pin selection of `phios/elastic_shared_r13.py`: rank resources by
 frequency per byte with exact cross-multiplication, then pin greedily.
 */
module PinRanking {
  import opened Sequences
  import opened Ranking
  import opened RouterCapture

  /** `a < b` on (layer, expert) pairs. */
  predicate IdLess(a: Resource, b: Resource) {
    a.layer < b.layer || (a.layer == b.layer && a.expert < b.expert)
  }

  /** The comparator of `_rank_train`: higher frequency per byte first, ties by id. */
  predicate RanksBefore(counts: multiset<Resource>, size: Resource -> nat, a: Resource, b: Resource) {
    var left := counts[a] * size(b);
    var right := counts[b] * size(a);
    if left != right then left > right else IdLess(a, b)
  }

  function Order(counts: multiset<Resource>, size: Resource -> nat): (Resource, Resource) -> bool {
    (a, b) => RanksBefore(counts, size, a, b)
  }

  /** `_rank_train`. */
  function RankTrain(train: seq<seq<Resource>>, size: Resource -> nat): seq<Resource> {
    Sort(Distinct(Concat(train)), Order(multiset(Concat(train)), size))
  }

  lemma MulOrder(a: nat, b: nat, f: nat)
    requires f > 0
    ensures a < b <==> a * f < b * f
    ensures a <= b <==> a * f <= b * f
  {
    assert b * f - a * f == (b - a) * f;
  }

  /** Cross-multiplied ratios compose: `p/x >= q/y` and `q/y >= r/z` give `p/x >= r/z`. */
  lemma RatioTransitive(p: nat, x: nat, q: nat, y: nat, r: nat, z: nat)
    requires x > 0 && y > 0 && z > 0
    requires p * y >= q * x && q * z >= r * y
    ensures p * z >= r * x
    ensures (p * y > q * x || q * z > r * y) ==> p * z > r * x
  {
    MulOrder(q * x, p * y, z);
    MulOrder(r * y, q * z, x);
    assert (p * z) * y == (p * y) * z;
    assert (q * x) * z == (q * z) * x;
    assert (r * x) * y == (r * y) * x;
    MulOrder(r * x, p * z, y);
  }

  /** For positive sizes the comparator is a strict total order, so the ranking is well defined. */
  lemma RankingIsStrictTotal(counts: multiset<Resource>, size: Resource -> nat, xs: seq<Resource>)
    requires forall r :: size(r) > 0
    ensures StrictTotalOn(Order(counts, size), xs)
  {
    var less := Order(counts, size);
    forall a, b, c | a in xs && b in xs && c in xs && less(a, b) && less(b, c)
      ensures less(a, c)
    {
      RatioTransitive(counts[a], size(a), counts[b], size(b), counts[c], size(c));
    }
  }

  /** The ranking depends only on how often each resource was used, not on when. */
  lemma RankDependsOnCounts(a: seq<seq<Resource>>, b: seq<seq<Resource>>, size: Resource -> nat)
    requires forall r :: size(r) > 0
    requires multiset(Concat(a)) == multiset(Concat(b))
    ensures RankTrain(a, size) == RankTrain(b, size)
  {
    var counts := multiset(Concat(a));
    var less := Order(counts, size);
    var da, db := Distinct(Concat(a)), Distinct(Concat(b));
    DistinctElems(Concat(a));
    DistinctElems(Concat(b));
    assert forall y :: y in Concat(a) <==> y in counts;
    assert forall y :: y in Concat(b) <==> y in counts;
    SameMembersSameMultiset(da, db);
    RankingIsStrictTotal(counts, size, da);
    RankingIsStrictTotal(counts, size, db);
    SortIsSorted(da, less);
    SortIsSorted(db, less);
    SortedUnique(Sort(da, less), Sort(db, less), da, less);
  }

  /** The ranked list holds each trained resource once. */
  lemma RankTrainMembers(train: seq<seq<Resource>>, size: Resource -> nat)
    requires forall r :: size(r) > 0
    ensures NoDup(RankTrain(train, size))
    ensures forall r :: r in RankTrain(train, size) ==> r in Concat(train)
    ensures forall r :: r in Concat(train) ==> r in RankTrain(train, size)
  {
    var d := Distinct(Concat(train));
    DistinctElems(Concat(train));
    RankingIsStrictTotal(multiset(Concat(train)), size, d);
    SortIsSorted(d, Order(multiset(Concat(train)), size));
  }

  /**
   What greedy pinning means: a ranked resource is pinned exactly when, after
   the better-ranked pins, a pin is left to spend and its bytes still fit.
   */
  ghost predicate GreedyFor(pins: seq<Resource>, ranks: seq<Resource>, size: Resource -> nat, capacity: int, maxPins: nat) {
    && NoDup(pins) && (forall r :: r in pins ==> r in ranks)
    && forall i :: 0 <= i < |ranks| ==>
         GreedyAt(pins, ranks, i, size, capacity, maxPins)
  }

  ghost predicate GreedyAt(pins: seq<Resource>, ranks: seq<Resource>, i: nat, size: Resource -> nat, capacity: int, maxPins: nat)
    requires i < |ranks|
  {
    ranks[i] in pins
    <==> |Inside(ranks[..i], pins)| < maxPins && Weight(Inside(ranks[..i], pins), size) + size(ranks[i]) <= capacity
  }

  /** Uses per byte, as the number the cross-multiplication stands for. */
  function Rate(uses: nat, bytes: nat): real
    requires bytes > 0
  {
    uses as real / bytes as real
  }

  /** A ranking of the used resources, each once: the higher rate first, at equal rates the smaller (layer, expert). */
  ghost predicate ByRate(ranks: seq<Resource>, used: seq<Resource>, size: Resource -> nat)
    requires forall r :: size(r) > 0
  {
    && NoDup(ranks) && (forall r :: r in ranks ==> r in used) && (forall r :: r in used ==> r in ranks)
    && forall i, j :: 0 <= i < j < |ranks| ==> RateBefore(ranks[i], ranks[j], used, size)
  }

  ghost predicate RateBefore(a: Resource, b: Resource, used: seq<Resource>, size: Resource -> nat)
    requires size(a) > 0 && size(b) > 0
  {
    var x, y := Rate(multiset(used)[a], size(a)), Rate(multiset(used)[b], size(b));
    x > y || (x == y && (a.layer < b.layer || (a.layer == b.layer && a.expert < b.expert)))
  }

  lemma RatesCompare(p: nat, x: nat, q: nat, y: nat)
    requires x > 0 && y > 0
    ensures Rate(p, x) > Rate(q, y) <==> p * y > q * x
    ensures Rate(p, x) == Rate(q, y) <==> p * y == q * x
  {
    var a, b := Rate(p, x), Rate(q, y);
    var u, v := x as real, y as real;
    assert a * u == p as real && b * v == q as real;
    assert (p * y) as real == a * u * v && (q * x) as real == b * u * v;
    RealOrder(a, b, u * v);
  }

  lemma RealOrder(a: real, b: real, f: real)
    requires f > 0.0
    ensures a > b <==> a * f > b * f
    ensures a == b <==> a * f == b * f
  {
    assert a * f - b * f == (a - b) * f;
  }

  /** The exact integer comparison ranks by frequency per byte. */
  lemma RankTrainByRate(train: seq<seq<Resource>>, size: Resource -> nat)
    requires forall r :: size(r) > 0
    ensures ByRate(RankTrain(train, size), Concat(train), size)
  {
    hide Rate, Concat, Distinct, Sort;
    var used := Concat(train);
    var counts := multiset(used);
    RankTrainMembers(train, size);
    DistinctElems(used);
    RankingIsStrictTotal(counts, size, Distinct(used));
    SortIsSorted(Distinct(used), Order(counts, size));
    var ranks := RankTrain(train, size);
    forall i, j | 0 <= i < j < |ranks|
      ensures RateBefore(ranks[i], ranks[j], used, size)
    {
      var a, b := ranks[i], ranks[j];
      assert RanksBefore(counts, size, a, b);
      RatesCompare(counts[a], size(a), counts[b], size(b));
    }
  }

  /** The greedy loop of `evaluate`. */
  method SelectPins(ranks: seq<Resource>, size: Resource -> nat, capacity: int, maxPins: nat)
    returns (pins: seq<Resource>)
    requires NoDup(ranks) && capacity >= 0
    ensures GreedyFor(pins, ranks, size, capacity, maxPins)
    ensures |pins| <= maxPins && Weight(pins, size) <= capacity
    ensures pins == Inside(ranks, pins)
    ensures |pins| < maxPins ==>
      forall r :: r in ranks && r !in pins ==> Weight(pins, size) + size(r) > capacity
  {
    hide Inside, Weight;
    pins := [];
    var charged := 0;
    var i := 0;
    NothingPinned(ranks, size, capacity, maxPins);
    while i < |ranks| && |pins| < maxPins
      invariant i <= |ranks| && charged == Weight(pins, size)
      invariant Greedy(pins, ranks, i, size, capacity, maxPins)
    {
      var resource := ranks[i];
      GreedyStep(pins, ranks, i, size, capacity, maxPins);
      if charged + size(resource) <= capacity {
        pins := pins + [resource];
        charged := charged + size(resource);
      }
      i := i + 1;
    }
    StoppedEarly(ranks, i, pins, size, capacity, maxPins);
  }

  /** The greedy rule on the first `i` ranked resources, and what the loop has spent on them. */
  ghost predicate Greedy(pins: seq<Resource>, ranks: seq<Resource>, i: nat, size: Resource -> nat, capacity: int, maxPins: nat)
    requires i <= |ranks|
  {
    && |pins| <= maxPins && Weight(pins, size) <= capacity
    && NoDup(pins) && (forall r :: r in pins ==> r in ranks[..i])
    && pins == Inside(ranks[..i], pins)
    && (forall j :: 0 <= j < i ==> GreedyAt(pins, ranks, j, size, capacity, maxPins))
    && (forall j :: 0 <= j < i && ranks[j] !in pins ==> Weight(pins, size) + size(ranks[j]) > capacity)
  }

  lemma NothingPinned(ranks: seq<Resource>, size: Resource -> nat, capacity: int, maxPins: nat)
    requires capacity >= 0
    ensures Greedy([], ranks, 0, size, capacity, maxPins) && Weight([], size) == 0
  {
  }

  /** Taking the next resource when it fits, and skipping it when it does not, both keep the rule. */
  lemma GreedyStep(pins: seq<Resource>, ranks: seq<Resource>, i: nat, size: Resource -> nat, capacity: int, maxPins: nat)
    requires NoDup(ranks) && i < |ranks| && |pins| < maxPins && Greedy(pins, ranks, i, size, capacity, maxPins)
    ensures var x := ranks[i];
      && Weight(pins + [x], size) == Weight(pins, size) + size(x)
      && (if Weight(pins, size) + size(x) <= capacity then Greedy(pins + [x], ranks, i + 1, size, capacity, maxPins)
          else Greedy(pins, ranks, i + 1, size, capacity, maxPins))
  {
    hide Inside, Weight, Greedy;
    GreedyBasics(pins, ranks, i, size, capacity, maxPins);
    NextFacts(pins, ranks, i, size);
    if Weight(pins, size) + size(ranks[i]) <= capacity {
      GreedyTake(pins, ranks, i, size, capacity, maxPins);
    } else {
      GreedySkip(pins, ranks, i, size, capacity, maxPins);
    }
  }

  lemma GreedyBasics(pins: seq<Resource>, ranks: seq<Resource>, i: nat, size: Resource -> nat, capacity: int,
                     maxPins: nat)
    requires i <= |ranks| && Greedy(pins, ranks, i, size, capacity, maxPins)
    ensures pins == Inside(ranks[..i], pins) && forall r :: r in pins ==> r in ranks[..i]
  {
  }

  lemma GreedyTake(pins: seq<Resource>, ranks: seq<Resource>, i: nat, size: Resource -> nat, capacity: int,
                   maxPins: nat)
    requires NoDup(ranks) && i < |ranks| && |pins| < maxPins && Greedy(pins, ranks, i, size, capacity, maxPins)
    requires ranks[i] !in pins && ranks[..i + 1] == ranks[..i] + [ranks[i]]
    requires Weight(pins + [ranks[i]], size) == Weight(pins, size) + size(ranks[i]) <= capacity
    ensures Greedy(pins + [ranks[i]], ranks, i + 1, size, capacity, maxPins)
  {
    hide Inside, Weight, GreedyAt;
    var x := ranks[i];
    NoDupSnoc(pins, x);
    forall j | 0 <= j <= i
      ensures GreedyAt(pins + [x], ranks, j, size, capacity, maxPins)
    {
      GrowInside(ranks, i, pins, x);
      AtAfterTake(pins, ranks, i, j, size, capacity, maxPins);
    }
    assert Inside(ranks[..i + 1], pins + [x]) == pins + [x] by {
      GrowInside(ranks, i, pins, x);
    }
  }

  lemma GreedySkip(pins: seq<Resource>, ranks: seq<Resource>, i: nat, size: Resource -> nat, capacity: int,
                   maxPins: nat)
    requires i < |ranks| && Greedy(pins, ranks, i, size, capacity, maxPins)
    requires ranks[i] !in pins && Inside(ranks[..i + 1], pins) == pins && ranks[..i + 1] == ranks[..i] + [ranks[i]]
    requires Weight(pins, size) + size(ranks[i]) > capacity
    ensures Greedy(pins, ranks, i + 1, size, capacity, maxPins)
  {
    hide Inside, Weight, GreedyAt;
    AtSkip(pins, ranks, i, size, capacity, maxPins);
  }

  lemma NextFacts(pins: seq<Resource>, ranks: seq<Resource>, i: nat, size: Resource -> nat)
    requires NoDup(ranks) && i < |ranks| && pins == Inside(ranks[..i], pins)
    requires forall r :: r in pins ==> r in ranks[..i]
    ensures ranks[i] !in pins && Inside(ranks[..i + 1], pins) == pins
    ensures ranks[..i + 1] == ranks[..i] + [ranks[i]]
    ensures Weight(pins + [ranks[i]], size) == Weight(pins, size) + size(ranks[i])
  {
    var x := ranks[i];
    assert ranks[..i + 1] == ranks[..i] + [x];
    FreshInPrefix(ranks, i);
    InsideConcat(ranks[..i], [x], pins);
    WeightConcat(pins, [x], size);
    assert Inside([x], pins) == [];
    assert pins + [] == pins;
  }

  lemma AtAfterTake(pins: seq<Resource>, ranks: seq<Resource>, i: nat, j: nat, size: Resource -> nat, capacity: int, maxPins: nat)
    requires NoDup(ranks) && j <= i < |ranks| && |pins| < maxPins && Weight(pins, size) + size(ranks[i]) <= capacity
    requires pins == Inside(ranks[..i], pins)
    requires j < i ==> GreedyAt(pins, ranks, j, size, capacity, maxPins)
    requires Inside(ranks[..j], pins + [ranks[i]]) == Inside(ranks[..j], pins)
    ensures GreedyAt(pins + [ranks[i]], ranks, j, size, capacity, maxPins)
  {
    hide Inside, Weight;
    assert ranks[j] == ranks[i] <==> i == j;
  }

  lemma AtSkip(pins: seq<Resource>, ranks: seq<Resource>, i: nat, size: Resource -> nat, capacity: int, maxPins: nat)
    requires i < |ranks| && ranks[i] !in pins && Weight(pins, size) + size(ranks[i]) > capacity
    requires pins == Inside(ranks[..i], pins)
    ensures GreedyAt(pins, ranks, i, size, capacity, maxPins)
  {
  }

  lemma InsideConcat<T>(a: seq<T>, b: seq<T>, g: seq<T>)
    ensures Inside(a + b, g) == Inside(a, g) + Inside(b, g)
  {
    OutsideConcat(a, b, g);
  }

  lemma FreshInPrefix(ranks: seq<Resource>, i: nat)
    requires NoDup(ranks) && i < |ranks|
    ensures ranks[i] !in ranks[..i]
  {
  }

  /** Pinning the next ranked resource leaves the pins of every earlier prefix unchanged. */
  lemma GrowInside(ranks: seq<Resource>, i: nat, pins: seq<Resource>, x: Resource)
    requires NoDup(ranks) && i < |ranks| && ranks[i] == x
    requires pins == Inside(ranks[..i], pins)
    ensures forall j :: 0 <= j <= i ==> Inside(ranks[..j], pins + [x]) == Inside(ranks[..j], pins)
    ensures Inside(ranks[..i + 1], pins + [x]) == pins + [x]
  {
    forall j | 0 <= j <= i
      ensures Inside(ranks[..j], pins + [x]) == Inside(ranks[..j], pins)
    {
      assert x !in ranks[..j];
      InsideSame(ranks[..j], pins, pins + [x]);
    }
    assert ranks[..i + 1] == ranks[..i] + [x];
    InsideConcat(ranks[..i], [x], pins + [x]);
    assert Inside([x], pins + [x]) == [x];
  }

  lemma InsideSame<T>(s: seq<T>, g: seq<T>, h: seq<T>)
    requires forall y :: y in s ==> (y in g <==> y in h)
    ensures Inside(s, g) == Inside(s, h)
  {
  }

  /** Once the pins are spent or the ranking exhausted, every later resource fails the greedy test. */
  lemma StoppedEarly(ranks: seq<Resource>, i: nat, pins: seq<Resource>, size: Resource -> nat, capacity: int, maxPins: nat)
    requires NoDup(ranks) && i <= |ranks| && (i == |ranks| || |pins| >= maxPins)
    requires Greedy(pins, ranks, i, size, capacity, maxPins)
    ensures GreedyFor(pins, ranks, size, capacity, maxPins)
    ensures pins == Inside(ranks, pins)
    ensures |pins| < maxPins ==> forall r :: r in ranks && r !in pins ==> Weight(pins, size) + size(r) > capacity
  {
    hide Inside, Weight, GreedyAt;
    forall j | i <= j <= |ranks|
      ensures Inside(ranks[..j], pins) == pins
    {
      LaterPrefix(ranks, i, j, pins);
    }
    assert ranks[..|ranks|] == ranks;
    forall j | i <= j < |ranks|
      ensures GreedyAt(pins, ranks, j, size, capacity, maxPins)
    {
      assert ranks[j] !in ranks[..i];
      AtSpent(pins, ranks, j, size, capacity, maxPins);
    }
  }

  lemma AtSpent(pins: seq<Resource>, ranks: seq<Resource>, j: nat, size: Resource -> nat, capacity: int, maxPins: nat)
    requires j < |ranks| && ranks[j] !in pins && |pins| >= maxPins && Inside(ranks[..j], pins) == pins
    ensures GreedyAt(pins, ranks, j, size, capacity, maxPins)
  {
  }

  lemma LaterPrefix(ranks: seq<Resource>, i: nat, j: nat, pins: seq<Resource>)
    requires NoDup(ranks) && i <= j <= |ranks| && pins == Inside(ranks[..i], pins)
    requires forall r :: r in pins ==> r in ranks[..i]
    ensures Inside(ranks[..j], pins) == pins
  {
    assert ranks[..j] == ranks[..i] + ranks[i..j];
    InsideConcat(ranks[..i], ranks[i..j], pins);
    NoneInside(ranks[i..j], pins, ranks, i, j);
    assert pins + [] == pins;
  }

  lemma NoneInside(s: seq<Resource>, pins: seq<Resource>, ranks: seq<Resource>, i: nat, j: nat)
    requires NoDup(ranks) && i <= j <= |ranks| && s == ranks[i..j]
    requires forall r :: r in pins ==> r in ranks[..i]
    ensures Inside(s, pins) == []
  {
    forall y | y in s
      ensures y !in pins
    {
      var k :| 0 <= k < |s| && s[k] == y;
      assert ranks[i + k] == y;
      assert y !in ranks[..i];
    }
    AllAbsent(s, pins);
  }

  lemma AllAbsent<T>(s: seq<T>, g: seq<T>)
    requires forall y :: y in s ==> y !in g
    ensures Inside(s, g) == []
  {
  }

  /** Two pin lists that meet the greedy rule for one ranking are the same list. */
  lemma GreedyUnique(a: seq<Resource>, b: seq<Resource>, ranks: seq<Resource>, size: Resource -> nat, capacity: int, maxPins: nat)
    requires GreedyFor(a, ranks, size, capacity, maxPins) && GreedyFor(b, ranks, size, capacity, maxPins)
    ensures Inside(ranks, a) == Inside(ranks, b)
  {
    GreedyPrefixUnique(a, b, ranks, |ranks|, size, capacity, maxPins);
    assert ranks[..|ranks|] == ranks;
  }

  lemma {:induction false} GreedyPrefixUnique(a: seq<Resource>, b: seq<Resource>, ranks: seq<Resource>, i: nat, size: Resource -> nat, capacity: int, maxPins: nat)
    requires GreedyFor(a, ranks, size, capacity, maxPins) && GreedyFor(b, ranks, size, capacity, maxPins)
    requires i <= |ranks|
    ensures Inside(ranks[..i], a) == Inside(ranks[..i], b)
  {
    if i > 0 {
      GreedyPrefixUnique(a, b, ranks, i - 1, size, capacity, maxPins);
      assert GreedyAt(a, ranks, i - 1, size, capacity, maxPins) && GreedyAt(b, ranks, i - 1, size, capacity, maxPins);
      assert ranks[..i] == ranks[..i - 1] + [ranks[i - 1]];
      InsideConcat(ranks[..i - 1], [ranks[i - 1]], a);
      InsideConcat(ranks[..i - 1], [ranks[i - 1]], b);
      assert Inside([ranks[i - 1]], a) == if ranks[i - 1] in a then [ranks[i - 1]] else [];
      assert Inside([ranks[i - 1]], b) == if ranks[i - 1] in b then [ranks[i - 1]] else [];
    }
  }

  /**
   The pins depend on the training traces only through how often each resource
   was used: two trainings with the same counts pin the same resources in the
   same order.
   */
  lemma PinsDependOnCounts(a: seq<seq<Resource>>, b: seq<seq<Resource>>, pinsA: seq<Resource>, pinsB: seq<Resource>,
                           size: Resource -> nat, capacity: int, maxPins: nat)
    requires (forall r :: size(r) > 0) && multiset(Concat(a)) == multiset(Concat(b))
    requires GreedyFor(pinsA, RankTrain(a, size), size, capacity, maxPins) && pinsA == Inside(RankTrain(a, size), pinsA)
    requires GreedyFor(pinsB, RankTrain(b, size), size, capacity, maxPins) && pinsB == Inside(RankTrain(b, size), pinsB)
    ensures pinsA == pinsB
  {
    hide GreedyFor, RankTrain;
    RankDependsOnCounts(a, b, size);
    GreedyUnique(pinsA, pinsB, RankTrain(a, size), size, capacity, maxPins);
  }
}
