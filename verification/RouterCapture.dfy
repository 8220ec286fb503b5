/**
 Reading a routed-expert capture: `_validate` of `phios/elastic_router_r10.py`
 groups the events into per-split, per-layer series; `_split_events` of
 `phios/elastic_shared_r13.py` reads the same events step-major.
 */
module RouterCapture {
  import opened Wrappers
  import opened Sequences

  const MAX_EVENTS := 16384

  datatype RawEvent = RawEvent(split: string, layer: int, step: int, experts: seq<int>)

  datatype Resource = Resource(layer: int, expert: int)

  type Streams = map<string, map<int, seq<seq<int>>>>

  datatype Checked = Checked(expertCount: int, streams: Streams, layers: seq<int>, phases: seq<string>)

  datatype CaptureError = InvalidCapture | NoncanonicalOrder

  // ------------------------------------------------------------ specification

  /** The expert lists one layer of one split recorded, in order. */
  function Project(events: seq<RawEvent>, split: string, layer: int): seq<seq<int>> {
    if events == [] then []
    else
      var e := events[|events| - 1];
      var before := Project(events[..|events| - 1], split, layer);
      if e.split == split && e.layer == layer then before + [e.experts] else before
  }

  function OfSplit(events: seq<RawEvent>, split: string): seq<RawEvent> {
    if events == [] then []
    else
      var e := events[|events| - 1];
      var before := OfSplit(events[..|events| - 1], split);
      if e.split == split then before + [e] else before
  }

  /** The runs of equal split labels. */
  function Phases(events: seq<RawEvent>): seq<string> {
    if events == [] then []
    else
      var e := events[|events| - 1];
      var before := Phases(events[..|events| - 1]);
      if before == [] || before[|before| - 1] != e.split then before + [e.split] else before
  }

  ghost predicate GoodFields(e: RawEvent, expertCount: int) {
    && 0 <= e.layer <= 127 && 0 <= e.step <= 4095
    && 1 <= |e.experts| <= 8 && NoDup(e.experts)
    && forall x | x in e.experts :: 0 <= x < expertCount
  }

  /** An event opens a new split only once, starts with training, and numbers its layer's steps. */
  ghost predicate GoodAt(events: seq<RawEvent>, i: nat, expertCount: int)
    requires i < |events|
  {
    var e := events[i];
    var phases := Phases(events[..i]);
    && GoodFields(e, expertCount)
    && (phases == [] ==> e.split == "train")
    && (phases != [] && phases[|phases| - 1] != e.split ==> e.split !in phases)
    && e.step == |Project(events[..i], e.split, e.layer)|
  }

  ghost predicate EvenlyCovered(events: seq<RawEvent>, split: string) {
    && (forall l :: Project(events, split, l) != [] <==> Project(events, "train", l) != [])
    && (forall l, m :: Project(events, split, l) != [] && Project(events, split, m) != []
          ==> |Project(events, split, l)| == |Project(events, split, m)|)
    && (forall l :: Project(events, split, l) != [] ==> 2 <= |Project(events, split, l)| <= 4096)
  }

  ghost predicate Acceptable(events: seq<RawEvent>, expertCount: int) {
    && 4 <= expertCount <= 256
    && 4 <= |events| <= MAX_EVENTS
    && (forall i :: 0 <= i < |events| ==> GoodAt(events, i, expertCount))
    && 2 <= |Phases(events)| <= 9
    && (forall split | split in Phases(events) :: EvenlyCovered(events, split))
  }

  /** What `_validate` returns for an accepted capture. */
  ghost predicate Describes(c: Checked, events: seq<RawEvent>) {
    && c.phases == Phases(events)
    && NoDup(c.layers) && c.layers != []
    && (forall l :: l in c.layers <==> Project(events, "train", l) != [])
    && Ascending(c.layers)
    && StreamsOf(events, c.streams)
  }

  ghost predicate StreamsOf(events: seq<RawEvent>, streams: Streams) {
    && (forall split :: split in streams <==> split in Phases(events))
    && (forall split :: split in streams ==> SplitStream(events, split, streams[split]))
  }

  ghost predicate SplitStream(events: seq<RawEvent>, split: string, mapping: map<int, seq<seq<int>>>) {
    && (forall l :: l in mapping <==> Project(events, split, l) != [])
    && (forall l :: l in mapping ==> mapping[l] == Project(events, split, l))
  }

  function Group(layer: int, experts: seq<int>): seq<Resource> {
    seq(|experts|, i requires 0 <= i < |experts| => Resource(layer, experts[i]))
  }

  function Groups(events: seq<RawEvent>): seq<seq<Resource>> {
    seq(|events|, i requires 0 <= i < |events| => Group(events[i].layer, events[i].experts))
  }

  /** Position `k` of a split is step `k / L` of layer `k % L`. */
  ghost predicate Canonical(events: seq<RawEvent>, split: string, layers: seq<int>)
    requires layers != []
  {
    var f := OfSplit(events, split);
    && |f| % |layers| == 0
    && forall k :: 0 <= k < |f| ==> f[k].step == k / |layers| && f[k].layer == layers[k % |layers|]
  }

  // ------------------------------------------------------------ lemmas

  lemma PrefixStep(events: seq<RawEvent>, i: nat)
    requires i < |events|
    ensures events[..i + 1][..i] == events[..i] && events[..i + 1][i] == events[i]
    ensures |events[..i + 1]| == i + 1
  {
  }

  lemma PhaseMembers(events: seq<RawEvent>)
    ensures forall e :: e in events ==> e.split in Phases(events)
    ensures forall split :: split in Phases(events) ==> exists e :: e in events && e.split == split
    ensures events != [] ==> Phases(events) != []
  {
    if events != [] {
      var n := |events| - 1;
      assert events == events[..n] + [events[n]];
      PhaseMembers(events[..n]);
      forall split | split in Phases(events)
        ensures exists e :: e in events && e.split == split
      {
        if split in Phases(events[..n]) {
          var e :| e in events[..n] && e.split == split;
          assert e in events;
        } else {
          assert events[n] in events && events[n].split == split;
        }
      }
    }
  }

  lemma ProjectEmpty(events: seq<RawEvent>, split: string, layer: int)
    requires split !in Phases(events)
    ensures Project(events, split, layer) == []
  {
    if events != [] {
      PhaseMembers(events);
      var n := |events| - 1;
      assert events[n] in events;
      PhaseMembers(events[..n]);
      assert split !in Phases(events[..n]);
    }
  }

  lemma {:induction false} ProjectPrefix(events: seq<RawEvent>, k: nat, split: string, layer: int)
    requires k <= |events|
    ensures Project(events[..k], split, layer) <= Project(events, split, layer)
  {
    if k < |events| {
      var n := |events| - 1;
      assert events[..n][..k] == events[..k];
      ProjectPrefix(events[..n], k, split, layer);
    } else {
      assert events[..k] == events;
    }
  }

  /** In an accepted capture an event's step number is its index in its own series. */
  lemma StepIndexesSeries(events: seq<RawEvent>, expertCount: int, e: RawEvent)
    requires Acceptable(events, expertCount) && e in events
    ensures 0 <= e.step < |Project(events, e.split, e.layer)|
    ensures Project(events, e.split, e.layer)[e.step] == e.experts
  {
    var i :| 0 <= i < |events| && events[i] == e;
    assert GoodAt(events, i, expertCount);
    PrefixStep(events, i);
    ProjectPrefix(events, i + 1, e.split, e.layer);
  }

  lemma OfSplitMembers(events: seq<RawEvent>, split: string)
    ensures forall e :: e in OfSplit(events, split) ==> e in events && e.split == split
  {
    if events != [] {
      OfSplitMembers(events[..|events| - 1], split);
    }
  }

  function StepTotal(events: seq<RawEvent>, split: string, layers: seq<int>): nat {
    if layers == [] then 0
    else |Project(events, split, layers[0])| + StepTotal(events, split, layers[1..])
  }

  lemma {:induction false} StepTotalStep(events: seq<RawEvent>, split: string, layers: seq<int>)
    requires events != [] && NoDup(layers)
    ensures StepTotal(events, split, layers)
         == StepTotal(events[..|events| - 1], split, layers)
          + (if events[|events| - 1].split == split && events[|events| - 1].layer in layers then 1 else 0)
  {
    if layers != [] {
      NoDupCons(layers[0], layers[1..]);
      assert layers == [layers[0]] + layers[1..];
      StepTotalStep(events, split, layers[1..]);
    }
  }

  lemma {:induction false} StepTotalEmpty(split: string, layers: seq<int>)
    ensures StepTotal([], split, layers) == 0
  {
    if layers != [] {
      StepTotalEmpty(split, layers[1..]);
    }
  }

  /** The layers partition the events of a split. */
  lemma {:induction false} SplitIsSumOfLayers(events: seq<RawEvent>, split: string, layers: seq<int>)
    requires NoDup(layers)
    requires forall e :: e in events && e.split == split ==> e.layer in layers
    ensures |OfSplit(events, split)| == StepTotal(events, split, layers)
  {
    if events == [] {
      StepTotalEmpty(split, layers);
    } else {
      var n := |events| - 1;
      assert events == events[..n] + [events[n]];
      SplitIsSumOfLayers(events[..n], split, layers);
      StepTotalStep(events, split, layers);
    }
  }

  lemma {:induction false} EqualSteps(events: seq<RawEvent>, split: string, layers: seq<int>, steps: nat)
    requires forall l :: l in layers ==> |Project(events, split, l)| == steps
    ensures StepTotal(events, split, layers) == |layers| * steps
  {
    if layers != [] {
      EqualSteps(events, split, layers[1..], steps);
      assert |layers| * steps == |layers[1..]| * steps + steps;
    }
  }

  /** After validation every split holds one event per layer and step: no remainder is possible. */
  lemma NoRemainder(events: seq<RawEvent>, c: Checked, split: string)
    requires Acceptable(events, c.expertCount) && Describes(c, events) && split in c.phases
    ensures |OfSplit(events, split)| == |c.layers| * |Project(events, split, c.layers[0])|
    ensures |OfSplit(events, split)| % |c.layers| == 0
    ensures forall l :: l in c.layers ==> |Project(events, split, l)| == |Project(events, split, c.layers[0])|
    ensures |Project(events, split, c.layers[0])| >= 2
  {
    assert EvenlyCovered(events, split);
    assert c.layers[0] in c.layers;
    var steps := |Project(events, split, c.layers[0])|;
    forall e | e in events && e.split == split
      ensures e.layer in c.layers
    {
      StepIndexesSeries(events, c.expertCount, e);
    }
    SplitIsSumOfLayers(events, split, c.layers);
    forall l | l in c.layers
      ensures |Project(events, split, l)| == steps
    {
    }
    EqualSteps(events, split, c.layers, steps);
    Quotient(|c.layers| * steps, |c.layers|, steps, 0);
  }

  lemma MulBounds(x: int, l: nat)
    ensures x >= 1 ==> x * l >= l
    ensures x <= -1 ==> x * l + l <= 0
  {
  }

  /** Euclidean division is determined by its equation. */
  lemma Quotient(a: int, l: nat, q: int, r: nat)
    requires r < l && a == q * l + r
    ensures a / l == q && a % l == r
  {
    var q', r' := a / l, a % l;
    assert a == l * q' + r';
    assert (q - q') * l == r' - r;
    MulBounds(q - q', l);
  }

  /**
   The two readings agree: in a capture both accept, position `k = t * L + i` of
   a split is series `t` of layer `i`, and those positions are all there are.
   */
  lemma ReadingsAgree(events: seq<RawEvent>, c: Checked, split: string, t: nat, i: nat, k: int)
    requires Acceptable(events, c.expertCount) && Describes(c, events) && split in c.phases
    requires Canonical(events, split, c.layers)
    requires i < |c.layers| && t < |Project(events, split, c.layers[0])| && k == t * |c.layers| + i
    ensures |Groups(OfSplit(events, split))| == |c.layers| * |Project(events, split, c.layers[0])|
    ensures c.layers[i] in c.streams[split] && t < |c.streams[split][c.layers[i]]|
    ensures 0 <= k < |Groups(OfSplit(events, split))|
    ensures Groups(OfSplit(events, split))[k] == Group(c.layers[i], c.streams[split][c.layers[i]][t])
  {
    hide Project, OfSplit, Phases;
    var f := OfSplit(events, split);
    NoRemainder(events, c, split);
    assert c.layers[0] in c.layers && c.layers[i] in c.layers;
    assert EvenlyCovered(events, split);
    PositionInRange(|c.layers|, t, i, |Project(events, split, c.layers[0])|);
    Quotient(k, |c.layers|, t, i);
    assert f[k] in f;
    OfSplitMembers(events, split);
    StepIndexesSeries(events, c.expertCount, f[k]);
  }

  lemma PositionInRange(l: nat, t: nat, i: nat, steps: nat)
    requires i < l && t < steps
    ensures 0 <= t * l + i < l * steps
  {
    MulBounds(steps - t, l);
    assert (steps - t) * l == l * steps - t * l;
  }

  /** Every group of a validated split stays in one declared layer, with distinct declared experts. */
  lemma GroupShape(events: seq<RawEvent>, c: Checked, split: string, k: nat)
    requires Acceptable(events, c.expertCount) && Describes(c, events) && split in c.phases
    requires k < |Groups(OfSplit(events, split))|
    ensures var e := OfSplit(events, split)[k];
      && GoodFields(e, c.expertCount) && e.layer in c.layers
      && Groups(OfSplit(events, split))[k] == Group(e.layer, e.experts)
  {
    var e := OfSplit(events, split)[k];
    OfSplitMembers(events, split);
    assert e in OfSplit(events, split);
    var i :| 0 <= i < |events| && events[i] == e;
    assert GoodAt(events, i, c.expertCount);
    StepIndexesSeries(events, c.expertCount, e);
    assert EvenlyCovered(events, split);
  }

  // ------------------------------------------------------------ the readers

  predicate IsLeast(m: int, s: set<int>) {
    m in s && forall y :: y in s ==> m <= y
  }

  /** `sorted(keys)`. */
  function SortedInts(s: set<int>): seq<int>
    decreases |s|
  {
    if s == {} then []
    else
      HasMinimum(s);
      var m :| IsLeast(m, s);
      [m] + SortedInts(s - {m})
  }

  lemma HasMember(s: set<int>)
    ensures s == {} || exists x :: x in s
  {
    if !exists x :: x in s {
      assert s == {};
    }
  }

  lemma HasMinimum(s: set<int>)
    requires s != {}
    ensures exists m :: IsLeast(m, s)
    decreases |s|
  {
    HasMember(s);
    var x :| x in s;
    var rest := s - {x};
    if rest == {} {
      assert forall y :: y in s ==> y in rest || y == x;
      assert IsLeast(x, s);
    } else {
      HasMinimum(rest);
      var m :| IsLeast(m, rest);
      LeastOfTwo(s, x, m);
    }
  }

  lemma LeastOfTwo(s: set<int>, x: int, m: int)
    requires x in s && IsLeast(m, s - {x})
    ensures IsLeast(if x <= m then x else m, s)
  {
    forall y | y in s
      ensures y == x || m <= y
    {
      assert y != x ==> y in s - {x};
    }
  }

  lemma SortedIntsSpec(s: set<int>)
    ensures forall y :: y in SortedInts(s) ==> y in s
    ensures forall y :: y in s ==> y in SortedInts(s)
    ensures Ascending(SortedInts(s))
    decreases |s|
  {
    if s != {} {
      HasMinimum(s);
      var m :| IsLeast(m, s) && SortedInts(s) == [m] + SortedInts(s - {m});
      SortedIntsSpec(s - {m});
      AscendingCons(m, SortedInts(s - {m}));
    }
  }

  ghost predicate Ascending(s: seq<int>) {
    forall i, j :: 0 <= i < j < |s| ==> s[i] < s[j]
  }

  lemma AscendingCons(m: int, s: seq<int>)
    requires Ascending(s) && forall y :: y in s ==> m < y
    ensures Ascending([m] + s)
  {
    forall j | 0 <= j < |s|
      ensures m < s[j]
    {
      assert s[j] in s;
    }
  }

  /** The streams built so far hold exactly the projections of the events read so far. */
  lemma StreamsStep(events: seq<RawEvent>, i: nat, streams: Streams, mapping: map<int, seq<seq<int>>>)
    requires i < |events| && StreamsOf(events[..i], streams)
    requires SplitStream(events[..i], events[i].split, mapping)
    ensures var e := events[i];
      var series := if e.layer in mapping then mapping[e.layer] else [];
      StreamsOf(events[..i + 1], streams[e.split := mapping[e.layer := series + [e.experts]]])
  {
    hide Project, Phases, SplitStream;
    PhasesGrow(events, i);
    SameSplitStep(events, i, mapping);
    forall split | split in streams && split != events[i].split
      ensures SplitStream(events[..i + 1], split, streams[split])
    {
      OtherSplitStep(events, i, split, streams[split]);
    }
  }

  lemma SameSplitStep(events: seq<RawEvent>, i: nat, mapping: map<int, seq<seq<int>>>)
    requires i < |events| && SplitStream(events[..i], events[i].split, mapping)
    ensures var e := events[i];
      var series := if e.layer in mapping then mapping[e.layer] else [];
      SplitStream(events[..i + 1], e.split, mapping[e.layer := series + [e.experts]])
  {
    hide Project;
    forall l
      ensures Project(events[..i + 1], events[i].split, l)
           == if events[i].layer == l then Project(events[..i], events[i].split, l) + [events[i].experts]
              else Project(events[..i], events[i].split, l)
    {
      ProjectStep(events, i, events[i].split, l);
    }
  }

  lemma OtherSplitStep(events: seq<RawEvent>, i: nat, split: string, mapping: map<int, seq<seq<int>>>)
    requires i < |events| && events[i].split != split && SplitStream(events[..i], split, mapping)
    ensures SplitStream(events[..i + 1], split, mapping)
  {
    hide Project;
    forall l
      ensures Project(events[..i + 1], split, l) == Project(events[..i], split, l)
    {
      ProjectStep(events, i, split, l);
    }
  }

  lemma ProjectStep(events: seq<RawEvent>, i: nat, split: string, layer: int)
    requires i < |events|
    ensures Project(events[..i + 1], split, layer)
         == if events[i].split == split && events[i].layer == layer
            then Project(events[..i], split, layer) + [events[i].experts]
            else Project(events[..i], split, layer)
  {
    PrefixStep(events, i);
  }

  lemma NewSplit(events: seq<RawEvent>, split: string)
    requires split !in Phases(events)
    ensures SplitStream(events, split, map[])
  {
    forall l
      ensures Project(events, split, l) == []
    {
      ProjectEmpty(events, split, l);
    }
  }

  lemma PhasesGrow(events: seq<RawEvent>, i: nat)
    requires i < |events|
    ensures forall split :: split in Phases(events[..i + 1]) <==> split in Phases(events[..i]) || split == events[i].split
    ensures var p := Phases(events[..i]);
      Phases(events[..i + 1])
      == if p == [] || p[|p| - 1] != events[i].split then p + [events[i].split] else p
  {
    var longer := events[..i + 1];
    PrefixStep(events, i);
    assert longer != [] && longer[|longer| - 1] == events[i] && longer[..|longer| - 1] == events[..i];
    var before := Phases(events[..i]);
    assert Phases(longer)
        == if before == [] || before[|before| - 1] != events[i].split then before + [events[i].split] else before;
    hide Phases;
    if before != [] {
      assert before[|before| - 1] in before;
    }
  }

  /** The field checks of one event. */
  method CheckFields(e: RawEvent, expertCount: int) returns (ok: bool)
    ensures ok <==> GoodFields(e, expertCount)
  {
    var distinct := NoRepeats(e.experts);
    ok := 0 <= e.layer <= 127 && 0 <= e.step <= 4095 && 1 <= |e.experts| <= 8
      && (forall x :: x in e.experts ==> 0 <= x < expertCount) && distinct;
  }

  /** The split-order and step checks of one event, and its entry in the streams. */
  method ReadEvent(events: seq<RawEvent>, i: nat, expertCount: int, phases0: seq<string>, streams0: Streams)
    returns (ok: bool, phases: seq<string>, streams: Streams)
    requires i < |events| && forall j :: 0 <= j < i ==> GoodAt(events, j, expertCount)
    requires phases0 == Phases(events[..i]) && StreamsOf(events[..i], streams0)
    requires GoodFields(events[i], expertCount)
    ensures ok <==> GoodAt(events, i, expertCount)
    ensures ok ==> phases == Phases(events[..i + 1]) && StreamsOf(events[..i + 1], streams)
  {
    hide Project, Phases, SplitStream, GoodFields;
    phases, streams := phases0, streams0;
    var e := events[i];
    PhasesGrow(events, i);
    var mapping: map<int, seq<seq<int>>>;
    if phases == [] || phases[|phases| - 1] != e.split {
      if e.split in streams || (phases == [] && e.split != "train") || (phases != [] && e.split == "train") {
        TrainIsFirst(events, i, expertCount);
        ok := false;
        return;
      }
      NewSplit(events[..i], e.split);
      phases := phases + [e.split];
      mapping := map[];
    } else {
      assert phases[|phases| - 1] in phases;
      mapping := streams[e.split];
    }
    var series := if e.layer in mapping then mapping[e.layer] else [];
    SeriesLength(events[..i], e.split, mapping, e.layer);
    ok := e.step == |series|;
    StreamsStep(events, i, streams, mapping);
    streams := streams[e.split := mapping[e.layer := series + [e.experts]]];
  }

  /**
   `_validate`: one pass that groups the events, then the coverage checks. It
   accepts exactly the acceptable captures and returns their description.
   */
  method Validate(events: seq<RawEvent>, expertCount: int) returns (r: Result<Checked, CaptureError>)
    ensures r.Success? <==> Acceptable(events, expertCount)
    ensures r.Success? ==> Describes(r.value, events) && r.value.expertCount == expertCount
    ensures r.Failure? ==> r.error == InvalidCapture
  {
    hide GoodFields, Phases, Project, StreamsOf, EvenlyCovered, Describes;
    if !(4 <= expertCount <= 256) || !(4 <= |events| <= MAX_EVENTS) {
      return Failure(InvalidCapture);
    }
    var streams: Streams := map[];
    var phases: seq<string> := [];
    var i := 0;
    NothingRead(events);
    while i < |events|
      invariant i <= |events|
      invariant forall j :: 0 <= j < i ==> GoodAt(events, j, expertCount)
      invariant phases == Phases(events[..i])
      invariant StreamsOf(events[..i], streams)
    {
      var fields := CheckFields(events[i], expertCount);
      if !fields {
        assert !GoodAt(events, i, expertCount);
        return Failure(InvalidCapture);
      }
      var ok;
      ok, phases, streams := ReadEvent(events, i, expertCount, phases, streams);
      if !ok {
        return Failure(InvalidCapture);
      }
      i := i + 1;
    }
    assert events[..i] == events;
    if !(2 <= |phases| <= 9) {
      return Failure(InvalidCapture);
    }
    FirstIsTrain(events, expertCount);
    TrainStream(events, streams);
    var layers := SortedInts(streams["train"].Keys);
    var c := Checked(expertCount, streams, layers, phases);
    DescribesCapture(events, c);
    r := CheckCoverage(events, expertCount, c);
  }

  lemma TrainStream(events: seq<RawEvent>, streams: Streams)
    requires StreamsOf(events, streams) && "train" in Phases(events)
    ensures "train" in streams
  {
  }

  lemma NothingRead(events: seq<RawEvent>)
    ensures events[..0] == [] && Phases(events[..0]) == [] && StreamsOf(events[..0], map[])
  {
  }

  lemma SeriesLength(events: seq<RawEvent>, split: string, mapping: map<int, seq<seq<int>>>, layer: int)
    requires SplitStream(events, split, mapping)
    ensures (if layer in mapping then mapping[layer] else []) == Project(events, split, layer)
  {
  }

  /** `len(set(xs)) == len(xs)`. */
  method NoRepeats(xs: seq<int>) returns (ok: bool)
    ensures ok <==> NoDup(xs)
  {
    DistinctCount(xs);
    ok := |Distinct(xs)| == |xs|;
  }

  lemma TrainIsFirst(events: seq<RawEvent>, i: nat, expertCount: int)
    requires i < |events| && (forall j :: 0 <= j < i ==> GoodAt(events, j, expertCount))
    ensures Phases(events[..i]) != [] ==> "train" in Phases(events[..i])
  {
    if Phases(events[..i]) != [] {
      assert i > 0;
      assert GoodAt(events, 0, expertCount);
      assert events[..0] == [];
      assert events[0] in events[..i];
      PhaseMembers(events[..i]);
    }
  }

  lemma FirstIsTrain(events: seq<RawEvent>, expertCount: int)
    requires events != [] && GoodAt(events, 0, expertCount)
    ensures "train" in Phases(events)
    ensures Project(events, "train", events[0].layer) != []
  {
    assert events[..0] == [];
    PhaseMembers(events);
    assert events[0] in events;
    ProjectPrefix(events, 1, "train", events[0].layer);
    PrefixStep(events, 0);
  }

  lemma DescribesCapture(events: seq<RawEvent>, c: Checked)
    requires c.phases == Phases(events) && StreamsOf(events, c.streams) && "train" in c.phases
    requires events != [] && Project(events, "train", events[0].layer) != []
    requires c.layers == SortedInts(c.streams["train"].Keys)
    ensures Describes(c, events)
  {
    hide Project, Phases, SortedInts;
    SortedIntsSpec(c.streams["train"].Keys);
    assert events[0].layer in c.streams["train"];
    AscendingNoDup(c.layers);
  }

  lemma AscendingNoDup(s: seq<int>)
    requires Ascending(s)
    ensures NoDup(s)
  {
  }

  /** One turn of the coverage loop. */
  method CheckSplit(events: seq<RawEvent>, c: Checked, split: string) returns (ok: bool)
    requires Describes(c, events) && split in c.phases
    ensures ok <==> EvenlyCovered(events, split)
  {
    hide Project, Phases;
    var mapping := c.streams[split];
    assert SplitStream(events, split, mapping);
    if mapping.Keys != (set l | l in c.layers) {
      LayersDiffer(events, c, split);
      return false;
    }
    assert c.layers[0] in mapping.Keys;
    if exists l :: l in c.layers && |mapping[l]| != |mapping[c.layers[0]]| {
      return false;
    }
    ok := 2 <= |mapping[c.layers[0]]| <= 4096;
    if ok {
      CoverageHolds(events, c, split);
    }
  }

  /** The per-split loop: same layers everywhere, and one common number of steps per split. */
  method CheckCoverage(events: seq<RawEvent>, expertCount: int, c: Checked) returns (r: Result<Checked, CaptureError>)
    requires Describes(c, events) && "train" in c.phases
    requires 4 <= expertCount <= 256 && 4 <= |events| <= MAX_EVENTS && 2 <= |c.phases| <= 9
    requires forall i :: 0 <= i < |events| ==> GoodAt(events, i, expertCount)
    ensures r == if Acceptable(events, expertCount) then Success(c) else Failure(InvalidCapture)
  {
    hide Project, Phases, GoodAt, EvenlyCovered, StreamsOf;
    var p := 0;
    while p < |c.phases|
      invariant p <= |c.phases|
      invariant forall q :: 0 <= q < p ==> EvenlyCovered(events, c.phases[q])
    {
      assert c.phases[p] in c.phases;
      var ok := CheckSplit(events, c, c.phases[p]);
      if !ok {
        return Failure(InvalidCapture);
      }
      p := p + 1;
    }
    r := Success(c);
  }

  lemma LayersDiffer(events: seq<RawEvent>, c: Checked, split: string)
    requires Describes(c, events) && split in c.phases
    requires c.streams[split].Keys != (set l | l in c.layers)
    ensures !EvenlyCovered(events, split)
  {
    assert exists l :: (l in c.streams[split].Keys) != (l in (set m | m in c.layers));
  }

  lemma CoverageHolds(events: seq<RawEvent>, c: Checked, split: string)
    requires Describes(c, events) && split in c.phases
    requires c.streams[split].Keys == (set l | l in c.layers)
    requires forall l :: l in c.layers ==> |c.streams[split][l]| == |c.streams[split][c.layers[0]]|
    requires 2 <= |c.streams[split][c.layers[0]]| <= 4096
    ensures EvenlyCovered(events, split)
  {
    forall l
      ensures l in c.streams[split] <==> l in c.layers
      ensures l in c.layers ==> |Project(events, split, l)| == |c.streams[split][c.layers[0]]|
    {
      assert l in c.streams[split].Keys <==> l in (set m | m in c.layers);
    }
  }

  /** `[(step, layer) for step in range(steps) for layer in layers]`. */
  function StepMajor(steps: nat, layers: seq<int>): seq<(int, int)> {
    if steps == 0 then []
    else StepMajor(steps - 1, layers) + seq(|layers|, i requires 0 <= i < |layers| => (steps - 1, layers[i]))
  }

  lemma {:induction false} StepMajorAt(steps: nat, layers: seq<int>)
    requires layers != []
    ensures |StepMajor(steps, layers)| == steps * |layers|
    ensures forall k :: 0 <= k < |StepMajor(steps, layers)|
              ==> StepMajor(steps, layers)[k] == (k / |layers|, layers[k % |layers|])
  {
    if steps > 0 {
      StepMajorAt(steps - 1, layers);
      var m := |StepMajor(steps - 1, layers)|;
      assert steps * |layers| == m + |layers|;
      forall k | m <= k < m + |layers|
        ensures StepMajor(steps, layers)[k] == (k / |layers|, layers[k % |layers|])
      {
        Quotient(k, |layers|, steps - 1, k - m);
      }
    }
  }

  /** The collecting loop: per split, the groups and their (step, layer) positions. */
  method Collect(events: seq<RawEvent>, phases: seq<string>)
    returns (r: Option<(map<string, seq<seq<Resource>>>, map<string, seq<(int, int)>>)>)
    ensures r.Some? <==> forall e :: e in events ==> e.split in phases
    ensures r.Some? ==> forall name :: name in phases ==>
      && name in r.value.0 && r.value.0[name] == Groups(OfSplit(events, name))
      && name in r.value.1 && r.value.1[name] == Positions(OfSplit(events, name))
  {
    hide OfSplit, Groups, Positions;
    NothingSplit(events);
    var bySplit: map<string, seq<seq<Resource>>> := map name | name in phases :: [];
    var positions: map<string, seq<(int, int)>> := map name | name in phases :: [];
    var i := 0;
    while i < |events|
      invariant i <= |events|
      invariant bySplit.Keys == positions.Keys == (set name | name in phases)
      invariant forall j :: 0 <= j < i ==> events[j].split in phases
      invariant forall name :: name in phases ==>
        && bySplit[name] == Groups(OfSplit(events[..i], name))
        && positions[name] == Positions(OfSplit(events[..i], name))
    {
      var e := events[i];
      if e.split !in bySplit {
        assert e in events;
        return None;
      }
      SplitsStep(events, i);
      bySplit := bySplit[e.split := bySplit[e.split] + [Group(e.layer, e.experts)]];
      positions := positions[e.split := positions[e.split] + [(e.step, e.layer)]];
      i := i + 1;
    }
    assert events[..i] == events;
    r := Some((bySplit, positions));
  }

  /** `_split_events`: the same events per split, refused unless their order is step-major. */
  method SplitEvents(events: seq<RawEvent>, layers: seq<int>, phases: seq<string>)
    returns (r: Result<map<string, seq<seq<Resource>>>, CaptureError>)
    requires layers != []
    ensures r.Success? <==>
      (forall e :: e in events ==> e.split in phases) && (forall name :: name in phases ==> Canonical(events, name, layers))
    ensures r.Success? ==>
      forall name :: name in phases ==> name in r.value && r.value[name] == Groups(OfSplit(events, name))
  {
    hide OfSplit, Groups, Positions, Canonical, StepMajor;
    var collected := Collect(events, phases);
    if collected.None? {
      return Failure(InvalidCapture);
    }
    var bySplit, positions := collected.value.0, collected.value.1;
    var p := 0;
    while p < |phases|
      invariant p <= |phases|
      invariant forall q :: 0 <= q < p ==> Canonical(events, phases[q], layers)
    {
      var name := phases[p];
      assert name in phases;
      CanonicalIff(events, name, layers);
      if |bySplit[name]| % |layers| != 0 {
        return Failure(NoncanonicalOrder);
      }
      var steps := |bySplit[name]| / |layers|;
      if positions[name] != StepMajor(steps, layers) {
        return Failure(NoncanonicalOrder);
      }
      p := p + 1;
    }
    r := Success(bySplit);
  }

  lemma NothingSplit(events: seq<RawEvent>)
    ensures events[..0] == []
    ensures forall name :: OfSplit([], name) == []
    ensures Groups([]) == [] && Positions([]) == []
  {
  }

  /** Reading one event changes what is held for its own split only. */
  lemma SplitsStep(events: seq<RawEvent>, i: nat)
    requires i < |events|
    ensures var e := events[i];
      && Groups(OfSplit(events[..i + 1], e.split))
      == Groups(OfSplit(events[..i], e.split)) + [Group(e.layer, e.experts)]
      && Positions(OfSplit(events[..i + 1], e.split))
      == Positions(OfSplit(events[..i], e.split)) + [(e.step, e.layer)]
    ensures forall name | name != events[i].split :: OfSplit(events[..i + 1], name) == OfSplit(events[..i], name)
  {
    OfSplitStep(events, i, events[i].split);
    GroupsStep(OfSplit(events[..i], events[i].split), events[i]);
    forall name | name != events[i].split
      ensures OfSplit(events[..i + 1], name) == OfSplit(events[..i], name)
    {
      OfSplitStep(events, i, name);
    }
  }

  lemma OfSplitStep(events: seq<RawEvent>, i: nat, name: string)
    requires i < |events|
    ensures OfSplit(events[..i + 1], name)
         == if events[i].split == name then OfSplit(events[..i], name) + [events[i]]
            else OfSplit(events[..i], name)
  {
    PrefixStep(events, i);
  }

  function Positions(events: seq<RawEvent>): seq<(int, int)> {
    seq(|events|, i requires 0 <= i < |events| => (events[i].step, events[i].layer))
  }

  lemma GroupsStep(f: seq<RawEvent>, e: RawEvent)
    ensures Groups(f + [e]) == Groups(f) + [Group(e.layer, e.experts)]
    ensures Positions(f + [e]) == Positions(f) + [(e.step, e.layer)]
  {
  }

  /** The list comparison in the source decides exactly the step-major placement. */
  lemma CanonicalIff(events: seq<RawEvent>, name: string, layers: seq<int>)
    requires layers != []
    ensures var f := OfSplit(events, name);
      && |Groups(f)| == |f|
      && (Canonical(events, name, layers)
          <==> |f| % |layers| == 0 && Positions(f) == StepMajor(|f| / |layers|, layers))
  {
    hide OfSplit, StepMajor;
    var f := OfSplit(events, name);
    if |f| % |layers| == 0 {
      var wanted := StepMajor(|f| / |layers|, layers);
      StepMajorAt(|f| / |layers|, layers);
      assert |f| == (|f| / |layers|) * |layers|;
      if Positions(f) == wanted {
        forall k | 0 <= k < |f|
          ensures f[k].step == k / |layers| && f[k].layer == layers[k % |layers|]
        {
          assert Positions(f)[k] == wanted[k];
        }
      }
    }
  }
}
