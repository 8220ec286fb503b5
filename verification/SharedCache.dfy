/**
 The shared-budget replay of `phios/elastic_shared_r13.py`: one cache spans all
 layers, every expert of a routed event must be resident together, and the
 victim of an eviction is the least recent resident outside the event.
 */
module SharedCache {
  import opened Wrappers
  import opened Sequences
  import opened RecencyStack

  datatype Tally = Tally(
    staged: int, preload: int, hits: int, misses: int, evictions: int,
    peak: int, resident: int, uses: int)

  datatype Refusal = MandatoryPinsExceedBudget | AtomicGroupExceedsCapacity

  datatype State<T> = State(lru: seq<T>, tally: Tally)

  function Max(a: int, b: int): int {
    if a < b then b else a
  }

  /** The counters after a miss stages `bytes` on top of `resident`. */
  function Loaded(t: Tally, bytes: nat, resident: int, evictions: int): Tally {
    t.(uses := t.uses + 1, misses := t.misses + 1, staged := t.staged + bytes,
       evictions := evictions, resident := resident + bytes, peak := Max(t.peak, resident + bytes))
  }

  /** The first member of `s` outside the group: Python's `next(... , None)` over the LRU. */
  function FirstOutside<T(==)>(s: seq<T>, group: seq<T>): Option<T> {
    if s == [] then None
    else if s[0] !in group then Some(s[0])
    else FirstOutside(s[1..], group)
  }

  lemma FirstOutsideIsHead<T>(s: seq<T>, group: seq<T>)
    ensures FirstOutside(s, group)
         == if Outside(s, group) == [] then None else Some(Outside(s, group)[0])
  {
  }

  /** A configured cache, and the reference semantics of one replay through it. */
  datatype Cache<!T(==)> = Cache(pinned: seq<T>, size: T -> nat, effective: int) {

    /** Bytes left for demand-loaded experts once the pins are charged. */
    function Room(): int {
      effective - Weight(pinned, size)
    }

    predicate GroupFits(event: seq<T>) {
      Weight(Distinct(pinned + event), size) <= effective
    }

    /** What an event asks of the LRU: its experts that are not pinned. */
    function Demand(event: seq<T>): seq<T> {
      Outside(event, pinned)
    }

    /**
     The accesses of an event that miss. Nothing an event uses is evicted before
     the event ends, so an expert misses exactly when it was neither pinned nor
     resident at the start of the event, and at most once.
     */
    function Faults(event: seq<T>, lru: seq<T>): seq<T> {
      if event == [] then []
      else
        var earlier := Faults(event[..|event| - 1], lru);
        var key := event[|event| - 1];
        if key in pinned || key in lru || key in earlier then earlier else earlier + [key]
    }

    /** Bytes of group members held once the first `i` accesses of `event` are served. */
    function Held(event: seq<T>, i: nat, lru: seq<T>): int
      requires i <= |event|
    {
      Weight(Inside(lru, event), size) + Weight(Faults(event[..i], lru), size)
    }

    /** The bystanders that survive those accesses. */
    function Kept(event: seq<T>, i: nat, lru: seq<T>): seq<T>
      requires i <= |event|
    {
      Fit(Outside(lru, event), size, Room() - Held(event, i, lru))
    }

    function ResidentAt(event: seq<T>, i: nat, lru: seq<T>): int
      requires i <= |event|
    {
      Weight(pinned, size) + Held(event, i, lru) + Weight(Kept(event, i, lru), size)
    }

    function PeakAt(event: seq<T>, i: nat, lru: seq<T>, before: int): int
      requires i <= |event|
    {
      if i == 0 then before
      else Max(PeakAt(event, i - 1, lru, before), ResidentAt(event, i, lru))
    }

    /** The counters once the first `i` accesses of an event are served. */
    function TallyAt(event: seq<T>, i: nat, lru: seq<T>, before: Tally): Tally
      requires i <= |event|
    {
      var faults := Faults(event[..i], lru);
      before.(
        staged := before.staged + Weight(faults, size),
        hits := before.hits + i - |faults|,
        misses := before.misses + |faults|,
        evictions := before.evictions + |Outside(lru, event)| - |Kept(event, i, lru)|,
        peak := PeakAt(event, i, lru, before.peak),
        resident := ResidentAt(event, i, lru),
        uses := before.uses + i)
    }

    function Start(): State<T> {
      var bytes := Weight(pinned, size);
      State([], Tally(bytes, bytes, 0, 0, 0, bytes, bytes, 0))
    }

    /** One event: touch its demand on the recency stack, then cut the stack to the room. */
    function AfterEvent(st: State<T>, event: seq<T>): State<T> {
      var faults := Faults(event, st.lru);
      var lru := Fit(TouchAll(st.lru, Demand(event)), size, Room());
      State(lru, st.tally.(
        staged := st.tally.staged + Weight(faults, size),
        hits := st.tally.hits + |event| - |faults|,
        misses := st.tally.misses + |faults|,
        evictions := st.tally.evictions + |st.lru| + |faults| - |lru|,
        peak := PeakAt(event, |event|, st.lru, st.tally.peak),
        resident := Weight(pinned, size) + Weight(lru, size),
        uses := st.tally.uses + |event|))
    }

    function Replay(events: seq<seq<T>>): State<T> {
      if events == [] then Start()
      else AfterEvent(Replay(events[..|events| - 1]), events[|events| - 1])
    }

    ghost predicate AllFit(events: seq<seq<T>>) {
      forall event :: event in events ==> GroupFits(event)
    }

    /** What a replay must report: one of the two guards, or the reference tally. */
    ghost function Outcome(events: seq<seq<T>>): Result<Tally, Refusal> {
      if Room() < 0 then Failure(MandatoryPinsExceedBudget)
      else if !AllFit(events) then Failure(AtomicGroupExceedsCapacity)
      else Success(Replay(events).tally)
    }

    ghost predicate Sound(lru: seq<T>) {
      && NoDup(pinned) && NoDup(lru)
      && (forall y :: y in lru ==> y !in pinned)
      && Weight(lru, size) <= Room()
    }

    lemma AllFitStep(events: seq<seq<T>>, e: nat)
      requires e < |events|
      ensures AllFit(events[..e]) && GroupFits(events[e]) ==> AllFit(events[..e + 1])
      ensures !GroupFits(events[e]) ==> !AllFit(events)
      ensures Replay(events[..e + 1]) == AfterEvent(Replay(events[..e]), events[e])
    {
      assert events[..e + 1][..e] == events[..e];
      assert events[..e + 1] == events[..e] + [events[e]];
    }

    lemma FaultsElems(event: seq<T>, lru: seq<T>)
      ensures NoDup(Faults(event, lru))
      ensures forall y :: y in Faults(event, lru) ==> y in event && y !in pinned && y !in lru
      ensures forall y :: y in event && y !in pinned && y !in lru ==> y in Faults(event, lru)
      ensures |Faults(event, lru)| <= |event|
    {
      if event != [] {
        var n := |event| - 1;
        FaultsElems(event[..n], lru);
        assert event == event[..n] + [event[n]];
      }
    }

    /** The group, resident members and faults together, fits beside the pins. */
    lemma HeldFits(event: seq<T>, i: nat, lru: seq<T>)
      requires Sound(lru) && GroupFits(event) && i <= |event|
      ensures Held(event, i, lru) <= Room()
    {
      var faults := Faults(event[..i], lru);
      var mine := Inside(lru, event);
      FaultsElems(event[..i], lru);
      assert forall y :: y in event[..i] ==> y in event;
      OutsideElems(lru, event);
      DistinctElems(pinned + event);
      var all := pinned + (mine + faults);
      forall y | y in mine
        ensures y in lru && y in event && y !in faults
      {
        assert y in Inside(lru, event);
      }
      forall y | y in faults
        ensures y in event
      {
        assert y in event[..i];
      }
      NoDupJoin(mine, faults);
      NoDupJoin(pinned, mine + faults);
      WeightSubset(all, Distinct(pinned + event), size);
      WeightConcat(pinned, mine + faults, size);
      WeightConcat(mine, faults, size);
    }

    /**
     Between two accesses the LRU reads `rest + tail`: the served demand sits at
     the recent end, the rest has lost only bystanders.
     */
    ghost predicate Shape(event: seq<T>, i: nat, rest: seq<T>, tail: seq<T>)
      requires i <= |event|
    {
      && tail == TouchAll([], Demand(event[..i]))
      && NoDup(rest + tail)
      && (forall y :: y in rest + tail ==> y !in pinned)
      && (forall y :: y in Demand(event[..i]) ==> y !in rest)
    }

    /** A group member is resident exactly when it started resident or has been loaded. */
    ghost predicate Members(event: seq<T>, i: nat, start: seq<T>, now: seq<T>)
      requires i <= |event|
    {
      && (forall y :: y in event && y in now ==> y in start || y in Faults(event[..i], start))
      && (forall y :: y in event && y !in pinned && y in start ==> y in now)
      && (forall y :: y in Faults(event[..i], start) ==> y in now)
    }

    ghost predicate Totals(event: seq<T>, i: nat, start: seq<T>, rest: seq<T>, tail: seq<T>)
      requires i <= |event|
    {
      && Weight(Inside(rest, event), size) + Weight(tail, size) == Held(event, i, start)
      && |Inside(rest, event)| + |tail| == |Inside(start, event)| + |Faults(event[..i], start)|
    }

    ghost predicate MidEvent(event: seq<T>, i: nat, start: seq<T>, rest: seq<T>, tail: seq<T>)
      requires i <= |event|
    {
      && Shape(event, i, rest, tail)
      && Members(event, i, start, rest + tail)
      && Totals(event, i, start, rest, tail)
    }

    /** The state between two accesses: nothing but the surviving bystanders and the group. */
    ghost predicate Serving(event: seq<T>, i: nat, start: seq<T>, rest: seq<T>, tail: seq<T>)
      requires i <= |event|
    {
      MidEvent(event, i, start, rest, tail) && Outside(rest, event) == Kept(event, i, start)
    }

    ghost predicate Coherent(st: State<T>) {
      st.tally.peak >= st.tally.resident == Weight(pinned, size) + Weight(st.lru, size)
    }

    lemma MidEventStarts(event: seq<T>, start: seq<T>)
      requires Sound(start)
      ensures MidEvent(event, 0, start, start, [])
      ensures Room() >= Held(event, 0, start) ==> Kept(event, 0, start) == Outside(start, event)
    {
      assert event[..0] == [];
      assert start + [] == start;
      OutsideInsideWeight(start, event, size);
    }

    /** The tail consists of group members, so the LRU's bystanders are those of `rest`. */
    lemma MidEventWeight(event: seq<T>, i: nat, start: seq<T>, rest: seq<T>, tail: seq<T>)
      requires i <= |event| && MidEvent(event, i, start, rest, tail)
      ensures Weight(rest + tail, size) == Weight(Outside(rest, event), size) + Held(event, i, start)
      ensures |rest + tail|
           == |Outside(rest, event)| + |Inside(start, event)| + |Faults(event[..i], start)|
      ensures Outside(rest + tail, event) == Outside(rest, event)
    {
      WeightConcat(rest, tail, size);
      OutsideInsideWeight(rest, event, size);
      TailInGroup(event, i, tail);
      OutsideConcat(rest, tail, event);
      AllInside(tail, event);
    }

    lemma TailInGroup(event: seq<T>, i: nat, tail: seq<T>)
      requires i <= |event| && tail == TouchAll([], Demand(event[..i]))
      ensures forall y :: y in tail ==> y in event
    {
      TouchAllElems([], Demand(event[..i]));
      OutsideElems(event[..i], pinned);
    }

    lemma DemandStep(event: seq<T>, i: nat)
      requires i < |event|
      ensures event[..i + 1] == event[..i] + [event[i]]
      ensures Demand(event[..i + 1])
           == Demand(event[..i]) + (if event[i] in pinned then [] else [event[i]])
    {
      assert event[..i + 1] == event[..i] + [event[i]];
      OutsideConcat(event[..i], [event[i]], pinned);
    }

    lemma FaultsStep(event: seq<T>, i: nat, start: seq<T>)
      requires i < |event|
      ensures Faults(event[..i + 1], start)
           == if event[i] in pinned || event[i] in start || event[i] in Faults(event[..i], start)
              then Faults(event[..i], start)
              else Faults(event[..i], start) + [event[i]]
    {
      assert event[..i + 1][..i] == event[..i];
    }

    lemma PinnedHit(event: seq<T>, i: nat, start: seq<T>, rest: seq<T>, tail: seq<T>)
      requires i < |event| && event[i] in pinned && MidEvent(event, i, start, rest, tail)
      ensures MidEvent(event, i + 1, start, rest, tail)
      ensures Faults(event[..i + 1], start) == Faults(event[..i], start)
    {
      DemandStep(event, i);
      FaultsStep(event, i, start);
      assert Demand(event[..i]) + [] == Demand(event[..i]);
    }

    lemma LruHit(event: seq<T>, i: nat, start: seq<T>, rest: seq<T>, tail: seq<T>)
      requires i < |event| && event[i] !in pinned && event[i] in rest + tail
      requires MidEvent(event, i, start, rest, tail)
      ensures MidEvent(event, i + 1, start, Without(rest, event[i]), Touch(tail, event[i]))
      ensures Touch(rest + tail, event[i]) == Without(rest, event[i]) + Touch(tail, event[i])
      ensures Outside(Without(rest, event[i]), event) == Outside(rest, event)
      ensures Faults(event[..i + 1], start) == Faults(event[..i], start)
    {
      var key := event[i];
      FaultsStep(event, i, start);
      OutsideWithout(rest, event, key);
      MoveWithin(rest, tail, event, key);
      HitShape(event, i, rest, tail);
      TouchElems(rest + tail, key);
    }

    lemma HitShape(event: seq<T>, i: nat, rest: seq<T>, tail: seq<T>)
      requires i < |event| && event[i] !in pinned && Shape(event, i, rest, tail)
      ensures Shape(event, i + 1, Without(rest, event[i]), Touch(tail, event[i]))
      ensures Touch(rest + tail, event[i]) == Without(rest, event[i]) + Touch(tail, event[i])
    {
      var key := event[i];
      DemandStep(event, i);
      assert Demand(event[..i + 1])[..|Demand(event[..i])|] == Demand(event[..i]);
      WithoutConcat(rest, tail, key);
      assert Touch(rest + tail, key) == Without(rest, key) + Touch(tail, key);
      TouchElems(rest + tail, key);
      WithoutElems(rest, key);
    }

    /** Moving a group member from the rest to the tail changes no total. */
    lemma MoveWithin(rest: seq<T>, tail: seq<T>, event: seq<T>, key: T)
      requires key in event && key in rest + tail && NoDup(rest + tail)
      ensures Weight(Inside(Without(rest, key), event), size) + Weight(Touch(tail, key), size)
           == Weight(Inside(rest, event), size) + Weight(tail, size)
      ensures |Inside(Without(rest, key), event)| + |Touch(tail, key)|
           == |Inside(rest, event)| + |tail|
    {
      NoDupParts(rest, tail);
      OutsideWithout(rest, event, key);
      OutsideElems(rest, event);
      WeightConcat(Without(tail, key), [key], size);
      if key in rest {
        WithoutAbsent(tail, key);
        WithoutWeight(Inside(rest, event), key, size);
      } else {
        WithoutAbsent(rest, key);
        WithoutWeight(tail, key, size);
      }
    }

    lemma MissInsert(event: seq<T>, i: nat, start: seq<T>, rest: seq<T>, tail: seq<T>)
      requires i < |event| && event[i] !in pinned && event[i] !in rest + tail
      requires MidEvent(event, i, start, rest, tail)
      ensures MidEvent(event, i + 1, start, rest, tail + [event[i]])
      ensures Faults(event[..i + 1], start) == Faults(event[..i], start) + [event[i]]
      ensures Held(event, i + 1, start) == Held(event, i, start) + size(event[i])
    {
      var key := event[i];
      MissFaults(event, i, start, rest + tail);
      WithoutAbsent(rest, key);
      WithoutAbsent(tail, key);
      HitShape(event, i, rest, tail);
      WeightConcat(tail, [key], size);
    }

    /** The victim is the least recent bystander, and popping it spares everything else. */
    lemma Evict(event: seq<T>, i: nat, start: seq<T>, rest: seq<T>, tail: seq<T>)
      requires i <= |event| && MidEvent(event, i, start, rest, tail)
      requires Outside(rest, event) != []
      ensures FirstOutside(rest + tail, event) == Some(Outside(rest, event)[0])
      ensures Outside(rest, event)[0] in rest && Outside(rest, event)[0] !in event
      ensures Without(rest + tail, Outside(rest, event)[0])
           == Without(rest, Outside(rest, event)[0]) + tail
      ensures Outside(Without(rest, Outside(rest, event)[0]), event) == Outside(rest, event)[1..]
      ensures MidEvent(event, i, start, Without(rest, Outside(rest, event)[0]), tail)
    {
      var victim := Outside(rest, event)[0];
      MidEventWeight(event, i, start, rest, tail);
      FirstOutsideIsHead(rest + tail, event);
      NoDupParts(rest, tail);
      OutsideElems(rest, event);
      assert victim in Outside(rest, event);
      WithoutConcat(rest, tail, victim);
      WithoutAbsent(tail, victim);
      OutsideWithout(rest, event, victim);
      HeadRemoved(Outside(rest, event));
      EvictKeeps(event, i, start, rest, tail, victim);
    }

    lemma EvictKeeps(event: seq<T>, i: nat, start: seq<T>, rest: seq<T>, tail: seq<T>, victim: T)
      requires i <= |event| && MidEvent(event, i, start, rest, tail)
      requires victim in rest && victim !in event
      requires Without(rest + tail, victim) == Without(rest, victim) + tail
      ensures MidEvent(event, i, start, Without(rest, victim), tail)
    {
      WithoutElems(rest + tail, victim);
      WithoutElems(rest, victim);
      OutsideWithout(rest, event, victim);
      FaultsElems(event[..i], start);
      assert forall y :: y in event[..i] ==> y in event;
      forall y | y in Faults(event[..i], start)
        ensures y in Without(rest, victim) + tail
      {
        assert y in event[..i] && y in rest + tail;
      }
    }

    lemma MissFaults(event: seq<T>, i: nat, start: seq<T>, now: seq<T>)
      requires i < |event| && event[i] !in pinned && event[i] !in now
      requires Members(event, i, start, now)
      ensures Faults(event[..i + 1], start) == Faults(event[..i], start) + [event[i]]
      ensures Held(event, i + 1, start) == Held(event, i, start) + size(event[i])
    {
      FaultsStep(event, i, start);
      WeightConcat(Faults(event[..i], start), [event[i]], size);
    }

    lemma MissFits(event: seq<T>, i: nat, start: seq<T>, now: seq<T>)
      requires i < |event| && event[i] !in pinned && event[i] !in now
      requires Sound(start) && GroupFits(event) && Members(event, i, start, now)
      ensures Held(event, i, start) + size(event[i]) <= Room()
      ensures Fit(Kept(event, i, start), size, Room() - Held(event, i, start) - size(event[i]))
           == Kept(event, i + 1, start)
    {
      MissFaults(event, i, start, now);
      HeldFits(event, i + 1, start);
      FitMonotone(Outside(start, event), size, Room() - Held(event, i + 1, start),
                  Room() - Held(event, i, start));
    }

    lemma ServingUnpacked(event: seq<T>, i: nat, start: State<T>, rest: seq<T>, tail: seq<T>)
      requires i < |event| && Serving(event, i, start.lru, rest, tail)
      ensures MidEvent(event, i, start.lru, rest, tail) && Members(event, i, start.lru, rest + tail)
      ensures Outside(rest, event) == Kept(event, i, start.lru)
      ensures TallyAt(event, i, start.lru, start.tally).resident
           == Weight(pinned, size) + Weight(rest + tail, size)
    {
      MidEventWeight(event, i, start.lru, rest, tail);
    }

    /** Before a miss the group with the new expert still fits, and only bystanders are in the way. */
    lemma RoomForMiss(event: seq<T>, i: nat, start: State<T>, rest: seq<T>, tail: seq<T>)
      requires i < |event| && event[i] !in pinned && event[i] !in rest + tail
      requires Sound(start.lru) && GroupFits(event) && Serving(event, i, start.lru, rest, tail)
      ensures MidEvent(event, i, start.lru, rest, tail)
      ensures Outside(rest, event) == Kept(event, i, start.lru)
      ensures Held(event, i, start.lru) + size(event[i]) <= Room()
      ensures Fit(Outside(rest, event), size, Room() - Held(event, i, start.lru) - size(event[i]))
           == Kept(event, i + 1, start.lru)
      ensures TallyAt(event, i, start.lru, start.tally).resident
           == Weight(pinned, size) + Weight(rest + tail, size)
    {
      hide *;
      ServingUnpacked(event, i, start, rest, tail);
      MissFits(event, i, start.lru, rest + tail);
    }

    /** After a miss the served prefix is one longer, in the LRU and in the counters. */
    lemma MissServed(event: seq<T>, i: nat, start: State<T>, rest: seq<T>, tail: seq<T>)
      requires i < |event| && event[i] !in pinned && event[i] !in rest + tail
      requires MidEvent(event, i, start.lru, rest, tail)
      requires Outside(rest, event) == Kept(event, i + 1, start.lru)
      ensures Serving(event, i + 1, start.lru, rest, tail + [event[i]])
      ensures rest + (tail + [event[i]]) == (rest + tail) + [event[i]]
      ensures TallyAt(event, i + 1, start.lru, start.tally)
           == var t := TallyAt(event, i, start.lru, start.tally);
              Loaded(t, size(event[i]), Weight(pinned, size) + Weight(rest + tail, size),
                     t.evictions + |Kept(event, i, start.lru)| - |Kept(event, i + 1, start.lru)|)
    {
      hide Weight, Fit, Outside, TouchAll, Faults, PeakAt, Shape, Members;
      MissInsert(event, i, start.lru, rest, tail);
      MidEventWeight(event, i, start.lru, rest, tail);
      TallyMiss(event, i, start.lru, start.tally, Weight(rest + tail, size));
    }

    /** The event is over: what the cache holds is the stack, touched and cut. */
    lemma EventEnds(event: seq<T>, start: seq<T>, rest: seq<T>, tail: seq<T>)
      requires Sound(start) && GroupFits(event)
      requires MidEvent(event, |event|, start, rest, tail)
      requires Outside(rest, event) == Kept(event, |event|, start)
      ensures rest + tail == Fit(TouchAll(start, Demand(event)), size, Room())
      ensures Sound(rest + tail)
      ensures rest == Kept(event, |event|, start)
      ensures |tail| == |Inside(start, event)| + |Faults(event, start)|
      ensures Weight(tail, size) == Held(event, |event|, start)
    {
      hide Weight, Fit, Outside, Inside, TouchAll, Faults, Held;
      assert event[..|event|] == event;
      OutsideElems(event, pinned);
      AllOutside(rest, event);
      HeldFits(event, |event|, start);
      MidEventWeight(event, |event|, start, rest, tail);
      WeightConcat(rest, tail, size);
      EmptyWeight();
      TouchAllSplits(start, Demand(event));
      SameOutside(start, event, Demand(event));
      FitOver(Outside(start, event), tail, size, Room());
      FitIsSuffix(Outside(start, event), size, Room() - Held(event, |event|, start));
    }

    lemma EmptyWeight()
      ensures Weight([], size) == 0
    {
    }

    lemma EventServed(event: seq<T>, st: State<T>, rest: seq<T>, tail: seq<T>)
      requires Sound(st.lru) && GroupFits(event) && Coherent(st)
      requires Serving(event, |event|, st.lru, rest, tail)
      ensures Sound(rest + tail)
      ensures State(rest + tail, TallyAt(event, |event|, st.lru, st.tally)) == AfterEvent(st, event)
      ensures Coherent(AfterEvent(st, event))
      ensures AfterEvent(st, event).tally.resident <= effective
      ensures AfterEvent(st, event).tally.uses - st.tally.uses
           == AfterEvent(st, event).tally.hits + AfterEvent(st, event).tally.misses
            - st.tally.hits - st.tally.misses
    {
      assert event[..|event|] == event;
      EventEnds(event, st.lru, rest, tail);
      EventTally(event, st.lru, st.tally);
      PeakCovers(event, |event|, st.lru, st.tally);
    }

    lemma EventTally(event: seq<T>, start: seq<T>, before: Tally)
      requires Sound(start) && GroupFits(event)
      requires Kept(event, |event|, start) + TouchAll([], Demand(event))
            == Fit(TouchAll(start, Demand(event)), size, Room())
      requires |TouchAll([], Demand(event))| == |Inside(start, event)| + |Faults(event, start)|
      requires Weight(TouchAll([], Demand(event)), size) == Held(event, |event|, start)
      ensures TallyAt(event, |event|, start, before) == AfterEvent(State(start, before), event).tally
    {
      hide Weight, Fit, Outside, TouchAll, Faults, PeakAt;
      assert event[..|event|] == event;
      OutsideInsideWeight(start, event, size);
      WeightConcat(Kept(event, |event|, start), TouchAll([], Demand(event)), size);
    }

    lemma ServingStarts(event: seq<T>, st: State<T>)
      requires Sound(st.lru) && GroupFits(event) && Coherent(st)
      ensures Serving(event, 0, st.lru, st.lru, []) && st.lru == st.lru + []
      ensures TallyAt(event, 0, st.lru, st.tally) == st.tally
    {
      MidEventStarts(event, st.lru);
      HeldFits(event, 0, st.lru);
      TallyStarts(event, st.lru, st.tally);
    }

    lemma TallyStarts(event: seq<T>, start: seq<T>, before: Tally)
      requires Sound(start) && GroupFits(event)
      requires before.resident == Weight(pinned, size) + Weight(start, size)
      ensures TallyAt(event, 0, start, before) == before
    {
      MidEventStarts(event, start);
      HeldFits(event, 0, start);
      OutsideInsideWeight(start, event, size);
    }

    lemma PeakCovers(event: seq<T>, i: nat, start: seq<T>, before: Tally)
      requires i <= |event| && Sound(start) && GroupFits(event)
      requires Coherent(State(start, before))
      ensures TallyAt(event, i, start, before).peak >= ResidentAt(event, i, start)
    {
      TallyStarts(event, start, before);
    }

    lemma TallyHit(event: seq<T>, i: nat, start: seq<T>, before: Tally)
      requires i < |event| && Sound(start) && GroupFits(event)
      requires Coherent(State(start, before))
      requires Faults(event[..i + 1], start) == Faults(event[..i], start)
      ensures TallyAt(event, i + 1, start, before)
           == var t := TallyAt(event, i, start, before); t.(uses := t.uses + 1, hits := t.hits + 1)
      ensures Kept(event, i + 1, start) == Kept(event, i, start)
    {
      PeakCovers(event, i, start, before);
    }

    lemma TallyMiss(event: seq<T>, i: nat, start: seq<T>, before: Tally, now: int)
      requires i < |event|
      requires Faults(event[..i + 1], start) == Faults(event[..i], start) + [event[i]]
      requires Held(event, i + 1, start) == Held(event, i, start) + size(event[i])
      requires now == Weight(Kept(event, i + 1, start), size) + Held(event, i, start)
      ensures TallyAt(event, i + 1, start, before)
           == var t := TallyAt(event, i, start, before);
              Loaded(t, size(event[i]), Weight(pinned, size) + now,
                     t.evictions + |Kept(event, i, start)| - |Kept(event, i + 1, start)|)
    {
      WeightConcat(Faults(event[..i], start), [event[i]], size);
    }

    lemma SameOutside(s: seq<T>, event: seq<T>, demand: seq<T>)
      requires forall y :: y in s ==> y !in pinned
      requires forall y :: y in demand <==> y in event && y !in pinned
      ensures Outside(s, demand) == Outside(s, event)
    {
    }

    /** After any replay the cache is sound, and its resident bytes obey the budget. */
    lemma ReplaySound(events: seq<seq<T>>)
      requires NoDup(pinned) && Room() >= 0
      requires AllFit(events)
      ensures Sound(Replay(events).lru)
      ensures Replay(events).tally.resident
           == Weight(pinned, size) + Weight(Replay(events).lru, size) <= effective
    {
      if events != [] {
        var n := |events| - 1;
        ReplaySound(events[..n]);
        var lru := Replay(events[..n]).lru;
        var stack := TouchAll(lru, Demand(events[n]));
        TouchAllElems(lru, Demand(events[n]));
        OutsideElems(events[n], pinned);
        FitIsSuffix(stack, size, Room());
      }
    }
  }

  lemma HeadRemoved<T>(s: seq<T>)
    requires s != [] && NoDup(s)
    ensures Without(s, s[0]) == s[1..]
  {
    assert s == [s[0]] + s[1..];
    NoDupCons(s[0], s[1..]);
    WithoutAbsent(s[1..], s[0]);
  }

  lemma NoDupParts<T>(a: seq<T>, b: seq<T>)
    requires NoDup(a + b)
    ensures NoDup(a) && NoDup(b)
    ensures forall y :: y in a ==> y !in b
  {
    assert forall i :: 0 <= i < |a| ==> (a + b)[i] == a[i];
    assert forall j :: 0 <= j < |b| ==> (a + b)[|a| + j] == b[j];
    forall i, j | 0 <= i < j < |b|
      ensures b[i] != b[j]
    {
      assert (a + b)[|a| + i] != (a + b)[|a| + j];
    }
    forall i, j | 0 <= i < |a| && 0 <= j < |b|
      ensures a[i] != b[j]
    {
      assert (a + b)[i] != (a + b)[|a| + j];
    }
  }

  lemma NoDupJoin<T>(a: seq<T>, b: seq<T>)
    requires NoDup(a) && NoDup(b)
    requires forall y :: y in a ==> y !in b
    ensures NoDup(a + b)
  {
    forall i, j | 0 <= i < j < |a + b|
      ensures (a + b)[i] != (a + b)[j]
    {
      if i < |a| <= j {
        assert a[i] in a && b[j - |a|] in b;
      }
    }
  }

  lemma AllInside<T>(s: seq<T>, g: seq<T>)
    requires forall y :: y in s ==> y in g
    ensures Inside(s, g) == s && Outside(s, g) == []
  {
  }

  /** A stretch holding no member of `g` beyond those already gone is its own outside. */
  lemma AllOutside<T>(s: seq<T>, g: seq<T>)
    requires forall y :: y in s ==> y !in g
    ensures Outside(s, g) == s && Inside(s, g) == []
  {
  }

  /** A tail that fits is never cut: `Fit` only shortens what lies below it. */
  lemma {:induction false} FitOver<T>(below: seq<T>, tail: seq<T>, size: T -> nat, budget: int)
    requires Weight(tail, size) <= budget
    ensures Fit(below + tail, size, budget) == Fit(below, size, budget - Weight(tail, size)) + tail
  {
    WeightConcat(below, tail, size);
    if below == [] {
      assert below + tail == tail;
    } else if Weight(below, size) > budget - Weight(tail, size) {
      assert (below + tail)[1..] == below[1..] + tail;
      FitOver(below[1..], tail, size, budget);
    }
  }

  /** `resident_sizes` holds exactly the pins and the LRU, each at its declared size. */
  ghost predicate Mirrors<T>(c: Cache<T>, sizes: map<T, nat>, lru: seq<T>) {
    && (forall y :: y in sizes ==> y in c.pinned || y in lru)
    && (forall y :: y in c.pinned ==> y in sizes && sizes[y] == c.size(y))
    && (forall y :: y in lru ==> y in sizes && sizes[y] == c.size(y))
  }

  lemma NotMirrored<T>(c: Cache<T>, sizes: map<T, nat>, lru: seq<T>, key: T)
    requires Mirrors(c, sizes, lru) && key !in sizes
    ensures key !in c.pinned && key !in lru
  {
  }

  lemma MirrorsTouch<T>(c: Cache<T>, sizes: map<T, nat>, lru: seq<T>, key: T)
    requires Mirrors(c, sizes, lru) && key in lru
    ensures Mirrors(c, sizes, Touch(lru, key))
  {
    TouchElems(lru, key);
  }

  lemma MirrorsPop<T>(c: Cache<T>, sizes: map<T, nat>, lru: seq<T>, victim: T)
    requires Mirrors(c, sizes, lru) && victim in lru && victim !in c.pinned
    ensures Mirrors(c, map y | y in sizes && y != victim :: sizes[y], Without(lru, victim))
  {
    WithoutElems(lru, victim);
  }

  lemma MirrorsPush<T>(c: Cache<T>, sizes: map<T, nat>, lru: seq<T>, key: T)
    requires Mirrors(c, sizes, lru)
    ensures Mirrors(c, sizes[key := c.size(key)], lru + [key])
  {
  }

  lemma EvictStep<T>(c: Cache<T>, event: seq<T>, i: nat, start: seq<T>, rest: seq<T>, tail: seq<T>,
                     sizes: map<T, nat>)
    requires i < |event| && c.MidEvent(event, i, start, rest, tail) && Mirrors(c, sizes, rest + tail)
    requires c.Held(event, i, start) + c.size(event[i]) <= c.Room()
    requires Weight(c.pinned, c.size) + Weight(rest + tail, c.size) + c.size(event[i]) > c.effective
    ensures var out := Outside(rest, event);
      && out != []
      && Fit(out, c.size, c.Room() - c.Held(event, i, start) - c.size(event[i]))
      == Fit(out[1..], c.size, c.Room() - c.Held(event, i, start) - c.size(event[i]))
      && FirstOutside(rest + tail, event) == Some(out[0])
      && out[0] in sizes
      && Without(rest + tail, out[0]) == Without(rest, out[0]) + tail
      && Outside(Without(rest, out[0]), event) == out[1..]
      && c.MidEvent(event, i, start, Without(rest, out[0]), tail)
      && Mirrors(c, map y | y in sizes && y != out[0] :: sizes[y], Without(rest, out[0]) + tail)
      && Weight(rest + tail, c.size) == Weight(Without(rest, out[0]) + tail, c.size) + sizes[out[0]]
      && (event[i] !in rest + tail ==> event[i] !in Without(rest, out[0]) + tail)
  {
    c.MidEventWeight(event, i, start, rest, tail);
    c.Evict(event, i, start, rest, tail);
    var victim := Outside(rest, event)[0];
    WithoutWeight(rest + tail, victim, c.size);
    WithoutElems(rest + tail, victim);
    MirrorsPop(c, sizes, rest + tail, victim);
  }

  lemma RoomMade<T>(c: Cache<T>, event: seq<T>, i: nat, start: seq<T>, rest: seq<T>, tail: seq<T>)
    requires i < |event| && c.MidEvent(event, i, start, rest, tail)
    requires Weight(c.pinned, c.size) + Weight(rest + tail, c.size) + c.size(event[i]) <= c.effective
    ensures Fit(Outside(rest, event), c.size, c.Room() - c.Held(event, i, start) - c.size(event[i]))
         == Outside(rest, event)
  {
    c.MidEventWeight(event, i, start, rest, tail);
  }

  /**
   The eviction loop: pop the least recent bystander until the missing expert
   fits. The source's "no evictable victim" raise sits where `victim` is taken.
   */
  method MakeRoom<T>(c: Cache<T>, event: seq<T>, i: nat, lru0: seq<T>, sizes0: map<T, nat>,
                     resident0: int, evictions0: int,
                     ghost start: seq<T>, ghost rest0: seq<T>, ghost tail: seq<T>)
    returns (lru: seq<T>, sizes: map<T, nat>, resident: int, evictions: int, ghost rest: seq<T>)
    requires i < |event| && c.Held(event, i, start) + c.size(event[i]) <= c.Room()
    requires lru0 == rest0 + tail && c.MidEvent(event, i, start, rest0, tail)
    requires Mirrors(c, sizes0, lru0)
    requires resident0 == Weight(c.pinned, c.size) + Weight(lru0, c.size)
    ensures lru == rest + tail && c.MidEvent(event, i, start, rest, tail)
    ensures Outside(rest, event)
         == Fit(Outside(rest0, event), c.size, c.Room() - c.Held(event, i, start) - c.size(event[i]))
    ensures Mirrors(c, sizes, lru) && (event[i] !in lru0 ==> event[i] !in lru)
    ensures resident == Weight(c.pinned, c.size) + Weight(lru, c.size)
    ensures resident + c.size(event[i]) <= c.effective
    ensures evictions == evictions0 + |Outside(rest0, event)| - |Outside(rest, event)|
  {
    hide *;
    lru, sizes, resident, evictions, rest := lru0, sizes0, resident0, evictions0, rest0;
    ghost var room := c.Room() - c.Held(event, i, start) - c.size(event[i]);
    while resident + c.size(event[i]) > c.effective
      invariant lru == rest + tail && c.MidEvent(event, i, start, rest, tail)
      invariant Fit(Outside(rest, event), c.size, room) == Fit(Outside(rest0, event), c.size, room)
      invariant Mirrors(c, sizes, lru) && (event[i] !in lru0 ==> event[i] !in lru)
      invariant resident == Weight(c.pinned, c.size) + Weight(lru, c.size)
      invariant evictions == evictions0 + |Outside(rest0, event)| - |Outside(rest, event)|
      decreases |Outside(rest, event)|
    {
      EvictStep(c, event, i, start, rest, tail, sizes);
      var victim := FirstOutside(lru, event).value;
      resident := resident - sizes[victim];
      sizes := map y | y in sizes && y != victim :: sizes[y];
      lru := Without(lru, victim);
      rest := Without(rest, victim);
      evictions := evictions + 1;
    }
    RoomMade(c, event, i, start, rest, tail);
  }

  /** An access that finds its expert resident: a pin stays put, anything else moves to the end. */
  method ServeHit<T>(c: Cache<T>, event: seq<T>, i: nat, lru0: seq<T>, sizes: map<T, nat>, tally0: Tally,
                     ghost start: State<T>, ghost rest0: seq<T>, ghost tail0: seq<T>)
    returns (lru: seq<T>, tally: Tally, ghost rest: seq<T>, ghost tail: seq<T>)
    requires i < |event| && c.Sound(start.lru) && c.GroupFits(event) && c.Coherent(start)
    requires lru0 == rest0 + tail0 && c.Serving(event, i, start.lru, rest0, tail0)
    requires Mirrors(c, sizes, lru0) && event[i] in sizes
    requires tally0 == c.TallyAt(event, i, start.lru, start.tally)
    ensures lru == rest + tail && c.Serving(event, i + 1, start.lru, rest, tail)
    ensures Mirrors(c, sizes, lru)
    ensures tally == c.TallyAt(event, i + 1, start.lru, start.tally)
  {
    var key := event[i];
    lru, rest, tail := lru0, rest0, tail0;
    tally := tally0.(uses := tally0.uses + 1, hits := tally0.hits + 1);
    if key !in c.pinned {
      c.LruHit(event, i, start.lru, rest, tail);
      MirrorsTouch(c, sizes, lru, key);
      lru := Without(lru, key) + [key];
      rest, tail := Without(rest, key), Touch(tail, key);
    } else {
      c.PinnedHit(event, i, start.lru, rest, tail);
    }
    c.TallyHit(event, i, start.lru, start.tally);
  }

  /** An access that misses: evict bystanders until the expert fits, then load it. */
  method ServeMiss<T>(c: Cache<T>, event: seq<T>, i: nat, lru0: seq<T>, sizes0: map<T, nat>, tally0: Tally,
                      ghost start: State<T>, ghost rest0: seq<T>, ghost tail0: seq<T>)
    returns (lru: seq<T>, sizes: map<T, nat>, tally: Tally, ghost rest: seq<T>, ghost tail: seq<T>)
    requires i < |event| && c.Sound(start.lru) && c.GroupFits(event) && c.Coherent(start)
    requires lru0 == rest0 + tail0 && c.Serving(event, i, start.lru, rest0, tail0)
    requires Mirrors(c, sizes0, lru0) && event[i] !in sizes0
    requires tally0 == c.TallyAt(event, i, start.lru, start.tally)
    ensures lru == rest + tail && c.Serving(event, i + 1, start.lru, rest, tail)
    ensures Mirrors(c, sizes, lru)
    ensures tally == c.TallyAt(event, i + 1, start.lru, start.tally)
  {
    hide *;
    var key := event[i];
    NotMirrored(c, sizes0, lru0, key);
    c.RoomForMiss(event, i, start, rest0, tail0);
    var resident, evictions;
    lru, sizes, resident, evictions, rest := MakeRoom(
      c, event, i, lru0, sizes0, tally0.resident, tally0.evictions, start.lru, rest0, tail0);
    c.MissServed(event, i, start, rest, tail0);
    MirrorsPush(c, sizes, lru, key);
    sizes := sizes[key := c.size(key)];
    lru, tail := lru + [key], tail0 + [key];
    tally := Loaded(tally0, c.size(key), resident, evictions);
  }

  /** One pass of the event loop: the counters end where `AfterEvent` puts them. */
  method ServeEvent<T>(c: Cache<T>, event: seq<T>, lru0: seq<T>, sizes0: map<T, nat>, tally0: Tally)
    returns (lru: seq<T>, sizes: map<T, nat>, tally: Tally)
    requires c.Sound(lru0) && c.GroupFits(event) && Mirrors(c, sizes0, lru0)
    requires c.Coherent(State(lru0, tally0))
    ensures c.Sound(lru) && Mirrors(c, sizes, lru)
    ensures State(lru, tally) == c.AfterEvent(State(lru0, tally0), event)
    ensures c.Coherent(State(lru, tally))
  {
    hide *;
    lru, sizes, tally := lru0, sizes0, tally0;
    ghost var st := State(lru0, tally0);
    ghost var rest, tail := lru, [];
    c.ServingStarts(event, st);
    var i := 0;
    while i < |event|
      invariant i <= |event|
      invariant lru == rest + tail && c.Serving(event, i, lru0, rest, tail)
      invariant Mirrors(c, sizes, lru)
      invariant tally == c.TallyAt(event, i, lru0, tally0)
    {
      if event[i] in sizes {
        lru, tally, rest, tail := ServeHit(c, event, i, lru, sizes, tally, st, rest, tail);
      } else {
        lru, sizes, tally, rest, tail := ServeMiss(c, event, i, lru, sizes, tally, st, rest, tail);
      }
      i := i + 1;
    }
    c.EventServed(event, st, rest, tail);
    assert tally.resident <= c.effective;
  }

  /**
   `_simulate`. The raises the source keeps inside its loops (no evictable
   victim, budget exceeded) and its final accounting check are assertions here:
   they hold on every call, so the only refusals left are the two guards.
   */
  method Simulate<T(==)>(events: seq<seq<T>>, size: T -> nat, effective: int, pins: seq<T>)
    returns (r: Result<Tally, Refusal>)
    ensures r == Cache(Distinct(pins), size, effective).Outcome(events)
    ensures r == Failure(MandatoryPinsExceedBudget) <==> Weight(Distinct(pins), size) > effective
    ensures r == Failure(AtomicGroupExceedsCapacity) <==>
      && Weight(Distinct(pins), size) <= effective
      && exists event :: event in events && Weight(Distinct(Distinct(pins) + event), size) > effective
  {
    var c := Cache(Distinct(pins), size, effective);
    DistinctElems(pins);
    var sizes: map<T, nat> := map x | x in pins :: size(x);
    var lru: seq<T> := [];
    var resident := Weight(c.pinned, size);
    if resident > effective {
      return Failure(MandatoryPinsExceedBudget);
    }
    var tally := Tally(resident, resident, 0, 0, 0, resident, resident, 0);
    var e := 0;
    while e < |events|
      invariant e <= |events|
      invariant c.Sound(lru) && Mirrors(c, sizes, lru)
      invariant c.Coherent(State(lru, tally)) && tally.uses == tally.hits + tally.misses
      invariant c.AllFit(events[..e])
      invariant c.Replay(events[..e]) == State(lru, tally)
    {
      c.AllFitStep(events, e);
      if Weight(Distinct(c.pinned + events[e]), size) > effective {
        return Failure(AtomicGroupExceedsCapacity);
      }
      lru, sizes, tally := ServeEvent(c, events[e], lru, sizes, tally);
      e := e + 1;
    }
    assert tally.uses == tally.hits + tally.misses;
    assert events[..e] == events;
    r := Success(tally);
  }
}
