/**
 Laws of the two replays over whole traces: the stack law, budget monotonicity
 and its exact failure condition, conservation, and how the two caches relate.
 */
module CacheLaws {
  import opened Sequences
  import opened RecencyStack
  import opened SharedCache
  import R9 = ShadowCache

  // ---------------------------------------------------------------- R13

  /** Everything a trace ever asks of the LRU, in order. */
  function Demands<T(==)>(c: Cache<T>, events: seq<seq<T>>): seq<T> {
    if events == [] then []
    else
      var n := |events| - 1;
      Demands(c, events[..n]) + c.Demand(events[n])
  }

  lemma DemandFits<T>(c: Cache<T>, event: seq<T>, x: T)
    requires NoDup(c.pinned) && c.GroupFits(event) && x in c.Demand(event)
    ensures c.size(x) <= c.Room()
  {
    OutsideElems(event, c.pinned);
    DistinctElems(c.pinned + event);
    NoDupSnoc(c.pinned, x);
    WeightSubset(c.pinned + [x], Distinct(c.pinned + event), c.size);
    WeightConcat(c.pinned, [x], c.size);
    assert Weight([x], c.size) == c.size(x);
  }

  /** The cache is the recency stack of the whole trace, cut once to the room beside the pins. */
  lemma {:induction false} StackLaw<T>(c: Cache<T>, events: seq<seq<T>>)
    requires NoDup(c.pinned) && c.Room() >= 0 && c.AllFit(events)
    ensures c.Replay(events).lru == Fit(TouchAll([], Demands(c, events)), c.size, c.Room())
  {
    if events != [] {
      var n := |events| - 1;
      var d := Demands(c, events[..n]);
      StackLaw(c, events[..n]);
      TouchAllConcat([], d, c.Demand(events[n]));
      TouchAllElems([], d);
      forall x | x in c.Demand(events[n])
        ensures c.size(x) <= c.Room()
      {
        DemandFits(c, events[n], x);
      }
      FitTouchAll(TouchAll([], d), c.Demand(events[n]), c.size, c.Room());
    }
  }

  /** The demand of an event weighs what it found resident plus what it loaded. */
  lemma DemandWeight<T>(c: Cache<T>, lru: seq<T>, event: seq<T>)
    requires c.Sound(lru)
    ensures Weight(TouchAll([], c.Demand(event)), c.size) == c.Held(event, |event|, lru)
  {
    hide Weight, TouchAll, Outside, Inside;
    var tail := TouchAll([], c.Demand(event));
    var held := Inside(lru, event) + c.Faults(event, lru);
    assert event[..|event|] == event;
    OutsideElems(event, c.pinned);
    TouchAllElems([], c.Demand(event));
    OutsideElems(lru, event);
    c.FaultsElems(event, lru);
    NoDupJoin(Inside(lru, event), c.Faults(event, lru));
    forall x | x in held
      ensures x in tail
    {
      assert x in c.Demand(event);
    }
    forall x | x in tail
      ensures x in held
    {
      assert x in c.Demand(event);
    }
    WeightSubset(held, tail, c.size);
    WeightSubset(tail, held, c.size);
    WeightConcat(Inside(lru, event), c.Faults(event, lru), c.size);
  }

  /** At the end of an event every expert it used is resident at once, above the surviving bystanders. */
  lemma GroupResident<T>(c: Cache<T>, st: State<T>, event: seq<T>)
    requires c.Sound(st.lru) && c.GroupFits(event)
    ensures var lru := c.AfterEvent(st, event).lru;
      && (forall x :: x in event ==> x in c.pinned || x in lru)
      && lru == c.Kept(event, |event|, st.lru) + TouchAll([], c.Demand(event))
      && Weight(TouchAll([], c.Demand(event)), c.size) == c.Held(event, |event|, st.lru)
  {
    hide Weight, TouchAll, Outside, Inside, Fit;
    var tail := TouchAll([], c.Demand(event));
    OutsideElems(event, c.pinned);
    TouchAllElems([], c.Demand(event));
    DemandWeight(c, st.lru, event);
    TouchAllSplits(st.lru, c.Demand(event));
    c.SameOutside(st.lru, event, c.Demand(event));
    c.HeldFits(event, |event|, st.lru);
    FitOver(Outside(st.lru, event), tail, c.size, c.Room());
    forall x | x in event
      ensures x in c.pinned || x in tail
    {
      if x !in c.pinned {
        assert x in c.Demand(event);
      }
    }
  }

  lemma FaultsShrink<T>(c: Cache<T>, event: seq<T>, fewer: seq<T>, more: seq<T>)
    requires forall x :: x in fewer ==> x in more
    ensures |c.Faults(event, more)| <= |c.Faults(event, fewer)|
    ensures Weight(c.Faults(event, more), c.size) <= Weight(c.Faults(event, fewer), c.size)
  {
    c.FaultsElems(event, fewer);
    c.FaultsElems(event, more);
    WeightSubset(c.Faults(event, more), c.Faults(event, fewer), c.size);
  }

  lemma AllFitGrows<T>(c: Cache<T>, events: seq<seq<T>>, larger: int)
    requires c.AllFit(events) && c.effective <= larger
    ensures c.(effective := larger).AllFit(events)
  {
    forall event | event in events
      ensures c.(effective := larger).GroupFits(event)
    {
      assert c.GroupFits(event);
    }
  }

  /** A larger shared budget holds more at every event boundary, so it never costs a hit or a byte. */
  lemma {:induction false} SharedBudgetMonotone<T>(c: Cache<T>, events: seq<seq<T>>, larger: int)
    requires NoDup(c.pinned) && c.Room() >= 0 && c.AllFit(events) && c.effective <= larger
    ensures var big := c.(effective := larger);
      && (forall x :: x in c.Replay(events).lru ==> x in big.Replay(events).lru)
      && big.Replay(events).tally.staged <= c.Replay(events).tally.staged
      && big.Replay(events).tally.misses <= c.Replay(events).tally.misses
      && big.Replay(events).tally.hits >= c.Replay(events).tally.hits
  {
    var big := c.(effective := larger);
    AllFitGrows(c, events, larger);
    SameDemands(c, big, events);
    StackLaw(c, events);
    StackLaw(big, events);
    FitMonotone(TouchAll([], Demands(c, events)), c.size, c.Room(), big.Room());
    if events != [] {
      var n := |events| - 1;
      SharedBudgetMonotone(c, events[..n], larger);
      SameFaults(c, big, events[n], big.Replay(events[..n]).lru);
      FaultsShrink(c, events[n], c.Replay(events[..n]).lru, big.Replay(events[..n]).lru);
    }
  }

  lemma SameDemands<T>(c: Cache<T>, d: Cache<T>, events: seq<seq<T>>)
    requires c.pinned == d.pinned
    ensures Demands(c, events) == Demands(d, events)
  {
  }

  lemma SameFaults<T>(c: Cache<T>, d: Cache<T>, event: seq<T>, lru: seq<T>)
    requires c.pinned == d.pinned
    ensures c.Faults(event, lru) == d.Faults(event, lru)
  {
  }

  function Accesses<T>(events: seq<seq<T>>): nat {
    if events == [] then 0 else Accesses(events[..|events| - 1]) + |events[|events| - 1]|
  }

  /**
   Conservation over any replay: every miss is still resident or was evicted,
   every access is a hit or a miss, the high-water mark obeys the budget, and
   each distinct resource is paid for at least once.
   */
  lemma {:induction false} SharedConservation<T>(c: Cache<T>, events: seq<seq<T>>)
    requires NoDup(c.pinned) && c.Room() >= 0 && c.AllFit(events)
    ensures var st := c.Replay(events);
      && st.tally.misses == st.tally.evictions + |st.lru|
      && st.tally.hits + st.tally.misses == st.tally.uses == Accesses(events)
      && st.tally.preload == Weight(c.pinned, c.size)
      && st.tally.resident <= st.tally.peak <= c.effective
      && st.tally.staged >= Weight(c.pinned, c.size) + Weight(Distinct(Demands(c, events)), c.size)
  {
    if events != [] {
      var n := |events| - 1;
      var st := c.Replay(events[..n]);
      SharedConservation(c, events[..n]);
      c.ReplaySound(events[..n]);
      PeakBound(c, events[n], |events[n]|, st.lru, st.tally.peak);
      GroupResident(c, st, events[n]);
      WeightConcat(c.Kept(events[n], |events[n]|, st.lru), TouchAll([], c.Demand(events[n])), c.size);
      if events[n] == [] {
        assert TouchAll(st.lru, c.Demand(events[n])) == st.lru;
      }
      StagedStep(c, events[..n], events[n]);
    }
  }

  lemma PeakBound<T>(c: Cache<T>, event: seq<T>, i: nat, lru: seq<T>, before: int)
    requires i <= |event| && c.Sound(lru) && c.GroupFits(event) && before <= c.effective
    ensures before <= c.PeakAt(event, i, lru, before) <= c.effective
    ensures i > 0 ==> c.ResidentAt(event, i, lru) <= c.PeakAt(event, i, lru, before)
  {
    c.HeldFits(event, i, lru);
    FitIsSuffix(Outside(lru, event), c.size, c.Room() - c.Held(event, i, lru));
    if i > 0 {
      PeakBound(c, event, i - 1, lru, before);
    }
  }

  /** What an event demands for the first time in the trace, it misses. */
  lemma StagedStep<T>(c: Cache<T>, events: seq<seq<T>>, event: seq<T>)
    requires NoDup(c.pinned) && c.Room() >= 0 && c.AllFit(events)
    ensures Weight(Distinct(Demands(c, events) + c.Demand(event)), c.size)
         <= Weight(Distinct(Demands(c, events)), c.size) + Weight(c.Faults(event, c.Replay(events).lru), c.size)
  {
    var seen := Demands(c, events);
    var lru := c.Replay(events).lru;
    var all := Distinct(seen + c.Demand(event));
    StackLaw(c, events);
    TouchAllElems([], seen);
    FitIsSuffix(TouchAll([], seen), c.size, c.Room());
    DistinctElems(seen + c.Demand(event));
    DistinctElems(seen);
    OutsideElems(all, seen);
    OutsideElems(event, c.pinned);
    c.FaultsElems(event, lru);
    OutsideInsideWeight(all, seen, c.size);
    WeightSubset(Inside(all, seen), Distinct(seen), c.size);
    forall x | x in Outside(all, seen)
      ensures x in c.Faults(event, lru)
    {
      assert x in c.Demand(event);
    }
    WeightSubset(Outside(all, seen), c.Faults(event, lru), c.size);
  }

  // ----------------------------------------------------------------- R9

  /**
   Conservation for the pinned-and-LRU cache: misses split into bypasses,
   evictions and what is still resident; the saving over streaming every access
   is the bytes of the hits less the pins; each distinct resource is paid once.
   */
  lemma {:induction false} ShadowConservation<T>(s: R9.Study<T>, accesses: seq<T>)
    requires NoDup(s.pinned) && s.Room() >= 0
    ensures var t := s.Account(accesses);
      && t.misses == t.bypassed + t.evictions + |s.Resident(accesses)|
      && t.hits + t.misses == |accesses|
      && Weight(accesses, s.size) - t.staged == s.HitBytes(accesses) - Weight(s.pinned, s.size)
      && t.staged >= Weight(s.pinned, s.size) + Weight(Distinct(Outside(accesses, s.pinned)), s.size)
      && 0 <= t.evictions && 0 <= t.hits
      && t.resident <= t.peak <= s.effective
  {
    ShadowPaysDistinct(s, accesses);
    ShadowBounds(s, accesses);
    s.ResidentSound(accesses);
  }

  /** One more access adds its size to the distinct unpinned bytes when it is new. */
  lemma DistinctGrowth<T>(before: seq<T>, x: T, pinned: seq<T>, size: T -> nat)
    ensures Weight(Distinct(Outside(before + [x], pinned)), size)
         == Weight(Distinct(Outside(before, pinned)), size) + (if x in pinned || x in before then 0 else size(x))
  {
    var earlier := Outside(before, pinned);
    OutsideConcat(before, [x], pinned);
    OutsideElems(before, pinned);
    DistinctElems(earlier);
    WeightConcat(Distinct(earlier), [x], size);
    assert Outside([x], pinned) == if x in pinned then [] else [x];
    if x in pinned {
      assert earlier + [] == earlier;
    } else {
      assert (earlier + [x])[..|earlier|] == earlier;
      assert Weight([x], size) == size(x);
    }
  }

  lemma NothingPaid<T>(s: R9.Study<T>)
    ensures Weight([], s.size) - s.HitBytes([]) >= Weight(Distinct(Outside([], s.pinned)), s.size)
  {
  }

  lemma {:induction false} ShadowPaysDistinct<T>(s: R9.Study<T>, accesses: seq<T>)
    requires s.Room() >= 0
    ensures Weight(accesses, s.size) - s.HitBytes(accesses)
         >= Weight(Distinct(Outside(accesses, s.pinned)), s.size)
  {
    hide R9.Study.Resident, R9.Study.History, R9.Study.HitBytes, R9.Study.HitCount, R9.Study.Bypasses, R9.Study.Peak;
    hide Weight, Distinct, Outside;
    if accesses == [] {
      NothingPaid(s);
    } else {
      var n := |accesses| - 1;
      ShadowPaysDistinct(s, accesses[..n]);
      s.ResidentSound(accesses[..n]);
      assert accesses == accesses[..n] + [accesses[n]] && accesses[..n + 1] == accesses;
      s.CountsStep(accesses, n);
      DistinctGrowth(accesses[..n], accesses[n], s.pinned, s.size);
    }
  }

  lemma {:induction false} ShadowBounds<T>(s: R9.Study<T>, accesses: seq<T>)
    requires s.Room() >= 0
    ensures 0 <= s.HitCount(accesses) && s.Peak(accesses) <= s.effective
    ensures |accesses| - s.HitCount(accesses) - s.Bypasses(accesses) >= |s.Resident(accesses)|
  {
    s.ResidentSound(accesses);
    if accesses == [] {
      s.EmptyAccount();
    } else {
      var n := |accesses| - 1;
      ShadowBounds(s, accesses[..n]);
      s.ResidentSound(accesses[..n]);
      assert accesses[..n + 1] == accesses;
      s.CountsStep(accesses, n);
      ResidentGrowth(s, accesses, n);
    }
  }

  /** One access adds at most itself to the resident set, and only when it is a cacheable miss. */
  lemma ResidentGrowth<T>(s: R9.Study<T>, accesses: seq<T>, i: nat)
    requires i < |accesses| && s.Room() >= 0
    ensures forall x :: x in s.Resident(accesses[..i + 1]) ==> x in s.Resident(accesses[..i]) || x == accesses[i]
    ensures |s.Resident(accesses[..i + 1])|
         <= |s.Resident(accesses[..i])|
          + (if !s.IsHit(accesses[..i], accesses[i]) && s.Cacheable(accesses[i]) then 1 else 0)
  {
    hide Fit, Touch;
    var lru := s.Resident(accesses[..i]);
    s.ResidentStep(accesses, i);
    s.ResidentSound(accesses[..i]);
    if s.Cacheable(accesses[i]) {
      if accesses[i] in lru {
        s.ResidentHit(accesses, i);
        TouchElems(lru, accesses[i]);
        TouchLength(lru, accesses[i]);
      } else {
        s.ResidentMiss(accesses, i);
        FitIsSuffix(lru, s.size, s.Room() - s.size(accesses[i]));
      }
    }
  }

  lemma TouchLength<T>(lru: seq<T>, x: T)
    requires NoDup(lru) && x in lru
    ensures |Touch(lru, x)| == |lru|
  {
    WithoutWeight(lru, x, _ => 0);
  }

  // ------------------------------------------- budgets and the bypass rule

  /**
   No collection of resources that the small budget would hold together, mixed
   with resources only the large budget admits, can overflow the large budget.
   */
  ghost predicate Harmless<T(!new)>(s: R9.Study<T>, larger: int) {
    forall small: seq<T>, big: seq<T> ::
      Threat(s, larger, small, big)
      ==> Weight(small, s.size) + Weight(big, s.size) <= larger - Weight(s.pinned, s.size)
  }

  ghost predicate Threat<T>(s: R9.Study<T>, larger: int, small: seq<T>, big: seq<T>) {
    && small != [] && NoDup(small) && NoDup(big)
    && Weight(small, s.size) <= s.Room()
    && (forall x :: x in small ==> s.Cacheable(x))
    && (forall x :: x in big ==> !s.Cacheable(x) && s.(effective := larger).Cacheable(x))
  }

  lemma OutsideEmpty<T>(out: seq<T>)
    ensures Outside([], out) == []
  {
  }

  lemma TouchOutside<T>(stack: seq<T>, out: seq<T>, x: T)
    requires NoDup(stack)
    ensures Outside(Touch(stack, x), out)
         == if x in out then Outside(stack, out) else Touch(Outside(stack, out), x)
  {
    OutsideWithout(stack, out, x);
    OutsideConcat(Without(stack, x), [x], out);
    assert Outside([x], out) == if x in out then [] else [x];
    if x in out {
      OutsideElems(stack, out);
      WithoutAbsent(Outside(stack, out), x);
    }
  }

  /** Dropping from a stack the resources a budget bypasses commutes with touching. */
  lemma {:induction false} HistoryFilters<T>(s: R9.Study<T>, larger: int, accesses: seq<T>, bypassed: seq<T>)
    requires s.effective <= larger
    requires forall x :: x in accesses ==> (x in bypassed <==> !s.Cacheable(x))
    ensures TouchAll([], s.History(accesses))
         == Outside(TouchAll([], s.(effective := larger).History(accesses)), bypassed)
  {
    hide Weight, Fit, Without, Touch, Outside;
    var l := s.(effective := larger);
    if accesses == [] {
      OutsideEmpty(bypassed);
    } else {
      var n := |accesses| - 1;
      var x := accesses[n];
      assert accesses == accesses[..n] + [x];
      HistoryFilters(s, larger, accesses[..n], bypassed);
      var h, H := s.History(accesses[..n]), l.History(accesses[..n]);
      assert (h + [x])[..|h|] == h && (H + [x])[..|H|] == H;
      assert h + [] == h && H + [] == H;
      TouchAllElems([], H);
      TouchOutside(TouchAll([], H), bypassed, x);
    }
  }

  /** A resource held by the small budget is held by the large one when no mix overflows it. */
  lemma HarmlessKeepsHits<T(!new)>(s: R9.Study<T>, larger: int, accesses: seq<T>, x: T)
    requires s.Room() >= 0 && s.effective <= larger && Harmless(s, larger)
    requires s.IsHit(accesses, x)
    ensures s.(effective := larger).IsHit(accesses, x)
  {
    hide Fit, Weight, TouchAll, Outside, Inside, R9.Study.History;
    var l := s.(effective := larger);
    if x !in s.pinned {
      var stack := TouchAll([], l.History(accesses));
      var i, small, big := HeldSuffix(s, larger, accesses, x);
      OutsideInsideSuffix(s, larger, stack, i, small, big);
      FitIsLongest(stack, s.size, l.Room(), i);
      FitIsSuffix(stack, s.size, l.Room());
      assert l.Resident(accesses)[i - (|stack| - |l.Resident(accesses)|)] == x;
    }
  }

  lemma OutsideInsideSuffix<T(!new)>(s: R9.Study<T>, larger: int, stack: seq<T>, i: nat, small: seq<T>, big: seq<T>)
    requires i <= |stack| && Harmless(s, larger) && Threat(s, larger, small, big)
    requires Weight(stack[i..], s.size) == Weight(small, s.size) + Weight(big, s.size)
    ensures Weight(stack[i..], s.size) <= larger - Weight(s.pinned, s.size)
  {
  }

  /** From a held resource upward, the large budget's stack splits into a threat. */
  lemma HeldSuffix<T>(s: R9.Study<T>, larger: int, accesses: seq<T>, x: T)
    returns (i: nat, small: seq<T>, big: seq<T>)
    requires s.Room() >= 0 && s.effective <= larger
    requires x in s.Resident(accesses)
    ensures var stack := TouchAll([], s.(effective := larger).History(accesses));
      && i < |stack| && stack[i] == x
      && Weight(stack[i..], s.size) == Weight(small, s.size) + Weight(big, s.size)
    ensures Threat(s, larger, small, big)
  {
    hide Fit, Weight, TouchAll, Outside, Inside, R9.Study.History;
    var l := s.(effective := larger);
    var bypassed := Bypassed(s, accesses);
    var stack := TouchAll([], l.History(accesses));
    TouchAllElems([], l.History(accesses));
    l.HistoryCacheable(accesses);
    HistoryFilters(s, larger, accesses, bypassed);
    s.ResidentSound(accesses);
    FitIsSuffix(Outside(stack, bypassed), s.size, s.Room());
    OutsideElems(stack, bypassed);
    i :| 0 <= i < |stack| && stack[i] == x;
    SuffixFromMember(stack, bypassed, s.Resident(accesses), i, s.size);
    small, big := Outside(stack[i..], bypassed), Inside(stack[i..], bypassed);
    NoDupSuffix(stack, i);
    OutsideElems(stack[i..], bypassed);
    OutsideInsideWeight(stack[i..], bypassed, s.size);
    forall y | y in stack[i..]
      ensures y in accesses && l.Cacheable(y)
    {
      assert y in stack;
    }
  }

  function Bypassed<T>(s: R9.Study<T>, accesses: seq<T>): (r: seq<T>)
    ensures forall x :: x in accesses ==> (x in r <==> !s.Cacheable(x))
    ensures forall x :: x in r ==> x in accesses && !s.Cacheable(x)
  {
    if accesses == [] then []
    else
      assert accesses == [accesses[0]] + accesses[1..];
      if s.Cacheable(accesses[0]) then Bypassed(s, accesses[1..])
      else [accesses[0]] + Bypassed(s, accesses[1..])
  }

  lemma NoDupSuffix<T>(s: seq<T>, i: nat)
    requires NoDup(s) && i <= |s|
    ensures NoDup(s[i..])
  {
  }

  lemma HeadNotInSuffix<T>(s: seq<T>, k: nat)
    requires NoDup(s) && 0 < k <= |s|
    ensures s[0] !in s[k..]
  {
    forall j | k <= j < |s|
      ensures s[j] != s[0]
    {
    }
  }

  lemma FirstOnlyInLongSuffix<T>(below: seq<T>, above: seq<T>, m: nat)
    requires NoDup(above) && above != [] && m <= |below + above|
    ensures m < |above| ==> above[0] !in (below + above)[|below + above| - m..]
  {
    if m < |above| {
      assert (below + above)[|below + above| - m..] == above[|above| - m..];
      HeadNotInSuffix(above, |above| - m);
    }
  }

  /** The filtered part above a member of a fitting suffix of the filtered stack weighs no more than it. */
  lemma {:induction false} SuffixFromMember<T>(stack: seq<T>, out: seq<T>, fit: seq<T>, i: nat, size: T -> nat)
    requires i < |stack| && NoDup(stack) && stack[i] !in out && stack[i] in fit
    requires |fit| <= |Outside(stack, out)|
    requires fit == Outside(stack, out)[|Outside(stack, out)| - |fit|..]
    ensures Weight(Outside(stack[i..], out), size) <= Weight(fit, size)
    ensures Outside(stack[i..], out) != []
  {
    var all := Outside(stack, out);
    var above := Outside(stack[i..], out);
    assert stack == stack[..i] + stack[i..];
    OutsideConcat(stack[..i], stack[i..], out);
    OutsideElems(stack, out);
    OutsideElems(stack[..i], out);
    OutsideElems(stack[i..], out);
    assert stack[i] in above by {
      assert stack[i..][0] == stack[i];
    }
    var below := Outside(stack[..i], out);
    assert all == below + above;
    FirstOnlyInLongSuffix(below, above, |fit|);
    assert above[0] == stack[i];
    assert above == fit[|fit| - |above|..];
    SuffixWeight(fit, |fit| - |above|, size);
  }

  /** A threat that overflows the large budget leaves its oldest member with the small budget only. */
  lemma ThreatDrops<T>(s: R9.Study<T>, larger: int, small: seq<T>, big: seq<T>)
    requires s.Room() >= 0 && s.effective <= larger && Threat(s, larger, small, big)
    requires Weight(small, s.size) + Weight(big, s.size) > larger - Weight(s.pinned, s.size)
    ensures NoDup(small + big)
    ensures small[0] in s.Resident(small + big) && small[0] !in s.(effective := larger).Resident(small + big)
  {
    var l := s.(effective := larger);
    var n := |small + big|;
    NoDupJoin(small, big);
    SmallHistory(s, small, big);
    WholeHistory(l, small + big);
    WeightConcat(small, big, s.size);
    DistinctTouches(small);
    DistinctTouches(small + big);
    assert s.Resident(small + big) == small;
    var held := l.Resident(small + big);
    FitIsSuffix(small + big, s.size, l.Room());
    assert |held| == n ==> held == small + big;
    assert (small + big)[0] == small[0];
    HeadNotInSuffix(small + big, n - |held|);
  }

  /** Asked for again, that member is a hit for the small budget and a miss for the large one. */
  lemma ThreatCosts<T>(s: R9.Study<T>, larger: int, small: seq<T>, big: seq<T>)
    requires s.Room() >= 0 && s.effective <= larger && Threat(s, larger, small, big)
    requires Weight(small, s.size) + Weight(big, s.size) > larger - Weight(s.pinned, s.size)
    ensures var trace := (small + big) + [small[0]];
      && s.(effective := larger).Account(trace).hits < s.Account(trace).hits
      && s.(effective := larger).Account(trace).staged == s.Account(trace).staged + s.size(small[0])
  {
    hide R9.Study.Resident, Weight;
    var l := s.(effective := larger);
    var trace := (small + big) + [small[0]];
    var n := |small + big|;
    ThreatDrops(s, larger, small, big);
    FreshTrace(s, small + big);
    FreshTrace(l, small + big);
    assert trace[..n] == small + big && trace[n] == small[0];
  }

  /** First accesses never hit, so a trace without repeats saves nothing. */
  lemma {:induction false} FreshTrace<T>(s: R9.Study<T>, accesses: seq<T>)
    requires s.Room() >= 0 && NoDup(accesses) && forall x :: x in accesses ==> x !in s.pinned
    ensures s.HitBytes(accesses) == 0 && s.HitCount(accesses) == 0
  {
    if accesses != [] {
      var n := |accesses| - 1;
      FreshTrace(s, accesses[..n]);
      s.ResidentSound(accesses[..n]);
      assert accesses[n] !in accesses[..n];
    }
  }

  lemma {:induction false} WholeHistory<T>(s: R9.Study<T>, accesses: seq<T>)
    requires forall x :: x in accesses ==> s.Cacheable(x)
    ensures s.History(accesses) == accesses
  {
    if accesses != [] {
      WholeHistory(s, accesses[..|accesses| - 1]);
    }
  }

  lemma {:induction false} SmallHistory<T>(s: R9.Study<T>, small: seq<T>, big: seq<T>)
    requires forall x :: x in small ==> s.Cacheable(x)
    requires forall x :: x in big ==> !s.Cacheable(x)
    ensures s.History(small + big) == small
  {
    if big == [] {
      assert small + big == small;
      WholeHistory(s, small);
    } else {
      var n := |big| - 1;
      assert (small + big)[..|small + big| - 1] == small + big[..n];
      assert (small + big)[|small + big| - 1] == big[n];
      SmallHistory(s, small, big[..n]);
      assert small + [] == small;
    }
  }

  lemma {:induction false} DistinctTouches<T>(xs: seq<T>)
    requires NoDup(xs)
    ensures TouchAll([], xs) == xs
  {
    if xs != [] {
      var n := |xs| - 1;
      DistinctTouches(xs[..n]);
      WithoutAbsent(xs[..n], xs[n]);
    }
  }

  /** Everything the smaller budget holds, the larger one holds too. */
  ghost predicate Includes<T(!new)>(s: R9.Study<T>, larger: int, accesses: seq<T>) {
    forall x :: x in s.Resident(accesses) ==> x in s.(effective := larger).Resident(accesses)
  }

  /**
   A larger budget is never worse when the condition holds: after every trace
   the resident set is included, no hit is lost, and neither misses, bypasses
   nor staged bytes rise.
   */
  lemma {:induction false} ShadowBudgetMonotone<T(!new)>(s: R9.Study<T>, larger: int, accesses: seq<T>)
    requires s.Room() >= 0 && s.effective <= larger && Harmless(s, larger)
    ensures Includes(s, larger, accesses)
    ensures var small, large := s.Account(accesses), s.(effective := larger).Account(accesses);
      && small.hits <= large.hits && large.misses <= small.misses
      && large.bypassed <= small.bypassed && large.staged <= small.staged
  {
    hide R9.Study.Resident, Weight, Harmless;
    var l := s.(effective := larger);
    forall x | x in s.Resident(accesses)
      ensures x in l.Resident(accesses)
    {
      s.ResidentSound(accesses);
      HarmlessKeepsHits(s, larger, accesses, x);
    }
    if accesses != [] {
      var n := |accesses| - 1;
      assert accesses == accesses[..n] + [accesses[n]];
      WeightConcat(accesses[..n], [accesses[n]], s.size);
      ShadowBudgetMonotone(s, larger, accesses[..n]);
    }
  }

  /**
   Exactly when raising the budget of the bypassing cache is safe: no
   collection of newly admitted resources can push out what the smaller budget
   would hold. That one condition decides, over all traces, whether the
   resident sets are included, whether hits never fall and, sizes being
   positive, whether staged bytes never rise.
   */
  lemma BudgetMonotoneIff<T(!new)>(s: R9.Study<T>, larger: int)
    requires s.Room() >= 0 && s.effective <= larger
    ensures (forall accesses: seq<T> :: Includes(s, larger, accesses)) <==> Harmless(s, larger)
    ensures (forall accesses: seq<T> :: s.Account(accesses).hits <= s.(effective := larger).Account(accesses).hits)
       <==> Harmless(s, larger)
    ensures (forall x :: s.size(x) > 0) ==>
      ((forall accesses: seq<T> :: s.(effective := larger).Account(accesses).staged <= s.Account(accesses).staged)
       <==> Harmless(s, larger))
  {
    hide R9.Study.Account, R9.Study.Resident;
    if Harmless(s, larger) {
      forall accesses: seq<T> {
        ShadowBudgetMonotone(s, larger, accesses);
      }
    } else {
      var small, big :| Threat(s, larger, small, big)
        && Weight(small, s.size) + Weight(big, s.size) > larger - Weight(s.pinned, s.size);
      ThreatDrops(s, larger, small, big);
      ThreatCosts(s, larger, small, big);
      assert !Includes(s, larger, small + big);
    }
  }

  lemma NonEmptyHasMember<T>(s: seq<T>)
    ensures s != [] ==> exists x :: x in s
  {
    if s != [] {
      assert s[0] in s;
    }
  }

  /** When both budgets bypass the same resources no mix can overflow, so no trace is worse under the larger one. */
  lemma SameBypassesMonotone<T(!new)>(s: R9.Study<T>, larger: int, accesses: seq<T>)
    requires s.Room() >= 0 && s.effective <= larger
    requires forall x :: s.(effective := larger).Cacheable(x) ==> s.Cacheable(x)
    ensures Includes(s, larger, accesses)
    ensures var small, large := s.Account(accesses), s.(effective := larger).Account(accesses);
      small.hits <= large.hits && large.misses <= small.misses && large.staged <= small.staged
  {
    hide R9.Study.Account, R9.Study.Resident;
    forall small: seq<T>, big: seq<T> | Threat(s, larger, small, big)
      ensures Weight(small, s.size) + Weight(big, s.size) <= larger - Weight(s.pinned, s.size)
    {
      NonEmptyHasMember(big);
    }
    ShadowBudgetMonotone(s, larger, accesses);
  }

  /**
   A smallest instance: one byte of extra budget admits a two-byte resource
   that evicts a one-byte one, and the same three accesses stage more bytes.
   */
  lemma LargerBudgetStagesMore()
    ensures TwoSizes(2).Account([false, true, false]).staged
          > TwoSizes(1).Account([false, true, false]).staged
  {
    hide Fit, TouchAll, Threat, R9.Study.Account;
    TwoSizesThreat();
    ThreatCosts(TwoSizes(1), 2, [false], [true]);
    assert ([false] + [true]) + [false] == [false, true, false];
  }

  lemma TwoSizesThreat()
    ensures Threat(TwoSizes(1), 2, [false], [true])
    ensures TwoSizes(1).(effective := 2) == TwoSizes(2)
    ensures Weight([false], TwoSizes(1).size) == 1 && Weight([true], TwoSizes(1).size) == 2
    ensures Weight([], TwoSizes(1).size) == 0
  {
  }

  function TwoSizes(effective: int): R9.Study<bool> {
    R9.Study([], (big: bool) => if big then 2 else 1, effective)
  }

  // -------------------------------------------------- the two caches compared

  /** The R9 study with the same pins, sizes and budget. */
  function Flattened<T(==)>(c: Cache<T>): R9.Study<T> {
    R9.Study(c.pinned, c.size, c.effective)
  }

  lemma {:induction false} HistoryConcat<T>(s: R9.Study<T>, a: seq<T>, b: seq<T>)
    ensures s.History(a + b) == s.History(a) + s.History(b)
  {
    if b == [] {
      assert a + b == a;
    } else {
      var n := |b| - 1;
      assert (a + b)[..|a + b| - 1] == a + b[..n];
      HistoryConcat(s, a, b[..n]);
    }
  }

  lemma {:induction false} HistoryIsDemand<T>(s: R9.Study<T>, event: seq<T>)
    requires forall x :: x in event && x !in s.pinned ==> s.Cacheable(x)
    ensures s.History(event) == Outside(event, s.pinned)
  {
    if event != [] {
      var n := |event| - 1;
      assert event == event[..n] + [event[n]];
      HistoryIsDemand(s, event[..n]);
      OutsideConcat(event[..n], [event[n]], s.pinned);
      assert Outside([event[n]], s.pinned) == if event[n] in s.pinned then [] else [event[n]];
    }
  }

  lemma {:induction false} HistoryIsDemands<T>(c: Cache<T>, events: seq<seq<T>>)
    requires NoDup(c.pinned) && c.AllFit(events)
    ensures Flattened(c).History(Concat(events)) == Demands(c, events)
  {
    if events != [] {
      var n := |events| - 1;
      HistoryIsDemands(c, events[..n]);
      HistoryConcat(Flattened(c), Concat(events[..n]), events[n]);
      OutsideElems(events[n], c.pinned);
      forall x | x in events[n] && x !in c.pinned
        ensures Flattened(c).Cacheable(x)
      {
        assert x in c.Demand(events[n]);
        DemandFits(c, events[n], x);
      }
      HistoryIsDemand(Flattened(c), events[n]);
    }
  }

  /** Served expert by expert or group by group, a trace leaves the same residents. */
  lemma SameResidents<T>(c: Cache<T>, events: seq<seq<T>>)
    requires NoDup(c.pinned) && c.Room() >= 0 && c.AllFit(events)
    ensures c.Replay(events).lru == Flattened(c).Resident(Concat(events))
  {
    StackLaw(c, events);
    HistoryIsDemands(c, events);
  }

  /** Key by key, one event hits no more than it does as a group; a single access hits exactly as often. */
  lemma {:induction false} EventHits<T>(s: R9.Study<T>, c: Cache<T>, flat: seq<T>, event: seq<T>, k: nat)
    requires s == Flattened(c) && s.Room() >= 0 && k <= |event|
    ensures var lru := s.Resident(flat);
            var faults := c.Faults(event[..k], lru);
      && s.HitCount(flat + event[..k]) - s.HitCount(flat) <= k - |faults|
      && s.HitBytes(flat + event[..k]) - s.HitBytes(flat) <= Weight(event[..k], s.size) - Weight(faults, s.size)
      && (forall x :: x in s.Resident(flat + event[..k]) ==> x in lru || x in event[..k])
      && (k <= 1 ==>
            && s.HitCount(flat + event[..k]) - s.HitCount(flat) == k - |faults|
            && s.HitBytes(flat + event[..k]) - s.HitBytes(flat) == Weight(event[..k], s.size) - Weight(faults, s.size))
  {
    hide R9.Study.Resident, R9.Study.HitCount, R9.Study.HitBytes, R9.Study.Bypasses, R9.Study.Peak, Weight;
    hide R9.Study.Cacheable, Cache.Faults;
    if k == 0 {
      NoFaults(c, s.Resident(flat));
      assert flat + event[..0] == flat && event[..0] == [];
      EmptyWeights(s.size);
    } else {
      var lru := s.Resident(flat);
      var i := k - 1;
      var key := event[i];
      var all := flat + event[..k];
      EventHits(s, c, flat, event, i);
      assert all[..|flat| + i] == flat + event[..i] && all[..|flat| + k] == all;
      assert event[..k] == event[..i] + [key];
      s.CountsStep(all, |flat| + i);
      ResidentGrowth(s, all, |flat| + i);
      c.FaultsStep(event, i, lru);
      c.FaultsElems(event[..i], lru);
      WeightConcat(event[..i], [key], s.size);
      WeightConcat(c.Faults(event[..i], lru), [key], s.size);
      s.SingleWeight(key);
    }
  }

  lemma NoFaults<T>(c: Cache<T>, lru: seq<T>)
    ensures c.Faults([], lru) == []
  {
  }

  lemma EmptyWeights<T>(size: T -> nat)
    ensures Weight([], size) == 0
  {
  }

  /**
   Atomic groups never cost more than serving the same experts one by one under
   the same budget: no more misses, no more staged bytes, the same final cache.
   */
  lemma {:induction false} GroupedNeverWorse<T>(c: Cache<T>, events: seq<seq<T>>)
    requires NoDup(c.pinned) && c.Room() >= 0 && c.AllFit(events)
    ensures var g := c.Replay(events).tally;
            var k := Flattened(c).Account(Concat(events));
      && g.resident == k.resident
      && g.misses <= k.misses && g.hits >= k.hits && g.staged <= k.staged
      && g.uses == |Concat(events)|
  {
    var s := Flattened(c);
    if events == [] {
      s.EmptyAccount();
    } else {
      var n := |events| - 1;
      var flat := Concat(events[..n]);
      GroupedNeverWorse(c, events[..n]);
      SameResidents(c, events[..n]);
      SameResidents(c, events);
      EventHits(s, c, flat, events[n], |events[n]|);
      assert events[n][..|events[n]|] == events[n];
      WeightConcat(flat, events[n], s.size);
    }
  }

  /** On single-resource events that all fit beside the pins, the two replays report the same counters. */
  lemma {:induction false} CachesAgree<T>(c: Cache<T>, accesses: seq<T>)
    requires NoDup(c.pinned) && c.Room() >= 0
    requires forall x :: x in accesses && x !in c.pinned ==> c.size(x) <= c.Room()
    ensures c.AllFit(Singles(accesses)) && Concat(Singles(accesses)) == accesses
    ensures SameCounters(c.Replay(Singles(accesses)).tally, Flattened(c).Account(accesses))
  {
    var s := Flattened(c);
    SinglesFit(c, accesses);
    if accesses == [] {
      s.EmptyAccount();
    } else {
      var n := |accesses| - 1;
      var before := accesses[..n];
      var events := Singles(accesses);
      assert events[..n] == Singles(before);
      CachesAgree(c, before);
      SingleStep(c, before, accesses[n]);
      assert before + [accesses[n]] == accesses;
    }
  }

  function Singles<T>(accesses: seq<T>): seq<seq<T>> {
    seq(|accesses|, i requires 0 <= i < |accesses| => [accesses[i]])
  }

  lemma {:induction false} SinglesFit<T>(c: Cache<T>, accesses: seq<T>)
    requires NoDup(c.pinned) && c.Room() >= 0
    requires forall x :: x in accesses && x !in c.pinned ==> c.size(x) <= c.Room()
    ensures c.AllFit(Singles(accesses)) && Concat(Singles(accesses)) == accesses
  {
    if accesses != [] {
      var n := |accesses| - 1;
      SinglesFit(c, accesses[..n]);
      assert Singles(accesses)[..n] == Singles(accesses[..n]);
      assert accesses == accesses[..n] + [accesses[n]];
      forall event | event in Singles(accesses)
        ensures c.GroupFits(event)
      {
        SingleFits(c, event[0]);
      }
    }
  }

  lemma SingleFits<T>(c: Cache<T>, x: T)
    requires NoDup(c.pinned) && c.Room() >= 0 && (x !in c.pinned ==> c.size(x) <= c.Room())
    ensures c.GroupFits([x])
  {
    assert (c.pinned + [x])[..|c.pinned|] == c.pinned;
    DistinctOfNoDup(c.pinned);
    WeightConcat(c.pinned, [x], c.size);
  }

  /** One single-resource event moves both accounts alike. */
  lemma SingleStep<T>(c: Cache<T>, before: seq<T>, x: T)
    requires NoDup(c.pinned) && c.Room() >= 0 && c.GroupFits([x])
    requires c.AllFit(Singles(before)) && Concat(Singles(before)) == before
    requires c.AllFit(Singles(before) + [[x]]) && Concat(Singles(before) + [[x]]) == before + [x]
    requires c.size(x) <= c.Room() || x in c.pinned
    requires SameCounters(c.Replay(Singles(before)).tally, Flattened(c).Account(before))
    ensures SameCounters(c.Replay(Singles(before) + [[x]]).tally, Flattened(c).Account(before + [x]))
  {
    hide Fit, TouchAll, Weight, Concat, Singles, Cache.Faults, Cache.Demand, Cache.PeakAt, Cache.AllFit, Cache.GroupFits;
    hide R9.Study.Resident, R9.Study.HitCount, R9.Study.HitBytes, R9.Study.Bypasses, R9.Study.Peak, R9.Study.IsHit;
    var s := Flattened(c);
    var st := c.Replay(Singles(before));
    SinglesLength(before);
    SameResidents(c, Singles(before));
    SameResidents(c, Singles(before) + [[x]]);
    EventHits(s, c, before, [x], 1);
    assert [x][..1] == [x];
    assert (Singles(before) + [[x]])[..|before|] == Singles(before);
    assert (before + [x])[..|before|] == before && (before + [x])[..|before| + 1] == before + [x];
    s.CountsStep(before + [x], |before|);
    s.SingleWeight(x);
    c.ReplaySound(Singles(before));
    SinglePeak(c, st, x);
  }

  lemma SinglesLength<T>(accesses: seq<T>)
    ensures |Singles(accesses)| == |accesses|
  {
  }

  /** Serving one resource raises the high-water mark to what is then resident. */
  lemma SinglePeak<T>(c: Cache<T>, st: State<T>, x: T)
    requires c.Sound(st.lru) && c.GroupFits([x])
    ensures c.PeakAt([x], 1, st.lru, st.tally.peak)
         == Max(st.tally.peak, Weight(c.pinned, c.size) + Weight(c.AfterEvent(st, [x]).lru, c.size))
  {
    hide Fit, TouchAll, Weight, Cache.Faults, Cache.Held;
    GroupResident(c, st, [x]);
    WeightConcat(c.Kept([x], 1, st.lru), TouchAll([], c.Demand([x])), c.size);
    DemandWeight(c, st.lru, [x]);
    assert c.PeakAt([x], 0, st.lru, st.tally.peak) == st.tally.peak;
  }

  ghost predicate SameCounters(g: Tally, k: R9.Tally) {
    && g.staged == k.staged && g.hits == k.hits && g.misses == k.misses
    && g.evictions == k.evictions && g.peak == k.peak && g.resident == k.resident
  }
}
