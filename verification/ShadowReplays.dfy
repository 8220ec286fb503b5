/**
 The R9 cache on experts of one uniform size, as the R10 bridge of
 `phios/elastic_router_r10.py` calls it.
 */
module ShadowReplays {
  import opened Sequences
  import opened RouterCapture
  import R9 = ShadowCache
  import CacheLaws
  import SharedReview

  function Uniform(size: nat): int -> nat {
    x => size
  }

  /** The study `bridge` builds: the pinned resources in id order, all of one size. */
  function Shadow(pins: seq<int>, size: nat, effective: int): R9.Study<int> {
    R9.Study(SortedInts(Elems(pins)), Uniform(size), effective)
  }

  function PinnedBytes(pins: seq<int>, size: nat): nat {
    Weight(SortedInts(Elems(pins)), Uniform(size))
  }

  function Outcome(pins: seq<int>, size: nat, effective: int, routed: seq<int>): R9.Review {
    var s := Shadow(pins, size, effective);
    if s.Room() < 0 then R9.Held
    else
      R9.Reviewed(Weight(routed, Uniform(size)), |s.pinned| + s.Account(routed).misses, PinnedBytes(pins, size),
                  s.Account(routed))
  }

  lemma {:induction false} SortedLength(s: set<int>)
    ensures |SortedInts(s)| == |s|
    decreases |s|
  {
    if s != {} {
      HasMinimum(s);
      var m :| m in s && (forall y :: y in s ==> m <= y) && SortedInts(s) == [m] + SortedInts(s - {m});
      SortedLength(s - {m});
    }
  }

  /** `sorted(set(pins))` is duplicate-free and holds exactly the pins. */
  lemma PinsSorted(pins: seq<int>)
    ensures NoDup(SortedInts(Elems(pins)))
    ensures forall p :: p in SortedInts(Elems(pins)) <==> p in pins
    ensures |SortedInts(Elems(pins))| == |Elems(pins)|
  {
    SortedIntsSpec(Elems(pins));
    SortedLength(Elems(pins));
    AscendingNoDup(SortedInts(Elems(pins)));
  }

  /** The resources flagged as pinned, taken in id order, are the sorted pins. */
  lemma PinnedResources(routed: set<int>, pins: seq<int>)
    ensures Inside(SortedInts(routed + Elems(pins)), pins) == SortedInts(Elems(pins))
  {
    var numbers := SortedInts(routed + Elems(pins));
    SortedIntsSpec(routed + Elems(pins));
    SortedIntsSpec(Elems(pins));
    OutsideElems(numbers, pins);
    AscendingInside(numbers, pins);
    SharedReview.AscendingUnique(Inside(numbers, pins), SortedInts(Elems(pins)));
  }

  lemma {:induction false} AscendingInside(s: seq<int>, g: seq<int>)
    requires Ascending(s)
    ensures Ascending(Inside(s, g))
  {
    if s != [] {
      SharedReview.AscendingHead(s);
      AscendingInside(s[1..], g);
      OutsideElems(s[1..], g);
      if s[0] in g {
        AscendingCons(s[0], Inside(s[1..], g));
      }
    }
  }

  lemma {:induction false} NoDupCardinality(s: seq<int>)
    ensures NoDup(s) <==> |Elems(s)| == |s|
  {
    if s == [] {
      assert Elems(s) == {};
    } else {
      NoDupCardinality(s[1..]);
      assert s == [s[0]] + s[1..];
      NoDupCons(s[0], s[1..]);
      assert Elems(s) == Elems(s[1..]) + {s[0]};
      SharedReview.ElemsAtMostLength(s[1..]);
    }
  }

  // ------------------------------------------------------------ uniform sizes

  lemma {:induction false} UniformWeight(s: seq<int>, size: nat)
    ensures Weight(s, Uniform(size)) == Times(|s|, size)
  {
    if s != [] {
      UniformWeight(s[1..], size);
    }
  }

  lemma {:induction false} UniformHits(s: R9.Study<int>, size: nat, routed: seq<int>)
    requires forall x :: s.size(x) == size
    ensures 0 <= s.HitCount(routed) <= |routed|
    ensures s.HitBytes(routed) == Times(s.HitCount(routed), size)
  {
    hide R9.Study.IsHit, R9.Study.Resident, R9.Study.History;
    if routed != [] {
      UniformHits(s, size, routed[..|routed| - 1]);
    }
  }

  lemma {:induction false} NothingBypassed(s: R9.Study<int>, size: nat, routed: seq<int>)
    requires (forall x :: s.size(x) == size) && size <= s.Room()
    ensures s.Bypasses(routed) == 0
  {
    if routed != [] {
      NothingBypassed(s, size, routed[..|routed| - 1]);
    }
  }

  /**
   With room for one expert beside the pins nothing is held or bypassed, and
   staged bytes are the pins plus the misses, each at the one expert size.
   */
  lemma UniformReplay(pins: seq<int>, size: nat, effective: int, routed: seq<int>)
    requires size >= 1 && NoDup(pins) && Times(|pins| + 1, size) <= effective && routed != []
    ensures Outcome(pins, size, effective, routed).Reviewed?
    ensures PinnedBytes(pins, size) == Times(|pins|, size)
    ensures var t := Shadow(pins, size, effective).Account(routed);
      && t.bypassed == 0 && 0 <= t.hits <= |routed|
      && t.staged + Times(t.hits, size) == Times(|pins|, size) + Times(|routed|, size)
      && t.staged >= size && 0 <= t.peak <= effective
      && (pins == [] ==> t.staged >= Times(|Elems(routed)|, size))
  {
    hide R9.Study.Account, SortedInts, Elems, Weight, Distinct, Outside, R9.Study.Resident, R9.Study.HitBytes;
    var s := Shadow(pins, size, effective);
    PinsSorted(pins);
    NoDupCardinality(pins);
    UniformWeight(s.pinned, size);
    UniformAccount(s, size, routed);
    CacheLaws.ShadowConservation(s, routed);
    EachPaidOnce(s, size, routed);
    NoPins(pins);
  }

  lemma NoPins(pins: seq<int>)
    ensures pins == [] ==> SortedInts(Elems(pins)) == []
  {
    assert pins == [] ==> Elems(pins) == {};
  }

  lemma UniformAccount(s: R9.Study<int>, size: nat, routed: seq<int>)
    requires s.size == Uniform(size) && s.Room() >= size
    ensures var t := s.Account(routed);
      && t.bypassed == 0 && 0 <= t.hits <= |routed|
      && t.staged + Times(t.hits, size) == Times(|s.pinned|, size) + Times(|routed|, size)
      && t.peak >= 0
  {
    hide Weight, R9.Study.Resident, R9.Study.HitBytes, R9.Study.HitCount, R9.Study.Bypasses, R9.Study.Peak;
    UniformHits(s, size, routed);
    NothingBypassed(s, size, routed);
    UniformWeight(s.pinned, size);
    UniformWeight(routed, size);
    s.PeakCovers(routed);
  }

  /** At least one load, and without pins one load per distinct expert. */
  lemma EachPaidOnce(s: R9.Study<int>, size: nat, routed: seq<int>)
    requires s.size == Uniform(size) && routed != [] && NoDup(s.pinned)
    requires s.Account(routed).staged >= Weight(s.pinned, s.size) + Weight(Distinct(Outside(routed, s.pinned)), s.size)
    ensures s.Account(routed).staged >= size
    ensures s.pinned == [] ==> s.Account(routed).staged >= Times(|Elems(routed)|, size)
  {
    hide R9.Study.Account;
    var unpinned := Outside(routed, s.pinned);
    var loads := Distinct(unpinned);
    UniformWeight(s.pinned, size);
    UniformWeight(loads, size);
    OutsideElems(routed, s.pinned);
    DistinctElems(unpinned);
    NoDupCardinality(loads);
    assert routed[0] in routed;
    if routed[0] in s.pinned {
      TimesGrows(0, |s.pinned|, size);
    } else {
      assert routed[0] in loads;
      TimesGrows(0, |loads|, size);
    }
    if s.pinned == [] {
      assert Elems(loads) == Elems(routed);
    }
  }
}
