/**
 The pinned-plus-LRU shadow cache of `phios/elastic_cache_r9.py`: mandatory
 pins, demand loading with LRU eviction, and a bypass for resources too large
 to sit beside the pins.
 */
module ShadowCache {
  import opened Sequences
  import opened RecencyStack
  import SharedCache

  datatype Tally = Tally(
    staged: int, hits: int, misses: int, evictions: int, bypassed: int,
    peak: int, resident: int)

  /** `HELD` when the mandatory pins alone overflow, else the candidate counters. */
  datatype Review = Held | Reviewed(baseline: int, operations: int, preload: int, tally: Tally)

  datatype State<T> = State(lru: seq<T>, tally: Tally)

  datatype Study<!T(==)> = Study(pinned: seq<T>, size: T -> nat, effective: int) {

    function Room(): int {
      effective - Weight(pinned, size)
    }

    /** A resource the LRU may hold; larger ones are streamed past it. */
    predicate Cacheable(x: T) {
      x !in pinned && size(x) <= Room()
    }

    /** The accesses that reach the LRU. */
    function History(accesses: seq<T>): seq<T> {
      if accesses == [] then []
      else
        var n := |accesses| - 1;
        History(accesses[..n]) + (if Cacheable(accesses[n]) then [accesses[n]] else [])
    }

    /** What a demand-loaded cache of this budget holds after `accesses`. */
    function Resident(accesses: seq<T>): seq<T> {
      Fit(TouchAll([], History(accesses)), size, Room())
    }

    predicate IsHit(before: seq<T>, x: T) {
      x in pinned || x in Resident(before)
    }

    /** Bytes and number of the accesses that hit, decided access by access. */
    function HitBytes(accesses: seq<T>): int {
      if accesses == [] then 0
      else
        var n := |accesses| - 1;
        HitBytes(accesses[..n]) + (if IsHit(accesses[..n], accesses[n]) then size(accesses[n]) else 0)
    }

    function HitCount(accesses: seq<T>): int {
      if accesses == [] then 0
      else
        var n := |accesses| - 1;
        HitCount(accesses[..n]) + (if IsHit(accesses[..n], accesses[n]) then 1 else 0)
    }

    function Bypasses(accesses: seq<T>): int {
      if accesses == [] then 0
      else
        var n := |accesses| - 1;
        Bypasses(accesses[..n])
        + (if accesses[n] !in pinned && !Cacheable(accesses[n]) then 1 else 0)
    }

    /** The high-water mark of pins plus demand-loaded bytes over every prefix. */
    function Peak(accesses: seq<T>): int {
      if accesses == [] then Weight(pinned, size)
      else SharedCache.Max(Peak(accesses[..|accesses| - 1]), Weight(pinned, size) + Weight(Resident(accesses), size))
    }

    /** The counters of the whole trace, each from its own definition. */
    function Account(accesses: seq<T>): Tally {
      var misses := |accesses| - HitCount(accesses);
      Tally(
        Weight(pinned, size) + Weight(accesses, size) - HitBytes(accesses),
        HitCount(accesses),
        misses,
        misses - Bypasses(accesses) - |Resident(accesses)|,
        Bypasses(accesses),
        Peak(accesses),
        Weight(pinned, size) + Weight(Resident(accesses), size))
    }

    lemma HistoryCacheable(accesses: seq<T>)
      ensures forall x :: x in History(accesses) ==> Cacheable(x) && x in accesses
      ensures forall x :: x in accesses && Cacheable(x) ==> x in History(accesses)
    {
      if accesses != [] {
        var n := |accesses| - 1;
        HistoryCacheable(accesses[..n]);
        assert accesses == accesses[..n] + [accesses[n]];
      }
    }

    lemma ResidentSound(accesses: seq<T>)
      requires Room() >= 0
      ensures NoDup(Resident(accesses))
      ensures forall x :: x in Resident(accesses) ==> Cacheable(x) && x in accesses
      ensures Weight(Resident(accesses), size) <= Room()
    {
      var stack := TouchAll([], History(accesses));
      TouchAllElems([], History(accesses));
      HistoryCacheable(accesses);
      FitIsSuffix(stack, size, Room());
    }

    /** One more access moves the resident set by one stack touch. */
    lemma ResidentStep(accesses: seq<T>, i: nat)
      requires i < |accesses| && Room() >= 0
      ensures !Cacheable(accesses[i]) ==> Resident(accesses[..i + 1]) == Resident(accesses[..i])
      ensures Cacheable(accesses[i])
        ==> Resident(accesses[..i + 1]) == Fit(Touch(Resident(accesses[..i]), accesses[i]), size, Room())
    {
      assert accesses[..i + 1][..i] == accesses[..i];
      var history := History(accesses[..i]);
      if Cacheable(accesses[i]) {
        assert (history + [accesses[i]])[..|history|] == history;
        TouchAllElems([], history);
        FitTouch(TouchAll([], history), accesses[i], size, Room());
      } else {
        assert history + [] == history;
      }
    }

    lemma ResidentHit(accesses: seq<T>, i: nat)
      requires i < |accesses| && Room() >= 0 && accesses[i] in Resident(accesses[..i])
      ensures Resident(accesses[..i + 1]) == Touch(Resident(accesses[..i]), accesses[i])
    {
      var lru := Resident(accesses[..i]);
      ResidentSound(accesses[..i]);
      ResidentStep(accesses, i);
      WithoutWeight(lru, accesses[i], size);
      WeightConcat(Without(lru, accesses[i]), [accesses[i]], size);
    }

    lemma ResidentMiss(accesses: seq<T>, i: nat)
      requires i < |accesses| && Room() >= 0
      requires Cacheable(accesses[i]) && accesses[i] !in Resident(accesses[..i])
      ensures Resident(accesses[..i + 1])
           == Fit(Resident(accesses[..i]), size, Room() - size(accesses[i])) + [accesses[i]]
    {
      ResidentStep(accesses, i);
      WithoutAbsent(Resident(accesses[..i]), accesses[i]);
      SharedCache.FitOver(Resident(accesses[..i]), [accesses[i]], size, Room());
    }

    /** The raw counts of one more access. */
    lemma CountsStep(accesses: seq<T>, i: nat)
      requires i < |accesses|
      ensures var hit := IsHit(accesses[..i], accesses[i]);
              && HitCount(accesses[..i + 1]) == HitCount(accesses[..i]) + (if hit then 1 else 0)
              && HitBytes(accesses[..i + 1])
              == HitBytes(accesses[..i]) + (if hit then size(accesses[i]) else 0)
              && Bypasses(accesses[..i + 1]) == Bypasses(accesses[..i])
               + (if accesses[i] !in pinned && !Cacheable(accesses[i]) then 1 else 0)
              && Weight(accesses[..i + 1], size) == Weight(accesses[..i], size) + size(accesses[i])
              && Peak(accesses[..i + 1])
              == SharedCache.Max(Peak(accesses[..i]), Weight(pinned, size) + Weight(Resident(accesses[..i + 1]), size))
              && Peak(accesses[..i]) >= Weight(pinned, size) + Weight(Resident(accesses[..i]), size)
    {
      hide Resident, History, Room;
      assert accesses[..i + 1][..i] == accesses[..i];
      assert accesses[..i + 1] == accesses[..i] + [accesses[i]];
      WeightConcat(accesses[..i], [accesses[i]], size);
      PeakCovers(accesses[..i]);
    }

    /** An access that finds its resource in the cache: only the hit counter and the order move. */
    lemma AccountHit(accesses: seq<T>, i: nat)
      requires i < |accesses| && Room() >= 0 && IsHit(accesses[..i], accesses[i])
      ensures Account(accesses[..i + 1])
           == var t := Account(accesses[..i]); t.(hits := t.hits + 1)
      ensures Resident(accesses[..i + 1])
           == var lru := Resident(accesses[..i]);
              if accesses[i] in pinned then lru else Touch(lru, accesses[i])
    {
      hide Resident, History, HitCount, HitBytes, Bypasses, Peak, Weight;
      var lru := Resident(accesses[..i]);
      CountsStep(accesses, i);
      ResidentSound(accesses[..i]);
      if accesses[i] in pinned {
        ResidentStep(accesses, i);
      } else {
        ResidentHit(accesses, i);
        WithoutWeight(lru, accesses[i], size);
        WeightConcat(Without(lru, accesses[i]), [accesses[i]], size);
        SingleWeight(accesses[i]);
      }
    }

    /** A resource too large to sit beside the pins is staged and not admitted. */
    lemma AccountBypass(accesses: seq<T>, i: nat)
      requires i < |accesses| && Room() >= 0
      requires accesses[i] !in pinned && !Cacheable(accesses[i])
      ensures Account(accesses[..i + 1])
           == var t := Account(accesses[..i]);
              t.(misses := t.misses + 1, staged := t.staged + size(accesses[i]), bypassed := t.bypassed + 1)
      ensures Resident(accesses[..i + 1]) == Resident(accesses[..i])
    {
      hide Resident, History, HitCount, HitBytes, Bypasses, Peak, Weight;
      CountsStep(accesses, i);
      ResidentSound(accesses[..i]);
      ResidentStep(accesses, i);
    }

    /** A cacheable miss is staged and admitted at the recent end of what still fits. */
    lemma AccountMiss(accesses: seq<T>, i: nat)
      requires i < |accesses| && Room() >= 0
      requires Cacheable(accesses[i]) && !IsHit(accesses[..i], accesses[i])
      ensures var kept := Fit(Resident(accesses[..i]), size, Room() - size(accesses[i]));
              var now := Weight(pinned, size) + Weight(kept, size) + size(accesses[i]);
              && Resident(accesses[..i + 1]) == kept + [accesses[i]]
              && now <= effective
              && Account(accesses[..i + 1])
              == var t := Account(accesses[..i]);
                 t.(misses := t.misses + 1, staged := t.staged + size(accesses[i]), resident := now,
                    evictions := t.evictions + |Resident(accesses[..i])| - |kept|,
                    peak := SharedCache.Max(t.peak, now))
    {
      hide Resident, History, HitCount, HitBytes, Bypasses, Peak, Weight, Fit;
      CountsStep(accesses, i);
      ResidentMiss(accesses, i);
      ResidentSound(accesses[..i + 1]);
      WeightConcat(Fit(Resident(accesses[..i]), size, Room() - size(accesses[i])), [accesses[i]], size);
      SingleWeight(accesses[i]);
    }

    lemma SingleWeight(x: T)
      ensures Weight([x], size) == size(x)
    {
    }

    lemma PeakCovers(accesses: seq<T>)
      ensures Peak(accesses) >= Weight(pinned, size) + Weight(Resident(accesses), size)
    {
    }

    lemma CachedIsHit(accesses: seq<T>, i: nat, cache: map<T, nat>)
      requires i < |accesses| && Room() >= 0 && Caches(this, cache, Resident(accesses[..i]))
      ensures accesses[i] in cache <==> IsHit(accesses[..i], accesses[i])
      ensures NoDup(Resident(accesses[..i]))
      ensures forall y :: y in Resident(accesses[..i]) ==> y !in pinned
      ensures Account(accesses[..i]).resident
           == Weight(pinned, size) + Weight(Resident(accesses[..i]), size)
    {
      hide Resident;
      ResidentSound(accesses[..i]);
    }

    lemma EmptyAccount()
      requires Room() >= 0
      ensures Resident([]) == []
      ensures var bytes := Weight(pinned, size);
              Account([]) == Tally(bytes, 0, 0, 0, 0, bytes, bytes)
    {
    }
  }

  /**
   The eviction loop before a cacheable miss is admitted. The source's raise on
   an empty LRU is the assertion: the miss fits once everything else is gone.
   */
  method MakeRoom<T>(s: Study<T>, lru0: seq<T>, cache0: map<T, nat>, resident0: int, evictions0: int, bytes: nat)
    returns (lru: seq<T>, cache: map<T, nat>, resident: int, evictions: int)
    requires bytes <= s.Room() && NoDup(lru0) && (forall y :: y in lru0 ==> y !in s.pinned)
    requires Caches(s, cache0, lru0)
    requires resident0 == Weight(s.pinned, s.size) + Weight(lru0, s.size)
    ensures lru == Fit(lru0, s.size, s.Room() - bytes)
    ensures Caches(s, cache, lru)
    ensures resident == Weight(s.pinned, s.size) + Weight(lru, s.size)
    ensures resident + bytes <= s.effective
    ensures evictions == evictions0 + |lru0| - |lru|
  {
    lru, cache, resident, evictions := lru0, cache0, resident0, evictions0;
    while resident + bytes > s.effective
      invariant NoDup(lru) && (forall y :: y in lru ==> y !in s.pinned)
      invariant Fit(lru, s.size, s.Room() - bytes) == Fit(lru0, s.size, s.Room() - bytes)
      invariant Caches(s, cache, lru)
      invariant resident == Weight(s.pinned, s.size) + Weight(lru, s.size)
      invariant evictions == evictions0 + |lru0| - |lru|
      decreases |lru|
    {
      assert lru != [];
      var victim := lru[0];
      assert lru == [victim] + lru[1..];
      NoDupCons(victim, lru[1..]);
      resident := resident - cache[victim];
      cache := map y | y in cache && y != victim :: cache[y];
      lru := lru[1..];
      evictions := evictions + 1;
    }
  }

  /** `cache` holds exactly the pins and the LRU, each at its declared size. */
  ghost predicate Caches<T>(s: Study<T>, cache: map<T, nat>, lru: seq<T>) {
    && (forall y :: y in cache ==> y in s.pinned || y in lru)
    && (forall y :: y in s.pinned ==> y in cache && cache[y] == s.size(y))
    && (forall y :: y in lru ==> y in cache && cache[y] == s.size(y))
  }

  lemma CachesTouch<T>(s: Study<T>, cache: map<T, nat>, lru: seq<T>, x: T)
    requires Caches(s, cache, lru) && x in cache && x !in s.pinned
    ensures Caches(s, cache, Touch(lru, x))
  {
    TouchElems(lru, x);
  }

  lemma CachesMiss<T>(s: Study<T>, cache: map<T, nat>, lru: seq<T>, x: T)
    requires Caches(s, cache, lru) && x !in cache
    ensures x !in s.pinned && x !in lru
  {
  }

  lemma CachesPush<T>(s: Study<T>, cache: map<T, nat>, lru: seq<T>, x: T)
    requires Caches(s, cache, lru)
    ensures Caches(s, cache[x := s.size(x)], lru + [x])
  {
  }

  /**
   `simulate`. Its internal-inconsistency raises are assertions that hold on
   every call; the result is exactly the account of the trace.
   */
  method Simulate<T(==)>(pinned: seq<T>, size: T -> nat, accesses: seq<T>, effective: int)
    returns (r: Review)
    requires NoDup(pinned)
    ensures var s := Study(pinned, size, effective);
      r == if s.Room() < 0 then Held
           else
             var t := s.Account(accesses);
             Reviewed(Weight(accesses, size), |pinned| + t.misses, Weight(pinned, size), t)
    ensures r.Held? <==> Weight(pinned, size) > effective
  {
    var s := Study(pinned, size, effective);
    var pinnedBytes := Weight(pinned, size);
    if pinnedBytes > effective {
      return Held;
    }
    var cache: map<T, nat> := map x | x in pinned :: size(x);
    var lru: seq<T> := [];
    var tally := Tally(pinnedBytes, 0, 0, 0, 0, pinnedBytes, pinnedBytes);
    s.EmptyAccount();
    var i := 0;
    assert accesses[..0] == [];
    while i < |accesses|
      invariant i <= |accesses|
      invariant lru == s.Resident(accesses[..i]) && Caches(s, cache, lru)
      invariant tally == s.Account(accesses[..i])
    {
      lru, cache, tally := ServeAccess(s, accesses, i, lru, cache, tally);
      i := i + 1;
    }
    assert accesses[..i] == accesses;
    assert tally.hits + tally.misses == |accesses|;
    r := Reviewed(Weight(accesses, size), |pinned| + tally.misses, pinnedBytes, tally);
  }

  /** One turn of the access loop. */
  method ServeAccess<T>(s: Study<T>, accesses: seq<T>, i: nat, lru0: seq<T>, cache0: map<T, nat>, tally0: Tally)
    returns (lru: seq<T>, cache: map<T, nat>, tally: Tally)
    requires i < |accesses| && s.Room() >= 0
    requires lru0 == s.Resident(accesses[..i]) && Caches(s, cache0, lru0)
    requires tally0 == s.Account(accesses[..i])
    ensures lru == s.Resident(accesses[..i + 1]) && Caches(s, cache, lru)
    ensures tally == s.Account(accesses[..i + 1])
  {
    hide Study.Resident, Study.Account, Study.IsHit, Fit, Weight, Caches;
    lru, cache, tally := lru0, cache0, tally0;
    var x := accesses[i];
    s.CachedIsHit(accesses, i, cache);
    if x in cache {
      s.AccountHit(accesses, i);
      tally := tally.(hits := tally.hits + 1);
      if x !in s.pinned {
        CachesTouch(s, cache, lru, x);
        lru := Without(lru, x) + [x];
      }
    } else {
      CachesMiss(s, cache, lru, x);
      tally := tally.(misses := tally.misses + 1, staged := tally.staged + s.size(x));
      if s.size(x) > s.effective - Weight(s.pinned, s.size) {
        s.AccountBypass(accesses, i);
        tally := tally.(bypassed := tally.bypassed + 1);
      } else {
        s.AccountMiss(accesses, i);
        var resident, evictions;
        lru, cache, resident, evictions := MakeRoom(s, lru, cache, tally.resident, tally.evictions, s.size(x));
        CachesPush(s, cache, lru, x);
        cache := cache[x := s.size(x)];
        lru := lru + [x];
        tally := tally.(evictions := evictions, resident := resident + s.size(x),
                        peak := SharedCache.Max(tally.peak, resident + s.size(x)));
        assert tally.resident <= s.effective;
      }
    }
  }
}
