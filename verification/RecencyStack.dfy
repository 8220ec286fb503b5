/**
 The reference definition of LRU residency that both caches refine: keep one
 recency stack of everything ever demanded (oldest first) and, for a byte
 budget, hold the longest suffix of it that fits.
 */
module RecencyStack {
  import opened Sequences

  /** `move_to_end`, or an insertion at the end when `x` is new. */
  function Touch<T(==)>(s: seq<T>, x: T): seq<T> {
    Without(s, x) + [x]
  }

  function TouchAll<T(==)>(s: seq<T>, xs: seq<T>): seq<T> {
    if xs == [] then s
    else Touch(TouchAll(s, xs[..|xs| - 1]), xs[|xs| - 1])
  }

  /** The longest suffix of `s` whose total size is at most `budget`. */
  function Fit<T>(s: seq<T>, size: T -> nat, budget: int): seq<T> {
    if s == [] || Weight(s, size) <= budget then s else Fit(s[1..], size, budget)
  }

  lemma FitIsSuffix<T>(s: seq<T>, size: T -> nat, budget: int)
    ensures |Fit(s, size, budget)| <= |s|
    ensures Fit(s, size, budget) == s[|s| - |Fit(s, size, budget)|..]
    ensures budget >= 0 ==> Weight(Fit(s, size, budget), size) <= budget
  {
  }

  lemma SuffixWeight<T>(s: seq<T>, i: nat, size: T -> nat)
    requires i <= |s|
    ensures Weight(s[i..], size) <= Weight(s, size)
  {
    WeightConcat(s[..i], s[i..], size);
    assert s == s[..i] + s[i..];
  }

  /** `Fit` is the longest: every longer suffix overflows the budget. */
  lemma FitIsLongest<T>(s: seq<T>, size: T -> nat, budget: int, i: nat)
    requires i <= |s| && Weight(s[i..], size) <= budget
    ensures |s| - i <= |Fit(s, size, budget)|
  {
    if s != [] && Weight(s, size) > budget {
      assert s[0..] == s;
      if i > 0 {
        assert s[1..][i - 1..] == s[i..];
        FitIsLongest(s[1..], size, budget, i - 1);
      }
    }
  }

  /** Inclusion: the smaller budget holds a suffix of what the larger one holds. */
  lemma FitMonotone<T>(s: seq<T>, size: T -> nat, small: int, large: int)
    requires small <= large
    ensures |Fit(s, size, small)| <= |Fit(s, size, large)|
    ensures forall x :: x in Fit(s, size, small) ==> x in Fit(s, size, large)
    ensures Fit(Fit(s, size, large), size, small) == Fit(s, size, small)
  {
    if s != [] && Weight(s, size) > large {
      FitMonotone(s[1..], size, small, large);
    } else {
      FitIsSuffix(s, size, small);
    }
  }

  lemma TouchElems<T>(s: seq<T>, x: T)
    ensures forall y :: y in Touch(s, x) ==> y in s || y == x
    ensures forall y :: y in s ==> y in Touch(s, x)
    ensures x in Touch(s, x)
    ensures NoDup(s) ==> NoDup(Touch(s, x))
  {
    WithoutElems(s, x);
    if NoDup(s) {
      NoDupSnoc(Without(s, x), x);
    }
  }

  lemma TouchAllElems<T>(s: seq<T>, xs: seq<T>)
    ensures forall y :: y in TouchAll(s, xs) ==> y in s || y in xs
    ensures forall y :: y in s ==> y in TouchAll(s, xs)
    ensures forall y :: y in xs ==> y in TouchAll(s, xs)
    ensures NoDup(s) ==> NoDup(TouchAll(s, xs))
  {
    if xs != [] {
      var n := |xs| - 1;
      TouchAllElems(s, xs[..n]);
      TouchElems(TouchAll(s, xs[..n]), xs[n]);
      assert xs == xs[..n] + [xs[n]];
    }
  }

  lemma TouchAllConcat<T>(s: seq<T>, a: seq<T>, b: seq<T>)
    ensures TouchAll(s, a + b) == TouchAll(TouchAll(s, a), b)
  {
    if b == [] {
      assert a + b == a;
    } else {
      var n := |b| - 1;
      assert (a + b)[..|a + b| - 1] == a + b[..n];
      TouchAllConcat(s, a, b[..n]);
    }
  }

  /** Once every member of `xs` has been touched, the rest of `s` lies below all of them. */
  lemma {:induction false} TouchAllSplits<T>(s: seq<T>, xs: seq<T>)
    ensures TouchAll(s, xs) == Outside(s, xs) + TouchAll([], xs)
  {
    if xs == [] {
      OutsideNothing(s);
    } else {
      var n := |xs| - 1;
      var x := xs[n];
      TouchAllSplits(s, xs[..n]);
      WithoutConcat(Outside(s, xs[..n]), TouchAll([], xs[..n]), x);
      OutsideOneMore(s, xs[..n], x);
      assert xs == xs[..n] + [x];
      calc {
        TouchAll(s, xs);
        Without(Outside(s, xs[..n]) + TouchAll([], xs[..n]), x) + [x];
        Without(Outside(s, xs[..n]), x) + Without(TouchAll([], xs[..n]), x) + [x];
        Outside(s, xs) + (Without(TouchAll([], xs[..n]), x) + [x]);
        Outside(s, xs) + TouchAll([], xs);
      }
    }
  }

  lemma OutsideNothing<T>(s: seq<T>)
    ensures Outside(s, []) == s
  {
  }

  lemma OutsideOneMore<T>(s: seq<T>, g: seq<T>, x: T)
    ensures Outside(s, g + [x]) == Without(Outside(s, g), x)
  {
  }

  /**
   The stack law for one demand: cutting the stack to the budget before the
   touch loses nothing that the budget would have kept after it.
   */
  lemma {:induction false} FitTouch<T>(s: seq<T>, x: T, size: T -> nat, budget: int)
    requires NoDup(s) && size(x) <= budget
    ensures Fit(Touch(s, x), size, budget) == Fit(Touch(Fit(s, size, budget), x), size, budget)
  {
    if s != [] && Weight(s, size) > budget {
      NoDupCons(s[0], s[1..]);
      assert s == [s[0]] + s[1..];
      FitTouch(s[1..], x, size, budget);
      if s[0] == x {
        assert Touch(s, x) == Touch(s[1..], x);
      } else {
        assert Touch(s, x) == [s[0]] + Touch(s[1..], x);
        WithoutWeightBound(s, x, size);
        WeightConcat(Without(s, x), [x], size);
        assert Weight(Touch(s, x), size) > budget;
        assert Touch(s, x)[1..] == Touch(s[1..], x);
      }
    }
  }

  /** The stack law for a whole run of demands. */
  lemma {:induction false} FitTouchAll<T>(s: seq<T>, xs: seq<T>, size: T -> nat, budget: int)
    requires NoDup(s) && forall x :: x in xs ==> size(x) <= budget
    ensures Fit(TouchAll(s, xs), size, budget) == Fit(TouchAll(Fit(s, size, budget), xs), size, budget)
  {
    if xs == [] {
      FitMonotone(s, size, budget, budget);
    } else {
      var n := |xs| - 1;
      var cut := Fit(s, size, budget);
      FitIsSuffix(s, size, budget);
      FitTouchAll(s, xs[..n], size, budget);
      TouchAllElems(s, xs[..n]);
      TouchAllElems(cut, xs[..n]);
      FitTouch(TouchAll(s, xs[..n]), xs[n], size, budget);
      FitTouch(TouchAll(cut, xs[..n]), xs[n], size, budget);
    }
  }
}
