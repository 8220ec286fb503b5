/**
 Duplicate-free sequences stand for Python's ordered dictionaries and sets:
 `OrderedDict` keys, `set(event)`, and the byte totals summed over them.
 */
module Sequences {
  ghost predicate NoDup<T>(s: seq<T>) {
    forall i, j :: 0 <= i < j < |s| ==> s[i] != s[j]
  }

  function Elems<T>(s: seq<T>): set<T> {
    set x | x in s
  }

  /** `s` with every occurrence of `x` removed: what `OrderedDict.pop(x)` leaves. */
  function Without<T(==)>(s: seq<T>, x: T): seq<T> {
    if s == [] then []
    else if s[0] == x then Without(s[1..], x)
    else [s[0]] + Without(s[1..], x)
  }

  /** The members of `s` that are not in `g`, in order. */
  function Outside<T(==)>(s: seq<T>, g: seq<T>): seq<T> {
    if s == [] then []
    else if s[0] in g then Outside(s[1..], g)
    else [s[0]] + Outside(s[1..], g)
  }

  /** The members of `s` that are in `g`, in order. */
  function Inside<T(==)>(s: seq<T>, g: seq<T>): seq<T> {
    if s == [] then []
    else if s[0] in g then [s[0]] + Inside(s[1..], g)
    else Inside(s[1..], g)
  }

  /** First occurrences only: the keys of a dictionary filled from `s`. */
  function Distinct<T(==)>(s: seq<T>): seq<T> {
    if s == [] then []
    else
      var d := Distinct(s[..|s| - 1]);
      if s[|s| - 1] in d then d else d + [s[|s| - 1]]
  }

  /** Total size of a sequence of resources. */
  function Weight<T>(s: seq<T>, size: T -> nat): nat {
    if s == [] then 0 else size(s[0]) + Weight(s[1..], size)
  }

  /** `n * k`, counted one `k` at a time so that sums over sequences follow it step by step. */
  function Times(n: nat, k: nat): nat {
    if n == 0 then 0 else Times(n - 1, k) + k
  }

  lemma {:induction false} TimesIsProduct(n: nat, k: nat)
    ensures Times(n, k) == n * k
  {
    if n > 0 {
      TimesIsProduct(n - 1, k);
      assert n * k == (n - 1) * k + k;
    }
  }

  lemma {:induction false} TimesAdds(m: nat, n: nat, k: nat)
    ensures Times(m + n, k) == Times(m, k) + Times(n, k)
  {
    if n > 0 {
      TimesAdds(m, n - 1, k);
    }
  }

  lemma TimesGrows(m: nat, n: nat, k: nat)
    requires m <= n
    ensures Times(m, k) <= Times(n, k)
    ensures m < n ==> Times(m, k) + k <= Times(n, k)
  {
    TimesAdds(m, n - m, k);
    if m < n {
      TimesAdds(m + 1, n - m - 1, k);
      assert Times(m + 1, k) == Times(m, k) + k;
    }
  }

  function Concat<T>(ss: seq<seq<T>>): seq<T> {
    if ss == [] then [] else Concat(ss[..|ss| - 1]) + ss[|ss| - 1]
  }

  lemma WeightConcat<T>(a: seq<T>, b: seq<T>, size: T -> nat)
    ensures Weight(a + b, size) == Weight(a, size) + Weight(b, size)
  {
    if a == [] {
      assert a + b == b;
    } else {
      assert (a + b)[0] == a[0] && (a + b)[1..] == a[1..] + b;
    }
  }

  lemma WithoutConcat<T>(a: seq<T>, b: seq<T>, x: T)
    ensures Without(a + b, x) == Without(a, x) + Without(b, x)
  {
    if a == [] {
      assert a + b == b;
    } else {
      assert (a + b)[0] == a[0] && (a + b)[1..] == a[1..] + b;
    }
  }

  lemma WithoutAbsent<T>(s: seq<T>, x: T)
    requires x !in s
    ensures Without(s, x) == s
  {
  }

  lemma NoDupCons<T>(x: T, s: seq<T>)
    ensures NoDup([x] + s) <==> x !in s && NoDup(s)
  {
    var t := [x] + s;
    assert forall i :: 0 <= i < |s| ==> t[i + 1] == s[i];
    if NoDup(t) {
      forall i | 0 <= i < |s|
        ensures s[i] != x
      {
        assert t[0] != t[i + 1];
      }
      forall i, j | 0 <= i < j < |s|
        ensures s[i] != s[j]
      {
        assert t[i + 1] == s[i] && t[j + 1] == s[j];
      }
    }
  }

  lemma NoDupSnoc<T>(s: seq<T>, x: T)
    requires NoDup(s) && x !in s
    ensures NoDup(s + [x])
  {
  }

  /** Removing a key keeps every other key and the absence of duplicates. */
  lemma WithoutElems<T>(s: seq<T>, x: T)
    ensures forall y :: y in Without(s, x) ==> y in s && y != x
    ensures forall y :: y in s && y != x ==> y in Without(s, x)
    ensures NoDup(s) ==> NoDup(Without(s, x))
  {
    if s != [] {
      WithoutElems(s[1..], x);
      assert s == [s[0]] + s[1..];
      NoDupCons(s[0], s[1..]);
      NoDupCons(s[0], Without(s[1..], x));
    }
  }

  lemma WithoutWeight<T>(s: seq<T>, x: T, size: T -> nat)
    requires NoDup(s) && x in s
    ensures Weight(s, size) == Weight(Without(s, x), size) + size(x)
    ensures |s| == |Without(s, x)| + 1
  {
    if s[0] == x {
      assert x !in s[1..];
      WithoutAbsent(s[1..], x);
    } else {
      WithoutWeight(s[1..], x, size);
    }
  }

  /** Removal never loses more than one size. */
  lemma WithoutWeightBound<T>(s: seq<T>, x: T, size: T -> nat)
    requires NoDup(s)
    ensures Weight(s, size) <= Weight(Without(s, x), size) + size(x)
  {
    if x in s {
      WithoutWeight(s, x, size);
    } else {
      WithoutAbsent(s, x);
    }
  }

  lemma OutsideConcat<T>(a: seq<T>, b: seq<T>, g: seq<T>)
    ensures Outside(a + b, g) == Outside(a, g) + Outside(b, g)
    ensures Inside(a + b, g) == Inside(a, g) + Inside(b, g)
  {
    LeavingConcat(a, b, g);
    KeepingConcat(a, b, g);
  }

  lemma {:induction false} LeavingConcat<T>(a: seq<T>, b: seq<T>, g: seq<T>)
    ensures Outside(a + b, g) == Outside(a, g) + Outside(b, g)
  {
    if a == [] {
      assert a + b == b;
    } else {
      assert (a + b)[0] == a[0] && (a + b)[1..] == a[1..] + b;
      LeavingConcat(a[1..], b, g);
    }
  }

  lemma {:induction false} KeepingConcat<T>(a: seq<T>, b: seq<T>, g: seq<T>)
    ensures Inside(a + b, g) == Inside(a, g) + Inside(b, g)
  {
    if a == [] {
      assert a + b == b;
    } else {
      assert (a + b)[0] == a[0] && (a + b)[1..] == a[1..] + b;
      KeepingConcat(a[1..], b, g);
    }
  }

  lemma OutsideElems<T>(s: seq<T>, g: seq<T>)
    ensures forall y :: y in Outside(s, g) ==> y in s && y !in g
    ensures forall y :: y in s && y !in g ==> y in Outside(s, g)
    ensures forall y :: y in Inside(s, g) ==> y in s && y in g
    ensures forall y :: y in s && y in g ==> y in Inside(s, g)
    ensures NoDup(s) ==> NoDup(Outside(s, g)) && NoDup(Inside(s, g))
  {
    if s != [] {
      OutsideElems(s[1..], g);
      assert s == [s[0]] + s[1..];
      NoDupCons(s[0], s[1..]);
      NoDupCons(s[0], Outside(s[1..], g));
      NoDupCons(s[0], Inside(s[1..], g));
    }
  }

  lemma OutsideInsideWeight<T>(s: seq<T>, g: seq<T>, size: T -> nat)
    ensures Weight(s, size) == Weight(Outside(s, g), size) + Weight(Inside(s, g), size)
    ensures |s| == |Outside(s, g)| + |Inside(s, g)|
  {
    if s != [] {
      OutsideInsideWeight(s[1..], g, size);
    }
  }

  /** Removing a member of `g` shows only inside `g`; removing another shows only outside. */
  lemma OutsideWithout<T>(s: seq<T>, g: seq<T>, x: T)
    ensures x in g ==> Outside(Without(s, x), g) == Outside(s, g)
    ensures x in g ==> Inside(Without(s, x), g) == Without(Inside(s, g), x)
    ensures x !in g ==> Outside(Without(s, x), g) == Without(Outside(s, g), x)
    ensures x !in g ==> Inside(Without(s, x), g) == Inside(s, g)
  {
    if s != [] {
      OutsideWithout(s[1..], g, x);
    }
  }

  lemma DistinctElems<T>(s: seq<T>)
    ensures NoDup(Distinct(s))
    ensures forall y :: y in Distinct(s) ==> y in s
    ensures forall y :: y in s ==> y in Distinct(s)
  {
    if s != [] {
      DistinctElems(s[..|s| - 1]);
      assert s == s[..|s| - 1] + [s[|s| - 1]];
    }
  }

  lemma DistinctOfNoDup<T>(s: seq<T>)
    requires NoDup(s)
    ensures Distinct(s) == s
  {
    if s != [] {
      DistinctElems(s[..|s| - 1]);
      DistinctOfNoDup(s[..|s| - 1]);
    }
  }

  /** `len(set(s)) != len(s)` is the source's test for repeats. */
  lemma DistinctShorter<T>(s: seq<T>)
    ensures |Distinct(s)| <= |s|
    ensures |Distinct(s)| == |s| ==> NoDup(s)
  {
    if s != [] {
      var n := |s| - 1;
      DistinctShorter(s[..n]);
      DistinctElems(s[..n]);
      if |Distinct(s)| == |s| {
        assert s == s[..n] + [s[n]];
        NoDupSnoc(s[..n], s[n]);
      }
    }
  }

  lemma DistinctCount<T>(s: seq<T>)
    ensures NoDup(s) ==> |Distinct(s)| == |s|
    ensures |Distinct(s)| == |s| ==> NoDup(s)
  {
    DistinctShorter(s);
    if NoDup(s) {
      DistinctOfNoDup(s);
    }
  }

  /** Duplicate-free sequences with the same members are arrangements of one another. */
  lemma {:induction false} SameMembersSameMultiset<T>(s: seq<T>, t: seq<T>)
    requires NoDup(s) && NoDup(t)
    requires forall y :: y in s ==> y in t
    requires forall y :: y in t ==> y in s
    ensures multiset(s) == multiset(t)
  {
    forall y
      ensures multiset(s)[y] == multiset(t)[y]
    {
      NoDupCount(s, y);
      NoDupCount(t, y);
      assert y in s <==> y in multiset(s);
      assert y in t <==> y in multiset(t);
    }
  }

  lemma {:induction false} NoDupCount<T>(s: seq<T>, y: T)
    requires NoDup(s)
    ensures multiset(s)[y] == if y in s then 1 else 0
  {
    if s != [] {
      assert s == [s[0]] + s[1..];
      NoDupCons(s[0], s[1..]);
      NoDupCount(s[1..], y);
    }
  }

  /** A duplicate-free collection drawn from another weighs and counts no more. */
  lemma WeightSubset<T>(a: seq<T>, c: seq<T>, size: T -> nat)
    requires NoDup(a) && NoDup(c)
    requires forall y :: y in a ==> y in c
    ensures Weight(a, size) <= Weight(c, size)
    ensures |a| <= |c|
  {
    if a != [] {
      WithoutWeight(c, a[0], size);
      WithoutElems(c, a[0]);
      assert forall y :: y in a[1..] ==> y in Without(c, a[0]);
      WeightSubset(a[1..], Without(c, a[0]), size);
    }
  }

  lemma ConcatElems<T>(ss: seq<seq<T>>, x: T)
    ensures x in Concat(ss) <==> exists i :: 0 <= i < |ss| && x in ss[i]
  {
    if ss != [] {
      ConcatElems(ss[..|ss| - 1], x);
      assert forall i :: 0 <= i < |ss| - 1 ==> ss[..|ss| - 1][i] == ss[i];
      if i :| 0 <= i < |ss| && x in ss[i] {
        if i < |ss| - 1 {
          assert x in ss[..|ss| - 1][i];
        }
      }
    }
  }
}
