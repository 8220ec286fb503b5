/** Sorting with an explicit order, as `sorted(..., key=...)` and `cmp_to_key` use it. */
module Ranking {
  import opened Sequences

  /** `less` orders the members of `xs` strictly and totally. */
  ghost predicate StrictTotalOn<T>(less: (T, T) -> bool, xs: seq<T>) {
    && (forall a | a in xs :: !less(a, a))
    && (forall a, b | a in xs && b in xs :: a != b ==> less(a, b) || less(b, a))
    && (forall a, b, c | a in xs && b in xs && c in xs :: less(a, b) && less(b, c) ==> less(a, c))
  }

  ghost predicate Sorted<T>(s: seq<T>, less: (T, T) -> bool) {
    forall i, j :: 0 <= i < j < |s| ==> less(s[i], s[j])
  }

  function Insert<T>(x: T, s: seq<T>, less: (T, T) -> bool): seq<T> {
    if s == [] || less(x, s[0]) then [x] + s
    else [s[0]] + Insert(x, s[1..], less)
  }

  function Sort<T>(s: seq<T>, less: (T, T) -> bool): seq<T> {
    if s == [] then [] else Insert(s[0], Sort(s[1..], less), less)
  }

  lemma InsertElems<T>(x: T, s: seq<T>, less: (T, T) -> bool)
    ensures multiset(Insert(x, s, less)) == multiset(s) + multiset{x}
    ensures forall y :: y in Insert(x, s, less) ==> y in s || y == x
    ensures forall y :: y in s ==> y in Insert(x, s, less)
    ensures x in Insert(x, s, less)
  {
    if s != [] && !less(x, s[0]) {
      InsertElems(x, s[1..], less);
      assert s == [s[0]] + s[1..];
    }
  }

  lemma {:induction false} InsertSorted<T>(x: T, s: seq<T>, less: (T, T) -> bool)
    requires StrictTotalOn(less, [x] + s) && Sorted(s, less) && x !in s
    ensures Sorted(Insert(x, s, less), less)
  {
    if s != [] {
      assert x in [x] + s && forall y :: y in s ==> y in [x] + s;
      if less(x, s[0]) {
        forall j | 0 <= j < |s|
          ensures less(x, s[j])
        {
          assert s[0] in [x] + s && s[j] in [x] + s;
        }
      } else {
        assert forall y :: y in [x] + s[1..] ==> y in [x] + s;
        InsertSorted(x, s[1..], less);
        InsertElems(x, s[1..], less);
        var rest := Insert(x, s[1..], less);
        forall j | 0 <= j < |rest|
          ensures less(s[0], rest[j])
        {
          assert rest[j] in rest && s[0] in s;
          if rest[j] in s[1..] {
            var k :| 0 <= k < |s[1..]| && s[1..][k] == rest[j];
            assert s[k + 1] == rest[j];
          }
        }
      }
    }
  }

  /** The sort is a strictly increasing arrangement of the same members. */
  lemma {:induction false} SortIsSorted<T>(s: seq<T>, less: (T, T) -> bool)
    requires NoDup(s) && StrictTotalOn(less, s)
    ensures Sorted(Sort(s, less), less)
    ensures multiset(Sort(s, less)) == multiset(s)
    ensures forall y :: y in Sort(s, less) ==> y in s
    ensures forall y :: y in s ==> y in Sort(s, less)
    ensures NoDup(Sort(s, less))
  {
    if s != [] {
      assert s == [s[0]] + s[1..];
      NoDupCons(s[0], s[1..]);
      assert forall y :: y in s[1..] ==> y in s;
      SortIsSorted(s[1..], less);
      var rest := Sort(s[1..], less);
      assert forall y :: y in [s[0]] + rest ==> y in s;
      InsertSorted(s[0], rest, less);
      InsertElems(s[0], rest, less);
      SortedNoDup(Sort(s, less), s, less);
    }
  }

  lemma SortedNoDup<T>(r: seq<T>, s: seq<T>, less: (T, T) -> bool)
    requires Sorted(r, less) && StrictTotalOn(less, s) && forall y :: y in r ==> y in s
    ensures NoDup(r)
  {
    forall i, j | 0 <= i < j < |r|
      ensures r[i] != r[j]
    {
      assert r[i] in r && less(r[i], r[j]);
    }
  }

  lemma Asymmetric<T>(x: T, y: T, all: seq<T>, less: (T, T) -> bool)
    requires StrictTotalOn(less, all) && x in all && y in all
    ensures !(less(x, y) && less(y, x))
  {
  }

  lemma SortedHead<T>(s: seq<T>, less: (T, T) -> bool)
    requires Sorted(s, less) && s != []
    ensures forall y :: y in s ==> y == s[0] || less(s[0], y)
  {
  }

  /** Two strictly sorted arrangements of the same members start alike and continue with the same members. */
  lemma SameHeads<T>(a: seq<T>, b: seq<T>, all: seq<T>, less: (T, T) -> bool)
    requires StrictTotalOn(less, all) && Sorted(a, less) && Sorted(b, less) && a != []
    requires forall y :: y in a ==> y in all
    requires multiset(a) == multiset(b)
    ensures b != [] && a[0] == b[0] && multiset(a[1..]) == multiset(b[1..])
  {
    assert |multiset(a)| == |a| && |multiset(b)| == |b|;
    HeadTail(a);
    HeadTail(b);
    SortedHead(a, less);
    SortedHead(b, less);
    assert a[0] in multiset(b) && b[0] in multiset(a);
    assert a[0] in b && b[0] in a;
    hide Sorted;
    Asymmetric(a[0], b[0], all, less);
  }

  lemma HeadTail<T>(s: seq<T>)
    requires s != []
    ensures multiset(s[1..]) == multiset(s) - multiset{s[0]} && s[0] in multiset(s)
  {
    assert s == [s[0]] + s[1..];
  }

  /** A strict order leaves one arrangement: sorted results depend only on the members. */
  lemma {:induction false} SortedUnique<T>(a: seq<T>, b: seq<T>, all: seq<T>, less: (T, T) -> bool)
    requires StrictTotalOn(less, all) && Sorted(a, less) && Sorted(b, less)
    requires forall y :: y in a ==> y in all
    requires multiset(a) == multiset(b)
    ensures a == b
  {
    if a == [] {
      assert |multiset(b)| == |b|;
    } else {
      SameHeads(a, b, all, less);
      hide StrictTotalOn;
      SortedUnique(a[1..], b[1..], all, less);
      assert a == [a[0]] + a[1..] && b == [b[0]] + b[1..];
    }
  }
}
