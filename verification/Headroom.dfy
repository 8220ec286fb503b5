/**
 The group headroom of `phios/elastic_shared_r13.py`: the eight largest experts
 of a layer bound every routed group of that layer.
 */
module Headroom {

  function Sum(v: seq<nat>): nat {
    if v == [] then 0 else v[0] + Sum(v[1..])
  }

  function InsertDesc(x: nat, s: seq<nat>): (t: seq<nat>)
    ensures |t| == |s| + 1
  {
    if s == [] || x >= s[0] then [x] + s else [s[0]] + InsertDesc(x, s[1..])
  }

  /** `sorted(v, reverse=True)`. */
  function SortDesc(v: seq<nat>): (s: seq<nat>)
    ensures |s| == |v|
  {
    if v == [] then [] else InsertDesc(v[|v| - 1], SortDesc(v[..|v| - 1]))
  }

  ghost predicate Descending(s: seq<nat>) {
    forall i, j :: 0 <= i < j < |s| ==> s[i] >= s[j]
  }

  lemma InsertDescElems(x: nat, s: seq<nat>)
    ensures multiset(InsertDesc(x, s)) == multiset(s) + multiset{x}
  {
    if s != [] {
      assert s == [s[0]] + s[1..];
    }
  }

  lemma {:induction false} InsertDescSorts(x: nat, s: seq<nat>)
    requires Descending(s)
    ensures Descending(InsertDesc(x, s))
    ensures InsertDesc(x, s)[0] == x || (s != [] && InsertDesc(x, s)[0] == s[0])
  {
    if s != [] && x < s[0] {
      InsertDescSorts(x, s[1..]);
      var rest := InsertDesc(x, s[1..]);
      assert rest[0] <= s[0];
      assert InsertDesc(x, s) == [s[0]] + rest;
    }
  }

  /** The sort is a descending arrangement of the same sizes. */
  lemma {:induction false} SortDescSorts(v: seq<nat>)
    ensures Descending(SortDesc(v)) && multiset(SortDesc(v)) == multiset(v)
  {
    if v != [] {
      var n := |v| - 1;
      SortDescSorts(v[..n]);
      InsertDescSorts(v[n], SortDesc(v[..n]));
      InsertDescElems(v[n], SortDesc(v[..n]));
      assert v == v[..n] + [v[n]];
    }
  }

  /** `sum(sorted(v, reverse=True)[:k])`. */
  function TopSum(v: seq<nat>, k: nat): nat {
    Sum(Prefix(SortDesc(v), k))
  }

  function Prefix(s: seq<nat>, k: nat): seq<nat> {
    if k <= |s| then s[..k] else s
  }

  lemma PrefixSumMonotone(s: seq<nat>, j: nat, k: nat)
    requires j <= k
    ensures Sum(Prefix(s, j)) <= Sum(Prefix(s, k))
  {
    if s != [] && j > 0 {
      PrefixSumMonotone(s[1..], j - 1, k - 1);
      PrefixSumStep(s, j);
      PrefixSumStep(s, k);
    }
  }

  lemma PrefixSumStep(s: seq<nat>, k: nat)
    requires s != [] && k > 0
    ensures Sum(Prefix(s, k)) == s[0] + Sum(Prefix(s[1..], k - 1))
  {
    var p := Prefix(s, k);
    assert p != [] && p[0] == s[0];
    assert p[1..] == Prefix(s[1..], k - 1);
  }

  /** Adding an element raises the top sums enough both to use it and to ignore it. */
  lemma {:induction false} InsertRaisesTop(x: nat, s: seq<nat>, k: nat)
    requires Descending(s)
    ensures Sum(Prefix(InsertDesc(x, s), k)) >= Sum(Prefix(s, k))
    ensures k > 0 ==> Sum(Prefix(InsertDesc(x, s), k)) >= x + Sum(Prefix(s, k - 1))
  {
    var t := InsertDesc(x, s);
    if k > 0 {
      PrefixSumStep(t, k);
      if s == [] || x >= s[0] {
        assert t[1..] == s;
        if s != [] {
          PrefixSumStep(s, k);
          DropRaises(s, k);
        }
      } else {
        assert t[1..] == InsertDesc(x, s[1..]);
        InsertRaisesTop(x, s[1..], k - 1);
        PrefixSumStep(s, k);
        if k > 1 {
          PrefixSumStep(s, k - 1);
        }
      }
    }
  }

  /** In a descending sequence the tail's prefix weighs no more than the sequence's own. */
  lemma DropRaises(s: seq<nat>, k: nat)
    requires s != [] && k > 0 && Descending(s)
    ensures Sum(Prefix(s[1..], k - 1)) <= Sum(Prefix(s, k - 1))
  {
    if k > 1 && |s| > 1 {
      PrefixSumStep(s, k - 1);
      PrefixSumStep(s[1..], k - 1);
      DropRaises(s[1..], k - 1);
    }
  }

  /** The chosen entries of `v[..n]`, summed. */
  function Chosen(v: seq<nat>, n: nat, picks: set<nat>): nat
    requires n <= |v|
  {
    if n == 0 then 0
    else Chosen(v, n - 1, picks) + (if n - 1 in picks then v[n - 1] else 0)
  }

  /** Majorisation: any `k` entries of a vector sum to at most its `k` largest. */
  lemma {:induction false} TopMajorises(v: seq<nat>, n: nat, picks: set<nat>, k: nat)
    requires n <= |v| && |picks| <= k && forall e | e in picks :: e < n
    ensures Chosen(v, n, picks) <= TopSum(v[..n], k)
  {
    hide Sum, Prefix, InsertDesc, Descending;
    if n > 0 {
      var prefix := v[..n];
      assert prefix[..n - 1] == v[..n - 1];
      SortDescSorts(v[..n - 1]);
      InsertRaisesTop(v[n - 1], SortDesc(v[..n - 1]), k);
      assert SortDesc(prefix) == InsertDesc(v[n - 1], SortDesc(v[..n - 1]));
      if n - 1 in picks {
        var fewer := picks - {n - 1};
        assert |fewer| == |picks| - 1;
        ChosenWithout(v, n - 1, picks, n - 1);
        TopMajorises(v, n - 1, fewer, k - 1);
      } else {
        TopMajorises(v, n - 1, picks, k);
      }
    }
  }

  lemma ChosenWithout(v: seq<nat>, n: nat, picks: set<nat>, e: nat)
    requires n <= |v|
    ensures e >= n ==> Chosen(v, n, picks - {e}) == Chosen(v, n, picks)
    ensures e < n && e in picks ==> Chosen(v, n, picks) == Chosen(v, n, picks - {e}) + v[e]
  {
  }

  // ----------------------------------------------------- the top is attained

  /** Positions of a vector of length `n`, each named once. */
  ghost predicate Positions(order: seq<nat>, n: nat) {
    && (forall i :: 0 <= i < |order| ==> order[i] < n)
    && forall i, j :: 0 <= i < j < |order| ==> order[i] != order[j]
  }

  /** `s` lists the entries of `v` at those positions. */
  ghost predicate Lists(s: seq<nat>, v: seq<nat>, order: seq<nat>) {
    |s| == |order| && Positions(order, |v|) && forall i :: 0 <= i < |s| ==> s[i] == v[order[i]]
  }

  lemma {:induction false} InsertPosition(x: nat, s: seq<nat>) returns (p: nat)
    ensures p <= |s| && InsertDesc(x, s) == s[..p] + [x] + s[p..]
  {
    if s == [] || x >= s[0] {
      p := 0;
    } else {
      var q := InsertPosition(x, s[1..]);
      p := q + 1;
      assert s[..p] == [s[0]] + s[1..][..q] && s[p..] == s[1..][q..];
    }
  }

  lemma ListsMore(s: seq<nat>, v: seq<nat>, order: seq<nat>, p: nat)
    requires v != [] && Lists(s, v[..|v| - 1], order) && p <= |s|
    ensures Lists(s[..p] + [v[|v| - 1]] + s[p..], v, order[..p] + [|v| - 1] + order[p..])
  {
    var n: nat := |v| - 1;
    var after := order[..p] + [n] + order[p..];
    forall i | 0 <= i < |after|
      ensures after[i] == if i < p then order[i] else if i == p then n else order[i - 1]
    {
    }
  }

  /** The descending sort lists the whole vector. */
  lemma {:induction false} SortOrder(v: seq<nat>) returns (order: seq<nat>)
    ensures Lists(SortDesc(v), v, order)
  {
    if v == [] {
      order := [];
    } else {
      hide Lists, InsertDesc;
      var n := |v| - 1;
      var before := SortOrder(v[..n]);
      var p := InsertPosition(v[n], SortDesc(v[..n]));
      ListsMore(SortDesc(v[..n]), v, before, p);
      ListsLength(SortDesc(v[..n]), v[..n], before);
      order := before[..p] + [n] + before[p..];
    }
  }

  lemma ListsLength(s: seq<nat>, v: seq<nat>, order: seq<nat>)
    requires Lists(s, v, order)
    ensures |order| == |s|
  {
  }

  /** Some distinct positions, at most `k`, hold entries that sum to the top `k`. */
  lemma TopAttained(v: seq<nat>, k: nat) returns (picks: seq<nat>)
    ensures |picks| <= k && Lists(Prefix(SortDesc(v), k), v, picks) && Sum(Prefix(SortDesc(v), k)) == TopSum(v, k)
  {
    var order := SortOrder(v);
    picks := if k <= |order| then order[..k] else order;
  }
}
