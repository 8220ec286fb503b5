/**
 The dependency graph of `phios/elastic_runtime.py`: `_checked` rejects a
 snapshot whose resolved dependencies contain a cycle, by depth-first search
 with a visiting and a visited set.
 */
module BubbleGraph {
  import opened Sequences
  import opened Ranking
  import opened Wrappers

  type Id = string

  const MAX_BUBBLES := 64
  const MAX_DEPENDENCIES := 16
  const MAX_MIB := 1048576

  datatype Bubble = Bubble(
    id: Id, demanded: bool, pinned: bool, prefetch: bool, priority: int,
    dependencies: seq<Id>, warmRam: int, activeRam: int, activeVram: int)

  type Graph = map<Id, Bubble>

  datatype SnapshotError = InvalidSnapshot | CyclicDependencies

  // ------------------------------------------------------------ paths

  ghost predicate Resolved(g: Graph) {
    forall id :: id in g ==> forall d :: d in g[id].dependencies ==> d in g
  }

  /** Consecutive members depend on one another, first on second and so on. */
  ghost predicate IsPath(g: Graph, p: seq<Id>) {
    && p != []
    && (forall i :: 0 <= i < |p| ==> p[i] in g)
    && (forall i :: 0 <= i < |p| - 1 ==> p[i + 1] in g[p[i]].dependencies)
  }

  ghost predicate IsCycle(g: Graph, p: seq<Id>) {
    |p| >= 2 && IsPath(g, p) && p[0] == p[|p| - 1]
  }

  ghost predicate HasCycle(g: Graph) {
    exists p :: IsCycle(g, p)
  }

  /** Every member's dependencies come earlier. */
  ghost predicate Topological(g: Graph, order: seq<Id>) {
    && NoDup(order)
    && (forall i :: 0 <= i < |order| ==> order[i] in g)
    && (forall i :: 0 <= i < |order| ==> forall d :: d in g[order[i]].dependencies ==> d in order[..i])
  }

  function IndexOf(s: seq<Id>, x: Id): nat
    requires x in s
  {
    if s[0] == x then 0 else 1 + IndexOf(s[1..], x)
  }

  lemma IndexOfSpec(s: seq<Id>, x: Id)
    requires x in s
    ensures IndexOf(s, x) < |s| && s[IndexOf(s, x)] == x
    ensures forall k: nat :: k < |s| && x in s[..k] ==> IndexOf(s, x) < k
  {
    if s[0] != x {
      IndexOfSpec(s[1..], x);
      forall k: nat | k < |s| && x in s[..k]
        ensures IndexOf(s, x) < k
      {
        assert s[..k][1..] == s[1..][..k - 1];
        assert x in s[1..][..k - 1];
      }
    }
  }

  /** In a topological order every step of a path moves to an earlier index. */
  lemma {:induction false} PathDescends(g: Graph, order: seq<Id>, p: seq<Id>)
    requires Topological(g, order) && IsPath(g, p) && forall id :: id in g ==> id in order
    ensures |p| >= 2 ==> IndexOf(order, p[|p| - 1]) < IndexOf(order, p[0])
  {
    if |p| >= 2 {
      var n := |p| - 1;
      var q := p[..n];
      assert IsPath(g, q);
      PathDescends(g, order, q);
      var last, next := p[n - 1], p[n];
      IndexOfSpec(order, last);
      IndexOfSpec(order, next);
      assert next in order[..IndexOf(order, last)];
      assert q[|q| - 1] == last && q[0] == p[0];
    }
  }

  /** A graph with a topological order of all its bubbles has no cycle. */
  lemma OrderedIsAcyclic(g: Graph, order: seq<Id>)
    requires Topological(g, order) && forall id :: id in g ==> id in order
    ensures !HasCycle(g)
  {
    forall p | IsPath(g, p)
      ensures !IsCycle(g, p)
    {
      PathDescends(g, order, p);
    }
  }

  // ------------------------------------------------------------ the search

  class CycleSearch {
    var visiting: set<Id>
    var visited: set<Id>
    ghost var finished: seq<Id>

    constructor ()
      ensures visiting == {} && visited == {} && finished == []
    {
      visiting, visited, finished := {}, {}, [];
    }

    /** The bubbles being visited form one dependency path; the finished ones are in dependency order. */
    ghost predicate Valid(g: Graph, trail: seq<Id>)
      reads this
    {
      && visiting == Elems(trail) && (trail == [] || IsPath(g, trail))
      && Topological(g, finished) && visited == Elems(finished)
      && visiting !! visited
    }

    lemma StartsValid(g: Graph)
      requires visiting == {} && visited == {} && finished == []
      ensures Valid(g, [])
    {
    }

    /** `visit`: fails, where the source raises, exactly when it has found a cycle. */
    method Visit(g: Graph, id: Id, ghost trail: seq<Id>) returns (ok: bool)
      requires Resolved(g) && id in g && Valid(g, trail)
      requires trail != [] ==> id in g[trail[|trail| - 1]].dependencies
      modifies this
      ensures ok ==> Valid(g, trail) && id in visited
      ensures ok ==> visiting == old(visiting) && old(visited) <= visited && old(finished) <= finished
      ensures !ok ==> HasCycle(g)
      decreases g.Keys - visiting
    {
      if id in visiting {
        CycleFound(g, trail, id);
        return false;
      }
      if id in visited {
        return true;
      }
      visiting := visiting + {id};
      ghost var deeper := trail + [id];
      TrailGrows(g, trail, id);
      var deps := g[id].dependencies;
      var k := 0;
      while k < |deps|
        invariant k <= |deps|
        invariant Valid(g, deeper) && id !in visited
        invariant visiting == old(visiting) + {id} && old(visited) <= visited && old(finished) <= finished
        invariant forall j :: 0 <= j < k ==> deps[j] in visited
      {
        assert deps[k] in deps;
        ok := Visit(g, deps[k], deeper);
        if !ok {
          return false;
        }
        k := k + 1;
      }
      visiting := visiting - {id};
      visited := visited + {id};
      Finish(g, finished, id);
      finished := finished + [id];
      ok := true;
    }

    /** The driver loop over the sorted identifiers. */
    method Run(g: Graph, names: seq<Id>) returns (ok: bool)
      requires Resolved(g) && (forall id :: id in names ==> id in g) && (forall id :: id in g ==> id in names)
      requires Valid(g, []) && finished == []
      modifies this
      ensures ok <==> !HasCycle(g)
      ensures ok ==> Topological(g, finished) && Elems(finished) == g.Keys
    {
      var k := 0;
      while k < |names|
        invariant k <= |names|
        invariant Valid(g, [])
        invariant forall j :: 0 <= j < k ==> names[j] in visited
      {
        assert names[k] in names;
        ok := Visit(g, names[k], []);
        if !ok {
          return false;
        }
        k := k + 1;
      }
      forall id | id in g
        ensures id in finished
      {
        assert id in names;
        assert id in visited;
      }
      OrderedIsAcyclic(g, finished);
      ok := true;
    }
  }

  lemma TrailGrows(g: Graph, trail: seq<Id>, id: Id)
    requires trail == [] || IsPath(g, trail)
    requires id in g && (trail != [] ==> id in g[trail[|trail| - 1]].dependencies)
    ensures IsPath(g, trail + [id]) && Elems(trail + [id]) == Elems(trail) + {id}
  {
  }

  /** Reaching a bubble still being visited closes a cycle along the trail. */
  lemma CycleFound(g: Graph, trail: seq<Id>, id: Id)
    requires trail != [] && IsPath(g, trail) && id in trail
    requires id in g[trail[|trail| - 1]].dependencies
    ensures HasCycle(g)
  {
    var i :| 0 <= i < |trail| && trail[i] == id;
    var p := trail[i..] + [id];
    forall j | 0 <= j < |p| - 1
      ensures p[j + 1] in g[p[j]].dependencies
    {
      if j < |p| - 2 {
        assert p[j] == trail[i + j] && p[j + 1] == trail[i + j + 1];
      }
    }
    assert IsCycle(g, p);
  }

  lemma Finish(g: Graph, finished: seq<Id>, id: Id)
    requires Topological(g, finished) && id in g && id !in finished
    requires forall d :: d in g[id].dependencies ==> d in finished
    ensures Topological(g, finished + [id])
    ensures Elems(finished + [id]) == Elems(finished) + {id}
  {
    NoDupSnoc(finished, id);
    var order := finished + [id];
    forall i | 0 <= i < |order|
      ensures forall d :: d in g[order[i]].dependencies ==> d in order[..i]
    {
      if i < |finished| {
        assert order[..i] == finished[..i];
      } else {
        assert order[..i] == finished;
      }
    }
  }

  // ------------------------------------------------------------ snapshots

  predicate StringLess(a: string, b: string) {
    if b == [] then false
    else if a == [] then true
    else a[0] < b[0] || (a[0] == b[0] && StringLess(a[1..], b[1..]))
  }

  /** `a` is a proper prefix of `b`, or at their first difference `a` has the smaller character. */
  ghost predicate DiffersAt(a: string, b: string, k: nat) {
    k <= |a| && k < |b| && a[..k] == b[..k] && (k == |a| || a[k] < b[k])
  }

  /** The comparison is the dictionary order. */
  lemma {:induction false} StringLessIff(a: string, b: string)
    ensures StringLess(a, b) <==> exists k: nat :: DiffersAt(a, b, k)
  {
    if a != [] && b != [] && a[0] == b[0] {
      StringLessIff(a[1..], b[1..]);
      forall k: nat | DiffersAt(a[1..], b[1..], k)
        ensures DiffersAt(a, b, k + 1)
      {
        assert a[..k + 1] == [a[0]] + a[1..][..k] && b[..k + 1] == [b[0]] + b[1..][..k];
      }
      forall k: nat | DiffersAt(a, b, k)
        ensures k > 0 && DiffersAt(a[1..], b[1..], k - 1)
      {
        assert k > 0;
        assert a[1..][..k - 1] == a[..k][1..] && b[1..][..k - 1] == b[..k][1..];
      }
    } else if b != [] {
      assert DiffersAt(a, b, 0) <==> a == [] || a[0] < b[0];
      forall k: nat | k > 0
        ensures !DiffersAt(a, b, k)
      {
        if k <= |a| && k < |b| {
          assert a[..k][0] == a[0] && b[..k][0] == b[0];
        }
      }
    }
  }

  lemma StringLessTotal(a: string, b: string)
    ensures !(StringLess(a, b) && StringLess(b, a))
    ensures a != b ==> StringLess(a, b) || StringLess(b, a)
    ensures !StringLess(a, a)
  {
    if a != [] && b != [] {
      StringLessTotal(a[1..], b[1..]);
      assert a == [a[0]] + a[1..] && b == [b[0]] + b[1..];
    }
    if a != [] {
      StringLessTotal(a[1..], a[1..]);
    }
  }

  lemma StringLessTransitive(a: string, b: string, c: string)
    requires StringLess(a, b) && StringLess(b, c)
    ensures StringLess(a, c)
  {
  }

  lemma StringOrder(xs: seq<string>)
    ensures StrictTotalOn(StringLess, xs)
  {
    forall a, b
      ensures !StringLess(a, a) && (a != b ==> StringLess(a, b) || StringLess(b, a))
    {
      StringLessTotal(a, b);
    }
    forall a, b, c | StringLess(a, b) && StringLess(b, c)
      ensures StringLess(a, c)
    {
      StringLessTransitive(a, b, c);
    }
  }

  function Ids(bubbles: seq<Bubble>): seq<Id> {
    seq(|bubbles|, i requires 0 <= i < |bubbles| => bubbles[i].id)
  }

  predicate ValidBubble(b: Bubble) {
    && |b.dependencies| <= MAX_DEPENDENCIES && |Distinct(b.dependencies)| == |b.dependencies|
    && b.id !in b.dependencies
    && 0 <= b.warmRam <= b.activeRam <= MAX_MIB && 0 <= b.activeVram <= MAX_MIB
    && 0 <= b.priority <= 100
  }

  /** The graph a list of bubbles with distinct ids describes. */
  ghost predicate GraphOf(g: Graph, bubbles: seq<Bubble>) {
    && (forall i :: 0 <= i < |bubbles| ==> bubbles[i].id in g && g[bubbles[i].id] == bubbles[i])
    && (forall id :: id in g ==> id in Ids(bubbles))
  }

  ghost predicate WellFormed(bubbles: seq<Bubble>) {
    && 1 <= |bubbles| <= MAX_BUBBLES
    && (forall b :: b in bubbles ==> ValidBubble(b))
    && NoDup(Ids(bubbles))
    && (forall b :: b in bubbles ==> forall d :: d in b.dependencies ==> d in Ids(bubbles))
  }

  lemma GraphUnique(g: Graph, h: Graph, bubbles: seq<Bubble>)
    requires GraphOf(g, bubbles) && GraphOf(h, bubbles)
    ensures g == h
  {
    forall id | id in g || id in h
      ensures id in g && id in h && g[id] == h[id]
    {
      assert id in Ids(bubbles);
      var i :| 0 <= i < |bubbles| && Ids(bubbles)[i] == id;
    }
  }

  method BuildGraph(bubbles: seq<Bubble>) returns (g: Graph)
    requires NoDup(Ids(bubbles))
    ensures GraphOf(g, bubbles)
    ensures forall h :: GraphOf(h, bubbles) ==> h == g
  {
    var ids := Ids(bubbles);
    g := map[];
    var i := 0;
    while i < |bubbles|
      invariant i <= |bubbles|
      invariant forall j :: 0 <= j < i ==> bubbles[j].id in g && g[bubbles[j].id] == bubbles[j]
      invariant forall id :: id in g ==> id in ids
    {
      assert ids[i] in ids;
      forall j | 0 <= j < i
        ensures bubbles[j].id != bubbles[i].id
      {
        assert ids[j] != ids[i];
      }
      g := g[bubbles[i].id := bubbles[i]];
      i := i + 1;
    }
    forall h | GraphOf(h, bubbles)
      ensures h == g
    {
      GraphUnique(g, h, bubbles);
    }
  }

  /** Visit every bubble, in the order of the sorted ids. */
  method Acyclic(g: Graph, ids: seq<Id>) returns (ok: bool)
    requires Resolved(g) && NoDup(ids)
    requires (forall id :: id in ids ==> id in g) && (forall id :: id in g ==> id in ids)
    ensures ok <==> !HasCycle(g)
  {
    StringOrder(ids);
    SortIsSorted(ids, StringLess);
    var search := new CycleSearch();
    search.StartsValid(g);
    ok := search.Run(g, Sort(ids, StringLess));
  }

  /** `_checked`: the bubble contracts, unique ids, resolved dependencies, then the search. */
  method Checked(bubbles: seq<Bubble>) returns (r: Result<Graph, SnapshotError>)
    ensures r == Failure(InvalidSnapshot) <==> !WellFormed(bubbles)
    ensures WellFormed(bubbles) ==> forall g :: GraphOf(g, bubbles) ==> (r == Failure(CyclicDependencies) <==> HasCycle(g))
    ensures r.Success? ==> GraphOf(r.value, bubbles) && Resolved(r.value) && !HasCycle(r.value)
  {
    hide HasCycle, ValidBubble, GraphOf, Distinct, Resolved;
    if !(1 <= |bubbles| <= MAX_BUBBLES) || exists b :: b in bubbles && !ValidBubble(b) {
      return Failure(InvalidSnapshot);
    }
    var ids := Ids(bubbles);
    DistinctCount(ids);
    if |Distinct(ids)| != |ids| {
      return Failure(InvalidSnapshot);
    }
    var g := BuildGraph(bubbles);
    KeysAreIds(g, bubbles);
    if exists b :: b in bubbles && exists d :: d in b.dependencies && d !in g {
      return Failure(InvalidSnapshot);
    }
    GraphResolved(g, bubbles);
    var ok := Acyclic(g, ids);
    r := if ok then Success(g) else Failure(CyclicDependencies);
  }

  lemma KeysAreIds(g: Graph, bubbles: seq<Bubble>)
    requires GraphOf(g, bubbles)
    ensures forall id :: id in Ids(bubbles) ==> id in g
    ensures forall id :: id in g ==> id in Ids(bubbles)
  {
  }

  lemma GraphResolved(g: Graph, bubbles: seq<Bubble>)
    requires GraphOf(g, bubbles) && forall b :: b in bubbles ==> forall d :: d in b.dependencies ==> d in g
    ensures Resolved(g)
  {
    forall id, d | id in g && d in g[id].dependencies
      ensures d in g
    {
      assert id in Ids(bubbles);
      var i :| 0 <= i < |bubbles| && Ids(bubbles)[i] == id;
      assert bubbles[i] in bubbles;
    }
  }
}
