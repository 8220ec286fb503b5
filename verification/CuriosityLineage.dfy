/**
 The artifact store of `phios/curiosity_store.py`: an append-only list keyed by
 digest, and `lineage`, a depth-first post-order over a parent graph that may
 have cycles and may name artifacts the store does not hold.
 */
module CuriosityLineage {
  import opened Sequences
  import opened Wrappers

  type Digest = string

  /** `body` stands for every field the digest covers besides the parents. */
  datatype Artifact = Artifact(digest: Digest, parents: seq<Digest>, body: string)

  datatype StoreError = DuplicateArtifact | IdentityCollision

  type Known = map<Digest, Artifact>

  // ------------------------------------------------------------ the store

  function Digests(rows: seq<Artifact>): seq<Digest> {
    seq(|rows|, i requires 0 <= i < |rows| => rows[i].digest)
  }

  /** `append_jsonl` with the digest as identity field, one step under the file lock. */
  function AppendRow(rows: seq<Artifact>, a: Artifact): Result<(seq<Artifact>, bool), StoreError> {
    if a.digest !in Digests(rows) then Success((rows + [a], true))
    else if exists i, j :: 0 <= i < j < |rows| && rows[i].digest == a.digest == rows[j].digest then Failure(IdentityCollision)
    else if a in rows then Success((rows, false))
    else Failure(IdentityCollision)
  }

  /** Row `k` alone has the digest. */
  ghost predicate OnlyRow(rows: seq<Artifact>, digest: Digest, k: nat)
    requires k < |rows|
  {
    rows[k].digest == digest && forall j :: 0 <= j < |rows| && j != k ==> rows[j].digest != digest
  }

  /**
   An append adds the artifact exactly when no row has its digest, changes
   nothing exactly when the one row that has it is the artifact itself, and is
   refused when a row differs from it or the digest already repeats.
   */
  ghost predicate AppendSays(rows: seq<Artifact>, a: Artifact, r: Result<(seq<Artifact>, bool), StoreError>) {
    && (r == Success((rows + [a], true)) <==> forall k :: 0 <= k < |rows| ==> rows[k].digest != a.digest)
    && (r == Success((rows, false)) <==> exists k :: 0 <= k < |rows| && OnlyRow(rows, a.digest, k) && rows[k] == a)
    && (r.Success? ==> r.value == (rows + [a], true) || r.value == (rows, false))
    && (r.Failure? ==> r.error == IdentityCollision)
  }

  lemma AppendIsSaid(rows: seq<Artifact>, a: Artifact)
    ensures AppendSays(rows, a, AppendRow(rows, a))
  {
    assert rows + [a] != rows;
    assert forall k :: 0 <= k < |rows| ==> Digests(rows)[k] == rows[k].digest;
    if a in rows && AppendRow(rows, a) == Success((rows, false)) {
      var k :| 0 <= k < |rows| && rows[k] == a;
      assert OnlyRow(rows, a.digest, k);
    }
    forall k | 0 <= k < |rows| && OnlyRow(rows, a.digest, k) && rows[k] == a
      ensures AppendRow(rows, a) == Success((rows, false))
    {
      assert Digests(rows)[k] in Digests(rows);
    }
  }

  /** What the rows read so far hold of one digest: nothing, one row, or several. */
  ghost predicate MatchesOf(matches: seq<Artifact>, rows: seq<Artifact>, digest: Digest) {
    && (matches == [] ==> forall k :: 0 <= k < |rows| ==> rows[k].digest != digest)
    && (|matches| == 1 ==> exists k :: 0 <= k < |rows| && OnlyRow(rows, digest, k) && rows[k] == matches[0])
    && (|matches| > 1 ==> exists i, j :: 0 <= i < j < |rows| && rows[i].digest == digest == rows[j].digest)
  }

  lemma MatchesStep(matches: seq<Artifact>, rows: seq<Artifact>, k: nat, digest: Digest)
    requires k < |rows| && MatchesOf(matches, rows[..k], digest)
    ensures MatchesOf(if rows[k].digest == digest then matches + [rows[k]] else matches, rows[..k + 1], digest)
  {
    var shorter, longer := rows[..k], rows[..k + 1];
    assert forall j :: 0 <= j < k ==> shorter[j] == longer[j];
    assert longer[k] == rows[k];
    if rows[k].digest == digest {
      if matches == [] {
        assert OnlyRow(longer, digest, k);
      } else if |matches| == 1 {
        var i :| 0 <= i < k && OnlyRow(shorter, digest, i) && shorter[i] == matches[0];
        assert longer[i].digest == digest == longer[k].digest;
      } else {
        var i, j :| 0 <= i < j < k && shorter[i].digest == digest == shorter[j].digest;
        assert longer[i].digest == digest == longer[j].digest;
      }
    } else if |matches| == 1 {
      var i :| 0 <= i < k && OnlyRow(shorter, digest, i) && shorter[i] == matches[0];
      assert OnlyRow(longer, digest, i);
    } else if |matches| > 1 {
      var i, j :| 0 <= i < j < k && shorter[i].digest == digest == shorter[j].digest;
      assert longer[i].digest == digest == longer[j].digest;
    }
  }

  lemma MatchesDecide(matches: seq<Artifact>, rows: seq<Artifact>, a: Artifact)
    requires MatchesOf(matches, rows, a.digest)
    ensures AppendRow(rows, a) == if matches == [] then Success((rows + [a], true))
                                  else if matches == [a] then Success((rows, false)) else Failure(IdentityCollision)
  {
    AppendIsSaid(rows, a);
    if |matches| == 1 {
      var k :| 0 <= k < |rows| && OnlyRow(rows, a.digest, k) && rows[k] == matches[0];
      assert Digests(rows)[k] in Digests(rows);
      assert matches == [matches[0]];
    } else if |matches| > 1 {
      var i, j :| 0 <= i < j < |rows| && rows[i].digest == a.digest == rows[j].digest;
      assert Digests(rows)[i] in Digests(rows);
    }
  }

  /** The history after a run of appends by any number of writers, refused ones leaving no trace. */
  function Appended(rows: seq<Artifact>, writes: seq<Artifact>): seq<Artifact> {
    if writes == [] then rows
    else
      var before := Appended(rows, writes[..|writes| - 1]);
      match AppendRow(before, writes[|writes| - 1])
      case Success(step) => step.0
      case Failure(_) => before
  }

  /** No run of appends ever rewrites a row, repeats a digest or drops a new artifact. */
  lemma {:induction false} AppendsKeepHistory(rows: seq<Artifact>, writes: seq<Artifact>)
    requires NoDup(Digests(rows))
    ensures rows <= Appended(rows, writes)
    ensures NoDup(Digests(Appended(rows, writes)))
    ensures forall a :: a in writes ==> a.digest in Digests(Appended(rows, writes))
    ensures forall a :: a in Appended(rows, writes) ==> a in rows || a in writes
  {
    if writes != [] {
      var n := |writes| - 1;
      var a := writes[n];
      var before := Appended(rows, writes[..n]);
      AppendsKeepHistory(rows, writes[..n]);
      assert writes == writes[..n] + [a];
      if a.digest !in Digests(before) {
        assert Digests(before + [a]) == Digests(before) + [a.digest];
        NoDupSnoc(Digests(before), a.digest);
      }
    }
  }

  lemma NothingRead(rows: seq<Artifact>, digest: Digest)
    requires rows == []
    ensures MatchesOf([], rows, digest)
  {
  }

  class ArtifactStore {
    var rows: seq<Artifact>

    /** `artifacts`: raises exactly when a digest repeats. */
    method Artifacts() returns (r: Result<seq<Artifact>, StoreError>)
      ensures r == if NoDup(Digests(rows)) then Success(rows) else Failure(DuplicateArtifact)
    {
      var result: seq<Artifact> := [];
      var seen: set<Digest> := {};
      var k := 0;
      while k < |rows|
        invariant k <= |rows| && result == rows[..k]
        invariant NoDup(Digests(rows)[..k]) && seen == Elems(Digests(rows)[..k])
      {
        ghost var ds := Digests(rows);
        assert ds[..k + 1] == ds[..k] + [ds[k]];
        if rows[k].digest in seen {
          assert ds[k] in ds[..k];
          return Failure(DuplicateArtifact);
        }
        NoDupSnoc(ds[..k], ds[k]);
        seen := seen + {rows[k].digest};
        result := result + [rows[k]];
        k := k + 1;
      }
      assert Digests(rows)[..k] == Digests(rows) && rows[..k] == rows;
      r := Success(result);
    }

    /** `get_artifact`. */
    method GetArtifact(digest: Digest) returns (r: Result<Option<Artifact>, StoreError>)
      ensures !NoDup(Digests(rows)) ==> r == Failure(DuplicateArtifact)
      ensures NoDup(Digests(rows)) ==> r.Success? && (r.value.None? <==> digest !in Digests(rows))
      ensures r.Success? && r.value.Some? ==> r.value.value in rows && r.value.value.digest == digest
    {
      var all := Artifacts();
      if all.Failure? {
        return Failure(all.error);
      }
      var k := 0;
      while k < |all.value|
        invariant k <= |rows|
        invariant digest !in Digests(rows)[..k]
      {
        assert Digests(rows)[..k + 1] == Digests(rows)[..k] + [rows[k].digest];
        if all.value[k].digest == digest {
          assert Digests(rows)[k] == digest;
          return Success(Some(all.value[k]));
        }
        k := k + 1;
      }
      assert Digests(rows)[..k] == Digests(rows);
      r := Success(None);
    }

    /** `append_jsonl` with the digest as identity field. */
    method AppendLine(a: Artifact) returns (r: Result<bool, StoreError>)
      modifies this
      ensures AppendRow(old(rows), a) == if r.Success? then Success((rows, r.value)) else Failure(r.error)
      ensures AppendSays(old(rows), a, if r.Success? then Success((rows, r.value)) else Failure(r.error))
      ensures r.Failure? ==> rows == old(rows)
    {
      hide AppendRow, MatchesOf, AppendSays;
      var matches: seq<Artifact> := [];
      var k := 0;
      NothingRead(rows[..0], a.digest);
      while k < |rows|
        invariant k <= |rows| && rows == old(rows) && MatchesOf(matches, rows[..k], a.digest)
      {
        MatchesStep(matches, rows, k, a.digest);
        if rows[k].digest == a.digest {
          matches := matches + [rows[k]];
        }
        k := k + 1;
      }
      assert rows[..k] == rows;
      MatchesDecide(matches, rows, a);
      AppendIsSaid(rows, a);
      if matches != [] {
        if matches != [a] {
          return Failure(IdentityCollision);
        }
        return Success(false);
      }
      rows := rows + [a];
      r := Success(true);
    }

    /** `append_artifact`: false when the artifact is already there, true when it was added. */
    method AppendArtifact(a: Artifact) returns (r: Result<bool, StoreError>)
      modifies this
      ensures !NoDup(old(Digests(rows))) ==> r == Failure(DuplicateArtifact) && rows == old(rows)
      ensures NoDup(old(Digests(rows))) ==> r == Success(a.digest !in old(Digests(rows)))
      ensures NoDup(old(Digests(rows))) ==> rows == if r.value then old(rows) + [a] else old(rows)
      ensures NoDup(old(Digests(rows))) && r.value ==> AppendRow(old(rows), a) == Success((rows, true))
    {
      var found := GetArtifact(a.digest);
      if found.Failure? {
        return Failure(found.error);
      }
      if found.value.Some? {
        return Success(false);
      }
      r := AppendLine(a);
    }

    /** `lineage`. */
    method Lineage(digest: Digest) returns (r: Result<seq<Artifact>, StoreError>)
      ensures !NoDup(Digests(rows)) ==> r == Failure(DuplicateArtifact)
      ensures NoDup(Digests(rows)) ==> r.Success?
      ensures r.Success? ==> forall known :: KnownIn(known, rows) ==> IsLineage(known, digest, r.value)
    {
      var artifact := GetArtifact(digest);
      if artifact.Failure? {
        return Failure(artifact.error);
      }
      if artifact.value.None? {
        forall known | KnownIn(known, rows)
          ensures digest !in known
        {
          KnownKeys(known, rows, digest);
        }
        return Success([]);
      }
      var known := Index(rows);
      assert digest in known;
      var search := new AncestorSearch();
      search.StartsValid(known, digest);
      search.Visit(known, digest, digest, []);
      search.Complete(known, digest);
      forall other | KnownIn(other, rows)
        ensures other == known
      {
        KnownUnique(known, other, rows);
      }
      r := Success(search.ordered);
    }
  }

  /** The dictionary built from the rows. */
  ghost predicate KnownIn(known: Known, rows: seq<Artifact>) {
    && (forall a :: a in rows ==> a.digest in known && known[a.digest] == a)
    && (forall d :: d in known ==> known[d] in rows && known[d].digest == d)
  }

  lemma KnownKeys(known: Known, rows: seq<Artifact>, d: Digest)
    requires KnownIn(known, rows)
    ensures d in known <==> d in Digests(rows)
  {
    if d in known {
      var i :| 0 <= i < |rows| && rows[i] == known[d];
      assert Digests(rows)[i] == d;
    }
  }

  lemma KnownUnique(k1: Known, k2: Known, rows: seq<Artifact>)
    requires KnownIn(k1, rows) && KnownIn(k2, rows)
    ensures k1 == k2
  {
  }

  method Index(rows: seq<Artifact>) returns (known: Known)
    requires NoDup(Digests(rows))
    ensures KnownIn(known, rows)
  {
    known := map[];
    var k := 0;
    while k < |rows|
      invariant k <= |rows| && KnownIn(known, rows[..k])
    {
      forall a | a in rows[..k]
        ensures a.digest != rows[k].digest
      {
        var i :| 0 <= i < k && rows[i] == a;
        assert Digests(rows)[i] != Digests(rows)[k];
      }
      assert rows[..k + 1] == rows[..k] + [rows[k]];
      known := known[rows[k].digest := rows[k]];
      k := k + 1;
    }
    assert rows[..k] == rows;
  }

  // ------------------------------------------------------------ ancestry

  /** Each member is held by the store and lists the next one as a parent. */
  ghost predicate IsDescent(known: Known, p: seq<Digest>) {
    && p != []
    && (forall i :: 0 <= i < |p| ==> p[i] in known)
    && (forall i :: 0 <= i < |p| - 1 ==> p[i + 1] in known[p[i]].parents)
  }

  ghost predicate Joins(known: Known, p: seq<Digest>, a: Digest, b: Digest) {
    IsDescent(known, p) && p[0] == a && p[|p| - 1] == b
  }

  /** `b` is `a` or an ancestor of `a`, through artifacts the store holds. */
  ghost predicate Reaches(known: Known, a: Digest, b: Digest) {
    exists p :: Joins(known, p, a, b)
  }

  /** Listed before every child, unless parent and child lie on a common cycle. */
  ghost predicate ParentsFirst(known: Known, order: seq<Digest>) {
    forall i :: 0 <= i < |order| && order[i] in known ==>
      forall d :: d in known[order[i]].parents && d in known ==> d in order[..i] || Reaches(known, d, order[i])
  }

  ghost predicate HasCycle(known: Known) {
    exists a, d :: a in known && d in known && d in known[a].parents && Reaches(known, d, a)
  }

  /** Everything `lineage` promises of its result. */
  ghost predicate IsLineage(known: Known, digest: Digest, result: seq<Artifact>) {
    var order := Digests(result);
    && NoDup(order)
    && (forall a :: a in result ==> a.digest in known && known[a.digest] == a)
    && (forall d :: d in order ==> Reaches(known, digest, d))
    && (forall d :: Reaches(known, digest, d) ==> d in order)
    && (result != [] ==> result[|result| - 1].digest == digest)
    && ParentsFirst(known, order)
  }

  /** In a store without cycles every known parent comes before its child. */
  lemma AcyclicLineageIsOldestFirst(known: Known, digest: Digest, result: seq<Artifact>, i: nat, j: nat)
    requires IsLineage(known, digest, result) && !HasCycle(known)
    requires i < |result| && j < |result| && result[i].digest in result[j].parents
    ensures i < j
  {
    var order := Digests(result);
    assert result[i] in result && result[j] in result;
    var a, d := order[j], order[i];
    assert known[a] == result[j] && a in known && d in known;
    assert d in order[..j];
    var k :| 0 <= k < j && order[k] == d;
    assert k == i;
  }

  /** An artifact the store does not hold has no lineage; a held one always has itself. */
  lemma LineageEmptyIff(known: Known, digest: Digest, result: seq<Artifact>)
    requires IsLineage(known, digest, result)
    ensures result == [] <==> digest !in known
  {
    if digest in known {
      assert Joins(known, [digest], digest, digest);
      assert digest in Digests(result);
    }
    if result != [] {
      assert Digests(result)[0] in Digests(result);
      var p :| Joins(known, p, digest, Digests(result)[0]);
    }
  }

  /** All digests the store holds or names. */
  function Universe(known: Known): set<Digest> {
    known.Keys + set a, d | a in known && d in known[a].parents :: d
  }

  // ------------------------------------------------------------ the search

  class AncestorSearch {
    var visited: set<Digest>
    var ordered: seq<Artifact>

    constructor ()
      ensures visited == {} && ordered == []
    {
      visited, ordered := {}, [];
    }

    /** The known artifacts visited but not listed form the trail of open calls. */
    ghost predicate Valid(known: Known, root: Digest, trail: seq<Digest>)
      reads this
    {
      var order := Digests(ordered);
      && visited * known.Keys == Elems(trail) + Elems(order) && Elems(trail) !! Elems(order)
      && NoDup(order) && (forall a :: a in ordered ==> a.digest in known && known[a.digest] == a)
      && (forall d :: d in order ==> Reaches(known, root, d))
      && (forall d, e :: d in order && d in known && e in known[d].parents ==> e in visited)
      && (trail != [] ==> IsDescent(known, trail) && trail[0] == root)
      && ParentsFirst(known, order)
    }

    lemma StartsValid(known: Known, root: Digest)
      requires visited == {} && ordered == []
      ensures Valid(known, root, [])
    {
    }

    /** `visit`. */
    method Visit(known: Known, root: Digest, digest: Digest, ghost trail: seq<Digest>)
      requires (forall d :: d in known ==> known[d].digest == d) && digest in Universe(known)
      requires Valid(known, root, trail)
      requires if trail == [] then digest == root else digest in known[trail[|trail| - 1]].parents
      modifies this
      ensures Valid(known, root, trail) && digest in visited
      ensures old(visited) <= visited && old(ordered) <= ordered
      ensures digest in known && digest !in old(visited) ==> ordered != [] && ordered[|ordered| - 1].digest == digest
      decreases Universe(known) - visited
    {
      hide ParentsFirst, Reaches, IsDescent, Universe, Digests;
      if digest in visited {
        return;
      }
      visited := visited + {digest};
      if digest !in known {
        return;
      }
      var item := known[digest];
      ghost var deeper := trail + [digest];
      TrailGrows(known, trail, digest);
      var k := 0;
      while k < |item.parents|
        invariant k <= |item.parents|
        invariant Valid(known, root, deeper) && digest in visited
        invariant old(visited) <= visited && old(ordered) <= ordered
        invariant forall j :: 0 <= j < k ==> item.parents[j] in visited
      {
        ParentInUniverse(known, digest, item.parents[k]);
        Visit(known, root, item.parents[k], deeper);
        k := k + 1;
      }
      Listing(known, root, trail, digest);
      ordered := ordered + [item];
    }

    /** Listing an artifact once all its parents have been visited keeps the search state. */
    lemma Listing(known: Known, root: Digest, trail: seq<Digest>, digest: Digest)
      requires Valid(known, root, trail + [digest]) && digest in known && known[digest].digest == digest
      requires digest !in trail
      requires forall e :: e in known[digest].parents ==> e in visited
      ensures var order := Digests(ordered + [known[digest]]);
        && visited * known.Keys == Elems(trail) + Elems(order) && Elems(trail) !! Elems(order)
        && NoDup(order)
        && (forall d :: d in order ==> Reaches(known, root, d))
        && (forall d, e :: d in order && d in known && e in known[d].parents ==> e in visited)
        && (trail != [] ==> IsDescent(known, trail) && trail[0] == root)
        && ParentsFirst(known, order)
    {
      var order := Digests(ordered);
      var deeper := trail + [digest];
      assert Digests(ordered + [known[digest]]) == order + [digest];
      TrailReaches(known, deeper, root);
      assert deeper[|trail|] == digest;
      hide IsDescent, Reaches, ParentsFirst, Digests;
      ElemsSnoc(trail, digest);
      ElemsSnoc(order, digest);
      NoDupSnoc(order, digest);
      if trail != [] {
        TrailShrinks(known, trail, digest);
      }
      forall d | d in known[digest].parents && d in known
        ensures d in order || Reaches(known, d, digest)
      {
        assert d in visited * known.Keys;
      }
      ParentsFirstSnoc(known, order, digest);
    }

    /** With no call open, every reachable artifact has been listed. */
    lemma Complete(known: Known, root: Digest)
      requires Valid(known, root, []) && root in visited && root in known
      requires ordered != [] && ordered[|ordered| - 1].digest == root
      ensures IsLineage(known, root, ordered)
    {
      forall d | Reaches(known, root, d)
        ensures d in Digests(ordered)
      {
        var p :| Joins(known, p, root, d);
        Closed(known, root, p);
      }
    }

    lemma {:induction false} Closed(known: Known, root: Digest, p: seq<Digest>)
      requires Valid(known, root, []) && root in visited
      requires IsDescent(known, p) && p[0] == root
      ensures p[|p| - 1] in Digests(ordered)
    {
      var n := |p| - 1;
      if n > 0 {
        Closed(known, root, p[..n]);
        assert p[n] in known[p[n - 1]].parents;
      }
      assert p[n] in visited * known.Keys;
    }
  }

  lemma TrailGrows(known: Known, trail: seq<Digest>, digest: Digest)
    requires digest in known && (trail == [] || (IsDescent(known, trail) && digest in known[trail[|trail| - 1]].parents))
    ensures IsDescent(known, trail + [digest]) && Elems(trail + [digest]) == Elems(trail) + {digest}
  {
  }

  lemma ParentInUniverse(known: Known, child: Digest, d: Digest)
    requires child in known && d in known[child].parents
    ensures d in Universe(known)
  {
  }

  lemma ElemsSnoc(s: seq<Digest>, x: Digest)
    ensures Elems(s + [x]) == Elems(s) + {x}
  {
  }

  lemma TrailShrinks(known: Known, trail: seq<Digest>, digest: Digest)
    requires trail != [] && IsDescent(known, trail + [digest])
    ensures IsDescent(known, trail) && trail[0] == (trail + [digest])[0]
  {
    assert (trail + [digest])[..|trail|] == trail;
  }

  /** Along a descent the start and every digest on the way reach the end. */
  lemma TrailReaches(known: Known, trail: seq<Digest>, root: Digest)
    requires IsDescent(known, trail) && trail[0] == root
    ensures forall d :: d in trail ==> Reaches(known, d, trail[|trail| - 1])
    ensures Reaches(known, root, trail[|trail| - 1])
  {
    forall d | d in trail
      ensures Reaches(known, d, trail[|trail| - 1])
    {
      var i :| 0 <= i < |trail| && trail[i] == d;
      assert Joins(known, trail[i..], d, trail[|trail| - 1]);
    }
    assert trail[0] in trail;
  }

  lemma ParentsFirstSnoc(known: Known, order: seq<Digest>, x: Digest)
    requires ParentsFirst(known, order) && x in known
    requires forall d :: d in known[x].parents && d in known ==> d in order || Reaches(known, d, x)
    ensures ParentsFirst(known, order + [x])
  {
    hide Reaches;
    var longer := order + [x];
    forall i | 0 <= i < |longer| && longer[i] in known
      ensures forall d :: d in known[longer[i]].parents && d in known ==> d in longer[..i] || Reaches(known, d, longer[i])
    {
      if i < |order| {
        assert longer[..i] == order[..i];
      } else {
        assert longer[..i] == order;
      }
    }
  }
}
