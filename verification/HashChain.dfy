/** Append-only histories whose entries carry their index and the digest of the entry before. */
module HashChain {
  import opened Wrappers

  ghost predicate Injective<T(!new), D(!new)>(hash: T -> D) {
    forall x, y :: hash(x) == hash(y) ==> x == y
  }

  ghost predicate Linked<T, D>(rows: seq<T>, hash: T -> D, number: T -> nat, previous: T -> Option<D>) {
    forall i :: 0 <= i < |rows| ==> LinkedAt(rows, i, hash, number, previous)
  }

  predicate LinkedAt<T, D(==)>(rows: seq<T>, i: nat, hash: T -> D, number: T -> nat, previous: T -> Option<D>)
    requires i < |rows|
  {
    && number(rows[i]) == i
    && previous(rows[i]) == if i == 0 then None else Some(hash(rows[i - 1]))
  }

  /** Appending an entry with the next number and the last digest keeps the chain linked. */
  lemma LinkedSnoc<T, D>(rows: seq<T>, x: T, hash: T -> D, number: T -> nat, previous: T -> Option<D>)
    requires Linked(rows, hash, number, previous)
    requires number(x) == |rows| && previous(x) == if rows == [] then None else Some(hash(rows[|rows| - 1]))
    ensures Linked(rows + [x], hash, number, previous)
  {
    var longer := rows + [x];
    forall i | 0 <= i < |longer|
      ensures LinkedAt(longer, i, hash, number, previous)
    {
      if i < |rows| {
        assert LinkedAt(rows, i, hash, number, previous);
      }
    }
  }

  /**
   Two linked histories that share one digest anywhere agree on everything up
   to it: the digest of the head fixes the whole history.
   */
  lemma {:induction false} SharedDigestFixesPast<T(!new), D(!new)>(
    a: seq<T>, i: nat, b: seq<T>, j: nat, hash: T -> D, number: T -> nat, previous: T -> Option<D>)
    requires Injective(hash) && Linked(a, hash, number, previous) && Linked(b, hash, number, previous)
    requires i < |a| && j < |b| && hash(a[i]) == hash(b[j])
    ensures i == j && a[..i + 1] == b[..j + 1]
  {
    assert LinkedAt(a, i, hash, number, previous) && LinkedAt(b, j, hash, number, previous);
    assert a[i] == b[j];
    if i > 0 {
      SharedDigestFixesPast(a, i - 1, b, j - 1, hash, number, previous);
      assert a[..i + 1] == a[..i] + [a[i]] && b[..j + 1] == b[..j] + [b[j]];
    }
  }
}
