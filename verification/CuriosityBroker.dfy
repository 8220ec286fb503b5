/**
 The request table of `phios/curiosity_authority_broker.py`: bounded, expiring,
 each approval claimed once under the lock and executed outside it. Times count
 microseconds.
 */
module CuriosityBroker {
  import opened Wrappers
  import opened Sequences
  import opened AuthorityEpoch
  import opened EnforcementProfile
  import opened ActionLease

  type Id = string

  const MAX_REQUESTS := 32
  const SECOND := 1_000_000
  const LEASE_TTL := 120 * SECOND
  const PROOF_MAX_AGE := 90 * SECOND
  const PROOF_MAX_AHEAD := 5 * SECOND

  datatype Status = Pending | Approved | Succeeded | Held | Failed | Lapsed

  datatype Item = Item(payload: Digest, requestedAt: int, expiresAt: int, status: Status)

  /** An operator approval: whether its HMAC verifies for this broker, and what it names. */
  datatype Proof = Proof(genuine: bool, id: Id, payload: Digest, principal: string, approvedAt: int)

  datatype Claim = Claim(id: Id, at: int)

  /**
   `items` holds every request object still referenced, from the table or from
   an approval in flight; `table` is the broker's dictionary in insertion
   order; `running` and `log` record the executions begun outside the lock.
   */
  datatype Board = Board(items: map<Id, Item>, table: seq<Id>, running: set<Id>, log: seq<Claim>)

  datatype Refusal = CapacityReached | BadProof | StaleProof | FutureProof | Unknown | NotPending | Mismatch | Expired

  // ------------------------------------------------------------ specification

  predicate Due(b: Board, id: Id, now: int) {
    id in b.items && id in b.table && b.items[id].status == Pending && now >= b.items[id].expiresAt
  }

  /** `_expire_locked`. */
  function Expire(b: Board, now: int): Board {
    b.(items := map id | id in b.items :: if Due(b, id, now) then b.items[id].(status := Lapsed) else b.items[id])
  }

  /** `min(..., key=requested_at)`: the earliest, first inserted among equals. */
  function Oldest(b: Board, ids: seq<Id>): (oldest: Id)
    requires ids != [] && forall id :: id in ids ==> id in b.items
    ensures oldest in ids
    ensures forall id :: id in ids ==> b.items[oldest].requestedAt <= b.items[id].requestedAt
  {
    var n := |ids| - 1;
    if n == 0 then ids[0]
    else
      assert ids == ids[..n] + [ids[n]];
      var best := Oldest(b, ids[..n]);
      if b.items[ids[n]].requestedAt < b.items[best].requestedAt then ids[n] else best
  }

  /** Everything listed before position `k` was requested later than the request there. */
  ghost predicate EarlierIn(b: Board, ids: seq<Id>, k: nat)
    requires k < |ids| && forall id :: id in ids ==> id in b.items
  {
    forall j :: 0 <= j < k ==> b.items[ids[k]].requestedAt < b.items[ids[j]].requestedAt
  }

  /** Among requests of one moment the first listed is taken. */
  lemma {:induction false} OldestIsFirst(b: Board, ids: seq<Id>)
    requires ids != [] && forall id :: id in ids ==> id in b.items
    ensures exists k :: 0 <= k < |ids| && ids[k] == Oldest(b, ids) && EarlierIn(b, ids, k)
  {
    var n := |ids| - 1;
    if n > 0 {
      assert ids == ids[..n] + [ids[n]];
      OldestIsFirst(b, ids[..n]);
      var k :| 0 <= k < n && ids[..n][k] == Oldest(b, ids[..n]) && EarlierIn(b, ids[..n], k);
      assert EarlierIn(b, ids, k);
      if b.items[ids[n]].requestedAt < b.items[Oldest(b, ids[..n])].requestedAt {
        assert forall j :: 0 <= j < n ==> ids[..n][j] in ids[..n];
        assert EarlierIn(b, ids, n);
      }
    } else {
      assert EarlierIn(b, ids, 0);
    }
  }

  ghost predicate Indexed(b: Board) {
    forall id :: id in b.table ==> id in b.items
  }

  /** `create_request` under the lock; a refusal keeps the expiries it applied. */
  ghost function Create(b: Board, id: Id, payload: Digest, now: int, ttl: int): (Board, Option<Refusal>)
    requires Indexed(b)
  {
    var e := Expire(b, now);
    var item := Item(payload, now, now + ttl, Pending);
    if |e.table| < MAX_REQUESTS then (e.(items := e.items[id := item], table := e.table + [id]), None)
    else
      var oldest := Oldest(e, e.table);
      if e.items[oldest].status == Pending then (e, Some(CapacityReached))
      else (e.(items := e.items[id := item], table := Without(e.table, oldest) + [id]), None)
  }

  /** The checks of `approve` before it takes the lock. */
  function ProofRefusal(proof: Proof, now: int): Option<Refusal> {
    if !proof.genuine then Some(BadProof)
    else if proof.approvedAt > now + PROOF_MAX_AHEAD then Some(FutureProof)
    else if now - proof.approvedAt > PROOF_MAX_AGE then Some(StaleProof)
    else None
  }

  /** The locked part of `approve`: the request is claimed and its execution begins. */
  function Approve(b: Board, proof: Proof, principal: string, now: int): (Board, Option<Refusal>) {
    if ProofRefusal(proof, now).Some? then (b, ProofRefusal(proof, now))
    else
      var e := Expire(b, now);
      if proof.id !in e.table || proof.id !in e.items then (e, Some(Unknown))
      else
        var item := e.items[proof.id];
        if item.status != Pending then (e, Some(NotPending))
        else if proof.payload != item.payload || proof.principal != principal then (e, Some(Mismatch))
        else
          (e.(items := e.items[proof.id := item.(status := Approved)], running := e.running + {proof.id},
              log := e.log + [Claim(proof.id, now)]), None)
  }

  /** What an execution outside the lock ends in. */
  datatype Outcome = Done | NotDone | Raised

  function Final(outcome: Outcome): Status {
    match outcome case Done => Succeeded case NotDone => Held case Raised => Failed
  }

  /** The second locked part of `approve`: the claimed object, wherever it is, takes its final status. */
  function Finish(b: Board, id: Id, outcome: Outcome): Board {
    if id in b.running && id in b.items then
      b.(items := b.items[id := b.items[id].(status := Final(outcome))], running := b.running - {id})
    else b
  }

  // ------------------------------------------------------------ what a claim means to a caller

  /** A proof that verifies, dated at most ninety seconds ago and at most five ahead. */
  predicate Fresh(proof: Proof, now: int) {
    proof.genuine && now - 90 * SECOND <= proof.approvedAt <= now + 5 * SECOND
  }

  /** The request the proof names is listed, pending and not expired. */
  predicate Claimable(b: Board, proof: Proof, now: int) {
    && proof.id in b.table && proof.id in b.items
    && b.items[proof.id].status == Pending && now < b.items[proof.id].expiresAt
  }

  /** The operator approved this payload, as the broker's own principal. */
  predicate Covers(b: Board, proof: Proof, principal: string)
    requires proof.id in b.items
  {
    proof.payload == b.items[proof.id].payload && proof.principal == principal
  }

  /** A claim is made exactly on a fresh proof that covers a claimable request; each refusal says what is missing. */
  ghost predicate ClaimSays(b: Board, proof: Proof, principal: string, now: int, refusal: Option<Refusal>) {
    && (refusal.None? <==> Fresh(proof, now) && Claimable(b, proof, now) && Covers(b, proof, principal))
    && (refusal == Some(BadProof) <==> !proof.genuine)
    && (refusal == Some(FutureProof) <==> proof.genuine && proof.approvedAt > now + 5 * SECOND)
    && (refusal == Some(StaleProof) <==> proof.genuine && proof.approvedAt < now - 90 * SECOND)
    && (refusal == Some(Unknown) <==> Fresh(proof, now) && proof.id !in b.table)
    && (refusal == Some(NotPending) <==> Fresh(proof, now) && proof.id in b.table && !Claimable(b, proof, now))
    && (refusal == Some(Mismatch) <==> Fresh(proof, now) && Claimable(b, proof, now) && !Covers(b, proof, principal))
  }

  /** What a claim changes: the request is approved, running and logged, and what was due has lapsed. */
  ghost predicate ClaimChanges(b: Board, after: Board, proof: Proof, now: int) {
    && proof.id in b.items && after.table == b.table
    && after.running == b.running + {proof.id} && after.log == b.log + [Claim(proof.id, now)]
    && after.items.Keys == b.items.Keys && after.items[proof.id] == b.items[proof.id].(status := Approved)
    && forall id :: id in b.items && id != proof.id ==>
         after.items[id] == if Due(b, id, now) then b.items[id].(status := Lapsed) else b.items[id]
  }

  lemma ClaimIsSaid(b: Board, proof: Proof, principal: string, now: int)
    requires Indexed(b)
    ensures ClaimSays(b, proof, principal, now, Approve(b, proof, principal, now).1)
    ensures Approve(b, proof, principal, now).1.None? ==>
      ClaimChanges(b, Approve(b, proof, principal, now).0, proof, now)
  {
  }

  // ------------------------------------------------------------ the broker

  class Broker {
    const principal: string
    const ttl: int
    var items: map<Id, Item>
    var table: seq<Id>
    var running: set<Id>
    ghost var log: seq<Claim>

    constructor (principal: string, ttl: int)
      requires 60 * SECOND <= ttl <= 3600 * SECOND
      ensures State() == EMPTY && this.principal == principal && this.ttl == ttl
    {
      this.principal, this.ttl := principal, ttl;
      items, table, running, log := map[], [], {}, [];
    }

    ghost function State(): Board
      reads this
    {
      Board(items, table, running, log)
    }

    ghost predicate Valid()
      reads this
    {
      NoDup(table) && Indexed(State())
    }

    /** `_expire_locked`: one pass over the table. */
    method ExpireLocked(now: int)
      requires Valid()
      modifies this`items
      ensures State() == Expire(old(State()), now) && Valid()
    {
      ghost var before := State();
      var k := 0;
      while k < |table|
        invariant k <= |table| && items.Keys == before.items.Keys
        invariant forall id :: id in items ==> items[id] == ExpiredUpTo(before, k, id, now)
      {
        var id := table[k];
        assert id in table && id !in table[..k];
        if items[id].status == Pending && now >= items[id].expiresAt {
          items := items[id := items[id].(status := Lapsed)];
        }
        assert table[..k + 1] == table[..k] + [id];
        k := k + 1;
      }
      assert table[..k] == table;
      assert items == Expire(before, now).items;
    }

    /** `create_request`. The random id is fresh. */
    method CreateRequest(id: Id, payload: Digest, now: int) returns (refusal: Option<Refusal>)
      requires Valid() && id !in items
      modifies this
      ensures (State(), refusal) == Create(old(State()), id, payload, now, ttl) && Valid()
    {
      ExpireLocked(now);
      var item := Item(payload, now, now + ttl, Pending);
      if |table| >= MAX_REQUESTS {
        var oldest := Oldest(Board(items, table, running, []), table);
        SameOldest(Board(items, table, running, []), State(), table);
        if items[oldest].status == Pending {
          return Some(CapacityReached);
        }
        WithoutElems(table, oldest);
        table := Without(table, oldest);
      }
      NoDupSnoc(table, id);
      items := items[id := item];
      table := table + [id];
      refusal := None;
    }

    /** `get_request`. */
    method GetRequest(id: Id, now: int) returns (item: Option<Item>)
      requires Valid()
      modifies this`items
      ensures State() == Expire(old(State()), now) && Valid()
      ensures item == if id in table then Some(items[id]) else None
      ensures item.Some? && item.value.status == Pending ==> now < item.value.expiresAt
    {
      ExpireLocked(now);
      NotDueAfter(old(State()), now);
      item := if id in table then Some(items[id]) else None;
    }

    /** `approve` up to the claim. The expiry check it repeats under the lock can never fire. */
    method ClaimRequest(proof: Proof, now: int) returns (refusal: Option<Refusal>)
      requires Valid()
      modifies this
      ensures (State(), refusal) == Approve(old(State()), proof, principal, now) && Valid()
      ensures ClaimSays(old(State()), proof, principal, now, refusal)
      ensures refusal.None? ==> ClaimChanges(old(State()), State(), proof, now)
    {
      hide ClaimSays, ClaimChanges;
      ClaimIsSaid(State(), proof, principal, now);
      var refused := ProofRefusal(proof, now);
      if refused.Some? {
        return refused;
      }
      ExpireLocked(now);
      NotDueAfter(old(State()), now);
      if proof.id !in table {
        return Some(Unknown);
      }
      var item := items[proof.id];
      if item.status != Pending {
        return Some(NotPending);
      }
      if proof.payload != item.payload || proof.principal != principal {
        return Some(Mismatch);
      }
      assert now < item.expiresAt;
      items := items[proof.id := item.(status := Approved)];
      running := running + {proof.id};
      log := log + [Claim(proof.id, now)];
      refusal := None;
    }

    /** `approve` after the execution returned or raised. */
    method FinishRequest(id: Id, outcome: Outcome)
      requires Valid() && id in running && id in items
      modifies this
      ensures State() == Finish(old(State()), id, outcome) && Valid()
      ensures items == old(items)[id := old(items)[id].(status := items[id].status)] && id !in running
      ensures items[id].status == match outcome case Done => Succeeded case NotDone => Held case Raised => Failed
    {
      items := items[id := items[id].(status := Final(outcome))];
      running := running - {id};
    }
  }

  ghost function ExpiredUpTo(b: Board, k: nat, id: Id, now: int): Item
    requires k <= |b.table| && id in b.items
  {
    if id in b.table[..k] && Due(b, id, now) then b.items[id].(status := Lapsed) else b.items[id]
  }

  lemma SameOldest(a: Board, b: Board, ids: seq<Id>)
    requires a.items == b.items && ids != [] && forall id :: id in ids ==> id in a.items
    ensures Oldest(a, ids) == Oldest(b, ids)
  {
    var n := |ids| - 1;
    if n > 0 {
      assert ids == ids[..n] + [ids[n]];
      SameOldest(a, b, ids[..n]);
    }
  }

  /** After an expiry pass no request in the table is both pending and past its time. */
  lemma NotDueAfter(b: Board, now: int)
    ensures forall id :: !Due(Expire(b, now), id, now)
  {
  }

  // ------------------------------------------------------------ every interleaving

  datatype Op =
    | CreateOp(id: Id, payload: Digest, now: int)
    | GetOp(now: int)
    | ApproveOp(proof: Proof, now: int)
    | FinishOp(id: Id, outcome: Outcome)

  const EMPTY := Board(map[], [], {}, [])

  ghost function After(b: Board, op: Op, principal: string, ttl: int): Board
    requires Indexed(b)
  {
    match op
    case CreateOp(id, payload, now) => if id in b.items then b else Create(b, id, payload, now, ttl).0
    case GetOp(now) => Expire(b, now)
    case ApproveOp(proof, now) => Approve(b, proof, principal, now).0
    case FinishOp(id, outcome) => Finish(b, id, outcome)
  }

  /** The lifecycle of every request ever created, whatever the threads and clocks do. */
  ghost predicate Lifecycle(b: Board) {
    && Indexed(b) && NoDup(b.table) && |b.table| <= MAX_REQUESTS
    && (forall id :: id in b.items && b.items[id].status == Pending ==> id in b.table)
    && (forall id :: id in b.running ==> id in b.items && b.items[id].status == Approved)
    && (forall id :: id in b.items && b.items[id].status == Approved ==> id in b.running)
    && (forall i, j :: 0 <= i < j < |b.log| ==> b.log[i].id != b.log[j].id)
    && (forall i :: 0 <= i < |b.log| ==> LoggedInTime(b, b.log[i]))
    && (forall id :: id in b.items && Executed(b.items[id].status) ==> Logged(b, id))
  }

  /** A claim made before its request's expiry, on a request that has left the pending state for good. */
  ghost predicate LoggedInTime(b: Board, c: Claim) {
    c.id in b.items && c.at < b.items[c.id].expiresAt && Executed(b.items[c.id].status)
  }

  predicate Executed(s: Status) {
    s == Approved || s == Succeeded || s == Held || s == Failed
  }

  ghost predicate Logged(b: Board, id: Id) {
    exists i :: 0 <= i < |b.log| && b.log[i].id == id
  }

  predicate Terminal(s: Status) {
    s == Succeeded || s == Held || s == Failed || s == Lapsed
  }

  /** A pending request may be claimed or lapse, a claimed one finishes, a terminal one never changes. */
  predicate MayBecome(s: Status, t: Status) {
    s == t || s == Pending || (s == Approved && Executed(t))
  }

  /** What any number of steps may do to the requests that exist before them. */
  ghost predicate Advances(b: Board, after: Board) {
    && b.log <= after.log
    && forall id :: id in b.items ==>
         && id in after.items
         && MayBecome(b.items[id].status, after.items[id].status)
         && after.items[id].(status := Pending) == b.items[id].(status := Pending)
  }

  lemma ExpireKeeps(b: Board, now: int)
    requires Lifecycle(b)
    ensures Lifecycle(Expire(b, now)) && Advances(b, Expire(b, now))
  {
    var e := Expire(b, now);
    forall id | id in e.items && Executed(e.items[id].status)
      ensures Logged(e, id)
    {
      assert Logged(b, id);
    }
    forall i | 0 <= i < |e.log|
      ensures LoggedInTime(e, e.log[i])
    {
      assert LoggedInTime(b, b.log[i]);
    }
  }

  lemma CreateKeeps(b: Board, id: Id, payload: Digest, now: int, ttl: int)
    requires Lifecycle(b) && id !in b.items
    ensures var after := Create(b, id, payload, now, ttl).0; Lifecycle(after) && Advances(b, after)
  {
    hide Lifecycle, Expire, Oldest, Advances;
    ExpireKeeps(b, now);
    var e := Expire(b, now);
    ExpireKeys(b, now);
    LifecycleIndexed(e);
    if |e.table| < MAX_REQUESTS {
      InsertKeeps(e, e.table, id, payload, now, ttl);
      AdvanceByInsert(b, e, Create(b, id, payload, now, ttl).0, id);
    } else {
      var oldest := Oldest(e, e.table);
      if e.items[oldest].status != Pending {
        WithoutElems(e.table, oldest);
        WithoutWeight(e.table, oldest, (x: Id) => 0);
        InsertKeeps(e, Without(e.table, oldest), id, payload, now, ttl);
        AdvanceByInsert(b, e, Create(b, id, payload, now, ttl).0, id);
      }
    }
  }

  lemma LifecycleIndexed(b: Board)
    requires Lifecycle(b)
    ensures Indexed(b) && NoDup(b.table) && |b.table| <= MAX_REQUESTS
  {
  }

  lemma ExpireKeys(b: Board, now: int)
    ensures Expire(b, now).items.Keys == b.items.Keys && Expire(b, now).table == b.table
    ensures Expire(b, now).log == b.log && Expire(b, now).running == b.running
  {
  }

  lemma AdvanceByInsert(b: Board, e: Board, after: Board, id: Id)
    requires Advances(b, e) && id !in b.items && after.log == e.log
    requires forall x :: x in e.items && x != id ==> x in after.items && after.items[x] == e.items[x]
    ensures Advances(b, after)
  {
  }

  /** Inserting a fresh pending request after dropping table entries that are not pending. */
  lemma InsertKeeps(e: Board, kept: seq<Id>, id: Id, payload: Digest, now: int, ttl: int)
    requires Lifecycle(e) && id !in e.items && NoDup(kept) && |kept| < MAX_REQUESTS
    requires forall x :: x in kept ==> x in e.table
    requires forall x :: x in e.table && e.items[x].status == Pending ==> x in kept
    ensures Lifecycle(e.(items := e.items[id := Item(payload, now, now + ttl, Pending)], table := kept + [id]))
  {
    var after := e.(items := e.items[id := Item(payload, now, now + ttl, Pending)], table := kept + [id]);
    NoDupSnoc(kept, id);
    forall x | x in after.items && Executed(after.items[x].status)
      ensures Logged(after, x)
    {
      assert Logged(e, x);
    }
    forall i | 0 <= i < |after.log|
      ensures LoggedInTime(after, after.log[i])
    {
      assert LoggedInTime(e, e.log[i]);
    }
  }

  lemma ApproveKeeps(b: Board, proof: Proof, principal: string, now: int)
    requires Lifecycle(b)
    ensures var after := Approve(b, proof, principal, now).0; Lifecycle(after) && Advances(b, after)
  {
    var e := Expire(b, now);
    ExpireKeeps(b, now);
    ExpireKeys(b, now);
    NotDueAfter(b, now);
    hide Lifecycle, Expire, Advances;
    if Approve(b, proof, principal, now).1.None? {
      assert !Due(e, proof.id, now);
      ClaimKeeps(e, proof.id, now);
      AdvanceTransitive(b, e, Approve(b, proof, principal, now).0);
    } else {
      NoStep(b);
    }
  }

  lemma NoStep(b: Board)
    ensures Advances(b, b)
  {
  }

  lemma AdvanceTransitive(a: Board, b: Board, c: Board)
    requires Advances(a, b) && Advances(b, c)
    ensures Advances(a, c)
  {
  }

  lemma ClaimKeeps(e: Board, id: Id, now: int)
    requires Lifecycle(e) && id in e.table && id in e.items && e.items[id].status == Pending && now < e.items[id].expiresAt
    ensures var after := e.(items := e.items[id := e.items[id].(status := Approved)], running := e.running + {id},
                            log := e.log + [Claim(id, now)]);
      Lifecycle(after) && Advances(e, after)
  {
    var after := e.(items := e.items[id := e.items[id].(status := Approved)], running := e.running + {id},
                    log := e.log + [Claim(id, now)]);
    forall i | 0 <= i < |after.log|
      ensures LoggedInTime(after, after.log[i])
    {
      if i < |e.log| {
        assert LoggedInTime(e, e.log[i]);
      }
    }
    forall x | x in after.items && Executed(after.items[x].status)
      ensures Logged(after, x)
    {
      if x == id {
        assert after.log[|e.log|].id == x;
      } else {
        assert Logged(e, x);
        var i :| 0 <= i < |e.log| && e.log[i].id == x;
        assert after.log[i].id == x;
      }
    }
  }

  lemma FinishKeeps(b: Board, id: Id, outcome: Outcome)
    requires Lifecycle(b)
    ensures Lifecycle(Finish(b, id, outcome)) && Advances(b, Finish(b, id, outcome))
  {
    if id in b.running && id in b.items {
      SettleKeeps(b, id, Final(outcome));
    }
  }

  lemma SettleKeeps(b: Board, id: Id, status: Status)
    requires Lifecycle(b) && id in b.running && id in b.items && Executed(status) && status != Approved
    ensures var after := b.(items := b.items[id := b.items[id].(status := status)], running := b.running - {id});
      Lifecycle(after) && Advances(b, after)
  {
    var after := b.(items := b.items[id := b.items[id].(status := status)], running := b.running - {id});
    forall i | 0 <= i < |after.log|
      ensures LoggedInTime(after, after.log[i])
    {
      assert LoggedInTime(b, b.log[i]);
    }
    forall x | x in after.items && Executed(after.items[x].status)
      ensures Logged(after, x)
    {
      assert Logged(b, x);
    }
  }

  lemma StepKeepsLifecycle(b: Board, op: Op, principal: string, ttl: int)
    requires Lifecycle(b)
    ensures Lifecycle(After(b, op, principal, ttl)) && Advances(b, After(b, op, principal, ttl))
  {
    hide Lifecycle, Advances, Expire, Create, Approve, Finish;
    LifecycleIndexed(b);
    match op
    case CreateOp(id, payload, now) => {
      if id in b.items {
        NoStep(b);
      } else {
        CreateKeeps(b, id, payload, now, ttl);
      }
    }
    case GetOp(now) => ExpireKeeps(b, now);
    case ApproveOp(proof, now) => ApproveKeeps(b, proof, principal, now);
    case FinishOp(id, outcome) => FinishKeeps(b, id, outcome);
  }

  /**
   The board after any interleaving of creations, reads, claims and
   completions: at most 32 requests listed, none pending outside the table,
   each claimed at most once and only before its expiry.
   */
  ghost function Run(ops: seq<Op>, principal: string, ttl: int): (b: Board)
    ensures Lifecycle(b)
  {
    if ops == [] then EMPTY
    else
      var before := Run(ops[..|ops| - 1], principal, ttl);
      StepKeepsLifecycle(before, ops[|ops| - 1], principal, ttl);
      After(before, ops[|ops| - 1], principal, ttl)
  }

  /** Nothing a later step does rewrites the claims already made, a request's terms, or a terminal status. */
  lemma {:induction false} RunAdvances(ops: seq<Op>, k: nat, principal: string, ttl: int)
    requires k <= |ops|
    ensures Advances(Run(ops[..k], principal, ttl), Run(ops, principal, ttl))
    ensures KeepsTerminal(Run(ops[..k], principal, ttl), Run(ops, principal, ttl))
  {
    hide Lifecycle, After;
    if k == |ops| {
      assert ops[..k] == ops;
      NoStep(Run(ops, principal, ttl));
    } else {
      var n := |ops| - 1;
      assert ops[..n][..k] == ops[..k];
      RunAdvances(ops[..n], k, principal, ttl);
      StepKeepsLifecycle(Run(ops[..n], principal, ttl), ops[n], principal, ttl);
      AdvanceTransitive(Run(ops[..k], principal, ttl), Run(ops[..n], principal, ttl), Run(ops, principal, ttl));
    }
    TermsStay(Run(ops[..k], principal, ttl), Run(ops, principal, ttl));
  }

  ghost predicate KeepsTerminal(a: Board, b: Board) {
    forall id :: id in a.items && Terminal(a.items[id].status) ==> id in b.items && b.items[id] == a.items[id]
  }

  lemma TermsStay(a: Board, b: Board)
    requires Advances(a, b)
    ensures KeepsTerminal(a, b)
  {
    forall id | id in a.items && Terminal(a.items[id].status)
      ensures b.items[id] == a.items[id]
    {
      var x, y := a.items[id].(status := Pending), b.items[id].(status := Pending);
      assert x.payload == y.payload && x.requestedAt == y.requestedAt && x.expiresAt == y.expiresAt;
    }
  }

  /**
   Creation is refused exactly when the table is full and its oldest entry is
   still pending after expiry; otherwise that entry alone leaves, if room is needed.
   */
  lemma CreateRefusedIff(b: Board, id: Id, payload: Digest, now: int, ttl: int)
    requires Lifecycle(b) && id !in b.items
    ensures var e := Expire(b, now); var (after, refusal) := Create(b, id, payload, now, ttl);
      && (refusal.Some? <==> |e.table| >= MAX_REQUESTS && e.items[Oldest(e, e.table)].status == Pending)
      && (refusal.Some? ==> after == e)
      && (refusal.None? ==> id in after.table && forall x :: x in b.table ==>
            (x in after.table <==> |b.table| < MAX_REQUESTS || x != Oldest(e, e.table)))
  {
    var e := Expire(b, now);
    if |e.table| >= MAX_REQUESTS {
      WithoutElems(e.table, Oldest(e, e.table));
    }
  }

  /**
   An approval in flight does not hold its place: when its request is the
   oldest in a full table the next creation drops it, and only the object the
   execution still holds records how it ended.
   */
  lemma ApprovedMayLeave(b: Board, id: Id, payload: Digest, now: int, ttl: int, outcome: Outcome)
    requires Lifecycle(b) && |b.table| == MAX_REQUESTS && id !in b.items
    requires b.items[Oldest(Expire(b, now), b.table)].status == Approved
    ensures var gone := Oldest(Expire(b, now), b.table); var after := Create(b, id, payload, now, ttl).0;
      && gone in b.table && gone !in after.table && gone in after.running && id in after.table
      && gone !in Finish(after, gone, outcome).table
      && gone in Finish(after, gone, outcome).items
      && Finish(after, gone, outcome).items[gone].status == Final(outcome)
  {
    var e := Expire(b, now);
    WithoutElems(e.table, Oldest(e, e.table));
  }

  /** The claim rests on an approval the broker was given: genuine, fresh, and of just this payload. */
  ghost predicate ApprovedBy(op: Op, c: Claim, payload: Digest, principal: string) {
    && op.ApproveOp? && op.proof.id == c.id && op.now == c.at && Fresh(op.proof, op.now)
    && op.proof.payload == payload && op.proof.principal == principal
  }

  /** Nothing is executed that no operator approved: every claim of every run was brought about by such an approval. */
  lemma {:induction false} ClaimsAreApproved(ops: seq<Op>, principal: string, ttl: int, i: nat)
    requires i < |Run(ops, principal, ttl).log|
    ensures var b := Run(ops, principal, ttl);
      b.log[i].id in b.items
      && exists k :: 0 <= k < |ops| && ApprovedBy(ops[k], b.log[i], b.items[b.log[i].id].payload, principal)
  {
    hide Approve, Create, Expire, Finish;
    var n := |ops| - 1;
    var before, b := Run(ops[..n], principal, ttl), Run(ops, principal, ttl);
    StepKeepsLifecycle(before, ops[n], principal, ttl);
    assert LoggedInTime(b, b.log[i]);
    if i < |before.log| {
      ClaimsAreApproved(ops[..n], principal, ttl, i);
      var k :| 0 <= k < n && ApprovedBy(ops[..n][k], before.log[i], before.items[before.log[i].id].payload, principal);
      TermsKept(before, b, b.log[i].id);
      assert ApprovedBy(ops[k], b.log[i], b.items[b.log[i].id].payload, principal);
    } else {
      LogGrows(before, ops[n], principal, ttl);
      assert ApprovedBy(ops[n], b.log[i], b.items[b.log[i].id].payload, principal);
    }
  }

  lemma TermsKept(a: Board, b: Board, id: Id)
    requires Advances(a, b) && id in a.items
    ensures id in b.items && b.items[id].payload == a.items[id].payload
  {
    assert b.items[id].(status := Pending).payload == a.items[id].(status := Pending).payload;
  }

  /** Only an approval that covers its request adds to the log, and it adds one claim. */
  lemma LogGrows(b: Board, op: Op, principal: string, ttl: int)
    requires Indexed(b)
    ensures var after := After(b, op, principal, ttl);
      after.log == b.log
      || (&& op.ApproveOp? && after.log == b.log + [Claim(op.proof.id, op.now)] && op.proof.id in after.items
          && ApprovedBy(op, Claim(op.proof.id, op.now), after.items[op.proof.id].payload, principal))
  {
    if op.ApproveOp? {
      ClaimIsSaid(b, op.proof, principal, op.now);
    }
  }

  /** A different id for every number. */
  function Name(n: nat): Id {
    seq(n, _ => 'r')
  }

  /** `n` creations, one each microsecond. */
  function Filling(n: nat, payload: Digest): seq<Op> {
    seq(n, i requires 0 <= i < n => CreateOp(Name(i), payload, i))
  }

  /** The board those creations leave: every request listed, in order, and pending. */
  ghost predicate Filled(b: Board, n: nat, payload: Digest, ttl: int) {
    && b.log == [] && b.running == {} && |b.table| == n
    && (forall id :: id in b.items <==> |id| < n && id == Name(|id|))
    && (forall i :: 0 <= i < n ==> b.table[i] == Name(i))
    && (forall i: nat :: i < n ==> Name(i) in b.items && b.items[Name(i)] == Item(payload, i, i + ttl, Pending))
  }

  lemma RunSnoc(ops: seq<Op>, op: Op, principal: string, ttl: int)
    ensures Run(ops + [op], principal, ttl) == After(Run(ops, principal, ttl), op, principal, ttl)
  {
    hide Lifecycle, After;
    assert (ops + [op])[..|ops|] == ops;
  }

  lemma RunEmpty(principal: string, ttl: int)
    ensures Run([], principal, ttl) == EMPTY
  {
  }

  lemma {:induction false} FillingFills(n: nat, payload: Digest, principal: string, ttl: int)
    requires n <= MAX_REQUESTS && 60 * SECOND <= ttl
    ensures Filled(Run(Filling(n, payload), principal, ttl), n, payload, ttl)
  {
    if n == 0 {
      RunEmpty(principal, ttl);
      assert Filling(0, payload) == [];
    } else {
      hide *;
      FillingFills(n - 1, payload, principal, ttl);
      FillStep(n, payload, principal, ttl);
    }
  }

  lemma FillStep(n: nat, payload: Digest, principal: string, ttl: int)
    requires 0 < n <= MAX_REQUESTS && 60 * SECOND <= ttl
    requires Filled(Run(Filling(n - 1, payload), principal, ttl), n - 1, payload, ttl)
    ensures Filled(Run(Filling(n, payload), principal, ttl), n, payload, ttl)
  {
    hide Run, Lifecycle, Filled, Expire, Create, Name;
    var last := CreateOp(Name(n - 1), payload, n - 1);
    assert Filling(n, payload) == Filling(n - 1, payload) + [last];
    RunSnoc(Filling(n - 1, payload), last, principal, ttl);
    var b := Run(Filling(n - 1, payload), principal, ttl);
    LifecycleIndexed(b);
    NothingDue(b, n - 1, payload, ttl, n - 1);
    FillOne(b, n - 1, payload, ttl);
  }

  lemma NothingDue(b: Board, n: nat, payload: Digest, ttl: int, now: int)
    requires Filled(b, n, payload, ttl) && now < ttl
    ensures Expire(b, now) == b
  {
    forall id | id in b.items
      ensures !Due(b, id, now)
    {
      assert b.items[Name(|id|)] == Item(payload, |id|, |id| + ttl, Pending);
    }
    assert Expire(b, now).items == b.items;
  }

  lemma FillOne(b: Board, n: nat, payload: Digest, ttl: int)
    requires n < MAX_REQUESTS && Indexed(b) && Filled(b, n, payload, ttl) && Expire(b, n) == b
    ensures Name(n) !in b.items && Filled(Create(b, Name(n), payload, n, ttl).0, n + 1, payload, ttl)
  {
    assert |Name(n)| == n;
    hide Expire, Oldest, Name;
    var after := Create(b, Name(n), payload, n, ttl).0;
    assert after == b.(items := b.items[Name(n) := Item(payload, n, n + ttl, Pending)], table := b.table + [Name(n)]);
    hide Create;
    NamesDiffer(n);
  }

  lemma NamesDiffer(n: nat)
    ensures forall i: nat :: i != n ==> Name(i) != Name(n)
    ensures forall i: nat :: |Name(i)| == i
  {
  }

  /**
   Such a run exists for every broker: fill the table, approve the first
   request, create one more, and let the execution end. The approved request
   has left the table while its execution still runs, and its outcome is kept
   on the object alone.
   */
  lemma ApprovedLeavesOnSomeRun(payload: Digest, principal: string, ttl: int, outcome: Outcome)
    requires 60 * SECOND <= ttl
    ensures var full := Filling(MAX_REQUESTS, payload);
            var approve := ApproveOp(Proof(true, Name(0), payload, principal, MAX_REQUESTS), MAX_REQUESTS);
            var next := CreateOp(Name(MAX_REQUESTS), payload, MAX_REQUESTS + 1);
            var claimed := Run(full + [approve], principal, ttl);
            var left := Run(full + [approve] + [next], principal, ttl);
            var ended := Run(full + [approve] + [next] + [FinishOp(Name(0), outcome)], principal, ttl);
      && Name(0) in claimed.table && Name(0) in claimed.items && claimed.items[Name(0)].status == Approved
      && Name(0) !in left.table && Name(0) in left.running && Name(MAX_REQUESTS) in left.table
      && Name(0) !in ended.table && Name(0) in ended.items && ended.items[Name(0)].status == Final(outcome)
  {
    hide Run, Lifecycle, Filled, Expire, Create, Finish, Approve, Oldest, Name;
    var full := Filling(MAX_REQUESTS, payload);
    var approve := ApproveOp(Proof(true, Name(0), payload, principal, MAX_REQUESTS), MAX_REQUESTS);
    var next := CreateOp(Name(MAX_REQUESTS), payload, MAX_REQUESTS + 1);
    RunSnoc(full, approve, principal, ttl);
    RunSnoc(full + [approve], next, principal, ttl);
    RunSnoc(full + [approve] + [next], FinishOp(Name(0), outcome), principal, ttl);
    FillingFills(MAX_REQUESTS, payload, principal, ttl);
    var b, claimed := Run(full, principal, ttl), Run(full + [approve], principal, ttl);
    LifecycleIndexed(claimed);
    NothingDue(b, MAX_REQUESTS, payload, ttl, MAX_REQUESTS);
    FirstClaimed(b, payload, principal, ttl);
    FirstIsOldest(b, claimed, payload, ttl);
    ApprovedMayLeave(claimed, Name(MAX_REQUESTS), payload, MAX_REQUESTS + 1, ttl, outcome);
  }

  lemma FirstClaimed(b: Board, payload: Digest, principal: string, ttl: int)
    requires Filled(b, MAX_REQUESTS, payload, ttl) && Expire(b, MAX_REQUESTS) == b
    ensures Approve(b, Proof(true, Name(0), payload, principal, MAX_REQUESTS), principal, MAX_REQUESTS).0
         == Board(b.items[Name(0) := Item(payload, 0, ttl, Approved)], b.table, {Name(0)}, [Claim(Name(0), MAX_REQUESTS)])
  {
    assert b.table[0] == Name(0);
  }

  lemma FirstIsOldest(b: Board, claimed: Board, payload: Digest, ttl: int)
    requires Filled(b, MAX_REQUESTS, payload, ttl) && claimed.table == b.table && 60 * SECOND <= ttl
    requires claimed.items == b.items[Name(0) := Item(payload, 0, ttl, Approved)]
    ensures Expire(claimed, MAX_REQUESTS + 1) == claimed && Indexed(claimed) && |claimed.table| == MAX_REQUESTS
    ensures Oldest(claimed, claimed.table) == Name(0) && Name(MAX_REQUESTS) !in claimed.items
    ensures Name(0) in claimed.table && claimed.items[Name(0)].status == Approved
  {
    forall id | id in claimed.items
      ensures !Due(claimed, id, MAX_REQUESTS + 1) && (claimed.items[id].requestedAt <= 0 ==> id == Name(0))
    {
      assert b.items[Name(|id|)] == Item(payload, |id|, |id| + ttl, Pending);
    }
    assert Expire(claimed, MAX_REQUESTS + 1).items == claimed.items;
    assert claimed.table[0] == Name(0) && |Name(MAX_REQUESTS)| == MAX_REQUESTS;
    var oldest := Oldest(claimed, claimed.table);
    assert claimed.items[oldest].requestedAt <= claimed.items[Name(0)].requestedAt;
  }

  // ------------------------------------------------------------ the lease behind one execution

  const PERMISSION: Permission := "curiosity.write"
  const BROKER_ID := "phios.curiosity-authority-broker.local.v0.5"
  const PERSIST_EFFECTS: set<Effect> := {"filesystem.change"}

  function ApprovalEvent(id: Id, approvedAt: int): Event {
    Event("approval:" + id, 1, Grant, PERMISSION, approvedAt, Some(approvedAt + LEASE_TTL))
  }

  /** The epoch built from one approval grants exactly the permission until the lease's own end. */
  lemma ApprovalEpoch(epoch: Epoch, id: Id, principal: string, policy: Digest, approvedAt: int)
    requires Describes(epoch, principal, policy, {PERMISSION}, [ApprovalEvent(id, approvedAt)], approvedAt)
    ensures epoch.grants == {PERMISSION} && epoch.next == Some(approvedAt + LEASE_TTL)
  {
    var e := ApprovalEvent(id, approvedAt);
    var events := [e];
    assert e in events && Governs(events, e, approvedAt) && Live(e, approvedAt);
    assert e.id in ActiveAt(events, approvedAt);
    assert Candidate(events, approvedAt, ActiveAt(events, approvedAt), approvedAt + LEASE_TTL);
    assert forall f :: f in events ==> f == e;
  }

  /**
   The lease part of `_execute`: for an intent to change files, one enforced
   rule and the permission just granted, building the epoch, the profile and
   the lease never fails.
   */
  method LeaseFor(h: LeaseHashes, id: Id, principal: string, policy: Digest, authorization: Digest, intent: Intent,
                  approvedAt: int) returns (lease: Lease, epoch: Epoch)
    requires intent.effects == PERSIST_EFFECTS
    ensures lease.Valid() && WithinEpoch(lease, epoch) && lease.epoch == h.epoch(epoch)
    ensures Describes(epoch, principal, policy, {PERMISSION}, [ApprovalEvent(id, approvedAt)], approvedAt)
    ensures lease.permissions == {PERMISSION} && lease.validFrom == approvedAt
    ensures lease.validUntil == approvedAt + LEASE_TTL
  {
    hide Profile.MappingComplete, Profile.WithoutEnforced, Describes;
    var built := AuthorityEpoch.Build(principal, policy, {PERMISSION}, [ApprovalEvent(id, approvedAt)], approvedAt);
    assert built.Success?;
    epoch := built.value;
    ApprovalEpoch(epoch, id, principal, policy, approvedAt);
    var rule := Rule("curiosity-store-append-boundary", PERSIST_EFFECTS, Enforced);
    var profile := BuildProfile(h.intent(intent), intent, [rule]);
    PersistProfile(h.intent(intent), intent, rule);
    PrincipalOf(epoch, id, principal, policy, approvedAt);
    IssueSucceedsIff(h, principal, BROKER_ID, authorization, intent, profile.value, epoch, {PERMISSION}, {},
                     approvedAt, approvedAt, approvedAt + LEASE_TTL);
    var issued := Issue(h, principal, BROKER_ID, authorization, intent, profile.value, epoch, {PERMISSION}, {},
                        approvedAt, approvedAt, approvedAt + LEASE_TTL);
    assert issued.Success?;
    lease := issued.value;
  }

  lemma PrincipalOf(epoch: Epoch, id: Id, principal: string, policy: Digest, approvedAt: int)
    requires Describes(epoch, principal, policy, {PERMISSION}, [ApprovalEvent(id, approvedAt)], approvedAt)
    ensures epoch.principal == principal && epoch.observed == approvedAt
  {
  }

  lemma PersistProfile(sha: Digest, intent: Intent, rule: Rule)
    requires intent.effects == PERSIST_EFFECTS && rule.scope == PERSIST_EFFECTS && rule.status == Enforced
    ensures var p := BuildProfile(sha, intent, [rule]);
      && p.Success? && p.value.intent == sha && p.value.effects == intent.effects
      && p.value.MappingComplete() && p.value.WithoutEnforced() == {}
  {
    BuildSucceedsIff(sha, intent, [rule]);
    var p := BuildProfile(sha, intent, [rule]).value;
    assert rule in [rule];
    assert rule in p.rules;
    assert forall e :: e in PERSIST_EFFECTS ==> e in rule.scope;
  }

  /**
   An accepted approval dated no later than the claim leaves its lease usable
   from the claim for at least thirty seconds; one dated ahead, as the clock
   allowance permits, is not usable until its own time comes.
   */
  lemma ClaimedLeaseUsable(lease: Lease, proof: Proof, claimedAt: int, checkedAt: int)
    requires ProofRefusal(proof, claimedAt).None? && claimedAt <= checkedAt
    requires lease.maxUses == MAX_USES
    requires lease.validFrom == proof.approvedAt && lease.validUntil == proof.approvedAt + LEASE_TTL
    ensures Evaluate(lease, checkedAt, lease.epoch, 0).usable
        <==> proof.approvedAt <= checkedAt < proof.approvedAt + LEASE_TTL
    ensures proof.approvedAt <= claimedAt && checkedAt < claimedAt + 30 * SECOND
        ==> Evaluate(lease, checkedAt, lease.epoch, 0).usable
    ensures claimedAt < proof.approvedAt ==>
      !Evaluate(lease, claimedAt, lease.epoch, 0).usable && proof.approvedAt <= claimedAt + PROOF_MAX_AHEAD
  {
  }

  /**
   Approvals dated ahead are claimed: when a request is created and approved at
   one moment, the claim is made exactly when the approval is at most ninety
   seconds old and at most five ahead, and whenever it is dated ahead the lease
   formed from it is refused as not yet valid at that moment.
   */
  lemma AheadIsClaimedNotYetUsable(payload: Digest, principal: string, ttl: int, ahead: int, lease: Lease)
    requires 60 * SECOND <= ttl && lease.Valid()
    requires lease.validFrom == ahead && lease.validUntil == ahead + LEASE_TTL
    ensures var ops := [CreateOp("r", payload, 0), ApproveOp(Proof(true, "r", payload, principal, ahead), 0)];
            var b := Run(ops, principal, ttl);
      && "r" in b.items
      && (b.items["r"].status == Approved <==> -PROOF_MAX_AGE <= ahead <= PROOF_MAX_AHEAD)
      && (b.items["r"].status == Approved ==> b.log == [Claim("r", 0)])
      && (b.items["r"].status == Approved ==> (Evaluate(lease, 0, lease.epoch, 0).usable <==> ahead <= 0))
      && (b.items["r"].status == Approved && 0 < ahead ==> Evaluate(lease, 0, lease.epoch, 0).reason == NotYetValid)
  {
    hide Lifecycle, Run;
    var create, approve := CreateOp("r", payload, 0), ApproveOp(Proof(true, "r", payload, principal, ahead), 0);
    assert [create, approve] == [create] + [approve] && [create] == [] + [create];
    RunEmpty(principal, ttl);
    RunSnoc([], create, principal, ttl);
    RunSnoc([create], approve, principal, ttl);
  }
}
