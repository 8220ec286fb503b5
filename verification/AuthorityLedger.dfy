/**
 The rows the authority chain appends to `phios/spine/ledger.py`, the digests
 that link them, and the world outside: policy, evidence, epochs and the clock.
 */
module AuthorityLedger {
  import opened Wrappers
  import opened EnforcementProfile
  import opened ActionLease
  import opened AuthorityEpoch

  const DESKTOP_CLICK := "desktop.interaction.click"
  const DESKTOP_VERSION := "0.19.0"
  const DESKTOP_PERMISSIONS: set<Permission> := {"ui.interact"}
  const DESKTOP_EFFECTS: set<Effect> := {"display.control", "filesystem.change"}

  datatype PolicyDecision = AllowRequest | HoldRequest | DenyRequest

  /** `macro_policy_admission`: what the policy said of a target at one time. */
  datatype Receipt = Receipt(
    target: Digest, intentRevision: Digest, profile: Digest, decision: PolicyDecision, eligible: bool, evaluatedAt: int) {
    predicate Valid() {
      eligible <==> decision == AllowRequest
    }
  }

  datatype Projection = Projection(decision: PolicyDecision, intentRevision: Digest, profile: Digest, intentCode: string)

  datatype Request = Request(
    admission: Digest, target: Digest, intentRevision: Digest, profile: Digest, intentCode: string,
    requester: string, requestedAt: int)

  datatype Kind = Approve | Deny | Hold

  datatype Decision = Decision(
    request: Digest, target: Digest, admission: Digest, intentRevision: Digest, profile: Digest, intentCode: string,
    authorizer: string, kind: Kind, sequence: nat, previous: Option<Digest>, decidedAt: int, note: string) {

    predicate Granted() {
      kind == Approve
    }

    predicate Resolved() {
      kind == Approve || kind == Deny
    }
  }

  datatype Mapping = Mapping(
    id: string, intentCode: string, action: string, strategy: string, capabilityId: string, capabilityVersion: string,
    permissions: set<Permission>, effects: set<Effect>) {

    /** The one governed capability this version supports. */
    predicate Valid() {
      && capabilityId == DESKTOP_CLICK && capabilityVersion == DESKTOP_VERSION && action == "CLICK"
      && permissions == DESKTOP_PERMISSIONS && effects == DESKTOP_EFFECTS
    }
  }

  datatype Observation = Observation(session: string, action: string, strategy: string, clickable: bool, body: string)

  datatype Binding = Binding(
    decision: Digest, request: Digest, target: Digest, observation: Digest, intentCode: string, mappingId: string,
    mapping: Digest, mappingSet: Digest, capabilityId: string, capabilityVersion: string, payload: Digest,
    permissions: set<Permission>, effects: set<Effect>, intent: Intent, boundAt: int) {

    predicate Valid() {
      && Canonical(effects) && "unknown" !in effects && effects != {"none"}
      && intent == Intent(capabilityId, capabilityVersion, payload, boundAt, effects)
    }
  }

  datatype LeasePolicy = LeasePolicy(
    id: string, principal: string, issuer: string, capabilityId: string, capabilityVersion: string,
    permissions: set<Permission>, effects: set<Effect>, rules: seq<Rule>, accepted: set<Effect>, maxSeconds: int) {

    predicate Valid() {
      && permissions != {} && effects != {} && UniqueIds(rules)
      && (forall r :: r in rules ==> r.Valid() && r.scope <= effects)
      && accepted <= effects && 1 <= maxSeconds <= 300
    }
  }

  datatype LeaseRecord = LeaseRecord(
    target: Digest, binding: Digest, policy: Digest, profile: Profile, epoch: Epoch, lease: Lease, recordedAt: int)

  /** The five append-only files. */
  datatype Ledger = Ledger(
    receipts: seq<Receipt>, requests: seq<Request>, decisions: seq<Decision>, bindings: seq<Binding>,
    leases: seq<LeaseRecord>)

  class RealityLedger {
    var receipts: seq<Receipt>
    var requests: seq<Request>
    var decisions: seq<Decision>
    var bindings: seq<Binding>
    var leases: seq<LeaseRecord>

    function Rows(): Ledger
      reads this
    {
      Ledger(receipts, requests, decisions, bindings, leases)
    }
  }

  /** Evidence behind a target's inference receipt, as the binding service reads it. */
  datatype Evidence = NoEvidence | BrokenEvidence | Found(observation: Observation)

  /** What the services see of the world during one locked step. */
  datatype World = World(
    policy: Digest -> Option<Projection>, evidence: Digest -> Evidence, epoch: Option<Epoch>, now: int)

  datatype Hashes = Hashes(
    receipt: Receipt -> Digest, request: Request -> Digest, decision: Decision -> Digest, mapping: Mapping -> Digest,
    mappings: seq<Mapping> -> Digest, observation: Observation -> Digest, payload: Observation -> Digest,
    binding: Binding -> Digest, policy: LeasePolicy -> Digest, policies: seq<LeasePolicy> -> Digest, lease: LeaseHashes) {

    /** Digests of one kind of body do not collide. */
    ghost predicate CollisionFree() {
      && (forall a, b :: receipt(a) == receipt(b) ==> a == b)
      && (forall a, b :: request(a) == request(b) ==> a == b)
      && (forall a, b :: decision(a) == decision(b) ==> a == b)
      && (forall a, b :: mapping(a) == mapping(b) ==> a == b)
      && (forall a, b :: binding(a) == binding(b) ==> a == b)
      && (forall a, b :: policy(a) == policy(b) ==> a == b)
      && lease.CollisionFree()
    }
  }

  /** The server-owned configuration, fixed for the life of the services. */
  datatype Site = Site(
    h: Hashes, requester: string, authorizer: string, mappings: seq<Mapping>, policies: seq<LeasePolicy>) {

    ghost predicate Valid() {
      && h.CollisionFree()
      && (forall i, j :: 0 <= i < j < |mappings| ==> mappings[i].id != mappings[j].id)
      && (forall m :: m in mappings ==> m.Valid())
      && (forall i, j :: 0 <= i < j < |policies| ==> policies[i].id != policies[j].id)
      && (forall p :: p in policies ==> p.Valid())
    }
  }

  /**
   Why an operation raises. `Corrupt` covers every check on rows read back:
   duplicates, broken chains, and rows whose provenance does not hold up.
   */
  datatype Fault =
    | Corrupt | PolicyUnavailable | EvidenceUnavailable | PolicyAmbiguous | NotReady | Changed | Unsupported
    | ProfileRefused | NoWindow | LeaseRefused(error: LeaseError)

  // ------------------------------------------------------------ row filters

  function Select<T>(rows: seq<T>, p: T -> bool): seq<T> {
    if rows == [] then []
    else
      var n := |rows| - 1;
      if p(rows[n]) then Select(rows[..n], p) + [rows[n]] else Select(rows[..n], p)
  }

  lemma {:induction false} SelectMembers<T>(rows: seq<T>, p: T -> bool)
    ensures forall x :: x in Select(rows, p) <==> x in rows && p(x)
  {
    if rows != [] {
      var n := |rows| - 1;
      assert rows == rows[..n] + [rows[n]];
      SelectMembers(rows[..n], p);
    }
  }

  lemma SelectSnoc<T>(rows: seq<T>, x: T, p: T -> bool)
    ensures Select(rows + [x], p) == if p(x) then Select(rows, p) + [x] else Select(rows, p)
  {
    assert (rows + [x])[..|rows|] == rows;
  }

  /** Appending rows only appends to what a filter selects. */
  lemma {:induction false} SelectGrows<T>(rows: seq<T>, more: seq<T>, p: T -> bool)
    requires rows <= more
    ensures Select(rows, p) <= Select(more, p)
  {
    if |rows| < |more| {
      var n := |more| - 1;
      SelectGrows(rows, more[..n], p);
    } else {
      assert rows == more;
    }
  }

  /** A key no two rows share selects at most one of them. */
  lemma {:induction false} SelectUnique<T>(rows: seq<T>, p: T -> bool)
    requires forall i, j :: 0 <= i < j < |rows| ==> !(p(rows[i]) && p(rows[j]))
    ensures |Select(rows, p)| <= 1
  {
    if rows != [] {
      var n := |rows| - 1;
      if p(rows[n]) {
        forall i | 0 <= i < n
          ensures !p(rows[..n][i])
        {
          assert rows[..n][i] == rows[i];
        }
        SelectNone(rows[..n], p);
      } else {
        SelectUnique(rows[..n], p);
      }
    }
  }

  lemma {:induction false} SelectNone<T>(rows: seq<T>, p: T -> bool)
    requires forall i :: 0 <= i < |rows| ==> !p(rows[i])
    ensures Select(rows, p) == []
  {
    if rows != [] {
      SelectNone(rows[..|rows| - 1], p);
    }
  }

  function Last<T>(rows: seq<T>): Option<T> {
    if rows == [] then None else Some(rows[|rows| - 1])
  }

  function First<T>(rows: seq<T>): Option<T> {
    if rows == [] then None else Some(rows[0])
  }

  /** `x` is the last row that qualifies. */
  ghost predicate Newest<T>(rows: seq<T>, p: T -> bool, x: T) {
    exists k :: 0 <= k < |rows| && NewestAt(rows, p, x, k)
  }

  ghost predicate NewestAt<T>(rows: seq<T>, p: T -> bool, x: T, k: nat)
    requires k < |rows|
  {
    rows[k] == x && p(x) && forall j :: k < j < |rows| ==> !p(rows[j])
  }

  /** `x` is the one row that qualifies. */
  ghost predicate OnlyOne<T>(rows: seq<T>, p: T -> bool, x: T) {
    exists k :: 0 <= k < |rows| && OnlyAt(rows, p, x, k)
  }

  ghost predicate OnlyAt<T>(rows: seq<T>, p: T -> bool, x: T, k: nat)
    requires k < |rows|
  {
    rows[k] == x && p(x) && forall j :: 0 <= j < |rows| && j != k ==> !p(rows[j])
  }

  /** The last of the selected rows is the newest that qualifies. */
  lemma {:induction false} NewestIff<T>(rows: seq<T>, p: T -> bool, x: T)
    ensures Newest(rows, p, x) <==> Last(Select(rows, p)) == Some(x)
  {
    if rows != [] {
      var n := |rows| - 1;
      if p(rows[n]) {
        assert rows[n] == x ==> NewestAt(rows, p, x, n);
      } else {
        NewestIff(rows[..n], p, x);
        assert forall k :: 0 <= k < n ==> (NewestAt(rows, p, x, k) <==> NewestAt(rows[..n], p, x, k));
      }
    }
  }

  lemma NewestUnique<T>(rows: seq<T>, p: T -> bool, x: T, y: T)
    requires Newest(rows, p, x) && Newest(rows, p, y)
    ensures x == y
  {
    var j :| 0 <= j < |rows| && NewestAt(rows, p, x, j);
    var k :| 0 <= k < |rows| && NewestAt(rows, p, y, k);
    assert j == k;
  }

  lemma NewestIsStored<T>(rows: seq<T>, p: T -> bool, x: T)
    requires Newest(rows, p, x)
    ensures x in rows && p(x)
  {
  }

  lemma OnlyOneIsStored<T>(rows: seq<T>, p: T -> bool, x: T)
    requires OnlyOne(rows, p, x)
    ensures x in rows && p(x)
  {
  }

  lemma {:induction false} NoneSelected<T>(rows: seq<T>, p: T -> bool)
    ensures Select(rows, p) == [] <==> forall i :: 0 <= i < |rows| ==> !p(rows[i])
  {
    if rows != [] {
      var n := |rows| - 1;
      NoneSelected(rows[..n], p);
      assert forall i :: 0 <= i < n ==> rows[..n][i] == rows[i];
    }
  }

  lemma {:induction false} SeveralSelected<T>(rows: seq<T>, p: T -> bool)
    requires |Select(rows, p)| > 1
    ensures exists i, j :: 0 <= i < j < |rows| && p(rows[i]) && p(rows[j])
  {
    var n := |rows| - 1;
    if p(rows[n]) {
      NoneSelected(rows[..n], p);
      var i :| 0 <= i < n && p(rows[..n][i]);
      assert p(rows[i]) && p(rows[n]);
    } else {
      SeveralSelected(rows[..n], p);
      var i, j :| 0 <= i < j < n && p(rows[..n][i]) && p(rows[..n][j]);
      assert p(rows[i]) && p(rows[j]);
    }
  }

  /** One row is selected exactly when one row qualifies. */
  lemma {:induction false} OnlyOneIff<T>(rows: seq<T>, p: T -> bool, x: T)
    ensures OnlyOne(rows, p, x) <==> Select(rows, p) == [x]
  {
    if rows != [] {
      var n := |rows| - 1;
      assert forall i :: 0 <= i < n ==> rows[..n][i] == rows[i];
      if p(rows[n]) {
        var before := Select(rows[..n], p);
        NoneSelected(rows[..n], p);
        assert OnlyOne(rows, p, x) ==> OnlyAt(rows, p, x, n) && before == [];
        assert before == [] && rows[n] == x ==> OnlyAt(rows, p, x, n);
        assert |before + [rows[n]]| == |before| + 1 && (before + [rows[n]])[|before|] == rows[n];
      } else {
        OnlyOneIff(rows[..n], p, x);
        assert forall k :: 0 <= k < n ==> (OnlyAt(rows, p, x, k) <==> OnlyAt(rows[..n], p, x, k));
      }
    }
  }
}
