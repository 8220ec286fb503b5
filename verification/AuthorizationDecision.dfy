/**
 `phios/macro_authorization_decision.py`: each request has one hash-linked
 history of decisions, holds first and at most one terminal decision last.
 */
module AuthorizationDecision {
  import opened Wrappers
  import opened AuthorityEpoch
  import opened AuthorityLedger
  import opened AuthorityRequest
  import opened HashChain

  datatype DecisionReason = AuthorityRequestRequired | AuthorityRequestStale | DecisionFinal | DecisionReady

  datatype DecisionState = DecisionState(
    reason: DecisionReason, request: Option<Digest>, latest: Option<Digest>, granted: bool)

  // ------------------------------------------------------------ specification

  function ForRequest(sha: Digest): Decision -> bool {
    (d: Decision) => d.request == sha
  }

  function Number(d: Decision): nat { d.sequence }
  function Previous(d: Decision): Option<Digest> { d.previous }

  /** `_validate_decision_provenance`. */
  predicate Copies(h: Hashes, d: Decision, q: Request) {
    && d.request == h.request(q) && d.target == q.target && d.admission == q.admission
    && d.intentRevision == q.intentRevision && d.profile == q.profile && d.intentCode == q.intentCode
  }

  /** A well-formed history: linked, about this request, and nothing after a terminal decision. */
  ghost predicate GoodChain(h: Hashes, q: Request, rows: seq<Decision>) {
    && Linked(rows, h.decision, Number, Previous)
    && (forall d :: d in rows ==> Copies(h, d, q))
    && HoldsThenTerminal(rows)
  }

  /** HOLD* (APPROVE | DENY)? */
  predicate HoldsThenTerminal(rows: seq<Decision>) {
    forall i :: 0 <= i < |rows| - 1 ==> rows[i].kind == Hold
  }

  /** The rows about one request, in order. */
  function History(h: Hashes, l: Ledger, q: Request): seq<Decision> {
    Select(l.decisions, ForRequest(h.request(q)))
  }

  predicate Open(chain: seq<Decision>) {
    chain != [] ==> !chain[|chain| - 1].Resolved()
  }

  ghost function DecisionChain(h: Hashes, l: Ledger, q: Request): Result<seq<Decision>, Fault> {
    var rows := History(h, l, q);
    if GoodChain(h, q, rows) then Success(rows) else Failure(Corrupt)
  }

  ghost function DecisionReadiness(h: Hashes, l: Ledger, w: World, target: Digest): Result<DecisionState, Fault> {
    var request :- LatestRequest(h, l, target);
    if request.None? then Success(DecisionState(AuthorityRequestRequired, None, None, false))
    else
      var sha := h.request(request.value);
      var current :- RequestReadiness(h, l, w, target);
      if current.reason != RequestAlreadyExists || current.existing != Some(sha) then
        Success(DecisionState(AuthorityRequestStale, Some(sha), None, false))
      else
        var chain :- DecisionChain(h, l, request.value);
        Success(Standing(h, sha, chain))
  }

  /** What a history of a current request amounts to. */
  function Standing(h: Hashes, sha: Digest, chain: seq<Decision>): DecisionState {
    if chain == [] then DecisionState(DecisionReady, Some(sha), None, false)
    else
      var d := chain[|chain| - 1];
      if d.Resolved() then DecisionState(DecisionFinal, Some(sha), Some(h.decision(d)), d.Granted())
      else DecisionState(DecisionReady, Some(sha), Some(h.decision(d)), false)
  }

  ghost function LatestDecision(h: Hashes, l: Ledger, target: Digest): Result<Option<Decision>, Fault> {
    var request :- LatestRequest(h, l, target);
    if request.None? then Success(None)
    else
      var chain :- DecisionChain(h, l, request.value);
      Success(Last(chain))
  }

  /** The next entry of a request's history. */
  function Extend(s: Site, q: Request, chain: seq<Decision>, kind: Kind, at: int, note: string): Decision {
    Decision(s.h.request(q), q.target, q.admission, q.intentRevision, q.profile, q.intentCode, s.authorizer, kind,
             |chain|, if chain == [] then None else Some(s.h.decision(chain[|chain| - 1])), at, note)
  }

  /** The row `record` appends, or why it refuses. */
  ghost function RecordDecision(s: Site, l: Ledger, w: World, target: Digest, expectedRequest: Digest,
                                expectedPrevious: Option<Digest>, kind: Kind, at: int, note: string): Result<Decision, Fault> {
    var state :- DecisionReadiness(s.h, l, w, target);
    if state.reason != DecisionReady then Failure(NotReady)
    else if state.request != Some(expectedRequest) || state.latest != expectedPrevious then Failure(Changed)
    else
      var request :- LatestRequest(s.h, l, target);
      if request.None? || s.h.request(request.value) != expectedRequest then Failure(Changed)
      else
        var chain :- DecisionChain(s.h, l, request.value);
        Success(Extend(s, request.value, chain, kind, at, note))
  }

  // ------------------------------------------------------------ what the states mean to a caller

  /** The request the policy's current admission stands behind. */
  ghost predicate Current(h: Hashes, l: Ledger, w: World, target: Digest, q: Request) {
    var state := RequestReadiness(h, l, w, target);
    state.Success? && state.value.reason == RequestAlreadyExists && state.value.existing == Some(h.request(q))
  }

  /** The target's newest request, found current. */
  ghost predicate InForce(h: Hashes, l: Ledger, w: World, target: Digest, q: Request) {
    Newest(l.requests, OnTarget(target), q) && Current(h, l, w, target, q)
  }

  ghost predicate Undecided(h: Hashes, l: Ledger, q: Request) {
    forall d :: d in l.decisions ==> d.request != h.request(q)
  }

  ghost predicate LastDecision(h: Hashes, l: Ledger, q: Request, d: Decision) {
    Newest(l.decisions, ForRequest(h.request(q)), d)
  }

  /**
   Each state of readiness, by the rows that bring it about. Final means that
   the newest decision about the newest, current request approves or denies;
   granted, that it approves.
   */
  ghost predicate DecisionStateSays(h: Hashes, l: Ledger, w: World, target: Digest, state: DecisionState) {
    match state.reason
    case AuthorityRequestRequired =>
      state == DecisionState(AuthorityRequestRequired, None, None, false) && forall q :: q in l.requests ==> q.target != target
    case AuthorityRequestStale =>
      exists q :: Newest(l.requests, OnTarget(target), q) && StaleSays(h, l, w, target, state, q)
    case DecisionFinal =>
      exists q, d :: LastDecision(h, l, q, d) && FinalSays(h, l, w, target, state, q, d)
    case DecisionReady =>
      exists q :: InForce(h, l, w, target, q) && ReadySays(h, l, state, q)
  }

  ghost predicate StaleSays(h: Hashes, l: Ledger, w: World, target: Digest, state: DecisionState, q: Request) {
    !Current(h, l, w, target, q) && state == DecisionState(AuthorityRequestStale, Some(h.request(q)), None, false)
  }

  ghost predicate FinalSays(h: Hashes, l: Ledger, w: World, target: Digest, state: DecisionState, q: Request, d: Decision) {
    && InForce(h, l, w, target, q) && (d.kind == Approve || d.kind == Deny)
    && state == DecisionState(DecisionFinal, Some(h.request(q)), Some(h.decision(d)), d.kind == Approve)
  }

  ghost predicate ReadySays(h: Hashes, l: Ledger, state: DecisionState, q: Request) {
    && state.request == Some(h.request(q)) && !state.granted
    && (state.latest.None? ==> Undecided(h, l, q))
    && (state.latest.Some? ==> exists d :: LastDecision(h, l, q, d) && d.kind == Hold && state.latest == Some(h.decision(d)))
  }

  lemma LastOfHistory(h: Hashes, l: Ledger, q: Request)
    ensures History(h, l, q) == [] <==> Undecided(h, l, q)
    ensures History(h, l, q) != [] ==> LastDecision(h, l, q, History(h, l, q)[|History(h, l, q)| - 1])
  {
    var rows := History(h, l, q);
    NoneSelected(l.decisions, ForRequest(h.request(q)));
    assert forall i :: 0 <= i < |l.decisions| ==> l.decisions[i] in l.decisions;
    assert forall d :: d in l.decisions ==> exists i :: 0 <= i < |l.decisions| && l.decisions[i] == d;
    if rows != [] {
      NewestIff(l.decisions, ForRequest(h.request(q)), rows[|rows| - 1]);
    }
  }

  lemma LatestIsNewest(h: Hashes, l: Ledger, target: Digest)
    requires LatestRequest(h, l, target).Success?
    ensures LatestRequest(h, l, target).value == None <==> forall q :: q in l.requests ==> q.target != target
    ensures LatestRequest(h, l, target).value.Some? ==>
      Newest(l.requests, OnTarget(target), LatestRequest(h, l, target).value.value)
  {
    hide Provenance;
    var rows := Select(l.requests, OnTarget(target));
    NoneSelected(l.requests, OnTarget(target));
    assert forall i :: 0 <= i < |l.requests| ==> l.requests[i] in l.requests;
    assert forall q :: q in l.requests ==> exists i :: 0 <= i < |l.requests| && l.requests[i] == q;
    if rows != [] {
      NewestIff(l.requests, OnTarget(target), rows[|rows| - 1]);
    }
  }

  lemma DecisionStateIsSaid(h: Hashes, l: Ledger, w: World, target: Digest)
    requires DecisionReadiness(h, l, w, target).Success?
    ensures DecisionStateSays(h, l, w, target, DecisionReadiness(h, l, w, target).value)
  {
    hide RequestReadiness, LatestRequest, GoodChain, Newest, Undecided;
    LatestIsNewest(h, l, target);
    var latest := LatestRequest(h, l, target).value;
    var state := DecisionReadiness(h, l, w, target).value;
    if latest.Some? {
      var q := latest.value;
      if Current(h, l, w, target, q) {
        assert InForce(h, l, w, target, q);
        LastOfHistory(h, l, q);
        var rows := History(h, l, q);
        if rows != [] && rows[|rows| - 1].Resolved() {
          assert FinalSays(h, l, w, target, state, q, rows[|rows| - 1]);
        } else {
          assert ReadySays(h, l, state, q);
        }
      } else {
        assert StaleSays(h, l, w, target, state, q);
      }
    }
  }

  /** A current request whose newest decision, if any, is a hold. */
  ghost predicate Decidable(h: Hashes, l: Ledger, w: World, target: Digest, q: Request) {
    InForce(h, l, w, target, q) && forall d :: LastDecision(h, l, q, d) ==> d.kind == Hold
  }

  /** `previous` is the digest of the newest decision about the request, or nothing when there is none. */
  ghost predicate Follows(h: Hashes, l: Ledger, q: Request, previous: Option<Digest>) {
    if Undecided(h, l, q) then previous == None
    else exists d :: LastDecision(h, l, q, d) && previous == Some(h.decision(d))
  }

  /** `d` is the next entry about `q`, naming what the caller reviewed and what it decided. */
  ghost predicate RecordedOn(s: Site, l: Ledger, q: Request, expectedRequest: Digest, expectedPrevious: Option<Digest>,
                             kind: Kind, at: int, note: string, d: Decision) {
    && (forall x :: LastDecision(s.h, l, q, x) ==> d.sequence == x.sequence + 1)
    && (Undecided(s.h, l, q) ==> d.sequence == 0)
    && s.h.request(q) == expectedRequest && Copies(s.h, d, q) && d.authorizer == s.authorizer
    && Follows(s.h, l, q, expectedPrevious) && d.previous == expectedPrevious
    && d.kind == kind && d.decidedAt == at && d.note == note
  }

  /** The entry `record` appends, and what its refusals mean. */
  ghost predicate RecordSays(s: Site, l: Ledger, w: World, target: Digest, expectedRequest: Digest,
                             expectedPrevious: Option<Digest>, kind: Kind, at: int, note: string,
                             r: Result<Decision, Fault>) {
    match r
    case Success(d) =>
      exists q ::
        Decidable(s.h, l, w, target, q) && RecordedOn(s, l, q, expectedRequest, expectedPrevious, kind, at, note, d)
    case Failure(NotReady) => forall q :: !Decidable(s.h, l, w, target, q)
    case Failure(Changed) =>
      exists q ::
        Decidable(s.h, l, w, target, q)
        && !(s.h.request(q) == expectedRequest && Follows(s.h, l, q, expectedPrevious))
    case Failure(_) => true
  }

  /** What reading the readiness can raise. */
  lemma DecisionStateFailure(h: Hashes, l: Ledger, w: World, target: Digest)
    requires DecisionReadiness(h, l, w, target).Failure?
    ensures DecisionReadiness(h, l, w, target).error in {Corrupt, PolicyUnavailable}
  {
    hide Provenance, GoodChain, MatchingReceipt;
  }

  lemma HistorySays(h: Hashes, l: Ledger, q: Request, previous: Option<Digest>)
    requires GoodChain(h, q, History(h, l, q))
    ensures var rows := History(h, l, q);
      && (forall d :: LastDecision(h, l, q, d) <==> rows != [] && d == rows[|rows| - 1])
      && (forall d :: LastDecision(h, l, q, d) ==> d.sequence + 1 == |rows|)
      && (Undecided(h, l, q) <==> rows == [])
      && (Follows(h, l, q, previous)
          <==> previous == if rows == [] then None else Some(h.decision(rows[|rows| - 1])))
  {
    var rows := History(h, l, q);
    hide Copies, Undecided, Newest;
    LastOfHistory(h, l, q);
    forall d
      ensures LastDecision(h, l, q, d) <==> rows != [] && d == rows[|rows| - 1]
    {
      NewestIff(l.decisions, ForRequest(h.request(q)), d);
    }
    if rows != [] {
      assert LinkedAt(rows, |rows| - 1, h.decision, Number, Previous);
    }
  }

  lemma DecidableIff(h: Hashes, l: Ledger, w: World, target: Digest)
    requires DecisionReadiness(h, l, w, target).Success?
    ensures (exists q :: Decidable(h, l, w, target, q)) <==> DecisionReadiness(h, l, w, target).value.reason == DecisionReady
    ensures DecisionReadiness(h, l, w, target).value.reason == DecisionReady ==>
      var state := DecisionReadiness(h, l, w, target).value;
      && LatestRequest(h, l, target).Success? && LatestRequest(h, l, target).value.Some?
      && var q := LatestRequest(h, l, target).value.value;
      && Decidable(h, l, w, target, q) && GoodChain(h, q, History(h, l, q))
      && state.request == Some(h.request(q)) && Follows(h, l, q, state.latest)
  {
    hide RequestReadiness, LatestRequest, GoodChain, Newest, Undecided, Follows, LastDecision, Select;
    LatestIsNewest(h, l, target);
    var state := DecisionReadiness(h, l, w, target).value;
    var latest := LatestRequest(h, l, target).value;
    if latest.Some? {
      var q := latest.value;
      forall x | InForce(h, l, w, target, x)
        ensures x == q
      {
        NewestUnique(l.requests, OnTarget(target), q, x);
      }
      var rows := History(h, l, q);
      if GoodChain(h, q, rows) {
        HistorySays(h, l, q, state.latest);
        assert rows != [] ==> LastDecision(h, l, q, rows[|rows| - 1]);
      }
      assert state.reason == DecisionReady ==> Decidable(h, l, w, target, q);
    } else {
      forall x
        ensures !InForce(h, l, w, target, x)
      {
        if Newest(l.requests, OnTarget(target), x) {
          NewestIsStored(l.requests, OnTarget(target), x);
        }
      }
    }
  }

  lemma RecordIsSaid(s: Site, l: Ledger, w: World, target: Digest, expectedRequest: Digest,
                     expectedPrevious: Option<Digest>, kind: Kind, at: int, note: string)
    ensures RecordSays(s, l, w, target, expectedRequest, expectedPrevious, kind, at, note,
                       RecordDecision(s, l, w, target, expectedRequest, expectedPrevious, kind, at, note))
  {
    hide DecisionReadiness, LatestRequest, GoodChain, Newest, Undecided, Decidable, LastDecision, Follows;
    var state := DecisionReadiness(s.h, l, w, target);
    if state.Failure? {
      DecisionStateFailure(s.h, l, w, target);
    } else {
      DecidableIff(s.h, l, w, target);
      if state.value.reason == DecisionReady {
        var q := LatestRequest(s.h, l, target).value.value;
        HistorySays(s.h, l, q, expectedPrevious);
        HistorySays(s.h, l, q, state.value.latest);
      }
    }
  }

  // ------------------------------------------------------------ the service

  class DecisionService {
    const site: Site
    const ledger: RealityLedger
    const requests: RequestService

    constructor (site: Site, requests: RequestService)
      requires requests.site == site
      ensures this.site == site && this.ledger == requests.ledger && this.requests == requests
    {
      this.site, this.ledger, this.requests := site, requests.ledger, requests;
    }

    ghost predicate Wired() {
      requests.site == site && requests.ledger == ledger
    }

    method LatestFor(target: Digest) returns (r: Result<Option<Request>, Fault>)
      requires Wired()
      ensures r == LatestRequest(site.h, ledger.Rows(), target)
    {
      hide Provenance;
      var rows := Select(ledger.requests, OnTarget(target));
      var k := 0;
      while k < |rows|
        invariant k <= |rows|
        invariant forall i :: 0 <= i < k ==> Provenance(site.h, ledger.receipts, rows[i])
      {
        var ok := requests.ValidProvenance(rows[k]);
        if !ok {
          assert rows[k] in rows;
          return Failure(Corrupt);
        }
        k := k + 1;
      }
      r := Success(Last(rows));
    }

    /** `_decision_chain`: accepts exactly the well-formed histories. */
    method ReadChain(q: Request) returns (r: Result<seq<Decision>, Fault>)
      ensures r == DecisionChain(site.h, ledger.Rows(), q)
    {
      hide Copies, LinkedAt;
      var rows := Select(ledger.decisions, ForRequest(site.h.request(q)));
      var chain: seq<Decision> := [];
      var previous: Option<Digest> := None;
      var k := 0;
      while k < |rows|
        invariant k <= |rows| && chain == rows[..k]
        invariant forall i :: 0 <= i < k ==> LinkedAt(rows, i, site.h.decision, Number, Previous)
        invariant forall i :: 0 <= i < k ==> Copies(site.h, rows[i], q)
        invariant forall i :: 0 <= i < k - 1 ==> rows[i].kind == Hold
        invariant previous == if k == 0 then None else Some(site.h.decision(rows[k - 1]))
      {
        var item := rows[k];
        assert item in rows;
        LinkedMeans(site.h, rows, k);
        if !Copies(site.h, item, q) {
          return Failure(Corrupt);
        }
        if item.sequence != k || item.previous != previous {
          return Failure(Corrupt);
        }
        if chain != [] && chain[|chain| - 1].Resolved() {
          assert rows[k - 1].kind != Hold;
          return Failure(Corrupt);
        }
        chain := chain + [item];
        previous := Some(site.h.decision(item));
        k := k + 1;
      }
      assert rows[..k] == rows;
      r := Success(chain);
    }

    method Readiness(w: World, target: Digest) returns (r: Result<DecisionState, Fault>)
      requires Wired()
      ensures r == DecisionReadiness(site.h, ledger.Rows(), w, target)
      ensures r.Success? ==> DecisionStateSays(site.h, ledger.Rows(), w, target, r.value)
    {
      hide LatestRequest, RequestReadiness, DecisionChain, DecisionStateSays, RequestStateSays;
      if DecisionReadiness(site.h, ledger.Rows(), w, target).Success? {
        DecisionStateIsSaid(site.h, ledger.Rows(), w, target);
      }
      var request := LatestFor(target);
      if request.Failure? {
        return Failure(request.error);
      }
      if request.value.None? {
        return Success(DecisionState(AuthorityRequestRequired, None, None, false));
      }
      var sha := site.h.request(request.value.value);
      var current := requests.Readiness(w, target);
      if current.Failure? {
        return Failure(current.error);
      }
      if current.value.reason != RequestAlreadyExists || current.value.existing != Some(sha) {
        return Success(DecisionState(AuthorityRequestStale, Some(sha), None, false));
      }
      var chain := ReadChain(request.value.value);
      if chain.Failure? {
        return Failure(chain.error);
      }
      r := Success(Standing(site.h, sha, chain.value));
    }

    /** `record`: appends one decision or changes nothing. */
    method Record(w: World, target: Digest, expectedRequest: Digest, expectedPrevious: Option<Digest>, kind: Kind,
                  at: int, note: string) returns (r: Result<Decision, Fault>)
      requires Wired()
      modifies ledger
      ensures r == RecordDecision(site, old(ledger.Rows()), w, target, expectedRequest, expectedPrevious, kind, at, note)
      ensures RecordSays(site, old(ledger.Rows()), w, target, expectedRequest, expectedPrevious, kind, at, note, r)
      ensures r.Success? ==> ledger.Rows() == old(ledger.Rows()).(decisions := old(ledger.decisions) + [r.value])
      ensures r.Failure? ==> ledger.Rows() == old(ledger.Rows())
    {
      hide DecisionReadiness, LatestRequest, DecisionChain, DecisionStateSays, RecordSays;
      RecordIsSaid(site, ledger.Rows(), w, target, expectedRequest, expectedPrevious, kind, at, note);
      var state := Readiness(w, target);
      if state.Failure? {
        return Failure(state.error);
      }
      if state.value.reason != DecisionReady {
        return Failure(NotReady);
      }
      if state.value.request != Some(expectedRequest) || state.value.latest != expectedPrevious {
        return Failure(Changed);
      }
      var request := LatestFor(target);
      if request.Failure? {
        return Failure(request.error);
      }
      if request.value.None? || site.h.request(request.value.value) != expectedRequest {
        return Failure(Changed);
      }
      var chain := ReadChain(request.value.value);
      if chain.Failure? {
        return Failure(chain.error);
      }
      var item := Extend(site, request.value.value, chain.value, kind, at, note);
      ledger.decisions := ledger.decisions + [item];
      r := Success(item);
    }
  }

  lemma LinkedMeans(h: Hashes, rows: seq<Decision>, k: nat)
    requires k < |rows|
    ensures LinkedAt(rows, k, h.decision, Number, Previous)
        <==> rows[k].sequence == k && rows[k].previous == if k == 0 then None else Some(h.decision(rows[k - 1]))
  {
  }

  // ------------------------------------------------------------ what the invariant needs

  /** Every decision belongs to a filed request, and every request's history is well formed. */
  ghost predicate DecisionsInvariant(h: Hashes, l: Ledger) {
    && (forall d :: d in l.decisions ==> Filed(h, l, d))
    && (forall q :: q in l.requests ==> GoodChain(h, q, Select(l.decisions, ForRequest(h.request(q)))))
  }

  ghost predicate Filed(h: Hashes, l: Ledger, d: Decision) {
    exists q :: q in l.requests && h.request(q) == d.request
  }

  /** A request newly filed starts with an empty history. */
  lemma RequestFiled(h: Hashes, l: Ledger, q: Request)
    requires h.CollisionFree() && DecisionsInvariant(h, l) && q !in l.requests
    ensures DecisionsInvariant(h, l.(requests := l.requests + [q]))
  {
    var after := l.(requests := l.requests + [q]);
    forall d | d in l.decisions
      ensures Filed(h, after, d) && d.request != h.request(q)
    {
      var x :| x in l.requests && h.request(x) == d.request;
      assert x in after.requests;
    }
    SelectNone(l.decisions, ForRequest(h.request(q)));
    assert GoodChain(h, q, []);
  }

  /** An entry `record` appends extends one history and leaves every other alone. */
  lemma DecisionRecorded(s: Site, l: Ledger, w: World, target: Digest, expectedRequest: Digest,
                         expectedPrevious: Option<Digest>, kind: Kind, at: int, note: string)
    requires s.h.CollisionFree() && RequestsInvariant(s.h, l) && DecisionsInvariant(s.h, l)
    requires RecordDecision(s, l, w, target, expectedRequest, expectedPrevious, kind, at, note).Success?
    ensures var d := RecordDecision(s, l, w, target, expectedRequest, expectedPrevious, kind, at, note).value;
      DecisionsInvariant(s.h, l.(decisions := l.decisions + [d]))
  {
    hide *;
    RecordedEntry(s, l, w, target, expectedRequest, expectedPrevious, kind, at, note);
    EntryAppended(s, l, LatestRequest(s.h, l, target).value.value, kind, at, note);
  }

  lemma RecordedEntry(s: Site, l: Ledger, w: World, target: Digest, expectedRequest: Digest,
                      expectedPrevious: Option<Digest>, kind: Kind, at: int, note: string)
    requires RecordDecision(s, l, w, target, expectedRequest, expectedPrevious, kind, at, note).Success?
    ensures LatestRequest(s.h, l, target).Success? && LatestRequest(s.h, l, target).value.Some?
    ensures var q := LatestRequest(s.h, l, target).value.value;
      && q in l.requests && q.target == target
      && Open(History(s.h, l, q))
      && RecordDecision(s, l, w, target, expectedRequest, expectedPrevious, kind, at, note).value
         == Extend(s, q, History(s.h, l, q), kind, at, note)
  {
    hide RequestReadiness, LatestRequest, Provenance, Copies, Linked, GoodChain, Extend;
    LatestIsStored(s.h, l, target);
  }

  lemma EntryAppended(s: Site, l: Ledger, q: Request, kind: Kind, at: int, note: string)
    requires s.h.CollisionFree() && DecisionsInvariant(s.h, l) && q in l.requests && Open(History(s.h, l, q))
    ensures var d := Extend(s, q, History(s.h, l, q), kind, at, note);
      DecisionsInvariant(s.h, l.(decisions := l.decisions + [d]))
  {
    hide Copies, Linked, GoodChain, Select;
    var d := Extend(s, q, History(s.h, l, q), kind, at, note);
    var after := l.(decisions := l.decisions + [d]);
    forall x | x in l.requests
      ensures GoodChain(s.h, x, Select(after.decisions, ForRequest(s.h.request(x))))
    {
      SelectSnoc(l.decisions, d, ForRequest(s.h.request(x)));
      if x == q {
        ChainExtends(s, q, History(s.h, l, q), kind, at, note);
      }
    }
    forall x | x in after.decisions
      ensures Filed(s.h, after, x)
    {
      assert x in l.decisions ==> Filed(s.h, l, x);
    }
  }

  lemma ChainExtends(s: Site, q: Request, chain: seq<Decision>, kind: Kind, at: int, note: string)
    requires GoodChain(s.h, q, chain)
    requires chain != [] ==> !chain[|chain| - 1].Resolved()
    ensures GoodChain(s.h, q, chain + [Extend(s, q, chain, kind, at, note)])
  {
    LinkedSnoc(chain, Extend(s, q, chain, kind, at, note), s.h.decision, Number, Previous);
  }

  /** With the invariant every history is accepted by the reader: nothing the writer produced is refused. */
  lemma ChainsReadable(h: Hashes, l: Ledger, w: World, target: Digest)
    requires RequestsInvariant(h, l) && DecisionsInvariant(h, l)
    ensures LatestDecision(h, l, target).Success?
    ensures DecisionReadiness(h, l, w, target).Failure? ==> w.policy(target).None?
  {
    hide Provenance, GoodChain, MatchingReceipt;
    RequestsReadable(h, l, "", target);
    if LatestRequest(h, l, target).value.Some? {
      LatestIsStored(h, l, target);
    }
    if w.policy(target).Some? && MatchingReceipt(l.receipts, target, w.policy(target).value).Some? {
      RequestsReadable(h, l, h.receipt(MatchingReceipt(l.receipts, target, w.policy(target).value).value), target);
    }
  }

  /**
   Two accepted histories sharing a head digest are the same history of the
   same request.
   */
  lemma SameHeadSameHistory(h: Hashes, q: Request, a: seq<Decision>, r: Request, b: seq<Decision>)
    requires h.CollisionFree() && GoodChain(h, q, a) && GoodChain(h, r, b) && a != [] && b != []
    requires h.decision(a[|a| - 1]) == h.decision(b[|b| - 1])
    ensures a == b && q == r
  {
    SharedDigestFixesPast(a, |a| - 1, b, |b| - 1, h.decision, Number, Previous);
    assert a[..|a|] == a && b[..|b|] == b;
    assert a[0] in a && b[0] in b;
  }

  /** An approved standing comes from an approving last entry of the latest request's history. */
  lemma FinalMeansStored(h: Hashes, l: Ledger, w: World, target: Digest)
    requires h.CollisionFree() && RequestsInvariant(h, l) && DecisionsInvariant(h, l)
    requires DecisionReadiness(h, l, w, target).Success?
    requires DecisionReadiness(h, l, w, target).value.reason == DecisionFinal
    ensures LatestDecision(h, l, target).Success? && LatestDecision(h, l, target).value.Some?
    ensures LatestRequest(h, l, target).Success? && LatestRequest(h, l, target).value.Some?
    ensures var d := LatestDecision(h, l, target).value.value; var q := LatestRequest(h, l, target).value.value;
      && d in l.decisions && q in l.requests && Copies(h, d, q)
      && w.policy(target).Some? && w.policy(target).value.decision == AllowRequest
      && q.target == target
      && q.intentRevision == w.policy(target).value.intentRevision && q.profile == w.policy(target).value.profile
  {
    hide Provenance, Copies, LatestRequest, RequestReadiness, Linked;
    var q := LatestRequest(h, l, target).value.value;
    LatestIsStored(h, l, target);
    var rows := Select(l.decisions, ForRequest(h.request(q)));
    SelectMembers(l.decisions, ForRequest(h.request(q)));
    assert rows[|rows| - 1] in rows;
    CurrentRequestMatchesPolicy(h, l, w, target, q);
  }
}
