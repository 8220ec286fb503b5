/**
 `phios/macro_authority_request.py`: an authority request may be filed once for
 an admission receipt that matches the policy's current answer.
 */
module AuthorityRequest {
  import opened Wrappers
  import opened AuthorityEpoch
  import opened AuthorityLedger

  datatype RequestReason =
    | PolicyNotAllowRequest | AdmissionReceiptRequired | AdmissionReceiptStale | RequestAlreadyExists | RequestReady

  datatype RequestState = RequestState(reason: RequestReason, admission: Option<Digest>, existing: Option<Digest>)

  // ------------------------------------------------------------ specification

  function HasDigest(h: Hashes, sha: Digest): Receipt -> bool {
    (c: Receipt) => h.receipt(c) == sha
  }

  /** An eligible receipt for this target under the policy's current revision and profile. */
  function Admits(target: Digest, p: Projection): Receipt -> bool {
    (c: Receipt) =>
      && c.target == target && c.decision == AllowRequest && c.eligible
      && c.intentRevision == p.intentRevision && c.profile == p.profile
  }

  function ForAdmission(sha: Digest): Request -> bool {
    (q: Request) => q.admission == sha
  }

  function OnTarget(target: Digest): Request -> bool {
    (q: Request) => q.target == target
  }

  function ReceiptFor(h: Hashes, receipts: seq<Receipt>, sha: Digest): Option<Receipt> {
    First(Select(receipts, HasDigest(h, sha)))
  }

  function MatchingReceipt(receipts: seq<Receipt>, target: Digest, p: Projection): Option<Receipt> {
    Last(Select(receipts, Admits(target, p)))
  }

  /** `_validate_request_provenance`: the admission receipt exists, allows, and says what the request repeats. */
  predicate Provenance(h: Hashes, receipts: seq<Receipt>, q: Request) {
    var c := ReceiptFor(h, receipts, q.admission);
    && c.Some?
    && c.value.target == q.target && c.value.intentRevision == q.intentRevision && c.value.profile == q.profile
    && c.value.decision == AllowRequest && c.value.eligible
  }

  function RequestForAdmission(h: Hashes, l: Ledger, sha: Digest): Result<Option<Request>, Fault> {
    if exists q :: q in l.requests && !Provenance(h, l.receipts, q) then Failure(Corrupt)
    else if |Select(l.requests, ForAdmission(sha))| > 1 then Failure(Corrupt)
    else Success(First(Select(l.requests, ForAdmission(sha))))
  }

  function LatestRequest(h: Hashes, l: Ledger, target: Digest): Result<Option<Request>, Fault> {
    var rows := Select(l.requests, OnTarget(target));
    if exists q :: q in rows && !Provenance(h, l.receipts, q) then Failure(Corrupt) else Success(Last(rows))
  }

  function RequestReadiness(h: Hashes, l: Ledger, w: World, target: Digest): Result<RequestState, Fault> {
    var projected := w.policy(target);
    if projected.None? then Failure(PolicyUnavailable)
    else if projected.value.decision != AllowRequest then Success(RequestState(PolicyNotAllowRequest, None, None))
    else
      var matching := MatchingReceipt(l.receipts, target, projected.value);
      if matching.None? then
        Success(RequestState(
          if exists c :: c in l.receipts && c.target == target then AdmissionReceiptStale else AdmissionReceiptRequired,
          None, None))
      else
        var sha := h.receipt(matching.value);
        var existing :- RequestForAdmission(h, l, sha);
        if existing.Some? then
          Success(RequestState(RequestAlreadyExists, Some(sha), Some(h.request(existing.value))))
        else Success(RequestState(RequestReady, Some(sha), None))
  }

  /** The row `create` appends, or why it refuses. */
  function CreateRequest(s: Site, l: Ledger, w: World, target: Digest, expected: Digest, at: int): Result<Request, Fault> {
    var state :- RequestReadiness(s.h, l, w, target);
    if state.reason != RequestReady then Failure(NotReady)
    else if state.admission != Some(expected) then Failure(Changed)
    else
      var receipt := ReceiptFor(s.h, l.receipts, expected);
      if receipt.None? || w.policy(target).None? then Failure(Changed)
      else
        Success(Request(s.h.receipt(receipt.value), target, receipt.value.intentRevision, receipt.value.profile,
                        w.policy(target).value.intentCode, s.requester, at))
  }

  // ------------------------------------------------------------ what the states mean to a caller

  /** Each state of readiness, by the rows that bring it about. */
  ghost predicate RequestStateSays(h: Hashes, l: Ledger, w: World, target: Digest, state: RequestState) {
    && w.policy(target).Some?
    && var p := w.policy(target).value;
    && (state.reason == PolicyNotAllowRequest <==> p.decision != AllowRequest)
    && match state.reason
       case PolicyNotAllowRequest => state.admission == state.existing == None
       case AdmissionReceiptRequired =>
         state.admission == state.existing == None && forall c :: c in l.receipts ==> c.target != target
       case AdmissionReceiptStale =>
         && state.admission == state.existing == None && (exists c :: c in l.receipts && c.target == target)
         && forall c :: c in l.receipts ==> !Admits(target, p)(c)
       case RequestAlreadyExists =>
         exists c, q :: Newest(l.receipts, Admits(target, p), c) && FiledFor(h, l, state, c, q)
       case RequestReady =>
         exists c :: Newest(l.receipts, Admits(target, p), c) && UnfiledFor(h, l, state, c)
  }

  /** The one request of the admission, with both digests reported. */
  ghost predicate FiledFor(h: Hashes, l: Ledger, state: RequestState, c: Receipt, q: Request) {
    && OnlyOne(l.requests, ForAdmission(h.receipt(c)), q)
    && state.admission == Some(h.receipt(c)) && state.existing == Some(h.request(q))
  }

  ghost predicate UnfiledFor(h: Hashes, l: Ledger, state: RequestState, c: Receipt) {
    && (forall q :: q in l.requests ==> q.admission != h.receipt(c))
    && state.admission == Some(h.receipt(c)) && state.existing == None
  }

  lemma NoneMatches(receipts: seq<Receipt>, target: Digest, p: Projection)
    ensures MatchingReceipt(receipts, target, p).None? <==> forall c :: c in receipts ==> !Admits(target, p)(c)
  {
    hide Admits;
    NoneSelected(receipts, Admits(target, p));
    if forall i :: 0 <= i < |receipts| ==> !Admits(target, p)(receipts[i]) {
      assert forall c :: c in receipts ==> !Admits(target, p)(c);
    } else {
      var i :| 0 <= i < |receipts| && Admits(target, p)(receipts[i]);
      assert receipts[i] in receipts;
    }
  }

  /** A lookup that reads back cleanly finds the one request of the admission, or there is none. */
  lemma RequestFound(h: Hashes, l: Ledger, sha: Digest)
    requires RequestForAdmission(h, l, sha).Success?
    ensures RequestForAdmission(h, l, sha).value == None <==> forall q :: q in l.requests ==> q.admission != sha
    ensures forall q :: RequestForAdmission(h, l, sha).value == Some(q) <==> OnlyOne(l.requests, ForAdmission(sha), q)
  {
    hide Provenance, OnlyOne;
    var rows := Select(l.requests, ForAdmission(sha));
    NoneSelected(l.requests, ForAdmission(sha));
    assert forall i :: 0 <= i < |l.requests| ==> l.requests[i] in l.requests;
    assert forall q :: q in l.requests ==> exists i :: 0 <= i < |l.requests| && l.requests[i] == q;
    forall q
      ensures OnlyOne(l.requests, ForAdmission(sha), q) <==> rows == [q]
    {
      OnlyOneIff(l.requests, ForAdmission(sha), q);
    }
  }

  lemma RequestStateIsSaid(h: Hashes, l: Ledger, w: World, target: Digest)
    requires RequestReadiness(h, l, w, target).Success?
    ensures RequestStateSays(h, l, w, target, RequestReadiness(h, l, w, target).value)
  {
    hide Admits, OnlyOne, Newest, MatchingReceipt, RequestForAdmission;
    var p := w.policy(target).value;
    if p.decision == AllowRequest {
      NoneMatches(l.receipts, target, p);
      var matching := MatchingReceipt(l.receipts, target, p);
      if matching.Some? {
        NewestMatch(l.receipts, target, p);
        var sha := h.receipt(matching.value);
        RequestFound(h, l, sha);
        var state := RequestReadiness(h, l, w, target).value;
        var existing := RequestForAdmission(h, l, sha).value;
        if existing.Some? {
          assert FiledFor(h, l, state, matching.value, existing.value);
        } else {
          assert UnfiledFor(h, l, state, matching.value);
        }
      }
    }
  }

  lemma NewestMatch(receipts: seq<Receipt>, target: Digest, p: Projection)
    requires MatchingReceipt(receipts, target, p).Some?
    ensures Newest(receipts, Admits(target, p), MatchingReceipt(receipts, target, p).value)
  {
    hide Admits;
    NewestIff(receipts, Admits(target, p), MatchingReceipt(receipts, target, p).value);
  }

  /** The row `create` appends, field by field, and what its refusals mean. */
  ghost predicate CreateSays(s: Site, l: Ledger, w: World, target: Digest, expected: Digest, at: int,
                             r: Result<Request, Fault>) {
    && (r.Success? ==> exists c :: c in l.receipts && FiledOn(s, l, w, target, expected, at, c, r.value))
    && (r == Failure(NotReady) ==> !Fileable(s.h, l, w, target))
    && (r == Failure(Changed) ==> Fileable(s.h, l, w, target) && forall c ::
          Newest(l.receipts, Admits(target, w.policy(target).value), c) ==> s.h.receipt(c) != expected)
  }

  ghost predicate Fileable(h: Hashes, l: Ledger, w: World, target: Digest) {
    && w.policy(target).Some? && w.policy(target).value.decision == AllowRequest
    && exists c :: Newest(l.receipts, Admits(target, w.policy(target).value), c)
                   && forall q :: q in l.requests ==> q.admission != h.receipt(c)
  }

  ghost predicate FiledOn(s: Site, l: Ledger, w: World, target: Digest, expected: Digest, at: int, c: Receipt, q: Request) {
    && Fileable(s.h, l, w, target) && s.h.receipt(c) == q.admission == expected && q.target == target
    && q.intentRevision == c.intentRevision && q.profile == c.profile
    && q.intentCode == w.policy(target).value.intentCode && q.requester == s.requester && q.requestedAt == at
  }

  lemma FileableIff(h: Hashes, l: Ledger, w: World, target: Digest)
    requires RequestReadiness(h, l, w, target).Success?
    ensures Fileable(h, l, w, target) <==> RequestReadiness(h, l, w, target).value.reason == RequestReady
  {
    hide Admits, OnlyOne, Newest, RequestReadiness;
    RequestStateIsSaid(h, l, w, target);
    var state := RequestReadiness(h, l, w, target).value;
    if Fileable(h, l, w, target) {
      var p := w.policy(target).value;
      var c :| Newest(l.receipts, Admits(target, p), c) && forall q :: q in l.requests ==> q.admission != h.receipt(c);
      NewestIsStored(l.receipts, Admits(target, p), c);
      AdmitsMeans(target, p, c);
      if state.reason == RequestAlreadyExists {
        var d, q :| Newest(l.receipts, Admits(target, p), d) && FiledFor(h, l, state, d, q);
        NewestUnique(l.receipts, Admits(target, p), c, d);
        OnlyOneIsStored(l.requests, ForAdmission(h.receipt(d)), q);
      }
    }
  }

  lemma CreateIsSaid(s: Site, l: Ledger, w: World, target: Digest, expected: Digest, at: int)
    ensures CreateSays(s, l, w, target, expected, at, CreateRequest(s, l, w, target, expected, at))
  {
    hide Admits, OnlyOne, Newest, RequestReadiness, ReceiptFor, Fileable;
    var state := RequestReadiness(s.h, l, w, target);
    if state.Success? {
      FileableIff(s.h, l, w, target);
      RequestStateIsSaid(s.h, l, w, target);
      if state.value.reason == RequestReady {
        var p := w.policy(target).value;
        var c :| Newest(l.receipts, Admits(target, p), c) && UnfiledFor(s.h, l, state.value, c);
        NewestIsStored(l.receipts, Admits(target, p), c);
        ReceiptFound(s.h, l.receipts, expected);
        forall d | Newest(l.receipts, Admits(target, p), d)
          ensures d == c
        {
          NewestUnique(l.receipts, Admits(target, p), c, d);
        }
      }
    } else {
      RequestStateFailure(s.h, l, w, target);
    }
  }

  lemma RequestStateFailure(h: Hashes, l: Ledger, w: World, target: Digest)
    requires RequestReadiness(h, l, w, target).Failure?
    ensures RequestReadiness(h, l, w, target).error == if w.policy(target).None? then PolicyUnavailable else Corrupt
  {
    hide MatchingReceipt, Provenance;
  }

  // ------------------------------------------------------------ the service

  class RequestService {
    const site: Site
    const ledger: RealityLedger

    constructor (site: Site, ledger: RealityLedger)
      ensures this.site == site && this.ledger == ledger
    {
      this.site, this.ledger := site, ledger;
    }

    /** `_receipt_by_sha256`: the first receipt with the digest. */
    method ReceiptBySha(sha: Digest) returns (r: Option<Receipt>)
      ensures r == ReceiptFor(site.h, ledger.receipts, sha)
    {
      var k := 0;
      while k < |ledger.receipts|
        invariant k <= |ledger.receipts|
        invariant Select(ledger.receipts[..k], HasDigest(site.h, sha)) == []
      {
        SelectSnoc(ledger.receipts[..k], ledger.receipts[k], HasDigest(site.h, sha));
        assert ledger.receipts[..k + 1] == ledger.receipts[..k] + [ledger.receipts[k]];
        if site.h.receipt(ledger.receipts[k]) == sha {
          SelectGrows(ledger.receipts[..k + 1], ledger.receipts, HasDigest(site.h, sha));
          return Some(ledger.receipts[k]);
        }
        k := k + 1;
      }
      assert ledger.receipts[..k] == ledger.receipts;
      r := None;
    }

    /** `_matching_admission_receipt`: search the target's receipts from the newest. */
    method MatchingAdmissionReceipt(target: Digest, p: Projection) returns (r: Option<Receipt>, any: bool)
      ensures r == MatchingReceipt(ledger.receipts, target, p)
      ensures any <==> exists c :: c in ledger.receipts && c.target == target
    {
      var rows := ledger.receipts;
      any := exists c :: c in rows && c.target == target;
      var k := |rows|;
      assert rows[..k] == rows;
      while k > 0
        invariant 0 <= k <= |rows|
        invariant Last(Select(rows[..k], Admits(target, p))) == MatchingReceipt(rows, target, p)
      {
        assert rows[..k] == rows[..k - 1] + [rows[k - 1]];
        SelectSnoc(rows[..k - 1], rows[k - 1], Admits(target, p));
        if Admits(target, p)(rows[k - 1]) {
          return Some(rows[k - 1]), any;
        }
        k := k - 1;
      }
      assert rows[..0] == [];
      r := None;
    }

    /** `_request_for_admission`: every row is validated as it is read. */
    method FindForAdmission(sha: Digest) returns (r: Result<Option<Request>, Fault>)
      ensures r == RequestForAdmission(site.h, ledger.Rows(), sha)
    {
      hide Provenance;
      var rows := ledger.requests;
      var matches: seq<Request> := [];
      var k := 0;
      while k < |rows|
        invariant k <= |rows|
        invariant forall i :: 0 <= i < k ==> Provenance(site.h, ledger.receipts, rows[i])
        invariant matches == Select(rows[..k], ForAdmission(sha))
      {
        assert rows[..k + 1] == rows[..k] + [rows[k]];
        SelectSnoc(rows[..k], rows[k], ForAdmission(sha));
        var sound := ValidProvenance(rows[k]);
        if !sound {
          assert rows[k] in rows;
          return Failure(Corrupt);
        }
        if rows[k].admission == sha {
          matches := matches + [rows[k]];
        }
        k := k + 1;
      }
      assert rows[..k] == rows;
      if |matches| > 1 {
        return Failure(Corrupt);
      }
      r := Success(First(matches));
    }

    method ValidProvenance(q: Request) returns (ok: bool)
      ensures ok == Provenance(site.h, ledger.receipts, q)
    {
      var c := ReceiptBySha(q.admission);
      if c.None? {
        return false;
      }
      ok := && c.value.target == q.target && c.value.intentRevision == q.intentRevision
            && c.value.profile == q.profile && c.value.decision == AllowRequest && c.value.eligible;
    }

    method Readiness(w: World, target: Digest) returns (r: Result<RequestState, Fault>)
      ensures r == RequestReadiness(site.h, ledger.Rows(), w, target)
      ensures r.Success? ==> RequestStateSays(site.h, ledger.Rows(), w, target, r.value)
      ensures r.Failure? ==> r.error == if w.policy(target).None? then PolicyUnavailable else Corrupt
    {
      hide RequestForAdmission, MatchingReceipt, RequestStateSays;
      if RequestReadiness(site.h, ledger.Rows(), w, target).Success? {
        RequestStateIsSaid(site.h, ledger.Rows(), w, target);
      } else {
        RequestStateFailure(site.h, ledger.Rows(), w, target);
      }
      var projected := w.policy(target);
      if projected.None? {
        return Failure(PolicyUnavailable);
      }
      if projected.value.decision != AllowRequest {
        return Success(RequestState(PolicyNotAllowRequest, None, None));
      }
      var matching, any := MatchingAdmissionReceipt(target, projected.value);
      if matching.None? {
        return Success(RequestState(if any then AdmissionReceiptStale else AdmissionReceiptRequired, None, None));
      }
      var sha := site.h.receipt(matching.value);
      var existing := FindForAdmission(sha);
      if existing.Failure? {
        return Failure(existing.error);
      }
      if existing.value.Some? {
        return Success(RequestState(RequestAlreadyExists, Some(sha), Some(site.h.request(existing.value.value))));
      }
      r := Success(RequestState(RequestReady, Some(sha), None));
    }

    /** `create`: appends one row or changes nothing. */
    method Create(w: World, target: Digest, expected: Digest, at: int) returns (r: Result<Request, Fault>)
      modifies ledger
      ensures r == CreateRequest(site, old(ledger.Rows()), w, target, expected, at)
      ensures CreateSays(site, old(ledger.Rows()), w, target, expected, at, r)
      ensures r.Success? ==> ledger.Rows() == old(ledger.Rows()).(requests := old(ledger.requests) + [r.value])
      ensures r.Failure? ==> ledger.Rows() == old(ledger.Rows())
    {
      hide RequestReadiness, ReceiptFor, RequestStateSays, CreateSays;
      CreateIsSaid(site, ledger.Rows(), w, target, expected, at);
      var state := Readiness(w, target);
      if state.Failure? {
        return Failure(state.error);
      }
      if state.value.reason != RequestReady {
        return Failure(NotReady);
      }
      if state.value.admission != Some(expected) {
        return Failure(Changed);
      }
      var receipt := ReceiptBySha(expected);
      var projected := w.policy(target);
      if receipt.None? || projected.None? {
        return Failure(Changed);
      }
      var request := Request(site.h.receipt(receipt.value), target, receipt.value.intentRevision,
                             receipt.value.profile, projected.value.intentCode, site.requester, at);
      ledger.requests := ledger.requests + [request];
      r := Success(request);
    }
  }

  // ------------------------------------------------------------ what the invariant needs

  /** In the ledger's life: every request traces to its receipt, and no two share one. */
  ghost predicate RequestsInvariant(h: Hashes, l: Ledger) {
    && (forall q :: q in l.requests ==> Provenance(h, l.receipts, q))
    && (forall i, j :: 0 <= i < j < |l.requests| ==> l.requests[i].admission != l.requests[j].admission)
  }

  lemma ReceiptFound(h: Hashes, receipts: seq<Receipt>, sha: Digest)
    ensures var c := ReceiptFor(h, receipts, sha);
      && (c.Some? ==> c.value in receipts && h.receipt(c.value) == sha)
      && (c.None? ==> forall x :: x in receipts ==> h.receipt(x) != sha)
  {
    SelectMembers(receipts, HasDigest(h, sha));
    var found := Select(receipts, HasDigest(h, sha));
    if found != [] {
      assert found[0] in found;
    }
  }

  /** Later receipts never change which one a digest names. */
  lemma ReceiptForGrows(h: Hashes, receipts: seq<Receipt>, more: seq<Receipt>, sha: Digest)
    requires receipts <= more && ReceiptFor(h, receipts, sha).Some?
    ensures ReceiptFor(h, more, sha) == ReceiptFor(h, receipts, sha)
  {
    SelectGrows(receipts, more, HasDigest(h, sha));
  }

  lemma ReceiptAppended(h: Hashes, l: Ledger, c: Receipt)
    requires RequestsInvariant(h, l)
    ensures RequestsInvariant(h, l.(receipts := l.receipts + [c]))
  {
    forall q | q in l.requests
      ensures Provenance(h, l.receipts + [c], q)
    {
      ReceiptForGrows(h, l.receipts, l.receipts + [c], q.admission);
    }
  }

  /** With the invariant no stored row is ever refused, so the "multiple requests" error is unreachable. */
  lemma RequestsReadable(h: Hashes, l: Ledger, sha: Digest, target: Digest)
    requires RequestsInvariant(h, l)
    ensures RequestForAdmission(h, l, sha).Success? && LatestRequest(h, l, target).Success?
  {
    hide Provenance;
    SelectUnique(l.requests, ForAdmission(sha));
    SelectMembers(l.requests, OnTarget(target));
  }

  lemma LatestIsStored(h: Hashes, l: Ledger, target: Digest)
    requires LatestRequest(h, l, target).Success? && LatestRequest(h, l, target).value.Some?
    ensures LatestRequest(h, l, target).value.value in l.requests
    ensures LatestRequest(h, l, target).value.value.target == target
  {
    hide Provenance;
    SelectMembers(l.requests, OnTarget(target));
    var rows := Select(l.requests, OnTarget(target));
    assert rows[|rows| - 1] in rows;
  }

  lemma MatchingFound(receipts: seq<Receipt>, target: Digest, p: Projection)
    requires MatchingReceipt(receipts, target, p).Some?
    ensures MatchingReceipt(receipts, target, p).value in receipts
    ensures Admits(target, p)(MatchingReceipt(receipts, target, p).value)
  {
    SelectMembers(receipts, Admits(target, p));
    var rows := Select(receipts, Admits(target, p));
    assert rows[|rows| - 1] in rows;
  }

  /** A filed request repeats the receipt its digest names, and is the only one for it. */
  lemma CreatedIsSound(s: Site, l: Ledger, w: World, target: Digest, expected: Digest, at: int)
    requires s.h.CollisionFree() && RequestsInvariant(s.h, l)
    requires CreateRequest(s, l, w, target, expected, at).Success?
    ensures var q := CreateRequest(s, l, w, target, expected, at).value;
      && RequestsInvariant(s.h, l.(requests := l.requests + [q]))
      && (forall x :: x in l.requests ==> x.admission != q.admission)
  {
    hide Admits;
    var q := CreateRequest(s, l, w, target, expected, at).value;
    var p := w.policy(target).value;
    MatchingFound(l.receipts, target, p);
    var c := MatchingReceipt(l.receipts, target, p).value;
    ReceiptFound(s.h, l.receipts, expected);
    assert ReceiptFor(s.h, l.receipts, expected).value == c;
    SelectMembers(l.requests, ForAdmission(expected));
    forall x | x in l.requests
      ensures x.admission != q.admission
    {
      assert x in Select(l.requests, ForAdmission(expected)) <==> x.admission == expected;
    }
    AdmitsMeans(target, p, c);
  }

  /** Exactly the eligible allowing receipts of the target under the policy's revision and profile admit. */
  lemma AdmitsMeans(target: Digest, p: Projection, c: Receipt)
    ensures Admits(target, p)(c)
        <==> c.target == target && c.decision == AllowRequest && c.eligible
             && c.intentRevision == p.intentRevision && c.profile == p.profile
  {
  }

  /** When a request is current, the policy still allows it under the very revision and profile it was filed for. */
  lemma CurrentRequestMatchesPolicy(h: Hashes, l: Ledger, w: World, target: Digest, q: Request)
    requires h.CollisionFree() && RequestsInvariant(h, l) && q in l.requests
    requires RequestReadiness(h, l, w, target).Success?
    requires RequestReadiness(h, l, w, target).value.reason == RequestAlreadyExists
    requires RequestReadiness(h, l, w, target).value.existing == Some(h.request(q))
    ensures w.policy(target).Some? && w.policy(target).value.decision == AllowRequest
    ensures q.target == target
    ensures q.intentRevision == w.policy(target).value.intentRevision && q.profile == w.policy(target).value.profile
  {
    var p := w.policy(target).value;
    MatchingFound(l.receipts, target, p);
    var c := MatchingReceipt(l.receipts, target, p).value;
    var sha := h.receipt(c);
    SelectMembers(l.requests, ForAdmission(sha));
    var found := Select(l.requests, ForAdmission(sha));
    assert found[0] in found;
    assert found[0] == q;
    ReceiptFound(h, l.receipts, sha);
    assert Provenance(h, l.receipts, q);
    assert ReceiptFor(h, l.receipts, sha).value == c;
  }
}
