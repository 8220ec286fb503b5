/**
 The chain moves: what each service reports ready can be done, and what is done
 is what the next service finds ready. Under one unchanging world an admission
 that the policy allows is carried to a lease in four steps.
 */
module AuthorityProgress {
  import opened Wrappers
  import opened AuthorityEpoch
  import opened EnforcementProfile
  import opened AuthorityLedger
  import opened AuthorityRequest
  import opened AuthorizationDecision
  import opened CapabilityBinding
  import opened ActionLeaseService
  import opened AuthorityRuns

  // ------------------------------------------------------------ requests

  /**
   Filing is ready exactly when the policy allows it, an eligible receipt
   matches the policy's current answer, and no request names the newest such receipt.
   */
  lemma RequestReadyIff(h: Hashes, l: Ledger, w: World, target: Digest)
    requires RequestsInvariant(h, l)
    ensures RequestReadiness(h, l, w, target).Success? && RequestReadiness(h, l, w, target).value.reason == RequestReady
        <==>
            && w.policy(target).Some? && w.policy(target).value.decision == AllowRequest
            && MatchingReceipt(l.receipts, target, w.policy(target).value).Some?
            && forall q :: q in l.requests ==>
                 q.admission != h.receipt(MatchingReceipt(l.receipts, target, w.policy(target).value).value)
  {
    hide MatchingReceipt, Provenance;
    if w.policy(target).Some? && MatchingReceipt(l.receipts, target, w.policy(target).value).Some? {
      var sha := h.receipt(MatchingReceipt(l.receipts, target, w.policy(target).value).value);
      RequestsReadable(h, l, sha, target);
      SelectMembers(l.requests, ForAdmission(sha));
      var found := Select(l.requests, ForAdmission(sha));
      if found != [] {
        assert found[0] in found;
      }
      assert forall q :: q in l.requests && q.admission == sha ==> q in found;
    }
  }

  /** A ready request can be filed. */
  lemma ReadyIsFilable(s: Site, l: Ledger, w: World, target: Digest, at: int)
    requires RequestReadiness(s.h, l, w, target).Success?
    requires RequestReadiness(s.h, l, w, target).value.reason == RequestReady
    ensures RequestReadiness(s.h, l, w, target).value.admission.Some?
    ensures var r := CreateRequest(s, l, w, target, RequestReadiness(s.h, l, w, target).value.admission.value, at);
      && r.Success? && r.value.target == target && r.value.intentCode == w.policy(target).value.intentCode
  {
    hide RequestForAdmission;
    var p := w.policy(target).value;
    MatchingFound(l.receipts, target, p);
    ReceiptFound(s.h, l.receipts, s.h.receipt(MatchingReceipt(l.receipts, target, p).value));
  }

  /** Once filed, the request is the target's latest and current, with an empty history open for decisions. */
  lemma FiledIsDecidable(s: Site, l: Ledger, w: World, target: Digest, expected: Digest, at: int)
    requires s.h.CollisionFree() && Invariant(s, l) && CreateRequest(s, l, w, target, expected, at).Success?
    ensures var q := CreateRequest(s, l, w, target, expected, at).value; var after := AfterCreate(s, l, w, target, expected, at);
      && q in after.requests && LatestRequest(s.h, after, target) == Success(Some(q))
      && CurrentRequest(s.h, after, w, target, q)
      && History(s.h, after, q) == []
      && DecisionReadiness(s.h, after, w, target) == Success(DecisionState(DecisionReady, Some(s.h.request(q)), None, false))
  {
    hide RequestsInvariant, DecisionsInvariant, BindingsInvariant, LeasesInvariant, Hashes.CollisionFree;
    StepCreate(s, l, w, target, expected, at);
    var q := CreateRequest(s, l, w, target, expected, at).value;
    var after := AfterCreate(s, l, w, target, expected, at);
    FiledIsLatest(s, l, w, target, expected, at);
    FiledIsCurrent(s, l, w, target, expected, at);
    FreshHistory(s, l, q, w, target, expected, at);
    OpenHistoryReady(s.h, after, w, target, q);
  }

  ghost predicate CurrentRequest(h: Hashes, l: Ledger, w: World, target: Digest, q: Request) {
    && RequestReadiness(h, l, w, target).Success?
    && RequestReadiness(h, l, w, target).value.reason == RequestAlreadyExists
    && RequestReadiness(h, l, w, target).value.existing == Some(h.request(q))
  }

  lemma FiledIsLatest(s: Site, l: Ledger, w: World, target: Digest, expected: Digest, at: int)
    requires CreateRequest(s, l, w, target, expected, at).Success?
    requires RequestsInvariant(s.h, AfterCreate(s, l, w, target, expected, at))
    ensures LatestRequest(s.h, AfterCreate(s, l, w, target, expected, at), target)
         == Success(Some(CreateRequest(s, l, w, target, expected, at).value))
  {
    hide RequestReadiness, ReceiptFor, RequestsInvariant, Provenance;
    var q := CreateRequest(s, l, w, target, expected, at).value;
    RequestsReadable(s.h, AfterCreate(s, l, w, target, expected, at), "", target);
    SelectSnoc(l.requests, q, OnTarget(target));
  }

  lemma FiledIsCurrent(s: Site, l: Ledger, w: World, target: Digest, expected: Digest, at: int)
    requires s.h.CollisionFree() && CreateRequest(s, l, w, target, expected, at).Success?
    requires RequestsInvariant(s.h, l) && RequestsInvariant(s.h, AfterCreate(s, l, w, target, expected, at))
    ensures CurrentRequest(s.h, AfterCreate(s, l, w, target, expected, at), w, target,
                           CreateRequest(s, l, w, target, expected, at).value)
  {
    hide MatchingReceipt, Provenance, RequestsInvariant, Select;
    var q := CreateRequest(s, l, w, target, expected, at).value;
    var after := AfterCreate(s, l, w, target, expected, at);
    ReceiptFound(s.h, l.receipts, expected);
    RequestsReadable(s.h, after, expected, target);
    SelectSnoc(l.requests, q, ForAdmission(expected));
    NoneFiled(s, l, w, target, expected, at);
  }

  lemma NoneFiled(s: Site, l: Ledger, w: World, target: Digest, expected: Digest, at: int)
    requires CreateRequest(s, l, w, target, expected, at).Success?
    ensures Select(l.requests, ForAdmission(expected)) == []
  {
    hide MatchingReceipt, Provenance, ReceiptFor;
  }

  lemma FreshHistory(s: Site, l: Ledger, q: Request, w: World, target: Digest, expected: Digest, at: int)
    requires s.h.CollisionFree() && RequestsInvariant(s.h, l) && DecisionsInvariant(s.h, l)
    requires CreateRequest(s, l, w, target, expected, at) == Success(q)
    ensures History(s.h, AfterCreate(s, l, w, target, expected, at), q) == []
  {
    hide CreateRequest, GoodChain, RequestsInvariant;
    CreatedIsSound(s, l, w, target, expected, at);
    forall i | 0 <= i < |l.decisions|
      ensures l.decisions[i].request != s.h.request(q)
    {
      assert Filed(s.h, l, l.decisions[i]);
    }
    SelectNone(l.decisions, ForRequest(s.h.request(q)));
  }

  // ------------------------------------------------------------ decisions

  /** A current latest request stands as its history does. */
  lemma OpenHistoryReady(h: Hashes, l: Ledger, w: World, target: Digest, q: Request)
    requires RequestsInvariant(h, l) && DecisionsInvariant(h, l) && q in l.requests
    requires LatestRequest(h, l, target) == Success(Some(q)) && CurrentRequest(h, l, w, target, q)
    ensures DecisionChain(h, l, q) == Success(History(h, l, q))
    ensures DecisionReadiness(h, l, w, target) == Success(Standing(h, h.request(q), History(h, l, q)))
    ensures LatestDecision(h, l, target) == Success(Last(History(h, l, q)))
  {
    hide RequestReadiness, LatestRequest, GoodChain, RequestsInvariant;
  }

  /** On a ready request any decision can be recorded, and it becomes the standing of the request. */
  lemma ReadyIsRecordable(s: Site, l: Ledger, w: World, target: Digest, q: Request, kind: Kind, at: int, note: string)
    requires s.h.CollisionFree() && Invariant(s, l) && q in l.requests && Open(History(s.h, l, q))
    requires LatestRequest(s.h, l, target) == Success(Some(q)) && CurrentRequest(s.h, l, w, target, q)
    ensures DecisionReadiness(s.h, l, w, target).Success?
    ensures var state := DecisionReadiness(s.h, l, w, target).value;
            var r := RecordDecision(s, l, w, target, s.h.request(q), state.latest, kind, at, note);
            var after := AfterRecord(s, l, w, target, s.h.request(q), state.latest, kind, at, note);
      && state.reason == DecisionReady && r == Success(Extend(s, q, History(s.h, l, q), kind, at, note))
      && after == l.(decisions := l.decisions + [r.value])
      && LatestRequest(s.h, after, target) == Success(Some(q)) && CurrentRequest(s.h, after, w, target, q)
      && LatestDecision(s.h, after, target) == Success(Some(r.value))
      && DecisionReadiness(s.h, after, w, target) == Success(Standing(s.h, s.h.request(q), History(s.h, l, q) + [r.value]))
  {
    hide RequestReadiness, LatestRequest, DecisionChain, RequestsInvariant, DecisionsInvariant, BindingsInvariant;
    hide LeasesInvariant, Hashes.CollisionFree;
    OpenHistoryReady(s.h, l, w, target, q);
    var state := DecisionReadiness(s.h, l, w, target).value;
    StepRecord(s, l, w, target, s.h.request(q), state.latest, kind, at, note);
    var d := Extend(s, q, History(s.h, l, q), kind, at, note);
    var after := AfterRecord(s, l, w, target, s.h.request(q), state.latest, kind, at, note);
    assert after == l.(decisions := l.decisions + [d]);
    SelectSnoc(l.decisions, d, ForRequest(s.h.request(q)));
    SameRequests(s.h, l, after, w, target);
    OpenHistoryReady(s.h, after, w, target, q);
  }

  /** Decisions, bindings and leases do not affect which request is current. */
  lemma SameRequests(h: Hashes, l: Ledger, after: Ledger, w: World, target: Digest)
    requires after.receipts == l.receipts && after.requests == l.requests
    ensures LatestRequest(h, after, target) == LatestRequest(h, l, target)
    ensures RequestReadiness(h, after, w, target) == RequestReadiness(h, l, w, target)
  {
    hide Provenance, Select;
  }

  // ------------------------------------------------------------ bindings

  /** The one mapping, and evidence that meets it, for an approved decision. */
  ghost predicate Bindable(s: Site, w: World, d: Decision, m: Mapping, o: Observation) {
    && Select(s.mappings, ForIntent(d.intentCode)) == [m]
    && w.evidence(d.target) == Found(o) && Meets(m, o) && o.clickable
  }

  /** An approval just recorded, with its mapping and evidence, is ready to bind, and once bound is current. */
  lemma ApprovedIsBindable(s: Site, l: Ledger, w: World, target: Digest, d: Decision, m: Mapping, o: Observation, at: int)
    requires s.Valid() && Invariant(s, l) && Bindable(s, w, d, m, o)
    requires ApprovedDecision(s.h, l, w, target) == Success(Some(d)) && d.target == target
    requires forall b :: b in l.bindings ==> b.decision != s.h.decision(d)
    ensures BindingReadiness(s, l, w, target)
         == Success(BindingState(BindingReady, Some(s.h.decision(d)), Some(s.h.mapping(m)), Some(s.h.observation(o)), None))
    ensures var r := CreateBinding(s, l, w, target, s.h.decision(d), s.h.mapping(m), s.h.mappings(s.mappings), at);
      && r == Success(Bind(s, d, m, o, at))
  {
    hide ApprovedDecision, LatestDecision, DecisionReadiness, RequestsInvariant, DecisionsInvariant, LeasesInvariant;
    hide Hashes.CollisionFree, KnownBinding;
    SelectMembers(s.mappings, ForIntent(d.intentCode));
    assert m in Select(s.mappings, ForIntent(d.intentCode));
    ValidMapping(s, m);
    BindingsReadable(s, l, s.h.decision(d), target);
    SelectNone(l.bindings, ForDecision(s.h.decision(d)));
  }

  lemma BoundIsCurrent(s: Site, l: Ledger, w: World, target: Digest, d: Decision, m: Mapping, o: Observation, at: int)
    requires Bindable(s, w, d, m, o) && m.capabilityId == DESKTOP_CLICK && d.target == target
    requires ApprovedDecision(s.h, l, w, target) == Success(Some(d))
    requires forall b :: b in l.bindings ==> b.decision != s.h.decision(d)
    requires BindingsInvariant(s, l.(bindings := l.bindings + [Bind(s, d, m, o, at)]))
    ensures var b := Bind(s, d, m, o, at); var after := l.(bindings := l.bindings + [b]);
      && LatestBinding(s, after, target) == Success(Some(b))
      && BindingReadiness(s, after, w, target).Success?
      && BindingReadiness(s, after, w, target).value.reason == BindingAlreadyExists
      && BindingReadiness(s, after, w, target).value.existing == Some(s.h.binding(b))
  {
    hide KnownBinding, BindingsInvariant, LatestDecision, DecisionReadiness, ApprovedDecision, Select;
    var b := Bind(s, d, m, o, at);
    var after := l.(bindings := l.bindings + [b]);
    BindingsReadable(s, after, s.h.decision(d), target);
    SameApproval(s.h, l, after, w, target);
    SelectSnoc(l.bindings, b, BindsTarget(target));
    SelectSnoc(l.bindings, b, ForDecision(s.h.decision(d)));
    SelectNone(l.bindings, ForDecision(s.h.decision(d)));
  }

  /** Bindings do not affect which decision is approved. */
  lemma SameApproval(h: Hashes, l: Ledger, after: Ledger, w: World, target: Digest)
    requires after.receipts == l.receipts && after.requests == l.requests && after.decisions == l.decisions
    ensures ApprovedDecision(h, after, w, target) == ApprovedDecision(h, l, w, target)
  {
    hide Provenance, GoodChain, Select;
    SameDecisions(h, l, after, w, target);
  }

  lemma SameDecisions(h: Hashes, l: Ledger, after: Ledger, w: World, target: Digest)
    requires after.receipts == l.receipts && after.requests == l.requests && after.decisions == l.decisions
    ensures LatestDecision(h, after, target) == LatestDecision(h, l, target)
    ensures DecisionReadiness(h, after, w, target) == DecisionReadiness(h, l, w, target)
  {
    hide Provenance, GoodChain, Select, LatestRequest, RequestReadiness;
    SameRequests(h, l, after, w, target);
  }

  // ------------------------------------------------------------ leases

  /** A policy, an enforcement map and an epoch that support leasing what the mapping binds. */
  ghost predicate Leasable(s: Site, w: World, b: Binding, policy: LeasePolicy, epoch: Epoch) {
    && Select(s.policies, Covers(b)) == [policy]
    && (var built := BuildProfile(s.h.lease.intent(b.intent), b.intent, policy.rules);
        built.Success? && built.value.MappingComplete() && policy.accepted == built.value.WithoutEnforced())
    && w.epoch == Some(epoch) && epoch.Valid() && epoch.principal == policy.principal
    && EpochCurrent(epoch, w.now) && b.permissions <= epoch.grants
  }

  /** A current binding with no lease is ready exactly when policy, profile and epoch support it. */
  lemma BoundIsLeasable(s: Site, l: Ledger, w: World, target: Digest, b: Binding, policy: LeasePolicy, epoch: Epoch)
    requires Leasable(s, w, b, policy, epoch) && LeasesInvariant(s, l)
    requires forall r :: r in l.leases ==> r.binding != s.h.binding(b)
    requires LatestBinding(s, l, target) == Success(Some(b)) && BindingReadiness(s, l, w, target).Success?
    requires BindingReadiness(s, l, w, target).value.reason == BindingAlreadyExists
    requires BindingReadiness(s, l, w, target).value.existing == Some(s.h.binding(b))
    ensures TrustedState(s, l, w, target).Success? && TrustedState(s, l, w, target).value.reason == LeaseReady
    ensures AsExpected(s, TrustedState(s, l, w, target).value, Seen(s, b, policy, epoch))
  {
    hide LatestBinding, BindingReadiness, ValidRecord, Profile.MappingComplete, Profile.WithoutEnforced, BuildProfile;
    hide EpochCurrent, Covers, LeasesInvariant;
    LeasesReadable(s, l, s.h.binding(b));
    SelectNone(l.leases, ForBinding(s.h.binding(b)));
  }

  /** The digests a caller sees when it reviews a lease before issuing it. */
  ghost function Seen(s: Site, b: Binding, policy: LeasePolicy, epoch: Epoch): Expected
    requires BuildProfile(s.h.lease.intent(b.intent), b.intent, policy.rules).Success?
  {
    Expected(s.h.binding(b), s.h.policy(policy), s.h.policies(s.policies),
             s.h.lease.profile(BuildProfile(s.h.lease.intent(b.intent), b.intent, policy.rules).value), s.h.lease.epoch(epoch))
  }

  // ------------------------------------------------------------ end to end

  /** No stored binding can name a decision that has not been made. */
  lemma UnmadeIsUnbound(s: Site, l: Ledger, d: Decision)
    requires s.h.CollisionFree() && BindingsInvariant(s, l) && d !in l.decisions
    ensures forall b :: b in l.bindings ==> b.decision != s.h.decision(d)
  {
    hide KnownBinding;
    forall b | b in l.bindings
      ensures b.decision != s.h.decision(d)
    {
      assert Approved(s.h, l, b);
    }
  }

  /** No stored lease can rest on a binding that has not been made. */
  lemma UnmadeIsUnleased(s: Site, l: Ledger, b: Binding)
    requires s.h.CollisionFree() && LeasesInvariant(s, l) && b !in l.bindings
    ensures forall r :: r in l.leases ==> r.binding != s.h.binding(b)
  {
    hide ValidRecord, Bounded;
    forall r | r in l.leases
      ensures r.binding != s.h.binding(b)
    {
      assert Backed(s.h, l, r);
    }
  }

  /** A newly filed and approved request: its decision is the approved one and nothing is bound to it. */
  lemma FiledAndApproved(s: Site, l: Ledger, w: World, target: Digest, at: int)
    returns (l2: Ledger, d: Decision)
    requires s.Valid() && Invariant(s, l)
    requires RequestReadiness(s.h, l, w, target).Success?
    requires RequestReadiness(s.h, l, w, target).value.reason == RequestReady
    ensures var a := RequestReadiness(s.h, l, w, target).value.admission;
      && a.Some? && CreateRequest(s, l, w, target, a.value, at).Success?
      && var q := CreateRequest(s, l, w, target, a.value, at).value;
      && l2 == AfterRecord(s, AfterCreate(s, l, w, target, a.value, at), w, target, s.h.request(q), None, Approve, at, "")
    ensures Invariant(s, l2) && l2.bindings == l.bindings && l2.leases == l.leases
    ensures var l1 := AfterCreate(s, l, w, target, RequestReadiness(s.h, l, w, target).value.admission.value, at);
      |l1.requests| == |l.requests| + 1 && |l2.decisions| == |l1.decisions| + 1
    ensures ApprovedDecision(s.h, l2, w, target) == Success(Some(d)) && d.target == target
    ensures d.intentCode == w.policy(target).value.intentCode
    ensures forall b :: b in l.bindings ==> b.decision != s.h.decision(d)
  {
    hide Site.Valid, Invariant, RequestReadiness, CreateRequest, RecordDecision, DecisionReadiness, LatestRequest;
    hide LatestDecision, CurrentRequest, Select;
    ValidIsCollisionFree(s);
    ReadyIsFilable(s, l, w, target, at);
    var a := RequestReadiness(s.h, l, w, target).value.admission.value;
    var q := CreateRequest(s, l, w, target, a, at).value;
    var l1 := AfterCreate(s, l, w, target, a, at);
    StepCreate(s, l, w, target, a, at);
    FiledIsDecidable(s, l, w, target, a, at);
    ReadyIsRecordable(s, l1, w, target, q, Approve, at, "");
    l2 := AfterRecord(s, l1, w, target, s.h.request(q), None, Approve, at, "");
    StepRecord(s, l1, w, target, s.h.request(q), None, Approve, at, "");
    d := Extend(s, q, [], Approve, at, "");
    Unbound(s, l1, q, d);
  }

  /** A request without history has no decision, so none of its decisions is bound. */
  lemma Unbound(s: Site, l: Ledger, q: Request, d: Decision)
    requires s.h.CollisionFree() && Invariant(s, l) && History(s.h, l, q) == [] && d.request == s.h.request(q)
    ensures forall b :: b in l.bindings ==> b.decision != s.h.decision(d)
  {
    hide RequestsInvariant, DecisionsInvariant, LeasesInvariant, BindingsInvariant;
    SelectMembers(l.decisions, ForRequest(s.h.request(q)));
    assert d !in History(s.h, l, q);
    UnmadeIsUnbound(s, l, d);
  }

  /** Four operations taken in turn under one world. */
  ghost predicate InTurn(s: Site, w: World, ledgers: seq<Ledger>, ops: seq<Op>) {
    && |ops| == 4 && |ledgers| == 5
    && ops[0].Create? && ops[1].Record? && ops[2].BindAction? && ops[3].IssueAction?
    && forall i :: 0 <= i < 4 ==> ledgers[i + 1] == After(s, ledgers[i], Step(ops[i], w))
  }

  /** The world supports an approval of this intent for this target: one mapping, evidence, policy and epoch. */
  ghost predicate Supports(s: Site, w: World, target: Digest, code: string, at: int, m: Mapping, o: Observation,
                           policy: LeasePolicy, epoch: Epoch) {
    forall d: Decision :: d.target == target && d.intentCode == code ==>
      Bindable(s, w, d, m, o) && Leasable(s, w, Bind(s, d, m, o, at), policy, epoch)
  }

  /**
   End to end: from any ledger the services can reach, when filing is ready and
   the world supports the rest, filing, approving, binding and issuing in turn
   each add one row and end in a lease for this target.
   */
  lemma AdmissionReachesLease(s: Site, l: Ledger, w: World, target: Digest, at: int, m: Mapping, o: Observation,
                              policy: LeasePolicy, epoch: Epoch)
    returns (ledgers: seq<Ledger>, ops: seq<Op>)
    requires s.Valid() && Invariant(s, l)
    requires RequestReadiness(s.h, l, w, target).Success?
    requires RequestReadiness(s.h, l, w, target).value.reason == RequestReady
    requires w.policy(target).Some? && Supports(s, w, target, w.policy(target).value.intentCode, at, m, o, policy, epoch)
    ensures InTurn(s, w, ledgers, ops) && ledgers[0] == l && Invariant(s, ledgers[4])
    ensures |ledgers[4].requests| == |l.requests| + 1 && |ledgers[4].decisions| == |l.decisions| + 1
    ensures |ledgers[4].bindings| == |l.bindings| + 1 && |ledgers[4].leases| == |l.leases| + 1
    ensures ledgers[4].leases[|l.leases|].target == target
  {
    hide *;
    var l2, d := FiledAndApproved(s, l, w, target, at);
    var a := RequestReadiness(s.h, l, w, target).value.admission.value;
    var q := CreateRequest(s, l, w, target, a, at).value;
    var l1 := AfterCreate(s, l, w, target, a, at);
    Supported(s, w, target, w.policy(target).value.intentCode, at, m, o, policy, epoch, d);
    var l3, b := BindNext(s, l2, w, target, d, m, o, at);
    var l4, r := LeaseNext(s, l3, w, target, b, policy, epoch);
    CreateThenRecord(s, l, w, target, a, at);
    RecordKeepsRequests(s, l1, w, target, s.h.request(q), at);
    IssueKeepsRows(s, l3, w, target, Seen(s, b, policy, epoch));
    ops := [Create(target, a, at), Record(target, s.h.request(q), None, Approve, at, ""),
            BindAction(target, s.h.decision(d), s.h.mapping(m), s.h.mappings(s.mappings), at),
            IssueAction(target, Seen(s, b, policy, epoch))];
    ledgers := [l, l1, l2, l3, l4];
    TakenInTurn(s, w, ledgers, ops);
  }

  lemma Supported(s: Site, w: World, target: Digest, code: string, at: int, m: Mapping, o: Observation,
                  policy: LeasePolicy, epoch: Epoch, d: Decision)
    requires Supports(s, w, target, code, at, m, o, policy, epoch) && d.target == target && d.intentCode == code
    ensures Bindable(s, w, d, m, o) && Leasable(s, w, Bind(s, d, m, o, at), policy, epoch)
  {
  }

  lemma CreateThenRecord(s: Site, l: Ledger, w: World, target: Digest, expected: Digest, at: int)
    ensures var after := AfterCreate(s, l, w, target, expected, at);
      after.decisions == l.decisions && after.bindings == l.bindings && after.leases == l.leases
  {
  }

  lemma RecordKeepsRequests(s: Site, l: Ledger, w: World, target: Digest, request: Digest, at: int)
    ensures AfterRecord(s, l, w, target, request, None, Approve, at, "").requests == l.requests
  {
  }

  lemma IssueKeepsRows(s: Site, l: Ledger, w: World, target: Digest, x: Expected)
    ensures var after := AfterIssue(s, l, w, target, x);
      after.requests == l.requests && after.decisions == l.decisions && after.bindings == l.bindings
  {
  }

  lemma TakenInTurn(s: Site, w: World, ledgers: seq<Ledger>, ops: seq<Op>)
    requires |ops| == 4 && |ledgers| == 5
    requires ops[0].Create? && ops[1].Record? && ops[2].BindAction? && ops[3].IssueAction?
    requires ledgers[1] == AfterCreate(s, ledgers[0], w, ops[0].target, ops[0].expectedAdmission, ops[0].at)
    requires ledgers[2] == AfterRecord(s, ledgers[1], w, ops[1].target, ops[1].expectedRequest, ops[1].expectedPrevious,
                                       ops[1].kind, ops[1].at, ops[1].note)
    requires ledgers[3] == AfterBind(s, ledgers[2], w, ops[2].target, ops[2].expectedDecision, ops[2].expectedMapping,
                                     ops[2].expectedSet, ops[2].at)
    requires ledgers[4] == AfterIssue(s, ledgers[3], w, ops[3].target, ops[3].expected)
    ensures InTurn(s, w, ledgers, ops)
  {
    hide AfterCreate, AfterRecord, AfterBind, AfterIssue;
    forall i | 0 <= i < 4
      ensures ledgers[i + 1] == After(s, ledgers[i], Step(ops[i], w))
    {
      assert i == 0 || i == 1 || i == 2 || i == 3;
    }
  }

  lemma LeasableBuilds(s: Site, w: World, b: Binding, policy: LeasePolicy, epoch: Epoch)
    requires Leasable(s, w, b, policy, epoch)
    ensures BuildProfile(s.h.lease.intent(b.intent), b.intent, policy.rules).Success?
    ensures w.epoch.Some? ==> w.epoch.value.Valid()
  {
  }

  lemma BindNext(s: Site, l: Ledger, w: World, target: Digest, d: Decision, m: Mapping, o: Observation, at: int)
    returns (after: Ledger, b: Binding)
    requires s.Valid() && Invariant(s, l) && Bindable(s, w, d, m, o)
    requires ApprovedDecision(s.h, l, w, target) == Success(Some(d)) && d.target == target
    requires forall x :: x in l.bindings ==> x.decision != s.h.decision(d)
    ensures b == Bind(s, d, m, o, at) && after == l.(bindings := l.bindings + [b]) && Invariant(s, after)
    ensures after == AfterBind(s, l, w, target, s.h.decision(d), s.h.mapping(m), s.h.mappings(s.mappings), at)
    ensures LatestBinding(s, after, target) == Success(Some(b)) && BindingReadiness(s, after, w, target).Success?
    ensures BindingReadiness(s, after, w, target).value.reason == BindingAlreadyExists
    ensures BindingReadiness(s, after, w, target).value.existing == Some(s.h.binding(b))
    ensures forall r :: r in after.leases ==> r.binding != s.h.binding(b)
  {
    hide Site.Valid, RequestsInvariant, DecisionsInvariant, BindingsInvariant, LeasesInvariant, Select;
    hide ApprovedDecision, CreateBinding, BindingReadiness, LatestBinding;
    ValidIsCollisionFree(s);
    ApprovedIsBindable(s, l, w, target, d, m, o, at);
    b := Bind(s, d, m, o, at);
    after := l.(bindings := l.bindings + [b]);
    StepBind(s, l, w, target, s.h.decision(d), s.h.mapping(m), s.h.mappings(s.mappings), at);
    BindableMapping(s, w, d, m, o);
    BoundIsCurrent(s, l, w, target, d, m, o, at);
    UnmadeIsUnleased(s, l, b);
  }

  lemma BindableMapping(s: Site, w: World, d: Decision, m: Mapping, o: Observation)
    requires s.Valid() && Bindable(s, w, d, m, o)
    ensures m.capabilityId == DESKTOP_CLICK
  {
    hide Hashes.CollisionFree;
    SelectMembers(s.mappings, ForIntent(d.intentCode));
    assert m in Select(s.mappings, ForIntent(d.intentCode));
  }

  lemma LeaseNext(s: Site, l: Ledger, w: World, target: Digest, b: Binding, policy: LeasePolicy, epoch: Epoch)
    returns (after: Ledger, r: LeaseRecord)
    requires s.Valid() && Invariant(s, l) && Leasable(s, w, b, policy, epoch)
    requires LatestBinding(s, l, target) == Success(Some(b)) && BindingReadiness(s, l, w, target).Success?
    requires BindingReadiness(s, l, w, target).value.reason == BindingAlreadyExists
    requires BindingReadiness(s, l, w, target).value.existing == Some(s.h.binding(b))
    requires forall x :: x in l.leases ==> x.binding != s.h.binding(b)
    ensures BuildProfile(s.h.lease.intent(b.intent), b.intent, policy.rules).Success?
    ensures after == AfterIssue(s, l, w, target, Seen(s, b, policy, epoch)) && Invariant(s, after)
    ensures after.leases == l.leases + [r] && r.target == target
  {
    hide Site.Valid, RequestsInvariant, DecisionsInvariant, BindingsInvariant, LeasesInvariant, Select;
    hide LatestBinding, BindingReadiness, TrustedState, IssueLease, Leasable, BuildProfile, Epoch.Valid, AsExpected;
    LeasableBuilds(s, w, b, policy, epoch);
    BoundIsLeasable(s, l, w, target, b, policy, epoch);
    var x := Seen(s, b, policy, epoch);
    ReadyIsIssuable(s, l, w, target, x);
    StepIssue(s, l, w, target, x);
    ReadyMeans(s, l, w, target);
    after := AfterIssue(s, l, w, target, x);
    r := IssueLease(s, l, w, target, x).value;
  }
}
