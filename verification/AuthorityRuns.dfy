/**
 Every interleaving of the authority services on one ledger, the policy, the
 evidence, the epochs and the clock changing freely between locked steps.
 */
module AuthorityRuns {
  import opened Wrappers
  import opened AuthorityEpoch
  import opened EnforcementProfile
  import opened HashChain
  import opened ActionLease
  import opened AuthorityLedger
  import opened AuthorityRequest
  import opened AuthorizationDecision
  import opened CapabilityBinding
  import opened ActionLeaseService

  /** One locked step of one service; `Admit` is the policy service recording an admission. */
  datatype Op =
    | Admit(receipt: Receipt)
    | Create(target: Digest, expectedAdmission: Digest, at: int)
    | Record(target: Digest, expectedRequest: Digest, expectedPrevious: Option<Digest>, kind: Kind, at: int, note: string)
    | BindAction(target: Digest, expectedDecision: Digest, expectedMapping: Digest, expectedSet: Digest, at: int)
    | IssueAction(target: Digest, expected: Expected)

  datatype Step = Step(op: Op, world: World) {
    /** Receipts and epochs come from constructors that check their own contracts. */
    predicate Valid() {
      && (op.Admit? ==> op.receipt.Valid())
      && (world.epoch.Some? ==> world.epoch.value.Valid())
    }
  }

  const EMPTY := Ledger([], [], [], [], [])

  // What each operation leaves; a refused one leaves the ledger as it was.

  ghost function AfterCreate(s: Site, l: Ledger, w: World, target: Digest, expected: Digest, at: int): Ledger {
    match CreateRequest(s, l, w, target, expected, at)
    case Success(q) => l.(requests := l.requests + [q])
    case Failure(_) => l
  }

  ghost function AfterRecord(s: Site, l: Ledger, w: World, target: Digest, expectedRequest: Digest,
                             expectedPrevious: Option<Digest>, kind: Kind, at: int, note: string): Ledger {
    match RecordDecision(s, l, w, target, expectedRequest, expectedPrevious, kind, at, note)
    case Success(d) => l.(decisions := l.decisions + [d])
    case Failure(_) => l
  }

  ghost function AfterBind(s: Site, l: Ledger, w: World, target: Digest, expectedDecision: Digest,
                           expectedMapping: Digest, expectedSet: Digest, at: int): Ledger {
    match CreateBinding(s, l, w, target, expectedDecision, expectedMapping, expectedSet, at)
    case Success(b) => l.(bindings := l.bindings + [b])
    case Failure(_) => l
  }

  ghost function AfterIssue(s: Site, l: Ledger, w: World, target: Digest, x: Expected): Ledger {
    match IssueLease(s, l, w, target, x)
    case Success(r) => l.(leases := l.leases + [r])
    case Failure(_) => l
  }

  ghost function After(s: Site, l: Ledger, step: Step): Ledger {
    match step.op
    case Admit(receipt) => l.(receipts := l.receipts + [receipt])
    case Create(target, expectedAdmission, at) => AfterCreate(s, l, step.world, target, expectedAdmission, at)
    case Record(target, expectedRequest, expectedPrevious, kind, at, note) =>
      AfterRecord(s, l, step.world, target, expectedRequest, expectedPrevious, kind, at, note)
    case BindAction(target, expectedDecision, expectedMapping, expectedSet, at) =>
      AfterBind(s, l, step.world, target, expectedDecision, expectedMapping, expectedSet, at)
    case IssueAction(target, expected) => AfterIssue(s, l, step.world, target, expected)
  }

  ghost function Run(s: Site, steps: seq<Step>): Ledger {
    if steps == [] then EMPTY else After(s, Run(s, steps[..|steps| - 1]), steps[|steps| - 1])
  }

  ghost predicate ValidRun(steps: seq<Step>) {
    forall i :: 0 <= i < |steps| ==> steps[i].Valid()
  }

  ghost predicate Invariant(s: Site, l: Ledger) {
    RequestsInvariant(s.h, l) && DecisionsInvariant(s.h, l) && BindingsInvariant(s, l) && LeasesInvariant(s, l)
  }

  ghost predicate Extends(l: Ledger, after: Ledger) {
    && l.receipts <= after.receipts && l.requests <= after.requests && l.decisions <= after.decisions
    && l.bindings <= after.bindings && l.leases <= after.leases
  }

  // ------------------------------------------------------------ every step keeps the invariant

  lemma KeepDecisions(h: Hashes, l: Ledger, after: Ledger)
    requires DecisionsInvariant(h, l) && after.requests == l.requests && after.decisions == l.decisions
    ensures DecisionsInvariant(h, after)
  {
    hide GoodChain;
    forall d | d in after.decisions
      ensures Filed(h, after, d)
    {
      assert Filed(h, l, d);
    }
  }

  lemma KeepRequests(h: Hashes, l: Ledger, after: Ledger)
    requires RequestsInvariant(h, l) && after.receipts == l.receipts && after.requests == l.requests
    ensures RequestsInvariant(h, after)
  {
  }

  lemma StepKeepsInvariant(s: Site, l: Ledger, step: Step)
    requires s.Valid() && Invariant(s, l) && step.Valid()
    ensures Invariant(s, After(s, l, step)) && Extends(l, After(s, l, step))
  {
    hide Site.Valid, Invariant, Extends, AfterCreate, AfterRecord, AfterBind, AfterIssue;
    ValidIsCollisionFree(s);
    var w := step.world;
    match step.op
    case Admit(receipt) => StepAdmit(s, l, receipt);
    case Create(target, expectedAdmission, at) => StepCreate(s, l, w, target, expectedAdmission, at);
    case Record(target, expectedRequest, expectedPrevious, kind, at, note) =>
      StepRecord(s, l, w, target, expectedRequest, expectedPrevious, kind, at, note);
    case BindAction(target, expectedDecision, expectedMapping, expectedSet, at) =>
      StepBind(s, l, w, target, expectedDecision, expectedMapping, expectedSet, at);
    case IssueAction(target, expected) => StepIssue(s, l, w, target, expected);
  }

  lemma ValidIsCollisionFree(s: Site)
    requires s.Valid()
    ensures s.h.CollisionFree()
  {
  }

  lemma Unchanged(l: Ledger)
    ensures Extends(l, l)
  {
  }

  lemma StepAdmit(s: Site, l: Ledger, c: Receipt)
    requires Invariant(s, l)
    ensures var after := l.(receipts := l.receipts + [c]); Invariant(s, after) && Extends(l, after)
  {
    hide RequestsInvariant, DecisionsInvariant, BindingsInvariant, LeasesInvariant;
    var after := l.(receipts := l.receipts + [c]);
    ReceiptAppended(s.h, l, c);
    KeepDecisions(s.h, l, after);
    BindingsSurvive(s, l, after);
    LeasesSurvive(s, l, after);
  }

  lemma StepCreate(s: Site, l: Ledger, w: World, target: Digest, expected: Digest, at: int)
    requires s.h.CollisionFree() && Invariant(s, l)
    ensures var after := AfterCreate(s, l, w, target, expected, at); Invariant(s, after) && Extends(l, after)
  {
    hide CreateRequest, RequestsInvariant, DecisionsInvariant, BindingsInvariant, LeasesInvariant, Hashes.CollisionFree;
    var after := AfterCreate(s, l, w, target, expected, at);
    if CreateRequest(s, l, w, target, expected, at).Success? {
      CreatedIsSound(s, l, w, target, expected, at);
      RequestFiled(s.h, l, CreateRequest(s, l, w, target, expected, at).value);
      BindingsSurvive(s, l, after);
      LeasesSurvive(s, l, after);
    }
  }

  lemma StepRecord(s: Site, l: Ledger, w: World, target: Digest, expectedRequest: Digest,
                   expectedPrevious: Option<Digest>, kind: Kind, at: int, note: string)
    requires s.h.CollisionFree() && Invariant(s, l)
    ensures var after := AfterRecord(s, l, w, target, expectedRequest, expectedPrevious, kind, at, note);
      Invariant(s, after) && Extends(l, after)
  {
    hide RecordDecision, RequestsInvariant, DecisionsInvariant, BindingsInvariant, LeasesInvariant, Hashes.CollisionFree;
    var after := AfterRecord(s, l, w, target, expectedRequest, expectedPrevious, kind, at, note);
    if RecordDecision(s, l, w, target, expectedRequest, expectedPrevious, kind, at, note).Success? {
      DecisionRecorded(s, l, w, target, expectedRequest, expectedPrevious, kind, at, note);
      KeepRequests(s.h, l, after);
      BindingsSurvive(s, l, after);
      LeasesSurvive(s, l, after);
    }
  }

  lemma StepBind(s: Site, l: Ledger, w: World, target: Digest, expectedDecision: Digest, expectedMapping: Digest,
                 expectedSet: Digest, at: int)
    requires s.Valid() && Invariant(s, l)
    ensures var after := AfterBind(s, l, w, target, expectedDecision, expectedMapping, expectedSet, at);
      Invariant(s, after) && Extends(l, after)
  {
    hide CreateBinding, RequestsInvariant, DecisionsInvariant, BindingsInvariant, LeasesInvariant, Site.Valid;
    var after := AfterBind(s, l, w, target, expectedDecision, expectedMapping, expectedSet, at);
    if CreateBinding(s, l, w, target, expectedDecision, expectedMapping, expectedSet, at).Success? {
      BindingCreated(s, l, w, target, expectedDecision, expectedMapping, expectedSet, at);
      KeepRequests(s.h, l, after);
      KeepDecisions(s.h, l, after);
      LeasesSurvive(s, l, after);
    }
  }

  lemma StepIssue(s: Site, l: Ledger, w: World, target: Digest, x: Expected)
    requires s.Valid() && Invariant(s, l) && (w.epoch.Some? ==> w.epoch.value.Valid())
    ensures var after := AfterIssue(s, l, w, target, x); Invariant(s, after) && Extends(l, after)
  {
    hide IssueLease, RequestsInvariant, DecisionsInvariant, BindingsInvariant, LeasesInvariant, Site.Valid, Epoch.Valid;
    var after := AfterIssue(s, l, w, target, x);
    if IssueLease(s, l, w, target, x).Success? {
      LeaseIssued(s, l, w, target, x);
      KeepRequests(s.h, l, after);
      KeepDecisions(s.h, l, after);
      BindingsSurvive(s, l, after);
    }
  }

  lemma {:induction false} RunKeepsInvariant(s: Site, steps: seq<Step>)
    requires s.Valid() && ValidRun(steps)
    ensures Invariant(s, Run(s, steps))
  {
    hide Site.Valid;
    if steps == [] {
      EmptyInvariant(s);
    } else {
      var n := |steps| - 1;
      assert steps[..n + 1] == steps;
      RunKeepsInvariant(s, steps[..n]);
      hide Invariant, After, Extends;
      assert steps[n].Valid();
      StepKeepsInvariant(s, Run(s, steps[..n]), steps[n]);
    }
  }

  lemma EmptyInvariant(s: Site)
    ensures Invariant(s, EMPTY)
  {
  }

  // ------------------------------------------------------------ what holds of every run

  /** A lease with the rows it rests on, from the admission to the lease. */
  ghost predicate Traced(s: Site, l: Ledger, r: LeaseRecord, b: Binding, d: Decision, q: Request, c: Receipt) {
    && b in l.bindings && d in l.decisions && q in l.requests && c in l.receipts
    && RestsOn(s.h, r, b)
    && BoundTo(s.h, b, d)
    && Copies(s.h, d, q)
    && q.admission == s.h.receipt(c) && c.decision == AllowRequest && c.eligible
    && c.target == q.target && c.intentRevision == q.intentRevision && c.profile == q.profile
    && r.target == b.target == d.target == q.target
  }

  /**
   Provenance: whatever the interleaving, each lease traces through one binding
   to one approving decision, one request and an eligible admission receipt
   with the same target, intent and policy digests; and it keeps within the
   grants and window of the epoch it records.
   */
  lemma LeaseProvenance(s: Site, steps: seq<Step>, r: LeaseRecord)
    requires s.Valid() && ValidRun(steps) && r in Run(s, steps).leases
    ensures exists b, d, q, c :: Traced(s, Run(s, steps), r, b, d, q, c)
    ensures Bounded(r) && ValidRecord(s.h, r)
  {
    hide Site.Valid;
    var l := Run(s, steps);
    RunKeepsInvariant(s, steps);
    ValidIsCollisionFree(s);
    hide Run, ValidRecord, KnownBinding, GoodChain;
    assert Backed(s.h, l, r);
    var b :| b in l.bindings && RestsOn(s.h, r, b);
    var d, q, c := BindingProvenance(s, l, b);
    assert Traced(s, l, r, b, d, q, c);
  }

  /** A lease has one such trace. */
  lemma TraceUnique(s: Site, l: Ledger, r: LeaseRecord, b1: Binding, d1: Decision, q1: Request, c1: Receipt,
                    b2: Binding, d2: Decision, q2: Request, c2: Receipt)
    requires s.h.CollisionFree() && Traced(s, l, r, b1, d1, q1, c1) && Traced(s, l, r, b2, d2, q2, c2)
    ensures b1 == b2 && d1 == d2 && q1 == q2 && c1 == c2
  {
    assert s.h.binding(b1) == s.h.binding(b2);
    assert b1 == b2;
    assert s.h.decision(d1) == s.h.decision(d2);
    assert d1 == d2;
    assert s.h.request(q1) == s.h.request(q2);
    assert q1 == q2;
    assert s.h.receipt(c1) == s.h.receipt(c2);
  }

  lemma BindingProvenance(s: Site, l: Ledger, b: Binding) returns (d: Decision, q: Request, c: Receipt)
    requires s.h.CollisionFree() && Invariant(s, l) && b in l.bindings
    ensures d in l.decisions && q in l.requests && c in l.receipts
    ensures BoundTo(s.h, b, d) && Copies(s.h, d, q)
    ensures q.admission == s.h.receipt(c) && c.decision == AllowRequest && c.eligible
    ensures c.target == q.target && c.intentRevision == q.intentRevision && c.profile == q.profile
  {
    hide KnownBinding, Linked, LeasesInvariant;
    assert Approved(s.h, l, b);
    d :| d in l.decisions && BoundTo(s.h, b, d);
    assert Filed(s.h, l, d);
    q :| q in l.requests && s.h.request(q) == d.request;
    var rows := Select(l.decisions, ForRequest(s.h.request(q)));
    SelectMembers(l.decisions, ForRequest(s.h.request(q)));
    assert d in rows && GoodChain(s.h, q, rows);
    ReceiptFound(s.h, l.receipts, q.admission);
    assert Provenance(s.h, l.receipts, q);
    c := ReceiptFor(s.h, l.receipts, q.admission).value;
  }

  lemma RecordWithinEpoch(h: Hashes, r: LeaseRecord, now: int, currentEpoch: Digest, uses: nat)
    requires h.CollisionFree() && Bounded(r) && ValidRecord(h, r)
    ensures h.lease.CollisionFree() && r.lease.epoch == h.lease.epoch(r.epoch) && WithinEpoch(r.lease, r.epoch)
    ensures Evaluate(r.lease, now, currentEpoch, uses).usable ==> uses == 0
  {
  }

  /**
   No lease on the ledger outlives its grants. Take any lease of any run and the
   event history known at some later moment, however it came about: if the lease
   evaluates as usable under the epoch that history gives, the history grants
   all it carries. A lease whose grants were revoked or have lapsed is refused.
   */
  lemma LeasesNeverOutliveGrants(s: Site, steps: seq<Step>, r: LeaseRecord, current: Epoch, principal: string,
                                 policy: Digest, ceiling: set<Permission>, events: seq<Event>, now: int, uses: nat)
    requires s.Valid() && ValidRun(steps) && r in Run(s, steps).leases
    requires Consistent(events, ceiling) && Describes(current, principal, policy, ceiling, events, current.observed)
    requires Evaluate(r.lease, now, s.h.lease.epoch(current), uses).usable
    ensures current == r.epoch && uses == 0
    ensures r.lease.permissions <= GrantsAt(events, now) <= ceiling
    ensures forall e :: e in events ==> !(r.epoch.observed < e.effective <= now)
  {
    hide *;
    LeaseProvenance(s, steps, r);
    ValidIsCollisionFree(s);
    RecordWithinEpoch(s.h, r, now, s.h.lease.epoch(current), uses);
    UsableUnderCurrentHistory(s.h.lease, r.lease, r.epoch, current, principal, policy, ceiling, events, now, uses);
  }

  /** At most one request per admission, one binding per decision and one lease per binding. */
  lemma AtMostOnce(s: Site, steps: seq<Step>)
    requires s.Valid() && ValidRun(steps)
    ensures var l := Run(s, steps);
      && (forall i, j :: 0 <= i < j < |l.requests| ==> l.requests[i].admission != l.requests[j].admission)
      && (forall i, j :: 0 <= i < j < |l.bindings| ==> l.bindings[i].decision != l.bindings[j].decision)
      && (forall i, j :: 0 <= i < j < |l.leases| ==> l.leases[i].binding != l.leases[j].binding)
  {
    hide Site.Valid;
    RunKeepsInvariant(s, steps);
  }

  /**
   On every ledger a run can reach, no read-back check ever raises: readiness
   fails only when the policy, the evidence or the policy registry does.
   */
  lemma NeverCorrupt(s: Site, steps: seq<Step>, w: World, target: Digest)
    requires s.Valid() && ValidRun(steps)
    ensures var l := Run(s, steps);
      && RequestReadiness(s.h, l, w, target) != Failure(Corrupt)
      && DecisionReadiness(s.h, l, w, target) != Failure(Corrupt)
      && BindingReadiness(s, l, w, target) != Failure(Corrupt)
      && TrustedState(s, l, w, target) != Failure(Corrupt)
  {
    hide Site.Valid;
    var l := Run(s, steps);
    RunKeepsInvariant(s, steps);
    hide Run, RequestsInvariant, DecisionsInvariant, BindingsInvariant, LeasesInvariant;
    hide RequestReadiness, DecisionReadiness, BindingReadiness, TrustedState;
    RequestNeverCorrupt(s.h, l, w, target);
    if DecisionReadiness(s.h, l, w, target).Failure? {
      PolicyFault(s.h, l, w, target);
    }
    if BindingReadiness(s, l, w, target).Failure? {
      BindingReadinessFaults(s, l, w, target);
    }
    if TrustedState(s, l, w, target).Failure? {
      LeaseReadinessFaults(s, l, w, target);
    }
  }

  lemma RequestNeverCorrupt(h: Hashes, l: Ledger, w: World, target: Digest)
    requires RequestsInvariant(h, l)
    ensures RequestReadiness(h, l, w, target) != Failure(Corrupt)
  {
    hide RequestsInvariant, MatchingReceipt;
    if w.policy(target).Some? && MatchingReceipt(l.receipts, target, w.policy(target).value).Some? {
      RequestsReadable(h, l, h.receipt(MatchingReceipt(l.receipts, target, w.policy(target).value).value), target);
    }
  }

  /** Every request's history has the form HOLD* (APPROVE | DENY)?, and the reader accepts it. */
  lemma HistoriesAccepted(s: Site, steps: seq<Step>, q: Request)
    requires s.Valid() && ValidRun(steps) && q in Run(s, steps).requests
    ensures var l := Run(s, steps);
      DecisionChain(s.h, l, q) == Success(History(s.h, l, q)) && HoldsThenTerminal(History(s.h, l, q))
  {
    hide Site.Valid;
    RunKeepsInvariant(s, steps);
  }

  /** Later steps only ever extend a ledger file or a request's history; a terminal history stays as it is. */
  lemma {:induction false} HistoriesOnlyExtend(s: Site, steps: seq<Step>, k: nat, q: Request)
    requires s.Valid() && ValidRun(steps) && k <= |steps| && q in Run(s, steps[..k]).requests
    ensures Extends(Run(s, steps[..k]), Run(s, steps)) && q in Run(s, steps).requests
    ensures var early := History(s.h, Run(s, steps[..k]), q); var late := History(s.h, Run(s, steps), q);
      early <= late && (!Open(early) ==> late == early)
  {
    hide Site.Valid;
    if k == |steps| {
      assert steps[..k] == steps;
      Unchanged(Run(s, steps));
    } else {
      var n := |steps| - 1;
      assert steps[..n][..k] == steps[..k];
      assert steps[n].Valid();
      hide Run, Invariant, Extends, History, Open;
      HistoriesOnlyExtend(s, steps[..n], k, q);
      RunKeepsInvariant(s, steps[..n]);
      RunKeepsInvariant(s, steps);
      LastStep(s, steps, n, q);
      ExtendsTransitive(Run(s, steps[..k]), Run(s, steps[..n]), Run(s, steps));
    }
  }

  lemma ExtendsTransitive(a: Ledger, b: Ledger, c: Ledger)
    requires Extends(a, b) && Extends(b, c)
    ensures Extends(a, c)
  {
  }

  lemma LastStep(s: Site, steps: seq<Step>, n: nat, q: Request)
    requires s.Valid() && n + 1 == |steps| && steps[n].Valid() && q in Run(s, steps[..n]).requests
    requires Invariant(s, Run(s, steps[..n])) && Invariant(s, Run(s, steps))
    ensures Extends(Run(s, steps[..n]), Run(s, steps)) && q in Run(s, steps).requests
    ensures var early := History(s.h, Run(s, steps[..n]), q); var late := History(s.h, Run(s, steps), q);
      early <= late && (!Open(early) ==> late == early)
  {
    hide Site.Valid;
    var before, after := Run(s, steps[..n]), Run(s, steps);
    hide After, Invariant;
    StepKeepsInvariant(s, before, steps[n]);
    hide Run;
    SelectGrows(before.decisions, after.decisions, ForRequest(s.h.request(q)));
    TerminalStays(s, before, after, q);
  }

  lemma TerminalStays(s: Site, before: Ledger, after: Ledger, q: Request)
    requires Invariant(s, after) && q in after.requests
    requires History(s.h, before, q) <= History(s.h, after, q)
    ensures !Open(History(s.h, before, q)) ==> History(s.h, after, q) == History(s.h, before, q)
  {
    hide Select, Linked, Copies, RequestsInvariant, BindingsInvariant, LeasesInvariant;
    assert GoodChain(s.h, q, History(s.h, after, q));
    var early, late := History(s.h, before, q), History(s.h, after, q);
    if |early| < |late| && early != [] {
      assert late[|early| - 1].kind == Hold;
    }
  }

  /**
   Issuing is fresh: at the step that issues a lease, the policy in force
   allows requests for the target under exactly the intent revision and policy
   profile that the lease's admission recorded.
   */
  lemma IssuedUnderCurrentPolicy(s: Site, steps: seq<Step>, w: World, target: Digest, x: Expected)
    requires s.Valid() && ValidRun(steps)
    requires IssueLease(s, Run(s, steps), w, target, x).Success?
    ensures w.policy(target).Some? && w.policy(target).value.decision == AllowRequest
    ensures var l := Run(s, steps); var r := IssueLease(s, l, w, target, x).value; var p := w.policy(target).value;
      exists b, d, q, c :: Traced(s, l, r, b, d, q, c)
        && c.intentRevision == p.intentRevision && c.profile == p.profile && c.target == target
  {
    hide Site.Valid;
    var l := Run(s, steps);
    RunKeepsInvariant(s, steps);
    ValidIsCollisionFree(s);
    hide Run, TrustedState, RequestsInvariant, DecisionsInvariant, BindingsInvariant, LeasesInvariant;
    FreshTrace(s, l, w, target, x);
  }

  lemma FreshTrace(s: Site, l: Ledger, w: World, target: Digest, x: Expected)
    requires s.h.CollisionFree() && Invariant(s, l) && IssueLease(s, l, w, target, x).Success?
    ensures w.policy(target).Some? && w.policy(target).value.decision == AllowRequest
    ensures var r := IssueLease(s, l, w, target, x).value; var p := w.policy(target).value;
      exists b, d, q, c :: Traced(s, l, r, b, d, q, c)
        && c.intentRevision == p.intentRevision && c.profile == p.profile && c.target == target
  {
    var r := IssueLease(s, l, w, target, x).value;
    var t := TrustedState(s, l, w, target).value;
    hide TrustedState, RequestsInvariant, DecisionsInvariant, BindingsInvariant, LeasesInvariant, BindingReadiness;
    hide Profile.MappingComplete, Profile.WithoutEnforced, BuildProfile, RecordForBinding;
    ReadyMeans(s, l, w, target);
    IssuedRests(s, l, w, target, x);
    var b := t.binding.value;
    CurrentBinding(s, l, w, target, b);
    var d, q, c := BindingProvenance(s, l, b);
    var latest := LatestRequest(s.h, l, target).value.value;
    assert q == latest;
    assert Traced(s, l, r, b, d, q, c);
  }

  lemma IssuedRests(s: Site, l: Ledger, w: World, target: Digest, x: Expected)
    requires IssueLease(s, l, w, target, x).Success?
    requires TrustedState(s, l, w, target).value.binding.Some?
    requires TrustedState(s, l, w, target).value.policy.Some?
    requires Covers(TrustedState(s, l, w, target).value.binding.value)(TrustedState(s, l, w, target).value.policy.value)
    requires TrustedState(s, l, w, target).value.binding.value.target == target
    requires TrustedState(s, l, w, target).value.binding.value.Valid()
    ensures RestsOn(s.h, IssueLease(s, l, w, target, x).value, TrustedState(s, l, w, target).value.binding.value)
  {
    hide TrustedState, Canonical, Profile.MappingComplete, Profile.WithoutEnforced;
  }

  /** A binding that is current belongs to the latest request, which the policy still covers. */
  lemma CurrentBinding(s: Site, l: Ledger, w: World, target: Digest, b: Binding)
    requires s.h.CollisionFree() && Invariant(s, l) && b in l.bindings
    requires BindingReadiness(s, l, w, target).Success?
    requires BindingReadiness(s, l, w, target).value.reason == BindingAlreadyExists
    requires BindingReadiness(s, l, w, target).value.existing == Some(s.h.binding(b))
    ensures LatestRequest(s.h, l, target).Success? && LatestRequest(s.h, l, target).value.Some?
    ensures var q := LatestRequest(s.h, l, target).value.value;
      && b.request == s.h.request(q) && q.target == target
      && w.policy(target).Some? && w.policy(target).value.decision == AllowRequest
      && q.intentRevision == w.policy(target).value.intentRevision && q.profile == w.policy(target).value.profile
  {
    hide ApprovedDecision, LatestDecision, DecisionReadiness, Select, LatestRequest, KnownBinding;
    hide RequestsInvariant, DecisionsInvariant, LeasesInvariant;
    ApprovedIsCurrent(s.h, l, w, target);
    var d := ApprovedDecision(s.h, l, w, target).value.value;
    SelectMembers(l.bindings, ForDecision(s.h.decision(d)));
    var rows := Select(l.bindings, ForDecision(s.h.decision(d)));
    assert rows[0] in rows;
    assert s.h.binding(rows[0]) == s.h.binding(b);
    assert Approved(s.h, l, b);
    var made :| made in l.decisions && BoundTo(s.h, b, made);
    assert made == d;
  }
}
