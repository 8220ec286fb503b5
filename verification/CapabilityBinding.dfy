/**
 `phios/macro_capability_binding.py`: an approved decision is bound once to the
 one capability its intent maps to, on the evidence that was demonstrated.
 */
module CapabilityBinding {
  import opened Wrappers
  import opened AuthorityEpoch
  import opened EnforcementProfile
  import opened AuthorityLedger
  import opened AuthorityRequest
  import opened AuthorizationDecision

  datatype BindingReason =
    | DecisionRequired | AuthorizationStale | NotApproved | NoMapping | AmbiguousMapping | EvidenceMissing
    | ConstraintMismatch | BindingAlreadyExists | BindingReady

  datatype BindingState = BindingState(
    reason: BindingReason, decision: Option<Digest>, mapping: Option<Digest>, observation: Option<Digest>,
    existing: Option<Digest>)

  // ------------------------------------------------------------ specification

  function ForIntent(code: string): Mapping -> bool {
    (m: Mapping) => m.intentCode == code
  }

  function MappingIs(h: Hashes, sha: Digest): Mapping -> bool {
    (m: Mapping) => h.mapping(m) == sha
  }

  function ForDecision(sha: Digest): Binding -> bool {
    (b: Binding) => b.decision == sha
  }

  function BindsTarget(target: Digest): Binding -> bool {
    (b: Binding) => b.target == target
  }

  /** `_current_approved_decision`. */
  ghost function ApprovedDecision(h: Hashes, l: Ledger, w: World, target: Digest): Result<Option<Decision>, Fault> {
    var latest :- LatestDecision(h, l, target);
    if latest.None? then Success(None)
    else
      var state :- DecisionReadiness(h, l, w, target);
      if state.reason == DecisionFinal && state.granted && latest.value.kind == Approve then Success(latest)
      else Success(None)
  }

  /** `_parse_binding`: the contract holds and the registry still has exactly this mapping. */
  predicate KnownBinding(s: Site, b: Binding) {
    var matches := Select(s.mappings, MappingIs(s.h, b.mapping));
    && b.Valid()
    && |matches| == 1 && b.mappingSet == s.h.mappings(s.mappings)
    && b.mappingId == matches[0].id && b.intentCode == matches[0].intentCode
    && b.capabilityId == matches[0].capabilityId && b.capabilityVersion == matches[0].capabilityVersion
    && b.permissions == matches[0].permissions && b.effects == matches[0].effects
  }

  function BindingForDecision(s: Site, l: Ledger, sha: Digest): Result<Option<Binding>, Fault> {
    var rows := Select(l.bindings, ForDecision(sha));
    if exists b :: b in rows && !KnownBinding(s, b) then Failure(Corrupt)
    else if |rows| > 1 then Failure(Corrupt)
    else Success(First(rows))
  }

  function LatestBinding(s: Site, l: Ledger, target: Digest): Result<Option<Binding>, Fault> {
    var rows := Select(l.bindings, BindsTarget(target));
    if exists b :: b in rows && !KnownBinding(s, b) then Failure(Corrupt) else Success(Last(rows))
  }

  function Meets(m: Mapping, o: Observation): bool {
    o.action == m.action && o.strategy == m.strategy
  }

  /** The checks on an approved decision: its mapping, its evidence and any binding it already has. */
  function BindingStanding(s: Site, l: Ledger, w: World, d: Decision): Result<BindingState, Fault> {
    var sha := s.h.decision(d);
    var matches := Select(s.mappings, ForIntent(d.intentCode));
    if matches == [] then Success(BindingState(NoMapping, Some(sha), None, None, None))
    else if |matches| != 1 then Success(BindingState(AmbiguousMapping, Some(sha), None, None, None))
    else
      var m := matches[0];
      match w.evidence(d.target)
      case NoEvidence => Success(BindingState(EvidenceMissing, Some(sha), Some(s.h.mapping(m)), None, None))
      case BrokenEvidence => Failure(EvidenceUnavailable)
      case Found(o) =>
        var seen := Some(s.h.observation(o));
        if !Meets(m, o) then Success(BindingState(ConstraintMismatch, Some(sha), Some(s.h.mapping(m)), seen, None))
        else if m.capabilityId == DESKTOP_CLICK && !o.clickable then Failure(EvidenceUnavailable)
        else
          var existing :- BindingForDecision(s, l, sha);
          if existing.Some? then
            Success(BindingState(BindingAlreadyExists, Some(sha), Some(s.h.mapping(m)), seen,
                                 Some(s.h.binding(existing.value))))
          else Success(BindingState(BindingReady, Some(sha), Some(s.h.mapping(m)), seen, None))
  }

  ghost function BindingReadiness(s: Site, l: Ledger, w: World, target: Digest): Result<BindingState, Fault> {
    var approved :- ApprovedDecision(s.h, l, w, target);
    if approved.Some? then BindingStanding(s, l, w, approved.value)
    else
      var latest :- LatestDecision(s.h, l, target);
      if latest.None? then Success(BindingState(DecisionRequired, None, None, None, None))
      else
        var auth :- DecisionReadiness(s.h, l, w, target);
        Success(BindingState(if auth.reason == AuthorityRequestStale then AuthorizationStale else NotApproved,
                             Some(s.h.decision(latest.value)), None, None, None))
  }

  // ------------------------------------------------------------ what the states mean to a caller

  /**
   `d` approves the target now: it is the newest decision about the target's
   newest request, it repeats that request, and the request is the one the
   policy's current admission stands behind.
   */
  ghost predicate Approves(h: Hashes, l: Ledger, w: World, target: Digest, d: Decision) {
    d.kind == Approve && exists q :: Newest(l.requests, OnTarget(target), q) && Decides(h, l, w, target, q, d)
  }

  ghost predicate Decides(h: Hashes, l: Ledger, w: World, target: Digest, q: Request, d: Decision) {
    LastDecision(h, l, q, d) && Copies(h, d, q) && Current(h, l, w, target, q)
  }

  /** One mapping serves the decision's intent, and the evidence demonstrates what it asks for. */
  ghost predicate Supports(s: Site, w: World, d: Decision, m: Mapping, o: Observation) {
    && OnlyOne(s.mappings, ForIntent(d.intentCode), m)
    && w.evidence(d.target) == Found(o) && o.action == m.action && o.strategy == m.strategy
    && (m.capabilityId == DESKTOP_CLICK ==> o.clickable)
  }

  /** The registry has one mapping of the digest the binding names, and the binding repeats it. */
  ghost predicate Repeats(s: Site, b: Binding, m: Mapping) {
    && OnlyOne(s.mappings, MappingIs(s.h, b.mapping), m)
    && b.mappingId == m.id && b.intentCode == m.intentCode
    && b.capabilityId == m.capabilityId && b.capabilityVersion == m.capabilityVersion
    && b.permissions == m.permissions && b.effects == m.effects
  }

  /** The one binding of a decision, known to the registry. */
  ghost predicate TheBinding(s: Site, l: Ledger, sha: Digest, b: Binding) {
    OnlyOne(l.bindings, ForDecision(sha), b) && KnownBinding(s, b)
  }

  /** What the ready state stands for: a supported approval that no binding names. */
  ghost predicate Bindable(s: Site, l: Ledger, w: World, target: Digest, d: Decision, m: Mapping, o: Observation) {
    && Approves(s.h, l, w, target, d) && Supports(s, w, d, m, o)
    && forall b :: b in l.bindings ==> b.decision != s.h.decision(d)
  }

  /** What the already-exists state stands for: a supported approval that exactly one binding names. */
  ghost predicate Bound(s: Site, l: Ledger, w: World, target: Digest, d: Decision, m: Mapping, o: Observation,
                        b: Binding) {
    && Approves(s.h, l, w, target, d) && Supports(s, w, d, m, o)
    && TheBinding(s, l, s.h.decision(d), b)
  }

  function ReadyState(h: Hashes, d: Decision, m: Mapping, o: Observation): BindingState {
    BindingState(BindingReady, Some(h.decision(d)), Some(h.mapping(m)), Some(h.observation(o)), None)
  }

  function BoundState(h: Hashes, d: Decision, m: Mapping, o: Observation, b: Binding): BindingState {
    ReadyState(h, d, m, o).(reason := BindingAlreadyExists, existing := Some(h.binding(b)))
  }

  /** The ready and already-exists states are reported for what they stand for, and for nothing else. */
  ghost predicate ReadinessMeans(s: Site, l: Ledger, w: World, target: Digest, state: BindingState) {
    && (forall d, m, o :: Bindable(s, l, w, target, d, m, o) ==> state == ReadyState(s.h, d, m, o))
    && (forall d, m, o, b :: Bound(s, l, w, target, d, m, o, b) ==> state == BoundState(s.h, d, m, o, b))
    && (state.reason == BindingReady ==> exists d, m, o :: Bindable(s, l, w, target, d, m, o))
    && (state.reason == BindingAlreadyExists ==> exists d, m, o, b :: Bound(s, l, w, target, d, m, o, b))
  }

  /** The binding `create` forms from its inputs. */
  function Bind(s: Site, d: Decision, m: Mapping, o: Observation, at: int): Binding {
    var payload := s.h.payload(o);
    Binding(s.h.decision(d), d.request, d.target, s.h.observation(o), d.intentCode, m.id, s.h.mapping(m),
            s.h.mappings(s.mappings), m.capabilityId, m.capabilityVersion, payload, m.permissions, m.effects,
            Intent(m.capabilityId, m.capabilityVersion, payload, at, m.effects), at)
  }

  ghost function CreateBinding(s: Site, l: Ledger, w: World, target: Digest, expectedDecision: Digest,
                               expectedMapping: Digest, expectedSet: Digest, at: int): Result<Binding, Fault> {
    var state :- BindingReadiness(s, l, w, target);
    if state.reason != BindingReady then Failure(NotReady)
    else if state.decision != Some(expectedDecision) || state.mapping != Some(expectedMapping) then Failure(Changed)
    else if s.h.mappings(s.mappings) != expectedSet then Failure(Changed)
    else
      var approved :- ApprovedDecision(s.h, l, w, target);
      if approved.None? then Failure(Changed)
      else
        var d := approved.value;
        var matches := Select(s.mappings, ForIntent(d.intentCode));
        if |matches| != 1 || !w.evidence(d.target).Found? then Failure(Changed)
        else
          var m, o := matches[0], w.evidence(d.target).observation;
          if !Meets(m, o) then Failure(Changed)
          else if m.capabilityId != DESKTOP_CLICK then Failure(Unsupported)
          else if !o.clickable then Failure(EvidenceUnavailable)
          else
            var b := Bind(s, d, m, o, at);
            if b.Valid() then Success(b) else Failure(Unsupported)
  }

  // ------------------------------------------------------------ what the states mean

  lemma ApprovedIsInForce(h: Hashes, l: Ledger, w: World, target: Digest, d: Decision)
    requires ApprovedDecision(h, l, w, target) == Success(Some(d))
    ensures Approves(h, l, w, target, d)
  {
    hide RequestReadiness, Select, Provenance, Copies, Newest, HoldsThenTerminal;
    var q := LatestRequest(h, l, target).value.value;
    var rows := History(h, l, q);
    NewestIff(l.requests, OnTarget(target), q);
    NewestIff(l.decisions, ForRequest(h.request(q)), d);
    assert rows[|rows| - 1] == d && d in rows;
    assert Decides(h, l, w, target, q, d);
  }

  lemma InForceIsApproved(h: Hashes, l: Ledger, w: World, target: Digest, d: Decision)
    requires ApprovedDecision(h, l, w, target).Success? && Approves(h, l, w, target, d)
    ensures ApprovedDecision(h, l, w, target) == Success(Some(d))
  {
    hide RequestReadiness, Select, Provenance, Copies, Newest, HoldsThenTerminal;
    var q :| Newest(l.requests, OnTarget(target), q) && Decides(h, l, w, target, q, d);
    NewestIff(l.requests, OnTarget(target), q);
    NewestIff(l.decisions, ForRequest(h.request(q)), d);
    assert LatestRequest(h, l, target) == Success(Some(q));
  }

  /** Whatever is returned as approved is in force, and nothing in force is missed. */
  lemma ApprovedIff(h: Hashes, l: Ledger, w: World, target: Digest)
    requires ApprovedDecision(h, l, w, target).Success?
    ensures forall d :: ApprovedDecision(h, l, w, target).value == Some(d) <==> Approves(h, l, w, target, d)
  {
    hide *;
    forall d
      ensures ApprovedDecision(h, l, w, target).value == Some(d) <==> Approves(h, l, w, target, d)
    {
      if ApprovedDecision(h, l, w, target).value == Some(d) {
        ApprovedIsInForce(h, l, w, target, d);
      } else if Approves(h, l, w, target, d) {
        InForceIsApproved(h, l, w, target, d);
      }
    }
  }

  /** A lookup that reads back cleanly finds the one binding of the decision, or there is none. */
  lemma BindingFound(s: Site, l: Ledger, sha: Digest)
    requires BindingForDecision(s, l, sha).Success?
    ensures BindingForDecision(s, l, sha).value == None <==> forall b :: b in l.bindings ==> b.decision != sha
    ensures forall b :: BindingForDecision(s, l, sha).value == Some(b) <==> TheBinding(s, l, sha, b)
  {
    hide KnownBinding, OnlyOne;
    var rows := Select(l.bindings, ForDecision(sha));
    SelectMembers(l.bindings, ForDecision(sha));
    if rows != [] {
      assert rows[0] in rows;
    }
    forall b
      ensures OnlyOne(l.bindings, ForDecision(sha), b) <==> rows == [b]
    {
      OnlyOneIff(l.bindings, ForDecision(sha), b);
    }
    forall b | b in l.bindings
      ensures b.decision == sha ==> b in rows
    {
    }
  }

  /** The states of a supported approval: its digests, and whether a binding names it. */
  lemma SupportedState(s: Site, l: Ledger, w: World, target: Digest, d: Decision, m: Mapping, o: Observation)
    requires BindingReadiness(s, l, w, target).Success?
    requires Approves(s.h, l, w, target, d) && Supports(s, w, d, m, o)
    ensures var found := BindingForDecision(s, l, s.h.decision(d)); var state := BindingReadiness(s, l, w, target).value;
      && found.Success?
      && state.decision == Some(s.h.decision(d)) && state.mapping == Some(s.h.mapping(m))
      && state.observation == Some(s.h.observation(o))
      && (found.value.None? ==> state.reason == BindingReady && state.existing == None)
      && (found.value.Some? ==>
            state.reason == BindingAlreadyExists && state.existing == Some(s.h.binding(found.value.value)))
  {
    hide ApprovedDecision, Approves, BindingForDecision, Select, OnlyOne, LatestDecision, DecisionReadiness;
    ApprovedIff(s.h, l, w, target);
    OnlyOneIff(s.mappings, ForIntent(d.intentCode), m);
    assert [m][0] == m;
  }

  /** The two states that name all three digests come from a supported approval. */
  lemma StateIsSupported(s: Site, l: Ledger, w: World, target: Digest) returns (d: Decision, m: Mapping, o: Observation)
    requires BindingReadiness(s, l, w, target).Success?
    requires BindingReadiness(s, l, w, target).value.reason in {BindingReady, BindingAlreadyExists}
    ensures Approves(s.h, l, w, target, d) && Supports(s, w, d, m, o)
  {
    hide ApprovedDecision, Approves, BindingForDecision, Select, OnlyOne, LatestDecision, DecisionReadiness;
    ApprovedIff(s.h, l, w, target);
    d := ApprovedDecision(s.h, l, w, target).value.value;
    var matches := Select(s.mappings, ForIntent(d.intentCode));
    m, o := matches[0], w.evidence(d.target).observation;
    assert matches == [m];
    OnlyOneIff(s.mappings, ForIntent(d.intentCode), m);
  }

  /**
   Ready is reported exactly when some approval in force is supported and
   unbound, already-exists exactly when one is supported and bound, and in both
   the digests reported are those of the rows concerned.
   */
  lemma BindingReadinessIff(s: Site, l: Ledger, w: World, target: Digest)
    requires BindingReadiness(s, l, w, target).Success?
    ensures ReadinessMeans(s, l, w, target, BindingReadiness(s, l, w, target).value)
  {
    hide BindingReadiness, Approves, Supports, OnlyOne, KnownBinding, BindingForDecision, Select;
    var state := BindingReadiness(s, l, w, target).value;
    forall d, m, o | Bindable(s, l, w, target, d, m, o)
      ensures state == ReadyState(s.h, d, m, o)
    {
      SupportedState(s, l, w, target, d, m, o);
      BindingFound(s, l, s.h.decision(d));
    }
    forall d, m, o, b | Bound(s, l, w, target, d, m, o, b)
      ensures state == BoundState(s.h, d, m, o, b)
    {
      SupportedState(s, l, w, target, d, m, o);
      BindingFound(s, l, s.h.decision(d));
    }
    if state.reason == BindingReady || state.reason == BindingAlreadyExists {
      var d, m, o := StateIsSupported(s, l, w, target);
      SupportedState(s, l, w, target, d, m, o);
      BindingFound(s, l, s.h.decision(d));
      var found := BindingForDecision(s, l, s.h.decision(d)).value;
      if found.None? {
        assert Bindable(s, l, w, target, d, m, o);
      } else {
        assert Bound(s, l, w, target, d, m, o, found.value);
      }
    }
  }

  lemma KnownIff(s: Site, b: Binding)
    ensures KnownBinding(s, b)
        <==> b.Valid() && b.mappingSet == s.h.mappings(s.mappings) && exists m :: Repeats(s, b, m)
  {
    hide Binding.Valid, OnlyOne, Select;
    var matches := Select(s.mappings, MappingIs(s.h, b.mapping));
    forall m
      ensures OnlyOne(s.mappings, MappingIs(s.h, b.mapping), m) <==> matches == [m]
    {
      OnlyOneIff(s.mappings, MappingIs(s.h, b.mapping), m);
    }
    if |matches| == 1 {
      assert matches == [matches[0]];
      assert KnownBinding(s, b) ==> Repeats(s, b, matches[0]);
    }
  }

  lemma RefusedRow(s: Site, rows: seq<Binding>, p: Binding -> bool, k: nat)
    requires k < |rows| && p(rows[k]) && !KnownBinding(s, rows[k])
    ensures exists b :: b in Select(rows, p) && !KnownBinding(s, b)
  {
    hide KnownBinding;
    SelectMembers(rows, p);
    assert rows[k] in rows;
  }

  /** What reading the readiness can raise: a damaged row, a missing policy or unusable evidence. */
  lemma ReadinessFaults(s: Site, l: Ledger, w: World, target: Digest)
    requires BindingReadiness(s, l, w, target).Failure?
    ensures BindingReadiness(s, l, w, target).error in {Corrupt, PolicyUnavailable, EvidenceUnavailable}
  {
    hide Select, KnownBinding, Provenance, GoodChain, MatchingReceipt;
  }

  /** The newest decision about the target's newest request, current or not. */
  ghost predicate Heads(h: Hashes, l: Ledger, target: Digest, q: Request, d: Decision) {
    Newest(l.requests, OnTarget(target), q) && LastDecision(h, l, q, d)
  }

  /** Each refusal of readiness, by the rows and the evidence that bring it about. */
  ghost predicate RefusalSays(s: Site, l: Ledger, w: World, target: Digest, state: BindingState) {
    match state.reason
    case DecisionRequired =>
      state == BindingState(DecisionRequired, None, None, None, None) && forall q, d :: !Heads(s.h, l, target, q, d)
    case AuthorizationStale => exists q, d :: Heads(s.h, l, target, q, d) && StaleFor(s, l, w, target, state, q, d)
    case NotApproved => exists q, d :: Heads(s.h, l, target, q, d) && UnapprovedFor(s, l, w, target, state, q, d)
    case NoMapping => exists d :: Approves(s.h, l, w, target, d) && UnmappedFor(s, state, d)
    case AmbiguousMapping => exists d :: Approves(s.h, l, w, target, d) && AmbiguousFor(s, state, d)
    case EvidenceMissing => exists d, m :: Approves(s.h, l, w, target, d) && UndemonstratedFor(s, w, state, d, m)
    case ConstraintMismatch =>
      exists d, m, o :: Approves(s.h, l, w, target, d) && MismatchedFor(s, w, state, d, m, o)
    case BindingAlreadyExists => true
    case BindingReady => true
  }

  ghost predicate StaleFor(s: Site, l: Ledger, w: World, target: Digest, state: BindingState, q: Request, d: Decision) {
    && !Current(s.h, l, w, target, q)
    && state == BindingState(AuthorizationStale, Some(s.h.decision(d)), None, None, None)
  }

  ghost predicate UnapprovedFor(s: Site, l: Ledger, w: World, target: Digest, state: BindingState, q: Request, d: Decision) {
    && Current(s.h, l, w, target, q) && d.kind != Approve
    && state == BindingState(NotApproved, Some(s.h.decision(d)), None, None, None)
  }

  ghost predicate UnmappedFor(s: Site, state: BindingState, d: Decision) {
    && (forall m :: m in s.mappings ==> m.intentCode != d.intentCode)
    && state == BindingState(NoMapping, Some(s.h.decision(d)), None, None, None)
  }

  ghost predicate AmbiguousFor(s: Site, state: BindingState, d: Decision) {
    && state == BindingState(AmbiguousMapping, Some(s.h.decision(d)), None, None, None)
    && exists i, j :: 0 <= i < j < |s.mappings|
                      && s.mappings[i].intentCode == d.intentCode && s.mappings[j].intentCode == d.intentCode
  }

  ghost predicate UndemonstratedFor(s: Site, w: World, state: BindingState, d: Decision, m: Mapping) {
    && OnlyOne(s.mappings, ForIntent(d.intentCode), m) && w.evidence(d.target).NoEvidence?
    && state == BindingState(EvidenceMissing, Some(s.h.decision(d)), Some(s.h.mapping(m)), None, None)
  }

  ghost predicate MismatchedFor(s: Site, w: World, state: BindingState, d: Decision, m: Mapping, o: Observation) {
    && OnlyOne(s.mappings, ForIntent(d.intentCode), m) && w.evidence(d.target) == Found(o)
    && (o.action != m.action || o.strategy != m.strategy)
    && state == BindingState(ConstraintMismatch, Some(s.h.decision(d)), Some(s.h.mapping(m)), Some(s.h.observation(o)), None)
  }

  /** When nothing is approved, the refusal follows the newest decision and whether its request is current. */
  lemma UnapprovedSays(s: Site, l: Ledger, w: World, target: Digest)
    requires BindingReadiness(s, l, w, target).Success? && ApprovedDecision(s.h, l, w, target) == Success(None)
    ensures RefusalSays(s, l, w, target, BindingReadiness(s, l, w, target).value)
  {
    hide RequestReadiness, LatestRequest, GoodChain, Newest, LastDecision, Select, Approves, BindingStanding;
    var state := BindingReadiness(s, l, w, target).value;
    LatestIsNewest(s.h, l, target);
    var latest := LatestRequest(s.h, l, target).value;
    if latest.None? {
      forall q, d
        ensures !Heads(s.h, l, target, q, d)
      {
        if Newest(l.requests, OnTarget(target), q) {
          NewestIsStored(l.requests, OnTarget(target), q);
        }
      }
    } else {
      var q := latest.value;
      HistorySays(s.h, l, q, None);
      var rows := History(s.h, l, q);
      if rows == [] {
        forall x, d
          ensures !Heads(s.h, l, target, x, d)
        {
          if Newest(l.requests, OnTarget(target), x) {
            NewestUnique(l.requests, OnTarget(target), q, x);
          }
        }
      } else {
        var d := rows[|rows| - 1];
        assert Heads(s.h, l, target, q, d);
        assert StaleFor(s, l, w, target, state, q, d) || UnapprovedFor(s, l, w, target, state, q, d);
      }
    }
  }

  /** When a decision is approved, the refusal follows its mapping and its evidence. */
  lemma ApprovedSays(s: Site, l: Ledger, w: World, target: Digest, d: Decision)
    requires BindingReadiness(s, l, w, target).Success? && ApprovedDecision(s.h, l, w, target) == Success(Some(d))
    ensures RefusalSays(s, l, w, target, BindingReadiness(s, l, w, target).value)
  {
    hide ApprovedDecision, LatestDecision, DecisionReadiness, Approves, Select, BindingForDecision, OnlyOne;
    ApprovedIff(s.h, l, w, target);
    var state := BindingReadiness(s, l, w, target).value;
    var matches := Select(s.mappings, ForIntent(d.intentCode));
    if matches == [] {
      NoneSelected(s.mappings, ForIntent(d.intentCode));
      assert UnmappedFor(s, state, d);
    } else if |matches| != 1 {
      SeveralSelected(s.mappings, ForIntent(d.intentCode));
      assert AmbiguousFor(s, state, d);
    } else {
      var m := matches[0];
      assert matches == [m];
      OnlyOneIff(s.mappings, ForIntent(d.intentCode), m);
      if w.evidence(d.target).NoEvidence? {
        assert UndemonstratedFor(s, w, state, d, m);
      } else if w.evidence(d.target).Found? {
        var o := w.evidence(d.target).observation;
        assert Meets(m, o) || MismatchedFor(s, w, state, d, m, o);
      }
    }
  }

  lemma RefusalIsSaid(s: Site, l: Ledger, w: World, target: Digest)
    requires BindingReadiness(s, l, w, target).Success?
    ensures RefusalSays(s, l, w, target, BindingReadiness(s, l, w, target).value)
  {
    hide RefusalSays, LatestDecision, DecisionReadiness, BindingStanding, ApprovedDecision;
    var approved := ApprovedDecision(s.h, l, w, target).value;
    if approved.Some? {
      ApprovedSays(s, l, w, target, approved.value);
    } else {
      UnapprovedSays(s, l, w, target);
    }
  }

  /** The digests the caller reviewed are those of the rows in use. */
  ghost predicate ReviewedBy(s: Site, d: Decision, m: Mapping, expectedDecision: Digest, expectedMapping: Digest,
                             expectedSet: Digest) {
    && s.h.decision(d) == expectedDecision && s.h.mapping(m) == expectedMapping
    && s.h.mappings(s.mappings) == expectedSet
  }

  /** The binding of a decision to a mapping on an observation, field by field. */
  ghost predicate Binds(s: Site, d: Decision, m: Mapping, o: Observation, at: int, b: Binding) {
    && b.decision == s.h.decision(d) && b.request == d.request && b.target == d.target
    && b.observation == s.h.observation(o) && b.intentCode == d.intentCode
    && b.mappingId == m.id && b.mapping == s.h.mapping(m) && b.mappingSet == s.h.mappings(s.mappings)
    && b.capabilityId == b.intent.capabilityId == m.capabilityId
    && b.capabilityVersion == b.intent.capabilityVersion == m.capabilityVersion
    && b.payload == b.intent.payload == s.h.payload(o)
    && b.permissions == m.permissions && b.effects == b.intent.effects == m.effects
    && b.boundAt == b.intent.declaredAt == at
  }

  ghost predicate BoundOn(s: Site, l: Ledger, w: World, target: Digest, expectedDecision: Digest,
                          expectedMapping: Digest, expectedSet: Digest, at: int, d: Decision, m: Mapping, o: Observation,
                          b: Binding) {
    && Bindable(s, l, w, target, d, m, o) && ReviewedBy(s, d, m, expectedDecision, expectedMapping, expectedSet)
    && Binds(s, d, m, o, at, b)
  }

  ghost predicate ChangedSince(s: Site, l: Ledger, w: World, target: Digest, expectedDecision: Digest,
                               expectedMapping: Digest, expectedSet: Digest, d: Decision, m: Mapping, o: Observation) {
    Bindable(s, l, w, target, d, m, o) && !ReviewedBy(s, d, m, expectedDecision, expectedMapping, expectedSet)
  }

  /**
   A binding is created only of what is bindable and was reviewed, and says
   just that; not ready means nothing is bindable, changed that what is
   bindable is not what was reviewed.
   */
  ghost predicate CreationSays(s: Site, l: Ledger, w: World, target: Digest, expectedDecision: Digest,
                               expectedMapping: Digest, expectedSet: Digest, at: int, r: Result<Binding, Fault>) {
    match r
    case Success(b) =>
      exists d, m, o :: BoundOn(s, l, w, target, expectedDecision, expectedMapping, expectedSet, at, d, m, o, b)
    case Failure(NotReady) => forall d, m, o :: !Bindable(s, l, w, target, d, m, o)
    case Failure(Changed) =>
      exists d, m, o :: ChangedSince(s, l, w, target, expectedDecision, expectedMapping, expectedSet, d, m, o)
    case Failure(_) => true
  }

  lemma CreationIsSaid(s: Site, l: Ledger, w: World, target: Digest, expectedDecision: Digest, expectedMapping: Digest,
                       expectedSet: Digest, at: int)
    ensures CreationSays(s, l, w, target, expectedDecision, expectedMapping, expectedSet, at,
                         CreateBinding(s, l, w, target, expectedDecision, expectedMapping, expectedSet, at))
  {
    hide BindingReadiness, ApprovedDecision, Select, Approves, OnlyOne, Binding.Valid;
    var state := BindingReadiness(s, l, w, target);
    if state.Failure? {
      ReadinessFaults(s, l, w, target);
    } else {
      BindingReadinessIff(s, l, w, target);
      if state.value.reason == BindingReady {
        var d, m, o :| Bindable(s, l, w, target, d, m, o);
        ReadyIsApproved(s, l, w, target, d);
        OnlyOneIff(s.mappings, ForIntent(d.intentCode), m);
        assert [m][0] == m;
        assert state.value == ReadyState(s.h, d, m, o);
        if ReviewedBy(s, d, m, expectedDecision, expectedMapping, expectedSet) {
          var b := Bind(s, d, m, o, at);
          assert b.Valid() ==>
            BoundOn(s, l, w, target, expectedDecision, expectedMapping, expectedSet, at, d, m, o, b);
        } else {
          assert ChangedSince(s, l, w, target, expectedDecision, expectedMapping, expectedSet, d, m, o);
        }
      }
    }
  }

  /** A ready state has read its approved decision without a fault. */
  lemma ReadyIsApproved(s: Site, l: Ledger, w: World, target: Digest, d: Decision)
    requires BindingReadiness(s, l, w, target).Success? && Approves(s.h, l, w, target, d)
    ensures ApprovedDecision(s.h, l, w, target) == Success(Some(d))
  {
    hide LatestDecision, DecisionReadiness, Approves, BindingStanding, ApprovedDecision;
    InForceIsApproved(s.h, l, w, target, d);
  }

  // ------------------------------------------------------------ the service

  class BindingService {
    const site: Site
    const ledger: RealityLedger
    const decisions: DecisionService

    constructor (site: Site, decisions: DecisionService)
      requires decisions.site == site
      ensures this.site == site && this.ledger == decisions.ledger && this.decisions == decisions
    {
      this.site, this.ledger, this.decisions := site, decisions.ledger, decisions;
    }

    ghost predicate Wired() {
      decisions.site == site && decisions.ledger == ledger && decisions.Wired()
    }

    /** `for_intent` of the registry. */
    method MappingsFor(code: string) returns (matches: seq<Mapping>)
      ensures matches == Select(site.mappings, ForIntent(code))
    {
      matches := [];
      var k := 0;
      while k < |site.mappings|
        invariant k <= |site.mappings| && matches == Select(site.mappings[..k], ForIntent(code))
      {
        assert site.mappings[..k + 1] == site.mappings[..k] + [site.mappings[k]];
        SelectSnoc(site.mappings[..k], site.mappings[k], ForIntent(code));
        if site.mappings[k].intentCode == code {
          matches := matches + [site.mappings[k]];
        }
        k := k + 1;
      }
      assert site.mappings[..k] == site.mappings;
    }

    /** `_parse_binding` of a row read back. */
    method Parse(b: Binding) returns (ok: bool)
      ensures ok == KnownBinding(site, b)
      ensures ok <==> b.Valid() && b.mappingSet == site.h.mappings(site.mappings) && exists m :: Repeats(site, b, m)
    {
      hide Repeats, Binding.Valid, Select;
      var matches: seq<Mapping> := [];
      var k := 0;
      SelectNone(site.mappings[..0], MappingIs(site.h, b.mapping));
      while k < |site.mappings|
        invariant k <= |site.mappings| && matches == Select(site.mappings[..k], MappingIs(site.h, b.mapping))
      {
        assert site.mappings[..k + 1] == site.mappings[..k] + [site.mappings[k]];
        SelectSnoc(site.mappings[..k], site.mappings[k], MappingIs(site.h, b.mapping));
        if site.h.mapping(site.mappings[k]) == b.mapping {
          matches := matches + [site.mappings[k]];
        }
        k := k + 1;
      }
      assert site.mappings[..k] == site.mappings;
      KnownIff(site, b);
      if !b.Valid() || |matches| != 1 || b.mappingSet != site.h.mappings(site.mappings) {
        return false;
      }
      var m := matches[0];
      ok := && b.mappingId == m.id && b.intentCode == m.intentCode
            && b.capabilityId == m.capabilityId && b.capabilityVersion == m.capabilityVersion
            && b.permissions == m.permissions && b.effects == m.effects;
    }

    /** Reads the binding rows that qualify, each validated as it is read. */
    method ReadRows(p: Binding -> bool) returns (r: Result<seq<Binding>, Fault>)
      ensures r.Success? ==> r.value == Select(ledger.bindings, p) && forall b :: b in r.value ==> KnownBinding(site, b)
      ensures r.Failure? ==> r.error == Corrupt && exists b :: b in Select(ledger.bindings, p) && !KnownBinding(site, b)
    {
      hide KnownBinding, Select;
      var rows := ledger.bindings;
      SelectNone(rows[..0], p);
      var parsed: seq<Binding> := [];
      var k := 0;
      while k < |rows|
        invariant k <= |rows| && parsed == Select(rows[..k], p)
        invariant forall b :: b in parsed ==> KnownBinding(site, b)
      {
        assert rows[..k + 1] == rows[..k] + [rows[k]];
        SelectSnoc(rows[..k], rows[k], p);
        if p(rows[k]) {
          var ok := Parse(rows[k]);
          if !ok {
            RefusedRow(site, rows, p, k);
            return Failure(Corrupt);
          }
          parsed := parsed + [rows[k]];
        }
        k := k + 1;
      }
      assert rows[..k] == rows;
      r := Success(parsed);
    }

    /** `_binding_for_decision`: a binding returned is the only one of its decision and the registry knows it. */
    method FindForDecision(sha: Digest) returns (r: Result<Option<Binding>, Fault>)
      ensures r == BindingForDecision(site, ledger.Rows(), sha)
      ensures r.Success? ==> forall b :: r.value == Some(b) <==> TheBinding(site, ledger.Rows(), sha, b)
      ensures r == Success(None) ==> forall b :: b in ledger.bindings ==> b.decision != sha
    {
      hide KnownBinding, Select, OnlyOne;
      var rows := ReadRows(ForDecision(sha));
      if rows.Failure? {
        return Failure(rows.error);
      }
      if |rows.value| > 1 {
        return Failure(Corrupt);
      }
      r := Success(First(rows.value));
      BindingFound(site, ledger.Rows(), sha);
    }

    /** `latest`: the newest binding of the target, known to the registry like every other of its target. */
    method Latest(target: Digest) returns (r: Result<Option<Binding>, Fault>)
      ensures r == LatestBinding(site, ledger.Rows(), target)
      ensures r.Success? ==> forall b :: r.value == Some(b) <==> Newest(ledger.bindings, BindsTarget(target), b)
      ensures r.Success? ==> forall b :: b in ledger.bindings && b.target == target ==> KnownBinding(site, b)
    {
      hide KnownBinding, Select, Newest;
      var rows := ReadRows(BindsTarget(target));
      if rows.Failure? {
        return Failure(rows.error);
      }
      r := Success(Last(rows.value));
      SelectMembers(ledger.bindings, BindsTarget(target));
      forall b
        ensures Newest(ledger.bindings, BindsTarget(target), b) <==> r.value == Some(b)
      {
        NewestIff(ledger.bindings, BindsTarget(target), b);
      }
    }

    method ReadLatest(target: Digest) returns (r: Result<Option<Decision>, Fault>)
      requires Wired()
      ensures r == LatestDecision(site.h, ledger.Rows(), target)
    {
      hide LatestRequest, DecisionChain;
      var request := decisions.LatestFor(target);
      if request.Failure? {
        return Failure(request.error);
      }
      if request.value.None? {
        return Success(None);
      }
      var chain := decisions.ReadChain(request.value.value);
      if chain.Failure? {
        return Failure(chain.error);
      }
      r := Success(Last(chain.value));
    }

    method CurrentApproved(w: World, target: Digest) returns (r: Result<Option<Decision>, Fault>)
      requires Wired()
      ensures r == ApprovedDecision(site.h, ledger.Rows(), w, target)
      ensures r.Success? ==> forall d :: r.value == Some(d) <==> Approves(site.h, ledger.Rows(), w, target, d)
    {
      hide LatestDecision, DecisionReadiness, Approves, DecisionStateSays;
      var latest := ReadLatest(target);
      if latest.Failure? || latest.value.None? {
        r := latest;
      } else {
        var state := decisions.Readiness(w, target);
        if state.Failure? {
          return Failure(state.error);
        }
        var approved := state.value.reason == DecisionFinal && state.value.granted && latest.value.value.kind == Approve;
        r := if approved then latest else Success(None);
      }
      if r.Success? {
        ApprovedIff(site.h, ledger.Rows(), w, target);
      }
    }

    /** The part of `readiness` that follows an approved decision. */
    method ReadStanding(w: World, d: Decision) returns (r: Result<BindingState, Fault>)
      ensures r == BindingStanding(site, ledger.Rows(), w, d)
    {
      hide Select, BindingForDecision, OnlyOne, KnownBinding;
      var sha := site.h.decision(d);
      var matches := MappingsFor(d.intentCode);
      if matches == [] {
        return Success(BindingState(NoMapping, Some(sha), None, None, None));
      }
      if |matches| != 1 {
        return Success(BindingState(AmbiguousMapping, Some(sha), None, None, None));
      }
      var mapping := Some(site.h.mapping(matches[0]));
      var evidence := w.evidence(d.target);
      if evidence.NoEvidence? {
        return Success(BindingState(EvidenceMissing, Some(sha), mapping, None, None));
      }
      if evidence.BrokenEvidence? {
        return Failure(EvidenceUnavailable);
      }
      var seen := Some(site.h.observation(evidence.observation));
      if !Meets(matches[0], evidence.observation) {
        return Success(BindingState(ConstraintMismatch, Some(sha), mapping, seen, None));
      }
      if matches[0].capabilityId == DESKTOP_CLICK && !evidence.observation.clickable {
        return Failure(EvidenceUnavailable);
      }
      var existing := FindForDecision(sha);
      if existing.Failure? {
        return Failure(existing.error);
      }
      if existing.value.Some? {
        var bound := Some(site.h.binding(existing.value.value));
        return Success(BindingState(BindingAlreadyExists, Some(sha), mapping, seen, bound));
      }
      r := Success(BindingState(BindingReady, Some(sha), mapping, seen, None));
    }

    method Readiness(w: World, target: Digest) returns (r: Result<BindingState, Fault>)
      requires Wired()
      ensures r == BindingReadiness(site, ledger.Rows(), w, target)
      ensures r.Success? ==> ReadinessMeans(site, ledger.Rows(), w, target, r.value)
      ensures r.Success? ==> RefusalSays(site, ledger.Rows(), w, target, r.value)
      ensures r.Failure? ==> r.error in {Corrupt, PolicyUnavailable, EvidenceUnavailable}
    {
      hide ApprovedDecision, BindingStanding, LatestDecision, DecisionReadiness, ReadinessMeans, Approves, RefusalSays,
           DecisionStateSays;
      if BindingReadiness(site, ledger.Rows(), w, target).Failure? {
        ReadinessFaults(site, ledger.Rows(), w, target);
      }
      var approved := CurrentApproved(w, target);
      if approved.Failure? {
        return Failure(approved.error);
      }
      if approved.value.Some? {
        r := ReadStanding(w, approved.value.value);
      } else {
        var latest := ReadLatest(target);
        if latest.Failure? {
          return Failure(latest.error);
        }
        if latest.value.None? {
          r := Success(BindingState(DecisionRequired, None, None, None, None));
        } else {
          var auth := decisions.Readiness(w, target);
          if auth.Failure? {
            return Failure(auth.error);
          }
          var reason := if auth.value.reason == AuthorityRequestStale then AuthorizationStale else NotApproved;
          r := Success(BindingState(reason, Some(site.h.decision(latest.value.value)), None, None, None));
        }
      }
      if r.Success? {
        BindingReadinessIff(site, ledger.Rows(), w, target);
        RefusalIsSaid(site, ledger.Rows(), w, target);
      }
    }

    /** `create`: appends one binding or changes nothing. */
    method Create(w: World, target: Digest, expectedDecision: Digest, expectedMapping: Digest, expectedSet: Digest,
                  at: int) returns (r: Result<Binding, Fault>)
      requires Wired()
      modifies ledger
      ensures r == CreateBinding(site, old(ledger.Rows()), w, target, expectedDecision, expectedMapping, expectedSet, at)
      ensures CreationSays(site, old(ledger.Rows()), w, target, expectedDecision, expectedMapping, expectedSet, at, r)
      ensures r.Success? ==> ledger.Rows() == old(ledger.Rows()).(bindings := old(ledger.bindings) + [r.value])
      ensures r.Failure? ==> ledger.Rows() == old(ledger.Rows())
    {
      hide BindingReadiness, ApprovedDecision, Select, Bind, ReadinessMeans, Approves, RefusalSays, CreationSays;
      CreationIsSaid(site, ledger.Rows(), w, target, expectedDecision, expectedMapping, expectedSet, at);
      var state := Readiness(w, target);
      if state.Failure? {
        return Failure(state.error);
      }
      if state.value.reason != BindingReady {
        return Failure(NotReady);
      }
      if state.value.decision != Some(expectedDecision) || state.value.mapping != Some(expectedMapping) {
        return Failure(Changed);
      }
      if site.h.mappings(site.mappings) != expectedSet {
        return Failure(Changed);
      }
      var approved := CurrentApproved(w, target);
      if approved.Failure? {
        return Failure(approved.error);
      }
      if approved.value.None? {
        return Failure(Changed);
      }
      var d := approved.value.value;
      var matches := MappingsFor(d.intentCode);
      var evidence := w.evidence(d.target);
      if |matches| != 1 || !evidence.Found? {
        return Failure(Changed);
      }
      var m, o := matches[0], evidence.observation;
      if !Meets(m, o) {
        return Failure(Changed);
      }
      if m.capabilityId != DESKTOP_CLICK {
        return Failure(Unsupported);
      }
      if !o.clickable {
        return Failure(EvidenceUnavailable);
      }
      var binding := Bind(site, d, m, o, at);
      if !binding.Valid() {
        return Failure(Unsupported);
      }
      ledger.bindings := ledger.bindings + [binding];
      r := Success(binding);
    }
  }

  // ------------------------------------------------------------ what the invariant needs

  /** The decision a binding names was made, approved, and says what the binding repeats. */
  ghost predicate BoundTo(h: Hashes, b: Binding, d: Decision) {
    && h.decision(d) == b.decision && d.kind == Approve
    && d.request == b.request && d.target == b.target && d.intentCode == b.intentCode
  }

  ghost predicate Approved(h: Hashes, l: Ledger, b: Binding) {
    exists d :: d in l.decisions && BoundTo(h, b, d)
  }

  ghost predicate BindingsInvariant(s: Site, l: Ledger) {
    && (forall b :: b in l.bindings ==> KnownBinding(s, b) && Approved(s.h, l, b))
    && (forall i, j :: 0 <= i < j < |l.bindings| ==> l.bindings[i].decision != l.bindings[j].decision)
  }

  lemma BindingsSurvive(s: Site, l: Ledger, after: Ledger)
    requires BindingsInvariant(s, l) && after.bindings == l.bindings
    requires forall d :: d in l.decisions ==> d in after.decisions
    ensures BindingsInvariant(s, after)
  {
    hide KnownBinding;
    forall b | b in after.bindings
      ensures Approved(s.h, after, b)
    {
      var d :| d in l.decisions && BoundTo(s.h, b, d);
    }
  }

  /** Distinct mapping ids and injective digests leave one mapping per digest. */
  lemma OneMapping(s: Site, m: Mapping)
    requires s.Valid() && m in s.mappings
    ensures Select(s.mappings, MappingIs(s.h, s.h.mapping(m))) == [m]
  {
    hide Mapping.Valid;
    var p := MappingIs(s.h, s.h.mapping(m));
    forall i, j | 0 <= i < j < |s.mappings|
      ensures !(p(s.mappings[i]) && p(s.mappings[j]))
    {
    }
    SelectUnique(s.mappings, p);
    SelectMembers(s.mappings, p);
    assert m in Select(s.mappings, p);
  }

  /** The approved decision is stored, current and still covered by the policy. */
  lemma ApprovedIsCurrent(h: Hashes, l: Ledger, w: World, target: Digest)
    requires h.CollisionFree() && RequestsInvariant(h, l) && DecisionsInvariant(h, l)
    requires ApprovedDecision(h, l, w, target).Success? && ApprovedDecision(h, l, w, target).value.Some?
    ensures LatestRequest(h, l, target).Success? && LatestRequest(h, l, target).value.Some?
    ensures var d := ApprovedDecision(h, l, w, target).value.value; var q := LatestRequest(h, l, target).value.value;
      && d in l.decisions && q in l.requests && d.kind == Approve && Copies(h, d, q) && d.target == target
      && w.policy(target).Some? && w.policy(target).value.decision == AllowRequest
      && q.intentRevision == w.policy(target).value.intentRevision && q.profile == w.policy(target).value.profile
  {
    hide LatestRequest, LatestDecision, DecisionReadiness, Provenance;
    FinalMeansStored(h, l, w, target);
  }

  /** A created binding is known, approved, and the first for its decision. */
  lemma BindingCreated(s: Site, l: Ledger, w: World, target: Digest, expectedDecision: Digest,
                       expectedMapping: Digest, expectedSet: Digest, at: int)
    requires s.Valid() && RequestsInvariant(s.h, l) && DecisionsInvariant(s.h, l) && BindingsInvariant(s, l)
    requires CreateBinding(s, l, w, target, expectedDecision, expectedMapping, expectedSet, at).Success?
    ensures var b := CreateBinding(s, l, w, target, expectedDecision, expectedMapping, expectedSet, at).value;
      BindingsInvariant(s, l.(bindings := l.bindings + [b]))
  {
    assert s.h.CollisionFree();
    hide *;
    FormedFrom(s, l, w, target, expectedDecision, expectedMapping, expectedSet, at);
    ApprovedIsCurrent(s.h, l, w, target);
    var d := ApprovedDecision(s.h, l, w, target).value.value;
    var matches := Select(s.mappings, ForIntent(d.intentCode));
    SelectMembers(s.mappings, ForIntent(d.intentCode));
    assert matches[0] in matches;
    BindingAppended(s, l, d, matches[0], w.evidence(d.target).observation, at);
  }

  lemma FormedFrom(s: Site, l: Ledger, w: World, target: Digest, expectedDecision: Digest, expectedMapping: Digest,
                   expectedSet: Digest, at: int)
    requires CreateBinding(s, l, w, target, expectedDecision, expectedMapping, expectedSet, at).Success?
    ensures ApprovedDecision(s.h, l, w, target).Success? && ApprovedDecision(s.h, l, w, target).value.Some?
    ensures var d := ApprovedDecision(s.h, l, w, target).value.value;
            var matches := Select(s.mappings, ForIntent(d.intentCode));
      && |matches| == 1 && w.evidence(d.target).Found? && ForIntent(d.intentCode)(matches[0])
      && var b := Bind(s, d, matches[0], w.evidence(d.target).observation, at);
      && b == CreateBinding(s, l, w, target, expectedDecision, expectedMapping, expectedSet, at).value
      && b.Valid()
      && BindingForDecision(s, l, s.h.decision(d)) == Success(None)
  {
    hide ApprovedDecision, BindingForDecision, Select, Bind, Binding.Valid, LatestDecision, DecisionReadiness;
    var d := ApprovedDecision(s.h, l, w, target).value.value;
    SelectMembers(s.mappings, ForIntent(d.intentCode));
    var matches := Select(s.mappings, ForIntent(d.intentCode));
    assert matches[0] in matches;
  }

  lemma BindingAppended(s: Site, l: Ledger, d: Decision, m: Mapping, o: Observation, at: int)
    requires s.Valid() && BindingsInvariant(s, l)
    requires d in l.decisions && d.kind == Approve && m in s.mappings && ForIntent(d.intentCode)(m)
    requires Bind(s, d, m, o, at).Valid() && BindingForDecision(s, l, s.h.decision(d)) == Success(None)
    ensures BindingsInvariant(s, l.(bindings := l.bindings + [Bind(s, d, m, o, at)]))
  {
    hide Site.Valid, Binding.Valid, Select;
    var b := Bind(s, d, m, o, at);
    OneMapping(s, m);
    assert KnownBinding(s, b);
    hide KnownBinding;
    assert BoundTo(s.h, b, d);
    SelectMembers(l.bindings, ForDecision(b.decision));
    forall x | x in l.bindings
      ensures x.decision != b.decision
    {
      assert x in Select(l.bindings, ForDecision(b.decision)) <==> x.decision == b.decision;
    }
    var after := l.(bindings := l.bindings + [b]);
    forall x | x in after.bindings
      ensures KnownBinding(s, x) && Approved(s.h, after, x)
    {
      assert x in l.bindings ==> Approved(s.h, l, x);
    }
  }

  /** With the invariant no stored binding is refused, so the "multiple bindings" error is unreachable. */
  lemma BindingsReadable(s: Site, l: Ledger, sha: Digest, target: Digest)
    requires BindingsInvariant(s, l)
    ensures BindingForDecision(s, l, sha).Success? && LatestBinding(s, l, target).Success?
  {
    hide KnownBinding, Approved;
    SelectUnique(l.bindings, ForDecision(sha));
    SelectMembers(l.bindings, ForDecision(sha));
    SelectMembers(l.bindings, BindsTarget(target));
  }

  /** Readiness fails only where the policy or the evidence does. */
  lemma BindingReadinessFaults(s: Site, l: Ledger, w: World, target: Digest)
    requires RequestsInvariant(s.h, l) && DecisionsInvariant(s.h, l) && BindingsInvariant(s, l)
    requires BindingReadiness(s, l, w, target).Failure?
    ensures BindingReadiness(s, l, w, target).error in {PolicyUnavailable, EvidenceUnavailable}
  {
    hide LatestDecision, DecisionReadiness, BindingForDecision, Select;
    ChainsReadable(s.h, l, w, target);
    if DecisionReadiness(s.h, l, w, target).Failure? {
      PolicyFault(s.h, l, w, target);
    }
    if ApprovedDecision(s.h, l, w, target).Success? && ApprovedDecision(s.h, l, w, target).value.Some? {
      BindingsReadable(s, l, s.h.decision(ApprovedDecision(s.h, l, w, target).value.value), target);
    }
  }

  lemma PolicyFault(h: Hashes, l: Ledger, w: World, target: Digest)
    requires RequestsInvariant(h, l) && DecisionsInvariant(h, l)
    requires DecisionReadiness(h, l, w, target).Failure?
    ensures DecisionReadiness(h, l, w, target).error == PolicyUnavailable
  {
    hide Provenance, GoodChain, LatestRequest;
    ChainsReadable(h, l, w, target);
    RequestsReadable(h, l, "", target);
  }

  /** Every configured mapping names the supported capability, so a ready binding can be created. */
  lemma ReadyIsBindable(s: Site, l: Ledger, w: World, target: Digest, at: int)
    requires s.Valid() && BindingReadiness(s, l, w, target).Success?
    requires BindingReadiness(s, l, w, target).value.reason == BindingReady
    ensures var state := BindingReadiness(s, l, w, target).value;
      && state.decision.Some? && state.mapping.Some?
      && CreateBinding(s, l, w, target, state.decision.value, state.mapping.value, s.h.mappings(s.mappings), at).Success?
  {
    hide ApprovedDecision, LatestDecision, DecisionReadiness, BindingForDecision, Select, Hashes.CollisionFree;
    var d := ApprovedDecision(s.h, l, w, target).value.value;
    SelectMembers(s.mappings, ForIntent(d.intentCode));
    var matches := Select(s.mappings, ForIntent(d.intentCode));
    assert matches[0] in matches;
    ValidMapping(s, matches[0]);
  }

  lemma ValidMapping(s: Site, m: Mapping)
    requires s.Valid() && m in s.mappings
    ensures m.capabilityId == DESKTOP_CLICK && Canonical(m.effects) && "unknown" !in m.effects && "none" !in m.effects
  {
  }
}
