/**
 `phios/macro_action_lease_service.py`: a bound action is leased once, under the
 one policy that covers it, for a window inside the current authority epoch.
 Times count microseconds, the resolution of the source's clock.
 */
module ActionLeaseService {
  import opened Wrappers
  import opened AuthorityEpoch
  import opened EnforcementProfile
  import opened ActionLease
  import opened AuthorityLedger
  import opened AuthorityRequest
  import opened AuthorizationDecision
  import opened CapabilityBinding

  const TICKS_PER_SECOND := 1_000_000

  datatype LeaseReadinessReason =
    | ExecutableBindingRequired | ExecutableBindingStale | LeasePolicyMissing | ProfileIncomplete | AckRequired
    | EpochUnavailable | EpochStale | PrincipalMismatched | PermissionMissing | LeaseAlreadyExists | LeaseReady

  datatype Trusted = Trusted(
    reason: LeaseReadinessReason, binding: Option<Binding>, policy: Option<LeasePolicy>, profile: Option<Profile>,
    epoch: Option<Epoch>, missing: set<Permission>, existing: Option<LeaseRecord>)

  /** The digests the caller reviewed; issuing refuses when any of them has changed. */
  datatype Expected = Expected(binding: Digest, policy: Digest, policySet: Digest, profile: Digest, epoch: Digest)

  // ------------------------------------------------------------ specification

  function Covers(b: Binding): LeasePolicy -> bool {
    (p: LeasePolicy) =>
      && p.capabilityId == b.capabilityId && p.capabilityVersion == b.capabilityVersion
      && p.permissions == b.permissions && p.effects == b.effects
  }

  function ForBinding(sha: Digest): LeaseRecord -> bool {
    (r: LeaseRecord) => r.binding == sha
  }

  /** `GhostWalkLeasePolicyRegistry.for_binding`. */
  function PolicyFor(s: Site, b: Binding): Result<Option<LeasePolicy>, Fault> {
    var matches := Select(s.policies, Covers(b));
    if |matches| > 1 then Failure(PolicyAmbiguous) else Success(First(matches))
  }

  /** What reading a stored record back checks. */
  predicate ValidRecord(h: Hashes, r: LeaseRecord) {
    && r.profile.Valid() && r.epoch.Valid() && r.lease.Valid()
    && h.lease.profile(r.profile) == r.lease.profile && h.lease.epoch(r.epoch) == r.lease.epoch
  }

  function RecordForBinding(s: Site, l: Ledger, sha: Digest): Result<Option<LeaseRecord>, Fault> {
    var rows := Select(l.leases, ForBinding(sha));
    if exists r :: r in rows && !ValidRecord(s.h, r) then Failure(Corrupt)
    else if |rows| > 1 then Failure(Corrupt)
    else Success(First(rows))
  }

  /** The one record of a binding, valid as read back. */
  ghost predicate TheRecord(s: Site, l: Ledger, sha: Digest, r: LeaseRecord) {
    OnlyOne(l.leases, ForBinding(sha), r) && ValidRecord(s.h, r)
  }

  predicate EpochCurrent(e: Epoch, now: int) {
    e.observed <= now && (e.next.Some? ==> now < e.next.value)
  }

  /** The checks on a current binding: policy, enforcement, epoch, permissions, and any lease it already has. */
  function LeaseStanding(s: Site, l: Ledger, w: World, b: Binding): Result<Trusted, Fault> {
    var policy :- PolicyFor(s, b);
    if policy.None? then Success(Trusted(LeasePolicyMissing, Some(b), None, None, None, {}, None))
    else
      var built := BuildProfile(s.h.lease.intent(b.intent), b.intent, policy.value.rules);
      if built.Failure? then Failure(ProfileRefused)
      else
        var profile := built.value;
        var t := Trusted(ProfileIncomplete, Some(b), policy, Some(profile), None, {}, None);
        if !profile.MappingComplete() then Success(t)
        else if policy.value.accepted != profile.WithoutEnforced() then Success(t.(reason := AckRequired))
        else if w.epoch.None? then Success(t.(reason := EpochUnavailable))
        else EpochStanding(s, l, w, b, t.(epoch := w.epoch))
  }

  function EpochStanding(s: Site, l: Ledger, w: World, b: Binding, t: Trusted): Result<Trusted, Fault>
    requires t.epoch.Some? && t.policy.Some?
  {
    var e := t.epoch.value;
    if e.principal != t.policy.value.principal then Success(t.(reason := PrincipalMismatched))
    else if !EpochCurrent(e, w.now) then Success(t.(reason := EpochStale))
    else if !(b.permissions <= e.grants) then Success(t.(reason := PermissionMissing, missing := b.permissions - e.grants))
    else
      var existing :- RecordForBinding(s, l, s.h.binding(b));
      if existing.Some? then Success(t.(reason := LeaseAlreadyExists, existing := existing))
      else Success(t.(reason := LeaseReady))
  }

  /** `_trusted_state`. */
  ghost function TrustedState(s: Site, l: Ledger, w: World, target: Digest): Result<Trusted, Fault> {
    var latest :- LatestBinding(s, l, target);
    if latest.None? then Success(Trusted(ExecutableBindingRequired, None, None, None, None, {}, None))
    else
      var b := latest.value;
      var state :- BindingReadiness(s, l, w, target);
      if state.reason != BindingAlreadyExists || state.existing != Some(s.h.binding(b)) then
        Success(Trusted(ExecutableBindingStale, Some(b), None, None, None, {}, None))
      else LeaseStanding(s, l, w, b)
  }

  // ------------------------------------------------------------ what READY means to a caller

  /** The binding the target's readiness still reports. */
  ghost predicate StillBound(s: Site, l: Ledger, w: World, target: Digest, b: Binding) {
    var state := BindingReadiness(s, l, w, target);
    state.Success? && state.value.reason == BindingAlreadyExists && state.value.existing == Some(s.h.binding(b))
  }

  /** The policy is for the binding's capability and version, and for just its permissions and effects. */
  ghost predicate SameAction(b: Binding, p: LeasePolicy) {
    && b.capabilityId == p.capabilityId && b.capabilityVersion == p.capabilityVersion
    && b.permissions == p.permissions && b.effects == p.effects
  }

  lemma CoversIff(b: Binding, p: LeasePolicy)
    ensures Covers(b)(p) <==> SameAction(b, p)
  {
  }

  /** The target's newest binding, still current. */
  ghost predicate CurrentlyBound(s: Site, l: Ledger, w: World, target: Digest, b: Binding) {
    Newest(l.bindings, BindsTarget(target), b) && StillBound(s, l, w, target, b)
  }

  /** The one policy that covers it, and the enforcement profile the policy's rules form. */
  ghost predicate Profiled(s: Site, l: Ledger, w: World, target: Digest, b: Binding, p: LeasePolicy, f: Profile) {
    && CurrentlyBound(s, l, w, target, b) && OnlyOne(s.policies, Covers(b), p) && SameAction(b, p)
    && BuildProfile(s.h.lease.intent(b.intent), b.intent, p.rules) == Success(f)
  }

  /** Every effect is mapped, and those no rule enforces are acknowledged. */
  ghost predicate Acknowledged(s: Site, l: Ledger, w: World, target: Digest, b: Binding, p: LeasePolicy, f: Profile) {
    Profiled(s, l, w, target, b, p, f) && f.MappingComplete() && p.accepted == f.WithoutEnforced()
  }

  /** The world's epoch is of the policy's principal and current at the world's time. */
  ghost predicate UnderEpoch(w: World, p: LeasePolicy, e: Epoch) {
    && w.epoch == Some(e) && e.principal == p.principal
    && e.observed <= w.now && (e.next.Some? ==> w.now < e.next.value)
  }

  /**
   The binding is the target's newest and still current, one policy covers it,
   that policy's rules map its effects and acknowledge what they do not
   enforce, the epoch is current and grants all it needs, and no lease names it.
   */
  ghost predicate Leasable(s: Site, l: Ledger, w: World, target: Digest, b: Binding, p: LeasePolicy, f: Profile,
                           e: Epoch) {
    && Acknowledged(s, l, w, target, b, p, f) && UnderEpoch(w, p, e) && b.permissions <= e.grants
    && forall r :: r in l.leases ==> r.binding != s.h.binding(b)
  }

  /** Each refusal of readiness, by the rows, the policies and the epoch that bring it about. */
  ghost predicate TrustRefusalSays(s: Site, l: Ledger, w: World, target: Digest, t: Trusted) {
    match t.reason
    case ExecutableBindingRequired =>
      && t == Trusted(ExecutableBindingRequired, None, None, None, None, {}, None)
      && forall b :: b in l.bindings ==> b.target != target
    case ExecutableBindingStale =>
      exists b :: Newest(l.bindings, BindsTarget(target), b) && StaleFor(s, l, w, target, t, b)
    case LeasePolicyMissing =>
      exists b :: CurrentlyBound(s, l, w, target, b) && UncoveredFor(s, t, b)
    case ProfileIncomplete =>
      exists b, p, f :: Profiled(s, l, w, target, b, p, f) && UnmappedFor(t, b, p, f)
    case AckRequired =>
      exists b, p, f :: Profiled(s, l, w, target, b, p, f) && UnacknowledgedFor(t, b, p, f)
    case EpochUnavailable =>
      exists b, p, f :: Acknowledged(s, l, w, target, b, p, f) && NoEpochFor(w, t, b, p, f)
    case PrincipalMismatched =>
      exists b, p, f, e :: Acknowledged(s, l, w, target, b, p, f) && OtherPrincipalFor(w, t, b, p, f, e)
    case EpochStale =>
      exists b, p, f, e :: Acknowledged(s, l, w, target, b, p, f) && StaleEpochFor(w, t, b, p, f, e)
    case PermissionMissing =>
      exists b, p, f, e :: Acknowledged(s, l, w, target, b, p, f) && UngrantedFor(w, t, b, p, f, e)
    case LeaseAlreadyExists =>
      exists b, p, f, e, r :: Acknowledged(s, l, w, target, b, p, f) && LeasedFor(s, l, w, t, b, p, f, e, r)
    case LeaseReady => true
  }

  ghost predicate StaleFor(s: Site, l: Ledger, w: World, target: Digest, t: Trusted, b: Binding) {
    !StillBound(s, l, w, target, b) && t == Trusted(ExecutableBindingStale, Some(b), None, None, None, {}, None)
  }

  ghost predicate UncoveredFor(s: Site, t: Trusted, b: Binding) {
    && (forall p :: p in s.policies ==> !SameAction(b, p))
    && t == Trusted(LeasePolicyMissing, Some(b), None, None, None, {}, None)
  }

  ghost predicate UnmappedFor(t: Trusted, b: Binding, p: LeasePolicy, f: Profile) {
    !f.MappingComplete() && t == Trusted(ProfileIncomplete, Some(b), Some(p), Some(f), None, {}, None)
  }

  ghost predicate UnacknowledgedFor(t: Trusted, b: Binding, p: LeasePolicy, f: Profile) {
    && f.MappingComplete() && p.accepted != f.WithoutEnforced()
    && t == Trusted(AckRequired, Some(b), Some(p), Some(f), None, {}, None)
  }

  ghost predicate NoEpochFor(w: World, t: Trusted, b: Binding, p: LeasePolicy, f: Profile) {
    w.epoch == None && t == Trusted(EpochUnavailable, Some(b), Some(p), Some(f), None, {}, None)
  }

  ghost predicate OtherPrincipalFor(w: World, t: Trusted, b: Binding, p: LeasePolicy, f: Profile, e: Epoch) {
    && w.epoch == Some(e) && e.principal != p.principal
    && t == Trusted(PrincipalMismatched, Some(b), Some(p), Some(f), Some(e), {}, None)
  }

  ghost predicate StaleEpochFor(w: World, t: Trusted, b: Binding, p: LeasePolicy, f: Profile, e: Epoch) {
    && w.epoch == Some(e) && e.principal == p.principal
    && (w.now < e.observed || (e.next.Some? && e.next.value <= w.now))
    && t == Trusted(EpochStale, Some(b), Some(p), Some(f), Some(e), {}, None)
  }

  ghost predicate UngrantedFor(w: World, t: Trusted, b: Binding, p: LeasePolicy, f: Profile, e: Epoch) {
    && UnderEpoch(w, p, e) && b.permissions - e.grants != {}
    && t == Trusted(PermissionMissing, Some(b), Some(p), Some(f), Some(e), b.permissions - e.grants, None)
  }

  ghost predicate LeasedFor(s: Site, l: Ledger, w: World, t: Trusted, b: Binding, p: LeasePolicy, f: Profile, e: Epoch,
                            r: LeaseRecord) {
    && UnderEpoch(w, p, e) && b.permissions <= e.grants && TheRecord(s, l, s.h.binding(b), r)
    && t == Trusted(LeaseAlreadyExists, Some(b), Some(p), Some(f), Some(e), {}, Some(r))
  }

  function ReadyTrust(b: Binding, p: LeasePolicy, f: Profile, e: Epoch): Trusted {
    Trusted(LeaseReady, Some(b), Some(p), Some(f), Some(e), {}, None)
  }

  /** READY is reported for what is leasable and for nothing else, with the rows it rests on. */
  ghost predicate TrustMeans(s: Site, l: Ledger, w: World, target: Digest, t: Trusted) {
    && (forall b, p, f, e :: t == ReadyTrust(b, p, f, e) <==> Leasable(s, l, w, target, b, p, f, e))
    && (t.reason == LeaseReady ==> exists b, p, f, e :: Leasable(s, l, w, target, b, p, f, e))
  }

  /** The end of the lease: the policy's longest window, cut at the next known transition. */
  function Until(now: int, policy: LeasePolicy, epoch: Epoch): int {
    var longest := now + policy.maxSeconds * TICKS_PER_SECOND;
    if epoch.next.Some? && epoch.next.value < longest then epoch.next.value else longest
  }

  predicate AsExpected(s: Site, t: Trusted, x: Expected) {
    && t.binding.Some? && t.policy.Some? && t.profile.Some? && t.epoch.Some?
    && s.h.binding(t.binding.value) == x.binding && s.h.policy(t.policy.value) == x.policy
    && s.h.policies(s.policies) == x.policySet && s.h.lease.profile(t.profile.value) == x.profile
    && s.h.lease.epoch(t.epoch.value) == x.epoch
  }

  /** The record `issue` appends, or why it refuses. */
  ghost function IssueLease(s: Site, l: Ledger, w: World, target: Digest, x: Expected): Result<LeaseRecord, Fault> {
    var t :- TrustedState(s, l, w, target);
    if t.reason != LeaseReady then Failure(NotReady)
    else if !AsExpected(s, t, x) then Failure(Changed)
    else LeaseFrom(s, w, target, t.binding.value, t.policy.value, t.profile.value, t.epoch.value)
  }

  function LeaseFrom(s: Site, w: World, target: Digest, b: Binding, policy: LeasePolicy, profile: Profile, epoch: Epoch): Result<LeaseRecord, Fault> {
    var until := Until(w.now, policy, epoch);
    if until <= w.now then Failure(NoWindow)
    else
      match Issue(s.h.lease, policy.principal, policy.issuer, b.decision, b.intent, profile, epoch, policy.permissions,
                  policy.accepted, w.now, w.now, until)
      case Failure(error) => Failure(LeaseRefused(error))
      case Success(lease) =>
        Success(LeaseRecord(target, s.h.binding(b), s.h.policy(policy), profile, epoch, lease, w.now))
  }

  /** A policy found is for the binding's own action; none found means none is. */
  lemma PolicySays(s: Site, b: Binding)
    requires |Select(s.policies, Covers(b))| <= 1
    ensures var found := First(Select(s.policies, Covers(b)));
      && (found.Some? ==> SameAction(b, found.value))
      && (found.None? ==> forall p :: p in s.policies ==> !SameAction(b, p))
  {
    hide Covers, SameAction;
    var matches := Select(s.policies, Covers(b));
    SelectMembers(s.policies, Covers(b));
    if matches != [] {
      assert matches[0] in matches;
      CoversIff(b, matches[0]);
    }
    forall p | p in s.policies
      ensures SameAction(b, p) ==> p in matches
    {
      CoversIff(b, p);
    }
  }

  // ------------------------------------------------------------ what READY means

  /** A lookup that reads back cleanly finds the one record of the binding, or there is none. */
  lemma RecordFound(s: Site, l: Ledger, sha: Digest)
    requires RecordForBinding(s, l, sha).Success?
    ensures RecordForBinding(s, l, sha).value == None <==> forall r :: r in l.leases ==> r.binding != sha
    ensures forall r :: RecordForBinding(s, l, sha).value == Some(r) <==> TheRecord(s, l, sha, r)
  {
    hide ValidRecord, OnlyOne;
    var rows := Select(l.leases, ForBinding(sha));
    SelectMembers(l.leases, ForBinding(sha));
    if rows != [] {
      assert rows[0] in rows;
    }
    forall r
      ensures OnlyOne(l.leases, ForBinding(sha), r) <==> rows == [r]
    {
      OnlyOneIff(l.leases, ForBinding(sha), r);
    }
    forall r | r in l.leases
      ensures r.binding == sha ==> r in rows
    {
    }
  }

  /** What a ready state rests on, collected from every check it passed. */
  lemma ReadyIsLeasable(s: Site, l: Ledger, w: World, target: Digest)
    requires TrustedState(s, l, w, target).Success? && TrustedState(s, l, w, target).value.reason == LeaseReady
    ensures var t := TrustedState(s, l, w, target).value;
      && t.binding.Some? && t.policy.Some? && t.profile.Some? && t.epoch.Some?
      && t == ReadyTrust(t.binding.value, t.policy.value, t.profile.value, t.epoch.value)
      && Leasable(s, l, w, target, t.binding.value, t.policy.value, t.profile.value, t.epoch.value)
  {
    hide BindingReadiness, RecordForBinding, Select, Profile.MappingComplete, Profile.WithoutEnforced;
    hide BuildProfile, Covers, KnownBinding, Newest, OnlyOne;
    var b := LatestBinding(s, l, target).value.value;
    NewestIff(l.bindings, BindsTarget(target), b);
    var matches := Select(s.policies, Covers(b));
    if matches != [] {
      assert |matches| == 1 ==> matches == [matches[0]];
      OnlyOneIff(s.policies, Covers(b), matches[0]);
      if |matches| == 1 {
        OnlyOneIsStored(s.policies, Covers(b), matches[0]);
        CoversIff(b, matches[0]);
      }
    }
    RecordFound(s, l, s.h.binding(b));
  }

  /** Whatever is leasable is reported ready. */
  lemma LeasableIsReady(s: Site, l: Ledger, w: World, target: Digest, b: Binding, p: LeasePolicy, f: Profile, e: Epoch)
    requires TrustedState(s, l, w, target).Success? && Leasable(s, l, w, target, b, p, f, e)
    ensures TrustedState(s, l, w, target).value == ReadyTrust(b, p, f, e)
  {
    hide BindingReadiness, RecordForBinding, Select, Profile.MappingComplete, Profile.WithoutEnforced;
    hide BuildProfile, Covers, KnownBinding, Newest, OnlyOne;
    NewestIff(l.bindings, BindsTarget(target), b);
    OnlyOneIff(s.policies, Covers(b), p);
    assert [p][0] == p;
    RecordFound(s, l, s.h.binding(b));
  }

  /** The rows behind a refusal that comes after the policy has been found. */
  lemma EpochRefusalSays(s: Site, l: Ledger, w: World, target: Digest, b: Binding, t: Trusted)
    requires t.epoch.Some? && t.policy.Some? && t.profile.Some? && w.epoch == t.epoch
    requires t == Trusted(t.reason, Some(b), t.policy, t.profile, t.epoch, {}, None)
    requires Acknowledged(s, l, w, target, b, t.policy.value, t.profile.value)
    requires EpochStanding(s, l, w, b, t).Success?
    ensures TrustRefusalSays(s, l, w, target, EpochStanding(s, l, w, b, t).value)
  {
    hide Acknowledged, TheRecord, RecordForBinding;
    var p, f, e := t.policy.value, t.profile.value, t.epoch.value;
    var u := EpochStanding(s, l, w, b, t).value;
    assert forall x :: x in b.permissions ==> x in b.permissions - e.grants || x in e.grants;
    if u.reason == PrincipalMismatched {
      assert OtherPrincipalFor(w, u, b, p, f, e);
    } else if u.reason == EpochStale {
      assert StaleEpochFor(w, u, b, p, f, e);
    } else if u.reason == PermissionMissing {
      assert UngrantedFor(w, u, b, p, f, e);
    } else if u.reason == LeaseAlreadyExists {
      RecordFound(s, l, s.h.binding(b));
      assert LeasedFor(s, l, w, u, b, p, f, e, u.existing.value);
    }
  }

  lemma StandingRefusalSays(s: Site, l: Ledger, w: World, target: Digest, b: Binding)
    requires CurrentlyBound(s, l, w, target, b) && LeaseStanding(s, l, w, b).Success?
    ensures TrustRefusalSays(s, l, w, target, LeaseStanding(s, l, w, b).value)
  {
    hide CurrentlyBound, Select, Covers, OnlyOne, BuildProfile, Profile.MappingComplete, Profile.WithoutEnforced, EpochStanding;
    var u := LeaseStanding(s, l, w, b).value;
    var matches := Select(s.policies, Covers(b));
    if matches == [] {
      NoneSelected(s.policies, Covers(b));
      forall p | p in s.policies
        ensures !SameAction(b, p)
      {
        var i :| 0 <= i < |s.policies| && s.policies[i] == p;
        CoversIff(b, p);
      }
      assert UncoveredFor(s, u, b);
    } else {
      var p := matches[0];
      assert matches == [p];
      OnlyOneIff(s.policies, Covers(b), p);
      OnlyOneIsStored(s.policies, Covers(b), p);
      CoversIff(b, p);
      var f := BuildProfile(s.h.lease.intent(b.intent), b.intent, p.rules).value;
      assert Profiled(s, l, w, target, b, p, f);
      if !f.MappingComplete() {
        assert UnmappedFor(u, b, p, f);
      } else if p.accepted != f.WithoutEnforced() {
        assert UnacknowledgedFor(u, b, p, f);
      } else if w.epoch == None {
        assert NoEpochFor(w, u, b, p, f);
      } else {
        EpochRefusalSays(s, l, w, target, b, Trusted(ProfileIncomplete, Some(b), Some(p), Some(f), w.epoch, {}, None));
      }
    }
  }

  lemma TrustRefusalIsSaid(s: Site, l: Ledger, w: World, target: Digest)
    requires TrustedState(s, l, w, target).Success?
    ensures TrustRefusalSays(s, l, w, target, TrustedState(s, l, w, target).value)
  {
    hide BindingReadiness, LeaseStanding, Newest, Select, KnownBinding;
    var t := TrustedState(s, l, w, target).value;
    var rows := Select(l.bindings, BindsTarget(target));
    if rows == [] {
      NoneSelected(l.bindings, BindsTarget(target));
      assert forall i :: 0 <= i < |l.bindings| ==> l.bindings[i] in l.bindings;
    } else {
      var b := rows[|rows| - 1];
      NewestIff(l.bindings, BindsTarget(target), b);
      if StillBound(s, l, w, target, b) {
        StandingRefusalSays(s, l, w, target, b);
      } else {
        assert StaleFor(s, l, w, target, t, b);
      }
    }
  }

  lemma LeaseReadyIff(s: Site, l: Ledger, w: World, target: Digest)
    requires TrustedState(s, l, w, target).Success?
    ensures TrustMeans(s, l, w, target, TrustedState(s, l, w, target).value)
  {
    hide TrustedState, Leasable;
    var t := TrustedState(s, l, w, target).value;
    if t.reason == LeaseReady {
      ReadyIsLeasable(s, l, w, target);
    }
    forall b, p, f, e | Leasable(s, l, w, target, b, p, f, e)
      ensures t == ReadyTrust(b, p, f, e)
    {
      LeasableIsReady(s, l, w, target, b, p, f, e);
    }
  }

  // ------------------------------------------------------------ what an issued record says

  /** `t` is no later than the policy's longest window allows and than the next known transition. */
  predicate InWindow(t: int, now: int, p: LeasePolicy, e: Epoch) {
    t <= now + p.maxSeconds * TICKS_PER_SECOND && (e.next.Some? ==> t <= e.next.value)
  }

  /** The latest such moment. */
  ghost predicate LatestEnd(t: int, now: int, p: LeasePolicy, e: Epoch) {
    InWindow(t, now, p, e) && forall u :: InWindow(u, now, p, e) ==> u <= t
  }

  lemma UntilIsLatest(now: int, p: LeasePolicy, e: Epoch)
    ensures LatestEnd(Until(now, p, e), now, p, e)
  {
  }

  /** The digests the caller reviewed are those of the rows in use. */
  ghost predicate Reviewed(s: Site, b: Binding, p: LeasePolicy, f: Profile, e: Epoch, x: Expected) {
    && x.binding == s.h.binding(b) && x.policy == s.h.policy(p) && x.policySet == s.h.policies(s.policies)
    && x.profile == s.h.lease.profile(f) && x.epoch == s.h.lease.epoch(e)
  }

  /** The record of a lease on these rows, issued now for as long as they allow. */
  ghost predicate Leases(s: Site, w: World, target: Digest, b: Binding, p: LeasePolicy, f: Profile, e: Epoch,
                         r: LeaseRecord) {
    && r.target == target && r.binding == s.h.binding(b) && r.policy == s.h.policy(p)
    && r.profile == f && r.epoch == e && r.recordedAt == w.now
    && r.lease.principal == p.principal == e.principal && r.lease.issuer == p.issuer
    && r.lease.authorization == b.decision && r.lease.intent == s.h.lease.intent(b.intent)
    && r.lease.profile == s.h.lease.profile(f) && r.lease.epoch == s.h.lease.epoch(e)
    && r.lease.capabilityId == b.intent.capabilityId && r.lease.capabilityVersion == b.intent.capabilityVersion
    && r.lease.payload == b.intent.payload && r.lease.effects == b.intent.effects
    && r.lease.permissions == p.permissions && r.lease.accepted == p.accepted
    && r.lease.issuedAt == r.lease.validFrom == w.now < r.lease.validUntil && r.lease.maxUses == 1
    && LatestEnd(r.lease.validUntil, w.now, p, e)
  }

  /**
   A record is issued only for what is leasable and was reviewed, and says just
   that; a refusal as not ready means nothing is leasable, one as changed that
   what is leasable is not what was reviewed, one for want of a window that the
   bounds leave no later moment.
   */
  ghost predicate IssueMeans(s: Site, l: Ledger, w: World, target: Digest, x: Expected, r: Result<LeaseRecord, Fault>) {
    && (r.Success? ==> exists b, p, f, e :: IssuedOn(s, l, w, target, x, b, p, f, e, r.value))
    && (r == Failure(NotReady) ==> forall b, p, f, e :: !Leasable(s, l, w, target, b, p, f, e))
    && (r == Failure(Changed) ==> exists b, p, f, e :: Leasable(s, l, w, target, b, p, f, e) && !Reviewed(s, b, p, f, e, x))
    && (r == Failure(NoWindow) ==> exists b, p, f, e :: Leasable(s, l, w, target, b, p, f, e) && !InWindow(w.now + 1, w.now, p, e))
    && (r.Failure? && r.error.LeaseRefused? ==>
          exists b, p, f, e :: Leasable(s, l, w, target, b, p, f, e) && InWindow(w.now + 1, w.now, p, e))
  }

  ghost predicate IssuedOn(s: Site, l: Ledger, w: World, target: Digest, x: Expected, b: Binding, p: LeasePolicy,
                           f: Profile, e: Epoch, r: LeaseRecord) {
    Leasable(s, l, w, target, b, p, f, e) && Reviewed(s, b, p, f, e, x) && Leases(s, w, target, b, p, f, e, r)
  }

  lemma LeaseFromSays(s: Site, w: World, target: Digest, b: Binding, p: LeasePolicy, f: Profile, e: Epoch)
    requires LeaseFrom(s, w, target, b, p, f, e).Success?
    ensures Leases(s, w, target, b, p, f, e, LeaseFrom(s, w, target, b, p, f, e).value)
  {
    hide Profile.MappingComplete, Profile.WithoutEnforced, LatestEnd;
    UntilIsLatest(w.now, p, e);
  }

  lemma LeaseFromFaults(s: Site, w: World, target: Digest, b: Binding, p: LeasePolicy, f: Profile, e: Epoch)
    requires LeaseFrom(s, w, target, b, p, f, e).Failure?
    ensures var error := LeaseFrom(s, w, target, b, p, f, e).error;
      && (error == NoWindow || error.LeaseRefused?) && (error == NoWindow <==> !InWindow(w.now + 1, w.now, p, e))
  {
    hide Issue;
  }

  /** What reading the trusted state can raise: never the refusals `issue` itself makes. */
  lemma TrustedFaults(s: Site, l: Ledger, w: World, target: Digest)
    requires TrustedState(s, l, w, target).Failure?
    ensures TrustedState(s, l, w, target).error in
            {Corrupt, PolicyUnavailable, EvidenceUnavailable, PolicyAmbiguous, ProfileRefused}
  {
    hide BuildProfile, Profile.MappingComplete, Profile.WithoutEnforced, EpochCurrent, Select, KnownBinding, ValidRecord;
    hide BindingReadiness;
    if BindingReadiness(s, l, w, target).Failure? {
      ReadinessFaults(s, l, w, target);
    }
  }

  lemma IssueSays(s: Site, l: Ledger, w: World, target: Digest, x: Expected)
    ensures IssueMeans(s, l, w, target, x, IssueLease(s, l, w, target, x))
  {
    hide TrustedState, Leasable, Leases, LeaseFrom;
    var trusted := TrustedState(s, l, w, target);
    if trusted.Failure? {
      TrustedFaults(s, l, w, target);
    } else {
      LeaseReadyIff(s, l, w, target);
      var t := trusted.value;
      if t.reason == LeaseReady {
        ReadyIsLeasable(s, l, w, target);
        var b, p, f, e := t.binding.value, t.policy.value, t.profile.value, t.epoch.value;
        assert AsExpected(s, t, x) <==> Reviewed(s, b, p, f, e, x);
        if AsExpected(s, t, x) {
          if LeaseFrom(s, w, target, b, p, f, e).Success? {
            LeaseFromSays(s, w, target, b, p, f, e);
            assert IssuedOn(s, l, w, target, x, b, p, f, e, LeaseFrom(s, w, target, b, p, f, e).value);
          } else {
            LeaseFromFaults(s, w, target, b, p, f, e);
          }
        }
      }
    }
  }

  // ------------------------------------------------------------ the service

  class LeaseService {
    const site: Site
    const ledger: RealityLedger
    const bindings: BindingService

    constructor (site: Site, bindings: BindingService)
      requires bindings.site == site
      ensures this.site == site && this.ledger == bindings.ledger && this.bindings == bindings
    {
      this.site, this.ledger, this.bindings := site, bindings.ledger, bindings;
    }

    ghost predicate Wired() {
      bindings.site == site && bindings.ledger == ledger && bindings.Wired()
    }

    /** `for_binding`: the one policy that covers the binding, refused when several do. */
    method PolicyForBinding(b: Binding) returns (r: Result<Option<LeasePolicy>, Fault>)
      ensures r == PolicyFor(site, b)
      ensures r.Success? ==> forall p :: r.value == Some(p) <==> OnlyOne(site.policies, Covers(b), p)
      ensures r.Success? && r.value.Some? ==> SameAction(b, r.value.value)
      ensures r == Success(None) ==> forall p :: p in site.policies ==> !SameAction(b, p)
    {
      hide Covers, OnlyOne, SameAction;
      var matches: seq<LeasePolicy> := [];
      var k := 0;
      while k < |site.policies|
        invariant k <= |site.policies| && matches == Select(site.policies[..k], Covers(b))
      {
        assert site.policies[..k + 1] == site.policies[..k] + [site.policies[k]];
        SelectSnoc(site.policies[..k], site.policies[k], Covers(b));
        if Covers(b)(site.policies[k]) {
          matches := matches + [site.policies[k]];
        }
        k := k + 1;
      }
      assert site.policies[..k] == site.policies;
      if |matches| > 1 {
        return Failure(PolicyAmbiguous);
      }
      r := Success(First(matches));
      PolicySays(site, b);
      forall p
        ensures OnlyOne(site.policies, Covers(b), p) <==> r.value == Some(p)
      {
        OnlyOneIff(site.policies, Covers(b), p);
        assert matches == [p] <==> First(matches) == Some(p);
      }
    }

    /** `_record_for_binding`: every row of the binding is validated as it is read. */
    method FindForBinding(sha: Digest) returns (r: Result<Option<LeaseRecord>, Fault>)
      ensures r == RecordForBinding(site, ledger.Rows(), sha)
      ensures r.Success? ==> forall x :: r.value == Some(x) <==> TheRecord(site, ledger.Rows(), sha, x)
      ensures r == Success(None) ==> forall x :: x in ledger.leases ==> x.binding != sha
    {
      hide ValidRecord, OnlyOne;
      var rows := ledger.leases;
      var records: seq<LeaseRecord> := [];
      var k := 0;
      while k < |rows|
        invariant k <= |rows| && records == Select(rows[..k], ForBinding(sha))
        invariant forall x :: x in records ==> ValidRecord(site.h, x)
      {
        assert rows[..k + 1] == rows[..k] + [rows[k]];
        SelectSnoc(rows[..k], rows[k], ForBinding(sha));
        if rows[k].binding == sha {
          if !ValidRecord(site.h, rows[k]) {
            SelectMembers(rows, ForBinding(sha));
            assert rows[k] in rows;
            return Failure(Corrupt);
          }
          records := records + [rows[k]];
        }
        k := k + 1;
      }
      assert rows[..k] == rows;
      if |records| > 1 {
        return Failure(Corrupt);
      }
      r := Success(First(records));
      RecordFound(site, ledger.Rows(), sha);
    }

    /** The checks on a current binding that need the epoch. */
    method ReadEpoch(w: World, b: Binding, t: Trusted) returns (r: Result<Trusted, Fault>)
      requires t.epoch.Some? && t.policy.Some?
      ensures r == EpochStanding(site, ledger.Rows(), w, b, t)
    {
      hide RecordForBinding, TheRecord, EpochCurrent;
      var epoch := t.epoch.value;
      if epoch.principal != t.policy.value.principal {
        return Success(t.(reason := PrincipalMismatched));
      }
      if !EpochCurrent(epoch, w.now) {
        return Success(t.(reason := EpochStale));
      }
      var missing := b.permissions - epoch.grants;
      if missing != {} {
        return Success(t.(reason := PermissionMissing, missing := missing));
      }
      assert forall p :: p in b.permissions ==> p in missing || p in epoch.grants;
      var existing := FindForBinding(site.h.binding(b));
      if existing.Failure? {
        return Failure(existing.error);
      }
      if existing.value.Some? {
        return Success(t.(reason := LeaseAlreadyExists, existing := existing.value));
      }
      r := Success(t.(reason := LeaseReady));
    }

    /** The part of `_trusted_state` that follows a current binding. */
    method ReadStanding(w: World, b: Binding) returns (r: Result<Trusted, Fault>)
      ensures r == LeaseStanding(site, ledger.Rows(), w, b)
    {
      hide PolicyFor, OnlyOne, EpochStanding, BuildProfile, Profile.MappingComplete, Profile.WithoutEnforced;
      var found := PolicyForBinding(b);
      if found.Failure? {
        return Failure(found.error);
      }
      if found.value.None? {
        return Success(Trusted(LeasePolicyMissing, Some(b), None, None, None, {}, None));
      }
      var policy := found.value.value;
      var built := BuildProfile(site.h.lease.intent(b.intent), b.intent, policy.rules);
      if built.Failure? {
        return Failure(ProfileRefused);
      }
      var t := Trusted(ProfileIncomplete, Some(b), found.value, Some(built.value), None, {}, None);
      if !built.value.MappingComplete() {
        return Success(t);
      }
      if policy.accepted != built.value.WithoutEnforced() {
        return Success(t.(reason := AckRequired));
      }
      if w.epoch.None? {
        return Success(t.(reason := EpochUnavailable));
      }
      r := ReadEpoch(w, b, t.(epoch := w.epoch));
    }

    /** `_trusted_state`: ready exactly for what is leasable. */
    method ReadTrusted(w: World, target: Digest) returns (r: Result<Trusted, Fault>)
      requires Wired()
      ensures r == TrustedState(site, ledger.Rows(), w, target)
      ensures r.Success? ==> TrustMeans(site, ledger.Rows(), w, target, r.value)
      ensures r.Success? ==> TrustRefusalSays(site, ledger.Rows(), w, target, r.value)
    {
      hide LatestBinding, BindingReadiness, LeaseStanding, TrustMeans, TrustRefusalSays, Newest, KnownBinding,
           ReadinessMeans, RefusalSays;
      var latest := bindings.Latest(target);
      if latest.Failure? {
        return Failure(latest.error);
      }
      if latest.value.None? {
        r := Success(Trusted(ExecutableBindingRequired, None, None, None, None, {}, None));
      } else {
        var b := latest.value.value;
        var state := bindings.Readiness(w, target);
        if state.Failure? {
          return Failure(state.error);
        }
        if state.value.reason != BindingAlreadyExists || state.value.existing != Some(site.h.binding(b)) {
          r := Success(Trusted(ExecutableBindingStale, Some(b), None, None, None, {}, None));
        } else {
          r := ReadStanding(w, b);
        }
      }
      if r.Success? {
        LeaseReadyIff(site, ledger.Rows(), w, target);
        TrustRefusalIsSaid(site, ledger.Rows(), w, target);
      }
    }

    /** `issue`: appends one lease record or changes nothing. */
    method Issue(w: World, target: Digest, x: Expected) returns (r: Result<LeaseRecord, Fault>)
      requires Wired()
      modifies ledger
      ensures r == IssueLease(site, old(ledger.Rows()), w, target, x)
      ensures IssueMeans(site, old(ledger.Rows()), w, target, x, r)
      ensures r.Success? ==> ledger.Rows() == old(ledger.Rows()).(leases := old(ledger.leases) + [r.value])
      ensures r.Failure? ==> ledger.Rows() == old(ledger.Rows())
    {
      hide TrustedState, LeaseFrom, TrustMeans, TrustRefusalSays, IssueMeans;
      IssueSays(site, ledger.Rows(), w, target, x);
      var state := ReadTrusted(w, target);
      if state.Failure? {
        return Failure(state.error);
      }
      var t := state.value;
      if t.reason != LeaseReady {
        return Failure(NotReady);
      }
      if !AsExpected(site, t, x) {
        return Failure(Changed);
      }
      r := LeaseFrom(site, w, target, t.binding.value, t.policy.value, t.profile.value, t.epoch.value);
      if r.Success? {
        ledger.leases := ledger.leases + [r.value];
      }
    }
  }

  // ------------------------------------------------------------ what the invariant needs

  /** The stored binding a lease record rests on, and what the lease repeats of it. */
  ghost predicate RestsOn(h: Hashes, r: LeaseRecord, b: Binding) {
    && h.binding(b) == r.binding && b.target == r.target
    && r.lease.authorization == b.decision && r.lease.intent == h.lease.intent(b.intent)
    && r.lease.permissions == b.permissions && r.lease.effects == b.effects && r.lease.payload == b.payload
  }

  ghost predicate Backed(h: Hashes, l: Ledger, r: LeaseRecord) {
    exists b :: b in l.bindings && RestsOn(h, r, b)
  }

  /** Every lease keeps within its own epoch's grants, window and policy bound. */
  ghost predicate Bounded(r: LeaseRecord) {
    && r.lease.permissions <= r.epoch.grants
    && r.epoch.observed <= r.lease.issuedAt == r.lease.validFrom == r.recordedAt < r.lease.validUntil
    && r.lease.validUntil <= r.lease.validFrom + 300 * TICKS_PER_SECOND
    && (r.epoch.next.Some? ==> r.lease.validUntil <= r.epoch.next.value)
  }

  ghost predicate LeasesInvariant(s: Site, l: Ledger) {
    && (forall r :: r in l.leases ==> ValidRecord(s.h, r) && Backed(s.h, l, r) && Bounded(r))
    && (forall i, j :: 0 <= i < j < |l.leases| ==> l.leases[i].binding != l.leases[j].binding)
  }

  lemma LeasesSurvive(s: Site, l: Ledger, after: Ledger)
    requires LeasesInvariant(s, l) && after.leases == l.leases
    requires forall b :: b in l.bindings ==> b in after.bindings
    ensures LeasesInvariant(s, after)
  {
    hide ValidRecord, Bounded;
    forall r | r in after.leases
      ensures Backed(s.h, after, r)
    {
      var b :| b in l.bindings && RestsOn(s.h, r, b);
    }
  }

  lemma LatestBindingStored(s: Site, l: Ledger, target: Digest)
    requires LatestBinding(s, l, target).Success? && LatestBinding(s, l, target).value.Some?
    ensures var b := LatestBinding(s, l, target).value.value; b in l.bindings && b.target == target
  {
    hide KnownBinding;
    SelectMembers(l.bindings, BindsTarget(target));
    var rows := Select(l.bindings, BindsTarget(target));
    assert rows[|rows| - 1] in rows;
  }

  /** What a ready state rests on, collected from every check it passed. */
  lemma ReadyMeans(s: Site, l: Ledger, w: World, target: Digest)
    requires TrustedState(s, l, w, target).Success? && TrustedState(s, l, w, target).value.reason == LeaseReady
    ensures var t := TrustedState(s, l, w, target).value;
      && t.binding.Some? && t.policy.Some? && t.profile.Some? && t.epoch.Some? && w.epoch == t.epoch
      && t.binding.value in l.bindings && t.binding.value.target == target
      && t.policy.value in s.policies && Covers(t.binding.value)(t.policy.value)
      && BuildProfile(s.h.lease.intent(t.binding.value.intent), t.binding.value.intent, t.policy.value.rules) == Success(t.profile.value)
      && t.profile.value.MappingComplete() && t.policy.value.accepted == t.profile.value.WithoutEnforced()
      && t.epoch.value.principal == t.policy.value.principal && EpochCurrent(t.epoch.value, w.now)
      && t.binding.value.permissions <= t.epoch.value.grants
      && RecordForBinding(s, l, s.h.binding(t.binding.value)) == Success(None)
      && BindingReadiness(s, l, w, target).Success?
      && BindingReadiness(s, l, w, target).value.reason == BindingAlreadyExists
      && BindingReadiness(s, l, w, target).value.existing == Some(s.h.binding(t.binding.value))
  {
    hide LatestBinding, BindingReadiness, RecordForBinding, Select, Profile.MappingComplete, Profile.WithoutEnforced;
    hide EpochCurrent, BuildProfile, Covers;
    LatestBindingStored(s, l, target);
    var b := LatestBinding(s, l, target).value.value;
    SelectMembers(s.policies, Covers(b));
    var matches := Select(s.policies, Covers(b));
    if matches != [] {
      assert matches[0] in matches;
    }
  }

  /**
   READY implies issuable: with a valid epoch and the digests the caller saw,
   nothing in lease construction can refuse, and the window is not empty, not
   longer than the policy allows, and not past the next known transition.
   */
  lemma ReadyIsIssuable(s: Site, l: Ledger, w: World, target: Digest, x: Expected)
    requires s.Valid() && BindingsInvariant(s, l) && (w.epoch.Some? ==> w.epoch.value.Valid())
    requires TrustedState(s, l, w, target).Success? && TrustedState(s, l, w, target).value.reason == LeaseReady
    requires AsExpected(s, TrustedState(s, l, w, target).value, x)
    ensures IssueLease(s, l, w, target, x).Success?
    ensures var r := IssueLease(s, l, w, target, x).value; var t := TrustedState(s, l, w, target).value;
      && 0 < r.lease.validUntil - w.now <= t.policy.value.maxSeconds * TICKS_PER_SECOND
      && (t.epoch.value.next.Some? ==> r.lease.validUntil <= t.epoch.value.next.value)
      && t.binding.value in l.bindings && RestsOn(s.h, r, t.binding.value) && Bounded(r) && ValidRecord(s.h, r)
      && (forall y :: y in l.leases ==> y.binding != r.binding)
  {
    hide TrustedState, RestsOn, Bounded, ValidRecord, Site.Valid, LeaseFrom, BindingsInvariant;
    ReadyMeans(s, l, w, target);
    var t := TrustedState(s, l, w, target).value;
    LeaseForms(s, l, w, target, t.binding.value, t.policy.value, t.profile.value, t.epoch.value);
  }

  lemma LeaseForms(s: Site, l: Ledger, w: World, target: Digest, b: Binding, policy: LeasePolicy, profile: Profile, epoch: Epoch)
    requires s.Valid() && BindingsInvariant(s, l) && epoch.Valid() && b in l.bindings && b.target == target
    requires policy in s.policies && Covers(b)(policy)
    requires BuildProfile(s.h.lease.intent(b.intent), b.intent, policy.rules) == Success(profile)
    requires profile.MappingComplete() && policy.accepted == profile.WithoutEnforced()
    requires epoch.principal == policy.principal && EpochCurrent(epoch, w.now) && b.permissions <= epoch.grants
    requires RecordForBinding(s, l, s.h.binding(b)) == Success(None)
    ensures LeaseFrom(s, w, target, b, policy, profile, epoch).Success?
    ensures var r := LeaseFrom(s, w, target, b, policy, profile, epoch).value;
      && 0 < r.lease.validUntil - w.now <= policy.maxSeconds * TICKS_PER_SECOND
      && (epoch.next.Some? ==> r.lease.validUntil <= epoch.next.value)
      && RestsOn(s.h, r, b) && Bounded(r) && ValidRecord(s.h, r)
      && (forall y :: y in l.leases ==> y.binding != r.binding)
  {
    hide Profile.MappingComplete, Profile.WithoutEnforced, RecordForBinding, Hashes.CollisionFree, Canonical, UniqueIds;
    KnownIsValid(s, l, b);
    BuiltProfile(s.h.lease.intent(b.intent), b.intent, policy.rules);
    IssueSucceedsIff(s.h.lease, policy.principal, policy.issuer, b.decision, b.intent, profile, epoch, policy.permissions,
                     policy.accepted, w.now, w.now, Until(w.now, policy, epoch));
    assert policy.Valid();
    NoneForBinding(s, l, s.h.binding(b));
  }

  lemma KnownIsValid(s: Site, l: Ledger, b: Binding)
    requires BindingsInvariant(s, l) && b in l.bindings
    ensures b.Valid() && "none" !in b.effects
  {
    assert KnownBinding(s, b);
  }

  lemma BuiltProfile(sha: Digest, intent: Intent, rules: seq<Rule>)
    requires BuildProfile(sha, intent, rules).Success?
    ensures var p := BuildProfile(sha, intent, rules).value; p.Valid() && p.intent == sha && p.effects == intent.effects
  {
  }

  lemma NoneForBinding(s: Site, l: Ledger, sha: Digest)
    requires RecordForBinding(s, l, sha) == Success(None)
    ensures forall r :: r in l.leases ==> r.binding != sha
  {
    hide ValidRecord;
    SelectMembers(l.leases, ForBinding(sha));
    forall r | r in l.leases
      ensures r.binding != sha
    {
      assert r in Select(l.leases, ForBinding(sha)) <==> r.binding == sha;
    }
  }

  /** An issued record keeps the invariant, and the policy allowed its request at that very step. */
  lemma LeaseIssued(s: Site, l: Ledger, w: World, target: Digest, x: Expected)
    requires s.Valid() && BindingsInvariant(s, l) && LeasesInvariant(s, l) && (w.epoch.Some? ==> w.epoch.value.Valid())
    requires IssueLease(s, l, w, target, x).Success?
    ensures LeasesInvariant(s, l.(leases := l.leases + [IssueLease(s, l, w, target, x).value]))
  {
    hide TrustedState, RestsOn, Bounded, ValidRecord, Site.Valid, LeaseFrom, BindingsInvariant, AsExpected;
    ReadyIsIssuable(s, l, w, target, x);
    var r := IssueLease(s, l, w, target, x).value;
    var after := l.(leases := l.leases + [r]);
    assert Backed(s.h, after, r);
    forall y | y in after.leases
      ensures ValidRecord(s.h, y) && Backed(s.h, after, y) && Bounded(y)
    {
      assert y in l.leases ==> Backed(s.h, l, y);
    }
  }

  /** With the invariant no stored record is refused, so the "multiple leases" error is unreachable. */
  lemma LeasesReadable(s: Site, l: Ledger, sha: Digest)
    requires LeasesInvariant(s, l)
    ensures RecordForBinding(s, l, sha).Success?
  {
    hide ValidRecord, Backed, Bounded;
    SelectUnique(l.leases, ForBinding(sha));
    SelectMembers(l.leases, ForBinding(sha));
  }

  /** A configured policy always forms a profile for the binding it covers. */
  lemma ProfileForms(s: Site, l: Ledger, b: Binding, policy: LeasePolicy)
    requires s.Valid() && BindingsInvariant(s, l) && b in l.bindings && policy in s.policies && Covers(b)(policy)
    ensures BuildProfile(s.h.lease.intent(b.intent), b.intent, policy.rules).Success?
  {
    hide Hashes.CollisionFree;
    KnownIsValid(s, l, b);
    assert policy.Valid();
    BuildSucceedsIff(s.h.lease.intent(b.intent), b.intent, policy.rules);
  }

  /** Lease readiness fails only where policy, evidence or an ambiguous policy registry does. */
  lemma LeaseReadinessFaults(s: Site, l: Ledger, w: World, target: Digest)
    requires s.Valid() && RequestsInvariant(s.h, l) && DecisionsInvariant(s.h, l)
    requires BindingsInvariant(s, l) && LeasesInvariant(s, l)
    requires TrustedState(s, l, w, target).Failure?
    ensures TrustedState(s, l, w, target).error in {PolicyUnavailable, EvidenceUnavailable, PolicyAmbiguous}
  {
    hide LatestBinding, BindingReadiness, RecordForBinding, Select, Profile.MappingComplete, Profile.WithoutEnforced;
    hide Site.Valid, BuildProfile, Covers, EpochCurrent, BindingsInvariant, LeasesInvariant, RequestsInvariant, DecisionsInvariant;
    BindingsReadable(s, l, "", target);
    if BindingReadiness(s, l, w, target).Failure? {
      BindingReadinessFaults(s, l, w, target);
    } else if LatestBinding(s, l, target).value.Some? {
      LatestBindingStored(s, l, target);
      var b := LatestBinding(s, l, target).value.value;
      LeasesReadable(s, l, s.h.binding(b));
      if PolicyFor(s, b).Success? && PolicyFor(s, b).value.Some? {
        PolicyIsListed(s, b);
        ProfileForms(s, l, b, PolicyFor(s, b).value.value);
      }
    }
  }

  lemma PolicyIsListed(s: Site, b: Binding)
    requires PolicyFor(s, b).Success? && PolicyFor(s, b).value.Some?
    ensures PolicyFor(s, b).value.value in s.policies && Covers(b)(PolicyFor(s, b).value.value)
  {
    hide Covers;
    SelectMembers(s.policies, Covers(b));
    var matches := Select(s.policies, Covers(b));
    assert matches[0] in matches;
  }
}
