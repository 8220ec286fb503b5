/**
 `phios/action_lease.py`: the single-use lease, the conditions under which one
 may be issued, and its evaluation at a later time.
 */
module ActionLease {
  import opened Wrappers
  import opened Sequences
  import opened AuthorityEpoch
  import opened EnforcementProfile

  const MAX_USES := 1

  datatype LeaseError =
    | PrincipalMismatch | NoneIntent | ProfileMismatch | UnmappedEffects | UnacknowledgedEffects
    | NoPermissions | PermissionsExceedGrants | IssuedBeforeObservation | BeyondTransition | InvalidLease

  /** The digests a lease binds, each a collision-free fingerprint of one kind of value. */
  datatype LeaseHashes = LeaseHashes(intent: Intent -> Digest, profile: Profile -> Digest, epoch: Epoch -> Digest) {
    ghost predicate CollisionFree() {
      && (forall a, b :: intent(a) == intent(b) ==> a == b)
      && (forall a, b :: profile(a) == profile(b) ==> a == b)
      && (forall a, b :: epoch(a) == epoch(b) ==> a == b)
    }
  }

  datatype Lease = Lease(
    principal: string, issuer: string, authorization: Digest, intent: Digest, profile: Digest, epoch: Digest,
    capabilityId: string, capabilityVersion: string, payload: Digest, effects: set<Effect>,
    permissions: set<Permission>, accepted: set<Effect>, issuedAt: int, validFrom: int, validUntil: int, maxUses: int) {

    /** The checks of `__post_init__`. */
    predicate Valid() {
      && Canonical(effects) && "unknown" !in effects && effects != {"none"}
      && permissions != {} && accepted <= effects
      && issuedAt <= validFrom < validUntil && maxUses == MAX_USES
    }
  }

  /** `issue`. */
  function Issue(h: LeaseHashes, principal: string, issuer: string, authorization: Digest, intent: Intent,
                 profile: Profile, epoch: Epoch, permissions: set<Permission>, accepted: set<Effect>,
                 issuedAt: int, validFrom: int, validUntil: int): Result<Lease, LeaseError>
  {
    if principal != epoch.principal then Failure(PrincipalMismatch)
    else if intent.effects == {"none"} then Failure(NoneIntent)
    else if profile.intent != h.intent(intent) then Failure(ProfileMismatch)
    else if !profile.MappingComplete() then Failure(UnmappedEffects)
    else if accepted != profile.WithoutEnforced() then Failure(UnacknowledgedEffects)
    else if permissions == {} then Failure(NoPermissions)
    else if !(permissions <= epoch.grants) then Failure(PermissionsExceedGrants)
    else if issuedAt < epoch.observed then Failure(IssuedBeforeObservation)
    else if epoch.next.Some? && validUntil > epoch.next.value then Failure(BeyondTransition)
    else
      var lease := Lease(principal, issuer, authorization, h.intent(intent), h.profile(profile), h.epoch(epoch),
                         intent.capabilityId, intent.capabilityVersion, intent.payload, intent.effects, permissions,
                         accepted, issuedAt, validFrom, validUntil, MAX_USES);
      if lease.Valid() then Success(lease) else Failure(InvalidLease)
  }

  /** What issuing needs, said of the inputs alone. */
  predicate Issuable(h: LeaseHashes, principal: string, intent: Intent, profile: Profile, epoch: Epoch,
                     permissions: set<Permission>, accepted: set<Effect>, issuedAt: int, validFrom: int, validUntil: int) {
    && principal == epoch.principal
    && Canonical(intent.effects) && !("none" in intent.effects) && !("unknown" in intent.effects)
    && profile.intent == h.intent(intent) && profile.MappingComplete() && accepted == profile.WithoutEnforced()
    && accepted <= intent.effects && permissions != {} && permissions <= epoch.grants
    && epoch.observed <= issuedAt <= validFrom < validUntil
    && (epoch.next.Some? ==> validUntil <= epoch.next.value)
  }

  /** Between the issue checks and the lease's own validation nothing is asked twice or missed. */
  lemma IssueSucceedsIff(h: LeaseHashes, principal: string, issuer: string, authorization: Digest, intent: Intent,
                         profile: Profile, epoch: Epoch, permissions: set<Permission>, accepted: set<Effect>,
                         issuedAt: int, validFrom: int, validUntil: int)
    ensures Issue(h, principal, issuer, authorization, intent, profile, epoch, permissions, accepted,
                  issuedAt, validFrom, validUntil).Success?
        <==> Issuable(h, principal, intent, profile, epoch, permissions, accepted, issuedAt, validFrom, validUntil)
  {
    if Canonical(intent.effects) {
      assert "none" in intent.effects <==> intent.effects == {"none"};
    }
  }

  datatype LeaseReason = LeaseCurrent | EpochChanged | NotYetValid | Expired | Consumed

  datatype Evaluation = Evaluation(usable: bool, reason: LeaseReason)

  /** `evaluate_action_lease`. */
  function Evaluate(lease: Lease, now: int, currentEpoch: Digest, uses: nat): Evaluation {
    if currentEpoch != lease.epoch then Evaluation(false, EpochChanged)
    else if now < lease.validFrom then Evaluation(false, NotYetValid)
    else if now >= lease.validUntil then Evaluation(false, Expired)
    else if uses >= lease.maxUses then Evaluation(false, Consumed)
    else Evaluation(true, LeaseCurrent)
  }

  /** A valid lease is usable exactly once, under its own epoch, on the half-open interval it names. */
  lemma UsableExactlyOnInterval(lease: Lease, now: int, currentEpoch: Digest, uses: nat)
    requires lease.Valid()
    ensures Evaluate(lease, now, currentEpoch, uses).usable
        <==> currentEpoch == lease.epoch && lease.validFrom <= now < lease.validUntil && uses == 0
    ensures Evaluate(lease, now, currentEpoch, uses).usable
        <==> Evaluate(lease, now, currentEpoch, uses).reason == LeaseCurrent
  {
  }

  /** Once expired or consumed, a lease stays unusable as time and uses grow, under any epoch. */
  lemma NeverRevived(lease: Lease, now: int, uses: nat, currentEpoch: Digest, later: int, more: nat, laterEpoch: Digest)
    requires now <= later && uses <= more
    requires Evaluate(lease, now, currentEpoch, uses).reason in {Expired, Consumed}
    ensures !Evaluate(lease, later, laterEpoch, more).usable
  {
  }

  /** The lease's permissions and window lie inside its epoch's. */
  predicate WithinEpoch(lease: Lease, epoch: Epoch) {
    && lease.permissions <= epoch.grants && epoch.observed <= lease.validFrom
    && (epoch.next.Some? ==> lease.validUntil <= epoch.next.value)
  }

  lemma IssuedWithinEpoch(h: LeaseHashes, principal: string, issuer: string, authorization: Digest, intent: Intent,
                          profile: Profile, epoch: Epoch, permissions: set<Permission>, accepted: set<Effect>,
                          issuedAt: int, validFrom: int, validUntil: int)
    requires Issue(h, principal, issuer, authorization, intent, profile, epoch, permissions, accepted,
                   issuedAt, validFrom, validUntil).Success?
    ensures var lease := Issue(h, principal, issuer, authorization, intent, profile, epoch, permissions, accepted,
                               issuedAt, validFrom, validUntil).value;
      WithinEpoch(lease, epoch) && lease.Valid() && lease.epoch == h.epoch(epoch)
  {
  }

  /**
   A lease never outlives the grants it was issued on: whenever it evaluates as
   usable, the event history still grants every permission it carries, no event
   has taken effect and no grant active at the observation has expired since
   the epoch was observed, and none will before the lease ends.
   */
  lemma LeaseWithinGrants(lease: Lease, epoch: Epoch, policy: Digest, ceiling: set<Permission>, events: seq<Event>,
                          now: int, currentEpoch: Digest, uses: nat)
    requires Consistent(events, ceiling) && Describes(epoch, epoch.principal, policy, ceiling, events, epoch.observed)
    requires WithinEpoch(lease, epoch) && Evaluate(lease, now, currentEpoch, uses).usable
    ensures lease.permissions <= GrantsAt(events, now) <= ceiling
    ensures forall e :: e in events ==> !(epoch.observed < e.effective <= now)
    ensures forall e :: e in events && e.id in epoch.active && e.expires.Some? ==> e.expires.value > now
    ensures forall t :: epoch.observed < t < lease.validUntil ==> !Candidate(events, epoch.observed, epoch.active, t)
  {
    hide GrantsAt, ActiveAt, AppliedAt;
    ConstantUntilTransition(events, epoch.observed, now, epoch.next);
    NoCandidateBefore(epoch, events, now);
    forall e | e in events && e.id in epoch.active && e.expires.Some?
      ensures e.expires.value > now
    {
      ActiveIsLive(events, epoch.observed, e);
    }
  }

  /**
   The history that counts is the one known now. Whatever has been learnt since
   the lease was issued, a revocation included: if the epoch reconstructed from
   the current history still leaves the lease usable, it is the epoch the lease
   was issued under, and that history grants every permission the lease carries.
   */
  lemma UsableUnderCurrentHistory(h: LeaseHashes, lease: Lease, issued: Epoch, current: Epoch, principal: string,
                                  policy: Digest, ceiling: set<Permission>, events: seq<Event>, now: int, uses: nat)
    requires h.CollisionFree() && lease.epoch == h.epoch(issued) && WithinEpoch(lease, issued)
    requires Consistent(events, ceiling) && Describes(current, principal, policy, ceiling, events, current.observed)
    requires Evaluate(lease, now, h.epoch(current), uses).usable
    ensures current == issued
    ensures lease.permissions <= GrantsAt(events, now) <= ceiling
    ensures forall e :: e in events ==> !(current.observed < e.effective <= now)
    ensures forall e :: e in events && e.id in current.active && e.expires.Some? ==> e.expires.value > now
    ensures forall t :: current.observed < t < lease.validUntil ==> !Candidate(events, current.observed, current.active, t)
  {
    assert current == issued;
    hide GrantsAt, Candidate, Consistent;
    assert Describes(current, current.principal, policy, ceiling, events, current.observed);
    LeaseWithinGrants(lease, current, policy, ceiling, events, now, h.epoch(current), uses);
  }

  lemma ActiveIsLive(events: seq<Event>, observed: int, e: Event)
    requires NoDup(EventIds(events)) && e in events && e.id in ActiveAt(events, observed)
    ensures Live(e, observed)
  {
    var f :| f in events && Governs(events, f, observed) && Live(f, observed) && f.id == e.id;
    SameId(events, e, f);
  }

  lemma NoCandidateBefore(epoch: Epoch, events: seq<Event>, now: int)
    requires IsNext(epoch.next, events, epoch.observed, epoch.active)
    requires epoch.observed <= now && (epoch.next.Some? ==> now < epoch.next.value)
    requires epoch.active == ActiveAt(events, epoch.observed)
    ensures forall e :: e in events ==> !(epoch.observed < e.effective <= now)
    ensures forall e :: e in events && e.id in epoch.active && e.expires.Some? && e.expires.value > epoch.observed ==> e.expires.value > now
  {
    forall e | e in events && epoch.observed < e.effective
      ensures e.effective > now
    {
      assert Candidate(events, epoch.observed, epoch.active, e.effective);
    }
    forall e | e in events && e.id in epoch.active && e.expires.Some? && e.expires.value > epoch.observed
      ensures e.expires.value > now
    {
      assert Candidate(events, epoch.observed, epoch.active, e.expires.value);
    }
  }
}
