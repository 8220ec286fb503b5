/**
 Reconstructing who holds what at one moment: the event replay of
 `phios/mandala/authority_projection.py` and the epoch, with its next known
 transition, of `phios/authority_epoch.py`. The sorted, duplicate-free tuples
 of the source are sets here and its timestamps integers.
 */
module AuthorityEpoch {
  import opened Wrappers
  import opened Sequences
  import opened Ranking

  type Permission = string
  type Digest = string

  datatype EventKind = Grant | Revoke

  datatype Event = Event(
    id: string, sequence: nat, kind: EventKind, permission: Permission, effective: int, expires: Option<int>)

  datatype EpochError = InvalidHistory

  datatype Epoch = Epoch(
    principal: string, observed: int, policy: Digest, ceiling: set<Permission>, grants: set<Permission>,
    known: set<string>, applied: set<string>, active: set<string>, next: Option<int>) {

    /** The subset and ordering checks of `__post_init__`. */
    predicate Valid() {
      && grants <= ceiling && applied <= known && active <= applied
      && (next.Some? ==> next.value > observed)
    }
  }

  // ------------------------------------------------------------ authority at one time

  ghost predicate Governs(events: seq<Event>, e: Event, t: int) {
    && e in events && e.kind == Grant && e.effective <= t
    && forall f :: f in events && f.effective <= t && f.sequence > e.sequence ==> f.permission != e.permission
  }

  /** An expiry is exclusive: the grant is gone at the instant it names. */
  predicate Live(e: Event, t: int) {
    e.expires.None? || e.expires.value > t
  }

  /** The permissions a history grants at `t`: each by its latest applied event, a grant still live. */
  ghost function GrantsAt(events: seq<Event>, t: int): set<Permission> {
    set e | e in events && Governs(events, e, t) && Live(e, t) :: e.permission
  }

  ghost function ActiveAt(events: seq<Event>, t: int): set<string> {
    set e | e in events && Governs(events, e, t) && Live(e, t) :: e.id
  }

  ghost function AppliedAt(events: seq<Event>, t: int): set<string> {
    set e | e in events && e.effective <= t :: e.id
  }

  function EventIds(events: seq<Event>): seq<string> {
    seq(|events|, i requires 0 <= i < |events| => events[i].id)
  }

  function Numbers(events: seq<Event>): seq<nat> {
    seq(|events|, i requires 0 <= i < |events| => events[i].sequence)
  }

  /** The histories `build` accepts. */
  ghost predicate Consistent(events: seq<Event>, ceiling: set<Permission>) {
    && NoDup(EventIds(events)) && NoDup(Numbers(events))
    && (forall e, f :: e in events && f in events && e.sequence < f.sequence ==> e.effective <= f.effective)
    && (forall e :: e in events ==> e.permission in ceiling)
  }

  lemma SameId(events: seq<Event>, e: Event, f: Event)
    requires NoDup(EventIds(events)) && e in events && f in events && e.id == f.id
    ensures e == f
  {
    var i :| 0 <= i < |events| && events[i] == e;
    var j :| 0 <= j < |events| && events[j] == f;
    assert EventIds(events)[i] == EventIds(events)[j];
  }

  lemma SameNumber(events: seq<Event>, e: Event, f: Event)
    requires NoDup(Numbers(events)) && e in events && f in events && e.sequence == f.sequence
    ensures e == f
  {
    var i :| 0 <= i < |events| && events[i] == e;
    var j :| 0 <= j < |events| && events[j] == f;
    assert Numbers(events)[i] == Numbers(events)[j];
  }

  // ------------------------------------------------------------ transitions

  /** A future effect time, or the future expiry of a grant active at the observation. */
  ghost predicate Candidate(events: seq<Event>, observed: int, active: set<string>, t: int) {
    && t > observed
    && exists e :: e in events && (e.effective == t || (e.id in active && e.expires == Some(t)))
  }

  ghost predicate IsNext(next: Option<int>, events: seq<Event>, observed: int, active: set<string>) {
    && (next.Some? ==> Candidate(events, observed, active, next.value))
    && (forall t :: Candidate(events, observed, active, t) ==> next.Some? && next.value <= t)
  }

  /** `_next_known_transition`. */
  method NextKnownTransition(events: seq<Event>, observed: int, active: set<string>) returns (next: Option<int>)
    ensures IsNext(next, events, observed, active)
  {
    var candidates: seq<int> := [];
    var k := 0;
    while k < |events|
      invariant k <= |events|
      invariant forall t :: t in candidates ==> Candidate(events, observed, active, t)
      invariant forall t :: Candidate(events[..k], observed, active, t) ==> t in candidates
    {
      var e := events[k];
      assert events[..k + 1] == events[..k] + [e];
      ghost var before := candidates;
      if e.effective > observed {
        assert Candidate(events, observed, active, e.effective);
        candidates := candidates + [e.effective];
      }
      if e.id in active && e.expires.Some? && e.expires.value > observed {
        assert Candidate(events, observed, active, e.expires.value);
        candidates := candidates + [e.expires.value];
      }
      forall t | Candidate(events[..k + 1], observed, active, t)
        ensures t in candidates
      {
        var f :| f in events[..k + 1] && (f.effective == t || (f.id in active && f.expires == Some(t)));
        if f in events[..k] {
          assert Candidate(events[..k], observed, active, t);
          assert t in before;
        }
      }
      k := k + 1;
    }
    assert events[..k] == events;
    if candidates == [] {
      return None;
    }
    var least := Minimum(candidates);
    next := Some(least);
  }

  function Minimum(s: seq<int>): (m: int)
    requires s != []
    ensures m in s && forall x :: x in s ==> m <= x
  {
    if |s| == 1 then s[0]
    else
      assert s == [s[0]] + s[1..];
      var rest := Minimum(s[1..]);
      if s[0] < rest then s[0] else rest
  }

  /** Between the observation and the next known transition the same grants govern and live. */
  lemma GovernsSame(events: seq<Event>, observed: int, t: int, next: Option<int>, e: Event)
    requires IsNext(next, events, observed, ActiveAt(events, observed)) && e in events
    requires observed <= t && (next.Some? ==> t < next.value)
    ensures e.effective <= t <==> e.effective <= observed
    ensures Governs(events, e, t) <==> Governs(events, e, observed)
    ensures Governs(events, e, t) && Live(e, t) <==> Governs(events, e, observed) && Live(e, observed)
  {
    var active := ActiveAt(events, observed);
    forall f | f in events
      ensures f.effective <= t <==> f.effective <= observed
    {
      if observed < f.effective {
        assert Candidate(events, observed, active, f.effective);
      }
    }
    if Governs(events, e, observed) && Live(e, observed) && e.expires.Some? {
      assert e.id in active;
      assert Candidate(events, observed, active, e.expires.value);
    }
  }

  /** The projected authority is constant up to the next known transition. */
  lemma ConstantUntilTransition(events: seq<Event>, observed: int, t: int, next: Option<int>)
    requires IsNext(next, events, observed, ActiveAt(events, observed))
    requires observed <= t && (next.Some? ==> t < next.value)
    ensures GrantsAt(events, t) == GrantsAt(events, observed)
    ensures ActiveAt(events, t) == ActiveAt(events, observed)
    ensures AppliedAt(events, t) == AppliedAt(events, observed)
  {
    forall e | e in events
      ensures e.effective <= t <==> e.effective <= observed
      ensures Governs(events, e, t) && Live(e, t) <==> Governs(events, e, observed) && Live(e, observed)
    {
      GovernsSame(events, observed, t, next, e);
    }
  }

  /** And at that transition it does change: an event starts to apply or an active grant stops. */
  lemma TransitionChanges(events: seq<Event>, observed: int, next: Option<int>)
    requires NoDup(EventIds(events))
    requires IsNext(next, events, observed, ActiveAt(events, observed)) && next.Some?
    ensures AppliedAt(events, next.value) != AppliedAt(events, observed)
         || ActiveAt(events, next.value) != ActiveAt(events, observed)
  {
    var t := next.value;
    var active := ActiveAt(events, observed);
    var e :| e in events && (e.effective == t || (e.id in active && e.expires == Some(t)));
    if e.effective == t {
      assert e.id in AppliedAt(events, t);
      if e.id in AppliedAt(events, observed) {
        var f :| f in events && f.effective <= observed && f.id == e.id;
        SameId(events, e, f);
      }
      assert e.id !in AppliedAt(events, observed);
    } else {
      if e.id in ActiveAt(events, t) {
        var f :| f in events && Governs(events, f, t) && Live(f, t) && f.id == e.id;
        SameId(events, e, f);
      }
      assert e.id !in ActiveAt(events, t);
    }
  }

  // ------------------------------------------------------------ the projection

  predicate Earlier(a: Event, b: Event) {
    a.sequence < b.sequence
  }

  lemma EarlierIsStrict(events: seq<Event>)
    requires NoDup(Numbers(events))
    ensures StrictTotalOn(Earlier, events) && NoDup(events)
  {
    forall e, f | e in events && f in events && e != f
      ensures Earlier(e, f) || Earlier(f, e)
    {
      if e.sequence == f.sequence {
        SameNumber(events, e, f);
      }
    }
    forall i, j | 0 <= i < j < |events|
      ensures events[i] != events[j]
    {
      assert Numbers(events)[i] != Numbers(events)[j];
    }
  }

  /** `last` maps each permission to the grant that governs it among `events`. */
  ghost predicate LastGrants(last: map<Permission, Event>, events: seq<Event>, t: int) {
    && (forall p :: p in last ==> Governs(events, last[p], t) && last[p].permission == p)
    && (forall e :: Governs(events, e, t) ==> e.permission in last && last[e.permission] == e)
  }

  lemma LastGrantsStep(last: map<Permission, Event>, events: seq<Event>, e: Event, t: int)
    requires LastGrants(last, events, t) && forall f :: f in events ==> f.sequence < e.sequence
    ensures LastGrants(
      if e.effective > t then last else if e.kind == Revoke then last - {e.permission} else last[e.permission := e],
      events + [e], t)
  {
    forall f | f in events
      ensures Governs(events + [e], f, t)
        <==> Governs(events, f, t) && (e.effective > t || e.permission != f.permission)
    {
    }
    assert Governs(events + [e], e, t) <==> e.kind == Grant && e.effective <= t;
  }

  /** The replay loop of `project` over the events in sequence order. */
  method Replay(ordered: seq<Event>, observed: int) returns (last: map<Permission, Event>, applied: set<string>)
    requires Sorted(ordered, Earlier)
    ensures LastGrants(last, ordered, observed) && applied == AppliedAt(ordered, observed)
  {
    last, applied := map[], {};
    var k := 0;
    while k < |ordered|
      invariant k <= |ordered|
      invariant LastGrants(last, ordered[..k], observed) && applied == AppliedAt(ordered[..k], observed)
    {
      var e := ordered[k];
      assert ordered[..k + 1] == ordered[..k] + [e];
      assert forall f :: f in ordered[..k] ==> Earlier(f, e);
      LastGrantsStep(last, ordered[..k], e, observed);
      AppliedStep(ordered[..k], e, observed);
      if e.effective <= observed {
        applied := applied + {e.id};
        if e.kind == Revoke {
          last := last - {e.permission};
        } else {
          last := last[e.permission := e];
        }
      }
      k := k + 1;
    }
    assert ordered[..k] == ordered;
  }

  lemma AppliedStep(events: seq<Event>, e: Event, t: int)
    ensures AppliedAt(events + [e], t) == AppliedAt(events, t) + (if e.effective <= t then {e.id} else {})
  {
    assert forall f :: f in events + [e] <==> f in events || f == e;
  }

  /** The order and ceiling checks of `project`, one pass in sequence order. */
  method CheckOrder(ordered: seq<Event>, ceiling: set<Permission>) returns (ok: bool)
    requires Sorted(ordered, Earlier)
    ensures ok <==>
      && (forall e, f :: e in ordered && f in ordered && e.sequence < f.sequence ==> e.effective <= f.effective)
      && (forall e :: e in ordered ==> e.permission in ceiling)
  {
    var k := 0;
    while k < |ordered|
      invariant k <= |ordered|
      invariant forall i, j :: 0 <= i < j < k ==> ordered[i].effective <= ordered[j].effective
      invariant forall i :: 0 <= i < k ==> ordered[i].permission in ceiling
    {
      if k > 0 && ordered[k].effective < ordered[k - 1].effective {
        assert Earlier(ordered[k - 1], ordered[k]);
        assert ordered[k - 1] in ordered && ordered[k] in ordered;
        return false;
      }
      if ordered[k].permission !in ceiling {
        return false;
      }
      k := k + 1;
    }
    forall e, f | e in ordered && f in ordered && e.sequence < f.sequence
      ensures e.effective <= f.effective
    {
      var i :| 0 <= i < |ordered| && ordered[i] == e;
      var j :| 0 <= j < |ordered| && ordered[j] == f;
      assert j < i ==> Earlier(f, e);
    }
    ok := true;
  }

  lemma SameMembersSameAuthority(a: seq<Event>, b: seq<Event>, t: int)
    requires (forall e :: e in a ==> e in b) && (forall e :: e in b ==> e in a)
    ensures forall e :: Governs(a, e, t) <==> Governs(b, e, t)
    ensures GrantsAt(a, t) == GrantsAt(b, t) && ActiveAt(a, t) == ActiveAt(b, t) && AppliedAt(a, t) == AppliedAt(b, t)
  {
    forall e
      ensures Governs(a, e, t) <==> Governs(b, e, t)
    {
    }
  }

  lemma LastGrantsAre(last: map<Permission, Event>, events: seq<Event>, t: int)
    requires LastGrants(last, events, t)
    ensures (set p | p in last && Live(last[p], t)) == GrantsAt(events, t)
    ensures (set p | p in last && Live(last[p], t) :: last[p].id) == ActiveAt(events, t)
  {
  }

  /**
   `build`: succeeds on exactly the consistent histories, describes the
   authority they give at the observation, and its own validation never fails.
   */
  method Build(principal: string, policy: Digest, ceiling: set<Permission>, events: seq<Event>, observed: int)
    returns (r: Result<Epoch, EpochError>)
    ensures r.Success? <==> Consistent(events, ceiling)
    ensures r.Success? ==> Describes(r.value, principal, policy, ceiling, events, observed)
  {
    hide Governs, LastGrants, GrantsAt, ActiveAt, AppliedAt, Distinct;
    DistinctCount(EventIds(events));
    DistinctCount(Numbers(events));
    if |Distinct(EventIds(events))| != |events| || |Distinct(Numbers(events))| != |events| {
      return Failure(InvalidHistory);
    }
    EarlierIsStrict(events);
    SortIsSorted(events, Earlier);
    var ordered := Sort(events, Earlier);
    var ok := CheckOrder(ordered, ceiling);
    if !ok {
      return Failure(InvalidHistory);
    }
    var last, applied := Replay(ordered, observed);
    var grants := set p | p in last && Live(last[p], observed);
    var active := set p | p in last && Live(last[p], observed) :: last[p].id;
    LastGrantsAre(last, ordered, observed);
    SameMembersSameAuthority(ordered, events, observed);
    var next := NextKnownTransition(ordered, observed, active);
    SameNext(ordered, events, next, observed, active);
    EpochIsValid(ceiling, events, observed, next);
    r := Success(Epoch(principal, observed, policy, ceiling, grants, Elems(EventIds(events)), applied, active, next));
  }

  /** What an epoch says about the history it was built from. */
  ghost predicate Describes(epoch: Epoch, principal: string, policy: Digest, ceiling: set<Permission>,
                            events: seq<Event>, observed: int) {
    && epoch == Epoch(principal, observed, policy, ceiling, GrantsAt(events, observed), Elems(EventIds(events)),
                      AppliedAt(events, observed), ActiveAt(events, observed), epoch.next)
    && IsNext(epoch.next, events, observed, ActiveAt(events, observed))
    && epoch.Valid()
  }

  lemma SameNext(a: seq<Event>, b: seq<Event>, next: Option<int>, observed: int, active: set<string>)
    requires (forall e :: e in a ==> e in b) && (forall e :: e in b ==> e in a)
    requires IsNext(next, a, observed, active)
    ensures IsNext(next, b, observed, active)
  {
    forall t
      ensures Candidate(a, observed, active, t) <==> Candidate(b, observed, active, t)
    {
    }
  }

  lemma EpochIsValid(ceiling: set<Permission>, events: seq<Event>, observed: int, next: Option<int>)
    requires Consistent(events, ceiling) && IsNext(next, events, observed, ActiveAt(events, observed))
    ensures GrantsAt(events, observed) <= ceiling
    ensures AppliedAt(events, observed) <= Elems(EventIds(events))
    ensures ActiveAt(events, observed) <= AppliedAt(events, observed)
    ensures next.Some? ==> next.value > observed
  {
    forall e | e in events
      ensures e.id in EventIds(events)
    {
      var i :| 0 <= i < |events| && events[i] == e;
      assert EventIds(events)[i] == e.id;
    }
  }

  /** One history has one epoch. */
  lemma EpochIsDetermined(a: Epoch, b: Epoch, principal: string, policy: Digest, ceiling: set<Permission>,
                          events: seq<Event>, permuted: seq<Event>, observed: int)
    requires Describes(a, principal, policy, ceiling, events, observed)
    requires Describes(b, principal, policy, ceiling, permuted, observed)
    requires (forall e :: e in events ==> e in permuted) && (forall e :: e in permuted ==> e in events)
    ensures a == b
  {
    hide Governs, GrantsAt, ActiveAt, AppliedAt, Candidate;
    SameMembersSameAuthority(events, permuted, observed);
    SameNext(permuted, events, b.next, observed, ActiveAt(events, observed));
    SameIdSet(events, permuted);
  }

  lemma SameIdSet(a: seq<Event>, b: seq<Event>)
    requires (forall e :: e in a ==> e in b) && (forall e :: e in b ==> e in a)
    ensures Elems(EventIds(a)) == Elems(EventIds(b))
  {
    IdsAre(a);
    IdsAre(b);
  }

  lemma IdsAre(events: seq<Event>)
    ensures Elems(EventIds(events)) == set e | e in events :: e.id
  {
    forall e | e in events
      ensures e.id in EventIds(events)
    {
      var i :| 0 <= i < |events| && events[i] == e;
      assert EventIds(events)[i] == e.id;
    }
  }
}
