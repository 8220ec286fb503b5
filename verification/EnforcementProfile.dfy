/**
 Effect intents and the enforcement profiles of
 `phios/enforcement_profile.py`: which declared effects some rule maps and
 which some rule actually enforces. Sorted tuples are sets here.
 */
module EnforcementProfile {
  import opened Wrappers
  import opened Ranking
  import opened AuthorityEpoch
  import BubbleGraph

  type Effect = string

  const KNOWN_EFFECTS: set<Effect> := {
    "none", "local_state.read", "local_state.change", "filesystem.read", "filesystem.change", "process.spawn",
    "network.request", "external_state.read", "external_state.change", "ipc.request", "display.observe",
    "display.control", "credential.read", "control_plane.read", "control_plane.change", "unknown"}

  /** What `normalize_effects` accepts: known effects, and "none" only alone. */
  predicate Canonical(effects: set<Effect>) {
    effects != {} && effects <= KNOWN_EFFECTS && ("none" in effects ==> effects == {"none"})
  }

  datatype Intent = Intent(
    capabilityId: string, capabilityVersion: string, payload: Digest, declaredAt: int, effects: set<Effect>)

  datatype Status = Enforced | Advisory | NotEnforced | StatusUnknown

  datatype Rule = Rule(id: string, scope: set<Effect>, status: Status) {
    predicate Valid() {
      scope != {} && scope <= KNOWN_EFFECTS && "none" !in scope
    }
  }

  datatype ProfileError = InvalidProfile

  datatype Profile = Profile(intent: Digest, effects: set<Effect>, rules: seq<Rule>) {
    predicate Valid() {
      && Canonical(effects) && UniqueIds(rules)
      && ("none" in effects ==> rules == [])
      && forall r :: r in rules ==> r.scope <= effects
    }

    function Mapped(): set<Effect> {
      set r, e | r in rules && e in r.scope :: e
    }

    function Unmapped(): set<Effect> {
      if effects == {"none"} then {} else set e | e in effects && e !in Mapped()
    }

    function WithEnforced(): set<Effect> {
      set r, e | r in rules && r.status == Enforced && e in r.scope :: e
    }

    function WithoutEnforced(): set<Effect> {
      if effects == {"none"} then {} else set e | e in effects && e !in WithEnforced()
    }

    predicate MappingComplete() {
      Unmapped() == {}
    }
  }

  predicate UniqueIds(rules: seq<Rule>) {
    forall i, j :: 0 <= i < j < |rules| ==> rules[i].id != rules[j].id
  }

  predicate RuleLess(a: Rule, b: Rule) {
    BubbleGraph.StringLess(a.id, b.id)
  }

  /** `build`: the rules in id order, then the checks of `__post_init__`. */
  function BuildProfile(intentDigest: Digest, intent: Intent, rules: seq<Rule>): Result<Profile, ProfileError> {
    var p := Profile(intentDigest, intent.effects, Sort(rules, RuleLess));
    if p.Valid() then Success(p) else Failure(InvalidProfile)
  }

  /** Whether ids repeat does not depend on where the first rule stands. */
  lemma UniqueCons(x: Rule, s: seq<Rule>)
    ensures UniqueIds([x] + s) <==> UniqueIds(s) && forall r :: r in s ==> r.id != x.id
  {
    var t := [x] + s;
    assert forall i :: 0 <= i < |s| ==> s[i] == t[i + 1];
    if UniqueIds(t) {
      forall r | r in s
        ensures r.id != x.id
      {
        var i :| 0 <= i < |s| && s[i] == r;
        assert t[0].id != t[i + 1].id;
      }
    }
  }

  lemma {:induction false} InsertUnique(x: Rule, s: seq<Rule>)
    ensures UniqueIds(Insert(x, s, RuleLess)) <==> UniqueIds(s) && forall r :: r in s ==> r.id != x.id
  {
    UniqueCons(x, s);
    if s != [] && !RuleLess(x, s[0]) {
      assert s == [s[0]] + s[1..];
      InsertUnique(x, s[1..]);
      InsertElems(x, s[1..], RuleLess);
      UniqueCons(s[0], s[1..]);
      UniqueCons(s[0], Insert(x, s[1..], RuleLess));
    }
  }

  lemma {:induction false} SortMembers(rules: seq<Rule>)
    ensures forall r :: r in Sort(rules, RuleLess) <==> r in rules
    ensures UniqueIds(Sort(rules, RuleLess)) <==> UniqueIds(rules)
  {
    if rules != [] {
      assert rules == [rules[0]] + rules[1..];
      SortMembers(rules[1..]);
      InsertElems(rules[0], Sort(rules[1..], RuleLess), RuleLess);
      InsertUnique(rules[0], Sort(rules[1..], RuleLess));
      UniqueCons(rules[0], rules[1..]);
    }
  }

  /**
   A profile is built exactly when the intent is canonical, the rules have
   distinct ids and each stays within the declared effects; an intent of "none"
   takes no rules. The order in which the rules are given does not matter.
   */
  lemma BuildSucceedsIff(intentDigest: Digest, intent: Intent, rules: seq<Rule>)
    ensures BuildProfile(intentDigest, intent, rules).Success?
        <==> Canonical(intent.effects) && UniqueIds(rules) && ("none" in intent.effects ==> rules == [])
             && (forall r :: r in rules ==> r.scope <= intent.effects)
    ensures BuildProfile(intentDigest, intent, rules).Success? ==>
      var p := BuildProfile(intentDigest, intent, rules).value;
      && p.Valid() && p.intent == intentDigest && p.effects == intent.effects
      && (forall r :: r in p.rules <==> r in rules)
  {
    SortMembers(rules);
    if rules != [] {
      assert rules[0] in rules;
    }
  }

  /**
   The derived sets of a valid profile: enforced and unenforced effects split
   the declared ones, an unmapped effect is never enforced, and the mapping is
   complete exactly when every declared effect lies in some rule's scope.
   */
  lemma DerivedSetsPartition(p: Profile)
    requires p.Valid()
    ensures p.WithEnforced() <= p.Mapped() <= p.effects
    ensures p.WithEnforced() !! p.WithoutEnforced() && p.Mapped() !! p.Unmapped()
    ensures p.effects == {"none"} ==> p.rules == [] && p.MappingComplete()
    ensures p.effects != {"none"} ==>
      && p.effects == p.WithEnforced() + p.WithoutEnforced() == p.Mapped() + p.Unmapped()
      && p.Unmapped() <= p.WithoutEnforced()
      && (p.MappingComplete() <==> forall e :: e in p.effects ==> exists r :: r in p.rules && e in r.scope)
  {
    forall e | e in p.Mapped()
      ensures e in p.effects
    {
      var r :| r in p.rules && e in r.scope;
    }
    if p.effects != {"none"} && p.MappingComplete() {
      forall e | e in p.effects
        ensures exists r :: r in p.rules && e in r.scope
      {
        assert e !in p.Unmapped();
        assert e in p.Mapped();
      }
    }
    if p.effects != {"none"} && forall e :: e in p.effects ==> exists r :: r in p.rules && e in r.scope {
      forall e | e in p.effects
        ensures e in p.Mapped()
      {
        var r :| r in p.rules && e in r.scope;
      }
    }
  }
}
