/**
 `advise` of `phios/elastic_runtime.py`: close the demanded and pinned bubbles
 under dependencies, hold when they overrun the budget, otherwise admit warm
 prefetches greedily by priority.
 */
module ResidencyAdvisor {
  import opened Sequences
  import opened Ranking
  import opened BubbleGraph
  import opened Wrappers

  /** A suggested state together with the reason the receipt gives for it. */
  datatype Advice = PinnedFloor | DemandOrDependency | PrefetchFits | WarmExceeds | NoDemand

  datatype Decision = Decision(id: Id, advice: Option<Advice>)

  datatype Plan = Plan(held: bool, ram: int, vram: int, mandatoryRam: int, mandatoryVram: int, decisions: seq<Decision>)

  // ------------------------------------------------------- required bubbles

  ghost predicate Seed(g: Graph, id: Id) {
    id in g && (g[id].demanded || g[id].pinned)
  }

  ghost predicate ClosedOver(g: Graph, s: set<Id>) {
    && (forall id :: Seed(g, id) ==> id in s)
    && (forall id :: id in s && id in g ==> forall d :: d in g[id].dependencies ==> d in s)
  }

  /** The least set holding every demanded or pinned bubble and closed under dependencies. */
  ghost function Required(g: Graph): set<Id> {
    set id | id in g && forall s :: ClosedOver(g, s) ==> id in s
  }

  lemma RequiredIsLeast(g: Graph)
    requires Resolved(g)
    ensures ClosedOver(g, Required(g)) && Required(g) <= g.Keys
    ensures forall s :: ClosedOver(g, s) ==> Required(g) <= s
  {
    forall id, d | id in Required(g) && d in g[id].dependencies
      ensures d in Required(g)
    {
      forall s | ClosedOver(g, s)
        ensures d in s
      {
        assert id in s;
      }
    }
  }

  /** Every required bubble outside the worklist has its dependencies required. */
  ghost predicate Served(g: Graph, required: set<Id>, pending: seq<Id>) {
    forall id, d :: id in required && id in g && id !in pending && d in g[id].dependencies ==> d in required
  }

  /** The worklist loop of `advise`. */
  method Close(g: Graph, names: seq<Id>) returns (required: set<Id>)
    requires Resolved(g) && (forall id :: id in names ==> id in g) && (forall id :: id in g ==> id in names)
    ensures required == Required(g)
  {
    required := set id | id in names && (g[id].demanded || g[id].pinned);
    var stack: seq<Id> := Seeds(g, names);
    while stack != []
      invariant required <= g.Keys
      invariant forall id :: Seed(g, id) ==> id in required
      invariant forall s :: ClosedOver(g, s) ==> required <= s
      invariant forall id :: id in stack ==> id in required
      invariant Served(g, required, stack)
      decreases g.Keys - required, |stack|
    {
      var name := stack[|stack| - 1];
      var rest := stack[..|stack| - 1];
      assert stack == rest + [name];
      ghost var before := required;
      required, stack := Expand(g, name, required, rest);
      assert g.Keys - required <= g.Keys - before;
      if required == before {
        assert stack == rest;
      } else {
        assert g.Keys - required < g.Keys - before by {
          var x :| x in required && x !in before;
          assert x in g.Keys - before && x !in g.Keys - required;
        }
      }
    }
    RequiredIsLeast(g);
    assert ClosedOver(g, required);
  }

  function Seeds(g: Graph, names: seq<Id>): (r: seq<Id>)
    requires forall id :: id in names ==> id in g
    ensures forall id :: id in r <==> id in names && (g[id].demanded || g[id].pinned)
  {
    if names == [] then []
    else
      assert names == [names[0]] + names[1..];
      if g[names[0]].demanded || g[names[0]].pinned then [names[0]] + Seeds(g, names[1..])
      else Seeds(g, names[1..])
  }

  /** One turn of the worklist: push the dependencies not yet required. */
  method Expand(g: Graph, name: Id, required0: set<Id>, stack0: seq<Id>) returns (required: set<Id>, stack: seq<Id>)
    requires Resolved(g) && name in g && name in required0 && required0 <= g.Keys
    requires forall id :: Seed(g, id) ==> id in required0
    requires forall s :: ClosedOver(g, s) ==> required0 <= s
    requires forall id :: id in stack0 ==> id in required0
    requires Served(g, required0, stack0 + [name])
    ensures required0 <= required <= g.Keys
    ensures forall s :: ClosedOver(g, s) ==> required <= s
    ensures forall id :: id in stack ==> id in required
    ensures Served(g, required, stack)
    ensures required == required0 ==> stack == stack0
  {
    required, stack := required0, stack0;
    var deps := g[name].dependencies;
    var k := 0;
    while k < |deps|
      invariant k <= |deps|
      invariant required0 <= required <= g.Keys
      invariant forall s :: ClosedOver(g, s) ==> required <= s
      invariant forall id :: id in stack ==> id in required
      invariant forall id :: id in stack0 ==> id in stack
      invariant Served(g, required, stack + [name])
      invariant forall j :: 0 <= j < k ==> deps[j] in required
      invariant if required == required0 then stack == stack0 else exists x :: x in required && x !in required0
    {
      assert deps[k] in deps;
      if deps[k] !in required {
        required := required + {deps[k]};
        stack := stack + [deps[k]];
        assert deps[k] in required && deps[k] !in required0;
      }
      k := k + 1;
    }
  }

  // ------------------------------------------------------------ the plan

  function Total(s: seq<Id>, f: Id -> int): int {
    if s == [] then 0 else f(s[0]) + Total(s[1..], f)
  }

  function ActiveRam(g: Graph): Id -> int {
    id => if id in g then g[id].activeRam else 0
  }

  function ActiveVram(g: Graph): Id -> int {
    id => if id in g then g[id].activeVram else 0
  }

  function WarmRam(g: Graph): Id -> int {
    id => if id in g then g[id].warmRam else 0
  }

  function Within(names: seq<Id>, s: set<Id>): seq<Id> {
    if names == [] then []
    else if names[0] in s then [names[0]] + Within(names[1..], s)
    else Within(names[1..], s)
  }

  function Beyond(names: seq<Id>, s: set<Id>): seq<Id> {
    if names == [] then []
    else if names[0] in s then Beyond(names[1..], s)
    else [names[0]] + Beyond(names[1..], s)
  }

  /** `key=lambda b: (-b.priority, b.identifier)`. */
  predicate PriorityLess(g: Graph, a: Id, b: Id) {
    && a in g && b in g
    && (g[a].priority > g[b].priority || (g[a].priority == g[b].priority && StringLess(a, b)))
  }

  function PriorityOrder(g: Graph): (Id, Id) -> bool {
    (a, b) => PriorityLess(g, a, b)
  }

  function Optional(g: Graph, names: seq<Id>, required: set<Id>): seq<Id> {
    Sort(Beyond(names, required), PriorityOrder(g))
  }

  /** The prefetches admitted among `optional`, best priority first. */
  function Admit(g: Graph, optional: seq<Id>, base: int, limit: int): seq<Id> {
    if optional == [] then []
    else
      var n := |optional| - 1;
      var id := optional[n];
      var admitted := Admit(g, optional[..n], base, limit);
      if id in g && g[id].prefetch && base + Total(admitted, WarmRam(g)) + g[id].warmRam <= limit
      then admitted + [id] else admitted
  }

  function AdviceFor(g: Graph, id: Id, required: set<Id>, admitted: seq<Id>): Advice {
    if id in required then (if id in g && g[id].pinned then PinnedFloor else DemandOrDependency)
    else if id in admitted then PrefetchFits
    else if id in g && g[id].prefetch then WarmExceeds
    else NoDemand
  }

  function Cost(g: Graph, advice: Advice, id: Id): int {
    match advice
    case PinnedFloor => ActiveRam(g)(id)
    case DemandOrDependency => ActiveRam(g)(id)
    case PrefetchFits => WarmRam(g)(id)
    case WarmExceeds => 0
    case NoDemand => 0
  }

  function Decisions(g: Graph, names: seq<Id>, required: set<Id>, admitted: seq<Id>): seq<Decision> {
    seq(|names|, i requires 0 <= i < |names| => Decision(names[i], Some(AdviceFor(g, names[i], required, admitted))))
  }

  /** The plan a resolved graph and its sorted ids determine. */
  ghost function PlanOf(g: Graph, names: seq<Id>, ramLimit: int, vramLimit: int): Plan {
    var required := Required(g);
    var ram := Total(Within(names, required), ActiveRam(g));
    var vram := Total(Within(names, required), ActiveVram(g));
    if ram > ramLimit || vram > vramLimit then
      Plan(true, ram, vram, ram, vram,
           seq(|names|, i requires 0 <= i < |names| => Decision(names[i], None)))
    else
      var admitted := Admit(g, Optional(g, names, required), ram, ramLimit);
      Plan(false, ram + Total(admitted, WarmRam(g)), vram, ram, vram, Decisions(g, names, required, admitted))
  }

  lemma {:induction false} TotalConcat(a: seq<Id>, b: seq<Id>, f: Id -> int)
    ensures Total(a + b, f) == Total(a, f) + Total(b, f)
  {
    if a == [] {
      assert a + b == b;
    } else {
      assert (a + b)[1..] == a[1..] + b;
      TotalConcat(a[1..], b, f);
    }
  }

  lemma BeyondElems(names: seq<Id>, s: set<Id>)
    ensures forall id :: id in Beyond(names, s) ==> id in names && id !in s
    ensures forall id :: id in names && id !in s ==> id in Beyond(names, s)
    ensures forall id :: id in Within(names, s) ==> id in names && id in s
    ensures NoDup(names) ==> NoDup(Beyond(names, s)) && NoDup(Within(names, s))
  {
    if names != [] {
      assert names == [names[0]] + names[1..];
      BeyondElems(names[1..], s);
      NoDupCons(names[0], names[1..]);
      NoDupCons(names[0], Beyond(names[1..], s));
      NoDupCons(names[0], Within(names[1..], s));
    }
  }

  lemma PriorityIsStrictTotal(g: Graph, xs: seq<Id>)
    requires forall id :: id in xs ==> id in g
    ensures StrictTotalOn(PriorityOrder(g), xs)
  {
    forall a, b
      ensures !StringLess(a, a) && !(StringLess(a, b) && StringLess(b, a))
      ensures a != b ==> StringLess(a, b) || StringLess(b, a)
    {
      StringLessTotal(a, b);
    }
    forall a, b, c | StringLess(a, b) && StringLess(b, c)
      ensures StringLess(a, c)
    {
      StringLessTransitive(a, b, c);
    }
  }

  lemma AdmittedAreOptional(g: Graph, optional: seq<Id>, base: int, limit: int)
    ensures forall id :: id in Admit(g, optional, base, limit) ==> id in optional && id in g && g[id].prefetch
    ensures NoDup(optional) ==> NoDup(Admit(g, optional, base, limit))
    ensures base <= limit ==> base + Total(Admit(g, optional, base, limit), WarmRam(g)) <= limit
  {
    if optional != [] {
      var n := |optional| - 1;
      assert optional == optional[..n] + [optional[n]];
      AdmittedAreOptional(g, optional[..n], base, limit);
      TotalConcat(Admit(g, optional[..n], base, limit), [optional[n]], WarmRam(g));
      if NoDup(optional) {
        assert optional[n] !in optional[..n];
      }
    }
  }

  /** A prefetch left cold did not fit when considered, and fits no better at the end. */
  lemma {:induction false} ColdNeverFits(g: Graph, optional: seq<Id>, base: int, limit: int, id: Id)
    requires id in optional && id in g && g[id].prefetch && id !in Admit(g, optional, base, limit)
    requires forall x :: x in optional && x in g ==> g[x].warmRam >= 0
    ensures base + Total(Admit(g, optional, base, limit), WarmRam(g)) + g[id].warmRam > limit
  {
    var n := |optional| - 1;
    var before := Admit(g, optional[..n], base, limit);
    assert optional == optional[..n] + [optional[n]];
    TotalConcat(before, [optional[n]], WarmRam(g));
    if id in optional[..n] {
      ColdNeverFits(g, optional[..n], base, limit, id);
    }
  }

  // ------------------------------------------------------------ accounting

  function AdvisedCost(g: Graph, required: set<Id>, admitted: seq<Id>): Id -> int {
    id => Cost(g, AdviceFor(g, id, required, admitted), id)
  }

  lemma {:induction false} TotalWithout(s: seq<Id>, x: Id, f: Id -> int)
    requires NoDup(s) && x in s
    ensures Total(s, f) == Total(Without(s, x), f) + f(x)
  {
    assert s == [s[0]] + s[1..];
    NoDupCons(s[0], s[1..]);
    if s[0] == x {
      WithoutAbsent(s[1..], x);
    } else {
      TotalWithout(s[1..], x, f);
    }
  }

  lemma {:induction false} TotalSameMembers(a: seq<Id>, b: seq<Id>, f: Id -> int)
    requires NoDup(a) && NoDup(b)
    requires (forall id :: id in a ==> id in b) && (forall id :: id in b ==> id in a)
    ensures Total(a, f) == Total(b, f)
  {
    if b != [] {
      assert b[0] in b;
    }
    if a != [] {
      assert a == [a[0]] + a[1..];
      NoDupCons(a[0], a[1..]);
      TotalWithout(b, a[0], f);
      WithoutElems(b, a[0]);
      TotalSameMembers(a[1..], Without(b, a[0]), f);
    }
  }

  /** Charging each suggestion its own cost adds up to the required bubbles plus the admitted ones. */
  lemma {:induction false} SuggestionsAddUp(g: Graph, names: seq<Id>, required: set<Id>, admitted: seq<Id>)
    requires forall id :: id in admitted ==> id !in required
    ensures Total(names, AdvisedCost(g, required, admitted))
         == Total(Within(names, required), ActiveRam(g)) + Total(Inside(names, admitted), WarmRam(g))
  {
    if names != [] {
      SuggestionsAddUp(g, names[1..], required, admitted);
    }
  }

  /** The prefetches an advisory plan warms. */
  ghost function AdmittedBy(g: Graph, names: seq<Id>, ramLimit: int): seq<Id> {
    Admit(g, Optional(g, names, Required(g)), Total(Within(names, Required(g)), ActiveRam(g)), ramLimit)
  }

  ghost predicate Lists(g: Graph, names: seq<Id>) {
    && NoDup(names)
    && (forall id :: id in names ==> id in g)
    && (forall id :: id in g ==> id in names)
  }

  /**
   An advisory plan keeps both budgets, and its RAM total is what its
   suggestions cost one by one.
   */
  lemma PlanAddsUp(g: Graph, names: seq<Id>, ramLimit: int, vramLimit: int)
    requires Resolved(g) && Lists(g, names) && !PlanOf(g, names, ramLimit, vramLimit).held
    ensures var plan := PlanOf(g, names, ramLimit, vramLimit);
      && plan.decisions == Decisions(g, names, Required(g), AdmittedBy(g, names, ramLimit))
      && plan.ram == Total(names, AdvisedCost(g, Required(g), AdmittedBy(g, names, ramLimit))) <= ramLimit
      && plan.vram == Total(Within(names, Required(g)), ActiveVram(g)) <= vramLimit
  {
    hide Required, Within, Total, Admit, Optional, AdvisedCost;
    var required := Required(g);
    var base := Total(Within(names, required), ActiveRam(g));
    var optional := Optional(g, names, required);
    var admitted := Admit(g, optional, base, ramLimit);
    OptionalMembers(g, names, required);
    AdmittedAreOptional(g, optional, base, ramLimit);
    SuggestionsAddUp(g, names, required, admitted);
    OutsideElems(names, admitted);
    TotalSameMembers(Inside(names, admitted), admitted, WarmRam(g));
  }

  predicate Running(d: Decision) {
    d.advice == Some(PinnedFloor) || d.advice == Some(DemandOrDependency)
  }

  /** The bubbles a plan suggests running. */
  ghost function Active(plan: Plan): set<Id> {
    set d | d in plan.decisions && Running(d) :: d.id
  }

  /**
   A plan that is not held has one row a bubble, suggests running exactly the
   least closed set holding every demanded or pinned bubble, and marks as
   pinned exactly the pinned ones.
   */
  lemma RunsExactlyRequired(g: Graph, names: seq<Id>, ramLimit: int, vramLimit: int)
    requires Resolved(g) && Lists(g, names) && !PlanOf(g, names, ramLimit, vramLimit).held
    ensures var plan := PlanOf(g, names, ramLimit, vramLimit);
      && |plan.decisions| == |names|
      && (forall i :: 0 <= i < |names| ==> plan.decisions[i].id == names[i])
      && (forall i :: 0 <= i < |names| ==> (Running(plan.decisions[i]) <==> names[i] in Required(g)))
      && (forall i :: 0 <= i < |names| ==> (plan.decisions[i].advice == Some(PinnedFloor) <==> g[names[i]].pinned))
      && ClosedOver(g, Active(plan)) && (forall s :: ClosedOver(g, s) ==> Active(plan) <= s)
  {
    hide Total, Admit, Optional;
    RequiredIsLeast(g);
    var plan := PlanOf(g, names, ramLimit, vramLimit);
    hide PlanOf, Required;
    forall id | id in g && g[id].pinned
      ensures id in Required(g)
    {
      assert Seed(g, id);
    }
    RowsRun(g, names, ramLimit, vramLimit);
    forall id | id in Required(g)
      ensures id in Active(plan)
    {
      var i :| 0 <= i < |names| && names[i] == id;
      assert plan.decisions[i] in plan.decisions && Running(plan.decisions[i]);
    }
    assert Active(plan) == Required(g);
  }

  lemma RowsRun(g: Graph, names: seq<Id>, ramLimit: int, vramLimit: int)
    requires Resolved(g) && Lists(g, names) && !PlanOf(g, names, ramLimit, vramLimit).held
    requires forall id :: id in g && g[id].pinned ==> id in Required(g)
    ensures var plan := PlanOf(g, names, ramLimit, vramLimit);
      && |plan.decisions| == |names|
      && (forall i :: 0 <= i < |names| ==> plan.decisions[i].id == names[i])
      && (forall i :: 0 <= i < |names| ==> (Running(plan.decisions[i]) <==> names[i] in Required(g)))
      && (forall i :: 0 <= i < |names| ==> (plan.decisions[i].advice == Some(PinnedFloor) <==> g[names[i]].pinned))
  {
    hide Required, Total, Admit, Optional, Within;
  }

  /** A prefetch a plan leaves cold could not be warmed even on top of the finished plan. */
  lemma ColdCannotBeAdded(g: Graph, names: seq<Id>, ramLimit: int, vramLimit: int, d: Decision)
    requires Resolved(g) && Lists(g, names) && !PlanOf(g, names, ramLimit, vramLimit).held
    requires forall x :: x in g ==> g[x].warmRam >= 0
    requires d in PlanOf(g, names, ramLimit, vramLimit).decisions && d.advice == Some(WarmExceeds)
    ensures d.id in g && g[d.id].prefetch
    ensures PlanOf(g, names, ramLimit, vramLimit).ram + g[d.id].warmRam > ramLimit
  {
    hide Required, Within, Total, Admit, Optional;
    var required := Required(g);
    OptionalMembers(g, names, required);
    ColdNeverFits(g, Optional(g, names, required), Total(Within(names, required), ActiveRam(g)), ramLimit, d.id);
  }

  lemma OptionalMembers(g: Graph, names: seq<Id>, required: set<Id>)
    requires NoDup(names) && forall id :: id in names ==> id in g
    ensures NoDup(Optional(g, names, required))
    ensures forall id :: id in Optional(g, names, required) ==> id in names && id !in required
    ensures forall id :: id in names && id !in required ==> id in Optional(g, names, required)
  {
    BeyondElems(names, required);
    PriorityIsStrictTotal(g, Beyond(names, required));
    SortIsSorted(Beyond(names, required), PriorityOrder(g));
  }

  // ------------------------------------------------ what a plan means to a caller

  /** The least set closed under dependencies that holds every demanded or pinned bubble. */
  ghost predicate IsLeastClosed(g: Graph, s: set<Id>) {
    ClosedOver(g, s) && s <= g.Keys && forall t :: ClosedOver(g, t) ==> s <= t
  }

  /** Higher priority, or equal priority and the smaller id. */
  predicate Outranks(g: Graph, a: Id, b: Id) {
    a in g && b in g && (g[a].priority > g[b].priority || (g[a].priority == g[b].priority && StringLess(a, b)))
  }

  /** What running the required bubbles takes. */
  function RequiredRam(g: Graph, names: seq<Id>, required: set<Id>): int {
    if names == [] then 0
    else
      (if names[0] in g && names[0] in required then g[names[0]].activeRam else 0)
      + RequiredRam(g, names[1..], required)
  }

  function RequiredVram(g: Graph, names: seq<Id>, required: set<Id>): int {
    if names == [] then 0
    else
      (if names[0] in g && names[0] in required then g[names[0]].activeVram else 0)
      + RequiredVram(g, names[1..], required)
  }

  /** The prefetches the rows warm, and those among them that outrank `id`. */
  function Warmed(rows: seq<Decision>): seq<Id> {
    if rows == [] then []
    else (if rows[0].advice == Some(PrefetchFits) then [rows[0].id] else []) + Warmed(rows[1..])
  }

  function Ahead(g: Graph, rows: seq<Decision>, id: Id): seq<Id> {
    if rows == [] then []
    else
      (if rows[0].advice == Some(PrefetchFits) && Outranks(g, rows[0].id, id) then [rows[0].id] else [])
      + Ahead(g, rows[1..], id)
  }

  /**
   One row of a plan that is not held: a required bubble runs; a prefetch is
   warmed exactly when it fits on top of the required bubbles and the warmed
   prefetches that outrank it; anything else has no declared demand.
   */
  ghost predicate RowMeans(g: Graph, required: set<Id>, plan: Plan, d: Decision, ramLimit: int) {
    && d.id in g
    && d.advice
       == if d.id in required then Some(if g[d.id].pinned then PinnedFloor else DemandOrDependency)
          else if !g[d.id].prefetch then Some(NoDemand)
          else if plan.mandatoryRam + Total(Ahead(g, plan.decisions, d.id), WarmRam(g)) + g[d.id].warmRam <= ramLimit
          then Some(PrefetchFits) else Some(WarmExceeds)
  }

  /** What a plan says of a graph, its ids in order and the two limits. */
  ghost predicate PlanMeans(g: Graph, required: set<Id>, names: seq<Id>, ramLimit: int, vramLimit: int, plan: Plan) {
    && IsLeastClosed(g, required)
    && plan.mandatoryRam == RequiredRam(g, names, required)
    && plan.mandatoryVram == RequiredVram(g, names, required) == plan.vram
    && (plan.held <==> plan.mandatoryRam > ramLimit || plan.mandatoryVram > vramLimit)
    && |plan.decisions| == |names| && (forall i :: 0 <= i < |names| ==> plan.decisions[i].id == names[i])
    && (plan.held ==> plan.ram == plan.mandatoryRam && forall d :: d in plan.decisions ==> d.advice == None)
    && (!plan.held ==> plan.ram == plan.mandatoryRam + Total(Warmed(plan.decisions), WarmRam(g)))
    && (!plan.held ==> forall d :: d in plan.decisions ==> RowMeans(g, required, plan, d, ramLimit))
  }

  lemma {:induction false} AdmitSplits(g: Graph, optional: seq<Id>, k: nat, base: int, limit: int)
    requires k < |optional| && NoDup(optional)
    ensures var id := optional[k]; var before := Admit(g, optional[..k], base, limit);
      && (id in Admit(g, optional, base, limit)
          <==> id in g && g[id].prefetch && base + Total(before, WarmRam(g)) + g[id].warmRam <= limit)
      && (forall x :: x in before ==> x in Admit(g, optional, base, limit))
      && (forall x :: x in Admit(g, optional, base, limit) && x in optional[..k] ==> x in before)
  {
    hide Total;
    var n := |optional| - 1;
    var id := optional[k];
    AdmittedAreOptional(g, optional[..n], base, limit);
    AdmittedAreOptional(g, optional[..k], base, limit);
    assert optional[n] !in optional[..n];
    if k < n {
      assert optional[..n][..k] == optional[..k];
      AdmitSplits(g, optional[..n], k, base, limit);
      assert optional[n] !in optional[..k];
    } else {
      assert optional[..n] == optional[..k];
      assert id !in Admit(g, optional[..n], base, limit);
    }
  }

  lemma {:induction false} AheadMembers(g: Graph, rows: seq<Decision>, id: Id)
    ensures forall x :: x in Ahead(g, rows, id) ==> x in Warmed(rows) && Outranks(g, x, id)
    ensures forall x :: x in Warmed(rows) && Outranks(g, x, id) ==> x in Ahead(g, rows, id)
  {
    hide Outranks;
    if rows != [] {
      AheadMembers(g, rows[1..], id);
    }
  }

  lemma {:induction false} WarmedMembers(rows: seq<Decision>)
    ensures forall x :: x in Warmed(rows) ==> Decision(x, Some(PrefetchFits)) in rows
    ensures forall x :: Decision(x, Some(PrefetchFits)) in rows ==> x in Warmed(rows)
  {
    if rows != [] {
      WarmedMembers(rows[1..]);
      assert rows == [rows[0]] + rows[1..];
    }
  }

  lemma {:induction false} WarmedDistinct(g: Graph, rows: seq<Decision>, id: Id)
    requires forall i, j :: 0 <= i < j < |rows| ==> rows[i].id != rows[j].id
    ensures NoDup(Warmed(rows)) && NoDup(Ahead(g, rows, id))
    ensures forall x :: x in Warmed(rows) ==> exists d :: d in rows && d.id == x
  {
    hide Outranks;
    if rows != [] {
      WarmedDistinct(g, rows[1..], id);
      WarmedMembers(rows[1..]);
      AheadMembers(g, rows[1..], id);
      assert rows == [rows[0]] + rows[1..];
      assert rows[0].id !in Warmed(rows[1..]);
      NoDupCons(rows[0].id, Warmed(rows[1..]));
      NoDupCons(rows[0].id, Ahead(g, rows[1..], id));
    }
  }

  /** The prefetches admitted before one are the warmed ones that outrank it. */
  lemma AheadIsBefore(g: Graph, rows: seq<Decision>, optional: seq<Id>, k: nat, base: int, limit: int)
    requires k < |optional| && NoDup(optional) && Sorted(optional, PriorityOrder(g))
    requires forall i, j :: 0 <= i < j < |rows| ==> rows[i].id != rows[j].id
    requires forall x :: x in Warmed(rows) ==> x in Admit(g, optional, base, limit)
    requires forall x :: x in Admit(g, optional, base, limit) ==> x in Warmed(rows)
    ensures Total(Ahead(g, rows, optional[k]), WarmRam(g)) == Total(Admit(g, optional[..k], base, limit), WarmRam(g))
  {
    hide Total, Admit, Warmed, Ahead;
    var id := optional[k];
    var before := Admit(g, optional[..k], base, limit);
    var ahead := Ahead(g, rows, id);
    AdmitSplits(g, optional, k, base, limit);
    AdmittedAreOptional(g, optional, base, limit);
    AdmittedAreOptional(g, optional[..k], base, limit);
    AheadMembers(g, rows, id);
    WarmedDistinct(g, rows, id);
    forall x | x in optional
      ensures Outranks(g, x, id) <==> x in optional[..k]
    {
      var j :| 0 <= j < |optional| && optional[j] == x;
      StringLessTotal(x, id);
      if j < k {
        assert PriorityOrder(g)(optional[j], optional[k]);
      } else if j > k {
        assert PriorityOrder(g)(optional[k], optional[j]);
      }
    }
    assert forall i, j :: 0 <= i < j < k ==> optional[..k][i] != optional[..k][j];
    TotalSameMembers(ahead, before, WarmRam(g));
  }

  lemma {:induction false} RequiredCosts(g: Graph, names: seq<Id>, required: set<Id>)
    ensures Total(Within(names, required), ActiveRam(g)) == RequiredRam(g, names, required)
    ensures Total(Within(names, required), ActiveVram(g)) == RequiredVram(g, names, required)
  {
    if names != [] {
      RequiredCosts(g, names[1..], required);
    }
  }

  /** The rows of an advisory plan that are warmed are the prefetches admitted. */
  lemma WarmedAreAdmitted(g: Graph, names: seq<Id>, required: set<Id>, admitted: seq<Id>)
    requires (forall x :: x in admitted ==> x in names && x !in required) && NoDup(admitted) && NoDup(names)
    ensures var rows := Decisions(g, names, required, admitted);
      && (forall x :: x in Warmed(rows) <==> x in admitted)
      && Total(Warmed(rows), WarmRam(g)) == Total(admitted, WarmRam(g))
  {
    hide Warmed, Total, WarmRam;
    var rows := Decisions(g, names, required, admitted);
    WarmedMembers(rows);
    WarmedDistinct(g, rows, "");
    forall x | x in admitted
      ensures Decision(x, Some(PrefetchFits)) in rows
    {
      var i :| 0 <= i < |names| && names[i] == x;
      assert rows[i] == Decision(x, Some(PrefetchFits));
    }
    forall x | Decision(x, Some(PrefetchFits)) in rows
      ensures x in admitted
    {
      var i :| 0 <= i < |rows| && rows[i] == Decision(x, Some(PrefetchFits));
      assert AdviceFor(g, x, required, admitted) == PrefetchFits;
    }
    TotalSameMembers(Warmed(rows), admitted, WarmRam(g));
  }

  /** Every plan means what its rows say. */
  lemma PlanHasMeaning(g: Graph, names: seq<Id>, ramLimit: int, vramLimit: int)
    requires Resolved(g) && Lists(g, names)
    ensures PlanMeans(g, Required(g), names, ramLimit, vramLimit, PlanOf(g, names, ramLimit, vramLimit))
  {
    hide Required, Within, Total, Admit, Optional, ClosedOver, RequiredRam, RequiredVram, Ahead, Warmed, WarmRam;
    RequiredIsLeast(g);
    var required := Required(g);
    RequiredCosts(g, names, required);
    var plan := PlanOf(g, names, ramLimit, vramLimit);
    if !plan.held {
      var optional := Optional(g, names, required);
      var admitted := AdmittedBy(g, names, ramLimit);
      OptionalMembers(g, names, required);
      AdmittedAreOptional(g, optional, plan.mandatoryRam, ramLimit);
      WarmedAreAdmitted(g, names, required, admitted);
      assert plan.decisions == Decisions(g, names, required, admitted);
      forall d | d in plan.decisions
        ensures RowMeans(g, required, plan, d, ramLimit)
      {
        RowHasMeaning(g, names, required, ramLimit, plan, d);
      }
    }
  }

  lemma RowHasMeaning(g: Graph, names: seq<Id>, required: set<Id>, ramLimit: int, plan: Plan, d: Decision)
    requires Resolved(g) && Lists(g, names) && required == Required(g) && d in plan.decisions
    requires plan.mandatoryRam == Total(Within(names, required), ActiveRam(g))
    requires plan.decisions == Decisions(g, names, required, AdmittedBy(g, names, ramLimit))
    ensures RowMeans(g, required, plan, d, ramLimit)
  {
    hide Required, Within, Total, Admit, Ahead, Warmed, WarmRam, Optional;
    var optional := Optional(g, names, required);
    var admitted := AdmittedBy(g, names, ramLimit);
    var i :| 0 <= i < |plan.decisions| && plan.decisions[i] == d;
    OptionalMembers(g, names, required);
    AdmittedAreOptional(g, optional, plan.mandatoryRam, ramLimit);
    if d.id !in required {
      var k :| 0 <= k < |optional| && optional[k] == d.id;
      OptionalSorted(g, names, required);
      WarmedAreAdmitted(g, names, required, admitted);
      AdmitSplits(g, optional, k, plan.mandatoryRam, ramLimit);
      AheadIsBefore(g, plan.decisions, optional, k, plan.mandatoryRam, ramLimit);
    }
  }

  lemma OptionalSorted(g: Graph, names: seq<Id>, required: set<Id>)
    requires NoDup(names) && forall id :: id in names ==> id in g
    ensures Sorted(Optional(g, names, required), PriorityOrder(g))
  {
    BeyondElems(names, required);
    PriorityIsStrictTotal(g, Beyond(names, required));
    SortIsSorted(Beyond(names, required), PriorityOrder(g));
  }

  // ------------------------------------------------------------ the method

  /** The greedy loop over the optional bubbles. */
  method AdmitWarm(g: Graph, optional: seq<Id>, targets0: map<Id, Advice>, base: int, limit: int,
                   ghost required: set<Id>)
    returns (targets: map<Id, Advice>, total: int)
    requires NoDup(optional) && forall id :: id in optional ==> id in g && id !in required && id !in targets0
    ensures var admitted := Admit(g, optional, base, limit);
      && total == base + Total(admitted, WarmRam(g))
      && targets.Keys == targets0.Keys + Elems(optional)
      && (forall id :: id in targets0 ==> targets[id] == targets0[id])
      && (forall id :: id in optional ==> targets[id] == AdviceFor(g, id, required, admitted))
  {
    hide Admit, Total, Elems;
    targets, total := targets0, base;
    var k := 0;
    AdmitNothing(g, base, limit);
    assert optional[..0] == [];
    ghost var admitted: seq<Id> := [];
    while k < |optional|
      invariant k <= |optional|
      invariant admitted == Admit(g, optional[..k], base, limit) && total == base + Total(admitted, WarmRam(g))
      invariant forall id :: id in admitted ==> id in optional[..k]
      invariant targets.Keys == targets0.Keys + Elems(optional[..k])
      invariant forall id :: id in targets0 ==> targets[id] == targets0[id]
      invariant forall id :: id in optional[..k] ==> id in targets && targets[id] == AdviceFor(g, id, required, admitted)
    {
      var id := optional[k];
      ghost var before := admitted;
      assert optional[..k + 1] == optional[..k] + [id];
      assert id !in optional[..k];
      ElemsSnoc(optional[..k], id);
      AdmitStep(g, optional, k, base, limit);
      if g[id].prefetch && total + g[id].warmRam <= limit {
        targets := targets[id := PrefetchFits];
        total := total + g[id].warmRam;
        admitted := admitted + [id];
      } else if g[id].prefetch {
        targets := targets[id := WarmExceeds];
      } else {
        targets := targets[id := NoDemand];
      }
      forall x | x in optional[..k]
        ensures AdviceFor(g, x, required, admitted) == AdviceFor(g, x, required, before)
      {
        assert x != id;
      }
      k := k + 1;
    }
    assert optional[..k] == optional;
  }

  lemma ElemsSnoc(s: seq<Id>, x: Id)
    ensures Elems(s + [x]) == Elems(s) + {x}
  {
  }

  lemma AdmitNothing(g: Graph, base: int, limit: int)
    ensures Admit(g, [], base, limit) == [] && Total([], WarmRam(g)) == 0 && Elems<Id>([]) == {}
  {
  }

  lemma AdmitStep(g: Graph, optional: seq<Id>, k: nat, base: int, limit: int)
    requires k < |optional|
    ensures var id := optional[k]; var before := Admit(g, optional[..k], base, limit);
      && Total(before + [id], WarmRam(g)) == Total(before, WarmRam(g)) + WarmRam(g)(id)
      && Admit(g, optional[..k + 1], base, limit)
         == if id in g && g[id].prefetch && base + Total(before, WarmRam(g)) + g[id].warmRam <= limit
            then before + [id] else before
  {
    assert optional[..k + 1][..k] == optional[..k];
    TotalConcat(Admit(g, optional[..k], base, limit), [optional[k]], WarmRam(g));
  }

  /** `advise` on a checked graph. */
  method AdviseGraph(g: Graph, names: seq<Id>, ramLimit: int, vramLimit: int) returns (plan: Plan)
    requires Resolved(g) && NoDup(names)
    requires (forall id :: id in names ==> id in g) && (forall id :: id in g ==> id in names)
    ensures plan == PlanOf(g, names, ramLimit, vramLimit)
  {
    hide Admit, Optional, Required, Within, Total, AdviceFor;
    var required := Close(g, names);
    var mandatoryRam := Total(Within(names, required), ActiveRam(g));
    var mandatoryVram := Total(Within(names, required), ActiveVram(g));
    if mandatoryRam > ramLimit || mandatoryVram > vramLimit {
      return Plan(true, mandatoryRam, mandatoryVram, mandatoryRam, mandatoryVram,
                  seq(|names|, i requires 0 <= i < |names| => Decision(names[i], None)));
    }
    RequiredIsLeast(g);
    var targets: map<Id, Advice> :=
      map id | id in required :: if g[id].pinned then PinnedFloor else DemandOrDependency;
    var optional := Optional(g, names, required);
    OptionalMembers(g, names, required);
    var totalRam;
    targets, totalRam := AdmitWarm(g, optional, targets, mandatoryRam, ramLimit, required);
    ghost var admitted := Admit(g, optional, mandatoryRam, ramLimit);
    forall id | id in names
      ensures id in targets && targets[id] == AdviceFor(g, id, required, admitted)
    {
      AdviceRequired(g, id, required, admitted);
    }
    var rows := seq(|names|, i requires 0 <= i < |names| && names[i] in targets => Decision(names[i], Some(targets[names[i]])));
    assert rows == Decisions(g, names, required, admitted);
    plan := Plan(false, totalRam, mandatoryVram, mandatoryRam, mandatoryVram, rows);
  }

  lemma AdviceRequired(g: Graph, id: Id, required: set<Id>, admitted: seq<Id>)
    requires id in g
    ensures id in required ==>
      AdviceFor(g, id, required, admitted) == if g[id].pinned then PinnedFloor else DemandOrDependency
  {
  }

  /** `advise`: refused exactly when the snapshot is, else the plan its graph determines. */
  method Advise(bubbles: seq<Bubble>, ramLimit: int, vramLimit: int) returns (r: Result<Plan, SnapshotError>)
    ensures r == Failure(InvalidSnapshot) <==>
      !(WellFormed(bubbles) && 0 <= ramLimit <= MAX_MIB && 0 <= vramLimit <= MAX_MIB)
    ensures r != Failure(InvalidSnapshot) ==> forall g :: GraphOf(g, bubbles) ==>
      r == if HasCycle(g) then Failure(CyclicDependencies)
           else Success(PlanOf(g, Sort(Ids(bubbles), StringLess), ramLimit, vramLimit))
    ensures r.Success? ==> exists g, required, names ::
      && GraphOf(g, bubbles) && !HasCycle(g) && Sorted(names, StringLess) && Lists(g, names)
      && PlanMeans(g, required, names, ramLimit, vramLimit, r.value)
  {
    hide HasCycle, PlanOf, WellFormed, PlanMeans, StringLess;
    if !(0 <= ramLimit <= MAX_MIB && 0 <= vramLimit <= MAX_MIB) {
      return Failure(InvalidSnapshot);
    }
    var checked := Checked(bubbles);
    if checked.Failure? {
      assert WellFormed(bubbles) ==> checked.error == CyclicDependencies;
      return Failure(checked.error);
    }
    assert WellFormed(bubbles);
    var g := checked.value;
    forall h | GraphOf(h, bubbles)
      ensures h == g
    {
      GraphUnique(g, h, bubbles);
    }
    var ids := Ids(bubbles);
    UniqueIds(bubbles);
    KeysAreIds(g, bubbles);
    StringOrder(ids);
    SortIsSorted(ids, StringLess);
    var names := Sort(ids, StringLess);
    var plan := AdviseGraph(g, names, ramLimit, vramLimit);
    PlanHasMeaning(g, names, ramLimit, vramLimit);
    r := Success(plan);
  }

  lemma UniqueIds(bubbles: seq<Bubble>)
    requires WellFormed(bubbles)
    ensures NoDup(Ids(bubbles))
  {
  }

  // ------------------------------------------------ order independence

  /** Two graphs that differ only in the order dependencies are listed. */
  ghost predicate SameGraph(g: Graph, h: Graph) {
    && g.Keys == h.Keys
    && forall id :: id in g ==>
         && g[id].(dependencies := []) == h[id].(dependencies := [])
         && (forall d :: d in g[id].dependencies ==> d in h[id].dependencies)
         && (forall d :: d in h[id].dependencies ==> d in g[id].dependencies)
  }

  lemma SameFields(g: Graph, h: Graph, id: Id)
    requires SameGraph(g, h) && id in g
    ensures g[id].id == h[id].id && g[id].demanded == h[id].demanded && g[id].pinned == h[id].pinned
    ensures g[id].prefetch == h[id].prefetch && g[id].priority == h[id].priority
    ensures g[id].warmRam == h[id].warmRam && g[id].activeRam == h[id].activeRam
    ensures g[id].activeVram == h[id].activeVram
  {
    var a, b := g[id].(dependencies := []), h[id].(dependencies := []);
    assert a.id == b.id && a.demanded == b.demanded && a.pinned == b.pinned && a.prefetch == b.prefetch;
    assert a.priority == b.priority && a.warmRam == b.warmRam && a.activeRam == b.activeRam;
    assert a.activeVram == b.activeVram;
  }

  lemma SameRequired(g: Graph, h: Graph)
    requires SameGraph(g, h)
    ensures Required(g) == Required(h)
  {
    forall id | id in g
      ensures Seed(g, id) <==> Seed(h, id)
    {
      SameFields(g, h, id);
    }
    forall s
      ensures ClosedOver(g, s) <==> ClosedOver(h, s)
    {
      assert ClosedOver(g, s) ==> ClosedOver(h, s) by {
        if ClosedOver(g, s) {
          assert forall id :: Seed(h, id) ==> Seed(g, id);
        }
      }
      assert ClosedOver(h, s) ==> ClosedOver(g, s) by {
        if ClosedOver(h, s) {
          assert forall id :: Seed(g, id) ==> Seed(h, id);
        }
      }
    }
  }

  lemma {:induction false} SameTotals(g: Graph, h: Graph, names: seq<Id>)
    requires SameGraph(g, h)
    ensures Total(names, ActiveRam(g)) == Total(names, ActiveRam(h))
    ensures Total(names, ActiveVram(g)) == Total(names, ActiveVram(h))
    ensures Total(names, WarmRam(g)) == Total(names, WarmRam(h))
  {
    if names != [] {
      if names[0] in g {
        SameFields(g, h, names[0]);
      }
      SameTotals(g, h, names[1..]);
    }
  }

  lemma {:induction false} SameInsert(g: Graph, h: Graph, x: Id, s: seq<Id>)
    requires SameGraph(g, h)
    ensures Insert(x, s, PriorityOrder(g)) == Insert(x, s, PriorityOrder(h))
  {
    if s != [] {
      if x in g && s[0] in g {
        SameFields(g, h, x);
        SameFields(g, h, s[0]);
      }
      SameInsert(g, h, x, s[1..]);
    }
  }

  lemma {:induction false} SameSort(g: Graph, h: Graph, s: seq<Id>)
    requires SameGraph(g, h)
    ensures Sort(s, PriorityOrder(g)) == Sort(s, PriorityOrder(h))
  {
    if s != [] {
      SameSort(g, h, s[1..]);
      SameInsert(g, h, s[0], Sort(s[1..], PriorityOrder(g)));
    }
  }

  lemma {:induction false} SameAdmit(g: Graph, h: Graph, optional: seq<Id>, base: int, limit: int)
    requires SameGraph(g, h)
    ensures Admit(g, optional, base, limit) == Admit(h, optional, base, limit)
  {
    if optional != [] {
      var n := |optional| - 1;
      SameAdmit(g, h, optional[..n], base, limit);
      SameTotals(g, h, Admit(g, optional[..n], base, limit));
      if optional[n] in g {
        SameFields(g, h, optional[n]);
      }
    }
  }

  lemma SamePlan(g: Graph, h: Graph, names: seq<Id>, ramLimit: int, vramLimit: int)
    requires SameGraph(g, h)
    ensures PlanOf(g, names, ramLimit, vramLimit) == PlanOf(h, names, ramLimit, vramLimit)
  {
    hide Required, Within, Total, Admit;
    var required := Required(g);
    SameRequired(g, h);
    SameTotals(g, h, Within(names, required));
    var base := Total(Within(names, required), ActiveRam(g));
    SameSort(g, h, Beyond(names, required));
    SameAdmit(g, h, Optional(g, names, required), base, ramLimit);
    var admitted := Admit(g, Optional(g, names, required), base, ramLimit);
    SameTotals(g, h, admitted);
    forall i | 0 <= i < |names|
      ensures AdviceFor(g, names[i], required, admitted) == AdviceFor(h, names[i], required, admitted)
    {
      if names[i] in g {
        SameFields(g, h, names[i]);
      }
    }
    assert Decisions(g, names, required, admitted) == Decisions(h, names, required, admitted);
  }

  lemma SameCycles(g: Graph, h: Graph)
    requires SameGraph(g, h)
    ensures HasCycle(g) ==> HasCycle(h)
  {
    if HasCycle(g) {
      var p :| IsCycle(g, p);
      assert IsCycle(h, p);
    }
  }

  /** Listing the bubbles, or any bubble's dependencies, in another order changes no decision. */
  lemma OrderIndependent(a: seq<Bubble>, b: seq<Bubble>, g: Graph, h: Graph, ramLimit: int, vramLimit: int)
    requires NoDup(Ids(a)) && NoDup(Ids(b)) && GraphOf(g, a) && GraphOf(h, b) && SameGraph(g, h)
    ensures PlanOf(g, Sort(Ids(a), StringLess), ramLimit, vramLimit)
         == PlanOf(h, Sort(Ids(b), StringLess), ramLimit, vramLimit)
    ensures HasCycle(g) <==> HasCycle(h)
  {
    SameCycles(g, h);
    SameCycles(h, g);
    hide PlanOf, HasCycle;
    KeysAreIds(g, a);
    KeysAreIds(h, b);
    StringOrder(Ids(a));
    StringOrder(Ids(b));
    SortIsSorted(Ids(a), StringLess);
    SortIsSorted(Ids(b), StringLess);
    SameMembersSameMultiset(Ids(a), Ids(b));
    SortedUnique(Sort(Ids(a), StringLess), Sort(Ids(b), StringLess), Ids(a), StringLess);
    SamePlan(g, h, Sort(Ids(a), StringLess), ramLimit, vramLimit);
  }
}
