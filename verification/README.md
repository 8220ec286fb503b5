# PhiOS in Dafny: elastic caches, dependency graphs and the authority chain

This project models three parts of PhiOS and proves what they promise.

**The elastic cache family.** Offline studies replay routed-expert traces through
hypothetical caches. `ShadowCache` is the R9 cache (mandatory pins, LRU, a bypass
for resources that cannot sit beside the pins); `SharedCache` is the R13 cache, in
which a whole routed group must be resident at once and a victim is never taken
from the group being served. Both are written as the loops of the source and proved
equal to a reference definition, `RecencyStack`: keep one stack of everything ever
demanded and hold the longest suffix that fits. `CacheLaws` proves what follows:
inclusion, budget monotonicity, conservation of bytes and misses, agreement of the
two caches. `RouterCapture`, `Headroom`, `PinRanking` and `SharedReview` read a
capture, reserve headroom, learn pins and run the R13 review; `ShadowReplays` and
`HoldoutCensus` are the R10 bridge, the R11 comparison and the R12 census.

**Graph algorithms.** `BubbleGraph` is the depth-first cycle check and
`ResidencyAdvisor` the dependency closure and greedy warm admission of the runtime
advisor. `CuriosityLineage` is the append-only artifact store and its post-order
walk over a parent graph that may have cycles and holes.

**Authority as an append-only ledger.** `AuthorityEpoch`, `EnforcementProfile` and
`ActionLease` reconstruct authority, map enforcement and issue leases.
`AuthorityLedger`, `AuthorityRequest`, `AuthorizationDecision`, `CapabilityBinding`
and `ActionLeaseService` are the four services. `AuthorityRuns` proves what holds of
every interleaving of them, and `AuthorityProgress` that they are not idle: what one
reports ready can be done, and an allowed admission reaches a lease. `HashChain` and `GhostWalkRecorder` treat hash-linked
histories, `CuriosityBroker` the bounded table of persistence requests.

The loops and the objects that change in place are methods with loops and classes;
frozen values and branch-only code are datatypes and functions. Internal `raise`s
that the source calls inconsistencies are assertions, so the methods prove that they
cannot fire; a raise a caller can cause is a `Failure`.

Conventions:

- Sizes are total functions on resources, positive where the source's manifest
  validation makes them so. Times are integers (microseconds where the source adds
  seconds). Tuples that the source keeps sorted and duplicate-free are sets.
- A digest is the value of a function with no collisions among bodies of one kind.
- A method of a service that takes its lock is one atomic step. The policy, the
  evidence, the epoch provider and the clock are parameters of each step, constrained
  only by what the callers check; `approve` of the broker is two steps.
- `Sequences.Times(n, k)` is `n * k` counted one `k` at a time (`Sequences.TimesIsProduct`); bytes of
  `n` experts of one size and the number of census cells are written with it.
- Capture validation is deterministic, so R10, R11 and R12 share one checked capture.

Where the code does less than one might hope:

- A larger budget can make the R9 cache stage *more* bytes, because it can turn a
  bypass into an admission. `CacheLaws.LargerBudgetStagesMore` gives a trace of three
  accesses, and `CacheLaws.BudgetMonotoneIff` the exact condition on pins, sizes and
  budgets under which no trace loses a resident, a hit or staged bytes.
- An approval in flight does not keep its place in the broker's table: it leaves
  whenever it is the oldest entry of a full one (`CuriosityBroker.ApprovedMayLeave`),
  and `CuriosityBroker.ApprovedLeavesOnSomeRun` gives the run on which that happens.
- An approval dated up to five seconds ahead is claimed although its lease is not yet
  usable: `CuriosityBroker.AheadIsClaimedNotYetUsable` gives the two-step run and
  exactly which approvals it concerns.
- The second expiry check inside `approve` can never fire; in
  `CuriosityBroker.Broker.ClaimRequest` it is an assertion.

## Model

| member | source | states |
|---|---|---|
| RecencyStack.FitIsLongest | phios/elastic_shared_r13.py:166-192 | The reference cache holds the longest suffix of the recency stack that fits: every longer suffix overflows the budget |
| RecencyStack.FitMonotone | phios/elastic_shared_r13.py:147-204 | A smaller budget holds a suffix of what a larger one holds |
| RecencyStack.FitTouchAll | phios/elastic_cache_r9.py:160-191 | Cutting the stack after every touch and cutting it once at the end leave the same cache |
| SharedCache.MakeRoom | phios/elastic_shared_r13.py:179-185 | The eviction loop never lacks a victim and drops exactly the oldest residents outside the group until the new expert fits |
| SharedCache.ServeMiss | phios/elastic_shared_r13.py:177-192 | A miss is staged once, its expert becomes most recent, and the budget holds |
| SharedCache.ServeHit | phios/elastic_shared_r13.py:172-176 | A hit moves an unpinned expert to the recent end and charges nothing |
| SharedCache.ServeEvent | phios/elastic_shared_r13.py:166-192 | One event turns the cache into the stack after touching the group's demand, cut to the room, with every counter as defined event by event |
| SharedCache.Simulate | phios/elastic_shared_r13.py:147-204 | The replay returns the reference counters of the whole trace, and fails only when pins or some group overflow the budget |
| SharedCache.Cache.EventEnds | phios/elastic_shared_r13.py:170-192 | At the end of an event the incremental state is the reference state |
| SharedCache.Cache.ReplaySound | phios/elastic_shared_r13.py:157-192 | After any fitting trace the LRU is duplicate-free, free of pins and within the room |
| SharedCache.Cache.HeldFits | phios/elastic_shared_r13.py:167-169 | Once the group guard passes, all group members held during the event fit beside the pins |
| CacheLaws.StackLaw | phios/elastic_shared_r13.py:166-192 | After any fitting trace the LRU is the longest fitting suffix of all demands ever made |
| CacheLaws.GroupResident | phios/elastic_shared_r13.py:151-155 | After an event every expert of its group is resident, last in the LRU, behind the bystanders that still fit |
| CacheLaws.SharedBudgetMonotone | phios/elastic_shared_r13.py:147-204 | At every event boundary a larger budget holds all a smaller one does, never hits less and never stages more |
| CacheLaws.SharedConservation | phios/elastic_shared_r13.py:162-204 | Misses are evictions plus residents, uses are hits plus misses, staged bytes cover pins and each distinct demand, and the peak obeys the budget |
| ShadowCache.MakeRoom | phios/elastic_cache_r9.py:179-184 | The R9 eviction loop never meets an empty LRU and leaves the longest suffix that makes room |
| ShadowCache.ServeAccess | phios/elastic_cache_r9.py:168-191 | One access keeps the cache and every counter equal to their definitions on the trace so far |
| ShadowCache.Simulate | phios/elastic_cache_r9.py:116-214 | The replay is held exactly when the pins overflow, otherwise it returns the account of the trace; no internal raise fires |
| ShadowCache.Study.ResidentSound | phios/elastic_cache_r9.py:158-191 | What the LRU holds is accessed, cacheable, duplicate-free and within the room left by the pins |
| ShadowCache.Study.AccountHit | phios/elastic_cache_r9.py:170-174 | A hit adds one to the hits and only reorders the LRU |
| ShadowCache.Study.AccountMiss | phios/elastic_cache_r9.py:175-191 | A cacheable miss stages its bytes, evicts what must go and may raise the peak |
| ShadowCache.Study.AccountBypass | phios/elastic_cache_r9.py:177-179 | An access too large to sit beside the pins is staged, counted and leaves the cache alone |
| CacheLaws.ShadowConservation | phios/elastic_cache_r9.py:160-210 | Misses are bypasses, evictions and residents; the saving is the bytes of the hits less the pins; each distinct resource is paid once; peak within budget |
| CacheLaws.ShadowBudgetMonotone | phios/elastic_cache_r9.py:160-191 | When no group that is all kept at the small budget can be displaced by resources only the large budget admits, after every trace the larger budget holds all the smaller one does, hits no less, and misses, bypasses and stages no more |
| CacheLaws.BudgetMonotoneIff | phios/elastic_cache_r9.py:160-191 | That condition decides three things over all traces: residents are included iff it holds, hits never fall iff it holds, and (sizes positive) staged bytes never rise iff it holds |
| CacheLaws.SameBypassesMonotone | phios/elastic_cache_r9.py:177-179 | When the larger budget admits no resource the smaller one bypasses, every trace keeps its residents and hits and stages no more under it |
| CacheLaws.LargerBudgetStagesMore | phios/elastic_cache_r9.py:160-191 | A concrete trace on which the larger budget stages more bytes |
| CacheLaws.CachesAgree | phios/elastic_shared_r13.py:147-204 | On single-resource events that fit beside the pins the two caches report the same bytes, hits, misses, evictions, peak and residency |
| CacheLaws.SameResidents | phios/elastic_shared_r13.py:166-192 | Served as groups or one expert at a time, the same experts end resident in the same order |
| CacheLaws.GroupedNeverWorse | phios/elastic_shared_r13.py:166-192 | Serving groups atomically never misses or stages more than serving the same experts one by one |
| RouterCapture.Validate | phios/elastic_router_r10.py:53-118 | Accepts exactly the well-formed captures and returns the layers, phases and per-layer series that projecting the events gives |
| RouterCapture.SplitEvents | phios/elastic_shared_r13.py:95-127 | Accepts exactly the captures whose every split is in canonical step-major order, and returns each split's groups in order |
| RouterCapture.StepIndexesSeries | phios/elastic_router_r10.py:92-101 | In an accepted capture an event's step is its index in its own series |
| RouterCapture.NoRemainder | phios/elastic_shared_r13.py:118-122 | After validation a split has layers times steps events, so the remainder rejection cannot fire |
| RouterCapture.ReadingsAgree | phios/elastic_shared_r13.py:118-127 | Event t*L+i of a split is entry t of layer i's validated series |
| RouterCapture.GroupShape | phios/elastic_router_r10.py:80-91 | Every group of a validated split stays in one declared layer with one to eight distinct experts |
| RouterCapture.CanonicalIff | phios/elastic_shared_r13.py:123-126 | The comparison of positions accepts exactly the canonical order |
| Ranking.SortIsSorted | phios/elastic_shared_r13.py:144 | Sorting under a strict total order gives a strictly increasing arrangement of the same members |
| Ranking.SortedUnique | phios/elastic_shared_r13.py:144 | There is only one such arrangement |
| PinRanking.RatioTransitive | phios/elastic_shared_r13.py:135-142 | Cross-multiplied frequency per byte composes transitively for positive sizes |
| PinRanking.RankingIsStrictTotal | phios/elastic_shared_r13.py:135-142 | The training comparator is a strict total order |
| PinRanking.RankTrainByRate | phios/elastic_shared_r13.py:130-144 | The ranking lists each trained resource once, the higher uses-per-byte ratio first, at equal ratios the smaller layer and expert |
| PinRanking.RankDependsOnCounts | phios/elastic_shared_r13.py:130-144 | The ranking depends only on how often each resource was used in training |
| PinRanking.SelectPins | phios/elastic_shared_r13.py:292-303 | The greedy loop pins a resource exactly when a pin is left and its bytes fit after the better-ranked pins; pins are distinct, few enough and within capacity |
| PinRanking.GreedyUnique | phios/elastic_shared_r13.py:294-303 | Two pin lists that meet the greedy rule for one ranking select the same ranked resources |
| PinRanking.PinsDependOnCounts | phios/elastic_shared_r13.py:292-303 | Trainings that use each resource equally often pin the same resources in the same order |
| Headroom.TopMajorises | phios/elastic_shared_r13.py:241-247 | Any eight entries of a size vector weigh at most its eight largest |
| Headroom.TopAttained | phios/elastic_shared_r13.py:241-247 | Some distinct positions, at most eight, hold entries that sum to exactly that |
| SharedReview.LargestIsHeaviest | phios/elastic_shared_r13.py:241-247 | The reserve is exactly the weight of the heaviest group of at most eight distinct experts of one declared layer: one weighs as much, none more |
| SharedReview.HeadroomSuffices | phios/elastic_shared_r13.py:241-302 | Pins kept below the headroom leave room for every group a validated capture can demand |
| SharedReview.ReplayHoldout | phios/elastic_shared_r13.py:321-326 | Both replays of a holdout succeed and count the same accesses |
| SharedReview.ReplayHoldouts | phios/elastic_shared_r13.py:317-352 | One certified row per holdout, summarised exactly |
| SharedReview.CheckLimits | phios/elastic_shared_r13.py:229-237 | The access limits are applied per holdout and in total |
| SharedReview.SummaryPartition | phios/elastic_shared_r13.py:326-345 | Lower, equal and higher partition the holdouts and the worst delta is attained and least |
| SharedReview.SummaryMeans | phios/elastic_shared_r13.py:326-360 | Each count is of the holdouts on which the pinned replay stages fewer, as many or more bytes, each total the sum over the rows, the worst delta the least saving of any row |
| SharedReview.Evaluate | phios/elastic_shared_r13.py:207-367 | The review succeeds on exactly the reviewable captures; it is held, naming the weight of the heaviest group any layer can route, exactly when that overflows capacity less reserve; otherwise the pins are the greedy choice by uses per byte from what is left and every holdout has its certified row |
| ShadowReplays.UniformReplay | phios/elastic_router_r10.py:143-171 | With one expert size and a spare slot nothing is held or bypassed and staged bytes are pins plus misses times the size |
| ShadowReplays.PinnedResources | phios/elastic_router_r10.py:143-164 | The resources flagged as pinned are the sorted pins, accessed or not |
| HoldoutCensus.Bridge | phios/elastic_router_r10.py:121-171 | Fails only on bad arguments or a trace past the access and resource caps, and otherwise returns the R9 review of the holdout |
| HoldoutCensus.LearnedAreTop | phios/elastic_holdout_r11.py:38-42 | The learned pins are the most used training experts in order, more uses first and the smaller id at equal uses, as many as asked for or all there are |
| HoldoutCensus.LearnDependsOnCounts | phios/elastic_holdout_r11.py:38-42 | Learning sees only training frequencies |
| HoldoutCensus.SlotsIsQuotient | phios/elastic_holdout_r11.py:94 | Counting slots one size at a time is the floor division, and the slots fit |
| HoldoutCensus.PinLimitIs | phios/elastic_holdout_r11.py:94 | The pin limit is the largest number asked for that leaves one slot free |
| HoldoutCensus.LearnedPinsFit | phios/elastic_holdout_r11.py:68-96 | Pins learned under the slot limit are valid for the bridge and leave one slot free |
| HoldoutCensus.CellIsSound | phios/elastic_holdout_r11.py:118-150 | Every completed pair of replays is fully cacheable, and its byte difference is the size times the extra hits, less the pins |
| HoldoutCensus.ReplayPair | phios/elastic_holdout_r11.py:112-140 | The pair fails exactly when the trace passes the caps; its pairing checks cannot fire |
| HoldoutCensus.EvaluateLayer | phios/elastic_holdout_r11.py:45-203 | Held exactly below two slots; otherwise the pins are the most used training experts up to the slot limit, every holdout has its cell in order and the sums are the sums of the cells |
| HoldoutCensus.TotalsPartition | phios/elastic_census_r12.py:161-198 | Improved, unchanged and regressed partition the cells; the byte totals differ by the extra hits less the pins |
| HoldoutCensus.AllImprovedIff | phios/elastic_census_r12.py:161-206 | All cells count as improved exactly when each pinned replay stages fewer bytes, as regressed when each stages more |
| HoldoutCensus.LayersAddUp | phios/elastic_census_r12.py:184-212 | Layers are lower, equal or higher by the bytes their holdouts save together, and the three counts partition them |
| HoldoutCensus.AddLayer | phios/elastic_census_r12.py:135-193 | The census re-checks of every cell hold and each accumulator stays the sum over the cells so far |
| HoldoutCensus.CountLayers | phios/elastic_census_r12.py:112-198 | The layer loop visits layers times holdouts cells and its figures are their sums |
| HoldoutCensus.TakeCensus | phios/elastic_census_r12.py:50-229 | The census fails exactly when its inputs are refused; every figure is the sum over all layer and holdout cells |
| BubbleGraph.CycleSearch.Visit | phios/elastic_runtime.py:170-180 | The recursive visit terminates, fails only when it has closed a cycle, and finishes bubbles after their dependencies |
| BubbleGraph.CycleSearch.Run | phios/elastic_runtime.py:181-182 | The search over all bubbles succeeds if and only if the graph has no cycle, and its finish order is topological |
| BubbleGraph.OrderedIsAcyclic | phios/elastic_runtime.py:165-182 | A graph with a topological order has no cycle |
| BubbleGraph.Checked | phios/elastic_runtime.py:147-183 | A snapshot is refused exactly when malformed or cyclic |
| ResidencyAdvisor.RequiredIsLeast | phios/elastic_runtime.py:192-200 | The required set is closed under dependencies and least among closed sets holding every demanded or pinned bubble |
| ResidencyAdvisor.Close | phios/elastic_runtime.py:192-200 | The worklist computes exactly that least closed set |
| ResidencyAdvisor.AdmitWarm | phios/elastic_runtime.py:219-230 | The greedy loop assigns each optional bubble its target and adds up the admitted warm memory |
| ResidencyAdvisor.ColdNeverFits | phios/elastic_runtime.py:223-230 | A prefetch left cold fits no better at the end than when it was considered |
| ResidencyAdvisor.PlanAddsUp | phios/elastic_runtime.py:202-237 | An advisory plan keeps both budgets and its RAM total is what its suggestions cost one by one |
| ResidencyAdvisor.RunsExactlyRequired | phios/elastic_runtime.py:212-235 | A plan that is not held has one row a bubble; the rows suggested active or pinned are exactly the least closed set, and the pinned rows exactly the pinned bubbles |
| ResidencyAdvisor.ColdCannotBeAdded | phios/elastic_runtime.py:223-230 | No row a plan leaves cold for want of memory could still be warmed on top of the finished plan |
| ResidencyAdvisor.AdviseGraph | phios/elastic_runtime.py:192-237 | On a checked graph the advisor returns the plan the graph determines |
| ResidencyAdvisor.PlanHasMeaning | phios/elastic_runtime.py:192-237 | A prefetch outside the least closed set is warmed exactly when its memory fits on top of the mandatory total and the warmed prefetches of higher priority, or equal priority and smaller id; the plan is held exactly when the mandatory totals overflow |
| ResidencyAdvisor.Advise | phios/elastic_runtime.py:186-237 | Refused exactly for malformed or cyclic snapshots; otherwise every row of the plan means what the row above says, ids in dictionary order |
| BubbleGraph.StringLessIff | phios/elastic_runtime.py:220-235 | Ids compare by their first difference, a proper prefix being smaller |
| ResidencyAdvisor.OrderIndependent | phios/elastic_runtime.py:219-248 | Permuting bubbles or dependencies changes neither the plan nor the cycle verdict |
| CuriosityLineage.AppendsKeepHistory | phios/state_io.py:175-209 | No run of appends rewrites a row, repeats a digest or drops an artifact |
| CuriosityLineage.ArtifactStore.Artifacts | phios/curiosity_store.py:381-398 | Reading raises exactly when a digest repeats |
| CuriosityLineage.ArtifactStore.GetArtifact | phios/curiosity_store.py:413-424 | Lookup finds an artifact exactly when its digest is stored |
| CuriosityLineage.ArtifactStore.AppendLine | phios/state_io.py:175-209 | A row is added exactly when none has its digest, nothing changes exactly when the one row that has it is the artifact itself, and anything else is refused |
| CuriosityLineage.ArtifactStore.AppendArtifact | phios/curiosity_store.py:400-411 | An artifact is added once and retries change nothing |
| CuriosityLineage.AncestorSearch.Visit | phios/curiosity_store.py:461-471 | The visit terminates on any parent graph and lists each newly reached known artifact after its parents, cycles apart |
| CuriosityLineage.AncestorSearch.Complete | phios/curiosity_store.py:461-473 | With no call open, all known ancestors reachable through known artifacts are listed |
| CuriosityLineage.ArtifactStore.Lineage | phios/curiosity_store.py:444-473 | The result holds each known ancestor exactly once, the queried artifact last, and parents before children unless they share a cycle |
| CuriosityLineage.AcyclicLineageIsOldestFirst | phios/curiosity_store.py:444-473 | In a store without cycles every known parent precedes its child |
| CuriosityLineage.LineageEmptyIff | phios/curiosity_store.py:450-452 | A lineage is empty exactly for an artifact the store does not hold |
| AuthorityEpoch.NextKnownTransition | phios/authority_epoch.py:122-146 | The least future effect time or active-grant expiry, or none |
| AuthorityEpoch.ConstantUntilTransition | phios/authority_epoch.py:122-146 | Grants, applied events and active grants do not change before the next known transition |
| AuthorityEpoch.TransitionChanges | phios/authority_epoch.py:122-146 | At that transition they do change |
| AuthorityEpoch.Replay | phios/mandala/authority_projection.py:139-149 | The replay loop keeps for each permission the grant that governs it, and the events applied |
| AuthorityEpoch.CheckOrder | phios/mandala/authority_projection.py:124-134 | Accepts exactly histories whose effect times follow the sequence and whose permissions lie within the ceiling |
| AuthorityEpoch.Build | phios/authority_epoch.py:317-398 | Succeeds on exactly the consistent histories, describes their authority at the observation, and its own validation never fails |
| AuthorityEpoch.EpochIsDetermined | phios/authority_epoch.py:317-398 | A history has one epoch however its events are listed |
| EnforcementProfile.BuildSucceedsIff | phios/enforcement_profile.py:564-575 | A profile forms exactly when the effects are canonical, rule ids distinct, scopes within the declared effects and "none" has no rules, in whatever order the rules are given |
| EnforcementProfile.DerivedSetsPartition | phios/enforcement_profile.py:481-522 | Enforced and unenforced effects split the declared ones, unmapped effects are unenforced, and completeness means every effect lies in some rule |
| ActionLease.IssueSucceedsIff | phios/action_lease.py:310-411 | Issuing succeeds exactly under conditions stated on its inputs, for any profile and intent; the lease's own validation adds only that acknowledged effects are declared ones |
| ActionLease.IssuedWithinEpoch | phios/action_lease.py:362-411 | An issued lease keeps within its epoch's grants and transition |
| ActionLease.UsableExactlyOnInterval | phios/action_lease.py:628-677 | A valid lease is usable exactly once, under its own epoch, on the half-open interval it names |
| ActionLease.NeverRevived | phios/action_lease.py:650-668 | Expiry and consumption are never undone as time and uses grow |
| ActionLease.LeaseWithinGrants | phios/action_lease.py:382-393 | While a lease is usable the history its epoch describes still grants all it carries, and nothing known changes before it ends |
| ActionLease.UsableUnderCurrentHistory | phios/action_lease.py:628-677 | If a lease is usable under the epoch of the history known now, that is the epoch it was issued under and that history grants all it carries: no later revocation or expiry is missed |
| HashChain.SharedDigestFixesPast | phios/macro_authorization_decision.py:741-772 | Two linked histories sharing a digest anywhere agree on everything up to it |
| AuthorityRequest.RequestService.ReceiptBySha | phios/macro_authority_request.py:737-750 | The first receipt with the digest, or none |
| AuthorityRequest.RequestService.MatchingAdmissionReceipt | phios/macro_authority_request.py:702-735 | The newest eligible receipt under the current revision and profile, and whether the target has any receipt |
| AuthorityRequest.RequestService.FindForAdmission | phios/macro_authority_request.py:752-781 | Every stored request is validated and at most one may name the admission |
| AuthorityRequest.RequestService.ValidProvenance | phios/macro_authority_request.py:783-821 | A request is accepted exactly when its receipt exists, allows and matches it |
| AuthorityRequest.RequestService.Readiness | phios/macro_authority_request.py:518-614 | Each state stands for its rows: the policy's answer, no receipt, none that admits, the one request of the newest admitting receipt, or that receipt without one; it raises only for a missing policy or a damaged row |
| AuthorityRequest.AdmitsMeans | phios/macro_authority_request.py:702-735 | A receipt admits exactly when it is eligible, allows, and carries the target and the policy's revision and profile |
| AuthorityRequest.RequestService.Create | phios/macro_authority_request.py:616-682 | Appends one request or changes nothing: on success it carries the reviewed receipt's digest, revision and profile, the policy's intent and the configured requester; not ready and changed are refused for just those causes |
| AuthorityRequest.CreatedIsSound | phios/macro_authority_request.py:632-682 | A filed request repeats the receipt its digest names and is the only one for it |
| AuthorityRequest.RequestsReadable | phios/macro_authority_request.py:752-768 | The "multiple requests" error is unreachable |
| AuthorityRequest.CurrentRequestMatchesPolicy | phios/macro_authority_request.py:518-597 | A request found current was filed under the very revision and profile the policy allows now |
| AuthorizationDecision.DecisionService.ReadChain | phios/macro_authorization_decision.py:741-772 | The reader accepts exactly the linked histories of the request with nothing after a terminal decision |
| AuthorizationDecision.DecisionService.Readiness | phios/macro_authorization_decision.py:537-621 | Final exactly when the newest decision about the newest, current request approves or denies, granted exactly when it approves, ready when it is a hold or there is none, with the digests of those rows |
| AuthorizationDecision.DecisionService.Record | phios/macro_authorization_decision.py:623-719 | Appends one entry or changes nothing: on success it follows the newest decision in number and digest, copies the request and carries the configured authorizer and what was decided; not ready and changed are refused for just those causes |
| AuthorizationDecision.DecisionRecorded | phios/macro_authorization_decision.py:681-719 | A recorded entry extends one history and leaves every other as it was |
| AuthorizationDecision.ChainsReadable | phios/macro_authorization_decision.py:741-772 | Every history the writer produces is accepted by the reader |
| AuthorizationDecision.SameHeadSameHistory | phios/macro_authorization_decision.py:741-772 | Two accepted histories with the same head digest are the same history of the same request |
| CapabilityBinding.BindingService.Readiness | phios/macro_capability_binding.py:959-1089 | Reports ready exactly when an approval in force has one mapping, evidence that meets it and no binding, already-exists exactly when it has the one known binding, with the digests of those rows; each refusal stands for the decision, mapping or evidence that causes it |
| CapabilityBinding.BindingReadinessIff | phios/macro_capability_binding.py:959-1089 | The same equivalence of the specified readiness, on every ledger it can read |
| CapabilityBinding.BindingService.CurrentApproved | phios/macro_capability_binding.py:1237-1258 | Returns a decision exactly when it approves, is the newest about the target's newest request, repeats that request, and the request is the one the policy's current admission stands behind |
| CapabilityBinding.ApprovedIff | phios/macro_capability_binding.py:1237-1258 | Whatever is returned as approved is in force, and nothing in force is missed |
| CapabilityBinding.BindingService.Parse | phios/macro_capability_binding.py:1332-1367 | A stored binding is accepted exactly when its contract holds and the registry has exactly one mapping of its digest, which it repeats |
| CapabilityBinding.BindingService.FindForDecision | phios/macro_capability_binding.py:1318-1330 | A binding is found exactly when it is the only one of its decision and the registry knows it; none is reported only if no row names the decision |
| CapabilityBinding.BindingService.Latest | phios/macro_capability_binding.py:1211-1224 | Returns the newest binding of the target, every binding of the target having been accepted |
| CapabilityBinding.BindingService.Create | phios/macro_capability_binding.py:1091-1209 | Appends one binding or changes nothing: on success it is of the reviewed decision and mapping and carries, field by field, the decision, the mapping, the observation and its payload; not ready and changed are refused for just those causes |
| CapabilityBinding.BindingCreated | phios/macro_capability_binding.py:1149-1209 | A created binding is known to the registry, rests on a stored approval and is the first for its decision |
| CapabilityBinding.BindingsReadable | phios/macro_capability_binding.py:1318-1367 | The "multiple bindings" and unknown-mapping errors are unreachable |
| CapabilityBinding.ReadyIsBindable | phios/macro_capability_binding.py:1091-1209 | A ready binding can be created: the unsupported-capability error cannot fire |
| ActionLeaseService.LeaseService.PolicyForBinding | phios/macro_action_lease_service.py:243-254 | Finds a policy exactly when it is the only one covering the binding |
| ActionLeaseService.LeaseService.FindForBinding | phios/macro_action_lease_service.py:788-805 | Finds a record exactly when it is the only one of its binding and valid; none is reported only if no row names the binding |
| ActionLeaseService.LeaseService.ReadTrusted | phios/macro_action_lease_service.py:632-786 | READY with a binding, policy, profile and epoch exactly when that binding is the newest and current, that policy alone covers it, its rules map and acknowledge every effect, the epoch is current and grants all, and no lease names it; each refusal stands for the row, policy or epoch that causes it |
| ActionLeaseService.LeaseReadyIff | phios/macro_action_lease_service.py:632-786 | The same equivalence of the specified state, on every ledger it can read |
| ActionLeaseService.LeaseService.Issue | phios/macro_action_lease_service.py:529-618 | Appends one record or changes nothing: on success it is of what is leasable and was reviewed, carries the policy's principal, issuer and digest, and ends at the latest moment that neither the policy's window nor the next known transition excludes |
| ActionLeaseService.UntilIsLatest | phios/macro_action_lease_service.py:582-586 | The end chosen is the latest moment both bounds allow |
| ActionLeaseService.ReadyMeans | phios/macro_action_lease_service.py:632-786 | Everything a ready state rests on |
| ActionLeaseService.ReadyIsIssuable | phios/macro_action_lease_service.py:582-618 | READY with the reviewed digests cannot fail: the window is non-empty, no longer than the policy allows and not past the next transition |
| ActionLeaseService.LeaseIssued | phios/macro_action_lease_service.py:582-618 | An issued record rests on one stored binding, repeats it, keeps within its epoch and is the first for that binding |
| ActionLeaseService.LeasesReadable | phios/macro_action_lease_service.py:788-805 | The "multiple ActionLeases" error is unreachable |
| ActionLeaseService.LeaseReadinessFaults | phios/macro_action_lease_service.py:632-786 | Lease readiness raises only when policy, evidence or an ambiguous policy registry does |
| AuthorityRuns.StepKeepsInvariant | phios/spine/ledger.py:535-720 | Every locked step of every service keeps the chain's invariant and only appends |
| AuthorityRuns.RunKeepsInvariant | phios/spine/ledger.py:535-720 | The invariant holds on every ledger a run can reach |
| AuthorityRuns.LeaseProvenance | phios/macro_action_lease_service.py:557-618 | Each lease traces through a binding, an approving decision and a request to an eligible admission receipt with the same target, intent and policy digests |
| AuthorityRuns.TraceUnique | phios/macro_action_lease_service.py:557-618 | A lease has one such trace |
| AuthorityRuns.AtMostOnce | phios/macro_capability_binding.py:1318-1330 | At most one request per admission, one binding per decision and one lease per binding |
| AuthorityRuns.NeverCorrupt | phios/macro_authority_request.py:752-821 | On reachable ledgers no read-back check ever raises |
| AuthorityRuns.HistoriesAccepted | phios/macro_authorization_decision.py:741-772 | Every request's history is accepted and has the form HOLD* (APPROVE or DENY)? |
| AuthorityRuns.HistoriesOnlyExtend | phios/macro_authorization_decision.py:658-719 | Later steps only extend ledger files and histories, and a terminal history stays as it is |
| AuthorityRuns.IssuedUnderCurrentPolicy | phios/macro_action_lease_service.py:632-665 | When a lease is issued the policy in force allows it under exactly the revision and profile of its admission |
| AuthorityRuns.LeasesNeverOutliveGrants | phios/action_lease.py:628-677 | For every lease of every run and every history known later: if the lease is usable, unused, under that history's epoch, the history grants all it carries |
| AuthorityProgress.RequestReadyIff | phios/macro_authority_request.py:518-614 | Filing is ready exactly when the policy allows it, a receipt matches, and no request names the newest such receipt |
| AuthorityProgress.ReadyIsFilable | phios/macro_authority_request.py:632-682 | A ready request can be filed |
| AuthorityProgress.FiledIsDecidable | phios/macro_authorization_decision.py:537-621 | A filed request is the latest and current one and open for a first decision |
| AuthorityProgress.ReadyIsRecordable | phios/macro_authorization_decision.py:623-719 | On an open history any decision can be recorded and becomes the standing of the request |
| AuthorityProgress.ApprovedIsBindable | phios/macro_capability_binding.py:959-1209 | An unbound approval with one mapping and evidence that meets it is ready, and binding it yields exactly the binding its inputs determine |
| AuthorityProgress.BoundIsCurrent | phios/macro_capability_binding.py:1062-1079 | A new binding is the latest and current one of its target |
| AuthorityProgress.BoundIsLeasable | phios/macro_action_lease_service.py:632-786 | A current binding without a lease is ready when policy, enforcement map and epoch support it |
| AuthorityProgress.AdmissionReachesLease | phios/macro_action_lease_service.py:529-618 | From any reachable ledger, in a world that supports it, filing, approving, binding and issuing succeed in turn, each adding one row, and end in a lease |
| GhostWalkRecorder.Recorder.Start | phios/macro_ghostwalk.py:725-742 | A session starts once per id |
| GhostWalkRecorder.Recorder.RecordClick | phios/macro_ghostwalk.py:744-784 | Fails only for an unknown session and otherwise extends that session's chain alone |
| GhostWalkRecorder.Recorder.Load | phios/macro_ghostwalk.py:894-930 | Accepts exactly the well-formed observation chains |
| GhostWalkRecorder.WalksLoad | phios/macro_ghostwalk.py:882-930 | Every recorded session loads |
| GhostWalkRecorder.SameHeadSameWalk | phios/macro_ghostwalk.py:894-930 | Two accepted walks ending in the same digest are one walk of one session |
| CuriosityBroker.Broker.ExpireLocked | phios/curiosity_authority_broker.py:782-795 | Exactly the listed pending requests past their time lapse |
| CuriosityBroker.Broker.CreateRequest | phios/curiosity_authority_broker.py:455-468 | Adds the request, evicting the oldest settled one when full, or refuses |
| CuriosityBroker.Broker.GetRequest | phios/curiosity_authority_broker.py:470-476 | What is read as pending has not expired |
| CuriosityBroker.Broker.ClaimRequest | phios/curiosity_authority_broker.py:478-541 | A claim is made exactly when the proof is genuine, at most ninety seconds old and five ahead, its request listed, pending and unexpired, and both payload digest and principal match; each refusal names what is missing; the inner expiry branch is dead |
| CuriosityBroker.ClaimsAreApproved | phios/curiosity_authority_broker.py:508-541 | In every run each claim was brought about by a genuine, fresh approval of that very request, its payload and the broker's principal |
| CuriosityBroker.Broker.FinishRequest | phios/curiosity_authority_broker.py:543-564 | The claimed object, listed or not, becomes succeeded, held or failed as the execution ended, and nothing else changes |
| CuriosityBroker.StepKeepsLifecycle | phios/curiosity_authority_broker.py:455-564 | Every step keeps the lifecycle and only advances requests |
| CuriosityBroker.Run | phios/curiosity_authority_broker.py:455-564 | Under any interleaving at most 32 requests are listed, none pending is evicted, each is executed at most once and only if claimed before its expiry |
| CuriosityBroker.RunAdvances | phios/curiosity_authority_broker.py:508-564 | Claims are never rewritten and terminal statuses never change |
| CuriosityBroker.CreateRefusedIff | phios/curiosity_authority_broker.py:455-467 | Creation is refused exactly when the table is full and its oldest entry is still pending; otherwise only that entry leaves |
| CuriosityBroker.OldestIsFirst | phios/curiosity_authority_broker.py:458-461 | Among requests of one moment the first listed counts as oldest |
| CuriosityBroker.ApprovedMayLeave | phios/curiosity_authority_broker.py:457-467 | On any full table whose oldest entry is approved and executing, the next creation drops it and its outcome is kept on the object alone |
| CuriosityBroker.ApprovedLeavesOnSomeRun | phios/curiosity_authority_broker.py:455-564 | Such a run exists for every broker: thirty-two creations, the first approved, one more creation, and the execution ends |
| CuriosityBroker.LeaseFor | phios/curiosity_authority_broker.py:609-679 | Building the epoch, profile and lease of an approval never fails, and the lease ends with the grant |
| CuriosityBroker.ApprovalEpoch | phios/curiosity_authority_broker.py:617-635 | The approval's epoch grants exactly the permission until the lease's end |
| CuriosityBroker.ClaimedLeaseUsable | phios/curiosity_authority_broker.py:494-506 | An approval not dated ahead leaves at least thirty usable seconds after the claim; one dated ahead is not yet usable |
| CuriosityBroker.AheadIsClaimedNotYetUsable | phios/curiosity_authority_broker.py:494-541 | On the run of one creation and one approval at the same moment, the claim is made exactly for approvals at most ninety seconds old and five ahead, and for each dated ahead the lease is refused as not yet valid |

## Left out

- File reading, JSON decoding, command lines, HTTP handlers, key files and HMAC computation: input, output and foreign calls. Whether an approval proof is genuine is a parameter.
- SHA-256 and canonical JSON: digests are collision-free functions.
- Schema versions, identifier patterns, field-set checks and the flags that must stay false: each is settled by reading one branch.
- Footprint manifests of R13 (`_footprints`): sizes are a positive function on resources.
- Percentages and `round`: descriptive statistics over floats.
- `related`, `search` and return pointers of the artifact store: text scoring.
- The policy admission service beyond the receipts it records, the epoch provider beyond its contract, and the lease execution that follows issuance: only their interface is used.
- Evidence behind a binding is a parameter: the binding service's search through transition receipts and observations for it, and the desktop payload it forms, are one lookup and one digest.
- Races between two service instances on one ledger: the source's locks are per instance.
- A policy or evidence source that changes between two calls inside one locked step: each step sees one world.
- GhostWalkRecorder.WalksLoad: is about calls made one at a time, as `GhostWalkRecorder` takes no lock; two concurrent `record_click` calls on one session can write the same number twice.
- GhostWalkRecorder.Recorder.RecordClick: likewise reads and appends in one step.
- CuriosityLineage.ArtifactStore.Lineage: does not model Python's recursion limit, which a very deep parent chain can meet.
- CuriosityLineage.ArtifactStore.AppendArtifact: the read and the locked append are one step here; `CuriosityLineage.AppendsKeepHistory` covers appends by several writers.
- CuriosityBroker.Broker.CreateRequest: takes the random request id to be fresh.
- CuriosityBroker.Broker.FinishRequest: keeps the status of an execution, not its receipt or free-text reason.
- HoldoutCensus.EvaluateLayer: reports counts and bytes but not the frozen-policy digest.
- ResidencyAdvisor.Advise: keeps one refusal kind for all malformed snapshots and does not carry the observed state each row repeats.
