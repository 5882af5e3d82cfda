# Optical path planner: model and proofs

This project models the planning core of a vendor-neutral optical path planner and proves
properties of the model with Dafny. The planner takes a sealed snapshot of published topology
evidence and a request, searches for routes through ports, spans and cross-connects, and answers
with plans and a verdict: FEASIBLE, INFEASIBLE, INDETERMINATE, UNSUPPORTED, REFUSED or CANCELLED.

The central idea is to set the label-correcting search, with its arena, queue, buckets and
pruning, against a specification that knows none of them. `Routes.Replay` folds one `Rules.Step`
over an arc sequence and yields a label or nothing; `Routes.Reaches` says that a port-simple arc
sequence within every limit replays to the destination. Everything the search, the plan builder
and the planner report is stated in these terms.

How the modules follow the program:

- `Base`, `Network`, `Rules`, `Routes`, `Publication`: evidence, snapshots, requests, the step
  rules, and the reference meaning of a route.
- `SearchModel`, `SearchInvariant`, `SearchTheorems`, `SearchOptimality`, `SearchResults`: the
  search as a state machine on values, its invariant, and what every run of it reports.
  `SearchEngine` is the imperative search and is proved to compute exactly that state machine's
  outcome. `SearchLoss` says for every search, on or off the fragment where it is complete, where
  a route can get lost; `SearchLimits` and `RestartLimits` show that each hypothesis of
  completeness and optimality is needed.
- `PlanModel`, `PlanBuilder`, `PlanTheorems`, `Cycles`: assembling plans, and cycle stripping,
  which is proved to leave a route at least as good as the walk it started from.
- `Validation`, `Revalidation`: binding checks and the re-derivation of a plan's decisions.
- `Ordering`, `PlannerRules`, `Planner`, `PassResults`, `PlannerResults`: request validation, the
  planning passes, disjointness, and the verdicts. `PlannerLimits` shows where they fall short.
- `Canonicalise`, `Topology`, `SnapshotBuilder`: sealing a snapshot.
- `Arithmetic`, `Bits`, `SlotMask`: spectrum bit sets as words and as sets.
- `Compression`, `Sha256`: streaming SHA-256 against FIPS 180-4.
- `Protocol`, `Service`: incarnations, epochs, the fence and evidence freshness, with crashes.
- `Codec`: tokens and lines.

Modelling choices that a reader should know:

- OSNR is kept as the linear noise it stands for, and an OSNR floor as the largest noise that
  meets it. Losses and noises are real numbers.
- A few additions are unchecked in the source. The start cost wraps in the model as it does
  there (src/search.cpp:546); every later cost addition is checked. The builder's sums wrap.
- `Exact` names the fragment on which the search is complete and optimal: no cross-connect that
  converts or regenerates can be used, and no declared member limit is low enough to bind within
  the hop limit. Soundness is proved without it.
- Cancellation is a function from turns to booleans, file-system failures are flags given to each
  operation, and clocks, random ids and sockets do not appear.

Where the code does less than its comments or documentation say, the model follows the code:

- Removing a cycle can hurt once a route may convert or regenerate (README.md:80-82,
  src/search.cpp:135-139). At the end of a given route an arc is harmless exactly if it keeps the
  wavelength, or restarts it without offering a new channel or a new segment:
  `SearchLimits.InflatesOnRoute`. `SearchLimits.InflatesExactly` is the condition for an arc to be
  harmless to every label that fits its port; every label of a route fits, not the other way
  round. `PlannerLimits.WrongInfeasible` is a complete snapshot on which the INFEASIBLE verdict is
  wrong, `RestartLimits.RestartsLoseOptimum` one on which a claimed optimum is. Without such arcs
  the claim holds for every walk: `Cycles.StripReplaces`.
- Member limits are not part of a label, so pruning can lose the only route within them, or claim
  a proven optimum that is not one: `SearchLimits.MemberLimitsLoseRoutes`,
  `SearchLimits.MemberLimitsLoseOptimum`.
- These two are the only ways to lose a route: `SearchLoss.ParetoOrLost`,
  `SearchLoss.OptimalOrLost`, `PlannerResults.InfeasibleMeansLost`.
- Domain-disjoint passes list an excluded domain twice, and then stop without a further search, if
  a plan found reports a domain that the request excludes: `PassResults.RefusedExactly` is the
  exact condition, `PlannerLimits.RepeatedDomainStops` an instance with two disjoint routes.
- A conflicting cross-connect record never costs a route its proof, a conflicting span record
  always does: `Publication.CrossConflictsIgnored`, `Publication.SpanConflictUnproves`.
- Only an unpublished OSNR floor of a reach profile makes a segment unprovable; unpublished
  distance, span and loss limits merely do not bind. `Publication.ProvenExactly` is the exact
  condition for a proof.
- The "total" distance, span and loss ceilings bound each transparent segment, because the
  accumulators restart at a regeneration: `PlanTheorems.PlanAgrees`.
- Excluded failure domains are looked up on arcs and on the source port only.
- The slot reported inside one wavelength run may change: `PlanTheorems.RunKeepsSlot` says exactly
  when it does not.
- Spans and cross-connects are sorted by endpoints but deduplicated by id, so two different
  records of one id can both survive unflagged: `Topology.SpanConflicts`,
  `SnapshotBuilder.UnseenDuplicate`.
- Epochs are strictly increasing only while the incarnation record stays readable, and the
  continuity flag does not always tell: `Protocol.RisesExactly`, `Protocol.ContinuityMayLie`. The
  flag lies exactly when the start finds no record, or one that half-finished starts wrote after
  a loss: `Protocol.LiesExactly`, `Protocol.ContinuityLiesExactly`.
- A Shutdown frame on a connection is answered before the epoch fence: `Protocol.StaleFenced`.
- A restored snapshot is marked with the incarnation that restores it, not the one that produced
  it (src/service.cpp:387); the model keeps only that it is restored.

## Model

| member | source | states |
|---|---|---|
| Base.AddChecked | src/canonical.cpp:56-61 | fails exactly when the 64-bit sum would overflow, and otherwise agrees with the wrapping sum |
| Rules.StepMonotone | src/search.cpp:640-1081 | extension monotonicity: an arc open to a dominated label is open to its dominator, and the results share a bucket in dominance order |
| Rules.StepRaisesKey | src/search.cpp:689-699 | every step strictly raises the (cost, hops, regenerations) key, counts one hop within the limit, leaves a channel and never creates a proof |
| Rules.StepInflates | src/search.cpp:135-140 | an arc that keeps the wavelength only makes a label worse, so a loop of such arcs never helps |
| Routes.FinalPort | src/search.cpp:464-548 | a replayed label stands on the last port visited; hops is the route length within the limit, regenerations are within theirs, and a channel is left |
| Routes.ReplayPrefix | src/search.cpp:1103-1123 | prefixes of replayable routes replay, with keys no larger and proofs no weaker |
| Routes.AdmissiblePrefix | src/search.cpp:684-715 | prefixes of admissible routes are admissible, member limits included |
| Publication.ProvenExactly | src/search.cpp:486-535 | a route is proven exactly when everything along it is published: source, every arc and port, and a profile with an OSNR floor for each span's segment |
| Publication.CrossConflictsIgnored | src/search.cpp:650-654 | marking any cross-connects as conflicting changes no route's label, not even its proof |
| Publication.SpanConflictUnproves | src/search.cpp:962-967 | a route over a span with conflicting records is never proven |
| SearchInvariant.OnPathIsVisited | src/search.cpp:190-195 | walking a label's parents finds exactly the ports its route visits |
| SearchInvariant.ExtendSound | src/search.cpp:640-831 | label soundness: a pushed label equals the replay along its parent chain, which stays port-simple and within limits |
| SearchInvariant.DominatedEvictsNothing | src/search.cpp:586-612 | a label that some retained label dominates evicts no retained label of its bucket |
| SearchInvariant.EvictedHasSameKey | src/search.cpp:561-616 | pops come in key order, so an evicted label has exactly its evictor's key |
| SearchInvariant.SettleKeeps | src/search.cpp:613-633 | settling a label keeps the search invariant: sound labels, ordered frontier, antichain buckets, listed destinations |
| SearchInvariant.PushKeeps | src/search.cpp:450-462 | pushing a sound child keeps the search invariant |
| SearchTheorems.TurnKeeps | src/search.cpp:561-1083 | a whole turn of the loop keeps the invariant, and every expanded label has all its arcs tried unless the search was cut short |
| SearchResults.RunKept | src/search.cpp:561-1083 | every reachable state of every search keeps the invariant; with the search function's termination measure, every search ends |
| SearchResults.SearchSound | src/search.cpp:1103-1123 | every path of every search, cut short or not, is an admissible route with the reported cost, hops, regenerations and proof, and paths come in key order |
| SearchOptimality.AncestorDominates | src/search.cpp:135-140 | on the exact fragment the label a chain had at an earlier port dominates every later one, under the same profile |
| SearchOptimality.LoopIsCovered | src/search.cpp:873-876 | on the exact fragment, when the loop test refuses a dominating label an arc that the dominated one may take, the result is still dominated by a retained label: the one the chain had there before |
| SearchOptimality.BacktrackIsLoop | src/search.cpp:867-872 | going back over the span just used always returns to a port already on the path, so the short cut loses nothing the loop test would keep |
| SearchOptimality.CoveredOrPending | src/search.cpp:561-1083 | on the exact fragment, in every live state, each admissible route that meets the destination at most at its end is dominated by a retained label at its last port, or a waiting label dominates one of its prefixes |
| SearchOptimality.SmallerKeyIsSettled | src/search.cpp:572-582 | on the exact fragment a route to the destination whose key is below everything waiting is dominated by a retained destination label |
| SearchResults.SearchComplete | src/search.cpp:1089-1089 | completeness on the exact fragment: an exhausted search without paths leaves no admissible route, proven or not |
| SearchResults.SearchPareto | src/search.cpp:561-1123 | on the exact fragment a search that empties its frontier reports, for every admissible route, a path at least as good in every dimension |
| SearchResults.SearchOptimal | src/search.cpp:1125-1137 | optimality on the exact fragment: the first proven path has the least key of all proven admissible routes, even when the search stops on its key or is truncated |
| SearchResults.SearchRanked | src/search.cpp:1103-1123 | on the exact fragment every admissible route with a smaller key than the k-th path reported is dominated by an earlier one, for every k and whatever ended the search |
| SearchResults.OptimalOverWalks | README.md:80-82 | on the exact fragment the first proven path is least among all proven walks within the limits, loops allowed |
| SearchResults.StoppedHasDestination | src/search.cpp:577-582 | a search that stops on its key has settled a destination |
| SearchEngine.CompactBucket | src/search.cpp:586-607 | in-place compaction keeps exactly the labels that do not give way and finds whether the label is dominated |
| SearchEngine.Engine.PortOnPath | src/search.cpp:190-195 | the parent walk answers whether the route already stands on a port |
| SearchEngine.Engine.CountMembers | src/search.cpp:197-231 | the parent walk counts the members of a failure domain that the extended route uses |
| SearchEngine.Engine.TryArc | src/search.cpp:640-831 | trying one arc updates arena and frontier exactly as the step of the state machine |
| SearchEngine.Engine.Advance | src/search.cpp:561-1083 | one turn of the imperative loop is one turn of the state machine |
| SearchEngine.RunSearch | src/search.cpp:561-1139 | the imperative search computes exactly the outcome of the state machine, for every problem and cancellation |
| SearchLoss.ParetoOrLost | src/search.cpp:561-1123 | every search that empties its frontier, whatever the operations and limits, reports for each admissible route a path at least as good in every dimension, unless a retained label dominating a prefix of the route was refused its next step for a member limit, or for a loop on which a wavelength restarts |
| SearchLoss.EmptyMeansLost | src/search.cpp:1089-1089 | an exhausted search without paths can have missed an admissible route only in that way |
| SearchLoss.OptimalOrLost | src/search.cpp:1125-1137 | whenever a search claims a proven optimum, whether it emptied its frontier or stopped on its key, its first proven path has the least key of all proven admissible routes that were not lost in that way |
| SearchLoss.ExactLosesNothing | src/search.cpp:684-715 | on the exact fragment no state of a search loses anything in that way |
| SearchLimits.ReplayedFits | src/search.cpp:640-831 | the label of every route holds some channel, and only channels that its port can carry |
| SearchLimits.InflatesExactly | README.md:80-82 | among labels that hold some channels of their port, removing an arc is always harmless if and only if it keeps the wavelength, or is a conversion both of whose ports can carry one and the same channel only |
| SearchLimits.InflatesOnRoute | README.md:80-82 | at the end of a given route removing an arc is harmless if and only if it keeps the wavelength, or restarts it in place: it offers no channel the route does not hold, and, if it regenerates, the segment has no span yet and keeps its profile |
| SearchLimits.RestartsLoseRoutes | src/search.cpp:684-687 | with conversion or regeneration a search can end exhausted and empty on a complete snapshot that has an admissible route |
| SearchLimits.MemberLimitsLoseRoutes | src/search.cpp:702-715 | with a binding member limit a search can end exhausted and empty although an admissible route exists |
| SearchLimits.MemberLimitsLoseOptimum | src/search.cpp:1125-1137 | with a binding member limit a search can claim a proven optimum of cost 101 although a proven admissible route of cost 3 exists |
| RestartLimits.RestartsLoseOptimum | src/search.cpp:684-687 | with conversion or regeneration a search can claim a proven optimum of cost 101 although a proven admissible route of cost 12 exists |
| PlanTheorems.LowestIsLeast | src/spectrum.cpp:70-84 | the lowest slot is the least element of the channel set |
| PlanTheorems.DraftAgrees | src/search.cpp:1332-1530 | on a proven route the assembly never fails, and its port, profile, mask and totals are the replay's |
| PlanTheorems.PlanAgrees | src/search.cpp:1204-1593 | replay agreement: a proven route to the destination gives a plan with the route's cost, hops and regenerations; segments are dense, one more than the regenerations, add up from their spans, and keep their profile's limits and the request's ceilings |
| PlanTheorems.DraftExposure | src/search.cpp:1259-1300 | reported exposure is at most the member count the search checks, and equal to it when no express cross-connect leaves its node |
| PlanTheorems.PlanWithinLimits | src/search.cpp:1557-1564 | every plan of an admissible proven route meets every declared member limit |
| PlanTheorems.PlanReserves | src/search.cpp:1396-1400 | a plan reserves, span by span, the lowest slot that the route's label still has there |
| PlanTheorems.RunSlots | src/search.cpp:1347-1355 | within one wavelength run reported slots never go down, and the last one is usable on every span, cross-connect and port of the run |
| PlanTheorems.RunKeepsSlot | src/search.cpp:1347-1355 | two reported slots of one run are equal if and only if the first is still usable at the second |
| PlanTheorems.StartIsFree | src/search.cpp:1210-1218 | every slot of a channel at a usable start is inside the model and not blocked |
| PlanBuilder.BuildPlan | src/search.cpp:1204-1593 | the imperative builder computes the assembly that the theorems are about, failures included |
| Cycles.StripCycles | src/search.cpp:1170-1193 | on every input the result is port-simple and costs no more with no more hops; a connected walk keeps both ends and stays connected; port-simple input is unchanged; the loop computes the recursion that the next two rows are about |
| Cycles.StripReplaces | src/search.cpp:135-140 | from any walk the rules admit that neither converts nor regenerates, stripping leaves a port-simple route to the same port under the same profile, at least as good in every dimension and with no more members of any failure domain |
| Cycles.WalksNeedNoLoops | README.md:80-82 | the optimum over all walks without restarts is port-simple: a walk within the limits to the destination leaves an admissible route at least as good |
| Validation.ValidatePlanBindings | src/validate.cpp:80-141 | Valid exactly when version, seal, freshness, generations and digest all hold; the mismatches are exactly the sources that moved |
| Validation.RevalidatePlan | src/validate.cpp:143-339 | no failures exactly when every step and every segment reproduces; Valid and MissingEvidence exactly as the bindings and failures say |
| Validation.PortTextRoundTrip | src/validate.cpp:179-190 | a port key reads back from its text if and only if its node id has no colon and both ids are well formed |
| Revalidation.RoundTrip | src/validate.cpp:143-339 | a plan built from a proven route, revalidated on its own snapshot, reproduces every segment and every step but those of nodes that are not up |
| Revalidation.RoundTripValid | src/validate.cpp:143-339 | the report on such a plan is Valid, without failures, if and only if every node it names is up and the caller accepts the snapshot in case it was restored |
| Ordering.SortUnique | src/planner.cpp:82-86 | the result is strictly sorted, has no repetition and holds exactly the given ids |
| PlannerRules.ReachesRelaxes | src/planner.cpp:248-259 | a route of a request tightened by exclusions is a route of the original with the same label |
| PlannerRules.ReplayAvoids | src/search.cpp:850-858 | a replayed route uses no excluded span, no arc of an excluded domain and no excluded node |
| PlannerRules.PlanSpans | src/search.cpp:1376-1380 | every span step of a plan names a span of its route |
| PlannerRules.SourceNodeNamed | src/search.cpp:1295-1300 | a plan of a proven route names the source node |
| Planner.BuildCandidates | src/planner.cpp:286-306 | the loop collects exactly the plans that the specification of collecting names, and fails exactly when it does |
| Planner.CollectSound | src/planner.cpp:286-306 | the plans collected are distinct, within the budget, and each the plan of a proven path; collecting fails only where a path has no plan |
| Planner.CollectAll | src/planner.cpp:286-306 | while there is budget the plan of every proven path is collected |
| Planner.CollectFirst | src/planner.cpp:286-306 | the first plan collected is that of the first proven path |
| Planner.SortAscends | src/planner.cpp:307-307 | sorted plans are in the order of cost, hops and regenerations |
| Planner.FirstIsLeastBuilt | src/planner.cpp:286-307 | on the exact fragment the first plan of a pass has the least key of all proven admissible routes |
| Planner.ExtendExclusions | src/planner.cpp:43-80 | the exclusion lists only grow, by exactly the ids of the plan that the chosen disjointness withholds: its well-formed span ids, its domains, or the well-formed ids of its nodes and of its ports' nodes |
| Planner.OnePass | src/planner.cpp:267-328 | one pass reports its search faithfully: cancelled, optimal, no plan exactly when no path is proven, and nothing found exactly when exhausted, untruncated, pathless and covered; its plans are exactly the plans of its search's proven paths in their order until the budget is met, then sorted: distinct, in key order, backed, and all there are below the budget |
| Planner.PlanDisjoint | src/planner.cpp:246-340 | the candidates and the requests of their passes form a chain of ever tighter requests, each candidate backed and, on the exact fragment, least in its pass; every pass, the last one included, adds to the request's exclusions only what earlier candidates took, and all of it, each id once and no span that the request excludes itself; every pass but the last was searched to a proven path, and its candidate is the least plan of that search; the run ends with enough candidates, or with a pass whose request is refused, that is cancelled, cannot build a plan, or has no proven path, and if cancelled or unable to build keeps no candidate |
| PassResults.RefusedExactly | src/planner.cpp:255-263 | the request of the next pass is refused if and only if a list of exclusions is too long, or some candidate takes a node or a domain that the request itself excludes |
| PassResults.StopsShort | src/planner.cpp:246-340 | a run of passes that is neither cancelled nor unable to build a plan has fewer candidates than asked for if and only if some pass ends it, and then because its request is refused for one of those reasons or its search has no proven path |
| PassResults.SpanPassesAccepted | src/planner.cpp:255-263 | the request of a span-disjoint pass is refused if and only if the list of spans is too long: no pass excludes a span twice |
| PassResults.ExcludedDestinationOnce | src/planner.cpp:255-263 | if the destination port lies in a domain that the request excludes, domain-disjointness returns at most one candidate, because the second request lists that domain twice |
| PassResults.SourceDomainOnce | src/search.cpp:476-477 | if the source port lies in a failure domain, domain-disjointness returns at most one candidate, because the second pass excludes its own start |
| PlannerLimits.RepeatedDomainStops | src/planner.cpp:255-263 | a snapshot with two proven routes whose arcs lie in no failure domain, on which every domain-disjoint run stops after one candidate |
| Planner.CancelledIsLast | src/planner.cpp:275-280 | some search of a run of passes was cancelled if and only if the run was: no pass goes on after a cancelled one |
| Planner.SpanDisjointly | src/planner.cpp:66-72 | span-disjoint candidates share no span id |
| Planner.DomainDisjointly | src/planner.cpp:73-77 | no arc of a later domain-disjoint candidate belongs to a domain that an earlier one reports |
| Planner.NodeDisjointly | src/planner.cpp:49-65 | node-disjointness returns at most one candidate, because the source node is excluded after the first |
| Planner.ChainOrdered | src/planner.cpp:247-340 | on the exact fragment candidates of successive passes come in key order |
| Planner.FirstIsLeast | src/planner.cpp:247-340 | on the exact fragment the first candidate is least for the request itself |
| Planner.PlanRoutes | src/planner.cpp:116-377 | every verdict has its grounds, and every situation the verdict due: FEASIBLE exactly with candidates, each backed, on evidence the request accepts, none withheld; INFEASIBLE only with complete coverage and a missing endpoint or an exhausted, empty first search; past the gates the first search decides unless a later one is cancelled; the verdict is CANCELLED if and only if some search that was run was cancelled, and then there is no candidate; otherwise, and unless a plan could not be built, the candidates are exactly what the passes found, pass by pass the plans of the search's own paths; optimality is claimed if and only if the first search proved it, over complete coverage and with candidates |
| PlannerResults.InfeasibleMeansNone | src/planner.cpp:372-376 | on the exact fragment INFEASIBLE means that no admissible route exists, proven or not |
| PlannerResults.InfeasibleMeansLost | src/planner.cpp:372-376 | on every sealed snapshot an admissible route can exist beside INFEASIBLE only where the first search refused a better label the route's next step, for a member limit or a loop on which a wavelength restarts |
| PlannerLimits.WrongInfeasible | src/planner.cpp:372-376 | with conversion or regeneration a complete snapshot that has a proven admissible route gets the verdict INFEASIBLE from every caller who does not cancel |
| PlannerResults.VerdictDecided | src/planner.cpp:309-376 | on a sealed snapshot, past the gates and not cancelled, the verdict is exactly what the first search says: FEASIBLE if a path is proven, INFEASIBLE if a full search over complete evidence found nothing, INDETERMINATE otherwise |
| PlannerResults.RouteMeansFeasible | src/planner.cpp:342-356 | on the exact fragment a proven admissible route makes the verdict FEASIBLE when the first search runs to its end |
| PlannerResults.RefusedMeansMalformed | src/planner.cpp:298-303 | on a sealed snapshot only a malformed request is refused: no path of any pass fails to become a plan |
| PlannerResults.CandidateHolds | src/planner.cpp:342-356 | every published candidate is the plan of an admissible proven route of the request, with that route's figures, and meets every member limit |
| Compression.Shuffle | src/sha256.cpp:56-79 | the eight variables after the loop are those of 64 rounds of FIPS 180-4, section 6.2.2 |
| Compression.Schedule | src/sha256.cpp:39-54 | the filled-in schedule is the message schedule of the block |
| Sha256.FoldAppend | src/sha256.cpp:91-112 | hashing block by block, whole blocks may be cut off anywhere |
| Sha256.LengthRoundTrip | src/sha256.cpp:123-126 | the eight length bytes spell the bit length |
| Sha256.PaddedInjective | src/sha256.cpp:114-127 | below the standard's limit different messages have different padded forms |
| Sha256.BytesOf | src/sha256.cpp:123-126 | shifting and masking yields the big-endian bytes of the length |
| Sha256.Hasher.Update | src/sha256.cpp:91-112 | after any sequence of calls the state, the unfinished block and the byte count are those of the concatenation |
| Sha256.Hasher.PadZeros | src/sha256.cpp:117-122 | the zero-fill loop ends after the least number of zeros that leaves room for the length |
| Sha256.Hasher.Finalize | src/sha256.cpp:114-137 | the digest is the block fold of the message padded by FIPS 180-4, section 5.1.1; the hasher is not changed |
| Sha256.Hasher.OfPieces | src/sha256.cpp:168-180 | a message hashed in any pieces has the digest of their concatenation |
| Protocol.RunCurrent | src/service.cpp:349-364 | in every run the live incarnation is the last one published, with a positive epoch |
| Protocol.EpochsRise | src/service.cpp:273-347 | while the record stays readable epochs strictly increase, through any crashes and half-finished starts |
| Protocol.RisesExactly | src/service.cpp:285-333 | a start publishes an epoch above all earlier ones if and only if it can read the record they left |
| Protocol.ContinuityMayLie | src/service.cpp:321-346 | if a start stops after moving a damaged record aside, the next incarnation repeats epoch 1 and still reports continuity |
| Protocol.LiesExactly | src/service.cpp:321-346 | from any world whose epochs rose so far, a start reports continuity although they stop rising if and only if it finds no record, or a readable one below the last epoch |
| Protocol.ContinuityLiesExactly | src/service.cpp:285-346 | if at most damage lies between two incarnations, the continuity flag is wrong about epochs if and only if the record is missing |
| Protocol.StaleFenced | src/service.cpp:548-592 | a frame with a nonzero stale pin is fenced and changes nothing but a counter, except a Shutdown that a connection answers itself |
| Protocol.OldPinsAreStale | src/service.cpp:584-594 | while the record stays readable, a pin from any earlier incarnation is stale |
| Protocol.RunHonest | src/service.cpp:381-392 | in every run the fresh flag is true to the evidence, fresh evidence is the last snapshot this incarnation received, and with persistence the disk holds it too |
| Protocol.FeasibleIsCurrent | src/service.cpp:659-712 | a FEASIBLE answer to a request that does not accept restored evidence rests on the last snapshot the answering incarnation received |
| Protocol.RestoredIsIndeterminate | README.md:133-134 | until something is ingested again, a well-formed request that does not accept restored evidence gets INDETERMINATE |
| Protocol.EvidenceSurvives | src/service.cpp:381-392 | the last snapshot received survives a crash and comes back marked as restored and not fresh |
| Protocol.DiskHoldsLast | src/service.cpp:381-392 | with persistence the disk holds, after every run, the snapshot saved last, through any starts and crashes, and whatever happens to the incarnation record |
| Protocol.ComesBack | src/service.cpp:381-392 | after every run the next incarnation comes up on the snapshot saved last, marked as restored and not fresh |
| Service.AdvanceIncarnation | src/service.cpp:273-347 | the record and the new incarnation are those of the protocol, for every record and every file-system failure |
| Service.Process.HandleFrame | src/service.cpp:584-812 | handling a frame does what the protocol allows: fence first, disk before memory on Ingest, sound verdicts on Plan |
| Service.Process.ServeConnection | src/service.cpp:548-573 | a connection answers Shutdown before the fence and passes every other frame on |
| Service.StartService | src/service.cpp:349-392 | a start advances the record and comes up on the stored snapshot, marked as restored |
| Bits.SameBits | include/opp/spectrum.hpp:120-121 | a word is determined by its bits |
| SlotMask.WordsAreSlots | include/opp/spectrum.hpp:120-121 | masks compare equal exactly when they hold the same slots |
| SlotMask.StartsCommute | src/spectrum.cpp:86-101 | taking channel starts commutes with intersection |
| SlotMask.SlotMask.All | include/opp/spectrum.hpp:61-67 | holds exactly the slots of the model, cut off at the capacity |
| SlotMask.SlotMask.Set | include/opp/spectrum.hpp:69-72 | adds exactly the slot, and ignores one out of range |
| SlotMask.SlotMask.Reset | include/opp/spectrum.hpp:74-77 | removes exactly the slot |
| SlotMask.SlotMask.Test | include/opp/spectrum.hpp:79-82 | the bit test is membership |
| SlotMask.SlotMask.AndWith | include/opp/spectrum.hpp:84-86 | the words become the intersection of the two sets, even of a mask with itself |
| SlotMask.SlotMask.Intersect | include/opp/spectrum.hpp:88-92 | the intersection in a new mask, both operands unchanged |
| SlotMask.SlotMask.IsEmpty | include/opp/spectrum.hpp:94-99 | all words zero exactly when no slot is held |
| SlotMask.SlotMask.IsSubsetOf | include/opp/spectrum.hpp:111-117 | the word test is set inclusion |
| SlotMask.SlotMask.LowestSetBit | src/spectrum.cpp:70-84 | the word and bit scan finds the least slot, as the search and builder use it |
| SlotMask.SlotMask.FirstSlotMask | src/spectrum.cpp:86-101 | the nested loops yield exactly the starts of free runs of the width |
| SlotMask.SlotMask.ToHex | src/spectrum.cpp:103-113 | the loops write the text form of the words, most significant first |
| SlotMask.SlotMask.FromHex | src/spectrum.cpp:115-134 | accepts exactly 64 hexadecimal digits in either case and reads the words they spell |
| SlotMask.HexRoundTrip | src/spectrum.cpp:103-134 | reading the text of a mask gives the mask back |
| Canonicalise.SortAndDeduplicate | src/topology.cpp:48-68 | sorts, keeps the first record of each run and flags the runs that disagree |
| Canonicalise.FlaggedIsClash | src/topology.cpp:48-68 | however the sort breaks ties, an identity is flagged exactly when two different records of it were submitted with none of another identity sorting between them |
| Canonicalise.ConflictExactly | src/topology.cpp:48-68 | where identities are sort keys, an identity is flagged exactly when two submitted records of it differ |
| Canonicalise.KeptStrict | src/topology.cpp:48-68 | where identities are sort keys, one record is kept for each, in strict order |
| Canonicalise.KeptAll | src/topology.cpp:48-68 | no submitted identity is lost |
| Canonicalise.OrderIrrelevant | src/topology.cpp:48-68 | when records that sort alike agree, the order of submission does not matter |
| Canonicalise.Find | src/topology.cpp:511-518 | bisection finds what a scan of the whole list would |
| Topology.NodeConflicts | src/topology.cpp:332-335 | a node is marked conflicted exactly when two submitted records for it differ |
| Topology.PortConflicts | src/topology.cpp:336-339 | the same for ports, up to port keys that read alike |
| Topology.ProfileConflicts | src/topology.cpp:358-361 | the same for reach profiles |
| Topology.SpanConflicts | src/topology.cpp:340-348 | a span is marked exactly when two different records of its id sort with no other id between them |
| Topology.CrossConflicts | src/topology.cpp:349-357 | the same for cross-connects |
| Topology.ArcsExact | src/topology.cpp:414-460 | the adjacency lists of a port hold exactly the resolved arcs that leave it |
| Topology.BuiltIsSealed | src/topology.cpp:267-489 | a built snapshot has everything the planner takes for granted |
| Topology.BuildIgnoresOrder | src/topology.cpp:267-489 | the same records in any order build the same snapshot, when records that sort alike agree |
| Topology.KeptSearchable | src/topology.cpp:332-361 | kept nodes, ports and profiles stand in strict order, as bisection requires |
| Topology.FindNode | src/topology.cpp:491-496 | node lookup returns the record under that id, or nothing when there is none |
| Topology.FindPort | src/topology.cpp:505-518 | port lookup returns the record under that key, or nothing when there is none |
| SnapshotBuilder.SourcesDistinct | src/topology.cpp:276-285 | comparing sorted neighbours finds exactly whether an id is declared twice |
| SnapshotBuilder.LinkSpans | src/topology.cpp:414-431 | one pass over the spans yields the arcs of every port, the ports with a dangling end, and whether all references resolve |
| SnapshotBuilder.SnapshotBuilder.Build | src/topology.cpp:267-489 | builds once; succeeds only on valid records into a snapshot that is sorted, deduplicated, linked and permitted by the options, and otherwise names what was wrong |
| SnapshotBuilder.UnseenDuplicate | src/topology.cpp:340-348 | two disagreeing records of one span id both survive unflagged when another id sorts between them |
| Codec.EncodeToken | src/canonical.cpp:91-116 | the loop writes the escaped form, also on the short cut that copies |
| Codec.DecodeToken | src/canonical.cpp:118-142 | the loop reads the escaped form and refuses what it refuses |
| Codec.TokenRoundTrip | src/canonical.cpp:91-142 | an encoded byte string decodes to itself if and only if its encoding is within the bound |
| Codec.LineAssembler.Add | src/canonical.cpp:217-220 | appends one encoded piece, separated when the line is not empty |
| Codec.SplitTokens | src/canonical.cpp:266-290 | the loop yields the tokens between blanks, or the first reason to refuse |
| Codec.SplitSound | src/canonical.cpp:266-290 | the tokens are solid, within the bound, and together the line without its blanks |
| Codec.LineRoundTrip | src/canonical.cpp:213-290 | a joined line splits into exactly its pieces, and is refused exactly when it or a piece is too long |
| Codec.RecordRoundTrip | src/canonical.cpp:213-290 | a line assembled from any byte strings splits and decodes into exactly those, empty ones and ones with percent signs included |

## Left out

- SearchResults.SearchComplete: holds on the `Exact` fragment only, because the code fails outside it; `SearchLimits` has a concrete failing snapshot for each of regeneration, conversion and member limits, and `SearchLoss` a condition that every failure meets, but none that is also sufficient for one given snapshot.
- SearchResults.SearchOptimal: holds on the same fragment, with failing snapshots in `SearchLimits` and `RestartLimits`; `SearchLoss.OptimalOrLost` is the general statement for searches that claim an optimum.
- SearchResults.SearchPareto: holds on the same fragment; `SearchLoss.ParetoOrLost` is the general statement.
- Planner.SpanDisjointly: assumes that the span ids of the earlier candidate are well formed, as every constructor of an id in the source guarantees.
- Planner.NodeDisjointly: assumes that the source node's id is well formed, for the same reason.
- Topology.PortConflicts: two port keys whose texts coincide are marked together, as in the source.
- Codec.RecordRoundTrip: needs each encoding within 1024 bytes, although decoding alone accepts 3072, because splitting refuses longer tokens.
- Sha256.Hasher.Finalize: the length field wraps at 2^64 bits, as in the source; the standard defines nothing beyond.
- Revalidation.RoundTrip: segment OSNR is compared as linear noise, exactly, where the source allows a difference of 1e-9 dB.
- Floating point: losses and noises are reals, so rounding, infinities and NaN are not modelled.
- Plan fields that carry no decision: assumption texts, reason bits, totals over all segments, and the channel width and id echoes; digests of plans are not computed, so duplicates are recognised by equality of plans.
- The channel-run count of a segment and the cost shown on each step are computed as in the source, but nothing further is proved about them.
- Result reporting: witnesses, cut counters, limitations, statistics and status texts.
- Format and rule revisions and seals appear as two booleans of a stored plan.
- Record provenance (source and generation), node kinds and port roles: the deduplication lemmas hold for any record type, but the modelled records do not carry these fields.
- Failure-domain lists of records are sets, so their normalisation is not modelled; the limit on their size is.
- The record-adding calls of the snapshot builder, which only check for empty ids and size limits.
- The tie order of the source's unstable sorts: the conflict and order lemmas hold for every sort, the executable model uses one.
- Upper bounds on published OSNR, which have no effect after sealing.
- The plan store, its two request kinds, and the remote cancellation table, into which nothing is ever inserted.
- Sockets, threads, select loops, file locks and atomic file writes; a file operation either happens or does not.
- The text formats of snapshots, requests, plans, results and the incarnation record, beyond tokens and lines; decimal formatting of numbers.
- The command line, the daemon's main program, examples, benchmark and generator.
