/** The planner: one or more searches, the plans built from their paths, and the verdict. */
module Planner {
  import opened Base
  import opened Network
  import opened Rules
  import opened Routes
  import opened SearchModel
  import opened SearchOptimality
  import opened SearchResults
  import opened SearchEngine
  import opened PlanModel
  import opened PlanTheorems
  import opened PlanBuilder
  import opened PlannerRules
  import Cycles
  import Ordering
  import Validation

  datatype Options = Options(maxExpansions: nat, maxLabels: nat)

  datatype Verdict = Feasible | Infeasible | Indeterminate | Unsupported | Refused | Cancelled

  datatype Result = Result(verdict: Verdict, candidates: seq<Plan>, optimalityProven: bool)

  function Min(a: nat, b: nat): nat { if a < b then a else b }

  function ProblemFor(net: Snapshot, req: Request, options: Options): Problem {
    Problem(net, req, Min(options.maxExpansions, req.maxExpansions), Min(options.maxLabels, req.maxLabels))
  }

  // ----- plans and the routes behind them -------------------------------------------------

  /** `plan` was built from `route`, a proven admissible route under the request `w`. */
  ghost predicate Backs(net: Snapshot, req: Request, w: Request, plan: Plan, route: seq<Arc>) {
    && Reaches(net, w, route) && Final(net, w, route).proven
    && Assemble(net, req, route) == Some(plan)
  }

  ghost predicate Backed(net: Snapshot, req: Request, w: Request, plan: Plan) {
    exists route :: Backs(net, req, w, plan, route)
  }

  /** The key of a plan is at most that of a label. */
  predicate PlanKeyLeq(plan: Plan, l: Label) {
    KeyAtMost(Path([], plan.totalCost, plan.hops, plan.regenerations, true), l.cost, l.hops, l.regenerations)
  }

  /** No proven admissible route under `w` has a smaller key than the plan. */
  ghost predicate LeastPlan(net: Snapshot, w: Request, plan: Plan) {
    forall route | Reaches(net, w, route) && Final(net, w, route).proven :: PlanKeyLeq(plan, Final(net, w, route))
  }

  lemma {:induction false} BackedFigures(net: Snapshot, req: Request, w: Request, plan: Plan, route: seq<Arc>)
    requires Tightens(w, req) && Backs(net, req, w, plan, route)
    ensures var l := Final(net, w, route);
            plan.totalCost == l.cost && plan.hops == l.hops && plan.regenerations == l.regenerations
  {
    ReplayRelaxes(net, w, req, route);
    DraftAgrees(net, req, route);
    FinalPort(net, w, route);
  }

  lemma {:induction false} ReplayInRange(net: Snapshot, req: Request, route: seq<Arc>)
    requires Replay(net, req, route).Some?
    ensures forall k | 0 <= k < |route| :: InRange(net, route[k])
  {
    ReplayAvoids(net, req, route);
  }

  // ----- building candidates --------------------------------------------------------------

  predicate PlanLess(a: Plan, b: Plan) {
    if a.totalCost != b.totalCost then a.totalCost < b.totalCost
    else if a.hops != b.hops then a.hops < b.hops
    else if a.regenerations != b.regenerations then a.regenerations < b.regenerations
    else Ordering.TextLess(SequenceKey(a.steps), SequenceKey(b.steps))
  }

  function KindName(kind: ResourceKind): string {
    match kind
    case NodeKind => "node"
    case PortKind => "port"
    case SpanKind => "span"
    case CrossConnectKind => "crossconnect"
    case ProfileKind => "profile"
  }

  function SequenceKey(steps: seq<PlanStep>): string {
    if steps == [] then ""
    else
      var n := |steps| - 1;
      SequenceKey(steps[..n]) + KindName(steps[n].resource.kind) + "|" + steps[n].resource.text + ">"
  }

  /** Inserts a plan into an ordered list. */
  function InsertPlan(s: seq<Plan>, p: Plan): (r: seq<Plan>)
    ensures |r| == |s| + 1 && forall x :: x in r <==> x in s || x == p
  {
    if s == [] then [p]
    else if PlanLess(p, s[0]) then [p] + s
    else
      assert s == [s[0]] + s[1..];
      [s[0]] + InsertPlan(s[1..], p)
  }

  function SortPlans(s: seq<Plan>): (r: seq<Plan>)
    ensures |r| == |s| && forall x :: x in r <==> x in s
  {
    if s == [] then []
    else
      assert s == s[..|s| - 1] + [s[|s| - 1]];
      InsertPlan(SortPlans(s[..|s| - 1]), s[|s| - 1])
  }

  predicate KeyNotAbove(a: Plan, b: Plan) {
    KeyAtMost(Path([], a.totalCost, a.hops, a.regenerations, true), b.totalCost, b.hops, b.regenerations)
  }

  /** Plans in key order. */
  ghost predicate KeysAscend(s: seq<Plan>) { forall i, j | 0 <= i < j < |s| :: KeyNotAbove(s[i], s[j]) }

  lemma {:induction false} InsertAscends(s: seq<Plan>, p: Plan)
    requires KeysAscend(s)
    ensures KeysAscend(InsertPlan(s, p))
  {
    if s != [] && !PlanLess(p, s[0]) {
      var rest := InsertPlan(s[1..], p);
      InsertAscends(s[1..], p);
      forall j | 0 <= j < |rest|
        ensures KeyNotAbove(s[0], rest[j])
      {
        assert rest[j] in rest;
        if rest[j] != p {
          var k :| 0 <= k < |s[1..]| && s[1..][k] == rest[j];
          assert s[k + 1] == rest[j];
        }
      }
    }
  }

  /** Sorting puts plans in key order. */
  lemma {:induction false} SortAscends(s: seq<Plan>)
    ensures KeysAscend(SortPlans(s))
  {
    if s != [] {
      SortAscends(s[..|s| - 1]);
      InsertAscends(SortPlans(s[..|s| - 1]), s[|s| - 1]);
    }
  }

  lemma {:induction false} InsertDistinct(s: seq<Plan>, p: Plan)
    requires Distinct(s) && p !in s
    ensures Distinct(InsertPlan(s, p))
  {
    if s != [] && !PlanLess(p, s[0]) {
      InsertDistinct(s[1..], p);
      var rest := InsertPlan(s[1..], p);
      assert s[0] !in s[1..];
      assert s[0] !in rest;
    }
  }

  lemma {:induction false} SortDistinct(s: seq<Plan>)
    requires Distinct(s)
    ensures Distinct(SortPlans(s))
  {
    if s != [] {
      var n := |s| - 1;
      SortDistinct(s[..n]);
      assert s[n] !in s[..n];
      InsertDistinct(SortPlans(s[..n]), s[n]);
    }
  }

  /** Every proven path has its plan among `built`. */
  ghost predicate AllBuilt(net: Snapshot, req: Request, paths: seq<Path>, built: seq<Plan>) {
    forall i | 0 <= i < |paths| && paths[i].proven :: PathBuilt(net, req, paths[i], built)
  }

  ghost predicate PathBuilt(net: Snapshot, req: Request, path: Path, built: seq<Plan>) {
    Assemble(net, req, path.arcs).Some? && Assemble(net, req, path.arcs).value in built
  }

  /** The plan of one path, its cycles stripped first. */
  method BuildOne(net: Snapshot, req: Request, arcs: seq<Arc>) returns (plan: Option<Plan>)
    requires Strippable(net, req, arcs)
    ensures plan == Assemble(net, req, arcs)
  {
    var stripped := Cycles.StripCycles(net, req.source, arcs);
    plan := BuildPlan(net, req, stripped);
  }

  ghost predicate Strippable(net: Snapshot, req: Request, arcs: seq<Arc>) {
    (forall k | 0 <= k < |arcs| :: InRange(net, arcs[k])) && PortSimple(net, req.source, arcs)
  }

  /** `plan` is the plan of one of the first `k` paths, a proven one. */
  ghost predicate FromPath(net: Snapshot, req: Request, paths: seq<Path>, k: nat, plan: Plan) {
    exists i :: 0 <= i < k <= |paths| && PathGives(net, req, paths[i], plan)
  }

  ghost predicate PathGives(net: Snapshot, req: Request, path: Path, plan: Plan) {
    path.proven && Assemble(net, req, path.arcs) == Some(plan)
  }

  ghost predicate PathFails(net: Snapshot, req: Request, path: Path) {
    path.proven && Assemble(net, req, path.arcs).None?
  }

  /** `plan` is the plan of the first proven path, which is among the first `k`. */
  ghost predicate FromFirst(net: Snapshot, req: Request, paths: seq<Path>, k: nat, plan: Plan) {
    exists f :: 0 <= f < k <= |paths| && (forall i | 0 <= i < f :: !paths[i].proven)
                && PathGives(net, req, paths[f], plan)
  }

  datatype Progress = Going | Full | Failing

  /** The plans collected so far, whether an unproven path was seen, and whether to go on. */
  datatype Collected = Collected(plans: seq<Plan>, hasUnproven: bool, progress: Progress)

  /** Collecting the plans of the proven paths, up to a budget, without repetitions. */
  function Collect(net: Snapshot, req: Request, paths: seq<Path>, budget: nat): Collected {
    if paths == [] then Collected([], false, Going)
    else Took(net, req, Collect(net, req, paths[..|paths| - 1], budget), paths[|paths| - 1], budget)
  }

  function Took(net: Snapshot, req: Request, c: Collected, path: Path, budget: nat): Collected {
    if c.progress != Going then c
    else if !path.proven then c.(hasUnproven := true)
    else if |c.plans| >= budget then c.(progress := Full)
    else
      match Assemble(net, req, path.arcs)
      case None => c.(progress := Failing)
      case Some(plan) => if plan in c.plans then c else c.(plans := c.plans + [plan])
  }

  method BuildCandidates(net: Snapshot, req: Request, paths: seq<Path>, budget: nat)
    returns (built: seq<Plan>, hasUnproven: bool, ok: bool)
    requires forall k | 0 <= k < |paths| :: Strippable(net, req, paths[k].arcs)
    ensures var c := Collect(net, req, paths, budget);
            built == c.plans && hasUnproven == c.hasUnproven && (ok <==> c.progress != Failing)
  {
    built, hasUnproven, ok := [], false, true;
    var k := 0;
    while k < |paths|
      invariant k <= |paths| && Collect(net, req, paths[..k], budget) == Collected(built, hasUnproven, Going)
    {
      CollectStep(net, req, paths, budget, k);
      if !paths[k].proven {
        hasUnproven := true;
      } else {
        if |built| >= budget {
          Settles(net, req, paths, budget, k + 1);
          return;
        }
        var plan := BuildOne(net, req, paths[k].arcs);
        if plan.None? {
          Settles(net, req, paths, budget, k + 1);
          ok := false;
          return;
        }
        if plan.value !in built {
          built := built + [plan.value];
        }
      }
      k := k + 1;
    }
    assert paths[..|paths|] == paths;
  }

  lemma {:induction false} CollectStep(net: Snapshot, req: Request, paths: seq<Path>, budget: nat, k: nat)
    requires k < |paths|
    ensures Collect(net, req, paths[..k + 1], budget) ==
            Took(net, req, Collect(net, req, paths[..k], budget), paths[k], budget)
  {
    assert paths[..k + 1][..k] == paths[..k];
  }

  /** Once it stops, collecting stays as it is. */
  lemma {:induction false} Settles(net: Snapshot, req: Request, paths: seq<Path>, budget: nat, k: nat)
    requires k <= |paths| && Collect(net, req, paths[..k], budget).progress != Going
    ensures Collect(net, req, paths, budget) == Collect(net, req, paths[..k], budget)
  {
    if k == |paths| {
      assert paths[..k] == paths;
    } else {
      assert paths[..|paths| - 1][..k] == paths[..k];
      Settles(net, req, paths[..|paths| - 1], budget, k);
    }
  }

  /** What a collection holds: no repetitions, nothing beyond the budget, and only plans of
      proven paths; it fails only where a path does. */
  lemma {:induction false} CollectSound(net: Snapshot, req: Request, paths: seq<Path>, budget: nat)
    ensures var c := Collect(net, req, paths, budget);
            && |c.plans| <= budget && Distinct(c.plans)
            && (forall p | p in c.plans :: FromPath(net, req, paths, |paths|, p))
            && (c.progress == Failing ==> exists i :: 0 <= i < |paths| && PathFails(net, req, paths[i]))
  {
    if paths != [] {
      var n := |paths| - 1;
      CollectSound(net, req, paths[..n], budget);
      var before, c := Collect(net, req, paths[..n], budget), Collect(net, req, paths, budget);
      forall p | p in c.plans
        ensures FromPath(net, req, paths, |paths|, p)
      {
        if p in before.plans {
          var i :| 0 <= i < n && PathGives(net, req, paths[..n][i], p);
          assert PathGives(net, req, paths[i], p);
        } else {
          assert PathGives(net, req, paths[n], p);
        }
      }
      if c.progress == Failing {
        if before.progress == Failing {
          var i :| 0 <= i < n && PathFails(net, req, paths[..n][i]);
          assert PathFails(net, req, paths[i]);
        } else {
          assert PathFails(net, req, paths[n]);
        }
      }
    }
  }

  /** What a collection does not miss: while there is budget, the plan of every proven path. */
  lemma {:induction false} CollectAll(net: Snapshot, req: Request, paths: seq<Path>, budget: nat)
    ensures var c := Collect(net, req, paths, budget);
            && (c.progress == Going ==> AllBuilt(net, req, paths, c.plans))
            && (c.progress == Full ==> |c.plans| >= budget)
  {
    if paths != [] {
      var n := |paths| - 1;
      CollectAll(net, req, paths[..n], budget);
      var before, c := Collect(net, req, paths[..n], budget), Collect(net, req, paths, budget);
      TookAll(net, req, before, paths[n], budget);
      if c.progress == Going {
        BuiltGrows(net, req, paths, before.plans, c.plans);
      }
    }
  }

  lemma {:induction false} TookAll(net: Snapshot, req: Request, before: Collected, path: Path, budget: nat)
    ensures var c := Took(net, req, before, path, budget);
            && before.plans <= c.plans && (c.progress == Going ==> before.progress == Going)
            && (c.progress == Going && path.proven ==> PathBuilt(net, req, path, c.plans))
            && (c.progress == Full ==> before.progress == Full || |c.plans| >= budget)
  {}

  /** Nothing was collected only because nothing was proven. */
  lemma {:induction false} CollectEmpty(net: Snapshot, req: Request, paths: seq<Path>, budget: nat)
    requires budget > 0
    ensures var c := Collect(net, req, paths, budget);
            c.plans == [] ==>
              && c.progress != Full
              && (c.progress == Going ==>
                    (forall i | 0 <= i < |paths| :: !paths[i].proven) && (c.hasUnproven <==> paths != []))
  {
    if paths != [] {
      var n := |paths| - 1;
      CollectEmpty(net, req, paths[..n], budget);
      assert forall i | 0 <= i < n :: paths[i] == paths[..n][i];
    }
  }

  /** The first plan collected is that of the first proven path. */
  lemma {:induction false} CollectFirst(net: Snapshot, req: Request, paths: seq<Path>, budget: nat)
    requires budget > 0 && Collect(net, req, paths, budget).plans != []
    ensures FromFirst(net, req, paths, |paths|, Collect(net, req, paths, budget).plans[0])
  {
    var n := |paths| - 1;
    var before := Collect(net, req, paths[..n], budget);
    var plan := Collect(net, req, paths, budget).plans[0];
    assert paths[..n] + [paths[n]] == paths;
    if before.plans != [] {
      CollectFirst(net, req, paths[..n], budget);
      FirstStays(net, req, paths[..n], paths[n], plan);
    } else {
      CollectEmpty(net, req, paths[..n], budget);
      FirstAt(net, req, paths[..n], paths[n], n, plan);
    }
  }

  lemma {:induction false} FirstStays(net: Snapshot, req: Request, init: seq<Path>, last: Path, plan: Plan)
    requires FromFirst(net, req, init, |init|, plan)
    ensures FromFirst(net, req, init + [last], |init| + 1, plan)
  {
    var f :| 0 <= f < |init| && (forall i | 0 <= i < f :: !init[i].proven) && PathGives(net, req, init[f], plan);
    FirstAt(net, req, init, last, f, plan);
  }

  lemma {:induction false} FirstAt(net: Snapshot, req: Request, init: seq<Path>, last: Path, f: nat, plan: Plan)
    requires f <= |init| && (forall i | 0 <= i < f :: !init[i].proven)
    requires PathGives(net, req, (init + [last])[f], plan)
    ensures FromFirst(net, req, init + [last], |init| + 1, plan)
  {
    assert forall i | 0 <= i < f :: (init + [last])[i] == init[i];
  }

  /** A collection is empty exactly when no path is proven, unless it fails. */
  lemma {:induction false} CollectNone(net: Snapshot, req: Request, paths: seq<Path>, budget: nat)
    requires budget > 0 && Collect(net, req, paths, budget).progress != Failing
    ensures Collect(net, req, paths, budget).plans == [] <==> !AnyProven(paths)
    ensures !AnyProven(paths) ==> (Collect(net, req, paths, budget).hasUnproven <==> paths != [])
  {
    CollectEmpty(net, req, paths, budget);
    var plans := Collect(net, req, paths, budget).plans;
    if plans != [] {
      CollectFirst(net, req, paths, budget);
      var f :| 0 <= f < |paths| && PathGives(net, req, paths[f], plans[0]);
      assert paths[f] in paths;
    }
  }

  lemma {:induction false} BuiltGrows(net: Snapshot, req: Request, paths: seq<Path>, before: seq<Plan>,
                                      after: seq<Plan>)
    requires paths != [] && AllBuilt(net, req, paths[..|paths| - 1], before)
    requires forall p | p in before :: p in after
    requires paths[|paths| - 1].proven ==> PathBuilt(net, req, paths[|paths| - 1], after)
    ensures AllBuilt(net, req, paths, after)
  {
    var n := |paths| - 1;
    forall i | 0 <= i < |paths| && paths[i].proven
      ensures PathBuilt(net, req, paths[i], after)
    {
      assert i < n ==> paths[..n][i] == paths[i];
    }
  }

  /** Plans of the paths of a search are backed by their routes. */
  lemma {:induction false} SearchBacks(net: Snapshot, req: Request, pb: Problem, cancel: nat -> bool, plan: Plan)
    requires pb.net == net && FromPath(net, req, Search(pb, cancel).paths, |Search(pb, cancel).paths|, plan)
    ensures Backed(net, req, pb.req, plan)
  {
    SearchSound(pb, cancel);
    var paths := Search(pb, cancel).paths;
    var i :| 0 <= i < |paths| && PathGives(net, req, paths[i], plan);
    assert paths[i] in paths;
    assert Backs(net, req, pb.req, plan, paths[i].arcs);
  }

  lemma {:induction false} SearchFails(net: Snapshot, req: Request, pb: Problem, cancel: nat -> bool, i: nat)
    requires pb.net == net && i < |Search(pb, cancel).paths| && PathFails(net, req, Search(pb, cancel).paths[i])
    ensures SomeBuildFails(net, req, pb.req)
  {
    SearchSound(pb, cancel);
    var paths := Search(pb, cancel).paths;
    assert paths[i] in paths;
    assert Reaches(net, pb.req, paths[i].arcs);
  }

  lemma {:induction false} SearchStrippable(net: Snapshot, req: Request, pb: Problem, cancel: nat -> bool)
    requires pb.net == net && Tightens(pb.req, req)
    ensures forall k | 0 <= k < |Search(pb, cancel).paths| :: Strippable(net, req, Search(pb, cancel).paths[k].arcs)
  {
    SearchSound(pb, cancel);
    var paths := Search(pb, cancel).paths;
    forall k | 0 <= k < |paths|
      ensures Strippable(net, req, paths[k].arcs)
    {
      assert paths[k] in paths;
      ReplayInRange(net, pb.req, paths[k].arcs);
    }
  }

  /** The first plan of a pass is the least, because the first proven path is. */
  lemma {:induction false} FirstIsLeastBuilt(net: Snapshot, req: Request, pb: Problem, cancel: nat -> bool, plan: Plan)
    requires pb.net == net && Exact(pb) && Tightens(pb.req, req)
    requires FromFirst(net, req, Search(pb, cancel).paths, |Search(pb, cancel).paths|, plan)
    ensures LeastPlan(net, pb.req, plan)
  {
    var paths := Search(pb, cancel).paths;
    var f :| 0 <= f < |paths| && (forall i | 0 <= i < f :: !paths[i].proven) && PathGives(net, req, paths[f], plan);
    SearchSound(pb, cancel);
    assert paths[f] in paths;
    assert Backs(net, req, pb.req, plan, paths[f].arcs);
    BackedFigures(net, req, pb.req, plan, paths[f].arcs);
    forall route | Reaches(net, pb.req, route) && Final(net, pb.req, route).proven
      ensures PlanKeyLeq(plan, Final(net, pb.req, route))
    {
      SearchOptimal(pb, cancel, f, route);
    }
  }

  // ----- one pass -------------------------------------------------------------------------

  /** Why planning stopped. */
  datatype Stop = Complete | KnowledgeGap | HitBound | BuildFailed | CallerCancelled

  /** The searches that justify INFEASIBLE: exhausted, not truncated, no path of any kind, on a
      snapshot that claims complete coverage. */
  ghost predicate NothingFound(net: Snapshot, outcome: Outcome) {
    outcome.exhausted && !outcome.truncated && outcome.paths == [] && net.coverageComplete
  }

  ghost predicate SomeBuildFails(net: Snapshot, req: Request, w: Request) {
    exists route :: Reaches(net, w, route) && Final(net, w, route).proven && Assemble(net, req, route).None?
  }

  /** What a pass says about its search. */
  ghost predicate Reports(net: Snapshot, w: Request, options: Options, cancel: nat -> bool, stop: Stop, none: bool,
                          optimal: bool)
  {
    var outcome := Search(ProblemFor(net, w, options), cancel);
    && (stop == CallerCancelled <==> outcome.cancelled)
    && (stop != CallerCancelled ==> optimal == outcome.provedOptimum)
    && (stop != CallerCancelled && stop != BuildFailed ==> (none <==> !AnyProven(outcome.paths)))
    && (stop != CallerCancelled && stop != BuildFailed && none ==> (stop == Complete <==> NothingFound(net, outcome)))
  }

  /** Why a pass without a plan stops. */
  method Diagnose(net: Snapshot, outcome: Outcome, hasUnproven: bool) returns (stop: Stop)
    requires hasUnproven <==> outcome.paths != []
    ensures stop == Complete || stop == KnowledgeGap || stop == HitBound
    ensures stop == Complete <==> NothingFound(net, outcome)
  {
    stop := if hasUnproven then KnowledgeGap
            else if outcome.truncated || !outcome.exhausted then HitBound
            else if !net.coverageComplete then KnowledgeGap
            else Complete;
  }

  /** The plans of one search, at most `budget` of them, least first. */
  ghost function PassPlans(net: Snapshot, req: Request, w: Request, options: Options, cancel: nat -> bool,
                           budget: nat): seq<Plan>
  {
    SortPlans(Collect(net, req, Search(ProblemFor(net, w, options), cancel).paths, budget).plans)
  }

  /** Searches once and builds the plans, least first. */
  method OnePass(net: Snapshot, req: Request, w: Request, options: Options, cancel: nat -> bool, budget: nat)
    returns (stop: Stop, plans: seq<Plan>, optimal: bool)
    requires Tightens(w, req) && budget > 0
    ensures Reports(net, w, options, cancel, stop, plans == [], optimal)
    ensures stop == BuildFailed ==> SomeBuildFails(net, req, w)
    ensures stop != Complete ==> plans == []
    ensures |plans| <= budget && forall p | p in plans :: Backed(net, req, w, p)
    ensures Distinct(plans) && KeysAscend(plans)
    ensures stop != CallerCancelled && stop != BuildFailed ==> plans == PassPlans(net, req, w, options, cancel, budget)
    ensures stop == Complete && |plans| < budget ==>
              AllBuilt(net, req, Search(ProblemFor(net, w, options), cancel).paths, plans)
    ensures plans != [] && Exact(ProblemFor(net, w, options)) ==> LeastPlan(net, w, plans[0])
  {
    var pb := ProblemFor(net, w, options);
    var outcome := RunSearch(pb, cancel);
    if outcome.cancelled {
      return CallerCancelled, [], false;
    }
    optimal := outcome.provedOptimum;
    SearchStrippable(net, req, pb, cancel);
    var built, hasUnproven, ok := BuildCandidates(net, req, outcome.paths, budget);
    BuiltWell(net, req, pb, cancel, budget);
    if !ok {
      return BuildFailed, [], optimal;
    }
    stop, plans := Complete, SortPlans(built);
    SortAscends(built);
    SortDistinct(built);
    if built == [] {
      stop := Diagnose(net, outcome, hasUnproven);
    } else {
      SortedBuiltIsLeast(net, req, pb, cancel, built);
    }
  }

  /** What the plans collected from a search are. */
  lemma {:induction false} BuiltWell(net: Snapshot, req: Request, pb: Problem, cancel: nat -> bool, budget: nat)
    requires pb.net == net && Tightens(pb.req, req) && budget > 0
    ensures var paths := Search(pb, cancel).paths;
            var c := Collect(net, req, paths, budget);
            && |c.plans| <= budget && Distinct(c.plans) && (forall p | p in c.plans :: Backed(net, req, pb.req, p))
            && (c.progress == Failing ==> SomeBuildFails(net, req, pb.req))
            && (c.progress != Failing && |c.plans| < budget ==> AllBuilt(net, req, paths, c.plans))
            && (c.progress != Failing ==> (c.plans == [] <==> !AnyProven(paths)))
            && (c.progress != Failing && c.plans == [] ==> (c.hasUnproven <==> paths != []))
            && (c.plans != [] ==> FromFirst(net, req, paths, |paths|, c.plans[0]))
  {
    var paths := Search(pb, cancel).paths;
    var c := Collect(net, req, paths, budget);
    CollectSound(net, req, paths, budget);
    CollectAll(net, req, paths, budget);
    forall p | p in c.plans
      ensures Backed(net, req, pb.req, p)
    {
      SearchBacks(net, req, pb, cancel, p);
    }
    if c.plans != [] {
      CollectFirst(net, req, paths, budget);
    }
    if c.progress == Failing {
      var i :| 0 <= i < |paths| && PathFails(net, req, paths[i]);
      SearchFails(net, req, pb, cancel, i);
    } else {
      CollectNone(net, req, paths, budget);
    }
  }

  lemma {:induction false} SortedBuiltIsLeast(net: Snapshot, req: Request, pb: Problem, cancel: nat -> bool,
                                              built: seq<Plan>)
    requires pb.net == net && Tightens(pb.req, req) && built != []
    requires FromFirst(net, req, Search(pb, cancel).paths, |Search(pb, cancel).paths|, built[0])
    ensures Exact(pb) ==> LeastPlan(net, pb.req, SortPlans(built)[0])
  {
    if Exact(pb) {
      FirstIsLeastBuilt(net, req, pb, cancel, built[0]);
      FirstIsLow(built);
    }
  }

  /** The first plan of a sorted list is not above the first one before sorting. */
  lemma {:induction false} FirstIsLow(built: seq<Plan>)
    requires built != []
    ensures KeyNotAbove(SortPlans(built)[0], built[0])
  {
    SortAscends(built);
    assert built[0] in SortPlans(built);
    var k :| 0 <= k < |SortPlans(built)| && SortPlans(built)[k] == built[0];
  }

  // ----- disjoint passes ------------------------------------------------------------------

  /** Nodes of the ports a plan names. */
  function PortNodes(steps: seq<PlanStep>): set<Id> {
    set k | 0 <= k < |steps| && steps[k].resource.kind == PortKind
            && Validation.Colon(steps[k].resource.text, 0) < |steps[k].resource.text| ::
      steps[k].resource.text[..Validation.Colon(steps[k].resource.text, 0)]
  }

  /** What an accepted plan takes away from later passes, by kind of disjointness. */
  function TakenNodes(kind: Disjointness, plan: Plan): set<Id> {
    if kind == NodeDisjoint then set id | id in NodeIds(plan.steps) + PortNodes(plan.steps) && Validation.IdText(id)
    else {}
  }
  function TakenSpans(kind: Disjointness, plan: Plan): set<Id> {
    if kind == SpanDisjoint then set id | id in SpanIds(plan.steps) && Validation.IdText(id) else {}
  }
  function TakenDomains(kind: Disjointness, plan: Plan): set<Id> {
    if kind == DomainDisjoint then plan.exposure.Keys else {}
  }

  /** Adds what an accepted plan takes away to the exclusions, and nothing else. */
  method ExtendExclusions(plan: Plan, kind: Disjointness, nodes: seq<Id>, spans: seq<Id>, domains: seq<Id>)
    returns (nodes': seq<Id>, spans': seq<Id>, domains': seq<Id>)
    ensures nodes <= nodes' && spans <= spans' && domains <= domains'
    ensures forall id :: id in nodes' <==> id in nodes || id in TakenNodes(kind, plan)
    ensures forall id :: id in spans' <==> id in spans || id in TakenSpans(kind, plan)
    ensures forall id :: id in domains' <==> id in domains || id in TakenDomains(kind, plan)
  {
    nodes', spans', domains' := nodes, spans, domains;
    match kind
    case NoDisjointness =>
    case DomainDisjoint => domains' := AddDomains(plan.exposure.Keys, domains);
    case SpanDisjoint => spans' := AddSpans(plan.steps, spans);
    case NodeDisjoint => nodes' := AddNodes(plan.steps, nodes);
  }

  method AddDomains(keys: set<Id>, domains: seq<Id>) returns (domains': seq<Id>)
    ensures domains <= domains' && forall id :: id in domains' <==> id in domains || id in keys
  {
    domains' := domains;
    var left := keys;
    while left != {}
      invariant left <= keys && domains <= domains'
      invariant forall id :: id in domains' <==> id in domains || id in keys - left
      decreases |left|
    {
      var d :| d in left;
      domains' := domains' + [d];
      left := left - {d};
    }
  }

  method AddSpans(steps: seq<PlanStep>, spans: seq<Id>) returns (spans': seq<Id>)
    ensures spans <= spans'
    ensures forall id :: id in spans' <==> id in spans || (id in SpanIds(steps) && Validation.IdText(id))
  {
    spans' := spans;
    for k := 0 to |steps|
      invariant spans <= spans'
      invariant forall id :: id in spans' <==> id in spans || (id in SpanIds(steps[..k]) && Validation.IdText(id))
    {
      SpanIdsGrow(steps, k);
      if steps[k].resource.kind == SpanKind && Validation.IdText(steps[k].resource.text) {
        spans' := spans' + [steps[k].resource.text];
      }
    }
    assert steps[..|steps|] == steps;
  }

  lemma {:induction false} SpanIdsGrow(steps: seq<PlanStep>, k: nat)
    requires k < |steps|
    ensures SpanIds(steps[..k + 1]) ==
            SpanIds(steps[..k]) + if steps[k].resource.kind == SpanKind then {steps[k].resource.text} else {}
  {
    forall id
      ensures id in SpanIds(steps[..k + 1]) <==>
              id in SpanIds(steps[..k]) || (steps[k].resource.kind == SpanKind && id == steps[k].resource.text)
    {
      assert steps[..k + 1][k] == steps[k];
      if id in SpanIds(steps[..k]) {
        var i :| 0 <= i < k && steps[..k][i].resource.kind == SpanKind && steps[..k][i].resource.text == id;
        assert steps[..k + 1][i] == steps[..k][i];
      }
    }
  }

  /** The node a step takes away, if it names one: its own, or that of its port. */
  function StepNode(step: PlanStep): Option<Id> {
    if step.resource.kind == NodeKind then Some(step.resource.text)
    else if step.resource.kind == PortKind then
      var colon := Validation.Colon(step.resource.text, 0);
      if colon < |step.resource.text| then Some(step.resource.text[..colon]) else None
    else None
  }

  method AddNodes(steps: seq<PlanStep>, nodes: seq<Id>) returns (nodes': seq<Id>)
    ensures nodes <= nodes'
    ensures forall id :: id in nodes' <==>
              id in nodes || (id in NodeIds(steps) + PortNodes(steps) && Validation.IdText(id))
  {
    nodes' := nodes;
    for k := 0 to |steps|
      invariant nodes <= nodes'
      invariant forall id :: id in nodes' <==>
                  id in nodes || (Validation.IdText(id) && exists i :: 0 <= i < k && StepNode(steps[i]) == Some(id))
    {
      var node := StepNode(steps[k]);
      if node.Some? && Validation.IdText(node.value) {
        nodes' := nodes' + [node.value];
      }
    }
    forall id
      ensures id in NodeIds(steps) + PortNodes(steps) <==>
                exists i :: 0 <= i < |steps| && StepNode(steps[i]) == Some(id)
    {
      StepNodesAre(steps, id);
    }
  }

  lemma {:induction false} StepNodesAre(steps: seq<PlanStep>, id: Id)
    ensures id in NodeIds(steps) + PortNodes(steps) <==>
              exists i :: 0 <= i < |steps| && StepNode(steps[i]) == Some(id)
  {
    if id in NodeIds(steps) {
      var i :| 0 <= i < |steps| && steps[i].resource.kind == NodeKind && steps[i].resource.text == id;
      assert StepNode(steps[i]) == Some(id);
    }
    if id in PortNodes(steps) {
      var i :| 0 <= i < |steps| && steps[i].resource.kind == PortKind
               && Validation.Colon(steps[i].resource.text, 0) < |steps[i].resource.text|
               && steps[i].resource.text[..Validation.Colon(steps[i].resource.text, 0)] == id;
      assert StepNode(steps[i]) == Some(id);
    }
  }

  /** The exclusion lists hold everything of the plan that a later pass must not use. */
  ghost predicate Withholds(kind: Disjointness, plan: Plan, nodes: seq<Id>, spans: seq<Id>, domains: seq<Id>) {
    && (forall id | id in TakenNodes(kind, plan) :: id in nodes)
    && (forall id | id in TakenSpans(kind, plan) :: id in spans)
    && (forall d | d in TakenDomains(kind, plan) :: d in domains)
  }

  ghost predicate WithheldFrom(kind: Disjointness, plan: Plan, w: Request) {
    Withholds(kind, plan, w.constraints.excludedNodes, w.constraints.excludedSpans, w.constraints.excludedDomains)
  }

  /** The request of one disjoint pass. */
  function Working(req: Request, nodes: seq<Id>, spans: seq<Id>, domains: seq<Id>): Request {
    var c := req.constraints;
    req.(maxCandidates := 1, disjointness := NoDisjointness,
         constraints := c.(excludedNodes := c.excludedNodes + nodes, excludedSpans := c.excludedSpans + spans,
                           excludedDomains := c.excludedDomains + domains))
  }

  /** The plan a pass under `w` yields: backed and, on the exact fragment, least. */
  ghost predicate Won(net: Snapshot, req: Request, w: Request, options: Options, plan: Plan) {
    Backed(net, req, w, plan) && (Exact(ProblemFor(net, w, options)) ==> LeastPlan(net, w, plan))
  }

  /** A candidate under the request of its pass: backed and, on the exact fragment, least. */
  ghost predicate Holds(net: Snapshot, req: Request, options: Options, w: Request, plan: Plan) {
    && Tightens(w, req) && Backed(net, req, w, plan)
    && (Exact(ProblemFor(net, req, options)) ==> LeastPlan(net, w, plan))
  }

  /** The request of a later pass excludes all that the earlier one did, and what it found. */
  ghost predicate Later(kind: Disjointness, plan: Plan, earlier: Request, later: Request) {
    Tightens(later, earlier) && WithheldFrom(kind, plan, later)
  }

  /** Accepted plans with the requests of their passes. */
  ghost predicate Chain(net: Snapshot, req: Request, options: Options, accepted: seq<Plan>, works: seq<Request>) {
    && |accepted| == |works|
    && (works != [] ==> works[0] == Working(req, [], [], []))
    && (forall i | 0 <= i < |works| :: Holds(net, req, options, works[i], accepted[i]))
    && (forall i, j | 0 <= i < j < |works| :: Later(req.disjointness, accepted[i], works[i], works[j]))
  }

  /** The current exclusions cover a pass. */
  ghost predicate Covering(req: Request, plan: Plan, w: Request, nodes: seq<Id>, spans: seq<Id>, domains: seq<Id>) {
    Withholds(req.disjointness, plan, nodes, spans, domains) && Tightens(Working(req, nodes, spans, domains), w)
  }

  /** They cover every pass so far. */
  ghost predicate Covers(req: Request, accepted: seq<Plan>, works: seq<Request>,
                         nodes: seq<Id>, spans: seq<Id>, domains: seq<Id>)
    requires |accepted| == |works|
  {
    forall i | 0 <= i < |works| :: Covering(req, accepted[i], works[i], nodes, spans, domains)
  }

  /** Every exclusion was taken by some accepted plan. */
  ghost predicate Sourced(kind: Disjointness, accepted: seq<Plan>, nodes: seq<Id>, spans: seq<Id>, domains: seq<Id>) {
    && (forall id | id in nodes :: exists i :: 0 <= i < |accepted| && id in TakenNodes(kind, accepted[i]))
    && (forall id | id in spans :: exists i :: 0 <= i < |accepted| && id in TakenSpans(kind, accepted[i]))
    && (forall id | id in domains :: exists i :: 0 <= i < |accepted| && id in TakenDomains(kind, accepted[i]))
  }

  lemma {:induction false} SourcedGrows(kind: Disjointness, accepted: seq<Plan>, plan: Plan, nodes: seq<Id>,
                                        spans: seq<Id>, domains: seq<Id>, nodes': seq<Id>, spans': seq<Id>,
                                        domains': seq<Id>)
    requires Sourced(kind, accepted, nodes, spans, domains)
    requires forall id | id in nodes' :: id in nodes || id in TakenNodes(kind, plan)
    requires forall id | id in spans' :: id in spans || id in TakenSpans(kind, plan)
    requires forall id | id in domains' :: id in domains || id in TakenDomains(kind, plan)
    ensures Sourced(kind, accepted + [plan], nodes', spans', domains')
  {
    var all := accepted + [plan];
    assert all[|accepted|] == plan;
    forall id | id in nodes'
      ensures exists i :: 0 <= i < |all| && id in TakenNodes(kind, all[i])
    {
      if id in nodes {
        var i :| 0 <= i < |accepted| && id in TakenNodes(kind, accepted[i]);
        assert all[i] == accepted[i];
      }
    }
    forall id | id in spans'
      ensures exists i :: 0 <= i < |all| && id in TakenSpans(kind, all[i])
    {
      if id in spans {
        var i :| 0 <= i < |accepted| && id in TakenSpans(kind, accepted[i]);
        assert all[i] == accepted[i];
      }
    }
    forall id | id in domains'
      ensures exists i :: 0 <= i < |all| && id in TakenDomains(kind, all[i])
    {
      if id in domains {
        var i :| 0 <= i < |accepted| && id in TakenDomains(kind, accepted[i]);
        assert all[i] == accepted[i];
      }
    }
  }

  /** Nothing is excluded twice: no id is listed twice, and no span that the request had
      excluded itself. */
  ghost predicate NamedOnce(req: Request, nodes: seq<Id>, spans: seq<Id>, domains: seq<Id>) {
    && Distinct(nodes) && Distinct(spans) && Distinct(domains)
    && forall id | id in spans :: id !in req.constraints.excludedSpans
  }

  /** `w` asks for a route next to the accepted ones: it excludes what they took, each id once,
      and no more than that beyond the request. */
  ghost predicate AsksNext(req: Request, accepted: seq<Plan>, works: seq<Request>, w: Request)
    requires |accepted| == |works|
  {
    exists nodes, spans, domains ::
      && w == Working(req, nodes, spans, domains)
      && Covers(req, accepted, works, nodes, spans, domains)
      && Sourced(req.disjointness, accepted, nodes, spans, domains)
      && NamedOnce(req, nodes, spans, domains)
  }

  /** Covering depends only on which ids are excluded, not on their order. */
  lemma {:induction false} CoveringSameIds(req: Request, plan: Plan, v: Request, nodes: seq<Id>, spans: seq<Id>,
                                           domains: seq<Id>, nodes': seq<Id>, spans': seq<Id>, domains': seq<Id>)
    requires Covering(req, plan, v, nodes, spans, domains)
    requires forall x | x in nodes :: x in nodes'
    requires forall x | x in spans :: x in spans'
    requires forall x | x in domains :: x in domains'
    ensures Covering(req, plan, v, nodes', spans', domains')
  {
    var w, w' := Working(req, nodes, spans, domains), Working(req, nodes', spans', domains');
    assert Tightens(w', w);
    TightensTransitive(w', w, v);
  }

  lemma {:induction false} CoversSameIds(req: Request, accepted: seq<Plan>, works: seq<Request>, nodes: seq<Id>,
                                         spans: seq<Id>, domains: seq<Id>, nodes': seq<Id>, spans': seq<Id>,
                                         domains': seq<Id>)
    requires |accepted| == |works| && Covers(req, accepted, works, nodes, spans, domains)
    requires forall x | x in nodes :: x in nodes'
    requires forall x | x in spans :: x in spans'
    requires forall x | x in domains :: x in domains'
    ensures Covers(req, accepted, works, nodes', spans', domains')
  {
    forall i | 0 <= i < |works|
      ensures Covering(req, accepted[i], works[i], nodes', spans', domains')
    {
      assert Covering(req, accepted[i], works[i], nodes, spans, domains);
      CoveringSameIds(req, accepted[i], works[i], nodes, spans, domains, nodes', spans', domains');
    }
  }

  lemma {:induction false} WonHolds(net: Snapshot, req: Request, options: Options, plan: Plan, nodes: seq<Id>,
                                    spans: seq<Id>, domains: seq<Id>)
    requires Won(net, req, Working(req, nodes, spans, domains), options, plan)
    ensures Holds(net, req, options, Working(req, nodes, spans, domains), plan)
  {
    var w := Working(req, nodes, spans, domains);
    assert Tightens(w, req);
    if Exact(ProblemFor(net, req, options)) {
      var p := ProblemFor(net, req, options);
      ExactTightens(net, w, req, p.maxExpansions, p.maxLabels);
    }
  }

  lemma {:induction false} CoveringIsLater(req: Request, plan: Plan, v: Request, nodes: seq<Id>, spans: seq<Id>,
                                           domains: seq<Id>)
    requires Covering(req, plan, v, nodes, spans, domains)
    ensures Later(req.disjointness, plan, v, Working(req, nodes, spans, domains))
  {}

  lemma {:induction false} ChainGrows(net: Snapshot, req: Request, options: Options, accepted: seq<Plan>,
                                      works: seq<Request>, plan: Plan, nodes: seq<Id>, spans: seq<Id>, domains: seq<Id>)
    requires Chain(net, req, options, accepted, works) && Covers(req, accepted, works, nodes, spans, domains)
    requires accepted == [] ==> nodes == [] && spans == [] && domains == []
    requires Won(net, req, Working(req, nodes, spans, domains), options, plan)
    ensures Chain(net, req, options, accepted + [plan], works + [Working(req, nodes, spans, domains)])
  {
    var w := Working(req, nodes, spans, domains);
    WonHolds(net, req, options, plan, nodes, spans, domains);
    CoversLater(req, accepted, works, nodes, spans, domains);
    ChainJoins(net, req, options, accepted, works, plan, w);
  }

  lemma {:induction false} CoversLater(req: Request, accepted: seq<Plan>, works: seq<Request>, nodes: seq<Id>,
                                       spans: seq<Id>, domains: seq<Id>)
    requires |accepted| == |works| && Covers(req, accepted, works, nodes, spans, domains)
    ensures forall i | 0 <= i < |works| ::
              Later(req.disjointness, accepted[i], works[i], Working(req, nodes, spans, domains))
  {
    forall i | 0 <= i < |works|
      ensures Later(req.disjointness, accepted[i], works[i], Working(req, nodes, spans, domains))
    {
      assert Covering(req, accepted[i], works[i], nodes, spans, domains);
      CoveringIsLater(req, accepted[i], works[i], nodes, spans, domains);
    }
  }

  lemma {:induction false} ChainJoins(net: Snapshot, req: Request, options: Options, accepted: seq<Plan>,
                                      works: seq<Request>, plan: Plan, w: Request)
    requires Chain(net, req, options, accepted, works) && Holds(net, req, options, w, plan)
    requires accepted == [] ==> w == Working(req, [], [], [])
    requires forall i | 0 <= i < |works| :: Later(req.disjointness, accepted[i], works[i], w)
    ensures Chain(net, req, options, accepted + [plan], works + [w])
  {}

  lemma {:induction false} BackedAvoids(net: Snapshot, req: Request, w: Request, plan: Plan, ids: set<Id>)
    requires Backed(net, req, w, plan) && forall id | id in ids :: id in w.constraints.excludedSpans
    ensures SpanIds(plan.steps) !! ids
  {
    var route :| Backs(net, req, w, plan, route);
    PlanAvoidsSpans(net, w, req, route, ids);
  }

  /** The exclusions for the next pass cover the passes so far, and hold no span id that the
      request had excluded itself. */
  ghost predicate Tracked(req: Request, accepted: seq<Plan>, works: seq<Request>, nodes: seq<Id>, spans: seq<Id>,
                          domains: seq<Id>)
  {
    && |accepted| == |works| && Covers(req, accepted, works, nodes, spans, domains)
    && (accepted == [] ==> nodes == [] && spans == [] && domains == [])
    && (forall id | id in spans :: id !in req.constraints.excludedSpans)
  }

  /** What one disjoint pass leaves behind: the accepted plans and their requests, and the
      exclusions for the next pass. */
  ghost predicate Passed(net: Snapshot, req: Request, options: Options, accepted: seq<Plan>, works: seq<Request>,
                         nodes: seq<Id>, spans: seq<Id>, domains: seq<Id>)
  {
    Chain(net, req, options, accepted, works) && Tracked(req, accepted, works, nodes, spans, domains)
  }

  /** The request of the next pass: everything excluded so far, sorted and without repetitions. */
  method NextRequest(req: Request, accepted: seq<Plan>, ghost works: seq<Request>, nodes: seq<Id>, spans: seq<Id>,
                     domains: seq<Id>)
    returns (w: Request, valid: bool, nodes': seq<Id>, spans': seq<Id>, domains': seq<Id>)
    requires Validate(req) == Accepted && Tracked(req, accepted, works, nodes, spans, domains)
    requires Sourced(req.disjointness, accepted, nodes, spans, domains)
    ensures Tracked(req, accepted, works, nodes', spans', domains')
    ensures Sourced(req.disjointness, accepted, nodes', spans', domains')
    ensures AsksNext(req, accepted, works, w) && (valid <==> Validate(w) == Accepted)
    ensures w == Working(req, nodes', spans', domains') && Tightens(w, req)
    ensures accepted == [] ==> w == Working(req, [], [], []) && valid
  {
    nodes' := Ordering.SortUnique(nodes);
    spans' := Ordering.SortUnique(spans);
    domains' := Ordering.SortUnique(domains);
    CoversSameIds(req, accepted, works, nodes, spans, domains, nodes', spans', domains');
    w := Working(req, nodes', spans', domains');
    FirstWorking(req);
    valid := Validate(w) == Accepted;
  }

  /** Takes a plan of a pass: the exclusions grow by what it uses. */
  method Accept(net: Snapshot, req: Request, options: Options, accepted: seq<Plan>, ghost works: seq<Request>,
                plan: Plan, nodes: seq<Id>, spans: seq<Id>, domains: seq<Id>)
    returns (nodes': seq<Id>, spans': seq<Id>, domains': seq<Id>)
    requires Validate(req) == Accepted && Passed(net, req, options, accepted, works, nodes, spans, domains)
    requires Sourced(req.disjointness, accepted, nodes, spans, domains)
    requires Won(net, req, Working(req, nodes, spans, domains), options, plan)
    ensures Passed(net, req, options, accepted + [plan], works + [Working(req, nodes, spans, domains)],
                   nodes', spans', domains')
    ensures Sourced(req.disjointness, accepted + [plan], nodes', spans', domains')
  {
    nodes', spans', domains' := ExtendExclusions(plan, req.disjointness, nodes, spans, domains);
    SourcedGrows(req.disjointness, accepted, plan, nodes, spans, domains, nodes', spans', domains');
    PassedGrows(net, req, options, accepted, works, plan, nodes, spans, domains, nodes', spans', domains');
  }

  /** One disjoint pass: a search under everything excluded so far, and the least plan of it. */
  method DisjointPass(net: Snapshot, req: Request, options: Options, cancel: nat -> bool, accepted: seq<Plan>,
                      ghost works: seq<Request>, nodes: seq<Id>, spans: seq<Id>, domains: seq<Id>)
    returns (stop: Stop, plan: Option<Plan>, optimal: bool, w: Request,
             nodes': seq<Id>, spans': seq<Id>, domains': seq<Id>)
    requires Validate(req) == Accepted && Passed(net, req, options, accepted, works, nodes, spans, domains)
    requires Sourced(req.disjointness, accepted, nodes, spans, domains)
    ensures plan.Some? ==>
              && stop == Complete
              && Passed(net, req, options, accepted + [plan.value], works + [w], nodes', spans', domains')
              && Sourced(req.disjointness, accepted + [plan.value], nodes', spans', domains')
    ensures stop == BuildFailed ==> Tightens(w, req) && SomeBuildFails(net, req, w)
    ensures AsksNext(req, accepted, works, w)
    ensures Tightens(w, req) && (accepted == [] ==> w == Working(req, [], [], []))
    ensures accepted == [] ==> Validate(w) == Accepted
    ensures Validate(w) != Accepted ==> plan.None? && stop == Complete
    ensures Validate(w) == Accepted ==> Reports(net, w, options, cancel, stop, plan.None?, optimal)
    ensures plan.Some? ==> Gives(net, req, w, options, cancel, plan.value)
  {
    var valid, n1, s1, d1;
    w, valid, n1, s1, d1 := NextRequest(req, accepted, works, nodes, spans, domains);
    nodes', spans', domains' := n1, s1, d1;
    stop, plan, optimal := Complete, None, false;
    if !valid {
      return;
    }
    var plans;
    stop, plans, optimal := OnePass(net, req, w, options, cancel, 1);
    if plans == [] {
      return;
    }
    assert plans[0] in plans;
    plan := Some(plans[0]);
    nodes', spans', domains' := Accept(net, req, options, accepted, works, plans[0], n1, s1, d1);
  }

  lemma {:induction false} PassedGrows(net: Snapshot, req: Request, options: Options, accepted: seq<Plan>,
                                       works: seq<Request>, plan: Plan, nodes: seq<Id>, spans: seq<Id>,
                                       domains: seq<Id>, nodes': seq<Id>, spans': seq<Id>, domains': seq<Id>)
    requires Passed(net, req, options, accepted, works, nodes, spans, domains)
    requires Won(net, req, Working(req, nodes, spans, domains), options, plan)
    requires nodes <= nodes' && spans <= spans' && domains <= domains'
    requires Withholds(req.disjointness, plan, nodes', spans', domains')
    requires forall id | id in spans' :: id in spans || id in TakenSpans(req.disjointness, plan)
    ensures Passed(net, req, options, accepted + [plan], works + [Working(req, nodes, spans, domains)],
                   nodes', spans', domains')
  {
    var w := Working(req, nodes, spans, domains);
    ChainGrows(net, req, options, accepted, works, plan, nodes, spans, domains);
    BackedAvoids(net, req, w, plan, set id | id in req.constraints.excludedSpans);
    TrackedGrows(req, accepted, works, plan, nodes, spans, domains, nodes', spans', domains');
  }

  lemma {:induction false} TrackedGrows(req: Request, accepted: seq<Plan>, works: seq<Request>, plan: Plan,
                                        nodes: seq<Id>, spans: seq<Id>, domains: seq<Id>, nodes': seq<Id>,
                                        spans': seq<Id>, domains': seq<Id>)
    requires Tracked(req, accepted, works, nodes, spans, domains)
    requires SpanIds(plan.steps) !! set id | id in req.constraints.excludedSpans
    requires nodes <= nodes' && spans <= spans' && domains <= domains'
    requires Withholds(req.disjointness, plan, nodes', spans', domains')
    requires forall id | id in spans' :: id in spans || id in TakenSpans(req.disjointness, plan)
    ensures Tracked(req, accepted + [plan], works + [Working(req, nodes, spans, domains)], nodes', spans', domains')
  {
    CoversMore(req, accepted, works, plan, Working(req, nodes, spans, domains), nodes, spans, domains, nodes', spans',
               domains');
  }

  /** With nothing to exclude yet, the first pass asks what the request asks. */
  lemma {:induction false} FirstWorking(req: Request)
    requires Validate(req) == Accepted
    ensures Validate(Working(req, [], [], [])) == Accepted
  {
    var c := req.constraints;
    assert c.excludedNodes + [] == c.excludedNodes && c.excludedSpans + [] == c.excludedSpans
           && c.excludedDomains + [] == c.excludedDomains;
  }

  // ----- the passes that were run ---------------------------------------------------------

  /** A run of disjoint passes: what each accepted pass found and was asked, and the request of the
      pass that ended the run, if it was not the number of candidates that did. */
  datatype Trace = Trace(found: seq<Plan>, works: seq<Request>, last: Option<Request>)

  /** The requests that were searched, in order. */
  function Executed(t: Trace): seq<Request> {
    t.works + (if t.last.Some? && Validate(t.last.value) == Accepted then [t.last.value] else [])
  }

  /** A search that was not cancelled and has a proven path. */
  ghost predicate Fruitful(net: Snapshot, w: Request, options: Options, cancel: nat -> bool) {
    var o := Search(ProblemFor(net, w, options), cancel);
    Validate(w) == Accepted && !o.cancelled && AnyProven(o.paths)
  }

  /** The plan is the least that the search yields. */
  ghost predicate Gives(net: Snapshot, req: Request, w: Request, options: Options, cancel: nat -> bool, plan: Plan) {
    PassPlans(net, req, w, options, cancel, 1) == [plan]
  }

  /** Pass `i` asked for a route next to the ones found before it, and its search had one: what it
      found is the plan that its search yields. */
  ghost predicate PassDone(net: Snapshot, req: Request, options: Options, cancel: nat -> nat -> bool, found: seq<Plan>,
                           works: seq<Request>, i: nat)
    requires i < |found| == |works|
  {
    && AsksNext(req, found[..i], works[..i], works[i]) && Fruitful(net, works[i], options, cancel(i))
    && Gives(net, req, works[i], options, cancel(i), found[i])
  }

  ghost predicate Walked(net: Snapshot, req: Request, options: Options, cancel: nat -> nat -> bool, found: seq<Plan>,
                         works: seq<Request>)
  {
    |found| == |works| && forall i: nat | i < |works| :: PassDone(net, req, options, cancel, found, works, i)
  }

  /** A longer run of passes still has the earlier ones. */
  lemma {:induction false} PassKept(net: Snapshot, req: Request, options: Options, cancel: nat -> nat -> bool,
                                    found: seq<Plan>, works: seq<Request>, plan: Plan, w: Request, i: nat)
    requires i < |found| == |works| && PassDone(net, req, options, cancel, found, works, i)
    ensures PassDone(net, req, options, cancel, found + [plan], works + [w], i)
  {
    assert (found + [plan])[..i] == found[..i] && (works + [w])[..i] == works[..i];
    assert (works + [w])[i] == works[i] && (found + [plan])[i] == found[i];
  }

  lemma {:induction false} PassAdded(net: Snapshot, req: Request, options: Options, cancel: nat -> nat -> bool,
                                     found: seq<Plan>, works: seq<Request>, plan: Plan, w: Request)
    requires |found| == |works|
    requires AsksNext(req, found, works, w) && Fruitful(net, w, options, cancel(|found|))
    requires Gives(net, req, w, options, cancel(|found|), plan)
    ensures PassDone(net, req, options, cancel, found + [plan], works + [w], |found|)
  {
    assert (found + [plan])[..|found|] == found && (works + [w])[..|found|] == works;
    assert (works + [w])[|found|] == w && (found + [plan])[|found|] == plan;
  }

  lemma {:induction false} WalkedGrows(net: Snapshot, req: Request, options: Options, cancel: nat -> nat -> bool,
                                       found: seq<Plan>, works: seq<Request>, plan: Plan, w: Request)
    requires Walked(net, req, options, cancel, found, works)
    requires AsksNext(req, found, works, w) && Fruitful(net, w, options, cancel(|found|))
    requires Gives(net, req, w, options, cancel(|found|), plan)
    ensures Walked(net, req, options, cancel, found + [plan], works + [w])
  {
    PassAdded(net, req, options, cancel, found, works, plan, w);
    forall i: nat | i < |works|
      ensures PassDone(net, req, options, cancel, found + [plan], works + [w], i)
    {
      PassKept(net, req, options, cancel, found, works, plan, w, i);
    }
  }

  /** The pass that ended the run, and how its search ended. */
  ghost predicate LastPass(req: Request, t: Trace, w: Request) {
    && |t.found| == |t.works| && |t.found| < req.maxCandidates && t.last == Some(w)
    && AsksNext(req, t.found, t.works, w)
  }

  /** How a run of passes ends: cancelled, with a plan that cannot be built, or because there are
      enough candidates or the next pass finds none. */
  ghost predicate Ended(net: Snapshot, req: Request, options: Options, cancel: nat -> nat -> bool, t: Trace,
                        cancelled: bool, failed: bool)
  {
    match t.last
    case None => |t.found| == req.maxCandidates && !cancelled && !failed
    case Some(w) =>
      && LastPass(req, t, w)
      && var o := Search(ProblemFor(net, w, options), cancel(|t.found|));
         if Validate(w) != Accepted then !cancelled && !failed
         else if o.cancelled then cancelled
         else if failed then !cancelled && SomeBuildFails(net, req, w)
         else !cancelled && !AnyProven(o.paths)
  }

  ghost predicate Interrupted(net: Snapshot, w: Request, options: Options, cancel: nat -> bool) {
    Search(ProblemFor(net, w, options), cancel).cancelled
  }

  /** Some search of the run was cancelled. */
  ghost predicate SomeCancelled(net: Snapshot, options: Options, cancel: nat -> nat -> bool, t: Trace) {
    exists i: nat :: i < |Executed(t)| && Interrupted(net, Executed(t)[i], options, cancel(i))
  }

  lemma {:induction false} FruitfulRuns(net: Snapshot, req: Request, options: Options, cancel: nat -> nat -> bool,
                                        t: Trace, i: nat)
    requires i < |t.found| == |t.works| && PassDone(net, req, options, cancel, t.found, t.works, i)
    ensures !Interrupted(net, Executed(t)[i], options, cancel(i))
  {}

  lemma {:induction false} LastHalts(net: Snapshot, req: Request, options: Options, cancel: nat -> nat -> bool,
                                     t: Trace, cancelled: bool, failed: bool)
    requires |t.found| == |t.works| && Ended(net, req, options, cancel, t, cancelled, failed)
    ensures cancelled <==>
              |Executed(t)| > |t.works| && Interrupted(net, Executed(t)[|t.works|], options, cancel(|t.works|))
  {}

  lemma {:induction false} EarlierRan(net: Snapshot, req: Request, options: Options, cancel: nat -> nat -> bool,
                                      t: Trace)
    requires Walked(net, req, options, cancel, t.found, t.works)
    ensures NoneInterrupted(net, options, cancel, t, |t.works|)
  {
    forall i: nat | i < |t.works|
      ensures !Interrupted(net, Executed(t)[i], options, cancel(i))
    {
      assert PassDone(net, req, options, cancel, t.found, t.works, i);
      FruitfulRuns(net, req, options, cancel, t, i);
    }
  }

  ghost predicate NoneInterrupted(net: Snapshot, options: Options, cancel: nat -> nat -> bool, t: Trace, n: nat)
    requires n <= |Executed(t)|
  {
    forall i: nat | i < n :: !Interrupted(net, Executed(t)[i], options, cancel(i))
  }

  /** A cancelled search ends the run: no pass before the last was cancelled. */
  lemma {:induction false} CancelledIsLast(net: Snapshot, req: Request, options: Options, cancel: nat -> nat -> bool,
                                           t: Trace, cancelled: bool, failed: bool)
    requires Walked(net, req, options, cancel, t.found, t.works)
    requires Ended(net, req, options, cancel, t, cancelled, failed)
    ensures SomeCancelled(net, options, cancel, t) <==> cancelled
  {
    EarlierRan(net, req, options, cancel, t);
    LastHalts(net, req, options, cancel, t, cancelled, failed);
    OnlyLastHalts(net, options, cancel, t, |t.works|);
  }

  lemma {:induction false} OnlyLastHalts(net: Snapshot, options: Options, cancel: nat -> nat -> bool, t: Trace, n: nat)
    requires n <= |Executed(t)| <= n + 1 && NoneInterrupted(net, options, cancel, t, n)
    ensures SomeCancelled(net, options, cancel, t) <==>
              |Executed(t)| > n && Interrupted(net, Executed(t)[n], options, cancel(n))
  {
    if SomeCancelled(net, options, cancel, t) {
      var i: nat :| i < |Executed(t)| && Interrupted(net, Executed(t)[i], options, cancel(i));
      assert i == n;
    }
  }

  /** Searches once per requested candidate, excluding what the earlier candidates use, until a
      pass finds nothing. */
  method PlanDisjoint(net: Snapshot, req: Request, options: Options, cancel: nat -> nat -> bool)
    returns (stop: Stop, accepted: seq<Plan>, optimal: bool, ghost trace: Trace)
    requires Validate(req) == Accepted && Disjointly(req)
    ensures Chain(net, req, options, trace.found, trace.works)
    ensures Walked(net, req, options, cancel, trace.found, trace.works)
    ensures Ended(net, req, options, cancel, trace, stop == CallerCancelled, stop == BuildFailed)
    ensures accepted == if stop == CallerCancelled || stop == BuildFailed then [] else trace.found
    ensures Grounds(net, req, options, cancel, stop, accepted, optimal)
  {
    var nodes, spans, domains: seq<Id> := [], [], [];
    ghost var works: seq<Request> := [];
    stop, accepted, optimal, trace := Complete, [], false, Trace([], [], None);
    while |accepted| < req.maxCandidates
      invariant |accepted| <= req.maxCandidates && (|accepted| == req.maxCandidates ==> accepted != [])
      invariant FirstPassed(net, req, options, cancel, accepted, optimal)
      invariant stop == Complete && Passed(net, req, options, accepted, works, nodes, spans, domains)
      invariant Sourced(req.disjointness, accepted, nodes, spans, domains)
      invariant Walked(net, req, options, cancel, accepted, works)
    {
      var stopped, plan, opt, w, n, s, d :=
        DisjointPass(net, req, options, cancel(|accepted|), accepted, works, nodes, spans, domains);
      if accepted == [] {
        optimal := opt;
      }
      if plan.None? {
        trace := Trace(accepted, works, Some(w));
        LastEnds(net, req, options, cancel, trace, w, stopped, opt);
        if stopped == CallerCancelled || stopped == BuildFailed {
          StoppedGrounds(net, req, options, cancel, |accepted|, w, stopped, accepted == []);
          return stopped, [], false, trace;
        }
        stop := stopped;
        ChainBacked(net, req, options, accepted, works);
        return;
      }
      WalkedGrows(net, req, options, cancel, accepted, works, plan.value, w);
      accepted, works, nodes, spans, domains := accepted + [plan.value], works + [w], n, s, d;
    }
    trace := Trace(accepted, works, None);
    ChainBacked(net, req, options, accepted, works);
  }

  lemma {:induction false} LastEnds(net: Snapshot, req: Request, options: Options, cancel: nat -> nat -> bool,
                                    t: Trace, w: Request, stop: Stop, optimal: bool)
    requires |t.found| == |t.works| && |t.found| < req.maxCandidates && t.last == Some(w)
    requires AsksNext(req, t.found, t.works, w)
    requires if Validate(w) == Accepted then Reports(net, w, options, cancel(|t.found|), stop, true, optimal)
             else stop == Complete
    requires stop == BuildFailed ==> SomeBuildFails(net, req, w)
    ensures Ended(net, req, options, cancel, t, stop == CallerCancelled, stop == BuildFailed)
  {}

  /** What is known of the first search once a candidate was accepted. */
  ghost predicate FirstPassed(net: Snapshot, req: Request, options: Options, cancel: nat -> nat -> bool,
                              accepted: seq<Plan>, optimal: bool)
  {
    var o := FirstOutcome(net, req, options, cancel);
    accepted != [] ==> (optimal <==> o.provedOptimum) && !o.cancelled && AnyProven(o.paths)
  }

  /** A pass that was cancelled or failed to build stops everything. */
  lemma {:induction false} StoppedGrounds(net: Snapshot, req: Request, options: Options, cancel: nat -> nat -> bool,
                                          pass: nat, w: Request, stop: Stop, first: bool)
    requires Disjointly(req) && Tightens(w, req) && (stop == CallerCancelled || stop == BuildFailed)
    requires stop == CallerCancelled ==> Search(ProblemFor(net, w, options), cancel(pass)).cancelled
    requires stop == BuildFailed ==> SomeBuildFails(net, req, w)
    requires first ==> pass == 0 && w == Working(req, [], [], [])
    requires first && stop == BuildFailed ==> !Search(ProblemFor(net, w, options), cancel(pass)).cancelled
    requires !first ==> !FirstOutcome(net, req, options, cancel).cancelled
    ensures Grounds(net, req, options, cancel, stop, [], false)
  {}

  /** Some pass of the planner was cancelled. */
  ghost predicate PassCancelled(net: Snapshot, req: Request, options: Options, cancel: nat -> nat -> bool) {
    exists w, pass: nat :: Tightens(w, req) && Search(ProblemFor(net, w, options), cancel(pass)).cancelled
  }

  lemma {:induction false} CoversMore(req: Request, accepted: seq<Plan>, works: seq<Request>, plan: Plan, w: Request,
                                      nodes: seq<Id>, spans: seq<Id>, domains: seq<Id>,
                                      nodes': seq<Id>, spans': seq<Id>, domains': seq<Id>)
    requires |accepted| == |works| && Covers(req, accepted, works, nodes, spans, domains)
    requires w == Working(req, nodes, spans, domains)
    requires nodes <= nodes' && spans <= spans' && domains <= domains'
    requires Withholds(req.disjointness, plan, nodes', spans', domains')
    ensures Covers(req, accepted + [plan], works + [w], nodes', spans', domains')
  {
    CoversSameIds(req, accepted, works, nodes, spans, domains, nodes', spans', domains');
    assert Tightens(Working(req, nodes', spans', domains'), w);
    assert Covering(req, plan, w, nodes', spans', domains');
  }

  // ----- what disjointness means ----------------------------------------------------------

  /** Span-disjoint candidates share no span id, as long as span ids are well formed. */
  lemma {:induction false} SpanDisjointly(net: Snapshot, req: Request, options: Options, accepted: seq<Plan>,
                                          works: seq<Request>, i: nat, j: nat)
    requires Chain(net, req, options, accepted, works) && req.disjointness == SpanDisjoint && i < j < |accepted|
    requires forall id | id in SpanIds(accepted[i].steps) :: Validation.IdText(id)
    ensures SpanIds(accepted[i].steps) !! SpanIds(accepted[j].steps)
  {
    assert Later(req.disjointness, accepted[i], works[i], works[j]) && Holds(net, req, options, works[j], accepted[j]);
    BackedAvoids(net, req, works[j], accepted[j], SpanIds(accepted[i].steps));
  }

  /** No arc of a later domain-disjoint candidate belongs to a domain an earlier one reports. */
  lemma {:induction false} DomainDisjointly(net: Snapshot, req: Request, options: Options, accepted: seq<Plan>,
                                            works: seq<Request>, i: nat, j: nat) returns (route: seq<Arc>)
    requires Chain(net, req, options, accepted, works) && req.disjointness == DomainDisjoint && i < j < |accepted|
    ensures Backs(net, req, works[j], accepted[j], route)
    ensures forall k | 0 <= k < |route| ::
              InRange(net, route[k]) && ArcDomains(net, route[k]) !! accepted[i].exposure.Keys
  {
    assert Holds(net, req, options, works[j], accepted[j]);
    route :| Backs(net, req, works[j], accepted[j], route);
    assert Later(req.disjointness, accepted[i], works[i], works[j]) && Holds(net, req, options, works[j], accepted[j]);
    ReplayAvoids(net, works[j], route);
    forall k | 0 <= k < |route|
      ensures InRange(net, route[k]) && ArcDomains(net, route[k]) !! accepted[i].exposure.Keys
    {
      assert !HitsExcludedDomain(works[j], ArcDomains(net, route[k]));
    }
  }

  /** Node-disjointness returns at most one candidate: the source node is excluded after the
      first. */
  lemma {:induction false} NodeDisjointly(net: Snapshot, req: Request, options: Options, accepted: seq<Plan>,
                                          works: seq<Request>)
    requires Chain(net, req, options, accepted, works) && req.disjointness == NodeDisjoint
    requires Validation.IdText(req.source.node)
    ensures |accepted| <= 1
  {
    if |accepted| > 1 {
      assert Holds(net, req, options, works[0], accepted[0]) && Holds(net, req, options, works[1], accepted[1]);
      var first :| Backs(net, req, works[0], accepted[0], first);
      ReplayRelaxes(net, works[0], req, first);
      SourceNodeNamed(net, req, first);
      assert Later(req.disjointness, accepted[0], works[0], works[1]);
      var second :| Backs(net, req, works[1], accepted[1], second);
      ReplayAvoids(net, works[1], second);
    }
  }

  /** On the exact fragment candidates come in key order, whatever the passes exclude. */
  lemma {:induction false} ChainOrdered(net: Snapshot, req: Request, options: Options, accepted: seq<Plan>,
                                        works: seq<Request>, i: nat, j: nat)
    requires Chain(net, req, options, accepted, works) && Exact(ProblemFor(net, req, options)) && i < j < |accepted|
    ensures KeyNotAbove(accepted[i], accepted[j])
  {
    assert Holds(net, req, options, works[i], accepted[i]) && Holds(net, req, options, works[j], accepted[j]);
    assert Later(req.disjointness, accepted[i], works[i], works[j]);
    var route :| Backs(net, req, works[j], accepted[j], route);
    ReachesRelaxes(net, works[j], works[i], route);
    BackedFigures(net, req, works[j], accepted[j], route);
  }

  /** The first pass asks what the request asks, so the first candidate is least for the request. */
  lemma {:induction false} FirstIsLeast(net: Snapshot, req: Request, options: Options, accepted: seq<Plan>,
                                        works: seq<Request>)
    requires Chain(net, req, options, accepted, works)
    ensures FirstLeast(net, req, options, accepted)
  {
    if accepted != [] && Exact(ProblemFor(net, req, options)) {
      assert Holds(net, req, options, works[0], accepted[0]);
      FirstTightens(req);
      forall route | Reaches(net, req, route) && Final(net, req, route).proven
        ensures PlanKeyLeq(accepted[0], Final(net, req, route))
      {
        ReachesRelaxes(net, req, works[0], route);
      }
    }
  }

  /** On the exact fragment the first candidate is least among all proven admissible routes. */
  ghost predicate FirstLeast(net: Snapshot, req: Request, options: Options, accepted: seq<Plan>) {
    Exact(ProblemFor(net, req, options)) && accepted != [] ==> LeastPlan(net, req, accepted[0])
  }

  lemma {:induction false} FirstTightens(req: Request)
    ensures Tightens(req, Working(req, [], [], [])) && Tightens(Working(req, [], [], []), req)
  {
    var c := req.constraints;
    assert c.excludedNodes + [] == c.excludedNodes && c.excludedSpans + [] == c.excludedSpans
           && c.excludedDomains + [] == c.excludedDomains;
  }

  // ----- verdicts -------------------------------------------------------------------------

  predicate Disjointly(req: Request) { req.disjointness != NoDisjointness && req.maxCandidates > 1 }

  /** The request of the first pass. */
  function FirstRequest(req: Request): Request {
    if Disjointly(req) then Working(req, [], [], []) else req
  }

  /** The snapshot is as recent as the request demands. */
  ghost predicate CurrentEnough(net: Snapshot, req: Request) {
    && (net.restored ==> req.acceptRestored)
    && (req.requiredGeneration.Some? ==> req.requiredGeneration.value <= net.generation)
    && (req.expectedDigest.Some? ==> req.expectedDigest.value == net.digest)
    && (forall id | id in req.requiredSources :: id in net.sources && req.requiredSources[id] <= net.sources[id])
  }

  method SourcesCurrent(net: Snapshot, req: Request) returns (ok: bool)
    ensures ok <==> forall id | id in req.requiredSources ::
                      id in net.sources && req.requiredSources[id] <= net.sources[id]
  {
    var left := req.requiredSources.Keys;
    while left != {}
      invariant left <= req.requiredSources.Keys
      invariant forall id | id in req.requiredSources && id !in left ::
                  id in net.sources && req.requiredSources[id] <= net.sources[id]
      decreases |left|
    {
      var id :| id in left;
      if id !in net.sources || net.sources[id] < req.requiredSources[id] {
        return false;
      }
      left := left - {id};
    }
    return true;
  }

  /** Every verdict with its grounds.  FEASIBLE means candidates, each built from a proven
      admissible route, on evidence the request accepts; INFEASIBLE means complete coverage and
      either an endpoint without a record or a first search that was exhausted and empty. */
  ghost predicate VerdictSound(net: Snapshot, req: Request, options: Options, cancel: nat -> nat -> bool,
                               result: Result)
  {
    && (result.verdict == Feasible <==> result.candidates != [])
    && (result.verdict == Feasible ==>
          Validate(req) == Accepted && CurrentEnough(net, req) && |result.candidates| <= req.maxCandidates)
    && (forall p | p in result.candidates :: exists w :: Tightens(w, req) && Backed(net, req, w, p))
    && (result.verdict == Infeasible ==>
          && net.coverageComplete && Validate(req) == Accepted && CurrentEnough(net, req)
          && (req.source !in net.ports || req.destination !in net.ports
              || NothingFound(net, FirstOutcome(net, req, options, cancel))))
    && (result.verdict == Refused ==>
          Validate(req) == Refused'
          || (Validate(req) == Accepted && exists w :: Tightens(w, req) && SomeBuildFails(net, req, w)))
    && (result.verdict == Verdict.Cancelled ==> PassCancelled(net, req, options, cancel))
    && (result.optimalityProven <==>
          && net.coverageComplete && result.verdict == Feasible
          && FirstOutcome(net, req, options, cancel).provedOptimum)
  }

  /** The gates before any search: a well-formed request, evidence that is recent enough, a width
      the grid can carry, and a record for both endpoints. */
  ghost predicate Searchable(net: Snapshot, req: Request) {
    && Validate(req) == Accepted && CurrentEnough(net, req) && !(net.fixedGrid && req.width != 1)
    && req.source in net.ports && req.destination in net.ports
  }

  /** Which verdict is due.  Past the gates it is decided by the first search, unless a plan
      cannot be built or the caller cancels. */
  ghost predicate VerdictDue(net: Snapshot, req: Request, options: Options, cancel: nat -> nat -> bool, v: Verdict) {
    match Validate(req)
    case Refused' => v == Refused
    case Unsupported' => v == Unsupported
    case Accepted =>
      if !CurrentEnough(net, req) then v == Indeterminate
      else if net.fixedGrid && req.width != 1 then v == Unsupported
      else if !Searchable(net, req) then v == if net.coverageComplete then Infeasible else Indeterminate
      else
        var first := FirstOutcome(net, req, options, cancel);
        if first.cancelled then v == Verdict.Cancelled
        else
          || v == Refused || v == Verdict.Cancelled
          || v == (if AnyProven(first.paths) then Feasible
                   else if NothingFound(net, first) then Infeasible else Indeterminate)
  }

  /** Answers a planning request. */
  method PlanRoutes(net: Snapshot, req: Request, options: Options, cancel: nat -> nat -> bool)
    returns (result: Result, ghost trace: Trace)
    ensures VerdictSound(net, req, options, cancel, result)
    ensures VerdictDue(net, req, options, cancel, result.verdict)
    ensures FirstLeast(net, req, options, result.candidates)
    ensures if Searchable(net, req) then Followed(net, req, options, cancel, result.verdict == Verdict.Cancelled,
                                                  result.verdict == Refused, result.candidates, trace)
            else Executed(trace) == []
    ensures result.verdict == Verdict.Cancelled <==> SomeCancelled(net, options, cancel, trace)
    ensures SomeCancelled(net, options, cancel, trace) ==> result.candidates == []
  {
    var verdict := Gates(net, req);
    if verdict.Some? {
      GatesDecide(net, req, options, cancel, verdict.value);
      return Result(verdict.value, [], false), Trace([], [], None);
    }
    result, trace := PlanBySearch(net, req, options, cancel);
  }

  /** What the gates before any search answer. */
  ghost predicate GateDue(net: Snapshot, req: Request, v: Verdict) {
    && !Searchable(net, req)
    && match Validate(req)
       case Refused' => v == Refused
       case Unsupported' => v == Unsupported
       case Accepted =>
         if !CurrentEnough(net, req) then v == Indeterminate
         else if net.fixedGrid && req.width != 1 then v == Unsupported
         else v == if net.coverageComplete then Infeasible else Indeterminate
  }

  /** The checks before any search, in order. */
  method Gates(net: Snapshot, req: Request) returns (verdict: Option<Verdict>)
    ensures if Searchable(net, req) then verdict == None else verdict.Some? && GateDue(net, req, verdict.value)
  {
    match Validate(req) {
      case Refused' => return Some(Refused);
      case Unsupported' => return Some(Unsupported);
      case Accepted =>
    }
    if net.restored && !req.acceptRestored {
      return Some(Indeterminate);
    }
    if req.requiredGeneration.Some? && net.generation < req.requiredGeneration.value {
      return Some(Indeterminate);
    }
    if req.expectedDigest.Some? && req.expectedDigest.value != net.digest {
      return Some(Indeterminate);
    }
    var current := SourcesCurrent(net, req);
    if !current {
      return Some(Indeterminate);
    }
    if net.fixedGrid && req.width != 1 {
      return Some(Unsupported);
    }
    if req.source !in net.ports || req.destination !in net.ports {
      return Some(if net.coverageComplete then Infeasible else Indeterminate);
    }
    return None;
  }

  lemma {:induction false} GatesDecide(net: Snapshot, req: Request, options: Options, cancel: nat -> nat -> bool,
                                       v: Verdict)
    requires GateDue(net, req, v)
    ensures VerdictSound(net, req, options, cancel, Result(v, [], false)) && VerdictDue(net, req, options, cancel, v)
    ensures v != Verdict.Cancelled && !SomeCancelled(net, options, cancel, Trace([], [], None))
  {
    assert Executed(Trace([], [], None)) == [];
  }

  /** What the passes hand to the classification. */
  ghost predicate Grounds(net: Snapshot, req: Request, options: Options, cancel: nat -> nat -> bool, stop: Stop,
                          accepted: seq<Plan>, optimal: bool)
  {
    && |accepted| <= req.maxCandidates
    && (forall p | p in accepted :: exists w :: Tightens(w, req) && Backed(net, req, w, p))
    && (stop == CallerCancelled || stop == BuildFailed ==> accepted == [])
    && (stop == BuildFailed ==> exists w :: Tightens(w, req) && SomeBuildFails(net, req, w))
    && (stop == CallerCancelled ==> PassCancelled(net, req, options, cancel))
    && (accepted != [] ==> (optimal <==> FirstOutcome(net, req, options, cancel).provedOptimum))
    && FirstDecides(net, FirstOutcome(net, req, options, cancel), stop, accepted == [])
  }

  /** Unless a build fails or a later pass is cancelled, the first search decides. */
  ghost predicate FirstDecides(net: Snapshot, first: Outcome, stop: Stop, none: bool) {
    && (first.cancelled ==> stop == CallerCancelled)
    && (stop != CallerCancelled && stop != BuildFailed ==>
          && (none <==> !AnyProven(first.paths))
          && (none ==> (stop == Complete <==> NothingFound(net, first))))
  }

  ghost function FirstOutcome(net: Snapshot, req: Request, options: Options, cancel: nat -> nat -> bool): Outcome {
    Search(ProblemFor(net, FirstRequest(req), options), cancel(0))
  }

  /** The search passes and the classification of what they found. */
  method PlanBySearch(net: Snapshot, req: Request, options: Options, cancel: nat -> nat -> bool)
    returns (result: Result, ghost trace: Trace)
    requires Searchable(net, req)
    ensures VerdictSound(net, req, options, cancel, result)
    ensures VerdictDue(net, req, options, cancel, result.verdict)
    ensures FirstLeast(net, req, options, result.candidates)
    ensures Followed(net, req, options, cancel, result.verdict == Verdict.Cancelled, result.verdict == Refused,
                     result.candidates, trace)
    ensures result.verdict == Verdict.Cancelled <==> SomeCancelled(net, options, cancel, trace)
  {
    var stop, accepted, optimal;
    if Disjointly(req) {
      stop, accepted, optimal, trace := PlanDisjoint(net, req, options, cancel);
      PassesFollowed(net, req, options, cancel, stop == CallerCancelled, stop == BuildFailed, accepted, trace);
    } else {
      stop, accepted, optimal := PlanOnce(net, req, options, cancel);
      trace := Trace([], [], Some(req));
      OnceFollowed(net, req, options, cancel, stop == CallerCancelled, stop == BuildFailed, accepted, trace);
    }
    result := Classify(net, req, options, cancel, stop, accepted, optimal);
  }

  lemma {:induction false} PassesFollowed(net: Snapshot, req: Request, options: Options, cancel: nat -> nat -> bool,
                                          cancelled: bool, failed: bool, candidates: seq<Plan>, t: Trace)
    requires Disjointly(req) && Chain(net, req, options, t.found, t.works)
    requires Walked(net, req, options, cancel, t.found, t.works)
    requires Ended(net, req, options, cancel, t, cancelled, failed)
    requires candidates == if cancelled || failed then [] else t.found
    ensures Followed(net, req, options, cancel, cancelled, failed, candidates, t)
    ensures FirstLeast(net, req, options, candidates)
    ensures SomeCancelled(net, options, cancel, t) <==> cancelled
  {
    FirstIsLeast(net, req, options, t.found, t.works);
    CancelledIsLast(net, req, options, cancel, t, cancelled, failed);
  }

  lemma {:induction false} OnceFollowed(net: Snapshot, req: Request, options: Options, cancel: nat -> nat -> bool,
                                        cancelled: bool, failed: bool, candidates: seq<Plan>, t: Trace)
    requires !Disjointly(req) && Validate(req) == Accepted && t == Trace([], [], Some(req))
    requires candidates != [] ==> OneFull(net, req, options, cancel, candidates)
    requires cancelled <==> Interrupted(net, req, options, cancel(0))
    ensures Followed(net, req, options, cancel, cancelled, failed, candidates, t)
    ensures SomeCancelled(net, options, cancel, t) <==> cancelled
  {
    assert Executed(t) == [req];
    OnlyLastHalts(net, options, cancel, t, 0);
  }

  /** The candidates are what the passes found, none withheld.  With one pass they are distinct,
      in key order, and fewer than asked for only if they are the plans of all proven paths.  With
      disjoint passes each asks for what the earlier ones left and is least there, and there are
      fewer only if the next pass finds nothing. */
  ghost predicate Followed(net: Snapshot, req: Request, options: Options, cancel: nat -> nat -> bool,
                           cancelled: bool, failed: bool, candidates: seq<Plan>, t: Trace)
  {
    if Disjointly(req) then
      && Chain(net, req, options, t.found, t.works) && Walked(net, req, options, cancel, t.found, t.works)
      && Ended(net, req, options, cancel, t, cancelled, failed)
      && candidates == if cancelled || failed then [] else t.found
    else
      t == Trace([], [], Some(req)) && (candidates != [] ==> OneFull(net, req, options, cancel, candidates))
  }

  function Cut(plans: seq<Plan>, n: nat): seq<Plan> { if |plans| <= n then plans else plans[..n] }

  /** How many plans a single pass may build. */
  function Budget(req: Request): nat {
    if req.disjointness == NoDisjointness then req.maxCandidates else Min(64, req.maxCandidates * 8)
  }

  ghost predicate OneFull(net: Snapshot, req: Request, options: Options, cancel: nat -> nat -> bool,
                          accepted: seq<Plan>)
  {
    && accepted == Cut(PassPlans(net, req, req, options, cancel(0), Budget(req)), req.maxCandidates)
    && Distinct(accepted) && KeysAscend(accepted)
    && (|accepted| < req.maxCandidates ==>
          AllBuilt(net, req, FirstOutcome(net, req, options, cancel).paths, accepted))
  }

  /** One pass for all candidates. */
  method PlanOnce(net: Snapshot, req: Request, options: Options, cancel: nat -> nat -> bool)
    returns (stop: Stop, accepted: seq<Plan>, optimal: bool)
    requires Validate(req) == Accepted && !Disjointly(req)
    ensures Grounds(net, req, options, cancel, stop, accepted, optimal) && FirstLeast(net, req, options, accepted)
    ensures stop == Complete ==> OneFull(net, req, options, cancel, accepted)
    ensures accepted != [] ==> stop == Complete
    ensures stop == CallerCancelled <==> Interrupted(net, req, options, cancel(0))
  {
    var plans, proved;
    FirstTightens(req);
    stop, plans, proved := OnePass(net, req, req, options, cancel(0), Budget(req));
    optimal := proved && stop != CallerCancelled;
    accepted := Cut(plans, req.maxCandidates);
    if stop == Complete {
      OnceFull(net, req, options, cancel, plans, accepted);
    }
    OnceGrounds(net, req, options, cancel, stop, accepted, proved);
    OnceLeast(net, req, options, plans, accepted);
  }

  lemma {:induction false} OnceLeast(net: Snapshot, req: Request, options: Options, plans: seq<Plan>,
                                     accepted: seq<Plan>)
    requires req.maxCandidates > 0 && accepted == Cut(plans, req.maxCandidates)
    requires plans != [] && Exact(ProblemFor(net, req, options)) ==> LeastPlan(net, req, plans[0])
    ensures FirstLeast(net, req, options, accepted)
  {}

  lemma {:induction false} OnceFull(net: Snapshot, req: Request, options: Options, cancel: nat -> nat -> bool,
                                    plans: seq<Plan>, accepted: seq<Plan>)
    requires Validate(req) == Accepted && !Disjointly(req) && Distinct(plans) && KeysAscend(plans)
    requires plans == PassPlans(net, req, req, options, cancel(0), Budget(req))
    requires |plans| < Budget(req) ==>
               AllBuilt(net, req, Search(ProblemFor(net, req, options), cancel(0)).paths, plans)
    requires accepted == Cut(plans, req.maxCandidates)
    ensures OneFull(net, req, options, cancel, accepted)
  {}

  lemma {:induction false} OnceGrounds(net: Snapshot, req: Request, options: Options, cancel: nat -> nat -> bool,
                                       stop: Stop, accepted: seq<Plan>, proved: bool)
    requires !Disjointly(req) && |accepted| <= req.maxCandidates && (stop != Complete ==> accepted == [])
    requires Reports(net, req, options, cancel(0), stop, accepted == [], proved)
    requires stop == BuildFailed ==> SomeBuildFails(net, req, req)
    requires forall p | p in accepted :: Backed(net, req, req, p)
    ensures Grounds(net, req, options, cancel, stop, accepted, proved && stop != CallerCancelled)
  {
    assert Tightens(req, req);
  }

  /** Names the outcome. */
  method Classify(net: Snapshot, req: Request, options: Options, ghost cancel: nat -> nat -> bool, stop: Stop,
                  accepted: seq<Plan>, optimal: bool) returns (result: Result)
    requires Searchable(net, req)
    requires Grounds(net, req, options, cancel, stop, accepted, optimal)
    ensures VerdictSound(net, req, options, cancel, result) && result.candidates == accepted
    ensures VerdictDue(net, req, options, cancel, result.verdict)
    ensures result.verdict == Verdict.Cancelled <==> stop == CallerCancelled
    ensures result.verdict == Refused <==> stop == BuildFailed
  {
    if accepted != [] {
      return Result(Feasible, accepted, optimal && net.coverageComplete);
    }
    var verdict := match stop
      case Complete => Infeasible
      case KnowledgeGap => Indeterminate
      case HitBound => Indeterminate
      case BuildFailed => Refused
      case CallerCancelled => Verdict.Cancelled;
    result := Result(verdict, [], false);
  }

  lemma {:induction false} ChainBacked(net: Snapshot, req: Request, options: Options, accepted: seq<Plan>,
                                       works: seq<Request>)
    requires Chain(net, req, options, accepted, works)
    ensures forall p | p in accepted :: exists w :: Tightens(w, req) && Backed(net, req, w, p)
  {
    forall p | p in accepted
      ensures exists w :: Tightens(w, req) && Backed(net, req, w, p)
    {
      var i :| 0 <= i < |accepted| && accepted[i] == p;
      assert Holds(net, req, options, works[i], accepted[i]);
    }
  }
}
