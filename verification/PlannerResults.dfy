/** What a verdict of the planner means for the network. */
module PlannerResults {
  import opened Base
  import opened Network
  import opened Rules
  import opened Routes
  import opened SearchModel
  import opened SearchOptimality
  import opened SearchResults
  import opened SearchLoss
  import opened PlanModel
  import opened PlanTheorems
  import opened PlannerRules
  import opened Planner

  lemma {:induction false} BuildsAlways(net: Snapshot, req: Request, w: Request, route: seq<Arc>)
    requires Sealed(net) && Validate(req) == Accepted && Tightens(w, req)
    requires Reaches(net, w, route) && Final(net, w, route).proven
    ensures Assemble(net, req, route).Some?
  {
    ReachesRelaxes(net, w, req, route);
    PlanAgrees(net, req, route);
  }

  /** On a sealed snapshot only a malformed request is refused: no path of any pass fails to
      become a plan. */
  lemma {:induction false} RefusedMeansMalformed(net: Snapshot, req: Request, options: Options,
                                                 cancel: nat -> nat -> bool, result: Result)
    requires Sealed(net) && VerdictSound(net, req, options, cancel, result) && result.verdict == Refused
    ensures Validate(req) == Refused'
  {
    if Validate(req) == Accepted {
      var w :| Tightens(w, req) && SomeBuildFails(net, req, w);
      var route :| Reaches(net, w, route) && Final(net, w, route).proven && Assemble(net, req, route).None?;
      BuildsAlways(net, req, w, route);
    }
  }

  /** INFEASIBLE on the exact fragment: no admissible route exists, proven or not. */
  lemma {:induction false} InfeasibleMeansNone(net: Snapshot, req: Request, options: Options,
                                               cancel: nat -> nat -> bool, result: Result, route: seq<Arc>)
    requires Exact(ProblemFor(net, req, options)) && VerdictSound(net, req, options, cancel, result)
    requires result.verdict == Infeasible
    ensures !Reaches(net, req, route)
  {
    if Reaches(net, req, route) {
      EndpointsPresent(net, req, route);
      var w := FirstRequest(req);
      FirstTightens(req);
      ReachesRelaxes(net, req, w, route);
      var pb := ProblemFor(net, req, options);
      ExactTightens(net, w, req, pb.maxExpansions, pb.maxLabels);
      SearchComplete(ProblemFor(net, w, options), cancel(0), route);
    }
  }

  /** INFEASIBLE in general: an admissible route can exist only if the first search refused some
      better label the step that the route takes, for a member limit or a loop with a restart. */
  lemma {:induction false} InfeasibleMeansLost(net: Snapshot, req: Request, options: Options,
                                               cancel: nat -> nat -> bool, result: Result, route: seq<Arc>)
    requires Sealed(net) && VerdictSound(net, req, options, cancel, result) && result.verdict == Infeasible
    requires Reaches(net, req, route)
    ensures var pb := ProblemFor(net, FirstRequest(req), options);
            Start(net, pb.req).Some? && Loses(pb, Run(pb, Initial(Start(net, pb.req).value), cancel(0), 0), route)
  {
    EndpointsPresent(net, req, route);
    var w := FirstRequest(req);
    FirstTightens(req);
    ReachesRelaxes(net, req, w, route);
    ReplayPrefix(net, w, route, 0);
    assert route[..0] == [];
    EmptyMeansLost(ProblemFor(net, w, options), cancel(0), Start(net, w).value, route);
  }

  lemma {:induction false} EndpointsPresent(net: Snapshot, req: Request, route: seq<Arc>)
    requires Reaches(net, req, route)
    ensures req.source in net.ports && req.destination in net.ports
  {
    ReplayPrefix(net, req, route, 0);
    assert route[..0] == [];
    FinalPort(net, req, route);
    ReplayPortExists(net, req, route);
  }

  /** Every published candidate replays as an admissible proven route of the request itself,
      with the published cost, hops and regenerations, and meets every declared member limit. */
  lemma {:induction false} CandidateHolds(net: Snapshot, req: Request, options: Options, cancel: nat -> nat -> bool,
                                          result: Result, p: Plan) returns (route: seq<Arc>)
    requires VerdictSound(net, req, options, cancel, result) && p in result.candidates
    ensures Reaches(net, req, route) && Assemble(net, req, route) == Some(p)
    ensures var l := Final(net, req, route);
            l.proven && p.totalCost == l.cost && p.hops == l.hops && p.regenerations == l.regenerations
    ensures forall d | d in req.constraints.memberLimits ::
              MemberCount(p.exposure, d) <= req.constraints.memberLimits[d]
  {
    var w :| Tightens(w, req) && Backed(net, req, w, p);
    route :| Backs(net, req, w, p, route);
    ReachesRelaxes(net, w, req, route);
    BackedFigures(net, req, w, p, route);
    forall d | d in req.constraints.memberLimits
      ensures MemberCount(p.exposure, d) <= req.constraints.memberLimits[d]
    {
      PlanWithinLimits(net, req, route, d);
    }
  }

  /** Past the gates, on a sealed snapshot, the verdict of a request that is not cancelled is
      exactly what its first search says: FEASIBLE if some path is proven, INFEASIBLE if a full
      search over complete evidence found nothing at all, INDETERMINATE otherwise. */
  lemma {:induction false} VerdictDecided(net: Snapshot, req: Request, options: Options, cancel: nat -> nat -> bool,
                                          result: Result)
    requires Sealed(net) && Searchable(net, req) && result.verdict != Verdict.Cancelled
    requires VerdictSound(net, req, options, cancel, result)
    requires VerdictDue(net, req, options, cancel, result.verdict)
    ensures var first := FirstOutcome(net, req, options, cancel);
            result.verdict == (if AnyProven(first.paths) then Feasible
                               else if NothingFound(net, first) then Infeasible else Indeterminate)
  {
    if result.verdict == Refused {
      RefusedMeansMalformed(net, req, options, cancel, result);
    }
  }

  /** On the exact fragment a proven admissible route makes the verdict FEASIBLE, as long as the
      first search runs to its end. */
  lemma {:induction false} RouteMeansFeasible(net: Snapshot, req: Request, options: Options, cancel: nat -> nat -> bool,
                                              result: Result, route: seq<Arc>, start: Label)
    requires Exact(ProblemFor(net, req, options)) && Searchable(net, req) && result.verdict != Verdict.Cancelled
    requires VerdictSound(net, req, options, cancel, result)
    requires VerdictDue(net, req, options, cancel, result.verdict)
    requires Reaches(net, req, route) && Final(net, req, route).proven
    requires Start(net, FirstRequest(req)) == Some(start)
    requires Run(ProblemFor(net, FirstRequest(req), options), Initial(start), cancel(0), 0).status == Running
    ensures result.verdict == Feasible
  {
    ProvenPathReported(net, req, options, cancel, route, start);
    VerdictDecided(net, req, options, cancel, result);
  }

  lemma {:induction false} ProvenPathReported(net: Snapshot, req: Request, options: Options,
                                              cancel: nat -> nat -> bool, route: seq<Arc>, start: Label)
    requires Exact(ProblemFor(net, req, options))
    requires Reaches(net, req, route) && Final(net, req, route).proven
    requires Start(net, FirstRequest(req)) == Some(start)
    requires Run(ProblemFor(net, FirstRequest(req), options), Initial(start), cancel(0), 0).status == Running
    ensures AnyProven(FirstOutcome(net, req, options, cancel).paths)
  {
    var w := FirstRequest(req);
    FirstTightens(req);
    ReachesRelaxes(net, req, w, route);
    var pb := ProblemFor(net, req, options);
    ExactTightens(net, w, req, pb.maxExpansions, pb.maxLabels);
    var p := SearchPareto(ProblemFor(net, w, options), cancel(0), start, route);
    assert p.proven;
  }
}
