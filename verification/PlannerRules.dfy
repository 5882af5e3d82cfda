/** Request validation, and what tightening a request by exclusions does to its routes. */
module PlannerRules {
  import opened Base
  import opened Network
  import opened Rules
  import opened Routes
  import opened SearchModel
  import opened SearchOptimality
  import opened PlanModel
  import opened Revalidation

  // ----- structural validation ------------------------------------------------------------

  const MAX_CANDIDATES: nat := 16
  const MAX_REGENERATIONS: nat := 64
  const MAX_HOPS: nat := 512
  const MAX_EXCLUSIONS: nat := 4096
  const MAX_MEMBER_LIMITS: nat := 1024
  const MAX_REQUIRED_SOURCES: nat := 64
  const MAX_EXPANSIONS: nat := 20_000_000
  const MAX_LABELS: nat := 40_000_000

  datatype Check = Accepted | Unsupported' | Refused'

  predicate ListValid<T(==)>(s: seq<T>) { |s| <= MAX_EXCLUSIONS && Distinct(s) }

  predicate ConstraintsValid(c: Constraints) {
    && ListValid(c.excludedNodes) && ListValid(c.excludedPorts) && ListValid(c.excludedSpans)
    && ListValid(c.excludedCrossConnects) && ListValid(c.excludedDomains)
    && |c.memberLimits| <= MAX_MEMBER_LIMITS && (forall d | d in c.memberLimits :: c.memberLimits[d] > 0)
    && c.maxSpans != Some(0)
    && (c.maxLoss.Some? ==> 0.0 <= c.maxLoss.value <= 1_000_000_000.0)
    && (c.maxNoise.Some? ==> c.maxNoise.value > 0.0)
  }

  function Validate(req: Request): Check {
    if req.source.node == "" || req.source.port == "" || req.destination.node == "" || req.destination.port == ""
       || req.source == req.destination || req.width == 0 || req.width > MAX_SLOTS
       || req.maxCandidates == 0 || req.maxCandidates > MAX_CANDIDATES || req.maxRegenerations > MAX_REGENERATIONS
       || req.maxHops == 0 || req.maxHops > MAX_HOPS
       || req.maxExpansions == 0 || req.maxExpansions > MAX_EXPANSIONS
       || req.maxLabels == 0 || req.maxLabels > MAX_LABELS
       || |req.requiredSources| > MAX_REQUIRED_SOURCES || !ConstraintsValid(req.constraints)
    then Refused'
    else if req.constraints.requireContinuity || req.constraints.allowRepeated then Unsupported'
    else Accepted
  }

  // ----- tightening -----------------------------------------------------------------------

  /** `w` asks for what `r` asks for, and excludes at least as much. */
  ghost predicate Tightens(w: Request, r: Request) {
    && w == r.(maxCandidates := w.maxCandidates, disjointness := w.disjointness, constraints := w.constraints)
    && w.constraints == r.constraints.(excludedNodes := w.constraints.excludedNodes,
                                       excludedSpans := w.constraints.excludedSpans,
                                       excludedDomains := w.constraints.excludedDomains)
    && (forall x | x in r.constraints.excludedNodes :: x in w.constraints.excludedNodes)
    && (forall x | x in r.constraints.excludedSpans :: x in w.constraints.excludedSpans)
    && (forall x | x in r.constraints.excludedDomains :: x in w.constraints.excludedDomains)
  }

  lemma {:induction false} TightensTransitive(v: Request, w: Request, r: Request)
    requires Tightens(v, w) && Tightens(w, r)
    ensures Tightens(v, r)
  {}

  lemma {:induction false} StartRelaxes(net: Snapshot, w: Request, r: Request)
    requires Tightens(w, r) && Start(net, w).Some?
    ensures Start(net, r) == Start(net, w)
  {
    assert forall b :: UsableStarts(net, r, b) == UsableStarts(net, w, b);
  }

  lemma {:induction false} StepRelaxes(net: Snapshot, w: Request, r: Request, l: Label, arc: Arc)
    requires Tightens(w, r) && Step(net, w, l, arc).Some?
    ensures Step(net, r, l, arc) == Step(net, w, l, arc)
  {
    assert UsableStarts(net, r, ArcBlocked(net, arc)) == UsableStarts(net, w, ArcBlocked(net, arc));
    var b := net.ports[Arrival(net, arc)].blocked;
    assert UsableStarts(net, r, b) == UsableStarts(net, w, b);
    assert KeptMask(net, r, l.mask, arc) == KeptMask(net, w, l.mask, arc);
  }

  lemma {:induction false} ReplayRelaxes(net: Snapshot, w: Request, r: Request, route: seq<Arc>)
    requires Tightens(w, r) && Replay(net, w, route).Some?
    ensures Replay(net, r, route) == Replay(net, w, route)
  {
    if route == [] {
      StartRelaxes(net, w, r);
    } else {
      var n := |route| - 1;
      ReplayRelaxes(net, w, r, route[..n]);
      StepRelaxes(net, w, r, Final(net, w, route[..n]), route[n]);
    }
  }

  /** A route of the tighter request is a route of the looser one, with the same label. */
  lemma {:induction false} ReachesRelaxes(net: Snapshot, w: Request, r: Request, route: seq<Arc>)
    requires Tightens(w, r) && Reaches(net, w, route)
    ensures Reaches(net, r, route) && Final(net, r, route) == Final(net, w, route)
  {
    ReplayRelaxes(net, w, r, route);
  }

  lemma {:induction false} ExactTightens(net: Snapshot, w: Request, r: Request, e: nat, m: nat)
    requires Tightens(w, r) && Exact(Problem(net, r, e, m))
    ensures Exact(Problem(net, w, e, m))
  {}

  // ----- what an exclusion keeps away -----------------------------------------------------

  /** No arc of the route is an excluded span or carries an excluded domain. */
  ghost predicate AvoidsExcluded(net: Snapshot, req: Request, route: seq<Arc>) {
    forall k | 0 <= k < |route| ::
      && InRange(net, route[k])
      && (route[k].SpanArc? ==> net.spans[route[k].index].id !in req.constraints.excludedSpans)
      && !HitsExcludedDomain(req, ArcDomains(net, route[k]))
      && Arrival(net, route[k]).node !in req.constraints.excludedNodes
  }

  lemma {:induction false} ReplayAvoids(net: Snapshot, req: Request, route: seq<Arc>)
    requires Replay(net, req, route).Some?
    ensures AvoidsExcluded(net, req, route) && req.source.node !in req.constraints.excludedNodes
  {
    if route != [] {
      var n := |route| - 1;
      ReplayAvoids(net, req, route[..n]);
      assert forall k | 0 <= k < n :: route[k] == route[..n][k];
    }
  }

  // ----- what a plan tells the next pass --------------------------------------------------

  /** Ids of the spans a plan uses. */
  function SpanIds(steps: seq<PlanStep>): set<Id> {
    set k | 0 <= k < |steps| && steps[k].resource.kind == SpanKind :: steps[k].resource.text
  }

  function NodeIds(steps: seq<PlanStep>): set<Id> {
    set k | 0 <= k < |steps| && steps[k].resource.kind == NodeKind :: steps[k].resource.text
  }

  ghost predicate SpanNamed(net: Snapshot, arc: Arc, id: Id) {
    arc.SpanArc? && InRange(net, arc) && net.spans[arc.index].id == id
  }

  ghost predicate UsesSpan(net: Snapshot, route: seq<Arc>, id: Id) {
    exists k :: 0 <= k < |route| && SpanNamed(net, route[k], id)
  }

  /** Every span step names a span of the route. */
  ghost predicate SpansOnRoute(net: Snapshot, route: seq<Arc>, steps: seq<PlanStep>) {
    forall s | 0 <= s < |steps| && steps[s].resource.kind == SpanKind :: UsesSpan(net, route, steps[s].resource.text)
  }

  lemma {:induction false} UsesSpanGrows(net: Snapshot, init: seq<Arc>, arc: Arc, id: Id)
    ensures UsesSpan(net, init, id) || SpanNamed(net, arc, id) ==> UsesSpan(net, init + [arc], id)
  {
    if UsesSpan(net, init, id) {
      var k :| 0 <= k < |init| && SpanNamed(net, init[k], id);
      assert (init + [arc])[k] == init[k];
    } else if SpanNamed(net, arc, id) {
      assert (init + [arc])[|init|] == arc;
    }
  }

  lemma {:induction false} SpansGrow(net: Snapshot, init: seq<Arc>, arc: Arc, steps: seq<PlanStep>, more: seq<PlanStep>)
    requires SpansOnRoute(net, init, steps)
    requires forall s | 0 <= s < |more| && more[s].resource.kind == SpanKind ::
               SpanNamed(net, arc, more[s].resource.text)
    ensures SpansOnRoute(net, init + [arc], steps + more)
  {
    forall s | 0 <= s < |steps + more| && (steps + more)[s].resource.kind == SpanKind
      ensures UsesSpan(net, init + [arc], (steps + more)[s].resource.text)
    {
      UsesSpanGrows(net, init, arc, (steps + more)[s].resource.text);
    }
  }

  /** The steps an arc adds come after the others, and a span step among them names the arc. */
  lemma {:induction false} NewSteps(net: Snapshot, req: Request, d: Draft, arc: Arc)
    requires AddArc(net, req, d, arc).Some?
    ensures var after := AddArc(net, req, d, arc).value.steps;
            && d.steps <= after
            && forall s | 0 <= s < |after[|d.steps|..]| && after[|d.steps|..][s].resource.kind == SpanKind ::
                 SpanNamed(net, arc, after[|d.steps|..][s].resource.text)
  {
    if arc.SpanArc? {
      SpanSteps(net, req, d, arc);
    } else {
      CrossSteps(net, req, d, arc);
    }
  }

  /** The span steps of a draft name span arcs it was made from. */
  lemma {:induction false} DraftSpans(net: Snapshot, req: Request, route: seq<Arc>)
    requires Drafted(net, req, route).Some?
    ensures SpansOnRoute(net, route, Drafted(net, req, route).value.steps)
  {
    if route != [] {
      var n := |route| - 1;
      DraftSpans(net, req, route[..n]);
      ArcSpans(net, req, Drafted(net, req, route[..n]).value, route[..n], route[n], route);
    }
  }

  lemma {:induction false} ArcSpans(net: Snapshot, req: Request, d: Draft, init: seq<Arc>, arc: Arc, route: seq<Arc>)
    requires route == init + [arc] && AddArc(net, req, d, arc).Some? && SpansOnRoute(net, init, d.steps)
    ensures SpansOnRoute(net, route, AddArc(net, req, d, arc).value.steps)
  {
    var before, after := d.steps, AddArc(net, req, d, arc).value.steps;
    NewSteps(net, req, d, arc);
    assert after == before + after[|before|..];
    SpansGrow(net, init, arc, before, after[|before|..]);
  }

  lemma {:induction false} PlanSpans(net: Snapshot, req: Request, route: seq<Arc>)
    requires Assemble(net, req, route).Some?
    ensures SpansOnRoute(net, route, Assemble(net, req, route).value.steps)
  {
    DraftSpans(net, req, route);
  }

  /** A route that avoids a set of span ids gives a plan that does. */
  lemma {:induction false} PlanAvoidsSpans(net: Snapshot, w: Request, req: Request, route: seq<Arc>, ids: set<Id>)
    requires Replay(net, w, route).Some? && Assemble(net, req, route).Some?
    requires forall id | id in ids :: id in w.constraints.excludedSpans
    ensures SpanIds(Assemble(net, req, route).value.steps) !! ids
  {
    ReplayAvoids(net, w, route);
    forall id | id in SpanIds(Assemble(net, req, route).value.steps)
      ensures id !in ids
    {
      PlanSpans(net, req, route);
      assert UsesSpan(net, route, id);
    }
  }

  /** The first node step of a plan built from a proven route is the source's. */
  lemma {:induction false} SourceNodeNamed(net: Snapshot, req: Request, route: seq<Arc>)
    requires Assemble(net, req, route).Some? && Replay(net, req, route).Some? && Final(net, req, route).proven
    ensures req.source.node in NodeIds(Assemble(net, req, route).value.steps)
  {
    ReplayPrefix(net, req, route, 0);
    assert route[..0] == [];
    SourceStep(net, req, route);
    var steps := Assemble(net, req, route).value.steps;
    assert steps[1].resource.kind == NodeKind && steps[1].resource.text == req.source.node;
  }

  lemma {:induction false} SourceStep(net: Snapshot, req: Request, route: seq<Arc>)
    requires Drafted(net, req, route).Some? && req.source.node in net.nodes
    ensures |Drafted(net, req, route).value.steps| >= 2
    ensures Drafted(net, req, route).value.steps[1].resource == ForNode(req.source.node)
  {
    if route != [] {
      var n := |route| - 1;
      SourceStep(net, req, route[..n]);
      if route[n].SpanArc? {
        SpanSteps(net, req, Drafted(net, req, route[..n]).value, route[n]);
      } else {
        CrossSteps(net, req, Drafted(net, req, route[..n]).value, route[n]);
      }
    }
  }
}
