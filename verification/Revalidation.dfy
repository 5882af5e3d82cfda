/** A plan built from a proven route revalidates against the snapshot it was built from. */
module Revalidation {
  import opened Base
  import opened Network
  import opened Rules
  import opened Routes
  import opened PlanModel
  import opened PlanTheorems
  import opened Validation

  // ----- what revalidation needs of a snapshot --------------------------------------------

  /** Names parse back, and span and cross-connect ids are not shared. */
  ghost predicate WellNamed(net: Snapshot) {
    && (forall p | p in net.ports :: IdText(p.node) && IdText(p.port) && ':' !in p.node)
    && (forall id | id in net.nodes :: IdText(id))
    && (forall i | 0 <= i < |net.spans| :: IdText(net.spans[i].id))
    && (forall i | 0 <= i < |net.crossConnects| :: IdText(net.crossConnects[i].id))
    && (forall i, j | 0 <= i < j < |net.spans| :: net.spans[i].id != net.spans[j].id)
    && (forall i, j | 0 <= i < j < |net.crossConnects| :: net.crossConnects[i].id != net.crossConnects[j].id)
  }

  lemma {:induction false} FindSpanUnique(spans: seq<SpanRecord>, i: nat)
    requires i < |spans| && forall a, b | 0 <= a < b < |spans| :: spans[a].id != spans[b].id
    ensures FindSpan(spans, spans[i].id) == Some(spans[i])
  {
    if i > 0 {
      FindSpanUnique(spans[1..], i - 1);
    }
  }

  lemma {:induction false} FindCrossUnique(crosses: seq<CrossConnectRecord>, i: nat)
    requires i < |crosses| && forall a, b | 0 <= a < b < |crosses| :: crosses[a].id != crosses[b].id
    ensures FindCross(crosses, crosses[i].id) == Some(crosses[i])
  {
    if i > 0 {
      FindCrossUnique(crosses[1..], i - 1);
    }
  }

  lemma {:induction false} FindReservationHolds(reservations: seq<Reservation>, resource: ResourceKey)
    requires exists k :: 0 <= k < |reservations| && reservations[k].resource == resource
    ensures FindReservation(reservations, resource).Some?
    ensures FindReservation(reservations, resource).value in reservations
    ensures FindReservation(reservations, resource).value.resource == resource
  {
    if reservations[0].resource != resource {
      var k :| 0 <= k < |reservations| && reservations[k].resource == resource;
      assert reservations[1..][k - 1].resource == resource;
      FindReservationHolds(reservations[1..], resource);
    }
  }

  // ----- what every step of a built plan names --------------------------------------------

  ghost predicate NamesUpPort(net: Snapshot, resource: ResourceKey, p: PortKey) {
    p in net.ports && resource == ForPort(p) && AdminUp(net.ports[p].admin)
  }

  ghost predicate NamesUpSpan(net: Snapshot, resource: ResourceKey, i: nat) {
    i < |net.spans| && resource == ForSpan(net.spans[i].id) && AdminUp(net.spans[i].admin)
  }

  ghost predicate NamesUpCross(net: Snapshot, resource: ResourceKey, i: nat) {
    i < |net.crossConnects| && resource == ForCrossConnect(net.crossConnects[i].id)
    && AdminUp(net.crossConnects[i].admin)
  }

  /** A step names an existing resource that is up; nodes only have to exist. */
  ghost predicate StepFine(net: Snapshot, step: PlanStep) {
    match step.resource.kind
    case PortKind => exists p :: NamesUpPort(net, step.resource, p)
    case NodeKind => step.resource.text in net.nodes
    case SpanKind => exists i: nat :: NamesUpSpan(net, step.resource, i)
    case CrossConnectKind => exists i: nat :: NamesUpCross(net, step.resource, i)
    case ProfileKind => false
  }

  /** A reservation starts a usable channel of the span it names. */
  ghost predicate ReservesSpan(net: Snapshot, req: Request, r: Reservation, i: nat) {
    && i < |net.spans| && r.resource == ForSpan(net.spans[i].id) && r.width == req.width
    && r.firstSlot in UsableStarts(net, req, net.spans[i].blocked)
  }

  ghost predicate ReservationFine(net: Snapshot, req: Request, r: Reservation) {
    exists i: nat :: ReservesSpan(net, req, r, i)
  }

  ghost predicate Reserved(reservations: seq<Reservation>, resource: ResourceKey) {
    exists k :: 0 <= k < |reservations| && reservations[k].resource == resource
  }

  ghost predicate StepsFine(net: Snapshot, req: Request, steps: seq<PlanStep>, reservations: seq<Reservation>) {
    && (forall k | 0 <= k < |steps| :: StepFine(net, steps[k]))
    && (forall k | 0 <= k < |steps| && steps[k].resource.kind == SpanKind :: Reserved(reservations, steps[k].resource))
    && (forall k | 0 <= k < |reservations| :: ReservationFine(net, req, reservations[k]))
  }

  /** A use repeats the record of the span it names. */
  ghost predicate UseRepeats(net: Snapshot, use: SpanUse, i: nat) {
    && i < |net.spans| && use.id == net.spans[i].id && net.spans[i].length == Known(use.length)
    && net.spans[i].loss == Known(use.loss) && net.spans[i].noise == Known(use.noise)
  }

  ghost predicate UseFine(net: Snapshot, use: SpanUse) {
    exists i: nat :: UseRepeats(net, use, i)
  }

  ghost predicate UsesFine(net: Snapshot, uses: seq<SpanUse>) {
    forall k | 0 <= k < |uses| :: UseFine(net, uses[k])
  }

  ghost predicate SegmentsFine(net: Snapshot, segments: seq<Segment>) {
    forall k | 0 <= k < |segments| :: UsesFine(net, segments[k].spans)
  }

  // ----- drafts keep it -------------------------------------------------------------------

  lemma {:induction false} MoreSteps(net: Snapshot, req: Request, steps: seq<PlanStep>, reservations: seq<Reservation>,
                                     step: PlanStep)
    requires StepsFine(net, req, steps, reservations) && StepFine(net, step)
    requires step.resource.kind == SpanKind ==> Reserved(reservations, step.resource)
    ensures StepsFine(net, req, steps + [step], reservations)
  {}

  lemma {:induction false} MoreReservations(net: Snapshot, req: Request, steps: seq<PlanStep>,
                                            reservations: seq<Reservation>, r: Reservation)
    requires StepsFine(net, req, steps, reservations) && ReservationFine(net, req, r)
    ensures StepsFine(net, req, steps, reservations + [r])
    ensures Reserved(reservations + [r], r.resource)
  {
    var more := reservations + [r];
    assert more[|reservations|] == r;
    forall k | 0 <= k < |steps| && steps[k].resource.kind == SpanKind
      ensures Reserved(more, steps[k].resource)
    {
      var j :| 0 <= j < |reservations| && reservations[j].resource == steps[k].resource;
      assert more[j] == reservations[j];
    }
  }

  /** The steps and reservations a span adds. */
  lemma {:induction false} SpanSteps(net: Snapshot, req: Request, d: Draft, arc: Arc)
    requires InRange(net, arc) && arc.SpanArc? && AddSpan(net, req, d, arc).Some?
    ensures SpanPublished(net, arc) && LowestSlot(SpanMask(net, req, d.mask, arc)).Some?
    ensures var d' := AddSpan(net, req, d, arc).value;
            var span, to := net.spans[arc.index], Arrival(net, arc);
            var slot := LowestSlot(SpanMask(net, req, d.mask, arc)).value;
            && d'.reservations == d.reservations + [Reservation(ForSpan(span.id), slot, req.width, d.segment)]
            && d'.steps == d.steps + [PlanStep(OverSpan, ForSpan(span.id), d.segment, span.cost)]
                 + (if to.node != d.port.node && to.node in net.nodes
                    then [PlanStep(AtNode, ForNode(to.node), d.segment, TransitionCost(net, d.port, to))] else [])
  {}

  /** The steps a cross-connect adds. */
  lemma {:induction false} CrossSteps(net: Snapshot, req: Request, d: Draft, arc: Arc)
    requires InRange(net, arc) && arc.CrossArc? && AddCross(net, req, d, arc).Some?
    ensures var d' := AddCross(net, req, d, arc).value;
            var cross := net.crossConnects[arc.index];
            && cross.to in net.ports
            && d'.reservations == d.reservations
            && d'.steps == d.steps + [PlanStep(OverCrossConnect, ForCrossConnect(cross.id), d'.segment, cross.cost)]
                 + (if cross.op == Express then []
                    else [PlanStep(AtPort, ForPort(cross.to), d'.segment, net.ports[cross.to].transitCost)])
                 + (if cross.op != Express && cross.to.node != d.port.node && cross.to.node in net.nodes
                    then [PlanStep(AtNode, ForNode(cross.to.node), d'.segment, TransitionCost(net, d.port, cross.to))]
                    else [])
  {}

  lemma {:induction false} SpanStepsFine(net: Snapshot, req: Request, d: Draft, l: Label, arc: Arc)
    requires arc.SpanArc? && Agrees(d, l) && Step(net, req, l, arc).Some? && Step(net, req, l, arc).value.proven
    requires AddArc(net, req, d, arc).Some? && StepsFine(net, req, d.steps, d.reservations)
    ensures var d' := AddArc(net, req, d, arc).value; StepsFine(net, req, d'.steps, d'.reservations)
  {
    var span, to := net.spans[arc.index], Arrival(net, arc);
    SpanSteps(net, req, d, arc);
    var mask := SpanMask(net, req, d.mask, arc);
    var slot := LowestSlot(mask).value;
    LowestFromIsLeast(mask, 0);
    var r := Reservation(ForSpan(span.id), slot, req.width, d.segment);
    assert ReservesSpan(net, req, r, arc.index);
    MoreReservations(net, req, d.steps, d.reservations, r);
    var over := PlanStep(OverSpan, ForSpan(span.id), d.segment, span.cost);
    assert NamesUpSpan(net, over.resource, arc.index);
    MoreSteps(net, req, d.steps, d.reservations + [r], over);
    if to.node != d.port.node && to.node in net.nodes {
      MoreSteps(net, req, d.steps + [over], d.reservations + [r],
                PlanStep(AtNode, ForNode(to.node), d.segment, TransitionCost(net, d.port, to)));
    }
  }

  lemma {:induction false} CrossStepsFine(net: Snapshot, req: Request, d: Draft, l: Label, arc: Arc)
    requires arc.CrossArc? && Agrees(d, l) && Step(net, req, l, arc).Some? && Step(net, req, l, arc).value.proven
    requires AddArc(net, req, d, arc).Some? && StepsFine(net, req, d.steps, d.reservations)
    ensures var d' := AddArc(net, req, d, arc).value; StepsFine(net, req, d'.steps, d'.reservations)
  {
    var cross := net.crossConnects[arc.index];
    var d' := AddArc(net, req, d, arc).value;
    CrossSteps(net, req, d, arc);
    var over := PlanStep(OverCrossConnect, ForCrossConnect(cross.id), d'.segment, cross.cost);
    assert NamesUpCross(net, over.resource, arc.index);
    MoreSteps(net, req, d.steps, d.reservations, over);
    if cross.op != Express {
      var at := PlanStep(AtPort, ForPort(cross.to), d'.segment, net.ports[cross.to].transitCost);
      assert NamesUpPort(net, at.resource, cross.to);
      MoreSteps(net, req, d.steps + [over], d.reservations, at);
      if cross.to.node != d.port.node && cross.to.node in net.nodes {
        MoreSteps(net, req, d.steps + [over] + [at], d.reservations,
                  PlanStep(AtNode, ForNode(cross.to.node), d'.segment, TransitionCost(net, d.port, cross.to)));
      }
    }
  }

  lemma {:induction false} BeginStepsFine(net: Snapshot, req: Request)
    requires Start(net, req).Some? && Start(net, req).value.proven && Begin(net, req).Some?
    ensures StepsFine(net, req, Begin(net, req).value.steps, Begin(net, req).value.reservations)
  {
    assert NamesUpPort(net, ForPort(req.source), req.source);
  }

  lemma {:induction false} DraftStepsFine(net: Snapshot, req: Request, route: seq<Arc>)
    requires Replay(net, req, route).Some? && Final(net, req, route).proven && Drafted(net, req, route).Some?
    ensures var d := Drafted(net, req, route).value; StepsFine(net, req, d.steps, d.reservations)
  {
    if route == [] {
      BeginStepsFine(net, req);
    } else {
      var n := |route| - 1;
      var l := Final(net, req, route[..n]);
      StepRaisesKey(net, req, l, route[n]);
      DraftAgrees(net, req, route[..n]);
      DraftStepsFine(net, req, route[..n]);
      if route[n].SpanArc? {
        SpanStepsFine(net, req, Drafted(net, req, route[..n]).value, l, route[n]);
      } else {
        CrossStepsFine(net, req, Drafted(net, req, route[..n]).value, l, route[n]);
      }
    }
  }

  // ----- segments -------------------------------------------------------------------------

  lemma {:induction false} DraftSegmentsFine(net: Snapshot, req: Request, route: seq<Arc>)
    requires Drafted(net, req, route).Some?
    ensures SegmentsFine(net, Drafted(net, req, route).value.segments)
  {
    if route != [] {
      var n := |route| - 1;
      DraftSegmentsFine(net, req, route[..n]);
      ArcSegmentsFine(net, req, Drafted(net, req, route[..n]).value, route[n]);
    }
  }

  lemma {:induction false} ArcSegmentsFine(net: Snapshot, req: Request, d: Draft, arc: Arc)
    requires SegmentsFine(net, d.segments) && AddArc(net, req, d, arc).Some?
    ensures SegmentsFine(net, AddArc(net, req, d, arc).value.segments)
  {
    if arc.SpanArc? {
      SpanEffect(net, req, d, arc);
      var use := UseOf(net, arc, LowestSlot(SpanMask(net, req, d.mask, arc)).value);
      assert UseRepeats(net, use, arc.index);
      assert UseFine(net, use);
      AppendUseFine(net, Opened(d.segments, d.segment, d.profile), use);
    } else {
      CrossEffect(net, req, d, arc);
    }
  }

  lemma {:induction false} AppendUseFine(net: Snapshot, segments: seq<Segment>, use: SpanUse)
    requires segments != [] && SegmentsFine(net, segments) && UseFine(net, use)
    ensures SegmentsFine(net, AppendUse(segments, use))
  {
    var last := segments[|segments| - 1];
    assert UsesFine(net, last.spans + [use]);
  }

  /** Recomputing from the records gives back the sums over the uses. */
  lemma {:induction false} RecomputedSums(net: Snapshot, uses: seq<SpanUse>)
    requires WellNamed(net) && UsesFine(net, uses) && SumLength(uses) < U64_SIZE
    ensures Recomputed(net, uses) == (SumLength(uses), SumLoss(uses), SumNoise(uses), |uses|)
  {
    if uses != [] {
      var n := |uses| - 1;
      RecomputedSums(net, uses[..n]);
      assert UseFine(net, uses[n]);
      var i: nat :| UseRepeats(net, uses[n], i);
      FindSpanUnique(net.spans, i);
    }
  }

  lemma {:induction false} SegmentHolds(net: Snapshot, req: Request, segment: Segment)
    requires WellNamed(net) && SegmentSound(net, req, segment) && UsesFine(net, segment.spans)
    ensures SegmentReproduces(net, segment)
  {
    RecomputedSums(net, segment.spans);
  }

  // ----- steps ----------------------------------------------------------------------------

  /** Wherever the node it names is up, a fine step of the plan holds; a node step also fails
      wherever it is not. */
  lemma {:induction false} FineStepHolds(net: Snapshot, req: Request, plan: Plan, k: nat)
    requires Sealed(net) && WellNamed(net) && StepsFine(net, req, plan.steps, plan.reservations) && k < |plan.steps|
    ensures StepHolds(net, plan, plan.steps[k]) <==>
              (plan.steps[k].resource.kind == NodeKind ==> AdminUp(net.nodes[plan.steps[k].resource.text].admin))
  {
    var step := plan.steps[k];
    assert StepFine(net, step);
    match step.resource.kind
    case PortKind =>
      var p :| NamesUpPort(net, step.resource, p);
      PortTextRoundTrip(p);
    case NodeKind =>
    case SpanKind =>
      SpanStepHolds(net, req, plan, k);
    case CrossConnectKind =>
      var i: nat :| NamesUpCross(net, step.resource, i);
      FindCrossUnique(net.crossConnects, i);
  }

  lemma {:induction false} SpanStepHolds(net: Snapshot, req: Request, plan: Plan, k: nat)
    requires Sealed(net) && WellNamed(net) && StepsFine(net, req, plan.steps, plan.reservations) && k < |plan.steps|
    requires plan.steps[k].resource.kind == SpanKind
    ensures StepHolds(net, plan, plan.steps[k])
  {
    var step := plan.steps[k];
    assert StepFine(net, step);
    var i: nat :| NamesUpSpan(net, step.resource, i);
    FindSpanUnique(net.spans, i);
    assert Reserved(plan.reservations, step.resource);
    FindReservationHolds(plan.reservations, step.resource);
    var r := FindReservation(plan.reservations, step.resource).value;
    var m :| 0 <= m < |plan.reservations| && plan.reservations[m] == r;
    assert ReservationFine(net, req, r);
    var j: nat :| ReservesSpan(net, req, r, j);
    assert j == i;
    ChannelIsFree(net, req, net.spans[i].blocked, r.firstSlot);
  }

  /** The slots of a usable channel are free one by one. */
  lemma {:induction false} ChannelIsFree(net: Snapshot, req: Request, blocked: Evidence<set<nat>>, first: nat)
    requires first in UsableStarts(net, req, blocked)
    ensures Wanted(first, req.width) <= ChannelStarts(FreeSlots(net, blocked), 1)
  {
    var free := FreeSlots(net, blocked);
    assert ChannelFits(free, first, req.width);
    forall slot | slot in Wanted(first, req.width)
      ensures slot in ChannelStarts(free, 1)
    {
      assert slot in free;
      assert ChannelFits(free, slot, 1);
    }
  }

  // ----- the round trip -------------------------------------------------------------------

  /** The steps of a plan are those of its draft, and possibly one for the destination. */
  lemma {:induction false} PlanStepsFine(net: Snapshot, req: Request, route: seq<Arc>)
    requires Sealed(net) && CeilingsValid(req) && Reaches(net, req, route) && Final(net, req, route).proven
    requires Assemble(net, req, route).Some? && Drafted(net, req, route).Some?
    ensures var plan := Assemble(net, req, route).value;
            && StepsFine(net, req, plan.steps, plan.reservations)
            && Drafted(net, req, route).value.steps <= plan.steps
            && (forall k | |Drafted(net, req, route).value.steps| <= k < |plan.steps| ::
                  plan.steps[k].resource.kind == PortKind)
  {
    DraftStepsFine(net, req, route);
    DestinationUp(net, req, route);
    var d := Drafted(net, req, route).value;
    assert NamesUpPort(net, ForPort(req.destination), req.destination);
    MoreSteps(net, req, d.steps, d.reservations, PlanStep(AtPort, ForPort(req.destination), d.segment, 0));
  }

  lemma {:induction false} PlanFine(net: Snapshot, req: Request, route: seq<Arc>)
    requires Sealed(net) && CeilingsValid(req) && Reaches(net, req, route) && Final(net, req, route).proven
    ensures Assemble(net, req, route).Some? && Drafted(net, req, route).Some?
    ensures var plan := Assemble(net, req, route).value;
            && StepsFine(net, req, plan.steps, plan.reservations)
            && SegmentsFine(net, plan.segments)
            && plan.snapshotDigest == net.digest && plan.boundSources == net.sources
            && Drafted(net, req, route).value.steps <= plan.steps
            && (forall k | |Drafted(net, req, route).value.steps| <= k < |plan.steps| ::
                  plan.steps[k].resource.kind == PortKind)
  {
    PlanAgrees(net, req, route);
    DraftAgrees(net, req, route);
    PlanStepsFine(net, req, route);
    DraftSegmentsFine(net, req, route);
  }

  lemma {:induction false} DestinationUp(net: Snapshot, req: Request, route: seq<Arc>)
    requires Replay(net, req, route).Some? && Final(net, req, route).proven
    ensures Final(net, req, route).port in net.ports && AdminUp(net.ports[Final(net, req, route).port].admin)
  {}

  /** Round trip: a plan built from a proven route and revalidated on the snapshot it came from
      reproduces every segment and every step but those of nodes that are not up. */
  lemma {:induction false} RoundTrip(net: Snapshot, req: Request, route: seq<Arc>)
    requires Sealed(net) && WellNamed(net) && CeilingsValid(req)
    requires Reaches(net, req, route) && Final(net, req, route).proven
    ensures Assemble(net, req, route).Some?
    ensures var plan := Assemble(net, req, route).value;
            && BindingsHold(Artifact(plan, true, true), net, true)
            && (forall k | 0 <= k < |plan.segments| :: SegmentReproduces(net, plan.segments[k]))
            && (forall k | 0 <= k < |plan.steps| ::
                  StepHolds(net, plan, plan.steps[k]) <==>
                    (plan.steps[k].resource.kind == NodeKind ==>
                       && plan.steps[k].resource.text in net.nodes
                       && AdminUp(net.nodes[plan.steps[k].resource.text].admin)))
  {
    PlanAgrees(net, req, route);
    PlanFine(net, req, route);
    var plan := Assemble(net, req, route).value;
    forall k | 0 <= k < |plan.segments|
      ensures SegmentReproduces(net, plan.segments[k])
    {
      SegmentHolds(net, req, plan.segments[k]);
    }
    forall k | 0 <= k < |plan.steps|
      ensures StepHolds(net, plan, plan.steps[k]) <==>
                (plan.steps[k].resource.kind == NodeKind ==>
                   && plan.steps[k].resource.text in net.nodes
                   && AdminUp(net.nodes[plan.steps[k].resource.text].admin))
    {
      FineStepHolds(net, req, plan, k);
    }
  }

  predicate NodesUp(net: Snapshot, steps: seq<PlanStep>) {
    forall k | 0 <= k < |steps| && steps[k].resource.kind == NodeKind ::
      steps[k].resource.text in net.nodes && AdminUp(net.nodes[steps[k].resource.text].admin)
  }

  /** So the report on such a plan is Valid exactly when every node it names is up and the caller
      accepts the snapshot if it was restored; and then there are no failures. */
  lemma {:induction false} RoundTripValid(net: Snapshot, req: Request, route: seq<Arc>, plan: Plan, policy: Policy,
                                          report: Report)
    requires Sealed(net) && WellNamed(net) && CeilingsValid(req)
    requires Reaches(net, req, route) && Final(net, req, route).proven && Assemble(net, req, route) == Some(plan)
    requires Reports(Artifact(plan, true, true), net, policy, report)
    ensures report.validity == Valid <==> NodesUp(net, plan.steps) && (net.restored ==> policy.acceptRestored)
    ensures report.validity == Valid ==> report.failures == []
  {
    RoundTrip(net, req, route);
  }
}
