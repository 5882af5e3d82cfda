/** Plans, and how one is assembled from an arc sequence by re-deriving every decision from
    the snapshot records. */
module PlanModel {
  import opened Base
  import opened Network
  import opened Rules

  // ----- plan artifacts -------------------------------------------------------------------

  datatype StepKind = AtNode | AtPort | OverSpan | OverCrossConnect

  datatype PlanStep = PlanStep(kind: StepKind, resource: ResourceKey, segment: nat, cost: u64)

  datatype SpanUse = SpanUse(id: Id, from: PortKey, to: PortKey, length: u64, loss: real, noise: real,
                             cost: u64, firstSlot: nat)

  /** One transparent segment. */
  datatype Segment = Segment(index: nat, profile: Id, spans: seq<SpanUse>, distance: u64, loss: real, noise: real,
                             spanCount: nat, channelRuns: nat, regeneratedBy: Option<Id>)

  datatype Reservation = Reservation(resource: ResourceKey, firstSlot: nat, width: nat, segment: nat)

  datatype Plan = Plan(
    snapshotDigest: string,
    boundSources: map<Id, u64>,
    source: PortKey,
    destination: PortKey,
    width: nat,
    steps: seq<PlanStep>,
    segments: seq<Segment>,
    reservations: seq<Reservation>,
    exposure: map<Id, nat>,
    totalCost: u64,
    hops: nat,
    regenerations: nat)

  // ----- drafts ---------------------------------------------------------------------------

  /** The running totals of an assembly: where the route stands, what the open segment has
      accumulated, and the lists built so far. */
  datatype Draft = Draft(
    port: PortKey,
    profile: Id,
    mask: set<nat>,
    cost: u64,
    distance: u64,
    loss: real,
    noise: real,
    spanCount: nat,
    runs: nat,
    lastSlot: Option<nat>,
    segment: nat,
    steps: seq<PlanStep>,
    segments: seq<Segment>,
    reservations: seq<Reservation>,
    exposure: map<Id, nat>)

  /** The lowest set slot at or above `from`. */
  function LowestFrom(mask: set<nat>, from: nat): Option<nat>
    decreases MAX_SLOTS - from
  {
    if from >= MAX_SLOTS then None
    else if from in mask then Some(from)
    else LowestFrom(mask, from + 1)
  }

  function LowestSlot(mask: set<nat>): Option<nat> { LowestFrom(mask, 0) }

  function MemberCount(exposure: map<Id, nat>, d: Id): nat { if d in exposure then exposure[d] else 0 }

  /** Counts one more member for each of `domains`. */
  function NoteDomains(exposure: map<Id, nat>, domains: set<Id>): map<Id, nat> {
    map d | d in exposure.Keys + domains :: MemberCount(exposure, d) + (if d in domains then 1 else 0)
  }

  /** The segment list with segment `index` as its last, opened if it is not there yet. */
  function Opened(segments: seq<Segment>, index: nat, profile: Id): (r: seq<Segment>)
    ensures r != []
  {
    if segments != [] && segments[|segments| - 1].index == index then segments
    else segments + [Segment(index, profile, [], 0, 0.0, 0.0, 0, 0, None)]
  }

  /** The segment list with one more span in its last segment. */
  function AppendUse(segments: seq<Segment>, use: SpanUse): seq<Segment>
    requires segments != []
  {
    var last := segments[|segments| - 1];
    segments[|segments| - 1 := last.(spans := last.spans + [use])]
  }

  /** The segment list with the running totals of the draft written into its last segment. */
  function CloseLast(segments: seq<Segment>, d: Draft, regeneratedBy: Option<Id>): seq<Segment>
    requires segments != []
  {
    var last := segments[|segments| - 1];
    segments[|segments| - 1 := last.(profile := d.profile, distance := d.distance, loss := d.loss, noise := d.noise,
                                     spanCount := d.spanCount, channelRuns := d.runs, regeneratedBy := regeneratedBy)]
  }

  /** A slot other than the last one reported starts a new channel run. */
  function WithSlot(d: Draft, slot: nat): Draft {
    if d.lastSlot == Some(slot) then d else d.(runs := d.runs + 1, lastSlot := Some(slot))
  }

  function WithStep(d: Draft, kind: StepKind, resource: ResourceKey, cost: u64): Draft {
    d.(steps := d.steps + [PlanStep(kind, resource, d.segment, cost)])
  }

  /** A node step and its domains, when the route enters a recorded node it was not in. */
  function WithNode(net: Snapshot, d: Draft, to: PortKey): Draft {
    if to.node == d.port.node || to.node !in net.nodes then d
    else
      var d1 := WithStep(d, AtNode, ForNode(to.node), TransitionCost(net, d.port, to));
      d1.(exposure := NoteDomains(d1.exposure, net.nodes[to.node].domains))
  }

  function Begin(net: Snapshot, req: Request): Option<Draft> {
    var p := req.source;
    if p !in net.ports || !net.ports[p].transmit.Known? || net.ports[p].transmit.value.None?
       || !net.ports[p].blocked.Known?
    then None
    else
      var port := net.ports[p];
      var nodeCost := if p.node in net.nodes then net.nodes[p.node].transitCost else 0;
      var d := Draft(p, port.transmit.value.value, UsableStarts(net, req, port.blocked),
                     AddWrapping(port.transitCost, nodeCost), 0, 0.0, 0.0, 0, 0, None, 0,
                     [PlanStep(AtPort, ForPort(p), 0, 0)], [], [], NoteDomains(map[], port.domains));
      if p.node !in net.nodes then Some(d)
      else
        var d1 := WithStep(d, AtNode, ForNode(p.node), nodeCost);
        Some(d1.(exposure := NoteDomains(d1.exposure, net.nodes[p.node].domains)))
  }

  /** Charges an arc, the port it reaches and the node it enters. */
  function ChargedCost(net: Snapshot, cost: u64, arc: Arc, from: PortKey): u64
    requires InRange(net, arc) && Arrival(net, arc) in net.ports
  {
    var to := Arrival(net, arc);
    AddWrapping(AddWrapping(AddWrapping(cost, ArcCost(net, arc)), net.ports[to].transitCost),
                TransitionCost(net, from, to))
  }

  predicate SpanPublished(net: Snapshot, arc: Arc)
    requires InRange(net, arc) && arc.SpanArc?
  {
    var span := net.spans[arc.index];
    && span.length.Known? && span.loss.Known? && span.noise.Known? && span.blocked.Known? && span.admin.Known?
    && Arrival(net, arc) in net.ports && net.ports[Arrival(net, arc)].blocked.Known?
  }

  /** The channels left after a span and the port it reaches. */
  function SpanMask(net: Snapshot, req: Request, mask: set<nat>, arc: Arc): set<nat>
    requires InRange(net, arc) && arc.SpanArc? && SpanPublished(net, arc)
  {
    mask * UsableStarts(net, req, net.spans[arc.index].blocked)
         * UsableStarts(net, req, net.ports[Arrival(net, arc)].blocked)
  }

  function UseOf(net: Snapshot, arc: Arc, slot: nat): SpanUse
    requires InRange(net, arc) && arc.SpanArc? && SpanPublished(net, arc)
  {
    var span := net.spans[arc.index];
    SpanUse(span.id, Departure(net, arc), Arrival(net, arc), span.length.value, span.loss.value, span.noise.value,
            span.cost, slot)
  }

  function AddSpan(net: Snapshot, req: Request, d: Draft, arc: Arc): Option<Draft>
    requires InRange(net, arc) && arc.SpanArc?
  {
    if !SpanPublished(net, arc) then None
    else
      var span := net.spans[arc.index];
      var to := Arrival(net, arc);
      var mask := SpanMask(net, req, d.mask, arc);
      match LowestSlot(mask)
      case None => None
      case Some(slot) =>
        var use := UseOf(net, arc, slot);
        var d1 := WithSlot(d.(mask := mask), slot);
        var d2 := d1.(segments := AppendUse(Opened(d1.segments, d1.segment, d1.profile), use),
                      distance := AddWrapping(d1.distance, use.length), loss := d1.loss + use.loss,
                      noise := d1.noise + use.noise, spanCount := d1.spanCount + 1);
        var d3 := WithStep(d2, OverSpan, ForSpan(span.id), span.cost);
        var d4 := d3.(exposure := NoteDomains(NoteDomains(d3.exposure, span.domains), net.ports[to].domains));
        var d5 := WithNode(net, d4, to);
        Some(d5.(cost := ChargedCost(net, d5.cost, arc, d.port), port := to,
                 reservations := d5.reservations + [Reservation(ForSpan(span.id), slot, req.width, d5.segment)]))
  }

  predicate CrossPublished(net: Snapshot, arc: Arc)
    requires InRange(net, arc) && arc.CrossArc?
  {
    var cross := net.crossConnects[arc.index];
    && cross.admin.Known? && cross.blocked.Known?
    && cross.to in net.ports && net.ports[cross.to].blocked.Known?
  }

  /** What the operation of a cross-connect does to the channel and the segment. */
  function Operate(net: Snapshot, req: Request, d: Draft, arc: Arc): Option<Draft>
    requires InRange(net, arc) && arc.CrossArc? && CrossPublished(net, arc)
  {
    var cross := net.crossConnects[arc.index];
    var target := net.ports[cross.to];
    match cross.op
    case Express =>
      var mask := d.mask * UsableStarts(net, req, cross.blocked) * UsableStarts(net, req, target.blocked);
      (match LowestSlot(mask)
       case None => None
       case Some(slot) => Some(WithSlot(d.(mask := mask), slot)))
    case Convert =>
      var mask := UsableStarts(net, req, target.blocked);
      (match LowestSlot(mask)
       case None => None
       case Some(slot) => Some(d.(mask := mask, runs := d.runs + 1, lastSlot := Some(slot))))
    case Regenerate =>
      if !target.transmit.Known? || target.transmit.value.None? then None
      else
        Some(d.(segments := CloseLast(Opened(d.segments, d.segment, d.profile), d, Some(cross.id)),
                segment := d.segment + 1,
                profile := target.transmit.value.value, mask := UsableStarts(net, req, target.blocked),
                distance := 0, loss := 0.0, noise := 0.0, spanCount := 0, runs := 0, lastSlot := None))
  }

  function AddCross(net: Snapshot, req: Request, d: Draft, arc: Arc): Option<Draft>
    requires InRange(net, arc) && arc.CrossArc?
  {
    if !CrossPublished(net, arc) then None
    else
      match Operate(net, req, d, arc)
      case None => None
      case Some(d1) =>
        var cross := net.crossConnects[arc.index];
        var target := net.ports[cross.to];
        var d2 := WithStep(d1, OverCrossConnect, ForCrossConnect(cross.id), cross.cost);
        var d3 := d2.(exposure := NoteDomains(NoteDomains(d2.exposure, cross.domains), target.domains));
        var d4 := if cross.op == Express then d3
                  else WithNode(net, WithStep(d3, AtPort, ForPort(cross.to), target.transitCost), cross.to);
        Some(d4.(cost := ChargedCost(net, d4.cost, arc, d.port), port := cross.to))
  }

  function AddArc(net: Snapshot, req: Request, d: Draft, arc: Arc): Option<Draft> {
    if !InRange(net, arc) then None
    else if arc.SpanArc? then AddSpan(net, req, d, arc)
    else AddCross(net, req, d, arc)
  }

  /** The draft after a whole arc sequence. */
  function Drafted(net: Snapshot, req: Request, arcs: seq<Arc>): Option<Draft> {
    if arcs == [] then Begin(net, req)
    else
      match Drafted(net, req, arcs[..|arcs| - 1])
      case None => None
      case Some(d) => AddArc(net, req, d, arcs[|arcs| - 1])
  }

  /** Closes the last segment and names the destination port as the last step. */
  function Finish(net: Snapshot, req: Request, d: Draft, hops: nat): Option<Plan> {
    if d.port != req.destination || d.port !in net.ports then None
    else
      var d2 := d.(segments := CloseLast(Opened(d.segments, d.segment, d.profile), d, None));
      var d3 := if d2.steps != [] && d2.steps[|d2.steps| - 1].resource == ForPort(req.destination) then d2
                else WithStep(d2, AtPort, ForPort(req.destination), 0);
      Some(Plan(net.digest, net.sources, req.source, req.destination, req.width, d3.steps, d3.segments,
                d3.reservations, d3.exposure, d3.cost, hops, d3.segment))
  }

  /** The plan an arc sequence gives, or None when some decision does not hold. */
  function Assemble(net: Snapshot, req: Request, arcs: seq<Arc>): Option<Plan> {
    match Drafted(net, req, arcs)
    case None => None
    case Some(d) => Finish(net, req, d, |arcs|)
  }
}
