/** The step rules of the route search: what one arc does to a label, when it is cut, and
    the dominance order by which labels are pruned. */
module Rules {
  import opened Base
  import opened Network

  // ----- facts ----------------------------------------------------------------------------

  datatype Fact = Good | Blocked | Missing

  function ClassifyAdmin(admin: Evidence<AdminState>): Fact {
    match admin
    case Known(state) => if state == Up then Good else Blocked
    case _ => Missing
  }

  /** The channel starts a resource leaves usable.  An unpublished blocked set blocks nothing
      here; it costs the route its proof instead. */
  function UsableStarts(net: Snapshot, req: Request, blocked: Evidence<set<nat>>): set<nat> {
    var free := SlotRange(net.slotCount);
    ChannelStarts(if blocked.Known? then free - blocked.value else free, req.width)
  }

  predicate Conflicting(net: Snapshot, p: PortKey) {
    ForPort(p) in net.conflicted || (p.node in net.nodes && ForNode(p.node) in net.conflicted)
  }

  predicate PartialCoverage(net: Snapshot, p: PortKey) {
    p.node !in net.nodes || !net.nodes[p.node].complete
  }

  /** Every fact needed to stand on port `p` is published without contradiction. */
  predicate PortClear(net: Snapshot, p: PortKey)
    requires p in net.ports
  {
    && ClassifyAdmin(net.ports[p].admin) == Good
    && !Conflicting(net, p)
    && !PartialCoverage(net, p)
    && p !in net.unresolvedAt
    && net.ports[p].blocked.Known?
  }

  predicate TransmitAbsent(net: Snapshot, p: PortKey)
    requires p in net.ports
  {
    net.ports[p].transmit == Known(None)
  }

  /** The published reach profile of the transmitter at `p`, when it has a record. */
  function TransmitProfile(net: Snapshot, p: PortKey): Option<Id>
    requires p in net.ports
  {
    match net.ports[p].transmit
    case Known(Some(id)) => if id in net.profiles then Some(id) else None
    case _ => None
  }

  // ----- labels ---------------------------------------------------------------------------

  /** Where a partial route stands and what its current transparent segment has used up. */
  datatype Label = Label(
    port: PortKey,
    profile: Option<Id>,
    mask: set<nat>,
    cost: u64,
    distance: u64,
    loss: real,
    noise: real,
    spans: nat,
    hops: nat,
    regenerations: nat,
    proven: bool)

  /** At least as good as `reference` in every dimension that matters for the future. */
  predicate Dominates(candidate: Label, reference: Label) {
    && (reference.proven ==> candidate.proven)
    && candidate.cost <= reference.cost
    && candidate.distance <= reference.distance
    && candidate.loss <= reference.loss
    && candidate.noise <= reference.noise
    && candidate.spans <= reference.spans
    && candidate.hops <= reference.hops
    && candidate.regenerations <= reference.regenerations
    && reference.mask <= candidate.mask
  }

  /** Labels are compared only within one bucket: the same port under the same profile. */
  predicate SameBucket(a: Label, b: Label) {
    a.port == b.port && a.profile == b.profile
  }

  predicate KeyLess(a: Label, b: Label) {
    if a.cost != b.cost then a.cost < b.cost
    else if a.hops != b.hops then a.hops < b.hops
    else a.regenerations < b.regenerations
  }

  /** The candidate order: cost, then hops, then regenerations. */
  predicate KeyLeq(a: Label, b: Label) { !KeyLess(b, a) }

  // ----- the start label ------------------------------------------------------------------

  predicate Excluded(req: Request, p: PortKey) {
    p in req.constraints.excludedPorts || p.node in req.constraints.excludedNodes
  }

  predicate HitsExcludedDomain(req: Request, domains: set<Id>) {
    exists d :: d in domains && d in req.constraints.excludedDomains
  }

  function Start(net: Snapshot, req: Request): Option<Label> {
    var p := req.source;
    if p !in net.ports || Excluded(req, p) || HitsExcludedDomain(req, net.ports[p].domains)
       || ClassifyAdmin(net.ports[p].admin) == Blocked || TransmitAbsent(net, p)
       || UsableStarts(net, req, net.ports[p].blocked) == {}
    then None
    else
      var profile := TransmitProfile(net, p);
      var nodeCost := if p.node in net.nodes then net.nodes[p.node].transitCost else 0;
      Some(Label(p, profile, UsableStarts(net, req, net.ports[p].blocked),
                 AddWrapping(net.ports[p].transitCost, nodeCost),
                 0, 0.0, 0.0, 0, 0, 0, PortClear(net, p) && profile.Some?))
  }

  // ----- one arc --------------------------------------------------------------------------

  function IsRegeneration(net: Snapshot, arc: Arc): bool
    requires InRange(net, arc)
  {
    arc.CrossArc? && net.crossConnects[arc.index].op == Regenerate
  }

  /** The conditions an arc must meet that do not depend on how the route got there. */
  predicate Passable(net: Snapshot, req: Request, arc: Arc)
    requires Exists(net, arc)
  {
    var to := Arrival(net, arc);
    && (match arc
        case SpanArc(i, _) => net.spans[i].id !in req.constraints.excludedSpans
        case CrossArc(i) =>
          && net.crossConnects[i].id !in req.constraints.excludedCrossConnects
          && OpAllowed(req.constraints, net.crossConnects[i].op))
    && !Excluded(req, to)
    && !HitsExcludedDomain(req, ArcDomains(net, arc))
    && ClassifyAdmin(ArcAdmin(net, arc)) != Blocked
    && ClassifyAdmin(net.ports[to].admin) != Blocked
    && (IsRegeneration(net, arc) ==> !TransmitAbsent(net, to))
  }

  /** Everything about the arc and the port it reaches is published.  A conflicted
      cross-connect does not count against the proof; a conflicted span does. */
  predicate ArcClear(net: Snapshot, arc: Arc)
    requires Exists(net, arc)
  {
    && ClassifyAdmin(ArcAdmin(net, arc)) == Good
    && ArcBlocked(net, arc).Known?
    && PortClear(net, Arrival(net, arc))
    && (arc.SpanArc? ==>
          var span := net.spans[arc.index];
          && span.length.Known? && span.loss.Known? && span.noise.Known?
          && ForSpan(span.id) !in net.conflicted)
    && (IsRegeneration(net, arc) ==> TransmitProfile(net, Arrival(net, arc)).Some?)
  }

  /** A node transit cost is charged when the route enters a node it was not standing in. */
  function TransitionCost(net: Snapshot, from: PortKey, to: PortKey): u64 {
    if to.node in net.nodes && to.node != from.node then net.nodes[to.node].transitCost else 0
  }

  function StepCost(net: Snapshot, cost: u64, arc: Arc): Option<u64>
    requires Exists(net, arc)
  {
    var to := Arrival(net, arc);
    match AddChecked(cost, ArcCost(net, arc))
    case None => None
    case Some(c1) =>
      match AddChecked(c1, net.ports[to].transitCost)
      case None => None
      case Some(c2) => AddChecked(c2, TransitionCost(net, Departure(net, arc), to))
  }

  const LOSS_TOLERANCE: real := 0.000000001

  predicate AtMost(value: int, limit: Option<int>) { limit.Some? ==> value <= limit.value }

  /** The reach budget of a profile; unpublished limits do not bind. */
  predicate WithinReach(net: Snapshot, profile: Option<Id>, l: Label) {
    profile.Some? && profile.value in net.profiles ==>
      var reach := net.profiles[profile.value];
      && (reach.maxSpans.Known? ==> l.spans <= reach.maxSpans.value)
      && (reach.maxDistance.Known? ==> l.distance <= reach.maxDistance.value)
      && (reach.maxLoss.Known? ==> l.loss <= reach.maxLoss.value + LOSS_TOLERANCE)
      && (reach.maxNoise.Known? ==> l.noise <= reach.maxNoise.value)
  }

  /** The ceilings of the request, applied to the accumulators of the current segment. */
  predicate WithinCeilings(req: Request, l: Label) {
    var c := req.constraints;
    && AtMost(l.distance, c.maxDistance)
    && AtMost(l.spans, c.maxSpans)
    && (c.maxLoss.Some? ==> l.loss <= c.maxLoss.value + LOSS_TOLERANCE)
    && (c.maxNoise.Some? ==> l.noise <= c.maxNoise.value)
  }

  /** A segment is provable only under a profile that publishes its OSNR floor. */
  predicate ProfileClear(net: Snapshot, profile: Option<Id>) {
    profile.Some? && profile.value in net.profiles && net.profiles[profile.value].maxNoise.Known?
  }

  function ValueOr<T>(e: Evidence<T>, fallback: T): T {
    if e.Known? then e.value else fallback
  }

  /** The channel starts still usable after an arc that keeps the wavelength. */
  function KeptMask(net: Snapshot, req: Request, mask: set<nat>, arc: Arc): set<nat>
    requires Exists(net, arc)
  {
    mask * UsableStarts(net, req, ArcBlocked(net, arc))
         * UsableStarts(net, req, net.ports[Arrival(net, arc)].blocked)
  }

  function CrossStep(net: Snapshot, req: Request, l: Label, arc: Arc, cost: u64): Option<Label>
    requires Exists(net, arc) && arc.CrossArc?
  {
    var to := Arrival(net, arc);
    var fresh' := UsableStarts(net, req, net.ports[to].blocked);
    var next := l.(port := to, cost := cost, hops := l.hops + 1, proven := l.proven && ArcClear(net, arc));
    match net.crossConnects[arc.index].op
    case Express =>
      var mask := KeptMask(net, req, l.mask, arc);
      if mask == {} then None else Some(next.(mask := mask))
    case Convert =>
      if fresh' == {} then None else Some(next.(mask := fresh'))
    case Regenerate =>
      if l.regenerations >= req.maxRegenerations || fresh' == {} then None
      else Some(next.(mask := fresh', profile := TransmitProfile(net, to), distance := 0, loss := 0.0,
                      noise := 0.0, spans := 0, regenerations := l.regenerations + 1))
  }

  function SpanStep(net: Snapshot, req: Request, l: Label, arc: Arc, cost: u64): Option<Label>
    requires Exists(net, arc) && arc.SpanArc?
  {
    var span := net.spans[arc.index];
    match AddChecked(l.distance, ValueOr(span.length, 0))
    case None => None
    case Some(distance) =>
      var mask := KeptMask(net, req, l.mask, arc);
      var next := l.(port := Arrival(net, arc), mask := mask, cost := cost, distance := distance,
                     loss := l.loss + ValueOr(span.loss, 0.0), noise := l.noise + ValueOr(span.noise, 0.0),
                     spans := l.spans + 1, hops := l.hops + 1,
                     proven := l.proven && ArcClear(net, arc) && ProfileClear(net, l.profile));
      if mask == {} || !WithinReach(net, l.profile, next) || !WithinCeilings(req, next) then None
      else Some(next)
  }

  /** The label after one arc, or None when a rule cuts it.  Loop prevention and member
      limits look at the whole route and are not part of this function. */
  function Step(net: Snapshot, req: Request, l: Label, arc: Arc): Option<Label> {
    if !Leaves(net, arc, l.port) || !Passable(net, req, arc) || l.hops + 1 > req.maxHops then None
    else
      match StepCost(net, l.cost, arc)
      case None => None
      case Some(cost) =>
        if !AtMost(cost, req.maxCost) then None
        else if arc.SpanArc? then SpanStep(net, req, l, arc, cost)
        else CrossStep(net, req, l, arc, cost)
  }

  // ----- the order is preserved by every step ---------------------------------------------

  lemma {:induction false} DominatesTransitive(a: Label, b: Label, c: Label)
    requires Dominates(a, b) && Dominates(b, c)
    ensures Dominates(a, c)
  {}

  lemma {:induction false} StepCostMonotone(net: Snapshot, a: u64, b: u64, arc: Arc)
    requires Exists(net, arc) && a <= b && StepCost(net, b, arc).Some?
    ensures StepCost(net, a, arc).Some? && StepCost(net, a, arc).value <= StepCost(net, b, arc).value
  {}

  /** Extension monotonicity: whatever arc is open to a dominated label is open to its
      dominator, and the two results meet in one bucket, still in dominance order. */
  lemma {:induction false} StepMonotone(net: Snapshot, req: Request, a: Label, b: Label, arc: Arc)
    requires SameBucket(a, b) && Dominates(a, b) && Step(net, req, b, arc).Some?
    ensures Step(net, req, a, arc).Some?
    ensures var a', b' := Step(net, req, a, arc).value, Step(net, req, b, arc).value;
            SameBucket(a', b') && Dominates(a', b')
  {
    StepCostMonotone(net, a.cost, b.cost, arc);
    assert KeptMask(net, req, b.mask, arc) <= KeptMask(net, req, a.mask, arc);
  }

  /** Every step raises the key strictly and moves to the arc's arrival port. */
  lemma {:induction false} StepRaisesKey(net: Snapshot, req: Request, l: Label, arc: Arc)
    requires Step(net, req, l, arc).Some?
    ensures var next := Step(net, req, l, arc).value;
            && KeyLess(l, next)
            && next.hops == l.hops + 1 <= req.maxHops
            && next.port == Arrival(net, arc)
            && next.mask != {}
            && (next.proven ==> l.proven)
  {}

  predicate KeepsWavelength(net: Snapshot, arc: Arc)
    requires InRange(net, arc)
  {
    arc.CrossArc? ==> net.crossConnects[arc.index].op == Express
  }

  /** Without conversion or regeneration a route only ever gets worse: the label before the
      arc dominates the label after it, under the same profile. */
  lemma {:induction false} StepInflates(net: Snapshot, req: Request, l: Label, arc: Arc)
    requires Sealed(net) && Step(net, req, l, arc).Some? && KeepsWavelength(net, arc)
    ensures Dominates(l, Step(net, req, l, arc).value)
    ensures Step(net, req, l, arc).value.profile == l.profile
  {}
}
