/** Sealed topology snapshots and planning requests: the evidence the planner reasons over
    and the question it is asked.

    Ports, nodes and profiles are looked up by key; spans and cross-connects are addressed by
    their position in the snapshot, because their ids need not be unique.  A span's OSNR
    contribution is kept as the linear noise it adds, and every OSNR floor as the largest
    noise that still meets it: decibels are an antitone re-reading of the same numbers. */
module Network {
  import opened Base

  // ----- spectrum -------------------------------------------------------------------------

  const MAX_SLOTS: nat := 256

  predicate IsSlot(slot: nat) { slot < MAX_SLOTS }

  function SlotRange(count: nat): set<nat> {
    set slot: nat | slot < count && IsSlot(slot)
  }

  predicate ChannelFits(free: set<nat>, start: nat, width: nat) {
    forall slot: nat :: start <= slot < start + width ==> slot in free
  }

  /** The slots at which a run of `width` free slots begins. */
  function ChannelStarts(free: set<nat>, width: nat): set<nat> {
    if width == 0 || width > MAX_SLOTS then {}
    else set start: nat | start <= MAX_SLOTS - width && ChannelFits(free, start, width)
  }

  // ----- resource keys --------------------------------------------------------------------

  datatype PortKey = PortKey(node: Id, port: Id)

  datatype ResourceKind = NodeKind | PortKind | SpanKind | CrossConnectKind | ProfileKind

  /** A resource named by its kind and canonical text. */
  datatype ResourceKey = ResourceKey(kind: ResourceKind, text: string)

  function ForNode(id: Id): ResourceKey { ResourceKey(NodeKind, id) }
  function ForPort(key: PortKey): ResourceKey { ResourceKey(PortKind, key.node + ":" + key.port) }
  function ForSpan(id: Id): ResourceKey { ResourceKey(SpanKind, id) }
  function ForCrossConnect(id: Id): ResourceKey { ResourceKey(CrossConnectKind, id) }
  function ForProfile(id: Id): ResourceKey { ResourceKey(ProfileKind, id) }

  // ----- records --------------------------------------------------------------------------

  datatype AdminState = Up | Down | Maintenance
  datatype Op = Express | Convert | Regenerate

  datatype NodeRecord = NodeRecord(id: Id, domains: set<Id>, transitCost: u64, complete: bool,
                                   admin: Evidence<AdminState>)

  /** `transmit` is Known(None) when the port is published as having no transmitter. */
  datatype PortRecord = PortRecord(key: PortKey, transmit: Evidence<Option<Id>>, blocked: Evidence<set<nat>>,
                                   domains: set<Id>, transitCost: u64, admin: Evidence<AdminState>)

  datatype SpanRecord = SpanRecord(id: Id, from: PortKey, to: PortKey, bidirectional: bool,
                                   length: Evidence<u64>, loss: Evidence<real>, noise: Evidence<real>,
                                   blocked: Evidence<set<nat>>, domains: set<Id>, cost: u64,
                                   admin: Evidence<AdminState>)

  datatype CrossConnectRecord = CrossConnectRecord(id: Id, from: PortKey, to: PortKey, op: Op,
                                                   blocked: Evidence<set<nat>>, domains: set<Id>, cost: u64,
                                                   admin: Evidence<AdminState>)

  datatype ReachProfile = ReachProfile(id: Id, maxDistance: Evidence<u64>, maxSpans: Evidence<nat>,
                                       maxLoss: Evidence<real>, maxNoise: Evidence<real>)

  /** A directed use of a span or a cross-connect. */
  datatype Arc = SpanArc(index: nat, reversed: bool) | CrossArc(index: nat)

  datatype Snapshot = Snapshot(
    generation: u64,
    digest: string,
    sources: map<Id, u64>,
    restored: bool,
    fixedGrid: bool,
    slotCount: nat,
    nodes: map<Id, NodeRecord>,
    ports: map<PortKey, PortRecord>,
    spans: seq<SpanRecord>,
    crossConnects: seq<CrossConnectRecord>,
    profiles: map<Id, ReachProfile>,
    conflicted: set<ResourceKey>,
    unresolvedAt: set<PortKey>,
    spanArcs: map<PortKey, seq<Arc>>,
    crossArcs: map<PortKey, seq<Arc>>,
    coverageComplete: bool)

  // ----- arcs -----------------------------------------------------------------------------

  predicate InRange(net: Snapshot, arc: Arc) {
    match arc
    case SpanArc(i, _) => i < |net.spans|
    case CrossArc(i) => i < |net.crossConnects|
  }

  function Arrival(net: Snapshot, arc: Arc): PortKey
    requires InRange(net, arc)
  {
    match arc
    case SpanArc(i, reversed) => if reversed then net.spans[i].from else net.spans[i].to
    case CrossArc(i) => net.crossConnects[i].to
  }

  function Departure(net: Snapshot, arc: Arc): PortKey
    requires InRange(net, arc)
  {
    match arc
    case SpanArc(i, reversed) => if reversed then net.spans[i].to else net.spans[i].from
    case CrossArc(i) => net.crossConnects[i].from
  }

  function ArcCost(net: Snapshot, arc: Arc): u64
    requires InRange(net, arc)
  {
    match arc
    case SpanArc(i, _) => net.spans[i].cost
    case CrossArc(i) => net.crossConnects[i].cost
  }

  function ArcDomains(net: Snapshot, arc: Arc): set<Id>
    requires InRange(net, arc)
  {
    match arc
    case SpanArc(i, _) => net.spans[i].domains
    case CrossArc(i) => net.crossConnects[i].domains
  }

  function ArcAdmin(net: Snapshot, arc: Arc): Evidence<AdminState>
    requires InRange(net, arc)
  {
    match arc
    case SpanArc(i, _) => net.spans[i].admin
    case CrossArc(i) => net.crossConnects[i].admin
  }

  function ArcBlocked(net: Snapshot, arc: Arc): Evidence<set<nat>>
    requires InRange(net, arc)
  {
    match arc
    case SpanArc(i, _) => net.spans[i].blocked
    case CrossArc(i) => net.crossConnects[i].blocked
  }

  /** Whether `arc` exists as a directed arc: a span may be driven backwards only when it is
      bidirectional, and both ends of an arc have a port record. */
  predicate Exists(net: Snapshot, arc: Arc) {
    && InRange(net, arc)
    && (arc.SpanArc? && arc.reversed ==> net.spans[arc.index].bidirectional)
    && Departure(net, arc) in net.ports
    && Arrival(net, arc) in net.ports
  }

  /** Whether `arc` leaves port `p`. */
  predicate Leaves(net: Snapshot, arc: Arc, p: PortKey) {
    Exists(net, arc) && Departure(net, arc) == p
  }

  /** The arcs the search examines at a port: cross-connects first, then span arcs. */
  function OutgoingArcs(net: Snapshot, p: PortKey): seq<Arc> {
    (if p in net.crossArcs then net.crossArcs[p] else []) +
    (if p in net.spanArcs then net.spanArcs[p] else [])
  }

  /** What sealing guarantees about a snapshot: records sit under their own keys, published
      quality figures are not negative, and the adjacency lists hold exactly the arcs that
      leave each port. */
  ghost predicate Sealed(net: Snapshot) {
    && 0 < net.slotCount <= MAX_SLOTS
    && (forall id | id in net.nodes :: net.nodes[id].id == id)
    && (forall p | p in net.ports :: net.ports[p].key == p)
    && (forall i | 0 <= i < |net.spans| ::
          && (net.spans[i].loss.Known? ==> net.spans[i].loss.value >= 0.0)
          && (net.spans[i].noise.Known? ==> net.spans[i].noise.value > 0.0))
    && (forall id | id in net.profiles ::
          && (net.profiles[id].maxLoss.Known? ==> net.profiles[id].maxLoss.value >= 0.0)
          && (net.profiles[id].maxNoise.Known? ==> net.profiles[id].maxNoise.value > 0.0))
    && (forall p | p in net.crossArcs :: forall a | a in net.crossArcs[p] :: a.CrossArc?)
    && (forall p | p in net.spanArcs :: forall a | a in net.spanArcs[p] :: a.SpanArc?)
    && (forall p, arc :: arc in OutgoingArcs(net, p) <==> Leaves(net, arc, p))
  }

  // ----- requests -------------------------------------------------------------------------

  datatype Disjointness = NoDisjointness | NodeDisjoint | SpanDisjoint | DomainDisjoint

  datatype Constraints = Constraints(
    excludedNodes: seq<Id>,
    excludedPorts: seq<PortKey>,
    excludedSpans: seq<Id>,
    excludedCrossConnects: seq<Id>,
    excludedDomains: seq<Id>,
    memberLimits: map<Id, nat>,
    maxDistance: Option<u64>,
    maxSpans: Option<nat>,
    maxLoss: Option<real>,
    maxNoise: Option<real>,
    allowRegeneration: bool,
    allowConversion: bool,
    requireContinuity: bool,
    allowRepeated: bool)

  datatype Request = Request(
    source: PortKey,
    destination: PortKey,
    width: nat,
    maxCandidates: nat,
    maxRegenerations: nat,
    maxHops: nat,
    maxCost: Option<u64>,
    disjointness: Disjointness,
    constraints: Constraints,
    requiredSources: map<Id, u64>,
    requiredGeneration: Option<u64>,
    expectedDigest: Option<string>,
    acceptRestored: bool,
    maxExpansions: nat,
    maxLabels: nat)

  /** The admissible-operation policy of a constraint set. */
  predicate OpAllowed(constraints: Constraints, op: Op) {
    match op
    case Express => true
    case Convert => constraints.allowConversion
    case Regenerate => constraints.allowRegeneration
  }
}
