/** Sealing a snapshot: what the builder makes of the submitted records, and why the planner may
    rely on it. */
module Topology {
  import opened Base
  import opened Network
  import opened Ordering
  import opened Canonicalise

  const MAX_DOMAINS: nat := 16
  const MAX_DECIBELS: real := 1000000.0

  datatype SourceRecord = SourceRecord(id: Id, generation: u64, complete: bool)

  /** Everything submitted, in order of submission. */
  datatype Submission = Submission(sources: seq<SourceRecord>, nodes: seq<NodeRecord>, ports: seq<PortRecord>,
                                   spans: seq<SpanRecord>, crossConnects: seq<CrossConnectRecord>,
                                   profiles: seq<ReachProfile>)

  /** What is not a record; the digest of the finished snapshot is taken as given. */
  datatype Header = Header(generation: u64, digest: string, fixedGrid: bool, slotCount: nat, rejectSelfLoops: bool,
                           allowUnresolved: bool)

  // ----- orders and identities ------------------------------------------------------------

  function NodeOrder(r: NodeRecord): Key { [r.id] }
  function PortOrder(r: PortRecord): Key { [r.key.node, r.key.port] }
  function ProfileOrder(r: ReachProfile): Key { [r.id] }
  function SpanOrder(r: SpanRecord): Key { [r.from.node, r.from.port, r.to.node, r.to.port, r.id] }
  function CrossOrder(r: CrossConnectRecord): Key { [r.from.node, r.from.port, r.to.node, r.to.port, r.id] }

  function NodeName(r: NodeRecord): Id { r.id }
  function PortName(r: PortRecord): PortKey { r.key }
  function ProfileName(r: ReachProfile): Id { r.id }
  function SpanName(r: SpanRecord): Id { r.id }
  function CrossName(r: CrossConnectRecord): Id { r.id }

  function UniqueNodes(s: Submission): Unique<NodeRecord, Id> { Dedup(SortBy(s.nodes, NodeOrder), NodeName) }
  function UniquePorts(s: Submission): Unique<PortRecord, PortKey> { Dedup(SortBy(s.ports, PortOrder), PortName) }
  function UniqueSpans(s: Submission): Unique<SpanRecord, Id> { Dedup(SortBy(s.spans, SpanOrder), SpanName) }
  function UniqueCrosses(s: Submission): Unique<CrossConnectRecord, Id> {
    Dedup(SortBy(s.crossConnects, CrossOrder), CrossName)
  }
  function UniqueProfiles(s: Submission): Unique<ReachProfile, Id> {
    Dedup(SortBy(s.profiles, ProfileOrder), ProfileName)
  }

  /** The records of a list under their identities. */
  function ByName<R, I(==)>(records: seq<R>, name: R -> I): map<I, R> {
    if records == [] then map[]
    else
      var n := |records| - 1;
      ByName(records[..n], name)[name(records[n]) := records[n]]
  }

  lemma {:induction false} ByNameHolds<R, I>(records: seq<R>, name: R -> I, x: I)
    ensures x in ByName(records, name) <==> exists k :: 0 <= k < |records| && name(records[k]) == x
    ensures x in ByName(records, name) ==>
              ByName(records, name)[x] in records && name(ByName(records, name)[x]) == x
  {
    if records != [] {
      var n := |records| - 1;
      ByNameHolds(records[..n], name, x);
      if x in ByName(records[..n], name) && x != name(records[n]) {
        var k :| 0 <= k < n && name(records[..n][k]) == x;
        assert name(records[k]) == x;
      }
    }
  }

  function SourceName(r: SourceRecord): Id { r.id }
  function Generations(sources: seq<SourceRecord>): map<Id, u64> {
    var m := ByName(sources, SourceName);
    map x | x in m :: m[x].generation
  }

  // ----- adjacency ------------------------------------------------------------------------

  /** The directed arcs of the spans that leave `p`, in span order; spans without a record at
      both ends have none. */
  function SpanArcsFrom(ports: set<PortKey>, spans: seq<SpanRecord>, p: PortKey): seq<Arc> {
    if spans == [] then []
    else
      var n := |spans| - 1;
      SpanArcsFrom(ports, spans[..n], p) + NewSpanArcs(ports, spans[n], n, p)
  }

  function NewSpanArcs(ports: set<PortKey>, span: SpanRecord, index: nat, p: PortKey): seq<Arc> {
    if span.from !in ports || span.to !in ports then []
    else (if span.from == p then [SpanArc(index, false)] else [])
         + (if span.bidirectional && span.to == p then [SpanArc(index, true)] else [])
  }

  function CrossArcsFrom(ports: set<PortKey>, crosses: seq<CrossConnectRecord>, p: PortKey): seq<Arc> {
    if crosses == [] then []
    else
      var n := |crosses| - 1;
      CrossArcsFrom(ports, crosses[..n], p)
      + (if crosses[n].from == p && p in ports && crosses[n].to in ports then [CrossArc(n)] else [])
  }

  function SpanArcOrder(spans: seq<SpanRecord>): Arc -> Key {
    (a: Arc) => if a.SpanArc? && a.index < |spans| then [spans[a.index].id, if a.reversed then "1" else "0"] else []
  }

  function CrossArcOrder(crosses: seq<CrossConnectRecord>): Arc -> Key {
    (a: Arc) => if a.CrossArc? && a.index < |crosses| then [crosses[a.index].id] else []
  }

  lemma {:induction false} SpanArcsAre(ports: set<PortKey>, spans: seq<SpanRecord>, p: PortKey, a: Arc)
    ensures a in SpanArcsFrom(ports, spans, p) <==>
              && a.SpanArc? && a.index < |spans| && spans[a.index].from in ports && spans[a.index].to in ports
              && if a.reversed then spans[a.index].bidirectional && spans[a.index].to == p
                 else spans[a.index].from == p
  {
    if spans != [] {
      var n := |spans| - 1;
      NewSpanArcsAre(ports, spans[n], n, p, a);
      SpanArcsAre(ports, spans[..n], p, a);
    }
  }

  lemma {:induction false} NewSpanArcsAre(ports: set<PortKey>, span: SpanRecord, n: nat, p: PortKey, a: Arc)
    ensures a in NewSpanArcs(ports, span, n, p) <==>
              && a.SpanArc? && a.index == n && span.from in ports && span.to in ports
              && if a.reversed then span.bidirectional && span.to == p else span.from == p
  {}

  lemma {:induction false} CrossArcsAre(ports: set<PortKey>, crosses: seq<CrossConnectRecord>, p: PortKey, a: Arc)
    ensures a in CrossArcsFrom(ports, crosses, p) <==>
              && a.CrossArc? && a.index < |crosses| && crosses[a.index].from == p && p in ports
              && crosses[a.index].to in ports
  {
    if crosses != [] {
      CrossArcsAre(ports, crosses[..|crosses| - 1], p, a);
    }
  }

  // ----- references -----------------------------------------------------------------------

  /** A link with one end at `p` whose other end has no record. */
  predicate Dangling(ports: set<PortKey>, from: PortKey, to: PortKey, p: PortKey) {
    (from == p && to !in ports) || (to == p && from !in ports)
  }

  /** Something at port `p` refers to a node or port without a record. */
  ghost predicate Unresolved(nodes: set<Id>, ports: set<PortKey>, spans: seq<SpanRecord>,
                             crosses: seq<CrossConnectRecord>, p: PortKey)
  {
    || p.node !in nodes
    || (exists i :: 0 <= i < |spans| && Dangling(ports, spans[i].from, spans[i].to, p))
    || (exists i :: 0 <= i < |crosses| && Dangling(ports, crosses[i].from, crosses[i].to, p))
  }

  /** Every reference of the kept records has a record. */
  ghost predicate Resolved(nodes: set<Id>, ports: set<PortKey>, spans: seq<SpanRecord>,
                           crosses: seq<CrossConnectRecord>)
  {
    && (forall p | p in ports :: p.node in nodes)
    && (forall i | 0 <= i < |spans| :: spans[i].from in ports && spans[i].to in ports)
    && (forall i | 0 <= i < |crosses| :: crosses[i].from in ports && crosses[i].to in ports)
  }

  // ----- the finished snapshot ------------------------------------------------------------

  function Conflicts(s: Submission): set<ResourceKey> {
    (set x | x in UniqueNodes(s).flagged :: ForNode(x)) + (set x | x in UniquePorts(s).flagged :: ForPort(x))
    + (set x | x in UniqueSpans(s).flagged :: ForSpan(x))
    + (set x | x in UniqueCrosses(s).flagged :: ForCrossConnect(x))
    + (set x | x in UniqueProfiles(s).flagged :: ForProfile(x))
  }

  ghost predicate RecordsBuilt(s: Submission, net: Snapshot) {
    && net.nodes == ByName(UniqueNodes(s).kept, NodeName)
    && net.ports == ByName(UniquePorts(s).kept, PortName)
    && net.profiles == ByName(UniqueProfiles(s).kept, ProfileName)
    && net.spans == UniqueSpans(s).kept && net.crossConnects == UniqueCrosses(s).kept
    && net.conflicted == Conflicts(s)
  }

  ghost predicate ArcsBuilt(net: Snapshot) {
    && net.spanArcs == (map p | p in net.ports :: SpanList(net.ports.Keys, net.spans, p))
    && net.crossArcs == (map p | p in net.ports :: CrossList(net.ports.Keys, net.crossConnects, p))
  }

  /** Coverage is complete when nothing conflicts, nothing dangles, and every source and every
      node says so. */
  ghost predicate CoverageBuilt(sources: seq<SourceRecord>, nodes: seq<NodeRecord>, net: Snapshot) {
    && net.unresolvedAt == (set p | p in net.ports
                                    && Unresolved(net.nodes.Keys, net.ports.Keys, net.spans, net.crossConnects, p))
    && (net.coverageComplete <==>
          && net.conflicted == {} && Resolved(net.nodes.Keys, net.ports.Keys, net.spans, net.crossConnects)
          && (forall r | r in sources :: r.complete) && (forall r | r in nodes :: r.complete))
  }

  ghost predicate Built(h: Header, s: Submission, net: Snapshot) {
    && RecordsBuilt(s, net) && ArcsBuilt(net) && CoverageBuilt(s.sources, UniqueNodes(s).kept, net)
    && net.generation == h.generation && net.digest == h.digest && net.fixedGrid == h.fixedGrid
    && net.slotCount == h.slotCount && !net.restored && net.sources == Generations(SortBy(s.sources, SourceOrder))
  }

  function SourceOrder(r: SourceRecord): Key { [r.id] }

  // ----- what is accepted -----------------------------------------------------------------

  predicate MaskFits(blocked: Evidence<set<nat>>, slotCount: nat) {
    blocked.Known? ==> blocked.value <= SlotRange(slotCount)
  }

  predicate LossValid(loss: Evidence<real>) { loss.Known? ==> 0.0 <= loss.value <= MAX_DECIBELS }

  /** An OSNR that is a non-negative number of decibels adds at most the reference noise. */
  predicate NoiseValid(noise: Evidence<real>) { noise.Known? ==> 0.0 < noise.value <= 1.0 }

  predicate SpanValid(r: SpanRecord, slotCount: nat) {
    LossValid(r.loss) && NoiseValid(r.noise) && MaskFits(r.blocked, slotCount) && |r.domains| <= MAX_DOMAINS
  }

  predicate ProfileValid(r: ReachProfile) {
    LossValid(r.maxLoss) && NoiseValid(r.maxNoise) && (r.maxSpans.Known? ==> r.maxSpans.value != 0)
  }

  /** Every source id is declared once. */
  ghost predicate OncePerId(sources: seq<SourceRecord>) {
    && (forall a, b | a in sources && b in sources && a.id == b.id :: a == b)
    && (forall a | a in sources :: multiset(sources)[a] == 1)
  }

  ghost predicate RecordsValid(h: Header, s: Submission) {
    && 0 < h.slotCount <= MAX_SLOTS
    && OncePerId(s.sources)
    && (forall r | r in s.nodes :: |r.domains| <= MAX_DOMAINS)
    && (forall r | r in s.ports :: |r.domains| <= MAX_DOMAINS && MaskFits(r.blocked, h.slotCount))
    && (forall r | r in s.spans :: SpanValid(r, h.slotCount))
    && (forall r | r in s.crossConnects :: |r.domains| <= MAX_DOMAINS && MaskFits(r.blocked, h.slotCount))
    && (forall r | r in s.profiles :: ProfileValid(r))
  }

  /** What a finished snapshot must look like for the options in force. */
  ghost predicate Permitted(h: Header, net: Snapshot) {
    && (h.rejectSelfLoops ==>
          && (forall i | 0 <= i < |net.spans| :: net.spans[i].from != net.spans[i].to)
          && (forall i | 0 <= i < |net.crossConnects| :: net.crossConnects[i].from != net.crossConnects[i].to))
    && (!h.allowUnresolved ==> Resolved(net.nodes.Keys, net.ports.Keys, net.spans, net.crossConnects))
  }

  // ----- what the planner may rely on -----------------------------------------------------

  lemma {:induction false} KeptOf<R, I>(records: seq<R>, order: R -> Key, name: R -> I, r: R)
    requires r in Dedup(SortBy(records, order), name).kept
    ensures r in records
  {
    KeptSubmitted(SortBy(records, order), name, r);
    SortKeeps(records, order);
  }

  lemma {:induction false} MapOf<R, I>(records: seq<R>, order: R -> Key, name: R -> I, x: I)
    requires x in ByName(Dedup(SortBy(records, order), name).kept, name)
    ensures var r := ByName(Dedup(SortBy(records, order), name).kept, name)[x]; r in records && name(r) == x
  {
    ByNameHolds(Dedup(SortBy(records, order), name).kept, name, x);
    KeptOf(records, order, name, ByName(Dedup(SortBy(records, order), name).kept, name)[x]);
  }

  /** The span arcs a sealed port lists. */
  function SpanList(ports: set<PortKey>, spans: seq<SpanRecord>, p: PortKey): seq<Arc> {
    SortBy(SpanArcsFrom(ports, spans, p), SpanArcOrder(spans))
  }

  function CrossList(ports: set<PortKey>, crosses: seq<CrossConnectRecord>, p: PortKey): seq<Arc> {
    SortBy(CrossArcsFrom(ports, crosses, p), CrossArcOrder(crosses))
  }

  lemma {:induction false} SpanListExact(net: Snapshot, p: PortKey, arc: Arc)
    ensures arc in SpanList(net.ports.Keys, net.spans, p) <==> arc.SpanArc? && Leaves(net, arc, p)
  {
    SpanArcsAre(net.ports.Keys, net.spans, p, arc);
    SortKeeps(SpanArcsFrom(net.ports.Keys, net.spans, p), SpanArcOrder(net.spans));
  }

  lemma {:induction false} CrossListExact(net: Snapshot, p: PortKey, arc: Arc)
    ensures arc in CrossList(net.ports.Keys, net.crossConnects, p) <==> arc.CrossArc? && Leaves(net, arc, p)
  {
    CrossArcsAre(net.ports.Keys, net.crossConnects, p, arc);
    SortKeeps(CrossArcsFrom(net.ports.Keys, net.crossConnects, p), CrossArcOrder(net.crossConnects));
  }

  /** The adjacency lists of a port hold exactly the resolved arcs that leave it. */
  lemma {:induction false} ArcsExact(net: Snapshot, p: PortKey, arc: Arc)
    requires ArcsBuilt(net)
    ensures arc in OutgoingArcs(net, p) <==> Leaves(net, arc, p)
    ensures p in net.spanArcs && arc in net.spanArcs[p] ==> arc.SpanArc?
    ensures p in net.crossArcs && arc in net.crossArcs[p] ==> arc.CrossArc?
  {
    if p in net.ports {
      SpanListExact(net, p, arc);
      CrossListExact(net, p, arc);
    }
  }

  lemma {:induction false} AllArcsExact(net: Snapshot)
    requires ArcsBuilt(net)
    ensures forall p, arc :: arc in OutgoingArcs(net, p) <==> Leaves(net, arc, p)
    ensures forall p | p in net.crossArcs :: forall a | a in net.crossArcs[p] :: a.CrossArc?
    ensures forall p | p in net.spanArcs :: forall a | a in net.spanArcs[p] :: a.SpanArc?
  {
    forall p, arc
      ensures arc in OutgoingArcs(net, p) <==> Leaves(net, arc, p)
    {
      ArcsExact(net, p, arc);
    }
    forall p, a | p in net.crossArcs && a in net.crossArcs[p]
      ensures a.CrossArc?
    {
      ArcsExact(net, p, a);
    }
    forall p, a | p in net.spanArcs && a in net.spanArcs[p]
      ensures a.SpanArc?
    {
      ArcsExact(net, p, a);
    }
  }

  /** A built snapshot has everything the planner takes for granted: records under their keys,
      quality figures in range, and adjacency lists that hold exactly the resolved arcs. */
  lemma {:induction false} BuiltIsSealed(h: Header, s: Submission, net: Snapshot)
    requires RecordsValid(h, s) && Built(h, s, net)
    ensures Sealed(net)
  {
    AllArcsExact(net);
    FiguresInRange(h, s, net);
    RecordsUnderKeys(s, net);
  }

  lemma {:induction false} RecordsUnderKeys(s: Submission, net: Snapshot)
    requires RecordsBuilt(s, net)
    ensures forall id | id in net.nodes :: net.nodes[id].id == id
    ensures forall p | p in net.ports :: net.ports[p].key == p
  {
    forall id | id in net.nodes
      ensures net.nodes[id].id == id
    {
      MapOf(s.nodes, NodeOrder, NodeName, id);
    }
    forall p | p in net.ports
      ensures net.ports[p].key == p
    {
      MapOf(s.ports, PortOrder, PortName, p);
    }
  }

  lemma {:induction false} FiguresInRange(h: Header, s: Submission, net: Snapshot)
    requires RecordsValid(h, s) && RecordsBuilt(s, net)
    ensures forall i | 0 <= i < |net.spans| :: SpanValid(net.spans[i], h.slotCount)
    ensures forall id | id in net.profiles :: ProfileValid(net.profiles[id])
  {
    forall i | 0 <= i < |net.spans|
      ensures SpanValid(net.spans[i], h.slotCount)
    {
      KeptOf(s.spans, SpanOrder, SpanName, net.spans[i]);
    }
    forall id | id in net.profiles
      ensures ProfileValid(net.profiles[id])
    {
      MapOf(s.profiles, ProfileOrder, ProfileName, id);
    }
  }

  /** A node is marked conflicted exactly when two submitted records for it differ. */
  lemma {:induction false} NodeConflicts(s: Submission, net: Snapshot, x: Id)
    requires RecordsBuilt(s, net)
    ensures ForNode(x) in net.conflicted <==> Differ(s.nodes, NodeName, x)
  {
    SortByIsSort(s.nodes, NodeOrder);
    assert forall a: NodeRecord, b: NodeRecord :: NodeOrder(a) == NodeOrder(b) ==> NodeOrder(a)[0] == NodeOrder(b)[0];
    ConflictExactly(SortBy(s.nodes, NodeOrder), s.nodes, NodeOrder, NodeName, x);
  }

  /** The same for reach profiles. */
  lemma {:induction false} ProfileConflicts(s: Submission, net: Snapshot, x: Id)
    requires RecordsBuilt(s, net)
    ensures ForProfile(x) in net.conflicted <==> Differ(s.profiles, ProfileName, x)
  {
    SortByIsSort(s.profiles, ProfileOrder);
    assert forall a: ReachProfile, b: ReachProfile :: ProfileOrder(a) == ProfileOrder(b) ==>
             ProfileOrder(a)[0] == ProfileOrder(b)[0];
    ConflictExactly(SortBy(s.profiles, ProfileOrder), s.profiles, ProfileOrder, ProfileName, x);
  }

  /** The same for ports, up to port keys that read alike. */
  lemma {:induction false} PortConflicts(s: Submission, net: Snapshot, text: ResourceKey)
    requires RecordsBuilt(s, net) && text.kind == PortKind
    ensures text in net.conflicted <==> exists x :: ForPort(x) == text && Differ(s.ports, PortName, x)
  {
    SortByIsSort(s.ports, PortOrder);
    forall a: PortRecord, b: PortRecord
      ensures PortOrder(a) == PortOrder(b) ==> a.key == b.key
    {
      assert PortOrder(a) == PortOrder(b) ==>
               PortOrder(a)[0] == PortOrder(b)[0] && PortOrder(a)[1] == PortOrder(b)[1];
    }
    forall x
      ensures x in UniquePorts(s).flagged <==> Differ(s.ports, PortName, x)
    {
      ConflictExactly(SortBy(s.ports, PortOrder), s.ports, PortOrder, PortName, x);
    }
  }

  /** A span is marked exactly when two different records of its id are neighbours in the sort by
      endpoints: no span of another id sorts between them. */
  lemma {:induction false} SpanConflicts(s: Submission, net: Snapshot, x: Id)
    requires RecordsBuilt(s, net)
    ensures ForSpan(x) in net.conflicted <==> Clash(s.spans, SpanOrder, SpanName, x)
  {
    SortByIsSort(s.spans, SpanOrder);
    assert forall a: SpanRecord, b: SpanRecord :: SpanOrder(a) == SpanOrder(b) ==> SpanOrder(a)[4] == SpanOrder(b)[4];
    FlaggedIsClash(SortBy(s.spans, SpanOrder), s.spans, SpanOrder, SpanName, x);
  }

  lemma {:induction false} CrossConflicts(s: Submission, net: Snapshot, x: Id)
    requires RecordsBuilt(s, net)
    ensures ForCrossConnect(x) in net.conflicted <==> Clash(s.crossConnects, CrossOrder, CrossName, x)
  {
    SortByIsSort(s.crossConnects, CrossOrder);
    assert forall a: CrossConnectRecord, b: CrossConnectRecord :: CrossOrder(a) == CrossOrder(b) ==>
             CrossOrder(a)[4] == CrossOrder(b)[4];
    FlaggedIsClash(SortBy(s.crossConnects, CrossOrder), s.crossConnects, CrossOrder, CrossName, x);
  }

  // ----- lookup ---------------------------------------------------------------------------

  /** The kept nodes, ports and profiles stand in strict order, so bisection may search them. */
  lemma {:induction false} KeptSearchable(s: Submission)
    ensures StrictlySortedBy(UniqueNodes(s).kept, NodeOrder)
    ensures StrictlySortedBy(UniquePorts(s).kept, PortOrder)
    ensures StrictlySortedBy(UniqueProfiles(s).kept, ProfileOrder)
  {
    SortSorts(s.nodes, NodeOrder);
    SortSorts(s.ports, PortOrder);
    SortSorts(s.profiles, ProfileOrder);
    assert forall a: NodeRecord, b: NodeRecord :: NodeOrder(a) == NodeOrder(b) ==> NodeOrder(a)[0] == NodeOrder(b)[0];
    assert forall a: ReachProfile, b: ReachProfile :: ProfileOrder(a) == ProfileOrder(b) ==>
             ProfileOrder(a)[0] == ProfileOrder(b)[0];
    forall a: PortRecord, b: PortRecord
      ensures PortOrder(a) == PortOrder(b) ==> a.key == b.key
    {
      assert PortOrder(a) == PortOrder(b) ==>
               PortOrder(a)[0] == PortOrder(b)[0] && PortOrder(a)[1] == PortOrder(b)[1];
    }
    KeptStrict(SortBy(s.nodes, NodeOrder), NodeOrder, NodeName);
    KeptStrict(SortBy(s.ports, PortOrder), PortOrder, PortName);
    KeptStrict(SortBy(s.profiles, ProfileOrder), ProfileOrder, ProfileName);
  }

  function Lookup<I(==), R>(m: map<I, R>, x: I): Option<R> { if x in m then Some(m[x]) else None }

  /** What bisection finds is the record under that name. */
  lemma {:induction false} FoundIsNamed<R, I>(records: seq<R>, name: R -> I, k: nat)
    requires k < |records| && forall j | 0 <= j < |records| && name(records[j]) == name(records[k]) :: j == k
    ensures Lookup(ByName(records, name), name(records[k])) == Some(records[k])
  {
    ByNameHolds(records, name, name(records[k]));
  }

  method FindNode(nodes: seq<NodeRecord>, id: Id) returns (found: Option<NodeRecord>)
    requires StrictlySortedBy(nodes, NodeOrder)
    ensures found == Lookup(ByName(nodes, NodeName), id)
  {
    var index := Find(nodes, NodeOrder, [id]);
    assert forall r: NodeRecord :: NodeOrder(r) == [id] <==> NodeOrder(r)[0] == id;
    if index.Some? {
      FoundIsNamed(nodes, NodeName, index.value);
      return Some(nodes[index.value]);
    }
    ByNameHolds(nodes, NodeName, id);
    return None;
  }

  method FindPort(ports: seq<PortRecord>, key: PortKey) returns (found: Option<PortRecord>)
    requires StrictlySortedBy(ports, PortOrder)
    ensures found == Lookup(ByName(ports, PortName), key)
  {
    var wanted := [key.node, key.port];
    var index := Find(ports, PortOrder, wanted);
    forall r: PortRecord
      ensures PortOrder(r) == wanted <==> r.key == key
    {
      assert PortOrder(r) == wanted ==> PortOrder(r)[0] == wanted[0] && PortOrder(r)[1] == wanted[1];
    }
    if index.Some? {
      FoundIsNamed(ports, PortName, index.value);
      return Some(ports[index.value]);
    }
    ByNameHolds(ports, PortName, key);
    return None;
  }

  // ----- order of submission --------------------------------------------------------------

  ghost predicate Reordered(s: Submission, t: Submission) {
    && multiset(s.sources) == multiset(t.sources) && multiset(s.nodes) == multiset(t.nodes)
    && multiset(s.ports) == multiset(t.ports) && multiset(s.spans) == multiset(t.spans)
    && multiset(s.crossConnects) == multiset(t.crossConnects) && multiset(s.profiles) == multiset(t.profiles)
  }

  lemma {:induction false} RecordsReordered(s: Submission, t: Submission)
    requires Reordered(s, t)
    requires KeyDecides(s.nodes, NodeOrder) && KeyDecides(s.ports, PortOrder) && KeyDecides(s.spans, SpanOrder)
    requires KeyDecides(s.crossConnects, CrossOrder) && KeyDecides(s.profiles, ProfileOrder)
    ensures UniqueNodes(s) == UniqueNodes(t) && UniquePorts(s) == UniquePorts(t) && UniqueSpans(s) == UniqueSpans(t)
    ensures UniqueCrosses(s) == UniqueCrosses(t) && UniqueProfiles(s) == UniqueProfiles(t)
  {
    OrderIrrelevant(s.nodes, t.nodes, NodeOrder, NodeName);
    OrderIrrelevant(s.ports, t.ports, PortOrder, PortName);
    OrderIrrelevant(s.spans, t.spans, SpanOrder, SpanName);
    OrderIrrelevant(s.crossConnects, t.crossConnects, CrossOrder, CrossName);
    OrderIrrelevant(s.profiles, t.profiles, ProfileOrder, ProfileName);
  }

  /** The same records submitted in any order build the same snapshot, when records that sort
      alike agree. */
  lemma {:induction false} BuildIgnoresOrder(h: Header, s: Submission, t: Submission, a: Snapshot, b: Snapshot)
    requires Reordered(s, t) && RecordsValid(h, s) && Built(h, s, a) && Built(h, t, b)
    requires KeyDecides(s.nodes, NodeOrder) && KeyDecides(s.ports, PortOrder) && KeyDecides(s.spans, SpanOrder)
    requires KeyDecides(s.crossConnects, CrossOrder) && KeyDecides(s.profiles, ProfileOrder)
    ensures a == b
  {
    RecordsReordered(s, t);
    SourcesReordered(h, s, t);
    assert a.coverageComplete == b.coverageComplete by {
      forall r
        ensures r in s.sources <==> r in t.sources
      {
        SameMembers(s.sources, t.sources, r);
      }
    }
  }

  lemma {:induction false} SourcesReordered(h: Header, s: Submission, t: Submission)
    requires Reordered(s, t) && RecordsValid(h, s)
    ensures SortBy(s.sources, SourceOrder) == SortBy(t.sources, SourceOrder)
  {
    forall x, y | x in s.sources && y in s.sources && SourceOrder(x) == SourceOrder(y)
      ensures x == y
    {
      assert SourceOrder(x)[0] == SourceOrder(y)[0];
    }
    SortByIsSort(s.sources, SourceOrder);
    SortByIsSort(t.sources, SourceOrder);
    SortKeeps(s.sources, SourceOrder);
    OneSort(SortBy(s.sources, SourceOrder), SortBy(t.sources, SourceOrder), SourceOrder);
  }
}
