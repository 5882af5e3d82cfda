/** The builder: checks what was submitted, sorts and deduplicates it, links the arcs up and
    seals the result, once. */
module SnapshotBuilder {
  import opened Base
  import opened Network
  import opened Ordering
  import opened Canonicalise
  import opened Topology

  const EMPTY: Submission := Submission([], [], [], [], [], [])

  // ----- checks ---------------------------------------------------------------------------

  /** Whether every record of a list passes a check. */
  method AllPass<R>(records: seq<R>, check: R -> bool) returns (ok: bool)
    ensures ok <==> forall r | r in records :: check(r)
    ensures ok <==> forall i | 0 <= i < |records| :: check(records[i])
  {
    for i := 0 to |records|
      invariant forall k | 0 <= k < i :: check(records[k])
    {
      if !check(records[i]) {
        return false;
      }
    }
    return true;
  }

  /** Sorts the sources and compares neighbours: no id may be declared twice. */
  method SourcesDistinct(sources: seq<SourceRecord>) returns (ok: bool)
    ensures ok <==> OncePerId(sources)
  {
    var sorted := SortBy(sources, SourceOrder);
    SortByIsSort(sources, SourceOrder);
    OrderOfSources(sorted, sources);
    var i := 1;
    while i < |sorted|
      invariant forall k | 1 <= k < i && k < |sorted| :: sorted[k].id != sorted[k - 1].id
    {
      if sorted[i].id == sorted[i - 1].id {
        RepeatedSource(sorted, i);
        return false;
      }
      i := i + 1;
    }
    DistinctNeighbours(sorted);
    return true;
  }

  lemma {:induction false} OrderOfSources(a: seq<SourceRecord>, b: seq<SourceRecord>)
    requires multiset(a) == multiset(b)
    ensures OncePerId(a) <==> OncePerId(b)
  {
    forall x
      ensures x in a <==> x in b
    {
      SameMembers(a, b, x);
    }
  }

  lemma {:induction false} RepeatedSource(sorted: seq<SourceRecord>, i: nat)
    requires 0 < i < |sorted| && sorted[i].id == sorted[i - 1].id
    ensures !OncePerId(sorted)
  {
    var a, b := sorted[i - 1], sorted[i];
    assert sorted == sorted[..i - 1] + [a] + [b] + sorted[i + 1..];
    assert a in sorted && b in sorted;
    assert a == b ==> multiset(sorted)[a] >= 2;
  }

  lemma {:induction false} CountOnce(s: seq<SourceRecord>, x: SourceRecord)
    requires forall i, j | 0 <= i < j < |s| :: s[i] != s[j]
    ensures multiset(s)[x] <= 1
  {
    if s != [] {
      var n := |s| - 1;
      CountOnce(s[..n], x);
      assert s == s[..n] + [s[n]];
      assert s[n] !in s[..n];
      assert s[n] !in multiset(s[..n]);
    }
  }

  lemma {:induction false} DistinctNeighbours(sorted: seq<SourceRecord>)
    requires SortedBy(sorted, SourceOrder)
    requires forall k | 1 <= k < |sorted| :: sorted[k].id != sorted[k - 1].id
    ensures OncePerId(sorted)
  {
    forall i, j | 0 <= i < j < |sorted|
      ensures sorted[i].id != sorted[j].id
    {
      Apart(sorted, i, j);
    }
    forall a | a in sorted
      ensures multiset(sorted)[a] == 1
    {
      CountOnce(sorted, a);
      assert a in multiset(sorted);
    }
  }

  lemma {:induction false} Apart(sorted: seq<SourceRecord>, i: nat, j: nat)
    requires SortedBy(sorted, SourceOrder) && i < j < |sorted| && sorted[i + 1].id != sorted[i].id
    ensures sorted[i].id != sorted[j].id
  {
    if SourceOrder(sorted[i]) == SourceOrder(sorted[j]) {
      KeyBetween(sorted, SourceOrder, i, i + 1, j);
    }
    assert SourceOrder(sorted[i])[0] == sorted[i].id && SourceOrder(sorted[i + 1])[0] == sorted[i + 1].id;
  }

  /** Every check on single records. */
  method CheckRecords(h: Header, s: Submission) returns (ok: bool)
    ensures ok <==> RecordsValid(h, s)
  {
    if h.slotCount == 0 || h.slotCount > MAX_SLOTS {
      return false;
    }
    ok := SourcesDistinct(s.sources);
    if !ok {
      return;
    }
    ok := AllPass(s.nodes, (r: NodeRecord) => |r.domains| <= MAX_DOMAINS);
    if !ok {
      return;
    }
    ok := AllPass(s.ports, (r: PortRecord) => |r.domains| <= MAX_DOMAINS && MaskFits(r.blocked, h.slotCount));
    if !ok {
      return;
    }
    ok := AllPass(s.spans, (r: SpanRecord) => SpanValid(r, h.slotCount));
    if !ok {
      return;
    }
    ok := AllPass(s.crossConnects,
                  (r: CrossConnectRecord) => |r.domains| <= MAX_DOMAINS && MaskFits(r.blocked, h.slotCount));
    if !ok {
      return;
    }
    ok := AllPass(s.profiles, (r: ReachProfile) => ProfileValid(r));
  }

  // ----- linking --------------------------------------------------------------------------

  /** The ports of a link that exist, when not both do. */
  function Ends(ports: set<PortKey>, from: PortKey, to: PortKey): set<PortKey> {
    (if from in ports && to !in ports then {from} else {}) + (if to in ports && from !in ports then {to} else {})
  }

  function SpanEnds(ports: set<PortKey>, spans: seq<SpanRecord>): set<PortKey> {
    if spans == [] then {}
    else
      var n := |spans| - 1;
      SpanEnds(ports, spans[..n]) + Ends(ports, spans[n].from, spans[n].to)
  }

  function CrossEnds(ports: set<PortKey>, crosses: seq<CrossConnectRecord>): set<PortKey> {
    if crosses == [] then {}
    else
      var n := |crosses| - 1;
      CrossEnds(ports, crosses[..n]) + Ends(ports, crosses[n].from, crosses[n].to)
  }

  lemma {:induction false} SpanEndsAre(ports: set<PortKey>, spans: seq<SpanRecord>, p: PortKey)
    ensures p in SpanEnds(ports, spans) <==>
              p in ports && exists i :: 0 <= i < |spans| && Dangling(ports, spans[i].from, spans[i].to, p)
  {
    if spans != [] {
      var n := |spans| - 1;
      SpanEndsAre(ports, spans[..n], p);
      if p in SpanEnds(ports, spans[..n]) {
        var i :| 0 <= i < n && Dangling(ports, spans[..n][i].from, spans[..n][i].to, p);
        assert Dangling(ports, spans[i].from, spans[i].to, p);
      } else if p in SpanEnds(ports, spans) {
        assert Dangling(ports, spans[n].from, spans[n].to, p);
      } else {
        forall i | 0 <= i < |spans| && p in ports
          ensures !Dangling(ports, spans[i].from, spans[i].to, p)
        {
          assert i < n ==> !Dangling(ports, spans[..n][i].from, spans[..n][i].to, p);
        }
      }
    }
  }

  lemma {:induction false} CrossEndsAre(ports: set<PortKey>, crosses: seq<CrossConnectRecord>, p: PortKey)
    ensures p in CrossEnds(ports, crosses) <==>
              p in ports && exists i :: 0 <= i < |crosses| && Dangling(ports, crosses[i].from, crosses[i].to, p)
  {
    if crosses != [] {
      var n := |crosses| - 1;
      CrossEndsAre(ports, crosses[..n], p);
      if p in CrossEnds(ports, crosses[..n]) {
        var i :| 0 <= i < n && Dangling(ports, crosses[..n][i].from, crosses[..n][i].to, p);
        assert Dangling(ports, crosses[i].from, crosses[i].to, p);
      } else if p in CrossEnds(ports, crosses) {
        assert Dangling(ports, crosses[n].from, crosses[n].to, p);
      } else {
        forall i | 0 <= i < |crosses| && p in ports
          ensures !Dangling(ports, crosses[i].from, crosses[i].to, p)
        {
          assert i < n ==> !Dangling(ports, crosses[..n][i].from, crosses[..n][i].to, p);
        }
      }
    }
  }

  type Lists = map<PortKey, seq<Arc>>

  function Append(lists: Lists, p: PortKey, arc: Arc): Lists
    requires p in lists
  {
    lists[p := lists[p] + [arc]]
  }

  function WithSpan(lists: Lists, span: SpanRecord, index: nat): (r: Lists)
    ensures r.Keys == lists.Keys
    ensures forall p | p in lists :: r[p] == lists[p] + NewSpanArcs(lists.Keys, span, index, p)
  {
    if span.from !in lists || span.to !in lists then lists
    else
      var forward := Append(lists, span.from, SpanArc(index, false));
      if span.bidirectional then Append(forward, span.to, SpanArc(index, true)) else forward
  }

  function WithCross(lists: Lists, cross: CrossConnectRecord, index: nat): (r: Lists)
    ensures r.Keys == lists.Keys
    ensures forall p | p in lists ::
              r[p] == lists[p] + if cross.from == p && cross.to in lists then [CrossArc(index)] else []
  {
    if cross.from !in lists || cross.to !in lists then lists else Append(lists, cross.from, CrossArc(index))
  }

  function SpanLinks(ports: set<PortKey>, spans: seq<SpanRecord>): Lists {
    if spans == [] then map p | p in ports :: []
    else WithSpan(SpanLinks(ports, spans[..|spans| - 1]), spans[|spans| - 1], |spans| - 1)
  }

  function CrossLinks(ports: set<PortKey>, crosses: seq<CrossConnectRecord>): Lists {
    if crosses == [] then map p | p in ports :: []
    else WithCross(CrossLinks(ports, crosses[..|crosses| - 1]), crosses[|crosses| - 1], |crosses| - 1)
  }

  lemma {:induction false} SpanLinksAre(ports: set<PortKey>, spans: seq<SpanRecord>)
    ensures SpanLinks(ports, spans) == map p | p in ports :: SpanArcsFrom(ports, spans, p)
  {
    if spans != [] {
      SpanLinksAre(ports, spans[..|spans| - 1]);
    }
  }

  lemma {:induction false} CrossLinksAre(ports: set<PortKey>, crosses: seq<CrossConnectRecord>)
    ensures CrossLinks(ports, crosses) == map p | p in ports :: CrossArcsFrom(ports, crosses, p)
  {
    if crosses != [] {
      CrossLinksAre(ports, crosses[..|crosses| - 1]);
    }
  }

  predicate SpanLinked(ports: set<PortKey>, span: SpanRecord) { span.from in ports && span.to in ports }
  predicate CrossLinked(ports: set<PortKey>, cross: CrossConnectRecord) { cross.from in ports && cross.to in ports }

  /** Appends the arcs of each span to the lists of the ports it leaves. */
  method LinkSpans(ports: set<PortKey>, spans: seq<SpanRecord>)
    returns (arcs: Lists, dangling: set<PortKey>, resolved: bool)
    ensures arcs == SpanLinks(ports, spans) && dangling == SpanEnds(ports, spans)
    ensures resolved <==> forall i | 0 <= i < |spans| :: SpanLinked(ports, spans[i])
  {
    arcs, dangling, resolved := map p | p in ports :: [], {}, true;
    for i := 0 to |spans|
      invariant arcs == SpanLinks(ports, spans[..i]) && dangling == SpanEnds(ports, spans[..i])
      invariant resolved <==> forall k | 0 <= k < i :: SpanLinked(ports, spans[k])
    {
      assert spans[..i + 1][..i] == spans[..i];
      arcs := WithSpan(arcs, spans[i], i);
      dangling := dangling + Ends(ports, spans[i].from, spans[i].to);
      resolved := resolved && SpanLinked(ports, spans[i]);
    }
    assert spans[..|spans|] == spans;
  }

  /** The same for cross-connects, which have one direction. */
  method LinkCrosses(ports: set<PortKey>, crosses: seq<CrossConnectRecord>)
    returns (arcs: Lists, dangling: set<PortKey>, resolved: bool)
    ensures arcs == CrossLinks(ports, crosses) && dangling == CrossEnds(ports, crosses)
    ensures resolved <==> forall i | 0 <= i < |crosses| :: CrossLinked(ports, crosses[i])
  {
    arcs, dangling, resolved := map p | p in ports :: [], {}, true;
    for i := 0 to |crosses|
      invariant arcs == CrossLinks(ports, crosses[..i]) && dangling == CrossEnds(ports, crosses[..i])
      invariant resolved <==> forall k | 0 <= k < i :: CrossLinked(ports, crosses[k])
    {
      assert crosses[..i + 1][..i] == crosses[..i];
      arcs := WithCross(arcs, crosses[i], i);
      dangling := dangling + Ends(ports, crosses[i].from, crosses[i].to);
      resolved := resolved && CrossLinked(ports, crosses[i]);
    }
    assert crosses[..|crosses|] == crosses;
  }

  // ----- the builder ----------------------------------------------------------------------

  class SnapshotBuilder {
    const header: Header
    var submission: Submission
    var built: bool

    constructor (header: Header, submission: Submission)
      ensures this.header == header && this.submission == submission && !built
    {
      this.header, this.submission, built := header, submission, false;
    }

    /** Seals the snapshot, or refuses.  A builder builds once, whatever comes of it. */
    method Build() returns (snapshot: Option<Snapshot>)
      modifies this
      ensures built && (old(built) ==> snapshot.None? && submission == old(submission))
      ensures snapshot.Some? ==>
                && RecordsValid(header, old(submission)) && Built(header, old(submission), snapshot.value)
                && Permitted(header, snapshot.value) && submission == EMPTY
      ensures !old(built) && snapshot.None? ==>
                !RecordsValid(header, old(submission))
                || exists net :: Built(header, old(submission), net) && !Permitted(header, net)
    {
      if built {
        return None;
      }
      built := true;
      var ok := CheckRecords(header, submission);
      if !ok {
        return None;
      }
      var net, nodes := Gather(header, submission);
      net := Link(submission.sources, nodes, net);
      var permitted := CheckOptions(header, net);
      if !permitted {
        return None;
      }
      submission := EMPTY;
      return Some(net);
    }
  }

  /** Sorts, deduplicates and notes conflicts; the adjacency is still empty. */
  method Gather(h: Header, s: Submission) returns (net: Snapshot, nodes: seq<NodeRecord>)
    ensures nodes == UniqueNodes(s).kept
    ensures RecordsBuilt(s, net) && !net.restored && net.slotCount == h.slotCount
    ensures net.generation == h.generation && net.digest == h.digest && net.fixedGrid == h.fixedGrid
    ensures net.sources == Generations(SortBy(s.sources, SourceOrder))
  {
    var nodeFlags;
    nodes, nodeFlags := SortAndDeduplicate(s.nodes, NodeOrder, NodeName);
    var ports, portFlags := SortAndDeduplicate(s.ports, PortOrder, PortName);
    var spans, spanFlags := SortAndDeduplicate(s.spans, SpanOrder, SpanName);
    var crosses, crossFlags := SortAndDeduplicate(s.crossConnects, CrossOrder, CrossName);
    var profiles, profileFlags := SortAndDeduplicate(s.profiles, ProfileOrder, ProfileName);
    var conflicted := (set x | x in nodeFlags :: ForNode(x)) + (set x | x in portFlags :: ForPort(x))
                      + (set x | x in spanFlags :: ForSpan(x)) + (set x | x in crossFlags :: ForCrossConnect(x))
                      + (set x | x in profileFlags :: ForProfile(x));
    net := Snapshot(h.generation, h.digest, Generations(SortBy(s.sources, SourceOrder)), false, h.fixedGrid,
                    h.slotCount, ByName(nodes, NodeName), ByName(ports, PortName), spans, crosses,
                    ByName(profiles, ProfileName), conflicted, {}, map[], map[], false);
  }

  /** Fills in the adjacency, what is unresolved, and the coverage. */
  method Link(sources: seq<SourceRecord>, nodes: seq<NodeRecord>, net: Snapshot) returns (linked: Snapshot)
    ensures linked == net.(spanArcs := linked.spanArcs, crossArcs := linked.crossArcs,
                           unresolvedAt := linked.unresolvedAt, coverageComplete := linked.coverageComplete)
    ensures ArcsBuilt(linked) && CoverageBuilt(sources, nodes, linked)
  {
    var ports := net.ports.Keys;
    var spanArcs, spanEnds, spansResolved := LinkSpans(ports, net.spans);
    var crossArcs, crossEnds, crossesResolved := LinkCrosses(ports, net.crossConnects);
    var unresolved, complete :=
      Cover(sources, nodes, net, spanEnds + crossEnds, spansResolved && crossesResolved);
    spanArcs := SortSpanLists(ports, net.spans, spanArcs);
    crossArcs := SortCrossLists(ports, net.crossConnects, crossArcs);
    linked := net.(spanArcs := spanArcs, crossArcs := crossArcs, unresolvedAt := unresolved,
                   coverageComplete := complete);
  }

  method SortSpanLists(ports: set<PortKey>, spans: seq<SpanRecord>, lists: Lists) returns (sorted: Lists)
    requires lists == SpanLinks(ports, spans)
    ensures sorted == map p | p in ports :: SpanList(ports, spans, p)
  {
    SpanLinksAre(ports, spans);
    sorted := map p | p in ports :: SortBy(lists[p], SpanArcOrder(spans));
  }

  method SortCrossLists(ports: set<PortKey>, crosses: seq<CrossConnectRecord>, lists: Lists) returns (sorted: Lists)
    requires lists == CrossLinks(ports, crosses)
    ensures sorted == map p | p in ports :: CrossList(ports, crosses, p)
  {
    CrossLinksAre(ports, crosses);
    sorted := map p | p in ports :: SortBy(lists[p], CrossArcOrder(crosses));
  }

  /** What is unresolved, and the coverage, given what the links leave open. */
  method Cover(sources: seq<SourceRecord>, nodes: seq<NodeRecord>, net: Snapshot, ends: set<PortKey>,
               linksResolved: bool)
    returns (unresolved: set<PortKey>, complete: bool)
    requires ends == SpanEnds(net.ports.Keys, net.spans) + CrossEnds(net.ports.Keys, net.crossConnects)
    requires linksResolved <==>
               && (forall i | 0 <= i < |net.spans| :: SpanLinked(net.ports.Keys, net.spans[i]))
               && (forall i | 0 <= i < |net.crossConnects| :: CrossLinked(net.ports.Keys, net.crossConnects[i]))
    ensures CoverageBuilt(sources, nodes, net.(unresolvedAt := unresolved, coverageComplete := complete))
  {
    var orphans := Orphans(net);
    var sourcesComplete := AllPass(sources, (r: SourceRecord) => r.complete);
    var nodesComplete := AllPass(nodes, (r: NodeRecord) => r.complete);
    unresolved := orphans + ends;
    complete := orphans == {} && linksResolved && net.conflicted == {} && sourcesComplete && nodesComplete;
    UnresolvedIs(net, orphans);
    ResolvedIs(net, orphans);
  }

  lemma {:induction false} UnresolvedIs(net: Snapshot, orphans: set<PortKey>)
    requires orphans == set p | p in net.ports && p.node !in net.nodes
    ensures orphans + SpanEnds(net.ports.Keys, net.spans) + CrossEnds(net.ports.Keys, net.crossConnects) ==
            set p | p in net.ports && Unresolved(net.nodes.Keys, net.ports.Keys, net.spans, net.crossConnects, p)
  {
    forall p
      ensures p in orphans || p in SpanEnds(net.ports.Keys, net.spans)
              || p in CrossEnds(net.ports.Keys, net.crossConnects) <==>
              p in net.ports && Unresolved(net.nodes.Keys, net.ports.Keys, net.spans, net.crossConnects, p)
    {
      SpanEndsAre(net.ports.Keys, net.spans, p);
      CrossEndsAre(net.ports.Keys, net.crossConnects, p);
    }
  }

  lemma {:induction false} ResolvedIs(net: Snapshot, orphans: set<PortKey>)
    requires orphans == {} <==> forall p | p in net.ports :: p.node in net.nodes
    ensures Resolved(net.nodes.Keys, net.ports.Keys, net.spans, net.crossConnects) <==>
            && orphans == {}
            && (forall i | 0 <= i < |net.spans| :: SpanLinked(net.ports.Keys, net.spans[i]))
            && (forall i | 0 <= i < |net.crossConnects| :: CrossLinked(net.ports.Keys, net.crossConnects[i]))
  {}

  /** Ports whose node has no record. */
  method Orphans(net: Snapshot) returns (orphans: set<PortKey>)
    ensures orphans == set p | p in net.ports && p.node !in net.nodes
    ensures orphans == {} <==> forall p | p in net.ports :: p.node in net.nodes
  {
    orphans := set p | p in net.ports && p.node !in net.nodes;
    if p :| p in net.ports && p.node !in net.nodes {
      assert p in orphans;
    }
  }

  /** The rules a caller may switch on or off. */
  method CheckOptions(h: Header, net: Snapshot) returns (ok: bool)
    ensures ok <==> Permitted(h, net)
  {
    var loopFree := LoopFree(net.spans, net.crossConnects);
    if h.rejectSelfLoops && !loopFree {
      return false;
    }
    var resolved := AllResolved(net);
    ok := h.allowUnresolved || resolved;
  }

  method LoopFree(spans: seq<SpanRecord>, crosses: seq<CrossConnectRecord>) returns (ok: bool)
    ensures ok <==>
              && (forall i | 0 <= i < |spans| :: spans[i].from != spans[i].to)
              && (forall i | 0 <= i < |crosses| :: crosses[i].from != crosses[i].to)
  {
    var spansOk := AllPass(spans, (r: SpanRecord) => r.from != r.to);
    var crossesOk := AllPass(crosses, (r: CrossConnectRecord) => r.from != r.to);
    ok := spansOk && crossesOk;
  }

  method AllResolved(net: Snapshot) returns (ok: bool)
    ensures ok <==> Resolved(net.nodes.Keys, net.ports.Keys, net.spans, net.crossConnects)
  {
    var orphans := Orphans(net);
    var ports := net.ports.Keys;
    var spansOk := AllPass(net.spans, (r: SpanRecord) => SpanLinked(ports, r));
    var crossesOk := AllPass(net.crossConnects, (r: CrossConnectRecord) => CrossLinked(ports, r));
    ok := orphans == {} && spansOk && crossesOk;
    ResolvedIs(net, orphans);
  }

  // ----- a disagreement the builder does not see ------------------------------------------

  const A: PortKey := PortKey("n", "a")
  const B: PortKey := PortKey("n", "b")
  const C: PortKey := PortKey("n", "c")
  const D: PortKey := PortKey("n", "d")

  function Plain(id: Id, to: PortKey): SpanRecord {
    SpanRecord(id, A, to, true, Known(1), Known(0.0), Known(1.0), Known({}), {}, 1, Known(Up))
  }

  /** Two records of span "x" disagree about where it ends.  With a span of another id sorting
      between them neither is dropped or flagged; without it, one is flagged. */
  lemma {:induction false} UnseenDuplicate()
    ensures var spans := [Plain("x", B), Plain("y", C), Plain("x", D)];
            Differ(spans, SpanName, "x") && Dedup(SortBy(spans, SpanOrder), SpanName) == Unique(spans, {})
    ensures Dedup(SortBy([Plain("x", B), Plain("x", D)], SpanOrder), SpanName) == Unique([Plain("x", B)], {"x"})
  {
    var x1, y, x2 := Plain("x", B), Plain("y", C), Plain("x", D);
    Ascending(x1, y, 'b', 'c');
    Ascending(x1, x2, 'b', 'd');
    Ascending(y, x2, 'c', 'd');
    SortedPair(x1, x2);
    SortedPair(x1, y);
    SortedTriple(x1, y, x2);
    DedupPair(x1, x2);
    DedupTriple(x1, y, x2);
    var spans := [x1, y, x2];
    assert spans[0] in spans && spans[2] in spans;
  }

  lemma {:induction false} DedupPair(a: SpanRecord, b: SpanRecord)
    requires a != b
    ensures Dedup([a, b], SpanName) ==
            if SpanName(a) == SpanName(b) then Unique([a], {SpanName(b)}) else Unique([a, b], {})
  {
    assert [a, b][..1] == [a] && [a][..0] == [];
    assert Dedup([a], SpanName) == Unique([a], {});
  }

  lemma {:induction false} DedupTriple(a: SpanRecord, b: SpanRecord, c: SpanRecord)
    requires SpanName(a) != SpanName(b) && SpanName(b) != SpanName(c)
    ensures Dedup([a, b, c], SpanName) == Unique([a, b, c], {})
  {
    DedupPair(a, b);
    assert [a, b, c][..2] == [a, b];
  }

  lemma {:induction false} SortedPair(a: SpanRecord, b: SpanRecord)
    requires !KeyLess(SpanOrder(b), SpanOrder(a))
    ensures SortBy([a, b], SpanOrder) == [a, b]
  {
    assert [a, b][..1] == [a] && [a][..0] == [];
    assert SortBy([a], SpanOrder) == [a];
    Appends([a], b);
  }

  lemma {:induction false} SortedTriple(a: SpanRecord, b: SpanRecord, c: SpanRecord)
    requires SortBy([a, b], SpanOrder) == [a, b]
    requires !KeyLess(SpanOrder(c), SpanOrder(a)) && !KeyLess(SpanOrder(c), SpanOrder(b))
    ensures SortBy([a, b, c], SpanOrder) == [a, b, c]
  {
    assert [a, b, c][..2] == [a, b];
    Appends([a, b], c);
  }

  lemma {:induction false} Ascending(a: SpanRecord, b: SpanRecord, c: char, d: char)
    requires SpanOrder(a)[..4] == ["n", "a", "n", [c]] && SpanOrder(b)[..4] == ["n", "a", "n", [d]] && c < d
    ensures !KeyLess(SpanOrder(b), SpanOrder(a))
  {
    var ka, kb := SpanOrder(a), SpanOrder(b);
    TextTotal("n", "n");
    TextTotal("a", "a");
    assert ka[0] == "n" && ka[1] == "a" && ka[2] == "n" && ka[3] == [c];
    assert kb[0] == "n" && kb[1] == "a" && kb[2] == "n" && kb[3] == [d];
    assert TextLess([c], [d]);
    TextTotal([c], [d]);
    assert ka[1..][0] == ka[1] && ka[1..][1..] == ka[2..] && ka[2..][1..] == ka[3..] && ka[3..][0] == ka[3];
    assert kb[1..][0] == kb[1] && kb[1..][1..] == kb[2..] && kb[2..][1..] == kb[3..] && kb[3..][0] == kb[3];
    assert !KeyLess(kb[3..], ka[3..]);
    assert !KeyLess(kb[2..], ka[2..]);
    assert !KeyLess(kb[1..], ka[1..]);
  }

  /** Inserting a record that sorts before none of a list appends it. */
  lemma {:induction false} Appends(s: seq<SpanRecord>, x: SpanRecord)
    requires forall k | 0 <= k < |s| :: !KeyLess(SpanOrder(x), SpanOrder(s[k]))
    ensures InsertBy(s, x, SpanOrder) == s + [x]
  {
    if s != [] {
      Appends(s[1..], x);
      assert s == [s[0]] + s[1..];
    }
  }
}
