/** What every state of the label search keeps, whatever operations the request allows. */
module SearchInvariant {
  import opened Network
  import opened Rules
  import opened Routes
  import opened SearchModel

  // ----- the invariant --------------------------------------------------------------------

  /** Every label is the replay of its own parent chain, which is an admissible route. */
  ghost predicate Sound(pb: Problem, arena: Arena) {
    && Linked(arena)
    && forall i | 0 <= i < |arena| :: SoundEntry(pb, arena, i)
  }

  ghost predicate SoundEntry(pb: Problem, arena: Arena, i: nat)
    requires Linked(arena) && i < |arena|
  {
    && Admissible(pb.net, pb.req, RouteOf(arena, i))
    && Final(pb.net, pb.req, RouteOf(arena, i)) == arena[i].mark
  }

  ghost predicate Sorted(arena: Arena, queue: seq<nat>)
    requires Indices(arena, queue)
  {
    forall i, j | 0 <= i < j < |queue| :: Before(arena, queue[i], queue[j])
  }

  /** Retained labels are expanded; expanded labels have left the queue; every parent is expanded. */
  ghost predicate Phased(arena: Arena, frontier: seq<nat>, retained: set<nat>, expanded: set<nat>) {
    && (forall i | i in retained :: i in expanded)
    && (forall i | i in expanded :: i < |arena|)
    && (forall i | i in frontier :: i !in expanded)
    && (forall i | 0 <= i < |arena| && arena[i].origin.From? :: arena[i].origin.parent in expanded)
  }

  /** A bucket holds exactly the retained labels of its port and profile. */
  ghost predicate Indexed(arena: Arena, buckets: Buckets, retained: set<nat>) {
    forall key, i :: i in BucketAt(buckets, key) <==> i in retained && i < |arena| && KeyOf(arena[i].mark) == key
  }

  /** No two retained labels of one bucket are in dominance order. */
  ghost predicate Antichain(arena: Arena, retained: set<nat>) {
    forall i, j {:trigger Dominates(arena[i].mark, arena[j].mark)}
      | i in retained && j in retained && i < |arena| && j < |arena| && i != j
        && SameBucket(arena[i].mark, arena[j].mark) ::
      !Dominates(arena[i].mark, arena[j].mark)
  }

  /** Some retained label of the same bucket dominates `l`. */
  ghost predicate Covered(arena: Arena, retained: set<nat>, l: Label) {
    exists j :: j in retained && j < |arena| && SameBucket(arena[j].mark, l) && Dominates(arena[j].mark, l)
  }

  ghost predicate ExpandedCovered(arena: Arena, retained: set<nat>, expanded: set<nat>) {
    forall i {:trigger Covered(arena, retained, arena[i].mark)} | i in expanded && i < |arena| ::
      Covered(arena, retained, arena[i].mark)
  }

  /** Nothing waiting in the queue has a smaller key than anything already expanded. */
  ghost predicate KeysOrdered(arena: Arena, frontier: seq<nat>, expanded: set<nat>) {
    forall e, f {:trigger KeyLeq(arena[e].mark, arena[f].mark)}
      | e in expanded && f in frontier && e < |arena| && f < |arena| ::
      KeyLeq(arena[e].mark, arena[f].mark)
  }

  /** The destination list holds exactly the expanded labels at the destination, in key order. */
  ghost predicate DestinationsListed(pb: Problem, arena: Arena, expanded: set<nat>, destinations: seq<nat>)
    requires Indices(arena, destinations)
  {
    && (forall i :: i in destinations <==>
          i in expanded && i < |arena| && arena[i].mark.port == pb.req.destination)
    && (forall i, j | 0 <= i < j < |destinations| ::
          KeyLeq(arena[destinations[i]].mark, arena[destinations[j]].mark))
  }

  ghost predicate Inv(pb: Problem, s: State) {
    && Ready(s) && |s.arena| > 0 && Sound(pb, s.arena)
    && Sorted(s.arena, s.frontier)
    && Phased(s.arena, s.frontier, s.retained, s.expanded)
    && Indexed(s.arena, s.buckets, s.retained)
    && Antichain(s.arena, s.retained)
    && ExpandedCovered(s.arena, s.retained, s.expanded)
    && KeysOrdered(s.arena, s.frontier, s.expanded)
    && DestinationsListed(pb, s.arena, s.expanded, s.destinations)
  }

  // ----- chains in a growing arena --------------------------------------------------------

  lemma {:induction false} ChainFrame(a: Arena, b: Arena, i: nat)
    requires a <= b && Linked(b) && i < |a|
    ensures Linked(a) && RouteOf(a, i) == RouteOf(b, i)
    ensures forall p :: OnPath(a, i, p) <==> OnPath(b, i, p)
  {
    assert forall k | 0 <= k < |a| :: a[k] == b[k];
    if a[i].origin.From? {
      ChainFrame(a, b, a[i].origin.parent);
    }
  }

  lemma {:induction false} ExtendFrame(pb: Problem, a: Arena, b: Arena, i: nat, arc: Arc)
    requires a <= b && Linked(b) && i < |a|
    ensures Linked(a) && Extend(pb.net, pb.req, a, i, arc) == Extend(pb.net, pb.req, b, i, arc)
  {
    ChainFrame(a, b, i);
    assert a[i] == b[i];
  }

  lemma {:induction false} SoundFrame(pb: Problem, a: Arena, entry: Entry)
    requires Sound(pb, a) && Linked(a + [entry]) && SoundEntry(pb, a + [entry], |a|)
    ensures Sound(pb, a + [entry])
  {
    forall i | 0 <= i < |a|
      ensures SoundEntry(pb, a + [entry], i)
    {
      assert SoundEntry(pb, a, i);
      ChainFrame(a, a + [entry], i);
    }
  }

  /** The loop check on parent links sees exactly the ports the route visits. */
  lemma {:induction false} OnPathIsVisited(pb: Problem, arena: Arena, i: nat, p: PortKey)
    requires Sound(pb, arena) && i < |arena|
    ensures OnPath(arena, i, p) <==> p in Visited(pb.net, pb.req.source, RouteOf(arena, i))
  {
    var route := RouteOf(arena, i);
    assert SoundEntry(pb, arena, i);
    FinalPort(pb.net, pb.req, route);
    match arena[i].origin
    case Root =>
    case From(parent, arc) =>
      OnPathIsVisited(pb, arena, parent, p);
      VisitedAppend(pb.net, pb.req.source, RouteOf(arena, parent), arc);
  }

  /** A new arrival keeps a route port-simple. */
  lemma {:induction false} SimpleGrows(net: Snapshot, source: PortKey, route: seq<Arc>, arc: Arc)
    requires PortSimple(net, source, route) && ArrivalOrNowhere(net, arc) !in Visited(net, source, route)
    ensures PortSimple(net, source, route + [arc])
  {
    VisitedAppend(net, source, route, arc);
  }

  /** What the extension of a sound label stands for. */
  lemma {:induction false} ExtendAdmissible(pb: Problem, arena: Arena, i: nat, arc: Arc)
    requires Sound(pb, arena) && i < |arena| && Extend(pb.net, pb.req, arena, i, arc).Some?
    ensures Admissible(pb.net, pb.req, RouteOf(arena, i) + [arc])
    ensures Final(pb.net, pb.req, RouteOf(arena, i) + [arc]) == Extend(pb.net, pb.req, arena, i, arc).value
  {
    var next := Extend(pb.net, pb.req, arena, i, arc).value;
    assert SoundEntry(pb, arena, i);
    ReplayAppend(pb.net, pb.req, RouteOf(arena, i), arc);
    StepRaisesKey(pb.net, pb.req, arena[i].mark, arc);
    OnPathIsVisited(pb, arena, i, next.port);
    SimpleGrows(pb.net, pb.req.source, RouteOf(arena, i), arc);
  }

  /** Extending a sound label gives a sound label. */
  lemma {:induction false} ExtendSound(pb: Problem, arena: Arena, i: nat, arc: Arc)
    requires Sound(pb, arena) && i < |arena| && Extend(pb.net, pb.req, arena, i, arc).Some?
    ensures Sound(pb, arena + [Entry(Extend(pb.net, pb.req, arena, i, arc).value, From(i, arc))])
  {
    var next := Extend(pb.net, pb.req, arena, i, arc).value;
    var entry := Entry(next, From(i, arc));
    var grown := arena + [entry];
    ChainFrame(arena, grown, i);
    assert RouteOf(grown, |arena|) == RouteOf(arena, i) + [arc];
    ExtendAdmissible(pb, arena, i, arc);
    SoundFrame(pb, arena, entry);
  }

  // ----- the queue ------------------------------------------------------------------------

  lemma {:induction false} BeforeTransitive(arena: Arena, i: nat, j: nat, k: nat)
    requires i < |arena| && j < |arena| && k < |arena|
    requires Before(arena, i, j) && Before(arena, j, k)
    ensures Before(arena, i, k)
  {}

  lemma {:induction false} InsertSorted(arena: Arena, queue: seq<nat>, i: nat)
    requires Indices(arena, queue) && i < |arena| && Sorted(arena, queue) && i !in queue
    ensures Sorted(arena, Insert(arena, queue, i))
  {
    if queue == [] {
    } else if Before(arena, i, queue[0]) {
      forall j | 0 <= j < |queue|
        ensures Before(arena, i, queue[j])
      {
        if j > 0 {
          BeforeTransitive(arena, i, queue[0], queue[j]);
        }
      }
    } else {
      var rest := Insert(arena, queue[1..], i);
      InsertSorted(arena, queue[1..], i);
      assert Before(arena, queue[0], i);
      forall j | 0 <= j < |rest|
        ensures Before(arena, queue[0], rest[j])
      {
        assert rest[j] in rest;
        if rest[j] != i {
          var k :| 0 <= k < |queue[1..]| && queue[1..][k] == rest[j];
          assert queue[k + 1] == rest[j];
        }
      }
    }
  }

  // ----- preservation ---------------------------------------------------------------------

  lemma {:induction false} KeyLeqTransitive(a: Label, b: Label, c: Label)
    requires KeyLeq(a, b) && KeyLeq(b, c)
    ensures KeyLeq(a, c)
  {}

  lemma {:induction false} DominatesKeyLeq(a: Label, b: Label)
    requires Dominates(a, b)
    ensures KeyLeq(a, b)
  {}

  /** The head of the queue has the least key. */
  lemma {:induction false} HeadIsLeast(arena: Arena, frontier: seq<nat>, f: nat)
    requires Indices(arena, frontier) && Sorted(arena, frontier) && frontier != [] && f in frontier
    ensures KeyLeq(arena[frontier[0]].mark, arena[f].mark)
  {
    var k :| 0 <= k < |frontier| && frontier[k] == f;
    if k > 0 {
      assert Before(arena, frontier[0], frontier[k]);
    }
  }

  /** Removing the head keeps everything. */
  lemma {:induction false} PopKeeps(pb: Problem, s: State)
    requires Inv(pb, s) && s.frontier != []
    ensures Inv(pb, s.(frontier := s.frontier[1..]))
    ensures s.frontier[0] !in s.frontier[1..]
  {
    var rest := s.frontier[1..];
    forall k | 0 <= k < |rest|
      ensures rest[k] in s.frontier && rest[k] != s.frontier[0]
    {
      assert rest[k] == s.frontier[k + 1];
      assert Before(s.arena, s.frontier[0], s.frontier[k + 1]);
    }
    forall f | f in rest
      ensures f in s.frontier
    {
      var k :| 0 <= k < |rest| && rest[k] == f;
    }
  }

  /** A dominated label evicts nothing: the bucket is an antichain. */
  lemma {:induction false} DominatedEvictsNothing(s: State, l: Label)
    requires Ready(s) && Indexed(s.arena, s.buckets, s.retained) && Antichain(s.arena, s.retained)
    requires IsDominated(s.arena, s.retained, BucketAt(s.buckets, KeyOf(l)), l)
    ensures Evicted(s.arena, s.retained, BucketAt(s.buckets, KeyOf(l)), l) == {}
    ensures Covered(s.arena, s.retained, l)
  {
    var bucket := BucketAt(s.buckets, KeyOf(l));
    var d :| d in bucket && d in s.retained && Dominates(s.arena[d].mark, l);
    forall j | j in Evicted(s.arena, s.retained, bucket, l)
      ensures false
    {
      DominatesTransitive(s.arena[d].mark, l, s.arena[j].mark);
    }
  }

  lemma {:induction false} DropKeeps(pb: Problem, s: State, i: nat)
    requires Inv(pb, s) && i < |s.arena|
    requires var l := s.arena[i].mark; IsDominated(s.arena, s.retained, BucketAt(s.buckets, KeyOf(l)), l)
    ensures Inv(pb, Dropped(s, i))
    ensures Dropped(s, i) == s.(buckets := Dropped(s, i).buckets)
    ensures Covered(s.arena, s.retained, s.arena[i].mark)
  {
    var l := s.arena[i].mark;
    DominatedEvictsNothing(s, l);
    assert Dropped(s, i).retained == s.retained;
    DropIndexed(s, i);
  }

  lemma {:induction false} DropIndexed(s: State, i: nat)
    requires Ready(s) && i < |s.arena| && Indexed(s.arena, s.buckets, s.retained)
    requires var l := s.arena[i].mark; Evicted(s.arena, s.retained, BucketAt(s.buckets, KeyOf(l)), l) == {}
    ensures Indexed(s.arena, Dropped(s, i).buckets, s.retained)
  {
    var l := s.arena[i].mark;
    var kept := Compacted(s.arena, s.retained, BucketAt(s.buckets, KeyOf(l)), l);
    forall key, j
      ensures j in BucketAt(Dropped(s, i).buckets, key) <==> j in BucketAt(s.buckets, key)
    {
      assert BucketAt(Dropped(s, i).buckets, key) == if key == KeyOf(l) then kept else BucketAt(s.buckets, key);
    }
  }

  lemma {:induction false} SettleIndexed(s: State, i: nat, d: PortKey)
    requires Ready(s) && i < |s.arena| && Indexed(s.arena, s.buckets, s.retained)
    ensures Indexed(s.arena, Settled(s, i, d).buckets, Settled(s, i, d).retained)
  {
    var l := s.arena[i].mark;
    var bucket := BucketAt(s.buckets, KeyOf(l));
    var kept := Compacted(s.arena, s.retained, bucket, l) + [i];
    var retained := Settled(s, i, d).retained;
    forall key, j
      ensures j in BucketAt(Settled(s, i, d).buckets, key) <==>
              j in retained && j < |s.arena| && KeyOf(s.arena[j].mark) == key
    {
      assert BucketAt(Settled(s, i, d).buckets, key) == if key == KeyOf(l) then kept else BucketAt(s.buckets, key);
      assert j in Evicted(s.arena, s.retained, bucket, l) ==> KeyOf(s.arena[j].mark) == KeyOf(l);
    }
  }

  lemma {:induction false} SettleAntichain(s: State, i: nat, d: PortKey)
    requires Ready(s) && i < |s.arena| && Indexed(s.arena, s.buckets, s.retained) && Antichain(s.arena, s.retained)
    requires var l := s.arena[i].mark; !IsDominated(s.arena, s.retained, BucketAt(s.buckets, KeyOf(l)), l)
    ensures Antichain(s.arena, Settled(s, i, d).retained)
  {
    var l := s.arena[i].mark;
    forall j | j in Settled(s, i, d).retained && j < |s.arena| && j != i && SameBucket(s.arena[j].mark, l)
      ensures !Dominates(s.arena[j].mark, l) && !Dominates(l, s.arena[j].mark)
    {
      assert j in BucketAt(s.buckets, KeyOf(l));
    }
  }

  /** Settling keeps cover: whoever relied on an evicted label can rely on its evictor. */
  lemma {:induction false} SettleCovers(s: State, i: nat, d: PortKey, m: Label)
    requires Ready(s) && i < |s.arena| && Indexed(s.arena, s.buckets, s.retained)
    requires Covered(s.arena, s.retained, m)
    ensures Covered(s.arena, Settled(s, i, d).retained, m)
  {
    var l := s.arena[i].mark;
    var j :| j in s.retained && j < |s.arena| && SameBucket(s.arena[j].mark, m) && Dominates(s.arena[j].mark, m);
    if j !in Settled(s, i, d).retained {
      assert j in BucketAt(s.buckets, KeyOf(l));
      DominatesTransitive(l, s.arena[j].mark, m);
    }
  }

  /** Evictor and evicted have the same key, because the evicted label was popped first. */
  lemma {:induction false} EvictedHasSameKey(pb: Problem, s: State, i: nat, j: nat)
    requires Inv(pb, s) && i in s.frontier
    requires var l := s.arena[i].mark; j in Evicted(s.arena, s.retained, BucketAt(s.buckets, KeyOf(l)), l)
    ensures var l, e := s.arena[i].mark, s.arena[j].mark;
            e.cost == l.cost && e.hops == l.hops && e.regenerations == l.regenerations
  {
    assert KeyLeq(s.arena[j].mark, s.arena[i].mark);
  }

  ghost predicate HighestExpanded(s: State, i: nat) {
    i < |s.arena| && forall e | e in s.expanded && e < |s.arena| :: KeyLeq(s.arena[e].mark, s.arena[i].mark)
  }

  /** Settling a label just popped keeps everything; at the destination it joins the list. */
  lemma {:induction false} SettleKeeps(pb: Problem, s: State, i: nat)
    requires Inv(pb, s) && i < |s.arena| && i !in s.expanded && i !in s.frontier
    requires var l := s.arena[i].mark; !IsDominated(s.arena, s.retained, BucketAt(s.buckets, KeyOf(l)), l)
    requires forall f | f in s.frontier :: KeyLeq(s.arena[i].mark, s.arena[f].mark)
    requires HighestExpanded(s, i)
    ensures var r := Settled(s, i, pb.req.destination); Inv(pb, r) && HighestExpanded(r, i)
  {
    var d := pb.req.destination;
    SettleIndexed(s, i, d);
    SettleAntichain(s, i, d);
    SettleExpandedCovered(s, i, d);
    SettleDestinations(pb, s, i);
    SettleKeys(s, i, d);
    assert Phased(s.arena, s.frontier, Settled(s, i, d).retained, s.expanded + {i});
  }

  lemma {:induction false} SettleKeys(s: State, i: nat, d: PortKey)
    requires Ready(s) && i < |s.arena| && HighestExpanded(s, i) && KeysOrdered(s.arena, s.frontier, s.expanded)
    requires forall f | f in s.frontier :: KeyLeq(s.arena[i].mark, s.arena[f].mark)
    ensures HighestExpanded(Settled(s, i, d), i) && KeysOrdered(s.arena, s.frontier, s.expanded + {i})
  {
    forall e, f | e in s.expanded + {i} && f in s.frontier && e < |s.arena| && f < |s.arena|
      ensures KeyLeq(s.arena[e].mark, s.arena[f].mark)
    {
      KeyLeqTransitive(s.arena[e].mark, s.arena[i].mark, s.arena[f].mark);
    }
  }

  lemma {:induction false} SettleExpandedCovered(s: State, i: nat, d: PortKey)
    requires Ready(s) && i < |s.arena| && Indexed(s.arena, s.buckets, s.retained)
    requires ExpandedCovered(s.arena, s.retained, s.expanded)
    ensures ExpandedCovered(s.arena, Settled(s, i, d).retained, s.expanded + {i})
  {
    var retained := Settled(s, i, d).retained;
    forall e | e in s.expanded + {i} && e < |s.arena|
      ensures Covered(s.arena, retained, s.arena[e].mark)
    {
      if e == i {
        assert i in retained && Dominates(s.arena[i].mark, s.arena[e].mark);
      } else {
        assert Covered(s.arena, s.retained, s.arena[e].mark);
        SettleCovers(s, i, d, s.arena[e].mark);
      }
    }
  }

  lemma {:induction false} SettleDestinations(pb: Problem, s: State, i: nat)
    requires Ready(s) && i < |s.arena| && i !in s.expanded && HighestExpanded(s, i)
    requires DestinationsListed(pb, s.arena, s.expanded, s.destinations)
    ensures DestinationsListed(pb, s.arena, s.expanded + {i},
              if s.arena[i].mark.port == pb.req.destination then s.destinations + [i] else s.destinations)
  {
    forall k | 0 <= k < |s.destinations|
      ensures KeyLeq(s.arena[s.destinations[k]].mark, s.arena[i].mark)
    {
      assert s.destinations[k] in s.destinations;
    }
  }

  /** Adding a child of the label being expanded keeps everything. */
  lemma {:induction false} PushKeeps(pb: Problem, s: State, i: nat, arc: Arc)
    requires Inv(pb, s) && i in s.expanded && HighestExpanded(s, i)
    requires Extend(pb.net, pb.req, s.arena, i, arc).Some?
    ensures var r := Push(s, Entry(Extend(pb.net, pb.req, s.arena, i, arc).value, From(i, arc)));
            Inv(pb, r) && HighestExpanded(r, i)
  {
    var next := Extend(pb.net, pb.req, s.arena, i, arc).value;
    var r := Push(s, Entry(next, From(i, arc)));
    ExtendSound(pb, s.arena, i, arc);
    StepRaisesKey(pb.net, pb.req, s.arena[i].mark, arc);
    PushSorted(s, Entry(next, From(i, arc)));
    PushFrames(pb, s, Entry(next, From(i, arc)));
    assert KeysOrdered(r.arena, r.frontier, r.expanded) by {
      forall e, f | e in r.expanded && f in r.frontier && e < |r.arena| && f < |r.arena|
        ensures KeyLeq(r.arena[e].mark, r.arena[f].mark)
      {
        assert KeyLeq(s.arena[e].mark, s.arena[i].mark);
        if f == |s.arena| {
          KeyLeqTransitive(s.arena[e].mark, s.arena[i].mark, next);
        } else {
          assert KeyLeq(s.arena[e].mark, s.arena[f].mark);
        }
      }
    }
  }

  lemma {:induction false} PushSorted(s: State, entry: Entry)
    requires Ready(s) && Sorted(s.arena, s.frontier)
    requires entry.origin.From? ==> entry.origin.parent < |s.arena|
    ensures Sorted(s.arena + [entry], Push(s, entry).frontier)
  {
    forall a, b | 0 <= a < b < |s.frontier|
      ensures Before(s.arena + [entry], s.frontier[a], s.frontier[b])
    {
      assert Before(s.arena, s.frontier[a], s.frontier[b]);
    }
    InsertSorted(s.arena + [entry], s.frontier, |s.arena|);
  }

  /** The parts of the invariant that speak of expanded and retained labels do not notice a
      new arena entry. */
  lemma {:induction false} PushFrames(pb: Problem, s: State, entry: Entry)
    requires Ready(s) && Phased(s.arena, s.frontier, s.retained, s.expanded)
    requires entry.origin.From? && entry.origin.parent in s.expanded
    requires Indexed(s.arena, s.buckets, s.retained) && Antichain(s.arena, s.retained)
    requires ExpandedCovered(s.arena, s.retained, s.expanded)
    requires DestinationsListed(pb, s.arena, s.expanded, s.destinations)
    ensures var r := Push(s, entry);
            && Phased(r.arena, r.frontier, r.retained, r.expanded)
            && Indexed(r.arena, r.buckets, r.retained) && Antichain(r.arena, r.retained)
            && ExpandedCovered(r.arena, r.retained, r.expanded)
            && DestinationsListed(pb, r.arena, r.expanded, r.destinations)
  {
    var r := Push(s, entry);
    assert forall k | 0 <= k < |s.arena| :: r.arena[k] == s.arena[k];
    forall i | i in r.expanded && i < |r.arena|
      ensures Covered(r.arena, r.retained, r.arena[i].mark)
    {
      assert Covered(s.arena, s.retained, s.arena[i].mark);
      CoverGrows(s.arena, r.arena, s.retained, s.arena[i].mark);
    }
  }

  lemma {:induction false} CoverGrows(a: Arena, b: Arena, retained: set<nat>, l: Label)
    requires a <= b && Covered(a, retained, l)
    ensures Covered(b, retained, l)
  {
    var j :| j in retained && j < |a| && SameBucket(a[j].mark, l) && Dominates(a[j].mark, l);
    assert b[j] == a[j];
  }
}
