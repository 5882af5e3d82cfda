/** The search as it runs: vectors that grow, a bucket compacted in place, parent links walked
    in loops.  Every method is tied to the state machine of `SearchModel`. */
module SearchEngine {
  import opened Base
  import opened Network
  import opened Rules
  import opened Routes
  import opened SearchModel
  import opened SearchInvariant
  import opened SearchOptimality
  import opened SearchResults

  lemma {:induction false} RootRoute(pb: Problem, arena: Arena, i: nat)
    requires Sound(pb, arena) && i < |arena| && arena[i].origin == Root
    ensures RouteOf(arena, i) == [] && arena[i].mark.port == pb.req.source
  {
    assert SoundEntry(pb, arena, i);
  }

  /** What the member walk reads at a label is what the arc into it contributes. */
  lemma {:induction false} ChildMembers(pb: Problem, arena: Arena, c: nat, d: Id)
    requires Sound(pb, arena) && c < |arena| && arena[c].origin.From?
    ensures var parent, arc := arena[c].origin.parent, arena[c].origin.arc;
            && InRange(pb.net, arc)
            && arena[c].mark.port == Arrival(pb.net, arc) && arena[parent].mark.port == Departure(pb.net, arc)
            && DomainCount(pb.net, pb.req.source, RouteOf(arena, c), d)
               == DomainCount(pb.net, pb.req.source, RouteOf(arena, parent), d) + ArcMembers(pb.net, d, arc)
  {
    var parent, arc := arena[c].origin.parent, arena[c].origin.arc;
    ChildIsStep(pb, arena, c);
    StepRaisesKey(pb.net, pb.req, arena[parent].mark, arc);
    DomainCountAppend(pb.net, pb.req.source, RouteOf(arena, parent), arc, d);
  }

  lemma {:induction false} DomainCountAppend(net: Snapshot, source: PortKey, route: seq<Arc>, arc: Arc, d: Id)
    ensures DomainCount(net, source, route + [arc], d) == DomainCount(net, source, route, d) + ArcMembers(net, d, arc)
  {
    assert (route + [arc])[..|route|] == route;
  }

  lemma {:induction false} ExpandAllSplits(pb: Problem, s: State, i: nat, a: seq<Arc>, b: seq<Arc>)
    requires Ready(s) && i < |s.arena|
    ensures ExpandAll(pb, s, i, a + b) == ExpandAll(pb, ExpandAll(pb, s, i, a), i, b)
    decreases |a|
  {
    if a == [] {
      assert a + b == b;
    } else if s.status == Running {
      assert (a + b)[1..] == a[1..] + b;
      ExpandAllSplits(pb, ExpandOne(pb, s, i, a[0]), i, a[1..], b);
    }
  }

  /** One step of the compaction scan. */
  lemma {:induction false} ScanOne(arena: Arena, retained: set<nat>, bucket: seq<nat>, n: nat, l: Label)
    requires Indices(arena, bucket) && n < |bucket|
    ensures var x := bucket[n];
            && Compacted(arena, retained, bucket[..n + 1], l) ==
               Compacted(arena, retained, bucket[..n], l)
               + (if x in retained && (Dominates(arena[x].mark, l) || !Dominates(l, arena[x].mark)) then [x] else [])
            && Evicted(arena, retained, bucket[..n + 1], l) ==
               Evicted(arena, retained, bucket[..n], l)
               + (if x in retained && !Dominates(arena[x].mark, l) && Dominates(l, arena[x].mark) then {x} else {})
            && IsDominated(arena, retained, bucket[..n + 1], l) ==
               (IsDominated(arena, retained, bucket[..n], l) || (x in retained && Dominates(arena[x].mark, l)))
  {
    assert bucket[..n + 1] == bucket[..n] + [bucket[n]];
    assert bucket[..n + 1][..n] == bucket[..n];
  }

  /** Compacts a bucket in place, dropping the labels that give way to `l`.  The scan runs to
      the end even after a dominator is found, so that no dominator is lost. */
  method CompactBucket(arena: Arena, retained: set<nat>, all: seq<nat>, l: Label)
    returns (bucket: seq<nat>, left: set<nat>, dominated: bool)
    requires Indices(arena, all)
    ensures bucket == Compacted(arena, retained, all, l)
    ensures left == retained - Evicted(arena, retained, all, l)
    ensures dominated == IsDominated(arena, retained, all, l)
  {
    bucket, left, dominated := all, retained, false;
    var write, read := 0, 0;
    while read < |bucket|
      invariant 0 <= write <= read <= |bucket| == |all|
      invariant bucket[read..] == all[read..]
      invariant bucket[..write] == Compacted(arena, retained, all[..read], l)
      invariant left == retained - Evicted(arena, retained, all[..read], l)
      invariant dominated == IsDominated(arena, retained, all[..read], l)
    {
      var other := bucket[read];
      assert other == bucket[read..][0] == all[read];
      ScanOne(arena, retained, all, read, l);
      if other in left {
        var dominator := Dominates(arena[other].mark, l);
        dominated := dominated || dominator;
        if !dominator && Dominates(l, arena[other].mark) {
          left := left - {other};
        } else {
          bucket := bucket[write := other];
          write := write + 1;
        }
      }
      read := read + 1;
    }
    assert all[..read] == all;
    bucket := bucket[..write];
  }

  lemma {:induction false} TraceStep(arena: Arena, cursor: nat, arcs: seq<Arc>)
    requires Linked(arena) && cursor < |arena| && arena[cursor].origin.From?
    ensures var arc := arena[cursor].origin.arc;
            RouteOf(arena, cursor) + Reverse(arcs) ==
            RouteOf(arena, arena[cursor].origin.parent) + Reverse(arcs + [arc])
  {
    var arc := arena[cursor].origin.arc;
    assert (arcs + [arc])[..|arcs|] == arcs;
    assert Reverse(arcs + [arc]) == [arc] + Reverse(arcs);
  }

  /** The part of a turn that looks at a label. */
  ghost function Examined(pb: Problem, s: State, i: nat): State
    requires Ready(s) && i < |s.arena|
  {
    var l := s.arena[i].mark;
    if IsDominated(s.arena, s.retained, BucketAt(s.buckets, KeyOf(l)), l) then Dropped(s, i)
    else
      var settled := Settled(s, i, pb.req.destination);
      if l.port == pb.req.destination then settled else ExpandAll(pb, settled, i, OutgoingArcs(pb.net, l.port))
  }

  lemma {:induction false} TurnExamines(pb: Problem, s: State)
    requires Ready(s) && s.frontier != [] && s.status == Running && s.expansions < pb.maxExpansions
    requires var i := s.frontier[0];
             i !in s.expanded && !KeyBoundReached(pb, s.(frontier := s.frontier[1..]), i)
    ensures Turn(pb, s, false) == Examined(pb, s.(frontier := s.frontier[1..]), s.frontier[0])
  {}

  class Engine {
    const pb: Problem
    var arena: Arena
    var frontier: seq<nat>
    var buckets: Buckets
    var retained: set<nat>
    var expanded: set<nat>
    var expansions: nat
    var destinations: seq<nat>
    var status: Status

    ghost function View(): State
      reads this
    {
      State(arena, frontier, buckets, retained, expanded, expansions, destinations, status)
    }

    ghost predicate Valid()
      reads this
    {
      Ready(View()) && Sound(pb, arena)
    }

    constructor (pb: Problem, start: Label)
      requires Start(pb.net, pb.req) == Some(start)
      ensures this.pb == pb && Valid() && View() == Initial(start)
    {
      this.pb := pb;
      arena, frontier, buckets, retained := [Entry(start, Root)], [0], map[], {};
      expanded, expansions, destinations, status := {}, 0, [], Running;
      new;
      InitialKept(pb, start);
    }

    /** Walks the parent links looking for a port. */
    method PortOnPath(i: nat, p: PortKey) returns (found: bool)
      requires Valid() && i < |arena|
      ensures found == OnPath(arena, i, p)
    {
      var cursor: nat := i;
      while true
        invariant cursor < |arena|
        invariant OnPath(arena, i, p) == OnPath(arena, cursor, p)
        decreases cursor
      {
        if arena[cursor].mark.port == p {
          return true;
        }
        match arena[cursor].origin
        case Root => return false;
        case From(parent, _) => cursor := parent;
      }
    }

    /** Counts the members of one failure domain on the route to entry `i` extended by `arc`. */
    method CountMembers(i: nat, arc: Arc, d: Id) returns (count: nat)
      requires Valid() && i < |arena| && Exists(pb.net, arc) && Departure(pb.net, arc) == arena[i].mark.port
      ensures count == DomainCount(pb.net, pb.req.source, RouteOf(arena, i) + [arc], d)
    {
      count := 0;
      var cursor: nat := i;
      while true
        invariant cursor < |arena|
        invariant count + DomainCount(pb.net, pb.req.source, RouteOf(arena, cursor), d)
                  == DomainCount(pb.net, pb.req.source, RouteOf(arena, i), d)
        decreases cursor
      {
        var here := arena[cursor].mark.port;
        match arena[cursor].origin
        case Root =>
          RootRoute(pb, arena, cursor);
          count := count + PortMember(pb.net, d, here);
          count := count + NodeMember(pb.net, d, here.node);
          break;
        case From(parent, used) =>
          ChildMembers(pb, arena, cursor, d);
          count := count + Member(d, ArcDomains(pb.net, used));
          count := count + PortMember(pb.net, d, here);
          if here.node != arena[parent].mark.port.node {
            count := count + NodeMember(pb.net, d, here.node);
          }
          cursor := parent;
      }
      var to := Arrival(pb.net, arc);
      count := count + Member(d, ArcDomains(pb.net, arc));
      count := count + PortMember(pb.net, d, to);
      if to.node != arena[i].mark.port.node {
        count := count + NodeMember(pb.net, d, to.node);
      }
      DomainCountAppend(pb.net, pb.req.source, RouteOf(arena, i), arc, d);
    }

    /** Checks every declared member limit, stopping at the first that is exceeded. */
    method LimitsHold(i: nat, arc: Arc) returns (ok: bool)
      requires Valid() && i < |arena| && Exists(pb.net, arc) && Departure(pb.net, arc) == arena[i].mark.port
      ensures ok == WithinLimits(pb.net, pb.req, RouteOf(arena, i) + [arc])
    {
      ghost var route := RouteOf(arena, i) + [arc];
      var limits := pb.req.constraints.memberLimits;
      var left := limits.Keys;
      while left != {}
        invariant left <= limits.Keys
        invariant forall d | d in limits && d !in left :: DomainCount(pb.net, pb.req.source, route, d) <= limits[d]
        decreases |left|
      {
        var d :| d in left;
        var count := CountMembers(i, arc, d);
        if count > limits[d] {
          return false;
        }
        left := left - {d};
      }
      return true;
    }

    /** Examines one arc: the step rules, then loop prevention, then member limits, then the
        label ceiling. */
    method TryArc(i: nat, arc: Arc)
      requires Valid() && i < |arena|
      modifies this`arena, this`frontier, this`status
      ensures Valid() && View() == ExpandOne(pb, old(View()), i, arc)
    {
      var step := Step(pb.net, pb.req, arena[i].mark, arc);
      if step.None? || Backtracks(arena[i], arc) {
        return;
      }
      StepRaisesKey(pb.net, pb.req, arena[i].mark, arc);
      var loop := PortOnPath(i, step.value.port);
      if loop {
        return;
      }
      var ok := LimitsHold(i, arc);
      if !ok {
        return;
      }
      if |arena| >= pb.maxLabels {
        status := Truncated;
        return;
      }
      ExtendSound(pb, arena, i, arc);
      arena := arena + [Entry(step.value, From(i, arc))];
      frontier := Insert(arena, frontier, |arena| - 1);
    }

    /** Examines a list of arcs in order until one reaches the label ceiling. */
    method TryArcs(i: nat, arcs: seq<Arc>)
      requires Valid() && i < |arena|
      modifies this`arena, this`frontier, this`status
      ensures Valid() && View() == ExpandAll(pb, old(View()), i, arcs)
    {
      var k := 0;
      while k < |arcs| && status == Running
        invariant k <= |arcs| && Valid() && i < |arena|
        invariant ExpandAll(pb, View(), i, arcs[k..]) == ExpandAll(pb, old(View()), i, arcs)
      {
        assert arcs[k..][0] == arcs[k] && arcs[k..][1..] == arcs[k + 1..];
        TryArc(i, arcs[k]);
        k := k + 1;
      }
    }

    /** Cross-connects first; span arcs only when the ceiling has not been met. */
    method Expand(i: nat)
      requires Valid() && i < |arena|
      modifies this`arena, this`frontier, this`status
      ensures Valid()
      ensures View() == ExpandAll(pb, old(View()), i, OutgoingArcs(pb.net, old(arena[i].mark.port)))
    {
      var p := arena[i].mark.port;
      var crossArcs := if p in pb.net.crossArcs then pb.net.crossArcs[p] else [];
      var spanArcs := if p in pb.net.spanArcs then pb.net.spanArcs[p] else [];
      ExpandAllSplits(pb, View(), i, crossArcs, spanArcs);
      TryArcs(i, crossArcs);
      if status != Running {
        return;
      }
      TryArcs(i, spanArcs);
    }

    /** Compares entry `i` with its bucket, and keeps it unless it is dominated. */
    method Settle(i: nat) returns (dominated: bool)
      requires Valid() && i < |arena|
      modifies this`buckets, this`retained, this`expanded, this`expansions, this`destinations
      ensures Valid()
      ensures dominated == IsDominated(arena, old(retained), BucketAt(old(buckets), KeyOf(arena[i].mark)),
                                       arena[i].mark)
      ensures View() == if dominated then Dropped(old(View()), i)
                        else Settled(old(View()), i, pb.req.destination)
    {
      var l := arena[i].mark;
      var bucket := BucketAt(buckets, KeyOf(l));
      ghost var was := View();
      bucket, retained, dominated := CompactBucket(arena, retained, bucket, l);
      if dominated {
        buckets := buckets[KeyOf(l) := bucket];
        assert View() == Dropped(was, i);
        return;
      }
      buckets := buckets[KeyOf(l) := bucket + [i]];
      retained := retained + {i};
      expanded := expanded + {i};
      expansions := expansions + 1;
      if l.port == pb.req.destination {
        destinations := destinations + [i];
      }
      assert View() == Settled(was, i, pb.req.destination);
    }

    /** One turn of the main loop. */
    method Advance(cancel: bool)
      requires Valid() && frontier != [] && status == Running
      modifies this
      ensures Valid() && View() == Turn(pb, old(View()), cancel)
    {
      if cancel {
        status := Cancelled;
        return;
      }
      if expansions >= pb.maxExpansions {
        status := Truncated;
        return;
      }
      var i := frontier[0];
      frontier := frontier[1..];
      if i in expanded {
        return;
      }
      if destinations != [] && |destinations| >= pb.req.maxCandidates
         && KeyLess(arena[destinations[|destinations| - 1]].mark, arena[i].mark) {
        status := StoppedOnKey;
        return;
      }
      TurnExamines(pb, old(View()));
      Examine(i);
    }

    /** What happens to a label that is neither stale nor beyond the key bound. */
    method Examine(i: nat)
      requires Valid() && i < |arena|
      modifies this
      ensures Valid() && View() == Examined(pb, old(View()), i)
    {
      var dominated := Settle(i);
      if dominated || arena[i].mark.port == pb.req.destination {
        return;
      }
      Expand(i);
    }

    /** Runs the search to its end. */
    method RunToEnd(cancel: nat -> bool)
      requires Valid()
      modifies this
      ensures Valid() && View() == Run(pb, old(View()), cancel, 0)
    {
      var turn := 0;
      while frontier != [] && status == Running
        invariant Valid() && Run(pb, View(), cancel, turn) == Run(pb, old(View()), cancel, 0)
        decreases if status == Running then 1 else 0, pb.maxExpansions - expansions, |frontier|
      {
        Advance(cancel(turn));
        turn := turn + 1;
      }
    }

    /** Collects the arcs of one chain back to front and turns them round. */
    method TracePath(i: nat) returns (path: Path)
      requires Valid() && i < |arena|
      ensures path == PathOf(arena, i)
    {
      var arcs: seq<Arc> := [];
      var cursor: nat := i;
      while arena[cursor].origin.From?
        invariant cursor < |arena|
        invariant RouteOf(arena, i) == RouteOf(arena, cursor) + Reverse(arcs)
        decreases cursor
      {
        TraceStep(arena, cursor, arcs);
        arcs := arcs + [arena[cursor].origin.arc];
        cursor := arena[cursor].origin.parent;
      }
      var l := arena[i].mark;
      path := Path(Reverse(arcs), l.cost, l.hops, l.regenerations, l.proven);
    }

    /** Reports the retained destination labels in the order they were settled. */
    method CollectPaths() returns (paths: seq<Path>)
      requires Valid()
      ensures paths == Paths(View(), destinations)
    {
      paths := [];
      for k := 0 to |destinations|
        invariant paths == Paths(View(), destinations[..k])
      {
        assert destinations[..k + 1][..k] == destinations[..k];
        if destinations[k] in retained {
          var path := TracePath(destinations[k]);
          paths := paths + [path];
        }
      }
      assert destinations[..|destinations|] == destinations;
    }

    /** The outcome of a search that ran to its end. */
    method Report() returns (outcome: Outcome)
      requires Valid() && status != Cancelled
      ensures outcome == OutcomeOf(pb, View())
    {
      var paths := CollectPaths();
      var anyProven := SomeProven(paths);
      var truncated := status == Truncated;
      var exhausted := frontier == [] && !truncated;
      var provedOptimum := (status == StoppedOnKey || exhausted) && !truncated && pb.net.coverageComplete;
      if paths != [] && !anyProven {
        provedOptimum := false;
      }
      outcome := Outcome(false, exhausted, truncated, provedOptimum, paths);
    }
  }

  /** Whether some path is proven. */
  method SomeProven(paths: seq<Path>) returns (found: bool)
    ensures found == AnyProven(paths)
  {
    found := false;
    for k := 0 to |paths|
      invariant found <==> exists p | p in paths[..k] :: p.proven
    {
      if paths[k].proven {
        found := true;
      }
      assert paths[..k + 1] == paths[..k] + [paths[k]];
    }
    assert paths[..|paths|] == paths;
  }

  /** Runs one search.  Everything `SearchResults` proves of `Search` holds of the outcome. */
  method RunSearch(pb: Problem, cancel: nat -> bool) returns (outcome: Outcome)
    ensures outcome == Search(pb, cancel)
  {
    var start := Start(pb.net, pb.req);
    if start.None? {
      return Outcome(false, true, false, false, []);
    }
    var engine := new Engine(pb, start.value);
    engine.RunToEnd(cancel);
    if engine.status == Cancelled {
      return Outcome(true, false, false, false, []);
    }
    outcome := engine.Report();
  }
}
