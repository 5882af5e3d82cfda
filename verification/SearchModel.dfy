/** The label search as a state machine on values: a label arena with parent links, a
    priority queue, and one bucket of retained labels per port and profile.  The imperative
    search is proved equal to `Run`; the theorems about the search are proved of `Run`. */
module SearchModel {
  import opened Base
  import opened Network
  import opened Rules
  import opened Routes

  /** One search: a snapshot, a request, and the effective expansion and label ceilings. */
  datatype Problem = Problem(net: Snapshot, req: Request, maxExpansions: nat, maxLabels: nat)

  // ----- the label arena ------------------------------------------------------------------

  datatype Origin = Root | From(parent: nat, arc: Arc)
  datatype Entry = Entry(mark: Label, origin: Origin)
  type Arena = seq<Entry>

  predicate Linked(arena: Arena) {
    forall i | 0 <= i < |arena| && arena[i].origin.From? :: arena[i].origin.parent < i
  }

  /** The arcs from the start label to entry `i`. */
  function RouteOf(arena: Arena, i: nat): seq<Arc>
    requires Linked(arena) && i < |arena|
  {
    match arena[i].origin
    case Root => []
    case From(parent, arc) => RouteOf(arena, parent) + [arc]
  }

  /** Whether the chain of entry `i` already stands on port `p`. */
  predicate OnPath(arena: Arena, i: nat, p: PortKey)
    requires Linked(arena) && i < |arena|
  {
    arena[i].mark.port == p || (arena[i].origin.From? && OnPath(arena, arena[i].origin.parent, p))
  }

  /** Going straight back over the span just used. */
  predicate Backtracks(entry: Entry, arc: Arc) {
    entry.origin.From? && entry.origin.arc.SpanArc? && arc.SpanArc? && entry.origin.arc.index == arc.index
  }

  /** The label that extends entry `i` by `arc`, unless some rule cuts it. */
  function Extend(net: Snapshot, req: Request, arena: Arena, i: nat, arc: Arc): Option<Label>
    requires Linked(arena) && i < |arena|
  {
    match Step(net, req, arena[i].mark, arc)
    case None => None
    case Some(next) =>
      if Backtracks(arena[i], arc) || OnPath(arena, i, next.port)
         || !WithinLimits(net, req, RouteOf(arena, i) + [arc])
      then None else Some(next)
  }

  // ----- the priority queue ---------------------------------------------------------------

  predicate Indices(arena: Arena, s: seq<nat>) {
    forall k | 0 <= k < |s| :: s[k] < |arena|
  }

  /** Queue order: the key, then the order of creation. */
  predicate Before(arena: Arena, i: nat, j: nat)
    requires i < |arena| && j < |arena|
  {
    KeyLess(arena[i].mark, arena[j].mark) || (!KeyLess(arena[j].mark, arena[i].mark) && i < j)
  }

  function Insert(arena: Arena, queue: seq<nat>, i: nat): (r: seq<nat>)
    requires Indices(arena, queue) && i < |arena|
    ensures |r| == |queue| + 1 && Indices(arena, r)
    ensures forall k :: k in r <==> k in queue || k == i
  {
    if queue == [] then [i]
    else if Before(arena, i, queue[0]) then [i] + queue
    else
      var r := [queue[0]] + Insert(arena, queue[1..], i);
      assert queue == [queue[0]] + queue[1..];
      r
  }

  // ----- buckets --------------------------------------------------------------------------

  type BucketKey = (PortKey, Option<Id>)
  type Buckets = map<BucketKey, seq<nat>>

  function KeyOf(l: Label): BucketKey { (l.port, l.profile) }

  function BucketAt(buckets: Buckets, key: BucketKey): seq<nat> {
    if key in buckets then buckets[key] else []
  }

  predicate IsDominated(arena: Arena, retained: set<nat>, bucket: seq<nat>, l: Label)
    requires Indices(arena, bucket)
  {
    exists j | j in bucket :: j in retained && Dominates(arena[j].mark, l)
  }

  /** The retained labels of the bucket that give way to `l`. */
  function Evicted(arena: Arena, retained: set<nat>, bucket: seq<nat>, l: Label): set<nat>
    requires Indices(arena, bucket)
  {
    set j | j in bucket && j in retained && !Dominates(arena[j].mark, l) && Dominates(l, arena[j].mark)
  }

  /** The bucket after the compaction scan: retained labels that did not give way, in order. */
  function Compacted(arena: Arena, retained: set<nat>, bucket: seq<nat>, l: Label): (r: seq<nat>)
    requires Indices(arena, bucket)
    ensures Indices(arena, r)
    ensures forall j :: j in r <==> j in bucket && j in retained && j !in Evicted(arena, retained, bucket, l)
  {
    if bucket == [] then []
    else
      var n := |bucket| - 1;
      assert bucket == bucket[..n] + [bucket[n]];
      var kept := Compacted(arena, retained, bucket[..n], l);
      if bucket[n] in retained
         && (Dominates(arena[bucket[n]].mark, l) || !Dominates(l, arena[bucket[n]].mark))
      then kept + [bucket[n]] else kept
  }

  // ----- states ---------------------------------------------------------------------------

  /** Why the loop is no longer running. */
  datatype Status = Running | StoppedOnKey | Truncated | Cancelled

  datatype State = State(
    arena: Arena,
    frontier: seq<nat>,
    buckets: Buckets,
    retained: set<nat>,
    expanded: set<nat>,
    expansions: nat,
    destinations: seq<nat>,
    status: Status)

  predicate Ready(s: State) {
    && Linked(s.arena)
    && Indices(s.arena, s.frontier)
    && Indices(s.arena, s.destinations)
    && (forall key | key in s.buckets :: Indices(s.arena, s.buckets[key]))
  }

  function Initial(start: Label): (s: State)
    ensures Ready(s)
  {
    State([Entry(start, Root)], [0], map[], {}, {}, 0, [], Running)
  }

  function Push(s: State, entry: Entry): (r: State)
    requires Ready(s) && (entry.origin.From? ==> entry.origin.parent < |s.arena|)
    ensures Ready(r) && r == s.(arena := r.arena, frontier := r.frontier)
    ensures r.arena == s.arena + [entry]
    ensures |r.frontier| == |s.frontier| + 1
  {
    var arena := s.arena + [entry];
    s.(arena := arena, frontier := Insert(arena, s.frontier, |s.arena|))
  }

  /** Examines one arc out of entry `i`. */
  function ExpandOne(pb: Problem, s: State, i: nat, arc: Arc): (r: State)
    requires Ready(s) && i < |s.arena|
    ensures Ready(r) && s.arena <= r.arena
    ensures r == s.(arena := r.arena, frontier := r.frontier, status := r.status)
    ensures r.status == s.status || r.status == Truncated
  {
    match Extend(pb.net, pb.req, s.arena, i, arc)
    case None => s
    case Some(next) =>
      if |s.arena| >= pb.maxLabels then s.(status := Truncated)
      else Push(s, Entry(next, From(i, arc)))
  }

  /** Examines arcs in order, stopping at the label ceiling. */
  function ExpandAll(pb: Problem, s: State, i: nat, arcs: seq<Arc>): (r: State)
    requires Ready(s) && i < |s.arena|
    ensures Ready(r) && s.arena <= r.arena
    ensures r == s.(arena := r.arena, frontier := r.frontier, status := r.status)
    ensures r.status == s.status || r.status == Truncated
    decreases |arcs|
  {
    if arcs == [] || s.status != Running then s
    else ExpandAll(pb, ExpandOne(pb, s, i, arcs[0]), i, arcs[1..])
  }

  /** Enough destination labels are settled and the next key is worse than the last of them. */
  predicate KeyBoundReached(pb: Problem, s: State, i: nat)
    requires Ready(s) && i < |s.arena|
  {
    && s.destinations != []
    && |s.destinations| >= pb.req.maxCandidates
    && KeyLess(s.arena[s.destinations[|s.destinations| - 1]].mark, s.arena[i].mark)
  }

  /** The state after entry `i` has been compared with its bucket and kept. */
  function Settled(s: State, i: nat, destination: PortKey): (r: State)
    requires Ready(s) && i < |s.arena|
    ensures Ready(r)
  {
    var l := s.arena[i].mark;
    var bucket := BucketAt(s.buckets, KeyOf(l));
    s.(buckets := s.buckets[KeyOf(l) := Compacted(s.arena, s.retained, bucket, l) + [i]],
       retained := s.retained - Evicted(s.arena, s.retained, bucket, l) + {i},
       expanded := s.expanded + {i},
       expansions := s.expansions + 1,
       destinations := if l.port == destination then s.destinations + [i] else s.destinations)
  }

  /** The state after entry `i` was found dominated. */
  function Dropped(s: State, i: nat): (r: State)
    requires Ready(s) && i < |s.arena|
    ensures Ready(r)
  {
    var l := s.arena[i].mark;
    var bucket := BucketAt(s.buckets, KeyOf(l));
    s.(buckets := s.buckets[KeyOf(l) := Compacted(s.arena, s.retained, bucket, l)],
       retained := s.retained - Evicted(s.arena, s.retained, bucket, l))
  }

  /** One turn of the search loop, `cancel` being what the caller's token says at its head. */
  function Turn(pb: Problem, s: State, cancel: bool): (r: State)
    requires Ready(s) && s.frontier != [] && s.status == Running
    ensures Ready(r) && s.arena <= r.arena
    ensures r.status != Running || s.expansions < r.expansions <= pb.maxExpansions
            || (r.expansions == s.expansions && |r.frontier| < |s.frontier|)
    ensures r.status == StoppedOnKey ==> r.destinations != []
  {
    if cancel then s.(status := Cancelled)
    else if s.expansions >= pb.maxExpansions then s.(status := Truncated)
    else
      var i := s.frontier[0];
      var s1 := s.(frontier := s.frontier[1..]);
      var l := s.arena[i].mark;
      if i in s.expanded then s1
      else if KeyBoundReached(pb, s1, i) then s1.(status := StoppedOnKey)
      else if IsDominated(s.arena, s.retained, BucketAt(s.buckets, KeyOf(l)), l) then Dropped(s1, i)
      else
        var s2 := Settled(s1, i, pb.req.destination);
        if l.port == pb.req.destination then s2
        else ExpandAll(pb, s2, i, OutgoingArcs(pb.net, l.port))
  }

  predicate Halted(s: State) { s.frontier == [] || s.status != Running }

  /** The loop, run until the frontier is empty or a stop condition holds.  `cancel(n)` is
      what the token answers at the head of turn `n`. */
  function Run(pb: Problem, s: State, cancel: nat -> bool, turn: nat): (r: State)
    requires Ready(s)
    ensures Ready(r) && Halted(r)
    decreases if s.status == Running then 1 else 0, pb.maxExpansions - s.expansions, |s.frontier|
  {
    if Halted(s) then s else Run(pb, Turn(pb, s, cancel(turn)), cancel, turn + 1)
  }

  // ----- outcomes -------------------------------------------------------------------------

  datatype Path = Path(arcs: seq<Arc>, cost: u64, hops: nat, regenerations: nat, proven: bool)

  datatype Outcome = Outcome(
    cancelled: bool,
    exhausted: bool,
    truncated: bool,
    provedOptimum: bool,
    paths: seq<Path>)

  function PathOf(arena: Arena, i: nat): Path
    requires Linked(arena) && i < |arena|
  {
    var l := arena[i].mark;
    Path(RouteOf(arena, i), l.cost, l.hops, l.regenerations, l.proven)
  }

  /** The retained destination labels, in the order they were settled. */
  function Paths(s: State, destinations: seq<nat>): (r: seq<Path>)
    requires Ready(s) && Indices(s.arena, destinations)
  {
    if destinations == [] then []
    else
      var n := |destinations| - 1;
      Paths(s, destinations[..n])
      + (if destinations[n] in s.retained then [PathOf(s.arena, destinations[n])] else [])
  }

  predicate AnyProven(paths: seq<Path>) {
    exists p | p in paths :: p.proven
  }

  function OutcomeOf(pb: Problem, s: State): Outcome
    requires Ready(s)
  {
    if s.status == Cancelled then Outcome(true, false, false, false, [])
    else
      var exhausted := s.frontier == [] && s.status != Truncated;
      var paths := Paths(s, s.destinations);
      Outcome(false, exhausted, s.status == Truncated,
              (s.status == StoppedOnKey || exhausted) && s.status != Truncated && pb.net.coverageComplete
              && (paths == [] || AnyProven(paths)),
              paths)
  }

  /** The whole search.  A source port that is cut ends it at once, exhausted and empty. */
  function Search(pb: Problem, cancel: nat -> bool): Outcome {
    match Start(pb.net, pb.req)
    case None => Outcome(false, true, false, false, [])
    case Some(start) => OutcomeOf(pb, Run(pb, Initial(start), cancel, 0))
  }
}
