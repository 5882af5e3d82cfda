/** What the completeness theorem cannot be extended to.  Each of its hypotheses is needed:
    with one of them dropped there is a complete, conflict-free snapshot on which the search
    ends exhausted and empty although an admissible route exists. */
module SearchLimits {
  import opened Base
  import opened Network
  import opened Rules
  import opened Routes
  import opened SearchModel
  import opened SearchOptimality

  // ----- when an arc can only make things worse -------------------------------------------

  /** What every label on a route meets: some channel is left, and only channels its port can
      carry. */
  ghost predicate Fits(net: Snapshot, req: Request, l: Label) {
    l.port in net.ports && l.mask != {} && l.mask <= UsableStarts(net, req, net.ports[l.port].blocked)
  }

  lemma {:induction false} ReplayedFits(net: Snapshot, req: Request, route: seq<Arc>)
    requires Replay(net, req, route).Some?
    ensures Fits(net, req, Final(net, req, route))
  {
    if route != [] {
      var init := route[..|route| - 1];
      ReplayedFits(net, req, init);
      StepRaisesKey(net, req, Final(net, req, init), route[|route| - 1]);
    }
  }

  /** The label before an arc is at least as good as the one after it, and comparable with it. */
  predicate Inflated(l: Label, next: Label) { Dominates(l, next) && next.profile == l.profile }

  /** Removing the arc from a route could never hurt. */
  ghost predicate OnlyInflates(net: Snapshot, req: Request, arc: Arc) {
    forall l | Fits(net, req, l) && Step(net, req, l, arc).Some? :: Inflated(l, Step(net, req, l, arc).value)
  }

  /** A conversion without a choice: both its ports can carry one and the same channel only. */
  predicate ConvertsInPlace(net: Snapshot, req: Request, arc: Arc)
    requires Exists(net, arc)
  {
    var starts := UsableStarts(net, req, net.ports[Departure(net, arc)].blocked);
    && arc.CrossArc? && net.crossConnects[arc.index].op == Convert
    && |starts| == 1 && UsableStarts(net, req, net.ports[Arrival(net, arc)].blocked) == starts
  }

  /** Cycle removal is harmless exactly at arcs that keep the wavelength, and at conversions
      without a choice. */
  lemma {:induction false} InflatesExactly(net: Snapshot, req: Request, l: Label, arc: Arc)
    requires Sealed(net) && Fits(net, req, l) && Step(net, req, l, arc).Some?
    ensures OnlyInflates(net, req, arc) <==> KeepsWavelength(net, arc) || ConvertsInPlace(net, req, arc)
  {
    if KeepsWavelength(net, arc) {
      forall m | Fits(net, req, m) && Step(net, req, m, arc).Some?
        ensures Inflated(m, Step(net, req, m, arc).value)
      {
        StepInflates(net, req, m, arc);
      }
    } else if net.crossConnects[arc.index].op == Regenerate {
      // A segment under way starts afresh.
      var worse := l.(distance := 1);
      assert !Inflated(worse, Step(net, req, worse, arc).value);
    } else {
      ConversionInflates(net, req, l, arc);
    }
  }

  lemma {:induction false} ConversionInflates(net: Snapshot, req: Request, l: Label, arc: Arc)
    requires Sealed(net) && Fits(net, req, l) && Step(net, req, l, arc).Some?
    requires arc.CrossArc? && net.crossConnects[arc.index].op == Convert
    ensures OnlyInflates(net, req, arc) <==> ConvertsInPlace(net, req, arc)
  {
    var before := UsableStarts(net, req, net.ports[Departure(net, arc)].blocked);
    var after := UsableStarts(net, req, net.ports[Arrival(net, arc)].blocked);
    if OnlyInflates(net, req, arc) {
      var slot :| slot in l.mask;
      // Whichever single channel the label holds, the arrival port offers no other.
      forall other | other in before
        ensures after == {other}
      {
        var narrow := l.(mask := {other});
        assert Inflated(narrow, Step(net, req, narrow, arc).value);
        assert after <= {other};
      }
      assert before == {slot};
    } else {
      var m :| Fits(net, req, m) && Step(net, req, m, arc).Some? && !Inflated(m, Step(net, req, m, arc).value);
      if ConvertsInPlace(net, req, arc) {
        SoleMember(m.mask, before);
        assert false;
      }
    }
  }

  /** A segment without spans has used up nothing. */
  lemma {:induction false} CleanSegment(net: Snapshot, req: Request, route: seq<Arc>)
    requires Replay(net, req, route).Some? && Final(net, req, route).spans == 0
    ensures var l := Final(net, req, route); l.distance == 0 && l.loss == 0.0 && l.noise == 0.0
  {
    if route != [] {
      var init := route[..|route| - 1];
      if Final(net, req, init).spans == 0 {
        CleanSegment(net, req, init);
      }
    }
  }

  /** An arc that restarts a wavelength without harm to label `l`: it offers no channel that the
      label does not hold, and starts no segment afresh that has come anywhere. */
  predicate RestartsInPlace(net: Snapshot, req: Request, l: Label, arc: Arc)
    requires Exists(net, arc)
  {
    && arc.CrossArc? && UsableStarts(net, req, net.ports[Arrival(net, arc)].blocked) <= l.mask
    && (net.crossConnects[arc.index].op == Regenerate ==>
          l.spans == 0 && l.profile == TransmitProfile(net, Arrival(net, arc)))
  }

  /** On a given route removing the last arc could not hurt exactly when the arc keeps the
      wavelength or restarts it in place. */
  lemma {:induction false} InflatesOnRoute(net: Snapshot, req: Request, route: seq<Arc>, arc: Arc)
    requires Sealed(net) && Replay(net, req, route).Some? && Step(net, req, Final(net, req, route), arc).Some?
    ensures var l := Final(net, req, route);
            Inflated(l, Step(net, req, l, arc).value) <==>
              KeepsWavelength(net, arc) || RestartsInPlace(net, req, l, arc)
  {
    var l := Final(net, req, route);
    if KeepsWavelength(net, arc) {
      StepInflates(net, req, l, arc);
    } else if l.spans == 0 {
      CleanSegment(net, req, route);
    }
  }

  lemma {:induction false} SoleMember(part: set<nat>, all: set<nat>)
    requires |all| == 1 && part != {} && part <= all
    ensures part == all
  {
    var x :| x in part;
    assert |all - {x}| == 0;
    assert all == {x};
  }

  // ----- shared pieces of the small snapshots ---------------------------------------------

  const NODE: Id := "n"
  const PROFILE: Id := "x"

  function At(port: Id): PortKey { PortKey(NODE, port) }

  function Port(port: Id): PortRecord {
    PortRecord(At(port), Known(Some(PROFILE)), Known({}), {}, 0, Known(Up))
  }

  function Span(id: Id, from: Id, to: Id, length: u64, blocked: set<nat>, domains: set<Id>, cost: u64): SpanRecord {
    SpanRecord(id, At(from), At(to), false, Known(length), Known(0.0), Known(1.0), Known(blocked), domains, cost,
               Known(Up))
  }

  function Cross(id: Id, from: Id, to: Id, op: Op, cost: u64): CrossConnectRecord {
    CrossConnectRecord(id, At(from), At(to), op, Known({}), {}, cost, Known(Up))
  }

  function Net(ports: map<PortKey, PortRecord>, spans: seq<SpanRecord>, crossConnects: seq<CrossConnectRecord>,
               spanArcs: map<PortKey, seq<Arc>>, crossArcs: map<PortKey, seq<Arc>>): Snapshot
  {
    Snapshot(1, "", map[], false, false, 2,
             map[NODE := NodeRecord(NODE, {}, 0, true, Known(Up))], ports, spans, crossConnects,
             map[PROFILE := ReachProfile(PROFILE, Known(100), Known(10), Known(100.0), Known(100.0))],
             {}, {}, spanArcs, crossArcs, true)
  }

  function Ask(limits: map<Id, nat>): Request {
    Request(At("s"), At("d"), 1, 1, 8, 8, None, NoDisjointness,
            Constraints([], [], [], [], [], limits, None, None, None, None, true, true, false, false),
            map[], None, None, false, 1000, 1000)
  }

  lemma {:induction false} UsableOfTwo(net: Snapshot, req: Request, blocked: set<nat>)
    requires net.slotCount == 2 && req.width == 1
    ensures UsableStarts(net, req, Known(blocked)) == {0, 1} - blocked
  {
    var free := SlotRange(2) - blocked;
    assert SlotRange(2) == {0, 1};
    forall slot: nat
      ensures slot in ChannelStarts(free, 1) <==> slot in free
    {
      if slot in free {
        assert ChannelFits(free, slot, 1);
      }
    }
  }

  const never: nat -> bool := n => false

  /** Ports of a small snapshot are the plain ones, under their own keys. */
  ghost predicate Plain(net: Snapshot) {
    && net == Net(net.ports, net.spans, net.crossConnects, net.spanArcs, net.crossArcs)
    && forall p | p in net.ports :: net.ports[p] == Port(p.port) && p == At(p.port)
  }

  ghost predicate SpanIs(net: Snapshot, i: nat, span: SpanRecord) {
    i < |net.spans| && net.spans[i] == span && span.from in net.ports && span.to in net.ports
  }

  ghost predicate CrossIs(net: Snapshot, i: nat, cross: CrossConnectRecord) {
    i < |net.crossConnects| && net.crossConnects[i] == cross && cross.from in net.ports && cross.to in net.ports
  }

  /** A provable label of a small snapshot. */
  function Mark(port: Id, mask: set<nat>, cost: u64, distance: u64, spans: nat, hops: nat, regens: nat): Label {
    Label(At(port), Some(PROFILE), mask, cost, distance, 0.0, spans as real, spans, hops, regens, true)
  }

  lemma {:induction false} PlainStart(net: Snapshot, limits: map<Id, nat>)
    requires Plain(net) && At("s") in net.ports
    ensures Start(net, Ask(limits)) == Some(Mark("s", {0, 1}, 0, 0, 0, 0, 0))
  {
    UsableOfTwo(net, Ask(limits), {});
    assert {0, 1} - {} == {0, 1};
    assert 0 in {0, 1};
  }

  /** A span adds its figures, or is cut when the segment would pass the 100 m reach. */
  lemma {:induction false} PlainSpan(net: Snapshot, limits: map<Id, nat>, l: Label, i: nat, from: Id, to: Id,
                  id: Id, length: u64, blocked: set<nat>, domains: set<Id>, cost: u64)
    requires Plain(net) && SpanIs(net, i, Span(id, from, to, length, blocked, domains, cost))
    requires l == Mark(from, l.mask, l.cost, l.distance, l.spans, l.hops, l.regenerations) && l.mask <= {0, 1}
    requires l.hops < 8 && l.spans < 8 && l.cost + cost < 1000 && l.distance + length < 1000
    ensures Step(net, Ask(limits), l, SpanArc(i, false)) ==
            if l.mask - blocked == {} || l.distance + length > 100 then None
            else Some(Mark(to, l.mask - blocked, l.cost + cost, l.distance + length, l.spans + 1, l.hops + 1,
                           l.regenerations))
  {
    UsableOfTwo(net, Ask(limits), {});
    UsableOfTwo(net, Ask(limits), blocked);
    assert KeptMask(net, Ask(limits), l.mask, SpanArc(i, false)) == l.mask - blocked;
    assert (l.spans + 1) as real == l.spans as real + 1.0;
  }

  /** A cross-connect restarts the wavelength, and, when it regenerates, the segment. */
  lemma {:induction false} PlainCross(net: Snapshot, limits: map<Id, nat>, l: Label, i: nat, from: Id, to: Id,
                                      id: Id, op: Op, cost: u64)
    requires Plain(net) && CrossIs(net, i, Cross(id, from, to, op, cost)) && op != Express
    requires l == Mark(from, l.mask, l.cost, l.distance, l.spans, l.hops, l.regenerations)
    requires l.hops < 8 && l.regenerations < 8 && l.cost + cost < 1000
    ensures Step(net, Ask(limits), l, CrossArc(i)) ==
            Some(if op == Convert
                 then Mark(to, {0, 1}, l.cost + cost, l.distance, l.spans, l.hops + 1, l.regenerations)
                 else Mark(to, {0, 1}, l.cost + cost, 0, 0, l.hops + 1, l.regenerations + 1))
  {
    UsableOfTwo(net, Ask(limits), {});
    assert {0, 1} - {} == {0, 1};
    assert 0 in {0, 1};
  }

  // The two predicates below state their facts under a quantifier that only `Unfold` opens,
  // so that chaining results on concrete states does not unfold the rules behind them again.

  /** Extending entry `i` by `arc` gives `r`. */
  ghost predicate Yields(pb: Problem, arena: Arena, i: nat, arc: Arc, r: Option<Label>) {
    forall go {:trigger Unfold(go)} :: Unfold(go) ==>
      Linked(arena) && i < |arena| && Extend(pb.net, pb.req, arena, i, arc) == r
  }

  /** Examining `arcs` at entry `i` turns `s` into `s'`. */
  ghost predicate Becomes(pb: Problem, s: State, i: nat, arcs: seq<Arc>, s': State) {
    forall go {:trigger Unfold(go)} :: Unfold(go) ==>
      Ready(s) && i < |s.arena| && ExpandAll(pb, s, i, arcs) == s'
  }

  /** From state `s` on, the search ends exhausted and reports `paths`. */
  ghost predicate Ends(pb: Problem, s: State, paths: seq<Path>) {
    Ready(s) && forall turn: nat :: Exhausts(OutcomeOf(pb, Run(pb, s, never, turn)), paths)
  }

  predicate Exhausts(outcome: Outcome, paths: seq<Path>) {
    outcome.exhausted && !outcome.cancelled && !outcome.truncated && outcome.paths == paths
  }

  function Small(net: Snapshot, limits: map<Id, nat>): Problem { Problem(net, Ask(limits), 1000, 1000) }

  lemma {:induction false} SpanYields(net: Snapshot, limits: map<Id, nat>, arena: Arena, k: nat, l: Label, i: nat,
                                      from: Id, to: Id, id: Id, length: u64, blocked: set<nat>, domains: set<Id>,
                                      cost: u64, r: Option<Label>)
    requires Plain(net) && SpanIs(net, i, Span(id, from, to, length, blocked, domains, cost))
    requires Linked(arena) && k < |arena| && arena[k].mark == l && l.mask <= {0, 1}
    requires l == Mark(from, l.mask, l.cost, l.distance, l.spans, l.hops, l.regenerations)
    requires l.hops < 8 && l.spans < 8 && l.cost + cost < 1000 && l.distance + length < 1000
    requires !Backtracks(arena[k], SpanArc(i, false)) && !OnPath(arena, k, At(to))
    requires WithinLimits(net, Ask(limits), RouteOf(arena, k) + [SpanArc(i, false)])
    requires r == if l.mask - blocked == {} || l.distance + length > 100 then None
                  else Some(Mark(to, l.mask - blocked, l.cost + cost, l.distance + length, l.spans + 1, l.hops + 1,
                                 l.regenerations))
    ensures Yields(Small(net, limits), arena, k, SpanArc(i, false), r)
  {
    PlainSpan(net, limits, l, i, from, to, id, length, blocked, domains, cost);
  }

  lemma {:induction false} CrossYields(net: Snapshot, arena: Arena, k: nat, l: Label, i: nat, from: Id, to: Id, id: Id,
                                       op: Op, cost: u64, r: Label)
    requires Plain(net) && CrossIs(net, i, Cross(id, from, to, op, cost)) && op != Express
    requires Linked(arena) && k < |arena| && arena[k].mark == l
    requires l == Mark(from, l.mask, l.cost, l.distance, l.spans, l.hops, l.regenerations)
    requires l.hops < 8 && l.regenerations < 8 && l.cost + cost < 1000 && !OnPath(arena, k, At(to))
    requires r == if op == Convert
                  then Mark(to, {0, 1}, l.cost + cost, l.distance, l.spans, l.hops + 1, l.regenerations)
                  else Mark(to, {0, 1}, l.cost + cost, 0, 0, l.hops + 1, l.regenerations + 1)
    ensures Yields(Small(net, map[]), arena, k, CrossArc(i), Some(r))
  {
    PlainCross(net, map[], l, i, from, to, id, op, cost);
  }

  lemma {:induction false} Nothing(pb: Problem, s: State, i: nat)
    requires Ready(s) && i < |s.arena|
    ensures Becomes(pb, s, i, [], s)
  {}

  lemma {:induction false} Admits(pb: Problem, s: State, i: nat, arc: Arc, next: Label, rest: seq<Arc>,
                                  s1: State, s': State)
    requires Ready(s) && i < |s.arena| && s.status == Running && |s.arena| < pb.maxLabels
    requires Yields(pb, s.arena, i, arc, Some(next)) && Becomes(pb, s1, i, rest, s')
    requires s1 == s.(arena := s.arena + [Entry(next, From(i, arc))],
                      frontier := Insert(s.arena + [Entry(next, From(i, arc))], s.frontier, |s.arena|))
    ensures Becomes(pb, s, i, [arc] + rest, s')
  {
    assert Unfold(true);
    assert ([arc] + rest)[1..] == rest;
  }

  lemma {:induction false} Cuts(pb: Problem, s: State, i: nat, arc: Arc, rest: seq<Arc>, s': State)
    requires Ready(s) && i < |s.arena| && s.status == Running
    requires Yields(pb, s.arena, i, arc, None) && Becomes(pb, s, i, rest, s')
    ensures Becomes(pb, s, i, [arc] + rest, s')
  {
    assert Unfold(true);
    assert ([arc] + rest)[1..] == rest;
  }

  // ----- turns of small searches ----------------------------------------------------------

  /** The state after a label that is alone in its bucket has been settled off the destination. */
  function Alone(s: State, i: nat): State
    requires i < |s.arena| && s.frontier != []
  {
    s.(frontier := s.frontier[1..], buckets := s.buckets[KeyOf(s.arena[i].mark) := [i]],
       retained := s.retained + {i}, expanded := s.expanded + {i}, expansions := s.expansions + 1)
  }

  ghost predicate Fresh(pb: Problem, s: State) {
    && Ready(s) && s.frontier != [] && s.status == Running && s.expansions < pb.maxExpansions
    && s.destinations == [] && s.frontier[0] !in s.expanded
  }

  lemma {:induction false} TurnAlone(pb: Problem, s: State)
    requires Fresh(pb, s)
    requires var l := s.arena[s.frontier[0]].mark; KeyOf(l) !in s.buckets && l.port != pb.req.destination
    ensures var i := s.frontier[0];
            && Ready(Alone(s, i))
            && Turn(pb, s, false) == ExpandAll(pb, Alone(s, i), i, OutgoingArcs(pb.net, s.arena[i].mark.port))
  {
    var i := s.frontier[0];
    var s1 := s.(frontier := s.frontier[1..]);
    var l := s.arena[i].mark;
    assert Compacted(s.arena, s.retained, [], l) + [i] == [i];
    assert s.retained - Evicted(s.arena, s.retained, [], l) + {i} == s.retained + {i};
    assert Settled(s1, i, pb.req.destination) == Alone(s, i);
  }

  lemma {:induction false} TurnDominated(pb: Problem, s: State, j: nat)
    requires Fresh(pb, s) && j < |s.arena| && j in s.retained
    requires var l := s.arena[s.frontier[0]].mark;
             BucketAt(s.buckets, KeyOf(l)) == [j] && Dominates(s.arena[j].mark, l)
    ensures Turn(pb, s, false) == s.(frontier := s.frontier[1..])
  {
    var l := s.arena[s.frontier[0]].mark;
    assert j in BucketAt(s.buckets, KeyOf(l));
    assert [j][..0] == [];
    assert Compacted(s.arena, s.retained, [j], l) == [j];
    assert s.buckets[KeyOf(l) := [j]] == s.buckets;
    assert s.retained - Evicted(s.arena, s.retained, [j], l) == s.retained;
  }

  /** A waiting label that is dominated is dropped. */
  lemma {:induction false} EndsAfterDrop(pb: Problem, s: State, j: nat, paths: seq<Path>)
    requires Fresh(pb, s) && j < |s.arena| && j in s.retained
    requires var l := s.arena[s.frontier[0]].mark;
             BucketAt(s.buckets, KeyOf(l)) == [j] && Dominates(s.arena[j].mark, l)
    requires Ends(pb, s.(frontier := s.frontier[1..]), paths)
    ensures Ends(pb, s, paths)
  {
    var s' := s.(frontier := s.frontier[1..]);
    TurnDominated(pb, s, j);
    forall turn: nat
      ensures Exhausts(OutcomeOf(pb, Run(pb, s, never, turn)), paths)
    {
      assert Run(pb, s, never, turn) == Run(pb, s', never, turn + 1);
    }
  }

  /** With nothing waiting the search ends on what it has settled at the destination. */
  lemma {:induction false} EndsDone(pb: Problem, s: State)
    requires Ready(s) && s.frontier == [] && s.status == Running
    ensures Ends(pb, s, Paths(s, s.destinations))
  {
    forall turn: nat
      ensures Exhausts(OutcomeOf(pb, Run(pb, s, never, turn)), Paths(s, s.destinations))
    {
      assert Run(pb, s, never, turn) == s;
    }
  }

  lemma {:induction false} SinglePath(s: State, i: nat)
    requires Ready(s) && i < |s.arena| && i in s.retained
    ensures Paths(s, [i]) == [PathOf(s.arena, i)]
  {
    assert [i][..0] == [];
    assert Paths(s, []) == [];
  }

  /** A last waiting label at the destination is what the search reports. */
  lemma {:induction false} EndsAtDestination(pb: Problem, s: State, i: nat)
    requires Fresh(pb, s) && s.frontier == [i]
    requires KeyOf(s.arena[i].mark) !in s.buckets && s.arena[i].mark.port == pb.req.destination
    ensures Ends(pb, s, [PathOf(s.arena, i)])
  {
    var s1 := s.(frontier := []);
    assert s.frontier[1..] == [];
    var s' := Settled(s1, i, pb.req.destination);
    assert Turn(pb, s, false) == s';
    assert s'.destinations == [i] && i in s'.retained;
    SinglePath(s', i);
    EndsDone(pb, s');
    forall turn: nat
      ensures Exhausts(OutcomeOf(pb, Run(pb, s, never, turn)), [PathOf(s.arena, i)])
    {
      assert Run(pb, s, never, turn) == Run(pb, s', never, turn + 1);
    }
  }

  /** Settling a label that is alone in its bucket, and its expansion to `s'`. */
  lemma {:induction false} EndsAfterExpansion(pb: Problem, s: State, i: nat, arcs: seq<Arc>, s': State,
                                              paths: seq<Path>)
    requires Fresh(pb, s) && s.frontier[0] == i
    requires KeyOf(s.arena[i].mark) !in s.buckets && s.arena[i].mark.port != pb.req.destination
    requires OutgoingArcs(pb.net, s.arena[i].mark.port) == arcs && Becomes(pb, Alone(s, i), i, arcs, s')
    requires Ends(pb, s', paths)
    ensures Ends(pb, s, paths)
  {
    assert Unfold(true);
    TurnAlone(pb, s);
    forall turn: nat
      ensures Exhausts(OutcomeOf(pb, Run(pb, s, never, turn)), paths)
    {
      assert Run(pb, s, never, turn) == Run(pb, s', never, turn + 1);
    }
  }

  lemma {:induction false} EndsSearch(pb: Problem, start: Label, paths: seq<Path>)
    requires Start(pb.net, pb.req) == Some(start) && Ends(pb, Initial(start), paths)
    ensures Exhausts(Search(pb, never), paths)
    ensures Search(pb, never).provedOptimum <==> pb.net.coverageComplete && (paths == [] || AnyProven(paths))
  {
    assert Exhausts(OutcomeOf(pb, Run(pb, Initial(start), never, 0)), paths);
  }

  /** The state once the start label has been expanded into two children. */
  function Begun(arena: Arena): State
    requires |arena| == 3
  {
    State(arena, [1, 2], map[KeyOf(arena[0].mark) := [0]], {0}, {0}, 1, [], Running)
  }

  lemma {:induction false} AloneInitial(l: Label)
    ensures Alone(Initial(l), 0) == State([Entry(l, Root)], [], map[KeyOf(l) := [0]], {0}, {0}, 1, [], Running)
  {
    assert [0][1..] == [];
    assert map[][KeyOf(l) := [0]] == map[KeyOf(l) := [0]];
  }

  lemma {:induction false} EndsAfterFirst(pb: Problem, arena: Arena, a1: Arc, a2: Arc,
                                          paths: seq<Path>)
    requires pb.maxExpansions >= 1 && pb.maxLabels >= 3 && |arena| == 3 && arena[0].origin == Root
    requires arena[1].origin == From(0, a1) && arena[2].origin == From(0, a2)
    requires pb.req.destination != arena[0].mark.port && KeyLess(arena[1].mark, arena[2].mark)
    requires OutgoingArcs(pb.net, arena[0].mark.port) == [a1, a2]
    requires Yields(pb, [arena[0]], 0, a1, Some(arena[1].mark))
    requires Yields(pb, [arena[0], arena[1]], 0, a2, Some(arena[2].mark))
    requires Ends(pb, Begun(arena), paths)
    ensures Ends(pb, Initial(arena[0].mark), paths)
  {
    var l := arena[0].mark;
    var s0 := Initial(l);
    var t0 := State([Entry(l, Root)], [], map[KeyOf(l) := [0]], {0}, {0}, 1, [], Running);
    assert Alone(s0, 0) == t0 by {
      AloneInitial(l);
    }
    assert [Entry(l, Root)] == [arena[0]];
    BecomesBegun(pb, arena, t0, a1, a2);
    assert s0.frontier == [0] && s0.arena[0].mark == l;
    assert Fresh(pb, s0);
    assert Becomes(pb, Alone(s0, 0), 0, OutgoingArcs(pb.net, l.port), Begun(arena));
    EndsAfterExpansion(pb, s0, 0, [a1, a2], Begun(arena), paths);
  }

  lemma {:induction false} BecomesBegun(pb: Problem, arena: Arena, t0: State, a1: Arc, a2: Arc)
    requires pb.maxLabels >= 3 && |arena| == 3 && arena[1].origin == From(0, a1) && arena[2].origin == From(0, a2)
    requires Ready(t0) && t0.arena == [arena[0]] && t0.frontier == [] && t0.status == Running
    requires Begun(arena) == t0.(arena := arena, frontier := [1, 2])
    requires KeyLess(arena[1].mark, arena[2].mark)
    requires Yields(pb, [arena[0]], 0, a1, Some(arena[1].mark))
    requires Yields(pb, [arena[0], arena[1]], 0, a2, Some(arena[2].mark))
    ensures Becomes(pb, t0, 0, [a1, a2], Begun(arena))
  {
    assert [arena[0], arena[1]] == [arena[0]] + [arena[1]] && arena == [arena[0], arena[1]] + [arena[2]];
    FirstBecomes(pb, t0, t0.(arena := [arena[0], arena[1]], frontier := [1]), Begun(arena), a1, a2);
  }

  lemma {:induction false} FirstBecomes(pb: Problem, t0: State, t1: State, s1: State, a1: Arc, a2: Arc)
    requires Ready(t0) && |t0.arena| == 1 && t0.frontier == [] && t0.status == Running && pb.maxLabels >= 3
    requires |s1.arena| == 3 && s1.arena[1].origin == From(0, a1) && s1.arena[2].origin == From(0, a2)
    requires t1 == t0.(arena := t0.arena + [s1.arena[1]], frontier := [1])
    requires s1 == t0.(arena := t1.arena + [s1.arena[2]], frontier := [1, 2])
    requires KeyLess(s1.arena[1].mark, s1.arena[2].mark)
    requires Yields(pb, t0.arena, 0, a1, Some(s1.arena[1].mark)) && Yields(pb, t1.arena, 0, a2, Some(s1.arena[2].mark))
    ensures Becomes(pb, t0, 0, [a1, a2], s1)
  {
    Nothing(pb, s1, 0);
    Admits(pb, t1, 0, a2, s1.arena[2].mark, [], s1, s1);
    Admits(pb, t0, 0, a1, s1.arena[1].mark, [a2], t1, s1);
    assert [a1, a2] == [a1] + [a2] && [a2] == [a2] + [];
  }

  /** The run of any search in which two labels meet in one bucket and the one that wins
      cannot go on. */
  lemma {:induction false} FunnelRun(pb: Problem, arena: Arena, a: Arc)
    requires pb.maxExpansions >= 3 && |arena| == 3 && Linked(arena)
    requires arena[0].mark.port != arena[1].mark.port && pb.req.destination != arena[1].mark.port
    requires SameBucket(arena[1].mark, arena[2].mark) && Dominates(arena[1].mark, arena[2].mark)
    requires OutgoingArcs(pb.net, arena[1].mark.port) == [a] && Yields(pb, arena, 1, a, None)
    ensures Ends(pb, Begun(arena), [])
  {
    var s1 := Begun(arena);
    var s2 := Alone(s1, 1);
    Nothing(pb, s2, 1);
    Cuts(pb, s2, 1, a, [], s2);
    assert [a] == [a] + [] && s2.frontier == [2];
    EndsDone(pb, s2.(frontier := []));
    EndsAfterDrop(pb, s2, 1, []);
    EndsAfterExpansion(pb, s1, 1, [a], s2, []);
  }

  // ----- runs with a loop -----------------------------------------------------------------

  /** A five-label arena: the start, q, r, p by way of q, p by way of r. */
  ghost predicate LoopShaped(pb: Problem, arena: Arena) {
    && |arena| == 5 && pb.maxExpansions >= 5 && pb.maxLabels >= 5 && Linked(arena)
    && var l0, q, r, p := arena[0].mark, arena[1].mark, arena[2].mark, arena[3].mark;
       && l0.port != q.port && l0.port != r.port && l0.port != p.port
       && q.port != r.port && q.port != p.port && r.port != p.port
       && pb.req.destination != l0.port && pb.req.destination != q.port
       && pb.req.destination != r.port && pb.req.destination != p.port
       && KeyLess(p, r) && SameBucket(p, arena[4].mark) && Dominates(p, arena[4].mark)
  }

  /** The run of any search in which the cheap way to p comes through q, the only port that
      leads on, and the dear way is pruned. */
  lemma {:induction false} LoopRun(pb: Problem, arena: Arena, qp: Arc, qd: Arc, pq: Arc, rp: Arc)
    requires LoopShaped(pb, arena) && arena[3].origin == From(1, qp) && arena[4].origin == From(2, rp)
    requires OutgoingArcs(pb.net, arena[1].mark.port) == [qp, qd]
    requires OutgoingArcs(pb.net, arena[2].mark.port) == [rp] && OutgoingArcs(pb.net, arena[3].mark.port) == [pq]
    requires Yields(pb, arena[..3], 1, qp, Some(arena[3].mark)) && Yields(pb, arena[..4], 1, qd, None)
    requires Yields(pb, arena[..4], 3, pq, None) && Yields(pb, arena[..4], 2, rp, Some(arena[4].mark))
    ensures Ends(pb, Begun(arena[..3]), [])
  {
    var s1 := Begun(arena[..3]);
    var t1 := Alone(s1, 1);
    var s2 := t1.(arena := arena[..4], frontier := [3, 2]);
    assert arena[..4] == arena[..3] + [arena[3]] && t1.frontier == [2];
    LoopBecomes(pb, t1, s2, arena[3].mark, qp, qd);
    LoopMiddle(pb, arena, s2, pq, rp);
    EndsAfterExpansion(pb, s1, 1, [qp, qd], s2, []);
  }

  lemma {:induction false} LoopBecomes(pb: Problem, t1: State, s2: State, p: Label, qp: Arc, qd: Arc)
    requires Ready(t1) && |t1.arena| == 3 && t1.frontier == [2] && t1.status == Running && pb.maxLabels >= 5
    requires s2 == t1.(arena := t1.arena + [Entry(p, From(1, qp))], frontier := [3, 2])
    requires KeyLess(p, t1.arena[2].mark)
    requires Yields(pb, t1.arena, 1, qp, Some(p)) && Yields(pb, s2.arena, 1, qd, None)
    ensures Becomes(pb, t1, 1, [qp, qd], s2)
  {
    Nothing(pb, s2, 1);
    Cuts(pb, s2, 1, qd, [], s2);
    Admits(pb, t1, 1, qp, p, [qd], s2, s2);
    assert [qp, qd] == [qp] + [qd] && [qd] == [qd] + [];
  }

  lemma {:induction false} LoopMiddle(pb: Problem, arena: Arena, s2: State, pq: Arc, rp: Arc)
    requires LoopShaped(pb, arena) && arena[4].origin == From(2, rp)
    requires Fresh(pb, s2) && s2.arena == arena[..4] && s2.frontier == [3, 2] && s2.expansions == 2
    requires s2.expanded == {0, 1}
    requires s2.buckets == map[KeyOf(arena[0].mark) := [0]][KeyOf(arena[1].mark) := [1]]
    requires OutgoingArcs(pb.net, arena[2].mark.port) == [rp] && OutgoingArcs(pb.net, arena[3].mark.port) == [pq]
    requires Yields(pb, arena[..4], 3, pq, None) && Yields(pb, arena[..4], 2, rp, Some(arena[4].mark))
    ensures Ends(pb, s2, [])
  {
    var s3 := Alone(s2, 3);
    Nothing(pb, s3, 3);
    Cuts(pb, s3, 3, pq, [], s3);
    assert [pq] == [pq] + [] && s3.frontier == [2];
    LoopEnd(pb, arena, s3, rp);
    EndsAfterExpansion(pb, s2, 3, [pq], s3, []);
  }

  lemma {:induction false} LoopEnd(pb: Problem, arena: Arena, s3: State, rp: Arc)
    requires Fresh(pb, s3) && |arena| == 5 && s3.arena == arena[..4] && s3.frontier == [2] && pb.maxLabels >= 5
    requires arena[4].origin == From(2, rp)
    requires s3.expansions + 2 <= pb.maxExpansions && s3.expanded == {0, 1, 3} && 3 in s3.retained
    requires var r, p := arena[2].mark, arena[3].mark;
             && KeyOf(r) !in s3.buckets && BucketAt(s3.buckets, KeyOf(p)) == [3] && r.port != p.port
             && r.port != pb.req.destination && OutgoingArcs(pb.net, r.port) == [rp]
             && SameBucket(p, arena[4].mark) && Dominates(p, arena[4].mark)
    requires Yields(pb, arena[..4], 2, rp, Some(arena[4].mark))
    ensures Ends(pb, s3, [])
  {
    var t := Alone(s3, 2);
    var s4 := t.(arena := arena, frontier := [4]);
    assert arena == arena[..4] + [arena[4]];
    Nothing(pb, s4, 2);
    Admits(pb, t, 2, rp, arena[4].mark, [], s4, s4);
    assert [rp] == [rp] + [];
    EndsDone(pb, s4.(frontier := []));
    EndsAfterDrop(pb, s4, 3, []);
    EndsAfterExpansion(pb, s3, 2, [rp], s4, []);
  }

  // ----- member limits --------------------------------------------------------------------

  /** Two parallel spans, the cheaper one in domain "m"; the only way on is in "m" as well. */
  function TwoSpans(): Snapshot {
    Net(map[At("s") := Port("s"), At("p") := Port("p"), At("d") := Port("d")],
        [Span("1", "s", "p", 10, {}, {"m"}, 1), Span("2", "s", "p", 10, {}, {}, 2),
         Span("3", "p", "d", 10, {}, {"m"}, 1)],
        [],
        map[At("s") := [SpanArc(0, false), SpanArc(1, false)], At("p") := [SpanArc(2, false)]],
        map[])
  }

  const LIMITS: map<Id, nat> := map["m" := 1]

  /** All that the run depends on. */
  ghost predicate IsTwoSpans(net: Snapshot) {
    && Plain(net) && At("s") in net.ports
    && SpanIs(net, 0, Span("1", "s", "p", 10, {}, {"m"}, 1)) && SpanIs(net, 1, Span("2", "s", "p", 10, {}, {}, 2))
    && SpanIs(net, 2, Span("3", "p", "d", 10, {}, {"m"}, 1))
    && OutgoingArcs(net, At("s")) == [SpanArc(0, false), SpanArc(1, false)]
  }

  const S: Label := Mark("s", {0, 1}, 0, 0, 0, 0, 0)
  const P1: Label := Mark("p", {0, 1}, 1, 10, 1, 1, 0)
  const P2: Label := Mark("p", {0, 1}, 2, 10, 1, 1, 0)

  function LimitedArena(): Arena {
    [Entry(S, Root), Entry(P1, From(0, SpanArc(0, false))), Entry(P2, From(0, SpanArc(1, false)))]
  }

  /** Member counts of the four partial routes. */
  lemma {:induction false} LimitedCounts(net: Snapshot)
    requires IsTwoSpans(net)
    ensures WithinLimits(net, Ask(LIMITS), [SpanArc(0, false)])
    ensures WithinLimits(net, Ask(LIMITS), [SpanArc(1, false)])
    ensures WithinLimits(net, Ask(LIMITS), [SpanArc(1, false), SpanArc(2, false)])
    ensures !WithinLimits(net, Ask(LIMITS), [SpanArc(0, false), SpanArc(2, false)])
  {
    var none: seq<Arc> := [];
    assert DomainCount(net, At("s"), none, "m") == 0;
    forall i: nat | i < 3
      ensures DomainCount(net, At("s"), [SpanArc(i, false)], "m") == if i == 1 then 0 else 1
      ensures DomainCount(net, At("s"), [SpanArc(i, false), SpanArc(2, false)], "m") == if i == 1 then 1 else 2
    {
      assert [SpanArc(i, false)][..0] == none;
      assert [SpanArc(i, false), SpanArc(2, false)][..1] == [SpanArc(i, false)];
    }
  }

  /** The two extensions of the start label. */
  lemma {:induction false} LimitedFirst(net: Snapshot)
    requires IsTwoSpans(net)
    ensures Yields(Small(net, LIMITS), [Entry(S, Root)], 0, SpanArc(0, false), Some(P1))
  {
    var arena := [Entry(S, Root)];
    LimitedCounts(net);
    assert RouteOf(arena, 0) + [SpanArc(0, false)] == [SpanArc(0, false)];
    assert {0, 1} - {} == {0, 1} && 0 in {0, 1};
    SpanYields(net, LIMITS, arena, 0, S, 0, "s", "p", "1", 10, {}, {"m"}, 1, Some(P1));
  }

  lemma {:induction false} LimitedSecond(net: Snapshot)
    requires IsTwoSpans(net)
    ensures Yields(Small(net, LIMITS), [Entry(S, Root), LimitedArena()[1]], 0, SpanArc(1, false), Some(P2))
  {
    var arena := [Entry(S, Root), LimitedArena()[1]];
    LimitedCounts(net);
    assert RouteOf(arena, 0) + [SpanArc(1, false)] == [SpanArc(1, false)];
    assert {0, 1} - {} == {0, 1} && 0 in {0, 1};
    SpanYields(net, LIMITS, arena, 0, S, 1, "s", "p", "2", 10, {}, {}, 2, Some(P2));
  }

  /** The cheap label cannot take the last span. */
  lemma {:induction false} LimitedCut(net: Snapshot)
    requires IsTwoSpans(net)
    ensures Yields(Small(net, LIMITS), LimitedArena(), 1, SpanArc(2, false), None)
  {
    var arena := LimitedArena();
    LimitedCounts(net);
    assert RouteOf(arena, 0) == [];
    assert RouteOf(arena, 1) + [SpanArc(2, false)] == [SpanArc(0, false), SpanArc(2, false)];
  }

  lemma {:induction false} LimitedEnds(net: Snapshot)
    requires IsTwoSpans(net) && OutgoingArcs(net, At("p")) == [SpanArc(2, false)]
    ensures Search(Small(net, LIMITS), never).exhausted && Search(Small(net, LIMITS), never).paths == []
  {
    var pb, arena := Small(net, LIMITS), LimitedArena();
    LimitedFirst(net);
    LimitedSecond(net);
    LimitedCut(net);
    FunnelRun(pb, arena, SpanArc(2, false));
    EndsAfterFirst(pb, arena, SpanArc(0, false), SpanArc(1, false), []);
    PlainStart(net, LIMITS);
    EndsSearch(pb, S, []);
  }

  lemma {:induction false} LimitedReplay(net: Snapshot)
    requires IsTwoSpans(net)
    ensures Replay(net, Ask(LIMITS), [SpanArc(1, false), SpanArc(2, false)]) == Some(Mark("d", {0, 1}, 3, 20, 2, 2, 0))
  {
    var req := Ask(LIMITS);
    var a1, a2 := SpanArc(1, false), SpanArc(2, false);
    assert {0, 1} - {} == {0, 1} && 0 in {0, 1};
    assert Replay(net, req, [a1]) == Some(P2) by {
      PlainStart(net, LIMITS);
      PlainSpan(net, LIMITS, S, 1, "s", "p", "2", 10, {}, {}, 2);
      ReplayAppend(net, req, [], a1);
      assert [] + [a1] == [a1];
    }
    PlainSpan(net, LIMITS, P2, 2, "p", "d", "3", 10, {}, {"m"}, 1);
    ReplayAppend(net, req, [a1], a2);
    assert [a1] + [a2] == [a1, a2];
  }

  lemma {:induction false} LimitedRoute(net: Snapshot)
    requires IsTwoSpans(net)
    ensures Reaches(net, Ask(LIMITS), [SpanArc(1, false), SpanArc(2, false)])
  {
    LimitedReplay(net);
    LimitedCounts(net);
    assert Visited(net, At("s"), [SpanArc(1, false), SpanArc(2, false)]) == [At("s"), At("p"), At("d")];
  }

  lemma {:induction false} LimitedRecords()
    ensures var net := TwoSpans();
            IsTwoSpans(net) && OutgoingArcs(net, At("p")) == [SpanArc(2, false)] && net.coverageComplete
  {}

  lemma {:induction false} LimitedSealed()
    ensures Sealed(TwoSpans()) && Transparent(TwoSpans(), Ask(LIMITS))
  {
    var net := TwoSpans();
    assert net.spanArcs.Keys == {At("s"), At("p")};
    SealedFromLists(net);
  }

  /** Member limits are not part of a label, so pruning can drop the only route within them. */
  lemma {:induction false} MemberLimitsLoseRoutes()
    ensures var pb := Small(TwoSpans(), LIMITS);
            && Sealed(pb.net) && pb.net.coverageComplete && Transparent(pb.net, pb.req)
            && Search(pb, never).exhausted && Search(pb, never).paths == []
            && Reaches(pb.net, pb.req, [SpanArc(1, false), SpanArc(2, false)])
  {
    var net := TwoSpans();
    LimitedSealed();
    LimitedRecords();
    LimitedEnds(net);
    LimitedRoute(net);
  }

  /** The same with a dear second way on, outside the domain. */
  function Bypassed(): Snapshot {
    TwoSpans().(spans := TwoSpans().spans + [Span("4", "p", "d", 10, {}, {}, 100)],
                spanArcs := map[At("s") := [SpanArc(0, false), SpanArc(1, false)],
                                At("p") := [SpanArc(2, false), SpanArc(3, false)]])
  }

  ghost predicate IsBypassed(net: Snapshot) {
    && IsTwoSpans(net) && SpanIs(net, 3, Span("4", "p", "d", 10, {}, {}, 100)) && net.coverageComplete
    && OutgoingArcs(net, At("p")) == [SpanArc(2, false), SpanArc(3, false)]
  }

  const D: Label := Mark("d", {0, 1}, 101, 20, 2, 2, 0)

  function BypassArena(): Arena { LimitedArena() + [Entry(D, From(1, SpanArc(3, false)))] }

  const DEAR: Path := Path([SpanArc(0, false), SpanArc(3, false)], 101, 2, 0, true)

  lemma {:induction false} BypassPath()
    ensures PathOf(BypassArena(), 3) == DEAR
  {
    var arena := BypassArena();
    assert RouteOf(arena, 0) == [];
    assert RouteOf(arena, 1) == [SpanArc(0, false)];
  }

  lemma {:induction false} BypassYields(net: Snapshot)
    requires IsBypassed(net)
    ensures Yields(Small(net, LIMITS), LimitedArena(), 1, SpanArc(3, false), Some(D))
  {
    var arena := LimitedArena();
    BypassWithin(net);
    assert {0, 1} - {} == {0, 1} && 0 in {0, 1};
    assert !OnPath(arena, 0, At("d"));
    SpanYields(net, LIMITS, arena, 1, P1, 3, "p", "d", "4", 10, {}, {}, 100, Some(D));
  }

  lemma {:induction false} BypassWithin(net: Snapshot)
    requires IsBypassed(net)
    ensures RouteOf(LimitedArena(), 1) == [SpanArc(0, false)]
    ensures WithinLimits(net, Ask(LIMITS), [SpanArc(0, false)] + [SpanArc(3, false)])
  {
    LimitedCounts(net);
    assert RouteOf(LimitedArena(), 0) == [];
    var route := [SpanArc(0, false)] + [SpanArc(3, false)];
    assert route[..1] == [SpanArc(0, false)];
    assert DomainCount(net, At("s"), route, "m") == DomainCount(net, At("s"), route[..1], "m");
  }

  /** The run of any search in which two labels meet in one bucket and the one that wins goes on
      to the destination by its second arc only. */
  lemma {:induction false} BypassRun(pb: Problem, arena: Arena, a: Arc, b: Arc)
    requires pb.maxExpansions >= 3 && pb.maxLabels >= 4 && |arena| == 4 && Linked(arena)
    requires var p := arena[1].mark.port;
             arena[0].mark.port != p && pb.req.destination != p && pb.req.destination != arena[0].mark.port
    requires SameBucket(arena[1].mark, arena[2].mark) && Dominates(arena[1].mark, arena[2].mark)
    requires KeyLess(arena[2].mark, arena[3].mark) && arena[3].mark.port == pb.req.destination
    requires OutgoingArcs(pb.net, arena[1].mark.port) == [a, b] && arena[3].origin == From(1, b)
    requires Yields(pb, arena[..3], 1, a, None) && Yields(pb, arena[..3], 1, b, Some(arena[3].mark))
    ensures Ends(pb, Begun(arena[..3]), [PathOf(arena, 3)])
  {
    var s1 := Begun(arena[..3]);
    var t := Alone(s1, 1);
    var s2 := t.(arena := arena, frontier := [2, 3]);
    assert t.frontier == [2] && arena == arena[..3] + [arena[3]];
    BypassBecomes(pb, t, s2, a, b);
    EndsAtDestination(pb, s2.(frontier := [3]), 3);
    EndsAfterDrop(pb, s2, 1, [PathOf(arena, 3)]);
    EndsAfterExpansion(pb, s1, 1, [a, b], s2, [PathOf(arena, 3)]);
  }

  lemma {:induction false} BypassBecomes(pb: Problem, t: State, s2: State, a: Arc, b: Arc)
    requires Ready(t) && |t.arena| == 3 && t.frontier == [2] && t.status == Running && pb.maxLabels >= 4
    requires |s2.arena| == 4 && s2 == t.(arena := t.arena + [s2.arena[3]], frontier := [2, 3])
    requires s2.arena[3].origin == From(1, b) && KeyLess(t.arena[2].mark, s2.arena[3].mark)
    requires Yields(pb, t.arena, 1, a, None) && Yields(pb, t.arena, 1, b, Some(s2.arena[3].mark))
    ensures Becomes(pb, t, 1, [a, b], s2)
  {
    Nothing(pb, s2, 1);
    Admits(pb, t, 1, b, s2.arena[3].mark, [], s2, s2);
    Cuts(pb, t, 1, a, [b], s2);
    assert [a, b] == [a] + [b] && [b] == [b] + [];
  }

  lemma {:induction false} BypassEnds(net: Snapshot)
    requires IsBypassed(net)
    ensures Exhausts(Search(Small(net, LIMITS), never), [DEAR]) && Search(Small(net, LIMITS), never).provedOptimum
  {
    var pb, arena := Small(net, LIMITS), BypassArena();
    var paths := [DEAR];
    BypassPath();
    assert arena[..3] == LimitedArena();
    LimitedFirst(net);
    LimitedSecond(net);
    LimitedCut(net);
    BypassYields(net);
    BypassRun(pb, arena, SpanArc(2, false), SpanArc(3, false));
    EndsAfterFirst(pb, LimitedArena(), SpanArc(0, false), SpanArc(1, false), paths);
    PlainStart(net, LIMITS);
    EndsSearch(pb, S, paths);
    assert paths[0] in paths;
  }

  lemma {:induction false} BypassRecords()
    ensures IsBypassed(Bypassed())
  {
    LimitedRecords();
  }

  lemma {:induction false} BypassSealed()
    ensures Sealed(Bypassed()) && Transparent(Bypassed(), Ask(LIMITS))
  {
    var net := Bypassed();
    BypassRecords();
    assert net.spanArcs.Keys == {At("s"), At("p")};
    SealedFromLists(net);
  }

  /** A search that claims a proven optimum although a proven admissible route is far cheaper. */
  lemma {:induction false} MemberLimitsLoseOptimum()
    ensures var pb := Small(Bypassed(), LIMITS);
            var outcome := Search(pb, never);
            var route := [SpanArc(1, false), SpanArc(2, false)];
            && Sealed(pb.net) && Transparent(pb.net, pb.req)
            && outcome.provedOptimum && outcome.paths == [DEAR]
            && Reaches(pb.net, pb.req, route) && Final(pb.net, pb.req, route).proven
            && Final(pb.net, pb.req, route).cost == 3
  {
    var net := Bypassed();
    BypassRecords();
    BypassSealed();
    BypassEnds(net);
    LimitedRoute(net);
    LimitedReplay(net);
  }

  // ----- loops through a restarted wavelength ---------------------------------------------

  function Long(op: Op): u64 { if op == Regenerate then 60 else 10 }
  function BlockedIn(op: Op): set<nat> { if op == Regenerate then {} else {1} }
  function BlockedOut(op: Op): set<nat> { if op == Regenerate then {} else {0} }

  /** s leads to q and, at a higher price, to r; both lead to p through a cross-connect of kind
      `op`; p leads to q; and q leads to d, but not for a route that comes straight from s:
      the distance is too long, or the channels do not match. */
  function Ring(op: Op): Snapshot {
    Net(map[At("s") := Port("s"), At("q") := Port("q"), At("r") := Port("r"), At("p") := Port("p"),
            At("d") := Port("d")],
        [Span("1", "s", "q", Long(op), BlockedIn(op), {}, 1), Span("2", "s", "r", 10, {}, {}, 5),
         Span("3", "p", "q", 10, {}, {}, 1), Span("4", "q", "d", Long(op), BlockedOut(op), {}, 1)],
        [Cross("5", "q", "p", op, 1), Cross("6", "r", "p", op, 5)],
        map[At("s") := [SpanArc(0, false), SpanArc(1, false)], At("p") := [SpanArc(2, false)],
            At("q") := [SpanArc(3, false)]],
        map[At("q") := [CrossArc(0)], At("r") := [CrossArc(1)]])
  }

  /** All that the run depends on. */
  ghost predicate IsRing(net: Snapshot, op: Op) {
    && Plain(net) && At("s") in net.ports && op != Express
    && SpanIs(net, 0, Span("1", "s", "q", Long(op), BlockedIn(op), {}, 1))
    && SpanIs(net, 1, Span("2", "s", "r", 10, {}, {}, 5)) && SpanIs(net, 2, Span("3", "p", "q", 10, {}, {}, 1))
    && SpanIs(net, 3, Span("4", "q", "d", Long(op), BlockedOut(op), {}, 1))
    && CrossIs(net, 0, Cross("5", "q", "p", op, 1)) && CrossIs(net, 1, Cross("6", "r", "p", op, 5))
    && OutgoingArcs(net, At("s")) == [SpanArc(0, false), SpanArc(1, false)]
    && OutgoingArcs(net, At("p")) == [SpanArc(2, false)] && OutgoingArcs(net, At("r")) == [CrossArc(1)]
  }

  /** Start, q, r, p by way of q, p by way of r. */
  function RingMark(op: Op, k: nat): Label
    requires k < 5
  {
    if k == 0 then S
    else if k == 1 then Mark("q", {0, 1} - BlockedIn(op), 1, Long(op), 1, 1, 0)
    else if k == 2 then Mark("r", {0, 1}, 5, 10, 1, 1, 0)
    else
      var cost := if k == 3 then 2 else 10;
      if op == Regenerate then Mark("p", {0, 1}, cost, 0, 0, 2, 1) else Mark("p", {0, 1}, cost, 10, 1, 2, 0)
  }

  function RingArena(op: Op): Arena {
    [Entry(RingMark(op, 0), Root), Entry(RingMark(op, 1), From(0, SpanArc(0, false))),
     Entry(RingMark(op, 2), From(0, SpanArc(1, false))), Entry(RingMark(op, 3), From(1, CrossArc(0))),
     Entry(RingMark(op, 4), From(2, CrossArc(1)))]
  }

  lemma {:induction false} RingMasks(op: Op)
    requires op != Express
    ensures 0 in {0, 1} - BlockedIn(op) && {0, 1} - {} == {0, 1}
    ensures op == Convert ==> {0, 1} - BlockedIn(op) - BlockedOut(op) == {}
    ensures 1 in {0, 1} - BlockedOut(op)
  {}

  lemma {:induction false} RingFirst(net: Snapshot, op: Op)
    requires IsRing(net, op)
    ensures Yields(Small(net, map[]), [RingArena(op)[0]], 0, SpanArc(0, false), Some(RingMark(op, 1)))
  {
    RingMasks(op);
    SpanYields(net, map[], [RingArena(op)[0]], 0, S, 0, "s", "q", "1", Long(op), BlockedIn(op), {}, 1,
               Some(RingMark(op, 1)));
  }

  lemma {:induction false} RingSecond(net: Snapshot, op: Op)
    requires IsRing(net, op)
    ensures Yields(Small(net, map[]), [RingArena(op)[0], RingArena(op)[1]], 0, SpanArc(1, false), Some(RingMark(op, 2)))
  {
    RingMasks(op);
    SpanYields(net, map[], [RingArena(op)[0], RingArena(op)[1]], 0, S, 1, "s", "r", "2", 10, {}, {}, 5,
               Some(RingMark(op, 2)));
  }

  lemma {:induction false} RingThird(net: Snapshot, op: Op)
    requires IsRing(net, op)
    ensures Yields(Small(net, map[]), RingArena(op)[..3], 1, CrossArc(0), Some(RingMark(op, 3)))
  {
    var arena := RingArena(op)[..3];
    assert !OnPath(arena, 0, At("p"));
    CrossYields(net, arena, 1, RingMark(op, 1), 0, "q", "p", "5", op, 1, RingMark(op, 3));
  }

  lemma {:induction false} RingFourth(net: Snapshot, op: Op)
    requires IsRing(net, op)
    ensures Yields(Small(net, map[]), RingArena(op)[..4], 2, CrossArc(1), Some(RingMark(op, 4)))
  {
    var arena := RingArena(op)[..4];
    assert !OnPath(arena, 0, At("p"));
    CrossYields(net, arena, 2, RingMark(op, 2), 1, "r", "p", "6", op, 5, RingMark(op, 4));
  }

  lemma {:induction false} RingCuts(net: Snapshot, op: Op)
    requires IsRing(net, op)
    ensures Yields(Small(net, map[]), RingArena(op)[..4], 1, SpanArc(3, false), None)
  {
    var arena := RingArena(op)[..4];
    RingMasks(op);
    assert !OnPath(arena, 0, At("d"));
    SpanYields(net, map[], arena, 1, RingMark(op, 1), 3, "q", "d", "4", Long(op), BlockedOut(op), {}, 1, None);
  }

  lemma {:induction false} RingLoops(net: Snapshot, op: Op)
    requires IsRing(net, op)
    ensures Yields(Small(net, map[]), RingArena(op)[..4], 3, SpanArc(2, false), None)
  {
    var arena := RingArena(op)[..4];
    assert OnPath(arena, 1, At("q"));
    if Step(net, Ask(map[]), RingMark(op, 3), SpanArc(2, false)).Some? {
      StepRaisesKey(net, Ask(map[]), RingMark(op, 3), SpanArc(2, false));
    }
  }

  lemma {:induction false} RingTail(net: Snapshot, op: Op)
    requires IsRing(net, op) && OutgoingArcs(net, At("q")) == [CrossArc(0), SpanArc(3, false)]
    ensures Ends(Small(net, map[]), Begun(RingArena(op)[..3]), [])
  {
    RingThird(net, op);
    RingFourth(net, op);
    RingCuts(net, op);
    RingLoops(net, op);
    LoopRun(Small(net, map[]), RingArena(op), CrossArc(0), SpanArc(3, false), SpanArc(2, false), CrossArc(1));
  }

  lemma {:induction false} RingEnds(net: Snapshot, op: Op)
    requires IsRing(net, op) && OutgoingArcs(net, At("q")) == [CrossArc(0), SpanArc(3, false)]
    ensures Search(Small(net, map[]), never).exhausted && Search(Small(net, map[]), never).paths == []
  {
    var pb := Small(net, map[]);
    RingTail(net, op);
    RingFirst(net, op);
    RingSecond(net, op);
    EndsAfterFirst(pb, RingArena(op)[..3], SpanArc(0, false), SpanArc(1, false), []);
    PlainStart(net, map[]);
    EndsSearch(pb, S, []);
  }

  const DETOUR: seq<Arc> := [SpanArc(1, false), CrossArc(1), SpanArc(2, false), SpanArc(3, false)]

  lemma {:induction false} RingReplayHalf(net: Snapshot, op: Op)
    requires IsRing(net, op)
    ensures Replay(net, Ask(map[]), DETOUR[..2]) == Some(RingMark(op, 4))
  {
    var req := Ask(map[]);
    RingMasks(op);
    assert Replay(net, req, DETOUR[..1]) == Some(RingMark(op, 2)) by {
      PlainStart(net, map[]);
      PlainSpan(net, map[], S, 1, "s", "r", "2", 10, {}, {}, 5);
      ReplayAppend(net, req, [], SpanArc(1, false));
      assert [] + [SpanArc(1, false)] == DETOUR[..1];
    }
    PlainCross(net, map[], RingMark(op, 2), 1, "r", "p", "6", op, 5);
    ReplayAppend(net, req, DETOUR[..1], CrossArc(1));
    assert DETOUR[..1] + [CrossArc(1)] == DETOUR[..2];
  }

  lemma {:induction false} RingReplay(net: Snapshot, op: Op)
    requires IsRing(net, op)
    ensures Replay(net, Ask(map[]), DETOUR).Some?
    ensures Final(net, Ask(map[]), DETOUR).port == At("d") && Final(net, Ask(map[]), DETOUR).proven
    ensures Final(net, Ask(map[]), DETOUR).cost == 12
  {
    var req := Ask(map[]);
    RingMasks(op);
    var l := RingMark(op, 4);
    var q := Mark("q", {0, 1}, 11, l.distance + 10, l.spans + 1, 3, l.regenerations);
    assert Replay(net, req, DETOUR[..3]) == Some(q) by {
      RingReplayHalf(net, op);
      PlainSpan(net, map[], l, 2, "p", "q", "3", 10, {}, {}, 1);
      ReplayAppend(net, req, DETOUR[..2], SpanArc(2, false));
      assert DETOUR[..2] + [SpanArc(2, false)] == DETOUR[..3];
    }
    PlainSpan(net, map[], q, 3, "q", "d", "4", Long(op), BlockedOut(op), {}, 1);
    ReplayAppend(net, req, DETOUR[..3], SpanArc(3, false));
    assert DETOUR[..3] + [SpanArc(3, false)] == DETOUR;
  }

  lemma {:induction false} RingSimple(net: Snapshot, op: Op)
    requires IsRing(net, op)
    ensures PortSimple(net, At("s"), DETOUR)
  {
    assert Visited(net, At("s"), DETOUR) == [At("s"), At("r"), At("p"), At("q"), At("d")];
  }

  lemma {:induction false} RingRoute(net: Snapshot, op: Op, route: seq<Arc>)
    requires IsRing(net, op) && route == DETOUR
    ensures Reaches(net, Ask(map[]), route) && Final(net, Ask(map[]), route).proven
    ensures Final(net, Ask(map[]), route).cost == 12
  {
    RingReplay(net, op);
    RingSimple(net, op);
  }

  lemma {:induction false} RingRecords(op: Op)
    ensures var net := Ring(op);
            && Plain(net) && At("s") in net.ports
            && SpanIs(net, 0, Span("1", "s", "q", Long(op), BlockedIn(op), {}, 1))
            && SpanIs(net, 1, Span("2", "s", "r", 10, {}, {}, 5)) && SpanIs(net, 2, Span("3", "p", "q", 10, {}, {}, 1))
            && SpanIs(net, 3, Span("4", "q", "d", Long(op), BlockedOut(op), {}, 1))
            && CrossIs(net, 0, Cross("5", "q", "p", op, 1)) && CrossIs(net, 1, Cross("6", "r", "p", op, 5))
            && |net.spans| == 4 && |net.crossConnects| == 2
  {}

  lemma {:induction false} RingArcs(op: Op)
    ensures var net := Ring(op);
            && OutgoingArcs(net, At("s")) == [SpanArc(0, false), SpanArc(1, false)]
            && OutgoingArcs(net, At("q")) == [CrossArc(0), SpanArc(3, false)]
            && OutgoingArcs(net, At("p")) == [SpanArc(2, false)] && OutgoingArcs(net, At("r")) == [CrossArc(1)]
            && net.spanArcs.Keys == {At("s"), At("p"), At("q")} && net.crossArcs.Keys == {At("q"), At("r")}
            && net.spanArcs[At("s")] == [SpanArc(0, false), SpanArc(1, false)]
            && net.spanArcs[At("p")] == [SpanArc(2, false)] && net.spanArcs[At("q")] == [SpanArc(3, false)]
            && net.crossArcs[At("q")] == [CrossArc(0)] && net.crossArcs[At("r")] == [CrossArc(1)]
  {}

  /** Adjacency lists that hold only arcs leaving their port, and each arc at its port. */
  lemma {:induction false} SealedFromLists(net: Snapshot)
    requires net == Net(net.ports, net.spans, net.crossConnects, net.spanArcs, net.crossArcs)
    requires forall p | p in net.ports :: net.ports[p].key == p
    requires forall i | 0 <= i < |net.spans| ::
               && !net.spans[i].bidirectional && net.spans[i].loss == Known(0.0) && net.spans[i].noise == Known(1.0)
               && net.spans[i].from in net.spanArcs && SpanArc(i, false) in net.spanArcs[net.spans[i].from]
    requires forall i | 0 <= i < |net.crossConnects| ::
               && net.crossConnects[i].from in net.crossArcs && CrossArc(i) in net.crossArcs[net.crossConnects[i].from]
    requires forall p | p in net.spanArcs ::
               forall arc | arc in net.spanArcs[p] :: arc.SpanArc? && Leaves(net, arc, p)
    requires forall p | p in net.crossArcs ::
               forall arc | arc in net.crossArcs[p] :: arc.CrossArc? && Leaves(net, arc, p)
    ensures Sealed(net)
  {}

  lemma {:induction false} RingSealed(op: Op)
    ensures Sealed(Ring(op))
  {
    var net := Ring(op);
    RingRecords(op);
    RingArcs(op);
    SealedFromLists(net);
  }

  /** With regeneration or conversion allowed, removing a cycle can hurt: the search proves
      itself exhausted and empty on a complete snapshot that has an admissible route. */
  lemma {:induction false} RestartsLoseRoutes(op: Op)
    requires op != Express
    ensures var pb := Small(Ring(op), map[]);
            && Sealed(pb.net) && pb.net.coverageComplete && LimitsSlack(pb.req)
            && Search(pb, never).exhausted && Search(pb, never).paths == []
            && Reaches(pb.net, pb.req, DETOUR) && Final(pb.net, pb.req, DETOUR).proven
  {
    var net := Ring(op);
    RingSealed(op);
    RingRecords(op);
    RingArcs(op);
    RingEnds(net, op);
    RingRoute(net, op, DETOUR);
  }
}
