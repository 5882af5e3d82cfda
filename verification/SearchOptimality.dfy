/** Completeness and optimality of the search on the fragment where pruning and loop
    prevention agree: no arc the request allows restarts a wavelength. */
module SearchOptimality {
  import opened Base
  import opened Network
  import opened Rules
  import opened Routes
  import opened SearchModel
  import opened SearchInvariant
  import opened SearchTheorems

  // ----- the fragment ---------------------------------------------------------------------

  /** No cross-connect that converts or regenerates can be used under the request. */
  ghost predicate Transparent(net: Snapshot, req: Request) {
    forall i | 0 <= i < |net.crossConnects| ::
      var op := net.crossConnects[i].op;
      op == Express || !OpAllowed(req.constraints, op) || (op == Regenerate && req.maxRegenerations == 0)
  }

  /** Every declared member limit is out of reach of a route within the hop limit. */
  ghost predicate LimitsSlack(req: Request) {
    forall d | d in req.constraints.memberLimits :: req.constraints.memberLimits[d] >= 2 + 3 * req.maxHops
  }

  ghost predicate Exact(pb: Problem) {
    Sealed(pb.net) && Transparent(pb.net, pb.req) && LimitsSlack(pb.req)
  }

  lemma {:induction false} StepKeepsWavelength(net: Snapshot, req: Request, l: Label, arc: Arc)
    requires Transparent(net, req) && Step(net, req, l, arc).Some?
    ensures KeepsWavelength(net, arc)
  {}

  lemma {:induction false} DomainCountBound(net: Snapshot, source: PortKey, route: seq<Arc>, d: Id)
    ensures DomainCount(net, source, route, d) <= 2 + 3 * |route|
  {
    if route != [] {
      DomainCountBound(net, source, route[..|route| - 1], d);
    }
  }

  lemma {:induction false} SlackWithinLimits(pb: Problem, route: seq<Arc>)
    requires LimitsSlack(pb.req) && Replay(pb.net, pb.req, route).Some?
    ensures WithinLimits(pb.net, pb.req, route)
  {
    FinalPort(pb.net, pb.req, route);
    forall d | d in pb.req.constraints.memberLimits && route != []
      ensures DomainCount(pb.net, pb.req.source, route, d) <= pb.req.constraints.memberLimits[d]
    {
      DomainCountBound(pb.net, pb.req.source, route, d);
    }
  }

  // ----- why loop prevention loses nothing ------------------------------------------------

  /** On a chain without restarts an ancestor dominates its descendants. */
  lemma {:induction false} ChainDominates(pb: Problem, s: State, i: nat, p: PortKey) returns (a: nat)
    requires Sealed(pb.net) && Inv(pb, s) && i in s.expanded && i < |s.arena| && OnPath(s.arena, i, p)
    requires Restartless(pb.net, RouteOf(s.arena, i))
    ensures a in s.expanded && a < |s.arena| && s.arena[a].mark.port == p
    ensures s.arena[a].mark.profile == s.arena[i].mark.profile && Dominates(s.arena[a].mark, s.arena[i].mark)
    decreases i
  {
    if s.arena[i].mark.port == p {
      a := i;
    } else {
      var parent, arc := s.arena[i].origin.parent, s.arena[i].origin.arc;
      RestartlessParent(pb.net, RouteOf(s.arena, parent), arc);
      a := ChainDominates(pb, s, parent, p);
      ChildIsStep(pb, s.arena, i);
      StepInflates(pb.net, pb.req, s.arena[parent].mark, arc);
      DominatesTransitive(s.arena[a].mark, s.arena[parent].mark, s.arena[i].mark);
    }
  }

  /** On a chain that keeps its wavelength an ancestor dominates its descendants: it stands on
      `p`, is expanded, and is at least as good as entry `i`. */
  lemma {:induction false} AncestorDominates(pb: Problem, s: State, i: nat, p: PortKey) returns (a: nat)
    requires Exact(pb) && Inv(pb, s) && i in s.expanded && i < |s.arena| && OnPath(s.arena, i, p)
    ensures a in s.expanded && a < |s.arena| && s.arena[a].mark.port == p
    ensures s.arena[a].mark.profile == s.arena[i].mark.profile && Dominates(s.arena[a].mark, s.arena[i].mark)
  {
    ExactRestartless(pb, s.arena, i);
    a := ChainDominates(pb, s, i, p);
  }

  lemma {:induction false} ExactRestartless(pb: Problem, arena: Arena, i: nat)
    requires Exact(pb) && Sound(pb, arena) && i < |arena|
    ensures Restartless(pb.net, RouteOf(arena, i))
  {
    if arena[i].origin.From? {
      var parent, arc := arena[i].origin.parent, arena[i].origin.arc;
      ExactRestartless(pb, arena, parent);
      ChildIsStep(pb, arena, i);
      StepKeepsWavelength(pb.net, pb.req, arena[parent].mark, arc);
    }
  }

  lemma {:induction false} ChildIsStep(pb: Problem, arena: Arena, c: nat)
    requires Sound(pb, arena) && c < |arena| && arena[c].origin.From?
    ensures Step(pb.net, pb.req, arena[arena[c].origin.parent].mark, arena[c].origin.arc) == Some(arena[c].mark)
  {
    var parent, arc := arena[c].origin.parent, arena[c].origin.arc;
    assert SoundEntry(pb, arena, c) && SoundEntry(pb, arena, parent);
    ReplayAppend(pb.net, pb.req, RouteOf(arena, parent), arc);
  }

  /** Going back over the span just used always returns to a port already on the path. */
  lemma {:induction false} BacktrackIsLoop(pb: Problem, arena: Arena, i: nat, arc: Arc)
    requires Sound(pb, arena) && i < |arena| && Backtracks(arena[i], arc)
    requires Step(pb.net, pb.req, arena[i].mark, arc).Some?
    ensures OnPath(arena, i, Step(pb.net, pb.req, arena[i].mark, arc).value.port)
  {
    var parent, used := arena[i].origin.parent, arena[i].origin.arc;
    ChildIsStep(pb, arena, i);
    StepRaisesKey(pb.net, pb.req, arena[i].mark, arc);
    StepRaisesKey(pb.net, pb.req, arena[parent].mark, used);
    if arc.reversed != used.reversed {
      assert Departure(pb.net, used) == arena[parent].mark.port;
      assert OnPath(arena, parent, arena[parent].mark.port);
    }
  }

  // ----- every admissible route is covered or pending -------------------------------------

  /** Some waiting label dominates a prefix of the route. */
  ghost predicate Pending(pb: Problem, s: State, route: seq<Arc>)
    requires Ready(s) && Replay(pb.net, pb.req, route).Some?
  {
    exists f: nat, n: nat :: PendingAt(pb, s, route, f, n)
  }

  ghost predicate PendingAt(pb: Problem, s: State, route: seq<Arc>, f: nat, n: nat)
    requires Ready(s)
  {
    && f in s.frontier && n <= |route| && Replay(pb.net, pb.req, route[..n]).Some?
    && Dominates(s.arena[f].mark, Final(pb.net, pb.req, route[..n]))
  }

  ghost predicate AvoidsDestination(pb: Problem, route: seq<Arc>) {
    forall n | 0 <= n < |route| :: Visited(pb.net, pb.req.source, route)[n] != pb.req.destination
  }

  /** In a live state an admissible route is covered by a retained label at its last port, or
      some waiting label is at least as good as one of its prefixes. */
  lemma {:induction false} CoveredOrPending(pb: Problem, s: State, route: seq<Arc>)
    requires Exact(pb) && Inv(pb, s) && Live(pb, s) && s.arena[0].origin == Root
    requires Admissible(pb.net, pb.req, route) && AvoidsDestination(pb, route)
    ensures Covered(s.arena, s.retained, Final(pb.net, pb.req, route)) || Pending(pb, s, route)
    decreases |route|
  {
    if route == [] {
      RootCoveredOrPending(pb, s);
    } else {
      var m := |route| - 1;
      PrefixAvoids(pb, route, m);
      CoveredOrPending(pb, s, route[..m]);
      CoverageGrows(pb, s, route[..m], route[m], route);
    }
  }

  lemma {:induction false} CoverageGrows(pb: Problem, s: State, init: seq<Arc>, arc: Arc, route: seq<Arc>)
    requires Exact(pb) && Inv(pb, s) && Live(pb, s) && route == init + [arc]
    requires Replay(pb.net, pb.req, init).Some? && Replay(pb.net, pb.req, route).Some?
    requires Final(pb.net, pb.req, init).port != pb.req.destination
    requires Covered(s.arena, s.retained, Final(pb.net, pb.req, init)) || Pending(pb, s, init)
    ensures Covered(s.arena, s.retained, Final(pb.net, pb.req, route)) || Pending(pb, s, route)
  {
    if Pending(pb, s, init) {
      PendingGrows(pb, s, init, arc);
    } else {
      ExtendCover(pb, s, init, arc);
    }
  }

  lemma {:induction false} RootCoveredOrPending(pb: Problem, s: State)
    requires Ready(s) && |s.arena| > 0 && Sound(pb, s.arena) && Waiting(s.arena, s.frontier, s.retained)
    requires s.arena[0].origin == Root
    ensures Replay(pb.net, pb.req, []).Some?
    ensures Covered(s.arena, s.retained, Final(pb.net, pb.req, [])) || Pending(pb, s, [])
  {
    var none: seq<Arc> := [];
    assert SoundEntry(pb, s.arena, 0);
    assert RouteOf(s.arena, 0) == none;
    if 0 in s.frontier {
      assert none[..0] == none;
      assert PendingAt(pb, s, none, 0, 0);
    }
  }

  lemma {:induction false} PendingWhole(pb: Problem, s: State, route: seq<Arc>, f: nat)
    requires Ready(s) && f in s.frontier && Replay(pb.net, pb.req, route).Some?
    requires Dominates(s.arena[f].mark, Final(pb.net, pb.req, route))
    ensures Pending(pb, s, route)
  {
    assert route[..|route|] == route;
    assert PendingAt(pb, s, route, f, |route|);
  }

  lemma {:induction false} PendingGrows(pb: Problem, s: State, init: seq<Arc>, arc: Arc)
    requires Ready(s) && Replay(pb.net, pb.req, init).Some? && Replay(pb.net, pb.req, init + [arc]).Some?
    requires Pending(pb, s, init)
    ensures Pending(pb, s, init + [arc])
  {
    var f: nat, n: nat :| PendingAt(pb, s, init, f, n);
    assert init[..n] == (init + [arc])[..n];
    assert PendingAt(pb, s, init + [arc], f, n);
  }

  lemma {:induction false} PrefixAvoids(pb: Problem, route: seq<Arc>, m: nat)
    requires m < |route| && Admissible(pb.net, pb.req, route) && AvoidsDestination(pb, route)
    ensures Admissible(pb.net, pb.req, route[..m]) && AvoidsDestination(pb, route[..m])
    ensures Final(pb.net, pb.req, route[..m]).port != pb.req.destination
  {
    AdmissiblePrefix(pb.net, pb.req, route, m);
    VisitedPrefix(pb.net, pb.req.source, route, m);
    FinalPort(pb.net, pb.req, route[..m]);
  }

  lemma {:induction false} ExtendCover(pb: Problem, s: State, init: seq<Arc>, arc: Arc)
    requires Exact(pb) && Inv(pb, s) && Live(pb, s)
    requires Replay(pb.net, pb.req, init).Some? && Replay(pb.net, pb.req, init + [arc]).Some?
    requires Covered(s.arena, s.retained, Final(pb.net, pb.req, init))
    requires Final(pb.net, pb.req, init).port != pb.req.destination
    ensures Covered(s.arena, s.retained, Final(pb.net, pb.req, init + [arc])) || Pending(pb, s, init + [arc])
  {
    var route := init + [arc];
    var before, after := Final(pb.net, pb.req, init), Final(pb.net, pb.req, route);
    ReplayAppend(pb.net, pb.req, init, arc);
    var j :| j in s.retained && j < |s.arena| && SameBucket(s.arena[j].mark, before)
             && Dominates(s.arena[j].mark, before);
    StepMonotone(pb.net, pb.req, s.arena[j].mark, before, arc);
    var next := Step(pb.net, pb.req, s.arena[j].mark, arc).value;
    if Extend(pb.net, pb.req, s.arena, j, arc).Some? {
      var c := ChildOf(pb, s, j, arc);
      if c in s.frontier {
        PendingWhole(pb, s, route, c);
      } else {
        CoverDown(s.arena, s.retained, next, after);
      }
    } else {
      LoopIsCovered(pb, s, j, arc, before, after);
    }
  }

  /** An expanded label off the destination has a child for every open arc. */
  lemma {:induction false} ChildOf(pb: Problem, s: State, j: nat, arc: Arc) returns (c: nat)
    requires Sealed(pb.net) && Ready(s) && Sound(pb, s.arena) && Closed(pb, s.arena, s.expanded)
    requires j in s.expanded && j < |s.arena| && s.arena[j].mark.port != pb.req.destination
    requires Extend(pb.net, pb.req, s.arena, j, arc).Some?
    ensures c < |s.arena| && Step(pb.net, pb.req, s.arena[j].mark, arc) == Some(s.arena[c].mark)
  {
    assert arc in OutgoingArcs(pb.net, s.arena[j].mark.port);
    assert Opened(pb, s.arena, j, OutgoingArcs(pb.net, s.arena[j].mark.port));
    c :| 0 <= c < |s.arena| && s.arena[c].origin == From(j, arc);
    ChildIsStep(pb, s.arena, c);
  }

  lemma {:induction false} CoverDown(arena: Arena, retained: set<nat>, better: Label, worse: Label)
    requires Covered(arena, retained, better) && SameBucket(better, worse) && Dominates(better, worse)
    ensures Covered(arena, retained, worse)
  {
    var j :| j in retained && j < |arena| && SameBucket(arena[j].mark, better) && Dominates(arena[j].mark, better);
    DominatesTransitive(arena[j].mark, better, worse);
  }

  /** The one extension that is cut for a dominator but not for the dominated route: its own
      chain already stands on the next port.  Then the label it had there covers the route. */
  lemma {:induction false} LoopIsCovered(pb: Problem, s: State, j: nat, arc: Arc, before: Label, after: Label)
    requires Exact(pb) && Inv(pb, s) && j in s.retained && j < |s.arena|
    requires Step(pb.net, pb.req, before, arc) == Some(after)
    requires SameBucket(s.arena[j].mark, before) && Dominates(s.arena[j].mark, before)
    requires Step(pb.net, pb.req, s.arena[j].mark, arc).Some?
    requires Extend(pb.net, pb.req, s.arena, j, arc).None?
    ensures Covered(s.arena, s.retained, after)
  {
    var mark := s.arena[j].mark;
    var next := Step(pb.net, pb.req, mark, arc).value;
    assert SoundEntry(pb, s.arena, j);
    ReplayAppend(pb.net, pb.req, RouteOf(s.arena, j), arc);
    SlackWithinLimits(pb, RouteOf(s.arena, j) + [arc]);
    if Backtracks(s.arena[j], arc) {
      BacktrackIsLoop(pb, s.arena, j, arc);
    }
    StepRaisesKey(pb.net, pb.req, mark, arc);
    StepRaisesKey(pb.net, pb.req, before, arc);
    var a := AncestorDominates(pb, s, j, next.port);
    StepKeepsWavelength(pb.net, pb.req, before, arc);
    StepInflates(pb.net, pb.req, before, arc);
    DominatesTransitive(s.arena[a].mark, mark, before);
    DominatesTransitive(s.arena[a].mark, before, after);
    assert Covered(s.arena, s.retained, s.arena[a].mark);
    CoverDown(s.arena, s.retained, s.arena[a].mark, after);
  }

  lemma {:induction false} ReachesAvoids(pb: Problem, route: seq<Arc>)
    requires Reaches(pb.net, pb.req, route)
    ensures AvoidsDestination(pb, route)
  {
    FinalPort(pb.net, pb.req, route);
  }

  // ----- Pareto order of the settled destinations -----------------------------------------

  /** Whenever a route has a smaller key than the k-th settled destination label, an earlier
      settled destination label dominates it. */
  ghost predicate Ranked(pb: Problem, arena: Arena, destinations: seq<nat>)
    requires Indices(arena, destinations)
  {
    forall k | 0 <= k < |destinations| :: RankedAt(pb, arena, destinations[..k], arena[destinations[k]].mark)
  }

  ghost predicate RankedAt(pb: Problem, arena: Arena, earlier: seq<nat>, l: Label)
    requires Indices(arena, earlier)
  {
    forall route | Reaches(pb.net, pb.req, route) && KeyLess(Final(pb.net, pb.req, route), l) ::
      DominatedByOne(arena, earlier, Final(pb.net, pb.req, route))
  }

  ghost predicate DominatedByOne(arena: Arena, some: seq<nat>, l: Label)
    requires Indices(arena, some)
  {
    exists j :: 0 <= j < |some| && Dominates(arena[some[j]].mark, l)
  }

  /** A route with a smaller key than everything waiting is dominated by a settled label. */
  lemma {:induction false} SmallerKeyIsSettled(pb: Problem, s: State, route: seq<Arc>) returns (j: nat)
    requires Exact(pb) && Inv(pb, s) && Live(pb, s) && s.arena[0].origin == Root
    requires Reaches(pb.net, pb.req, route)
    requires s.frontier != [] ==> KeyLess(Final(pb.net, pb.req, route), s.arena[s.frontier[0]].mark)
    ensures j < |s.destinations| && s.destinations[j] in s.retained
    ensures Dominates(s.arena[s.destinations[j]].mark, Final(pb.net, pb.req, route))
  {
    ReachesAvoids(pb, route);
    CoveredOrPending(pb, s, route);
    if Pending(pb, s, route) {
      PendingBoundsKey(pb, s, route);
    }
    j := CoveringDestination(pb, s, Final(pb.net, pb.req, route));
  }

  lemma {:induction false} PendingBoundsKey(pb: Problem, s: State, route: seq<Arc>)
    requires Ready(s) && Sorted(s.arena, s.frontier)
    requires Replay(pb.net, pb.req, route).Some? && Pending(pb, s, route)
    ensures s.frontier != [] && KeyLeq(s.arena[s.frontier[0]].mark, Final(pb.net, pb.req, route))
  {
    var f: nat, n: nat :| PendingAt(pb, s, route, f, n);
    HeadIsLeast(s.arena, s.frontier, f);
    ReplayPrefix(pb.net, pb.req, route, n);
    var prefix := Final(pb.net, pb.req, route[..n]);
    DominatesKeyLeq(s.arena[f].mark, prefix);
    KeyLeqTransitive(s.arena[f].mark, prefix, Final(pb.net, pb.req, route));
    KeyLeqTransitive(s.arena[s.frontier[0]].mark, s.arena[f].mark, Final(pb.net, pb.req, route));
  }

  lemma {:induction false} CoveringDestination(pb: Problem, s: State, l: Label) returns (j: nat)
    requires Ready(s) && Phased(s.arena, s.frontier, s.retained, s.expanded)
    requires DestinationsListed(pb, s.arena, s.expanded, s.destinations)
    requires l.port == pb.req.destination && Covered(s.arena, s.retained, l)
    ensures j < |s.destinations| && s.destinations[j] in s.retained
    ensures Dominates(s.arena[s.destinations[j]].mark, l)
  {
    var d :| d in s.retained && d < |s.arena| && SameBucket(s.arena[d].mark, l) && Dominates(s.arena[d].mark, l);
    assert d in s.destinations;
    j :| 0 <= j < |s.destinations| && s.destinations[j] == d;
  }

  lemma {:induction false} RankedHead(pb: Problem, s: State)
    requires Exact(pb) && Inv(pb, s) && Live(pb, s) && s.arena[0].origin == Root && s.frontier != []
    ensures RankedAt(pb, s.arena, s.destinations, s.arena[s.frontier[0]].mark)
  {
    forall route | Reaches(pb.net, pb.req, route)
                   && KeyLess(Final(pb.net, pb.req, route), s.arena[s.frontier[0]].mark)
      ensures DominatedByOne(s.arena, s.destinations, Final(pb.net, pb.req, route))
    {
      var j := SmallerKeyIsSettled(pb, s, route);
    }
  }

  lemma {:induction false} RankedAppend(pb: Problem, arena: Arena, destinations: seq<nat>, i: nat)
    requires Indices(arena, destinations) && i < |arena| && Ranked(pb, arena, destinations)
    requires RankedAt(pb, arena, destinations, arena[i].mark)
    ensures Ranked(pb, arena, destinations + [i])
  {
    var longer := destinations + [i];
    forall k | 0 <= k < |longer|
      ensures RankedAt(pb, arena, longer[..k], arena[longer[k]].mark)
    {
      assert longer[..k] == destinations[..k];
      if k == |destinations| {
        assert destinations[..k] == destinations;
      }
    }
  }

  lemma {:induction false} RankedGrows(pb: Problem, a: Arena, b: Arena, destinations: seq<nat>)
    requires Indices(a, destinations) && Ranked(pb, a, destinations) && a <= b
    ensures Indices(b, destinations) && Ranked(pb, b, destinations)
  {
    forall k | 0 <= k < |destinations|
      ensures RankedAt(pb, b, destinations[..k], b[destinations[k]].mark)
    {
      assert RankedAt(pb, a, destinations[..k], a[destinations[k]].mark);
      forall route | Reaches(pb.net, pb.req, route)
                     && KeyLess(Final(pb.net, pb.req, route), b[destinations[k]].mark)
        ensures DominatedByOne(b, destinations[..k], Final(pb.net, pb.req, route))
      {
        assert DominatedByOne(a, destinations[..k], Final(pb.net, pb.req, route));
        var j :| 0 <= j < k && Dominates(a[destinations[..k][j]].mark, Final(pb.net, pb.req, route));
        assert b[destinations[..k][j]] == a[destinations[..k][j]];
      }
    }
  }
}
