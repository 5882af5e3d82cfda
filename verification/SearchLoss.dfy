/** What a search can lose, whatever operations and member limits the request has: a route goes
    missing only where a better label was refused the same step, by a member limit or by a loop
    through an arc that restarts a wavelength. */
module SearchLoss {
  import opened Base
  import opened Network
  import opened Rules
  import opened Routes
  import opened SearchModel
  import opened SearchInvariant
  import opened SearchTheorems
  import opened SearchOptimality
  import opened SearchResults

  /** A retained label that is at least as good as a prefix of the route, and could not follow
      it: the search refuses its own route with the next arc. */
  ghost predicate LosesAt(pb: Problem, s: State, route: seq<Arc>, j: nat, n: nat)
    requires Ready(s)
  {
    && j in s.retained && j < |s.arena| && n < |route| && Replay(pb.net, pb.req, route[..n]).Some?
    && SameBucket(s.arena[j].mark, Final(pb.net, pb.req, route[..n]))
    && Dominates(s.arena[j].mark, Final(pb.net, pb.req, route[..n]))
    && Refused(pb, RouteOf(s.arena, j) + [route[n]])
  }

  /** A walk the step rules allow, but that breaks a member limit, or closes a loop and restarts
      a wavelength on the way. */
  ghost predicate Refused(pb: Problem, walk: seq<Arc>) {
    && Replay(pb.net, pb.req, walk).Some?
    && (!WithinLimits(pb.net, pb.req, walk)
        || (!PortSimple(pb.net, pb.req.source, walk) && !Restartless(pb.net, walk)))
  }

  ghost predicate Loses(pb: Problem, s: State, route: seq<Arc>)
    requires Ready(s)
  {
    exists j: nat, n: nat :: LosesAt(pb, s, route, j, n)
  }

  lemma {:induction false} LosesLonger(pb: Problem, s: State, init: seq<Arc>, arc: Arc)
    requires Ready(s) && Loses(pb, s, init)
    ensures Loses(pb, s, init + [arc])
  {
    var j: nat, n: nat :| LosesAt(pb, s, init, j, n);
    assert (init + [arc])[..n] == init[..n] && (init + [arc])[n] == init[n];
    assert LosesAt(pb, s, init + [arc], j, n);
  }

  /** A step open to a retained label but not taken is a loss, or leads where it has been with a
      label that was at least as good. */
  lemma {:induction false} RefusedStep(pb: Problem, s: State, j: nat, arc: Arc) returns (loses: bool)
    requires Sealed(pb.net) && Inv(pb, s) && j in s.retained && j < |s.arena|
    requires Step(pb.net, pb.req, s.arena[j].mark, arc).Some? && Extend(pb.net, pb.req, s.arena, j, arc).None?
    ensures loses ==> Refused(pb, RouteOf(s.arena, j) + [arc])
    ensures !loses ==> Covered(s.arena, s.retained, Step(pb.net, pb.req, s.arena[j].mark, arc).value)
  {
    var route := RouteOf(s.arena, j);
    assert SoundEntry(pb, s.arena, j);
    ReplayAppend(pb.net, pb.req, route, arc);
    if Backtracks(s.arena[j], arc) {
      BacktrackIsLoop(pb, s.arena, j, arc);
    }
    loses := true;
    if WithinLimits(pb.net, pb.req, route + [arc]) {
      LoopRepeats(pb, s.arena, j, arc);
      if Restartless(pb.net, route + [arc]) {
        loses := false;
        LoopComesBack(pb, s, j, arc);
      }
    }
  }

  lemma {:induction false} LoopRepeats(pb: Problem, arena: Arena, j: nat, arc: Arc)
    requires Sound(pb, arena) && j < |arena| && Step(pb.net, pb.req, arena[j].mark, arc).Some?
    requires OnPath(arena, j, Step(pb.net, pb.req, arena[j].mark, arc).value.port)
    ensures !PortSimple(pb.net, pb.req.source, RouteOf(arena, j) + [arc])
  {
    var route := RouteOf(arena, j);
    var p := Step(pb.net, pb.req, arena[j].mark, arc).value.port;
    StepRaisesKey(pb.net, pb.req, arena[j].mark, arc);
    OnPathIsVisited(pb, arena, j, p);
    VisitedAppend(pb.net, pb.req.source, route, arc);
    var ports := Visited(pb.net, pb.req.source, route + [arc]);
    var k :| 0 <= k <= |route| && Visited(pb.net, pb.req.source, route)[k] == p;
    assert ports[k] == p == ports[|route| + 1];
  }

  lemma {:induction false} LoopComesBack(pb: Problem, s: State, j: nat, arc: Arc)
    requires Sealed(pb.net) && Inv(pb, s) && j in s.retained && j < |s.arena|
    requires Step(pb.net, pb.req, s.arena[j].mark, arc).Some?
    requires OnPath(s.arena, j, Step(pb.net, pb.req, s.arena[j].mark, arc).value.port)
    requires Restartless(pb.net, RouteOf(s.arena, j) + [arc])
    ensures Covered(s.arena, s.retained, Step(pb.net, pb.req, s.arena[j].mark, arc).value)
  {
    var mark := s.arena[j].mark;
    var next := Step(pb.net, pb.req, mark, arc).value;
    RestartlessParent(pb.net, RouteOf(s.arena, j), arc);
    var a := ChainDominates(pb, s, j, next.port);
    StepInflates(pb.net, pb.req, mark, arc);
    DominatesTransitive(s.arena[a].mark, mark, next);
    assert Covered(s.arena, s.retained, s.arena[a].mark);
    CoverDown(s.arena, s.retained, s.arena[a].mark, next);
  }

  /** In any live state every admissible route is covered by a retained label, or some waiting
      label is at least as good as one of its prefixes, or it was lost. */
  lemma {:induction false} CoveredPendingOrLost(pb: Problem, s: State, route: seq<Arc>)
    requires Sealed(pb.net) && Inv(pb, s) && Live(pb, s) && s.arena[0].origin == Root
    requires Admissible(pb.net, pb.req, route) && AvoidsDestination(pb, route)
    ensures Covered(s.arena, s.retained, Final(pb.net, pb.req, route)) || Pending(pb, s, route) || Loses(pb, s, route)
    decreases |route|
  {
    if route == [] {
      RootCoveredOrPending(pb, s);
    } else {
      var m := |route| - 1;
      assert route == route[..m] + [route[m]];
      PrefixAvoids(pb, route, m);
      CoveredPendingOrLost(pb, s, route[..m]);
      if Loses(pb, s, route[..m]) {
        LosesLonger(pb, s, route[..m], route[m]);
      } else if Pending(pb, s, route[..m]) {
        PendingGrows(pb, s, route[..m], route[m]);
      } else {
        CoverFollows(pb, s, route);
      }
    }
  }

  lemma {:induction false} CoverFollows(pb: Problem, s: State, route: seq<Arc>)
    requires Sealed(pb.net) && Inv(pb, s) && Live(pb, s)
    requires route != [] && Replay(pb.net, pb.req, route).Some?
    requires var init := route[..|route| - 1];
             && Replay(pb.net, pb.req, init).Some? && Covered(s.arena, s.retained, Final(pb.net, pb.req, init))
             && Final(pb.net, pb.req, init).port != pb.req.destination
    ensures Covered(s.arena, s.retained, Final(pb.net, pb.req, route)) || Pending(pb, s, route) || Loses(pb, s, route)
  {
    var m := |route| - 1;
    var arc := route[m];
    var before, after := Final(pb.net, pb.req, route[..m]), Final(pb.net, pb.req, route);
    var j :| j in s.retained && j < |s.arena| && SameBucket(s.arena[j].mark, before)
             && Dominates(s.arena[j].mark, before);
    StepMonotone(pb.net, pb.req, s.arena[j].mark, before, arc);
    var loses, child := StepFollows(pb, s, j, arc);
    if loses {
      assert LosesAt(pb, s, route, j, m);
    } else if child.Some? {
      PendingWhole(pb, s, route, child.value);
    } else {
      CoverDown(s.arena, s.retained, Step(pb.net, pb.req, s.arena[j].mark, arc).value, after);
    }
  }

  /** A step open to a retained label was refused, or is waiting, or is covered. */
  lemma {:induction false} StepFollows(pb: Problem, s: State, j: nat, arc: Arc)
    returns (loses: bool, child: Option<nat>)
    requires Sealed(pb.net) && Inv(pb, s) && Live(pb, s)
    requires j in s.retained && j < |s.arena| && s.arena[j].mark.port != pb.req.destination
    requires Step(pb.net, pb.req, s.arena[j].mark, arc).Some?
    ensures loses ==> Refused(pb, RouteOf(s.arena, j) + [arc])
    ensures !loses && child.Some? ==>
              child.value in s.frontier && Step(pb.net, pb.req, s.arena[j].mark, arc) == Some(s.arena[child.value].mark)
    ensures !loses && child.None? ==>
              Covered(s.arena, s.retained, Step(pb.net, pb.req, s.arena[j].mark, arc).value)
  {
    loses, child := false, None;
    if Extend(pb.net, pb.req, s.arena, j, arc).Some? {
      var c := ChildOf(pb, s, j, arc);
      if c in s.frontier {
        child := Some(c);
      }
    } else {
      loses := RefusedStep(pb, s, j, arc);
    }
  }

  /** Any search that empties its frontier without a bound reports, for every admissible route, a
      path at least as good in every dimension, or lost the route at a step it refused. */
  lemma {:induction false} ParetoOrLost(pb: Problem, cancel: nat -> bool, start: Label, route: seq<Arc>)
    requires Sealed(pb.net) && Start(pb.net, pb.req) == Some(start)
    requires Run(pb, Initial(start), cancel, 0).status == Running
    requires Reaches(pb.net, pb.req, route)
    ensures Loses(pb, Run(pb, Initial(start), cancel, 0), route) || exists p ::
              && p in Search(pb, cancel).paths && PathSound(pb, p)
              && Dominates(Final(pb.net, pb.req, p.arcs), Final(pb.net, pb.req, route))
  {
    var s := Run(pb, Initial(start), cancel, 0);
    InitialKept(pb, start);
    RunKept(pb, Initial(start), cancel, 0);
    ReachesAvoids(pb, route);
    CoveredPendingOrLost(pb, s, route);
    if !Loses(pb, s, route) {
      var p := CoveredIsReported(pb, s, Final(pb.net, pb.req, route));
      assert p in Search(pb, cancel).paths;
    }
  }

  lemma {:induction false} CoveredIsReported(pb: Problem, s: State, l: Label) returns (p: Path)
    requires Kept(pb, s) && l.port == pb.req.destination && Covered(s.arena, s.retained, l)
    ensures p in Paths(s, s.destinations) && PathSound(pb, p) && Dominates(Final(pb.net, pb.req, p.arcs), l)
  {
    var j := CoveringDestination(pb, s, l);
    p := SettledPath(pb, s, j);
  }

  /** Where an exhausted search that reports nothing lost an admissible route. */
  lemma {:induction false} EmptyMeansLost(pb: Problem, cancel: nat -> bool, start: Label, route: seq<Arc>)
    requires Sealed(pb.net) && Start(pb.net, pb.req) == Some(start)
    requires Search(pb, cancel).exhausted && Search(pb, cancel).paths == []
    requires Reaches(pb.net, pb.req, route)
    ensures Loses(pb, Run(pb, Initial(start), cancel, 0), route)
  {
    var s := Run(pb, Initial(start), cancel, 0);
    InitialKept(pb, start);
    RunKept(pb, Initial(start), cancel, 0);
    if s.destinations != [] {
      var c := DestinationReported(pb, s, 0);
    }
    StoppedHasDestination(pb, Initial(start), cancel, 0);
    ParetoOrLost(pb, cancel, start, route);
  }

  // ----- searches that stop on their key --------------------------------------------------

  /** The state just before the search stopped on the key of entry `i`. */
  function Resumed(r: State, i: nat): State { r.(frontier := [i] + r.frontier, status := Running) }

  /** The search stopped on the key of entry `i`, in a state that was live until then. */
  ghost predicate StoppedAt(pb: Problem, r: State, i: nat)
    requires Ready(r)
  {
    i < |r.arena| && Kept(pb, Resumed(r, i)) && KeyBoundReached(pb, r, i)
  }

  lemma {:induction false} TurnStops(pb: Problem, s: State, cancel: bool)
    requires Kept(pb, s) && s.status == Running && s.frontier != []
    ensures var r := Turn(pb, s, cancel); r.status == StoppedOnKey ==> StoppedAt(pb, r, s.frontier[0])
  {
    TurnResumes(pb, s, cancel);
  }

  lemma {:induction false} TurnResumes(pb: Problem, s: State, cancel: bool)
    requires Ready(s) && s.status == Running && s.frontier != []
    ensures var r := Turn(pb, s, cancel);
            r.status == StoppedOnKey ==>
              s.frontier[0] < |r.arena| && Resumed(r, s.frontier[0]) == s && KeyBoundReached(pb, r, s.frontier[0])
  {
    assert s.frontier == [s.frontier[0]] + s.frontier[1..];
  }

  lemma {:induction false} RunStops(pb: Problem, s: State, cancel: nat -> bool, turn: nat) returns (i: nat)
    requires Kept(pb, s) && s.status == Running
    ensures var r := Run(pb, s, cancel, turn); r.status == StoppedOnKey ==> StoppedAt(pb, r, i)
    decreases pb.maxExpansions - s.expansions, |s.frontier|
  {
    i := 0;
    if s.frontier != [] {
      var t := Turn(pb, s, cancel(turn));
      TurnKept(pb, s, cancel(turn));
      TurnStops(pb, s, cancel(turn));
      i := s.frontier[0];
      if t.status == Running {
        i := RunStops(pb, t, cancel, turn + 1);
      }
    }
  }

  /** A stopped search has covered or lost every route whose key is below the one it stopped on. */
  lemma {:induction false} StopCovers(pb: Problem, r: State, i: nat, route: seq<Arc>)
    requires Sealed(pb.net) && Ready(r) && StoppedAt(pb, r, i) && Reaches(pb.net, pb.req, route)
    requires KeyLess(Final(pb.net, pb.req, route), r.arena[i].mark)
    ensures Loses(pb, r, route) || Covered(r.arena, r.retained, Final(pb.net, pb.req, route))
  {
    var s := Resumed(r, i);
    ReachesAvoids(pb, route);
    CoveredPendingOrLost(pb, s, route);
    if Pending(pb, s, route) {
      PendingBoundsKey(pb, s, route);
    }
    if Loses(pb, s, route) {
      var j: nat, n: nat :| LosesAt(pb, s, route, j, n);
      assert LosesAt(pb, r, route, j, n);
    }
  }

  /** What a search that claims a proven optimum has done with a route better than its last
      settled destination label: reported something as good, or lost it. */
  lemma {:induction false} ClaimCovers(pb: Problem, cancel: nat -> bool, start: Label, route: seq<Arc>)
    requires Sealed(pb.net) && Start(pb.net, pb.req) == Some(start) && Search(pb, cancel).provedOptimum
    requires Reaches(pb.net, pb.req, route)
    ensures var r := Run(pb, Initial(start), cancel, 0);
            || Loses(pb, r, route) || Covered(r.arena, r.retained, Final(pb.net, pb.req, route))
            || (r.destinations != []
                && KeyLeq(r.arena[r.destinations[|r.destinations| - 1]].mark, Final(pb.net, pb.req, route)))
  {
    var r := Run(pb, Initial(start), cancel, 0);
    InitialKept(pb, start);
    RunKept(pb, Initial(start), cancel, 0);
    var i := RunStops(pb, Initial(start), cancel, 0);
    if r.status == StoppedOnKey {
      if KeyLess(Final(pb.net, pb.req, route), r.arena[i].mark) {
        StopCovers(pb, r, i, route);
      } else {
        KeyLeqTransitive(r.arena[r.destinations[|r.destinations| - 1]].mark, r.arena[i].mark,
                         Final(pb.net, pb.req, route));
      }
    } else {
      ReachesAvoids(pb, route);
      CoveredPendingOrLost(pb, r, route);
    }
  }

  /** Whenever a search claims a proven optimum, whatever ended it, its first proven path is least
      among the proven admissible routes that were not lost. */
  lemma {:induction false} OptimalOrLost(pb: Problem, cancel: nat -> bool, start: Label, k: nat, route: seq<Arc>)
    requires Sealed(pb.net) && Start(pb.net, pb.req) == Some(start) && Search(pb, cancel).provedOptimum
    requires var paths := Search(pb, cancel).paths;
             k < |paths| && paths[k].proven && forall i | 0 <= i < k :: !paths[i].proven
    requires Reaches(pb.net, pb.req, route) && Final(pb.net, pb.req, route).proven
    ensures Loses(pb, Run(pb, Initial(start), cancel, 0), route)
            || PathKeyLeq(Search(pb, cancel).paths[k], Final(pb.net, pb.req, route))
  {
    var r, l := Run(pb, Initial(start), cancel, 0), Final(pb.net, pb.req, route);
    InitialKept(pb, start);
    RunKept(pb, Initial(start), cancel, 0);
    ClaimCovers(pb, cancel, start, route);
    if !Loses(pb, r, route) {
      if Covered(r.arena, r.retained, l) {
        CoveredNotBelow(pb, cancel, r, k, l);
      } else {
        LastNotBelow(pb, r, k, l);
      }
    }
  }

  lemma {:induction false} CoveredNotBelow(pb: Problem, cancel: nat -> bool, r: State, k: nat, l: Label)
    requires Kept(pb, r) && Search(pb, cancel).paths == Paths(r, r.destinations)
    requires var paths := Search(pb, cancel).paths;
             k < |paths| && paths[k].proven && forall i | 0 <= i < k :: !paths[i].proven
    requires l.proven && l.port == pb.req.destination && Covered(r.arena, r.retained, l)
    ensures PathKeyLeq(Search(pb, cancel).paths[k], l)
  {
    var p := CoveredIsReported(pb, r, l);
    DominatesKeyLeq(Final(pb.net, pb.req, p.arcs), l);
    FirstNotBelow(pb, cancel, k, p);
    KeyAtMostFollows(Search(pb, cancel).paths[k], p, l);
  }

  /** The first proven path is not above any other proven one. */
  lemma {:induction false} FirstNotBelow(pb: Problem, cancel: nat -> bool, k: nat, p: Path)
    requires var paths := Search(pb, cancel).paths;
             k < |paths| && p in paths && p.proven && forall i | 0 <= i < k :: !paths[i].proven
    ensures KeyAtMost(Search(pb, cancel).paths[k], p.cost, p.hops, p.regenerations)
  {
    var paths := Search(pb, cancel).paths;
    var q :| 0 <= q < |paths| && paths[q] == p;
    SearchSound(pb, cancel);
    assert k <= q;
  }

  lemma {:induction false} KeyAtMostFollows(first: Path, p: Path, l: Label)
    requires KeyAtMost(first, p.cost, p.hops, p.regenerations) && PathKeyLeq(p, l)
    ensures PathKeyLeq(first, l)
  {}

  lemma {:induction false} LastNotBelow(pb: Problem, r: State, k: nat, l: Label)
    requires Kept(pb, r) && k < |Paths(r, r.destinations)| && r.destinations != []
    requires KeyLeq(r.arena[r.destinations[|r.destinations| - 1]].mark, l)
    ensures PathKeyLeq(Paths(r, r.destinations)[k], l)
  {
    var n := |r.destinations| - 1;
    var m := PathsOrigin(r, r.destinations, k);
    if m < n {
      KeyLeqTransitive(r.arena[r.destinations[m]].mark, r.arena[r.destinations[n]].mark, l);
    }
  }

  // ----- the exact fragment ---------------------------------------------------------------

  /** On the exact fragment nothing is ever lost, whatever the state of the search. */
  lemma {:induction false} ExactLosesNothing(pb: Problem, s: State, route: seq<Arc>)
    requires Exact(pb) && Ready(s)
    ensures !Loses(pb, s, route)
  {
    forall j: nat, n: nat
      ensures !LosesAt(pb, s, route, j, n)
    {
      if LosesAt(pb, s, route, j, n) {
        ExactRefusesNothing(pb, RouteOf(s.arena, j) + [route[n]]);
      }
    }
  }

  lemma {:induction false} ExactRefusesNothing(pb: Problem, walk: seq<Arc>)
    requires Exact(pb)
    ensures !Refused(pb, walk)
  {
    if Replay(pb.net, pb.req, walk).Some? {
      SlackWithinLimits(pb, walk);
      ExactWalk(pb, walk);
    }
  }
}
