/** The theorems about whole searches, from the start label to the reported paths. */
module SearchResults {
  import opened Base
  import opened Network
  import opened Rules
  import opened Routes
  import opened SearchModel
  import opened SearchInvariant
  import opened SearchTheorems
  import opened SearchOptimality
  import Cycles

  // ----- whole runs -----------------------------------------------------------------------

  /** What holds of every state a search passes through. */
  ghost predicate Kept(pb: Problem, s: State) {
    && Inv(pb, s)
    && s.arena[0].origin == Root
    && (s.status == Running ==> Live(pb, s))
    && (Exact(pb) ==> Ranked(pb, s.arena, s.destinations))
  }

  lemma {:induction false} InitialKept(pb: Problem, start: Label)
    requires Start(pb.net, pb.req) == Some(start)
    ensures Kept(pb, Initial(start))
  {
    var s := Initial(start);
    assert RouteOf(s.arena, 0) == [];
    assert SoundEntry(pb, s.arena, 0);
    assert Live(pb, s) by {
      assert forall k | 0 <= k < |s.arena| :: k in s.frontier;
    }
  }

  lemma {:induction false} TurnKept(pb: Problem, s: State, cancel: bool)
    requires Kept(pb, s) && s.frontier != [] && s.status == Running
    ensures Kept(pb, Turn(pb, s, cancel))
  {
    var r := Turn(pb, s, cancel);
    TurnKeeps(pb, s, cancel);
    assert r.arena[0] == s.arena[0];
    if Exact(pb) {
      TurnRanked(pb, s, cancel);
    }
  }

  lemma {:induction false} TurnRanked(pb: Problem, s: State, cancel: bool)
    requires Exact(pb) && Kept(pb, s) && s.frontier != [] && s.status == Running
    ensures var r := Turn(pb, s, cancel); Ranked(pb, r.arena, r.destinations)
  {
    var r := Turn(pb, s, cancel);
    RankedGrows(pb, s.arena, r.arena, s.destinations);
    if r.destinations != s.destinations {
      TurnDestinations(pb, s, cancel);
      RankedHead(pb, s);
      RankedAppend(pb, s.arena, s.destinations, s.frontier[0]);
    }
  }

  /** Only a label settled at the destination changes the destination list. */
  lemma {:induction false} TurnDestinations(pb: Problem, s: State, cancel: bool)
    requires Ready(s) && s.frontier != [] && s.status == Running
    requires Turn(pb, s, cancel).destinations != s.destinations
    ensures var r := Turn(pb, s, cancel);
            r.destinations == s.destinations + [s.frontier[0]] && r.arena == s.arena
  {}

  /** Every reachable state of every search keeps the invariant. */
  lemma {:induction false} RunKept(pb: Problem, s: State, cancel: nat -> bool, turn: nat)
    requires Kept(pb, s)
    ensures Kept(pb, Run(pb, s, cancel, turn))
    decreases if s.status == Running then 1 else 0, pb.maxExpansions - s.expansions, |s.frontier|
  {
    if !Halted(s) {
      TurnKept(pb, s, cancel(turn));
      RunKept(pb, Turn(pb, s, cancel(turn)), cancel, turn + 1);
    }
  }

  // ----- reported paths -------------------------------------------------------------------

  lemma {:induction false} PathsMember(s: State, destinations: seq<nat>, m: nat)
    requires Ready(s) && Indices(s.arena, destinations) && m < |destinations| && destinations[m] in s.retained
    ensures PathOf(s.arena, destinations[m]) in Paths(s, destinations)
  {
    var n := |destinations| - 1;
    if m < n {
      PathsMember(s, destinations[..n], m);
    }
  }

  /** Where the k-th reported path comes from, and what is reported before it. */
  lemma {:induction false} PathsOrigin(s: State, destinations: seq<nat>, k: nat) returns (m: nat)
    requires Ready(s) && Indices(s.arena, destinations) && k < |Paths(s, destinations)|
    ensures m < |destinations| && destinations[m] in s.retained
    ensures Paths(s, destinations)[k] == PathOf(s.arena, destinations[m])
    ensures Paths(s, destinations[..m]) == Paths(s, destinations)[..k]
  {
    var n := |destinations| - 1;
    var shorter := Paths(s, destinations[..n]);
    if k < |shorter| {
      m := PathsOrigin(s, destinations[..n], k);
      assert destinations[..n][..m] == destinations[..m];
    } else {
      m := n;
    }
  }

  predicate KeyAtMost(p: Path, cost: nat, hops: nat, regenerations: nat) {
    p.cost < cost || (p.cost == cost && (p.hops < hops || (p.hops == hops && p.regenerations <= regenerations)))
  }

  /** The path's key is at most the label's. */
  predicate PathKeyLeq(p: Path, l: Label) { KeyAtMost(p, l.cost, l.hops, l.regenerations) }

  /** A reported path is an admissible route to the destination with the figures it claims. */
  ghost predicate PathSound(pb: Problem, p: Path) {
    && Reaches(pb.net, pb.req, p.arcs)
    && var l := Final(pb.net, pb.req, p.arcs);
       p == Path(p.arcs, l.cost, l.hops, l.regenerations, l.proven)
  }

  lemma {:induction false} ReportedSound(pb: Problem, s: State, m: nat)
    requires Kept(pb, s) && m < |s.destinations|
    ensures PathSound(pb, PathOf(s.arena, s.destinations[m]))
  {
    var d := s.destinations[m];
    assert d in s.destinations;
    assert SoundEntry(pb, s.arena, d);
  }

  /** Soundness: every path of every search, of any kind, cut short or not, is an admissible
      route whose replay gives the cost, hops, regenerations and proof the path reports; and
      paths are reported in key order. */
  lemma {:induction false} SearchSound(pb: Problem, cancel: nat -> bool)
    ensures forall p | p in Search(pb, cancel).paths :: PathSound(pb, p)
    ensures var paths := Search(pb, cancel).paths;
            forall i, j | 0 <= i < j < |paths| ::
              KeyAtMost(paths[i], paths[j].cost, paths[j].hops, paths[j].regenerations)
  {
    match Start(pb.net, pb.req)
    case None =>
    case Some(start) =>
      var s := Run(pb, Initial(start), cancel, 0);
      InitialKept(pb, start);
      RunKept(pb, Initial(start), cancel, 0);
      var paths := Search(pb, cancel).paths;
      if s.status != Cancelled {
        forall j | 0 <= j < |paths|
          ensures PathSound(pb, paths[j])
        {
          var m := PathsOrigin(s, s.destinations, j);
          ReportedSound(pb, s, m);
        }
        forall i, j | 0 <= i < j < |paths|
          ensures KeyAtMost(paths[i], paths[j].cost, paths[j].hops, paths[j].regenerations)
        {
          PathsOrdered(pb, s, i, j);
        }
      }
  }

  lemma {:induction false} PathsOrdered(pb: Problem, s: State, i: nat, j: nat)
    requires Kept(pb, s) && i < j < |Paths(s, s.destinations)|
    ensures var paths := Paths(s, s.destinations);
            KeyAtMost(paths[i], paths[j].cost, paths[j].hops, paths[j].regenerations)
  {
    var m := PathsOrigin(s, s.destinations, j);
    var earlier := s.destinations[..m];
    var n := PathsOrigin(s, earlier, i);
    assert KeyLeq(s.arena[s.destinations[n]].mark, s.arena[s.destinations[m]].mark);
  }

  // ----- completeness ---------------------------------------------------------------------

  /** A settled destination label is dominated by one that is reported. */
  lemma {:induction false} DestinationReported(pb: Problem, s: State, m: nat) returns (c: nat)
    requires Kept(pb, s) && m < |s.destinations|
    ensures c < |s.destinations| && s.destinations[c] in s.retained
    ensures Dominates(s.arena[s.destinations[c]].mark, s.arena[s.destinations[m]].mark)
    ensures PathOf(s.arena, s.destinations[c]) in Paths(s, s.destinations)
  {
    var d := s.destinations[m];
    assert d in s.destinations;
    assert Covered(s.arena, s.retained, s.arena[d].mark);
    c := CoveringDestination(pb, s, s.arena[d].mark);
    PathsMember(s, s.destinations, c);
  }

  /** Completeness: an exhausted search that reports nothing leaves no admissible route, proven
      or not.  In particular stopping on the key bound never looks like that. */
  lemma {:induction false} SearchComplete(pb: Problem, cancel: nat -> bool, route: seq<Arc>)
    requires Exact(pb)
    requires Search(pb, cancel).exhausted && Search(pb, cancel).paths == []
    ensures !Reaches(pb.net, pb.req, route)
  {
    match Start(pb.net, pb.req)
    case None =>
      if Reaches(pb.net, pb.req, route) {
        ReplayPrefix(pb.net, pb.req, route, 0);
      }
    case Some(start) =>
      var s := Run(pb, Initial(start), cancel, 0);
      InitialKept(pb, start);
      RunKept(pb, Initial(start), cancel, 0);
      if s.destinations != [] {
        var c := DestinationReported(pb, s, 0);
      }
      StoppedHasDestination(pb, Initial(start), cancel, 0);
      if Reaches(pb.net, pb.req, route) {
        var j := SmallerKeyIsSettled(pb, s, route);
      }
  }

  /** The key bound can stop a run only after a destination label was settled. */
  lemma {:induction false} StoppedHasDestination(pb: Problem, s: State, cancel: nat -> bool, turn: nat)
    requires Ready(s) && (s.status == StoppedOnKey ==> s.destinations != [])
    ensures var r := Run(pb, s, cancel, turn); r.status == StoppedOnKey ==> r.destinations != []
    decreases if s.status == Running then 1 else 0, pb.maxExpansions - s.expansions, |s.frontier|
  {
    if !Halted(s) {
      StoppedHasDestination(pb, Turn(pb, s, cancel(turn)), cancel, turn + 1);
    }
  }

  /** Pareto completeness: a search that empties its frontier without a bound reports, for
      every admissible route, a path at least as good in every dimension. */
  lemma {:induction false} SearchPareto(pb: Problem, cancel: nat -> bool, start: Label, route: seq<Arc>)
    returns (p: Path)
    requires Exact(pb) && Start(pb.net, pb.req) == Some(start)
    requires Run(pb, Initial(start), cancel, 0).status == Running
    requires Reaches(pb.net, pb.req, route)
    ensures p in Search(pb, cancel).paths && PathSound(pb, p)
    ensures Dominates(Final(pb.net, pb.req, p.arcs), Final(pb.net, pb.req, route))
  {
    var s := Run(pb, Initial(start), cancel, 0);
    InitialKept(pb, start);
    RunKept(pb, Initial(start), cancel, 0);
    p := EmptiedPareto(pb, s, route);
    assert Search(pb, cancel).paths == Paths(s, s.destinations);
  }

  lemma {:induction false} EmptiedPareto(pb: Problem, s: State, route: seq<Arc>) returns (p: Path)
    requires Exact(pb) && Kept(pb, s) && s.status == Running && s.frontier == []
    requires Reaches(pb.net, pb.req, route)
    ensures p in Paths(s, s.destinations) && PathSound(pb, p)
    ensures Dominates(Final(pb.net, pb.req, p.arcs), Final(pb.net, pb.req, route))
  {
    var j := SmallerKeyIsSettled(pb, s, route);
    p := SettledPath(pb, s, j);
  }

  /** A retained destination label is reported, with the label its route replays to. */
  lemma {:induction false} SettledPath(pb: Problem, s: State, j: nat) returns (p: Path)
    requires Kept(pb, s) && j < |s.destinations| && s.destinations[j] in s.retained
    ensures p == PathOf(s.arena, s.destinations[j]) && p in Paths(s, s.destinations) && PathSound(pb, p)
    ensures Final(pb.net, pb.req, p.arcs) == s.arena[s.destinations[j]].mark
  {
    PathsMember(s, s.destinations, j);
    ReportedSound(pb, s, j);
    p := PathOf(s.arena, s.destinations[j]);
    assert s.destinations[j] in s.destinations;
    assert SoundEntry(pb, s.arena, s.destinations[j]);
  }

  // ----- optimality -----------------------------------------------------------------------

  /** Optimality: the first proven path reported has the least cost, hops and regenerations, in
      that order, of all proven admissible routes, whatever ended the search. */
  lemma {:induction false} SearchOptimal(pb: Problem, cancel: nat -> bool, k: nat, route: seq<Arc>)
    requires Exact(pb)
    requires var paths := Search(pb, cancel).paths;
             k < |paths| && paths[k].proven && forall i | 0 <= i < k :: !paths[i].proven
    requires Reaches(pb.net, pb.req, route) && Final(pb.net, pb.req, route).proven
    ensures PathKeyLeq(Search(pb, cancel).paths[k], Final(pb.net, pb.req, route))
  {
    var start := Start(pb.net, pb.req).value;
    var s := Run(pb, Initial(start), cancel, 0);
    InitialKept(pb, start);
    RunKept(pb, Initial(start), cancel, 0);
    var m := PathsOrigin(s, s.destinations, k);
    if KeyLess(Final(pb.net, pb.req, route), s.arena[s.destinations[m]].mark) {
      var c := EarlierReported(pb, s, m, Final(pb.net, pb.req, route));
    }
  }

  /** The same for every path: on the exact fragment an admissible route with a smaller key than
      the k-th path reported is dominated by an earlier one. */
  lemma {:induction false} SearchRanked(pb: Problem, cancel: nat -> bool, k: nat, route: seq<Arc>) returns (j: nat)
    requires Exact(pb) && k < |Search(pb, cancel).paths| && Reaches(pb.net, pb.req, route)
    requires !PathKeyLeq(Search(pb, cancel).paths[k], Final(pb.net, pb.req, route))
    ensures j < k && PathSound(pb, Search(pb, cancel).paths[j])
    ensures Dominates(Final(pb.net, pb.req, Search(pb, cancel).paths[j].arcs), Final(pb.net, pb.req, route))
  {
    var start := Start(pb.net, pb.req).value;
    var s := Run(pb, Initial(start), cancel, 0);
    InitialKept(pb, start);
    RunKept(pb, Initial(start), cancel, 0);
    assert Search(pb, cancel).paths == Paths(s, s.destinations);
    j := KeptRanked(pb, s, k, route);
  }

  lemma {:induction false} KeptRanked(pb: Problem, s: State, k: nat, route: seq<Arc>) returns (j: nat)
    requires Exact(pb) && Kept(pb, s) && k < |Paths(s, s.destinations)| && Reaches(pb.net, pb.req, route)
    requires !PathKeyLeq(Paths(s, s.destinations)[k], Final(pb.net, pb.req, route))
    ensures j < k && PathSound(pb, Paths(s, s.destinations)[j])
    ensures Dominates(Final(pb.net, pb.req, Paths(s, s.destinations)[j].arcs), Final(pb.net, pb.req, route))
  {
    var m := PathsOrigin(s, s.destinations, k);
    var c := EarlierReported(pb, s, m, Final(pb.net, pb.req, route));
    var p := SettledPath(pb, s, c);
    j := InPrefix(Paths(s, s.destinations), k, p);
  }

  lemma {:induction false} InPrefix(paths: seq<Path>, k: nat, p: Path) returns (j: nat)
    requires k <= |paths| && p in paths[..k]
    ensures j < k && paths[j] == p
  {
    j :| 0 <= j < k && paths[..k][j] == p;
  }

  lemma {:induction false} ExactWalk(pb: Problem, walk: seq<Arc>)
    requires Exact(pb) && Replay(pb.net, pb.req, walk).Some?
    ensures Restartless(pb.net, walk)
  {
    if walk != [] {
      var init, arc := walk[..|walk| - 1], walk[|walk| - 1];
      assert walk == init + [arc];
      ExactWalk(pb, init);
      StepKeepsWavelength(pb.net, pb.req, Final(pb.net, pb.req, init), arc);
      Cycles.RestartlessAppend(pb.net, init, arc);
    }
  }

  /** The optimum is one over all walks: a proven walk to the destination that visits ports more
      than once has no smaller key than the first proven path either. */
  lemma {:induction false} OptimalOverWalks(pb: Problem, cancel: nat -> bool, k: nat, walk: seq<Arc>)
    requires Exact(pb)
    requires var paths := Search(pb, cancel).paths;
             k < |paths| && paths[k].proven && forall i | 0 <= i < k :: !paths[i].proven
    requires Replay(pb.net, pb.req, walk).Some? && Final(pb.net, pb.req, walk).port == pb.req.destination
    requires WithinLimits(pb.net, pb.req, walk) && Final(pb.net, pb.req, walk).proven
    ensures PathKeyLeq(Search(pb, cancel).paths[k], Final(pb.net, pb.req, walk))
  {
    ExactWalk(pb, walk);
    Cycles.WalksNeedNoLoops(pb.net, pb.req, walk);
    SearchOptimal(pb, cancel, k, Cycles.Strip(pb.net, pb.req.source, walk));
  }

  /** A route better than the m-th settled label, and dominated by an earlier one, is dominated by
      a path reported before it. */
  lemma {:induction false} EarlierReported(pb: Problem, s: State, m: nat, l: Label) returns (c: nat)
    requires Kept(pb, s) && m < |s.destinations| && KeyLess(l, s.arena[s.destinations[m]].mark)
    requires DominatedByOne(s.arena, s.destinations[..m], l)
    ensures c < m && s.destinations[c] in s.retained && Dominates(s.arena[s.destinations[c]].mark, l)
    ensures PathOf(s.arena, s.destinations[c]) in Paths(s, s.destinations[..m])
  {
    var earlier := s.destinations[..m];
    var j :| 0 <= j < |earlier| && Dominates(s.arena[earlier[j]].mark, l);
    c := DestinationReported(pb, s, j);
    var best := s.arena[s.destinations[c]].mark;
    DominatesTransitive(best, s.arena[earlier[j]].mark, l);
    DominatesKeyLeq(best, l);
    SmallerKeyComesFirst(pb, s.arena, s.expanded, s.destinations, c, m);
    PathsMember(s, earlier, c);
  }

  lemma {:induction false} SmallerKeyComesFirst(pb: Problem, arena: Arena, expanded: set<nat>, destinations: seq<nat>,
                                                c: nat, m: nat)
    requires Indices(arena, destinations) && DestinationsListed(pb, arena, expanded, destinations)
    requires c < |destinations| && m < |destinations|
    requires KeyLess(arena[destinations[c]].mark, arena[destinations[m]].mark)
    ensures c < m
  {}
}
