/** Routes as arc sequences: the label a route replays to, the ports it stands on and the
    failure-domain members it uses.  This is the reference the search is measured against:
    no queue, no pruning, just every arc sequence and the step rules. */
module Routes {
  import opened Base
  import opened Network
  import opened Rules

  /** Folds the step rules over a route, starting at the source port. */
  function Replay(net: Snapshot, req: Request, route: seq<Arc>): Option<Label> {
    if route == [] then Start(net, req)
    else
      match Replay(net, req, route[..|route| - 1])
      case None => None
      case Some(l) => Step(net, req, l, route[|route| - 1])
  }

  function ArrivalOrNowhere(net: Snapshot, arc: Arc): PortKey {
    if InRange(net, arc) then Arrival(net, arc) else PortKey("", "")
  }

  /** The ports a route stands on, in order. */
  function Visited(net: Snapshot, source: PortKey, route: seq<Arc>): (ports: seq<PortKey>)
    ensures |ports| == |route| + 1
  {
    [source] + seq(|route|, i requires 0 <= i < |route| => ArrivalOrNowhere(net, route[i]))
  }

  /** No port is visited twice. */
  ghost predicate PortSimple(net: Snapshot, source: PortKey, route: seq<Arc>) {
    Distinct(Visited(net, source, route))
  }

  // ----- failure-domain members -----------------------------------------------------------

  function Member(d: Id, domains: set<Id>): nat { if d in domains then 1 else 0 }

  function PortMember(net: Snapshot, d: Id, p: PortKey): nat {
    if p in net.ports then Member(d, net.ports[p].domains) else 0
  }

  function NodeMember(net: Snapshot, d: Id, node: Id): nat {
    if node in net.nodes then Member(d, net.nodes[node].domains) else 0
  }

  /** Members of `d` that one more arc adds: the arc, the port it reaches and the node it enters. */
  function ArcMembers(net: Snapshot, d: Id, arc: Arc): nat {
    if !InRange(net, arc) then 0
    else
      var from, to := Departure(net, arc), Arrival(net, arc);
      Member(d, ArcDomains(net, arc)) + PortMember(net, d, to)
      + (if to.node != from.node then NodeMember(net, d, to.node) else 0)
  }

  function DomainCount(net: Snapshot, source: PortKey, route: seq<Arc>, d: Id): nat {
    if route == [] then PortMember(net, d, source) + NodeMember(net, d, source.node)
    else DomainCount(net, source, route[..|route| - 1], d) + ArcMembers(net, d, route[|route| - 1])
  }

  /** Every declared member limit holds.  A route without arcs is never checked. */
  predicate WithinLimits(net: Snapshot, req: Request, route: seq<Arc>) {
    route != [] ==>
      forall d | d in req.constraints.memberLimits ::
        DomainCount(net, req.source, route, d) <= req.constraints.memberLimits[d]
  }

  // ----- admissible routes ----------------------------------------------------------------

  /** A port-simple route the rules admit. */
  ghost predicate Admissible(net: Snapshot, req: Request, route: seq<Arc>) {
    && Replay(net, req, route).Some?
    && PortSimple(net, req.source, route)
    && WithinLimits(net, req, route)
  }

  /** An admissible route that ends on the destination port. */
  ghost predicate Reaches(net: Snapshot, req: Request, route: seq<Arc>) {
    Admissible(net, req, route) && Replay(net, req, route).value.port == req.destination
  }

  /** The label a route ends in. */
  function Final(net: Snapshot, req: Request, route: seq<Arc>): Label
    requires Replay(net, req, route).Some?
  {
    Replay(net, req, route).value
  }

  // ----- facts about routes ---------------------------------------------------------------

  lemma {:induction false} VisitedAppend(net: Snapshot, source: PortKey, route: seq<Arc>, arc: Arc)
    ensures Visited(net, source, route + [arc]) == Visited(net, source, route) + [ArrivalOrNowhere(net, arc)]
  {}

  lemma {:induction false} VisitedPrefix(net: Snapshot, source: PortKey, route: seq<Arc>, n: nat)
    requires n <= |route|
    ensures Visited(net, source, route[..n]) == Visited(net, source, route)[..n + 1]
  {}

  lemma {:induction false} ReplayAppend(net: Snapshot, req: Request, route: seq<Arc>, arc: Arc)
    ensures Replay(net, req, route + [arc]) ==
            match Replay(net, req, route)
            case None => None
            case Some(l) => Step(net, req, l, arc)
  {
    assert (route + [arc])[..|route|] == route;
  }

  /** A replayed label stands on the last port its route visits. */
  lemma {:induction false} FinalPort(net: Snapshot, req: Request, route: seq<Arc>)
    requires Replay(net, req, route).Some?
    ensures Final(net, req, route).port == Visited(net, req.source, route)[|route|]
    ensures Final(net, req, route).hops == |route|
    ensures |route| <= req.maxHops || route == []
    ensures Final(net, req, route).regenerations <= req.maxRegenerations
    ensures Final(net, req, route).mask != {}
  {
    if route != [] {
      FinalPort(net, req, route[..|route| - 1]);
    }
  }

  /** Prefixes of replayable routes replay, and keys never go down along a route. */
  lemma {:induction false} ReplayPrefix(net: Snapshot, req: Request, route: seq<Arc>, n: nat)
    requires n <= |route| && Replay(net, req, route).Some?
    ensures Replay(net, req, route[..n]).Some?
    ensures KeyLeq(Final(net, req, route[..n]), Final(net, req, route))
    ensures Final(net, req, route).proven ==> Final(net, req, route[..n]).proven
  {
    if n == |route| {
      assert route[..n] == route;
    } else {
      var init := route[..|route| - 1];
      assert init[..n] == route[..n];
      ReplayPrefix(net, req, init, n);
      StepRaisesKey(net, req, Final(net, req, init), route[|route| - 1]);
    }
  }

  /** Member counts only grow along a route, so a prefix of a route within limits is too. */
  lemma {:induction false} DomainCountPrefix(net: Snapshot, source: PortKey, route: seq<Arc>, n: nat, d: Id)
    requires n <= |route|
    ensures DomainCount(net, source, route[..n], d) <= DomainCount(net, source, route, d)
  {
    if n == |route| {
      assert route[..n] == route;
    } else {
      assert route[..|route| - 1][..n] == route[..n];
      DomainCountPrefix(net, source, route[..|route| - 1], n, d);
    }
  }

  lemma {:induction false} AdmissiblePrefix(net: Snapshot, req: Request, route: seq<Arc>, n: nat)
    requires n <= |route| && Admissible(net, req, route)
    ensures Admissible(net, req, route[..n])
  {
    ReplayPrefix(net, req, route, n);
    VisitedPrefix(net, req.source, route, n);
    forall d | d in req.constraints.memberLimits && route[..n] != []
      ensures DomainCount(net, req.source, route[..n], d) <= req.constraints.memberLimits[d]
    {
      DomainCountPrefix(net, req.source, route, n, d);
    }
  }

  // ----- routes that keep their wavelength ------------------------------------------------

  /** No arc of the route converts or regenerates. */
  ghost predicate Restartless(net: Snapshot, route: seq<Arc>) {
    forall k | 0 <= k < |route| :: InRange(net, route[k]) && KeepsWavelength(net, route[k])
  }

  lemma {:induction false} RestartlessParent(net: Snapshot, route: seq<Arc>, arc: Arc)
    requires Restartless(net, route + [arc])
    ensures Restartless(net, route) && InRange(net, arc) && KeepsWavelength(net, arc)
  {
    assert (route + [arc])[|route|] == arc;
    forall k | 0 <= k < |route|
      ensures InRange(net, route[k]) && KeepsWavelength(net, route[k])
    {
      assert (route + [arc])[k] == route[k];
    }
  }
}
