/** Removing repeated ports from an arc sequence. */
module Cycles {
  import opened Network
  import opened Rules
  import opened Routes

  /** Each arc departs from the port the one before it reached. */
  ghost predicate Connected(net: Snapshot, source: PortKey, arcs: seq<Arc>) {
    forall k | 0 <= k < |arcs| ::
      InRange(net, arcs[k]) && Departure(net, arcs[k]) == Visited(net, source, arcs)[k]
  }

  /** What an arc costs: itself, the port it reaches and the node it enters. */
  function ArcCharge(net: Snapshot, arc: Arc): nat {
    if !InRange(net, arc) then 0
    else
      var to := Arrival(net, arc);
      ArcCost(net, arc) + (if to in net.ports then net.ports[to].transitCost else 0)
      + TransitionCost(net, Departure(net, arc), to)
  }

  function WalkCharge(net: Snapshot, arcs: seq<Arc>): nat {
    if arcs == [] then 0 else WalkCharge(net, arcs[..|arcs| - 1]) + ArcCharge(net, arcs[|arcs| - 1])
  }

  lemma {:induction false} ChargePrefix(net: Snapshot, arcs: seq<Arc>, n: nat)
    requires n <= |arcs|
    ensures WalkCharge(net, arcs[..n]) <= WalkCharge(net, arcs)
  {
    if n == |arcs| {
      assert arcs[..n] == arcs;
    } else {
      assert arcs[..|arcs| - 1][..n] == arcs[..n];
      ChargePrefix(net, arcs[..|arcs| - 1], n);
    }
  }

  lemma {:induction false} ChargeAppend(net: Snapshot, arcs: seq<Arc>, arc: Arc)
    ensures WalkCharge(net, arcs + [arc]) == WalkCharge(net, arcs) + ArcCharge(net, arc)
  {
    assert (arcs + [arc])[..|arcs|] == arcs;
  }

  /** Extending a connected, port-simple walk by an arc to a new port. */
  lemma {:induction false} ExtendWalk(net: Snapshot, source: PortKey, output: seq<Arc>, arc: Arc)
    requires InRange(net, arc) && PortSimple(net, source, output)
    requires Arrival(net, arc) !in Visited(net, source, output)
    ensures Visited(net, source, output + [arc]) == Visited(net, source, output) + [Arrival(net, arc)]
    ensures Visited(net, source, output + [arc])[|output| + 1] == Arrival(net, arc)
    ensures PortSimple(net, source, output + [arc])
    ensures Connected(net, source, output) && Departure(net, arc) == Visited(net, source, output)[|output|] ==>
              Connected(net, source, output + [arc])
  {
    VisitedAppend(net, source, output, arc);
  }

  lemma {:induction false} CutWalk(net: Snapshot, source: PortKey, output: seq<Arc>, n: nat)
    requires n <= |output| && PortSimple(net, source, output)
    ensures Visited(net, source, output[..n]) == Visited(net, source, output)[..n + 1]
    ensures PortSimple(net, source, output[..n])
    ensures Connected(net, source, output) ==> Connected(net, source, output[..n])
    ensures WalkCharge(net, output[..n]) <= WalkCharge(net, output)
  {
    VisitedPrefix(net, source, output, n);
    ChargePrefix(net, output, n);
  }

  /** Position of a port in the visited list, or its length. */
  method FindPort(visited: seq<PortKey>, p: PortKey) returns (position: nat)
    ensures position <= |visited| && p !in visited[..position]
    ensures position < |visited| ==> visited[position] == p
  {
    position := 0;
    while position < |visited| && visited[position] != p
      invariant position <= |visited| && p !in visited[..position]
    {
      position := position + 1;
    }
  }

  /** What `output` owes to the first `k` arcs: a port-simple walk that costs no more and is no
      longer, connected to the same port when they are, and the same arcs when they are simple. */
  ghost predicate Stripped(net: Snapshot, source: PortKey, arcs: seq<Arc>, k: nat, output: seq<Arc>) {
    && k <= |arcs| && |output| <= k
    && PortSimple(net, source, output)
    && WalkCharge(net, output) <= WalkCharge(net, arcs[..k])
    && Joined(net, source, arcs, k, output)
    && (PortSimple(net, source, arcs) ==> output == arcs[..k])
  }

  /** Connected to the port where the first `k` arcs end, if the arcs are connected. */
  ghost predicate Joined(net: Snapshot, source: PortKey, arcs: seq<Arc>, k: nat, output: seq<Arc>)
    requires k <= |arcs|
  {
    Connected(net, source, arcs) ==>
      Connected(net, source, output) && Visited(net, source, output)[|output|] == Visited(net, source, arcs)[k]
  }

  lemma {:induction false} KeptJoined(net: Snapshot, source: PortKey, arcs: seq<Arc>, k: nat, output: seq<Arc>)
    requires k < |arcs| && InRange(net, arcs[k]) && Joined(net, source, arcs, k, output)
    requires PortSimple(net, source, output) && Arrival(net, arcs[k]) !in Visited(net, source, output)
    ensures Joined(net, source, arcs, k + 1, output + [arcs[k]])
  {
    ExtendWalk(net, source, output, arcs[k]);
  }

  lemma {:induction false} CutJoined(net: Snapshot, source: PortKey, arcs: seq<Arc>, k: nat, output: seq<Arc>, n: nat)
    requires k < |arcs| && InRange(net, arcs[k]) && Joined(net, source, arcs, k, output)
    requires PortSimple(net, source, output)
    requires n <= |output| && Visited(net, source, output)[n] == Arrival(net, arcs[k])
    ensures Joined(net, source, arcs, k + 1, output[..n])
  {
    CutWalk(net, source, output, n);
  }

  lemma {:induction false} StripKeeps(net: Snapshot, source: PortKey, arcs: seq<Arc>, k: nat, output: seq<Arc>)
    requires Stripped(net, source, arcs, k, output) && k < |arcs| && InRange(net, arcs[k])
    requires Arrival(net, arcs[k]) !in Visited(net, source, output)
    ensures Stripped(net, source, arcs, k + 1, output + [arcs[k]])
    ensures Visited(net, source, output + [arcs[k]]) == Visited(net, source, output) + [Arrival(net, arcs[k])]
  {
    assert arcs[..k + 1] == arcs[..k] + [arcs[k]];
    ChargeAppend(net, arcs[..k], arcs[k]);
    ChargeAppend(net, output, arcs[k]);
    ExtendWalk(net, source, output, arcs[k]);
    KeptJoined(net, source, arcs, k, output);
  }

  lemma {:induction false} StripCuts(net: Snapshot, source: PortKey, arcs: seq<Arc>, k: nat, output: seq<Arc>, n: nat)
    requires Stripped(net, source, arcs, k, output) && k < |arcs| && InRange(net, arcs[k])
    requires n <= |output| && Visited(net, source, output)[n] == Arrival(net, arcs[k])
    ensures Stripped(net, source, arcs, k + 1, output[..n])
    ensures Visited(net, source, output[..n]) == Visited(net, source, output)[..n + 1]
  {
    assert arcs[..k + 1] == arcs[..k] + [arcs[k]];
    ChargeAppend(net, arcs[..k], arcs[k]);
    CutWalk(net, source, output, n);
    CutMeansRepeated(net, source, arcs, k, output, n);
    CutJoined(net, source, arcs, k, output, n);
    assert WalkCharge(net, output[..n]) <= WalkCharge(net, arcs[..k]) <= WalkCharge(net, arcs[..k + 1]);
  }

  /** Of a port-simple walk nothing is ever cut. */
  lemma {:induction false} CutMeansRepeated(net: Snapshot, source: PortKey, arcs: seq<Arc>, k: nat, output: seq<Arc>,
                                            n: nat)
    requires k < |arcs| && InRange(net, arcs[k]) && (PortSimple(net, source, arcs) ==> output == arcs[..k])
    requires n <= |output| && Visited(net, source, output)[n] == Arrival(net, arcs[k])
    ensures !PortSimple(net, source, arcs)
  {
    if PortSimple(net, source, arcs) {
      RepeatedPort(net, source, arcs, k, n);
    }
  }

  /** The first place of a port in a list, or the list's length. */
  function FirstAt(ports: seq<PortKey>, p: PortKey): (n: nat)
    ensures n <= |ports| && p !in ports[..n]
    ensures n < |ports| ==> ports[n] == p
  {
    if ports == [] || ports[0] == p then 0
    else
      var n := 1 + FirstAt(ports[1..], p);
      assert ports[..n] == [ports[0]] + ports[1..][..n - 1];
      n
  }

  lemma {:induction false} FirstIs(ports: seq<PortKey>, p: PortKey, n: nat)
    requires n <= |ports| && p !in ports[..n] && (n < |ports| ==> ports[n] == p)
    ensures FirstAt(ports, p) == n
  {}

  /** A walk goes on by an arc, back to where it was if the arc leads to a port it has visited. */
  function Onward(net: Snapshot, source: PortKey, before: seq<Arc>, arc: Arc): (output: seq<Arc>)
    ensures |output| <= |before| + 1
  {
    var at := FirstAt(Visited(net, source, before), ArrivalOrNowhere(net, arc));
    if at <= |before| then before[..at] else before + [arc]
  }

  /** A walk without its cycles. */
  function Strip(net: Snapshot, source: PortKey, walk: seq<Arc>): (output: seq<Arc>)
    ensures |output| <= |walk|
  {
    if walk == [] then [] else Onward(net, source, Strip(net, source, walk[..|walk| - 1]), walk[|walk| - 1])
  }

  lemma {:induction false} StripNext(net: Snapshot, source: PortKey, walk: seq<Arc>, k: nat)
    requires k < |walk|
    ensures Strip(net, source, walk[..k + 1]) == Onward(net, source, Strip(net, source, walk[..k]), walk[k])
  {
    assert walk[..k + 1][..k] == walk[..k];
  }

  /** Where to go on, given the first place of the arrival port among the ports visited. */
  lemma {:induction false} OnwardAt(net: Snapshot, source: PortKey, before: seq<Arc>, arc: Arc, ports: seq<PortKey>,
                                    at: nat)
    requires ports == Visited(net, source, before)
    requires var to := ArrivalOrNowhere(net, arc);
             at <= |ports| && to !in ports[..at] && (at < |ports| ==> ports[at] == to)
    ensures at < |ports| ==>
              Onward(net, source, before, arc) == before[..at] && Visited(net, source, before[..at]) == ports[..at + 1]
    ensures at == |ports| ==>
              && Onward(net, source, before, arc) == before + [arc]
              && Visited(net, source, before + [arc]) == ports + [ArrivalOrNowhere(net, arc)]
  {
    FirstIs(ports, ArrivalOrNowhere(net, arc), at);
    if at < |ports| {
      VisitedPrefix(net, source, before, at);
    } else {
      VisitedAppend(net, source, before, arc);
    }
  }

  lemma {:induction false} OnwardStripped(net: Snapshot, source: PortKey, arcs: seq<Arc>, k: nat, before: seq<Arc>)
    requires Stripped(net, source, arcs, k, before) && k < |arcs| && InRange(net, arcs[k])
    ensures Stripped(net, source, arcs, k + 1, Onward(net, source, before, arcs[k]))
  {
    var ports := Visited(net, source, before);
    var at := FirstAt(ports, Arrival(net, arcs[k]));
    if at <= |before| {
      StripCuts(net, source, arcs, k, before, at);
    } else {
      assert ports[..at] == ports;
      StripKeeps(net, source, arcs, k, before);
    }
  }

  /** Stripping the first `k` arcs leaves what is owed to them. */
  lemma {:induction false} StripSound(net: Snapshot, source: PortKey, arcs: seq<Arc>, k: nat)
    requires k <= |arcs| && forall i | 0 <= i < k :: InRange(net, arcs[i])
    ensures Stripped(net, source, arcs, k, Strip(net, source, arcs[..k]))
  {
    if k > 0 {
      StripSound(net, source, arcs, k - 1);
      StripNext(net, source, arcs, k - 1);
      OnwardStripped(net, source, arcs, k - 1, Strip(net, source, arcs[..k - 1]));
    }
  }

  /** What stripping up to an unusable arc, or to the end, amounts to for the whole walk. */
  lemma {:induction false} StripEnds(net: Snapshot, source: PortKey, arcs: seq<Arc>, k: nat)
    requires k <= |arcs| && forall i | 0 <= i < k :: InRange(net, arcs[i])
    requires k < |arcs| ==> !InRange(net, arcs[k])
    ensures Cleaned(net, source, arcs, Strip(net, source, arcs[..k]))
  {
    StripSound(net, source, arcs, k);
    ChargePrefix(net, arcs, k);
    if k == |arcs| {
      assert arcs[..k] == arcs;
    }
  }

  /** A port-simple walk that costs no more and has no more hops, with the same two ends if the
      arcs are a connected walk, and all of it if they are a port-simple one. */
  ghost predicate Cleaned(net: Snapshot, source: PortKey, arcs: seq<Arc>, output: seq<Arc>) {
    && PortSimple(net, source, output)
    && |output| <= |arcs| && WalkCharge(net, output) <= WalkCharge(net, arcs)
    && (Connected(net, source, arcs) ==>
          && Connected(net, source, output)
          && Visited(net, source, output)[|output|] == Visited(net, source, arcs)[|arcs|])
    && ((forall k | 0 <= k < |arcs| :: InRange(net, arcs[k])) && PortSimple(net, source, arcs) ==> output == arcs)
  }

  /** Goes on by one arc, and keeps the list of ports visited. */
  method GoOn(net: Snapshot, source: PortKey, before: seq<Arc>, visited: seq<PortKey>, arc: Arc)
    returns (output: seq<Arc>, visited': seq<PortKey>)
    requires InRange(net, arc) && visited == Visited(net, source, before)
    ensures output == Onward(net, source, before, arc) && visited' == Visited(net, source, output)
  {
    var to := Arrival(net, arc);
    var position := FindPort(visited, to);
    OnwardAt(net, source, before, arc, visited, position);
    if position < |visited| {
      return before[..position], visited[..position + 1];
    }
    return before + [arc], visited + [to];
  }

  /** Drops everything between two visits of a port.  From a connected walk it makes a connected
      port-simple one with the same two ends that costs no more and has no more hops; a
      port-simple walk comes back unchanged. */
  method StripCycles(net: Snapshot, source: PortKey, arcs: seq<Arc>) returns (output: seq<Arc>)
    ensures Cleaned(net, source, arcs, output)
    ensures (forall k | 0 <= k < |arcs| :: InRange(net, arcs[k])) ==> output == Strip(net, source, arcs)
  {
    output := [];
    var visited := [source];
    var k := 0;
    while k < |arcs|
      invariant k <= |arcs| && forall i | 0 <= i < k :: InRange(net, arcs[i])
      invariant output == Strip(net, source, arcs[..k]) && visited == Visited(net, source, output)
    {
      if !InRange(net, arcs[k]) {
        StripEnds(net, source, arcs, k);
        return;
      }
      StripNext(net, source, arcs, k);
      output, visited := GoOn(net, source, output, visited, arcs[k]);
      k := k + 1;
    }
    StripEnds(net, source, arcs, k);
    assert arcs[..k] == arcs;
  }

  /** A port-simple walk never meets an earlier port again. */
  lemma {:induction false} RepeatedPort(net: Snapshot, source: PortKey, arcs: seq<Arc>, k: nat, position: nat)
    requires k < |arcs| && position <= k && InRange(net, arcs[k])
    requires Visited(net, source, arcs[..k])[position] == Arrival(net, arcs[k])
    ensures !PortSimple(net, source, arcs)
  {
    VisitedPrefix(net, source, arcs, k);
    var ports := Visited(net, source, arcs);
    assert ports[position] == ports[k + 1];
  }

  // ----- removing cycles loses nothing ----------------------------------------------------

  /** Along a route without restarts labels only get worse. */
  lemma {:induction false} PrefixDominates(net: Snapshot, req: Request, route: seq<Arc>, n: nat)
    requires Sealed(net) && n <= |route| && Replay(net, req, route).Some? && Restartless(net, route)
    ensures Replay(net, req, route[..n]).Some? && Restartless(net, route[..n])
    ensures Dominates(Final(net, req, route[..n]), Final(net, req, route))
    ensures Final(net, req, route[..n]).profile == Final(net, req, route).profile
  {
    if n == |route| {
      assert route[..n] == route;
    } else {
      var init, arc := route[..|route| - 1], route[|route| - 1];
      assert route == init + [arc] && init[..n] == route[..n];
      RestartlessParent(net, init, arc);
      PrefixDominates(net, req, init, n);
      StepInflates(net, req, Final(net, req, init), arc);
      DominatesTransitive(Final(net, req, route[..n]), Final(net, req, init), Final(net, req, route));
    }
  }

  /** `route` does for `walk`: it ends on the same port under the same profile, with a label at
      least as good in every dimension and no more members of any failure domain. */
  ghost predicate Replaces(net: Snapshot, req: Request, route: seq<Arc>, walk: seq<Arc>)
    requires Replay(net, req, walk).Some?
  {
    && Replay(net, req, route).Some? && Restartless(net, route)
    && SameBucket(Final(net, req, route), Final(net, req, walk))
    && Dominates(Final(net, req, route), Final(net, req, walk))
    && forall d :: DomainCount(net, req.source, route, d) <= DomainCount(net, req.source, walk, d)
  }

  /** Cycle removal preserves: of any walk the rules admit, loops and all, that neither converts
      nor regenerates, a port-simple route is left that is at least as good in every dimension. */
  lemma {:induction false} StripReplaces(net: Snapshot, req: Request, walk: seq<Arc>)
    requires Sealed(net) && Replay(net, req, walk).Some? && Restartless(net, walk)
    ensures PortSimple(net, req.source, Strip(net, req.source, walk))
    ensures Replaces(net, req, Strip(net, req.source, walk), walk)
  {
    if walk != [] {
      var n := |walk| - 1;
      RestartlessInit(net, walk);
      StripReplaces(net, req, walk[..n]);
      OnwardReplaces(net, req, walk[..n], walk[n], walk, Strip(net, req.source, walk[..n]));
    }
  }

  lemma {:induction false} RestartlessInit(net: Snapshot, walk: seq<Arc>)
    requires walk != [] && Restartless(net, walk)
    ensures Restartless(net, walk[..|walk| - 1])
  {
    assert walk == walk[..|walk| - 1] + [walk[|walk| - 1]];
    RestartlessParent(net, walk[..|walk| - 1], walk[|walk| - 1]);
  }

  lemma {:induction false} OnwardReplaces(net: Snapshot, req: Request, init: seq<Arc>, arc: Arc, walk: seq<Arc>,
                                          before: seq<Arc>)
    requires Sealed(net) && walk == init + [arc] && Replay(net, req, walk).Some? && Restartless(net, walk)
    requires Replay(net, req, init).Some? && Replaces(net, req, before, init) && PortSimple(net, req.source, before)
    ensures var next := Onward(net, req.source, before, arc);
            PortSimple(net, req.source, next) && Replaces(net, req, next, walk)
  {
    var at := FirstAt(Visited(net, req.source, before), ArrivalOrNowhere(net, arc));
    ReplayAppend(net, req, init, arc);
    StepRaisesKey(net, req, Final(net, req, init), arc);
    if at <= |before| {
      CutReplaces(net, req, init, arc, walk, before, at);
    } else {
      ExtendWalk(net, req.source, before, arc);
      AppendReplaces(net, req, init, arc, walk, before);
    }
  }

  lemma {:induction false} CutReplaces(net: Snapshot, req: Request, init: seq<Arc>, arc: Arc, walk: seq<Arc>,
                                       before: seq<Arc>, at: nat)
    requires Sealed(net) && walk == init + [arc] && Replay(net, req, walk).Some? && Restartless(net, walk)
    requires Replay(net, req, init).Some? && Replaces(net, req, before, init)
    requires PortSimple(net, req.source, before) && at <= |before|
    requires Visited(net, req.source, before)[at] == Final(net, req, walk).port
    ensures PortSimple(net, req.source, before[..at]) && Replaces(net, req, before[..at], walk)
  {
    PrefixDominates(net, req, before, at);
    CutStands(net, req, before, at);
    LastInflates(net, req, init, arc);
    CutDominates(Final(net, req, before[..at]), Final(net, req, before), Final(net, req, init), Final(net, req, walk));
    CutCounts(net, req.source, before, at, init, arc);
  }

  lemma {:induction false} CutStands(net: Snapshot, req: Request, before: seq<Arc>, at: nat)
    requires at <= |before| && Replay(net, req, before[..at]).Some? && PortSimple(net, req.source, before)
    ensures Final(net, req, before[..at]).port == Visited(net, req.source, before)[at]
    ensures PortSimple(net, req.source, before[..at])
  {
    VisitedPrefix(net, req.source, before, at);
    FinalPort(net, req, before[..at]);
  }

  /** Extending a route without restarts makes its label worse. */
  lemma {:induction false} LastInflates(net: Snapshot, req: Request, init: seq<Arc>, arc: Arc)
    requires Sealed(net) && Replay(net, req, init + [arc]).Some? && Restartless(net, init + [arc])
    ensures Replay(net, req, init).Some? && Dominates(Final(net, req, init), Final(net, req, init + [arc]))
    ensures Final(net, req, init).profile == Final(net, req, init + [arc]).profile
  {
    RestartlessParent(net, init, arc);
    ReplayAppend(net, req, init, arc);
    StepInflates(net, req, Final(net, req, init), arc);
  }

  lemma {:induction false} CutDominates(cut: Label, before: Label, init: Label, whole: Label)
    requires Dominates(cut, before) && Dominates(before, init) && Dominates(init, whole)
    ensures Dominates(cut, whole)
  {
    DominatesTransitive(cut, before, init);
    DominatesTransitive(cut, init, whole);
  }

  lemma {:induction false} CutCounts(net: Snapshot, source: PortKey, before: seq<Arc>, at: nat, init: seq<Arc>,
                                     arc: Arc)
    requires at <= |before| && forall d :: DomainCount(net, source, before, d) <= DomainCount(net, source, init, d)
    ensures forall d :: DomainCount(net, source, before[..at], d) <= DomainCount(net, source, init + [arc], d)
  {
    assert (init + [arc])[..|init|] == init;
    forall d
      ensures DomainCount(net, source, before[..at], d) <= DomainCount(net, source, init + [arc], d)
    {
      DomainCountPrefix(net, source, before, at, d);
    }
  }

  lemma {:induction false} AppendReplaces(net: Snapshot, req: Request, init: seq<Arc>, arc: Arc, walk: seq<Arc>,
                                          before: seq<Arc>)
    requires Sealed(net) && walk == init + [arc] && Replay(net, req, walk).Some? && Restartless(net, walk)
    requires Replay(net, req, init).Some? && Replaces(net, req, before, init)
    ensures Replaces(net, req, before + [arc], walk)
  {
    var longer := before + [arc];
    RestartlessParent(net, init, arc);
    ReplayAppend(net, req, init, arc);
    StepMonotone(net, req, Final(net, req, before), Final(net, req, init), arc);
    ReplayAppend(net, req, before, arc);
    assert Final(net, req, longer) == Step(net, req, Final(net, req, before), arc).value;
    CountsAppend(net, req.source, before, init, arc);
    RestartlessAppend(net, before, arc);
  }

  lemma {:induction false} CountsAppend(net: Snapshot, source: PortKey, a: seq<Arc>, b: seq<Arc>, arc: Arc)
    requires forall d :: DomainCount(net, source, a, d) <= DomainCount(net, source, b, d)
    ensures forall d :: DomainCount(net, source, a + [arc], d) <= DomainCount(net, source, b + [arc], d)
  {
    assert (a + [arc])[..|a|] == a && (b + [arc])[..|b|] == b;
  }

  lemma {:induction false} RestartlessAppend(net: Snapshot, route: seq<Arc>, arc: Arc)
    requires Restartless(net, route) && InRange(net, arc) && KeepsWavelength(net, arc)
    ensures Restartless(net, route + [arc])
  {}

  /** The optimum over all walks is port-simple: a walk within the member limits that ends at the
      destination leaves an admissible route that is at least as good. */
  lemma {:induction false} WalksNeedNoLoops(net: Snapshot, req: Request, walk: seq<Arc>)
    requires Sealed(net) && Replay(net, req, walk).Some? && Restartless(net, walk)
    requires WithinLimits(net, req, walk) && Final(net, req, walk).port == req.destination
    ensures var route := Strip(net, req.source, walk);
            Reaches(net, req, route) && Dominates(Final(net, req, route), Final(net, req, walk))
  {
    StripReplaces(net, req, walk);
  }
}
