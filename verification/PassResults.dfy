/** What the passes of disjoint planning amount to: when a pass is refused, and how many
    candidates there can be. */
module PassResults {
  import opened Base
  import opened Network
  import opened Routes
  import opened SearchModel
  import opened PlanModel
  import opened PlanTheorems
  import opened PlannerRules
  import opened Planner

  // ----- when a pass is refused -----------------------------------------------------------

  lemma {:induction false} JoinDistinct(a: seq<Id>, b: seq<Id>)
    requires Distinct(a) && Distinct(b)
    ensures Distinct(a + b) <==> forall x | x in b :: x !in a
  {
    var all := a + b;
    if forall x | x in b :: x !in a {
      forall i, j | 0 <= i < j < |all|
        ensures all[i] != all[j]
      {
        assert j >= |a| ==> all[j] in b;
        assert i < |a| ==> all[i] in a;
      }
    } else {
      var x :| x in b && x in a;
      var i :| 0 <= i < |a| && a[i] == x;
      var j :| 0 <= j < |b| && b[j] == x;
      assert all[i] == x == all[|a| + j];
    }
  }

  /** A list of exclusions has grown too long. */
  predicate TooMany(w: Request) {
    || |w.constraints.excludedNodes| > MAX_EXCLUSIONS || |w.constraints.excludedSpans| > MAX_EXCLUSIONS
    || |w.constraints.excludedDomains| > MAX_EXCLUSIONS
  }

  /** The plan takes a node or a domain that the request excludes, which a plan may do: excluded
      domains are looked up on arcs and on the source port only. */
  ghost predicate TakesExcluded(req: Request, plan: Plan) {
    || (exists id :: id in TakenNodes(req.disjointness, plan) && id in req.constraints.excludedNodes)
    || (exists id :: id in TakenDomains(req.disjointness, plan) && id in req.constraints.excludedDomains)
  }

  lemma {:induction false} WorkingValid(req: Request, nodes: seq<Id>, spans: seq<Id>, domains: seq<Id>)
    requires Validate(req) == Accepted && NamedOnce(req, nodes, spans, domains)
    ensures var w := Working(req, nodes, spans, domains);
            Validate(w) == Accepted <==>
              && !TooMany(w) && (forall x | x in nodes :: x !in req.constraints.excludedNodes)
              && (forall x | x in domains :: x !in req.constraints.excludedDomains)
  {
    JoinDistinct(req.constraints.excludedNodes, nodes);
    JoinDistinct(req.constraints.excludedSpans, spans);
    JoinDistinct(req.constraints.excludedDomains, domains);
  }

  lemma {:induction false} TakenAreListed(req: Request, found: seq<Plan>, works: seq<Request>, nodes: seq<Id>,
                                          spans: seq<Id>, domains: seq<Id>)
    requires |found| == |works| && Covers(req, found, works, nodes, spans, domains)
    requires Sourced(req.disjointness, found, nodes, spans, domains)
    ensures (exists i :: 0 <= i < |found| && TakesExcluded(req, found[i])) <==>
              || (exists x :: x in nodes && x in req.constraints.excludedNodes)
              || (exists x :: x in domains && x in req.constraints.excludedDomains)
  {
    if i :| 0 <= i < |found| && TakesExcluded(req, found[i]) {
      assert Covering(req, found[i], works[i], nodes, spans, domains);
    }
    if x :| x in nodes && x in req.constraints.excludedNodes {
      var i :| 0 <= i < |found| && x in TakenNodes(req.disjointness, found[i]);
      assert TakesExcluded(req, found[i]);
    }
    if x :| x in domains && x in req.constraints.excludedDomains {
      var i :| 0 <= i < |found| && x in TakenDomains(req.disjointness, found[i]);
      assert TakesExcluded(req, found[i]);
    }
  }

  /** No pass asks for an exclusion twice, except in one case: the request of the next pass is
      refused exactly when a list is too long or some plan found takes a node or a domain that
      the request itself excludes. */
  lemma {:induction false} RefusedExactly(req: Request, found: seq<Plan>, works: seq<Request>, w: Request)
    requires Validate(req) == Accepted && |found| == |works| && AsksNext(req, found, works, w)
    ensures Validate(w) != Accepted <==>
              TooMany(w) || exists i :: 0 <= i < |found| && TakesExcluded(req, found[i])
  {
    var nodes, spans, domains :|
      && w == Working(req, nodes, spans, domains) && Covers(req, found, works, nodes, spans, domains)
      && Sourced(req.disjointness, found, nodes, spans, domains) && NamedOnce(req, nodes, spans, domains);
    WorkingValid(req, nodes, spans, domains);
    TakenAreListed(req, found, works, nodes, spans, domains);
  }

  /** Why a run that is not cut short by the caller has fewer candidates than asked for: exactly
      because its last request is refused, or its last search has no proven path. */
  lemma {:induction false} StopsShort(net: Snapshot, req: Request, options: Options, cancel: nat -> nat -> bool,
                                      t: Trace)
    requires Validate(req) == Accepted && |t.found| == |t.works|
    requires Ended(net, req, options, cancel, t, false, false)
    ensures |t.found| < req.maxCandidates <==> t.last.Some?
    ensures t.last.Some? ==>
              || TooMany(t.last.value)
              || (exists i :: 0 <= i < |t.found| && TakesExcluded(req, t.found[i]))
              || !AnyProven(Search(ProblemFor(net, t.last.value, options), cancel(|t.found|)).paths)
  {
    if t.last.Some? {
      RefusedExactly(req, t.found, t.works, t.last.value);
    }
  }

  /** Span-disjoint planning never asks for an exclusion twice. */
  lemma {:induction false} SpanPassesAccepted(req: Request, found: seq<Plan>, works: seq<Request>, w: Request)
    requires Validate(req) == Accepted && |found| == |works| && AsksNext(req, found, works, w)
    requires req.disjointness == SpanDisjoint
    ensures Validate(w) == Accepted <==> |w.constraints.excludedSpans| <= MAX_EXCLUSIONS
  {
    RefusedExactly(req, found, works, w);
    var nodes, spans, domains :|
      && w == Working(req, nodes, spans, domains)
      && Sourced(req.disjointness, found, nodes, spans, domains);
    SpansOnly(found, nodes, spans, domains);
    assert req.constraints.excludedNodes + [] == req.constraints.excludedNodes;
    assert req.constraints.excludedDomains + [] == req.constraints.excludedDomains;
  }

  lemma {:induction false} SpansOnly(found: seq<Plan>, nodes: seq<Id>, spans: seq<Id>, domains: seq<Id>)
    requires Sourced(SpanDisjoint, found, nodes, spans, domains)
    ensures nodes == [] && domains == []
  {
    assert forall id :: id !in nodes && id !in domains;
    EmptyWithout(nodes);
    EmptyWithout(domains);
  }

  lemma {:induction false} EmptyWithout(s: seq<Id>)
    requires forall id :: id !in s
    ensures s == []
  {
    var first := if s == [] then "" else s[0];
    assert first !in s;
  }

  // ----- domain-disjoint passes -----------------------------------------------------------

  lemma {:induction false} NoteKeys(exposure: map<Id, nat>, domains: set<Id>)
    ensures NoteDomains(exposure, domains).Keys == exposure.Keys + domains
  {}

  /** An arc adds the domains of the port it reaches to what a draft reports, and takes none away. */
  lemma {:induction false} SpanReports(net: Snapshot, req: Request, d: Draft, arc: Arc)
    requires InRange(net, arc) && arc.SpanArc? && AddSpan(net, req, d, arc).Some?
    ensures var to := Arrival(net, arc);
            to in net.ports && d.exposure.Keys + net.ports[to].domains <= AddSpan(net, req, d, arc).value.exposure.Keys
  {
    var to := Arrival(net, arc);
    var inner := NoteDomains(d.exposure, net.spans[arc.index].domains);
    NoteKeys(d.exposure, net.spans[arc.index].domains);
    NoteKeys(inner, net.ports[to].domains);
    if to.node in net.nodes {
      NoteKeys(NoteDomains(inner, net.ports[to].domains), net.nodes[to.node].domains);
    }
  }

  lemma {:induction false} CrossReports(net: Snapshot, req: Request, d: Draft, arc: Arc)
    requires InRange(net, arc) && arc.CrossArc? && AddCross(net, req, d, arc).Some?
    ensures var to := Arrival(net, arc);
            to in net.ports && d.exposure.Keys + net.ports[to].domains <= AddCross(net, req, d, arc).value.exposure.Keys
  {
    var cross := net.crossConnects[arc.index];
    var inner := NoteDomains(d.exposure, cross.domains);
    NoteKeys(d.exposure, cross.domains);
    NoteKeys(inner, net.ports[cross.to].domains);
    if cross.to.node in net.nodes {
      NoteKeys(NoteDomains(inner, net.ports[cross.to].domains), net.nodes[cross.to.node].domains);
    }
  }

  lemma {:induction false} BeginReports(net: Snapshot, req: Request)
    requires Begin(net, req).Some?
    ensures req.source in net.ports && net.ports[req.source].domains <= Begin(net, req).value.exposure.Keys
  {
    var port := net.ports[req.source];
    NoteKeys(map[], port.domains);
    if req.source.node in net.nodes {
      NoteKeys(NoteDomains(map[], port.domains), net.nodes[req.source.node].domains);
    }
  }

  ghost predicate Reported(net: Snapshot, exposure: map<Id, nat>, p: PortKey) {
    p in net.ports && net.ports[p].domains <= exposure.Keys
  }

  lemma {:induction false} ArcReports(net: Snapshot, req: Request, d: Draft, arc: Arc)
    requires AddArc(net, req, d, arc).Some?
    ensures var to := ArrivalOrNowhere(net, arc);
            to in net.ports && d.exposure.Keys + net.ports[to].domains <= AddArc(net, req, d, arc).value.exposure.Keys
  {
    if arc.SpanArc? {
      SpanReports(net, req, d, arc);
    } else {
      CrossReports(net, req, d, arc);
    }
  }

  lemma {:induction false} DraftGrows(net: Snapshot, req: Request, route: seq<Arc>, p: PortKey)
    requires route != [] && Drafted(net, req, route).Some?
    ensures var before := Drafted(net, req, route[..|route| - 1]);
            && before.Some?
            && (Reported(net, before.value.exposure, p) || p == ArrivalOrNowhere(net, route[|route| - 1]) ==>
                  Reported(net, Drafted(net, req, route).value.exposure, p))
  {
    ArcReports(net, req, Drafted(net, req, route[..|route| - 1]).value, route[|route| - 1]);
  }

  /** A plan reports the failure domains of every port its route stands on. */
  lemma {:induction false} DraftReports(net: Snapshot, req: Request, route: seq<Arc>, k: nat)
    requires Drafted(net, req, route).Some? && k <= |route|
    ensures Reported(net, Drafted(net, req, route).value.exposure, Visited(net, req.source, route)[k])
  {
    if route == [] {
      BeginReports(net, req);
    } else {
      DraftGrows(net, req, route, Visited(net, req.source, route)[k]);
      if k < |route| {
        DraftReports(net, req, route[..|route| - 1], k);
      }
    }
  }

  /** Every plan of a run reports the domains of the source and destination ports. */
  lemma {:induction false} EndsReported(net: Snapshot, req: Request, w: Request, plan: Plan, x: Id)
    requires Tightens(w, req) && Backed(net, req, w, plan)
    requires req.source in net.ports && req.destination in net.ports
    requires x in net.ports[req.source].domains || x in net.ports[req.destination].domains
    ensures x in plan.exposure
  {
    var route :| Backs(net, req, w, plan, route);
    FinalPort(net, w, route);
    AssembledExposure(net, req, route);
    DraftReports(net, req, route, 0);
    DraftReports(net, req, route, |route|);
  }

  /** If the source port lies in a failure domain, domain-disjointness returns at most one
      candidate: the second pass excludes its own start. */
  lemma {:induction false} SourceDomainOnce(net: Snapshot, req: Request, options: Options, found: seq<Plan>,
                                            works: seq<Request>)
    requires Chain(net, req, options, found, works) && req.disjointness == DomainDisjoint
    requires req.source in net.ports && req.destination in net.ports && net.ports[req.source].domains != {}
    ensures |found| <= 1
  {
    if |found| > 1 {
      var x :| x in net.ports[req.source].domains;
      assert Holds(net, req, options, works[0], found[0]) && Holds(net, req, options, works[1], found[1]);
      EndsReported(net, req, works[0], found[0], x);
      assert Later(req.disjointness, found[0], works[0], works[1]);
      var second :| Backs(net, req, works[1], found[1], second);
      StartCut(net, works[1], second, x);
    }
  }

  /** No route starts at a port in an excluded domain. */
  lemma {:induction false} StartCut(net: Snapshot, w: Request, route: seq<Arc>, x: Id)
    requires w.source in net.ports && x in net.ports[w.source].domains && x in w.constraints.excludedDomains
    ensures Replay(net, w, route).None?
  {
    if route != [] {
      StartCut(net, w, route[..|route| - 1], x);
    }
  }

  /** If the destination port lies in a domain that the request excludes, which does not keep
      routes from ending there, domain-disjointness stops after one candidate, whatever routes
      are left: the second pass would list that domain twice. */
  lemma {:induction false} ExcludedDestinationOnce(net: Snapshot, req: Request, options: Options,
                                                   cancel: nat -> nat -> bool, found: seq<Plan>, works: seq<Request>,
                                                   x: Id)
    requires Validate(req) == Accepted && req.disjointness == DomainDisjoint
    requires Chain(net, req, options, found, works) && Walked(net, req, options, cancel, found, works)
    requires req.source in net.ports && req.destination in net.ports
    requires x in net.ports[req.destination].domains && x in req.constraints.excludedDomains
    ensures |found| <= 1
  {
    if |found| > 1 {
      assert Holds(net, req, options, works[0], found[0]);
      EndsReported(net, req, works[0], found[0], x);
      assert PassDone(net, req, options, cancel, found, works, 1);
      assert found[..1][0] == found[0] && TakesExcluded(req, found[..1][0]);
      RefusedExactly(req, found[..1], works[..1], works[1]);
    }
  }
}
