/** What makes a route proven, and which conflicts count. */
module Publication {
  import opened Base
  import opened Network
  import opened Rules
  import opened Routes

  /** Everything the `k`-th arc of a route needs is published. */
  ghost predicate ArcPublished(net: Snapshot, req: Request, route: seq<Arc>, k: nat)
    requires k < |route| && Replay(net, req, route[..k]).Some?
  {
    && Exists(net, route[k]) && ArcClear(net, route[k])
    && (route[k].SpanArc? ==> ProfileClear(net, Final(net, req, route[..k]).profile))
  }

  ghost predicate AllPublished(net: Snapshot, req: Request, route: seq<Arc>) {
    && req.source in net.ports && PortClear(net, req.source) && TransmitProfile(net, req.source).Some?
    && forall k: nat | k < |route| ::
         Replay(net, req, route[..k]).Some? && ArcPublished(net, req, route, k)
  }

  /** A replayed route is proven exactly when everything along it is published: at the source,
      on every arc and port, and for every segment a profile with an OSNR floor. */
  lemma {:induction false} ProvenExactly(net: Snapshot, req: Request, route: seq<Arc>)
    requires Replay(net, req, route).Some?
    ensures Final(net, req, route).proven <==> AllPublished(net, req, route)
  {
    if route != [] {
      var n := |route| - 1;
      ProvenExactly(net, req, route[..n]);
      PublishedGrows(net, req, route);
    }
  }

  /** What is published at a position does not depend on what follows. */
  lemma {:induction false} PrefixPublished(net: Snapshot, req: Request, route: seq<Arc>, n: nat, k: nat)
    requires k < n <= |route| && Replay(net, req, route[..k]).Some?
    ensures route[..n][..k] == route[..k]
    ensures ArcPublished(net, req, route[..n], k) <==> ArcPublished(net, req, route, k)
  {
    assert route[..n][..k] == route[..k];
  }

  lemma {:induction false} PublishedGrows(net: Snapshot, req: Request, route: seq<Arc>)
    requires Replay(net, req, route).Some? && route != []
    ensures var n := |route| - 1;
            AllPublished(net, req, route) <==>
            AllPublished(net, req, route[..n]) && ArcPublished(net, req, route, n)
  {
    SamePublished(net, req, route, |route| - 1);
    ReplayPrefix(net, req, route, |route| - 1);
  }

  lemma {:induction false} SamePublished(net: Snapshot, req: Request, route: seq<Arc>, n: nat)
    requires Replay(net, req, route).Some? && n <= |route|
    ensures forall k: nat | k < n ::
              && Replay(net, req, route[..k]).Some? && route[..n][..k] == route[..k]
              && (ArcPublished(net, req, route[..n], k) <==> ArcPublished(net, req, route, k))
  {
    forall k: nat | k < n
      ensures Replay(net, req, route[..k]).Some? && route[..n][..k] == route[..k]
      ensures ArcPublished(net, req, route[..n], k) <==> ArcPublished(net, req, route, k)
    {
      ReplayPrefix(net, req, route, k);
      PrefixPublished(net, req, route, n, k);
    }
  }

  /** Only cross-connect conflicts. */
  predicate OnlyCrosses(keys: set<ResourceKey>) { forall k | k in keys :: k.kind == CrossConnectKind }

  function Marked(net: Snapshot, keys: set<ResourceKey>): Snapshot { net.(conflicted := net.conflicted + keys) }

  /** Conflicting cross-connect records change nothing about any route, not even its proof. */
  lemma {:induction false} CrossConflictsIgnored(net: Snapshot, req: Request, keys: set<ResourceKey>, route: seq<Arc>)
    requires OnlyCrosses(keys)
    ensures Replay(Marked(net, keys), req, route) == Replay(net, req, route)
  {
    if route == [] {
      ClearIgnores(net, keys, req.source);
      UsableIgnores(net, req, keys);
    } else {
      var n := |route| - 1;
      CrossConflictsIgnored(net, req, keys, route[..n]);
      if Replay(net, req, route[..n]).Some? {
        StepIgnores(net, req, keys, Replay(net, req, route[..n]).value, route[n]);
      }
    }
  }

  lemma {:induction false} UsableIgnores(net: Snapshot, req: Request, keys: set<ResourceKey>)
    ensures forall b :: UsableStarts(Marked(net, keys), req, b) == UsableStarts(net, req, b)
  {}

  lemma {:induction false} ClearIgnores(net: Snapshot, keys: set<ResourceKey>, p: PortKey)
    requires OnlyCrosses(keys)
    ensures p in net.ports ==> (PortClear(Marked(net, keys), p) <==> PortClear(net, p))
  {
    assert ForPort(p) !in keys && ForNode(p.node) !in keys;
  }

  lemma {:induction false} ArcIgnores(net: Snapshot, req: Request, keys: set<ResourceKey>, mask: set<nat>, arc: Arc)
    requires OnlyCrosses(keys) && Exists(net, arc)
    ensures ArcClear(Marked(net, keys), arc) <==> ArcClear(net, arc)
    ensures KeptMask(Marked(net, keys), req, mask, arc) == KeptMask(net, req, mask, arc)
  {
    UsableIgnores(net, req, keys);
    ClearIgnores(net, keys, Arrival(net, arc));
    if arc.SpanArc? {
      assert ForSpan(net.spans[arc.index].id) !in keys;
    }
  }

  lemma {:induction false} SpanStepIgnores(net: Snapshot, req: Request, keys: set<ResourceKey>, l: Label, arc: Arc,
                                           cost: u64)
    requires OnlyCrosses(keys) && Exists(net, arc) && arc.SpanArc?
    ensures SpanStep(Marked(net, keys), req, l, arc, cost) == SpanStep(net, req, l, arc, cost)
  {
    ArcIgnores(net, req, keys, l.mask, arc);
  }

  lemma {:induction false} CrossStepIgnores(net: Snapshot, req: Request, keys: set<ResourceKey>, l: Label, arc: Arc,
                                            cost: u64)
    requires OnlyCrosses(keys) && Exists(net, arc) && arc.CrossArc?
    ensures CrossStep(Marked(net, keys), req, l, arc, cost) == CrossStep(net, req, l, arc, cost)
  {
    ArcIgnores(net, req, keys, l.mask, arc);
    UsableIgnores(net, req, keys);
  }

  lemma {:induction false} GateIgnores(net: Snapshot, req: Request, keys: set<ResourceKey>, cost: u64, arc: Arc)
    requires Exists(net, arc)
    ensures Passable(Marked(net, keys), req, arc) <==> Passable(net, req, arc)
    ensures StepCost(Marked(net, keys), cost, arc) == StepCost(net, cost, arc)
  {}

  lemma {:induction false} StepIgnores(net: Snapshot, req: Request, keys: set<ResourceKey>, l: Label, arc: Arc)
    requires OnlyCrosses(keys)
    ensures Step(Marked(net, keys), req, l, arc) == Step(net, req, l, arc)
  {
    if Exists(net, arc) {
      GateIgnores(net, req, keys, l.cost, arc);
      if StepCost(net, l.cost, arc).Some? {
        var cost := StepCost(net, l.cost, arc).value;
        if arc.SpanArc? {
          SpanStepIgnores(net, req, keys, l, arc, cost);
        } else {
          CrossStepIgnores(net, req, keys, l, arc, cost);
        }
      }
    }
  }

  /** A route over a span with conflicting records is never proven. */
  lemma {:induction false} SpanConflictUnproves(net: Snapshot, req: Request, route: seq<Arc>, k: nat)
    requires Replay(net, req, route).Some? && k < |route| && route[k].SpanArc?
    requires route[k].index < |net.spans| && ForSpan(net.spans[route[k].index].id) in net.conflicted
    ensures !Final(net, req, route).proven
  {
    ProvenExactly(net, req, route);
    ReplayPrefix(net, req, route, k);
  }
}
