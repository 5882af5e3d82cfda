/** Assembling a plan from a proven route re-derives the figures the search found for it. */
module PlanTheorems {
  import opened Base
  import opened Network
  import opened Rules
  import opened Routes
  import opened PlanModel

  // ----- channels -------------------------------------------------------------------------

  lemma {:induction false} LowestFromIsLeast(mask: set<nat>, from: nat)
    requires from <= MAX_SLOTS
    ensures match LowestFrom(mask, from)
            case None => forall x | from <= x < MAX_SLOTS :: x !in mask
            case Some(m) => from <= m < MAX_SLOTS && m in mask && forall x | from <= x < m :: x !in mask
    decreases MAX_SLOTS - from
  {
    if from < MAX_SLOTS && from !in mask {
      LowestFromIsLeast(mask, from + 1);
    }
  }

  /** The lowest slot is the least element of the mask. */
  lemma {:induction false} LowestIsLeast(mask: set<nat>, x: nat)
    requires x in mask && x < MAX_SLOTS
    ensures LowestSlot(mask).Some? && LowestSlot(mask).value in mask && LowestSlot(mask).value <= x
  {
    LowestFromIsLeast(mask, 0);
  }

  lemma {:induction false} UsableInRange(net: Snapshot, req: Request, blocked: Evidence<set<nat>>, x: nat)
    requires x in UsableStarts(net, req, blocked)
    ensures x < MAX_SLOTS
  {}

  /** A usable mask that is not empty has a lowest slot. */
  lemma {:induction false} HasLowest(net: Snapshot, req: Request, blocked: Evidence<set<nat>>, mask: set<nat>)
    requires mask != {} && mask <= UsableStarts(net, req, blocked)
    ensures LowestSlot(mask).Some?
  {
    var x :| x in mask;
    UsableInRange(net, req, blocked, x);
    LowestIsLeast(mask, x);
  }

  // ----- agreement with the search --------------------------------------------------------

  /** The running totals of a draft are those of a label. */
  predicate Agrees(d: Draft, l: Label) {
    && d.port == l.port && l.profile == Some(d.profile) && d.mask == l.mask && d.cost == l.cost
    && d.distance == l.distance && d.loss == l.loss && d.noise == l.noise && d.spanCount == l.spans
    && d.segment == l.regenerations
  }

  lemma {:induction false} StartAgrees(net: Snapshot, req: Request)
    requires Start(net, req).Some? && Start(net, req).value.proven
    ensures Begin(net, req).Some? && Agrees(Begin(net, req).value, Start(net, req).value)
  {}

  lemma {:induction false} SpanAgrees(net: Snapshot, req: Request, d: Draft, l: Label, arc: Arc)
    requires arc.SpanArc? && Agrees(d, l) && Step(net, req, l, arc).Some? && Step(net, req, l, arc).value.proven
    ensures AddArc(net, req, d, arc).Some?
    ensures Agrees(AddArc(net, req, d, arc).value, Step(net, req, l, arc).value)
  {
    HasLowest(net, req, net.ports[Arrival(net, arc)].blocked, KeptMask(net, req, l.mask, arc));
  }

  lemma {:induction false} CrossAgrees(net: Snapshot, req: Request, d: Draft, l: Label, arc: Arc)
    requires arc.CrossArc? && Agrees(d, l) && Step(net, req, l, arc).Some? && Step(net, req, l, arc).value.proven
    ensures AddArc(net, req, d, arc).Some?
    ensures Agrees(AddArc(net, req, d, arc).value, Step(net, req, l, arc).value)
  {
    var blocked := net.ports[Arrival(net, arc)].blocked;
    HasLowest(net, req, blocked, Step(net, req, l, arc).value.mask);
  }

  /** On a proven route the assembly never fails, and its totals are the replay's. */
  lemma {:induction false} DraftAgrees(net: Snapshot, req: Request, route: seq<Arc>)
    requires Replay(net, req, route).Some? && Final(net, req, route).proven
    ensures Drafted(net, req, route).Some? && Agrees(Drafted(net, req, route).value, Final(net, req, route))
  {
    if route == [] {
      StartAgrees(net, req);
    } else {
      var n := |route| - 1;
      var l := Final(net, req, route[..n]);
      StepRaisesKey(net, req, l, route[n]);
      DraftAgrees(net, req, route[..n]);
      if route[n].SpanArc? {
        SpanAgrees(net, req, Drafted(net, req, route[..n]).value, l, route[n]);
      } else {
        CrossAgrees(net, req, Drafted(net, req, route[..n]).value, l, route[n]);
      }
    }
  }

  // ----- segments -------------------------------------------------------------------------

  function SumLength(uses: seq<SpanUse>): nat {
    if uses == [] then 0 else SumLength(uses[..|uses| - 1]) + uses[|uses| - 1].length
  }

  function SumLoss(uses: seq<SpanUse>): real {
    if uses == [] then 0.0 else SumLoss(uses[..|uses| - 1]) + uses[|uses| - 1].loss
  }

  function SumNoise(uses: seq<SpanUse>): real {
    if uses == [] then 0.0 else SumNoise(uses[..|uses| - 1]) + uses[|uses| - 1].noise
  }

  /** The figures of a segment are the sums over the spans it lists. */
  ghost predicate Adds(uses: seq<SpanUse>, distance: nat, loss: real, noise: real, spanCount: nat) {
    distance == SumLength(uses) && loss == SumLoss(uses) && noise == SumNoise(uses) && spanCount == |uses|
  }

  /** A segment within its profile's published limits and the ceilings of the request. */
  ghost predicate SegmentWithin(net: Snapshot, req: Request, s: Segment) {
    var l := Label(PortKey("", ""), Some(s.profile), {}, 0, s.distance, s.loss, s.noise, s.spanCount, 0, 0, true);
    WithinReach(net, Some(s.profile), l) && WithinCeilings(req, l)
  }

  ghost predicate SegmentSound(net: Snapshot, req: Request, s: Segment) {
    Adds(s.spans, s.distance, s.loss, s.noise, s.spanCount) && SegmentWithin(net, req, s)
  }

  /** The spans listed for segment `index`, the last one or one not opened yet. */
  function OpenSpans(segments: seq<Segment>, index: nat): seq<SpanUse> {
    if |segments| == index + 1 then segments[index].spans else []
  }

  /** Segments are dense, and all before segment `index` are sound and ended by regeneration. */
  ghost predicate Dense(net: Snapshot, req: Request, segments: seq<Segment>, index: nat) {
    && index <= |segments| <= index + 1
    && (forall k | 0 <= k < |segments| :: segments[k].index == k)
    && (forall k | 0 <= k < index :: SegmentSound(net, req, segments[k]) && segments[k].regeneratedBy.Some?)
  }

  /** The list is dense, and the running totals are those of the open segment. */
  ghost predicate Shaped(net: Snapshot, req: Request, d: Draft) {
    && Dense(net, req, d.segments, d.segment)
    && Adds(OpenSpans(d.segments, d.segment), d.distance, d.loss, d.noise, d.spanCount)
  }

  lemma {:induction false} AddsAppend(uses: seq<SpanUse>, use: SpanUse, distance: nat, loss: real, noise: real, n: nat)
    requires Adds(uses, distance, loss, noise, n)
    ensures Adds(uses + [use], distance + use.length, loss + use.loss, noise + use.noise, n + 1)
  {
    assert (uses + [use])[..|uses|] == uses;
  }

  lemma {:induction false} OpenedDense(net: Snapshot, req: Request, segments: seq<Segment>, index: nat, profile: Id)
    requires Dense(net, req, segments, index)
    ensures var r := Opened(segments, index, profile);
            Dense(net, req, r, index) && |r| == index + 1 && r[index].spans == OpenSpans(segments, index)
  {}

  lemma {:induction false} AppendUseDense(net: Snapshot, req: Request, segments: seq<Segment>, index: nat, use: SpanUse)
    requires Dense(net, req, segments, index) && |segments| == index + 1
    ensures var r := AppendUse(segments, use);
            Dense(net, req, r, index) && OpenSpans(r, index) == segments[index].spans + [use]
  {}

  /** What adding a span does to the segment list and the totals. */
  lemma {:induction false} SpanEffect(net: Snapshot, req: Request, d: Draft, arc: Arc)
    requires InRange(net, arc) && arc.SpanArc? && AddSpan(net, req, d, arc).Some?
    ensures SpanPublished(net, arc) && LowestSlot(SpanMask(net, req, d.mask, arc)).Some?
    ensures var d' := AddSpan(net, req, d, arc).value;
            var use := UseOf(net, arc, LowestSlot(SpanMask(net, req, d.mask, arc)).value);
            && d'.segment == d.segment
            && d'.segments == AppendUse(Opened(d.segments, d.segment, d.profile), use)
            && d'.distance == AddWrapping(d.distance, use.length)
            && d'.loss == d.loss + use.loss && d'.noise == d.noise + use.noise && d'.spanCount == d.spanCount + 1
  {}

  lemma {:induction false} SpanShaped(net: Snapshot, req: Request, d: Draft, arc: Arc)
    requires InRange(net, arc) && arc.SpanArc? && AddSpan(net, req, d, arc).Some? && Shaped(net, req, d)
    requires d.distance + net.spans[arc.index].length.value < U64_SIZE
    ensures Shaped(net, req, AddSpan(net, req, d, arc).value)
  {
    SpanEffect(net, req, d, arc);
    var use := UseOf(net, arc, LowestSlot(SpanMask(net, req, d.mask, arc)).value);
    OpenedDense(net, req, d.segments, d.segment, d.profile);
    AppendUseDense(net, req, Opened(d.segments, d.segment, d.profile), d.segment, use);
    AddsAppend(OpenSpans(d.segments, d.segment), use, d.distance, d.loss, d.noise, d.spanCount);
  }

  /** What a cross-connect does to the segment list and the totals. */
  lemma {:induction false} CrossEffect(net: Snapshot, req: Request, d: Draft, arc: Arc)
    requires InRange(net, arc) && arc.CrossArc? && AddCross(net, req, d, arc).Some?
    ensures var d' := AddCross(net, req, d, arc).value;
            var cross := net.crossConnects[arc.index];
            if cross.op == Regenerate then
              && d'.segment == d.segment + 1 && d'.distance == 0 && d'.loss == 0.0 && d'.noise == 0.0
              && d'.spanCount == 0
              && d'.segments == CloseLast(Opened(d.segments, d.segment, d.profile), d, Some(cross.id))
            else
              && d'.segment == d.segment && d'.distance == d.distance && d'.loss == d.loss && d'.noise == d.noise
              && d'.spanCount == d.spanCount && d'.segments == d.segments
  {}

  /** Closing the open segment of a draft that agrees with a label within limits. */
  lemma {:induction false} CloseLastDense(net: Snapshot, req: Request, d: Draft, l: Label, end: Option<Id>)
    requires Shaped(net, req, d) && Agrees(d, l) && WithinReach(net, l.profile, l) && WithinCeilings(req, l)
    ensures var open := Opened(d.segments, d.segment, d.profile);
            var r := CloseLast(open, d, end);
            && |r| == d.segment + 1 && Dense(net, req, r, d.segment)
            && SegmentSound(net, req, r[d.segment]) && r[d.segment].regeneratedBy == end
            && (forall k | 0 <= k < |r| :: r[k].index == k && r[k].spans == open[k].spans)
  {
    OpenedDense(net, req, d.segments, d.segment, d.profile);
  }

  /** Closing a segment at a regeneration, and leaving it alone otherwise. */
  lemma {:induction false} CrossShaped(net: Snapshot, req: Request, d: Draft, l: Label, arc: Arc)
    requires InRange(net, arc) && arc.CrossArc? && AddCross(net, req, d, arc).Some? && Shaped(net, req, d)
    requires Agrees(d, l) && WithinReach(net, l.profile, l) && WithinCeilings(req, l)
    ensures Shaped(net, req, AddCross(net, req, d, arc).value)
  {
    CrossEffect(net, req, d, arc);
    if net.crossConnects[arc.index].op == Regenerate {
      CloseLastDense(net, req, d, l, Some(net.crossConnects[arc.index].id));
    }
  }

  // ----- limits along a replay ------------------------------------------------------------

  /** Ceilings as request validation leaves them: loss is not negative and noise is positive. */
  predicate CeilingsValid(req: Request) {
    && (req.constraints.maxLoss.Some? ==> req.constraints.maxLoss.value >= 0.0)
    && (req.constraints.maxNoise.Some? ==> req.constraints.maxNoise.value > 0.0)
  }

  /** Every replayed label keeps its profile's published limits and the request's ceilings. */
  lemma {:induction false} ReplayWithin(net: Snapshot, req: Request, route: seq<Arc>)
    requires Sealed(net) && CeilingsValid(req) && Replay(net, req, route).Some?
    ensures WithinReach(net, Final(net, req, route).profile, Final(net, req, route))
    ensures WithinCeilings(req, Final(net, req, route))
  {
    if route != [] {
      var n := |route| - 1;
      ReplayWithin(net, req, route[..n]);
      StepWithin(net, req, Final(net, req, route[..n]), route[n]);
    }
  }

  lemma {:induction false} StepWithin(net: Snapshot, req: Request, l: Label, arc: Arc)
    requires Sealed(net) && CeilingsValid(req) && Step(net, req, l, arc).Some?
    requires WithinReach(net, l.profile, l) && WithinCeilings(req, l)
    ensures var next := Step(net, req, l, arc).value; WithinReach(net, next.profile, next) && WithinCeilings(req, next)
  {}

  lemma {:induction false} DraftShaped(net: Snapshot, req: Request, route: seq<Arc>)
    requires Sealed(net) && CeilingsValid(req)
    requires Replay(net, req, route).Some? && Final(net, req, route).proven
    ensures Drafted(net, req, route).Some? && Shaped(net, req, Drafted(net, req, route).value)
  {
    DraftAgrees(net, req, route);
    if route != [] {
      var n := |route| - 1;
      var l := Final(net, req, route[..n]);
      StepRaisesKey(net, req, l, route[n]);
      DraftAgrees(net, req, route[..n]);
      DraftShaped(net, req, route[..n]);
      ArcShaped(net, req, Drafted(net, req, route[..n]).value, route[..n], route[n]);
    }
  }

  lemma {:induction false} ArcShaped(net: Snapshot, req: Request, d: Draft, init: seq<Arc>, arc: Arc)
    requires Sealed(net) && CeilingsValid(req) && Replay(net, req, init).Some?
    requires Agrees(d, Final(net, req, init)) && Shaped(net, req, d)
    requires Step(net, req, Final(net, req, init), arc).Some? && AddArc(net, req, d, arc).Some?
    ensures Shaped(net, req, AddArc(net, req, d, arc).value)
  {
    if arc.SpanArc? {
      SpanShaped(net, req, d, arc);
    } else {
      ReplayWithin(net, req, init);
      CrossShaped(net, req, d, Final(net, req, init), arc);
    }
  }

  // ----- failure-domain exposure ----------------------------------------------------------

  /** Express cross-connects of the route do not leave their node. */
  ghost predicate ExpressStaysInNode(net: Snapshot, route: seq<Arc>) {
    forall k | 0 <= k < |route| && InRange(net, route[k]) && route[k].CrossArc?
               && net.crossConnects[route[k].index].op == Express ::
      Departure(net, route[k]).node == Arrival(net, route[k]).node
  }

  lemma {:induction false} BeginExposure(net: Snapshot, req: Request, x: Id)
    requires Begin(net, req).Some?
    ensures MemberCount(Begin(net, req).value.exposure, x) == DomainCount(net, req.source, [], x)
  {}

  lemma {:induction false} NoteCounts(exposure: map<Id, nat>, domains: set<Id>, x: Id)
    ensures MemberCount(NoteDomains(exposure, domains), x) == MemberCount(exposure, x) + Member(x, domains)
  {}

  lemma {:induction false} SpanExposure(net: Snapshot, req: Request, d: Draft, arc: Arc, x: Id)
    requires InRange(net, arc) && arc.SpanArc? && AddSpan(net, req, d, arc).Some? && d.port == Departure(net, arc)
    ensures MemberCount(AddSpan(net, req, d, arc).value.exposure, x)
            == MemberCount(d.exposure, x) + ArcMembers(net, x, arc)
  {
    var span, to := net.spans[arc.index], Arrival(net, arc);
    NoteCounts(d.exposure, span.domains, x);
    NoteCounts(NoteDomains(d.exposure, span.domains), net.ports[to].domains, x);
    var noted := NoteDomains(NoteDomains(d.exposure, span.domains), net.ports[to].domains);
    var d' := AddSpan(net, req, d, arc).value;
    assert d'.exposure == if to.node == d.port.node || to.node !in net.nodes then noted
                          else NoteDomains(noted, net.nodes[to.node].domains);
  }

  lemma {:induction false} CrossExposure(net: Snapshot, req: Request, d: Draft, arc: Arc, x: Id)
    requires InRange(net, arc) && arc.CrossArc? && AddCross(net, req, d, arc).Some? && d.port == Departure(net, arc)
    ensures var cross := net.crossConnects[arc.index];
            MemberCount(AddCross(net, req, d, arc).value.exposure, x) == MemberCount(d.exposure, x) +
              if cross.op == Express then Member(x, cross.domains) + PortMember(net, x, cross.to)
              else ArcMembers(net, x, arc)
  {
    var cross := net.crossConnects[arc.index];
    var target := net.ports[cross.to];
    NoteCounts(d.exposure, cross.domains, x);
    NoteCounts(NoteDomains(d.exposure, cross.domains), target.domains, x);
    var noted := NoteDomains(NoteDomains(d.exposure, cross.domains), target.domains);
    var d' := AddCross(net, req, d, arc).value;
    assert d'.exposure == if cross.op == Express || cross.to.node == d.port.node || cross.to.node !in net.nodes
                          then noted else NoteDomains(noted, net.nodes[cross.to.node].domains);
  }

  lemma {:induction false} ArcExposure(net: Snapshot, req: Request, d: Draft, arc: Arc, x: Id)
    requires InRange(net, arc) && AddArc(net, req, d, arc).Some? && d.port == Departure(net, arc)
    ensures var added := MemberCount(AddArc(net, req, d, arc).value.exposure, x) - MemberCount(d.exposure, x);
            && 0 <= added <= ArcMembers(net, x, arc)
            && ((arc.CrossArc? && net.crossConnects[arc.index].op == Express ==>
                  Departure(net, arc).node == Arrival(net, arc).node)
                ==> added == ArcMembers(net, x, arc))
  {
    if arc.SpanArc? {
      SpanExposure(net, req, d, arc, x);
    } else {
      CrossExposure(net, req, d, arc, x);
    }
  }

  /** The exposure a draft reports is at most the member count the search checks, and equal to
      it when no express cross-connect leaves its node. */
  lemma {:induction false} DraftExposure(net: Snapshot, req: Request, route: seq<Arc>, x: Id)
    requires Replay(net, req, route).Some? && Drafted(net, req, route).Some? && Final(net, req, route).proven
    ensures MemberCount(Drafted(net, req, route).value.exposure, x) <= DomainCount(net, req.source, route, x)
    ensures ExpressStaysInNode(net, route) ==>
              MemberCount(Drafted(net, req, route).value.exposure, x) == DomainCount(net, req.source, route, x)
  {
    if route == [] {
      BeginExposure(net, req, x);
    } else {
      var n := |route| - 1;
      var l := Final(net, req, route[..n]);
      StepRaisesKey(net, req, l, route[n]);
      DraftAgrees(net, req, route[..n]);
      DraftExposure(net, req, route[..n], x);
      ArcExposure(net, req, Drafted(net, req, route[..n]).value, route[n], x);
    }
  }

  // ----- whole plans ----------------------------------------------------------------------

  /** Replay agreement: a proven route to the destination always gives a plan; its cost, hops
      and regenerations are the route's; its segments are numbered from 0, one more than there
      are regenerations, all but the last ended by one; and every segment adds up from its
      spans and is within its profile's published limits and the request's ceilings. */
  lemma {:induction false} PlanAgrees(net: Snapshot, req: Request, route: seq<Arc>)
    requires Sealed(net) && CeilingsValid(req) && Reaches(net, req, route) && Final(net, req, route).proven
    ensures Assemble(net, req, route).Some?
    ensures var plan, l := Assemble(net, req, route).value, Final(net, req, route);
            && plan.totalCost == l.cost && plan.hops == l.hops == |route| && plan.regenerations == l.regenerations
            && |plan.segments| == l.regenerations + 1
            && (forall k | 0 <= k < |plan.segments| ::
                  && plan.segments[k].index == k && SegmentSound(net, req, plan.segments[k])
                  && (plan.segments[k].regeneratedBy.Some? <==> k < l.regenerations))
  {
    var l := Final(net, req, route);
    FinalPort(net, req, route);
    DraftAgrees(net, req, route);
    DraftShaped(net, req, route);
    ReplayWithin(net, req, route);
    CloseLastDense(net, req, Drafted(net, req, route).value, l, None);
    ReplayPortExists(net, req, route);
  }

  lemma {:induction false} ReplayPortExists(net: Snapshot, req: Request, route: seq<Arc>)
    requires Replay(net, req, route).Some?
    ensures Final(net, req, route).port in net.ports
  {}

  lemma {:induction false} AssembledExposure(net: Snapshot, req: Request, route: seq<Arc>)
    requires Assemble(net, req, route).Some?
    ensures Drafted(net, req, route).Some?
    ensures Assemble(net, req, route).value.exposure == Drafted(net, req, route).value.exposure
  {}

  /** A published plan meets every declared member limit. */
  lemma {:induction false} PlanWithinLimits(net: Snapshot, req: Request, route: seq<Arc>, x: Id)
    requires Reaches(net, req, route) && Final(net, req, route).proven && Assemble(net, req, route).Some?
    requires req.source != req.destination
    requires x in req.constraints.memberLimits
    ensures MemberCount(Assemble(net, req, route).value.exposure, x) <= req.constraints.memberLimits[x]
  {
    FinalPort(net, req, route);
    AssembledExposure(net, req, route);
    DraftExposure(net, req, route, x);
    assert DomainCount(net, req.source, route, x) <= req.constraints.memberLimits[x];
  }

  // ----- spectrum -------------------------------------------------------------------------

  /** The reservations of a route, read off the labels it replays to: one per span, at the
      lowest slot the route still has there. */
  function ReservationsOf(net: Snapshot, req: Request, route: seq<Arc>): seq<Reservation>
    requires Replay(net, req, route).Some?
  {
    if route == [] then []
    else
      var n := |route| - 1;
      var l := Final(net, req, route);
      ReservationsOf(net, req, route[..n])
      + (match route[n]
         case SpanArc(i, _) =>
           [Reservation(ForSpan(net.spans[i].id), var slot := LowestSlot(l.mask); if slot.Some? then slot.value else 0,
                        req.width, l.regenerations)]
         case CrossArc(_) => [])
  }

  lemma {:induction false} SpanReserves(net: Snapshot, req: Request, d: Draft, l: Label, arc: Arc)
    requires arc.SpanArc? && Agrees(d, l) && Step(net, req, l, arc).Some? && AddArc(net, req, d, arc).Some?
    ensures var l' := Step(net, req, l, arc).value;
            && LowestSlot(l'.mask).Some?
            && AddArc(net, req, d, arc).value.reservations ==
               d.reservations + [Reservation(ForSpan(net.spans[arc.index].id), LowestSlot(l'.mask).value, req.width,
                                             l'.regenerations)]
  {
    assert SpanMask(net, req, d.mask, arc) == KeptMask(net, req, l.mask, arc);
  }

  lemma {:induction false} CrossReserves(net: Snapshot, req: Request, d: Draft, arc: Arc)
    requires InRange(net, arc) && arc.CrossArc? && AddCross(net, req, d, arc).Some?
    ensures AddCross(net, req, d, arc).value.reservations == d.reservations
  {}

  /** A plan reserves exactly what the labels of its route say. */
  lemma {:induction false} PlanReserves(net: Snapshot, req: Request, route: seq<Arc>)
    requires Replay(net, req, route).Some? && Final(net, req, route).proven && Drafted(net, req, route).Some?
    ensures Drafted(net, req, route).value.reservations == ReservationsOf(net, req, route)
  {
    if route != [] {
      var n := |route| - 1;
      var l := Final(net, req, route[..n]);
      StepRaisesKey(net, req, l, route[n]);
      DraftAgrees(net, req, route[..n]);
      PlanReserves(net, req, route[..n]);
      if route[n].SpanArc? {
        SpanReserves(net, req, Drafted(net, req, route[..n]).value, l, route[n]);
      } else {
        CrossReserves(net, req, Drafted(net, req, route[..n]).value, route[n]);
      }
    }
  }

  /** No arc from position `i` up to `j` changes the wavelength. */
  ghost predicate OneRun(net: Snapshot, route: seq<Arc>, i: nat, j: nat)
    requires i <= j <= |route|
  {
    forall k | i <= k < j :: InRange(net, route[k]) && KeepsWavelength(net, route[k])
  }

  lemma {:induction false} StepMask(net: Snapshot, req: Request, l: Label, arc: Arc)
    requires Step(net, req, l, arc).Some?
    ensures var mask := Step(net, req, l, arc).value.mask;
            && mask <= UsableStarts(net, req, net.ports[Arrival(net, arc)].blocked)
            && (KeepsWavelength(net, arc) ==>
                  mask <= l.mask && mask <= UsableStarts(net, req, ArcBlocked(net, arc)))
  {}

  /** Within one wavelength run masks only shrink, the reported slots never go down, and the
      slot reported last is usable on every span, cross-connect and port of the run. */
  lemma {:induction false} RunSlots(net: Snapshot, req: Request, route: seq<Arc>, i: nat, j: nat)
    requires i <= j <= |route| && Replay(net, req, route).Some? && OneRun(net, route, i, j)
    ensures Replay(net, req, route[..i]).Some? && Replay(net, req, route[..j]).Some?
    ensures Final(net, req, route[..j]).mask <= Final(net, req, route[..i]).mask
    ensures var first := LowestSlot(Final(net, req, route[..i]).mask);
            var last := LowestSlot(Final(net, req, route[..j]).mask);
            && first.Some? && last.Some? && first.value <= last.value
            && last.value in Final(net, req, route[..i]).mask
    ensures var last := LowestSlot(Final(net, req, route[..j]).mask);
            forall k | i <= k < j ::
              && last.value in UsableStarts(net, req, ArcBlocked(net, route[k]))
              && Arrival(net, route[k]) in net.ports
              && last.value in UsableStarts(net, req, net.ports[Arrival(net, route[k])].blocked)
    decreases j - i
  {
    ReplayPrefix(net, req, route, i);
    ReplayPrefix(net, req, route, j);
    MaskHasLowest(net, req, route[..j]);
    MaskHasLowest(net, req, route[..i]);
    var last := LowestSlot(Final(net, req, route[..j]).mask).value;
    LowestFromIsLeast(Final(net, req, route[..j]).mask, 0);
    if i < j {
      assert route[..i + 1][..i] == route[..i];
      RunSlots(net, req, route, i + 1, j);
      StepMask(net, req, Final(net, req, route[..i]), route[i]);
    }
    LowestIsLeast(Final(net, req, route[..i]).mask, last);
  }

  lemma {:induction false} LowestOfPart(whole: set<nat>, part: set<nat>)
    requires part <= whole && LowestSlot(whole).Some? && LowestSlot(part).Some?
    ensures LowestSlot(whole) == LowestSlot(part) <==> LowestSlot(whole).value in part
  {
    LowestFromIsLeast(whole, 0);
    LowestFromIsLeast(part, 0);
  }

  /** The slot reported at the start of a run is the one reported at its end exactly when it is
      still usable there; otherwise the plan shows two slots for one wavelength. */
  lemma {:induction false} RunKeepsSlot(net: Snapshot, req: Request, route: seq<Arc>, i: nat, j: nat)
    requires i <= j <= |route| && Replay(net, req, route).Some? && OneRun(net, route, i, j)
    ensures Replay(net, req, route[..i]).Some? && Replay(net, req, route[..j]).Some?
    ensures var first := LowestSlot(Final(net, req, route[..i]).mask);
            var last := LowestSlot(Final(net, req, route[..j]).mask);
            first.Some? && (first == last <==> first.value in Final(net, req, route[..j]).mask)
  {
    RunSlots(net, req, route, i, j);
    LowestOfPart(Final(net, req, route[..i]).mask, Final(net, req, route[..j]).mask);
  }

  lemma {:induction false} MaskHasLowest(net: Snapshot, req: Request, route: seq<Arc>)
    requires Replay(net, req, route).Some?
    ensures LowestSlot(Final(net, req, route).mask).Some?
  {
    FinalPort(net, req, route);
    if route == [] {
      HasLowest(net, req, net.ports[req.source].blocked, Final(net, req, route).mask);
    } else {
      var n := |route| - 1;
      StepMask(net, req, Final(net, req, route[..n]), route[n]);
      HasLowest(net, req, net.ports[Arrival(net, route[n])].blocked, Final(net, req, route).mask);
    }
  }

  /** A usable start is a start of free slots: within the model, and none of them blocked. */
  lemma {:induction false} StartIsFree(net: Snapshot, req: Request, blocked: set<nat>, start: nat, slot: nat)
    requires start in UsableStarts(net, req, Known(blocked)) && start <= slot < start + req.width
    ensures slot < net.slotCount && slot !in blocked
  {
    var free := SlotRange(net.slotCount) - blocked;
    assert ChannelFits(free, start, req.width);
    assert slot in free;
  }
}
