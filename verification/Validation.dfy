/** Checking a plan against current evidence: comparing what it is bound to, and re-deriving
    its decisions. */
module Validation {
  import opened Base
  import opened Network
  import opened Rules
  import opened PlanModel

  /** A stored plan, with the outcome of its own version and seal checks. */
  datatype Artifact = Artifact(plan: Plan, supported: bool, sealIntact: bool)

  datatype Policy = Policy(acceptRestored: bool, revalidateOnMismatch: bool)

  datatype Validity = Valid | Stale | ContentMismatch | MissingEvidence | IntegrityFailure | Unsupported | NotFresh

  datatype Report = Report(validity: Validity, mismatches: set<Id>, failures: seq<ResourceKey>, revalidated: bool)

  // ----- bindings -------------------------------------------------------------------------

  predicate SourceMatches(net: Snapshot, id: Id, bound: u64) {
    id in net.sources && net.sources[id] == bound
  }

  /** Nothing the plan is bound to has moved. */
  ghost predicate BindingsHold(a: Artifact, net: Snapshot, acceptRestored: bool) {
    && a.supported && a.sealIntact && (net.restored ==> acceptRestored)
    && (forall id | id in a.plan.boundSources :: SourceMatches(net, id, a.plan.boundSources[id]))
    && a.plan.snapshotDigest == net.digest
  }

  /** The bound sources that moved. */
  method Mismatches(net: Snapshot, bound: map<Id, u64>) returns (mismatches: set<Id>)
    ensures mismatches == set id | id in bound && !SourceMatches(net, id, bound[id])
    ensures mismatches == {} <==> forall id | id in bound :: SourceMatches(net, id, bound[id])
  {
    var left := bound.Keys;
    mismatches := {};
    while left != {}
      invariant left <= bound.Keys
      invariant forall id :: id in mismatches <==> id in bound && id !in left && !SourceMatches(net, id, bound[id])
      decreases |left|
    {
      var id :| id in left;
      if !SourceMatches(net, id, bound[id]) {
        mismatches := mismatches + {id};
      }
      left := left - {id};
    }
    forall id | id in bound && mismatches == {}
      ensures SourceMatches(net, id, bound[id])
    {
      assert id !in mismatches;
    }
  }

  /** Compares the generations and the digest a plan is bound to with the current snapshot. */
  method ValidatePlanBindings(a: Artifact, net: Snapshot, acceptRestored: bool) returns (report: Report)
    ensures !report.revalidated && report.failures == []
    ensures report.validity == Valid <==> BindingsHold(a, net, acceptRestored)
    ensures report.validity != MissingEvidence
    ensures a.supported && a.sealIntact && (net.restored ==> acceptRestored) ==>
              report.mismatches == set id | id in a.plan.boundSources
                                            && !SourceMatches(net, id, a.plan.boundSources[id])
    ensures report.validity == Stale <==> report.mismatches != {}
    ensures a.supported && a.sealIntact && net.restored && !acceptRestored ==> report.validity == NotFresh
  {
    report := Report(Unsupported, {}, [], false);
    if !a.supported {
      return;
    }
    if !a.sealIntact {
      report := report.(validity := IntegrityFailure);
      return;
    }
    if net.restored && !acceptRestored {
      report := report.(validity := NotFresh);
      return;
    }
    var mismatches := Mismatches(net, a.plan.boundSources);
    if mismatches != {} {
      return Report(Stale, mismatches, [], false);
    }
    report := Report(if a.plan.snapshotDigest == net.digest then Valid else ContentMismatch, mismatches, [], false);
  }

  // ----- names ----------------------------------------------------------------------------

  const MAX_ID_LENGTH: nat := 96

  predicate Alphanumeric(c: char) { '0' <= c <= '9' || 'a' <= c <= 'z' || 'A' <= c <= 'Z' }

  predicate IdText(text: string) {
    && 0 < |text| <= MAX_ID_LENGTH && Alphanumeric(text[0])
    && forall c | c in text :: Alphanumeric(c) || c in "_-.:/@+"
  }

  /** Position of the first colon at or after `from`, or the length of the text. */
  function Colon(text: string, from: nat): (r: nat)
    requires from <= |text|
    ensures from <= r <= |text| && (forall k | from <= k < r :: text[k] != ':')
    ensures r < |text| ==> text[r] == ':'
    decreases |text| - from
  {
    if from == |text| || text[from] == ':' then from else Colon(text, from + 1)
  }

  /** Splits a port resource at its first colon. */
  function ParsePort(text: string): Option<PortKey> {
    var colon := Colon(text, 0);
    if colon == |text| || !IdText(text[..colon]) || !IdText(text[colon + 1..]) then None
    else Some(PortKey(text[..colon], text[colon + 1..]))
  }

  /** A port key survives its text form exactly when its node id has no colon. */
  lemma {:induction false} PortTextRoundTrip(key: PortKey)
    requires IdText(key.node) && IdText(key.port)
    ensures ParsePort(ForPort(key).text) == Some(key) <==> ':' !in key.node
  {
    var text := key.node + ":" + key.port;
    var colon := Colon(text, 0);
    assert text[|key.node|] == ':';
    assert text[..|key.node|] == key.node && text[|key.node| + 1..] == key.port;
    if ':' !in key.node {
      assert forall k | 0 <= k < |key.node| :: text[k] == key.node[k];
      assert colon == |key.node|;
    } else {
      var k :| 0 <= k < |key.node| && key.node[k] == ':';
      assert text[k] == ':';
      assert colon <= k;
      assert |text[..colon]| < |key.node|;
    }
  }

  // ----- re-deriving the decisions --------------------------------------------------------

  function FindSpan(spans: seq<SpanRecord>, id: Id): Option<SpanRecord> {
    if spans == [] then None else if spans[0].id == id then Some(spans[0]) else FindSpan(spans[1..], id)
  }

  function FindCross(crosses: seq<CrossConnectRecord>, id: Id): Option<CrossConnectRecord> {
    if crosses == [] then None else if crosses[0].id == id then Some(crosses[0]) else FindCross(crosses[1..], id)
  }

  function FindReservation(reservations: seq<Reservation>, resource: ResourceKey): Option<Reservation> {
    if reservations == [] then None
    else if reservations[0].resource == resource then Some(reservations[0])
    else FindReservation(reservations[1..], resource)
  }

  predicate AdminUp(admin: Evidence<AdminState>) { admin == Known(Up) }

  /** The slots of a channel, those past the last slot ignored. */
  function Wanted(first: nat, width: nat): set<nat> {
    set slot: nat | slot < first + width && first <= slot && IsSlot(slot)
  }

  function FreeSlots(net: Snapshot, blocked: Evidence<set<nat>>): set<nat> {
    if blocked.Known? then SlotRange(net.slotCount) - blocked.value else SlotRange(net.slotCount)
  }

  /** Whether one step of the plan still holds against the snapshot. */
  predicate StepHolds(net: Snapshot, plan: Plan, step: PlanStep) {
    match step.resource.kind
    case PortKind =>
      var key := ParsePort(step.resource.text);
      key.Some? && key.value in net.ports && AdminUp(net.ports[key.value].admin)
    case NodeKind =>
      && IdText(step.resource.text) && step.resource.text in net.nodes
      && AdminUp(net.nodes[step.resource.text].admin)
    case SpanKind =>
      var span := FindSpan(net.spans, step.resource.text);
      var reservation := FindReservation(plan.reservations, step.resource);
      && IdText(step.resource.text) && span.Some? && AdminUp(span.value.admin) && reservation.Some?
      && Wanted(reservation.value.firstSlot, reservation.value.width) <=
         ChannelStarts(FreeSlots(net, span.value.blocked), 1)
    case CrossConnectKind =>
      var cross := FindCross(net.crossConnects, step.resource.text);
      IdText(step.resource.text) && cross.Some? && AdminUp(cross.value.admin)
    case ProfileKind => true
  }

  /** Recomputes a segment from the records of the spans it names. */
  function Recomputed(net: Snapshot, uses: seq<SpanUse>): (u64, real, real, nat) {
    if uses == [] then (0, 0.0, 0.0, 0)
    else
      var before := Recomputed(net, uses[..|uses| - 1]);
      match FindSpan(net.spans, uses[|uses| - 1].id)
      case None => before
      case Some(span) =>
        (AddWrapping(before.0, ValueOr(span.length, 0)), before.1 + ValueOr(span.loss, 0.0),
         before.2 + ValueOr(span.noise, 0.0), before.3 + 1)
  }

  predicate Near(a: real, b: real) { a - b <= LOSS_TOLERANCE && b - a <= LOSS_TOLERANCE }

  predicate SegmentReproduces(net: Snapshot, segment: Segment) {
    var r := Recomputed(net, segment.spans);
    r.0 == segment.distance && Near(r.1, segment.loss) && r.2 == segment.noise && r.3 == segment.spanCount
  }

  /** What a revalidation reports: no failures exactly when every step and every segment
      reproduces, and the validity that the bindings and the failures call for. */
  ghost predicate Reports(a: Artifact, net: Snapshot, policy: Policy, report: Report) {
    && (report.revalidated ==>
          (report.failures == [] <==>
             && (forall k | 0 <= k < |a.plan.steps| :: StepHolds(net, a.plan, a.plan.steps[k]))
             && (forall k | 0 <= k < |a.plan.segments| :: SegmentReproduces(net, a.plan.segments[k]))))
    && (report.validity == Valid <==>
          BindingsHold(a, net, policy.acceptRestored) && report.revalidated && report.failures == [])
    && (report.validity == MissingEvidence <==>
          BindingsHold(a, net, policy.acceptRestored) && report.revalidated && report.failures != [])
    && (BindingsHold(a, net, policy.acceptRestored) ==> report.revalidated)
  }

  /** Re-derives a plan's decisions.  A plan whose bindings hold stays Valid exactly when every
      step and every segment reproduces, and becomes MissingEvidence otherwise. */
  method RevalidatePlan(a: Artifact, net: Snapshot, policy: Policy) returns (report: Report)
    ensures Reports(a, net, policy, report)
  {
    report := ValidatePlanBindings(a, net, policy.acceptRestored);
    if report.validity != Valid && !policy.revalidateOnMismatch {
      return;
    }
    var failures: seq<ResourceKey> := [];
    for k := 0 to |a.plan.steps|
      invariant failures == [] <==> forall i | 0 <= i < k :: StepHolds(net, a.plan, a.plan.steps[i])
    {
      if !StepHolds(net, a.plan, a.plan.steps[k]) {
        failures := failures + [a.plan.steps[k].resource];
      }
    }
    for k := 0 to |a.plan.segments|
      invariant failures == [] <==>
                  && (forall i | 0 <= i < |a.plan.steps| :: StepHolds(net, a.plan, a.plan.steps[i]))
                  && (forall i | 0 <= i < k :: SegmentReproduces(net, a.plan.segments[i]))
    {
      var segment := a.plan.segments[k];
      var sums: (u64, real, real, nat) := (0, 0.0, 0.0, 0);
      for n := 0 to |segment.spans|
        invariant sums == Recomputed(net, segment.spans[..n])
      {
        assert segment.spans[..n + 1][..n] == segment.spans[..n];
        var span := FindSpan(net.spans, segment.spans[n].id);
        if span.Some? {
          sums := (AddWrapping(sums.0, ValueOr(span.value.length, 0)), sums.1 + ValueOr(span.value.loss, 0.0),
                   sums.2 + ValueOr(span.value.noise, 0.0), sums.3 + 1);
        }
      }
      assert segment.spans[..|segment.spans|] == segment.spans;
      if sums.0 != segment.distance || sums.3 != segment.spanCount || !Near(sums.1, segment.loss)
         || sums.2 != segment.noise {
        failures := failures + [ForProfile(segment.profile)];
      }
    }
    report := report.(failures := failures, revalidated := true);
    if failures != [] && report.validity == Valid {
      report := report.(validity := MissingEvidence);
    }
  }
}
