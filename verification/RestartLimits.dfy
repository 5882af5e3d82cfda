/** A search that claims a proven optimum although a loop through a restarted wavelength has cost
    it a far cheaper route. */
module RestartLimits {
  import opened Base
  import opened Network
  import opened Rules
  import opened Routes
  import opened SearchModel
  import opened SearchInvariant
  import opened SearchLimits

  /** The ring with a dear second way from q to d, open to every route. */
  function Bypass(op: Op): Snapshot {
    Ring(op).(spans := Ring(op).spans + [Span("7", "q", "d", 10, {}, {}, 100)],
              spanArcs := Ring(op).spanArcs[At("q") := [SpanArc(3, false), SpanArc(4, false)]])
  }

  ghost predicate IsBypass(net: Snapshot, op: Op) {
    && IsRing(net, op) && SpanIs(net, 4, Span("7", "q", "d", 10, {}, {}, 100)) && net.coverageComplete
    && OutgoingArcs(net, At("q")) == [CrossArc(0), SpanArc(3, false), SpanArc(4, false)]
  }

  /** The destination by way of q and the dear span. */
  function DearMark(op: Op): Label { Mark("d", {0, 1} - BlockedIn(op), 101, Long(op) + 10, 2, 2, 0) }

  /** Start, q, r, p by way of q, d by way of q, p by way of r. */
  function DearArena(op: Op): Arena {
    RingArena(op)[..4] + [Entry(DearMark(op), From(1, SpanArc(4, false))), RingArena(op)[4]]
  }

  // ----- one extension after another ------------------------------------------------------

  /** An extension does not depend on what else is in the arena. */
  lemma {:induction false} YieldsFrame(pb: Problem, a: Arena, b: Arena, i: nat, arc: Arc, r: Option<Label>)
    requires Yields(pb, a, i, arc, r) && a <= b && Linked(b)
    ensures Yields(pb, b, i, arc, r)
  {
    assert Unfold(true);
    ExtendFrame(pb, a, b, i, arc);
  }

  lemma {:induction false} DearYields(net: Snapshot, op: Op)
    requires IsBypass(net, op)
    ensures Yields(Small(net, map[]), RingArena(op)[..4], 1, SpanArc(4, false), Some(DearMark(op)))
  {
    var arena := RingArena(op)[..4];
    RingMasks(op);
    assert ({0, 1} - BlockedIn(op)) - {} == {0, 1} - BlockedIn(op);
    assert !OnPath(arena, 0, At("d"));
    SpanYields(net, map[], arena, 1, RingMark(op, 1), 4, "q", "d", "7", 10, {}, {}, 100, Some(DearMark(op)));
  }

  // ----- the run --------------------------------------------------------------------------

  /** A six-label arena: the start, q, r, p by way of q, the destination by way of q, p by way of r. */
  ghost predicate DearShaped(pb: Problem, arena: Arena) {
    && |arena| == 6 && pb.maxExpansions >= 6 && pb.maxLabels >= 6 && Linked(arena)
    && var l0, q, r, p, d := arena[0].mark, arena[1].mark, arena[2].mark, arena[3].mark, arena[4].mark;
       && l0.port != q.port && l0.port != r.port && l0.port != p.port
       && q.port != r.port && q.port != p.port && r.port != p.port
       && d.port == pb.req.destination != l0.port && d.port != q.port && d.port != r.port && d.port != p.port
       && KeyLess(p, r) && KeyLess(r, d) && KeyLess(arena[5].mark, d)
       && SameBucket(p, arena[5].mark) && Dominates(p, arena[5].mark)
  }

  /** The cheap way to p comes through q, which also leads to the destination at a high price. */
  lemma {:induction false} DearRun(pb: Problem, arena: Arena, qp: Arc, qd: Arc, qb: Arc, pq: Arc, rp: Arc)
    requires DearShaped(pb, arena)
    requires arena[3].origin == From(1, qp) && arena[4].origin == From(1, qb) && arena[5].origin == From(2, rp)
    requires OutgoingArcs(pb.net, arena[1].mark.port) == [qp, qd, qb]
    requires OutgoingArcs(pb.net, arena[2].mark.port) == [rp] && OutgoingArcs(pb.net, arena[3].mark.port) == [pq]
    requires Yields(pb, arena[..3], 1, qp, Some(arena[3].mark)) && Yields(pb, arena[..4], 1, qd, None)
    requires Yields(pb, arena[..4], 1, qb, Some(arena[4].mark))
    requires Yields(pb, arena[..5], 3, pq, None) && Yields(pb, arena[..5], 2, rp, Some(arena[5].mark))
    ensures Ends(pb, Begun(arena[..3]), [PathOf(arena, 4)])
  {
    var s1 := Begun(arena[..3]);
    var t1 := Alone(s1, 1);
    var u := t1.(arena := arena[..4], frontier := [3, 2]);
    var s2 := u.(arena := arena[..5], frontier := [3, 2, 4]);
    assert arena[..4] == arena[..3] + [arena[3]] && arena[..5] == arena[..4] + [arena[4]] && t1.frontier == [2];
    DearBecomes(pb, t1, u, s2, qp, qd, qb);
    DearMiddle(pb, arena, s2, pq, rp);
    EndsAfterExpansion(pb, s1, 1, [qp, qd, qb], s2, [PathOf(arena, 4)]);
  }

  lemma {:induction false} DearBecomes(pb: Problem, t1: State, u: State, s2: State, qp: Arc, qd: Arc, qb: Arc)
    requires Ready(t1) && |t1.arena| == 3 && t1.frontier == [2] && t1.status == Running && pb.maxLabels >= 6
    requires |s2.arena| == 5 && s2.arena[3].origin == From(1, qp) && s2.arena[4].origin == From(1, qb)
    requires u == t1.(arena := t1.arena + [s2.arena[3]], frontier := [3, 2])
    requires s2 == u.(arena := u.arena + [s2.arena[4]], frontier := [3, 2, 4])
    requires KeyLess(s2.arena[3].mark, t1.arena[2].mark) && KeyLess(t1.arena[2].mark, s2.arena[4].mark)
    requires Yields(pb, t1.arena, 1, qp, Some(s2.arena[3].mark)) && Yields(pb, u.arena, 1, qd, None)
    requires Yields(pb, u.arena, 1, qb, Some(s2.arena[4].mark))
    ensures Becomes(pb, t1, 1, [qp, qd, qb], s2)
  {
    Nothing(pb, s2, 1);
    DearInserts(u.arena + [s2.arena[4]]);
    Admits(pb, u, 1, qb, s2.arena[4].mark, [], s2, s2);
    Cuts(pb, u, 1, qd, [qb], s2);
    Admits(pb, t1, 1, qp, s2.arena[3].mark, [qd, qb], u, s2);
    assert [qp, qd, qb] == [qp] + [qd, qb] && [qd, qb] == [qd] + [qb] && [qb] == [qb] + [];
  }

  lemma {:induction false} DearInserts(arena: Arena)
    requires |arena| == 5 && KeyLess(arena[3].mark, arena[2].mark) && KeyLess(arena[2].mark, arena[4].mark)
    ensures Insert(arena, [3, 2], 4) == [3, 2, 4]
  {
    assert [3, 2][1..] == [2] && [2][1..] == [];
    assert Insert(arena, [], 4) == [4];
    assert Insert(arena, [2], 4) == [2] + [4];
  }

  lemma {:induction false} DearMiddle(pb: Problem, arena: Arena, s2: State, pq: Arc, rp: Arc)
    requires DearShaped(pb, arena) && arena[5].origin == From(2, rp)
    requires Fresh(pb, s2) && s2.arena == arena[..5] && s2.frontier == [3, 2, 4] && s2.expansions == 2
    requires s2.expanded == {0, 1}
    requires s2.buckets == map[KeyOf(arena[0].mark) := [0]][KeyOf(arena[1].mark) := [1]]
    requires OutgoingArcs(pb.net, arena[2].mark.port) == [rp] && OutgoingArcs(pb.net, arena[3].mark.port) == [pq]
    requires Yields(pb, arena[..5], 3, pq, None) && Yields(pb, arena[..5], 2, rp, Some(arena[5].mark))
    ensures Ends(pb, s2, [PathOf(arena, 4)])
  {
    var s3 := Alone(s2, 3);
    Nothing(pb, s3, 3);
    Cuts(pb, s3, 3, pq, [], s3);
    assert [pq] == [pq] + [] && s3.frontier == [2, 4];
    DearEnd(pb, arena, s3, rp);
    EndsAfterExpansion(pb, s2, 3, [pq], s3, [PathOf(arena, 4)]);
  }

  lemma {:induction false} DearEnd(pb: Problem, arena: Arena, s3: State, rp: Arc)
    requires DearShaped(pb, arena) && arena[5].origin == From(2, rp)
    requires Fresh(pb, s3) && s3.arena == arena[..5] && s3.frontier == [2, 4] && s3.expansions == 3
    requires s3.expanded == {0, 1, 3} && 3 in s3.retained
    requires s3.buckets == map[KeyOf(arena[0].mark) := [0]][KeyOf(arena[1].mark) := [1]][KeyOf(arena[3].mark) := [3]]
    requires OutgoingArcs(pb.net, arena[2].mark.port) == [rp]
    requires Yields(pb, arena[..5], 2, rp, Some(arena[5].mark))
    ensures Ends(pb, s3, [PathOf(arena, 4)])
  {
    var t := Alone(s3, 2);
    var s4 := t.(arena := arena, frontier := [5, 4]);
    assert arena == arena[..5] + [arena[5]] && t.frontier == [4];
    Nothing(pb, s4, 2);
    Admits(pb, t, 2, rp, arena[5].mark, [], s4, s4);
    assert [rp] == [rp] + [];
    DearLast(pb, arena, s4);
    EndsAfterExpansion(pb, s3, 2, [rp], s4, [PathOf(arena, 4)]);
  }

  /** The dear label is the last one left. */
  lemma {:induction false} DearLast(pb: Problem, arena: Arena, s4: State)
    requires DearShaped(pb, arena) && Fresh(pb, s4) && s4.arena == arena && s4.frontier == [5, 4]
    requires s4.expanded == {0, 1, 2, 3} && 3 in s4.retained
    requires BucketAt(s4.buckets, KeyOf(arena[3].mark)) == [3] && KeyOf(arena[4].mark) !in s4.buckets
    ensures Ends(pb, s4, [PathOf(arena, 4)])
  {
    assert s4.frontier[1..] == [4];
    EndsAtDestination(pb, s4.(frontier := [4]), 4);
    EndsAfterDrop(pb, s4, 3, [PathOf(arena, 4)]);
  }

  // ----- the snapshot ---------------------------------------------------------------------

  const DEARER: Path := Path([SpanArc(0, false), SpanArc(4, false)], 101, 2, 0, true)

  lemma {:induction false} DearPath(op: Op)
    ensures PathOf(DearArena(op), 4) == DEARER
  {
    var arena := DearArena(op);
    assert RouteOf(arena, 0) == [];
    assert RouteOf(arena, 1) == [SpanArc(0, false)];
  }

  lemma {:induction false} LaterYields(net: Snapshot, op: Op)
    requires IsBypass(net, op)
    ensures Yields(Small(net, map[]), DearArena(op)[..5], 3, SpanArc(2, false), None)
    ensures Yields(Small(net, map[]), DearArena(op)[..5], 2, CrossArc(1), Some(RingMark(op, 4)))
  {
    var pb, arena := Small(net, map[]), DearArena(op);
    assert RingArena(op)[..4] <= arena[..5];
    RingLoops(net, op);
    YieldsFrame(pb, RingArena(op)[..4], arena[..5], 3, SpanArc(2, false), None);
    RingFourth(net, op);
    YieldsFrame(pb, RingArena(op)[..4], arena[..5], 2, CrossArc(1), Some(RingMark(op, 4)));
  }

  lemma {:induction false} DearShape(net: Snapshot, op: Op)
    requires IsBypass(net, op)
    ensures DearShaped(Small(net, map[]), DearArena(op))
  {}

  lemma {:induction false} DearTail(net: Snapshot, op: Op)
    requires IsBypass(net, op)
    ensures Ends(Small(net, map[]), Begun(RingArena(op)[..3]), [DEARER])
  {
    var pb, arena := Small(net, map[]), DearArena(op);
    assert arena[..3] == RingArena(op)[..3] && arena[..4] == RingArena(op)[..4];
    RingThird(net, op);
    RingCuts(net, op);
    DearYields(net, op);
    LaterYields(net, op);
    DearShape(net, op);
    DearPath(op);
    DearRun(pb, arena, CrossArc(0), SpanArc(3, false), SpanArc(4, false), SpanArc(2, false), CrossArc(1));
  }

  lemma {:induction false} DearSearch(net: Snapshot, op: Op)
    requires IsBypass(net, op)
    ensures Exhausts(Search(Small(net, map[]), never), [DEARER]) && Search(Small(net, map[]), never).provedOptimum
  {
    var pb, paths := Small(net, map[]), [DEARER];
    DearTail(net, op);
    RingFirst(net, op);
    RingSecond(net, op);
    EndsAfterFirst(pb, RingArena(op)[..3], SpanArc(0, false), SpanArc(1, false), paths);
    PlainStart(net, map[]);
    EndsSearch(pb, S, paths);
    assert paths[0] in paths;
  }

  lemma {:induction false} BypassRecords(op: Op)
    requires op != Express
    ensures IsBypass(Bypass(op), op) && |Bypass(op).spans| == 5 && |Bypass(op).crossConnects| == 2
  {
    RingRecords(op);
    RingArcs(op);
  }

  lemma {:induction false} BypassLists(net: Snapshot, op: Op)
    requires net == Bypass(op)
    ensures net.spanArcs.Keys == {At("s"), At("p"), At("q")} && net.crossArcs.Keys == {At("q"), At("r")}
    ensures net.spanArcs[At("s")] == [SpanArc(0, false), SpanArc(1, false)]
    ensures net.spanArcs[At("p")] == [SpanArc(2, false)]
    ensures net.spanArcs[At("q")] == [SpanArc(3, false), SpanArc(4, false)]
    ensures net.crossArcs[At("q")] == [CrossArc(0)] && net.crossArcs[At("r")] == [CrossArc(1)]
  {
    RingArcs(op);
  }

  lemma {:induction false} ListedSealed(net: Snapshot, op: Op)
    requires IsBypass(net, op) && |net.spans| == 5 && |net.crossConnects| == 2
    requires net.spanArcs.Keys == {At("s"), At("p"), At("q")} && net.crossArcs.Keys == {At("q"), At("r")}
    requires net.spanArcs[At("s")] == [SpanArc(0, false), SpanArc(1, false)]
    requires net.spanArcs[At("p")] == [SpanArc(2, false)]
    requires net.spanArcs[At("q")] == [SpanArc(3, false), SpanArc(4, false)]
    requires net.crossArcs[At("q")] == [CrossArc(0)] && net.crossArcs[At("r")] == [CrossArc(1)]
    ensures Sealed(net)
  {
    SealedFromLists(net);
  }

  lemma {:induction false} BypassSealed(op: Op)
    requires op != Express
    ensures Sealed(Bypass(op))
  {
    var net := Bypass(op);
    BypassRecords(op);
    BypassLists(net, op);
    ListedSealed(net, op);
  }

  /** With regeneration or conversion allowed, a search can claim a proven optimum of cost 101 on
      a complete snapshot that has a proven admissible route of cost 12. */
  lemma {:induction false} RestartsLoseOptimum(op: Op)
    requires op != Express
    ensures var pb := Small(Bypass(op), map[]);
            && Sealed(pb.net) && pb.net.coverageComplete
            && Search(pb, never).provedOptimum && Search(pb, never).paths == [DEARER]
            && Reaches(pb.net, pb.req, DETOUR) && Final(pb.net, pb.req, DETOUR).proven
            && Final(pb.net, pb.req, DETOUR).cost == 12
  {
    var net := Bypass(op);
    BypassSealed(op);
    BypassRecords(op);
    DearSearch(net, op);
    RingRoute(net, op, DETOUR);
  }
}
