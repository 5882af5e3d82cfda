/** What one turn of the search keeps: the invariant, and, while the search is still running, that
    every label is waiting or covered and every expanded label has all its children. */
module SearchTheorems {
  import opened Network
  import opened Rules
  import opened SearchModel
  import opened SearchInvariant

  // ----- states in which the search is still running ---------------------------------------

  /** Every label ever created is still waiting or is covered by a retained one. */
  ghost predicate Waiting(arena: Arena, frontier: seq<nat>, retained: set<nat>) {
    forall i {:trigger arena[i]} | 0 <= i < |arena| ::
      i in frontier || Covered(arena, retained, arena[i].mark)
  }

  ghost predicate HasChild(arena: Arena, i: nat, arc: Arc) {
    exists c :: 0 <= c < |arena| && arena[c].origin == From(i, arc)
  }

  /** Every admissible extension of entry `i` by one of `arcs` is in the arena. */
  ghost predicate Opened(pb: Problem, arena: Arena, i: nat, arcs: seq<Arc>)
    requires Linked(arena) && i < |arena|
  {
    forall arc | arc in arcs && Extend(pb.net, pb.req, arena, i, arc).Some? :: HasChild(arena, i, arc)
  }

  /** Every label of `done` that is not at the destination has been fully expanded. */
  ghost predicate Closed(pb: Problem, arena: Arena, done: set<nat>)
    requires Linked(arena)
  {
    forall i | i in done && i < |arena| && arena[i].mark.port != pb.req.destination ::
      Opened(pb, arena, i, OutgoingArcs(pb.net, arena[i].mark.port))
  }

  ghost predicate Live(pb: Problem, s: State)
    requires Ready(s)
  {
    Waiting(s.arena, s.frontier, s.retained) && Closed(pb, s.arena, s.expanded)
  }

  lemma {:induction false} OpenedGrows(pb: Problem, a: Arena, b: Arena, i: nat, arcs: seq<Arc>)
    requires a <= b && Linked(a) && Linked(b) && i < |a| && Opened(pb, a, i, arcs)
    ensures Opened(pb, b, i, arcs)
  {
    forall arc | arc in arcs && Extend(pb.net, pb.req, b, i, arc).Some?
      ensures HasChild(b, i, arc)
    {
      ExtendFrame(pb, a, b, i, arc);
      var c :| 0 <= c < |a| && a[c].origin == From(i, arc);
      assert b[c] == a[c];
    }
  }

  lemma {:induction false} ClosedGrows(pb: Problem, a: Arena, b: Arena, done: set<nat>)
    requires a <= b && Linked(a) && Linked(b) && Closed(pb, a, done)
    requires forall i | i in done :: i < |a|
    ensures Closed(pb, b, done)
  {
    forall i | i in done && i < |b| && b[i].mark.port != pb.req.destination
      ensures Opened(pb, b, i, OutgoingArcs(pb.net, b[i].mark.port))
    {
      assert b[i] == a[i];
      OpenedGrows(pb, a, b, i, OutgoingArcs(pb.net, a[i].mark.port));
    }
  }

  lemma {:induction false} WaitingGrows(s: State, entry: Entry)
    requires Ready(s) && Waiting(s.arena, s.frontier, s.retained)
    requires entry.origin.From? ==> entry.origin.parent < |s.arena|
    ensures var r := Push(s, entry); Waiting(r.arena, r.frontier, r.retained)
  {
    var r := Push(s, entry);
    forall i | 0 <= i < |r.arena|
      ensures i in r.frontier || Covered(r.arena, r.retained, r.arena[i].mark)
    {
      if i < |s.arena| && i !in s.frontier {
        assert r.arena[i] == s.arena[i];
        CoverGrows(s.arena, r.arena, s.retained, s.arena[i].mark);
      }
    }
  }

  // ----- one turn --------------------------------------------------------------------------

  lemma {:induction false} ExpandOneKeeps(pb: Problem, s: State, i: nat, arc: Arc)
    requires Inv(pb, s) && i in s.expanded && HighestExpanded(s, i)
    requires Waiting(s.arena, s.frontier, s.retained)
    ensures var r := ExpandOne(pb, s, i, arc);
            && Inv(pb, r) && HighestExpanded(r, i)
            && Waiting(r.arena, r.frontier, r.retained)
            && (s.status == r.status == Running ==> Opened(pb, r.arena, i, [arc]))
  {
    var r := ExpandOne(pb, s, i, arc);
    match Extend(pb.net, pb.req, s.arena, i, arc)
    case None =>
    case Some(next) =>
      if |s.arena| < pb.maxLabels {
        var entry := Entry(next, From(i, arc));
        PushKeeps(pb, s, i, arc);
        WaitingGrows(s, entry);
        assert r.arena[|s.arena|] == entry;
      }
  }

  lemma {:induction false} OpenedJoins(pb: Problem, arena: Arena, i: nat, arcs: seq<Arc>)
    requires Linked(arena) && i < |arena| && arcs != []
    requires Opened(pb, arena, i, [arcs[0]]) && Opened(pb, arena, i, arcs[1..])
    ensures Opened(pb, arena, i, arcs)
  {
    forall arc | arc in arcs && Extend(pb.net, pb.req, arena, i, arc).Some?
      ensures HasChild(arena, i, arc)
    {
      assert arc in [arcs[0]] || arc in arcs[1..];
    }
  }

  lemma {:induction false} ExpandAllStatus(pb: Problem, s: State, i: nat, arcs: seq<Arc>)
    requires Ready(s) && i < |s.arena| && ExpandAll(pb, s, i, arcs).status == Running
    ensures s.status == Running
  {}

  lemma {:induction false} ExpandAllKeeps(pb: Problem, s: State, i: nat, arcs: seq<Arc>)
    requires Inv(pb, s) && i in s.expanded && HighestExpanded(s, i)
    requires Waiting(s.arena, s.frontier, s.retained)
    ensures var r := ExpandAll(pb, s, i, arcs);
            && Inv(pb, r)
            && Waiting(r.arena, r.frontier, r.retained)
            && (r.status == Running ==> Opened(pb, r.arena, i, arcs))
    decreases |arcs|
  {
    if arcs != [] && s.status == Running {
      var r1 := ExpandOne(pb, s, i, arcs[0]);
      var r := ExpandAll(pb, r1, i, arcs[1..]);
      ExpandOneKeeps(pb, s, i, arcs[0]);
      ExpandAllKeeps(pb, r1, i, arcs[1..]);
      if r.status == Running {
        ExpandAllStatus(pb, r1, i, arcs[1..]);
        OpenedGrows(pb, r1.arena, r.arena, i, [arcs[0]]);
        OpenedJoins(pb, r.arena, i, arcs);
      }
    }
  }

  /** Every turn keeps the invariant, and a turn that leaves the search running keeps it live. */
  lemma {:induction false} TurnKeeps(pb: Problem, s: State, cancel: bool)
    requires Inv(pb, s) && Live(pb, s) && s.frontier != [] && s.status == Running
    ensures var r := Turn(pb, s, cancel); Inv(pb, r) && (r.status == Running ==> Live(pb, r))
  {
    if cancel || s.expansions >= pb.maxExpansions {
      return;
    }
    var i := s.frontier[0];
    var s1 := s.(frontier := s.frontier[1..]);
    var l := s.arena[i].mark;
    assert i in s.frontier;
    PopKeeps(pb, s);
    if KeyBoundReached(pb, s1, i) {
    } else if IsDominated(s.arena, s.retained, BucketAt(s.buckets, KeyOf(l)), l) {
      DropKeeps(pb, s1, i);
      PoppedWaits(s.arena, s.frontier, s.retained);
    } else {
      SettleTurn(pb, s);
    }
  }

  lemma {:induction false} PoppedWaits(arena: Arena, frontier: seq<nat>, retained: set<nat>)
    requires frontier != [] && frontier[0] < |arena|
    requires Waiting(arena, frontier, retained) && Covered(arena, retained, arena[frontier[0]].mark)
    ensures Waiting(arena, frontier[1..], retained)
  {
    forall k | 0 <= k < |arena|
      ensures k in frontier[1..] || Covered(arena, retained, arena[k].mark)
    {
      if k in frontier && k != frontier[0] {
        var n :| 0 <= n < |frontier| && frontier[n] == k;
        assert frontier[1..][n - 1] == k;
      }
    }
  }

  lemma {:induction false} SettleTurn(pb: Problem, s: State)
    requires Inv(pb, s) && Live(pb, s) && s.frontier != [] && s.status == Running
    requires Inv(pb, s.(frontier := s.frontier[1..])) && s.frontier[0] !in s.frontier[1..]
    requires var l := s.arena[s.frontier[0]].mark;
             !IsDominated(s.arena, s.retained, BucketAt(s.buckets, KeyOf(l)), l)
    ensures var i := s.frontier[0];
            var l := s.arena[i].mark;
            var r := Settled(s.(frontier := s.frontier[1..]), i, pb.req.destination);
            var r' := ExpandAll(pb, r, i, OutgoingArcs(pb.net, l.port));
            && (l.port == pb.req.destination ==> Inv(pb, r) && Live(pb, r))
            && (l.port != pb.req.destination ==> Inv(pb, r') && (r'.status == Running ==> Live(pb, r')))
  {
    var i := s.frontier[0];
    var l := s.arena[i].mark;
    var s1 := s.(frontier := s.frontier[1..]);
    var r := Settled(s1, i, pb.req.destination);
    assert i in s.frontier;
    forall f | f in s1.frontier
      ensures KeyLeq(s.arena[i].mark, s.arena[f].mark)
    {
      HeadIsLeast(s.arena, s.frontier, f);
    }
    assert HighestExpanded(s1, i) by {
      forall e | e in s.expanded && e < |s.arena|
        ensures KeyLeq(s.arena[e].mark, s.arena[i].mark)
      {}
    }
    SettleKeeps(pb, s1, i);
    SettleWaits(pb, s, i);
    if l.port != pb.req.destination {
      var arcs := OutgoingArcs(pb.net, l.port);
      var r' := ExpandAll(pb, r, i, arcs);
      ExpandAllKeeps(pb, r, i, arcs);
      if r'.status == Running {
        ClosedAfter(pb, s, r'.arena, i);
      }
    }
  }

  lemma {:induction false} ClosedAfter(pb: Problem, s: State, grown: Arena, i: nat)
    requires Inv(pb, s) && Closed(pb, s.arena, s.expanded) && s.arena <= grown && Linked(grown) && i < |s.arena|
    requires Opened(pb, grown, i, OutgoingArcs(pb.net, s.arena[i].mark.port))
    ensures Closed(pb, grown, s.expanded + {i})
  {
    ClosedGrows(pb, s.arena, grown, s.expanded);
    assert grown[i] == s.arena[i];
  }

  lemma {:induction false} SettleWaits(pb: Problem, s: State, i: nat)
    requires Inv(pb, s) && Waiting(s.arena, s.frontier, s.retained) && s.frontier != [] && i == s.frontier[0]
    ensures var r := Settled(s.(frontier := s.frontier[1..]), i, pb.req.destination);
            Waiting(r.arena, r.frontier, r.retained)
  {
    var d := pb.req.destination;
    var s1 := s.(frontier := s.frontier[1..]);
    var retained := Settled(s1, i, d).retained;
    forall k | 0 <= k < |s.arena|
      ensures k in s.frontier || Covered(s.arena, retained, s.arena[k].mark)
    {
      if k !in s.frontier {
        SettleCovers(s1, i, d, s.arena[k].mark);
      }
    }
    assert Covered(s.arena, retained, s.arena[i].mark) by {
      assert i in retained && Dominates(s.arena[i].mark, s.arena[i].mark);
    }
    PoppedWaits(s.arena, s.frontier, retained);
  }
}
