/** The plan assembly as it runs: a loop over the arcs that updates the running totals. */
module PlanBuilder {
  import opened Base
  import opened Network
  import opened PlanModel

  /** Rebuilds a plan from an arc sequence. */
  method BuildPlan(net: Snapshot, req: Request, arcs: seq<Arc>) returns (plan: Option<Plan>)
    ensures plan == Assemble(net, req, arcs)
  {
    var draft := Begin(net, req);
    assert arcs[..0] == [];
    var k := 0;
    while k < |arcs| && draft.Some?
      invariant k <= |arcs| && draft == Drafted(net, req, arcs[..k])
    {
      assert arcs[..k + 1][..k] == arcs[..k];
      draft := AddArc(net, req, draft.value, arcs[k]);
      k := k + 1;
    }
    DraftedPrefix(net, req, arcs, k);
    if draft.None? {
      return None;
    }
    assert arcs[..k] == arcs;
    plan := Finish(net, req, draft.value, |arcs|);
  }

  /** An arc sequence with an unusable prefix is unusable. */
  lemma {:induction false} DraftedPrefix(net: Snapshot, req: Request, arcs: seq<Arc>, n: nat)
    requires n <= |arcs|
    ensures Drafted(net, req, arcs[..n]).None? ==> Drafted(net, req, arcs).None?
  {
    if n == |arcs| {
      assert arcs[..n] == arcs;
    } else {
      assert arcs[..|arcs| - 1][..n] == arcs[..n];
      DraftedPrefix(net, req, arcs[..|arcs| - 1], n);
    }
  }
}
