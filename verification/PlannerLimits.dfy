/** What the planner's answers cannot be extended to: small snapshots on which a verdict or a
    number of candidates falls short of what the network has. */
module PlannerLimits {
  import opened Base
  import opened Network
  import opened Rules
  import opened Routes
  import opened SearchModel
  import opened SearchLimits
  import opened PlanModel
  import opened PlannerRules
  import opened Planner
  import opened PlannerResults
  import opened PassResults

  // ----- an INFEASIBLE that is wrong ------------------------------------------------------

  /** A caller that never cancels has the run of one without a token. */
  lemma {:induction false} NeverCancels(pb: Problem, s: State, cancel: nat -> bool, turn: nat)
    requires Ready(s) && s.status != SearchModel.Cancelled && forall n: nat :: !cancel(n)
    ensures Run(pb, s, cancel, turn) == Run(pb, s, never, turn)
    ensures Run(pb, s, cancel, turn).status != SearchModel.Cancelled
    decreases if s.status == Running then 1 else 0, pb.maxExpansions - s.expansions, |s.frontier|
  {
    if !Halted(s) {
      NeverCancels(pb, Turn(pb, s, false), cancel, turn + 1);
    }
  }

  lemma {:induction false} NeverCancelled(pb: Problem, cancel: nat -> bool)
    requires forall n: nat :: !cancel(n)
    ensures Search(pb, cancel) == Search(pb, never) && !Search(pb, cancel).cancelled
  {
    match Start(pb.net, pb.req)
    case None =>
    case Some(start) => NeverCancels(pb, Initial(start), cancel, 0);
  }

  /** The ring gets the verdict INFEASIBLE, whoever asks, although it has a proven route. */
  lemma {:induction false} WrongInfeasible(op: Op, options: Options, cancel: nat -> nat -> bool, result: Result)
    requires op != Express && options.maxExpansions >= 1000 && options.maxLabels >= 1000
    requires forall pass: nat, turn: nat :: !cancel(pass)(turn)
    requires VerdictSound(Ring(op), Ask(map[]), options, cancel, result)
    requires VerdictDue(Ring(op), Ask(map[]), options, cancel, result.verdict)
    ensures result.verdict == Infeasible
    ensures Reaches(Ring(op), Ask(map[]), DETOUR) && Final(Ring(op), Ask(map[]), DETOUR).proven
  {
    var net, req := Ring(op), Ask(map[]);
    RestartsLoseRoutes(op);
    RingAsked(net, op);
    RingProblem(net, options);
    EmptyIsInfeasible(net, req, options, cancel, result);
  }

  lemma {:induction false} RingProblem(net: Snapshot, options: Options)
    requires options.maxExpansions >= 1000 && options.maxLabels >= 1000
    ensures ProblemFor(net, Ask(map[]), options) == Small(net, map[])
  {}

  lemma {:induction false} RingAsked(net: Snapshot, op: Op)
    requires net == Ring(op)
    ensures Searchable(net, Ask(map[])) && net.coverageComplete && !Disjointly(Ask(map[]))
  {}

  lemma {:induction false} EmptyIsInfeasible(net: Snapshot, req: Request, options: Options, cancel: nat -> nat -> bool,
                                             result: Result)
    requires Sealed(net) && net.coverageComplete && Searchable(net, req) && !Disjointly(req)
    requires forall pass: nat, turn: nat :: !cancel(pass)(turn)
    requires VerdictSound(net, req, options, cancel, result)
    requires VerdictDue(net, req, options, cancel, result.verdict)
    requires var o := Search(ProblemFor(net, req, options), never); o.exhausted && o.paths == []
    ensures result.verdict == Infeasible
  {
    var pb := ProblemFor(net, req, options);
    NeverCancelled(pb, cancel(0));
    ExhaustedIsWhole(pb);
    NotCancelled(net, req, options, cancel, result);
    VerdictDecided(net, req, options, cancel, result);
  }

  lemma {:induction false} ExhaustedIsWhole(pb: Problem)
    ensures Search(pb, never).exhausted ==> !Search(pb, never).truncated
  {}

  lemma {:induction false} NotCancelled(net: Snapshot, req: Request, options: Options, cancel: nat -> nat -> bool,
                                        result: Result)
    requires forall pass: nat, turn: nat :: !cancel(pass)(turn)
    requires VerdictSound(net, req, options, cancel, result)
    ensures result.verdict != Verdict.Cancelled
  {
    if result.verdict == Verdict.Cancelled {
      var w, pass: nat :| Tightens(w, req) && Search(ProblemFor(net, w, options), cancel(pass)).cancelled;
      NeverCancelled(ProblemFor(net, w, options), cancel(pass));
    }
  }

  // ----- a second candidate that is never looked for --------------------------------------

  /** Two parallel spans to a port in failure domain "m". */
  function Twin(): Snapshot {
    Net(map[At("s") := Port("s"), At("d") := Port("d").(domains := {"m"})],
        [Span("1", "s", "d", 10, {}, {}, 1), Span("2", "s", "d", 10, {}, {}, 1)],
        [],
        map[At("s") := [SpanArc(0, false), SpanArc(1, false)]],
        map[])
  }

  /** Two domain-disjoint candidates, without domain "m". */
  function WithoutDomain(): Request {
    var ask := Ask(map[]);
    ask.(maxCandidates := 2, disjointness := DomainDisjoint,
         constraints := ask.constraints.(excludedDomains := ["m"]))
  }

  /** All that the routes depend on. */
  ghost predicate IsTwin(net: Snapshot) {
    && net == Net(net.ports, net.spans, net.crossConnects, net.spanArcs, net.crossArcs)
    && net.ports == map[At("s") := Port("s"), At("d") := Port("d").(domains := {"m"})]
    && SpanIs(net, 0, Span("1", "s", "d", 10, {}, {}, 1)) && SpanIs(net, 1, Span("2", "s", "d", 10, {}, {}, 1))
    && net.coverageComplete
  }

  lemma {:induction false} TwinRecords()
    ensures IsTwin(Twin()) && |Twin().spans| == 2 && Twin().crossConnects == []
  {}

  lemma {:induction false} TwinSealed()
    ensures Sealed(Twin())
  {
    var net := Twin();
    TwinRecords();
    assert net.spanArcs.Keys == {At("s")};
    SealedFromLists(net);
  }

  lemma {:induction false} AskAccepted()
    ensures Validate(WithoutDomain()) == Accepted
  {}

  lemma {:induction false} TwinStart(net: Snapshot, req: Request)
    requires IsTwin(net) && req == WithoutDomain()
    ensures Start(net, req) == Some(Mark("s", {0, 1}, 0, 0, 0, 0, 0))
  {
    UsableOfTwo(net, req, {});
    assert {0, 1} - {} == {0, 1} && 0 in {0, 1};
  }

  lemma {:induction false} TwinStep(net: Snapshot, req: Request, i: nat)
    requires IsTwin(net) && req == WithoutDomain() && i < 2
    ensures Step(net, req, Mark("s", {0, 1}, 0, 0, 0, 0, 0), SpanArc(i, false))
            == Some(Mark("d", {0, 1}, 1, 10, 1, 1, 0))
  {
    UsableOfTwo(net, req, {});
    assert KeptMask(net, req, {0, 1}, SpanArc(i, false)) == {0, 1} && 0 in {0, 1};
    assert (0 + 1) as real == 1.0;
  }

  lemma {:induction false} TwinRoute(net: Snapshot, req: Request, i: nat)
    requires IsTwin(net) && req == WithoutDomain() && i < 2
    ensures Reaches(net, req, [SpanArc(i, false)]) && Final(net, req, [SpanArc(i, false)]).proven
    ensures ArcDomains(net, SpanArc(i, false)) == {}
  {
    var none: seq<Arc> := [];
    TwinStart(net, req);
    TwinStep(net, req, i);
    ReplayAppend(net, req, none, SpanArc(i, false));
    assert none + [SpanArc(i, false)] == [SpanArc(i, false)];
    assert Visited(net, At("s"), [SpanArc(i, false)]) == [At("s"), At("d")];
  }

  /** Two proven routes whose arcs lie in no failure domain at all, and yet every run of passes
      stops after one candidate, because the request of the second pass is refused. */
  lemma {:induction false} RepeatedDomainStops(options: Options, cancel: nat -> nat -> bool, found: seq<Plan>,
                                               works: seq<Request>)
    requires Chain(Twin(), WithoutDomain(), options, found, works)
    requires Walked(Twin(), WithoutDomain(), options, cancel, found, works)
    ensures Sealed(Twin()) && Twin().coverageComplete && Validate(WithoutDomain()) == Accepted
    ensures forall i: nat | i < 2 :: Passes(Twin(), WithoutDomain(), i)
    ensures |found| <= 1
  {
    var net, req := Twin(), WithoutDomain();
    TwinRecords();
    TwinSealed();
    AskAccepted();
    forall i: nat | i < 2
      ensures Passes(net, req, i)
    {
      TwinRoute(net, req, i);
    }
    ExcludedDestinationOnce(net, req, options, cancel, found, works, "m");
  }

  /** Span `i` alone is a proven route, in no failure domain. */
  ghost predicate Passes(net: Snapshot, req: Request, i: nat) {
    && Reaches(net, req, [SpanArc(i, false)]) && Final(net, req, [SpanArc(i, false)]).proven
    && ArcDomains(net, SpanArc(i, false)) == {}
  }
}
