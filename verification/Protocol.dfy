/** The service as a state machine over what survives a crash (the incarnation record and the
    persisted snapshot) and what does not (the live incarnation and its snapshot).  Steps cover
    starts that get only part of the way, crashes, damage to the record and single frames. */
module Protocol {
  import opened Base
  import opened Network
  import opened PlannerRules
  import opened Planner
  import Validation

  // ----- incarnations ---------------------------------------------------------------------

  const MAX_EPOCH: u64 := 0xFFFF_FFFF_FFFF_FFFF

  /** The incarnation record on disk: missing, not parseable, or naming the last epoch. */
  datatype Record = Absent | Unreadable | Holds(epoch: u64)

  datatype Incarnation = Incarnation(id: nat, epoch: u64, continuity: bool)

  function Previous(record: Record): u64 { if record.Holds? then record.epoch else 0 }

  /** What is left at the record's path once an unreadable one has been moved aside. */
  function MovedAside(record: Record): Record { if record.Unreadable? then Absent else record }

  /** The outcome of advancing the incarnation: the record left behind, and the new incarnation
      unless a file operation failed or the counter is used up. */
  predicate Advances(record: Record, id: nat, canRename: bool, canWrite: bool, record': Record,
                     incarnation: Option<Incarnation>)
  {
    if record.Unreadable? && !canRename then record' == record && incarnation.None?
    else if Previous(record) >= MAX_EPOCH - 1 || !canWrite then record' == MovedAside(record) && incarnation.None?
    else
      && record' == Holds(Previous(record) + 1)
      && incarnation == Some(Incarnation(id, Previous(record) + 1, !record.Unreadable?))
  }

  // ----- frames ---------------------------------------------------------------------------

  const PROTOCOL_VERSION: nat := 1

  /** A decoded frame body; the parts that failed to parse are None. */
  datatype Body =
    | Hello(version: Option<nat>)
    | Ingest(snapshot: Option<Snapshot>, declaredDigest: string)
    | PlanFor(request: Option<Request>)
    | Validate(artifact: Option<Validation.Artifact>, acceptRestored: bool)
    | Cancel(token: Option<nat>)
    | Stats
    | Shutdown
    | NotARequest

  /** A frame pinned to an epoch; 0 pins it to none. */
  datatype Frame = Frame(pin: u64, body: Body)

  datatype Answer =
    | Fenced
    | Failed
    | HelloAck(incarnation: Incarnation, hasSnapshot: bool, isFresh: bool, digest: Option<string>)
    | IngestAck(generation: u64, accepted: string)
    | PlanAck(result: Result)
    | ValidateAck(validity: Validation.Validity)
    | CancelAck(found: bool)
    | StatsAck(id: nat, fencedFrames: nat)
    | ShutdownAck

  datatype Reply = Reply(epoch: u64, answer: Answer)

  // ----- a live incarnation ---------------------------------------------------------------

  /** A running service; `received` lists the snapshots ingested since it started. */
  datatype Live = Live(incarnation: Incarnation, snapshot: Option<Snapshot>, isFresh: bool, received: seq<Snapshot>,
                       fencedFrames: nat)

  /** How the service is configured. */
  datatype Settings = Settings(persist: bool, options: Options)

  /** A service that has just started on what the disk holds. */
  function Started(incarnation: Incarnation, stored: Option<Snapshot>): Live {
    Live(incarnation, if stored.Some? then Some(stored.value.(restored := true)) else None, false, [], 0)
  }

  function NeverCancelled(): nat -> nat -> bool { (pass: nat) => ((turn: nat) => false) }

  /** A frame pinned to an epoch this incarnation does not own. */
  predicate Stale(s: Live, frame: Frame) { frame.pin != 0 && frame.pin != s.incarnation.epoch }

  /** What a plan request may be answered with. */
  ghost predicate Planned(settings: Settings, s: Live, req: Request, result: Result) {
    if s.snapshot.None? then result == Result(Indeterminate, [], false)
    else
      && VerdictSound(s.snapshot.value, req, settings.options, NeverCancelled(), result)
      && VerdictDue(s.snapshot.value, req, settings.options, NeverCancelled(), result.verdict)
      && FirstLeast(s.snapshot.value, req, settings.options, result.candidates)
  }

  ghost predicate Validated(s: Live, artifact: Validation.Artifact, acceptRestored: bool, v: Validation.Validity) {
    if s.snapshot.None? then v == Validation.MissingEvidence
    else v == Validation.Valid <==> Validation.BindingsHold(artifact, s.snapshot.value, acceptRestored)
  }

  /** A snapshot whose text parses to what its sender declared. */
  predicate Intact(body: Body) {
    body.Ingest? && body.snapshot.Some? && body.snapshot.value.digest == body.declaredDigest
  }

  /** A snapshot as it comes out of its text: nothing in the text says that it was restored. */
  function Parsed(snapshot: Snapshot): Snapshot { snapshot.(restored := false) }

  /** The answers to requests that change nothing. */
  ghost predicate Reads(settings: Settings, s: Live, body: Body, answer: Answer) {
    match body
    case Hello(version) =>
      if version != Some(PROTOCOL_VERSION) then answer == Failed
      else answer == HelloAck(s.incarnation, s.snapshot.Some?, s.isFresh,
                              if s.snapshot.Some? then Some(s.snapshot.value.digest) else None)
    case PlanFor(request) =>
      if request.None? then answer == Failed
      else answer.PlanAck? && Planned(settings, s, request.value, answer.result)
    case Validate(artifact, acceptRestored) =>
      if artifact.None? then answer == Failed
      else answer.ValidateAck? && Validated(s, artifact.value, acceptRestored, answer.validity)
    case Cancel(token) => answer == if token.None? then Failed else CancelAck(false)
    case Stats => answer == StatsAck(s.incarnation.id, s.fencedFrames)
    case Shutdown => answer == ShutdownAck
    case Ingest(_, _) => answer == Failed
    case NotARequest => answer == Failed
  }

  /** What handling one frame may do to a service and its stored snapshot. */
  ghost predicate Handles(settings: Settings, s: Live, stored: Option<Snapshot>, frame: Frame, canSave: bool,
                          s': Live, stored': Option<Snapshot>, reply: Reply)
  {
    && reply.epoch == s.incarnation.epoch
    && if Stale(s, frame) then
         reply.answer == Fenced && stored' == stored && s' == s.(fencedFrames := s.fencedFrames + 1)
       else if Intact(frame.body) && (settings.persist ==> canSave) then
         var net := Parsed(frame.body.snapshot.value);
         && s' == s.(snapshot := Some(net), isFresh := true, received := s.received + [net])
         && stored' == (if settings.persist then Some(net) else stored)
         && reply.answer == IngestAck(net.generation, net.digest)
       else
         s' == s && stored' == stored && Reads(settings, s, frame.body, reply.answer)
  }

  /** Connections handle Shutdown themselves, before the fence. */
  ghost predicate Serves(settings: Settings, s: Live, stored: Option<Snapshot>, frame: Frame, canSave: bool,
                         s': Live, stored': Option<Snapshot>, reply: Reply)
  {
    if frame.body.Shutdown? then s' == s && stored' == stored && reply == Reply(s.incarnation.epoch, ShutdownAck)
    else Handles(settings, s, stored, frame, canSave, s', stored', reply)
  }

  // ----- runs -----------------------------------------------------------------------------

  /** The disk, the live incarnation if any, and the epochs of all that ever went live. */
  datatype World = World(record: Record, stored: Option<Snapshot>, live: Option<Live>, published: seq<u64>)

  datatype Event =
    | Start(id: nat, canRename: bool, canWrite: bool, survives: bool)
    | Crash
    | CrashAfterSave(snapshot: Snapshot)
    | Ask(frame: Frame, canSave: bool, connected: bool, reply: Reply)
    | Damage(left: Record)

  ghost predicate StartStep(settings: Settings, w: World, e: Event, w': World)
    requires e.Start?
  {
    exists incarnation ::
      && w.live.None? && Advances(w.record, e.id, e.canRename, e.canWrite, w'.record, incarnation)
      && w'.stored == w.stored
      && if incarnation.Some? && e.survives then
           && w'.live == Some(Started(incarnation.value, if settings.persist then w.stored else None))
           && w'.published == w.published + [incarnation.value.epoch]
         else w'.live == None && w'.published == w.published
  }

  ghost predicate AskStep(settings: Settings, w: World, e: Event, w': World)
    requires e.Ask?
  {
    && w.live.Some? && w'.live.Some? && w'.record == w.record && w'.published == w.published
    && if e.connected then
         Serves(settings, w.live.value, w.stored, e.frame, e.canSave, w'.live.value, w'.stored, e.reply)
       else Handles(settings, w.live.value, w.stored, e.frame, e.canSave, w'.live.value, w'.stored, e.reply)
  }

  ghost predicate Next(settings: Settings, w: World, e: Event, w': World) {
    match e
    case Start(_, _, _, _) => StartStep(settings, w, e, w')
    case Crash => w' == w.(live := None)
    case CrashAfterSave(net) =>
      w.live.Some? && settings.persist && w' == w.(live := None, stored := Some(Parsed(net)))
    case Ask(_, _, _, _) => AskStep(settings, w, e, w')
    case Damage(left) => !left.Holds? && w' == w.(record := left)
  }

  /** A run from a disk in any condition on which nothing has been published yet. */
  ghost predicate IsRun(settings: Settings, worlds: seq<World>, events: seq<Event>) {
    && |worlds| == |events| + 1 && worlds[0].live == None && worlds[0].published == []
    && forall i | 0 <= i < |events| :: Next(settings, worlds[i], events[i], worlds[i + 1])
  }

  lemma {:induction false} RunPrefix(settings: Settings, worlds: seq<World>, events: seq<Event>)
    requires IsRun(settings, worlds, events) && events != []
    ensures IsRun(settings, worlds[..|events|], events[..|events| - 1])
    ensures Next(settings, worlds[|events| - 1], events[|events| - 1], worlds[|events|])
  {}

  // ----- epochs ---------------------------------------------------------------------------

  predicate Rising(s: seq<u64>) { forall i, j | 0 <= i < j < |s| :: s[i] < s[j] }

  /** The record is at least as high as every epoch in use, and epochs rise. */
  predicate Ahead(w: World) {
    && Rising(w.published) && (forall i | 0 <= i < |w.published| :: w.published[i] > 0)
    && (w.published != [] ==> w.record.Holds? && w.published[|w.published| - 1] <= w.record.epoch)
  }

  /** The live incarnation is the last one published. */
  predicate Current(w: World) {
    w.live.Some? ==> w.published != [] && w.published[|w.published| - 1] == w.live.value.incarnation.epoch > 0
  }

  lemma {:induction false} StartAhead(settings: Settings, w: World, e: Event, w': World)
    requires e.Start? && StartStep(settings, w, e, w') && Ahead(w)
    ensures Ahead(w')
  {}

  lemma {:induction false} StepCurrent(settings: Settings, w: World, e: Event, w': World)
    requires Next(settings, w, e, w') && Current(w)
    ensures Current(w')
  {}

  /** In every run, whatever happens to its record, the live incarnation is the last published. */
  lemma {:induction false} RunCurrent(settings: Settings, worlds: seq<World>, events: seq<Event>)
    requires IsRun(settings, worlds, events)
    ensures Current(worlds[|events|])
  {
    if events != [] {
      var n := |events| - 1;
      RunPrefix(settings, worlds, events);
      RunCurrent(settings, worlds[..|events|], events[..n]);
      StepCurrent(settings, worlds[n], events[n], worlds[n + 1]);
    }
  }

  predicate Undamaged(events: seq<Event>) { forall i | 0 <= i < |events| :: !events[i].Damage? }

  /** While the record stays readable, epochs strictly increase, through any number of crashes
      and of starts that get only part of the way. */
  lemma {:induction false} EpochsRise(settings: Settings, worlds: seq<World>, events: seq<Event>)
    requires IsRun(settings, worlds, events) && Undamaged(events)
    ensures Ahead(worlds[|events|])
  {
    if events != [] {
      var n := |events| - 1;
      RunPrefix(settings, worlds, events);
      EpochsRise(settings, worlds[..|events|], events[..n]);
      if events[n].Start? {
        StartAhead(settings, worlds[n], events[n], worlds[n + 1]);
      }
    }
  }

  /** A start publishes an epoch above all earlier ones exactly when it can read the record
      that the earlier ones left, even if the record was damaged on the way. */
  lemma {:induction false} RisesExactly(settings: Settings, w: World, damaged: World, e: Event, w': World)
    requires Ahead(w) && w.published != []
    requires damaged == w || exists left :: Next(settings, w.(live := None), Damage(left), damaged)
    requires e.Start? && StartStep(settings, damaged, e, w') && w'.live.Some?
    ensures Rising(w'.published) <==> damaged.record.Holds?
  {
    var n := |w.published|;
    assert w'.published[..n] == w.published;
    if !damaged.record.Holds? {
      assert w'.published[n] == 1 <= w'.published[n - 1];
    }
  }

  /** A new incarnation reports continuity although epochs stopped rising exactly when it finds
      no record, or a readable one that starts on a lost record wrote without going live. */
  lemma {:induction false} LiesExactly(settings: Settings, w: World, e: Event, w': World)
    requires Rising(w.published) && w.published != [] && w.published[|w.published| - 1] > 0
    requires e.Start? && StartStep(settings, w, e, w') && w'.live.Some?
    ensures w'.live.value.incarnation.continuity && !Rising(w'.published) <==>
              match w.record
              case Absent => true
              case Unreadable => false
              case Holds(epoch) => epoch < w.published[|w.published| - 1]
  {
    var n := |w.published|;
    assert w'.published[..n] == w.published;
    assert Rising(w'.published) <==> w'.published[n - 1] < w'.published[n];
  }

  /** If damage is all that may have happened since the last start, the flag lies exactly when
      the record is missing; it tells the truth about one that was moved aside in this start. */
  lemma {:induction false} ContinuityLiesExactly(settings: Settings, w: World, damaged: World, e: Event, w': World)
    requires Ahead(w) && w.published != []
    requires damaged == w || exists left :: Next(settings, w.(live := None), Damage(left), damaged)
    requires e.Start? && StartStep(settings, damaged, e, w') && w'.live.Some?
    ensures w'.live.value.incarnation.continuity && !Rising(w'.published) <==> damaged.record.Absent?
  {
    LiesExactly(settings, damaged, e, w');
  }

  /** A crash between moving a damaged record aside and writing the new one leaves no trace:
      the next incarnation repeats epoch 1 and still reports continuity. */
  lemma {:induction false} ContinuityMayLie(settings: Settings, w: World, id: nat) returns (w': World)
    requires w.live.None? && w.published != []
    ensures var damaged := w.(record := Unreadable);
            var half := w.(record := Absent);
            && Next(settings, w, Damage(Unreadable), damaged)
            && Next(settings, damaged, Start(id, true, false, false), half)
            && Next(settings, half, Start(id, true, true, true), w')
    ensures w'.live.Some? && w'.live.value.incarnation == Incarnation(id, 1, true)
  {
    var damaged, half := w.(record := Unreadable), w.(record := Absent);
    assert Advances(Unreadable, id, true, false, Absent, None);
    assert StartStep(settings, damaged, Start(id, true, false, false), half);
    var next := Incarnation(id, 1, true);
    assert Advances(Absent, id, true, true, Holds(1), Some(next));
    w' := World(Holds(1), w.stored, Some(Started(next, if settings.persist then w.stored else None)),
                w.published + [1]);
    assert StartStep(settings, half, Start(id, true, true, true), w');
  }

  // ----- the fence ------------------------------------------------------------------------

  /** Every frame pinned to a stale epoch is fenced when it reaches the handler, and changes
      nothing but a counter; only a Shutdown that a connection handles itself slips past. */
  lemma {:induction false} StaleFenced(settings: Settings, w: World, e: Event, w': World)
    requires Next(settings, w, e, w') && e.Ask? && Stale(w.live.value, e.frame)
    ensures e.reply.answer == Fenced <==> !(e.connected && e.frame.body.Shutdown?)
    ensures e.reply.answer == Fenced ==>
              w' == w.(live := Some(w.live.value.(fencedFrames := w.live.value.fencedFrames + 1)))
    ensures e.reply.answer != Fenced ==> e.reply.answer == ShutdownAck
  {}

  /** A pin handed out by any earlier incarnation is stale, while the record stays readable. */
  lemma {:induction false} OldPinsAreStale(settings: Settings, worlds: seq<World>, events: seq<Event>, frame: Frame,
                                           i: nat)
    requires IsRun(settings, worlds, events) && Undamaged(events)
    requires var w := worlds[|events|];
             w.live.Some? && i < |w.published| - 1 && frame.pin == w.published[i]
    ensures Stale(worlds[|events|].live.value, frame)
  {
    EpochsRise(settings, worlds, events);
    RunCurrent(settings, worlds, events);
  }

  // ----- evidence -------------------------------------------------------------------------

  /** What a live service knows about its snapshot: the fresh flag is true to the evidence, and
      fresh evidence is the last snapshot this incarnation received; with persistence it is
      also what the disk holds. */
  ghost predicate Honest(settings: Settings, w: World) {
    w.live.Some? ==>
      var s := w.live.value;
      && (s.isFresh <==> s.snapshot.Some? && !s.snapshot.value.restored)
      && (s.isFresh <==> s.received != [])
      && (s.isFresh ==> s.snapshot.value == s.received[|s.received| - 1])
      && (s.isFresh && settings.persist ==> w.stored == s.snapshot)
  }

  lemma {:induction false} AskHonest(settings: Settings, w: World, e: Event, w': World)
    requires e.Ask? && AskStep(settings, w, e, w') && Honest(settings, w)
    ensures Honest(settings, w')
  {}

  lemma {:induction false} StartHonest(settings: Settings, w: World, e: Event, w': World)
    requires e.Start? && StartStep(settings, w, e, w')
    ensures Honest(settings, w')
  {}

  /** Every run keeps the evidence honest, whatever is damaged or cut short. */
  lemma {:induction false} RunHonest(settings: Settings, worlds: seq<World>, events: seq<Event>)
    requires IsRun(settings, worlds, events)
    ensures Honest(settings, worlds[|events|])
  {
    if events != [] {
      var n := |events| - 1;
      RunPrefix(settings, worlds, events);
      RunHonest(settings, worlds[..|events|], events[..n]);
      match events[n] {
        case Start(_, _, _, _) => StartHonest(settings, worlds[n], events[n], worlds[n + 1]);
        case Ask(_, _, _, _) => AskHonest(settings, worlds[n], events[n], worlds[n + 1]);
        case Crash =>
        case CrashAfterSave(_) =>
        case Damage(_) =>
      }
    }
  }

  /** A FEASIBLE answer on a request that does not accept restored evidence rests on the last
      snapshot that the answering incarnation itself received. */
  lemma {:induction false} FeasibleIsCurrent(settings: Settings, worlds: seq<World>, events: seq<Event>, e: Event,
                                             w': World)
    requires IsRun(settings, worlds, events) && Next(settings, worlds[|events|], e, w')
    requires e.Ask? && e.frame.body.PlanFor? && e.reply.answer.PlanAck? && e.reply.answer.result.verdict == Feasible
    requires !e.frame.body.request.value.acceptRestored
    ensures var s := worlds[|events|].live.value;
            && s.received != [] && s.snapshot == Some(s.received[|s.received| - 1])
            && CurrentEnough(s.snapshot.value, e.frame.body.request.value)
  {
    RunHonest(settings, worlds, events);
    FeasibleNeedsFresh(settings, worlds[|events|].live.value, e.frame.body.request.value, e.reply.answer.result);
  }

  lemma {:induction false} FeasibleNeedsFresh(settings: Settings, s: Live, req: Request, result: Result)
    requires Planned(settings, s, req, result) && result.verdict == Feasible
    ensures s.snapshot.Some? && CurrentEnough(s.snapshot.value, req)
  {}

  /** Until evidence is ingested again, a well-formed request that does not accept restored
      evidence gets INDETERMINATE. */
  lemma {:induction false} RestoredIsIndeterminate(settings: Settings, worlds: seq<World>, events: seq<Event>, e: Event,
                                                   w': World)
    requires IsRun(settings, worlds, events) && Next(settings, worlds[|events|], e, w')
    requires e.Ask? && e.frame.body.PlanFor? && e.reply.answer.PlanAck? && worlds[|events|].live.value.received == []
    requires var req := e.frame.body.request.value; PlannerRules.Validate(req) == Accepted && !req.acceptRestored
    ensures e.reply.answer.result.verdict == Indeterminate
  {
    RunHonest(settings, worlds, events);
    RestoredPlanned(settings, worlds[|events|].live.value, e.frame.body.request.value, e.reply.answer.result);
  }

  lemma {:induction false} RestoredPlanned(settings: Settings, s: Live, req: Request, result: Result)
    requires Planned(settings, s, req, result) && (s.snapshot.Some? ==> s.snapshot.value.restored)
    requires PlannerRules.Validate(req) == Accepted && !req.acceptRestored
    ensures result.verdict == Indeterminate
  {}

  /** The snapshot saved last: received by the service, or saved just before a crash that kept
      it from going live.  Before any of that it is what the disk held at first. */
  ghost function LastSaved(worlds: seq<World>, events: seq<Event>): Option<Snapshot>
    requires |worlds| == |events| + 1
  {
    var n := |events|;
    var live := worlds[n].live;
    if n == 0 then worlds[0].stored
    else if events[n - 1].CrashAfterSave? then Some(Parsed(events[n - 1].snapshot))
    else if live.Some? && live.value.received != [] then Some(live.value.received[|live.value.received| - 1])
    else LastSaved(worlds[..n], events[..n - 1])
  }

  /** With persistence the disk holds, after every run, the snapshot saved last: no start, however
      far it gets, no crash, no damage and no stale or refused frame takes it away. */
  lemma {:induction false} DiskHoldsLast(settings: Settings, worlds: seq<World>, events: seq<Event>)
    requires settings.persist && IsRun(settings, worlds, events)
    ensures worlds[|events|].stored == LastSaved(worlds, events)
  {
    if events != [] {
      var n := |events| - 1;
      RunPrefix(settings, worlds, events);
      DiskHoldsLast(settings, worlds[..|events|], events[..n]);
      RunHonest(settings, worlds, events);
      if worlds[n + 1].live.None? || worlds[n + 1].live.value.received == [] {
        StepKeepsDisk(settings, worlds[n], events[n], worlds[n + 1]);
      }
    }
  }

  /** Only a frame that is received, or a save just before a crash, changes the stored snapshot. */
  lemma {:induction false} StepKeepsDisk(settings: Settings, w: World, e: Event, w': World)
    requires Next(settings, w, e, w') && (w'.live.None? || w'.live.value.received == [])
    ensures w'.stored == if e.CrashAfterSave? then Some(Parsed(e.snapshot)) else w.stored
  {}

  /** After any run, through any number of crashes and starts, the next incarnation comes up on
      the snapshot saved last, and marks it as restored. */
  lemma {:induction false} ComesBack(settings: Settings, worlds: seq<World>, events: seq<Event>, e: Event, w': World)
    requires settings.persist && IsRun(settings, worlds, events)
    requires e.Start? && Next(settings, worlds[|events|], e, w') && w'.live.Some?
    ensures var saved := LastSaved(worlds, events);
            && w'.live.value.snapshot == (if saved.Some? then Some(saved.value.(restored := true)) else None)
            && !w'.live.value.isFresh && w'.stored == saved
  {
    DiskHoldsLast(settings, worlds, events);
  }

  /** With persistence, what an incarnation received last survives its crash, and comes back
      marked as restored: the next incarnation plans on it only for callers who accept that. */
  lemma {:induction false} EvidenceSurvives(settings: Settings, worlds: seq<World>, events: seq<Event>, e: Event,
                                            w': World)
    requires settings.persist && IsRun(settings, worlds, events)
    requires worlds[|events|].live.Some? && worlds[|events|].live.value.received != []
    requires e.Start? && Next(settings, worlds[|events|].(live := None), e, w') && w'.live.Some?
    ensures var s := worlds[|events|].live.value;
            && w'.live.value.snapshot == Some(s.received[|s.received| - 1].(restored := true))
            && !w'.live.value.isFresh
  {
    RunHonest(settings, worlds, events);
  }
}
