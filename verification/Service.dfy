/** The service process: advancing the incarnation record, starting on it, and handling one
    frame after another. */
module Service {
  import opened Base
  import opened Network
  import opened Planner
  import opened Protocol
  import Validation

  /** The state directory. */
  class Disk {
    var record: Record
    var stored: Option<Snapshot>

    constructor ()
      ensures record == Absent && stored == None
    {
      record, stored := Absent, None;
    }
  }

  /** Reads the last epoch and writes the next one.  A record that cannot be parsed is moved
      aside first.  `canRename` and `canWrite` say whether the file system lets it. */
  method AdvanceIncarnation(disk: Disk, id: nat, canRename: bool, canWrite: bool)
    returns (incarnation: Option<Incarnation>)
    modifies disk`record
    ensures Advances(old(disk.record), id, canRename, canWrite, disk.record, incarnation)
  {
    var previous: u64 := 0;
    var continuity := true;
    match disk.record {
      case Absent =>
      case Holds(epoch) => previous := epoch;
      case Unreadable =>
        continuity := false;
        if !canRename {
          return None;
        }
        disk.record := Absent;
    }
    if previous >= MAX_EPOCH - 1 {
      return None;
    }
    var next := Incarnation(id, previous + 1, continuity);
    if !canWrite {
      return None;
    }
    disk.record := Holds(next.epoch);
    return Some(next);
  }

  class Process {
    const disk: Disk
    const settings: Settings
    const incarnation: Incarnation
    var snapshot: Option<Snapshot>
    var snapshotFresh: bool
    var fencedFrames: nat
    ghost var received: seq<Snapshot>

    ghost function State(): Live
      reads this
    {
      Live(incarnation, snapshot, snapshotFresh, received, fencedFrames)
    }

    constructor (disk: Disk, settings: Settings, incarnation: Incarnation)
      ensures this.disk == disk && this.settings == settings
      ensures State() == Started(incarnation, if settings.persist then disk.stored else None)
    {
      this.disk, this.settings, this.incarnation := disk, settings, incarnation;
      snapshot, snapshotFresh, fencedFrames, received := None, false, 0, [];
      new;
      if settings.persist && disk.stored.Some? {
        snapshot := Some(disk.stored.value.(restored := true));
      }
    }

    /** Handles one frame. */
    method HandleFrame(frame: Frame, canSave: bool) returns (reply: Reply)
      modifies this, disk`stored
      ensures Handles(settings, old(State()), old(disk.stored), frame, canSave, State(), disk.stored, reply)
    {
      if frame.pin != 0 && frame.pin != incarnation.epoch {
        fencedFrames := fencedFrames + 1;
        return Reply(incarnation.epoch, Fenced);
      }
      var answer := Failed;
      match frame.body {
        case Hello(version) =>
          if version == Some(PROTOCOL_VERSION) {
            var digest := if snapshot.Some? then Some(snapshot.value.digest) else None;
            answer := HelloAck(incarnation, snapshot.Some?, snapshotFresh, digest);
          }
        case Ingest(parsed, declaredDigest) =>
          if parsed.Some? && parsed.value.digest == declaredDigest {
            answer := TakeSnapshot(Parsed(parsed.value), canSave);
          }
        case PlanFor(request) =>
          if request.Some? {
            var result := PlanOn(request.value);
            answer := PlanAck(result);
          }
        case Validate(artifact, acceptRestored) =>
          if artifact.Some? {
            var validity := Judge(artifact.value, acceptRestored);
            answer := ValidateAck(validity);
          }
        case Cancel(token) =>
          if token.Some? {
            answer := CancelAck(false);
          }
        case Stats => answer := StatsAck(incarnation.id, fencedFrames);
        case Shutdown => answer := ShutdownAck;
        case NotARequest =>
      }
      reply := Reply(incarnation.epoch, answer);
    }

    /** Takes a snapshot over: to disk first, when snapshots persist, and then to memory. */
    method TakeSnapshot(net: Snapshot, canSave: bool) returns (answer: Answer)
      modifies this`snapshot, this`snapshotFresh, this`received, disk`stored
      ensures settings.persist && !canSave ==>
                answer == Failed && State() == old(State()) && disk.stored == old(disk.stored)
      ensures !settings.persist || canSave ==>
                && State() == old(State()).(snapshot := Some(net), isFresh := true,
                                            received := old(State()).received + [net])
                && disk.stored == (if settings.persist then Some(net) else old(disk.stored))
                && answer == IngestAck(net.generation, net.digest)
    {
      if settings.persist {
        if !canSave {
          return Failed;
        }
        disk.stored := Some(net);
      }
      snapshot, snapshotFresh, received := Some(net), true, received + [net];
      answer := IngestAck(net.generation, net.digest);
    }

    /** Plans on the current snapshot. */
    method PlanOn(request: Request) returns (result: Result)
      ensures Planned(settings, State(), request, result)
    {
      if snapshot.None? {
        return Result(Indeterminate, [], false);
      }
      ghost var trace;
      result, trace := PlanRoutes(snapshot.value, request, settings.options, NeverCancelled());
    }

    /** Compares a plan's bindings with the current snapshot. */
    method Judge(artifact: Validation.Artifact, acceptRestored: bool) returns (validity: Validation.Validity)
      ensures Validated(State(), artifact, acceptRestored, validity)
    {
      if snapshot.None? {
        return Validation.MissingEvidence;
      }
      var report := Validation.ValidatePlanBindings(artifact, snapshot.value, acceptRestored);
      validity := report.validity;
    }

    /** One turn of a connection: Shutdown is answered before the handler, and so the fence,
        ever sees it. */
    method ServeConnection(frame: Frame, canSave: bool) returns (reply: Reply, stopping: bool)
      modifies this, disk`stored
      ensures Serves(settings, old(State()), old(disk.stored), frame, canSave, State(), disk.stored, reply)
      ensures stopping <==> frame.body.Shutdown?
    {
      if frame.body.Shutdown? {
        return Reply(incarnation.epoch, ShutdownAck), true;
      }
      stopping := false;
      reply := HandleFrame(frame, canSave);
    }
  }

  /** Starts a service on a state directory. */
  method StartService(disk: Disk, settings: Settings, id: nat, canRename: bool, canWrite: bool)
    returns (service: Option<Process>)
    modifies disk`record
    ensures exists incarnation ::
              && Advances(old(disk.record), id, canRename, canWrite, disk.record, incarnation)
              && (service.Some? <==> incarnation.Some?)
              && (service.Some? ==>
                    && fresh(service.value) && service.value.disk == disk && service.value.settings == settings
                    && service.value.State() ==
                       Started(incarnation.value, if settings.persist then disk.stored else None))
    ensures disk.stored == old(disk.stored)
  {
    var incarnation := AdvanceIncarnation(disk, id, canRename, canWrite);
    service := None;
    if incarnation.Some? {
      var process := new Process(disk, settings, incarnation.value);
      service := Some(process);
    }
  }
}
