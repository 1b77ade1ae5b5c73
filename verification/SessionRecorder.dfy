/** The recorder object, method by method against the step machine. */
module SessionRecorder {
  import opened Python
  import opened CaptureFormat
  import opened StreamingWriter
  import opened SessionMachine
  import opened SessionSafety

  class OpenSessionFiles {
    const uid: int
    const packetWriter: StreamingPacketCaptureWriter
    var samples: seq<SampleRow>
    var metadata: seq<Update>

    constructor (uid: int, packetWriter: StreamingPacketCaptureWriter, metadata: seq<Update>)
      ensures this.uid == uid && this.packetWriter == packetWriter
      ensures samples == [] && this.metadata == metadata
    {
      this.uid, this.packetWriter := uid, packetWriter;
      samples, this.metadata := [], metadata;
    }

    ghost function State(): Session
      reads this, packetWriter
    {
      Session(uid, packetWriter.State(), packetWriter.accepted, samples, metadata)
    }
  }

  class SessionRecorder {
    const z: Zlib
    const settings: Settings

    var queue: seq<Item>
    var worker: Worker
    var current: OpenSessionFiles?
    var pending: map<int, seq<Update>>
    var droppedRaw: nat
    var droppedSamples: nat
    ghost var finished: seq<Finished> // the session folders on disk, each with the packets behind its file
    ghost var admitted: seq<Item>
    ghost var log: seq<Entry>
    ghost var refusedRaw: nat
    ghost var refusedSamples: nat

    ghost function Repr(): set<object>
      reads this
    {
      if current == null then {this} else {this, current, current.packetWriter}
    }

    ghost predicate Valid()
      reads this, Repr()
    {
      current != null ==> current.packetWriter.z == z && current.packetWriter.Valid()
    }

    ghost function Current(): Option<Session>
      reads this, Repr()
    {
      if current == null then None else Some(current.State())
    }

    ghost function State(): Recorder
      reads this, Repr()
    {
      Recorder(queue, worker, Current(), pending, finished, droppedRaw, droppedSamples,
               admitted, log, refusedRaw, refusedSamples)
    }

    constructor (z: Zlib, settings: Settings)
      ensures Valid() && fresh(Repr())
      ensures this.z == z && this.settings == settings && State() == Initial()
    {
      this.z, this.settings := z, settings;
      queue, worker, current, pending, finished := [], NoTask, null, map[], [];
      droppedRaw, droppedSamples := 0, 0;
      admitted, log, refusedRaw, refusedSamples := [], [], 0, 0;
    }

    // ---------- Producers ----------

    method EnqueueRaw(uid: int, p: Packet) returns (ok: bool)
      requires Valid()
      modifies this
      ensures Valid() && current == old(current)
      ensures (State(), ok) == SessionMachine.EnqueueRaw(settings, old(State()), uid, p)
    {
      if !settings.recording || uid <= 0 {
        return false;
      }
      if |queue| >= settings.capacity {
        droppedRaw := droppedRaw + 1;
        refusedRaw := refusedRaw + 1;
        return false;
      }
      queue := queue + [Raw(uid, p)];
      admitted := admitted + [Raw(uid, p)];
      return true;
    }

    method EnqueueSample(row: SampleRow) returns (ok: bool)
      requires Valid()
      modifies this
      ensures Valid() && current == old(current)
      ensures (State(), ok) == SessionMachine.EnqueueSample(settings, old(State()), row)
    {
      if !settings.recording {
        return false;
      }
      if |queue| >= settings.capacity {
        droppedSamples := droppedSamples + 1;
        refusedSamples := refusedSamples + 1;
        return false;
      }
      queue := queue + [Sample(row)];
      admitted := admitted + [Sample(row)];
      return true;
    }

    method UpdateMetadata(u: Update) returns (ok: bool)
      requires Valid()
      modifies this
      ensures Valid() && current == old(current)
      ensures (State(), ok) == SessionMachine.UpdateMetadata(settings, old(State()), u)
    {
      if !settings.recording || |queue| >= settings.capacity {
        return false;
      }
      queue := queue + [Metadata(u)];
      admitted := admitted + [Metadata(u)];
      return true;
    }

    /** The queueing half of `finalize` and `stop`. */
    method PutControl(item: Item)
      requires Valid()
      modifies this
      ensures Valid() && current == old(current)
      ensures State() == SessionMachine.PutControl(settings, old(State()), item)
    {
      if worker == NoTask || |queue| >= settings.capacity {
        return;
      }
      queue := queue + [item];
      admitted := admitted + [item];
    }

    // ---------- The worker ----------

    method FinalizeCurrent(reason: string)
      requires Valid()
      modifies Repr()
      ensures Valid() && current == null
      ensures State() == SessionMachine.FinalizeCurrent(old(State()), reason)
    {
      if current == null {
        return;
      }
      var c := current;
      var _ := c.packetWriter.CloseFile();
      finished := finished + [Finished(c.uid, c.packetWriter.file, c.packetWriter.accepted, c.samples, c.metadata,
                                       reason)];
      current := null;
    }

    method EnsureSession(uid: int) returns (c: OpenSessionFiles)
      requires Valid()
      modifies Repr()
      ensures Valid() && current == c && c.uid == uid
      ensures fresh(Repr() - old(Repr()))
      ensures State() == SessionMachine.EnsureSession(old(State()), uid)
    {
      hide OpenSession;
      if current != null && current.uid == uid {
        return current;
      }
      if current != null {
        FinalizeCurrent("session-uid-changed");
      }
      c := OpenNew(uid);
    }

    /** The opening half, with no session open. */
    method OpenNew(uid: int) returns (c: OpenSessionFiles)
      requires Valid() && current == null
      modifies this
      ensures Valid() && current == c && c.uid == uid && fresh(Repr() - {this})
      ensures State() == OpenSession(old(State()), uid)
    {
      var writer := new StreamingPacketCaptureWriter(z);
      var metadata := if uid in pending then pending[uid] else [];
      pending := map[];
      c := new OpenSessionFiles(uid, writer, metadata);
      current := c;
    }

    method HandleRaw(uid: int, p: Packet, budget: bool) returns (ghost outcome: Outcome)
      requires Valid()
      modifies Repr()
      ensures Valid() && fresh(Repr() - old(Repr()))
      ensures (State(), outcome) == SessionMachine.HandleRaw(z, settings, old(State()), uid, p, budget)
    {
      if !budget {
        droppedRaw := droppedRaw + 1;
        return Dropped;
      }
      var _ := EnsureSession(uid);
      outcome := WriteRaw(p);
    }

    method WriteRaw(p: Packet) returns (ghost outcome: Outcome)
      requires Valid() && current != null
      modifies this, current.packetWriter
      ensures Valid() && current == old(current)
      ensures (State(), outcome) == SessionMachine.WriteRaw(z, settings, old(State()), p)
    {
      var written := current.packetWriter.Write(p, Some(settings.maxSessionMb * 1024 * 1024));
      if written.Err? {
        worker := Crashed;
        return Failed;
      }
      if !written.value {
        droppedRaw := droppedRaw + 1;
        return Dropped;
      }
      return Recorded;
    }

    method HandleSample(row: SampleRow, budget: bool) returns (ghost outcome: Outcome)
      requires Valid()
      modifies Repr()
      ensures Valid() && fresh(Repr() - old(Repr()))
      ensures (State(), outcome) == SessionMachine.HandleSample(old(State()), row, budget)
    {
      if !budget {
        droppedSamples := droppedSamples + 1;
        return Dropped;
      }
      var c := EnsureSession(row.uid);
      c.samples := c.samples + [row];
      return Recorded;
    }

    method HandleMetadata(u: Update)
      requires Valid()
      modifies Repr()
      ensures Valid() && current == old(current)
      ensures State() == SessionMachine.HandleMetadata(old(State()), u)
    {
      if current != null && current.uid == u.uid {
        current.metadata := current.metadata + [u];
      } else {
        pending := map[u.uid := [u]];
      }
    }

    /** The branches of the worker loop. */
    method HandleItem(item: Item, budget: bool) returns (ghost outcome: Outcome)
      requires Valid()
      modifies Repr()
      ensures Valid() && fresh(Repr() - old(Repr()))
      ensures (State(), outcome) == Handle(z, settings, old(State()), item, budget)
    {
      outcome := Handled;
      match item {
        case Raw(uid, p) =>
          outcome := HandleRaw(uid, p, budget);
        case Sample(row) =>
          outcome := HandleSample(row, budget);
        case Metadata(u) =>
          HandleMetadata(u);
        case Finalize(uid, reason) =>
          if current != null && current.uid == uid {
            FinalizeCurrent(reason);
          }
        case Stop =>
          if current != null {
            FinalizeCurrent("application-shutdown");
          }
          worker := Stopped;
      }
    }

    ghost method RecordEntry(e: Entry)
      requires Valid()
      modifies `log
      ensures Valid() && State() == old(State()).(log := old(log) + [e]) && Repr() == old(Repr())
    {
      log := log + [e];
    }

    method Take() returns (item: Item)
      requires Valid() && queue != []
      modifies `queue
      ensures Valid() && item == old(queue)[0]
      ensures State() == old(State()).(queue := old(queue)[1..]) && Repr() == old(Repr())
    {
      item := queue[0];
      queue := queue[1..];
    }

    /** One turn of the worker loop; `budget` is what the storage check answers. */
    method WorkerTurn(budget: bool)
      requires Valid()
      modifies Repr()
      ensures Valid() && fresh(Repr() - old(Repr()))
      ensures State() == SessionMachine.WorkerTurn(z, settings, old(State()), budget)
    {
      if worker != Running || queue == [] {
        return;
      }
      hide Handle, StreamingPacketCaptureWriter.State;
      ghost var before := OpenUid(State());
      var item := Take();
      ghost var taken := State();
      ghost var outcome := HandleItem(item, budget);
      HandleCounts(z, settings, taken, item, budget);
      RecordEntry(Entry(item, outcome, before, OpenUid(State())));
    }

    method StartWorker()
      requires Valid()
      modifies this
      ensures Valid() && current == old(current)
      ensures State() == Step(z, settings, old(State()), Start)
    {
      worker := Running;
    }
  }
}
