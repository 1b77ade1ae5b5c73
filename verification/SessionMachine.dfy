/** The session recorder as a step machine: producers put items on a bounded queue, one
    worker takes them off and opens, extends, switches and finalizes sessions. */
module SessionMachine {
  import opened Python
  import opened Bytes
  import opened CaptureFormat
  import opened StreamingWriter

  // ---------- State ----------

  datatype Settings = Settings(recording: bool, capacity: nat, maxSessionMb: int)

  /** The range the settings schema allows. */
  predicate Admissible(g: Settings) {
    1024 <= g.capacity <= 65536 && 128 <= g.maxSessionMb <= 8192
  }

  function MaxSessionBytes(g: Settings): int {
    g.maxSessionMb * 1024 * 1024
  }

  datatype SampleRow = SampleRow(uid: int, text: string)
  datatype Update = Update(uid: int, fields: map<string, string>)

  datatype Item =
    | Raw(uid: int, packet: Packet)
    | Sample(row: SampleRow)
    | Metadata(update: Update)
    | Finalize(target: int, reason: string)
    | Stop

  /** A session being recorded. `metadata` lists the updates merged into its dictionary. */
  datatype Session = Session(
    uid: int, writer: WriterState, packets: seq<Packet>, samples: seq<SampleRow>, metadata: seq<Update>)

  datatype Finished = Finished(
    uid: int, file: bytes, packets: seq<Packet>, samples: seq<SampleRow>, metadata: seq<Update>, reason: string)

  datatype Worker = NoTask | Running | Stopped | Crashed

  /** What became of an item the worker took off the queue. */
  datatype Outcome = Recorded | Dropped | Failed | Handled

  /** A handled item, with the uid of the session open before and after it. */
  datatype Entry = Entry(item: Item, outcome: Outcome, before: Option<int>, after: Option<int>)

  datatype Recorder = Recorder(
    queue: seq<Item>,
    worker: Worker,
    current: Option<Session>,
    pending: map<int, seq<Update>>,
    finished: seq<Finished>,
    droppedRaw: nat,
    droppedSamples: nat,
    // history of the run
    admitted: seq<Item>,
    log: seq<Entry>,
    refusedRaw: nat,
    refusedSamples: nat)

  function Initial(): Recorder {
    Recorder([], NoTask, None, map[], [], 0, 0, [], [], 0, 0)
  }

  // ---------- Producers ----------

  function Put(s: Recorder, item: Item): Recorder {
    s.(queue := s.queue + [item], admitted := s.admitted + [item])
  }

  function EnqueueRaw(g: Settings, s: Recorder, uid: int, p: Packet): (Recorder, bool) {
    if !g.recording || uid <= 0 then (s, false)
    else if |s.queue| >= g.capacity then (s.(droppedRaw := s.droppedRaw + 1, refusedRaw := s.refusedRaw + 1), false)
    else (Put(s, Raw(uid, p)), true)
  }

  function EnqueueSample(g: Settings, s: Recorder, row: SampleRow): (Recorder, bool) {
    if !g.recording then (s, false)
    else if |s.queue| >= g.capacity then
      (s.(droppedSamples := s.droppedSamples + 1, refusedSamples := s.refusedSamples + 1), false)
    else (Put(s, Sample(row)), true)
  }

  function UpdateMetadata(g: Settings, s: Recorder, u: Update): (Recorder, bool) {
    if !g.recording || |s.queue| >= g.capacity then (s, false) else (Put(s, Metadata(u)), true)
  }

  /** A control item waits for room; while there is none, or no worker task, nothing happens. */
  function PutControl(g: Settings, s: Recorder, item: Item): Recorder {
    if s.worker == NoTask || |s.queue| >= g.capacity then s else Put(s, item)
  }

  // ---------- The worker ----------

  function FinalizeCurrent(s: Recorder, reason: string): Recorder {
    match s.current
    case None => s
    case Some(c) =>
      var closed := AfterClose(c.writer).0;
      s.(finished := s.finished + [Finished(c.uid, closed.file, c.packets, c.samples, c.metadata, reason)],
         current := None)
  }

  function OpenSession(s: Recorder, uid: int): Recorder {
    var metadata := if uid in s.pending then s.pending[uid] else [];
    s.(current := Some(Session(uid, Opened(), [], [], metadata)), pending := map[])
  }

  /** The open session is kept when it has this uid; any other is finalized first. */
  function EnsureSession(s: Recorder, uid: int): (r: Recorder)
    ensures r.current.Some? && r.current.value.uid == uid
  {
    if s.current.Some? && s.current.value.uid == uid then s
    else OpenSession(FinalizeCurrent(s, "session-uid-changed"), uid)
  }

  function WriteRaw(z: Zlib, g: Settings, s: Recorder, p: Packet): (Recorder, Outcome)
    requires s.current.Some?
  {
    var c := s.current.value;
    var (writer, r) := AfterWrite(z, c.writer, p, Some(MaxSessionBytes(g)));
    match r
    case Ok(true) => (s.(current := Some(c.(writer := writer, packets := c.packets + [p]))), Recorded)
    case Ok(false) => (s.(droppedRaw := s.droppedRaw + 1), Dropped)
    case Err(_) => (s.(worker := Crashed), Failed)
  }

  function HandleRaw(z: Zlib, g: Settings, s: Recorder, uid: int, p: Packet, budget: bool): (Recorder, Outcome) {
    if !budget then (s.(droppedRaw := s.droppedRaw + 1), Dropped) else WriteRaw(z, g, EnsureSession(s, uid), p)
  }

  function HandleSample(s: Recorder, row: SampleRow, budget: bool): (Recorder, Outcome) {
    if !budget then (s.(droppedSamples := s.droppedSamples + 1), Dropped)
    else
      var ready := EnsureSession(s, row.uid);
      var c := ready.current.value;
      (ready.(current := Some(c.(samples := c.samples + [row]))), Recorded)
  }

  function HandleMetadata(s: Recorder, u: Update): Recorder {
    if s.current.Some? && s.current.value.uid == u.uid then
      s.(current := Some(s.current.value.(metadata := s.current.value.metadata + [u])))
    else s.(pending := map[u.uid := [u]])
  }

  function Handle(z: Zlib, g: Settings, s: Recorder, item: Item, budget: bool): (Recorder, Outcome) {
    match item
    case Raw(uid, p) => HandleRaw(z, g, s, uid, p, budget)
    case Sample(row) => HandleSample(s, row, budget)
    case Metadata(u) => (HandleMetadata(s, u), Handled)
    case Finalize(uid, reason) =>
      (if s.current.Some? && s.current.value.uid == uid then FinalizeCurrent(s, reason) else s, Handled)
    case Stop => (FinalizeCurrent(s, "application-shutdown").(worker := Stopped), Handled)
  }

  /** One turn of the worker, atomic because it never awaits between two items. `budget` is
      the answer of the storage check. */
  function WorkerTurn(z: Zlib, g: Settings, s: Recorder, budget: bool): Recorder {
    if s.worker != Running || s.queue == [] then s
    else
      var (s', outcome) := Handle(z, g, s.(queue := s.queue[1..]), s.queue[0], budget);
      s'.(log := s'.log + [Entry(s.queue[0], outcome, OpenUid(s), OpenUid(s'))])
  }

  function OpenUid(s: Recorder): Option<int> {
    if s.current.Some? then Some(s.current.value.uid) else None
  }

  // ---------- Runs ----------

  datatype Event =
    | OfferRaw(uid: int, packet: Packet)
    | OfferSample(row: SampleRow)
    | OfferMetadata(update: Update)
    | AskFinalize(target: int, reason: string)
    | AskStop
    | Start
    | Reap
    | Turn(budget: bool)

  function Step(z: Zlib, g: Settings, s: Recorder, e: Event): Recorder {
    match e
    case OfferRaw(uid, p) => EnqueueRaw(g, s, uid, p).0
    case OfferSample(row) => EnqueueSample(g, s, row).0
    case OfferMetadata(u) => UpdateMetadata(g, s, u).0
    case AskFinalize(uid, reason) => PutControl(g, s, Finalize(uid, reason))
    case AskStop => PutControl(g, s, Stop)
    case Start => s.(worker := Running)
    case Reap => if s.worker == Stopped then s.(worker := NoTask) else s
    case Turn(budget) => WorkerTurn(z, g, s, budget)
  }

  function Run(z: Zlib, g: Settings, events: seq<Event>): Recorder {
    if events == [] then Initial()
    else Step(z, g, Run(z, g, events[..|events| - 1]), events[|events| - 1])
  }

  // ---------- What the log says was recorded ----------

  function Items(log: seq<Entry>): (items: seq<Item>)
    ensures |items| == |log|
    ensures forall i | 0 <= i < |log| :: items[i] == log[i].item
  {
    seq(|log|, i requires 0 <= i < |log| => log[i].item)
  }

  datatype Tagged = Tagged(uid: int, packet: Packet)

  /** The raw packets reported as written, in the order they were queued. */
  function RecordedRaws(log: seq<Entry>): seq<Tagged> {
    if log == [] then []
    else
      var e := log[|log| - 1];
      RecordedRaws(log[..|log| - 1]) +
      if e.item.Raw? && e.outcome == Recorded then [Tagged(e.item.uid, e.item.packet)] else []
  }

  function RecordedRows(log: seq<Entry>): seq<SampleRow> {
    if log == [] then []
    else
      var e := log[|log| - 1];
      RecordedRows(log[..|log| - 1]) + if e.item.Sample? && e.outcome == Recorded then [e.item.row] else []
  }

  function Count(log: seq<Entry>, raw: bool, outcome: Outcome): nat {
    if log == [] then 0
    else
      var e := log[|log| - 1];
      Count(log[..|log| - 1], raw, outcome) +
      if (if raw then e.item.Raw? else e.item.Sample?) && e.outcome == outcome then 1 else 0
  }

  function Tag(uid: int, ps: seq<Packet>): (ts: seq<Tagged>)
    ensures |ts| == |ps|
    ensures forall i | 0 <= i < |ps| :: ts[i] == Tagged(uid, ps[i])
  {
    seq(|ps|, i requires 0 <= i < |ps| => Tagged(uid, ps[i]))
  }

  function FinishedRaws(fs: seq<Finished>): seq<Tagged> {
    if fs == [] then [] else FinishedRaws(fs[..|fs| - 1]) + Tag(fs[|fs| - 1].uid, fs[|fs| - 1].packets)
  }

  function FinishedRows(fs: seq<Finished>): seq<SampleRow> {
    if fs == [] then [] else FinishedRows(fs[..|fs| - 1]) + fs[|fs| - 1].samples
  }

  /** The packets of all sessions, finalized ones first, then the open one. */
  function StoredRaws(s: Recorder): seq<Tagged> {
    FinishedRaws(s.finished) + if s.current.Some? then Tag(s.current.value.uid, s.current.value.packets) else []
  }

  function StoredRows(s: Recorder): seq<SampleRow> {
    FinishedRows(s.finished) + if s.current.Some? then s.current.value.samples else []
  }
}
