/** Safety over whole runs of the session recorder: sessions stay well formed, nothing is lost,
    added or reordered, and finalized captures load. */
module SessionSafety {
  import opened Python
  import opened Bytes
  import opened CaptureFormat
  import opened CaptureFile
  import opened StreamingWriter
  import opened SessionMachine

  // ---------- Invariants ----------

  predicate UpdatesOf(uid: int, us: seq<Update>) {
    forall u | u in us :: u.uid == uid
  }

  predicate RowsOf(uid: int, rows: seq<SampleRow>) {
    forall row | row in rows :: row.uid == uid
  }

  /** The open session: its file is well formed, within the limit, and only about its uid. */
  ghost predicate SessionOk(z: Zlib, g: Settings, c: Session) {
    && !c.writer.closed && WellFormed(z, c.writer, c.packets)
    && |c.writer.file| <= MaxSessionBytes(g)
    && UpdatesOf(c.uid, c.metadata) && RowsOf(c.uid, c.samples)
  }

  /** A finalized session holds the closed capture file of exactly its packets. */
  ghost predicate FinishedOk(z: Zlib, g: Settings, f: Finished) {
    && WellFormed(z, WriterState(f.file, |f.packets|, true), f.packets)
    && |f.file| <= MaxSessionBytes(g)
    && UpdatesOf(f.uid, f.metadata) && RowsOf(f.uid, f.samples)
  }

  ghost predicate SessionsOk(z: Zlib, g: Settings, s: Recorder) {
    && (s.current.Some? ==> SessionOk(z, g, s.current.value))
    && (forall i | 0 <= i < |s.finished| :: FinishedOk(z, g, s.finished[i]))
    && (forall uid | uid in s.pending :: UpdatesOf(uid, s.pending[uid]))
    && |s.pending| <= 1
    && (s.worker == NoTask || s.worker == Stopped ==> s.current.None?)
  }

  /** The queue is first-in first-out and bounded, and the sessions hold what the log says. */
  predicate Conserved(g: Settings, s: Recorder) {
    && |s.queue| <= g.capacity
    && Items(s.log) + s.queue == s.admitted
    && StoredRaws(s) == RecordedRaws(s.log)
    && StoredRows(s) == RecordedRows(s.log)
    && s.droppedRaw == s.refusedRaw + Count(s.log, true, Dropped)
    && s.droppedSamples == s.refusedSamples + Count(s.log, false, Dropped)
  }

  // ---------- Sessions stay well formed ----------

  /** Eight header bytes an entry: a file within the limit cannot hold too many packets for
      the header's 32-bit count, so closing always succeeds. */
  lemma {:induction false} EntriesTakeRoom(z: Zlib, ms: seq<Message>)
    requires EncodeEntries(z, true, ms).Ok?
    ensures |EncodeEntries(z, true, ms).value| >= ENTRY_HEADER_LEN * |ms|
  {
    if ms != [] {
      EntryLayout(z, true, ms[0]);
      EntriesTakeRoom(z, ms[1..]);
    }
  }

  lemma ClosingSucceeds(z: Zlib, g: Settings, c: Session)
    requires Admissible(g) && SessionOk(z, g, c)
    ensures AfterClose(c.writer).1.Ok?
    ensures FinishedOk(z, g, Finished(c.uid, AfterClose(c.writer).0.file, c.packets, c.samples, c.metadata, ""))
  {
    EntriesTakeRoom(z, InOrder(c.packets, true));
    CloseWellFormed(z, c.writer, c.packets);
  }

  lemma FinalizeKeepsSessions(z: Zlib, g: Settings, s: Recorder, reason: string)
    requires Admissible(g) && SessionsOk(z, g, s)
    ensures SessionsOk(z, g, FinalizeCurrent(s, reason)) && FinalizeCurrent(s, reason).current.None?
  {
    if s.current.Some? {
      ClosingSucceeds(z, g, s.current.value);
    }
  }

  lemma EnsureKeepsSessions(z: Zlib, g: Settings, s: Recorder, uid: int)
    requires Admissible(g) && SessionsOk(z, g, s) && s.worker == Running
    ensures SessionsOk(z, g, EnsureSession(s, uid)) && EnsureSession(s, uid).worker == Running
  {
    FinalizeKeepsSessions(z, g, s, "session-uid-changed");
    OpenedWellFormed(z);
  }

  lemma RawKeepsSessions(z: Zlib, g: Settings, s: Recorder, uid: int, p: Packet, budget: bool)
    requires Admissible(g) && SessionsOk(z, g, s) && s.worker == Running
    ensures SessionsOk(z, g, HandleRaw(z, g, s, uid, p, budget).0)
  {
    if budget {
      EnsureKeepsSessions(z, g, s, uid);
      var c := EnsureSession(s, uid).current.value;
      WriteWellFormed(z, c.writer, c.packets, p, Some(MaxSessionBytes(g)));
    }
  }

  lemma SampleKeepsSessions(z: Zlib, g: Settings, s: Recorder, row: SampleRow, budget: bool)
    requires Admissible(g) && SessionsOk(z, g, s) && s.worker == Running
    ensures SessionsOk(z, g, HandleSample(s, row, budget).0)
  {
    if budget {
      EnsureKeepsSessions(z, g, s, row.uid);
    }
  }

  lemma HandleKeepsSessions(z: Zlib, g: Settings, s: Recorder, item: Item, budget: bool)
    requires Admissible(g) && SessionsOk(z, g, s) && s.worker == Running
    ensures SessionsOk(z, g, Handle(z, g, s, item, budget).0)
  {
    hide SessionsOk, HandleRaw, HandleSample;
    match item {
      case Raw(uid, p) =>
        RawKeepsSessions(z, g, s, uid, p, budget);
      case Sample(row) =>
        SampleKeepsSessions(z, g, s, row, budget);
      case Metadata(u) =>
        MetadataKeepsSessions(z, g, s, u);
      case Finalize(uid, reason) =>
        FinalizeKeepsSessions(z, g, s, reason);
      case Stop =>
        FinalizeKeepsSessions(z, g, s, "application-shutdown");
        StoppedSessions(z, g, FinalizeCurrent(s, "application-shutdown"));
    }
  }

  lemma MetadataKeepsSessions(z: Zlib, g: Settings, s: Recorder, u: Update)
    requires SessionsOk(z, g, s)
    ensures SessionsOk(z, g, HandleMetadata(s, u))
  {
    hide FinishedOk, WellFormed;
  }

  lemma StoppedSessions(z: Zlib, g: Settings, s: Recorder)
    requires SessionsOk(z, g, s) && s.current.None?
    ensures SessionsOk(z, g, s.(worker := Stopped))
  {
    hide FinishedOk;
  }

  // ---------- Nothing is lost, added or reordered ----------

  lemma FinalizeKeepsStored(s: Recorder, reason: string)
    ensures StoredRaws(FinalizeCurrent(s, reason)) == StoredRaws(s)
    ensures StoredRows(FinalizeCurrent(s, reason)) == StoredRows(s)
  {
    if s.current.Some? {
      var f := FinalizeCurrent(s, reason).finished;
      assert f[..|f| - 1] == s.finished;
    }
  }

  lemma EnsureKeepsStored(s: Recorder, uid: int)
    ensures StoredRaws(EnsureSession(s, uid)) == StoredRaws(s)
    ensures StoredRows(EnsureSession(s, uid)) == StoredRows(s)
  {
    FinalizeKeepsStored(s, "session-uid-changed");
  }

  lemma RawStores(z: Zlib, g: Settings, s: Recorder, uid: int, p: Packet, budget: bool)
    ensures var (s', outcome) := HandleRaw(z, g, s, uid, p, budget);
            && StoredRaws(s') == StoredRaws(s) + (if outcome == Recorded then [Tagged(uid, p)] else [])
            && StoredRows(s') == StoredRows(s)
  {
    EnsureKeepsStored(s, uid);
    var ready := EnsureSession(s, uid);
    var c := ready.current.value;
    hide EnsureSession, AfterWrite, FinishedRaws, FinishedRows;
    var finished := FinishedRaws(ready.finished);
    assert finished + (Tag(uid, c.packets) + [Tagged(uid, p)]) == finished + Tag(uid, c.packets) + [Tagged(uid, p)];
    assert Tag(uid, c.packets + [p]) == Tag(uid, c.packets) + [Tagged(uid, p)];
  }

  lemma SampleStores(s: Recorder, row: SampleRow, budget: bool)
    ensures var (s', outcome) := HandleSample(s, row, budget);
            && StoredRaws(s') == StoredRaws(s)
            && StoredRows(s') == StoredRows(s) + (if outcome == Recorded then [row] else [])
  {
    EnsureKeepsStored(s, row.uid);
    var ready := EnsureSession(s, row.uid);
    hide EnsureSession, FinishedRaws, FinishedRows;
    var finished, samples := FinishedRows(ready.finished), ready.current.value.samples;
    assert finished + (samples + [row]) == finished + samples + [row];
  }

  lemma HandleStores(z: Zlib, g: Settings, s: Recorder, item: Item, budget: bool)
    ensures var (s', outcome) := Handle(z, g, s, item, budget);
            && StoredRaws(s') == StoredRaws(s) +
                 (if item.Raw? && outcome == Recorded then [Tagged(item.uid, item.packet)] else [])
            && StoredRows(s') == StoredRows(s) + (if item.Sample? && outcome == Recorded then [item.row] else [])
  {
    hide HandleRaw, HandleSample, FinalizeCurrent, FinishedRaws, FinishedRows;
    match item {
      case Raw(uid, p) =>
        RawStores(z, g, s, uid, p, budget);
      case Sample(row) =>
        SampleStores(s, row, budget);
      case Metadata(u) =>
      case Finalize(uid, reason) =>
        FinalizeKeepsStored(s, reason);
      case Stop =>
        FinalizeKeepsStored(s, "application-shutdown");
    }
  }

  /** s and t differ only in their sessions, the worker, and what they count as dropped. */
  predicate SameBooks(s: Recorder, t: Recorder, raws: nat, samples: nat) {
    && t.queue == s.queue && t.admitted == s.admitted && t.log == s.log
    && t.refusedRaw == s.refusedRaw && t.refusedSamples == s.refusedSamples
    && t.droppedRaw == s.droppedRaw + raws && t.droppedSamples == s.droppedSamples + samples
  }

  lemma EnsureBooks(s: Recorder, uid: int)
    ensures SameBooks(s, EnsureSession(s, uid), 0, 0)
  {
  }

  lemma RawBooks(z: Zlib, g: Settings, s: Recorder, uid: int, p: Packet, budget: bool)
    ensures var (s', outcome) := HandleRaw(z, g, s, uid, p, budget);
            SameBooks(s, s', if outcome == Dropped then 1 else 0, 0) && outcome != Handled
  {
    EnsureBooks(s, uid);
    hide EnsureSession, AfterWrite;
  }

  lemma SampleBooks(s: Recorder, row: SampleRow, budget: bool)
    ensures var (s', outcome) := HandleSample(s, row, budget);
            SameBooks(s, s', 0, if outcome == Dropped then 1 else 0)
  {
    EnsureBooks(s, row.uid);
    hide EnsureSession;
  }

  lemma HandleCounts(z: Zlib, g: Settings, s: Recorder, item: Item, budget: bool)
    ensures var (s', outcome) := Handle(z, g, s, item, budget);
            && SameBooks(s, s', if item.Raw? && outcome == Dropped then 1 else 0,
                         if item.Sample? && outcome == Dropped then 1 else 0)
            && (item.Raw? ==> outcome != Handled)
  {
    match item {
      case Raw(uid, p) =>
        RawBooks(z, g, s, uid, p, budget);
        hide HandleRaw;
      case Sample(row) =>
        SampleBooks(s, row, budget);
        hide HandleSample;
      case Metadata(u) =>
      case Finalize(uid, reason) =>
      case Stop =>
    }
  }

  /** What is stored depends on the sessions only. */
  lemma StoredOf(s: Recorder, t: Recorder)
    requires s.finished == t.finished && s.current == t.current
    ensures StoredRaws(s) == StoredRaws(t) && StoredRows(s) == StoredRows(t)
  {
  }

  /** Moving one item from the queue to the log. */
  lemma LogStep(log: seq<Entry>, e: Entry, queue: seq<Item>)
    requires queue != [] && queue[0] == e.item
    ensures Items(log + [e]) + queue[1..] == Items(log) + queue
    ensures RecordedRaws(log + [e]) == RecordedRaws(log) +
              (if e.item.Raw? && e.outcome == Recorded then [Tagged(e.item.uid, e.item.packet)] else [])
    ensures RecordedRows(log + [e]) == RecordedRows(log) +
              (if e.item.Sample? && e.outcome == Recorded then [e.item.row] else [])
    ensures forall raw, outcome :: Count(log + [e], raw, outcome) == Count(log, raw, outcome) +
              (if (if raw then e.item.Raw? else e.item.Sample?) && e.outcome == outcome then 1 else 0)
  {
    assert (log + [e])[..|log|] == log;
    assert Items(log + [e]) == Items(log) + [e.item];
    assert queue == [e.item] + queue[1..];
  }

  /** A turn that logs e, takes its item off the queue, and stores and counts what e says. */
  lemma ConservedTurn(g: Settings, s: Recorder, t: Recorder, e: Entry)
    requires Conserved(g, s) && s.queue != [] && s.queue[0] == e.item
    requires t.queue == s.queue[1..] && t.log == s.log + [e] && t.admitted == s.admitted
    requires t.refusedRaw == s.refusedRaw && t.refusedSamples == s.refusedSamples
    requires t.droppedRaw == s.droppedRaw + if e.item.Raw? && e.outcome == Dropped then 1 else 0
    requires t.droppedSamples == s.droppedSamples + if e.item.Sample? && e.outcome == Dropped then 1 else 0
    requires StoredRaws(t) == StoredRaws(s) +
               if e.item.Raw? && e.outcome == Recorded then [Tagged(e.item.uid, e.item.packet)] else []
    requires StoredRows(t) == StoredRows(s) + if e.item.Sample? && e.outcome == Recorded then [e.item.row] else []
    ensures Conserved(g, t)
  {
    hide StoredRaws, StoredRows, RecordedRaws, RecordedRows, Count, Items;
    LogStep(s.log, e, s.queue);
  }

  /** What one turn does outside the sessions. */
  lemma TurnShape(z: Zlib, g: Settings, s: Recorder, budget: bool)
    requires s.worker == Running && s.queue != []
    ensures var (handled, outcome) := Handle(z, g, s.(queue := s.queue[1..]), s.queue[0], budget);
            var t := Step(z, g, s, Turn(budget));
            && t.worker == handled.worker && t.queue == s.queue[1..]
            && t.current == handled.current && t.finished == handled.finished && t.pending == handled.pending
            && t.admitted == s.admitted && t.refusedRaw == s.refusedRaw && t.refusedSamples == s.refusedSamples
            && t.droppedRaw == handled.droppedRaw && t.droppedSamples == handled.droppedSamples
            && t.log == s.log + [Entry(s.queue[0], outcome, OpenUid(s), OpenUid(handled))]
  {
    HandleCounts(z, g, s.(queue := s.queue[1..]), s.queue[0], budget);
    hide Handle;
  }

  lemma PutKeepsConserved(g: Settings, s: Recorder, item: Item)
    requires Conserved(g, s) && |s.queue| < g.capacity
    ensures Conserved(g, Put(s, item))
  {
    assert Items(s.log) + (s.queue + [item]) == s.admitted + [item];
  }

  lemma SameSessions(z: Zlib, g: Settings, s: Recorder, t: Recorder)
    requires SessionsOk(z, g, s)
    requires t.current == s.current && t.finished == s.finished && t.pending == s.pending && t.worker == s.worker
    ensures SessionsOk(z, g, t)
  {
    hide SessionOk, FinishedOk;
  }

  /** The item an event would queue. */
  function Offered(e: Event): Option<Item> {
    match e
    case OfferRaw(uid, p) => Some(Raw(uid, p))
    case OfferSample(row) => Some(Sample(row))
    case OfferMetadata(u) => Some(Metadata(u))
    case AskFinalize(uid, reason) => Some(Finalize(uid, reason))
    case AskStop => Some(Stop)
    case _ => None
  }

  lemma OfferKeepsConserved(z: Zlib, g: Settings, s: Recorder, e: Event)
    requires Conserved(g, s) && !(e.Turn? && s.worker == Running && s.queue != [])
    ensures Conserved(g, Step(z, g, s, e))
  {
    if Offered(e).Some? && |s.queue| < g.capacity {
      PutKeepsConserved(g, s, Offered(e).value);
    }
  }

  lemma OfferKeepsSessions(z: Zlib, g: Settings, s: Recorder, e: Event)
    requires SessionsOk(z, g, s) && !(e.Turn? && s.worker == Running && s.queue != [])
    ensures SessionsOk(z, g, Step(z, g, s, e))
  {
    hide SessionOk, FinishedOk, UpdatesOf;
  }

  lemma StepKeeps(z: Zlib, g: Settings, s: Recorder, e: Event)
    requires Admissible(g) && SessionsOk(z, g, s) && Conserved(g, s)
    ensures SessionsOk(z, g, Step(z, g, s, e)) && Conserved(g, Step(z, g, s, e))
  {
    hide Handle, Conserved, SessionsOk, StoredRaws, StoredRows;
    if e.Turn? && s.worker == Running && s.queue != [] {
      var taken := s.(queue := s.queue[1..]);
      var handled, t := Handle(z, g, taken, s.queue[0], e.budget).0, Step(z, g, s, e);
      TurnShape(z, g, s, e.budget);
      HandleStores(z, g, taken, s.queue[0], e.budget);
      HandleCounts(z, g, taken, s.queue[0], e.budget);
      StoredOf(s, taken);
      StoredOf(handled, t);
      ConservedTurn(g, s, t, t.log[|s.log|]);
      SameSessions(z, g, s, taken);
      HandleKeepsSessions(z, g, taken, s.queue[0], e.budget);
      SameSessions(z, g, handled, t);
    } else {
      OfferKeepsConserved(z, g, s, e);
      OfferKeepsSessions(z, g, s, e);
    }
  }

  /** Over every interleaving of producers and worker: sessions are well formed and hold one
      uid each, and the finalized sessions followed by the open one are, packet for packet
      and row for row, what the worker recorded off the queue in queue order. */
  lemma {:induction false} RunSafe(z: Zlib, g: Settings, events: seq<Event>)
    requires Admissible(g)
    ensures SessionsOk(z, g, SessionMachine.Run(z, g, events)) && Conserved(g, SessionMachine.Run(z, g, events))
  {
    if events != [] {
      var before := events[..|events| - 1];
      RunSafe(z, g, before);
      StepKeeps(z, g, SessionMachine.Run(z, g, before), events[|events| - 1]);
    }
  }

  // ---------- Consequences for whole runs ----------

  function CountRaws(items: seq<Item>): nat {
    if items == [] then 0 else CountRaws(items[..|items| - 1]) + if items[|items| - 1].Raw? then 1 else 0
  }

  lemma {:induction false} CountRawsConcat(a: seq<Item>, b: seq<Item>)
    ensures CountRaws(a + b) == CountRaws(a) + CountRaws(b)
  {
    if b == [] {
      assert a + b == a;
    } else {
      assert (a + b)[..|a + b| - 1] == a + b[..|b| - 1];
      CountRawsConcat(a, b[..|b| - 1]);
    }
  }

  /** Every raw item the worker took off was recorded, dropped, or lost to a failure. */
  predicate LogSorted(log: seq<Entry>) {
    forall e | e in log && e.item.Raw? :: e.outcome != Handled
  }

  lemma {:induction false} RunLogSorted(z: Zlib, g: Settings, events: seq<Event>)
    ensures LogSorted(SessionMachine.Run(z, g, events).log)
  {
    if events != [] {
      var s := SessionMachine.Run(z, g, events[..|events| - 1]);
      RunLogSorted(z, g, events[..|events| - 1]);
      if s.worker == Running && s.queue != [] && events[|events| - 1].Turn? {
        HandleCounts(z, g, s.(queue := s.queue[1..]), s.queue[0], events[|events| - 1].budget);
      }
    }
  }

  lemma {:induction false} LogCounts(log: seq<Entry>)
    requires LogSorted(log)
    ensures CountRaws(Items(log)) == |RecordedRaws(log)| + Count(log, true, Dropped) + Count(log, true, Failed)
  {
    if log != [] {
      var before, e := log[..|log| - 1], log[|log| - 1];
      assert Items(log)[..|log| - 1] == Items(before);
      assert e in log;
      LogCounts(before);
    }
  }

  /** Conservation: every raw packet offered past the guard is still queued, stored in a
      session, counted as dropped, or the one a failing worker was holding. */
  lemma RawsConserved(z: Zlib, g: Settings, events: seq<Event>)
    requires Admissible(g)
    ensures var s := SessionMachine.Run(z, g, events);
            CountRaws(s.admitted) + s.refusedRaw
            == CountRaws(s.queue) + |StoredRaws(s)| + s.droppedRaw + Count(s.log, true, Failed)
  {
    var s := SessionMachine.Run(z, g, events);
    RunSafe(z, g, events);
    RunLogSorted(z, g, events);
    CountRawsConcat(Items(s.log), s.queue);
    LogCounts(s.log);
  }

  /** Packets whose compressed form fits the entry's length field. */
  ghost predicate Storable(z: Zlib, p: Packet) {
    |z.deflate(p.payload)| < U32_LIMIT
  }

  ghost predicate ItemStorable(z: Zlib, item: Item) {
    item.Raw? ==> Storable(z, item.packet)
  }

  lemma HandleFails(z: Zlib, g: Settings, s: Recorder, item: Item, budget: bool)
    requires Admissible(g) && SessionsOk(z, g, s) && s.worker == Running
    ensures var (s', outcome) := Handle(z, g, s, item, budget);
            && (outcome == Failed ==> !ItemStorable(z, item))
            && (s'.worker == Crashed ==> outcome == Failed)
  {
    if item.Raw? && budget {
      EnsureKeepsSessions(z, g, s, item.uid);
    }
  }

  /** Only packets that do not fit have failed, and a crashed worker has met one. */
  ghost predicate FailuresExplained(z: Zlib, s: Recorder) {
    && (forall i | 0 <= i < |s.log| && s.log[i].outcome == Failed :: !ItemStorable(z, s.log[i].item))
    && (s.worker == Crashed ==> exists i | 0 <= i < |s.log| :: s.log[i].outcome == Failed)
  }

  lemma TurnExplained(z: Zlib, s: Recorder, t: Recorder, e: Entry)
    requires FailuresExplained(z, s) && t.log == s.log + [e]
    requires e.outcome == Failed ==> !ItemStorable(z, e.item)
    requires t.worker == Crashed ==> e.outcome == Failed
    ensures FailuresExplained(z, t)
  {
    assert t.log[|s.log|] == e;
  }

  lemma OfferExplained(z: Zlib, g: Settings, s: Recorder, e: Event)
    requires FailuresExplained(z, s) && !(e.Turn? && s.worker == Running && s.queue != [])
    ensures FailuresExplained(z, Step(z, g, s, e))
  {
    hide ItemStorable;
    assert Step(z, g, s, e).log == s.log;
  }

  /** In every run the worker has failed only on packets whose compressed form does not fit the
      entry's length field. */
  lemma {:induction false} RunFailures(z: Zlib, g: Settings, events: seq<Event>)
    requires Admissible(g)
    ensures FailuresExplained(z, SessionMachine.Run(z, g, events))
  {
    if events != [] {
      hide Step, Handle, FailuresExplained, SessionsOk, Conserved, ItemStorable;
      var before, e := events[..|events| - 1], events[|events| - 1];
      RunFailures(z, g, before);
      RunSafe(z, g, before);
      var s := SessionMachine.Run(z, g, before);
      if e.Turn? && s.worker == Running && s.queue != [] {
        var taken, t := s.(queue := s.queue[1..]), Step(z, g, s, e);
        SameSessions(z, g, s, taken);
        HandleFails(z, g, taken, s.queue[0], e.budget);
        TurnShape(z, g, s, e.budget);
        TurnExplained(z, s, t, t.log[|s.log|]);
      } else {
        OfferExplained(z, g, s, e);
      }
    }
  }

  lemma {:induction false} NoneFailed(log: seq<Entry>)
    requires forall i | 0 <= i < |log| :: log[i].outcome != Failed
    ensures Count(log, true, Failed) == 0
  {
    if log != [] {
      NoneFailed(log[..|log| - 1]);
    }
  }

  /** When every packet let into the queue is storable, the worker never fails. */
  lemma RunNeverFails(z: Zlib, g: Settings, events: seq<Event>)
    requires Admissible(g)
    requires var admitted := SessionMachine.Run(z, g, events).admitted;
             forall i | 0 <= i < |admitted| :: ItemStorable(z, admitted[i])
    ensures var s := SessionMachine.Run(z, g, events); s.worker != Crashed && Count(s.log, true, Failed) == 0
  {
    RunFailures(z, g, events);
    RunSafe(z, g, events);
    hide SessionMachine.Run, ItemStorable, SessionsOk;
    var s := SessionMachine.Run(z, g, events);
    forall i | 0 <= i < |s.log| ensures s.log[i].outcome != Failed {
      assert s.admitted[i] == s.log[i].item;
    }
    NoneFailed(s.log);
  }

  /** Once a run's worker has processed `stop`, no session is left open: everything recorded
      is in finalized sessions. */
  lemma StopFinalizesAll(z: Zlib, g: Settings, events: seq<Event>)
    requires Admissible(g)
    requires SessionMachine.Run(z, g, events).worker == Stopped
    ensures var s := SessionMachine.Run(z, g, events);
            && s.current.None?
            && FinishedRaws(s.finished) == RecordedRaws(s.log)
            && FinishedRows(s.finished) == RecordedRows(s.log)
  {
    RunSafe(z, g, events);
  }

  /** End to end: each finalized capture of any run, loaded by the reader, gives back exactly
      the packets recorded in that session, or is refused for passing the reader's limits
      (the recorder may be set above the reader's 2 GiB and does not limit the count). */
  lemma FinishedSessionLoads(z: Zlib, g: Settings, events: seq<Event>, i: nat)
    requires Admissible(g) && Lossless(z)
    requires i < |SessionMachine.Run(z, g, events).finished|
    ensures var f := SessionMachine.Run(z, g, events).finished[i];
            Load(z, f.file) == if Reloadable(z, true, f.packets, |f.file|)
                               then Ok(Loaded(Header(1, 1, |f.packets|, true, true), f.packets))
                               else Err(ValueError)
  {
    RunSafe(z, g, events);
    var f := SessionMachine.Run(z, g, events).finished[i];
    ClosedLoads(z, WriterState(f.file, |f.packets|, true), f.packets);
  }
}
