/** What becomes of every item: the whole log of a run is decided by the items and by the answers
    of the storage check, and every offer is accounted for. */
module SessionOutcomes {
  import opened Python
  import opened Bytes
  import opened CaptureFormat
  import opened SessionMachine
  import opened SessionSafety
  import opened SessionHistory

  // ---------- The verdict on one item ----------

  function EntrySize(z: Zlib, p: Packet): nat {
    ENTRY_HEADER_LEN + |z.deflate(p.payload)|
  }

  /** The size of the open session's capture: a header, and an entry for every packet recorded
      since the session was opened. */
  function OpenSize(z: Zlib, log: seq<Entry>): nat {
    if log == [] then 0
    else
      var e := log[|log| - 1];
      (if Opens(e) then HEADER_LEN else OpenSize(z, log[..|log| - 1])) +
      if e.item.Raw? && e.outcome == Recorded then EntrySize(z, e.item.packet) else 0
  }

  /** The size of the capture that an item of this uid goes to. */
  function SizeFor(z: Zlib, log: seq<Entry>, uid: int): nat {
    if OpenAtEnd(log) == Some(uid) then OpenSize(z, log) else HEADER_LEN
  }

  /** The outcome of an item that meets this answer after this log. */
  function Verdict(z: Zlib, g: Settings, log: seq<Entry>, item: Item, budget: bool): Outcome {
    match item
    case Raw(uid, p) =>
      if !budget then Dropped
      else if |z.deflate(p.payload)| >= U32_LIMIT then Failed
      else if SizeFor(z, log, uid) + EntrySize(z, p) > g.maxSessionMb * 1024 * 1024 then Dropped
      else Recorded
    case Sample(_) => if budget then Recorded else Dropped
    case _ => Handled
  }

  function OpenAfter(log: seq<Entry>, item: Item, budget: bool): Option<int> {
    var open := OpenAtEnd(log);
    match item
    case Raw(uid, _) => if budget then Some(uid) else open
    case Sample(row) => if budget then Some(row.uid) else open
    case Metadata(_) => open
    case Finalize(target, _) => if open == Some(target) then None else open
    case Stop => None
  }

  function WorkerAfter(item: Item, outcome: Outcome): Worker {
    if item.Stop? then Stopped else if outcome == Failed then Crashed else Running
  }

  /** The log's sizes and sessions are the recorder's. */
  predicate InStep(z: Zlib, s: Recorder) {
    && OpenUid(s) == OpenAtEnd(s.log)
    && (s.current.Some? ==>
          !s.current.value.writer.closed && |s.current.value.writer.file| == OpenSize(z, s.log))
  }

  /** Handling an item as the verdict says. */
  predicate AsJudged(z: Zlib, g: Settings, log: seq<Entry>, item: Item, budget: bool, t: Recorder, outcome: Outcome) {
    var e := Entry(item, outcome, OpenAtEnd(log), OpenUid(t));
    && outcome == Verdict(z, g, log, item, budget) && OpenUid(t) == OpenAfter(log, item, budget)
    && t.worker == WorkerAfter(item, outcome)
    && (t.current.Some? ==>
          !t.current.value.writer.closed && |t.current.value.writer.file| == OpenSize(z, log + [e]))
  }

  lemma OpenSizeStep(z: Zlib, log: seq<Entry>, e: Entry)
    ensures OpenSize(z, log + [e]) == (if Opens(e) then HEADER_LEN else OpenSize(z, log)) +
                                      (if e.item.Raw? && e.outcome == Recorded then EntrySize(z, e.item.packet) else 0)
  {
    assert (log + [e])[..|log|] == log;
  }

  /** Getting the session of a uid ready leaves a capture of the size looked for. */
  lemma EnsureInStep(z: Zlib, s: Recorder, uid: int)
    requires InStep(z, s) && s.worker == Running
    ensures var t := EnsureSession(s, uid);
            && t.current.value.uid == uid && !t.current.value.writer.closed && t.worker == Running
            && |t.current.value.writer.file| == SizeFor(z, s.log, uid)
  {
    HeaderWritten(0, true, true);
  }

  lemma RawJudged(z: Zlib, g: Settings, s: Recorder, uid: int, p: Packet, budget: bool)
    requires InStep(z, s) && s.worker == Running
    ensures var (t, outcome) := HandleRaw(z, g, s, uid, p, budget);
            AsJudged(z, g, s.log, Raw(uid, p), budget, t, outcome)
  {
    var (t, outcome) := HandleRaw(z, g, s, uid, p, budget);
    OpenSizeStep(z, s.log, Entry(Raw(uid, p), outcome, OpenAtEnd(s.log), OpenUid(t)));
    EnsureInStep(z, s, uid);
    var m := Message(p, true);
    if EntryToBytes(z, true, m).Ok? {
      EntryLayout(z, true, m);
    }
    hide EnsureSession, EntryToBytes, OpenSize;
  }

  lemma SampleJudged(z: Zlib, g: Settings, s: Recorder, row: SampleRow, budget: bool)
    requires InStep(z, s) && s.worker == Running
    ensures var (t, outcome) := HandleSample(s, row, budget);
            AsJudged(z, g, s.log, Sample(row), budget, t, outcome)
  {
    var (t, outcome) := HandleSample(s, row, budget);
    OpenSizeStep(z, s.log, Entry(Sample(row), outcome, OpenAtEnd(s.log), OpenUid(t)));
    EnsureInStep(z, s, row.uid);
    hide EnsureSession, OpenSize;
  }

  lemma HandleJudged(z: Zlib, g: Settings, s: Recorder, item: Item, budget: bool)
    requires InStep(z, s) && s.worker == Running
    ensures var (t, outcome) := Handle(z, g, s, item, budget); AsJudged(z, g, s.log, item, budget, t, outcome)
  {
    hide HandleRaw, HandleSample, OpenSize;
    match item {
      case Raw(uid, p) =>
        RawJudged(z, g, s, uid, p, budget);
      case Sample(row) =>
        SampleJudged(z, g, s, row, budget);
      case _ =>
        var (t, outcome) := Handle(z, g, s, item, budget);
        OpenSizeStep(z, s.log, Entry(item, outcome, OpenAtEnd(s.log), OpenUid(t)));
    }
  }

  // ---------- Runs ----------

  predicate Works(s: Recorder, e: Event) {
    e.Turn? && s.worker == Running && s.queue != []
  }

  /** The storage check's answers, one for each item the worker handled. */
  function Answers(z: Zlib, g: Settings, events: seq<Event>): seq<bool> {
    if events == [] then []
    else
      var front, e := events[..|events| - 1], events[|events| - 1];
      Answers(z, g, front) + if Works(Run(z, g, front), e) then [e.budget] else []
  }

  predicate EntryJudged(z: Zlib, g: Settings, front: seq<Entry>, e: Entry, budget: bool) {
    && e.outcome == Verdict(z, g, front, e.item, budget)
    && e.before == OpenAtEnd(front) && e.after == OpenAfter(front, e.item, budget)
  }

  predicate LogJudged(z: Zlib, g: Settings, log: seq<Entry>, answers: seq<bool>) {
    |answers| == |log| && forall i | 0 <= i < |log| :: EntryJudged(z, g, log[..i], log[i], answers[i])
  }

  lemma LogJudgedStep(z: Zlib, g: Settings, log: seq<Entry>, answers: seq<bool>, e: Entry, budget: bool)
    requires LogJudged(z, g, log, answers) && EntryJudged(z, g, log, e, budget)
    ensures LogJudged(z, g, log + [e], answers + [budget])
  {
    hide EntryJudged;
    var all := log + [e];
    forall i | 0 <= i < |all| ensures EntryJudged(z, g, all[..i], all[i], (answers + [budget])[i]) {
      assert all[..i] == log[..i];
    }
  }

  lemma TurnJudged(z: Zlib, g: Settings, s: Recorder, budget: bool)
    requires InStep(z, s) && Works(s, Turn(budget))
    ensures var t := Step(z, g, s, Turn(budget));
            && InStep(z, t) && |t.log| == |s.log| + 1 && t.log == s.log + [t.log[|s.log|]]
            && var e := t.log[|s.log|];
               e.item == s.queue[0] && EntryJudged(z, g, s.log, e, budget) && t.worker == WorkerAfter(e.item, e.outcome)
  {
    hide Handle, OpenSize, Verdict, OpenAfter;
    TurnShape(z, g, s, budget);
    HandleJudged(z, g, s.(queue := s.queue[1..]), s.queue[0], budget);
  }

  lemma QuietInStep(z: Zlib, g: Settings, s: Recorder, e: Event)
    requires InStep(z, s) && !Works(s, e)
    ensures InStep(z, Step(z, g, s, e)) && Step(z, g, s, e).log == s.log
  {
    hide OpenSize, Handle;
    QuietStep(z, g, s, e);
  }

  /** In every run the log of handled items is exactly as judged: a sample is recorded if and only
      if the storage check allows it; a packet is recorded if and only if it is allowed, fits the
      length field, and its entry fits the session limit on top of what its session's capture
      already holds, or on top of a new capture's header when its uid is not the open one. */
  lemma {:induction false} RunJudged(z: Zlib, g: Settings, events: seq<Event>)
    ensures var s := Run(z, g, events); InStep(z, s) && LogJudged(z, g, s.log, Answers(z, g, events))
  {
    if events != [] {
      hide Step, InStep, LogJudged, EntryJudged;
      var front, e := events[..|events| - 1], events[|events| - 1];
      var s := Run(z, g, front);
      RunJudged(z, g, front);
      if Works(s, e) {
        TurnJudged(z, g, s, e.budget);
        var t := Step(z, g, s, e);
        LogJudgedStep(z, g, s.log, Answers(z, g, front), t.log[|s.log|], e.budget);
      } else {
        QuietInStep(z, g, s, e);
        assert Answers(z, g, front) + [] == Answers(z, g, front);
      }
    } else {
      NothingLogged(z, g);
    }
  }

  lemma NothingLogged(z: Zlib, g: Settings)
    ensures InStep(z, Initial()) && LogJudged(z, g, [], [])
  {
  }

  /** The rows of the samples that the storage check allowed. */
  function AllowedRows(items: seq<Item>, answers: seq<bool>): seq<SampleRow>
    requires |answers| == |items|
  {
    if items == [] then []
    else
      var n := |items| - 1;
      AllowedRows(items[..n], answers[..n]) + if items[n].Sample? && answers[n] then [items[n].row] else []
  }

  lemma JudgedFront(z: Zlib, g: Settings, log: seq<Entry>, answers: seq<bool>)
    requires LogJudged(z, g, log, answers) && log != []
    ensures var n := |log| - 1;
            LogJudged(z, g, log[..n], answers[..n]) && EntryJudged(z, g, log[..n], log[n], answers[n])
  {
    hide EntryJudged;
    var n := |log| - 1;
    forall i | 0 <= i < n ensures EntryJudged(z, g, log[..n][..i], log[..n][i], answers[..n][i]) {
      assert log[..n][..i] == log[..i];
    }
  }

  lemma {:induction false} RowsOfLog(z: Zlib, g: Settings, log: seq<Entry>, answers: seq<bool>)
    requires LogJudged(z, g, log, answers)
    ensures RecordedRows(log) == AllowedRows(Items(log), answers)
  {
    if log != [] {
      hide LogJudged;
      var n := |log| - 1;
      JudgedFront(z, g, log, answers);
      RowsOfLog(z, g, log[..n], answers[..n]);
      assert Items(log)[..n] == Items(log[..n]);
    }
  }

  /** In every run, the rows stored in the sessions are those of exactly the samples the storage
      check allowed, in queue order. */
  lemma RunStoresAllowed(z: Zlib, g: Settings, events: seq<Event>)
    requires Admissible(g)
    ensures var s := Run(z, g, events);
            && |Answers(z, g, events)| == |s.log|
            && StoredRows(s) == RecordedRows(s.log) == AllowedRows(Items(s.log), Answers(z, g, events))
  {
    RunSafe(z, g, events);
    RunJudged(z, g, events);
    RowsOfLog(z, g, Run(z, g, events).log, Answers(z, g, events));
  }

  // ---------- One answer throughout ----------

  lemma {:induction false} AnswersAre(z: Zlib, g: Settings, events: seq<Event>, budget: bool)
    requires forall i | 0 <= i < |events| && events[i].Turn? :: events[i].budget == budget
    ensures forall i | 0 <= i < |Answers(z, g, events)| :: Answers(z, g, events)[i] == budget
  {
    if events != [] {
      AnswersAre(z, g, events[..|events| - 1], budget);
    }
  }

  function AllRows(items: seq<Item>): seq<SampleRow> {
    if items == [] then []
    else AllRows(items[..|items| - 1]) + if items[|items| - 1].Sample? then [items[|items| - 1].row] else []
  }

  function AllRaws(items: seq<Item>): seq<Tagged> {
    if items == [] then []
    else
      var last := items[|items| - 1];
      AllRaws(items[..|items| - 1]) + if last.Raw? then [Tagged(last.uid, last.packet)] else []
  }

  lemma {:induction false} AllowedAll(items: seq<Item>, answers: seq<bool>, budget: bool)
    requires |answers| == |items| && forall i | 0 <= i < |answers| :: answers[i] == budget
    ensures AllowedRows(items, answers) == if budget then AllRows(items) else []
  {
    if items != [] {
      var n := |items| - 1;
      AllowedAll(items[..n], answers[..n], budget);
    }
  }

  lemma {:induction false} NoRawsAllowed(z: Zlib, g: Settings, log: seq<Entry>, answers: seq<bool>)
    requires LogJudged(z, g, log, answers) && forall i | 0 <= i < |answers| :: !answers[i]
    ensures RecordedRaws(log) == []
  {
    if log != [] {
      JudgedFront(z, g, log, answers);
      hide LogJudged;
      NoRawsAllowed(z, g, log[..|log| - 1], answers[..|log| - 1]);
    }
  }

  /** While the storage check always allows, every sample taken off the queue is stored. */
  lemma AlwaysAllowed(z: Zlib, g: Settings, events: seq<Event>)
    requires Admissible(g)
    requires forall i | 0 <= i < |events| && events[i].Turn? :: events[i].budget
    ensures var s := Run(z, g, events); StoredRows(s) == AllRows(Items(s.log))
  {
    RunStoresAllowed(z, g, events);
    AnswersAre(z, g, events, true);
    AllowedAll(Items(Run(z, g, events).log), Answers(z, g, events), true);
  }

  /** While it never allows, nothing is stored at all. */
  lemma NeverAllowed(z: Zlib, g: Settings, events: seq<Event>)
    requires Admissible(g)
    requires forall i | 0 <= i < |events| && events[i].Turn? :: !events[i].budget
    ensures var s := Run(z, g, events); StoredRows(s) == [] && StoredRaws(s) == []
  {
    RunStoresAllowed(z, g, events);
    RunSafe(z, g, events);
    RunJudged(z, g, events);
    AnswersAre(z, g, events, false);
    var s := Run(z, g, events);
    AllowedAll(Items(s.log), Answers(z, g, events), false);
    NoRawsAllowed(z, g, s.log, Answers(z, g, events));
  }

  /** The bytes that all packets of a list of items take. */
  function TotalSize(z: Zlib, items: seq<Item>): nat {
    if items == [] then 0
    else
      var last := items[|items| - 1];
      TotalSize(z, items[..|items| - 1]) + if last.Raw? then EntrySize(z, last.packet) else 0
  }

  lemma {:induction false} OpenSizeAtMost(z: Zlib, log: seq<Entry>)
    ensures OpenSize(z, log) <= HEADER_LEN + TotalSize(z, Items(log))
  {
    if log != [] {
      OpenSizeAtMost(z, log[..|log| - 1]);
      assert Items(log)[..|log| - 1] == Items(log[..|log| - 1]);
    }
  }

  lemma RoomForOne(z: Zlib, g: Settings, front: seq<Entry>, e: Entry)
    requires EntryJudged(z, g, front, e, true) && ItemStorable(z, e.item)
    requires HEADER_LEN + TotalSize(z, Items(front)) + (if e.item.Raw? then EntrySize(z, e.item.packet) else 0)
             <= MaxSessionBytes(g)
    ensures e.item.Raw? ==> e.outcome == Recorded
  {
    hide OpenSize, TotalSize;
    OpenSizeAtMost(z, front);
  }

  lemma {:induction false} RoomForAll(z: Zlib, g: Settings, log: seq<Entry>, answers: seq<bool>)
    requires LogJudged(z, g, log, answers) && forall i | 0 <= i < |answers| :: answers[i]
    requires HEADER_LEN + TotalSize(z, Items(log)) <= MaxSessionBytes(g)
    requires forall i | 0 <= i < |log| :: ItemStorable(z, log[i].item)
    ensures RecordedRaws(log) == AllRaws(Items(log))
  {
    if log != [] {
      var n := |log| - 1;
      JudgedFront(z, g, log, answers);
      hide LogJudged, OpenSize, EntryJudged;
      assert Items(log)[..n] == Items(log[..n]);
      RoomForOne(z, g, log[..n], log[n]);
      RoomForAll(z, g, log[..n], answers[..n]);
    }
  }

  /** While the storage check always allows and all packets taken off the queue would fit one
      session, every one of them is stored. */
  lemma NothingDropped(z: Zlib, g: Settings, events: seq<Event>)
    requires Admissible(g)
    requires forall i | 0 <= i < |events| && events[i].Turn? :: events[i].budget
    requires var log := Run(z, g, events).log;
             && HEADER_LEN + TotalSize(z, Items(log)) <= MaxSessionBytes(g)
             && forall i | 0 <= i < |log| :: ItemStorable(z, log[i].item)
    ensures var s := Run(z, g, events); StoredRaws(s) == AllRaws(Items(s.log))
  {
    RunSafe(z, g, events);
    RunJudged(z, g, events);
    AnswersAre(z, g, events, true);
    RoomForAll(z, g, Run(z, g, events).log, Answers(z, g, events));
  }

  // ---------- The worker ----------

  lemma RunOneMore(z: Zlib, g: Settings, events: seq<Event>, e: Event)
    ensures Run(z, g, events + [e]) == Step(z, g, Run(z, g, events), e)
  {
    assert (events + [e])[..|events|] == events;
  }

  /** A turn takes the oldest item; the worker ends with `stop`, crashes on a packet that does not
      fit its length field, and otherwise goes on. */
  lemma TurnHandles(z: Zlib, g: Settings, events: seq<Event>, budget: bool)
    requires Works(Run(z, g, events), Turn(budget))
    ensures var s, t := Run(z, g, events), Run(z, g, events + [Turn(budget)]);
            var item, outcome := s.queue[0], Verdict(z, g, s.log, s.queue[0], budget);
            && t.queue == s.queue[1..] && t.admitted == s.admitted
            && t.log == s.log + [Entry(item, outcome, OpenUid(s), OpenAfter(s.log, item, budget))]
            && t.worker == (if item == Stop then Stopped else if outcome == Failed then Crashed else Running)
            && (item == Stop ==> t.current.None?)
  {
    var s := Run(z, g, events);
    RunOneMore(z, g, events, Turn(budget));
    RunJudged(z, g, events);
    TurnJudged(z, g, s, budget);
    TurnShape(z, g, s, budget);
  }

  /** Starting gives the recorder a working worker and touches nothing else; after stop is processed
      the task is given up; and a turn without a working worker or an item does nothing. */
  lemma WorkerLifecycle(z: Zlib, g: Settings, events: seq<Event>, budget: bool)
    ensures Run(z, g, events + [Start]) == Run(z, g, events).(worker := Running)
    ensures var s := Run(z, g, events);
            && Run(z, g, events + [Reap]) == (if s.worker == Stopped then s.(worker := NoTask) else s)
            && (s.worker != Running || s.queue == [] ==> Run(z, g, events + [Turn(budget)]) == s)
  {
    RunOneMore(z, g, events, Start);
    RunOneMore(z, g, events, Reap);
    RunOneMore(z, g, events, Turn(budget));
    hide Handle, Run;
  }

  // ---------- Offers ----------

  /** When an offer enters the queue. */
  predicate LetIn(g: Settings, s: Recorder, e: Event) {
    && |s.queue| < g.capacity
    && match e
       case OfferRaw(uid, _) => g.recording && uid > 0
       case OfferSample(_) => g.recording
       case OfferMetadata(_) => g.recording
       case AskFinalize(_, _) => s.worker != NoTask
       case AskStop => s.worker != NoTask
       case _ => false
  }

  /** A packet or sample that only lack of room keeps out. */
  predicate Wanted(g: Settings, e: Event) {
    g.recording && ((e.OfferRaw? && e.uid > 0) || e.OfferSample?)
  }

  /** An offer enters the end of the queue exactly when recording is on (for a control item, when
      there is a worker), there is room and, for a packet, the uid is positive. Only a packet or
      sample kept out by lack of room is counted as dropped, and nothing else changes. */
  lemma OfferEnters(z: Zlib, g: Settings, events: seq<Event>, e: Event)
    requires Offered(e).Some?
    ensures var s, t := Run(z, g, events), Run(z, g, events + [e]);
            && t.queue == s.queue + (if LetIn(g, s, e) then [Offered(e).value] else [])
            && t.admitted == s.admitted + (if LetIn(g, s, e) then [Offered(e).value] else [])
            && t.droppedRaw == s.droppedRaw + (if Wanted(g, e) && e.OfferRaw? && !LetIn(g, s, e) then 1 else 0)
            && t.droppedSamples ==
               s.droppedSamples + (if Wanted(g, e) && e.OfferSample? && !LetIn(g, s, e) then 1 else 0)
            && t.current == s.current && t.finished == s.finished && t.pending == s.pending
            && t.worker == s.worker && t.log == s.log
  {
    RunOneMore(z, g, events, e);
  }

  function CountSamples(items: seq<Item>): nat {
    if items == [] then 0 else CountSamples(items[..|items| - 1]) + if items[|items| - 1].Sample? then 1 else 0
  }

  lemma {:induction false} CountSamplesConcat(a: seq<Item>, b: seq<Item>)
    ensures CountSamples(a + b) == CountSamples(a) + CountSamples(b)
  {
    if b == [] {
      assert a + b == a;
    } else {
      assert (a + b)[..|a + b| - 1] == a + b[..|b| - 1];
      CountSamplesConcat(a, b[..|b| - 1]);
    }
  }

  /** The packets, or the samples, that producers offered past the guard. */
  function Offers(g: Settings, events: seq<Event>, raw: bool): nat {
    if events == [] then 0
    else
      var e := events[|events| - 1];
      Offers(g, events[..|events| - 1], raw) + if Wanted(g, e) && e.OfferRaw? == raw then 1 else 0
  }

  lemma OfferCounted(z: Zlib, g: Settings, s: Recorder, e: Event)
    ensures var t := Step(z, g, s, e);
            && CountRaws(t.admitted) + t.refusedRaw
               == CountRaws(s.admitted) + s.refusedRaw + (if Wanted(g, e) && e.OfferRaw? then 1 else 0)
            && CountSamples(t.admitted) + t.refusedSamples
               == CountSamples(s.admitted) + s.refusedSamples + (if Wanted(g, e) && e.OfferSample? then 1 else 0)
  {
    hide Handle;
    if Works(s, e) {
      hide Step;
      TurnShape(z, g, s, e.budget);
    } else if Offered(e).Some? {
      CountOneMore(s.admitted, Offered(e).value);
      hide CountRaws, CountSamples;
    }
  }

  lemma CountOneMore(items: seq<Item>, item: Item)
    ensures CountRaws(items + [item]) == CountRaws(items) + if item.Raw? then 1 else 0
    ensures CountSamples(items + [item]) == CountSamples(items) + if item.Sample? then 1 else 0
  {
    assert (items + [item])[..|items|] == items;
  }

  lemma {:induction false} OffersCounted(z: Zlib, g: Settings, events: seq<Event>)
    ensures var s := Run(z, g, events);
            && Offers(g, events, true) == CountRaws(s.admitted) + s.refusedRaw
            && Offers(g, events, false) == CountSamples(s.admitted) + s.refusedSamples
  {
    if events != [] {
      hide Step;
      var front := events[..|events| - 1];
      OffersCounted(z, g, front);
      OfferCounted(z, g, Run(z, g, front), events[|events| - 1]);
    }
  }

  lemma {:induction false} SamplesOfLog(z: Zlib, g: Settings, log: seq<Entry>, answers: seq<bool>)
    requires LogJudged(z, g, log, answers)
    ensures CountSamples(Items(log)) == |RecordedRows(log)| + Count(log, false, Dropped)
  {
    if log != [] {
      JudgedFront(z, g, log, answers);
      hide LogJudged;
      SamplesOfLog(z, g, log[..|log| - 1], answers[..|log| - 1]);
      assert Items(log)[..|log| - 1] == Items(log[..|log| - 1]);
    }
  }

  /** Conservation from the producers' side: every packet and every sample offered past the guard
      is still queued, stored, or counted as dropped; only a packet that made the worker fail is
      in none of them. */
  lemma OffersConserved(z: Zlib, g: Settings, events: seq<Event>)
    requires Admissible(g)
    ensures var s := Run(z, g, events);
            && Offers(g, events, true)
               == CountRaws(s.queue) + |StoredRaws(s)| + s.droppedRaw + Count(s.log, true, Failed)
            && Offers(g, events, false) == CountSamples(s.queue) + |StoredRows(s)| + s.droppedSamples
  {
    hide Run, LogJudged, InStep, SessionsOk;
    var s := Run(z, g, events);
    OffersCounted(z, g, events);
    RawsConserved(z, g, events);
    RunSafe(z, g, events);
    RunJudged(z, g, events);
    SamplesOfLog(z, g, s.log, Answers(z, g, events));
    CountSamplesConcat(Items(s.log), s.queue);
  }
}
