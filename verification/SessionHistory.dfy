/** What the worker's log tells about the sessions: which updates each one holds, and why each
    one was finalized. */
module SessionHistory {
  import opened Python
  import opened CaptureFormat
  import opened SessionMachine
  import opened SessionSafety

  // ---------- Reading the log ----------

  predicate Opens(e: Entry) {
    e.after.Some? && e.after != e.before
  }

  predicate Ends(e: Entry) {
    e.before.Some? && e.after != e.before
  }

  /** An update for another session than the open one. */
  predicate Waits(e: Entry) {
    e.item.Metadata? && e.before != Some(e.item.update.uid)
  }

  function OpenAtEnd(log: seq<Entry>): Option<int> {
    if log == [] then None else log[|log| - 1].after
  }

  /** What an item does to the open session. */
  predicate Follows(e: Entry) {
    match e.item
    case Raw(uid, _) => e.after == Some(uid) || (e.outcome == Dropped && e.after == e.before)
    case Sample(row) => e.after == Some(row.uid) || (e.outcome == Dropped && e.after == e.before)
    case Metadata(_) => e.after == e.before
    case Finalize(target, _) => e.after == if e.before == Some(target) then None else e.before
    case Stop => e.after == None
  }

  predicate Chained(log: seq<Entry>) {
    forall i | 0 <= i < |log| :: log[i].before == OpenAtEnd(log[..i]) && Follows(log[i])
  }

  /** The last update that waits, since a session was last opened. */
  function LastWaiting(log: seq<Entry>): Option<Update> {
    if log == [] then None
    else
      var e := log[|log| - 1];
      if Opens(e) then None else if Waits(e) then Some(e.item.update) else LastWaiting(log[..|log| - 1])
  }

  /** The updates of the session open at the end of the log: the one waiting when it was opened,
      if that was for its uid, and then all for its uid that were handled while it was open. */
  function Held(log: seq<Entry>): seq<Update> {
    if log == [] then []
    else
      var e, front := log[|log| - 1], log[..|log| - 1];
      if Opens(e) then
        var waiting := LastWaiting(front);
        if waiting.Some? && waiting.value.uid == e.after.value then [waiting.value] else []
      else if e.item.Metadata? && !Waits(e) then Held(front) + [e.item.update]
      else Held(front)
  }

  function ReasonOf(item: Item): string {
    match item
    case Raw(_, _) => "session-uid-changed"
    case Sample(_) => "session-uid-changed"
    case Metadata(_) => ""
    case Finalize(_, reason) => reason
    case Stop => "application-shutdown"
  }

  datatype Ending = Ending(uid: int, reason: string, metadata: seq<Update>)

  /** The sessions that ended, in order. */
  function Endings(log: seq<Entry>): seq<Ending> {
    if log == [] then []
    else
      var e, front := log[|log| - 1], log[..|log| - 1];
      Endings(front) + if Ends(e) then [Ending(e.before.value, ReasonOf(e.item), Held(front))] else []
  }

  function Told(fs: seq<Finished>): (es: seq<Ending>)
    ensures |es| == |fs|
    ensures forall i | 0 <= i < |fs| :: es[i] == Ending(fs[i].uid, fs[i].reason, fs[i].metadata)
  {
    seq(|fs|, i requires 0 <= i < |fs| => Ending(fs[i].uid, fs[i].reason, fs[i].metadata))
  }

  function PendingOf(waiting: Option<Update>): map<int, seq<Update>> {
    if waiting.Some? then map[waiting.value.uid := [waiting.value]] else map[]
  }

  /** All that the log tells. */
  datatype Account = Account(open: Option<int>, held: seq<Update>, waiting: Option<Update>, endings: seq<Ending>)

  function AccountOf(log: seq<Entry>): Account {
    Account(OpenAtEnd(log), Held(log), LastWaiting(log), Endings(log))
  }

  /** The sessions and the pending metadata are as told. */
  predicate Tells(a: Account, s: Recorder) {
    && OpenUid(s) == a.open
    && (s.current.Some? ==> s.current.value.metadata == a.held)
    && s.pending == PendingOf(a.waiting)
    && Told(s.finished) == a.endings
  }

  predicate Recounts(s: Recorder, log: seq<Entry>) {
    Chained(log) && Tells(AccountOf(log), s)
  }

  // ---------- One item ----------

  /** The account after one more entry. */
  function Next(a: Account, e: Entry): Account {
    Account(
      e.after,
      if Opens(e) then (if a.waiting.Some? && Some(a.waiting.value.uid) == e.after then [a.waiting.value] else [])
      else if e.item.Metadata? && !Waits(e) then a.held + [e.item.update] else a.held,
      if Opens(e) then None else if Waits(e) then Some(e.item.update) else a.waiting,
      if Ends(e) then a.endings + [Ending(e.before.value, ReasonOf(e.item), a.held)] else a.endings)
  }

  lemma AccountStep(log: seq<Entry>, e: Entry)
    ensures AccountOf(log + [e]) == Next(AccountOf(log), e)
  {
    assert (log + [e])[..|log|] == log;
  }

  lemma ChainedStep(log: seq<Entry>, e: Entry)
    requires Chained(log) && e.before == OpenAtEnd(log) && Follows(e)
    ensures Chained(log + [e])
  {
    hide Follows;
    var all := log + [e];
    forall i | 0 <= i < |all| ensures all[i].before == OpenAtEnd(all[..i]) && Follows(all[i]) {
      assert all[..i] == log[..i];
    }
  }

  /** Finalizing tells of one more ending. */
  lemma FinalizeTells(a: Account, s: Recorder, reason: string)
    requires Tells(a, s)
    ensures var t := FinalizeCurrent(s, reason);
            && OpenUid(t) == None && t.pending == s.pending
            && Told(t.finished) ==
               if a.open.Some? then a.endings + [Ending(a.open.value, reason, a.held)] else a.endings
  {
  }

  /** Handling an item changes the open session as the item asks, and the account with it. */
  predicate HandledAs(a: Account, s: Recorder, t: Recorder, item: Item, outcome: Outcome) {
    var e := Entry(item, outcome, OpenUid(s), OpenUid(t));
    Follows(e) && Tells(Next(a, e), t)
  }

  lemma EnsureTells(a: Account, s: Recorder, item: Item, uid: int, outcome: Outcome)
    requires Tells(a, s) && ((item.Raw? && item.uid == uid) || (item.Sample? && item.row.uid == uid))
    ensures HandledAs(a, s, EnsureSession(s, uid), item, outcome)
  {
    FinalizeTells(a, s, "session-uid-changed");
    hide Told, FinalizeCurrent;
  }

  lemma RawTells(z: Zlib, g: Settings, a: Account, s: Recorder, uid: int, p: Packet, budget: bool)
    requires Tells(a, s)
    ensures var (t, outcome) := HandleRaw(z, g, s, uid, p, budget); HandledAs(a, s, t, Raw(uid, p), outcome)
  {
    EnsureTells(a, s, Raw(uid, p), uid, HandleRaw(z, g, s, uid, p, budget).1);
    hide EnsureSession, Told;
  }

  lemma SampleTells(a: Account, s: Recorder, row: SampleRow, budget: bool)
    requires Tells(a, s)
    ensures var (t, outcome) := HandleSample(s, row, budget); HandledAs(a, s, t, Sample(row), outcome)
  {
    EnsureTells(a, s, Sample(row), row.uid, HandleSample(s, row, budget).1);
    hide EnsureSession, Told;
  }

  lemma HandleTells(z: Zlib, g: Settings, a: Account, s: Recorder, item: Item, budget: bool)
    requires Tells(a, s)
    ensures var (t, outcome) := Handle(z, g, s, item, budget); HandledAs(a, s, t, item, outcome)
  {
    hide HandleRaw, HandleSample, Told, FinalizeCurrent;
    match item {
      case Raw(uid, p) =>
        RawTells(z, g, a, s, uid, p, budget);
      case Sample(row) =>
        SampleTells(a, s, row, budget);
      case Metadata(u) =>
      case Finalize(uid, reason) =>
        FinalizeTells(a, s, reason);
      case Stop =>
        FinalizeTells(a, s, "application-shutdown");
    }
  }

  // ---------- Runs ----------

  /** The account is about the sessions and the pending metadata only. */
  lemma SameTells(a: Account, s: Recorder, t: Recorder)
    requires Tells(a, s) && s.current == t.current && s.pending == t.pending && s.finished == t.finished
    ensures Tells(a, t)
  {
  }

  lemma TurnTells(z: Zlib, g: Settings, a: Account, s: Recorder, budget: bool)
    requires Tells(a, s) && s.worker == Running && s.queue != []
    ensures var t := Step(z, g, s, Turn(budget));
            && |t.log| == |s.log| + 1 && t.log[..|s.log|] == s.log
            && var e := t.log[|s.log|];
               e.before == a.open && Follows(e) && Tells(Next(a, e), t)
  {
    var taken, t := s.(queue := s.queue[1..]), WorkerTurn(z, g, s, budget);
    SameTells(a, s, taken);
    HandleTells(z, g, a, taken, s.queue[0], budget);
    HandleCounts(z, g, taken, s.queue[0], budget);
    hide Handle, Told, Next, Follows;
    SameTells(Next(a, t.log[|s.log|]), Handle(z, g, taken, s.queue[0], budget).0, t);
  }

  lemma QuietStep(z: Zlib, g: Settings, s: Recorder, e: Event)
    ensures var t := Step(z, g, s, e);
            (e.Turn? && s.worker == Running && s.queue != []) ||
            (s.current == t.current && s.pending == t.pending && s.finished == t.finished && s.log == t.log)
  {
    hide Handle;
  }

  lemma TurnRecounts(z: Zlib, g: Settings, s: Recorder, budget: bool)
    requires Recounts(s, s.log) && s.worker == Running && s.queue != []
    ensures var t := Step(z, g, s, Turn(budget)); Recounts(t, t.log)
  {
    hide Step, Chained, Tells, Next, Follows;
    var a, t := AccountOf(s.log), Step(z, g, s, Turn(budget));
    TurnTells(z, g, a, s, budget);
    var e := t.log[|s.log|];
    assert t.log == s.log + [e];
    AccountStep(s.log, e);
    ChainedStep(s.log, e);
  }

  lemma StepRecounts(z: Zlib, g: Settings, s: Recorder, e: Event)
    requires Recounts(s, s.log)
    ensures var t := Step(z, g, s, e); Recounts(t, t.log)
  {
    if e.Turn? && s.worker == Running && s.queue != [] {
      TurnRecounts(z, g, s, e.budget);
    } else {
      QuietStep(z, g, s, e);
      hide Step, Chained, Tells, AccountOf;
      SameTells(AccountOf(s.log), s, Step(z, g, s, e));
    }
  }

  /** In every run the log is a chain of session changes, each asked for by its item, and tells
      the finalized sessions in order with their reasons and metadata, the metadata of the open
      session, and the metadata still pending. */
  lemma {:induction false} RunRecounts(z: Zlib, g: Settings, events: seq<Event>)
    ensures var s := Run(z, g, events); Recounts(s, s.log)
  {
    if events != [] {
      RunRecounts(z, g, events[..|events| - 1]);
      hide Step, Recounts;
      StepRecounts(z, g, Run(z, g, events[..|events| - 1]), events[|events| - 1]);
    } else {
      NothingRecounted();
    }
  }

  lemma NothingRecounted()
    ensures Recounts(Initial(), [])
  {
  }

  /** Why a session of this uid was finalized. */
  predicate Caused(e: Entry, uid: int, reason: string) {
    && e.before == Some(uid)
    && match e.item
       case Raw(other, _) => other != uid && e.after == Some(other) && reason == "session-uid-changed"
       case Sample(row) => row.uid != uid && e.after == Some(row.uid) && reason == "session-uid-changed"
       case Metadata(_) => false
       case Finalize(target, r) => target == uid && r == reason
       case Stop => reason == "application-shutdown"
  }

  lemma {:induction false} EndingsCaused(log: seq<Entry>, i: nat) returns (j: nat)
    requires Chained(log) && i < |Endings(log)|
    ensures j < |log| && Caused(log[j], Endings(log)[i].uid, Endings(log)[i].reason)
    ensures Endings(log)[i].metadata == Held(log[..j])
  {
    var n := |log| - 1;
    if i < |Endings(log[..n])| {
      assert Chained(log[..n]) by {
        assert forall k | 0 <= k < n :: log[..n][..k] == log[..k];
      }
      j := EndingsCaused(log[..n], i);
      assert log[..n][..j] == log[..j];
    } else {
      j := n;
    }
  }

  /** Every finalized session of every run has a cause in the log: a packet or sample of another
      uid that was let in, a finalize item for its uid carrying its reason, or stop. Its metadata
      is what the log says it held just before. */
  lemma RunCauses(z: Zlib, g: Settings, events: seq<Event>, i: nat) returns (j: nat)
    requires i < |Run(z, g, events).finished|
    ensures var s := Run(z, g, events);
            && j < |s.log| && Caused(s.log[j], s.finished[i].uid, s.finished[i].reason)
            && s.finished[i].metadata == Held(s.log[..j])
  {
    RunRecounts(z, g, events);
    hide Run;
    j := EndingsCaused(Run(z, g, events).log, i);
  }
}
