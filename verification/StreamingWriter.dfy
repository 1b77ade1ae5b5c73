/** The incremental capture writer: a file that is a valid prefix of a capture after every
    call, and the batch writer's file once closed. */
module StreamingWriter {
  import opened Python
  import opened Bytes
  import opened CaptureFormat
  import opened CaptureFile
  import C = PacketCapture

  // ---------- Specification ----------

  datatype WriterState = WriterState(file: bytes, count: nat, closed: bool)

  function HeaderOf(count: nat): Result<bytes> {
    HeaderToBytes(Header(1, 1, count, true, true))
  }

  function Opened(): WriterState {
    WriterState(HeaderOf(0).value, 0, false)
  }

  /** One write: the entry is appended, or refused because it would pass `maxBytes`. */
  function AfterWrite(z: Zlib, s: WriterState, p: Packet, maxBytes: Option<int>): (WriterState, Result<bool>) {
    if s.closed then (s, Err(RuntimeError))
    else match EntryToBytes(z, true, Message(p, true))
      case Err(e) => (s, Err(e))
      case Ok(entry) =>
        if maxBytes.Some? && |s.file| + |entry| > maxBytes.value then (s, Ok(false))
        else (s.(file := s.file + entry, count := s.count + 1), Ok(true))
  }

  /** Closing rewrites the header in place, with the final count. */
  function AfterClose(s: WriterState): (WriterState, Result<()>) {
    if s.closed then (s, Ok(()))
    else match HeaderOf(s.count)
      case Err(e) => (s, Err(e))
      case Ok(header) =>
        (s.(file := if |s.file| < HEADER_LEN then header else header + s.file[HEADER_LEN..], closed := true), Ok(()))
  }

  datatype WriterCall = Write(packet: Packet, maxBytes: Option<int>) | Close

  function AfterCall(z: Zlib, s: WriterState, c: WriterCall): WriterState {
    match c
    case Write(p, maxBytes) => AfterWrite(z, s, p, maxBytes).0
    case Close => AfterClose(s).0
  }

  function Run(z: Zlib, calls: seq<WriterCall>): WriterState {
    if calls == [] then Opened() else AfterCall(z, Run(z, calls[..|calls| - 1]), calls[|calls| - 1])
  }

  /** The packets a run reported as written, in order. */
  function Accepted(z: Zlib, calls: seq<WriterCall>): seq<Packet> {
    if calls == [] then []
    else
      var before, last := calls[..|calls| - 1], calls[|calls| - 1];
      Accepted(z, before) +
      if last.Write? && AfterWrite(z, Run(z, before), last.packet, last.maxBytes).1 == Ok(true)
      then [last.packet] else []
  }

  // ---------- Properties ----------

  /** The file is a header followed by the accepted entries and nothing else; the header
      counts them once the writer is closed and says zero before. */
  ghost predicate WellFormed(z: Zlib, s: WriterState, accepted: seq<Packet>) {
    && s.count == |accepted|
    && HeaderOf(if s.closed then s.count else 0).Ok?
    && EncodeEntries(z, true, InOrder(accepted, true)).Ok?
    && s.file == HeaderOf(if s.closed then s.count else 0).value + EncodeEntries(z, true, InOrder(accepted, true)).value
  }

  lemma OpenedWellFormed(z: Zlib)
    ensures WellFormed(z, Opened(), [])
  {
    assert InOrder([], true) == [];
    assert HeaderOf(0).value + [] == HeaderOf(0).value;
  }

  lemma EncodeOneMore(z: Zlib, accepted: seq<Packet>, p: Packet)
    requires EncodeEntries(z, true, InOrder(accepted, true)).Ok? && EntryToBytes(z, true, Message(p, true)).Ok?
    ensures EncodeEntries(z, true, InOrder(accepted + [p], true))
            == Ok(EncodeEntries(z, true, InOrder(accepted, true)).value + EntryToBytes(z, true, Message(p, true)).value)
  {
    hide EncodeEntries, EntryToBytes;
    assert InOrder(accepted + [p], true) == InOrder(accepted, true) + [Message(p, true)];
    EncodeAppend(z, true, InOrder(accepted, true), Message(p, true));
  }

  /** An open writer accepts a packet exactly when its compressed form fits the length field and its
      entry of eight bytes more fits the limit, if there is one; a closed one accepts none. */
  lemma WriteAccepts(z: Zlib, s: WriterState, p: Packet, maxBytes: Option<int>)
    ensures var (s', r) := AfterWrite(z, s, p, maxBytes);
            var size := 8 + |z.deflate(p.payload)|;
            && r == (if s.closed then Err(RuntimeError)
                     else if |z.deflate(p.payload)| >= 0x1_0000_0000 then Err(StructError)
                     else Ok(maxBytes.None? || |s.file| + size <= maxBytes.value))
            && (r == Ok(true) ==> |s'.file| == |s.file| + size && s'.count == s.count + 1 && !s'.closed)
            && (r != Ok(true) ==> s' == s)
  {
    if EntryToBytes(z, true, Message(p, true)).Ok? {
      EntryLayout(z, true, Message(p, true));
    }
  }

  lemma WriteWellFormed(z: Zlib, s: WriterState, accepted: seq<Packet>, p: Packet, maxBytes: Option<int>)
    requires WellFormed(z, s, accepted)
    ensures var (s', r) := AfterWrite(z, s, p, maxBytes);
            WellFormed(z, s', if r == Ok(true) then accepted + [p] else accepted)
  {
    hide EncodeEntries, EntryToBytes, HeaderOf;
    if AfterWrite(z, s, p, maxBytes).1 == Ok(true) {
      EncodeOneMore(z, accepted, p);
      var header, before := HeaderOf(0).value, EncodeEntries(z, true, InOrder(accepted, true)).value;
      var entry := EntryToBytes(z, true, Message(p, true)).value;
      assert header + before + entry == header + (before + entry);
    }
  }

  lemma CloseWellFormed(z: Zlib, s: WriterState, accepted: seq<Packet>)
    requires WellFormed(z, s, accepted)
    ensures WellFormed(z, AfterClose(s).0, accepted)
    ensures |AfterClose(s).0.file| == |s.file|
  {
    if !s.closed {
      var before := EncodeEntries(z, true, InOrder(accepted, true)).value;
      assert s.file[HEADER_LEN..] == before;
    }
  }

  /** At every point of every run, whatever the calls and limits. */
  lemma {:induction false} RunWellFormed(z: Zlib, calls: seq<WriterCall>)
    ensures WellFormed(z, Run(z, calls), Accepted(z, calls))
  {
    if calls == [] {
      OpenedWellFormed(z);
    } else {
      var before, last := calls[..|calls| - 1], calls[|calls| - 1];
      RunWellFormed(z, before);
      match last {
        case Write(p, maxBytes) =>
          WriteWellFormed(z, Run(z, before), Accepted(z, before), p, maxBytes);
          assert Accepted(z, before) + [] == Accepted(z, before);
        case Close =>
          CloseWellFormed(z, Run(z, before), Accepted(z, before));
          assert Accepted(z, before) + [] == Accepted(z, before);
      }
    }
  }

  /** Under one limit used for every write, no run grows the file past it. */
  lemma {:induction false} RunWithinLimit(z: Zlib, calls: seq<WriterCall>, limit: int)
    requires limit >= HEADER_LEN
    requires forall c | c in calls && c.Write? :: c.maxBytes == Some(limit)
    ensures |Run(z, calls).file| <= limit
  {
    if calls != [] {
      var before, last := calls[..|calls| - 1], calls[|calls| - 1];
      RunWithinLimit(z, before, limit);
      RunWellFormed(z, before);
      CloseWellFormed(z, Run(z, before), Accepted(z, before));
      assert last in calls;
    }
  }

  /** A closed writer has written exactly the batch writer's file for the same packets,
      compressed, on a little-endian host. */
  lemma ClosedEqualsBatch(z: Zlib, s: WriterState, accepted: seq<Packet>)
    requires WellFormed(z, s, accepted) && s.closed
    ensures DumpBytes(z, true, Some(true), true, |accepted|, InOrder(accepted, true)) == Ok(s.file)
  {
  }

  /** So a reader gets back exactly the accepted packets, if they are within its limits. */
  lemma ClosedLoads(z: Zlib, s: WriterState, accepted: seq<Packet>)
    requires Lossless(z)
    requires WellFormed(z, s, accepted) && s.closed
    ensures Load(z, s.file) == if Reloadable(z, true, accepted, |s.file|)
                               then Ok(Loaded(Header(1, 1, |accepted|, true, true), accepted))
                               else Err(ValueError)
  {
    ClosedEqualsBatch(z, s, accepted);
    DumpLoadRoundTrip(z, true, true, accepted);
  }

  /** A file that was never closed, as a crash leaves it, announces no packets. It loads to all the
      accepted packets if they are within the reader's limits, but delivers them only while they
      stay in memory, none once they are streamed, and no dump of it writes anything. */
  lemma UnclosedLeaves(z: Zlib, host: bool, s: WriterState, accepted: seq<Packet>, compressed: bool)
    requires Lossless(z)
    requires WellFormed(z, s, accepted) && !s.closed
    ensures Load(z, s.file) == if Reloadable(z, true, accepted, |s.file|)
                               then Ok(Loaded(Header(1, 1, 0, true, true), accepted))
                               else Err(ValueError)
    ensures Reloadable(z, true, accepted, |s.file|) ==>
              var c := C.AfterLoad(C.Unread(host), s.file, Load(z, s.file).value);
              && C.PacketsOf(z, c) == Stream(if C.Exceeds(accepted) then [] else accepted, true)
              && C.DumpOf(z, host, C.AfterSetCompressed(c, compressed)) == Ok(None)
  {
    DumpLoadCounted(z, true, true, 0, accepted);
    if Reloadable(z, true, accepted, |s.file|) {
      C.LoadedPackets(z, host, s.file);
      StreamFileAgrees(z, s.file);
      hide Load, StreamFile, C.Exceeds, Reloadable, WellFormed;
      assert [] + InOrder(accepted, true) == InOrder(accepted, true);
      assert Packets(InOrder(accepted, true)) == accepted;
    }
  }

  /** The writer does not know the limits: a payload over 64 KiB is written and cannot be
      read back. */
  lemma OversizedPacketUnreadable(z: Zlib, p: Packet)
    requires Lossless(z)
    requires |p.payload| > 64 * 1024 && |z.deflate(p.payload)| < U32_LIMIT
    ensures var calls := [Write(p, None), Close];
            && Accepted(z, calls) == [p] && Run(z, calls).closed
            && Load(z, Run(z, calls).file) == Err(ValueError)
  {
    var calls := [Write(p, None), Close];
    assert calls[..1] == [Write(p, None)] && calls[..1][..0] == [];
    RunWellFormed(z, calls);
    assert Accepted(z, calls) == [p] by {
      assert Accepted(z, calls[..1]) == [p];
    }
    ClosedLoads(z, Run(z, calls), Accepted(z, calls));
    assert !EntryFits(z, true, [p][0]);
  }

  // ---------- The object ----------

  class StreamingPacketCaptureWriter {
    const z: Zlib
    var file: bytes
    var count: nat
    var closed: bool
    ghost var accepted: seq<Packet>

    function State(): WriterState
      reads this
    {
      WriterState(file, count, closed)
    }

    ghost predicate Valid()
      reads this
    {
      WellFormed(z, State(), accepted)
    }

    constructor (z: Zlib)
      ensures Valid() && this.z == z && State() == Opened() && accepted == []
    {
      this.z := z;
      file := HeaderToBytes(Header(1, 1, 0, true, true)).value;
      count, closed := 0, false;
      accepted := [];
      new;
      OpenedWellFormed(z);
    }

    method Write(p: Packet, maxBytes: Option<int>) returns (r: Result<bool>)
      requires Valid()
      modifies this
      ensures Valid()
      ensures (State(), r) == AfterWrite(z, old(State()), p, maxBytes)
      ensures accepted == if r == Ok(true) then old(accepted) + [p] else old(accepted)
      ensures maxBytes.Some? && old(|file|) <= maxBytes.value ==> |file| <= maxBytes.value
    {
      WriteWellFormed(z, State(), accepted, p, maxBytes);
      if closed {
        return Err(RuntimeError);
      }
      var entry :- EntryToBytes(z, true, Message(p, true));
      if maxBytes.Some? && |file| + |entry| > maxBytes.value {
        return Ok(false);
      }
      file := file + entry;
      count := count + 1;
      accepted := accepted + [p];
      r := Ok(true);
    }

    method CloseFile() returns (r: Result<()>)
      requires Valid()
      modifies this
      ensures Valid()
      ensures (State(), r) == AfterClose(old(State()))
      ensures accepted == old(accepted) && |file| == old(|file|)
      ensures r.Ok? ==> DumpBytes(z, true, Some(true), true, |accepted|, InOrder(accepted, true)) == Ok(file)
    {
      CloseWellFormed(z, State(), accepted);
      if closed {
        return Ok(());
      }
      var header :- HeaderToBytes(Header(1, 1, count, true, true));
      file := header + file[HEADER_LEN..];
      closed := true;
      r := Ok(());
    }
  }
}
