/** The in-memory capture object: packets are either held in `history`, or dropped at the
    retention threshold and streamed from the source file again. */
module PacketCapture {
  import opened Python
  import opened Bytes
  import opened CaptureFormat
  import opened CaptureFile

  // ---------- Specification ----------

  /** `announced` is the capture's compression mode, unset after loading a file; `useZlib`
      is the compression helper it currently holds. */
  datatype CaptureState = CaptureState(
    header: Header, history: seq<Message>, source: Option<bytes>, streaming: bool,
    announced: Option<bool>, useZlib: bool)

  function Fresh(host: bool, compressed: bool): CaptureState {
    CaptureState(Header(1, 1, 0, host, compressed), [], None, false, Some(compressed), compressed)
  }

  /** The object before its file is read. */
  function Unread(host: bool): CaptureState {
    CaptureState(Header(1, 0, 0, host, true), [], None, false, None, false)
  }

  /** More than the 64 MiB that are kept in memory. */
  predicate Exceeds(ps: seq<Packet>) {
    TotalBytes(ps) > 64 * 1024 * 1024
  }

  /** The history after `parsed` packets were read onto the messages of `before`. */
  function Retained(before: seq<Message>, parsed: seq<Packet>, little: bool): seq<Message> {
    if Exceeds(parsed) then [] else before + InOrder(parsed, little)
  }

  /** The object after reading a file, also when the read fails: every field that was set before
      the failure stays set, and the packets taken so far stay in the history. */
  function AfterRead(z: Zlib, s: CaptureState, file: bytes): CaptureState {
    if |file| > MAX_CAPTURE_FILE_BYTES then s
    else
      var begun := s.(source := Some(file), streaming := false);
      match HeaderFromBytes(HeaderPart(file))
      case Err(_) => begun
      case Ok(h) =>
        if h.numPackets > MAX_PACKET_COUNT then begun.(header := h)
        else
          var taken := Taken(z, h.compressed, h.little, BodyPart(file), 0, 0);
          begun.(header := h, useZlib := h.compressed, streaming := Exceeds(taken),
                 history := Retained(s.history, taken, h.little))
  }

  /** The object after a read that succeeds. */
  function AfterLoad(s: CaptureState, file: bytes, l: Loaded): CaptureState {
    s.(header := l.header, source := Some(file), streaming := Exceeds(l.packets), useZlib := l.header.compressed,
       history := Retained(s.history, l.packets, l.header.little))
  }

  function AfterSetCompressed(s: CaptureState, compressed: bool): CaptureState {
    s.(announced := Some(compressed), useZlib := compressed)
  }

  function AfterAdd(host: bool, s: CaptureState, p: Packet): CaptureState {
    s.(history := s.history + [Message(p, host)], header := s.header.(numPackets := |s.history| + 1))
  }

  function AfterClear(s: CaptureState): CaptureState {
    s.(header := s.header.(numPackets := 0), history := [], source := None, streaming := false)
  }

  function PacketsOf(z: Zlib, s: CaptureState): Stream {
    if !s.streaming then Stream(Packets(s.history), true)
    else if s.source.None? then Stream([], true)
    else StreamFile(z, s.source.value)
  }

  /** The bytes a dump writes, or None when there is nothing to write. A streamed source
      that ends in an error aborts the dump. */
  function DumpOf(z: Zlib, host: bool, s: CaptureState): Result<Option<bytes>> {
    if s.header.numPackets == 0 then Ok(None)
    else
      var stream := PacketsOf(z, s);
      var entries := if s.streaming then InOrder(stream.yielded, host) else s.history;
      var file :- DumpBytes(z, host, s.announced, s.useZlib, s.header.numPackets, entries);
      if !stream.completed then Err(ValueError) else Ok(Some(file))
  }

  /** What the target file holds after a dump: untouched when there is nothing to write, empty
      when the header cannot be written, and otherwise everything before the failure. */
  function LeftBy(z: Zlib, host: bool, s: CaptureState): Option<bytes> {
    if s.header.numPackets == 0 then None
    else if s.announced.None? then Some([])
    else match HeaderToBytes(Header(1, 1, s.header.numPackets, host, s.announced.value))
      case Err(_) => Some([])
      case Ok(header) =>
        var entries := if s.streaming then InOrder(PacketsOf(z, s).yielded, host) else s.history;
        Some(header + WrittenEntries(z, s.useZlib, entries))
  }

  // ---------- Properties ----------

  lemma {:induction false} TakenIsParsed(z: Zlib, compressed: bool, little: bool, body: bytes, count: nat, total: nat)
    requires ParseEntries(z, compressed, little, body).Ok?
    requires var ps := ParseEntries(z, compressed, little, body).value;
             count + |ps| <= MAX_PACKET_COUNT && total + TotalBytes(ps) <= MAX_TOTAL_DECOMPRESSED_BYTES
    ensures Taken(z, compressed, little, body, count, total) == ParseEntries(z, compressed, little, body).value
    decreases |body|
  {
    hide ReadEntry;
    if body != [] {
      var (p, size) := ReadEntry(z, compressed, little, body).value;
      var ps := ParseEntries(z, compressed, little, body).value;
      var rest := ParseEntries(z, compressed, little, body[size..]).value;
      assert ps == [p] + rest && ps[1..] == rest;
      TakenIsParsed(z, compressed, little, body[size..], count + 1, total + |p.payload|);
    }
  }

  /** A successful read leaves the loaded packets; a failed one leaves what it took before. */
  lemma ReadLoads(z: Zlib, s: CaptureState, file: bytes)
    requires Load(z, file).Ok?
    ensures AfterRead(z, s, file) == AfterLoad(s, file, Load(z, file).value)
  {
    var h := Load(z, file).value.header;
    TakenIsParsed(z, h.compressed, h.little, BodyPart(file), 0, 0);
  }

  /** A successful dump is what the target file then holds; a failed dump has destroyed what the
      file held before, and left a prefix that announces all packets. */
  lemma DumpLeaves(z: Zlib, host: bool, s: CaptureState)
    ensures var dumped, left := DumpOf(z, host, s), LeftBy(z, host, s);
            && (dumped.Ok? ==> left == dumped.value)
            && (dumped.Err? ==> left.Some?)
  {
    hide PacketsOf, EntryToBytes;
    var entries := if s.streaming then InOrder(PacketsOf(z, s).yielded, host) else s.history;
    if EncodeEntries(z, s.useZlib, entries).Ok? {
      assert entries[..|entries|] == entries;
      WrittenUntil(z, s.useZlib, entries, |entries|);
    }
  }

  /** Memory and disk deliver the same packets: whatever side of the retention threshold a
      loaded file falls on, its packets come out as loaded, in full exactly when the file
      was retained or its header counts its entries correctly. */
  lemma LoadedPackets(z: Zlib, host: bool, file: bytes)
    requires Load(z, file).Ok?
    ensures var Loaded(h, ps) := Load(z, file).value;
            var stream := PacketsOf(z, AfterLoad(Unread(host), file, Loaded(h, ps)));
            && stream.yielded <= ps
            && (stream == Stream(ps, true) <==> TotalBytes(ps) <= 0x400_0000 || h.numPackets == |ps|)
  {
    var Loaded(h, ps) := Load(z, file).value;
    StreamFileAgrees(z, file);
    assert Packets([] + InOrder(ps, h.little)) == ps;
  }

  /** Load, choose a compression mode, dump, load again: the dump succeeds exactly when the new
      mode's payloads fit their length fields, and then the packets are preserved exactly when
      they are within the reader's limits in the new mode and either the entries are rewritten in
      the host's byte order (the file was streamed, or has that order already) or none of their
      fields depends on it. */
  lemma Redump(z: Zlib, host: bool, file: bytes, compressed: bool)
    requires Lossless(z) && SelfDelimiting(z)
    requires Load(z, file).Ok?
    requires Load(z, file).value.packets != []
    requires Load(z, file).value.header.numPackets == |Load(z, file).value.packets|
    ensures var Loaded(h, ps) := Load(z, file).value;
            var dumped := DumpOf(z, host, AfterSetCompressed(AfterLoad(Unread(host), file, Loaded(h, ps)), compressed));
            && (dumped.Ok? <==> AllStorable(z, compressed, ps))
            && (dumped.Ok? ==> dumped.value.Some?)
            && (dumped.Ok? ==>
                  (Load(z, dumped.value.value) == Ok(Loaded(Header(1, 1, |ps|, host, compressed), ps))
                   <==> Reloadable(z, compressed, ps, |dumped.value.value|)
                        && (Exceeds(ps) || h.little == host || AllSymmetric(z, compressed, ps))))
  {
    var Loaded(h, ps) := Load(z, file).value;
    var order := if Exceeds(ps) then host else h.little;
    RedumpBytes(z, host, file, compressed);
    EncodeSucceeds(z, compressed, order, ps);
    HeaderWritten(|ps|, host, compressed);
    if DumpBytes(z, host, Some(compressed), compressed, |ps|, InOrder(ps, order)).Ok? {
      if order == host {
        DumpLoadRoundTrip(z, host, compressed, ps);
      } else {
        ForeignDumpLoad(z, host, compressed, ps);
      }
    }
  }

  lemma RedumpBytes(z: Zlib, host: bool, file: bytes, compressed: bool)
    requires Load(z, file).Ok?
    requires Load(z, file).value.packets != []
    requires Load(z, file).value.header.numPackets == |Load(z, file).value.packets|
    ensures var Loaded(h, ps) := Load(z, file).value;
            var order := if Exceeds(ps) then host else h.little;
            var dumped := DumpOf(z, host, AfterSetCompressed(AfterLoad(Unread(host), file, Loaded(h, ps)), compressed));
            match DumpBytes(z, host, Some(compressed), compressed, |ps|, InOrder(ps, order))
            case Ok(written) => dumped == Ok(Some(written))
            case Err(e) => dumped == Err(e)
  {
    hide Load, DumpBytes, StreamFile, Exceeds;
    var Loaded(h, ps) := Load(z, file).value;
    LoadedPackets(z, host, file);
    assert [] + InOrder(ps, h.little) == InOrder(ps, h.little);
  }

  /** A loaded capture that was not told its compression mode cannot be dumped. */
  lemma RedumpNeedsMode(z: Zlib, host: bool, file: bytes)
    requires Load(z, file).Ok?
    ensures var l := Load(z, file).value;
            DumpOf(z, host, AfterLoad(Unread(host), file, l))
            == if l.header.numPackets == 0 then Ok(None) else Err(TypeError)
  {
  }

  /** An added packet is delivered after the earlier ones exactly when the capture is not
      streaming its source; a streaming capture never delivers it. */
  lemma AddDelivers(z: Zlib, host: bool, s: CaptureState, p: Packet)
    ensures PacketsOf(z, AfterAdd(host, s, p)).yielded
            == PacketsOf(z, s).yielded + (if s.streaming then [] else [p])
  {
    assert Packets(s.history + [Message(p, host)]) == Packets(s.history) + [p];
  }

  /** Adding to a loaded capture that streams its source resets the announced count to one: the
      packets it delivers stay those of the source, and a dump announces one packet, writes all
      of the source's and not the added one. */
  lemma AddWhileStreaming(z: Zlib, host: bool, file: bytes, compressed: bool, p: Packet)
    requires Lossless(z) && Load(z, file).Ok?
    requires Exceeds(Load(z, file).value.packets)
    requires Load(z, file).value.header.numPackets == |Load(z, file).value.packets|
    ensures var Loaded(h, ps) := Load(z, file).value;
            var s := AfterSetCompressed(AfterLoad(Unread(host), file, Loaded(h, ps)), compressed);
            var added := AfterAdd(host, s, p);
            var dumped := DumpOf(z, host, added);
            && added.header.numPackets == 1 && PacketsOf(z, added) == PacketsOf(z, s) == Stream(ps, true)
            && (dumped.Ok? <==> AllStorable(z, compressed, ps))
            && (dumped.Ok? ==>
                  && dumped.value.Some?
                  && Load(z, dumped.value.value) ==
                     if Reloadable(z, compressed, ps, |dumped.value.value|)
                     then Ok(Loaded(Header(1, 1, 1, host, compressed), ps)) else Err(ValueError))
  {
    var ps := Load(z, file).value.packets;
    LoadedPackets(z, host, file);
    EncodeSucceeds(z, compressed, host, ps);
    HeaderWritten(1, host, compressed);
    hide Load, StreamFile, Exceeds;
    if AllStorable(z, compressed, ps) {
      DumpLoadCounted(z, host, compressed, 1, ps);
    }
  }

  // ---------- The object ----------

  class F1PacketCapture {
    const z: Zlib
    const host: bool // the host is little-endian

    var header: Header
    var history: seq<Message>
    var source: Option<bytes>
    var streaming: bool
    var announced: Option<bool>
    var useZlib: bool

    function State(): CaptureState
      reads this
    {
      CaptureState(header, history, source, streaming, announced, useZlib)
    }

    constructor Create(z: Zlib, host: bool, compressed: bool)
      ensures this.z == z && this.host == host && State() == Fresh(host, compressed)
    {
      this.z, this.host := z, host;
      header := Header(1, 1, 0, host, compressed);
      history, source, streaming := [], None, false;
      announced, useZlib := Some(compressed), compressed;
    }

    constructor ForFile(z: Zlib, host: bool)
      ensures this.z == z && this.host == host && State() == Unread(host)
    {
      this.z, this.host := z, host;
      header := Header(1, 0, 0, host, true);
      history, source, streaming := [], None, false;
      announced, useZlib := None, false;
    }

    method SetCompressed(compressed: bool)
      modifies this
      ensures State() == AfterSetCompressed(old(State()), compressed)
    {
      announced := Some(compressed);
      useZlib := compressed;
    }

    method Add(p: Packet)
      modifies this
      ensures State() == AfterAdd(host, old(State()), p)
    {
      history := history + [Message(p, host)];
      header := header.(numPackets := |history|);
    }

    method Clear()
      modifies this
      ensures State() == AfterClear(old(State()))
    {
      history, source, streaming := [], None, false;
      header := header.(numPackets := 0);
    }

    /** Reads entries until the file ends, dropping the history for good once the expanded
        payloads pass the retention threshold. */
    method ReadFromFile(file: bytes) returns (r: Result<()>)
      modifies this
      ensures r == (match Load(z, file) case Ok(_) => Ok(()) case Err(e) => Err(e))
      ensures State() == AfterRead(z, old(State()), file)
      ensures r.Ok? ==> State() == AfterLoad(old(State()), file, Load(z, file).value)
    {
      if |file| > MAX_CAPTURE_FILE_BYTES {
        return Err(ValueError);
      }
      if Load(z, file).Ok? {
        ReadLoads(z, State(), file);
      }
      source := Some(file);
      streaming := false;
      header :- HeaderFromBytes(HeaderPart(file));
      if header.numPackets > MAX_PACKET_COUNT {
        return Err(ValueError);
      }
      useZlib := header.compressed;

      r := ReadEntries(BodyPart(file));
    }

    /** The loop of ReadFromFile, on an object whose header has just been read. */
    method ReadEntries(body: bytes) returns (r: Result<()>)
      requires !streaming && useZlib == header.compressed
      modifies `history, `streaming
      ensures var all := ParseEntries(z, header.compressed, header.little, body);
              r == if all.Ok? && WithinTotals(all.value) then Ok(()) else Err(ValueError)
      ensures var taken := Taken(z, header.compressed, header.little, body, 0, 0);
              streaming == Exceeds(taken) && history == Retained(old(history), taken, header.little)
    {
      hide ReadEntry, Taken, Continues, Retained;
      var position, count, total := 0, 0, 0;
      ghost var parsed: seq<Packet> := [];
      LoopStart(z, header, body, history);
      while position < |body|
        invariant 0 <= position <= |body|
        invariant count == |parsed| && total == TotalBytes(parsed) && WithinTotals(parsed)
        invariant streaming == Exceeds(parsed)
        invariant history == Retained(old(history), parsed, header.little)
        invariant Continues(z, header, body, parsed, position)
      {
        var entry := ReadEntry(z, useZlib, header.little, body[position..]);
        if entry.Err? {
          StopsAtEntry(z, header, body, parsed, position);
          return Err(ValueError);
        }
        var (p, size) := entry.value;
        ghost var at := position;
        position, count, total := position + size, count + 1, total + |p.payload|;
        KeepPacket(p, parsed, total, old(history));
        TotalAppend(parsed, p);
        if count > MAX_PACKET_COUNT || total > MAX_TOTAL_DECOMPRESSED_BYTES {
          StopsOverTotals(z, header, body, parsed, at);
          return Err(ValueError);
        }
        ContinueStep(z, header, body, parsed, at);
        parsed := parsed + [p];
      }
      LoopEnd(z, header, body, parsed);
      r := Ok(());
    }

    /** The packet just read goes to the history, unless that is or now gets too large. */
    method KeepPacket(p: Packet, ghost parsed: seq<Packet>, total: int, ghost before: seq<Message>)
      requires total == TotalBytes(parsed) + |p.payload|
      requires streaming == Exceeds(parsed) && history == Retained(before, parsed, header.little)
      modifies `history, `streaming
      ensures streaming == Exceeds(parsed + [p]) && history == Retained(before, parsed + [p], header.little)
    {
      TotalAppend(parsed, p);
      RetainStep(before, parsed, p, header.little);
      if !streaming {
        history := history + [Message(p, header.little)];
        if total > MAX_RETAINED_DECOMPRESSED_BYTES {
          history := [];
          streaming := true;
        }
      }
    }

    method GetPackets() returns (r: Stream)
      ensures r == PacketsOf(z, State())
    {
      if !streaming {
        return Stream(Packets(history), true);
      }
      if source.None? {
        return Stream([], true);
      }
      var parsed := HeaderFromBytes(HeaderPart(source.value));
      if parsed.Err? {
        return Stream([], false);
      }
      var h := parsed.value;
      r := StreamBody(z, h, BodyPart(source.value));
    }

    static method StreamBody(z: Zlib, h: Header, body: bytes) returns (r: Stream)
      ensures r == StreamEntries(z, h.compressed, h.little, body, if h.numPackets < 0 then 0 else h.numPackets)
    {
      hide StreamEntry;
      var yielded: seq<Packet> := [];
      var position := 0;
      var left := if h.numPackets < 0 then 0 else h.numPackets;
      ghost var whole := StreamEntries(z, h.compressed, h.little, body, left);
      assert body[0..] == body;
      while left > 0
        invariant 0 <= left && 0 <= position <= |body|
        invariant whole == Resumed(yielded, StreamEntries(z, h.compressed, h.little, body[position..], left))
      {
        var entry := StreamEntry(z, h.compressed, h.little, body[position..]);
        if entry.Err? {
          return Stream(yielded, false);
        }
        var (p, size) := entry.value;
        assert body[position..][size..] == body[position + size..];
        ResumeStep(yielded, p, StreamEntries(z, h.compressed, h.little, body[position + size..], left - 1));
        yielded := yielded + [p];
        position := position + size;
        left := left - 1;
      }
      r := Stream(yielded, true);
    }

    /** The first stamp delivered, None for an empty capture, or the error that stopped the
        stream before its first packet. */
    method GetFirstTimestamp() returns (r: Result<Option<u32>>)
      ensures var stream := PacketsOf(z, State());
              r == if stream.yielded != [] then Ok(Some(stream.yielded[0].stamp))
                   else if stream.completed then Ok(None) else Err(ValueError)
    {
      if streaming {
        var stream := GetPackets();
        return if stream.yielded != [] then Ok(Some(stream.yielded[0].stamp))
               else if stream.completed then Ok(None) else Err(ValueError);
      }
      return Ok(if history == [] then None else Some(history[0].packet.stamp));
    }

    /** `left` is what the target file holds afterwards, None when it is not touched. */
    method DumpToFile() returns (r: Result<Option<bytes>>, packetCount: int, byteCount: int, left: Option<bytes>)
      ensures r == DumpOf(z, host, State()) && left == LeftBy(z, host, State())
      ensures r.Ok? && r.value.Some? ==> packetCount == header.numPackets && byteCount + HEADER_LEN == |r.value.value|
      ensures r == Ok(None) ==> packetCount == byteCount == 0
    {
      hide StreamFile, EntryToBytes;
      packetCount, byteCount, left := 0, 0, None;
      if header.numPackets == 0 {
        return Ok(None), 0, 0, None;
      }
      packetCount := header.numPackets;
      var stream := GetPackets();
      var entries := if streaming then InOrder(stream.yielded, host) else history;
      left := Some([]);
      if announced.None? {
        return Err(TypeError), packetCount, byteCount, left;
      }
      var head := HeaderToBytes(Header(1, 1, packetCount, host, announced.value));
      if head.Err? {
        return Err(head.error), packetCount, byteCount, left;
      }
      var body, written := WriteEntries(z, useZlib, entries);
      left := Some(head.value + written);
      if body.Err? {
        return Err(body.error), packetCount, byteCount, left;
      }
      if !stream.completed {
        return Err(ValueError), packetCount, byteCount, left;
      }
      return Ok(Some(head.value + body.value)), packetCount, |body.value|, left;
    }

    static method WriteEntries(z: Zlib, compressed: bool, entries: seq<Message>)
      returns (r: Result<bytes>, written: bytes)
      ensures r == EncodeEntries(z, compressed, entries)
      ensures written == WrittenEntries(z, compressed, entries)
    {
      hide EntryToBytes;
      written := [];
      assert entries[..0] == [];
      for i := 0 to |entries|
        invariant EncodeEntries(z, compressed, entries[..i]) == Ok(written)
      {
        var data := EntryToBytes(z, compressed, entries[i]);
        assert entries[..i + 1] == entries[..i] + [entries[i]];
        EncodeAppend(z, compressed, entries[..i], entries[i]);
        if data.Err? {
          EncodePrefix(z, compressed, entries, i + 1);
          WrittenUntil(z, compressed, entries, i);
          return Err(data.error), written;
        }
        written := written + data.value;
      }
      assert entries[..|entries|] == entries;
      WrittenUntil(z, compressed, entries, |entries|);
      r := Ok(written);
    }
  }

  // ---------- Steps of the loops ----------

  lemma {:induction false} TotalAppend(ps: seq<Packet>, p: Packet)
    ensures TotalBytes(ps + [p]) == TotalBytes(ps) + |p.payload|
  {
    if ps == [] {
      assert [p][1..] == [] && ps + [p] == [p];
    } else {
      assert (ps + [p])[1..] == ps[1..] + [p];
      TotalAppend(ps[1..], p);
    }
  }

  lemma {:induction false} TotalOfConcat(ps: seq<Packet>, qs: seq<Packet>)
    ensures TotalBytes(ps + qs) == TotalBytes(ps) + TotalBytes(qs)
  {
    if ps == [] {
      assert ps + qs == qs;
    } else {
      assert (ps + qs)[1..] == ps[1..] + qs;
      TotalOfConcat(ps[1..], qs);
    }
  }

  /** A stream that already delivered `yielded` and goes on with `rest`. */
  function Resumed(yielded: seq<Packet>, rest: Stream): Stream {
    Stream(yielded + rest.yielded, rest.completed)
  }

  lemma ResumeStep(yielded: seq<Packet>, p: Packet, rest: Stream)
    ensures Resumed(yielded, Stream([p] + rest.yielded, rest.completed)) == Resumed(yielded + [p], rest)
  {
    assert yielded + ([p] + rest.yielded) == yielded + [p] + rest.yielded;
  }

  /** After `parsed` has been read off the body, the rest decides the outcome. */
  ghost predicate Continues(z: Zlib, h: Header, body: bytes, parsed: seq<Packet>, position: nat)
    requires position <= |body|
  {
    && ParseEntries(z, h.compressed, h.little, body) ==
       (match ParseEntries(z, h.compressed, h.little, body[position..])
        case Err(e) => Err(e)
        case Ok(rest) => Ok(parsed + rest))
    && Taken(z, h.compressed, h.little, body, 0, 0) ==
       parsed + Taken(z, h.compressed, h.little, body[position..], |parsed|, TotalBytes(parsed))
  }

  lemma RetainStep(before: seq<Message>, parsed: seq<Packet>, p: Packet, little: bool)
    ensures Exceeds(parsed) ==> Exceeds(parsed + [p])
    ensures !Exceeds(parsed + [p]) ==>
              Retained(before, parsed + [p], little) == Retained(before, parsed, little) + [Message(p, little)]
  {
    TotalAppend(parsed, p);
    assert InOrder(parsed + [p], little) == InOrder(parsed, little) + [Message(p, little)];
  }

  lemma LoopStart(z: Zlib, h: Header, body: bytes, history: seq<Message>)
    ensures Continues(z, h, body, [], 0) && Retained(history, [], h.little) == history
  {
    hide ReadEntry;
    assert body[0..] == body;
    var all := ParseEntries(z, h.compressed, h.little, body);
    assert all.Ok? ==> [] + all.value == all.value;
    assert history + InOrder([], h.little) == history;
  }

  lemma ContinueStep(z: Zlib, h: Header, body: bytes, parsed: seq<Packet>, position: nat)
    requires position < |body| && Continues(z, h, body, parsed, position)
    requires ReadEntry(z, h.compressed, h.little, body[position..]).Ok?
    requires var (p, size) := ReadEntry(z, h.compressed, h.little, body[position..]).value; WithinTotals(parsed + [p])
    ensures var (p, size) := ReadEntry(z, h.compressed, h.little, body[position..]).value;
            position + size <= |body| && Continues(z, h, body, parsed + [p], position + size)
  {
    hide ReadEntry, TotalBytes;
    var (p, size) := ReadEntry(z, h.compressed, h.little, body[position..]).value;
    assert body[position..][size..] == body[position + size..];
    TotalAppend(parsed, p);
    var rest := ParseEntries(z, h.compressed, h.little, body[position + size..]);
    if rest.Ok? {
      assert parsed + ([p] + rest.value) == parsed + [p] + rest.value;
    }
    var total := TotalBytes(parsed) + |p.payload|;
    var taken := Taken(z, h.compressed, h.little, body[position + size..], |parsed| + 1, total);
    assert parsed + ([p] + taken) == parsed + [p] + taken;
  }

  lemma LoopEnd(z: Zlib, h: Header, body: bytes, parsed: seq<Packet>)
    requires Continues(z, h, body, parsed, |body|)
    ensures ParseEntries(z, h.compressed, h.little, body) == Ok(parsed)
    ensures Taken(z, h.compressed, h.little, body, 0, 0) == parsed
  {
    assert body[|body|..] == [] && parsed + [] == parsed;
  }

  lemma StopsAtEntry(z: Zlib, h: Header, body: bytes, parsed: seq<Packet>, position: nat)
    requires position < |body| && Continues(z, h, body, parsed, position)
    requires ReadEntry(z, h.compressed, h.little, body[position..]).Err?
    ensures ParseEntries(z, h.compressed, h.little, body).Err?
    ensures Taken(z, h.compressed, h.little, body, 0, 0) == parsed
  {
    hide ReadEntry;
    assert parsed + [] == parsed;
  }

  lemma StopsOverTotals(z: Zlib, h: Header, body: bytes, parsed: seq<Packet>, position: nat)
    requires position < |body| && Continues(z, h, body, parsed, position)
    requires ReadEntry(z, h.compressed, h.little, body[position..]).Ok?
    requires var (p, size) := ReadEntry(z, h.compressed, h.little, body[position..]).value; !WithinTotals(parsed + [p])
    ensures var (p, size) := ReadEntry(z, h.compressed, h.little, body[position..]).value;
            Taken(z, h.compressed, h.little, body, 0, 0) == parsed + [p]
    ensures var all := ParseEntries(z, h.compressed, h.little, body);
            all.Ok? ==> !WithinTotals(all.value)
  {
    hide ReadEntry, TotalBytes;
    var (p, size) := ReadEntry(z, h.compressed, h.little, body[position..]).value;
    TotalAppend(parsed, p);
    var rest := ParseEntries(z, h.compressed, h.little, body[position..][size..]);
    if rest.Ok? {
      LongerOverTotals(parsed, p, rest.value);
    }
  }

  lemma LongerOverTotals(parsed: seq<Packet>, p: Packet, rest: seq<Packet>)
    requires !WithinTotals(parsed + [p])
    ensures !WithinTotals(parsed + ([p] + rest))
  {
    assert parsed + ([p] + rest) == parsed + [p] + rest;
    TotalOfConcat(parsed + [p], rest);
  }

  lemma {:induction false} EncodePrefix(z: Zlib, compressed: bool, ms: seq<Message>, i: nat)
    requires i <= |ms| && EncodeEntries(z, compressed, ms[..i]).Err?
    ensures EncodeEntries(z, compressed, ms) == Err(StructError)
  {
    if i > 0 {
      assert ms[..i][1..] == ms[1..][..i - 1];
      if EntryToBytes(z, compressed, ms[0]).Ok? {
        EncodePrefix(z, compressed, ms[1..], i - 1);
      }
    }
  }
}
