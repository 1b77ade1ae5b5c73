/** Whole `.f1pcap` files as values: what writing a packet list produces, what the two
    readers make of a byte string, and how the three fit together. */
module CaptureFile {
  import opened Python
  import opened Bytes
  import opened CaptureFormat

  const MAX_CAPTURE_FILE_BYTES := 0x8000_0000
  const MAX_PACKET_COUNT := 2_000_000
  const MAX_TOTAL_DECOMPRESSED_BYTES := 0x4000_0000
  const MAX_RETAINED_DECOMPRESSED_BYTES := 0x400_0000

  // ---------- Writing ----------

  function EncodeEntries(z: Zlib, compressed: bool, ms: seq<Message>): Result<bytes> {
    if ms == [] then Ok([])
    else
      var first :- EntryToBytes(z, compressed, ms[0]);
      var rest :- EncodeEntries(z, compressed, ms[1..]);
      Ok(first + rest)
  }

  function InOrder(ps: seq<Packet>, little: bool): (ms: seq<Message>)
    ensures |ms| == |ps|
    ensures forall i | 0 <= i < |ps| :: ms[i] == Message(ps[i], little)
  {
    seq(|ps|, i requires 0 <= i < |ps| => Message(ps[i], little))
  }

  function Packets(ms: seq<Message>): (ps: seq<Packet>)
    ensures |ps| == |ms|
    ensures forall i | 0 <= i < |ms| :: ps[i] == ms[i].packet
  {
    seq(|ms|, i requires 0 <= i < |ms| => ms[i].packet)
  }

  /** The bytes of a dump: a version 1.1 header announcing `count` packets, then the entries.
      `announced` is the capture's own compression mode, which is unset after loading, and
      unset it cannot be turned into a header flag. */
  function DumpBytes(z: Zlib, host: bool, announced: Option<bool>, useZlib: bool, count: int,
                     ms: seq<Message>): Result<bytes> {
    if announced.None? then Err(TypeError)
    else
      var header :- HeaderToBytes(Header(1, 1, count, host, announced.value));
      var entries :- EncodeEntries(z, useZlib, ms);
      Ok(header + entries)
  }

  /** The bytes of the entries before the first that cannot be written. */
  function WrittenEntries(z: Zlib, compressed: bool, ms: seq<Message>): bytes {
    if ms == [] || EntryToBytes(z, compressed, ms[0]).Err? then []
    else EntryToBytes(z, compressed, ms[0]).value + WrittenEntries(z, compressed, ms[1..])
  }

  lemma {:induction false} WrittenUntil(z: Zlib, compressed: bool, ms: seq<Message>, i: nat)
    requires i <= |ms| && EncodeEntries(z, compressed, ms[..i]).Ok?
    requires i < |ms| ==> EntryToBytes(z, compressed, ms[i]).Err?
    ensures WrittenEntries(z, compressed, ms) == EncodeEntries(z, compressed, ms[..i]).value
  {
    if i > 0 {
      hide EntryToBytes;
      assert ms[..i][1..] == ms[1..][..i - 1];
      WrittenUntil(z, compressed, ms[1..], i - 1);
    }
  }

  lemma {:induction false} EncodeAppend(z: Zlib, compressed: bool, ms: seq<Message>, m: Message)
    ensures EncodeEntries(z, compressed, ms + [m]) ==
            match EncodeEntries(z, compressed, ms)
            case Err(e) => Err(e)
            case Ok(before) => match EntryToBytes(z, compressed, m)
              case Err(e) => Err(e)
              case Ok(entry) => Ok(before + entry)
  {
    if ms == [] {
      assert ms + [m] == [m] && [m][1..] == [];
      var entry := EntryToBytes(z, compressed, m);
      assert entry.Ok? ==> entry.value + [] == [] + entry.value;
    } else {
      assert (ms + [m])[1..] == ms[1..] + [m];
      EncodeAppend(z, compressed, ms[1..], m);
      if EncodeEntries(z, compressed, ms + [m]).Ok? {
        var first := EntryToBytes(z, compressed, ms[0]).value;
        var rest := EncodeEntries(z, compressed, ms[1..]).value;
        var entry := EntryToBytes(z, compressed, m).value;
        assert first + rest + entry == first + (rest + entry);
      }
    }
  }

  /** Every stored payload fits its 32-bit length field. */
  predicate AllStorable(z: Zlib, compressed: bool, ps: seq<Packet>) {
    forall i | 0 <= i < |ps| :: |Compress(z, compressed, ps[i].payload)| < U32_LIMIT
  }

  lemma StorableCons(z: Zlib, compressed: bool, ps: seq<Packet>)
    requires ps != []
    ensures AllStorable(z, compressed, ps) <==>
            |Compress(z, compressed, ps[0].payload)| < U32_LIMIT && AllStorable(z, compressed, ps[1..])
  {
    forall i | 1 <= i < |ps| ensures ps[i] == ps[1..][i - 1] {
    }
  }

  /** Writing a packet list fails exactly when a payload does not fit its length field. */
  lemma {:induction false} EncodeSucceeds(z: Zlib, compressed: bool, little: bool, ps: seq<Packet>)
    ensures EncodeEntries(z, compressed, InOrder(ps, little)).Ok? <==> AllStorable(z, compressed, ps)
  {
    if ps != [] {
      hide Compress;
      assert InOrder(ps, little)[1..] == InOrder(ps[1..], little);
      EncodeSucceeds(z, compressed, little, ps[1..]);
      StorableCons(z, compressed, ps);
    }
  }

  // ---------- Reading to the end of the file ----------

  function TotalBytes(ps: seq<Packet>): nat {
    if ps == [] then 0 else |ps[0].payload| + TotalBytes(ps[1..])
  }

  /** One entry off the front of the body, with the number of bytes it takes. */
  function ReadEntry(z: Zlib, compressed: bool, little: bool, body: bytes): (r: Result<(Packet, nat)>)
    ensures r.Ok? ==> ENTRY_HEADER_LEN <= r.value.1 <= |body|
    ensures r.Err? ==> r.error == ValueError
  {
    if |body| < ENTRY_HEADER_LEN then Err(ValueError)
    else
      var length := Unpack(body[4..8], little);
      if length > MAX_STORED_PACKET_BYTES || |body| - ENTRY_HEADER_LEN < length then Err(ValueError)
      else
        var size := ENTRY_HEADER_LEN + length;
        var m :- EntryFromBytes(z, compressed, little, body[..size]);
        Ok((m.packet, size))
  }

  function ParseEntries(z: Zlib, compressed: bool, little: bool, body: bytes): (r: Result<seq<Packet>>)
    ensures r.Err? ==> r.error == ValueError
    decreases |body|
  {
    if body == [] then Ok([])
    else
      var (p, size) :- ReadEntry(z, compressed, little, body);
      var rest :- ParseEntries(z, compressed, little, body[size..]);
      Ok([p] + rest)
  }

  /** The packets the read loop takes before it ends, well or in an error: an entry that cannot
      be read is not taken, one that passes a total is. `count` and `total` were taken before. */
  function Taken(z: Zlib, compressed: bool, little: bool, body: bytes, count: nat, total: nat): seq<Packet>
    decreases |body|
  {
    if body == [] then []
    else match ReadEntry(z, compressed, little, body)
      case Err(_) => []
      case Ok((p, size)) =>
        if count + 1 > MAX_PACKET_COUNT || total + |p.payload| > MAX_TOTAL_DECOMPRESSED_BYTES then [p]
        else [p] + Taken(z, compressed, little, body[size..], count + 1, total + |p.payload|)
  }

  datatype Loaded = Loaded(header: Header, packets: seq<Packet>)

  function HeaderPart(file: bytes): bytes {
    if |file| < HEADER_LEN then file else file[..HEADER_LEN]
  }

  function BodyPart(file: bytes): bytes {
    if |file| < HEADER_LEN then [] else file[HEADER_LEN..]
  }

  /** At most two million packets of at most 1 GiB together. */
  predicate WithinTotals(ps: seq<Packet>) {
    |ps| <= 2_000_000 && TotalBytes(ps) <= 1024 * 1024 * 1024
  }

  function Load(z: Zlib, file: bytes): (r: Result<Loaded>)
    ensures r.Err? ==> r.error == ValueError
  {
    if |file| > MAX_CAPTURE_FILE_BYTES then Err(ValueError)
    else
      var header :- HeaderFromBytes(HeaderPart(file));
      if header.numPackets > MAX_PACKET_COUNT then Err(ValueError)
      else
        var ps :- ParseEntries(z, header.compressed, header.little, BodyPart(file));
        if |ps| > MAX_PACKET_COUNT || TotalBytes(ps) > MAX_TOTAL_DECOMPRESSED_BYTES then Err(ValueError)
        else Ok(Loaded(header, ps))
  }

  // ---------- Streaming the entries again ----------

  /** What a generator delivers: the packets it yields and whether it ends normally. */
  datatype Stream = Stream(yielded: seq<Packet>, completed: bool)

  function StreamEntry(z: Zlib, compressed: bool, little: bool, body: bytes): (r: Result<(Packet, nat)>)
    ensures r.Ok? ==> ENTRY_HEADER_LEN <= r.value.1 <= |body|
  {
    if |body| < ENTRY_HEADER_LEN then Err(ValueError)
    else
      var length := Unpack(body[4..8], little);
      var size := if ENTRY_HEADER_LEN + length <= |body| then ENTRY_HEADER_LEN + length else |body|;
      var m :- EntryFromBytes(z, compressed, little, body[..8] + body[8..size]);
      Ok((m.packet, size))
  }

  function StreamEntries(z: Zlib, compressed: bool, little: bool, body: bytes, count: nat): Stream {
    if count == 0 then Stream([], true)
    else match StreamEntry(z, compressed, little, body)
      case Err(_) => Stream([], false)
      case Ok((p, size)) =>
        var rest := StreamEntries(z, compressed, little, body[size..], count - 1);
        Stream([p] + rest.yielded, rest.completed)
  }

  function StreamFile(z: Zlib, file: bytes): Stream {
    match HeaderFromBytes(HeaderPart(file))
    case Err(_) => Stream([], false)
    case Ok(h) =>
      StreamEntries(z, h.compressed, h.little, BodyPart(file), if h.numPackets < 0 then 0 else h.numPackets)
  }

  // ---------- Writing, then reading to the end ----------

  predicate AllFit(z: Zlib, compressed: bool, ps: seq<Packet>) {
    forall i | 0 <= i < |ps| :: EntryFits(z, compressed, ps[i])
  }

  /** Reading the head of a written entry list takes exactly the first entry. */
  lemma ReadWrittenEntry(z: Zlib, compressed: bool, m: Message, rest: bytes)
    requires compressed ==> Lossless(z)
    requires EntryToBytes(z, compressed, m).Ok?
    ensures var entry := EntryToBytes(z, compressed, m).value;
            ReadEntry(z, compressed, m.little, entry + rest)
            == if EntryFits(z, compressed, m.packet) then Ok((m.packet, |entry|)) else Err(ValueError)
  {
    var entry := EntryToBytes(z, compressed, m).value;
    var body := entry + rest;
    EntryLayout(z, compressed, m);
    EntryRoundTrip(z, compressed, m);
    assert body[4..8] == entry[4..8];
    UnpackPack(|Compress(z, compressed, m.packet.payload)|, m.little);
    assert body[..|entry|] == entry;
  }

  lemma ParseCons(z: Zlib, compressed: bool, little: bool, entry: bytes, rest: bytes)
    requires entry != []
    ensures var read := ReadEntry(z, compressed, little, entry + rest);
            && (read.Err? ==> ParseEntries(z, compressed, little, entry + rest) == Err(ValueError))
            && (read.Ok? && read.value.1 == |entry| ==>
                  ParseEntries(z, compressed, little, entry + rest) ==
                  match ParseEntries(z, compressed, little, rest)
                  case Err(e) => Err(e)
                  case Ok(ps) => Ok([read.value.0] + ps))
  {
    hide ReadEntry;
    assert (entry + rest)[|entry|..] == rest;
  }

  lemma FitsCons(z: Zlib, compressed: bool, ps: seq<Packet>)
    requires ps != []
    ensures AllFit(z, compressed, ps) <==> EntryFits(z, compressed, ps[0]) && AllFit(z, compressed, ps[1..])
  {
    forall i | 1 <= i < |ps| ensures ps[i] == ps[1..][i - 1] {
    }
  }

  /** The round trip over packet lists of any length: the reader consumes every byte and
      returns exactly the packets, unless one is over a per-packet limit. */
  lemma {:induction false} EntriesRoundTrip(z: Zlib, compressed: bool, little: bool, ps: seq<Packet>)
    requires compressed ==> Lossless(z)
    requires EncodeEntries(z, compressed, InOrder(ps, little)).Ok?
    ensures ParseEntries(z, compressed, little, EncodeEntries(z, compressed, InOrder(ps, little)).value)
            == if AllFit(z, compressed, ps) then Ok(ps) else Err(ValueError)
  {
    if ps != [] {
      hide ReadEntry, EntryToBytes, EntryFits, AllFit, ParseEntries;
      var ms := InOrder(ps, little);
      assert ms[1..] == InOrder(ps[1..], little);
      var entry := EntryToBytes(z, compressed, ms[0]).value;
      var rest := EncodeEntries(z, compressed, ms[1..]).value;
      EntryLayout(z, compressed, ms[0]);
      ReadWrittenEntry(z, compressed, ms[0], rest);
      ParseCons(z, compressed, little, entry, rest);
      EntriesRoundTrip(z, compressed, little, ps[1..]);
      FitsCons(z, compressed, ps);
      assert ps == [ps[0]] + ps[1..];
    }
  }

  /** What the reader accepts: packets and totals within the limits, and a file of at most 2 GiB. */
  predicate Reloadable(z: Zlib, compressed: bool, ps: seq<Packet>, fileSize: nat) {
    && AllFit(z, compressed, ps) && WithinTotals(ps) && fileSize <= 2 * 1024 * 1024 * 1024
  }

  lemma DumpLayout(z: Zlib, host: bool, compressed: bool, count: u32, ms: seq<Message>)
    requires DumpBytes(z, host, Some(compressed), compressed, count, ms).Ok?
    ensures var file := DumpBytes(z, host, Some(compressed), compressed, count, ms).value;
            && |file| >= HEADER_LEN
            && HeaderFromBytes(HeaderPart(file)) == Ok(Header(1, 1, count, host, compressed))
            && EncodeEntries(z, compressed, ms) == Ok(BodyPart(file))
  {
    HeaderWritten(count, host, compressed);
    var file := DumpBytes(z, host, Some(compressed), compressed, count, ms).value;
    var header := HeaderToBytes(Header(1, 1, count, host, compressed)).value;
    assert file[..HEADER_LEN] == header;
    assert file[HEADER_LEN..] == EncodeEntries(z, compressed, ms).value;
  }

  /** Dumping packets written in the host's byte order under any announced count: the reader
      gives the announced header and all the packets, or refuses the file. */
  lemma DumpLoadCounted(z: Zlib, host: bool, compressed: bool, count: u32, ps: seq<Packet>)
    requires compressed ==> Lossless(z)
    requires DumpBytes(z, host, Some(compressed), compressed, count, InOrder(ps, host)).Ok?
    ensures var file := DumpBytes(z, host, Some(compressed), compressed, count, InOrder(ps, host)).value;
            Load(z, file) == if count <= MAX_PACKET_COUNT && Reloadable(z, compressed, ps, |file|)
                             then Ok(Loaded(Header(1, 1, count, host, compressed), ps))
                             else Err(ValueError)
  {
    DumpLayout(z, host, compressed, count, InOrder(ps, host));
    EntriesRoundTrip(z, compressed, host, ps);
  }

  /** Dumping packets written in the host's byte order and loading the file gives back the
      same header fields and packets exactly when they are within the reader's limits. */
  lemma DumpLoadRoundTrip(z: Zlib, host: bool, compressed: bool, ps: seq<Packet>)
    requires compressed ==> Lossless(z)
    requires DumpBytes(z, host, Some(compressed), compressed, |ps|, InOrder(ps, host)).Ok?
    ensures var file := DumpBytes(z, host, Some(compressed), compressed, |ps|, InOrder(ps, host)).value;
            Load(z, file) == if Reloadable(z, compressed, ps, |file|)
                             then Ok(Loaded(Header(1, 1, |ps|, host, compressed), ps))
                             else Err(ValueError)
  {
    HeaderRoundTrip(1, 1, |ps|, host, compressed);
    DumpLoadCounted(z, host, compressed, |ps|, ps);
  }

  // ---------- A dump whose entries are in the other byte order ----------

  /** Every 32-bit field of the written entries reads the same in both byte orders. */
  predicate AllSymmetric(z: Zlib, compressed: bool, ps: seq<Packet>) {
    forall i | 0 <= i < |ps| ::
      var length := |Compress(z, compressed, ps[i].payload)|;
      Symmetric(ps[i].stamp) && length < U32_LIMIT && Symmetric(length)
  }

  lemma PrefixStreams(z: Zlib, s: bytes, t: bytes)
    requires SelfDelimiting(z)
    requires s <= t && z.inflate(s).Some? && z.inflate(t).Some?
    ensures s == t
  {
    assert t == s + t[|s|..];
  }

  /** A payload that extends or cuts the stored bytes and still expands to the packet is the
      stored bytes. */
  lemma SamePayload(z: Zlib, compressed: bool, payload: bytes, stored: bytes, data: bytes)
    requires compressed ==> Lossless(z) && SelfDelimiting(z)
    requires stored == Compress(z, compressed, data) && Decompress(z, compressed, payload) == Ok(data)
    requires payload <= stored || stored <= payload
    ensures |payload| == |stored|
  {
    if compressed {
      if payload <= stored {
        PrefixStreams(z, payload, stored);
      } else {
        PrefixStreams(z, stored, payload);
      }
    }
  }

  /** Cutting a body after n payload bytes keeps the entry's own fields, and cuts or extends
      its payload. */
  lemma CutAt(entry: bytes, stored: bytes, rest: bytes, n: nat)
    requires |entry| == 8 + |stored| && entry[8..] == stored && 8 + n <= |entry + rest|
    ensures var data := (entry + rest)[..8 + n];
            && data[..4] == entry[..4] && data[4..8] == entry[4..8]
            && (data[8..] <= stored || stored <= data[8..])
  {
    var payload := (entry + rest)[..8 + n][8..];
    if n <= |stored| {
      assert payload == stored[..n];
    } else {
      assert payload[..|stored|] == stored;
    }
  }

  /** Reading a foreign entry with the wrong byte order succeeds with the right packet only
      if its fields are symmetric: a misread length cuts or extends the stored payload. */
  lemma ForeignEntry(z: Zlib, compressed: bool, little: bool, p: Packet, rest: bytes)
    requires compressed ==> Lossless(z) && SelfDelimiting(z)
    requires EntryToBytes(z, compressed, Message(p, !little)).Ok?
    requires var r := ReadEntry(z, compressed, little, EntryToBytes(z, compressed, Message(p, !little)).value + rest);
             r.Ok? && r.value.0 == p
    ensures Symmetric(p.stamp) && Symmetric(|Compress(z, compressed, p.payload)|)
  {
    var m := Message(p, !little);
    var entry := EntryToBytes(z, compressed, m).value;
    var stored := Compress(z, compressed, p.payload);
    var body := entry + rest;
    hide Compress, Decompress, Pack, Unpack;
    EntryLayout(z, compressed, m);
    assert body[4..8] == entry[4..8];
    var misread := Unpack(body[4..8], little);
    CutAt(entry, stored, rest, misread);
    SamePayload(z, compressed, body[..8 + misread][8..], stored, p.payload);
    SymmetricIff(p.stamp, little);
    SymmetricIff(|stored|, little);
  }

  lemma ForeignHead(z: Zlib, compressed: bool, little: bool, p: Packet, rest: bytes)
    requires compressed ==> Lossless(z) && SelfDelimiting(z)
    requires EntryToBytes(z, compressed, Message(p, !little)).Ok?
    ensures var entry := EntryToBytes(z, compressed, Message(p, !little)).value;
            var read := ReadEntry(z, compressed, little, entry + rest);
            if EntryFits(z, compressed, p) && AllSymmetric(z, compressed, [p]) then read == Ok((p, |entry|))
            else read.Ok? ==> read.value.0 != p
  {
    var entry := EntryToBytes(z, compressed, Message(p, !little)).value;
    var read := ReadEntry(z, compressed, little, entry + rest);
    assert [p][0] == p;
    if Symmetric(p.stamp) && Symmetric(|Compress(z, compressed, p.payload)|) {
      assert entry == EntryToBytes(z, compressed, Message(p, little)).value;
      ReadWrittenEntry(z, compressed, Message(p, little), rest);
    } else if read.Ok? && read.value.0 == p {
      ForeignEntry(z, compressed, little, p, rest);
    }
  }

  lemma ParseStep(z: Zlib, compressed: bool, little: bool, body: bytes, ps: seq<Packet>)
    requires body != [] && ps != []
    ensures ParseEntries(z, compressed, little, body) == Ok(ps) <==>
            var read := ReadEntry(z, compressed, little, body);
            read.Ok? && read.value.0 == ps[0] && ParseEntries(z, compressed, little, body[read.value.1..])
              == Ok(ps[1..])
  {
    assert ps == [ps[0]] + ps[1..];
    var read := ReadEntry(z, compressed, little, body);
    if read.Ok? {
      var tail := ParseEntries(z, compressed, little, body[read.value.1..]);
      if tail.Ok? {
        var all := [read.value.0] + tail.value;
        assert all[0] == read.value.0 && all[1..] == tail.value;
      }
    }
  }

  lemma {:induction false} ForeignEntries(z: Zlib, compressed: bool, little: bool, ps: seq<Packet>)
    requires compressed ==> Lossless(z) && SelfDelimiting(z)
    requires EncodeEntries(z, compressed, InOrder(ps, !little)).Ok?
    ensures ParseEntries(z, compressed, little, EncodeEntries(z, compressed, InOrder(ps, !little)).value) == Ok(ps)
            <==> AllFit(z, compressed, ps) && AllSymmetric(z, compressed, ps)
  {
    if ps != [] {
      var ms := InOrder(ps, !little);
      assert ms[1..] == InOrder(ps[1..], !little);
      var entry := EntryToBytes(z, compressed, ms[0]).value;
      var rest := EncodeEntries(z, compressed, ms[1..]).value;
      EntryLayout(z, compressed, ms[0]);
      ForeignHead(z, compressed, little, ps[0], rest);
      ParseStep(z, compressed, little, entry + rest, ps);
      assert (entry + rest)[|entry|..] == rest;
      ForeignEntries(z, compressed, little, ps[1..]);
      FitsCons(z, compressed, ps);
      SymmetricCons(z, compressed, ps);
    }
  }

  lemma SymmetricCons(z: Zlib, compressed: bool, ps: seq<Packet>)
    requires ps != []
    ensures AllSymmetric(z, compressed, ps) <==>
            AllSymmetric(z, compressed, [ps[0]]) && AllSymmetric(z, compressed, ps[1..])
  {
    assert ps == [ps[0]] + ps[1..];
    forall i | 1 <= i < |ps| ensures ps[i] == ps[1..][i - 1] {
    }
  }

  /** Dumping packets that still carry the other byte order, under a header announcing the
      host's: the reload returns them exactly when every stored field is symmetric. */
  lemma ForeignDumpLoad(z: Zlib, host: bool, compressed: bool, ps: seq<Packet>)
    requires compressed ==> Lossless(z) && SelfDelimiting(z)
    requires DumpBytes(z, host, Some(compressed), compressed, |ps|, InOrder(ps, !host)).Ok?
    ensures var file := DumpBytes(z, host, Some(compressed), compressed, |ps|, InOrder(ps, !host)).value;
            Load(z, file) == Ok(Loaded(Header(1, 1, |ps|, host, compressed), ps))
            <==> Reloadable(z, compressed, ps, |file|) && AllSymmetric(z, compressed, ps)
  {
    DumpLayout(z, host, compressed, |ps|, InOrder(ps, !host));
    ForeignEntries(z, compressed, host, ps);
  }

  lemma OneEmptyPacket(z: Zlib, host: bool, stamp: u32)
    ensures var m := Message(Packet(stamp, []), host);
            && EncodeEntries(z, false, [m]) == EntryToBytes(z, false, m)
            && EntryToBytes(z, false, m) == Ok(Pack(stamp, host) + Pack(0, host))
  {
    var m := Message(Packet(stamp, []), host);
    assert [m][1..] == [];
    var entry := Pack(stamp, host) + Pack(0, host);
    assert entry + [] == entry;
  }

  /** For instance, one empty packet stamped 1, kept in big-endian order and dumped by a
      little-endian host, reads back stamped 0x0100_0000. */
  lemma ForeignDumpMisread(z: Zlib)
    ensures var written := DumpBytes(z, true, Some(false), false, 1, InOrder([Packet(1, [])], false));
            written.Ok? && Load(z, written.value) == Ok(Loaded(Header(1, 1, 1, true, false), [Packet(0x100_0000, [])]))
  {
    var p, q := Packet(1, []), Packet(0x100_0000, []);
    assert InOrder([p], false) == [Message(p, false)] && InOrder([q], true) == [Message(q, true)];
    OneEmptyPacket(z, false, 1);
    OneEmptyPacket(z, true, 0x100_0000);
    assert Pack(1, false) == Pack(0x100_0000, true) && Pack(0, false) == Pack(0, true);
    HeaderWritten(1, true, false);
    var written := DumpBytes(z, true, Some(false), false, 1, InOrder([q], true));
    assert |written.value| == 20;
    DumpLoadRoundTrip(z, true, false, [q]);
    assert [q][1..] == [] && TotalBytes([q]) == 0;
  }

  // ---------- Streaming against loading ----------

  lemma StreamEntryAgrees(z: Zlib, compressed: bool, little: bool, body: bytes)
    ensures var read := ReadEntry(z, compressed, little, body);
            read.Ok? ==> StreamEntry(z, compressed, little, body) == read
  {
    var read := ReadEntry(z, compressed, little, body);
    if read.Ok? {
      assert body[..8] + body[8..read.value.1] == body[..read.value.1];
    }
  }

  lemma {:induction false} StreamAgrees(z: Zlib, compressed: bool, little: bool, body: bytes, count: nat)
    requires ParseEntries(z, compressed, little, body).Ok?
    ensures var ps := ParseEntries(z, compressed, little, body).value;
            StreamEntries(z, compressed, little, body, count)
            == if count <= |ps| then Stream(ps[..count], true) else Stream(ps, false)
    decreases count
  {
    hide ReadEntry, StreamEntry;
    if count != 0 && body != [] {
      var ps := ParseEntries(z, compressed, little, body).value;
      var size := ReadEntry(z, compressed, little, body).value.1;
      StreamEntryAgrees(z, compressed, little, body);
      StreamAgrees(z, compressed, little, body[size..], count - 1);
      assert count <= |ps| ==> ps[..count] == [ps[0]] + ps[1..][..count - 1];
    }
  }

  /** A loadable file streamed from disk yields the loaded packets cut at the header's
      count, and fails after the last one when the header announces more. So streaming and
      memory agree exactly when the header's count matches the body. */
  lemma StreamFileAgrees(z: Zlib, file: bytes)
    requires Load(z, file).Ok?
    ensures var Loaded(h, ps) := Load(z, file).value;
            && 0 <= h.numPackets
            && StreamFile(z, file) == (if h.numPackets <= |ps| then Stream(ps[..h.numPackets], true)
                                       else Stream(ps, false))
            && (StreamFile(z, file) == Stream(ps, true) <==> h.numPackets == |ps|)
  {
    var Loaded(h, ps) := Load(z, file).value;
    StreamAgrees(z, h.compressed, h.little, BodyPart(file), h.numPackets);
    assert h.numPackets < |ps| ==> |ps[..h.numPackets]| < |ps|;
  }
}
