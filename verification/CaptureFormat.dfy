/** The `.f1pcap` file header and packet entries, byte for byte. */
module CaptureFormat {
  import opened Python
  import opened Bytes

  // ---------- File header ----------

  const MAGIC: bytes := [0x46, 0x31, 0x55, 0x44, 0x50, 0x00] // "F1UDP" and a zero byte
  const HEADER_LEN := 12

  datatype Header = Header(major: int, minor: int, numPackets: int, little: bool, compressed: bool)

  /** The header constructor bounds both version numbers from above only. */
  function MakeHeader(major: int, minor: int, numPackets: int, little: bool, compressed: bool): Result<Header> {
    if major > 7 || minor > 15 then Err(ValueError) else Ok(Header(major, minor, numPackets, little, compressed))
  }

  function HeaderToBytes(h: Header): Result<bytes> {
    var flags := if h.compressed then 1 else 0;
    var version := (if h.little then 0x80 else 0) + h.major * 0x10 + h.minor;
    if !(0 <= version < 256) || !(0 <= h.numPackets < U32_LIMIT) then Err(StructError)
    else Ok(MAGIC + [flags, version] + Pack(h.numPackets, true))
  }

  function HeaderFromBytes(data: bytes): Result<Header> {
    if |data| != HEADER_LEN || data[..6] != MAGIC || data[6] / 2 != 0 then Err(ValueError)
    else
      var version := data[7];
      MakeHeader(version / 0x10 % 8, version % 0x10, Unpack(data[8..], true), version / 0x80 == 1, data[6] == 1)
  }

  /** Exactly which headers the constructor accepts survive being written and read back:
      those whose version numbers and packet count are not negative and whose count fits
      its field. A negative version number is accepted by the constructor and lost. */
  lemma HeaderRoundTrip(major: int, minor: int, numPackets: int, little: bool, compressed: bool)
    requires MakeHeader(major, minor, numPackets, little, compressed).Ok?
    ensures var h := MakeHeader(major, minor, numPackets, little, compressed).value;
            var written := HeaderToBytes(h);
            (written.Ok? && HeaderFromBytes(written.value) == Ok(h))
            <==> 0 <= major && 0 <= minor && 0 <= numPackets < U32_LIMIT
  {
    var h := Header(major, minor, numPackets, little, compressed);
    var written := HeaderToBytes(h);
    if written.Ok? {
      var data := written.value;
      assert data[..6] == MAGIC;
      assert data[8..] == Pack(numPackets, true);
      UnpackPack(numPackets, true);
      if HeaderFromBytes(data) == Ok(h) {
        assert 0 <= data[7] / 0x10 % 8 == major && 0 <= data[7] % 0x10 == minor;
      }
    }
  }

  /** For instance, major version -1 in a little-endian file reads back as version 7 of a
      big-endian one. */
  lemma NegativeMajorMisread()
    ensures MakeHeader(-1, 0, 0, true, true) == Ok(Header(-1, 0, 0, true, true))
    ensures var written := HeaderToBytes(Header(-1, 0, 0, true, true));
            written.Ok? && HeaderFromBytes(written.value) == Ok(Header(7, 0, 0, false, true))
  {
    var data := HeaderToBytes(Header(-1, 0, 0, true, true)).value;
    assert data[..6] == MAGIC;
    assert data[6] == 1 && data[7] == 0x70;
    assert data[8..] == Pack(0, true);
    UnpackPack(0, true);
  }

  /** The reverse direction: an accepted header is written back to the bytes it came from. */
  lemma HeaderBytesRoundTrip(data: bytes)
    requires HeaderFromBytes(data).Ok?
    ensures HeaderToBytes(HeaderFromBytes(data).value) == Ok(data)
  {
    var h := HeaderFromBytes(data).value;
    var version: int := data[7];
    assert version == version / 0x80 * 0x80 + version / 0x10 % 8 * 0x10 + version % 0x10;
    PackUnpack(data[8..], true);
    assert data == data[..6] + [data[6], data[7]] + data[8..];
  }

  /** A header whose fields all fit, as the capture classes build it. */
  lemma HeaderWritten(numPackets: u32, little: bool, compressed: bool)
    ensures var written := HeaderToBytes(Header(1, 1, numPackets, little, compressed));
            && written.Ok? && |written.value| == HEADER_LEN
            && HeaderFromBytes(written.value) == Ok(Header(1, 1, numPackets, little, compressed))
  {
    HeaderRoundTrip(1, 1, numPackets, little, compressed);
  }

  /** The number of four base-256 digits, the lowest first. */
  function Number(b0: int, b1: int, b2: int, b3: int): int {
    b0 + 256 * b1 + 65536 * b2 + 16777216 * b3
  }

  /** The header byte by byte: the magic, a compression flag, the byte order in the top bit over
      three bits of major and four of minor version, and the count, always little-endian. */
  lemma HeaderBytes(h: Header)
    requires HeaderToBytes(h).Ok? && 0 <= h.major < 8 && 0 <= h.minor < 16
    ensures var data := HeaderToBytes(h).value;
            && |data| == 12 && data[..6] == [0x46, 0x31, 0x55, 0x44, 0x50, 0x00]
            && data[6] == (if h.compressed then 1 else 0)
            && data[7] == (if h.little then 128 else 0) + 16 * h.major + h.minor
            && Number(data[8], data[9], data[10], data[11]) == h.numPackets
  {
    var data := HeaderToBytes(h).value;
    assert data[..6] == MAGIC;
    assert data[8..] == Pack(h.numPackets, true);
    UnpackPack(h.numPackets, true);
  }

  // ---------- Compression ----------

  /** zlib as two parameters: `deflate` compresses a packet, `inflate` expands exactly one
      complete stream and answers None on corrupt, truncated or trailing data. */
  datatype Zlib = Zlib(deflate: bytes -> bytes, inflate: bytes -> Option<bytes>)

  ghost predicate Lossless(z: Zlib) {
    forall x :: z.inflate(z.deflate(x)) == Some(x)
  }

  /** A complete stream stays complete neither when cut nor when extended. */
  ghost predicate SelfDelimiting(z: Zlib) {
    forall s, t :: z.inflate(s).Some? && z.inflate(s + t).Some? ==> t == []
  }

  const MAX_DECOMPRESSED_PACKET_BYTES := 0x1_0000
  const MAX_STORED_PACKET_BYTES := 0x10_0000

  function Compress(z: Zlib, compressed: bool, data: bytes): bytes {
    if compressed then z.deflate(data) else data
  }

  function Decompress(z: Zlib, compressed: bool, data: bytes): Result<bytes> {
    if !compressed then Ok(data)
    else match z.inflate(data)
      case None => Err(ValueError)
      case Some(payload) =>
        if |payload| > MAX_DECOMPRESSED_PACKET_BYTES then Err(ValueError) else Ok(payload)
  }

  // ---------- Packet entries ----------

  /** What a capture stores of one packet. The stamp is the 32-bit pattern of its float. */
  datatype Packet = Packet(stamp: u32, payload: bytes)

  /** A packet together with the byte order it will be written in. */
  datatype Message = Message(packet: Packet, little: bool)

  const ENTRY_HEADER_LEN := 8

  function EntryToBytes(z: Zlib, compressed: bool, m: Message): (r: Result<bytes>)
    ensures r.Err? ==> r.error == StructError
  {
    var stored := Compress(z, compressed, m.packet.payload);
    if |stored| >= U32_LIMIT then Err(StructError)
    else Ok(Pack(m.packet.stamp, m.little) + Pack(|stored|, m.little) + stored)
  }

  function EntryFromBytes(z: Zlib, compressed: bool, little: bool, data: bytes): Result<Message> {
    if |data| < ENTRY_HEADER_LEN then Err(ValueError)
    else
      var stamp, length := Unpack(data[..4], little), Unpack(data[4..8], little);
      if |data| - ENTRY_HEADER_LEN != length || length > MAX_STORED_PACKET_BYTES then Err(ValueError)
      else
        var payload :- Decompress(z, compressed, data[8..]);
        if |payload| > MAX_DECOMPRESSED_PACKET_BYTES then Err(ValueError)
        else Ok(Message(Packet(stamp, payload), little))
  }

  /** The size limits a reader puts on one packet: 64 KiB, and 1 MiB as stored. */
  predicate EntryFits(z: Zlib, compressed: bool, p: Packet) {
    && |p.payload| <= 64 * 1024
    && |Compress(z, compressed, p.payload)| <= 1024 * 1024
  }

  /** The parts of a written entry, in place. */
  lemma EntryLayout(z: Zlib, compressed: bool, m: Message)
    requires EntryToBytes(z, compressed, m).Ok?
    ensures var data := EntryToBytes(z, compressed, m).value;
            var stored := Compress(z, compressed, m.packet.payload);
            && |data| == ENTRY_HEADER_LEN + |stored|
            && data[..4] == Pack(m.packet.stamp, m.little)
            && data[4..8] == Pack(|stored|, m.little)
            && data[8..] == stored
  {
  }

  /** An entry byte by byte: the stamp, the stored length, each in the entry's byte order, and the
      payload as stored. */
  lemma EntryBytes(z: Zlib, compressed: bool, m: Message)
    requires EntryToBytes(z, compressed, m).Ok?
    ensures var data := EntryToBytes(z, compressed, m).value;
            var stored := if compressed then z.deflate(m.packet.payload) else m.packet.payload;
            && |data| == 8 + |stored| && data[8..] == stored
            && (if m.little then
                  && Number(data[0], data[1], data[2], data[3]) == m.packet.stamp
                  && Number(data[4], data[5], data[6], data[7]) == |stored|
                else
                  && Number(data[3], data[2], data[1], data[0]) == m.packet.stamp
                  && Number(data[7], data[6], data[5], data[4]) == |stored|)
  {
    EntryLayout(z, compressed, m);
    UnpackPack(m.packet.stamp, m.little);
    UnpackPack(|Compress(z, compressed, m.packet.payload)|, m.little);
    var data := EntryToBytes(z, compressed, m).value;
    assert data[4..8][0] == data[4] && data[4..8][1] == data[5] && data[4..8][2] == data[6] && data[4..8][3] == data[7];
  }

  /** Writing one packet and reading it back in the same byte order and compression mode
      returns it when it is within the reader's limits and is refused otherwise. */
  lemma EntryRoundTrip(z: Zlib, compressed: bool, m: Message)
    requires compressed ==> Lossless(z)
    requires EntryToBytes(z, compressed, m).Ok?
    ensures EntryFromBytes(z, compressed, m.little, EntryToBytes(z, compressed, m).value)
            == if EntryFits(z, compressed, m.packet) then Ok(m) else Err(ValueError)
  {
    EntryLayout(z, compressed, m);
    UnpackPack(m.packet.stamp, m.little);
    UnpackPack(|Compress(z, compressed, m.packet.payload)|, m.little);
  }
}
