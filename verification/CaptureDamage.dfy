/** Capture files cut short: what a reader still takes from them. */
module CaptureDamage {
  import opened Python
  import opened Bytes
  import opened CaptureFormat
  import opened CaptureFile
  import opened PacketCapture

  lemma TakenHead(z: Zlib, compressed: bool, little: bool, entry: bytes, rest: bytes, p: Packet, count: nat, total: nat)
    requires entry != [] && ReadEntry(z, compressed, little, entry + rest) == Ok((p, |entry|))
    requires count < MAX_PACKET_COUNT && total + |p.payload| <= MAX_TOTAL_DECOMPRESSED_BYTES
    ensures Taken(z, compressed, little, entry + rest, count, total)
            == [p] + Taken(z, compressed, little, rest, count + 1, total + |p.payload|)
  {
    hide ReadEntry;
    assert (entry + rest)[|entry|..] == rest;
  }

  /** Whole entries within the limits are taken, whatever comes after them. */
  lemma {:induction false} TakenWritten(z: Zlib, compressed: bool, little: bool, ps: seq<Packet>, rest: bytes,
                                        count: nat, total: nat)
    requires compressed ==> Lossless(z)
    requires EncodeEntries(z, compressed, InOrder(ps, little)).Ok? && AllFit(z, compressed, ps)
    requires count + |ps| <= MAX_PACKET_COUNT && total + TotalBytes(ps) <= MAX_TOTAL_DECOMPRESSED_BYTES
    ensures var body := EncodeEntries(z, compressed, InOrder(ps, little)).value;
            Taken(z, compressed, little, body + rest, count, total)
            == ps + Taken(z, compressed, little, rest, count + |ps|, total + TotalBytes(ps))
  {
    hide ReadEntry, EntryToBytes, EntryFits, AllFit, Taken;
    var ms := InOrder(ps, little);
    var body := EncodeEntries(z, compressed, ms).value;
    if ps == [] {
      assert body + rest == rest && [] + Taken(z, compressed, little, rest, count, total)
             == Taken(z, compressed, little, rest, count, total);
    } else {
      assert ms[1..] == InOrder(ps[1..], little);
      var entry := EntryToBytes(z, compressed, ms[0]).value;
      var others := EncodeEntries(z, compressed, ms[1..]).value;
      EntryLayout(z, compressed, ms[0]);
      FitsCons(z, compressed, ps);
      assert body + rest == entry + (others + rest);
      ReadWrittenEntry(z, compressed, ms[0], others + rest);
      TakenHead(z, compressed, little, entry, others + rest, ps[0], count, total);
      TakenWritten(z, compressed, little, ps[1..], rest, count + 1, total + |ps[0].payload|);
      var after := Taken(z, compressed, little, rest, count + |ps|, total + TotalBytes(ps));
      assert [ps[0]] + (ps[1..] + after) == ps + after;
    }
  }

  lemma {:induction false} ParseWritten(z: Zlib, compressed: bool, little: bool, ps: seq<Packet>, rest: bytes)
    requires compressed ==> Lossless(z)
    requires EncodeEntries(z, compressed, InOrder(ps, little)).Ok? && AllFit(z, compressed, ps)
    ensures var body := EncodeEntries(z, compressed, InOrder(ps, little)).value;
            ParseEntries(z, compressed, little, body + rest)
            == match ParseEntries(z, compressed, little, rest) case Ok(qs) => Ok(ps + qs) case Err(e) => Err(e)
  {
    hide ReadEntry, EntryToBytes, EntryFits, AllFit, ParseEntries, InOrder;
    var ms := InOrder(ps, little);
    var body := EncodeEntries(z, compressed, ms).value;
    var parsed := ParseEntries(z, compressed, little, rest);
    if ps == [] {
      assert body + rest == rest;
      assert parsed.Ok? ==> ps + parsed.value == parsed.value;
    } else {
      assert ms[1..] == InOrder(ps[1..], little);
      var entry := EntryToBytes(z, compressed, ms[0]).value;
      var others := EncodeEntries(z, compressed, ms[1..]).value;
      EntryLayout(z, compressed, ms[0]);
      FitsCons(z, compressed, ps);
      assert body + rest == entry + (others + rest);
      ReadWrittenEntry(z, compressed, ms[0], others + rest);
      ParseCons(z, compressed, little, entry, others + rest);
      ParseWritten(z, compressed, little, ps[1..], rest);
      assert parsed.Ok? ==> [ps[0]] + (ps[1..] + parsed.value) == ps + parsed.value;
    }
  }

  /** No part of an entry reads as one. */
  lemma PartUnreadable(z: Zlib, compressed: bool, m: Message, k: nat)
    requires EntryToBytes(z, compressed, m).Ok? && k < |EntryToBytes(z, compressed, m).value|
    ensures ReadEntry(z, compressed, m.little, EntryToBytes(z, compressed, m).value[..k]).Err?
  {
    var entry := EntryToBytes(z, compressed, m).value;
    EntryLayout(z, compressed, m);
    UnpackPack(|Compress(z, compressed, m.packet.payload)|, m.little);
    if k >= ENTRY_HEADER_LEN {
      assert entry[..k][4..8] == entry[4..8];
    }
  }

  /** The file of the packets in ps and a part of an entry for the next one, as a crash leaves it. */
  function CutFile(z: Zlib, host: bool, compressed: bool, count: u32, ps: seq<Packet>, next: Packet, k: nat): bytes
    requires EncodeEntries(z, compressed, InOrder(ps, host)).Ok?
    requires EntryToBytes(z, compressed, Message(next, host)).Ok?
    requires k < |EntryToBytes(z, compressed, Message(next, host)).value|
  {
    HeaderWritten(count, host, compressed);
    HeaderToBytes(Header(1, 1, count, host, compressed)).value
    + (EncodeEntries(z, compressed, InOrder(ps, host)).value
       + EntryToBytes(z, compressed, Message(next, host)).value[..k])
  }

  lemma CutParts(z: Zlib, host: bool, compressed: bool, count: u32, ps: seq<Packet>, next: Packet, k: nat)
    requires EncodeEntries(z, compressed, InOrder(ps, host)).Ok?
    requires EntryToBytes(z, compressed, Message(next, host)).Ok?
    requires k < |EntryToBytes(z, compressed, Message(next, host)).value|
    ensures var file := CutFile(z, host, compressed, count, ps, next, k);
            && |file| >= HEADER_LEN
            && HeaderFromBytes(HeaderPart(file)) == Ok(Header(1, 1, count, host, compressed))
            && BodyPart(file) == EncodeEntries(z, compressed, InOrder(ps, host)).value
                                 + EntryToBytes(z, compressed, Message(next, host)).value[..k]
  {
    hide EncodeEntries, EntryToBytes, HeaderToBytes, HeaderFromBytes;
    HeaderWritten(count, host, compressed);
    var file := CutFile(z, host, compressed, count, ps, next, k);
    var header := HeaderToBytes(Header(1, 1, count, host, compressed)).value;
    assert file[..HEADER_LEN] == header;
    assert file[HEADER_LEN..] == EncodeEntries(z, compressed, InOrder(ps, host)).value
                                 + EntryToBytes(z, compressed, Message(next, host)).value[..k];
  }

  /** A file cut between two entries loads to the whole entries before the cut; a file cut inside
      an entry is refused, but the object that read it has already taken them. */
  lemma CutFileLeaves(z: Zlib, host: bool, compressed: bool, count: u32, ps: seq<Packet>, next: Packet, k: nat,
                      s: CaptureState)
    requires compressed ==> Lossless(z)
    requires EncodeEntries(z, compressed, InOrder(ps, host)).Ok?
    requires EntryToBytes(z, compressed, Message(next, host)).Ok?
    requires k < |EntryToBytes(z, compressed, Message(next, host)).value|
    requires var size := |CutFile(z, host, compressed, count, ps, next, k)|;
             Reloadable(z, compressed, ps, size) && count <= MAX_PACKET_COUNT
    ensures var file := CutFile(z, host, compressed, count, ps, next, k);
            && Load(z, file) ==
               (if k == 0 then Ok(Loaded(Header(1, 1, count, host, compressed), ps)) else Err(ValueError))
            && AfterRead(z, s, file) == s.(
                 header := Header(1, 1, count, host, compressed), source := Some(file), useZlib := compressed,
                 streaming := Exceeds(ps), history := if Exceeds(ps) then [] else s.history + InOrder(ps, host))
  {
    hide EncodeEntries, EntryToBytes, ReadEntry, AllFit, TotalBytes, CutFile;
    var file := CutFile(z, host, compressed, count, ps, next, k);
    var part := EntryToBytes(z, compressed, Message(next, host)).value[..k];
    CutParts(z, host, compressed, count, ps, next, k);
    PartUnreadable(z, compressed, Message(next, host), k);
    ParseWritten(z, compressed, host, ps, part);
    TakenWritten(z, compressed, host, ps, part, 0, 0);
    assert ps + [] == ps;
  }
}
