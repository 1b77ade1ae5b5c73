/** Captures filled packet by packet: what any number of additions announces, dumps and reloads. */
module CaptureAdds {
  import opened Python
  import opened Bytes
  import opened CaptureFormat
  import opened CaptureFile
  import opened PacketCapture

  /** The packets added one by one, each as the object's method does it. */
  function AfterAdds(host: bool, s: CaptureState, ps: seq<Packet>): CaptureState {
    if ps == [] then s else AfterAdd(host, AfterAdds(host, s, ps[..|ps| - 1]), ps[|ps| - 1])
  }

  /** Additions go to the end of the history in the host's byte order; the announced count is the
      length of the whole history, and nothing else changes. */
  lemma {:induction false} AddsAnnounce(host: bool, s: CaptureState, ps: seq<Packet>)
    ensures AfterAdds(host, s, ps)
            == if ps == [] then s
               else s.(history := s.history + InOrder(ps, host),
                       header := s.header.(numPackets := |s.history| + |ps|))
  {
    if ps != [] {
      var front, last := ps[..|ps| - 1], ps[|ps| - 1];
      AddsAnnounce(host, s, front);
      assert InOrder(ps, host) == InOrder(front, host) + [Message(last, host)];
      assert s.history + InOrder(front, host) + [Message(last, host)] == s.history + InOrder(ps, host);
      if front == [] {
        assert InOrder(front, host) == [] && s.history + [] == s.history;
      }
    }
  }

  /** A new capture filled with any packets announces and delivers exactly them. Its dump succeeds
      exactly when every payload fits its length field and the count its own, and loads back to
      the packets under a header that counts them, exactly within the reader's limits. */
  lemma AddsDump(z: Zlib, host: bool, compressed: bool, ps: seq<Packet>)
    requires compressed ==> Lossless(z)
    requires ps != []
    ensures var filled := AfterAdds(host, Fresh(host, compressed), ps);
            var dumped := DumpOf(z, host, filled);
            && filled.header.numPackets == |ps| && PacketsOf(z, filled) == Stream(ps, true)
            && (dumped.Ok? <==> AllStorable(z, compressed, ps) && |ps| < U32_LIMIT)
            && (dumped.Ok? ==>
                  && dumped.value.Some?
                  && Load(z, dumped.value.value) ==
                     if Reloadable(z, compressed, ps, |dumped.value.value|)
                     then Ok(Loaded(Header(1, 1, |ps|, host, compressed), ps)) else Err(ValueError))
  {
    hide Load, EncodeEntries, Reloadable, AllStorable;
    AddsAnnounce(host, Fresh(host, compressed), ps);
    assert [] + InOrder(ps, host) == InOrder(ps, host);
    assert Packets(InOrder(ps, host)) == ps;
    DumpOfList(z, host, compressed, ps);
  }

  lemma DumpOfList(z: Zlib, host: bool, compressed: bool, ps: seq<Packet>)
    requires compressed ==> Lossless(z)
    ensures var dumped := DumpBytes(z, host, Some(compressed), compressed, |ps|, InOrder(ps, host));
            && (dumped.Ok? <==> AllStorable(z, compressed, ps) && |ps| < U32_LIMIT)
            && (dumped.Ok? ==> Load(z, dumped.value) ==
                               if Reloadable(z, compressed, ps, |dumped.value|)
                               then Ok(Loaded(Header(1, 1, |ps|, host, compressed), ps)) else Err(ValueError))
  {
    hide Load, EncodeEntries, Reloadable, AllStorable;
    EncodeSucceeds(z, compressed, host, ps);
    if |ps| < U32_LIMIT {
      HeaderWritten(|ps|, host, compressed);
      if AllStorable(z, compressed, ps) {
        DumpLoadRoundTrip(z, host, compressed, ps);
      }
    }
  }

  /** A cleared capture has nothing to dump, and filled again it dumps what a new one would. */
  lemma ClearStartsAnew(z: Zlib, host: bool, s: CaptureState, compressed: bool, ps: seq<Packet>)
    requires s.announced == Some(compressed) && s.useZlib == compressed
    ensures DumpOf(z, host, AfterClear(s)) == Ok(None)
    ensures DumpOf(z, host, AfterAdds(host, AfterClear(s), ps))
            == DumpOf(z, host, AfterAdds(host, Fresh(host, compressed), ps))
  {
    AddsAnnounce(host, AfterClear(s), ps);
    AddsAnnounce(host, Fresh(host, compressed), ps);
  }

  /** Packets added to a loaded capture that was retained in memory, in the host's byte order: a
      dump announces the loaded and the added ones together, whatever the file announced, and
      loads back to all of them exactly within the reader's limits. */
  lemma AddsToLoaded(z: Zlib, host: bool, file: bytes, compressed: bool, added: seq<Packet>)
    requires Lossless(z) && Load(z, file).Ok? && added != []
    requires Load(z, file).value.header.little == host && !Exceeds(Load(z, file).value.packets)
    ensures var loaded := Load(z, file).value;
            var all := loaded.packets + added;
            var filled := AfterAdds(host, AfterSetCompressed(AfterLoad(Unread(host), file, loaded), compressed), added);
            var dumped := DumpOf(z, host, filled);
            && filled.header.numPackets == |all| && PacketsOf(z, filled) == Stream(all, true)
            && (dumped.Ok? <==> AllStorable(z, compressed, all) && |all| < U32_LIMIT)
            && (dumped.Ok? ==>
                  && dumped.value.Some?
                  && Load(z, dumped.value.value) ==
                     if Reloadable(z, compressed, all, |dumped.value.value|)
                     then Ok(Loaded(Header(1, 1, |all|, host, compressed), all)) else Err(ValueError))
  {
    hide Load, EncodeEntries, Reloadable, AllStorable, Exceeds;
    var loaded := Load(z, file).value;
    var all := loaded.packets + added;
    AddsAnnounce(host, AfterSetCompressed(AfterLoad(Unread(host), file, loaded), compressed), added);
    assert [] + InOrder(loaded.packets, host) + InOrder(added, host) == InOrder(all, host);
    assert Packets(InOrder(all, host)) == all;
    DumpOfList(z, host, compressed, all);
  }
}
