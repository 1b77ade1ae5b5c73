/** A recording that the settings allow and the reader refuses: it has too many packets. */
module RecordingLimits {
  import opened Python
  import opened Bytes
  import opened CaptureFormat
  import opened CaptureFile
  import opened SessionMachine
  import opened SessionSafety

  /** A packet is offered and handled, over and over. */
  function Recording(uid: int, p: Packet, n: nat): seq<Event> {
    if n == 0 then [Start] else Recording(uid, p, n - 1) + [OfferRaw(uid, p), Turn(true)]
  }

  function Stopping(uid: int, p: Packet, n: nat): seq<Event> {
    Recording(uid, p, n) + [AskStop, Turn(true)]
  }

  function Copies(p: Packet, n: nat): (ps: seq<Packet>)
    ensures |ps| == n && forall i | 0 <= i < n :: ps[i] == p
  {
    seq(n, i => p)
  }

  /** The bytes that n copies take, one entry at a time. */
  function Room(z: Zlib, p: Packet, n: nat): nat {
    if n == 0 then HEADER_LEN else Room(z, p, n - 1) + ENTRY_HEADER_LEN + |z.deflate(p.payload)|
  }

  predicate Fits(z: Zlib, g: Settings, uid: int, p: Packet, n: nat) {
    && Admissible(g) && g.recording && uid > 0
    && |z.deflate(p.payload)| < U32_LIMIT && Room(z, p, n) <= MaxSessionBytes(g)
  }

  /** The recorder idle between packets. */
  predicate Idle(s: Recorder, uid: int, p: Packet, n: nat, size: nat) {
    && s.worker == Running && s.queue == [] && s.finished == [] && s.pending == map[]
    && if n == 0 then s.current.None?
       else
         && s.current.Some? && s.current.value.uid == uid && s.current.value.packets == Copies(p, n)
         && !s.current.value.writer.closed && |s.current.value.writer.file| == size
  }

  lemma RunTwo(z: Zlib, g: Settings, events: seq<Event>, a: Event, b: Event)
    ensures Run(z, g, events + [a, b]) == Step(z, g, Step(z, g, Run(z, g, events), a), b)
  {
    var all := events + [a, b];
    assert all[..|all| - 1] == events + [a] && (events + [a])[..|events|] == events;
  }

  /** One more packet, offered and handled. */
  lemma OneMore(z: Zlib, g: Settings, s: Recorder, uid: int, p: Packet, n: nat, size: nat)
    requires Fits(z, g, uid, p, n + 1) && Idle(s, uid, p, n, size) && size == Room(z, p, n)
    ensures Idle(Step(z, g, Step(z, g, s, OfferRaw(uid, p)), Turn(true)), uid, p, n + 1, Room(z, p, n + 1))
  {
    hide Room, Copies;
    RoomStep(z, p, n);
    var offered := Step(z, g, s, OfferRaw(uid, p));
    assert offered.queue == [Raw(uid, p)];
    var taken := offered.(queue := []);
    OnePacket(z, g, taken, uid, p, n);
    assert offered.queue[1..] == [];
  }

  lemma RoomStep(z: Zlib, p: Packet, n: nat)
    ensures Room(z, p, 0) == HEADER_LEN
    ensures Room(z, p, n + 1) == Room(z, p, n) + ENTRY_HEADER_LEN + |z.deflate(p.payload)|
  {
  }

  lemma OnePacket(z: Zlib, g: Settings, s: Recorder, uid: int, p: Packet, n: nat)
    requires Fits(z, g, uid, p, n + 1) && Idle(s, uid, p, n, Room(z, p, n))
    ensures Idle(HandleRaw(z, g, s, uid, p, true).0, uid, p, n + 1, Room(z, p, n + 1))
  {
    hide Room;
    RoomStep(z, p, n);
    RoomStep(z, p, 0);
    HeaderWritten(0, true, true);
    EntryLayout(z, true, Message(p, true));
    assert Copies(p, n) + [p] == Copies(p, n + 1);
  }

  lemma RoomGrows(z: Zlib, p: Packet, n: nat)
    ensures Room(z, p, n) <= Room(z, p, n + 1)
  {
  }

  lemma {:induction false} AfterRecording(z: Zlib, g: Settings, uid: int, p: Packet, n: nat)
    requires Fits(z, g, uid, p, n)
    ensures Idle(Run(z, g, Recording(uid, p, n)), uid, p, n, Room(z, p, n))
  {
    if n == 0 {
      assert [Start][..0] == [];
    } else {
      hide Idle, Step, Room;
      RoomGrows(z, p, n - 1);
      AfterRecording(z, g, uid, p, n - 1);
      RunTwo(z, g, Recording(uid, p, n - 1), OfferRaw(uid, p), Turn(true));
      OneMore(z, g, Run(z, g, Recording(uid, p, n - 1)), uid, p, n - 1, Room(z, p, n - 1));
    }
  }

  lemma StopIdle(z: Zlib, g: Settings, s: Recorder, uid: int, p: Packet, n: nat, size: nat)
    requires Admissible(g) && n > 0 && Idle(s, uid, p, n, size)
    ensures var t := Step(z, g, Step(z, g, s, AskStop), Turn(true));
            |t.finished| == 1 && t.finished[0].packets == Copies(p, n)
  {
    assert Step(z, g, s, AskStop).queue == [Stop];
  }

  /** Any number of packets that the session limit has room for ends up in one finalized session;
      with more than two million of them, no reader accepts its capture. */
  lemma TooManyPackets(z: Zlib, g: Settings, uid: int, p: Packet, n: nat)
    requires Lossless(z) && Fits(z, g, uid, p, n) && n > 2_000_000
    ensures var s := Run(z, g, Stopping(uid, p, n));
            |s.finished| == 1 && s.finished[0].packets == Copies(p, n) && Load(z, s.finished[0].file) == Err(ValueError)
  {
    AfterRecording(z, g, uid, p, n);
    RunTwo(z, g, Recording(uid, p, n), AskStop, Turn(true));
    StopIdle(z, g, Run(z, g, Recording(uid, p, n)), uid, p, n, Room(z, p, n));
    FinishedSessionLoads(z, g, Stopping(uid, p, n), 0);
  }

  lemma {:induction false} RoomIsProduct(z: Zlib, p: Packet, n: nat)
    ensures Room(z, p, n) == HEADER_LEN + n * (ENTRY_HEADER_LEN + |z.deflate(p.payload)|)
  {
    if n > 0 {
      RoomIsProduct(z, p, n - 1);
      var entry := ENTRY_HEADER_LEN + |z.deflate(p.payload)|;
      assert n * entry == (n - 1) * entry + entry;
    }
  }

  /** The default limit of 2048 MiB has room for more than two million packets that compress to
      a thousand bytes each. */
  lemma DefaultLimitTooLarge(z: Zlib, g: Settings, uid: int, p: Packet)
    requires Lossless(z) && Admissible(g) && g.recording && uid > 0 && g.maxSessionMb == 2048
    requires |z.deflate(p.payload)| <= 1000
    ensures var s := Run(z, g, Stopping(uid, p, MAX_PACKET_COUNT + 1));
            |s.finished| == 1 && Load(z, s.finished[0].file) == Err(ValueError)
  {
    var n := MAX_PACKET_COUNT + 1;
    RoomIsProduct(z, p, n);
    assert n * (ENTRY_HEADER_LEN + |z.deflate(p.payload)|) <= n * (ENTRY_HEADER_LEN + 1000);
    TooManyPackets(z, g, uid, p, n);
  }
}
