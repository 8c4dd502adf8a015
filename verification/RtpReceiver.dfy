/**
 The RTP receiver's header processing: counting lost packets by their sequence
 numbers and noticing where frames start.
 */
module RtpReceiver {
  import opened Modular
  import opened RtpHeader
  import opened VideoWriter
  import opened Wrappers

  datatype Counters = Counters(
    initialized: bool,
    last: nat,
    dropped: nat,
    corrupt: nat,
    lastMarker: bool,
    frameStarts: seq<nat>)

  const NEW_COUNTERS := Counters(false, 0, 0, 0, false, [])

  /** A received packet: its bytes in memory and the length of its header. */
  datatype Received = Received(bytes: seq<Byte>, length: nat)

  function Space(extended: bool): nat {
    if extended then TWO_32 else TWO_16
  }

  predicate InMemory(p: Received) {
    8 <= |p.bytes| && SourcesSize(p.bytes[0]) + 14 <= |p.bytes|
  }

  function TimestampOf(bytes: seq<Byte>): nat
    requires 8 <= |bytes|
  {
    JoinLong(Join(bytes[4], bytes[5]), Join(bytes[6], bytes[7]))
  }

  /** `process_packet_header`. */
  function Process(c: Counters, p: Received, extended: bool): Counters
    requires InMemory(p)
  {
    match ReadSequence(p.bytes, p.length, extended)
    case None => c.(corrupt := c.corrupt + 1)
    case Some(number) =>
      var gap := if c.initialized then Wrap(number - (c.last + 1), Space(extended)) else 0;
      var marker := p.bytes[1] >= 128;
      Counters(true, number, c.dropped + gap, c.corrupt, marker,
               if !marker && c.lastMarker then c.frameStarts + [TimestampOf(p.bytes)] else c.frameStarts)
  }

  function ProcessAll(c: Counters, packets: seq<Received>, extended: bool): Counters
    requires forall p :: p in packets ==> InMemory(p)
    decreases |packets|
  {
    if packets == [] then c
    else
      assert packets[|packets| - 1] in packets;
      Process(ProcessAll(c, packets[..|packets| - 1], extended), packets[|packets| - 1], extended)
  }

  // ---- lost packets ---------------------------------------------------------------------

  /** Packets that arrive, by the numbers they were sent with: in order, some missing. */
  predicate InOrder(nums: seq<int>) {
    forall i, j :: 0 <= i < j < |nums| ==> nums[i] < nums[j]
  }

  /** The packets between the first and the last received that are missing. */
  function Missing(nums: seq<int>): int {
    if nums == [] then 0 else nums[|nums| - 1] - nums[0] + 1 - |nums|
  }

  /** No gap is a whole number space or more. */
  predicate GapsFit(nums: seq<int>, space: nat) {
    forall i :: 0 < i < |nums| ==> nums[i] - nums[i - 1] <= space
  }

  /** The gaps as the receiver sees them, added up. */
  function Seen(nums: seq<int>, space: nat): nat
    requires 0 < space
  {
    if |nums| < 2 then 0
    else Seen(nums[..|nums| - 1], space) + Wrap(nums[|nums| - 1] - nums[|nums| - 2] - 1, space)
  }

  lemma {:induction false} WrapNotMore(x: nat, m: nat)
    requires 0 < m
    ensures Wrap(x, m) <= x && (Wrap(x, m) == x <==> x < m)
    decreases x
  {
    if x >= m {
      WrapNotMore(x - m, m);
    }
  }

  /** What the receiver sees never exceeds what is missing, and equals it exactly when every gap fits. */
  lemma {:induction false} SeenIffGapsFit(nums: seq<int>, space: nat)
    requires 0 < space && InOrder(nums)
    ensures Seen(nums, space) <= Missing(nums) || nums == []
    ensures Seen(nums, space) == Missing(nums) <==> GapsFit(nums, space)
    decreases |nums|
  {
    if |nums| >= 2 {
      var init, gap := nums[..|nums| - 1], nums[|nums| - 1] - nums[|nums| - 2] - 1;
      SeenIffGapsFit(init, space);
      WrapNotMore(gap, space);
      assert Missing(nums) == Missing(init) + gap;
      assert GapsFit(nums, space) <==> GapsFit(init, space) && gap < space by {
        GapsSplit(nums, space);
      }
    }
  }

  lemma GapsSplit(nums: seq<int>, space: nat)
    requires |nums| >= 2
    ensures GapsFit(nums, space) <==>
            GapsFit(nums[..|nums| - 1], space) && nums[|nums| - 1] - nums[|nums| - 2] <= space
  {
    var init := nums[..|nums| - 1];
    assert forall i :: 0 <= i < |init| ==> init[i] == nums[i];
    if GapsFit(init, space) && nums[|nums| - 1] - nums[|nums| - 2] <= space {
      forall i | 0 < i < |nums|
        ensures nums[i] - nums[i - 1] <= space
      {
        if i < |init| {
          assert init[i] - init[i - 1] <= space;
        }
      }
    }
    if GapsFit(nums, space) {
      forall i | 0 < i < |init|
        ensures init[i] - init[i - 1] <= space
      {
        assert nums[i] - nums[i - 1] <= space;
      }
    }
  }

  predicate CarriesNumber(p: Received, number: int, extended: bool) {
    && InMemory(p)
    && ReadSequence(p.bytes, p.length, extended) == Some(Wrap(number, Space(extended)))
  }

  /** The packets carry the sequence numbers of `nums`. */
  predicate Carries(packets: seq<Received>, nums: seq<int>, extended: bool) {
    && |packets| == |nums|
    && (forall i :: 0 <= i < |packets| ==> CarriesNumber(packets[i], nums[i], extended))
  }

  lemma {:induction false} DroppedIsSeen(packets: seq<Received>, nums: seq<int>, extended: bool)
    requires Carries(packets, nums, extended)
    ensures var c := ProcessAll(NEW_COUNTERS, packets, extended);
      && c.dropped == Seen(nums, Space(extended)) && c.corrupt == 0
      && (c.initialized <==> nums != [])
      && (nums != [] ==> c.last == Wrap(nums[|nums| - 1], Space(extended)))
    decreases |packets|
  {
    hide ReadSequence, Wrap, TimestampOf;
    if packets != [] {
      var m := |packets| - 1;
      DroppedIsSeen(packets[..m], nums[..m], extended);
      if m > 0 {
        WrappedGap(nums[m], nums[m - 1], Space(extended));
      }
    }
  }

  lemma WrappedGap(b: int, a: int, space: nat)
    requires 0 < space
    ensures Wrap(Wrap(b, space) - (Wrap(a, space) + 1), space) == Wrap(b - a - 1, space)
  {
    WrapSub(Wrap(b, space) - 1, a, space);
    WrapAdd(b, -1 - a, space);
  }

  /**
   The loss count is exact, for any packets received in order, exactly when no
   gap reaches the size of the number space.
   */
  lemma LossExactIff(packets: seq<Received>, nums: seq<int>, extended: bool)
    requires Carries(packets, nums, extended) && InOrder(nums)
    ensures ProcessAll(NEW_COUNTERS, packets, extended).dropped == Missing(nums) <==> GapsFit(nums, Space(extended))
  {
    hide Wrap, Process, Carries, Seen, GapsFit, Missing, InOrder;
    DroppedIsSeen(packets, nums, extended);
    SeenIffGapsFit(nums, Space(extended));
  }

  // ---- corrupt packets ---------------------------------------------------------------------

  /** Long enough, and of version 2. */
  predicate Legible(p: Received) {
    4 <= p.length && |p.bytes| > 0 && 0x80 <= p.bytes[0] < 0xC0
  }

  function OnlyLegible(packets: seq<Received>): (r: seq<Received>)
    ensures |r| <= |packets| && forall p :: p in r ==> p in packets
    decreases |packets|
  {
    if packets == [] then []
    else
      var m := |packets| - 1;
      OnlyLegible(packets[..m]) + (if Legible(packets[m]) then [packets[m]] else [])
  }

  lemma IllegibleIsCounted(c: Counters, p: Received, extended: bool)
    requires InMemory(p) && !Legible(p)
    ensures Process(c, p, extended) == c.(corrupt := c.corrupt + 1)
  {
  }

  lemma LegibleIgnoresCorrupt(c: Counters, p: Received, n: nat, extended: bool)
    requires InMemory(p) && Legible(p)
    ensures Process(c.(corrupt := n), p, extended) == Process(c, p, extended).(corrupt := n)
    ensures Process(c, p, extended).corrupt == c.corrupt
  {
    hide Wrap, TimestampOf, Join, JoinLong;
  }

  /**
   Packets too short or of another version are counted as corrupt, each once, and
   otherwise change nothing: neither the loss count nor the noticed frames.
   */
  lemma {:induction false} CorruptDoNotDisturb(packets: seq<Received>, extended: bool)
    requires forall p :: p in packets ==> InMemory(p)
    ensures ProcessAll(NEW_COUNTERS, packets, extended)
         == ProcessAll(NEW_COUNTERS, OnlyLegible(packets), extended).(corrupt := |packets| - |OnlyLegible(packets)|)
    decreases |packets|
  {
    hide Process, ProcessAll, OnlyLegible, Legible, InMemory;
    if packets == [] {
      NothingLegible(extended);
    } else {
      var m := |packets| - 1;
      var rest := OnlyLegible(packets[..m]);
      LastLegible(packets);
      assert packets == packets[..m] + [packets[m]];
      assert packets[m] in packets;
      CorruptDoNotDisturb(packets[..m], extended);
      OneMorePacket(packets[..m], packets[m], extended);
      if Legible(packets[m]) {
        OneMorePacket(rest, packets[m], extended);
        LegibleIgnoresCorrupt(ProcessAll(NEW_COUNTERS, rest, extended), packets[m], m - |rest|, extended);
      } else {
        IllegibleIsCounted(ProcessAll(NEW_COUNTERS, packets[..m], extended), packets[m], extended);
      }
    }
  }

  lemma NothingLegible(extended: bool)
    ensures ProcessAll(NEW_COUNTERS, [], extended) == NEW_COUNTERS && OnlyLegible([]) == []
  {
  }

  lemma LastLegible(packets: seq<Received>)
    requires packets != []
    ensures var m := |packets| - 1;
      OnlyLegible(packets)
      == if Legible(packets[m]) then OnlyLegible(packets[..m]) + [packets[m]] else OnlyLegible(packets[..m])
  {
    hide Legible;
  }

  lemma OneMorePacket(packets: seq<Received>, p: Received, extended: bool)
    requires InMemory(p) && forall q :: q in packets ==> InMemory(q)
    ensures ProcessAll(NEW_COUNTERS, packets + [p], extended)
         == Process(ProcessAll(NEW_COUNTERS, packets, extended), p, extended)
  {
    hide Process, InMemory;
    assert (packets + [p])[..|packets|] == packets;
  }

  // ---- from the packetiser -----------------------------------------------------------------

  /** Packet `n` of a run as it arrives, from either builder, with its payload behind its header. */
  function Sent(b: Builder, f: Format, sequence: nat, timestamp: nat, n: nat, payload: seq<Byte>): Received
    requires f.Valid()
  {
    Received(HeaderBytes(b, Expected(f, sequence, timestamp, n)) + payload, HEADER_SIZE)
  }

  lemma SentIsRead(b: Builder, f: Format, sequence: nat, timestamp: nat, n: nat, payload: seq<Byte>, extended: bool)
    requires f.WellAligned() && f.lines <= 0x8000 && f.width <= 0x8000
    ensures var p := Sent(b, f, sequence, timestamp, n, payload);
      && InMemory(p)
      && ReadSequence(p.bytes, p.length, extended) == Some((sequence + n) % Space(extended))
      && TimestampOf(p.bytes) == Expected(f, sequence, timestamp, n).timestamp
      && (p.bytes[1] >= 128 <==> Expected(f, sequence, timestamp, n).marker)
  {
    hide PlaceOf, Word, LongWord, Join, JoinLong, HeaderBytes, ReadSequence;
    var h := Expected(f, sequence, timestamp, n);
    ExpectedAddress(f, sequence, timestamp, n);
    ReceiverRoundTrip(b, h, payload);
    HeaderPlaces(b, h, payload);
    LongWordRoundTrip(h.timestamp);
    LowWord(sequence + n);
  }

  /** The low word of a number cut to 32 bits is the number cut to 16. */
  lemma LowWord(x: nat)
    ensures x % TWO_32 % TWO_16 == x % TWO_16
  {
    var rest := x % TWO_32;
    DivModUnique(x, TWO_16, x / TWO_32 * TWO_16 + rest / TWO_16, rest % TWO_16);
  }

  /**
   From builder to reader, whichever built the headers and whether the receiver reads
   16 or 32 bits of the number: whatever packets of a run are lost, the receiver's
   count is what is missing if and only if no gap reaches its number space.
   */
  lemma RunLossExact(b: Builder, f: Format, sequence: nat, timestamp: nat, nums: seq<int>, payloads: seq<seq<Byte>>,
                     extended: bool)
    requires f.WellAligned() && f.lines <= 0x8000 && f.width <= 0x8000
    requires InOrder(nums) && (forall i :: 0 <= i < |nums| ==> 0 <= nums[i]) && |payloads| == |nums|
    ensures var packets :=
              seq(|nums|, i requires 0 <= i < |nums| => Sent(b, f, sequence, timestamp, nums[i], payloads[i]));
      && (forall p :: p in packets ==> InMemory(p))
      && (ProcessAll(NEW_COUNTERS, packets, extended).dropped == Missing(nums) <==> GapsFit(nums, Space(extended)))
  {
    hide Expected, ProcessAll, Missing, InOrder, GapsFit, ReadSequence, Sent;
    var packets := seq(|nums|, i requires 0 <= i < |nums| => Sent(b, f, sequence, timestamp, nums[i], payloads[i]));
    var shifted := seq(|nums|, i requires 0 <= i < |nums| => sequence + nums[i]);
    forall i | 0 <= i < |packets|
      ensures CarriesNumber(packets[i], shifted[i], extended)
    {
      SentIsRead(b, f, sequence, timestamp, nums[i], payloads[i], extended);
      WrapIsRemainder(shifted[i], Space(extended));
    }
    ShiftedRun(nums, shifted, sequence, Space(extended));
    LossExactIff(packets, shifted, extended);
  }

  lemma ShiftedRun(nums: seq<int>, shifted: seq<int>, offset: nat, space: nat)
    requires |nums| == |shifted| && forall i :: 0 <= i < |nums| ==> shifted[i] == offset + nums[i]
    requires InOrder(nums)
    ensures InOrder(shifted) && Missing(shifted) == Missing(nums)
    ensures GapsFit(shifted, space) <==> GapsFit(nums, space)
  {
    forall i | 0 < i < |shifted|
      ensures shifted[i] - shifted[i - 1] == nums[i] - nums[i - 1]
    {
    }
  }

  // ---- frame starts ----------------------------------------------------------------------

  /** The timestamps of the frames after the first, up to frame number `last`. */
  function FrameStamps(f: Format, timestamp: nat, last: nat): (r: seq<nat>)
    ensures |r| == last
  {
    if last == 0 then [] else FrameStamps(f, timestamp, last - 1) + [(timestamp + last * f.ticks) % TWO_32]
  }

  /** A complete run as it arrives. */
  function SentRun(b: Builder, f: Format, sequence: nat, timestamp: nat, payloads: seq<seq<Byte>>): (r: seq<Received>)
    requires f.Valid()
    ensures |r| == |payloads|
    ensures forall i :: 0 <= i < |r| ==> r[i] == Sent(b, f, sequence, timestamp, i, payloads[i])
  {
    seq(|payloads|, i requires 0 <= i < |payloads| => Sent(b, f, sequence, timestamp, i, payloads[i]))
  }

  lemma SentRunInMemory(b: Builder, f: Format, sequence: nat, timestamp: nat, payloads: seq<seq<Byte>>)
    requires f.WellAligned() && f.lines <= 0x8000 && f.width <= 0x8000
    ensures forall p :: p in SentRun(b, f, sequence, timestamp, payloads) ==> InMemory(p)
  {
    hide Sent, InMemory;
    forall i | 0 <= i < |payloads|
      ensures InMemory(Sent(b, f, sequence, timestamp, i, payloads[i]))
    {
      SentIsRead(b, f, sequence, timestamp, i, payloads[i], true);
    }
  }

  /** Where the packet after one with the marker lies, and where any other's successor does. */
  lemma MarkerEndsFrame(f: Format, sequence: nat, timestamp: nat, n: nat)
    requires f.WellAligned()
    ensures var h, next, p, q := Expected(f, sequence, timestamp, n), Expected(f, sequence, timestamp, n + 1),
                                 PlaceOf(f, n), PlaceOf(f, n + 1);
      && q.frame == (if h.marker then p.frame + 1 else p.frame)
      && (h.marker && f.packetsInFrame >= 2 ==> !next.marker)
      && (f.packetsInFrame == 1 ==> h.marker && next.marker)
  {
    hide InFrame;
    InFrameBound(f, PlaceOf(f, n));
    InFrameBound(f, PlaceOf(f, n + 1));
    NextInFrame(f, PlaceOf(f, n));
  }

  /**
   The frame handler of the receiver is called once for every frame of a run but
   the first, with its timestamp; never if frames are single packets, which all
   have the marker.
   */
  lemma {:induction false} FramesAreNoticed(b: Builder, f: Format, sequence: nat, timestamp: nat,
                                              payloads: seq<seq<Byte>>, extended: bool)
    requires f.WellAligned() && f.lines <= 0x8000 && f.width <= 0x8000 && payloads != []
    ensures var packets := SentRun(b, f, sequence, timestamp, payloads);
      && (forall p :: p in packets ==> InMemory(p))
      && var c := ProcessAll(NEW_COUNTERS, packets, extended);
      && c.lastMarker == Expected(f, sequence, timestamp, |payloads| - 1).marker
      && c.frameStarts
         == if f.packetsInFrame == 1 then [] else FrameStamps(f, timestamp, PlaceOf(f, |payloads| - 1).frame)
    decreases |payloads|
  {
    hide Sent, Expected, ReadSequence, TimestampOf, PlaceOf, InMemory;
    SentRunInMemory(b, f, sequence, timestamp, payloads);
    var packets, m := SentRun(b, f, sequence, timestamp, payloads), |payloads| - 1;
    SentIsRead(b, f, sequence, timestamp, m, payloads[m], extended);
    assert packets[..m] == SentRun(b, f, sequence, timestamp, payloads[..m]);
    if m == 0 {
      FirstFrame(f);
    } else {
      FramesAreNoticed(b, f, sequence, timestamp, payloads[..m], extended);
      MarkerEndsFrame(f, sequence, timestamp, m - 1);
      StampOf(f, sequence, timestamp, m);
    }
  }

  lemma FirstFrame(f: Format)
    requires f.Valid()
    ensures PlaceOf(f, 0).frame == 0
  {
  }

  lemma StampOf(f: Format, sequence: nat, timestamp: nat, n: nat)
    requires f.Valid()
    ensures Expected(f, sequence, timestamp, n).timestamp == (timestamp + PlaceOf(f, n).frame * f.ticks) % TWO_32
  {
  }

  // ---- the object ------------------------------------------------------------------------

  /** The receive stream with header processing on and a frame handler installed. */
  class RtpReceiveStream {
    const extended: bool
    var initialized: bool
    var last: nat
    var dropped: nat
    var corrupt: nat
    var lastMarker: bool
    var frameStarts: seq<nat>

    ghost function View(): Counters
      reads this
    {
      Counters(initialized, last, dropped, corrupt, lastMarker, frameStarts)
    }

    constructor (extended: bool)
      ensures View() == NEW_COUNTERS && this.extended == extended
    {
      this.extended := extended;
      initialized, last, dropped, corrupt, lastMarker, frameStarts := false, 0, 0, 0, false, [];
    }

    method ProcessPacketHeader(p: Received)
      requires InMemory(p)
      modifies this
      ensures View() == Process(old(View()), p, extended)
    {
      var number := ReadSequence(p.bytes, p.length, extended);
      if number.None? {
        corrupt := corrupt + 1;
        return;
      }
      if initialized {
        dropped := dropped + Wrap(number.value - (last + 1), Space(extended));
      }
      initialized := true;
      last := number.value;
      var marker := p.bytes[1] >= 128;
      if !marker && lastMarker {
        frameStarts := frameStarts + [TimestampOf(p.bytes)];
      }
      lastMarker := marker;
    }

    /** The headers of a received chunk, one stride after the other. */
    method ProcessChunk(packets: seq<Received>)
      requires forall p :: p in packets ==> InMemory(p)
      modifies this
      ensures View() == ProcessAll(old(View()), packets, extended)
    {
      for i := 0 to |packets|
        invariant View() == ProcessAll(old(View()), packets[..i], extended)
      {
        assert packets[..i + 1][..i] == packets[..i];
        ProcessPacketHeader(packets[i]);
      }
      assert packets[..|packets|] == packets;
    }
  }
}
