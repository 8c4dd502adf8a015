/**
 The frame packetiser: the buffer writer that cuts a video frame into RTP
 packets.  Packets are placed on the frame by row and column; the writer's
 counters are proved to follow that placement through whole runs.
 */
module VideoWriter {
  import opened Modular
  import opened RtpHeader
  import opened StrideMemory

  /**
   The sizes of a format; `ticks` is the timestamp step of a frame.  The lines and
   packets of an interlaced format are those of a field, which is what a frame is here.
   */
  datatype Format = Format(
    width: nat,
    lines: nat,
    packetsInLine: nat,
    packetsInFrame: nat,
    pixelsPerPacket: nat,
    raw: nat,
    ticks: nat,
    interlaced: bool)
  {
    predicate Valid() {
      && 0 < width < TWO_16 && 0 < lines < TWO_16 && 0 < packetsInLine && 0 < packetsInFrame < TWO_32
      && 0 < raw < TWO_16 && ticks < TWO_32
    }

    /** Packets tile every line, and lines every frame. */
    predicate WellAligned() {
      && Valid()
      && pixelsPerPacket * packetsInLine == width
      && packetsInLine * lines == packetsInFrame
    }
  }

  datatype SendData = SendData(
    counter: nat,
    sequence: nat,
    timestamp: nat,
    field: bool,
    line: nat,
    offset: nat)

  /** The frame being sent and how much of it is left. */
  datatype Feed = NoFrame | Frame(data: seq<Byte>, left: nat)

  datatype Writer = Writer(send: SendData, feed: Feed)

  datatype Packet = Packet(header: Header, payload: seq<Byte>)

  predicate Sound(w: Writer) {
    w.send.sequence < TWO_32 && w.send.timestamp < TWO_32 && (w.feed.Frame? ==> w.feed.left <= |w.feed.data|)
  }

  function Reset(d: SendData): SendData {
    d.(counter := 0, line := 0, offset := 0, field := false)
  }

  function SetNextFrame(w: Writer, data: seq<Byte>): Writer {
    Writer(Reset(w.send), Frame(data, |data|))
  }

  /** The header of the packet about to be written. */
  function HeaderOf(f: Format, d: SendData): Header
    requires f.Valid()
  {
    Header(d.sequence, d.timestamp, d.counter == f.packetsInFrame - 1, f.raw, d.field, d.line % f.lines, d.offset)
  }

  /** The sample offset of the next packet. */
  function OffsetAfter(f: Format, d: SendData): nat
    requires f.Valid()
  {
    (d.offset + f.pixelsPerPacket) % f.width
  }

  /** The line moves on where the packet counter completes a line. */
  function LineAfter(f: Format, d: SendData): nat
    requires f.Valid()
  {
    if (d.counter + 1) % f.packetsInLine == 0 then (d.line + 1) % f.lines else d.line
  }

  /** `update_in_frame_state`, in the widths of its fields. */
  function Update(f: Format, d: SendData): SendData
    requires f.Valid()
  {
    var whole := d.counter + 1 == f.packetsInFrame;
    SendData(
      if whole then 0 else d.counter + 1,
      (d.sequence + 1) % TWO_32,
      if whole then (d.timestamp + f.ticks) % TWO_32 else d.timestamp,
      if whole && f.interlaced then !d.field else d.field,
      LineAfter(f, d),
      OffsetAfter(f, d))
  }

  /** How much of the frame the next packet takes. */
  function PayloadSize(f: Format, feed: Feed): nat {
    if feed.NoFrame? then 0 else if f.raw > feed.left then feed.left else f.raw
  }

  function Payload(f: Format, feed: Feed): (r: seq<Byte>)
    requires feed.Frame? ==> feed.left <= |feed.data|
    ensures |r| == PayloadSize(f, feed)
  {
    if feed.NoFrame? then []
    else
      var at := |feed.data| - feed.left;
      feed.data[at..at + PayloadSize(f, feed)]
  }

  function Fill(f: Format, feed: Feed): (r: Feed)
    requires feed.Frame? ==> feed.left <= |feed.data|
    ensures r.Frame? ==> feed.Frame? && r.data == feed.data && r.left <= |r.data|
  {
    if feed.NoFrame? || feed.left == PayloadSize(f, feed) then NoFrame
    else feed.(left := feed.left - PayloadSize(f, feed))
  }

  function WriteOne(f: Format, w: Writer): (r: Writer)
    requires f.Valid() && Sound(w)
    ensures Sound(r)
  {
    Writer(Update(f, w.send), Fill(f, w.feed))
  }

  function PacketOf(f: Format, w: Writer): Packet
    requires f.Valid() && Sound(w)
  {
    Packet(HeaderOf(f, w.send), Payload(f, w.feed))
  }

  /** One `write_buffer` of `n` strides: the packets it writes ... */
  function Written(f: Format, w: Writer, n: nat): (r: seq<Packet>)
    requires f.Valid() && Sound(w)
    ensures |r| <= n
    decreases n
  {
    if n == 0 || w.send.counter >= f.packetsInFrame then []
    else [PacketOf(f, w)] + Written(f, WriteOne(f, w), n - 1)
  }

  /** ... and the state it leaves. */
  function AfterWrite(f: Format, w: Writer, n: nat): (r: Writer)
    requires f.Valid() && Sound(w)
    ensures Sound(r)
    decreases n
  {
    if n == 0 || w.send.counter >= f.packetsInFrame then w
    else AfterWrite(f, WriteOne(f, w), n - 1)
  }

  // ---- splitting into chunks does not matter ----------------------------------------

  /** The counter stays within the frame, so the loop's second guard never ends a chunk early. */
  lemma {:induction false} ChunkIsFull(f: Format, w: Writer, n: nat)
    requires f.Valid() && Sound(w) && w.send.counter < f.packetsInFrame
    ensures |Written(f, w, n)| == n && AfterWrite(f, w, n).send.counter < f.packetsInFrame
    decreases n
  {
    if n > 0 {
      ChunkIsFull(f, WriteOne(f, w), n - 1);
    }
  }

  /** Two chunks one after the other write what one chunk of both lengths writes. */
  lemma {:induction false} ChunksJoin(f: Format, w: Writer, m: nat, n: nat)
    requires f.Valid() && Sound(w) && w.send.counter < f.packetsInFrame
    ensures AfterWrite(f, w, m + n) == AfterWrite(f, AfterWrite(f, w, m), n)
    ensures Written(f, w, m + n) == Written(f, w, m) + Written(f, AfterWrite(f, w, m), n)
    decreases m
  {
    hide WriteOne, PacketOf;
    if m > 0 {
      StepStaysInFrame(f, w);
      ChunksJoin(f, WriteOne(f, w), m - 1, n);
    }
  }

  lemma StepStaysInFrame(f: Format, w: Writer)
    requires f.Valid() && Sound(w) && w.send.counter < f.packetsInFrame
    ensures WriteOne(f, w).send.counter < f.packetsInFrame
  {
  }

  // ---- payloads ------------------------------------------------------------------------

  function Payloads(packets: seq<Packet>): seq<Byte> {
    if packets == [] then [] else packets[0].payload + Payloads(packets[1..])
  }

  function Min(a: nat, b: nat): nat {
    if a < b then a else b
  }

  /** The state of the feed after `at` bytes of a frame. */
  predicate Fed(feed: Feed, data: seq<Byte>, at: nat) {
    at <= |data| && if feed.NoFrame? then at == |data| else feed.data == data && feed.left == |data| - at
  }

  lemma FeedStep(f: Format, feed: Feed, data: seq<Byte>, at: nat)
    requires f.Valid() && Fed(feed, data, at)
    ensures var to := Min(at + f.raw, |data|);
      && at <= to && Payload(f, feed) == data[at..to]
      && Fed(Fill(f, feed), data, to)
  {
  }

  lemma SlicesJoin(data: seq<Byte>, a: nat, b: nat, c: nat)
    requires a <= b <= c <= |data|
    ensures data[a..b] + data[b..c] == data[a..c]
  {
  }

  lemma {:induction false} PayloadsContinue(f: Format, w: Writer, n: nat, data: seq<Byte>, at: nat)
    requires f.Valid() && Sound(w) && w.send.counter < f.packetsInFrame && Fed(w.feed, data, at)
    ensures Payloads(Written(f, w, n)) == data[at..Min(at + Total(n, f.raw), |data|)]
    decreases n
  {
    hide Update, HeaderOf, Fed, Fill, Payload, Payloads;
    FedBound(w.feed, data, at);
    if n == 0 {
      NoPayloads(data, at);
    } else {
      var to := Min(at + f.raw, |data|);
      StepStaysInFrame(f, w);
      FeedStep(f, w.feed, data, at);
      PayloadsContinue(f, WriteOne(f, w), n - 1, data, to);
      PayloadsFirst(PacketOf(f, w), Written(f, WriteOne(f, w), n - 1));
      SlicesJoin(data, at, to, Min(at + Total(n, f.raw), |data|));
    }
  }

  lemma FedBound(feed: Feed, data: seq<Byte>, at: nat)
    requires Fed(feed, data, at)
    ensures at <= |data|
  {
  }

  lemma NoPayloads(data: seq<Byte>, at: nat)
    requires at <= |data|
    ensures Payloads([]) == data[at..at]
  {
  }

  lemma PayloadsFirst(p: Packet, rest: seq<Packet>)
    ensures Payloads([p] + rest) == p.payload + Payloads(rest)
  {
    assert ([p] + rest)[1..] == rest;
  }

  /** The payloads of the first `n` packets of a frame are its first `n * raw` bytes, or all of it. */
  lemma PayloadsArePrefix(f: Format, w: Writer, data: seq<Byte>, n: nat)
    requires f.Valid() && Sound(w)
    ensures Payloads(Written(f, SetNextFrame(w, data), n)) == data[..Min(n * f.raw, |data|)]
  {
    PayloadsContinue(f, SetNextFrame(w, data), n, data, 0);
    TotalIsProduct(n, f.raw);
  }

  // ---- where packets lie on the frame ------------------------------------------------------

  /** The place of a packet: its frame, its row and its column of packets. */
  datatype Place = Place(frame: nat, row: nat, col: nat)

  predicate OnFrame(f: Format, p: Place) {
    p.row < f.lines && p.col < f.packetsInLine
  }

  /** Packets go along the rows, and rows down the frames. */
  function Next(f: Format, p: Place): Place {
    if p.col + 1 < f.packetsInLine then p.(col := p.col + 1)
    else if p.row + 1 < f.lines then Place(p.frame, p.row + 1, 0)
    else Place(p.frame + 1, 0, 0)
  }

  /** The place of packet number `n` of a run. */
  function PlaceOf(f: Format, n: nat): (p: Place)
    requires f.Valid()
    ensures OnFrame(f, p)
  {
    if n == 0 then Place(0, 0, 0) else Next(f, PlaceOf(f, n - 1))
  }

  /** The number of a place within its frame. */
  function InFrame(f: Format, p: Place): nat {
    p.row * f.packetsInLine + p.col
  }

  lemma InFrameBound(f: Format, p: Place)
    requires f.WellAligned() && OnFrame(f, p)
    ensures InFrame(f, p) < f.packetsInFrame
    ensures InFrame(f, p) == f.packetsInFrame - 1 <==> p.row == f.lines - 1 && p.col == f.packetsInLine - 1
  {
    var below := f.lines - 1 - p.row;
    assert f.lines * f.packetsInLine == p.row * f.packetsInLine + below * f.packetsInLine + f.packetsInLine;
    assert below > 0 ==> below * f.packetsInLine >= f.packetsInLine;
  }

  lemma NextInFrame(f: Format, p: Place)
    requires f.WellAligned() && OnFrame(f, p)
    ensures InFrame(f, Next(f, p)) == if InFrame(f, p) + 1 == f.packetsInFrame then 0 else InFrame(f, p) + 1
    ensures Next(f, p).frame == if InFrame(f, p) + 1 == f.packetsInFrame then p.frame + 1 else p.frame
  {
    InFrameBound(f, p);
    assert (p.row + 1) * f.packetsInLine == p.row * f.packetsInLine + f.packetsInLine;
  }

  /** Frames, rows and columns count the packets: the place of a packet is where its number falls. */
  lemma {:induction false} PlaceCounts(f: Format, n: nat)
    requires f.WellAligned()
    ensures var p := PlaceOf(f, n); p.frame * f.packetsInFrame + InFrame(f, p) == n && InFrame(f, p) < f.packetsInFrame
  {
    hide InFrame;
    if n > 0 {
      PlaceCounts(f, n - 1);
      NextCounts(f, PlaceOf(f, n - 1));
    } else {
      FirstCounts(f);
    }
    InFrameBound(f, PlaceOf(f, n));
  }

  lemma NextCounts(f: Format, p: Place)
    requires f.WellAligned() && OnFrame(f, p)
    ensures var q := Next(f, p);
      q.frame * f.packetsInFrame + InFrame(f, q) == p.frame * f.packetsInFrame + InFrame(f, p) + 1
  {
    hide InFrame;
    NextInFrame(f, p);
    assert (p.frame + 1) * f.packetsInFrame == p.frame * f.packetsInFrame + f.packetsInFrame;
  }

  lemma FirstCounts(f: Format)
    requires f.Valid()
    ensures var p := PlaceOf(f, 0); p.frame * f.packetsInFrame + InFrame(f, p) == 0
  {
    assert 0 * f.packetsInFrame == 0 && 0 * f.packetsInLine == 0;
  }

  /** The packets of every second field of an interlaced format are marked. */
  predicate SecondField(f: Format, frame: nat) {
    f.interlaced && frame % 2 == 1
  }

  /** The header a packet should have: its own number, its frame's timestamp, and where it lies. */
  function Expected(f: Format, sequence: nat, timestamp: nat, n: nat): Header
    requires f.Valid()
  {
    var p := PlaceOf(f, n);
    Header((sequence + n) % TWO_32, (timestamp + p.frame * f.ticks) % TWO_32,
           InFrame(f, p) == f.packetsInFrame - 1, f.raw, SecondField(f, p.frame), p.row, p.col * f.pixelsPerPacket)
  }

  /** The offset and the row of a packet are where its pixels lie when the frame is read row by row. */
  lemma ExpectedAddress(f: Format, sequence: nat, timestamp: nat, n: nat)
    requires f.WellAligned()
    ensures var h := Expected(f, sequence, timestamp, n);
      && h.row < f.lines && h.offset < f.width
      && h.row * f.width + h.offset == InFrame(f, PlaceOf(f, n)) * f.pixelsPerPacket
  {
    hide PlaceOf;
    var p := PlaceOf(f, n);
    AddressArithmetic(p.row, p.col, f.pixelsPerPacket, f.packetsInLine);
  }

  /** Rows and offsets of the format fit their 15 bits. */
  predicate OnWire(f: Format) {
    f.lines <= 0x8000 && f.width <= 0x8000
  }

  lemma ExpectedFits(f: Format, sequence: nat, timestamp: nat, n: nat)
    requires f.WellAligned() && OnWire(f)
    ensures Fits(Expected(f, sequence, timestamp, n))
  {
    hide PlaceOf;
    ExpectedAddress(f, sequence, timestamp, n);
  }

  lemma AddressArithmetic(row: nat, col: nat, k: nat, m: nat)
    requires col < m && 0 < k * m
    ensures row * (k * m) + col * k == (row * m + col) * k
    ensures col * k < k * m
  {
    assert k > 0 by {
      assert k == 0 ==> k * m == 0;
    }
    assert (m - 1 - col) * k >= 0;
    assert k * m == col * k + (m - 1 - col) * k + k;
  }

  // ---- the writer follows the places -----------------------------------------------------

  /** The writer's counters are those of packet number `n` of a run. */
  predicate Follows(f: Format, sequence: nat, timestamp: nat, n: nat, d: SendData)
    requires f.Valid()
  {
    var p := PlaceOf(f, n);
    && d.counter == InFrame(f, p) && d.line == p.row && d.offset == p.col * f.pixelsPerPacket
    && d.field == SecondField(f, p.frame)
    && d.sequence == (sequence + n) % TWO_32
    && d.timestamp == (timestamp + p.frame * f.ticks) % TWO_32
  }

  lemma SumWraps(a: nat, b: nat)
    ensures (a % TWO_32 + b) % TWO_32 == (a + b) % TWO_32
  {
    DivModUnique(a + b, TWO_32, a / TWO_32 + (a % TWO_32 + b) / TWO_32, (a % TWO_32 + b) % TWO_32);
  }

  lemma SmallRemainder(x: nat, m: nat)
    requires x < m
    ensures x % m == x
  {
    DivModUnique(x, m, 0, x);
  }

  /** The row ends where the packet counter is a multiple of the packets in a line. */
  lemma RowEnds(f: Format, p: Place)
    requires f.Valid() && OnFrame(f, p)
    ensures (InFrame(f, p) + 1) % f.packetsInLine == 0 <==> p.col + 1 == f.packetsInLine
  {
    if p.col + 1 == f.packetsInLine {
      assert InFrame(f, p) + 1 == (p.row + 1) * f.packetsInLine;
      DivModUnique(InFrame(f, p) + 1, f.packetsInLine, p.row + 1, 0);
    } else {
      DivModUnique(InFrame(f, p) + 1, f.packetsInLine, p.row, p.col + 1);
    }
  }

  /** The offset steps along the row and is back at its start at the end. */
  lemma OffsetSteps(f: Format, p: Place)
    requires f.WellAligned() && OnFrame(f, p)
    ensures (p.col * f.pixelsPerPacket + f.pixelsPerPacket) % f.width == Next(f, p).col * f.pixelsPerPacket
  {
    var k, m := f.pixelsPerPacket, f.packetsInLine;
    assert p.col * k + k == (p.col + 1) * k;
    if p.col + 1 == m {
      DivModUnique(m * k, f.width, 1, 0);
    } else {
      var after := m - 1 - p.col;
      assert k * m == (p.col + 1) * k + after * k;
      assert k > 0 by {
        assert k == 0 ==> k * m == 0;
      }
      assert after * k >= k;
      SmallRemainder((p.col + 1) * k, f.width);
    }
  }

  lemma LineSteps(f: Format, p: Place)
    requires f.Valid() && OnFrame(f, p)
    ensures (p.row + 1) % f.lines == if p.row + 1 == f.lines then 0 else p.row + 1
  {
    if p.row + 1 == f.lines {
      DivModUnique(f.lines, f.lines, 1, 0);
    } else {
      SmallRemainder(p.row + 1, f.lines);
    }
  }

  lemma UpdateFollows(f: Format, sequence: nat, timestamp: nat, n: nat, d: SendData)
    requires f.WellAligned() && Follows(f, sequence, timestamp, n, d)
    ensures Follows(f, sequence, timestamp, n + 1, Update(f, d))
  {
    hide PlaceOf, InFrame, LineAfter, OffsetAfter, Next, SecondField;
    var p := PlaceOf(f, n);
    PlaceStep(f, n);
    NextInFrame(f, p);
    LineFollows(f, p, d);
    OffsetFollows(f, p, d);
    SumWraps(sequence + n, 1);
    NextStamp(timestamp, p.frame, f.ticks);
    FieldsAlternate(f, p.frame);
  }

  lemma NextStamp(timestamp: nat, frame: nat, ticks: nat)
    ensures ((timestamp + frame * ticks) % TWO_32 + ticks) % TWO_32 == (timestamp + (frame + 1) * ticks) % TWO_32
  {
    SumWraps(timestamp + frame * ticks, ticks);
    assert (frame + 1) * ticks == frame * ticks + ticks;
  }

  lemma FieldsAlternate(f: Format, frame: nat)
    ensures SecondField(f, frame + 1) == if f.interlaced then !SecondField(f, frame) else false
    ensures !f.interlaced ==> !SecondField(f, frame)
  {
  }

  lemma LineFollows(f: Format, p: Place, d: SendData)
    requires f.Valid() && OnFrame(f, p) && d.counter == InFrame(f, p) && d.line == p.row
    ensures LineAfter(f, d) == Next(f, p).row
  {
    hide InFrame;
    RowEnds(f, p);
    LineSteps(f, p);
  }

  lemma OffsetFollows(f: Format, p: Place, d: SendData)
    requires f.WellAligned() && OnFrame(f, p) && d.offset == p.col * f.pixelsPerPacket
    ensures OffsetAfter(f, d) == Next(f, p).col * f.pixelsPerPacket
  {
    OffsetSteps(f, p);
  }

  lemma PlaceStep(f: Format, n: nat)
    requires f.Valid()
    ensures PlaceOf(f, n + 1) == Next(f, PlaceOf(f, n))
  {
  }

  lemma HeaderFollows(f: Format, sequence: nat, timestamp: nat, n: nat, d: SendData)
    requires f.WellAligned() && Follows(f, sequence, timestamp, n, d)
    ensures HeaderOf(f, d) == Expected(f, sequence, timestamp, n)
    ensures d.counter < f.packetsInFrame
  {
    InFrameBound(f, PlaceOf(f, n));
    SmallRemainder(d.line, f.lines);
  }

  /** A chunk written from packet number `n` on carries the headers of packets `n`, `n + 1`, ... */
  lemma {:induction false} ChunkFollows(f: Format, sequence: nat, timestamp: nat, n: nat, w: Writer, count: nat)
    requires f.WellAligned() && Sound(w) && Follows(f, sequence, timestamp, n, w.send)
    ensures |Written(f, w, count)| == count
    ensures forall k :: 0 <= k < count ==> Written(f, w, count)[k].header == Expected(f, sequence, timestamp, n + k)
    ensures Follows(f, sequence, timestamp, n + count, AfterWrite(f, w, count).send)
    decreases count
  {
    hide Follows, Update, HeaderOf, Expected, Payload, Fill;
    HeaderFollows(f, sequence, timestamp, n, w.send);
    if count > 0 {
      UpdateFollows(f, sequence, timestamp, n, w.send);
      ChunkFollows(f, sequence, timestamp, n + 1, WriteOne(f, w), count - 1);
      forall k | 0 <= k < count
        ensures Written(f, w, count)[k].header == Expected(f, sequence, timestamp, n + k)
      {
        if k > 0 {
          assert Written(f, w, count)[k] == Written(f, WriteOne(f, w), count - 1)[k - 1];
        }
      }
    }
  }

  // ---- runs ----------------------------------------------------------------------------------

  /** A caller sets frames and asks for chunks of any lengths. */
  datatype Op = NewFrame(data: seq<Byte>) | Chunk(count: nat)

  function DoOp(f: Format, w: Writer, op: Op): (r: Writer)
    requires f.Valid() && Sound(w)
    ensures Sound(r)
  {
    match op
    case NewFrame(data) => SetNextFrame(w, data)
    case Chunk(count) => AfterWrite(f, w, count)
  }

  function Output(f: Format, w: Writer, op: Op): seq<Packet>
    requires f.Valid() && Sound(w)
  {
    if op.Chunk? then Written(f, w, op.count) else []
  }

  function RunOps(f: Format, w: Writer, ops: seq<Op>): (r: Writer)
    requires f.Valid() && Sound(w)
    ensures Sound(r)
    decreases |ops|
  {
    if ops == [] then w else DoOp(f, RunOps(f, w, ops[..|ops| - 1]), ops[|ops| - 1])
  }

  function RunOutput(f: Format, w: Writer, ops: seq<Op>): seq<Packet>
    requires f.Valid() && Sound(w)
    decreases |ops|
  {
    if ops == [] then []
    else
      var init := ops[..|ops| - 1];
      RunOutput(f, w, init) + Output(f, RunOps(f, w, init), ops[|ops| - 1])
  }

  /** Frames are set when the one before is complete, and to interlaced formats both fields of it. */
  ghost predicate FramesAtBoundaries(f: Format, w: Writer, ops: seq<Op>)
    requires f.Valid() && Sound(w)
    decreases |ops|
  {
    ops == [] ||
    var init, op := ops[..|ops| - 1], ops[|ops| - 1];
    && FramesAtBoundaries(f, w, init)
    && (op.NewFrame? ==> RunOps(f, w, init).send.counter == 0 && (f.interlaced ==> !RunOps(f, w, init).send.field))
  }

  /** Setting a frame at a boundary changes nothing exactly if it does not come between two fields. */
  lemma ResetAtBoundary(f: Format, sequence: nat, timestamp: nat, n: nat, d: SendData)
    requires f.WellAligned() && Follows(f, sequence, timestamp, n, d) && d.counter == 0
    ensures Reset(d) == d.(field := false)
    ensures Reset(d) == d <==> !SecondField(f, PlaceOf(f, n).frame)
    ensures !f.interlaced ==> Reset(d) == d
  {
    var p := PlaceOf(f, n);
    assert p.row == 0 && p.col == 0 by {
      assert p.row > 0 ==> p.row * f.packetsInLine >= f.packetsInLine;
    }
  }

  /**
   Whatever frames are set and however they are cut into chunks, packet `n` of
   the run carries the header of packet `n`.
   */
  lemma {:induction false} RunFollows(f: Format, w: Writer, ops: seq<Op>)
    requires f.WellAligned() && Sound(w)
    requires w.send == SendData(0, w.send.sequence, w.send.timestamp, false, 0, 0)
    requires FramesAtBoundaries(f, w, ops)
    ensures var packets := RunOutput(f, w, ops);
      && Follows(f, w.send.sequence, w.send.timestamp, |packets|, RunOps(f, w, ops).send)
      && forall n :: 0 <= n < |packets| ==> packets[n].header == Expected(f, w.send.sequence, w.send.timestamp, n)
    decreases |ops|
  {
    hide Follows, Expected, AfterWrite, Written;
    var s, t := w.send.sequence, w.send.timestamp;
    if ops == [] {
      StartFollows(f, w.send);
    } else {
      var init, op := ops[..|ops| - 1], ops[|ops| - 1];
      RunFollows(f, w, init);
      var m, packets := RunOps(f, w, init), RunOutput(f, w, init);
      match op
      case NewFrame(data) =>
        ResetAtBoundary(f, s, t, |packets|, m.send);
        assert RunOutput(f, w, ops) == packets;
      case Chunk(count) =>
        ChunkFollows(f, s, t, |packets|, m, count);
    }
  }

  /** `k` fields of an interlaced format, each set as a frame of its own and written in one chunk. */
  function FieldByField(f: Format, data: seq<Byte>, k: nat): (ops: seq<Op>)
    ensures |ops| == 2 * k
  {
    if k == 0 then [] else FieldByField(f, data, k - 1) + [NewFrame(data), Chunk(f.packetsInFrame)]
  }

  function WithField(w: Writer, field: bool): Writer {
    w.(send := w.send.(field := field))
  }

  /** The headers of one field, whatever its mark. */
  lemma {:induction false} MarkIsKept(f: Format, w: Writer, field: bool, count: nat)
    requires f.Valid() && Sound(w) && w.send.counter + count <= f.packetsInFrame
    ensures |Written(f, w, count)| == |Written(f, WithField(w, field), count)| == count
    ensures forall j :: 0 <= j < count ==>
              Written(f, WithField(w, field), count)[j].header == Written(f, w, count)[j].header.(field := field)
    ensures var r, g := AfterWrite(f, WithField(w, field), count), AfterWrite(f, w, count);
      r == WithField(g, r.send.field)
    decreases count
  {
    hide OffsetAfter, LineAfter, Payload, Fill;
    if count > 0 {
      MarkStep(f, w, field);
      if count == 1 {
        assert Written(f, WriteOne(f, w), 0) == [] && Written(f, WriteOne(f, WithField(w, field)), 0) == [];
      } else {
        MarkIsKept(f, WriteOne(f, w), field, count - 1);
        WrittenFirst(f, w, count);
        WrittenFirst(f, WithField(w, field), count);
      }
    }
  }

  lemma MarkStep(f: Format, w: Writer, field: bool)
    requires f.Valid() && Sound(w) && w.send.counter < f.packetsInFrame
    ensures PacketOf(f, WithField(w, field)).header == PacketOf(f, w).header.(field := field)
    ensures var r, g := WriteOne(f, WithField(w, field)), WriteOne(f, w);
      && r == WithField(g, r.send.field)
      && (w.send.counter + 1 < f.packetsInFrame ==> r.send.field == field && g.send.counter == w.send.counter + 1)
  {
    hide Payload, Fill;
  }

  lemma WrittenFirst(f: Format, w: Writer, count: nat)
    requires f.Valid() && Sound(w) && 0 < count && w.send.counter < f.packetsInFrame
    ensures Written(f, w, count) == [PacketOf(f, w)] + Written(f, WriteOne(f, w), count - 1)
    ensures AfterWrite(f, w, count) == AfterWrite(f, WriteOne(f, w), count - 1)
  {
    hide PacketOf, WriteOne;
  }

  /** The headers of `k` fields are those of their packets but for the mark, and so are the counters. */
  predicate Unmarked(f: Format, w: Writer, data: seq<Byte>, k: nat)
    requires f.Valid() && Sound(w)
  {
    var s, t, packets := w.send.sequence, w.send.timestamp, RunOutput(f, w, FieldByField(f, data, k));
    var d := RunOps(f, w, FieldByField(f, data, k)).send;
    && |packets| == k * f.packetsInFrame
    && (forall n :: 0 <= n < |packets| ==> packets[n].header == Expected(f, s, t, n).(field := false))
    && d.counter == 0 && Follows(f, s, t, |packets|, d.(field := SecondField(f, k)))
  }

  /**
   A caller that sets every field as a frame of its own gets no second field marked:
   every header is that of its packet, but for the mark.
   */
  lemma {:induction false} FieldByFieldIsUnmarked(f: Format, w: Writer, data: seq<Byte>, k: nat)
    requires f.WellAligned() && Sound(w)
    requires w.send == SendData(0, w.send.sequence, w.send.timestamp, false, 0, 0)
    ensures var s, t, packets := w.send.sequence, w.send.timestamp, RunOutput(f, w, FieldByField(f, data, k));
      && |packets| == k * f.packetsInFrame
      && (forall n :: 0 <= n < |packets| ==> packets[n].header == Expected(f, s, t, n).(field := false))
    ensures Unmarked(f, w, data, k)
    decreases k
  {
    hide Follows, Expected, AfterWrite, Written, RunOps, RunOutput, Unmarked;
    if k == 0 {
      NoFieldIsUnmarked(f, w, data);
    } else {
      FieldByFieldIsUnmarked(f, w, data, k - 1);
      NextFieldIsUnmarked(f, w, data, k - 1);
    }
    UnmarkedHeaders(f, w, data, k);
  }

  lemma UnmarkedHeaders(f: Format, w: Writer, data: seq<Byte>, k: nat)
    requires f.Valid() && Sound(w) && Unmarked(f, w, data, k)
    ensures var s, t, packets := w.send.sequence, w.send.timestamp, RunOutput(f, w, FieldByField(f, data, k));
      && |packets| == k * f.packetsInFrame
      && (forall n :: 0 <= n < |packets| ==> packets[n].header == Expected(f, s, t, n).(field := false))
  {
    hide Follows, Expected, RunOps, RunOutput, FieldByField;
  }

  lemma NoFieldIsUnmarked(f: Format, w: Writer, data: seq<Byte>)
    requires f.WellAligned() && Sound(w)
    requires w.send == SendData(0, w.send.sequence, w.send.timestamp, false, 0, 0)
    ensures Unmarked(f, w, data, 0)
  {
    hide Follows, Expected;
    StartFollows(f, w.send);
  }

  /** One more operation. */
  lemma RunOne(f: Format, w: Writer, ops: seq<Op>, op: Op)
    requires f.Valid() && Sound(w)
    ensures RunOps(f, w, ops + [op]) == DoOp(f, RunOps(f, w, ops), op)
    ensures RunOutput(f, w, ops + [op]) == RunOutput(f, w, ops) + Output(f, RunOps(f, w, ops), op)
  {
    hide DoOp, Output, Sound;
    assert (ops + [op])[..|ops|] == ops;
  }

  /** A frame set and a chunk written. */
  lemma RunTwo(f: Format, w: Writer, ops: seq<Op>, a: Op, b: Op)
    requires f.Valid() && Sound(w) && a.NewFrame?
    ensures var m := DoOp(f, RunOps(f, w, ops), a);
      && RunOps(f, w, ops + [a, b]) == DoOp(f, m, b)
      && RunOutput(f, w, ops + [a, b]) == RunOutput(f, w, ops) + Output(f, m, b)
  {
    hide RunOps, RunOutput, DoOp, Sound;
    RunOne(f, w, ops, a);
    RunOne(f, w, ops + [a], b);
    assert ops + [a] + [b] == ops + [a, b];
    assert RunOutput(f, w, ops) + [] == RunOutput(f, w, ops);
  }

  /** One more field: its headers are unmarked, and the counters stand at the next. */
  lemma NextFieldIsUnmarked(f: Format, w: Writer, data: seq<Byte>, k: nat)
    requires f.WellAligned() && Sound(w) && Unmarked(f, w, data, k)
    ensures Unmarked(f, w, data, k + 1)
  {
    hide Follows, Expected, AfterWrite, Written, PlaceOf, RunOutput, RunOps;
    var s, t, n := w.send.sequence, w.send.timestamp, k * f.packetsInFrame;
    var ops, count := FieldByField(f, data, k), f.packetsInFrame;
    var before: Writer, packets: seq<Packet> := RunOps(f, w, ops), RunOutput(f, w, ops);
    var marked := WithField(SetNextFrame(before, data), SecondField(f, k));
    assert (k + 1) * count == n + count;
    RunTwo(f, w, ops, NewFrame(data), Chunk(count));
    MarkedFollows(f, s, t, n, before, data, k);
    ChunkFollows(f, s, t, n, marked, count);
    MarkIsKept(f, marked, false, count);
    assert WithField(marked, false) == SetNextFrame(before, data);
    NextFieldStarts(f, s, t, n + count, k + 1, AfterWrite(f, marked, count).send);
    var after: seq<Packet> := Written(f, SetNextFrame(before, data), count);
    assert RunOutput(f, w, FieldByField(f, data, k + 1)) == packets + after;
    forall j | 0 <= j < n + count
      ensures (packets + after)[j].header == Expected(f, s, t, j).(field := false)
    {
      if j >= n {
        assert after[j - n].header == Written(f, marked, count)[j - n].header.(field := false);
      }
    }
  }

  /** With the mark put back, the counters are those of the field's first packet. */
  lemma MarkedFollows(f: Format, s: nat, t: nat, n: nat, before: Writer, data: seq<Byte>, k: nat)
    requires f.WellAligned() && Sound(before) && before.send.counter == 0
    requires Follows(f, s, t, n, before.send.(field := SecondField(f, k)))
    ensures Follows(f, s, t, n, WithField(SetNextFrame(before, data), SecondField(f, k)).send)
    ensures SetNextFrame(before, data).send.counter == 0
  {
    hide PlaceOf;
    ResetAtBoundary(f, s, t, n, before.send.(field := SecondField(f, k)));
  }

  /** Where packet number `k` times the packets in a frame lies. */
  lemma NextFieldStarts(f: Format, s: nat, t: nat, n: nat, k: nat, d: SendData)
    requires f.WellAligned() && n == k * f.packetsInFrame && Follows(f, s, t, n, d)
    ensures d.counter == 0 && d.field == SecondField(f, k)
  {
    hide PlaceOf, InFrame;
    PlaceCounts(f, n);
    DivModUnique(n, f.packetsInFrame, k, 0);
    DivModUnique(n, f.packetsInFrame, PlaceOf(f, n).frame, InFrame(f, PlaceOf(f, n)));
  }

  lemma StartFollows(f: Format, d: SendData)
    requires f.WellAligned() && d.sequence < TWO_32 && d.timestamp < TWO_32
    requires d == SendData(0, d.sequence, d.timestamp, false, 0, 0)
    ensures Follows(f, d.sequence, d.timestamp, 0, d)
  {
    assert PlaceOf(f, 0) == Place(0, 0, 0);
  }
}
