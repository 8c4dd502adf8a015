/**
 The second header builder: the send stream prepares the headers of a chunk
 itself, counting rows by the stride within the chunk.  It is compared with the
 packetiser of `VideoWriter`, packet by packet, over whole runs.
 */
module VideoSendStream {
  import opened Modular
  import opened RtpHeader
  import opened VideoWriter

  /** The send stream's settings; a packet is `payloadSize` bytes, header included, at 2.5 bytes a pixel. */
  datatype Media = Media(
    height: nat,
    packetsInLine: nat,
    packetsInFrame: nat,
    payloadSize: nat,
    ticks: nat,
    interlaced: bool)
  {
    predicate Valid() {
      && 0 < height < TWO_16 && 0 < packetsInLine && 0 < packetsInFrame < TWO_32
      && HEADER_SIZE + 3 <= payloadSize < TWO_16 && ticks < TWO_32
      && (interlaced ==> 2 <= height)
    }

    /** The rows of a frame, or of a field. */
    function Rows(): (rows: nat)
      requires Valid()
      ensures 0 < rows <= height
    {
      if interlaced then height / 2 else height
    }

    /** Pixels in a packet: the payload at 2.5 bytes each, cut to a whole number. */
    function GroupSize(): nat
      requires Valid()
    {
      (payloadSize - HEADER_SIZE) * 2 / 5
    }
  }

  /** One header, built from the counters before they move on. */
  function StreamHeader(m: Media, d: SendData): Header
    requires m.Valid()
  {
    Header(d.sequence, d.timestamp, d.counter + 1 == m.packetsInFrame, m.payloadSize - HEADER_SIZE,
           d.field, d.line % m.Rows(), d.offset)
  }

  function StreamOffset(m: Media, d: SendData): nat
    requires m.Valid()
  {
    var g := m.GroupSize();
    assert g > 0;
    assert g * m.packetsInLine > 0;
    (d.offset + g) % (g * m.packetsInLine)
  }

  /** The counters after a header, the line apart. */
  function StreamUpdate(m: Media, d: SendData): SendData
    requires m.Valid()
  {
    var whole := d.counter + 1 == m.packetsInFrame;
    SendData(
      d.counter + 1,
      (d.sequence + 1) % TWO_32,
      if whole then (d.timestamp + m.ticks) % TWO_32 else d.timestamp,
      if whole && m.interlaced then !d.field else d.field,
      d.line,
      StreamOffset(m, d))
  }

  /** One turn of the loop at `stride`: the line moves on at the end of a line's worth of strides. */
  function StrideStep(m: Media, d: SendData, stride: nat): SendData
    requires m.Valid()
  {
    var u := StreamUpdate(m, d);
    if (stride + 1) % m.packetsInLine == 0 then u.(line := (u.line + 1) % m.height) else u
  }

  /** The headers of a chunk from `stride` on ... */
  function Prepared(m: Media, d: SendData, stride: nat, strides: nat): (r: seq<Header>)
    requires m.Valid() && stride <= strides
    ensures |r| <= strides - stride
    decreases strides - stride
  {
    if stride == strides || d.counter >= m.packetsInFrame then []
    else [StreamHeader(m, d)] + Prepared(m, StrideStep(m, d, stride), stride + 1, strides)
  }

  /** ... and the counters the loop leaves. */
  function AfterStrides(m: Media, d: SendData, stride: nat, strides: nat): SendData
    requires m.Valid() && stride <= strides
    decreases strides - stride
  {
    if stride == strides || d.counter >= m.packetsInFrame then d
    else AfterStrides(m, StrideStep(m, d, stride), stride + 1, strides)
  }

  /** `prepare_chunk_to_send` of a chunk of `length` packets. */
  function AfterChunk(m: Media, d: SendData, length: nat): SendData
    requires m.Valid()
  {
    var e := AfterStrides(m, d, 0, length);
    e.(counter := e.counter % m.packetsInFrame)
  }

  /** The headers of `chunks` chunks one after another. */
  function ChunkHeaders(m: Media, d: SendData, length: nat, chunks: nat): seq<Header>
    requires m.Valid()
    decreases chunks
  {
    if chunks == 0 then []
    else ChunkHeaders(m, d, length, chunks - 1) + Prepared(m, AfterChunks(m, d, length, chunks - 1), 0, length)
  }

  function AfterChunks(m: Media, d: SendData, length: nat, chunks: nat): SendData
    requires m.Valid()
    decreases chunks
  {
    if chunks == 0 then d else AfterChunk(m, AfterChunks(m, d, length, chunks - 1), length)
  }

  // ---- the two builders ---------------------------------------------------------------

  /** Both builders are set up for one format of 2.5 bytes a pixel; the fields of an interlaced one are halves. */
  predicate SameFormat(f: Format, m: Media) {
    && f.WellAligned() && m.Valid()
    && m.height == (if f.interlaced then 2 * f.lines else f.lines) && m.interlaced == f.interlaced
    && m.packetsInLine == f.packetsInLine && m.packetsInFrame == f.packetsInFrame && m.ticks == f.ticks
    && m.payloadSize - HEADER_SIZE == f.raw && 0 <= 2 * f.raw - 5 * f.pixelsPerPacket < 5
  }

  /**
   The stream's counters as the packetiser has them: it takes a frame's packets off its
   counter only after the chunk, and counts the lines of both fields.
   */
  function TakenOff(f: Format, d: SendData): SendData
    requires f.Valid()
  {
    d.(counter := if d.counter == f.packetsInFrame then 0 else d.counter, line := d.line % f.lines)
  }

  lemma StreamHeaderIsExpected(f: Format, m: Media, sequence: nat, timestamp: nat, n: nat, d: SendData)
    requires SameFormat(f, m) && Follows(f, sequence, timestamp, n, TakenOff(f, d)) && d.counter < f.packetsInFrame
    ensures StreamHeader(m, d) == Expected(f, sequence, timestamp, n)
  {
    hide Follows, Expected;
    HeaderFollows(f, sequence, timestamp, n, TakenOff(f, d));
    RowTaken(d.line, f.lines);
  }

  lemma RowTaken(line: nat, lines: nat)
    requires 0 < lines
    ensures line % lines % lines == line % lines
  {
    SmallRemainder(line % lines, lines);
  }

  /** Counting the lines of both fields and then those of one is counting those of one. */
  lemma LineTaken(line: nat, lines: nat, height: nat)
    requires 0 < lines && (height == lines || height == 2 * lines)
    ensures (line + 1) % height % lines == (line % lines + 1) % lines
  {
    var x := line + 1;
    var q, r := x / height, x % height;
    if height == lines {
      SmallRemainder(r, lines);
    } else {
      DivModUnique(x, lines, 2 * q + r / lines, r % lines);
    }
    LineWraps(line, lines);
  }

  /** A stride does what the packetiser's update does, where rows end together or there is one row. */
  lemma StrideFollows(f: Format, m: Media, d: SendData, stride: nat)
    requires SameFormat(f, m) && d.counter < f.packetsInFrame
    requires ((stride + 1) % f.packetsInLine == 0 <==> (d.counter + 1) % f.packetsInLine == 0) || f.lines == 1
    ensures Update(f, TakenOff(f, d)) == TakenOff(f, StrideStep(m, d, stride))
    ensures StrideStep(m, d, stride).counter == d.counter + 1
  {
    GroupIsPixels(f, m);
    LineTaken(d.line, f.lines, m.height);
    if f.lines == 1 {
      OneRow(d.line);
      OneRow((d.line + 1) % m.height);
      OneRow(d.line % f.lines + 1);
    }
  }

  /** The stream works out the pixels of a packet from its bytes, 2.5 to a pixel. */
  lemma GroupIsPixels(f: Format, m: Media)
    requires SameFormat(f, m)
    ensures m.GroupSize() == f.pixelsPerPacket && m.GroupSize() * m.packetsInLine == f.width
  {
    DivModUnique(2 * f.raw, 5, f.pixelsPerPacket, 2 * f.raw - 5 * f.pixelsPerPacket);
  }

  lemma OneRow(x: nat)
    ensures x % 1 == 0
  {
  }

  /** A multiple of the line's packets does not change where rows end. */
  lemma RowsEndTogether(rows: nat, stride: nat, perLine: nat)
    requires 0 < perLine
    ensures (rows * perLine + stride) % perLine == stride % perLine
  {
    DivModUnique(rows * perLine + stride, perLine, rows + stride / perLine, stride % perLine);
  }

  /** The chunk starts a row, or there is only one. */
  predicate StartsRow(f: Format, start: nat, rows: nat) {
    start == rows * f.packetsInLine || f.lines == 1
  }

  /** A chunk that stays in its frame carries the headers of its packets' numbers. */
  lemma {:induction false} ChunkIsExpected(f: Format, m: Media, sequence: nat, timestamp: nat, n: nat, d: SendData,
                                           stride: nat, strides: nat, start: nat, rows: nat)
    requires SameFormat(f, m) && stride <= strides
    requires Follows(f, sequence, timestamp, n, TakenOff(f, d)) && d.counter == start + stride
    requires StartsRow(f, start, rows) && start + strides <= f.packetsInFrame
    ensures |Prepared(m, d, stride, strides)| == strides - stride
    ensures forall k :: 0 <= k < strides - stride ==>
              Prepared(m, d, stride, strides)[k] == Expected(f, sequence, timestamp, n + k)
    ensures Follows(f, sequence, timestamp, n + strides - stride, TakenOff(f, AfterStrides(m, d, stride, strides)))
    ensures AfterStrides(m, d, stride, strides).counter == start + strides
    decreases strides - stride
  {
    hide Follows, Update, Expected, StrideStep, StreamHeader;
    if stride < strides {
      StrideKeepsPlace(f, m, sequence, timestamp, n, d, stride, start, rows);
      ChunkIsExpected(f, m, sequence, timestamp, n + 1, StrideStep(m, d, stride), stride + 1, strides, start, rows);
      forall k | 0 <= k < strides - stride
        ensures Prepared(m, d, stride, strides)[k] == Expected(f, sequence, timestamp, n + k)
      {
        if k > 0 {
          assert Prepared(m, d, stride, strides)[k]
              == Prepared(m, StrideStep(m, d, stride), stride + 1, strides)[k - 1];
        }
      }
    }
  }

  lemma StrideKeepsPlace(f: Format, m: Media, sequence: nat, timestamp: nat, n: nat, d: SendData,
                         stride: nat, start: nat, rows: nat)
    requires SameFormat(f, m) && d.counter < f.packetsInFrame && d.counter == start + stride
    requires Follows(f, sequence, timestamp, n, TakenOff(f, d)) && StartsRow(f, start, rows)
    ensures StreamHeader(m, d) == Expected(f, sequence, timestamp, n)
    ensures Follows(f, sequence, timestamp, n + 1, TakenOff(f, StrideStep(m, d, stride)))
    ensures StrideStep(m, d, stride).counter == start + stride + 1
  {
    hide Update, Expected, StreamHeader, StrideStep;
    StreamHeaderIsExpected(f, m, sequence, timestamp, n, d);
    RowsEndTogether(rows, stride + 1, f.packetsInLine);
    StrideFollows(f, m, d, stride);
    UpdateFollows(f, sequence, timestamp, n, TakenOff(f, d));
  }

  /** A multiple of the block length within a row of blocks is the start of one of them. */
  lemma BlockStart(x: nat, frame: nat, length: nat, blocks: nat, k: nat)
    requires 0 < length && frame * (blocks * length) + x == k * length && x < blocks * length
    ensures var b := k - frame * blocks; 0 <= b < blocks && x == b * length && x + length <= blocks * length
  {
    var b := k - frame * blocks;
    assert frame * (blocks * length) == (frame * blocks) * length;
    assert b * length == k * length - (frame * blocks) * length;
    assert b < 0 ==> b * length + length <= 0;
    assert b >= blocks ==> b * length >= blocks * length;
    assert (b + 1) * length == b * length + length;
    assert b < blocks ==> (b + 1) * length <= blocks * length;
  }

  /** The condition on chunk lengths: whole rows, or a single row. */
  predicate WholeRows(f: Format, length: nat)
    requires f.Valid()
  {
    length % f.packetsInLine == 0 || f.lines == 1
  }

  /** The run of the send stream is the run of the packets' numbers. */
  predicate RunAgrees(f: Format, m: Media, d: SendData, length: nat, chunks: nat)
    requires f.Valid() && m.Valid()
  {
    && |ChunkHeaders(m, d, length, chunks)| == chunks * length
    && forall n :: 0 <= n < chunks * length ==>
         ChunkHeaders(m, d, length, chunks)[n] == Expected(f, d.sequence, d.timestamp, n)
  }

  /** A stream that has sent nothing. */
  predicate AtStart(d: SendData) {
    d == SendData(0, d.sequence, d.timestamp, false, 0, 0) && d.sequence < TWO_32 && d.timestamp < TWO_32
  }

  lemma {:induction false} StreamRunFollows(f: Format, m: Media, d: SendData, length: nat, inFrame: nat, chunks: nat)
    requires SameFormat(f, m) && AtStart(d)
    requires 0 < length && inFrame * length == f.packetsInFrame && WholeRows(f, length)
    ensures RunAgrees(f, m, d, length, chunks)
    ensures var e := AfterChunks(m, d, length, chunks);
      e.counter < f.packetsInFrame && Follows(f, d.sequence, d.timestamp, chunks * length, TakenOff(f, e))
    decreases chunks
  {
    hide Follows, Expected, Prepared, AfterStrides, PlaceOf, InFrame;
    var s, t := d.sequence, d.timestamp;
    if chunks == 0 {
      StartTakenOff(f, d);
    } else {
      StreamRunFollows(f, m, d, length, inFrame, chunks - 1);
      var n, e := (chunks - 1) * length, AfterChunks(m, d, length, chunks - 1);
      assert chunks * length == n + length;
      OneChunkFollows(f, m, s, t, n, e, length, inFrame, chunks - 1);
      var before := ChunkHeaders(m, d, length, chunks - 1);
      forall k | 0 <= k < chunks * length
        ensures ChunkHeaders(m, d, length, chunks)[k] == Expected(f, s, t, k)
      {
        if k >= n {
          assert ChunkHeaders(m, d, length, chunks)[k] == Prepared(m, e, 0, length)[k - n];
        }
      }
    }
  }

  lemma StartTakenOff(f: Format, d: SendData)
    requires f.WellAligned() && AtStart(d)
    ensures TakenOff(f, d) == d && Follows(f, d.sequence, d.timestamp, 0, d)
  {
    StartFollows(f, d);
    SmallRemainder(0, f.lines);
  }

  lemma OneChunkFollows(f: Format, m: Media, s: nat, t: nat, n: nat, e: SendData, length: nat, inFrame: nat, k: nat)
    requires SameFormat(f, m) && 0 < length && inFrame * length == f.packetsInFrame && WholeRows(f, length)
    requires n == k * length && Follows(f, s, t, n, TakenOff(f, e)) && e.counter < f.packetsInFrame
    ensures |Prepared(m, e, 0, length)| == length
    ensures forall j :: 0 <= j < length ==> Prepared(m, e, 0, length)[j] == Expected(f, s, t, n + j)
    ensures Follows(f, s, t, n + length, TakenOff(f, AfterChunk(m, e, length)))
    ensures AfterChunk(m, e, length).counter < f.packetsInFrame
  {
    hide Follows, Expected, Prepared, AfterStrides, StartsRow, AfterChunk, WholeRows;
    var rows := ChunkStart(f, s, t, n, TakenOff(f, e), length, inFrame, k);
    ChunkIsExpected(f, m, s, t, n, e, 0, length, e.counter, rows);
    AfterChunkTakesOff(f, m, e, length);
  }

  lemma AfterChunkTakesOff(f: Format, m: Media, e: SendData, length: nat)
    requires SameFormat(f, m) && AfterStrides(m, e, 0, length).counter <= f.packetsInFrame
    ensures TakenOff(f, AfterChunk(m, e, length)) == TakenOff(f, AfterStrides(m, e, 0, length))
    ensures AfterChunk(m, e, length).line == AfterStrides(m, e, 0, length).line
    ensures AfterChunk(m, e, length).counter == TakenOff(f, AfterStrides(m, e, 0, length)).counter < f.packetsInFrame
  {
    hide AfterStrides;
    CounterTakenOff(f, AfterStrides(m, e, 0, length).counter);
  }

  /** Where the chunks of a run start, when they divide the frame: at a row of its own, inside the frame. */
  lemma ChunkStart(f: Format, sequence: nat, timestamp: nat, n: nat, d: SendData, length: nat, chunks: nat, k: nat)
    returns (rows: nat)
    requires f.WellAligned() && 0 < length && chunks * length == f.packetsInFrame && n == k * length
    requires Follows(f, sequence, timestamp, n, d) && WholeRows(f, length)
    ensures StartsRow(f, d.counter, rows) && d.counter + length <= f.packetsInFrame && d.counter < f.packetsInFrame
  {
    PlaceCounts(f, n);
    var p := PlaceOf(f, n);
    BlockStart(InFrame(f, p), p.frame, length, chunks, k);
    rows := RowsOfChunk(f, length, k - p.frame * chunks);
  }

  lemma RowsOfChunk(f: Format, length: nat, b: nat) returns (rows: nat)
    requires f.Valid() && WholeRows(f, length)
    ensures StartsRow(f, b * length, rows)
  {
    rows := b * (length / f.packetsInLine);
    if f.lines != 1 {
      assert length == (length / f.packetsInLine) * f.packetsInLine;
      assert b * ((length / f.packetsInLine) * f.packetsInLine) == (b * (length / f.packetsInLine)) * f.packetsInLine;
    }
  }

  lemma CounterTakenOff(f: Format, counter: nat)
    requires f.Valid() && counter <= f.packetsInFrame
    ensures counter % f.packetsInFrame == if counter == f.packetsInFrame then 0 else counter
  {
    if counter == f.packetsInFrame {
      DivModUnique(counter, f.packetsInFrame, 1, 0);
    } else {
      SmallRemainder(counter, f.packetsInFrame);
    }
  }

  /**
   The two builders agree: with chunks of whole rows that divide the frame, the
   send stream's headers are, packet by packet, those the packetiser writes from
   the same start, however it is cut into chunks.
   */
  lemma BuildersAgreeOnRuns(f: Format, m: Media, w: Writer, length: nat, inFrame: nat, chunks: nat)
    requires SameFormat(f, m) && Sound(w) && AtStart(w.send)
    requires 0 < length && inFrame * length == f.packetsInFrame && WholeRows(f, length)
    ensures |ChunkHeaders(m, w.send, length, chunks)| == |Written(f, w, chunks * length)| == chunks * length
    ensures forall n :: 0 <= n < chunks * length ==>
              ChunkHeaders(m, w.send, length, chunks)[n] == Written(f, w, chunks * length)[n].header
  {
    hide Expected, ChunkHeaders, Written, Follows;
    StreamRunFollows(f, m, w.send, length, inFrame, chunks);
    StartFollows(f, w.send);
    ChunkFollows(f, w.send.sequence, w.send.timestamp, 0, w, chunks * length);
  }

  // ---- exactly when they agree -------------------------------------------------------------

  lemma RowsUpTo(t: nat, perLine: nat)
    requires 0 < perLine
    ensures (t + 1) / perLine == if (t + 1) % perLine == 0 then t / perLine + 1 else t / perLine
  {
    var q, r := t / perLine, t % perLine;
    if r + 1 == perLine {
      DivModUnique(t + 1, perLine, q + 1, 0);
    } else {
      DivModUnique(t + 1, perLine, q, r + 1);
    }
  }

  lemma LineWraps(x: nat, height: nat)
    requires 0 < height
    ensures (x % height + 1) % height == (x + 1) % height
  {
    var q, r := x / height, x % height;
    if r + 1 == height {
      DivModUnique(x + 1, height, q + 1, 0);
      DivModUnique(height, height, 1, 0);
    } else {
      DivModUnique(x + 1, height, q, r + 1);
      SmallRemainder(r + 1, height);
    }
  }

  /** The line number a chunk's stride gets, counted from the line the chunk began on. */
  function LineAt(m: Media, base: nat, stride: nat): nat
    requires m.Valid()
  {
    (base + stride / m.packetsInLine) % m.height
  }

  lemma StrideLine(m: Media, d: SendData, base: nat, stride: nat)
    requires m.Valid() && d.line == LineAt(m, base, stride)
    ensures StrideStep(m, d, stride).line == LineAt(m, base, stride + 1)
    ensures StrideStep(m, d, stride).counter == d.counter + 1
    ensures StreamHeader(m, d).row == d.line % m.Rows()
  {
    hide StreamOffset;
    RowsUpTo(stride, m.packetsInLine);
    LineWraps(base + stride / m.packetsInLine, m.height);
    SmallRemainder(d.line, m.height);
  }

  /** Rows of a chunk that stays in its frame. */
  lemma {:induction false} RowsInChunk(m: Media, d: SendData, base: nat, stride: nat, strides: nat)
    requires m.Valid() && stride <= strides && d.line == LineAt(m, base, stride)
    requires d.counter + strides - stride <= m.packetsInFrame
    ensures |Prepared(m, d, stride, strides)| == strides - stride
    ensures forall k :: 0 <= k < strides - stride ==>
              Prepared(m, d, stride, strides)[k].row == LineAt(m, base, stride + k) % m.Rows()
    ensures var e := AfterStrides(m, d, stride, strides);
      e.line == LineAt(m, base, strides) && e.counter == d.counter + strides - stride
    decreases strides - stride
  {
    hide LineAt, StrideStep, StreamHeader;
    if stride < strides {
      StrideLine(m, d, base, stride);
      RowsInChunk(m, StrideStep(m, d, stride), base, stride + 1, strides);
      forall k | 0 <= k < strides - stride
        ensures Prepared(m, d, stride, strides)[k].row == LineAt(m, base, stride + k) % m.Rows()
      {
        if k > 0 {
          assert Prepared(m, d, stride, strides)[k]
              == Prepared(m, StrideStep(m, d, stride), stride + 1, strides)[k - 1];
        }
      }
    }
  }

  /** One chunk that stays in its frame adds the whole rows of its own strides. */
  lemma LinesAfterChunk(f: Format, m: Media, e: SendData, length: nat, base: nat)
    requires SameFormat(f, m) && e.counter + length <= f.packetsInFrame && e.line == LineAt(m, base, 0)
    ensures var g := AfterChunk(m, e, length);
      && g.line == LineAt(m, base, length)
      && g.counter == if e.counter + length == f.packetsInFrame then 0 else e.counter + length
  {
    hide LineAt, AfterStrides, AfterChunk;
    RowsInChunk(m, e, base, 0, length);
    AfterChunkTakesOff(f, m, e, length);
  }

  /** The first `k` chunks of a frame cover `k * length` packets and count `k * q` rows. */
  lemma ChunkArithmetic(k: nat, q: nat, length: nat, inFrame: nat)
    requires k < inFrame && 0 < length
    ensures (k + 1) * length == k * length + length <= inFrame * length
    ensures (k + 1) * length == inFrame * length <==> k + 1 == inFrame
    ensures (k + 1) * q == k * q + q
  {
    var rest := inFrame - k - 1;
    assert inFrame * length == (k + 1) * length + rest * length;
    assert rest > 0 ==> rest * length >= length;
  }

  /** Lines after some chunks of the first frame. */
  lemma {:induction false} LinesAfterChunks(f: Format, m: Media, d: SendData, length: nat, q: nat, inFrame: nat, k: nat)
    requires SameFormat(f, m) && AtStart(d) && 0 < length && inFrame * length == f.packetsInFrame && k <= inFrame
    requires q == length / f.packetsInLine
    ensures var e := AfterChunks(m, d, length, k);
      && e.line == LineAt(m, k * q, 0)
      && e.counter == if k == inFrame then 0 else k * length
    decreases k
  {
    if k == 0 {
      LineAtStart(m, 0);
    } else {
      hide LineAt, AfterChunk;
      LinesAfterChunks(f, m, d, length, q, inFrame, k - 1);
      ChunkArithmetic(k - 1, q, length, inFrame);
      LinesAfterChunk(f, m, AfterChunks(m, d, length, k - 1), length, (k - 1) * q);
      LineAtStart(m, k * q);
      LineAtEnd(m, (k - 1) * q, length);
    }
  }

  lemma LineAtStart(m: Media, base: nat)
    requires m.Valid()
    ensures LineAt(m, base, 0) == base % m.height
    ensures LineAt(m, 0, 0) == 0
  {
    DivModUnique(0, m.packetsInLine, 0, 0);
    SmallRemainder(0, m.height);
  }

  lemma LineAtEnd(m: Media, base: nat, length: nat)
    requires m.Valid()
    ensures LineAt(m, base, length) == (base + length / m.packetsInLine) % m.height
  {
  }

  /** The first packet of the second frame and the last packet of the first lie where they should. */
  lemma FrameCorners(f: Format)
    requires f.WellAligned()
    ensures PlaceOf(f, f.packetsInFrame).row == 0
    ensures PlaceOf(f, f.packetsInFrame - 1).row == f.lines - 1
  {
    hide PlaceOf, InFrame;
    var frame := f.packetsInFrame;
    var p, q := PlaceOf(f, frame), PlaceOf(f, frame - 1);
    PlaceCounts(f, frame);
    PlaceCounts(f, frame - 1);
    DivModUnique(frame, frame, p.frame, InFrame(f, p));
    DivModUnique(frame, frame, 1, 0);
    DivModUnique(frame - 1, frame, q.frame, InFrame(f, q));
    DivModUnique(frame - 1, frame, 0, frame - 1);
    InFrameBound(f, q);
    FirstRow(f, p);
  }

  lemma FirstRow(f: Format, p: Place)
    requires f.Valid() && InFrame(f, p) == 0
    ensures p.row == 0
  {
    assert p.row > 0 ==> p.row * f.packetsInLine >= f.packetsInLine;
  }

  /** When chunks break rows, a frame's chunks count fewer rows than the frame has. */
  lemma RowsMissed(f: Format, length: nat, inFrame: nat)
    requires f.WellAligned() && 0 < length && inFrame * length == f.packetsInFrame
    requires length % f.packetsInLine != 0
    ensures inFrame * (length / f.packetsInLine) < f.lines
  {
    var perLine, q, r := f.packetsInLine, length / f.packetsInLine, length % f.packetsInLine;
    assert length == q * perLine + r;
    assert inFrame > 0 by {
      assert inFrame == 0 ==> inFrame * length == 0;
    }
    RowsWithRest(inFrame, q, perLine, r, f.lines);
  }

  lemma RowsWithRest(inFrame: int, q: int, perLine: int, r: int, lines: int)
    requires inFrame * (q * perLine + r) == lines * perLine && 0 < inFrame && 0 < r && 0 < perLine
    ensures inFrame * q < lines
  {
    var x, y := inFrame * q, inFrame * r;
    assert inFrame * (q * perLine + r) == x * perLine + y;
    assert y > 0;
    assert x >= lines ==> (x - lines) * perLine >= 0;
  }

  /** The send stream's headers are those of the packets' numbers, from every start and for every run. */
  ghost predicate AlwaysAgrees(f: Format, m: Media, length: nat)
    requires f.Valid() && m.Valid()
  {
    forall d, chunks :: AtStart(d) ==> RunAgrees(f, m, d, length, chunks)
  }

  /** A run that agrees reads, at the `j`-th packet of its chunk `k`, the row of that packet. */
  lemma AgreeingRow(f: Format, m: Media, length: nat, k: nat, j: nat)
    requires SameFormat(f, m) && AlwaysAgrees(f, m, length) && j < length
    ensures var e := AfterChunks(m, SendData(0, 0, 0, false, 0, 0), length, k);
      |Prepared(m, e, 0, length)| == length
      && Prepared(m, e, 0, length)[j].row == PlaceOf(f, k * length + j).row
  {
    hide Prepared, AfterChunk, PlaceOf;
    var d := SendData(0, 0, 0, false, 0, 0);
    assert AtStart(d);
    assert (k + 1) * length == k * length + length;
    assert RunAgrees(f, m, d, length, k) && RunAgrees(f, m, d, length, k + 1);
    var e := AfterChunks(m, d, length, k);
    assert ChunkHeaders(m, d, length, k + 1) == ChunkHeaders(m, d, length, k) + Prepared(m, e, 0, length);
    assert ChunkHeaders(m, d, length, k + 1)[k * length + j] == Prepared(m, e, 0, length)[j];
    assert ChunkHeaders(m, d, length, k + 1)[k * length + j] == Expected(f, 0, 0, k * length + j);
  }

  lemma BrokenRowsDisagree(f: Format, m: Media, length: nat, inFrame: nat)
    requires SameFormat(f, m) && 0 < length && inFrame * length == f.packetsInFrame && !WholeRows(f, length)
    ensures !AlwaysAgrees(f, m, length)
  {
    hide AlwaysAgrees, Prepared, AfterChunks, LineAt, PlaceOf, InFrame;
    var d, q := SendData(0, 0, 0, false, 0, 0), length / f.packetsInLine;
    RowsMissed(f, length, inFrame);
    FrameCorners(f);
    if AlwaysAgrees(f, m, length) {
      if q > 0 {
        // the second frame starts on a row the first left behind
        LinesAfterChunks(f, m, d, length, q, inFrame, inFrame);
        AgreeingRow(f, m, length, inFrame, 0);
        SecondFrameRow(f, m, length, q, inFrame);
      } else {
        // no row ever ends
        ChunkArithmetic(inFrame - 1, q, length, inFrame);
        AgreeingRow(f, m, length, inFrame - 1, length - 1);
        LastRow(f, m, length, inFrame);
      }
      assert false;
    }
  }

  lemma SecondFrameRow(f: Format, m: Media, length: nat, q: nat, inFrame: nat)
    requires SameFormat(f, m) && 0 < length && inFrame * length == f.packetsInFrame
    requires 0 < q == length / f.packetsInLine && inFrame * q < f.lines
    ensures var e := AfterChunks(m, SendData(0, 0, 0, false, 0, 0), length, inFrame);
      |Prepared(m, e, 0, length)| == length && Prepared(m, e, 0, length)[0].row != 0
  {
    hide Prepared, AfterChunks, LineAt, PlaceOf, InFrame;
    var d := SendData(0, 0, 0, false, 0, 0);
    LinesAfterChunks(f, m, d, length, q, inFrame, inFrame);
    SomeRows(length, q, inFrame);
    RowsInChunk(m, AfterChunks(m, d, length, inFrame), inFrame * q, 0, length);
    LineAtStart(m, inFrame * q);
    SmallRemainder(inFrame * q, f.lines);
    SmallRemainder(inFrame * q, m.height);
  }

  lemma SomeRows(length: nat, q: nat, inFrame: nat)
    requires 0 < inFrame * length && 0 < q
    ensures 0 < inFrame * q && length <= inFrame * length
  {
    assert inFrame != 0;
    assert (inFrame - 1) * q >= 0 && (inFrame - 1) * length >= 0;
  }

  lemma LastRow(f: Format, m: Media, length: nat, inFrame: nat)
    requires SameFormat(f, m) && 0 < length && inFrame * length == f.packetsInFrame && 0 < inFrame
    requires length / f.packetsInLine == 0
    ensures var e := AfterChunks(m, SendData(0, 0, 0, false, 0, 0), length, inFrame - 1);
      |Prepared(m, e, 0, length)| == length && Prepared(m, e, 0, length)[length - 1].row == 0
  {
    hide Prepared, AfterChunks, LineAt, PlaceOf, InFrame;
    var d := SendData(0, 0, 0, false, 0, 0);
    LinesAfterChunks(f, m, d, length, 0, inFrame, inFrame - 1);
    ChunkArithmetic(inFrame - 1, 0, length, inFrame);
    RowsInChunk(m, AfterChunks(m, d, length, inFrame - 1), 0, 0, length);
    LineAtEnd(m, 0, length - 1);
    assert length < f.packetsInLine by {
      assert length == (length / f.packetsInLine) * f.packetsInLine + length % f.packetsInLine;
    }
    DivModUnique(length - 1, f.packetsInLine, 0, length - 1);
    SmallRemainder(0, m.height);
    SmallRemainder(0, m.Rows());
  }

  /**
   The exact condition: chunks that divide the frame make the two builders agree
   on every run exactly when a chunk is whole rows, or the frame a single row.
   */
  lemma AgreeIff(f: Format, m: Media, length: nat, inFrame: nat)
    requires SameFormat(f, m) && 0 < length && inFrame * length == f.packetsInFrame
    ensures AlwaysAgrees(f, m, length) <==> WholeRows(f, length)
  {
    hide RunAgrees, WholeRows;
    if WholeRows(f, length) {
      forall d, chunks | AtStart(d)
        ensures RunAgrees(f, m, d, length, chunks)
      {
        StreamRunFollows(f, m, d, length, inFrame, chunks);
      }
    } else {
      BrokenRowsDisagree(f, m, length, inFrame);
    }
  }
}
