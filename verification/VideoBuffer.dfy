/**
 The buffer writer as its source has it: an object that writes headers and
 payloads in place into a caller's memory, stride by stride.
 */
module VideoBuffer {
  import opened RtpHeader
  import opened StrideMemory
  import opened VideoWriter

  /** The configuration of a writer; a stride has room for a header and a payload. */
  datatype Layout = Layout(format: Format, payloadType: nat, ssrc: nat, stride: nat) {
    predicate Valid() {
      format.Valid() && HEADER_SIZE + format.raw <= stride
    }
  }

  function PacketBytes(l: Layout, p: Packet): (r: seq<Byte>)
    ensures |r| == HEADER_SIZE + |p.payload|
  {
    WriterBytes(p.header, l.payloadType, l.ssrc) + p.payload
  }

  /** The bytes of some packets, packet by packet. */
  function Pieces(l: Layout, packets: seq<Packet>): (r: seq<seq<Byte>>)
    ensures |r| == |packets|
    ensures forall k :: 0 <= k < |r| ==> r[k] == PacketBytes(l, packets[k])
  {
    seq(|packets|, k requires 0 <= k < |packets| => PacketBytes(l, packets[k]))
  }

  lemma {:induction false} PayloadsBounded(f: Format, w: Writer, n: nat)
    requires f.Valid() && Sound(w)
    ensures forall p :: p in Written(f, w, n) ==> |p.payload| <= f.raw
    decreases n
  {
    if n > 0 && w.send.counter < f.packetsInFrame {
      PayloadsBounded(f, WriteOne(f, w), n - 1);
    }
  }

  lemma PiecesFit(l: Layout, w: Writer, strides: nat, memory: seq<Byte>)
    requires l.Valid() && Sound(w) && strides * l.stride <= |memory|
    ensures Fit(memory, 0, l.stride, Pieces(l, Written(l.format, w, strides)))
    ensures Total(strides, l.stride) <= |memory|
  {
    hide Written;
    PayloadsBounded(l.format, w, strides);
    TotalIsProduct(strides, l.stride);
    TotalMonotone(|Written(l.format, w, strides)|, strides, l.stride);
  }

  /** The memory a chunk leaves. */
  ghost function ImageOf(l: Layout, w: Writer, strides: nat, memory: seq<Byte>): (image: seq<Byte>)
    requires l.Valid() && Sound(w) && strides * l.stride <= |memory|
    ensures |image| == |memory| && Total(strides, l.stride) <= |memory|
    ensures Continues(memory, 0, l.stride, Pieces(l, Written(l.format, w, strides)), image)
  {
    PiecesFit(l, w, strides, memory);
    Lay(memory, 0, l.stride, Pieces(l, Written(l.format, w, strides)))
  }

  lemma WrittenStep(l: Layout, w: Writer, n: nat)
    requires l.Valid() && Sound(w) && 0 < n && w.send.counter < l.format.packetsInFrame
    ensures Pieces(l, Written(l.format, w, n))
            == [PacketBytes(l, PacketOf(l.format, w))] + Pieces(l, Written(l.format, WriteOne(l.format, w), n - 1))
    ensures AfterWrite(l.format, w, n) == AfterWrite(l.format, WriteOne(l.format, w), n - 1)
  {
  }

  lemma WrittenEnds(l: Layout, w: Writer, n: nat)
    requires l.Valid() && Sound(w) && (n == 0 || w.send.counter >= l.format.packetsInFrame)
    ensures Pieces(l, Written(l.format, w, n)) == [] && AfterWrite(l.format, w, n) == w
  {
  }

  /** Memory from `at` on has a header that every reader reads as `h`, and then the payload. */
  ghost predicate CarriesPacket(image: seq<Byte>, at: nat, h: Header, payload: seq<Byte>) {
    && at + HEADER_SIZE + |payload| <= |image|
    && CarriesHeader(image, at, h)
    && image[at + HEADER_SIZE..at + HEADER_SIZE + |payload|] == payload
  }

  /**
   From frame to wire and back: after a chunk is written, each stride starts with
   a header that the readers read as that of the packet whose turn it was, with the
   writer's payload type and source number, followed by that packet's part of the frame.
   */
  lemma WireHoldsExpected(l: Layout, w: Writer, sequence: nat, timestamp: nat, n: nat, count: nat,
                          memory: seq<Byte>, k: nat)
    requires l.Valid() && l.format.WellAligned() && OnWire(l.format) && Sound(w)
    requires Follows(l.format, sequence, timestamp, n, w.send)
    requires count * l.stride <= |memory| && k < count
    ensures |Written(l.format, w, count)| == count
    ensures CarriesPacket(ImageOf(l, w, count, memory), Total(k, l.stride),
                          Expected(l.format, sequence, timestamp, n + k), Written(l.format, w, count)[k].payload)
    ensures var image, at := ImageOf(l, w, count, memory), Total(k, l.stride);
      && (PayloadTypeOf(image[at..]) == l.payloadType <==> l.payloadType < 128)
      && (SourceOf(image[at..]) == l.ssrc <==> l.ssrc < TWO_32)
  {
    hide WriterBytes, ReadHeader, Follows, Written, AfterWrite, Total, Expected, Fits, Lay, Pieces, PacketBytes;
    hide ReceivedAs, PayloadTypeOf, SourceOf;
    var image := ImageOf(l, w, count, memory);
    var packets := Written(l.format, w, count);
    ChunkFollows(l.format, sequence, timestamp, n, w, count);
    LayHolds(memory, 0, l.stride, Pieces(l, packets), k);
    ExpectedFits(l.format, sequence, timestamp, n + k);
    PacketInTwo(l, packets[k], image, Total(k, l.stride));
    BytesCarry(BufferWriter(l.payloadType, l.ssrc), packets[k].header, image, Total(k, l.stride));
    WriterFixedFields(packets[k].header, l.payloadType, l.ssrc);
  }

  lemma PacketInTwo(l: Layout, p: Packet, image: seq<Byte>, at: nat)
    requires Holds(image, at, PacketBytes(l, p))
    ensures image[at..at + HEADER_SIZE] == HeaderBytes(BufferWriter(l.payloadType, l.ssrc), p.header)
    ensures image[at + HEADER_SIZE..at + HEADER_SIZE + |p.payload|] == p.payload
  {
    var bytes := PacketBytes(l, p);
    assert image[at..at + HEADER_SIZE] == image[at..at + |bytes|][..HEADER_SIZE] == bytes[..HEADER_SIZE];
    assert image[at + HEADER_SIZE..at + HEADER_SIZE + |p.payload|] == image[at..at + |bytes|][HEADER_SIZE..];
  }

  class VideoBufferWriter {
    const layout: Layout
    var counter: nat
    var sequence: nat
    var timestamp: nat
    var field: bool
    var line: nat
    var offset: nat
    var hasFrame: bool
    var frame: seq<Byte>
    var dataLeft: nat

    ghost function View(): Writer
      reads this
    {
      Writer(SendData(counter, sequence, timestamp, field, line, offset),
             if hasFrame then Frame(frame, dataLeft) else NoFrame)
    }

    ghost predicate Valid()
      reads this
    {
      layout.Valid() && Sound(View())
    }

    constructor (l: Layout, firstSequence: nat, firstTimestamp: nat)
      requires l.Valid() && firstSequence < TWO_32 && firstTimestamp < TWO_32
      ensures Valid() && layout == l
      ensures View() == Writer(SendData(0, firstSequence, firstTimestamp, false, 0, 0), NoFrame)
    {
      layout := l;
      counter, sequence, timestamp, field, line, offset := 0, firstSequence, firstTimestamp, false, 0, 0;
      hasFrame, frame, dataLeft := false, [], 0;
    }

    method NextFrame(data: seq<Byte>)
      requires Valid()
      modifies this
      ensures Valid() && View() == SetNextFrame(old(View()), data)
    {
      counter, line, offset, field := 0, 0, 0, false;
      hasFrame, frame, dataLeft := true, data, |data|;
    }

    method BuildHeader(memory: array<Byte>, at: nat)
      requires Valid() && at + HEADER_SIZE <= memory.Length
      modifies memory
      ensures memory[..] == Overlay(old(memory[..]), at,
                WriterBytes(HeaderOf(layout.format, View().send), layout.payloadType, layout.ssrc))
    {
      var f := layout.format;
      var h := Header(sequence, timestamp, counter == f.packetsInFrame - 1, f.raw, field, line % f.lines, offset);
      CopyInto(memory, at, WriterBytes(h, layout.payloadType, layout.ssrc));
    }

    /** Copies the next part of the frame; a frame sent whole is let go. */
    method FillPacket(memory: array<Byte>, at: nat)
      requires Valid() && at + layout.format.raw <= memory.Length
      modifies this`hasFrame, this`dataLeft, memory
      ensures Valid() && View() == Writer(old(View()).send, Fill(layout.format, old(View()).feed))
      ensures memory[..] == Overlay(old(memory[..]), at, Payload(layout.format, old(View()).feed))
    {
      if !hasFrame {
        CopyInto(memory, at, []);
        return;
      }
      var size := if layout.format.raw > dataLeft then dataLeft else layout.format.raw;
      var from := |frame| - dataLeft;
      CopyInto(memory, at, frame[from..from + size]);
      dataLeft := dataLeft - size;
      if dataLeft == 0 {
        hasFrame := false;
      }
    }

    method UpdateInFrameState()
      requires Valid()
      modifies this
      ensures Valid() && View() == Writer(Update(layout.format, old(View()).send), old(View()).feed)
    {
      var f := layout.format;
      offset := (offset + f.pixelsPerPacket) % f.width;
      if (counter + 1) % f.packetsInLine == 0 {
        line := (line + 1) % f.lines;
      }
      counter := counter + 1;
      if counter == f.packetsInFrame {
        timestamp := (timestamp + f.ticks) % TWO_32;
        counter := 0;
        if f.interlaced {
          field := !field;
        }
      }
      sequence := (sequence + 1) % TWO_32;
    }

    /** One packet: header, payload, counters. */
    method WritePacket(memory: array<Byte>, at: nat)
      requires Valid() && at + layout.stride <= memory.Length
      modifies this, memory
      ensures Valid() && View() == WriteOne(layout.format, old(View()))
      ensures |Payload(layout.format, old(View()).feed)| <= layout.format.raw
      ensures memory[..] == Overlay(old(memory[..]), at, PacketBytes(layout, PacketOf(layout.format, old(View()))))
    {
      hide WriterBytes, HeaderOf, Payload, Fill, Update;
      ghost var was, before := old(View()), old(memory[..]);
      BuildHeader(memory, at);
      FillPacket(memory, at + HEADER_SIZE);
      OverlayTwice(before, at, WriterBytes(HeaderOf(layout.format, was.send), layout.payloadType, layout.ssrc),
                   Payload(layout.format, was.feed));
      UpdateInFrameState();
    }

    /** Writes packets into the strides of a chunk: headers and payloads in one memory. */
    method WriteBuffer(memory: array<Byte>, strides: nat)
      requires Valid() && strides * layout.stride <= memory.Length
      modifies this, memory
      ensures Valid() && View() == AfterWrite(layout.format, old(View()), strides)
      ensures memory[..] == ImageOf(layout, old(View()), strides, old(memory[..]))
    {
      hide PacketBytes, PacketOf, WriteOne, Written, AfterWrite, Continues, ImageOf, Total, Pieces;
      ghost var f, was, before := layout.format, View(), memory[..];
      ghost var image := ImageOf(layout, was, strides, before);
      var stride: nat, at: nat := 0, 0;
      while stride < strides && counter < layout.format.packetsInFrame
        invariant Valid() && stride <= strides
        invariant at + Total(strides - stride, layout.stride) == Total(strides, layout.stride) <= memory.Length
        invariant AfterWrite(f, View(), strides - stride) == AfterWrite(f, was, strides)
        invariant Continues(memory[..], at, layout.stride, Pieces(layout, Written(f, View(), strides - stride)), image)
      {
        WrittenStep(layout, View(), strides - stride);
        TotalStep(strides - stride, layout.stride);
        ContinuesStep(memory[..], at, layout.stride, PacketBytes(layout, PacketOf(f, View())),
                      Pieces(layout, Written(f, WriteOne(f, View()), strides - stride - 1)), image);
        WritePacket(memory, at);
        stride := stride + 1;
        at := at + layout.stride;
      }
      WrittenEnds(layout, View(), strides - stride);
      ContinuesEnds(memory[..], at, layout.stride, image);
    }
  }
}
