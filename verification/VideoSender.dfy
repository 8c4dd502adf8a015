/**
 The send stream as its source has it: an object that writes the headers of a
 chunk in place, stride by stride.
 */
module VideoSender {
  import opened RtpHeader
  import opened StrideMemory
  import opened VideoWriter
  import opened VideoSendStream

  function HeaderPieces(headers: seq<Header>): (r: seq<seq<Byte>>)
    ensures |r| == |headers|
    ensures forall k :: 0 <= k < |r| ==> r[k] == StreamBytes(headers[k])
  {
    seq(|headers|, k requires 0 <= k < |headers| => StreamBytes(headers[k]))
  }

  /** The memory a prepared chunk leaves. */
  ghost function PreparedImage(m: Media, d: SendData, stride: nat, length: nat, memory: seq<Byte>): (image: seq<Byte>)
    requires m.Valid() && HEADER_SIZE <= stride && length * stride <= |memory|
    ensures |image| == |memory| && Total(length, stride) <= |memory|
    ensures Continues(memory, 0, stride, HeaderPieces(Prepared(m, d, 0, length)), image)
  {
    TotalIsProduct(length, stride);
    TotalMonotone(|Prepared(m, d, 0, length)|, length, stride);
    Lay(memory, 0, stride, HeaderPieces(Prepared(m, d, 0, length)))
  }

  lemma PreparedStep(m: Media, d: SendData, stride: nat, strides: nat)
    requires m.Valid() && stride < strides && d.counter < m.packetsInFrame
    ensures var e := StrideStep(m, d, stride);
      && HeaderPieces(Prepared(m, d, stride, strides))
         == [StreamBytes(StreamHeader(m, d))] + HeaderPieces(Prepared(m, e, stride + 1, strides))
      && AfterStrides(m, d, stride, strides) == AfterStrides(m, e, stride + 1, strides)
  {
  }

  lemma PreparedEnds(m: Media, d: SendData, stride: nat, strides: nat)
    requires m.Valid() && stride <= strides && (stride == strides || d.counter >= m.packetsInFrame)
    ensures HeaderPieces(Prepared(m, d, stride, strides)) == [] && AfterStrides(m, d, stride, strides) == d
  {
  }

  /** Memory from `at` on has a header of the stream: payload type 96 and its own source number. */
  ghost predicate CarriesStream(image: seq<Byte>, at: nat, h: Header) {
    && CarriesHeader(image, at, h)
    && PayloadTypeOf(image[at..]) == 96 && SourceOf(image[at..]) == STREAM_SOURCE
  }

  /** Chunks of whole rows that divide the frame. */
  predicate DividesFrame(f: Format, length: nat, inFrame: nat)
    requires f.Valid()
  {
    0 < length && inFrame * length == f.packetsInFrame && WholeRows(f, length)
  }

  /** The stream that has sent nothing, after some chunks. */
  function Later(m: Media, timestamp: nat, length: nat, chunks: nat): SendData
    requires m.Valid()
  {
    AfterChunks(m, SendData(0, 0, timestamp, false, 0, 0), length, chunks)
  }

  /**
   From counters to wire and back: in every run of chunks of whole rows that divide the
   frame, each stride of a prepared chunk starts with a header that the readers read as
   that of the packet whose turn it is, with payload type 96 and the stream's source number.
   */
  lemma PreparedHoldsExpected(f: Format, m: Media, timestamp: nat, length: nat, inFrame: nat, chunks: nat,
                              stride: nat, memory: seq<Byte>, k: nat, n: nat)
    requires SameFormat(f, m) && OnWire(f) && timestamp < TWO_32 && DividesFrame(f, length, inFrame)
    requires HEADER_SIZE <= stride && length * stride <= |memory| && k < length && n == chunks * length + k
    ensures CarriesStream(PreparedImage(m, Later(m, timestamp, length, chunks), stride, length, memory),
                          Total(k, stride), Expected(f, 0, timestamp, n))
  {
    hide StreamBytes, ReadHeader, Prepared, Total, Expected, Fits, Lay, AfterChunks, CarriesHeader, WholeRows;
    hide PayloadTypeOf, SourceOf, Follows, TakenOff;
    var e := Later(m, timestamp, length, chunks);
    var h := Expected(f, 0, timestamp, n);
    var image := PreparedImage(m, e, stride, length, memory);
    PreparedIsExpected(f, m, timestamp, length, inFrame, chunks, k, n);
    LayHolds(memory, 0, stride, HeaderPieces(Prepared(m, e, 0, length)), k);
    ExpectedFits(f, 0, timestamp, n);
    BytesCarry(SendStream, h, image, Total(k, stride));
    StreamFixedFields(h);
  }

  lemma PreparedIsExpected(f: Format, m: Media, timestamp: nat, length: nat, inFrame: nat, chunks: nat, k: nat, n: nat)
    requires SameFormat(f, m) && timestamp < TWO_32 && k < length && n == chunks * length + k
    requires DividesFrame(f, length, inFrame)
    ensures var e := Later(m, timestamp, length, chunks);
      && |Prepared(m, e, 0, length)| == length
      && Prepared(m, e, 0, length)[k] == Expected(f, 0, timestamp, n)
  {
    hide Prepared, Expected, AfterChunks, AfterChunk, WholeRows, Follows, TakenOff, ChunkHeaders;
    var d := SendData(0, 0, timestamp, false, 0, 0);
    StreamRunFollows(f, m, d, length, inFrame, chunks);
    OneChunkFollows(f, m, 0, timestamp, chunks * length, AfterChunks(m, d, length, chunks), length, inFrame, chunks);
  }

  class RtpVideoSendStream {
    const media: Media
    const strideSize: nat
    var counter: nat
    var sequence: nat
    var timestamp: nat
    var field: bool
    var line: nat
    var offset: nat

    ghost function View(): SendData
      reads this
    {
      SendData(counter, sequence, timestamp, field, line, offset)
    }

    ghost predicate Valid() {
      media.Valid() && HEADER_SIZE <= strideSize
    }

    constructor (m: Media, size: nat, firstTimestamp: nat)
      requires m.Valid() && HEADER_SIZE <= size
      ensures Valid() && media == m && strideSize == size
      ensures View() == SendData(0, 0, firstTimestamp, false, 0, 0)
    {
      media, strideSize := m, size;
      counter, sequence, timestamp, field, line, offset := 0, 0, firstTimestamp, false, 0, 0;
    }

    /** Writes the header of the next packet and moves the counters on, the line apart. */
    method BuildHeader(memory: array<Byte>, at: nat)
      requires Valid() && at + HEADER_SIZE <= memory.Length
      modifies this, memory
      ensures View() == StreamUpdate(media, old(View()))
      ensures memory[..] == Overlay(old(memory[..]), at, StreamBytes(StreamHeader(media, old(View()))))
    {
      hide StreamBytes, Overlay;
      var m := media;
      var rows := m.Rows();
      var next := counter + 1;
      var h := Header(sequence, timestamp, next == m.packetsInFrame, m.payloadSize - HEADER_SIZE,
                      field, line % rows, offset);
      CopyInto(memory, at, StreamBytes(h));
      offset := StreamOffset(m, SendData(counter, sequence, timestamp, field, line, offset));
      counter := next;
      if counter == m.packetsInFrame {
        if m.interlaced {
          field := !field;
        }
        timestamp := (timestamp + m.ticks) % TWO_32;
      }
      sequence := (sequence + 1) % TWO_32;
    }

    /** One turn of the loop. */
    method PrepareStride(memory: array<Byte>, at: nat, stride: nat)
      requires Valid() && at + HEADER_SIZE <= memory.Length
      modifies this, memory
      ensures View() == StrideStep(media, old(View()), stride)
      ensures memory[..] == Overlay(old(memory[..]), at, StreamBytes(StreamHeader(media, old(View()))))
    {
      hide StreamBytes, Overlay, StreamHeader, StreamUpdate;
      BuildHeader(memory, at);
      if (stride + 1) % media.packetsInLine == 0 {
        line := (line + 1) % media.height;
      }
    }

    /** Prepares the headers of a chunk of `length` strides. */
    method PrepareChunk(memory: array<Byte>, length: nat)
      requires Valid() && length * strideSize <= memory.Length
      modifies this, memory
      ensures View() == AfterChunk(media, old(View()), length)
      ensures memory[..] == PreparedImage(media, old(View()), strideSize, length, old(memory[..]))
    {
      hide StreamBytes, Overlay, StreamHeader, StrideStep, Prepared;
      hide AfterStrides, HeaderPieces, Continues, Total, PreparedImage;
      ghost var m, was, before := media, View(), memory[..];
      ghost var image := PreparedImage(m, was, strideSize, length, before);
      var stride: nat, at: nat := 0, 0;
      while stride < length && counter < media.packetsInFrame
        invariant stride <= length
        invariant at + Total(length - stride, strideSize) == Total(length, strideSize) <= memory.Length
        invariant AfterStrides(m, View(), stride, length) == AfterStrides(m, was, 0, length)
        invariant Continues(memory[..], at, strideSize, HeaderPieces(Prepared(m, View(), stride, length)), image)
      {
        PreparedStep(m, View(), stride, length);
        TotalStep(length - stride, strideSize);
        ContinuesStep(memory[..], at, strideSize, StreamBytes(StreamHeader(m, View())),
                      HeaderPieces(Prepared(m, StrideStep(m, View(), stride), stride + 1, length)), image);
        PrepareStride(memory, at, stride);
        stride := stride + 1;
        at := at + strideSize;
      }
      PreparedEnds(m, View(), stride, length);
      ContinuesEnds(memory[..], at, strideSize, image);
      counter := counter % media.packetsInFrame;
    }
  }
}
