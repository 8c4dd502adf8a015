/**
 The bytes of an RTP video packet header as two builders write them and two
 readers parse them: the fixed header of section 5.1 of RFC 3550 and one sample
 row data header of section 4.2 of RFC 4175, twenty bytes in all.
 */
module RtpHeader {
  import opened Modular
  import opened Wrappers

  type Byte = b: int | 0 <= b < 256

  const TWO_16 := 0x1_0000
  const TWO_32 := 0x1_0000_0000
  const HEADER_SIZE := 20

  /** What a packet's header says. */
  datatype Header = Header(
    sequence: nat,
    timestamp: nat,
    marker: bool,
    length: nat,
    field: bool,
    row: nat,
    offset: nat)

  /** The header fits its fields on the wire: 15 bits for a row and an offset. */
  predicate Fits(h: Header) {
    h.sequence < TWO_32 && h.timestamp < TWO_32 && h.length < TWO_16 && h.row < 0x8000 && h.offset < 0x8000
  }

  /** The two bytes of a 16-bit word, in network order. */
  function Word(x: nat): (r: seq<Byte>)
    ensures |r| == 2
  {
    [x / 256 % 256, x % 256]
  }

  function LongWord(x: nat): (r: seq<Byte>)
    ensures |r| == 4
  {
    Word(x / TWO_16) + Word(x)
  }

  /** The buffer writer: version 2, no padding, extension or contributing sources; row and offset cut to 15 bits. */
  function WriterBytes(h: Header, payloadType: nat, ssrc: nat): (r: seq<Byte>)
    ensures |r| == HEADER_SIZE
  {
    [0x80, payloadType % 128 + (if h.marker then 128 else 0)]
    + Word(h.sequence) + LongWord(h.timestamp) + LongWord(ssrc)
    + Word(h.sequence / TWO_16) + Word(h.length)
    + [h.row / 256 % 128 + (if h.field then 128 else 0), h.row % 256]
    + [h.offset / 256 % 128, h.offset % 256]
  }

  /** The send stream: payload type 96, a fixed source number, and whole 16-bit words for row and offset. */
  function StreamBytes(h: Header): (r: seq<Byte>)
    ensures |r| == HEADER_SIZE
  {
    var row := h.row / 256 % 256;
    [0x80, 96 + (if h.marker then 128 else 0)]
    + Word(h.sequence) + LongWord(h.timestamp) + [0xbd, 0x1d, 0xb5, 0x0e]
    + [h.sequence / 0x100_0000 % 256, h.sequence / TWO_16 % 256] + Word(h.length)
    + [if h.field && row < 128 then row + 128 else row, h.row % 256]
    + Word(h.offset)
  }

  /** Two bytes read as a 16-bit word in network order. */
  function Join(high: nat, low: nat): nat {
    high * 256 + low
  }

  /** Two 16-bit words read as one of 32 bits. */
  function JoinLong(high: nat, low: nat): nat {
    high * TWO_16 + low
  }

  // ---- the readers -------------------------------------------------------------------

  /** Bytes of contributing sources between the fixed header and what follows it. */
  function SourcesSize(first: Byte): nat {
    first % 16 * 4
  }

  /** Enough of the packet is in memory for the reader to look where it looks. */
  predicate Readable(bytes: seq<Byte>, extended: bool) {
    4 <= |bytes| && (extended ==> SourcesSize(bytes[0]) + 14 <= |bytes|)
  }

  /** `get_sequence_number`: `length` is the length of the received header. */
  function ReadSequence(bytes: seq<Byte>, length: nat, extended: bool): Option<nat>
    requires 4 <= length ==> Readable(bytes, extended)
  {
    if length < 4 || bytes[0] / 64 != 2 then None
    else
      var low := Join(bytes[2], bytes[3]);
      if !extended then Some(low)
      else
        var at := SourcesSize(bytes[0]);
        Some(JoinLong(Join(bytes[at + 12], bytes[at + 13]), low))
  }

  datatype Params = Params(sequence: nat, timestamp: nat, marker: bool, field: bool)

  /** `get_rtp_param`. */
  function ReadParams(bytes: seq<Byte>): Option<Params>
    requires 8 <= |bytes| && SourcesSize(bytes[0]) + 17 <= |bytes|
  {
    if bytes[0] / 64 != 2 then None
    else
      var at := SourcesSize(bytes[0]);
      Some(Params(
        JoinLong(Join(bytes[at + 12], bytes[at + 13]), Join(bytes[2], bytes[3])),
        JoinLong(Join(bytes[4], bytes[5]), Join(bytes[6], bytes[7])),
        bytes[1] >= 128,
        bytes[at + 16] >= 128))
  }

  /** The whole header, as section 4.2 of RFC 4175 lays it out. */
  function ReadHeader(bytes: seq<Byte>): Header
    requires |bytes| == HEADER_SIZE
  {
    Header(
      JoinLong(Join(bytes[12], bytes[13]), Join(bytes[2], bytes[3])),
      JoinLong(Join(bytes[4], bytes[5]), Join(bytes[6], bytes[7])),
      bytes[1] >= 128,
      Join(bytes[14], bytes[15]),
      bytes[16] >= 128,
      Join(bytes[16] % 128, bytes[17]),
      Join(bytes[18] % 128, bytes[19]))
  }

  // ---- round trips ---------------------------------------------------------------------

  lemma WordRoundTrip(x: nat)
    ensures Join(Word(x)[0], Word(x)[1]) == x % TWO_16
  {
    var low, rest := x % 256, x / 256;
    var high, top := rest % 256, rest / 256;
    DivModUnique(x, TWO_16, top, high * 256 + low);
  }

  lemma LongWordRoundTrip(x: nat)
    requires x < TWO_32
    ensures var w := LongWord(x); JoinLong(Join(w[0], w[1]), Join(w[2], w[3])) == x
  {
    hide Word, Join;
    WordRoundTrip(x / TWO_16);
    WordRoundTrip(x);
  }

  /** The extended sequence number splits into the words its two places hold. */
  lemma SequenceSplits(x: nat)
    requires x < TWO_32
    ensures var low, high := Word(x), Word(x / TWO_16);
      JoinLong(Join(high[0], high[1]), Join(low[0], low[1])) == x && Join(low[0], low[1]) == x % TWO_16
  {
    hide Word, Join;
    WordRoundTrip(x / TWO_16);
    WordRoundTrip(x);
  }

  /** A 15-bit number under one flag bit. */
  lemma FlaggedRoundTrip(x: nat, flag: bool)
    requires x < 0x8000
    ensures var high := x / 256 % 128 + (if flag then 128 else 0);
      Join(high % 128, x % 256) == x && (high >= 128 <==> flag)
    ensures x / 256 % 256 == x / 256 % 128 == x / 256
    ensures Word(x)[0] == x / 256 && Word(x)[1] == x % 256
  {
  }

  lemma HighBytes(x: nat)
    ensures [x / 0x100_0000 % 256, x / TWO_16 % 256] == Word(x / TWO_16)
  {
    DivModUnique(x, TWO_16, x / TWO_16, x % TWO_16);
    var y := x / TWO_16;
    DivModUnique(x, 0x100_0000, y / 256, y % 256 * TWO_16 + x % TWO_16);
  }

  /** What is read always fits the wire. */
  lemma ReadFits(bytes: seq<Byte>)
    requires |bytes| == HEADER_SIZE
    ensures Fits(ReadHeader(bytes))
  {
  }

  /** Exactly what fits the wire is read back from the writer's header ... */
  lemma WriterRoundTripIff(h: Header, payloadType: nat, ssrc: nat)
    ensures ReadHeader(WriterBytes(h, payloadType, ssrc)) == h <==> Fits(h)
  {
    hide Word, Join, JoinLong, Fits;
    if Fits(h) {
      WriterRoundTrip(h, payloadType, ssrc);
    } else {
      ReadFits(WriterBytes(h, payloadType, ssrc));
    }
  }

  lemma WriterRoundTrip(h: Header, payloadType: nat, ssrc: nat)
    requires Fits(h)
    ensures ReadHeader(WriterBytes(h, payloadType, ssrc)) == h
  {
    hide Word, Join, JoinLong;
    SequenceSplits(h.sequence);
    LongWordRoundTrip(h.timestamp);
    WordRoundTrip(h.length);
    FlaggedRoundTrip(h.row, h.field);
    FlaggedRoundTrip(h.offset, false);
  }

  /** ... and the send stream's. */
  lemma StreamRoundTrip(h: Header)
    requires Fits(h)
    ensures ReadHeader(StreamBytes(h)) == h
  {
    hide Word, Join, JoinLong;
    SequenceSplits(h.sequence);
    LongWordRoundTrip(h.timestamp);
    WordRoundTrip(h.length);
    HighBytes(h.sequence);
    FlaggedRoundTrip(h.row, h.field);
    FlaggedRoundTrip(h.offset, false);
  }

  /** A header of either builder, as it was set up. */
  datatype Builder = BufferWriter(payloadType: nat, ssrc: nat) | SendStream

  function HeaderBytes(b: Builder, h: Header): (r: seq<Byte>)
    ensures |r| == HEADER_SIZE
  {
    if b.SendStream? then StreamBytes(h) else WriterBytes(h, b.payloadType, b.ssrc)
  }

  /** Where the receivers look in a header of either builder. */
  lemma HeaderPlaces(b: Builder, h: Header, payload: seq<Byte>)
    requires Fits(h)
    ensures var bytes, low, high, time := HeaderBytes(b, h) + payload,
                                          Word(h.sequence), Word(h.sequence / TWO_16), LongWord(h.timestamp);
      && |bytes| == HEADER_SIZE + |payload|
      && bytes[0] == 0x80 && (bytes[1] >= 128 <==> h.marker) && (bytes[16] >= 128 <==> h.field)
      && bytes[2] == low[0] && bytes[3] == low[1] && bytes[12] == high[0] && bytes[13] == high[1]
      && bytes[4] == time[0] && bytes[5] == time[1] && bytes[6] == time[2] && bytes[7] == time[3]
  {
    hide Word, LongWord;
    HighBytes(h.sequence);
    FlaggedRoundTrip(h.row, h.field);
  }

  /** What the readers make of a header without contributing sources. */
  lemma ReadersLook(bytes: seq<Byte>, length: nat)
    requires HEADER_SIZE <= |bytes| && bytes[0] == 0x80 && 4 <= length
    ensures var low, high := Join(bytes[2], bytes[3]), Join(bytes[12], bytes[13]);
      && Readable(bytes, true) && SourcesSize(bytes[0]) == 0
      && ReadSequence(bytes, length, true) == Some(JoinLong(high, low))
      && ReadSequence(bytes, length, false) == Some(low)
      && ReadParams(bytes) == Some(Params(JoinLong(high, low),
                                          JoinLong(Join(bytes[4], bytes[5]), Join(bytes[6], bytes[7])),
                                          bytes[1] >= 128, bytes[16] >= 128))
  {
    hide Join, JoinLong;
  }

  /** The receivers' parsers return a header's sequence number, timestamp, marker and field. */
  ghost predicate ReceivedAs(bytes: seq<Byte>, h: Header) {
    && HEADER_SIZE <= |bytes| && bytes[0] == 0x80 && SourcesSize(bytes[0]) == 0
    && ReadParams(bytes) == Some(Params(h.sequence, h.timestamp, h.marker, h.field))
    && forall length: nat :: 4 <= length ==>
         ReadSequence(bytes, length, true) == Some(h.sequence)
         && ReadSequence(bytes, length, false) == Some(h.sequence % TWO_16)
  }

  /** Whichever builder wrote the header, both receivers read what it says, with any payload behind it. */
  lemma ReceiverRoundTrip(b: Builder, h: Header, payload: seq<Byte>)
    requires Fits(h)
    ensures ReceivedAs(HeaderBytes(b, h) + payload, h)
  {
    hide Word, LongWord, Join, JoinLong, HeaderBytes, ReadSequence, ReadParams, SourcesSize;
    HeaderPlaces(b, h, payload);
    var bytes := HeaderBytes(b, h) + payload;
    SequenceSplits(h.sequence);
    LongWordRoundTrip(h.timestamp);
    ReadersLook(bytes, 4);
    forall length: nat | 4 <= length
      ensures ReadSequence(bytes, length, true) == Some(h.sequence)
      ensures ReadSequence(bytes, length, false) == Some(h.sequence % TWO_16)
    {
      ReadersLook(bytes, length);
    }
  }

  /** The two builders write headers a reader cannot tell apart. */
  lemma BuildersAgree(h: Header, b: Builder, payload: seq<Byte>)
    requires Fits(h)
    ensures ReadHeader(HeaderBytes(b, h)) == ReadHeader(StreamBytes(h)) == h
    ensures ReceivedAs(HeaderBytes(b, h) + payload, h) && ReceivedAs(StreamBytes(h) + payload, h)
  {
    hide ReadHeader, WriterBytes, StreamBytes, ReceivedAs, Fits;
    if b.BufferWriter? {
      WriterRoundTrip(h, b.payloadType, b.ssrc);
    }
    StreamRoundTrip(h);
    ReceiverRoundTrip(b, h, payload);
    ReceiverRoundTrip(SendStream, h, payload);
  }

  // ---- the rest of the header ----------------------------------------------------------

  function PayloadTypeOf(bytes: seq<Byte>): nat
    requires 2 <= |bytes|
  {
    bytes[1] % 128
  }

  /** The source number, in network order. */
  function SourceOf(bytes: seq<Byte>): nat
    requires 12 <= |bytes|
  {
    JoinLong(Join(bytes[8], bytes[9]), Join(bytes[10], bytes[11]))
  }

  /** The bit that announces a second sample row. */
  predicate ContinuationOf(bytes: seq<Byte>)
    requires HEADER_SIZE <= |bytes|
  {
    bytes[18] >= 128
  }

  const STREAM_SOURCE := 0xbd1d_b50e

  /** The source number the buffer writer has unless it is given one. */
  const DEFAULT_SSRC := 0x0eb5_1dbd

  lemma {:induction false} LongWordCut(x: nat)
    ensures var w := LongWord(x); JoinLong(Join(w[0], w[1]), Join(w[2], w[3])) == x % TWO_32
  {
    hide Word, Join;
    var y := x % TWO_32;
    WordRoundTrip(x / TWO_16);
    WordRoundTrip(x);
    DivModUnique(x, TWO_32, x / TWO_16 / TWO_16, x / TWO_16 % TWO_16 * TWO_16 + x % TWO_16);
  }

  /** The buffer writer announces no second row, and its payload type and source number exactly when they fit. */
  lemma WriterFixedFields(h: Header, payloadType: nat, ssrc: nat)
    ensures var bytes := WriterBytes(h, payloadType, ssrc);
      && bytes[0] == 0x80 && !ContinuationOf(bytes)
      && (PayloadTypeOf(bytes) == payloadType <==> payloadType < 128)
      && (SourceOf(bytes) == ssrc <==> ssrc < TWO_32)
  {
    hide Word, Join, JoinLong;
    LongWordCut(ssrc);
  }

  /** The send stream announces payload type 96 and its own source number; an offset too large, a second row. */
  lemma StreamFixedFields(h: Header)
    ensures var bytes := StreamBytes(h);
      && bytes[0] == 0x80 && PayloadTypeOf(bytes) == 96 && SourceOf(bytes) == STREAM_SOURCE
      && (ContinuationOf(bytes) <==> h.offset % TWO_16 >= 0x8000)
  {
    WordRoundTrip(h.offset);
  }

  lemma JoinInjective(high: Byte, low: Byte, high': Byte, low': Byte)
    requires Join(high, low) == Join(high', low')
    ensures high == high' && low == low' && Join(high, low) < TWO_16
  {
  }

  lemma JoinLongInjective(high: nat, low: nat, high': nat, low': nat)
    requires JoinLong(high, low) == JoinLong(high', low') && low < TWO_16 && low' < TWO_16
    ensures high == high' && low == low'
  {
  }

  lemma JoinBound(high: Byte, low: Byte)
    ensures Join(high, low) < TWO_16
  {
  }

  lemma SourceBytes(a: seq<Byte>, b: seq<Byte>)
    requires |a| == |b| == 4
    requires JoinLong(Join(a[0], a[1]), Join(a[2], a[3])) == JoinLong(Join(b[0], b[1]), Join(b[2], b[3]))
    ensures a == b
  {
    hide Join, JoinLong;
    JoinBound(a[2], a[3]);
    JoinBound(b[2], b[3]);
    JoinLongInjective(Join(a[0], a[1]), Join(a[2], a[3]), Join(b[0], b[1]), Join(b[2], b[3]));
    JoinInjective(a[0], a[1], b[0], b[1]);
    JoinInjective(a[2], a[3], b[2], b[3]);
  }

  /**
   Byte for byte the headers are the same exactly for one payload type and one source
   number, which is not the one the buffer writer has by itself: the send stream puts
   its constant into memory in the machine's order, the writer in the network's.
   */
  lemma SameBytesIff(h: Header, payloadType: nat, ssrc: nat)
    requires Fits(h)
    ensures WriterBytes(h, payloadType, ssrc) == StreamBytes(h)
            <==> payloadType % 128 == 96 && ssrc % TWO_32 == STREAM_SOURCE
    ensures WriterBytes(h, payloadType, DEFAULT_SSRC) != StreamBytes(h)
  {
    hide Word, JoinLong, Join;
    SameBytesWhen(h, payloadType, ssrc);
    SameBytesWhen(h, payloadType, DEFAULT_SSRC);
  }

  lemma SameBytesWhen(h: Header, payloadType: nat, ssrc: nat)
    requires Fits(h)
    ensures WriterBytes(h, payloadType, ssrc) == StreamBytes(h)
            <==> payloadType % 128 == 96 && ssrc % TWO_32 == STREAM_SOURCE
  {
    hide Word, LongWord, JoinLong, Join, WriterBytes, StreamBytes;
    var w, s := WriterBytes(h, payloadType, ssrc), StreamBytes(h);
    OtherBytes(h, payloadType, ssrc);
    LongWordCut(ssrc);
    WriterFixedFields(h, payloadType, ssrc);
    StreamFixedFields(h);
    if payloadType % 128 == 96 && ssrc % TWO_32 == STREAM_SOURCE {
      SourceBytes(w[8..12], s[8..12]);
      assert w == w[..8] + w[8..12] + w[12..] && s == s[..8] + s[8..12] + s[12..];
    }
  }

  /** The bytes besides the source number. */
  lemma OtherBytes(h: Header, payloadType: nat, ssrc: nat)
    requires Fits(h)
    ensures var w, s := WriterBytes(h, payloadType, ssrc), StreamBytes(h);
      && PayloadTypeOf(w) == payloadType % 128
      && (payloadType % 128 == 96 ==> w[..8] == s[..8]) && w[12..] == s[12..]
      && w[8..12] == LongWord(ssrc)
  {
    hide Word, LongWord;
    LastBytes(h, payloadType, ssrc);
    SecondByte(h, payloadType, ssrc);
  }

  lemma LastBytes(h: Header, payloadType: nat, ssrc: nat)
    requires Fits(h)
    ensures WriterBytes(h, payloadType, ssrc)[12..] == StreamBytes(h)[12..]
  {
    hide Word, LongWord;
    HighBytes(h.sequence);
    FlaggedRoundTrip(h.row, h.field);
    FlaggedRoundTrip(h.offset, false);
    assert Word(h.offset) == [h.offset / 256 % 128, h.offset % 256];
  }

  lemma SecondByte(h: Header, payloadType: nat, ssrc: nat)
    ensures PayloadTypeOf(WriterBytes(h, payloadType, ssrc)) == payloadType % 128
  {
    hide Word, LongWord;
  }

  // ---- other headers -------------------------------------------------------------------------

  /** A packet with contributing sources put in after the fixed header. */
  function WithSources(bytes: seq<Byte>, sources: seq<Byte>): (r: seq<Byte>)
    requires 12 <= |bytes| && bytes[0] % 16 == 0 && |sources| % 4 == 0 && |sources| <= 60
    ensures |r| == |bytes| + |sources|
  {
    [bytes[0] + |sources| / 4] + bytes[1..12] + sources + bytes[12..]
  }

  /** The readers find behind any contributing sources what they find without them. */
  lemma SourcesAreSkipped(bytes: seq<Byte>, sources: seq<Byte>, length: nat, extended: bool)
    requires HEADER_SIZE <= |bytes| && bytes[0] % 16 == 0 && |sources| % 4 == 0 && |sources| <= 60
    ensures var more := WithSources(bytes, sources);
      && Readable(more, extended) && SourcesSize(more[0]) == |sources|
      && ReadSequence(more, length, extended) == ReadSequence(bytes, length, extended)
      && ReadParams(more) == ReadParams(bytes)
  {
    hide Join, JoinLong, WithSources;
    SourcesPlaces(bytes, sources);
    FirstByte(bytes[0], |sources|);
  }

  lemma SourcesPlaces(bytes: seq<Byte>, sources: seq<Byte>)
    requires HEADER_SIZE <= |bytes| && bytes[0] % 16 == 0 && |sources| % 4 == 0 && |sources| <= 60
    ensures var more, n := WithSources(bytes, sources), |sources|;
      && more[0] == bytes[0] + n / 4
      && more[n + 12] == bytes[12] && more[n + 13] == bytes[13] && more[n + 16] == bytes[16]
      && (forall i :: 1 <= i < 8 ==> more[i] == bytes[i])
  {
  }

  /** The number of contributing sources and the version share a byte. */
  lemma FirstByte(first: Byte, n: nat)
    requires first % 16 == 0 && n % 4 == 0 && n <= 60
    ensures (first + n / 4) / 64 == first / 64 && (first + n / 4) % 16 * 4 == n
  {
  }

  /** Exactly the packets too short or of another version are refused. */
  lemma RefusedIff(bytes: seq<Byte>, length: nat, extended: bool)
    requires HEADER_SIZE <= |bytes| && (4 <= length ==> Readable(bytes, extended))
    ensures ReadSequence(bytes, length, extended).None? <==> length < 4 || !(0x80 <= bytes[0] < 0xC0)
    ensures SourcesSize(bytes[0]) + 17 <= |bytes| ==> (ReadParams(bytes).None? <==> !(0x80 <= bytes[0] < 0xC0))
  {
  }
}
