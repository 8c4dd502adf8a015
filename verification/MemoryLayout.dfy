/**
 How an application's memory is cut up: one aligned block for headers and one for
 payloads, sliced to the receivers and by each receiver to its streams.
 */
module MemoryLayout {
  import opened Modular
  import opened Wrappers

  /** Sizes of header and payload memory; also the page sizes of the two allocators. */
  datatype Sizes = Sizes(header: nat, payload: nat)

  /** A piece of header and of payload memory; address 0 is the null pointer. */
  datatype Memory = Memory(header: nat, headerSize: nat, payload: nat, payloadSize: nat)

  // ---- alignment -----------------------------------------------------------------------------

  /** `align_length`. */
  function AlignLength(length: nat, page: nat): nat
    requires 0 < page
  {
    PagesNotNegative(length, page);
    (length + page - 1) / page * page
  }

  lemma PagesNotNegative(length: nat, page: nat)
    requires 0 < page
    ensures var r := (length + page - 1) / page * page; length <= r < length + page
  {
    var x := length + page - 1;
    assert x == x / page * page + x % page;
  }

  lemma {:induction false} WholePages(n: nat, page: nat)
    requires 0 < page
    ensures Wrap(n * page, page) == 0
  {
    if n > 0 {
      WholePages(n - 1, page);
      assert n * page == (n - 1) * page + page;
      assert (n - 1) * page >= 0;
      WrapTurn((n - 1) * page, page);
    }
  }

  /** The least whole number of pages that holds `length`. */
  lemma AlignLengthIsLeast(length: nat, page: nat)
    requires 0 < page
    ensures var r := AlignLength(length, page); length <= r < length + page && Wrap(r, page) == 0
  {
    PagesNotNegative(length, page);
    var n := (length + page - 1) / page;
    assert n < 0 ==> n * page < 0;
    WholePages(n, page);
  }

  /** `allocate_aligned`, where the allocator answered `raw` for `alignment` more bytes, or 0. */
  function AlignPointer(raw: nat, alignment: nat): nat
    requires 0 < alignment
  {
    var remainder := Wrap(raw, alignment);
    if remainder == 0 then raw else raw + (alignment - remainder)
  }

  /** The block starts at the first aligned address, lies within the bytes asked for, and is null when they are. */
  lemma AlignPointerFits(raw: nat, length: nat, alignment: nat)
    requires 0 < alignment
    ensures var p := AlignPointer(raw, alignment);
      && Wrap(p, alignment) == 0
      && raw <= p < raw + alignment && p + length <= raw + (length + alignment)
      && (p == 0 <==> raw == 0)
  {
    WrapAdd(raw, -Wrap(raw, alignment), alignment);
    WrapSub(raw, raw, alignment);
    WrapTurn(raw - Wrap(raw, alignment), alignment);
    WrapSmall(0, alignment);
  }

  // ---- sizes ---------------------------------------------------------------------------------

  function Aligned(request: Sizes, pages: Sizes): Sizes
    requires 0 < pages.header && 0 < pages.payload
  {
    Sizes(AlignLength(request.header, pages.header), AlignLength(request.payload, pages.payload))
  }

  function AlignedAll(requests: seq<Sizes>, pages: Sizes): (r: seq<Sizes>)
    requires 0 < pages.header && 0 < pages.payload
    ensures |r| == |requests|
    ensures forall i :: 0 <= i < |r| ==> r[i] == Aligned(requests[i], pages)
  {
    seq(|requests|, i requires 0 <= i < |requests| => Aligned(requests[i], pages))
  }

  function Plus(a: Sizes, b: Sizes): Sizes {
    Sizes(a.header + b.header, a.payload + b.payload)
  }

  function Total(sizes: seq<Sizes>): Sizes {
    if sizes == [] then Sizes(0, 0) else Plus(sizes[0], Total(sizes[1..]))
  }

  lemma {:induction false} TotalSplits(a: seq<Sizes>, b: seq<Sizes>)
    ensures Total(a + b) == Plus(Total(a), Total(b))
    decreases |a|
  {
    if a == [] {
      assert a + b == b;
    } else {
      assert (a + b)[1..] == a[1..] + b;
      TotalSplits(a[1..], b);
    }
  }

  // ---- slices --------------------------------------------------------------------------------

  /** The pointer past a piece; a null pointer does not move. */
  function Past(pointer: nat, size: nat): nat {
    if pointer != 0 then pointer + size else 0
  }

  /** Pieces one after the other. */
  function Slices(header: nat, payload: nat, sizes: seq<Sizes>): (r: seq<Memory>)
    ensures |r| == |sizes|
    decreases |sizes|
  {
    if sizes == [] then []
    else [Memory(header, sizes[0].header, payload, sizes[0].payload)]
         + Slices(Past(header, sizes[0].header), payload + sizes[0].payload, sizes[1..])
  }

  lemma {:induction false} SlicesJoin(header: nat, payload: nat, a: seq<Sizes>, b: seq<Sizes>)
    ensures Slices(header, payload, a + b)
         == Slices(header, payload, a) + Slices(Past(header, Total(a).header), payload + Total(a).payload, b)
    decreases |a|
  {
    if a == [] {
      assert a + b == b;
    } else {
      assert (a + b)[1..] == a[1..] + b;
      SlicesJoin(Past(header, a[0].header), payload + a[0].payload, a[1..], b);
    }
  }

  /** Where a slice lies. */
  lemma {:induction false} SliceAt(header: nat, payload: nat, sizes: seq<Sizes>, i: nat)
    requires i < |sizes|
    ensures Slices(header, payload, sizes)[i]
         == Memory(Past(header, Total(sizes[..i]).header), sizes[i].header,
                   payload + Total(sizes[..i]).payload, sizes[i].payload)
    decreases i
  {
    if i > 0 {
      assert sizes[..i][1..] == sizes[1..][..i - 1];
      SliceAt(Past(header, sizes[0].header), payload + sizes[0].payload, sizes[1..], i - 1);
    } else {
      assert sizes[..0] == [];
    }
  }

  /** What comes before a slice, the slice and what comes after it make up the total. */
  lemma TotalAround(sizes: seq<Sizes>, i: nat, j: nat)
    requires i < j <= |sizes|
    ensures Total(sizes[..i]).header + sizes[i].header <= Total(sizes[..j]).header
    ensures Total(sizes[..i]).payload + sizes[i].payload <= Total(sizes[..j]).payload
  {
    var rest := sizes[i + 1..j];
    assert sizes[..j] == sizes[..i] + ([sizes[i]] + rest);
    TotalSplits(sizes[..i], [sizes[i]] + rest);
    assert ([sizes[i]] + rest)[1..] == rest;
  }

  predicate Apart(a: Memory, b: Memory) {
    && a.payload + a.payloadSize <= b.payload
    && (a.header != 0 ==> a.header + a.headerSize <= b.header)
  }

  predicate Within(m: Memory, header: nat, payload: nat, total: Sizes) {
    && payload <= m.payload && m.payload + m.payloadSize <= payload + total.payload
    && (if header == 0 then m.header == 0
        else header <= m.header && m.header + m.headerSize <= header + total.header)
  }

  /** Slices lie one behind the other, within the memory that was cut. */
  lemma SlicesApart(header: nat, payload: nat, sizes: seq<Sizes>)
    ensures forall i :: 0 <= i < |sizes| ==> Within(Slices(header, payload, sizes)[i], header, payload, Total(sizes))
    ensures forall i, j :: 0 <= i < j < |sizes| ==>
              Apart(Slices(header, payload, sizes)[i], Slices(header, payload, sizes)[j])
  {
    hide Total, Slices;
    forall i | 0 <= i < |sizes|
      ensures Within(Slices(header, payload, sizes)[i], header, payload, Total(sizes))
    {
      SliceAt(header, payload, sizes, i);
      TotalAround(sizes, i, |sizes|);
      assert sizes[..|sizes|] == sizes;
    }
    forall i, j | 0 <= i < j < |sizes|
      ensures Apart(Slices(header, payload, sizes)[i], Slices(header, payload, sizes)[j])
    {
      SliceAt(header, payload, sizes, i);
      SliceAt(header, payload, sizes, j);
      TotalAround(sizes, i, j);
    }
  }

  predicate OnPages(m: Memory, pages: Sizes)
    requires 0 < pages.header && 0 < pages.payload
  {
    Wrap(m.header, pages.header) == 0 && Wrap(m.payload, pages.payload) == 0
  }

  /** Sizes that are whole pages. */
  predicate PageSized(s: Sizes, pages: Sizes)
    requires 0 < pages.header && 0 < pages.payload
  {
    Wrap(s.header, pages.header) == 0 && Wrap(s.payload, pages.payload) == 0
  }

  lemma {:induction false} SlicesOnPages(header: nat, payload: nat, sizes: seq<Sizes>, pages: Sizes)
    requires 0 < pages.header && 0 < pages.payload
    requires Wrap(header, pages.header) == 0 && Wrap(payload, pages.payload) == 0
    requires forall s :: s in sizes ==> PageSized(s, pages)
    ensures forall m :: m in Slices(header, payload, sizes) ==> OnPages(m, pages)
    decreases |sizes|
  {
    hide Wrap;
    if sizes != [] {
      assert PageSized(sizes[0], pages);
      WrapAcross(header, sizes[0].header, pages.header);
      WrapAcross(payload, sizes[0].payload, pages.payload);
      SlicesOnPages(Past(header, sizes[0].header), payload + sizes[0].payload, sizes[1..], pages);
    }
  }

  // ---- a receiver --------------------------------------------------------------------------------

  /** A receiver whose streams need no payload memory counts as not initialised. */
  function Determine(sizes: seq<Sizes>): Option<Sizes> {
    if Total(sizes).payload > 0 then Some(Total(sizes)) else None
  }

  predicate Valid(m: Memory, total: Sizes) {
    && total.payload > 0
    && (total.header > 0 ==> m.header != 0) && m.payload != 0
    && total.payload <= m.payloadSize && total.header <= m.headerSize
  }

  /** `apply_memory_layout` of a receiver: the memory of its streams. */
  function Apply(m: Memory, sizes: seq<Sizes>): Option<seq<Memory>> {
    if Valid(m, Total(sizes)) then Some(Slices(m.header, m.payload, sizes)) else None
  }

  /** The slice lies in the memory handed over. */
  predicate InMemory(piece: Memory, m: Memory) {
    && m.payload <= piece.payload && piece.payload + piece.payloadSize <= m.payload + m.payloadSize
    && (0 < piece.headerSize ==>
          && m.header != 0 && m.header <= piece.header
          && piece.header + piece.headerSize <= m.header + m.headerSize)
  }

  /** Every slice for the streams lies in the memory. */
  predicate AllInMemory(m: Memory, sizes: seq<Sizes>) {
    forall i :: 0 <= i < |sizes| ==> InMemory(Slices(m.header, m.payload, sizes)[i], m)
  }

  /**
   A receiver takes memory exactly if its streams need payload memory, there is some,
   and every slice it would cut for them lies in it.
   */
  lemma AcceptedIff(m: Memory, sizes: seq<Sizes>)
    ensures Apply(m, sizes).Some? <==> m.payload != 0 && 0 < Total(sizes).payload && AllInMemory(m, sizes)
    ensures Apply(m, sizes).Some? ==> Apply(m, sizes).value == Slices(m.header, m.payload, sizes)
  {
    hide Total, Slices, AllInMemory;
    if Apply(m, sizes).Some? {
      EnoughForAll(m, sizes);
    } else if AllInMemory(m, sizes) {
      AllNeedEnough(m, sizes);
    }
  }

  /** Memory of the total size has room for all slices ... */
  lemma EnoughForAll(m: Memory, sizes: seq<Sizes>)
    requires Valid(m, Total(sizes))
    ensures AllInMemory(m, sizes)
  {
    hide Total, Slices;
    assert sizes[..|sizes|] == sizes;
    forall i | 0 <= i < |sizes|
      ensures InMemory(Slices(m.header, m.payload, sizes)[i], m)
    {
      SliceAt(m.header, m.payload, sizes, i);
      TotalAround(sizes, i, |sizes|);
    }
  }

  /** ... and no less has. */
  lemma AllNeedEnough(m: Memory, sizes: seq<Sizes>)
    requires AllInMemory(m, sizes)
    ensures Total(sizes).payload <= m.payloadSize && Total(sizes).header <= m.headerSize
    ensures 0 < Total(sizes).header ==> m.header != 0
  {
    hide Total, Slices, InMemory;
    assert sizes[..|sizes|] == sizes;
    TotalReached(m, sizes, |sizes|);
  }

  lemma {:induction false} TotalReached(m: Memory, sizes: seq<Sizes>, n: nat)
    requires n <= |sizes| && AllInMemory(m, sizes)
    ensures Total(sizes[..n]).payload <= m.payloadSize && Total(sizes[..n]).header <= m.headerSize
    ensures 0 < Total(sizes[..n]).header ==> m.header != 0
    decreases n
  {
    hide Slices, Total;
    if n > 0 {
      TotalReached(m, sizes, n - 1);
      SliceAt(m.header, m.payload, sizes, n - 1);
      assert InMemory(Slices(m.header, m.payload, sizes)[n - 1], m);
      assert sizes[..n] == sizes[..n - 1] + [sizes[n - 1]];
      TotalSplits(sizes[..n - 1], [sizes[n - 1]]);
      TotalOfOne(sizes[n - 1]);
    } else {
      assert sizes[..0] == [];
      TotalOfNone();
    }
  }

  lemma TotalOfOne(size: Sizes)
    ensures Total([size]) == size
  {
    TotalOfNone();
    assert [size][1..] == [];
  }

  lemma TotalOfNone()
    ensures Total([]) == Sizes(0, 0)
  {
  }

  // ---- the application -----------------------------------------------------------------------------

  function Flat<T>(xss: seq<seq<T>>): seq<T> {
    if xss == [] then [] else xss[0] + Flat(xss[1..])
  }

  function Totals(receivers: seq<seq<Sizes>>): (r: seq<Sizes>)
    ensures |r| == |receivers|
    ensures forall i :: 0 <= i < |r| ==> r[i] == Total(receivers[i])
  {
    seq(|receivers|, i requires 0 <= i < |receivers| => Total(receivers[i]))
  }

  /** The sizes of all receivers, unless one of them is not initialised. */
  function DetermineAll(receivers: seq<seq<Sizes>>): Option<seq<Sizes>> {
    if receivers == [] then Some([])
    else
      match Determine(receivers[0])
      case None => None
      case Some(total) =>
        match DetermineAll(receivers[1..])
        case None => None
        case Some(rest) => Some([total] + rest)
  }

  /** `apply_memory_layout` of the application, receiver by receiver. */
  function ApplyAll(header: nat, payload: nat, receivers: seq<seq<Sizes>>): Option<seq<seq<Memory>>>
    decreases |receivers|
  {
    if receivers == [] then Some([])
    else
      var total := Total(receivers[0]);
      match Apply(Memory(header, total.header, payload, total.payload), receivers[0])
      case None => None
      case Some(memory) =>
        match ApplyAll(Past(header, total.header), payload + total.payload, receivers[1..])
        case None => None
        case Some(rest) => Some([memory] + rest)
  }

  lemma TotalsFirst(receivers: seq<seq<Sizes>>)
    requires receivers != []
    ensures Totals(receivers) == [Total(receivers[0])] + Totals(receivers[1..])
    ensures Total(Totals(receivers)) == Plus(Total(receivers[0]), Total(Totals(receivers[1..])))
  {
    hide Total;
    assert Totals(receivers) == [Total(receivers[0])] + Totals(receivers[1..]);
    TotalOf([Total(receivers[0])] + Totals(receivers[1..]));
  }

  lemma TotalOf(sizes: seq<Sizes>)
    requires sizes != []
    ensures Total(sizes) == Plus(sizes[0], Total(sizes[1..]))
  {
  }

  lemma {:induction false} FlatTotal(receivers: seq<seq<Sizes>>)
    ensures Total(Flat(receivers)) == Total(Totals(receivers))
    decreases |receivers|
  {
    if receivers == [] {
      assert Flat<Sizes>(receivers) == [] && Totals(receivers) == [];
    } else {
      hide Total;
      TotalSplits(receivers[0], Flat(receivers[1..]));
      FlatTotal(receivers[1..]);
      TotalsFirst(receivers);
    }
  }

  predicate AllNeedPayload(receivers: seq<seq<Sizes>>) {
    forall s :: s in receivers ==> Total(s).payload > 0
  }

  lemma NeedPayloadSplits(receivers: seq<seq<Sizes>>)
    requires receivers != []
    ensures AllNeedPayload(receivers) <==> Total(receivers[0]).payload > 0 && AllNeedPayload(receivers[1..])
  {
    hide Total;
    assert receivers == [receivers[0]] + receivers[1..];
  }

  /** The layout is determined exactly when every receiver has a stream that needs payload memory. */
  lemma {:induction false} DetermineAllIff(receivers: seq<seq<Sizes>>)
    ensures DetermineAll(receivers) == if AllNeedPayload(receivers) then Some(Totals(receivers)) else None
    decreases |receivers|
  {
    hide Total;
    if receivers != [] {
      DetermineAllIff(receivers[1..]);
      TotalsFirst(receivers);
      NeedPayloadSplits(receivers);
      hide AllNeedPayload;
    }
  }

  /**
   Cutting to receivers and then to streams is cutting to all the streams at once;
   every receiver accepts its part.
   */
  lemma {:induction false} NestedIsFlat(header: nat, payload: nat, receivers: seq<seq<Sizes>>)
    requires payload != 0 && AllNeedPayload(receivers)
    requires Total(Flat(receivers)).header > 0 ==> header != 0
    ensures var r := ApplyAll(header, payload, receivers);
      r.Some? && |r.value| == |receivers| && Flat(r.value) == Slices(header, payload, Flat(receivers))
    decreases |receivers|
  {
    hide Total, Slices;
    if receivers == [] {
      NoSlices(header, payload);
    } else {
      var first, rest := receivers[0], receivers[1..];
      NeedPayloadSplits(receivers);
      hide AllNeedPayload;
      TotalSplits(first, Flat(rest));
      SlicesJoin(header, payload, first, Flat(rest));
      NestedIsFlat(Past(header, Total(first).header), payload + Total(first).payload, rest);
      var r := ApplyAll(header, payload, receivers).value;
      assert r[1..] == ApplyAll(Past(header, Total(first).header), payload + Total(first).payload, rest).value;
    }
  }

  lemma NoSlices(header: nat, payload: nat)
    ensures Slices(header, payload, []) == []
  {
  }

  /** The two blocks, where the allocators answered `rawHeader` and `rawPayload`. */
  function AllocateAligned(total: Sizes, pages: Sizes, rawHeader: nat, rawPayload: nat): Option<(nat, nat)>
    requires 0 < pages.header && 0 < pages.payload
  {
    var header := if total.header > 0 then AlignPointer(rawHeader, pages.header) else 0;
    var payload := AlignPointer(rawPayload, pages.payload);
    if payload != 0 && (total.header == 0 || header != 0) then Some((header, payload)) else None
  }

  /** Both blocks are there exactly if the allocators had the memory that is needed. */
  lemma AllocatedIff(total: Sizes, pages: Sizes, rawHeader: nat, rawPayload: nat)
    requires 0 < pages.header && 0 < pages.payload
    ensures AllocateAligned(total, pages, rawHeader, rawPayload).Some? <==>
            rawPayload != 0 && (0 < total.header ==> rawHeader != 0)
  {
    hide AlignPointer, Wrap;
    AlignPointerFits(rawHeader, total.header, pages.header);
    AlignPointerFits(rawPayload, total.payload, pages.payload);
  }

  /** All streams of all receivers, with page-aligned sizes. */
  function AlignedStreams(requests: seq<seq<Sizes>>, pages: Sizes): (r: seq<seq<Sizes>>)
    requires 0 < pages.header && 0 < pages.payload
    ensures |r| == |requests|
    ensures forall i :: 0 <= i < |r| ==> r[i] == AlignedAll(requests[i], pages)
  {
    seq(|requests|, i requires 0 <= i < |requests| => AlignedAll(requests[i], pages))
  }

  lemma {:induction false} FlatAligned(requests: seq<seq<Sizes>>, pages: Sizes)
    requires 0 < pages.header && 0 < pages.payload
    ensures Flat(AlignedStreams(requests, pages)) == AlignedAll(Flat(requests), pages)
    decreases |requests|
  {
    if requests != [] {
      FlatAligned(requests[1..], pages);
      assert AlignedStreams(requests, pages)[1..] == AlignedStreams(requests[1..], pages);
    }
  }

  lemma AlignedFits(request: Sizes, pages: Sizes)
    requires 0 < pages.header && 0 < pages.payload
    ensures var s := Aligned(request, pages);
      PageSized(s, pages) && request.header <= s.header && request.payload <= s.payload
  {
    hide AlignLength, Wrap;
    AlignLengthIsLeast(request.header, pages.header);
    AlignLengthIsLeast(request.payload, pages.payload);
  }

  /** The memory asked of the operating system. */
  datatype Block = Block(start: nat, size: nat)

  predicate Inside(start: nat, size: nat, block: Block) {
    block.start <= start && start + size <= block.start + block.size
  }

  /** What a stream gets for its request. */
  predicate Served(m: Memory, request: Sizes, pages: Sizes, header: Block, payload: Block)
    requires 0 < pages.header && 0 < pages.payload
  {
    && request.header <= m.headerSize && request.payload <= m.payloadSize
    && OnPages(m, pages)
    && Inside(m.payload, m.payloadSize, payload)
    && (0 < m.headerSize ==> m.header != 0 && Inside(m.header, m.headerSize, header))
  }

  /**
   When the allocators have the memory, every stream gets at least what it asked for,
   on pages, within the memory obtained from them and apart from every other stream's.
   */
  lemma EveryStreamServed(requests: seq<seq<Sizes>>, pages: Sizes, rawHeader: nat, rawPayload: nat)
    requires 0 < pages.header && 0 < pages.payload
    requires AllNeedPayload(AlignedStreams(requests, pages))
    requires rawPayload != 0 && (0 < Total(Totals(AlignedStreams(requests, pages))).header ==> rawHeader != 0)
    ensures var receivers := AlignedStreams(requests, pages);
      && var total := Total(Totals(receivers));
      && AllocateAligned(total, pages, rawHeader, rawPayload).Some?
      && var (header, payload) := AllocateAligned(total, pages, rawHeader, rawPayload).value;
      && ApplyAll(header, payload, receivers).Some?
      && var memory := Flat(ApplyAll(header, payload, receivers).value);
      && |memory| == |Flat(requests)|
      && (forall i :: 0 <= i < |memory| ==>
            Served(memory[i], Flat(requests)[i], pages,
                   Block(rawHeader, total.header + pages.header), Block(rawPayload, total.payload + pages.payload)))
      && (forall i, j :: 0 <= i < j < |memory| ==> Apart(memory[i], memory[j]))
  {
    hide Total, Slices, AllNeedPayload, Served, Wrap, AlignPointer, AlignLength, Flat;
    var receivers := AlignedStreams(requests, pages);
    var total := Total(Totals(receivers));
    AllocatedIff(total, pages, rawHeader, rawPayload);
    var (header, payload) := AllocateAligned(total, pages, rawHeader, rawPayload).value;
    FlatTotal(receivers);
    FlatAligned(requests, pages);
    NestedIsFlat(header, payload, receivers);
    FlatServed(Flat(requests), pages, rawHeader, rawPayload, header, payload);
    SlicesApart(header, payload, Flat(receivers));
  }

  lemma FlatServed(requests: seq<Sizes>, pages: Sizes, rawHeader: nat, rawPayload: nat, header: nat, payload: nat)
    requires 0 < pages.header && 0 < pages.payload
    requires var total := Total(AlignedAll(requests, pages));
      AllocateAligned(total, pages, rawHeader, rawPayload) == Some((header, payload))
    ensures var sizes, total := AlignedAll(requests, pages), Total(AlignedAll(requests, pages));
      forall i :: 0 <= i < |requests| ==>
        Served(Slices(header, payload, sizes)[i], requests[i], pages,
               Block(rawHeader, total.header + pages.header), Block(rawPayload, total.payload + pages.payload))
  {
    hide Total, Slices, Wrap, AlignPointer, Aligned, PageSized;
    var sizes, total := AlignedAll(requests, pages), Total(AlignedAll(requests, pages));
    AlignPointerFits(rawPayload, total.payload, pages.payload);
    AlignPointerFits(rawHeader, total.header, pages.header);
    WrapSmall(0, pages.header);
    forall s | s in sizes
      ensures PageSized(s, pages)
    {
      var i :| 0 <= i < |sizes| && s == sizes[i];
      AlignedFits(requests[i], pages);
    }
    SlicesOnPages(header, payload, sizes, pages);
    SlicesApart(header, payload, sizes);
    forall i | 0 <= i < |requests|
      ensures Served(Slices(header, payload, sizes)[i], requests[i], pages,
                     Block(rawHeader, total.header + pages.header), Block(rawPayload, total.payload + pages.payload))
    {
      SliceAt(header, payload, sizes, i);
      AlignedFits(requests[i], pages);
      NoHeaderNeeded(sizes, i);
      assert Slices(header, payload, sizes)[i] in Slices(header, payload, sizes);
    }
  }

  lemma NoHeaderNeeded(sizes: seq<Sizes>, i: nat)
    requires i < |sizes|
    ensures sizes[i].header <= Total(sizes).header
  {
    TotalAround(sizes, i, |sizes|);
    assert sizes[..|sizes|] == sizes;
  }
}
