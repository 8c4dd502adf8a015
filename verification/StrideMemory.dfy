/**
 Memory cut into strides of one size, with a piece of data laid at the start of
 each, as both header builders write it.
 */
module StrideMemory {
  import opened RtpHeader

  /** `n` pieces of `size` bytes, added up. */
  function Total(n: nat, size: nat): nat {
    if n == 0 then 0 else size + Total(n - 1, size)
  }

  lemma {:induction false} TotalIsProduct(n: nat, size: nat)
    ensures Total(n, size) == n * size
  {
    if n > 0 {
      TotalIsProduct(n - 1, size);
      assert n * size == size + (n - 1) * size;
    }
  }

  lemma TotalStep(n: nat, size: nat)
    requires 0 < n
    ensures Total(n, size) == size + Total(n - 1, size)
  {
  }

  lemma TotalMonotone(m: nat, n: nat, size: nat)
    requires m <= n
    ensures Total(m, size) <= Total(n, size)
  {
  }

  /** Memory with `data` laid over it from `at` on. */
  function Overlay(memory: seq<Byte>, at: nat, data: seq<Byte>): (r: seq<Byte>)
    requires at + |data| <= |memory|
    ensures |r| == |memory|
  {
    memory[..at] + data + memory[at + |data|..]
  }

  lemma OverlayHolds(memory: seq<Byte>, at: nat, bytes: seq<Byte>)
    requires at + |bytes| <= |memory|
    ensures Overlay(memory, at, bytes)[at..at + |bytes|] == bytes
    ensures Overlay(memory, at, bytes)[..at] == memory[..at]
  {
  }

  lemma OverlayNothing(memory: seq<Byte>, at: nat)
    requires at <= |memory|
    ensures Overlay(memory, at, []) == memory
  {
  }

  lemma OverlayTwice(memory: seq<Byte>, at: nat, a: seq<Byte>, b: seq<Byte>)
    requires at + |a| + |b| <= |memory|
    ensures Overlay(Overlay(memory, at, a), at + |a|, b) == Overlay(memory, at, a + b)
  {
  }

  /** Equal prefixes have equal slices. */
  lemma SameSlice(a: seq<Byte>, b: seq<Byte>, end: nat, from: nat, to: nat)
    requires from <= to <= end <= |a| && end <= |b| && a[..end] == b[..end]
    ensures a[from..to] == b[from..to]
  {
    assert a[from..to] == a[..end][from..to];
    assert b[from..to] == b[..end][from..to];
  }

  /** The pieces fit their strides, and the strides the memory. */
  predicate Fit(memory: seq<Byte>, at: nat, stride: nat, pieces: seq<seq<Byte>>) {
    at + Total(|pieces|, stride) <= |memory| && forall p :: p in pieces ==> |p| <= stride
  }

  /** Memory after the pieces are laid into it, one in each stride from `at` on. */
  function Lay(memory: seq<Byte>, at: nat, stride: nat, pieces: seq<seq<Byte>>): (r: seq<Byte>)
    requires Fit(memory, at, stride, pieces)
    ensures |r| == |memory|
    decreases |pieces|
  {
    if pieces == [] then memory
    else
      assert pieces[0] in pieces;
      Lay(Overlay(memory, at, pieces[0]), at + stride, stride, pieces[1..])
  }

  /** Laying pieces further on leaves everything before them alone. */
  lemma {:induction false} LayKeepsBefore(memory: seq<Byte>, at: nat, stride: nat, pieces: seq<seq<Byte>>)
    requires Fit(memory, at, stride, pieces)
    ensures Lay(memory, at, stride, pieces)[..at] == memory[..at]
    decreases |pieces|
  {
    hide Overlay;
    if pieces != [] {
      assert pieces[0] in pieces;
      var over := Overlay(memory, at, pieces[0]);
      LayKeepsBefore(over, at + stride, stride, pieces[1..]);
      OverlayHolds(memory, at, pieces[0]);
      SameSlice(Lay(memory, at, stride, pieces), over, at + stride, 0, at);
      assert over[0..at] == over[..at];
    }
  }

  predicate Holds(memory: seq<Byte>, at: nat, piece: seq<Byte>) {
    at + |piece| <= |memory| && memory[at..at + |piece|] == piece
  }

  /** Memory from `at` on has a header that every reader reads as `h`. */
  ghost predicate CarriesHeader(image: seq<Byte>, at: nat, h: Header) {
    at + HEADER_SIZE <= |image| && ReadHeader(image[at..at + HEADER_SIZE]) == h && ReceivedAs(image[at..], h)
  }

  /** The bytes of either builder's header, wherever they are, are read as that header. */
  lemma BytesCarry(b: Builder, h: Header, image: seq<Byte>, at: nat)
    requires at + HEADER_SIZE <= |image| && image[at..at + HEADER_SIZE] == HeaderBytes(b, h) && Fits(h)
    ensures CarriesHeader(image, at, h)
    ensures PayloadTypeOf(image[at..]) == PayloadTypeOf(HeaderBytes(b, h))
    ensures SourceOf(image[at..]) == SourceOf(HeaderBytes(b, h))
  {
    hide HeaderBytes, ReadHeader, ReceivedAs, Fits;
    var payload := image[at + HEADER_SIZE..];
    assert image[at..] == HeaderBytes(b, h) + payload;
    BuildersAgree(h, b, payload);
  }

  /** Every piece can be found in the memory, whole, at the start of its stride. */
  lemma {:induction false} LayHolds(memory: seq<Byte>, at: nat, stride: nat, pieces: seq<seq<Byte>>, k: nat)
    requires Fit(memory, at, stride, pieces) && k < |pieces|
    ensures Holds(Lay(memory, at, stride, pieces), at + Total(k, stride), pieces[k])
    decreases |pieces|
  {
    hide Overlay, Lay, Holds, Fit;
    LayRest(memory, at, stride, pieces);
    if k == 0 {
      LayHoldsFirst(memory, at, stride, pieces);
    } else {
      LayHolds(Overlay(memory, at, pieces[0]), at + stride, stride, pieces[1..], k - 1);
      TotalStep(k, stride);
    }
  }

  /** What is left to lay after the first piece. */
  lemma LayRest(memory: seq<Byte>, at: nat, stride: nat, pieces: seq<seq<Byte>>)
    requires Fit(memory, at, stride, pieces) && pieces != []
    ensures at + |pieces[0]| <= |memory|
    ensures var over := Overlay(memory, at, pieces[0]);
      && Fit(over, at + stride, stride, pieces[1..])
      && Lay(memory, at, stride, pieces) == Lay(over, at + stride, stride, pieces[1..])
  {
    hide Overlay;
    assert pieces[0] in pieces;
  }

  lemma LayHoldsFirst(memory: seq<Byte>, at: nat, stride: nat, pieces: seq<seq<Byte>>)
    requires Fit(memory, at, stride, pieces) && pieces != []
    ensures Holds(Lay(memory, at, stride, pieces), at, pieces[0])
  {
    hide Overlay, Lay;
    LayRest(memory, at, stride, pieces);
    assert pieces[0] in pieces;
    var over := Overlay(memory, at, pieces[0]);
    LayKeepsBefore(over, at + stride, stride, pieces[1..]);
    OverlayHolds(memory, at, pieces[0]);
    SameSlice(Lay(memory, at, stride, pieces), over, at + stride, at, at + |pieces[0]|);
  }

  /** Laying the rest of the pieces into the memory completes the image. */
  predicate Continues(memory: seq<Byte>, at: nat, stride: nat, rest: seq<seq<Byte>>, image: seq<Byte>) {
    Fit(memory, at, stride, rest) && Lay(memory, at, stride, rest) == image
  }

  lemma ContinuesStep(memory: seq<Byte>, at: nat, stride: nat, p: seq<Byte>, rest: seq<seq<Byte>>, image: seq<Byte>)
    requires Continues(memory, at, stride, [p] + rest, image)
    ensures |p| <= stride && at + stride <= |memory|
    ensures Continues(Overlay(memory, at, p), at + stride, stride, rest, image)
  {
    assert p in [p] + rest && ([p] + rest)[1..] == rest;
    assert forall q :: q in rest ==> q in [p] + rest;
  }

  lemma ContinuesEnds(memory: seq<Byte>, at: nat, stride: nat, image: seq<Byte>)
    ensures Continues(memory, at, stride, [], image) ==> memory == image
  {
  }

  /** One more byte laid over the memory. */
  lemma OverlayNext(memory: seq<Byte>, at: nat, data: seq<Byte>, i: nat)
    requires at + |data| <= |memory| && i < |data|
    ensures Overlay(memory, at, data[..i + 1]) == Overlay(memory, at, data[..i])[at + i := data[i]]
  {
  }

  /** Copies `data` into memory. */
  method CopyInto(memory: array<Byte>, at: nat, data: seq<Byte>)
    requires at + |data| <= memory.Length
    modifies memory
    ensures memory[..] == Overlay(old(memory[..]), at, data)
  {
    hide Overlay;
    assert Overlay(memory[..], at, data[..0]) == memory[..] by {
      OverlayNothing(memory[..], at);
      assert data[..0] == [];
    }
    var i := 0;
    while i < |data|
      invariant i <= |data|
      invariant memory[..] == Overlay(old(memory[..]), at, data[..i])
    {
      OverlayNext(old(memory[..]), at, data, i);
      memory[at + i] := data[i];
      i := i + 1;
    }
    assert data[..i] == data;
  }
}
