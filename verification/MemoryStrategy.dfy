/**
 The memory layout as its source has it: receivers that add up and cut their own
 memory, and an application that adds them up, allocates and advances two pointers.
 */
module MemoryStrategy {
  import opened MemoryLayout
  import opened Wrappers

  lemma TotalNext(sizes: seq<Sizes>, i: nat)
    requires i < |sizes|
    ensures Total(sizes[..i + 1]) == Plus(Total(sizes[..i]), sizes[i])
  {
    assert sizes[..i + 1] == sizes[..i] + [sizes[i]];
    TotalSplits(sizes[..i], [sizes[i]]);
  }

  class ReceiverIONode {
    const requests: seq<Sizes>
    const pages: Sizes
    var aligned: seq<Sizes>
    var headerTotal: nat
    var payloadTotal: nat
    /** The memory applied to the streams. */
    var streams: seq<Memory>

    ghost predicate Valid() {
      0 < pages.header && 0 < pages.payload
    }

    ghost predicate Initialized()
      reads this
    {
      Valid() && aligned == AlignedAll(requests, pages) && Sizes(headerTotal, payloadTotal) == Total(aligned)
    }

    /** What holds between calls: a receiver that needs payload memory is initialised. */
    ghost predicate Sound()
      reads this
    {
      Valid() && (payloadTotal > 0 ==> Initialized())
    }

    constructor (requests: seq<Sizes>, pages: Sizes)
      requires 0 < pages.header && 0 < pages.payload
      ensures Sound() && this.requests == requests && this.pages == pages
      ensures payloadTotal == 0 && streams == []
    {
      this.requests, this.pages := requests, pages;
      aligned, headerTotal, payloadTotal, streams := [], 0, 0, [];
    }

    /** Adds up the sizes of the streams, of which the first `determined` can tell theirs. */
    method InitializeMemoryLayout(determined: nat) returns (ok: bool)
      requires Valid()
      modifies this
      ensures Sound() && streams == old(streams)
      ensures ok <==> |requests| <= determined
      ensures ok ==> Initialized()
      ensures !ok ==> headerTotal == payloadTotal == 0 && aligned == AlignedAll(requests, pages)[..determined]
    {
      hide Aligned, Total;
      var header: nat, payload: nat := 0, 0;
      headerTotal, payloadTotal, aligned := 0, 0, [];
      TotalOfNone();
      for i := 0 to |requests|
        invariant aligned == AlignedAll(requests, pages)[..i] && i <= determined
        invariant Sizes(header, payload) == Total(AlignedAll(requests, pages)[..i])
        invariant streams == old(streams) && headerTotal == payloadTotal == 0
      {
        if i == determined {
          return false;
        }
        var sizes := Aligned(requests[i], pages);
        TotalNext(AlignedAll(requests, pages), i);
        aligned := aligned + [sizes];
        header, payload := header + sizes.header, payload + sizes.payload;
      }
      headerTotal, payloadTotal := header, payload;
      ok := true;
    }

    method DetermineMemoryLayout() returns (r: Option<Sizes>)
      requires Sound()
      ensures r == if payloadTotal == 0 then None else Determine(AlignedAll(requests, pages))
    {
      r := if payloadTotal > 0 then Some(Sizes(headerTotal, payloadTotal)) else None;
    }

    /**
     Cuts the provided memory to the streams, if the receiver is initialised and the
     memory is enough; the first `accepted` streams take their part.
     */
    method ApplyMemoryLayout(m: Memory, accepted: nat) returns (ok: bool)
      requires Sound()
      modifies this`streams
      ensures Sound() && (old(Initialized()) ==> Initialized())
      ensures match if payloadTotal == 0 then None else Apply(m, AlignedAll(requests, pages))
              case None => !ok && streams == old(streams)
              case Some(memory) =>
                if |memory| <= accepted then ok && streams == memory else !ok && streams == memory[..accepted]
    {
      hide Total;
      if payloadTotal == 0 {
        return false;
      }
      if (headerTotal > 0 && m.header == 0) || m.payload == 0 {
        return false;
      }
      if m.payloadSize < payloadTotal || m.headerSize < headerTotal {
        return false;
      }
      var headerOffset: nat, payloadOffset: nat := 0, 0;
      streams := [];
      TotalOfNone();
      for i := 0 to |aligned|
        invariant Initialized() && |streams| == i <= accepted
        invariant Sizes(headerOffset, payloadOffset) == Total(aligned[..i])
        invariant streams == Slices(m.header, m.payload, aligned)[..i]
      {
        var header := if m.header != 0 then m.header + headerOffset else 0;
        SliceAt(m.header, m.payload, aligned, i);
        TotalNext(aligned, i);
        var part := Memory(header, aligned[i].header, m.payload + payloadOffset, aligned[i].payload);
        headerOffset, payloadOffset := headerOffset + aligned[i].header, payloadOffset + aligned[i].payload;
        if i == accepted {
          return false;
        }
        streams := streams + [part];
      }
      ok := true;
    }
  }

  /** What was applied so far, before what is still to be applied. */
  function After(done: seq<seq<Memory>>, rest: Option<seq<seq<Memory>>>): Option<seq<seq<Memory>>> {
    if rest.None? then None else Some(done + rest.value)
  }

  lemma AfterNothing(rest: Option<seq<seq<Memory>>>)
    ensures After([], rest) == rest
  {
    if rest.Some? {
      assert [] + rest.value == rest.value;
    }
  }

  lemma AfterLast(done: seq<seq<Memory>>, header: nat, payload: nat)
    ensures After(done, ApplyAll(header, payload, [])) == Some(done)
  {
    assert done + [] == done;
  }

  lemma AfterStep(done: seq<seq<Memory>>, header: nat, payload: nat, receivers: seq<seq<Sizes>>)
    requires receivers != []
    ensures var total := Total(receivers[0]);
      After(done, ApplyAll(header, payload, receivers))
      == match Apply(Memory(header, total.header, payload, total.payload), receivers[0])
         case None => None
         case Some(memory) =>
           After(done + [memory], ApplyAll(Past(header, total.header), payload + total.payload, receivers[1..]))
  {
    hide Total, Apply;
    var total := Total(receivers[0]);
    var memory := Apply(Memory(header, total.header, payload, total.payload), receivers[0]);
    var rest := ApplyAll(Past(header, total.header), payload + total.payload, receivers[1..]);
    if memory.Some? && rest.Some? {
      assert done + ([memory.value] + rest.value) == (done + [memory.value]) + rest.value;
    }
  }

  lemma OneNeedsNone(receivers: seq<seq<Sizes>>, i: nat)
    requires i < |receivers| && Total(receivers[i]).payload == 0
    ensures !AllNeedPayload(receivers)
  {
    hide Total;
    assert receivers[i] in receivers;
  }

  lemma AllNeed(receivers: seq<seq<Sizes>>)
    requires forall k :: 0 <= k < |receivers| ==> Total(receivers[k]).payload > 0
    ensures AllNeedPayload(receivers)
  {
    hide Total;
  }

  /** A receiver refuses a null payload pointer, whatever the sizes. */
  lemma NullIsRefused(sizes: seq<Sizes>, size: Sizes)
    ensures Apply(Memory(0, 0, 0, 0), sizes) == None
    ensures Apply(Memory(0, size.header, 0, size.payload), sizes) == None
  {
    hide Total;
  }

  lemma OnePartEach(m: Memory, sizes: seq<Sizes>)
    ensures Apply(m, sizes).Some? ==> |Apply(m, sizes).value| == |sizes|
  {
  }

  class RmaxBaseMemoryStrategy {
    const receivers: seq<ReceiverIONode>
    const pages: Sizes
    /** Whether the application allocates the memory, or leaves it to the device library. */
    const appAllocates: bool
    var layoutDetermined: bool
    var memoryAllocated: bool
    var sizes: seq<Sizes>
    var headerSize: nat
    var payloadSize: nat
    var headerBuffer: nat
    var payloadBuffer: nat

    /** The aligned stream sizes of the receivers. */
    ghost function Streams(): (r: seq<seq<Sizes>>)
      requires Valid()
      ensures |r| == |receivers|
      ensures forall i :: 0 <= i < |r| ==> r[i] == AlignedAll(receivers[i].requests, receivers[i].pages)
    {
      seq(|receivers|, i requires 0 <= i < |receivers| => AlignedAll(receivers[i].requests, receivers[i].pages))
    }

    ghost predicate Valid() {
      && 0 < pages.header && 0 < pages.payload
      && (forall i :: 0 <= i < |receivers| ==> receivers[i].Valid())
      && (forall i, j :: 0 <= i < j < |receivers| ==> receivers[i] != receivers[j])
    }

    ghost predicate Determined()
      reads this, receivers
    {
      && Valid()
      && (forall i :: 0 <= i < |receivers| ==> receivers[i].Initialized())
      && sizes == Totals(Streams()) && Sizes(headerSize, payloadSize) == Total(sizes)
    }

    /** What holds between calls. */
    ghost predicate Sound()
      reads this, receivers
    {
      && Valid()
      && (forall i :: 0 <= i < |receivers| ==> receivers[i].Sound())
      && (layoutDetermined ==> Determined() && AllNeedPayload(Streams()))
      && (memoryAllocated ==> layoutDetermined)
    }

    constructor (receivers: seq<ReceiverIONode>, pages: Sizes, appAllocates: bool)
      requires 0 < pages.header && 0 < pages.payload
      requires forall i :: 0 <= i < |receivers| ==> receivers[i].Sound()
      requires forall i, j :: 0 <= i < j < |receivers| ==> receivers[i] != receivers[j]
      ensures Sound() && !layoutDetermined && !memoryAllocated
      ensures this.receivers == receivers && this.pages == pages && this.appAllocates == appAllocates
    {
      this.receivers, this.pages, this.appAllocates := receivers, pages, appAllocates;
      layoutDetermined, memoryAllocated, sizes := false, false, [];
      headerSize, payloadSize, headerBuffer, payloadBuffer := 0, 0, 0, 0;
    }

    /** Every stream of every receiver can tell its size. */
    ghost predicate AllDetermined(determined: seq<nat>)
      requires |determined| == |receivers|
    {
      forall i :: 0 <= i < |receivers| ==> |receivers[i].requests| <= determined[i]
    }

    /** Initialises the receivers up to the first that fails. */
    method InitializeReceivers(determined: seq<nat>) returns (ok: bool)
      requires Valid() && |determined| == |receivers|
      requires forall i :: 0 <= i < |receivers| ==> receivers[i].Sound()
      modifies receivers
      ensures ok <==> AllDetermined(determined)
      ensures forall i :: 0 <= i < |receivers| ==> receivers[i].Sound()
      ensures ok ==> forall i :: 0 <= i < |receivers| ==> receivers[i].Initialized()
    {
      for i := 0 to |receivers|
        invariant forall k :: 0 <= k < |receivers| ==> receivers[k].Sound()
        invariant forall k :: 0 <= k < i ==> receivers[k].Initialized() && |receivers[k].requests| <= determined[k]
      {
        var initialized := receivers[i].InitializeMemoryLayout(determined[i]);
        if !initialized {
          return false;
        }
      }
      ok := true;
    }

    /** Asks every receiver for its size and adds them up; fails exactly when one of them needs no payload memory. */
    method AddSizes() returns (ok: bool)
      requires Valid()
      requires forall i :: 0 <= i < |receivers| ==> receivers[i].Sound() && receivers[i].Initialized()
      modifies this`sizes, this`headerSize, this`payloadSize
      ensures ok <==> AllNeedPayload(Streams())
      ensures ok ==> Determined()
    {
      hide Total, AllNeedPayload;
      headerSize, payloadSize, sizes := 0, 0, [];
      TotalOfNone();
      for i := 0 to |receivers|
        invariant sizes == Totals(Streams())[..i]
        invariant Sizes(headerSize, payloadSize) == Total(Totals(Streams())[..i])
        invariant forall k :: 0 <= k < i ==> Total(Streams()[k]).payload > 0
      {
        var size := receivers[i].DetermineMemoryLayout();
        if size.None? {
          OneNeedsNone(Streams(), i);
          return false;
        }
        TotalNext(Totals(Streams()), i);
        headerSize, payloadSize := headerSize + size.value.header, payloadSize + size.value.payload;
        sizes := sizes + [size.value];
      }
      AllNeed(Streams());
      return true;
    }

    /** Determines the layout, once; the first `determined[i]` streams of receiver `i` can tell their sizes. */
    method DetermineMemoryLayout(determined: seq<nat>) returns (ok: bool)
      requires Sound() && |determined| == |receivers|
      modifies this, receivers
      ensures Sound() && layoutDetermined == ok && memoryAllocated == old(memoryAllocated)
      ensures ok <==> old(layoutDetermined) || (AllDetermined(determined) && AllNeedPayload(Streams()))
      ensures ok ==> Determined() && AllNeedPayload(Streams())
      ensures old(layoutDetermined) ==> unchanged(this) && forall r :: r in receivers ==> unchanged(r)
    {
      hide Total, AllNeedPayload;
      if layoutDetermined {
        return true;
      }
      headerSize, payloadSize, sizes := 0, 0, [];
      ok := InitializeReceivers(determined);
      if ok {
        ok := AddSizes();
      }
      layoutDetermined := ok;
    }

    /** Allocates the two blocks, once, where the allocators answer `rawHeader` and `rawPayload`. */
    method AllocateMemory(rawHeader: nat, rawPayload: nat) returns (ok: bool)
      requires Sound()
      modifies this`headerBuffer, this`payloadBuffer, this`memoryAllocated
      ensures Sound()
      ensures ok <==> !appAllocates || old(memoryAllocated)
                      || (layoutDetermined && payloadSize > 0
                          && AllocateAligned(Total(sizes), pages, rawHeader, rawPayload).Some?)
      ensures memoryAllocated == (old(memoryAllocated) || (appAllocates && ok))
      ensures memoryAllocated && !old(memoryAllocated) ==>
                AllocateAligned(Total(sizes), pages, rawHeader, rawPayload) == Some((headerBuffer, payloadBuffer))
      ensures old(memoryAllocated) || !appAllocates ==> unchanged(this)
    {
      hide AlignPointer, Total, AllNeedPayload;
      if !appAllocates || memoryAllocated {
        return true;
      }
      if !layoutDetermined || payloadSize == 0 {
        return false;
      }
      headerBuffer := if headerSize > 0 then AlignPointer(rawHeader, pages.header) else 0;
      payloadBuffer := AlignPointer(rawPayload, pages.payload);
      ok := payloadBuffer != 0 && (headerSize == 0 || headerBuffer != 0);
      memoryAllocated := ok;
    }

    /** The memory that is handed out: none unless the application allocates it. */
    ghost function Applied(): Option<seq<seq<Memory>>>
      requires Valid()
      reads this
    {
      if appAllocates then ApplyAll(headerBuffer, payloadBuffer, Streams()) else ApplyAll(0, 0, Streams())
    }

    /** Hands one receiver its part, or nothing if the application has no memory to hand out. */
    method HandOver(i: nat, header: nat, payload: nat, accepted: nat) returns (ok: bool)
      requires Sound() && layoutDetermined && i < |receivers|
      modifies receivers[i]
      ensures Sound()
      ensures match if appAllocates then Apply(Memory(header, sizes[i].header, payload, sizes[i].payload), Streams()[i])
                    else None
              case None => !ok
              case Some(memory) =>
                && (ok <==> |receivers[i].requests| <= accepted)
                && (ok ==> receivers[i].streams == memory)
    {
      hide Total, Apply, AllNeedPayload;
      NeedsPayload(i);
      if appAllocates {
        var m := Memory(header, sizes[i].header, payload, sizes[i].payload);
        OnePartEach(m, Streams()[i]);
        ok := receivers[i].ApplyMemoryLayout(m, accepted);
      } else {
        NullIsRefused(Streams()[i], sizes[i]);
        ok := receivers[i].ApplyMemoryLayout(Memory(0, 0, 0, 0), accepted);
      }
    }

    lemma NeedsPayload(i: nat)
      requires Sound() && layoutDetermined && i < |receivers|
      ensures receivers[i].payloadTotal > 0
    {
      hide Total;
      assert Streams()[i] in Streams();
    }

    /** Every stream of every receiver takes its part. */
    ghost predicate AllAccepted(accepted: seq<nat>)
      requires |accepted| == |receivers|
    {
      forall i :: 0 <= i < |receivers| ==> |receivers[i].requests| <= accepted[i]
    }

    /**
     Hands every receiver its part, advancing two pointers; the first `accepted[i]`
     streams of receiver `i` take theirs.
     */
    method ApplyMemoryLayout(accepted: seq<nat>) returns (ok: bool)
      requires Sound() && layoutDetermined && |accepted| == |receivers|
      modifies set r | r in receivers
      ensures Sound()
      ensures ok <==> Applied().Some? && AllAccepted(accepted)
      ensures ok ==> |Applied().value| == |receivers|
      ensures ok ==> forall i :: 0 <= i < |receivers| ==> receivers[i].streams == Applied().value[i]
    {
      hide Total, Apply, AllNeedPayload, AlignedAll, Totals, ApplyAll, After;
      ghost var done: seq<seq<Memory>> := [];
      var header: nat, payload: nat := headerBuffer, payloadBuffer;
      if !appAllocates {
        header, payload := 0, 0;
      }
      assert Streams()[0..] == Streams();
      AfterNothing(ApplyAll(header, payload, Streams()));
      for i := 0 to |receivers|
        invariant Sound() && layoutDetermined && |done| == i
        invariant forall k :: 0 <= k < i ==> receivers[k].streams == done[k]
        invariant forall k :: 0 <= k < i ==> |receivers[k].requests| <= accepted[k]
        invariant After(done, ApplyAll(header, payload, Streams()[i..])) == Applied()
        invariant !appAllocates ==> i == 0 && header == payload == 0
      {
        assert Streams()[i..][1..] == Streams()[i + 1..];
        AfterStep(done, header, payload, Streams()[i..]);
        NullIsRefused(Streams()[i], sizes[i]);
        var applied := HandOver(i, header, payload, accepted[i]);
        if !applied {
          return false;
        }
        done := done + [receivers[i].streams];
        header := if header != 0 then header + sizes[i].header else 0;
        payload := payload + sizes[i].payload;
      }
      assert Streams()[|receivers|..] == [];
      AfterLast(done, header, payload);
      ok := true;
    }
  }
}
