/**
 The pool of media frames: a queue of the free frames' indices, and frames cut
 from one block of memory.
 */
module FramePool {
  import opened MemoryLayout
  import opened Wrappers

  // ---- the queue and who holds what ------------------------------------------------------------

  /** `get_frame`, and `get_frame_blocking` once it need not wait: the index at the front of the queue. */
  function Take(free: seq<nat>, stopped: bool): Option<nat> {
    if free == [] || stopped then None else Some(free[0])
  }

  /** `return_frame_to_pool`. */
  function GiveBack(free: seq<nat>, stopped: bool, index: nat): seq<nat> {
    if stopped then free else free + [index]
  }

  /**
   The pool and its users: `free` is the pool's queue, `held` the indices of the
   frames handed out and not yet released; the other lists are records of the
   frames released after the stop, taken and given back.
   */
  datatype Pool = Pool(
    free: seq<nat>,
    stopped: bool,
    held: seq<nat>,
    dropped: seq<nat>,
    taken: seq<nat>,
    given: seq<nat>)

  /** A user takes a frame, the one that holds `held[handle]` releases it, or the pool is stopped. */
  datatype Op = Get | Release(handle: nat) | Stop

  function DoOp(p: Pool, op: Op): Pool {
    match op
    case Get =>
      (match Take(p.free, p.stopped)
       case None => p
       case Some(index) => p.(free := p.free[1..], held := p.held + [index], taken := p.taken + [index]))
    case Release(handle) =>
      if handle >= |p.held| then p
      else
        var index := p.held[handle];
        p.(free := GiveBack(p.free, p.stopped, index),
           held := p.held[..handle] + p.held[handle + 1..],
           dropped := if p.stopped then p.dropped + [index] else p.dropped,
           given := if p.stopped then p.given else p.given + [index])
    case Stop => p.(stopped := true)
  }

  function DoOps(p: Pool, ops: seq<Op>): Pool
    decreases |ops|
  {
    if ops == [] then p else DoOps(DoOp(p, ops[0]), ops[1..])
  }

  /** The indices as the constructors push them. */
  function Indices(count: nat): (r: seq<nat>)
    ensures |r| == count && forall i :: 0 <= i < count ==> r[i] == i
  {
    seq(count, i requires 0 <= i < count => i)
  }

  function NewPool(count: nat): Pool {
    Pool(Indices(count), false, [], [], [], [])
  }

  function Places(p: Pool): multiset<nat> {
    multiset(p.free) + multiset(p.held) + multiset(p.dropped)
  }

  /** Every frame is in one place, none is dropped before the stop, and the queue is first in, first out. */
  ghost predicate Sound(p: Pool, count: nat) {
    && Places(p) == multiset(Indices(count))
    && (!p.stopped ==> p.dropped == [])
    && p.taken + p.free == Indices(count) + p.given
  }

  lemma MultisetFirst(s: seq<nat>)
    requires s != []
    ensures multiset(s) == multiset{s[0]} + multiset(s[1..])
  {
    assert s == [s[0]] + s[1..];
  }

  lemma MultisetWithout(s: seq<nat>, k: nat)
    requires k < |s|
    ensures multiset(s) == multiset(s[..k] + s[k + 1..]) + multiset{s[k]}
  {
    assert s == s[..k] + [s[k]] + s[k + 1..];
  }

  lemma OpKeepsSound(p: Pool, op: Op, count: nat)
    requires Sound(p, count)
    ensures Sound(DoOp(p, op), count)
  {
    match op
    case Get =>
      if p.free != [] && !p.stopped {
        TakeKeepsSound(p, count);
      }
    case Release(handle) =>
      if handle < |p.held| {
        ReleaseKeepsPlaces(p, handle);
        if !p.stopped {
          assert p.taken + (p.free + [p.held[handle]]) == (p.taken + p.free) + [p.held[handle]];
          assert Indices(count) + (p.given + [p.held[handle]]) == (Indices(count) + p.given) + [p.held[handle]];
        }
      }
    case Stop =>
  }

  lemma TakeKeepsSound(p: Pool, count: nat)
    requires Sound(p, count) && p.free != [] && !p.stopped
    ensures Sound(DoOp(p, Get), count)
  {
    hide Indices;
    MultisetFirst(p.free);
    assert p.free == [p.free[0]] + p.free[1..];
    assert (p.taken + [p.free[0]]) + p.free[1..] == p.taken + p.free;
  }

  lemma ReleaseKeepsPlaces(p: Pool, handle: nat)
    requires handle < |p.held|
    ensures Places(DoOp(p, Release(handle))) == Places(p)
  {
    MultisetWithout(p.held, handle);
  }

  lemma {:induction false} OpsKeepSound(p: Pool, ops: seq<Op>, count: nat)
    requires Sound(p, count)
    ensures Sound(DoOps(p, ops), count)
    decreases |ops|
  {
    hide DoOp, Sound;
    if ops != [] {
      OpKeepsSound(p, ops[0], count);
      OpsKeepSound(DoOp(p, ops[0]), ops[1..], count);
    }
  }

  lemma {:induction false} EachOnce(count: nat, i: nat)
    ensures multiset(Indices(count))[i] == if i < count then 1 else 0
    decreases count
  {
    if count > 0 {
      EachOnce(count - 1, i);
      assert Indices(count) == Indices(count - 1) + [count - 1];
    } else {
      assert Indices(count) == [];
    }
  }

  /**
   Whatever the order of gets, releases and the stop, every frame of the pool is
   in exactly one place: free, or held by one user, or dropped after the stop.
   */
  lemma EveryFrameInOnePlace(count: nat, ops: seq<Op>, i: nat)
    ensures var p := DoOps(NewPool(count), ops);
      && multiset(p.free)[i] + multiset(p.held)[i] + multiset(p.dropped)[i] == (if i < count then 1 else 0)
      && (!p.stopped ==> p.dropped == [])
  {
    hide DoOps;
    assert Sound(NewPool(count), count);
    OpsKeepSound(NewPool(count), ops, count);
    EachOnce(count, i);
  }

  /** Frames are handed out in the order in which they were made and then given back. */
  lemma FirstGivenFirstTaken(count: nat, ops: seq<Op>)
    ensures var p := DoOps(NewPool(count), ops);
      && |p.taken| <= count + |p.given|
      && (forall k :: 0 <= k < |p.taken| ==> p.taken[k] == if k < count then k else p.given[k - count])
  {
    hide DoOps;
    assert Sound(NewPool(count), count);
    OpsKeepSound(NewPool(count), ops, count);
    var p := DoOps(NewPool(count), ops);
    forall k | 0 <= k < |p.taken|
      ensures p.taken[k] == if k < count then k else p.given[k - count]
    {
      assert (p.taken + p.free)[k] == (Indices(count) + p.given)[k];
    }
  }

  /** Stopping is final, and only a stop stops. */
  lemma {:induction false} StoppedIff(p: Pool, ops: seq<Op>)
    ensures DoOps(p, ops).stopped <==> p.stopped || Stop in ops
    decreases |ops|
  {
    if ops != [] {
      StoppedIff(DoOp(p, ops[0]), ops[1..]);
      assert ops == [ops[0]] + ops[1..];
    }
  }

  /**
   Progress: whatever happened before, a get hands out a frame if and only if the
   pool was not stopped and some frame is not held; it is one that nobody holds,
   and otherwise nothing changes.
   */
  lemma GetSucceedsIff(count: nat, ops: seq<Op>)
    ensures var p := DoOps(NewPool(count), ops);
      var r := DoOp(p, Get);
      && |p.held| <= count
      && (|r.held| == |p.held| + 1 <==> Stop !in ops && |p.held| < count)
      && (|r.held| == |p.held| + 1 ==>
            r.held[..|p.held|] == p.held && r.held[|p.held|] < count && r.held[|p.held|] !in p.held)
      && (|r.held| != |p.held| + 1 ==> r == p)
  {
    hide DoOps;
    var p := DoOps(NewPool(count), ops);
    assert Sound(NewPool(count), count);
    OpsKeepSound(NewPool(count), ops, count);
    StoppedIff(NewPool(count), ops);
    assert |Places(p)| == |multiset(Indices(count))|;
    if p.free != [] {
      EveryFrameInOnePlace(count, ops, p.free[0]);
    }
  }

  lemma TwiceInSequence(s: seq<nat>, a: nat, b: nat)
    requires a < b < |s| && s[a] == s[b]
    ensures multiset(s)[s[a]] >= 2
  {
    MultisetWithout(s, b);
    assert (s[..b] + s[b + 1..])[a] == s[a];
    assert s[a] in s[..b] + s[b + 1..];
  }

  // ---- the frames' memory ----------------------------------------------------------------------

  function FrameAt(block: nat, size: nat, i: nat): (r: Block)
    ensures r.start >= block
  {
    Offset(i, size);
    Block(block + i * size, size)
  }

  lemma Offset(i: nat, size: nat)
    ensures 0 <= i * size
  {
  }

  lemma FramesApart(block: nat, size: nat, i: nat, j: nat)
    requires i < j
    ensures FrameAt(block, size, i).start + size <= FrameAt(block, size, j).start
  {
    Offset(j - i - 1, size);
    assert j * size == i * size + size + (j - i - 1) * size;
  }

  /** The constructor over given memory; it throws without memory or with too little. */
  function Frames(block: nat, memorySize: nat, count: nat, size: nat): Option<seq<Block>> {
    if block == 0 || memorySize < count * size then None
    else Some(seq(count, i requires 0 <= i < count => FrameAt(block, size, i)))
  }

  /** The constructor that allocates: `raw` is the allocator's answer for one page more than the aligned size. */
  function OwnFrames(raw: nat, page: nat, count: nat, size: nat): Option<seq<Block>>
    requires 0 < page
  {
    Offset(count, size);
    Frames(AlignPointer(raw, page), AlignLength(count * size, page), count, size)
  }

  /** Memory is refused exactly when there is none, or when some frame would reach past its end. */
  lemma FramesRefusedIff(block: nat, memorySize: nat, count: nat, size: nat)
    ensures Frames(block, memorySize, count, size).None? <==>
            block == 0
            || exists i :: 0 <= i < count
                 && !Inside(FrameAt(block, size, i).start, FrameAt(block, size, i).size, Block(block, memorySize))
  {
    if block != 0 && memorySize < count * size {
      assert 0 < count;
      Offset(count - 1, size);
      assert count * size == (count - 1) * size + size;
      assert !Inside(FrameAt(block, size, count - 1).start, FrameAt(block, size, count - 1).size,
                     Block(block, memorySize));
    } else if block != 0 {
      forall i | 0 <= i < count
        ensures Inside(FrameAt(block, size, i).start, FrameAt(block, size, i).size, Block(block, memorySize))
      {
        FramesInside(block, memorySize, count, size, i);
      }
    }
  }

  lemma FramesInside(block: nat, memorySize: nat, count: nat, size: nat, i: nat)
    requires i < count && Frames(block, memorySize, count, size).Some?
    ensures var f := Frames(block, memorySize, count, size).value[i];
      f.size == size && Inside(f.start, f.size, Block(block, memorySize))
  {
    Offset(count - 1 - i, size);
    assert count * size == i * size + size + (count - 1 - i) * size;
  }

  /** The allocating constructor throws only if there is no memory, and its frames lie in what was allocated. */
  lemma OwnFramesInside(raw: nat, page: nat, count: nat, size: nat)
    requires 0 < page
    ensures var frames, memory := OwnFrames(raw, page, count, size), AlignLength(count * size, page);
      && (frames.None? <==> raw == 0)
      && (frames.Some? ==> |frames.value| == count && forall i :: 0 <= i < count ==>
            frames.value[i].size == size && Inside(frames.value[i].start, size, Block(raw, memory + page)))
  {
    hide AlignPointer, AlignLength;
    Offset(count, size);
    AlignLengthIsLeast(count * size, page);
    var memory := AlignLength(count * size, page);
    AlignPointerFits(raw, memory, page);
    if raw != 0 {
      forall i | 0 <= i < count
        ensures var f := OwnFrames(raw, page, count, size).value[i];
          f.size == size && Inside(f.start, size, Block(raw, memory + page))
      {
        FramesInside(AlignPointer(raw, page), memory, count, size, i);
      }
    }
  }

  /** Two users never hold overlapping memory. */
  lemma UsersHoldDisjointMemory(count: nat, ops: seq<Op>, block: nat, size: nat, a: nat, b: nat)
    requires a < b < |DoOps(NewPool(count), ops).held|
    ensures var held := DoOps(NewPool(count), ops).held;
      && held[a] < count && held[b] < count
      && var (f, g) := (FrameAt(block, size, held[a]), FrameAt(block, size, held[b]));
      f.start + size <= g.start || g.start + size <= f.start
  {
    hide DoOps, FrameAt;
    var held := DoOps(NewPool(count), ops).held;
    EveryFrameInOnePlace(count, ops, held[a]);
    EveryFrameInOnePlace(count, ops, held[b]);
    assert held[a] in held && held[b] in held;
    if held[a] == held[b] {
      TwiceInSequence(held, a, b);
    } else if held[a] < held[b] {
      FramesApart(block, size, held[a], held[b]);
    } else {
      FramesApart(block, size, held[b], held[a]);
    }
  }

  // ---- the object --------------------------------------------------------------------------------

  class MediaFramePool {
    const frames: seq<Block>
    var available: seq<nat>
    var stop: bool

    ghost predicate Valid()
      reads this
    {
      forall k :: 0 <= k < |available| ==> available[k] < |frames|
    }

    constructor (frames: seq<Block>)
      ensures Valid() && this.frames == frames && !stop && available == NewPool(|frames|).free
    {
      this.frames := frames;
      stop, available := false, [];
      new;
      for i := 0 to |frames|
        invariant this.frames == frames && !stop && available == Indices(i)
      {
        available := available + [i];
      }
    }

    method GetFrame() returns (index: Option<nat>)
      requires Valid()
      modifies this`available
      ensures Valid() && index == Take(old(available), stop)
      ensures available == if index.Some? then old(available)[1..] else old(available)
      ensures index.Some? ==> index.value < |frames|
    {
      if available == [] || stop {
        return None;
      }
      index := Some(available[0]);
      available := available[1..];
    }

    method ReturnFrameToPool(index: nat)
      requires Valid() && index < |frames|
      modifies this`available
      ensures Valid() && available == GiveBack(old(available), stop, index)
    {
      if stop {
        return;
      }
      available := available + [index];
    }

    method StopPool()
      requires Valid()
      modifies this`stop
      ensures Valid() && stop
    {
      stop := true;
    }
  }
}
