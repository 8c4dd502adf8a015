/**
 The frame providers: a bounded queue between a producer and a sender, and a file
 whose frames are handed out once or over and over.  `FrameWaiting` has the consumers
 that wait for the queue.
 */
module FrameProvider {
  import opened Modular
  import opened Wrappers

  // ---- the bounded queue -------------------------------------------------------------------------

  datatype Status = Success | QueueFull | Failure

  /** `maximum` is zero for no bound. */
  predicate Full<Frame>(queue: seq<Frame>, maximum: nat) {
    maximum > 0 && |queue| >= maximum
  }

  class BufferedMediaFrameProvider<Frame> {
    const maximum: nat
    var queue: seq<Frame>
    var stopped: bool

    constructor (maximum: nat)
      ensures this.maximum == maximum && queue == [] && !stopped
    {
      this.maximum := maximum;
      queue, stopped := [], false;
    }

    /** Refuses a null frame, and any frame when the queue is full. */
    method AddFrame(frame: Option<Frame>) returns (status: Status)
      modifies this`queue
      ensures status == if frame.None? then Failure
                        else if Full(old(queue), maximum) then QueueFull else Success
      ensures queue == if status == Success then old(queue) + [frame.value] else old(queue)
    {
      if frame.None? {
        return Failure;
      }
      if maximum > 0 && |queue| >= maximum {
        return QueueFull;
      }
      queue := queue + [frame.value];
      status := Success;
    }

    method GetFrame() returns (frame: Option<Frame>)
      modifies this`queue
      ensures frame == if old(queue) == [] then None else Some(old(queue)[0])
      ensures queue == if frame.None? then [] else old(queue)[1..]
    {
      if queue == [] {
        return None;
      }
      frame := Some(queue[0]);
      queue := queue[1..];
    }

    method StopQueue()
      modifies this`stopped
      ensures stopped
    {
      stopped := true;
    }
  }

  // ---- the file ----------------------------------------------------------------------------------

  /** What a blocking get of the file provider does once the frames are loaded. */
  datatype Got<+Frame> = Got(frame: Frame) | Nothing | ReadsEmptyQueue

  /** It does not wait; it hands out nothing only after the stop. */
  function GetBlocking<Frame>(queue: seq<Frame>, stopped: bool): Got<Frame> {
    if stopped && queue == [] then Nothing else if queue == [] then ReadsEmptyQueue else Got.Got(queue[0])
  }

  /** The queue after a get: a looping provider puts the frame back at the end. */
  function AfterGet<Frame>(queue: seq<Frame>, loop: bool): seq<Frame> {
    if queue == [] then queue else queue[1..] + (if loop then [queue[0]] else [])
  }

  function AfterGets<Frame>(queue: seq<Frame>, loop: bool, gets: nat): seq<Frame> {
    if gets == 0 then queue else AfterGet(AfterGets(queue, loop, gets - 1), loop)
  }

  /** Turned by `turns` places. */
  function Rotated<Frame>(frames: seq<Frame>, turns: nat): (r: seq<Frame>)
    requires frames != []
    ensures |r| == |frames|
  {
    seq(|frames|, i requires 0 <= i < |frames| => frames[Wrap(turns + i, |frames|)])
  }

  lemma RotatedOnce<Frame>(frames: seq<Frame>, turns: nat)
    requires frames != []
    ensures AfterGet(Rotated(frames, turns), true) == Rotated(frames, turns + 1)
  {
    hide Wrap;
    WrapTurn(turns, |frames|);
    assert turns + 1 + (|frames| - 1) == turns + |frames|;
  }

  /** A looping provider hands out frame `k` of the file, counted round, at get number `k`. */
  lemma {:induction false} LoopGoesRound<Frame>(frames: seq<Frame>, k: nat, stopped: bool)
    requires frames != []
    ensures AfterGets(frames, true, k) == Rotated(frames, k)
    ensures GetBlocking(AfterGets(frames, true, k), stopped) == Got.Got(frames[Wrap(k, |frames|)])
    decreases k
  {
    if k == 0 {
      forall i | 0 <= i < |frames|
        ensures Rotated(frames, 0)[i] == frames[i]
      {
        WrapSmall(i, |frames|);
      }
      assert Rotated(frames, 0) == frames;
    } else {
      LoopGoesRound(frames, k - 1, stopped);
      RotatedOnce(frames, k - 1);
    }
    assert Rotated(frames, k)[0] == frames[Wrap(k, |frames|)];
  }

  lemma {:induction false} OnceThrough<Frame>(frames: seq<Frame>, k: nat)
    ensures AfterGets(frames, false, k) == if k <= |frames| then frames[k..] else []
    decreases k
  {
    if k > 0 {
      OnceThrough(frames, k - 1);
    }
  }

  /**
   When a blocking get of a loaded file has a frame or, after the stop, nothing
   to hand out: unless it has read the file to its end, does not loop and was not
   stopped, or the file had no frame at all.  Then it takes the front of an empty queue.
   */
  lemma GetIsDefinedIff<Frame>(frames: seq<Frame>, loop: bool, k: nat, stopped: bool)
    ensures GetBlocking(AfterGets(frames, loop, k), stopped) != ReadsEmptyQueue
            <==> stopped || (frames != [] && (loop || k < |frames|))
  {
    if frames == [] {
      NoFrames<Frame>(loop, k);
    } else if loop {
      LoopGoesRound(frames, k, stopped);
    } else {
      OnceThrough(frames, k);
    }
  }

  lemma {:induction false} NoFrames<Frame>(loop: bool, k: nat)
    ensures AfterGets<Frame>([], loop, k) == []
  {
    if k > 0 {
      NoFrames<Frame>(loop, k - 1);
    }
  }
}
