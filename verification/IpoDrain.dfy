/**
 Polls without arrivals.  They take the packets out of the ring in the order in
 which their slots come up and end with an empty ring: a stream past its
 synchronisation delivers everything it holds, in order, and a packet that was
 accepted out of turn is delivered out of order.
 */
module IpoDrain {
  import opened Modular
  import opened IpoModel
  import opened IpoOrdering
  import opened IpoRuns
  import opened IpoTiming
  import opened IpoSteady
  import opened IpoBreaks
  import opened IpoRings

  /** The packets held at the `n` positions from `x` on, in the order of the positions. */
  function InTurn(slots: seq<Slot>, x: int, n: nat): (r: seq<Slot>)
    requires 0 < |slots|
    ensures |r| <= n
  {
    if n == 0 then []
    else InTurn(slots, x, n - 1) + (if Cell(slots, x + n - 1).valid then [Cell(slots, x + n - 1)] else [])
  }

  lemma {:induction false} InTurnSplit(slots: seq<Slot>, x: int, a: nat, b: nat)
    requires 0 < |slots|
    ensures InTurn(slots, x, a + b) == InTurn(slots, x, a) + InTurn(slots, x + a, b)
    decreases b
  {
    hide Cell;
    if b > 0 {
      InTurnSplit(slots, x, a, b - 1);
    }
  }

  lemma {:induction false} InTurnNone(slots: seq<Slot>, x: int, n: nat)
    requires 0 < |slots| && forall y :: x <= y < x + n ==> !Cell(slots, y).valid
    ensures InTurn(slots, x, n) == []
    decreases n
  {
    hide Cell;
    if n > 0 {
      InTurnNone(slots, x, n - 1);
    }
  }

  lemma {:induction false} InTurnAll(slots: seq<Slot>, x: int, n: nat)
    requires 0 < |slots| && forall y :: x <= y < x + n ==> Cell(slots, y).valid
    ensures InTurn(slots, x, n) == Cells(slots, x, n)
    decreases n
  {
    hide Cell;
    if n > 0 {
      InTurnAll(slots, x, n - 1);
      assert Cells(slots, x, n) == Cells(slots, x, n - 1) + [Cell(slots, x + n - 1)];
    }
  }

  lemma {:induction false} InTurnSame(slots: seq<Slot>, slots': seq<Slot>, x: int, n: nat)
    requires 0 < |slots| && 0 < |slots'|
    requires forall y :: x <= y < x + n ==> Cell(slots, y) == Cell(slots', y)
    ensures InTurn(slots, x, n) == InTurn(slots', x, n)
    decreases n
  {
    hide Cell;
    if n > 0 {
      InTurnSame(slots, slots', x, n - 1);
    }
  }

  lemma {:induction false} InTurnShift(slots: seq<Slot>, x: int, x': int, n: nat)
    requires 0 < |slots| && Wrap(x, |slots|) == Wrap(x', |slots|)
    ensures InTurn(slots, x, n) == InTurn(slots, x', n)
    decreases n
  {
    hide Wrap;
    if n > 0 {
      InTurnShift(slots, x, x', n - 1);
      WrapShift(x, x', n - 1, |slots|);
    }
  }

  /** A turn of which the first `lo` positions are empty and those up to `hi` are full. */
  lemma InTurnParts(slots: seq<Slot>, x: int, lo: nat, hi: nat)
    requires lo <= hi <= |slots| && 0 < |slots|
    requires forall y :: x <= y < x + lo ==> !Cell(slots, y).valid
    requires forall y :: x + lo <= y < x + hi ==> Cell(slots, y).valid
    ensures InTurn(slots, x, |slots|) == Cells(slots, x + lo, hi - lo) + InTurn(slots, x + hi, |slots| - hi)
  {
    hide Cell, Cells, InTurn;
    InTurnSplit(slots, x, lo, hi - lo);
    InTurnSplit(slots, x, hi, |slots| - hi);
    InTurnNone(slots, x, lo);
    InTurnAll(slots, x + lo, hi - lo);
  }

  /** A whole turn from behind positions that were emptied is the rest of the turn before. */
  lemma InTurnRest(slots: seq<Slot>, x: int, hi: nat)
    requires hi <= |slots| && 0 < |slots| && forall y :: x <= y < x + hi ==> !Cell(slots, y).valid
    ensures InTurn(slots, x + hi, |slots|) == InTurn(slots, x + hi, |slots| - hi)
  {
    hide Cell, InTurn, Wrap;
    InTurnSplit(slots, x + hi, |slots| - hi, hi);
    WrapTurn(x, |slots|);
    InTurnShift(slots, x + |slots|, x, hi);
    InTurnNone(slots, x, hi);
  }

  lemma InTurnEmptied(slots: seq<Slot>, x: int, lo: nat, hi: nat, slots': seq<Slot>)
    requires lo <= hi <= |slots| && Emptied(slots, x, x + lo, x + hi, slots')
    requires forall y :: x <= y < x + lo ==> !Cell(slots, y).valid
    requires forall y :: x + lo <= y < x + hi ==> Cell(slots, y).valid
    ensures InTurn(slots, x, |slots|) == Cells(slots, x + lo, hi - lo) + InTurn(slots', x + hi, |slots|)
  {
    hide Cell, Cells, InTurn;
    InTurnParts(slots, x, lo, hi);
    InTurnSame(slots, slots', x + hi, |slots| - hi);
    InTurnRest(slots', x, hi);
  }

  // ---- one poll --------------------------------------------------------------------------------

  /** By time `t` everything held, and the cached time, is past the hold time. */
  ghost predicate Ripe(c: Config, s: Stream, t: int) {
    && s.nextTime + c.hold < t
    && forall i :: 0 <= i < |s.slots| && s.slots[i].valid ==> s.slots[i].time + c.hold < t
  }

  ghost predicate Ready(c: Config, s: Stream, t: int) {
    WellFormed(c, s) && Started(s) && (!s.mode.Running? ==> Empty(s.slots)) && Ripe(c, s, t)
  }

  /** What is held, in the order in which it will be taken out. */
  function Queue(c: Config, s: Stream): (r: seq<Slot>)
    requires WellFormed(c, s)
    ensures |r| <= c.Ring()
  {
    InTurn(s.slots, s.index, c.Ring())
  }

  /** A productive poll takes a part of what is held from the front. */
  lemma PollTakesFront(c: Config, s: Stream)
    requires WellFormed(c, s) && Productive(c, s)
    ensures var o := Poll(c, s); Queue(c, s) == o.skipped + o.chunk.packets + Queue(c, o.next)
  {
    hide Wrap, Cell, Cells, Clear, EmptyRun, Poll, Parts, InTurn;
    var o := Poll(c, s);
    var k0, k, n := EmptyRun(s.slots, s.index, c.Ring()), |o.skipped|, |o.chunk.packets|;
    ProductiveParts(c, s);
    FrontIsTaken(c, s, k0, k, n, Clear(s.slots, s.index + k0, k), o);
  }

  lemma FrontIsTaken(c: Config, s: Stream, k0: nat, k: nat, n: nat, synced: seq<Slot>, o: Outcome)
    requires WellFormed(c, s) && WellFormed(c, o.next) && Parts(c, s, k0, k, n, synced, o) && k0 <= c.Ring()
    ensures Queue(c, s) == o.skipped + o.chunk.packets + Queue(c, o.next)
  {
    hide Wrap, Cell, Clear, InTurn, Config.Ring;
    var x, m := s.index, k0 + k + n;
    PassedPositions(s.slots, x, k0, k, n, synced);
    forall y | x + k0 + k <= y < x + m
      ensures Cell(s.slots, y).valid && Cell(synced, y) == Cell(s.slots, y)
    {
    }
    InTurnEmptied(s.slots, x, k0, m, o.next.slots);
    WrapSmall(Wrap(x + m, c.Ring()), c.Ring());
    InTurnShift(o.next.slots, x + m, o.next.index, c.Ring());
    assert Cells(s.slots, x + k0, k + n) == o.skipped + o.chunk.packets;
  }

  lemma ReadyIsProductive(c: Config, s: Stream, t: int)
    requires Ready(c, s, t) && s.mode.Running? && t <= s.now && !Empty(s.slots)
    ensures Productive(c, s)
  {
    hide Wrap, Cell, EmptyRun, Config.Ring;
    EmptyTurn(s.slots, s.index);
    var k := EmptyRun(s.slots, s.index, c.Ring());
    if k < c.Ring() {
      CellIsSlot(s.slots, s.index + k);
    }
  }

  /** The cached time after a poll is that of a packet it skipped, or the one before. */
  lemma PollNextTime(c: Config, s: Stream)
    requires WellFormed(c, s) && Productive(c, s)
    ensures var o := Poll(c, s);
      o.next.nextTime == s.nextTime
      || (o.skipped != [] && o.skipped[|o.skipped| - 1].valid && o.next.nextTime == o.skipped[|o.skipped| - 1].time)
  {
    hide Wrap, Cell, Clear, EmptyRun, SyncRun, ReadyRun, Config.Ring;
  }

  lemma SkippedWasHeld(c: Config, s: Stream, t: int, k: nat)
    requires WellFormed(c, s) && Productive(c, s) && Ripe(c, s, t) && k < |Poll(c, s).skipped|
    ensures Poll(c, s).skipped[k].valid ==> Poll(c, s).skipped[k].time + c.hold < t
    ensures Poll(c, s).skipped[k].time < s.startTime
  {
    hide Wrap, Cell, Clear, EmptyRun, Poll, Config.Ring;
    var o := Poll(c, s);
    var k0 := EmptyRun(s.slots, s.index, c.Ring());
    ProductiveParts(c, s);
    CellIsSlot(s.slots, s.index + k0 + k);
    PartsSkipped(c, s, k0, |o.skipped|, |o.chunk.packets|, Clear(s.slots, s.index + k0, |o.skipped|), o);
    assert o.skipped[k] in o.skipped;
  }

  lemma ProductiveStaysReady(c: Config, s: Stream, t: int)
    requires Ready(c, s, t) && Productive(c, s)
    ensures Ready(c, Poll(c, s).next, t) && Poll(c, s).next.startTime == s.startTime
    ensures HeldSinceStart(s) ==> HeldSinceStart(Poll(c, s).next)
  {
    hide Wrap, Cell, Clear, EmptyRun, Poll, Config.Ring, Parts, Productive;
    var o := Poll(c, s);
    ProductiveRuns(c, s);
    PollNextTime(c, s);
    if o.skipped != [] {
      SkippedWasHeld(c, s, t, |o.skipped| - 1);
    }
    ProductiveParts(c, s);
    OnlyCleared(c, s, EmptyRun(s.slots, s.index, c.Ring()), o);
  }

  /** The packets from the start time on. */
  function Since(packets: seq<Slot>, startTime: int): (r: seq<Slot>)
    ensures |r| <= |packets|
  {
    if packets == [] then []
    else
      var init, p := packets[..|packets| - 1], packets[|packets| - 1];
      Since(init, startTime) + (if startTime <= p.time then [p] else [])
  }

  lemma {:induction false} SinceJoins(a: seq<Slot>, b: seq<Slot>, startTime: int)
    ensures Since(a + b, startTime) == Since(a, startTime) + Since(b, startTime)
    decreases |b|
  {
    if b == [] {
      assert a + b == a;
    } else {
      assert (a + b)[..|a + b| - 1] == a + b[..|b| - 1];
      SinceJoins(a, b[..|b| - 1], startTime);
    }
  }

  lemma {:induction false} NoneSince(a: seq<Slot>, startTime: int)
    requires forall i :: 0 <= i < |a| ==> a[i].time < startTime
    ensures Since(a, startTime) == []
    decreases |a|
  {
    if a != [] {
      NoneSince(a[..|a| - 1], startTime);
    }
  }

  lemma QueueOfEmpty(c: Config, s: Stream)
    requires WellFormed(c, s)
    ensures Queue(c, s) == [] <==> Empty(s.slots)
  {
    hide Wrap, Cell, Config.Ring, InTurn, EmptyRun;
    EmptyTurn(s.slots, s.index);
    var k, r := EmptyRun(s.slots, s.index, c.Ring()), c.Ring();
    if Empty(s.slots) {
      InTurnNone(s.slots, s.index, r);
    } else {
      InTurnSplit(s.slots, s.index, k + 1, r - k - 1);
      LastInTurn(s.slots, s.index, k);
    }
  }

  lemma LastInTurn(slots: seq<Slot>, x: int, k: nat)
    requires 0 < |slots| && Cell(slots, x + k).valid
    ensures InTurn(slots, x, k + 1) == InTurn(slots, x, k) + [Cell(slots, x + k)]
  {
    hide Cell;
  }

  /** One poll without arrivals, when all that is held is ready. */
  lemma QuietStep(c: Config, s: Stream, t: int, now: int)
    requires Ready(c, s, t) && t <= now
    ensures KnownCall(c, Quiet(now))
    ensures var o := GetNextChunk(c, s, Quiet(now));
      && Ready(c, o.next, t) && o.next.startTime == s.startTime
      && Queue(c, s) == o.skipped + o.chunk.packets + Queue(c, o.next)
      && (Queue(c, s) != [] ==> |Queue(c, o.next)| < |Queue(c, s)|)
      && (forall i :: 0 <= i < |o.skipped| ==> o.skipped[i].time < s.startTime)
      && (HeldSinceStart(s) ==> HeldSinceStart(o.next) && o.skipped == [])
  {
    hide Poll, Productive, HeldSinceStart, Queue, Ready;
    var u := Tick(c, s, now);
    TickStaysReady(c, s, t, now);
    QuietCall(c, s, now);
    QueueOfEmpty(c, s);
    if Productive(c, u) {
      ProductiveStaysReady(c, u, t);
      ProductiveSkips(c, u, t);
      PollTakesFront(c, u);
      ProductiveProgress(c, u, Poll(c, u));
    } else {
      IdleStaysReady(c, u, t);
    }
  }

  lemma TickStaysReady(c: Config, s: Stream, t: int, now: int)
    requires Ready(c, s, t)
    ensures WellFormed(c, s) && Tick(c, s, now) == s.(now := now) && Ready(c, Tick(c, s, now), t)
    ensures Queue(c, Tick(c, s, now)) == Queue(c, s)
    ensures HeldSinceStart(Tick(c, s, now)) <==> HeldSinceStart(s)
  {
    hide InTurn;
  }

  lemma ProductiveSkips(c: Config, s: Stream, t: int)
    requires Ready(c, s, t) && Productive(c, s)
    ensures forall i :: 0 <= i < |Poll(c, s).skipped| ==> Poll(c, s).skipped[i].time < s.startTime
    ensures HeldSinceStart(s) ==> Poll(c, s).skipped == []
  {
    hide Poll, Productive, Ripe;
    forall i | 0 <= i < |Poll(c, s).skipped|
      ensures Poll(c, s).skipped[i].time < s.startTime
    {
      SkippedWasHeld(c, s, t, i);
    }
    if HeldSinceStart(s) {
      NothingSkipped(c, s);
    }
  }

  lemma IdleStaysReady(c: Config, s: Stream, t: int)
    requires Ready(c, s, t) && !Productive(c, s) && t <= s.now
    ensures Empty(s.slots) && Poll(c, s).skipped == [] && Poll(c, s).chunk.packets == []
    ensures Ready(c, Poll(c, s).next, t) && Poll(c, s).next.startTime == s.startTime
    ensures Queue(c, Poll(c, s).next) == Queue(c, s)
    ensures HeldSinceStart(Poll(c, s).next)
  {
    hide Wrap, Cell, EmptyRun, SyncAndDeliver, Config.Ring, InTurn;
    if s.mode.Running? && !Empty(s.slots) {
      ReadyIsProductive(c, s, t);
    }
    EmptyTurn(s.slots, s.index);
    UnproductivePoll(c, s);
  }

  // ---- quiet runs ------------------------------------------------------------------------------

  /** Complete calls without arrivals, from time `t` on. */
  ghost predicate QuietFrom(t: int, calls: seq<Call>) {
    forall call :: call in calls ==> call == Quiet(call.now) && t <= call.now
  }

  /** What the calls of a run hand over. */
  function DeliveredBy(c: Config, s: Stream, calls: seq<Call>): seq<Slot>
    requires WellFormed(c, s) && forall call :: call in calls ==> KnownCall(c, call)
    decreases |calls|
  {
    if calls == [] then []
    else
      var init, call := calls[..|calls| - 1], calls[|calls| - 1];
      assert call in calls && KnownCall(c, call);
      DeliveredBy(c, s, init) + GetNextChunk(c, Run(c, s, init), call).chunk.packets
  }

  lemma QuietKnown(c: Config, t: int, calls: seq<Call>)
    requires QuietFrom(t, calls)
    ensures forall call :: call in calls ==> KnownCall(c, call)
  {
    forall call | call in calls
      ensures KnownCall(c, call)
    {
      assert call == Quiet(call.now);
    }
  }

  lemma ReadyWellFormed(c: Config, s: Stream, t: int)
    requires Ready(c, s, t)
    ensures WellFormed(c, s)
  {
  }

  /** From the front: what is from before the start time may be skipped, everything else is handed over in turn. */
  lemma {:induction false} QuietRun(c: Config, s: Stream, t: int, calls: seq<Call>)
    requires Ready(c, s, t) && QuietFrom(t, calls)
    ensures forall call :: call in calls ==> KnownCall(c, call)
    ensures var r := Run(c, s, calls);
      && Ready(c, r, t) && r.startTime == s.startTime
      && Since(Queue(c, s), s.startTime)
         == Since(DeliveredBy(c, s, calls), s.startTime) + Since(Queue(c, r), s.startTime)
      && (Queue(c, r) == [] || |Queue(c, r)| + |calls| <= |Queue(c, s)|)
      && (HeldSinceStart(s) ==> HeldSinceStart(r) && Queue(c, s) == DeliveredBy(c, s, calls) + Queue(c, r))
    decreases |calls|
  {
    hide Ready, Queue, HeldSinceStart, GetNextChunk, Since, KnownCall;
    ReadyWellFormed(c, s, t);
    QuietKnown(c, t, calls);
    if calls != [] {
      var init, call := calls[..|calls| - 1], calls[|calls| - 1];
      assert call in calls;
      QuietRun(c, s, t, init);
      var m := Run(c, s, init);
      QuietStep(c, m, t, call.now);
      var o := GetNextChunk(c, m, call);
      FrontSince(DeliveredBy(c, s, init), o.skipped, o.chunk.packets, Queue(c, o.next), s.startTime);
      assert DeliveredBy(c, s, calls) == DeliveredBy(c, s, init) + o.chunk.packets;
      if HeldSinceStart(s) {
        assert o.skipped + o.chunk.packets + Queue(c, o.next) == o.chunk.packets + Queue(c, o.next);
      }
    }
  }

  lemma FrontSince(d: seq<Slot>, skipped: seq<Slot>, packets: seq<Slot>, rest: seq<Slot>, startTime: int)
    requires forall i :: 0 <= i < |skipped| ==> skipped[i].time < startTime
    ensures Since(d, startTime) + Since(skipped + packets + rest, startTime)
         == Since(d + packets, startTime) + Since(rest, startTime)
  {
    hide Since;
    NoneSince(skipped, startTime);
    SinceJoins(skipped, packets, startTime);
    SinceJoins(skipped + packets, rest, startTime);
    SinceJoins(d, packets, startTime);
    JoinParts(Since(d, startTime), Since(skipped, startTime), Since(packets, startTime), Since(rest, startTime));
  }

  lemma JoinParts<T>(d: seq<T>, none: seq<T>, p: seq<T>, r: seq<T>)
    requires none == []
    ensures d + (none + p + r) == (d + p) + r
  {
  }

  // ---- everything held is delivered --------------------------------------------------------------

  lemma {:induction false} InTurnIsPending(slots: seq<Slot>, n: nat)
    requires 0 < |slots| && n <= |slots|
    ensures multiset(InTurn(slots, 0, n)) == Pending(slots[..n])
    decreases n
  {
    hide Wrap, Cell, Held, Pending, InTurn;
    FirstPending(slots, n);
    if n > 0 {
      InTurnIsPending(slots, n - 1);
      WrapSmall(n - 1, |slots|);
      CellIs(slots, n - 1, n - 1);
      HeldIsOne(slots[n - 1]);
      FirstInTurn(slots, n);
    }
  }

  lemma FirstPending(slots: seq<Slot>, n: nat)
    requires n <= |slots|
    ensures Pending(slots[..n]) == if n == 0 then multiset{} else Pending(slots[..n - 1]) + Held(slots[n - 1])
  {
    hide Held;
    if n > 0 {
      assert slots[..n][..n - 1] == slots[..n - 1];
    }
  }

  lemma FirstInTurn(slots: seq<Slot>, n: nat)
    requires 0 < n <= |slots| && Cell(slots, n - 1) == slots[n - 1]
    ensures InTurn(slots, 0, n) == InTurn(slots, 0, n - 1) + (if slots[n - 1].valid then [slots[n - 1]] else [])
    ensures InTurn(slots, 0, 0) == []
  {
    hide Cell;
  }

  lemma HeldIsOne(slot: Slot)
    ensures multiset(if slot.valid then [slot] else []) == Held(slot)
  {
  }

  /** What is queued is what is held. */
  lemma QueueIsPending(c: Config, s: Stream)
    requires WellFormed(c, s)
    ensures multiset(Queue(c, s)) == Pending(s.slots)
  {
    hide Wrap, InTurn, Pending, Config.Ring;
    var r := c.Ring();
    InTurnSplit(s.slots, s.index, r - s.index, s.index);
    InTurnSplit(s.slots, 0, s.index, r - s.index);
    WrapTurn(0, r);
    InTurnShift(s.slots, r, 0, s.index);
    InTurnIsPending(s.slots, r);
    assert s.slots[..r] == s.slots;
  }

  /** Where slots are in order, what is queued advances. */
  lemma {:induction false} QueueAdvances(c: Config, s: Stream, n: nat)
    requires CaughtUp(c, s) && SlotsInOrder(c) && n <= c.Ring()
    ensures Advances(c, s.last, InTurn(s.slots, s.index, n))
    ensures var q := InTurn(s.slots, s.index, n);
      q != [] ==>
        var m := q[|q| - 1].number;
        m < c.space && InReach(c, s.last, m) && Offset(c, s.last, m) < n
    decreases n
  {
    hide Cell, InReach, Offset, CaughtUp, SlotsInOrder, StepAhead, Config.Ring;
    CaughtUpLast(c, s);
    if n > 0 {
      QueueAdvances(c, s, n - 1);
      var q, p := InTurn(s.slots, s.index, n - 1), Cell(s.slots, s.index + (n - 1));
      if p.valid {
        HeldAt(c, s, n - 1);
        NextAdvances(c, s.last, q, p);
      } else {
        assert InTurn(s.slots, s.index, n) == q;
      }
    }
  }

  lemma NextAdvances(c: Config, last: nat, q: seq<Slot>, p: Slot)
    requires c.Valid() && SlotsInOrder(c) && last < c.space && p.number < c.space && InReach(c, last, p.number)
    requires Advances(c, last, q)
    requires q != [] ==>
      var m := q[|q| - 1].number;
      m < c.space && InReach(c, last, m) && Offset(c, last, m) < Offset(c, last, p.number)
    ensures Advances(c, last, q + [p])
  {
    hide Offset, SlotsInOrder, Ahead, Config.Ring;
    if q != [] {
      LaterIsAhead(c, last, q[|q| - 1].number, p.number);
    }
    forall j | 0 <= j < |q + [p]|
      ensures StepAhead(c, last, q + [p], j)
    {
      if j < |q| {
        assert StepAhead(c, last, q, j);
      }
    }
  }

  /**
   A stream past its synchronisation delivers every packet it holds, in order: as many
   polls as packets are enough, later than the hold time after the newest of them.
   */
  lemma QuietPollsDeliverAll(c: Config, s: Stream, t: int, calls: seq<Call>)
    requires CaughtUp(c, s) && SlotsInOrder(c) && Ripe(c, s, t)
    requires QuietFrom(t, calls) && |Queue(c, s)| <= |calls|
    ensures forall call :: call in calls ==> KnownCall(c, call)
    ensures var d := DeliveredBy(c, s, calls);
      multiset(d) == Pending(s.slots) && Advances(c, s.last, d) && Empty(Run(c, s, calls).slots)
  {
    hide CaughtUp, SlotsInOrder, Ripe, Queue, HeldSinceStart, DeliveredBy, Run, Advances, KnownCall;
    CaughtUpReady(c, s, t);
    QuietRun(c, s, t, calls);
    var r := Run(c, s, calls);
    QueueOfEmpty(c, r);
    assert Queue(c, s) == DeliveredBy(c, s, calls);
    QueueIsPending(c, s);
    WholeQueueAdvances(c, s);
  }

  lemma WholeQueueAdvances(c: Config, s: Stream)
    requires CaughtUp(c, s) && SlotsInOrder(c)
    ensures Advances(c, s.last, Queue(c, s))
  {
    QueueAdvances(c, s, c.Ring());
  }

  /** There is such a time. */
  lemma SomeTimeIsRipe(c: Config, s: Stream) returns (t: int)
    ensures Ripe(c, s, t) && s.now <= t
  {
    t := if s.nextTime + c.hold < s.now then s.now else s.nextTime + c.hold + 1;
    for i := 0 to |s.slots|
      invariant s.nextTime + c.hold < t && s.now <= t
      invariant forall j :: 0 <= j < i ==> s.slots[j].time + c.hold < t
    {
      if s.slots[i].time + c.hold >= t {
        t := s.slots[i].time + c.hold + 1;
      }
    }
  }

  lemma CaughtUpReady(c: Config, s: Stream, t: int)
    requires CaughtUp(c, s) && Ripe(c, s, t)
    ensures Ready(c, s, t) && HeldSinceStart(s)
  {
  }

  /** Polls at one time. */
  function Polls(now: int, n: nat): (r: seq<Call>)
    ensures |r| == n && QuietFrom(now, r)
  {
    seq(n, _ => Quiet(now))
  }

  /** So nothing is held for ever: a ring of polls at one time empties any stream past its synchronisation. */
  lemma HeldIsDelivered(c: Config, s: Stream) returns (now: int)
    requires CaughtUp(c, s) && SlotsInOrder(c)
    ensures s.now <= now && forall call :: call in Polls(now, c.Ring()) ==> KnownCall(c, call)
    ensures var d := DeliveredBy(c, s, Polls(now, c.Ring()));
      && multiset(d) == Pending(s.slots) && Advances(c, s.last, d)
      && Empty(Run(c, s, Polls(now, c.Ring())).slots)
  {
    hide CaughtUp, SlotsInOrder, Ripe, Queue, DeliveredBy, Run, Advances, KnownCall, Polls;
    CaughtUpLast(c, s);
    now := SomeTimeIsRipe(c, s);
    QuietPollsDeliverAll(c, s, now, Polls(now, c.Ring()));
  }

  // ---- out of turn -------------------------------------------------------------------------------

  /** A packet numbered `m` comes before one numbered `n`. */
  ghost predicate Comes(packets: seq<Slot>, m: nat, n: nat) {
    exists i, j :: 0 <= i < j < |packets| && packets[i].number == m && packets[j].number == n
  }

  lemma {:induction false} SinceOne(d: seq<Slot>, startTime: int, i: nat) returns (k: nat)
    requires i < |Since(d, startTime)|
    ensures k < |d| && d[k] == Since(d, startTime)[i]
    decreases |d|
  {
    var init := d[..|d| - 1];
    if i < |Since(init, startTime)| {
      k := SinceOne(init, startTime, i);
    } else {
      k := |d| - 1;
    }
  }

  /** What is left out does not change what comes before what. */
  lemma {:induction false} SinceComes(d: seq<Slot>, startTime: int, m: nat, n: nat)
    requires Comes(Since(d, startTime), m, n)
    ensures Comes(d, m, n)
    decreases |d|
  {
    var q := Since(d, startTime);
    var i, j :| 0 <= i < j < |q| && q[i].number == m && q[j].number == n;
    var init := d[..|d| - 1];
    if j < |Since(init, startTime)| {
      SinceComes(init, startTime, m, n);
    } else {
      var k := SinceOne(init, startTime, i);
      assert d[k].number == m && d[|d| - 1].number == n;
    }
  }

  /** Two packets of a turn, neither from before the start time, come in the order of their positions. */
  lemma TwoInTurn(slots: seq<Slot>, x: int, n: nat, o1: nat, o2: nat, startTime: int)
    requires 0 < |slots| && o1 < o2 < n
    requires Cell(slots, x + o1).valid && startTime <= Cell(slots, x + o1).time
    requires Cell(slots, x + o2).valid && startTime <= Cell(slots, x + o2).time
    ensures Comes(Since(InTurn(slots, x, n), startTime), Cell(slots, x + o1).number, Cell(slots, x + o2).number)
  {
    hide Cell, InTurn, Since;
    OneInTurn(slots, x, o2, o1, startTime);
    OneInTurn(slots, x, n, o2, startTime);
    var front := Since(InTurn(slots, x, o2), startTime);
    var i := |Since(InTurn(slots, x, o1), startTime)|;
    var all := Since(InTurn(slots, x, n), startTime);
    assert all[i] == front[i] && all[|front|] == Cell(slots, x + o2);
  }

  lemma OneInTurn(slots: seq<Slot>, x: int, n: nat, o: nat, startTime: int)
    requires 0 < |slots| && o < n && Cell(slots, x + o).valid && startTime <= Cell(slots, x + o).time
    ensures Since(InTurn(slots, x, o), startTime) + [Cell(slots, x + o)] <= Since(InTurn(slots, x, n), startTime)
  {
    hide Cell, InTurn, Since;
    var front, rest, p := InTurn(slots, x, o), InTurn(slots, x + (o + 1), n - o - 1), Cell(slots, x + o);
    InTurnSplit(slots, x, o + 1, n - o - 1);
    LastInTurn(slots, x, o);
    SinceJoins(front + [p], rest, startTime);
    SinceJoins(front, [p], startTime);
    OneSince(p, startTime);
  }

  lemma OneSince(p: Slot, startTime: int)
    requires startTime <= p.time
    ensures Since([p], startTime) == [p]
  {
    assert [p][..0] == [];
  }

  /** Quiet polls hand over what is from the start time on in the order in which its slots come up. */
  lemma QuietPollsKeepTurn(c: Config, s: Stream, t: int, calls: seq<Call>, o1: nat, o2: nat)
    requires Ready(c, s, t) && QuietFrom(t, calls) && c.Ring() <= |calls| && o1 < o2 < c.Ring()
    requires Cell(s.slots, s.index + o1).valid && s.startTime <= Cell(s.slots, s.index + o1).time
    requires Cell(s.slots, s.index + o2).valid && s.startTime <= Cell(s.slots, s.index + o2).time
    ensures forall call :: call in calls ==> KnownCall(c, call)
    ensures Comes(DeliveredBy(c, s, calls), Cell(s.slots, s.index + o1).number, Cell(s.slots, s.index + o2).number)
  {
    hide HeldSinceStart, DeliveredBy, Run, KnownCall, Comes, InTurn, Cell;
    QuietRun(c, s, t, calls);
    assert Queue(c, Run(c, s, calls)) == [];
    assert Since(Queue(c, s), s.startTime) == Since(DeliveredBy(c, s, calls), s.startTime);
    TwoInTurn(s.slots, s.index, c.Ring(), o1, o2, s.startTime);
    SinceComes(DeliveredBy(c, s, calls), s.startTime,
               Cell(s.slots, s.index + o1).number, Cell(s.slots, s.index + o2).number);
  }

  /** The packet of a number, heard on some path. */
  function PacketOf(c: Config, p: Packet, z: int): (q: Packet)
    requires c.Valid()
    ensures q.number < c.space && q.path == p.path
  {
    Packet(p.path, Wrap(z, c.space), p.hw)
  }

  /**
   Number `z` has its turn in the ring, is not late, comes up on the wrong side of the
   packet, and is not held already from before the start time, to be skipped.
   */
  ghost predicate OutOfTurn(c: Config, s: Stream, h: History, p: Packet, z: int)
    requires WellFormed(c, s) && Known(c, p)
  {
    && h.base <= z < h.base + c.Ring() && z - h.lastNum < c.Half()
    && (if NumberOf(c, s, h, p) < h.base then z < TurnOf(c, s, h, p) else TurnOf(c, s, h, p) < z)
    && (Cell(s.slots, z).valid ==> s.startTime <= Cell(s.slots, z).time)
  }

  /** The packet and that of number `z` arrive, no earlier than the start time, before the next poll. */
  function StrayCall(c: Config, s: Stream, p: Packet, z: int): (call: Call)
    requires c.Valid() && Known(c, p)
    ensures KnownCall(c, call)
  {
    Call(if s.now < s.startTime then s.startTime else s.now, [Good(p), Good(PacketOf(c, p, z))], false)
  }

  /** Where a number of the window lies from the ring index on. */
  lemma WindowPlace(c: Config, s: Stream, h: History, z: int)
    requires Aligned(c, s, h) && h.base <= z < h.base + c.Ring()
    ensures Cell(s.slots, s.index + (z - h.base)) == Cell(s.slots, z)
    ensures Wrap(s.index + (z - h.base), c.Ring()) == Wrap(z, c.Ring())
  {
    hide Wrap, Config.Ring;
    WrapSmall(s.index, c.Ring());
    WrapShift(s.index, h.base, z - h.base, c.Ring());
  }

  /** The slot of the packet is that of its turn. */
  lemma TurnPlace(c: Config, s: Stream, h: History, p: Packet)
    requires Aligned(c, s, h) && Known(c, p)
    ensures Wrap(TurnOf(c, s, h, p), c.Ring()) == Wrap(p.number, c.Ring())
  {
    hide Wrap, Config.Ring;
    NumberOfSlot(c, s, h, p);
    WrapAdd(NumberOf(c, s, h, p) - h.base, h.base, c.Ring());
  }

  /** After the call both packets are held, at their places and from the start time on. */
  lemma BothAreThere(c: Config, s: Stream, h: History, p: Packet, z: int)
    requires Aligned(c, s, h) && s.mode.Running? && Known(c, p)
    requires Classify(c, s, p).Fresh? && OutOfTurn(c, s, h, p, z)
    ensures var r := GetNextChunk(c, s, StrayCall(c, s, p, z)).next;
      var o1, o2 := TurnOf(c, s, h, p) - h.base, z - h.base;
      && r.mode.Running? && r.index == s.index && r.startTime == s.startTime
      && var x, y := Cell(r.slots, s.index + o1), Cell(r.slots, s.index + o2);
      && x.valid && x.number == p.number && s.startTime <= x.time
      && y.valid && y.number == Wrap(z, c.space) && s.startTime <= y.time
  {
    hide Wrap, Config.Ring, Arrive;
    var u, q := Tick(c, s, StrayCall(c, s, p, z).now), PacketOf(c, p, z);
    var i, k := Wrap(p.number, c.Ring()), Wrap(q.number, c.Ring());
    TurnPlace(c, s, h, p);
    WindowPlace(c, s, h, TurnOf(c, s, h, p));
    WindowPlace(c, s, h, z);
    WrapOfWrap(z, c.space, c.Ring());
    if i == k {
      WrapInjective(TurnOf(c, s, h, p), z, c.Ring());
    }
    TwoArrivals(c, u, p, q);
    AheadOfNumber(c, s, h, z);
    StoredOrHeld(c, u, p, i);
    StoredOrHeld(c, Arrive(c, u, p), q, k);
  }

  /** A packet that is not late is in its slot after it arrived, and other slots are as they were. */
  lemma StoredOrHeld(c: Config, s: Stream, p: Packet, i: nat)
    requires WellFormed(c, s) && s.mode.Running? && Known(c, p) && !Classify(c, s, p).Late?
    requires i == Wrap(p.number, c.Ring())
    ensures var r := Arrive(c, s, p);
      && r == s.(slots := r.slots) && |r.slots| == |s.slots|
      && r.slots[i].valid && r.slots[i].number == p.number
      && (Classify(c, s, p).Fresh? ==> r.slots[i].time == s.now)
      && (Classify(c, s, p).Redundant? ==> r.slots[i] == s.slots[i])
      && (forall j :: 0 <= j < |s.slots| && j != i ==> r.slots[j] == s.slots[j])
  {
    hide Wrap, Ahead;
  }

  /**
   The converse of fitting, in every aligned running state: a first copy that does not
   fit is delivered out of order in some continuation.  Behind the ring index it comes
   after a number ahead of it, a ring or more ahead it comes before one behind it.
   */
  lemma StrayCopyBreaksOrder(c: Config, s: Stream, h: History, p: Packet, z: int, t: int, polls: seq<Call>)
    requires Aligned(c, s, h) && s.mode.Running? && Known(c, p)
    requires Classify(c, s, p).Fresh? && !Fits(c, s, h, p) && OutOfTurn(c, s, h, p, z)
    requires Ripe(c, GetNextChunk(c, s, StrayCall(c, s, p, z)).next, t)
    requires QuietFrom(t, polls) && c.Ring() <= |polls|
    ensures forall call :: call in polls ==> KnownCall(c, call)
    ensures var r, n := GetNextChunk(c, s, StrayCall(c, s, p, z)).next, Wrap(z, c.space);
      if NumberOf(c, s, h, p) < h.base
      then 0 < Ahead(c, p.number, n) < c.Half() && Comes(DeliveredBy(c, r, polls), n, p.number)
      else 0 < Ahead(c, n, p.number) < c.Half() && Comes(DeliveredBy(c, r, polls), p.number, n)
  {
    hide Wrap, Config.Ring, Arrive, Ripe, DeliveredBy, Comes, WindowInPlace, Classify, GetNextChunk, Cell, KnownCall;
    hide NumberOf, TurnOf, StrayCall;
    var y, turn := NumberOf(c, s, h, p), TurnOf(c, s, h, p);
    BothAreThere(c, s, h, p, z);
    var r := GetNextChunk(c, s, StrayCall(c, s, p, z)).next;
    NumbersApart(c, s, h, p, z);
    if y < h.base {
      QuietPollsKeepTurn(c, r, t, polls, z - h.base, turn - h.base);
    } else {
      QuietPollsKeepTurn(c, r, t, polls, turn - h.base, z - h.base);
    }
  }

  lemma NumbersApart(c: Config, s: Stream, h: History, p: Packet, z: int)
    requires Aligned(c, s, h) && Known(c, p) && Classify(c, s, p).Fresh?
    requires h.base <= z && z - h.lastNum < c.Half()
    ensures var y, n := NumberOf(c, s, h, p), Wrap(z, c.space);
      && (y < z ==> 0 < Ahead(c, p.number, n) < c.Half())
      && (z < y ==> 0 < Ahead(c, n, p.number) < c.Half())
  {
    hide Wrap;
    var y := NumberOf(c, s, h, p);
    NumberOfSlot(c, s, h, p);
    AheadBetween(c, y, z);
    AheadBetween(c, z, y);
  }

  lemma AheadBetween(c: Config, y: int, z: int)
    requires c.Valid()
    ensures 0 <= z - y < c.space ==> Ahead(c, Wrap(y, c.space), Wrap(z, c.space)) == z - y
  {
    hide Wrap;
    if 0 <= z - y < c.space {
      WrapSub(Wrap(z, c.space), y, c.space);
      WrapAdd(z, -y, c.space);
      WrapSmall(z - y, c.space);
    }
  }

  /**
   With a ring as large as the number space a first copy that does not fit lies behind
   the index, and comes after every later number that is within reach and not skipped;
   the number whose turn its slot is counts as late.
   */
  lemma FullRingStray(c: Config, s: Stream, h: History, p: Packet, z: int)
    requires Aligned(c, s, h) && Known(c, p) && Classify(c, s, p).Fresh? && !Fits(c, s, h, p)
    requires c.Ring() == c.space && h.base <= z < h.lastNum + c.Half()
    requires Cell(s.slots, z).valid ==> s.startTime <= Cell(s.slots, z).time
    ensures NumberOf(c, s, h, p) < h.base && OutOfTurn(c, s, h, p, z)
    ensures TurnOf(c, s, h, p) - h.lastNum >= c.Half()
  {
    hide Wrap, Cell, WindowInPlace;
    var y := NumberOf(c, s, h, p);
    WrapTurn(y - h.base, c.space);
    WrapSmall(y - h.base + c.space, c.space);
  }
}
