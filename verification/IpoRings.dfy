/**
 Which ring sizes keep the order.  Past the synchronisation the ring is read from
 the slot behind the last processed number on, so the order is kept if and only
 if the slots of the numbers within reach come up in the order of the numbers.
 That is so for the sizes that divide the number space and for one more: half
 the space plus one.
 */
module IpoRings {
  import opened Modular
  import opened IpoModel
  import opened IpoOrdering
  import opened IpoRuns
  import opened IpoTiming
  import opened IpoSteady
  import opened IpoBreaks

  /** A number that is not late and at most a ring ahead. */
  predicate InReach(c: Config, last: nat, number: nat)
    requires c.Valid()
  {
    0 < Ahead(c, last, number) < c.Half() && Ahead(c, last, number) <= c.Ring()
  }

  /** How many slots behind the one that follows the last processed number a number's slot comes up. */
  function Offset(c: Config, last: nat, number: nat): (o: nat)
    requires c.Valid()
    ensures o < c.Ring()
  {
    Wrap(number - (last + 1), c.Ring())
  }

  predicate TwoInReach(c: Config, last: nat, m: nat, n: nat)
    requires c.Valid()
  {
    && last < c.space && m < c.space && n < c.space
    && InReach(c, last, m) && InReach(c, last, n) && Ahead(c, last, m) < Ahead(c, last, n)
  }

  /** The slots of the numbers within reach come up in the order of the numbers. */
  ghost predicate SlotsInOrder(c: Config)
    requires c.Valid()
  {
    forall last: nat, m: nat, n: nat :: TwoInReach(c, last, m, n) ==> Offset(c, last, m) < Offset(c, last, n)
  }

  // ---- the sizes -----------------------------------------------------------------------------

  lemma NumberAhead(c: Config, last: nat, number: nat)
    requires c.Valid() && last < c.space && number < c.space
    ensures number == last + Ahead(c, last, number) || number == last + Ahead(c, last, number) - c.space
  {
    hide Wrap;
    if number < last {
      WrapTurn(number - last, c.space);
      WrapSmall(number - last + c.space, c.space);
    } else {
      WrapSmall(number - last, c.space);
    }
  }

  /** In a ring that divides the number space the slots come up number by number. */
  lemma DividingOffset(c: Config, last: nat, number: nat)
    requires c.Valid() && Consecutive(c) && last < c.space && number < c.space && InReach(c, last, number)
    ensures Offset(c, last, number) == Ahead(c, last, number) - 1
  {
    hide Wrap, Config.Ring;
    var d, r := Ahead(c, last, number), c.Ring();
    NumberAhead(c, last, number);
    WrapSmall(d - 1, r);
    WrapAcross(d - 1 - c.space, c.space, r);
  }

  /** With one slot more than half the space, two slots stay empty where the numbers turn. */
  lemma HalfOffset(c: Config, last: nat, number: nat)
    requires c.Valid() && c.Ring() == c.Half() + 1 && last < c.space && number < c.space && InReach(c, last, number)
    ensures Offset(c, last, number) == Ahead(c, last, number) + (if last < number then -1 else 1)
  {
    hide Wrap, Ahead, Config.Ring, Config.Half, Config.Valid;
    var d := Ahead(c, last, number);
    NumberAhead(c, last, number);
    TwoHalves(c);
    HalfTurn(d, c.Half(), c.Ring());
  }

  lemma HalfTurn(d: nat, half: nat, r: nat)
    requires r == half + 1 && 0 < d < half
    ensures Wrap(d - 1, r) == d - 1 && Wrap(d - 1 - (half + half), r) == d + 1
  {
    hide Wrap;
    WrapSmall(d - 1, r);
    WrapTurn(d - 1 - (half + half), r);
    WrapTurn(d - half, r);
    WrapSmall(d + 1, r);
  }

  lemma HalfInOrder(c: Config, last: nat, m: nat, n: nat)
    requires c.Valid() && c.Ring() == c.Half() + 1 && TwoInReach(c, last, m, n)
    ensures Offset(c, last, m) < Offset(c, last, n)
  {
    hide Wrap, Offset, Config.Ring;
    HalfOffset(c, last, m);
    HalfOffset(c, last, n);
    NumberAhead(c, last, m);
    NumberAhead(c, last, n);
  }

  /** Exactly these sizes have their slots in order. */
  lemma SlotsInOrderIff(c: Config)
    requires c.Valid()
    ensures SlotsInOrder(c) <==> Consecutive(c) || c.Ring() == c.Half() + 1
  {
    hide Wrap, Offset, Ahead, Config.Ring, Consecutive;
    if Consecutive(c) || c.Ring() == c.Half() + 1 {
      forall last: nat, m: nat, n: nat | TwoInReach(c, last, m, n)
        ensures Offset(c, last, m) < Offset(c, last, n)
      {
        if Consecutive(c) {
          DividingOffset(c, last, m);
          DividingOffset(c, last, n);
        } else {
          HalfInOrder(c, last, m, n);
        }
      }
    } else {
      MisplacedOutOfOrder(c);
    }
  }

  /** The number whose slot follows that of the last number comes up before number 0. */
  lemma MisplacedOutOfOrder(c: Config)
    requires c.Valid() && !Consecutive(c) && c.Ring() != c.Half() + 1
    ensures TwoInReach(c, c.space - 1, 0, Misplaced(c))
    ensures Offset(c, c.space - 1, 0) >= Offset(c, c.space - 1, Misplaced(c))
  {
    hide Wrap;
    var j := Misplaced(c);
    MisplacedWithinReach(c);
    AheadOfLast(c, 0);
    AheadOfLast(c, j);
    MisplacedOffset(c);
  }

  lemma MisplacedOffset(c: Config)
    requires c.Valid()
    ensures Offset(c, c.space - 1, Misplaced(c)) == 0
  {
    hide Wrap;
    var m: int := c.space;
    WrapAdd(m, -m, c.Ring());
    WrapSmall(0, c.Ring());
  }

  // ---- a stream past its synchronisation -------------------------------------------------------

  /** Every packet held is in its own slot and within reach. */
  ghost predicate HeldInReach(c: Config, s: Stream)
    requires WellFormed(c, s)
  {
    forall i :: 0 <= i < |s.slots| && s.slots[i].valid ==>
      i == Wrap(s.slots[i].number, c.Ring()) && InReach(c, s.last, s.slots[i].number)
  }

  /** The ring is read from behind the last processed number on, whatever the ring's size. */
  ghost predicate CaughtUp(c: Config, s: Stream) {
    && WellFormed(c, s) && Started(s) && (!s.mode.Running? ==> Empty(s.slots))
    && s.index == Wrap(s.last + 1, c.Ring())
    && s.startTime <= s.now && HeldSinceStart(s)
    && HeldInReach(c, s)
  }

  /** A number's slot is as many positions from the index on as its offset says. */
  lemma OffsetIsPosition(c: Config, s: Stream, number: nat)
    requires WellFormed(c, s) && s.index == Wrap(s.last + 1, c.Ring()) && number < c.space
    ensures Wrap(s.index + Offset(c, s.last, number), c.Ring()) == Wrap(number, c.Ring())
  {
    hide Wrap, Config.Ring;
    var r := c.Ring();
    WrapAdd(s.last + 1, Wrap(number - (s.last + 1), r), r);
    WrapAdd(number - (s.last + 1), s.last + 1, r);
  }

  /** What is held at a position is a number within reach with that offset. */
  lemma HeldAt(c: Config, s: Stream, o: nat)
    requires CaughtUp(c, s) && o < c.Ring() && Cell(s.slots, s.index + o).valid
    ensures var n := Cell(s.slots, s.index + o).number;
      n < c.space && InReach(c, s.last, n) && Offset(c, s.last, n) == o
  {
    hide Wrap, Config.Ring, InReach, Offset;
    var n := Cell(s.slots, s.index + o).number;
    OffsetIsPosition(c, s, n);
    WrapInjective(s.index + o, s.index + Offset(c, s.last, n), c.Ring());
  }

  /** Where slots are in order, what comes up later is further ahead. */
  lemma LaterIsAhead(c: Config, last: nat, m: nat, n: nat)
    requires c.Valid() && SlotsInOrder(c) && last < c.space && m < c.space && n < c.space
    requires InReach(c, last, m) && InReach(c, last, n) && Offset(c, last, m) < Offset(c, last, n)
    ensures Ahead(c, last, m) < Ahead(c, last, n)
    ensures Ahead(c, m, n) == Ahead(c, last, n) - Ahead(c, last, m) && InReach(c, m, n)
  {
    hide Wrap, Offset, Config.Ring;
    if Ahead(c, last, m) == Ahead(c, last, n) {
      NumberAhead(c, last, m);
      NumberAhead(c, last, n);
    } else if Ahead(c, last, n) < Ahead(c, last, m) {
      assert TwoInReach(c, last, n, m);
    }
    WrapSub(n - last, m - last, c.space);
    WrapAdd(n - last, -Wrap(m - last, c.space), c.space);
    WrapSmall(Ahead(c, last, n) - Ahead(c, last, m), c.space);
  }

  // ---- one arrival -----------------------------------------------------------------------------

  /** The first copy of a number within reach finds its slot empty. */
  lemma FreshOverwritesNothing(c: Config, s: Stream, p: Packet)
    requires CaughtUp(c, s) && SlotsInOrder(c) && Known(c, p)
    requires Classify(c, s, p).Fresh? && Ahead(c, s.last, p.number) <= c.Ring()
    ensures !s.slots[Wrap(p.number, c.Ring())].valid
  {
    hide Wrap, Config.Ring, Offset, SlotsInOrder;
    var slot := s.slots[Wrap(p.number, c.Ring())];
    if slot.valid {
      NumberAhead(c, s.last, slot.number);
      NumberAhead(c, s.last, p.number);
      SameSlotSameOffset(c, s.last, slot.number, p.number);
      if Ahead(c, s.last, slot.number) < Ahead(c, s.last, p.number) {
        InOrder(c, s.last, slot.number, p.number);
      } else {
        InOrder(c, s.last, p.number, slot.number);
      }
    }
  }

  lemma InOrder(c: Config, last: nat, m: nat, n: nat)
    requires c.Valid() && SlotsInOrder(c) && TwoInReach(c, last, m, n)
    ensures Offset(c, last, m) < Offset(c, last, n)
  {
  }

  lemma SameSlotSameOffset(c: Config, last: nat, m: nat, n: nat)
    requires c.Valid() && Wrap(m, c.Ring()) == Wrap(n, c.Ring())
    ensures Offset(c, last, m) == Offset(c, last, n)
  {
    var d: int := last + 1;
    WrapShift(m, n, -d, c.Ring());
  }

  lemma CaughtUpArrive(c: Config, s: Stream, h: History, a: Arrival)
    requires CaughtUp(c, s) && SlotsInOrder(c) && Conserved(s, h) && KnownArrival(c, a) && SteadyArrival(c, s, a)
    ensures CaughtUp(c, ArriveOne(c, s, a)) && ArriveOne(c, s, a).last == s.last
    ensures Conserved(ArriveOne(c, s, a), ArriveOneHistory(c, s, h, a))
    ensures ArriveOneHistory(c, s, h, a).skipped == h.skipped
  {
    hide Wrap, Pending, Packets, SlotsInOrder, InReach;
    if a.Good? {
      var p := a.packet;
      var w := Wake(c, s, p);
      assert CaughtUp(c, w);
      if Classify(c, w, p).Fresh? {
        FreshIsHeld(c, w, h, p);
      }
    }
  }

  lemma FreshIsHeld(c: Config, w: Stream, h: History, p: Packet)
    requires CaughtUp(c, w) && SlotsInOrder(c) && w.mode.Running? && Conserved(w, h) && Known(c, p)
    requires Classify(c, w, p).Fresh? && Ahead(c, w.last, p.number) <= c.Ring()
    ensures CaughtUp(c, Arrive(c, w, p))
    ensures Conserved(Arrive(c, w, p), h.(accepted := h.accepted + [Stored(w, p)]))
  {
    hide Wrap, Conserved, SlotsInOrder;
    FreshOverwritesNothing(c, w, p);
    FreshConserves(c, w, h, p);
  }

  // ---- one poll --------------------------------------------------------------------------------

  /** Packet `j` is ahead of the one handed over before it by less than half the number space. */
  predicate StepAhead(c: Config, last: nat, packets: seq<Slot>, j: nat)
    requires c.Valid() && j < |packets|
  {
    0 < Ahead(c, if j == 0 then last else packets[j - 1].number, packets[j].number) < c.Half()
  }

  predicate Advances(c: Config, last: nat, packets: seq<Slot>)
    requires c.Valid()
  {
    forall j :: 0 <= j < |packets| ==> StepAhead(c, last, packets, j)
  }

  /** The packets of a chunk come up one behind the other. */
  lemma ChunkOffset(c: Config, s: Stream, o: Outcome, k0: nat, n: nat, j: nat)
    requires CaughtUp(c, s) && k0 <= c.Ring() && j < n
    requires Parts(c, s, k0, 0, n, s.slots, o)
    ensures k0 + n <= c.Ring() && |o.chunk.packets| == n && o.chunk.packets[j].number < c.space
    ensures InReach(c, s.last, o.chunk.packets[j].number) && Offset(c, s.last, o.chunk.packets[j].number) == k0 + j
  {
    hide Wrap, Cell, Clear, Cells, InReach, Offset, Config.Ring, Parts;
    PartsPacket(c, s, k0, 0, n, s.slots, o, j);
    HeldAt(c, s, k0 + j);
  }

  lemma ChunkAdvances(c: Config, s: Stream, o: Outcome, k0: nat, n: nat)
    requires CaughtUp(c, s) && SlotsInOrder(c) && k0 <= c.Ring() && n == |o.chunk.packets|
    requires Parts(c, s, k0, 0, n, s.slots, o)
    ensures Advances(c, s.last, o.chunk.packets)
  {
    hide Wrap, Cell, Clear, Cells, Offset, Config.Ring, Parts, SlotsInOrder, CaughtUp, Ahead;
    CaughtUpLast(c, s);
    var packets := o.chunk.packets;
    forall j | 0 <= j < n
      ensures StepAhead(c, s.last, packets, j)
    {
      ChunkOffset(c, s, o, k0, n, j);
      if j > 0 {
        ChunkOffset(c, s, o, k0, n, j - 1);
        LaterIsAhead(c, s.last, packets[j - 1].number, packets[j].number);
      }
    }
  }

  lemma CaughtUpLast(c: Config, s: Stream)
    requires CaughtUp(c, s)
    ensures WellFormed(c, s) && c.Valid() && s.last < c.space
  {
  }

  /** What a delivery leaves is within reach of the last packet delivered. */
  lemma LeftInReach(c: Config, s: Stream, o: Outcome, k0: nat, n: nat, i: nat)
    requires CaughtUp(c, s) && SlotsInOrder(c) && k0 <= c.Ring() && 0 < n && WellFormed(c, o.next)
    requires Parts(c, s, k0, 0, n, s.slots, o) && i < |o.next.slots| && o.next.slots[i].valid
    ensures i == Wrap(o.next.slots[i].number, c.Ring()) && InReach(c, o.next.last, o.next.slots[i].number)
    ensures o.next.slots[i] == s.slots[i]
  {
    hide Wrap, Clear, Cells, Offset, Config.Ring, SlotsInOrder, InReach;
    var off := Wrap(i - s.index, c.Ring());
    WrapAdd(i - s.index, s.index, c.Ring());
    WrapSmall(i, c.Ring());
    PartsPassed(c, s, k0, 0, n, s.slots, o);
    assert Cell(o.next.slots, s.index + off) == o.next.slots[i];
    assert Cell(s.slots, s.index + off) == s.slots[i];
    HeldAt(c, s, off);
    ChunkOffset(c, s, o, k0, n, n - 1);
    LaterIsAhead(c, s.last, o.chunk.packets[n - 1].number, s.slots[i].number);
  }

  lemma IndexFollowsLast(c: Config, s: Stream, o: Outcome, k0: nat, n: nat)
    requires CaughtUp(c, s) && k0 <= c.Ring() && 0 < n
    requires Parts(c, s, k0, 0, n, s.slots, o)
    ensures o.next.index == Wrap(o.next.last + 1, c.Ring())
  {
    hide Wrap, Clear, Cells, Offset, Config.Ring, InReach;
    ChunkOffset(c, s, o, k0, n, n - 1);
    OffsetIsPosition(c, s, o.next.last);
    WrapShift(s.index + k0 + n - 1, o.next.last, 1, c.Ring());
  }

  lemma CaughtUpProductive(c: Config, s: Stream, h: History)
    requires CaughtUp(c, s) && SlotsInOrder(c) && Conserved(s, h) && Productive(c, s)
    ensures var o, g := Poll(c, s), PollHistory(c, s, h);
      CaughtUp(c, o.next) && Conserved(o.next, g) && g.skipped == h.skipped && Advances(c, s.last, o.chunk.packets)
  {
    hide Wrap, EmptyRun, Poll, PollHistory, Clear, Cell, Cells, Conserved, SlotsInOrder, Productive, Parts, Advances;
    hide Offset, InReach, Config.Ring;
    var o := Poll(c, s);
    var k0, n := EmptyRun(s.slots, s.index, c.Ring()), |o.chunk.packets|;
    ProductiveParts(c, s);
    ProductiveProgress(c, s, o);
    ProductiveRuns(c, s);
    NothingSkipped(c, s);
    ClearNothing(s.slots, s.index + k0);
    ProductiveHistory(c, s, h, o, h.base + k0);
    ProductiveConserves(c, s, h);
    ChunkAdvances(c, s, o, k0, n);
    IndexFollowsLast(c, s, o, k0, n);
    forall i | 0 <= i < |o.next.slots| && o.next.slots[i].valid
      ensures i == Wrap(o.next.slots[i].number, c.Ring()) && InReach(c, o.next.last, o.next.slots[i].number)
      ensures o.next.slots[i] == s.slots[i]
    {
      LeftInReach(c, s, o, k0, n, i);
    }
  }

  lemma CaughtUpIdle(c: Config, s: Stream, h: History)
    requires CaughtUp(c, s) && Conserved(s, h) && !Productive(c, s)
    ensures CaughtUp(c, Poll(c, s).next) && Conserved(Poll(c, s).next, PollHistory(c, s, h))
    ensures PollHistory(c, s, h) == h && Poll(c, s).chunk.packets == []
  {
    hide Wrap, Cell, EmptyRun, SyncAndDeliver, InReach, Pending, Packets, Config.Ring;
    UnproductivePoll(c, s);
    EmptyTurn(s.slots, s.index);
  }

  lemma CaughtUpPoll(c: Config, s: Stream, h: History)
    requires CaughtUp(c, s) && SlotsInOrder(c) && Conserved(s, h)
    ensures var o, g := Poll(c, s), PollHistory(c, s, h);
      CaughtUp(c, o.next) && Conserved(o.next, g) && g.skipped == h.skipped && Advances(c, s.last, o.chunk.packets)
  {
    hide CaughtUp, Conserved, SlotsInOrder, Productive, Poll, PollHistory, StepAhead;
    CaughtUpLast(c, s);
    if Productive(c, s) {
      CaughtUpProductive(c, s, h);
    } else {
      CaughtUpIdle(c, s, h);
    }
  }

  // ---- runs ------------------------------------------------------------------------------------

  /** Every call of the run hands over packets that are ahead of what was processed before. */
  ghost predicate DeliversInOrder(c: Config, s: Stream, calls: seq<Call>)
    requires WellFormed(c, s) && forall call :: call in calls ==> KnownCall(c, call)
    decreases |calls|
  {
    calls == [] ||
    var init, call := calls[..|calls| - 1], calls[|calls| - 1];
    assert call in calls && KnownCall(c, call);
    && DeliversInOrder(c, s, init)
    && Advances(c, Run(c, s, init).last, GetNextChunk(c, Run(c, s, init), call).chunk.packets)
  }

  lemma {:induction false} CaughtUpArrivals(c: Config, s: Stream, h: History, arrivals: seq<Arrival>)
    requires CaughtUp(c, s) && SlotsInOrder(c) && Conserved(s, h)
    requires forall a :: a in arrivals ==> KnownArrival(c, a)
    requires SteadyArrivals(c, s, arrivals)
    ensures CaughtUp(c, ArriveAll(c, s, arrivals)) && ArriveAll(c, s, arrivals).last == s.last
    ensures Conserved(ArriveAll(c, s, arrivals), ArriveAllHistory(c, s, h, arrivals))
    ensures ArriveAllHistory(c, s, h, arrivals).skipped == h.skipped
    decreases |arrivals|
  {
    hide CaughtUp, Conserved, SlotsInOrder, ArriveOne, ArriveOneHistory, SteadyArrival;
    CaughtUpLast(c, s);
    if arrivals != [] {
      var init, a := arrivals[..|arrivals| - 1], arrivals[|arrivals| - 1];
      assert a in arrivals;
      CaughtUpArrivals(c, s, h, init);
      CaughtUpArrive(c, ArriveAll(c, s, init), ArriveAllHistory(c, s, h, init), a);
    }
  }

  lemma CaughtUpTick(c: Config, s: Stream, h: History, now: int)
    requires CaughtUp(c, s) && Conserved(s, h) && s.now <= now
    ensures CaughtUp(c, Tick(c, s, now)) && Conserved(Tick(c, s, now), h) && Tick(c, s, now).last == s.last
  {
    hide Wrap, Pending, Packets, InReach;
  }

  lemma CaughtUpCall(c: Config, s: Stream, h: History, call: Call)
    requires CaughtUp(c, s) && SlotsInOrder(c) && Conserved(s, h) && KnownCall(c, call) && s.now <= call.now
    requires SteadyArrivals(c, Tick(c, s, call.now), call.arrivals)
    ensures var o, g := GetNextChunk(c, s, call), CallHistory(c, s, h, call);
      CaughtUp(c, o.next) && Conserved(o.next, g) && g.skipped == h.skipped && Advances(c, s.last, o.chunk.packets)
  {
    hide WellFormed, SlotsInOrder, CaughtUp, Conserved, Tick;
    hide ArriveAll, ArriveAllHistory, SteadyArrivals, Poll, PollHistory;
    CaughtUpLast(c, s);
    CaughtUpTick(c, s, h, call.now);
    var t := Tick(c, s, call.now);
    CaughtUpLast(c, t);
    CaughtUpArrivals(c, t, h, call.arrivals);
    CaughtUpPoll(c, ArriveAll(c, t, call.arrivals), ArriveAllHistory(c, t, h, call.arrivals));
  }

  /**
   In a ring whose slots are in order a stream past its synchronisation delivers in
   order, skips nothing and keeps every accepted packet until it is delivered.
   */
  lemma {:induction false} CaughtUpRun(c: Config, s: Stream, h: History, calls: seq<Call>)
    requires CaughtUp(c, s) && SlotsInOrder(c) && Conserved(s, h)
    requires forall call :: call in calls ==> KnownCall(c, call)
    requires Forward(s.now, calls) && SteadyRun(c, s, calls)
    ensures CaughtUp(c, Run(c, s, calls)) && DeliversInOrder(c, s, calls)
    ensures Conserved(Run(c, s, calls), RunHistory(c, s, h, calls))
    ensures RunHistory(c, s, h, calls).skipped == h.skipped
    decreases |calls|
  {
    hide WellFormed, CaughtUp, Conserved, SlotsInOrder, GetNextChunk, CallHistory, SteadyArrivals, Advances;
    CaughtUpLast(c, s);
    if calls != [] {
      var init, call := calls[..|calls| - 1], calls[|calls| - 1];
      assert call in calls && KnownCall(c, call);
      CaughtUpRun(c, s, h, init);
      RunNow(c, s, init);
      RunNow(c, s, calls);
      CallNow(c, Run(c, s, init), call);
      CaughtUpCall(c, Run(c, s, init), RunHistory(c, s, h, init), call);
    }
  }

  /**
   With half the number space or more, whatever arrives between restarts: order, and
   every accepted packet is delivered or still held.
   */
  lemma WideRingInOrder(c: Config, s: Stream, h: History, calls: seq<Call>)
    requires CaughtUp(c, s) && SlotsInOrder(c) && Conserved(s, h) && c.Half() <= c.Ring()
    requires forall call :: call in calls ==> KnownCall(c, call)
    requires Forward(s.now, calls) && NoRestart(c, s, calls)
    ensures var r, g := Run(c, s, calls), RunHistory(c, s, h, calls);
      && DeliversInOrder(c, s, calls)
      && multiset(g.accepted) == multiset(Packets(g.log)) + multiset(h.skipped) + Pending(r.slots)
  {
    hide Run, RunHistory, CaughtUp, SlotsInOrder, Packets, Pending;
    CaughtUpLast(c, s);
    NoRestartIsSteady(c, s, calls);
    CaughtUpRun(c, s, h, calls);
  }

  // ---- coming past the synchronisation -------------------------------------------------------------

  /** What is stored lies in its own slot, whatever arrives. */
  ghost predicate OwnSlots(c: Config, s: Stream) {
    && WellFormed(c, s) && (!s.mode.Running? ==> Empty(s.slots))
    && forall i :: 0 <= i < |s.slots| && s.slots[i].valid ==> i == Wrap(s.slots[i].number, c.Ring())
  }

  lemma OwnSlotsArrive(c: Config, s: Stream, a: Arrival)
    requires OwnSlots(c, s) && !s.mode.NotStarted? && KnownArrival(c, a)
    ensures OwnSlots(c, ArriveOne(c, s, a)) && !ArriveOne(c, s, a).mode.NotStarted?
  {
    hide Wrap;
  }

  lemma OwnSlotsPoll(c: Config, s: Stream)
    requires OwnSlots(c, s)
    ensures OwnSlots(c, Poll(c, s).next)
  {
    hide Wrap, Cell, Clear, EmptyRun, Config.Ring, Parts, Poll;
    if Productive(c, s) {
      ProductiveRuns(c, s);
      ProductiveParts(c, s);
      OnlyCleared(c, s, EmptyRun(s.slots, s.index, c.Ring()), Poll(c, s));
    } else {
      OwnSlotsIdle(c, s);
    }
  }

  lemma OwnSlotsIdle(c: Config, s: Stream)
    requires OwnSlots(c, s) && !Productive(c, s)
    ensures OwnSlots(c, Poll(c, s).next)
  {
    hide Wrap, Cell, EmptyRun, SyncAndDeliver, Config.Ring;
    UnproductivePoll(c, s);
    EmptyTurn(s.slots, s.index);
  }

  lemma OnlyCleared(c: Config, s: Stream, k0: nat, o: Outcome)
    requires WellFormed(c, s)
    requires Parts(c, s, k0, |o.skipped|, |o.chunk.packets|, Clear(s.slots, s.index + k0, |o.skipped|), o)
    ensures |o.next.slots| == |s.slots|
    ensures forall i :: 0 <= i < |s.slots| && o.next.slots[i].valid ==> o.next.slots[i] == s.slots[i]
  {
    hide Wrap, Cell, Cells, Config.Ring;
  }

  lemma {:induction false} OwnSlotsArriveAll(c: Config, s: Stream, arrivals: seq<Arrival>)
    requires OwnSlots(c, s) && !s.mode.NotStarted? && forall a :: a in arrivals ==> KnownArrival(c, a)
    ensures OwnSlots(c, ArriveAll(c, s, arrivals)) && !ArriveAll(c, s, arrivals).mode.NotStarted?
    decreases |arrivals|
  {
    hide ArriveOne;
    if arrivals != [] {
      var init, a := arrivals[..|arrivals| - 1], arrivals[|arrivals| - 1];
      assert a in arrivals;
      OwnSlotsArriveAll(c, s, init);
      OwnSlotsArrive(c, ArriveAll(c, s, init), a);
    }
  }

  lemma OwnSlotsBeforePoll(c: Config, s: Stream, call: Call)
    requires OwnSlots(c, s) && KnownCall(c, call)
    ensures WellFormed(c, Tick(c, s, call.now)) && OwnSlots(c, ArriveAll(c, Tick(c, s, call.now), call.arrivals))
  {
    hide ArriveAll;
    OwnSlotsArriveAll(c, Tick(c, s, call.now), call.arrivals);
  }

  lemma {:induction false} OwnSlotsRun(c: Config, first: Stream, calls: seq<Call>)
    requires c.Valid() && PoweredOn(c, first) && forall call :: call in calls ==> KnownCall(c, call)
    ensures OwnSlots(c, first) && OwnSlots(c, Run(c, first, calls))
    decreases |calls|
  {
    hide ArriveAll, Poll, OwnSlots, Tick;
    PoweredOnOwnSlots(c, first);
    if calls != [] {
      var init, call := calls[..|calls| - 1], calls[|calls| - 1];
      assert call in calls && KnownCall(c, call);
      OwnSlotsRun(c, first, init);
      OwnSlotsBeforePoll(c, Run(c, first, init), call);
      OwnSlotsPoll(c, ArriveAll(c, Tick(c, Run(c, first, init), call.now), call.arrivals));
    }
  }

  lemma PoweredOnOwnSlots(c: Config, first: Stream)
    requires c.Valid() && PoweredOn(c, first)
    ensures WellFormed(c, first) && OwnSlots(c, first)
  {
    hide Wrap;
  }

  /** A delivery leaves the ring to be read from behind the last processed number on. */
  lemma DeliveryFollowsLast(c: Config, s: Stream)
    requires OwnSlots(c, s) && Poll(c, s).chunk.packets != []
    ensures Poll(c, s).next.index == Wrap(Poll(c, s).next.last + 1, c.Ring())
  {
    hide Wrap, Cell, Clear, EmptyRun, Config.Ring, Poll, Parts;
    var o := Poll(c, s);
    if Productive(c, s) {
      var k0 := EmptyRun(s.slots, s.index, c.Ring());
      ProductiveParts(c, s);
      LastPosition(c, s, k0, |o.skipped|, |o.chunk.packets|, Clear(s.slots, s.index + k0, |o.skipped|), o);
    } else {
      UnproductivePoll(c, s);
    }
  }

  lemma LastPosition(c: Config, s: Stream, k0: nat, k: nat, n: nat, synced: seq<Slot>, o: Outcome)
    requires OwnSlots(c, s) && Parts(c, s, k0, k, n, synced, o) && k0 <= c.Ring() && 0 < n
    ensures o.next.index == Wrap(o.next.last + 1, c.Ring())
  {
    hide Wrap, Clear, Cells, Config.Ring;
    var y := s.index + k0 + k + n - 1;
    PassedPositions(s.slots, s.index, k0, k, n, synced);
    assert Cell(synced, y) == Cell(s.slots, y) && Cell(s.slots, y).valid;
    WrapShift(y, o.next.last, 1, c.Ring());
  }

  /**
   In any run from power-on, with no hypothesis on what arrived: a call that delivers,
   and leaves only packets within reach and from the start time on, ends the
   synchronisation.
   */
  lemma RunCatchesUp(c: Config, first: Stream, calls: seq<Call>, call: Call)
    requires c.Valid() && PoweredOn(c, first) && KnownCall(c, call) && forall x :: x in calls ==> KnownCall(c, x)
    requires WellFormed(c, first) && GetNextChunk(c, Run(c, first, calls), call).chunk.packets != []
    requires HeldSinceStart(GetNextChunk(c, Run(c, first, calls), call).next)
    requires HeldInReach(c, GetNextChunk(c, Run(c, first, calls), call).next)
    ensures CaughtUp(c, GetNextChunk(c, Run(c, first, calls), call).next)
  {
    hide ArriveAll, Poll, OwnSlots, Tick, Run, HeldSinceStart, HeldInReach, PoweredOn;
    OwnSlotsRun(c, first, calls);
    var s := Run(c, first, calls);
    OwnSlotsBeforePoll(c, s, call);
    var a := ArriveAll(c, Tick(c, s, call.now), call.arrivals);
    DeliveryFollowsLast(c, a);
    DeliveryAfterStart(c, a);
    OwnSlotsPoll(c, a);
    OwnSlotsEmpty(c, Poll(c, a).next);
  }

  lemma OwnSlotsEmpty(c: Config, s: Stream)
    requires OwnSlots(c, s)
    ensures WellFormed(c, s) && (!s.mode.Running? ==> Empty(s.slots))
  {
  }

  /** A steady state is one that is past its synchronisation, in a ring whose slots are in order. */
  lemma SteadyIsCaughtUp(c: Config, s: Stream, h: History)
    requires Steady(c, s, h)
    ensures CaughtUp(c, s) && SlotsInOrder(c)
  {
    hide Wrap, Conserved, Ordered, LogReaches, Genuine, SkippedEarly, WindowInPlace, SlotsInOrder, InReach;
    SlotsInOrderIff(c);
    SteadyIndex(c, s, h);
    forall i | 0 <= i < |s.slots| && s.slots[i].valid
      ensures i == Wrap(s.slots[i].number, c.Ring()) && InReach(c, s.last, s.slots[i].number)
    {
      SteadySlot(c, s, h, i);
    }
  }

  lemma SteadyIndex(c: Config, s: Stream, h: History)
    requires Aligned(c, s, h) && h.base == h.lastNum + 1
    ensures s.index == Wrap(s.last + 1, c.Ring())
  {
    hide Wrap;
    WrapOfWrap(h.lastNum, c.space, c.Ring());
    WrapShift(s.last, h.lastNum, 1, c.Ring());
  }

  lemma SteadySlot(c: Config, s: Stream, h: History, i: nat)
    requires Aligned(c, s, h) && h.base == h.lastNum + 1 && i < |s.slots| && s.slots[i].valid
    ensures i == Wrap(s.slots[i].number, c.Ring()) && InReach(c, s.last, s.slots[i].number)
  {
    hide Wrap;
    var y := h.base + Wrap(i - h.base, c.Ring());
    WrapAdd(i - h.base, h.base, c.Ring());
    WrapSmall(i, c.Ring());
    assert InPlace(c, Cell(s.slots, y), y + 0, h.lastNum);
    WrapOfWrap(y, c.space, c.Ring());
    AheadOfNumber(c, s, h, y);
  }

  // ---- the exact sizes ---------------------------------------------------------------------------

  lemma RunOn(c: Config, s: Stream, calls: seq<Call>, call: Call)
    requires WellFormed(c, s) && KnownCall(c, call) && forall x :: x in calls ==> KnownCall(c, x)
    ensures forall x :: x in calls + [call] ==> KnownCall(c, x)
    ensures Run(c, s, calls + [call]) == GetNextChunk(c, Run(c, s, calls), call).next
    ensures DeliversInOrder(c, s, calls + [call])
            <==> DeliversInOrder(c, s, calls)
                 && Advances(c, Run(c, s, calls).last, GetNextChunk(c, Run(c, s, calls), call).chunk.packets)
    ensures SteadyRun(c, s, calls + [call])
            <==> SteadyRun(c, s, calls) && SteadyArrivals(c, Tick(c, Run(c, s, calls), call.now), call.arrivals)
  {
    hide GetNextChunk, Advances, SteadyArrivals, Tick;
    assert (calls + [call])[..|calls|] == calls;
  }

  /** The last number is received and delivered. */
  function ToTheTurn(c: Config): seq<Call>
    requires c.Valid()
  {
    [] + [Quiet(0)] + [CallToAnchor(c)] + [Quiet(2 * c.hold + 1)]
  }

  /** Number 0 and the number of the slot read next are received together and delivered. */
  function OverTheTurn(c: Config): seq<Call>
    requires c.Valid()
  {
    [] + [CallToMix(c)] + [Quiet(3 * c.hold + 2)] + [Quiet(3 * c.hold + 2)]
  }

  lemma TurnIsReached(c: Config)
    requires c.Valid() && 0 < Misplaced(c)
    ensures forall x :: x in ToTheTurn(c) ==> KnownCall(c, x)
    ensures Run(c, Initial(c), ToTheTurn(c)) == LastDelivered(c) && CaughtUp(c, LastDelivered(c))
  {
    hide GetNextChunk, Initial, Wrap, LastDelivered, CaughtUp;
    hide Run, KnownCall, SteadyRun, DeliversInOrder, AnchoredAtLast;
    AnchorIsReached(c);
    LastIsDelivered(c);
    InitialWellFormed(c);
    NoCalls(c, Initial(c));
    RunOn(c, Initial(c), [], Quiet(0));
    RunOn(c, Initial(c), [] + [Quiet(0)], CallToAnchor(c));
    QuietCall(c, AnchoredAtLast(c), 2 * c.hold + 1);
    RunOn(c, Initial(c), [] + [Quiet(0)] + [CallToAnchor(c)], Quiet(2 * c.hold + 1));
    TurnIsCaughtUp(c);
  }

  lemma InitialWellFormed(c: Config)
    requires c.Valid()
    ensures WellFormed(c, Initial(c))
  {
  }

  lemma NoCalls(c: Config, s: Stream)
    requires WellFormed(c, s)
    ensures Run(c, s, []) == s && DeliversInOrder(c, s, []) && SteadyRun(c, s, [])
  {
  }

  lemma TurnIsCaughtUp(c: Config)
    requires c.Valid() && 0 < Misplaced(c)
    ensures CaughtUp(c, LastDelivered(c))
  {
    hide Wrap;
  }

  lemma TwoSteadyArrivals(c: Config, s: Stream, p: Packet, q: Packet)
    requires WellFormed(c, s) && Known(c, p) && Known(c, q)
    requires SteadyArrival(c, s, Good(p)) && SteadyArrival(c, Arrive(c, s, p), Good(q))
    ensures SteadyArrivals(c, s, [Good(p), Good(q)])
  {
    hide Arrive, SteadyArrival;
    OneArrival(c, s, p);
    OneSteadyArrival(c, s, p);
    assert [Good(p), Good(q)][..1] == [Good(p)];
  }

  lemma OneSteadyArrival(c: Config, s: Stream, p: Packet)
    requires WellFormed(c, s) && Known(c, p) && SteadyArrival(c, s, Good(p))
    ensures SteadyArrivals(c, s, [Good(p)])
  {
    hide SteadyArrival;
    assert [Good(p)][..0] == [];
  }

  /** What arrives in a running stream at most a ring ahead is steady. */
  lemma RunningIsSteady(c: Config, s: Stream, p: Packet)
    requires WellFormed(c, s) && s.mode.Running? && Known(c, p) && Ahead(c, s.last, p.number) <= c.Ring()
    ensures SteadyArrival(c, s, Good(p)) && Arrive(c, s, p).mode.Running? && Arrive(c, s, p).last == s.last
  {
    hide Ahead, Wrap, Classify;
  }

  lemma MixIsSteady(c: Config)
    requires c.Valid() && 0 < Misplaced(c) && Misplaced(c) + 1 < c.Half()
    ensures KnownCall(c, CallToMix(c)) && WellFormed(c, LastDelivered(c))
    ensures SteadyArrivals(c, Tick(c, LastDelivered(c), 2 * c.hold + 1), CallToMix(c).arrivals)
  {
    hide Wrap, Classify, Ahead, Config.Ring, Arrive, SteadyArrival;
    var s := Tick(c, LastDelivered(c), 2 * c.hold + 1);
    var zero, later := Packet(0, 0, 0), Packet(0, Misplaced(c), 0);
    TurnIsCaughtUp(c);
    AheadOfLast(c, 0);
    AheadOfLast(c, Misplaced(c));
    RunningIsSteady(c, s, zero);
    RunningIsSteady(c, Arrive(c, s, zero), later);
    TwoSteadyArrivals(c, s, zero, later);
  }

  lemma NumberZeroIsLate(c: Config)
    requires c.Valid() && 0 < Misplaced(c) && Misplaced(c) + 1 < c.Half()
    ensures Ahead(c, Misplaced(c), 0) >= c.Half()
  {
    hide Wrap;
    NumberAhead(c, Misplaced(c), 0);
  }

  /** The state in which the later number was delivered and number 0 is held. */
  function LaterDelivered(c: Config): (s: Stream)
    requires c.Valid() && 0 < Misplaced(c)
    ensures WellFormed(c, s)
  {
    LaterComesFirst(c);
    GetNextChunk(c, Mixed(c), Quiet(3 * c.hold + 2)).next
  }

  lemma LaterIsDelivered(c: Config)
    requires c.Valid() && 0 < Misplaced(c)
    ensures WellFormed(c, Mixed(c)) && KnownCall(c, Quiet(3 * c.hold + 2))
    ensures GetNextChunk(c, Mixed(c), Quiet(3 * c.hold + 2)).next == LaterDelivered(c)
    ensures LaterDelivered(c).last == Misplaced(c)
    ensures var packets := GetNextChunk(c, LaterDelivered(c), Quiet(3 * c.hold + 2)).chunk.packets;
      |packets| == 1 && packets[0].number == 0
  {
    hide GetNextChunk, Wrap, Mixed, Tick;
    LaterComesFirst(c);
    ZeroComesAfter(c, LaterDelivered(c));
  }

  /** The run over the turn, state by state. */
  lemma TurnStates(c: Config)
    requires c.Valid() && 0 < Misplaced(c) && Misplaced(c) + 1 < c.Half()
    ensures WellFormed(c, LastDelivered(c)) && WellFormed(c, Mixed(c)) && KnownCall(c, CallToMix(c))
    ensures var s, a, b := LastDelivered(c), [] + [CallToMix(c)], [Quiet(3 * c.hold + 2)];
      && (forall x :: x in a ==> KnownCall(c, x)) && (forall x :: x in a + b ==> KnownCall(c, x))
      && Run(c, s, a) == Mixed(c) && Run(c, s, a + b) == LaterDelivered(c)
      && SteadyRun(c, s, a + b)
  {
    hide GetNextChunk, Wrap, LastDelivered, Mixed, Run, KnownCall;
    hide SteadyArrivals, Tick, CallToMix, LaterDelivered, DeliversInOrder;
    var s, now := LastDelivered(c), 3 * c.hold + 2;
    MixIsReached(c);
    MixIsSteady(c);
    MixTime(c);
    LaterIsDelivered(c);
    NoCalls(c, s);
    NothingArrives(c, Mixed(c), now);
    RunOn(c, s, [], CallToMix(c));
    RunOn(c, s, [] + [CallToMix(c)], Quiet(now));
  }

  /** The order breaks on the way over the turn of the numbers. */
  lemma TurnBreaksOrder(c: Config)
    requires c.Valid() && !Consecutive(c) && c.Ring() != c.Half() + 1
    ensures 0 < Misplaced(c) && WellFormed(c, LastDelivered(c))
    ensures forall x :: x in OverTheTurn(c) ==> KnownCall(c, x)
    ensures SteadyRun(c, LastDelivered(c), OverTheTurn(c)) && !DeliversInOrder(c, LastDelivered(c), OverTheTurn(c))
  {
    hide GetNextChunk, Wrap, LastDelivered, Mixed, Run, KnownCall, SteadyArrivals, Tick, CallToMix, LaterDelivered;
    hide SteadyRun, DeliversInOrder;
    MisplacedWithinReach(c);
    TurnStates(c);
    var s, t, now := LastDelivered(c), LaterDelivered(c), 3 * c.hold + 2;
    LaterIsDelivered(c);
    NothingArrives(c, t, now);
    RunOn(c, s, [] + [CallToMix(c)] + [Quiet(now)], Quiet(now));
    NumberZeroIsLate(c);
    assert !StepAhead(c, t.last, GetNextChunk(c, t, Quiet(now)).chunk.packets, 0);
  }

  lemma MixTime(c: Config)
    requires c.Valid()
    ensures CallToMix(c).now == 2 * c.hold + 1
  {
  }

  lemma NothingArrives(c: Config, s: Stream, now: int)
    requires WellFormed(c, s)
    ensures SteadyArrivals(c, Tick(c, s, now), Quiet(now).arrivals)
  {
  }

  /** A run from power-on comes past its synchronisation, and goes on within reach on a clock that does not go back. */
  ghost predicate GoesOn(c: Config, first: Stream, before: seq<Call>, calls: seq<Call>)
    requires c.Valid()
  {
    && PoweredOn(c, first) && WellFormed(c, first)
    && (forall x :: x in before ==> KnownCall(c, x)) && (forall x :: x in calls ==> KnownCall(c, x))
    && var s := Run(c, first, before);
    && CaughtUp(c, s) && Forward(s.now, calls) && SteadyRun(c, s, calls)
  }

  /**
   The ring sizes that keep the order, exactly: whatever run from power-on came past
   its synchronisation goes on in order, if and only if the size divides the number
   space or is one more than half of it.
   */
  lemma RingKeepsOrderIff(c: Config)
    requires c.Valid()
    ensures (forall first: Stream, before: seq<Call>, calls: seq<Call> :: GoesOn(c, first, before, calls) ==>
              DeliversInOrder(c, Run(c, first, before), calls))
            <==> Consecutive(c) || c.Ring() == c.Half() + 1
  {
    hide CaughtUp, Run, SteadyRun, DeliversInOrder, Consecutive;
    hide Initial, LastDelivered, KnownCall, Forward, SlotsInOrder;
    SlotsInOrderIff(c);
    if SlotsInOrder(c) {
      forall first: Stream, before: seq<Call>, calls: seq<Call> | GoesOn(c, first, before, calls)
        ensures DeliversInOrder(c, Run(c, first, before), calls)
      {
        var s := Run(c, first, before);
        var h := HeldHistory(s);
        CaughtUpRun(c, s, h, calls);
      }
    } else {
      TurnBreaksOrder(c);
      TurnIsReached(c);
      TurnIsForward(c);
      InitialWellFormed(c);
      assert GoesOn(c, Initial(c), ToTheTurn(c), OverTheTurn(c));
    }
  }

  lemma ForwardOn(now: int, calls: seq<Call>, call: Call)
    requires Forward(now, calls) && LastNow(now, calls) <= call.now
    ensures Forward(now, calls + [call]) && LastNow(now, calls + [call]) == call.now
  {
    assert (calls + [call])[..|calls|] == calls;
  }

  lemma ForwardNone(now: int)
    ensures Forward(now, []) && LastNow(now, []) == now
  {
  }

  lemma TurnTimes(c: Config)
    requires c.Valid() && 0 < Misplaced(c)
    ensures LastDelivered(c).now == CallToMix(c).now == 2 * c.hold + 1
  {
  }

  lemma TurnIsForward(c: Config)
    requires c.Valid() && 0 < Misplaced(c)
    ensures Forward(LastDelivered(c).now, OverTheTurn(c))
  {
    hide Forward, LastNow, LastDelivered, CallToMix, Misplaced;
    var now, a, b := LastDelivered(c).now, CallToMix(c), Quiet(3 * c.hold + 2);
    TurnTimes(c);
    ForwardNone(now);
    ForwardOn(now, [], a);
    ForwardOn(now, [] + [a], b);
    ForwardOn(now, [] + [a] + [b], b);
  }

  /** A history in which the packets held are what was accepted. */
  lemma HeldHistory(s: Stream) returns (h: History)
    ensures Conserved(s, h)
  {
    var held := SlotsOf(Pending(s.slots));
    h := NO_HISTORY.(accepted := held);
    assert Packets([]) == [];
  }

  lemma SlotsOf(m: multiset<Slot>) returns (r: seq<Slot>)
    ensures multiset(r) == m
    decreases |m|
  {
    if |m| == 0 {
      r := [];
    } else {
      var x :| x in m;
      var rest := SlotsOf(m - multiset{x});
      r := rest + [x];
      assert multiset(r) == multiset(rest) + multiset{x};
    }
  }
}
