/**
 A stream past its initial synchronisation.  In a steady state the ring index
 stands right after the last processed packet, so with a ring of half the number
 space or more no arrival whatsoever can break the order; and a packet stays in
 its slot for the whole hold time, so that its copies are recognised.
 */
module IpoSteady {
  import opened Modular
  import opened IpoChunks
  import opened IpoModel
  import opened IpoOrdering
  import opened IpoRuns
  import opened IpoTiming

  ghost predicate Steady(c: Config, s: Stream, h: History) {
    && Inv(c, s, h) && Started(s)
    && h.base == h.lastNum + 1
    && s.startTime <= s.now
    && HeldSinceStart(s)
  }

  /** Everything held dates from the start time on. */
  predicate HeldSinceStart(s: Stream) {
    forall i :: 0 <= i < |s.slots| && s.slots[i].valid ==> s.startTime <= s.slots[i].time
  }

  /** What is delivered first was stored at the start time or later. */
  lemma DeliveryAfterStart(c: Config, s: Stream)
    requires WellFormed(c, s) && Poll(c, s).chunk.packets != []
    ensures s.startTime < s.now && Poll(c, s).next.startTime == s.startTime && Poll(c, s).next.now == s.now
    ensures Started(Poll(c, s).next)
  {
    hide Wrap, EmptyRun, SyncAndDeliver, Cell;
    SyncedDelivery(c, s, s.index + EmptyRun(s.slots, s.index, c.Ring()));
  }

  lemma SyncedDelivery(c: Config, s: Stream, x: nat)
    requires WellFormed(c, s)
    ensures var o := SyncAndDeliver(c, s, x);
      && (o.chunk.packets != [] ==> s.startTime < s.now)
      && o.next.startTime == s.startTime && o.next.now == s.now && o.next.mode == s.mode
  {
    hide Wrap, Clear, SyncRun, ReadyRun, Cell, Cells, Config.Ring;
    var k := SyncRun(s.slots, x, c.Ring(), s.startTime);
    WholeTurnCleared(s.slots, x, k);
    ClearedWasThere(s.slots, x, k, x + k);
  }

  /** A delivery that leaves only packets from the start time on ends the synchronisation. */
  lemma DeliveryReachesSteady(c: Config, s: Stream, h: History)
    requires Inv(c, s, h) && Poll(c, s).chunk.packets != [] && HeldSinceStart(Poll(c, s).next)
    ensures Steady(c, Poll(c, s).next, PollHistory(c, s, h))
  {
    hide Poll, PollHistory, Inv;
    PollKeepsInv(c, s, h);
    DeliveryCatchesUp(c, s, h);
    InvWellFormed(c, s, h);
    DeliveryAfterStart(c, s);
  }

  /**
   So runs from power-on come to be steady: with a call that delivers and leaves
   nothing from before the start time.
   */
  lemma RunReachesSteady(c: Config, first: Stream, calls: seq<Call>, call: Call)
    requires c.Valid() && Consecutive(c) && PoweredOn(c, first)
    requires KnownCall(c, call) && forall x :: x in calls ==> KnownCall(c, x)
    requires RunFits(c, first, NO_HISTORY, calls)
    requires ArrivalsFit(c, Tick(c, Run(c, first, calls), call.now),
                         RunHistory(c, first, NO_HISTORY, calls), call.arrivals)
    requires var o := GetNextChunk(c, Run(c, first, calls), call); o.chunk.packets != [] && HeldSinceStart(o.next)
    ensures var s, h := Run(c, first, calls), RunHistory(c, first, NO_HISTORY, calls);
      Steady(c, GetNextChunk(c, s, call).next, CallHistory(c, s, h, call))
  {
    hide Poll, PollHistory, Inv, Run, RunHistory, Tick, ArriveAll, ArriveAllHistory, ArrivalsFit, RunFits, Steady;
    hide HeldSinceStart, PoweredOn, Consecutive;
    InitialInv(c, first);
    InvWellFormed(c, first, NO_HISTORY);
    var s, h := Run(c, first, calls), RunHistory(c, first, NO_HISTORY, calls);
    RunKeepsInv(c, first, NO_HISTORY, calls);
    TickKeepsInv(c, s, h, call.now);
    var t := Tick(c, s, call.now);
    InvWellFormed(c, t, h);
    ArrivalsKeepInv(c, t, h, call.arrivals);
    DeliveryReachesSteady(c, ArriveAll(c, t, call.arrivals), ArriveAllHistory(c, t, h, call.arrivals));
  }

  /** After the synchronisation the hypothesis on arrivals is a bound on one difference. */
  lemma SteadyFitsIff(c: Config, s: Stream, h: History, p: Packet)
    requires Steady(c, s, h) && Known(c, p) && Classify(c, s, p).Fresh?
    ensures Fits(c, s, h, p) <==> Ahead(c, s.last, p.number) <= c.Ring()
  {
  }

  /** No new sender session begins, and new packets are at most a ring ahead of the last processed one. */
  predicate SteadyArrival(c: Config, s: Stream, a: Arrival)
    requires WellFormed(c, s) && KnownArrival(c, a)
  {
    a.Good? ==>
      && !Anchors(c, s)
      && (Classify(c, Wake(c, s, a.packet), a.packet).Fresh? ==> Ahead(c, s.last, a.packet.number) <= c.Ring())
  }

  /** A ring of half the number space or more bounds every difference: only an anchoring packet can fail to fit. */
  lemma WideRingBoundsArrivals(c: Config, s: Stream, a: Arrival)
    requires WellFormed(c, s) && KnownArrival(c, a) && c.Half() <= c.Ring()
    ensures SteadyArrival(c, s, a) <==> (a.Good? ==> !Anchors(c, s))
  {
  }

  ghost predicate SteadyArrivals(c: Config, s: Stream, arrivals: seq<Arrival>)
    requires WellFormed(c, s) && forall a :: a in arrivals ==> KnownArrival(c, a)
    decreases |arrivals|
  {
    arrivals == [] ||
    var init, a := arrivals[..|arrivals| - 1], arrivals[|arrivals| - 1];
    SteadyArrivals(c, s, init) && SteadyArrival(c, ArriveAll(c, s, init), a)
  }

  ghost predicate SteadyRun(c: Config, s: Stream, calls: seq<Call>)
    requires WellFormed(c, s) && forall call :: call in calls ==> KnownCall(c, call)
    decreases |calls|
  {
    calls == [] ||
    var init, call := calls[..|calls| - 1], calls[|calls| - 1];
    assert call in calls && KnownCall(c, call);
    SteadyRun(c, s, init) && SteadyArrivals(c, Tick(c, Run(c, s, init), call.now), call.arrivals)
  }

  /** The slot keeps its packet through a step that happens no later than the hold time after it was stored. */
  predicate KeepsHeld(c: Config, s: Stream, r: Stream, i: nat)
    requires i < |s.slots| && i < |r.slots|
  {
    s.slots[i].valid && r.now <= s.slots[i].time + c.hold ==> r.slots[i] == s.slots[i]
  }

  lemma SteadyArrive(c: Config, s: Stream, h: History, a: Arrival, i: nat)
    requires Steady(c, s, h) && KnownArrival(c, a) && SteadyArrival(c, s, a) && i < c.Ring()
    ensures Steady(c, ArriveOne(c, s, a), ArriveOneHistory(c, s, h, a))
    ensures ArriveOneHistory(c, s, h, a).skipped == h.skipped
    ensures KeepsHeld(c, s, ArriveOne(c, s, a), i)
  {
    hide Wrap, Conserved, Ordered, LogReaches, Genuine, WindowInPlace;
    if a.Good? {
      var p := a.packet;
      var w, g := Wake(c, s, p), WakeHistory(c, s, h, p);
      WakeKeepsInv(c, s, h, p);
      if Classify(c, w, p).Fresh? {
        SteadyFitsIff(c, w, g, p);
        FreshFindsEmptySlot(c, w, g, p);
      }
      ArriveKeepsInv(c, s, h, p);
    }
  }

  lemma {:induction false} ClearKeeps(slots: seq<Slot>, x: int, k: nat, i: nat)
    requires i < |slots| && forall y :: x <= y < x + k ==> Wrap(y, |slots|) != i
    ensures Clear(slots, x, k)[i] == slots[i]
    decreases k
  {
    if k > 0 {
      assert Wrap(x, |slots|) != i;
      ClearKeeps(ClearOne(slots, x), x + 1, k - 1, i);
    }
  }

  lemma HeldStays(s: Stream, r: Stream)
    requires HeldSinceStart(s) && r.slots == s.slots && r.startTime == s.startTime
    ensures HeldSinceStart(r)
  {
  }

  /** A poll that takes nothing out leaves all that makes a state steady. */
  lemma SteadyIdle(c: Config, s: Stream, h: History, i: nat)
    requires Steady(c, s, h) && !Productive(c, s) && i < c.Ring()
    ensures var r, g := Poll(c, s).next, PollHistory(c, s, h);
      && Started(r) && g.base == g.lastNum + 1 && g.skipped == h.skipped
      && r.startTime <= r.now && HeldSinceStart(r)
      && KeepsHeld(c, s, r, i)
  {
    hide Inv, Wrap, Cell, Cells, Clear, EmptyRun, SyncAndDeliver, HeldSinceStart;
    InvWellFormed(c, s, h);
    UnproductivePoll(c, s);
    HeldStays(s, Poll(c, s).next);
  }

  /** Once synchronised, a poll skips nothing and leaves every packet its hold time. */
  lemma SteadyPoll(c: Config, s: Stream, h: History, i: nat)
    requires Steady(c, s, h) && i < c.Ring()
    ensures Steady(c, Poll(c, s).next, PollHistory(c, s, h))
    ensures PollHistory(c, s, h).skipped == h.skipped
    ensures KeepsHeld(c, s, Poll(c, s).next, i)
  {
    hide Inv, Poll, PollHistory, HeldSinceStart, Productive, Started;
    InvWellFormed(c, s, h);
    PollKeepsInv(c, s, h);
    if Productive(c, s) {
      SteadyProductive(c, s, h, i);
    } else {
      SteadyIdle(c, s, h, i);
    }
  }

  /** Nothing is skipped when all that is held dates from the start time on. */
  lemma NothingSkipped(c: Config, s: Stream)
    requires WellFormed(c, s) && Productive(c, s) && HeldSinceStart(s)
    ensures Poll(c, s).skipped == []
  {
    hide Wrap, EmptyRun, Poll, Clear, Cell, Cells;
    var x := s.index + EmptyRun(s.slots, s.index, c.Ring());
    ProductiveParts(c, s);
    if Poll(c, s).skipped != [] {
      CellIsSlot(s.slots, x);
      assert false;
    }
  }

  lemma SteadyProductive(c: Config, s: Stream, h: History, i: nat)
    requires Steady(c, s, h) && Productive(c, s) && i < c.Ring()
    ensures var r, g := Poll(c, s).next, PollHistory(c, s, h);
      && Started(r) && g.base == g.lastNum + 1 && g.skipped == h.skipped
      && r.startTime <= r.now && HeldSinceStart(r)
      && KeepsHeld(c, s, r, i)
  {
    hide Wrap, EmptyRun, Aligned, Conserved, Ordered, LogReaches, Genuine, Poll, Clear, Cell, Cells;
    var o := Poll(c, s);
    var k0 := EmptyRun(s.slots, s.index, c.Ring());
    var x := s.index + k0;
    ProductiveParts(c, s);
    ProductiveProgress(c, s, o);
    ProductiveRuns(c, s);
    NothingSkipped(c, s);
    ProductiveHistory(c, s, h, o, h.base + k0 + |o.skipped|);
    ClearNothing(s.slots, x);
    DeliveryKeepsHeld(c, s, x, |o.chunk.packets|, i);
  }

  lemma DeliveryKeepsHeld(c: Config, s: Stream, x: int, n: nat, i: nat)
    requires WellFormed(c, s) && i < c.Ring()
    requires forall y :: x <= y < x + n ==> Cell(s.slots, y).valid && Cell(s.slots, y).time + c.hold < s.now
    ensures s.slots[i].valid && s.now <= s.slots[i].time + c.hold ==> Clear(s.slots, x, n)[i] == s.slots[i]
  {
    hide Wrap, Clear;
    if s.now <= s.slots[i].time + c.hold {
      forall y | x <= y < x + n
        ensures Wrap(y, |s.slots|) != i
      {
        assert Cell(s.slots, y) != s.slots[i];
      }
      ClearKeeps(s.slots, x, n, i);
    }
  }

  // ---- steady runs -------------------------------------------------------------------

  lemma SteadyTick(c: Config, s: Stream, h: History, now: int)
    requires Steady(c, s, h) && s.now <= now
    ensures Steady(c, Tick(c, s, now), h) && Tick(c, s, now).slots == s.slots
  {
    hide Wrap, Conserved, Ordered, LogReaches, Genuine, WindowInPlace;
    TickKeepsInv(c, s, h, now);
  }

  lemma {:induction false} SteadyArriveAll(c: Config, s: Stream, h: History, arrivals: seq<Arrival>, i: nat)
    requires Steady(c, s, h) && i < c.Ring()
    requires forall a :: a in arrivals ==> KnownArrival(c, a)
    requires SteadyArrivals(c, s, arrivals)
    ensures Steady(c, ArriveAll(c, s, arrivals), ArriveAllHistory(c, s, h, arrivals))
    ensures ArriveAllHistory(c, s, h, arrivals).skipped == h.skipped
    ensures ArriveAll(c, s, arrivals).now == s.now
    ensures KeepsHeld(c, s, ArriveAll(c, s, arrivals), i)
    decreases |arrivals|
  {
    hide Aligned, Conserved, Ordered, LogReaches, Genuine, Empty, ArriveOne, ArriveOneHistory, SteadyArrival;
    if arrivals != [] {
      var init, a := arrivals[..|arrivals| - 1], arrivals[|arrivals| - 1];
      assert a in arrivals;
      SteadyArriveAll(c, s, h, init, i);
      ArrivalsNow(c, s, arrivals);
      SteadyArrive(c, ArriveAll(c, s, init), ArriveAllHistory(c, s, h, init), a, i);
    }
  }

  lemma SteadyCall(c: Config, s: Stream, h: History, call: Call, i: nat)
    requires Steady(c, s, h) && KnownCall(c, call) && s.now <= call.now && i < c.Ring()
    requires SteadyArrivals(c, Tick(c, s, call.now), call.arrivals)
    ensures Steady(c, GetNextChunk(c, s, call).next, CallHistory(c, s, h, call))
    ensures CallHistory(c, s, h, call).skipped == h.skipped
    ensures KeepsHeld(c, s, GetNextChunk(c, s, call).next, i)
  {
    hide WellFormed, Consecutive, Aligned, Conserved, Ordered, LogReaches, Genuine;
    hide Empty, Tick, ArriveAll, ArriveAllHistory, SteadyArrivals, Poll, PollHistory;
    var t := Tick(c, s, call.now);
    SteadyTick(c, s, h, call.now);
    SteadyArriveAll(c, t, h, call.arrivals, i);
    SteadyPoll(c, ArriveAll(c, t, call.arrivals), ArriveAllHistory(c, t, h, call.arrivals), i);
    CallNow(c, s, call);
    assert t.now == call.now by {
      TickNow(c, s, call.now);
    }
  }

  lemma TickNow(c: Config, s: Stream, now: int)
    ensures Tick(c, s, now).now == now
  {
  }

  /**
   Between restarts a synchronised stream stays synchronised: nothing more is
   skipped, so every accepted packet is delivered exactly once or still held,
   in order, and a held packet stays put for its whole hold time.
   */
  lemma {:induction false} SteadyRunHolds(c: Config, s: Stream, h: History, calls: seq<Call>, i: nat)
    requires Steady(c, s, h) && i < c.Ring()
    requires forall call :: call in calls ==> KnownCall(c, call)
    requires Forward(s.now, calls) && SteadyRun(c, s, calls)
    ensures Steady(c, Run(c, s, calls), RunHistory(c, s, h, calls))
    ensures RunHistory(c, s, h, calls).skipped == h.skipped
    ensures KeepsHeld(c, s, Run(c, s, calls), i)
    decreases |calls|
  {
    hide WellFormed, Consecutive, Aligned, Conserved, Ordered, LogReaches;
    hide Genuine, Empty, GetNextChunk, CallHistory, SteadyArrivals;
    if calls != [] {
      var init, call := calls[..|calls| - 1], calls[|calls| - 1];
      assert call in calls && KnownCall(c, call);
      SteadyRunHolds(c, s, h, init, i);
      RunNow(c, s, init);
      RunNow(c, s, calls);
      var m, g := Run(c, s, init), RunHistory(c, s, h, init);
      SteadyCall(c, m, g, call, i);
    }
  }

  /** With a ring of half the number space or more, any arrivals at all between restarts keep order and conservation. */
  lemma WideRingRun(c: Config, s: Stream, h: History, calls: seq<Call>)
    requires Steady(c, s, h) && c.Half() <= c.Ring()
    requires forall call :: call in calls ==> KnownCall(c, call)
    requires Forward(s.now, calls) && NoRestart(c, s, calls)
    ensures var r, g := Run(c, s, calls), RunHistory(c, s, h, calls);
      && Ordered(c, g.log)
      && multiset(g.accepted) == multiset(Packets(g.log)) + multiset(h.skipped) + Pending(r.slots)
  {
    hide Run, RunHistory, Aligned, Ordered, LogReaches, Genuine;
    NoRestartIsSteady(c, s, calls);
    SteadyRunHolds(c, s, h, calls, 0);
  }

  ghost predicate NoRestartArrivals(c: Config, s: Stream, arrivals: seq<Arrival>)
    requires WellFormed(c, s) && forall a :: a in arrivals ==> KnownArrival(c, a)
    decreases |arrivals|
  {
    arrivals == [] ||
    var init, a := arrivals[..|arrivals| - 1], arrivals[|arrivals| - 1];
    NoRestartArrivals(c, s, init) && (a.Good? ==> !Anchors(c, ArriveAll(c, s, init)))
  }

  /** No packet of the run begins a new sender session. */
  ghost predicate NoRestart(c: Config, s: Stream, calls: seq<Call>)
    requires WellFormed(c, s) && forall call :: call in calls ==> KnownCall(c, call)
    decreases |calls|
  {
    calls == [] ||
    var init, call := calls[..|calls| - 1], calls[|calls| - 1];
    assert call in calls && KnownCall(c, call);
    NoRestart(c, s, init) && NoRestartArrivals(c, Tick(c, Run(c, s, init), call.now), call.arrivals)
  }

  lemma {:induction false} NoRestartArrivalsSteady(c: Config, s: Stream, arrivals: seq<Arrival>)
    requires WellFormed(c, s) && (forall a :: a in arrivals ==> KnownArrival(c, a)) && c.Half() <= c.Ring()
    requires NoRestartArrivals(c, s, arrivals)
    ensures SteadyArrivals(c, s, arrivals)
    decreases |arrivals|
  {
    if arrivals != [] {
      var init, a := arrivals[..|arrivals| - 1], arrivals[|arrivals| - 1];
      assert a in arrivals;
      NoRestartArrivalsSteady(c, s, init);
      WideRingBoundsArrivals(c, ArriveAll(c, s, init), a);
    }
  }

  lemma {:induction false} NoRestartIsSteady(c: Config, s: Stream, calls: seq<Call>)
    requires WellFormed(c, s) && (forall call :: call in calls ==> KnownCall(c, call)) && c.Half() <= c.Ring()
    requires NoRestart(c, s, calls)
    ensures SteadyRun(c, s, calls)
    decreases |calls|
  {
    hide GetNextChunk, SteadyArrivals, NoRestartArrivals;
    if calls != [] {
      var init, call := calls[..|calls| - 1], calls[|calls| - 1];
      assert call in calls && KnownCall(c, call);
      NoRestartIsSteady(c, s, init);
      NoRestartArrivalsSteady(c, Tick(c, Run(c, s, init), call.now), call.arrivals);
    }
  }

  // ---- recognising copies ---------------------------------------------------------------

  /** A copy of a packet in the ring is redundant: neither late nor new. */
  lemma CopyOfHeldIsRedundant(c: Config, s: Stream, h: History, p: Packet)
    requires Aligned(c, s, h) && Known(c, p)
    requires var slot := s.slots[Wrap(p.number, c.Ring())]; slot.valid && slot.number == p.number
    ensures Classify(c, s, p).Redundant?
  {
    hide Wrap;
    var ring := c.Ring();
    var y := h.base + Wrap(p.number - h.base, ring);
    WrapSmall(h.base - h.base, ring);
    WrapAdd(p.number - h.base, h.base, ring);
    assert Cell(s.slots, y) == s.slots[Wrap(p.number, ring)];
    assert InPlace(c, Cell(s.slots, y), y + 0, h.lastNum);
    // the distance from the last processed number is the unwrapped one
    WrapSub(Wrap(y, c.space), h.lastNum, c.space);
    WrapAdd(y, -h.lastNum, c.space);
    WrapSmall(y - h.lastNum, c.space);
  }

  /**
   A copy polled no later than the hold time after the first one is recognised
   as redundant, after any steady run in between.
   */
  lemma CopyWithinHoldIsRedundant(c: Config, s: Stream, h: History, calls: seq<Call>, p: Packet)
    requires Steady(c, s, h) && Known(c, p)
    requires forall call :: call in calls ==> KnownCall(c, call)
    requires Forward(s.now, calls) && SteadyRun(c, s, calls)
    requires var slot := s.slots[Wrap(p.number, c.Ring())];
      slot.valid && slot.number == p.number && LastNow(s.now, calls) <= slot.time + c.hold
    ensures var r := Run(c, s, calls);
      Wake(c, r, p) == r && Classify(c, r, p).Redundant?
  {
    hide Wrap, Run, RunHistory, Conserved, Ordered, LogReaches, Genuine, WindowInPlace, Classify;
    var i := Wrap(p.number, c.Ring());
    SteadyRunHolds(c, s, h, calls, i);
    RunNow(c, s, calls);
    var r := Run(c, s, calls);
    assert r.slots[i] == s.slots[i];
    assert r.mode.Running?;
    CopyOfHeldIsRedundant(c, r, RunHistory(c, s, h, calls), p);
  }
}
