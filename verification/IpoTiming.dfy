/**
 What the clock guarantees: the cached time of the next packet is sound in every
 run, so the early exit never withholds a packet the full scan would hand over.
 */
module IpoTiming {
  import opened Modular
  import opened IpoModel
  import opened IpoOrdering
  import opened IpoRuns

  function LastNow(now: int, calls: seq<Call>): int {
    if calls == [] then now else calls[|calls| - 1].now
  }

  /** The calls come on a clock that never goes back, starting no earlier than `now`. */
  predicate Forward(now: int, calls: seq<Call>) {
    calls == [] ||
    (Forward(now, calls[..|calls| - 1]) && LastNow(now, calls[..|calls| - 1]) <= LastNow(now, calls))
  }

  lemma {:induction false} RunNow(c: Config, s: Stream, calls: seq<Call>)
    requires WellFormed(c, s) && forall call :: call in calls ==> KnownCall(c, call)
    ensures Run(c, s, calls).now == LastNow(s.now, calls)
  {
    if calls != [] {
      var init, call := calls[..|calls| - 1], calls[|calls| - 1];
      assert call in calls && KnownCall(c, call);
      CallNow(c, Run(c, s, init), call);
    }
  }

  lemma CallNow(c: Config, s: Stream, call: Call)
    requires WellFormed(c, s) && KnownCall(c, call)
    ensures GetNextChunk(c, s, call).next.now == call.now
  {
    hide Wrap, Cell, Cells, Clear, EmptyRun, SyncRun, ReadyRun, ArriveAll;
    ArrivalsNow(c, Tick(c, s, call.now), call.arrivals);
  }

  lemma {:induction false} ArrivalsNow(c: Config, s: Stream, arrivals: seq<Arrival>)
    requires WellFormed(c, s) && forall a :: a in arrivals ==> KnownArrival(c, a)
    ensures ArriveAll(c, s, arrivals).now == s.now
    decreases |arrivals|
  {
    if arrivals != [] {
      assert arrivals[|arrivals| - 1] in arrivals;
      ArrivalsNow(c, s, arrivals[..|arrivals| - 1]);
    }
  }

  // ---- the early exit -------------------------------------------------------------

  /** The first packet from the ring index on is no older than the cached time. */
  predicate FirstNotOlder(c: Config, s: Stream)
    requires WellFormed(c, s)
  {
    var k := EmptyRun(s.slots, s.index, c.Ring());
    k < c.Ring() ==> s.nextTime <= Cell(s.slots, s.index + k).time
  }

  /**
   Why the cached time can be trusted: it has passed, or bounds the first packet, or
   belongs to the synchronisation.
   */
  ghost predicate CacheSound(c: Config, s: Stream) {
    && WellFormed(c, s)
    && s.nextTime <= s.now
    && (forall i :: 0 <= i < |s.slots| && s.slots[i].valid ==> s.slots[i].time <= s.now)
    && (!s.mode.Running? ==> Empty(s.slots))
    && (s.mode.Running? ==> s.nextTime + c.hold < s.now || FirstNotOlder(c, s) || s.nextTime < s.startTime)
  }

  /** Clearing only clears. */
  lemma ClearedWasThere(slots: seq<Slot>, x: int, k: nat, y: int)
    requires 0 < |slots|
    ensures Cell(Clear(slots, x, k), y).valid ==> Cell(slots, y) == Cell(Clear(slots, x, k), y)
  {
  }

  /** A poll that returns early hands over exactly what the full scan would: nothing. */
  lemma EarlyExitAgrees(c: Config, s: Stream)
    requires CacheSound(c, s) && s.mode.Running? && TooEarly(c, s)
    ensures FullScan(c, s).chunk.packets == []
    ensures Poll(c, s).chunk.packets == FullScan(c, s).chunk.packets
  {
    hide Wrap, Cell, Clear, EmptyRun, SyncRun, ReadyRun;
    var x := s.index + EmptyRun(s.slots, s.index, c.Ring());
    if FindsReady(c, s) {
      var k := SyncRun(s.slots, x, c.Ring(), s.startTime);
      ClearedWasThere(s.slots, x, k, x + k);
      WholeTurnCleared(s.slots, x, k);
    }
  }

  lemma WholeTurnCleared(slots: seq<Slot>, x: int, k: nat)
    requires 0 < |slots| && k <= |slots|
    ensures k == |slots| ==> !Cell(Clear(slots, x, k), x + k).valid
  {
    if k == |slots| {
      ClearCells(slots, x, k, x);
      WrapTurn(x, |slots|);
    }
  }

  lemma TickKeepsCache(c: Config, s: Stream, now: int)
    requires CacheSound(c, s) && s.now <= now
    ensures CacheSound(c, Tick(c, s, now)) && !Tick(c, s, now).mode.NotStarted?
  {
  }

  lemma ArriveKeepsCache(c: Config, s: Stream, p: Packet)
    requires CacheSound(c, s) && Known(c, p) && !s.mode.NotStarted?
    ensures CacheSound(c, Arrive(c, s, p)) && !Arrive(c, s, p).mode.NotStarted?
  {
    hide Wrap, EmptyRun, Cell;
    var w, r := Wake(c, s, p), Arrive(c, s, p);
    EmptyRunOfEmpty(w.slots, w.index);
    if Classify(c, w, p).Fresh? && FirstNotOlder(c, w) {
      StoredFirst(w.slots, w.index, Wrap(p.number, c.Ring()), Stored(w, p), w.nextTime);
    }
  }

  lemma EmptyRunOfEmpty(slots: seq<Slot>, x: int)
    requires 0 < |slots|
    ensures Empty(slots) ==> EmptyRun(slots, x, |slots|) == |slots|
  {
  }

  /** Storing a packet no older than `t` leaves the first packet no older than `t`. */
  lemma StoredFirst(slots: seq<Slot>, x: int, i: nat, slot: Slot, t: int)
    requires i < |slots| && slot.valid && t <= slot.time
    requires var k := EmptyRun(slots, x, |slots|); k < |slots| ==> t <= Cell(slots, x + k).time
    ensures var k := EmptyRun(slots[i := slot], x, |slots|);
      k < |slots| ==> t <= Cell(slots[i := slot], x + k).time
  {
    hide EmptyRun, Wrap;
    var k, k' := EmptyRun(slots, x, |slots|), EmptyRun(slots[i := slot], x, |slots|);
    assert k < |slots| ==> Cell(slots[i := slot], x + k).valid;
    assert k' < |slots| && Cell(slots[i := slot], x + k') == Cell(slots, x + k') ==> k <= k';
  }

  lemma PollKeepsCache(c: Config, s: Stream)
    requires CacheSound(c, s)
    ensures CacheSound(c, Poll(c, s).next)
  {
    if s.mode.Running? && !TooEarly(c, s) {
      if Productive(c, s) {
        ProductiveKeepsCache(c, s);
      } else {
        hide Wrap, Cell, SyncAndDeliver, EmptyRun;
        EmptyTurn(s.slots, s.index);
      }
    }
  }

  lemma ProductiveKeepsCache(c: Config, s: Stream)
    requires CacheSound(c, s) && Productive(c, s)
    ensures CacheSound(c, Poll(c, s).next)
  {
    hide Wrap, Cell, Clear, EmptyRun, SyncRun, ReadyRun, FirstNotOlder;
    var x := s.index + EmptyRun(s.slots, s.index, c.Ring());
    var k := SyncRun(s.slots, x, c.Ring(), s.startTime);
    if k > 0 {
      CellIsSlot(s.slots, x + k - 1);
    }
  }

  lemma CellIsSlot(slots: seq<Slot>, x: int)
    requires 0 < |slots|
    ensures exists i :: 0 <= i < |slots| && slots[i] == Cell(slots, x)
  {
    assert slots[Wrap(x, |slots|)] == Cell(slots, x);
  }

  lemma {:induction false} ArrivalsKeepCache(c: Config, s: Stream, arrivals: seq<Arrival>)
    requires CacheSound(c, s) && !s.mode.NotStarted? && forall a :: a in arrivals ==> KnownArrival(c, a)
    ensures CacheSound(c, ArriveAll(c, s, arrivals)) && !ArriveAll(c, s, arrivals).mode.NotStarted?
    decreases |arrivals|
  {
    hide Arrive, FirstNotOlder, WellFormed, Empty;
    if arrivals != [] {
      var init, a := arrivals[..|arrivals| - 1], arrivals[|arrivals| - 1];
      assert a in arrivals;
      ArrivalsKeepCache(c, s, init);
      if a.Good? {
        ArriveKeepsCache(c, ArriveAll(c, s, init), a.packet);
      }
    }
  }

  /** Every run on a forward clock keeps the cached time sound, with no hypothesis on what arrives. */
  lemma {:induction false} RunKeepsCache(c: Config, first: Stream, calls: seq<Call>)
    requires c.Valid() && PoweredOn(c, first) && (forall call :: call in calls ==> KnownCall(c, call))
    requires Forward(0, calls)
    ensures CacheSound(c, Run(c, first, calls))
    decreases |calls|
  {
    hide FirstNotOlder, WellFormed, Empty, ArriveAll, Poll, CacheSound, Tick, Initial, PoweredOn;
    InitialCacheSound(c, first);
    if calls != [] {
      var init, call := calls[..|calls| - 1], calls[|calls| - 1];
      assert call in calls && KnownCall(c, call);
      var s := Run(c, first, init);
      assert forall d :: d in init ==> d in calls;
      RunKeepsCache(c, first, init);
      RunNow(c, first, init);
      TickKeepsCache(c, s, call.now);
      ArrivalsKeepCache(c, Tick(c, s, call.now), call.arrivals);
      PollKeepsCache(c, ArriveAll(c, Tick(c, s, call.now), call.arrivals));
    }
  }

  lemma InitialCacheSound(c: Config, first: Stream)
    requires c.Valid() && PoweredOn(c, first)
    ensures CacheSound(c, first) && first.now == 0
  {
  }

  /**
   In every call of every run, after any arrivals: if the poll returns early, the
   full scan would not have handed a packet to the caller either.
   */
  lemma EarlyReturnsLoseNothing(c: Config, first: Stream, calls: seq<Call>, call: Call)
    requires c.Valid() && PoweredOn(c, first) && (forall x :: x in calls ==> KnownCall(c, x)) && KnownCall(c, call)
    requires Forward(0, calls) && LastNow(0, calls) <= call.now
    ensures var s := ArriveAll(c, Tick(c, Run(c, first, calls), call.now), call.arrivals);
      s.mode.Running? && TooEarly(c, s) ==> FullScan(c, s).chunk.packets == [] && Poll(c, s) == Idle(s)
  {
    hide FirstNotOlder, WellFormed, Empty, ArriveAll, Run, CacheSound, Tick, FullScan, Initial, TooEarly, PoweredOn;
    RunKeepsCache(c, first, calls);
    InitialCacheSound(c, first);
    RunNow(c, first, calls);
    var t := Tick(c, Run(c, first, calls), call.now);
    TickKeepsCache(c, Run(c, first, calls), call.now);
    ArrivalsKeepCache(c, t, call.arrivals);
    var s := ArriveAll(c, t, call.arrivals);
    if s.mode.Running? && TooEarly(c, s) {
      EarlyExitAgrees(c, s);
    }
  }
}
