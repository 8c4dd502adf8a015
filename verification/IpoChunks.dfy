/**
 The chunks handed to the caller, and the waiting state.
 */
module IpoChunks {
  import opened Modular
  import opened IpoModel
  import opened IpoOrdering
  import opened IpoRuns

  lemma CellInRange(slots: seq<Slot>, x: int, start: nat, j: nat)
    requires 0 < |slots| && start == Wrap(x, |slots|) && start + j < |slots|
    ensures Cell(slots, x + j) == slots[start + j]
  {
    hide Wrap;
    WrapAdd(x, j, |slots|);
    WrapSmall(start + j, |slots|);
  }

  /**
   Every chunk is one unwrapped range of the ring, so that one pointer describes
   it, and its packets are the contents of that range.
   */
  lemma ChunkIsOneRange(c: Config, s: Stream, o: Outcome)
    requires WellFormed(c, s) && o == Poll(c, s)
    ensures o.chunk.start + |o.chunk.packets| <= c.Ring()
    ensures o.chunk.packets == s.slots[o.chunk.start..o.chunk.start + |o.chunk.packets|]
    ensures forall p :: p in o.chunk.packets ==> p.valid
  {
    hide Wrap, Clear, Cell, EmptyRun, Poll, Parts;
    if Productive(c, s) {
      var k0, k, n := EmptyRun(s.slots, s.index, c.Ring()), |o.skipped|, |o.chunk.packets|;
      ProductiveParts(c, s);
      ProductiveProgress(c, s, o);
      forall j | 0 <= j < n
        ensures o.chunk.packets[j] == s.slots[o.chunk.start..o.chunk.start + n][j] && o.chunk.packets[j].valid
      {
        PartsPacket(c, s, k0, k, n, Clear(s.slots, s.index + k0, k), o, j);
        CellInRange(s.slots, s.index + k0 + k, o.chunk.start, j);
      }
    } else {
      IdleChunk(c, s);
    }
  }

  lemma IdleChunk(c: Config, s: Stream)
    requires WellFormed(c, s) && !Productive(c, s)
    ensures Poll(c, s).chunk == Chunk(0, [])
  {
  }

  /** In an aligned ring the packets of a chunk carry consecutive sequence numbers. */
  lemma ChunkIsConsecutive(c: Config, s: Stream, h: History, o: Outcome, j: nat)
    requires Aligned(c, s, h) && o == Poll(c, s) && j + 1 < |o.chunk.packets|
    ensures o.chunk.packets[j + 1].number == Wrap(o.chunk.packets[j].number + 1, c.space)
  {
    hide Wrap, Clear, Cell, EmptyRun, Poll, WindowInPlace, Parts;
    if !Productive(c, s) {
      IdleChunk(c, s);
    } else {
      var k0, k := EmptyRun(s.slots, s.index, c.Ring()), |o.skipped|;
      var first := h.base + k0 + k;
      ProductiveParts(c, s);
      ChunkGenuine(c, s, h, k0, k, |o.chunk.packets|, Clear(s.slots, s.index + k0, k), o);
      var more := Deliveries(h.segment, first, o.chunk.packets, s.now);
      assert Genuine(c, more[j]) && Genuine(c, more[j + 1]);
      WrapAdd(first + j, 1, c.space);
    }
  }

  /** The receiver goes to waiting exactly when a poll past the early exit finds the ring empty. */
  lemma WaitsIffEmpty(c: Config, s: Stream)
    requires WellFormed(c, s) && s.mode.Running? && !TooEarly(c, s)
    ensures Poll(c, s).next.mode.Waiting? <==> Empty(s.slots)
  {
    EmptyTurn(s.slots, s.index);
    hide Wrap, Cell, Cells, Clear, EmptyRun, SyncRun, ReadyRun;
  }

  /** A delivery brings the ring index right behind the last processed packet. */
  lemma DeliveryCatchesUp(c: Config, s: Stream, h: History)
    requires Inv(c, s, h) && Poll(c, s).chunk.packets != []
    ensures var g := PollHistory(c, s, h); g.base == g.lastNum + 1
  {
  }

  // ---- what a poll hands over, exactly -----------------------------------------------------

  predicate Early(s: Stream, slot: Slot) {
    slot.valid && slot.time < s.startTime
  }

  predicate Due(c: Config, s: Stream, slot: Slot) {
    slot.valid && slot.time + c.hold < s.now
  }

  /** The first packet from the ring index on is at distance `k0`, a whole ring for none. */
  ghost predicate FirstAt(c: Config, s: Stream, k0: nat)
    requires WellFormed(c, s)
  {
    && k0 <= c.Ring() && (k0 < c.Ring() ==> Cell(s.slots, s.index + k0).valid)
    && forall y :: s.index <= y < s.index + k0 ==> !Cell(s.slots, y).valid
  }

  /** The `k` packets from there on are from before the start time, and the next is not. */
  ghost predicate EarlyFrom(c: Config, s: Stream, x: int, k: nat)
    requires WellFormed(c, s)
  {
    && k <= c.Ring() && (k < c.Ring() ==> !Early(s, Cell(s.slots, x + k)))
    && forall y :: x <= y < x + k ==> Early(s, Cell(s.slots, y))
  }

  /**
   The `n` packets from `x` on have been held for more than the hold time; they end with
   the memory of the ring, with the turn that ends at `end`, or before one that is not due.
   */
  ghost predicate DueFrom(c: Config, s: Stream, x: nat, n: nat, end: int)
    requires WellFormed(c, s)
  {
    && x + n <= end && Wrap(x, c.Ring()) + n <= c.Ring()
    && (forall y :: x <= y < x + n ==> Due(c, s, Cell(s.slots, y)))
    && (x + n == end || Wrap(x, c.Ring()) + n == c.Ring() || !Due(c, s, Cell(s.slots, x + n)))
  }

  /** A running stream's poll reads nothing until the hold time has passed since the cached time ... */
  lemma PollWaits(c: Config, s: Stream, k0: nat)
    requires WellFormed(c, s) && FirstAt(c, s, k0)
    ensures !s.mode.Running? || s.nextTime + c.hold >= s.now ==> Poll(c, s) == Idle(s)
    ensures s.mode.Running? && s.nextTime + c.hold < s.now && k0 == c.Ring() ==>
              Poll(c, s) == Idle(s.(mode := Waiting))
    ensures s.mode.Running? && s.nextTime + c.hold < s.now && k0 < c.Ring()
            && !Due(c, s, Cell(s.slots, s.index + k0)) ==>
              Poll(c, s) == Idle(s.(nextTime := Cell(s.slots, s.index + k0).time))
  {
    hide Wrap, Cell, EmptyRun, SyncAndDeliver, Config.Ring;
    EmptyRunIs(s.slots, s.index, c.Ring(), k0);
  }

  /** What a poll leaves that passes `k0` positions, skips `k` packets and delivers `n`. */
  ghost predicate Takes(c: Config, s: Stream, k0: nat, k: nat, n: nat, o: Outcome)
    requires WellFormed(c, s)
  {
    var x := s.index + k0;
    && o.skipped == Cells(s.slots, x, k) && o.chunk.packets == Cells(s.slots, x + k, n)
    && (0 < n ==> o.chunk.start == Wrap(x + k, c.Ring()))
    && Emptied(s.slots, s.index, x, x + k + n, o.next.slots)
    && o.next == s.(slots := o.next.slots, index := Wrap(x + k + n, c.Ring()),
                    last := if n == 0 then s.last else Cell(s.slots, x + k + n - 1).number,
                    nextTime := if k == 0 then s.nextTime else Cell(s.slots, x + k - 1).time)
  }

  /**
   ... and when the first packet from the ring index on is due, discards the packets from
   before the start time that come first, and hands over all those due that follow them.
   */
  lemma PollTakes(c: Config, s: Stream, k0: nat, k: nat, n: nat)
    requires WellFormed(c, s) && s.mode.Running? && s.nextTime + c.hold < s.now
    requires FirstAt(c, s, k0) && k0 < c.Ring() && Due(c, s, Cell(s.slots, s.index + k0))
    requires EarlyFrom(c, s, s.index + k0, k)
    requires DueFrom(c, s, s.index + k0 + k, n, s.index + c.Ring())
    ensures Takes(c, s, k0, k, n, Poll(c, s))
  {
    hide Wrap, Cell, Cells, Clear, EmptyRun, SyncAndDeliver, Config.Ring;
    EmptyRunIs(s.slots, s.index, c.Ring(), k0);
    SyncTakes(c, s, k0, k, n);
  }

  /** Synchronisation empties the early positions, and what is due after them is as it was. */
  lemma TurnEmptied(c: Config, s: Stream, k0: nat, k: nat, n: nat)
    requires WellFormed(c, s) && FirstAt(c, s, k0) && k0 < c.Ring()
    requires EarlyFrom(c, s, s.index + k0, k)
    requires DueFrom(c, s, s.index + k0 + k, n, s.index + c.Ring())
    ensures var x, synced := s.index + k0, Clear(s.slots, s.index + k0, k);
      && Emptied(s.slots, s.index, x, x + k, synced)
      && Emptied(s.slots, s.index, x, x + k + n, Clear(synced, x + k, n))
      && Cells(synced, x + k, n) == Cells(s.slots, x + k, n)
      && (forall y :: x + k <= y < x + k + n ==> Due(c, s, Cell(synced, y)))
      && (0 < n ==> Cell(synced, x + k).valid)
      && (0 < n ==> Cell(synced, x + k + n - 1) == Cell(s.slots, x + k + n - 1))
      && (n == 0 ==> Clear(synced, x + k, n) == synced)
      && n <= c.Ring() - Wrap(x + k, c.Ring()) && k <= c.Ring()
  {
    hide Wrap, Cell, Clear, Config.Ring;
    var x, synced := s.index + k0, Clear(s.slots, s.index + k0, k);
    ClearNothing(synced, x + k);
    RunStaysInTurn(s.slots, s.index, x, k);
    ClearEmpties(s.slots, s.index, x, k);
    PassedPositions(s.slots, s.index, k0, k, n, synced);
  }

  /** The position after what is due is not due either way it is reached. */
  lemma DueEnds(c: Config, s: Stream, k0: nat, k: nat, n: nat, synced: seq<Slot>)
    requires WellFormed(c, s) && FirstAt(c, s, k0) && k0 < c.Ring()
    requires DueFrom(c, s, s.index + k0 + k, n, s.index + c.Ring())
    requires Emptied(s.slots, s.index, s.index + k0, s.index + k0 + k, synced)
    requires n < c.Ring() - Wrap(s.index + k0 + k, c.Ring())
    ensures !Due(c, s, Cell(synced, s.index + k0 + k + n))
  {
    hide Wrap, Cell, Config.Ring;
    WrapTurn(s.index, c.Ring());
    assert Cell(synced, s.index) == Cell(synced, s.index + c.Ring()) by {
      SameCell(synced, s.index, s.index + c.Ring());
    }
    if k0 == 0 && k == 0 {
      WrapSmall(s.index, c.Ring());
    }
  }

  lemma SameCell(slots: seq<Slot>, x: int, y: int)
    requires 0 < |slots| && Wrap(x, |slots|) == Wrap(y, |slots|)
    ensures Cell(slots, x) == Cell(slots, y)
  {
  }

  /** Delivery after the synchronisation. */
  lemma DeliverTakes(c: Config, s: Stream, t: Stream, x: nat, n: nat)
    requires WellFormed(c, s) && WellFormed(c, t) && t.now == s.now
    requires n <= c.Ring() - Wrap(x, c.Ring())
    requires forall y :: x <= y < x + n ==> Due(c, s, Cell(t.slots, y))
    requires n < c.Ring() - Wrap(x, c.Ring()) ==> !Due(c, s, Cell(t.slots, x + n))
    ensures Deliver(c, t, x)
         == Outcome(t.(slots := Clear(t.slots, x, n), index := Wrap(x + n, c.Ring()),
                       last := if n == 0 then t.last else Cell(t.slots, x + n - 1).number),
                    [], Chunk(Wrap(x, c.Ring()), Cells(t.slots, x, n)))
  {
    hide Wrap, Cell, Cells, Clear, ReadyRun, Config.Ring;
    ReadyRunIs(t.slots, x, c.Ring() - Wrap(x, c.Ring()), c.hold, s.now, n);
  }

  lemma SyncTakes(c: Config, s: Stream, k0: nat, k: nat, n: nat)
    requires WellFormed(c, s) && FirstAt(c, s, k0) && k0 < c.Ring()
    requires EarlyFrom(c, s, s.index + k0, k)
    requires DueFrom(c, s, s.index + k0 + k, n, s.index + c.Ring())
    ensures Takes(c, s, k0, k, n, SyncAndDeliver(c, s, s.index + k0))
  {
    hide Wrap, Cell, Cells, Clear, SyncRun, Deliver, Config.Ring, Emptied, Due, FirstAt, EarlyFrom, DueFrom;
    var x := s.index + k0;
    var synced := Clear(s.slots, x, k);
    var t := s.(slots := synced, index := Wrap(x + k, c.Ring()),
                nextTime := if k == 0 then s.nextTime else Cell(s.slots, x + k - 1).time);
    TurnEmptied(c, s, k0, k, n);
    SyncedSlots(c, s, x, k);
    if n < c.Ring() - Wrap(x + k, c.Ring()) {
      DueEnds(c, s, k0, k, n, synced);
    }
    NotEarly(c, s, x, k);
    if Cell(synced, x + k).valid {
      DeliverTakes(c, s, t, x + k, n);
    }
    ClearNothing(s.slots, x + k);
  }

  lemma SyncedSlots(c: Config, s: Stream, x: nat, k: nat)
    requires WellFormed(c, s) && k <= c.Ring()
    ensures var t := s.(slots := Clear(s.slots, x, k), index := Wrap(x + k, c.Ring()));
      WellFormed(c, t)
  {
    hide Cell, Config.Ring;
  }

  /** How many positions synchronisation passes. */
  lemma NotEarly(c: Config, s: Stream, x: int, k: nat)
    requires WellFormed(c, s) && EarlyFrom(c, s, x, k)
    ensures SyncRun(s.slots, x, c.Ring(), s.startTime) == k
  {
    hide Cell, SyncRun, Config.Ring;
    SyncRunIs(s.slots, x, c.Ring(), s.startTime, k);
  }

  /** Every ready poll passes, skips and delivers some numbers of positions. */
  lemma PollCounts(c: Config, s: Stream) returns (k0: nat, k: nat, n: nat)
    requires WellFormed(c, s)
    ensures FirstAt(c, s, k0)
    ensures k0 < c.Ring() ==>
              && EarlyFrom(c, s, s.index + k0, k)
              && DueFrom(c, s, s.index + k0 + k, n, s.index + c.Ring())
  {
    hide Wrap, Cell, EmptyRun, SyncRun, ReadyRun, Config.Ring;
    k0, k, n := EmptyRun(s.slots, s.index, c.Ring()), 0, 0;
    if k0 < c.Ring() {
      var x := s.index + k0;
      k := SyncRun(s.slots, x, c.Ring(), s.startTime);
      RunStaysInTurn(s.slots, s.index, x, k);
      var left, room := s.index + c.Ring() - x - k, c.Ring() - Wrap(x + k, c.Ring());
      n := ReadyRun(s.slots, x + k, if left < room then left else room, c.hold, s.now);
    }
  }
}
