/**
 Whole runs of the Inline Packet Ordering receiver: calls of `get_next_chunk`
 with any arrivals from any path, on a clock that never goes back.
 */
module IpoRuns {
  import opened Modular
  import opened IpoModel
  import opened IpoOrdering

  // ---- the packets in the ring, as a bag --------------------------------------

  ghost function Held(slot: Slot): multiset<Slot> {
    if slot.valid then multiset{slot} else multiset{}
  }

  ghost function Pending(slots: seq<Slot>): multiset<Slot> {
    if slots == [] then multiset{} else Pending(slots[..|slots| - 1]) + Held(slots[|slots| - 1])
  }

  lemma BagSwap<T>(a: multiset<T>, b: multiset<T>, c: multiset<T>)
    ensures a + b + c == a + c + b
  {
  }

  lemma {:induction false} PendingUpdate(slots: seq<Slot>, i: nat, slot: Slot)
    requires i < |slots|
    ensures Pending(slots[i := slot]) + Held(slots[i]) == Pending(slots) + Held(slot)
  {
    hide Held;
    var n := |slots| - 1;
    var before, after := slots[..n], slots[i := slot][..n];
    if i == n {
      assert after == before;
      BagSwap(Pending(before), Held(slot), Held(slots[i]));
    } else {
      assert after == before[i := slot];
      PendingUpdate(before, i, slot);
      BagSwap(Pending(after), Held(slots[n]), Held(slots[i]));
      BagSwap(Pending(before), Held(slots[n]), Held(slot));
    }
  }

  /** Clearing a run of packets takes exactly those packets out of the bag. */
  lemma {:induction false} ClearPending(slots: seq<Slot>, x: int, k: nat)
    requires 0 < |slots| && k <= |slots|
    requires forall y :: x <= y < x + k ==> Cell(slots, y).valid
    ensures Pending(slots) == Pending(Clear(slots, x, k)) + multiset(Cells(slots, x, k))
    decreases k
  {
    hide Wrap, Pending;
    if k == 0 {
      assert Cells(slots, x, k) == [];
    } else {
      var one := ClearOne(slots, x);
      PendingClearOne(slots, x);
      OneTurnApart(slots, x, k);
      ClearPending(one, x + 1, k - 1);
      CellsSplit(slots, one, x, k);
      BagSwap(Pending(Clear(slots, x, k)), multiset(Cells(one, x + 1, k - 1)), multiset{Cell(slots, x)});
    }
  }

  lemma PendingClearOne(slots: seq<Slot>, x: int)
    requires 0 < |slots| && Cell(slots, x).valid
    ensures Pending(slots) == Pending(ClearOne(slots, x)) + multiset{Cell(slots, x)}
  {
    PendingUpdate(slots, Wrap(x, |slots|), Cell(slots, x).(valid := false));
  }

  /** Clearing one position leaves the next ones of the turn alone. */
  lemma OneTurnApart(slots: seq<Slot>, x: int, k: nat)
    requires 0 < |slots| && 0 < k <= |slots|
    ensures forall y :: x + 1 <= y < x + k ==> Cell(ClearOne(slots, x), y) == Cell(slots, y)
  {
    forall y | x + 1 <= y < x + k
      ensures Cell(ClearOne(slots, x), y) == Cell(slots, y)
    {
      if Wrap(y, |slots|) == Wrap(x, |slots|) {
        WrapInjective(y, x, |slots|);
      }
    }
  }

  lemma CellsSplit(slots: seq<Slot>, one: seq<Slot>, x: int, k: nat)
    requires 0 < |slots| == |one| && 0 < k
    requires forall y :: x + 1 <= y < x + k ==> Cell(one, y) == Cell(slots, y)
    ensures Cells(slots, x, k) == [Cell(slots, x)] + Cells(one, x + 1, k - 1)
  {
    var l, r := Cells(slots, x, k), [Cell(slots, x)] + Cells(one, x + 1, k - 1);
    forall j | 0 <= j < k
      ensures l[j] == r[j]
    {
      if j > 0 {
        assert r[j] == Cell(one, x + 1 + (j - 1));
      }
    }
  }

  // ---- what holds at every moment of a run -----------------------------------------

  ghost function Packets(log: seq<Delivery>): seq<Slot> {
    seq(|log|, j requires 0 <= j < |log| => log[j].packet)
  }

  /** In one sender session the later delivery has the higher number, and sessions come in order. */
  predicate Follows(a: Delivery, b: Delivery) {
    a.segment <= b.segment && (a.segment == b.segment ==> a.num < b.num)
  }

  /** Next to each other in one session, numbers are less than half the number space apart. */
  predicate Near(c: Config, a: Delivery, b: Delivery) {
    a.segment == b.segment ==> b.num - a.num < c.Half()
  }

  ghost predicate Ordered(c: Config, log: seq<Delivery>) {
    && (forall a, b :: 0 <= a < b < |log| ==> Follows(log[a], log[b]))
    && (forall b :: 0 < b < |log| ==> Near(c, log[b - 1], log[b]))
  }

  /** Each delivery is of the packet of its number, and came more than the hold time after it. */
  ghost predicate Genuine(c: Config, d: Delivery)
    requires c.Valid()
  {
    d.packet.number == Wrap(d.num, c.space) && d.packet.valid && d.packet.time + c.hold < d.at
  }

  /** The log of this session ends at the last processed number. */
  ghost predicate LogReaches(h: History) {
    && (forall d :: d in h.log ==> d.segment <= h.segment && (d.segment == h.segment ==> d.num <= h.lastNum))
    && (h.log != [] && h.log[|h.log| - 1].segment == h.segment ==> h.log[|h.log| - 1].num == h.lastNum)
  }

  predicate Empty(slots: seq<Slot>) {
    forall i :: 0 <= i < |slots| ==> !slots[i].valid
  }

  /** Every accepted packet was delivered once, skipped once, or is still in the ring. */
  ghost predicate Conserved(s: Stream, h: History) {
    multiset(h.accepted) == multiset(Packets(h.log)) + multiset(h.skipped) + Pending(s.slots)
  }

  /** What was skipped was stored before the start time, while the paths were still synchronising. */
  predicate SkippedEarly(h: History) {
    |h.starts| == |h.skipped| && forall i :: 0 <= i < |h.skipped| ==> h.skipped[i].time < h.starts[i]
  }

  predicate Started(s: Stream) {
    s.mode.Running? || s.mode.Waiting?
  }

  ghost predicate Inv(c: Config, s: Stream, h: History) {
    && WellFormed(c, s) && Consecutive(c)
    && (!s.mode.Running? ==> Empty(s.slots))
    && (Started(s) ==> Aligned(c, s, h))
    && (!Started(s) ==> h.log == [])
    && Conserved(s, h) && SkippedEarly(h)
    && Ordered(c, h.log) && LogReaches(h)
    && (forall d :: d in h.log ==> Genuine(c, d))
  }

  lemma EmptyPending(slots: seq<Slot>)
    requires Empty(slots)
    ensures Pending(slots) == multiset{}
  {
    if slots != [] {
      EmptyPending(slots[..|slots| - 1]);
    }
  }

  lemma InvWellFormed(c: Config, s: Stream, h: History)
    requires Inv(c, s, h)
    ensures WellFormed(c, s)
  {
  }

  /** A stream as it is created, or started at some time before its first poll. */
  predicate PoweredOn(c: Config, s: Stream)
    requires c.Valid()
  {
    s == Initial(c) || s == Start(c, Initial(c), s.startTime - c.hold)
  }

  lemma InitialInv(c: Config, s: Stream)
    requires c.Valid() && Consecutive(c) && PoweredOn(c, s)
    ensures Inv(c, s, NO_HISTORY)
  {
    EmptyPending(s.slots);
    assert Packets([]) == [];
  }

  // ---- one arrival ----------------------------------------------------------------

  lemma WakeKeepsInv(c: Config, s: Stream, h: History, p: Packet)
    requires Inv(c, s, h) && !s.mode.NotStarted? && Known(c, p)
    ensures Inv(c, Wake(c, s, p), WakeHistory(c, s, h, p))
    ensures Wake(c, s, p).mode.Running?
  {
    hide Wrap, Pending, Ordered, Packets;
    var w, g := Wake(c, s, p), WakeHistory(c, s, h, p);
    if Anchors(c, s) {
      WrapSmall(p.number, c.space);
      WindowOfEmpty(c, w.slots, g.base, g.lastNum);
    }
  }

  lemma WindowOfEmpty(c: Config, slots: seq<Slot>, x: int, lastNum: int)
    requires c.Valid() && |slots| == c.Ring() && Empty(slots)
    ensures WindowInPlace(c, slots, x, 0, lastNum)
  {
  }

  /** An arrival keeps the invariant whenever its packet, if new, fits. */
  lemma ArriveKeepsInv(c: Config, s: Stream, h: History, p: Packet)
    requires Inv(c, s, h) && !s.mode.NotStarted? && Known(c, p)
    requires var w, g := Wake(c, s, p), WakeHistory(c, s, h, p);
      Classify(c, w, p).Fresh? ==> Fits(c, w, g, p)
    ensures Inv(c, Arrive(c, s, p), ArriveHistory(c, s, h, p))
    ensures Arrive(c, s, p).mode.Running?
  {
    hide Inv, Classify, Wake, WakeHistory, Fits, Wrap;
    InvWellFormed(c, s, h);
    var w, g := Wake(c, s, p), WakeHistory(c, s, h, p);
    WakeKeepsInv(c, s, h, p);
    if Classify(c, w, p).Fresh? {
      FreshKeepsInv(c, w, g, p);
      assert Arrive(c, w, p) == Arrive(c, s, p) by {
        WokenStays(c, w, p);
      }
    }
  }

  lemma WokenStays(c: Config, w: Stream, p: Packet)
    requires WellFormed(c, w) && Known(c, p) && w.mode.Running?
    ensures Wake(c, w, p) == w
  {
  }

  lemma FreshKeepsInv(c: Config, w: Stream, g: History, p: Packet)
    requires Inv(c, w, g) && w.mode.Running? && Known(c, p)
    requires Classify(c, w, p).Fresh? && Fits(c, w, g, p)
    ensures Inv(c, Arrive(c, w, p), g.(accepted := g.accepted + [Stored(w, p)]))
  {
    hide Wrap, Conserved, Ordered, Packets, WindowInPlace, LogReaches, Genuine, SkippedEarly;
    FreshKeepsAlignedIff(c, w, g, p);
    FreshFindsEmptySlot(c, w, g, p);
    FreshConserves(c, w, g, p);
    KeptByAccepting(c, g, g.accepted + [Stored(w, p)]);
  }

  /** A first copy stored in an empty slot is one packet more that is held. */
  lemma FreshConserves(c: Config, w: Stream, g: History, p: Packet)
    requires WellFormed(c, w) && w.mode.Running? && Known(c, p) && Classify(c, w, p).Fresh? && Conserved(w, g)
    requires !w.slots[Wrap(p.number, c.Ring())].valid
    ensures Conserved(Arrive(c, w, p), g.(accepted := g.accepted + [Stored(w, p)]))
  {
    hide Wrap, Pending, Packets, Classify;
    PendingUpdate(w.slots, Wrap(p.number, c.Ring()), Stored(w, p));
    var held := Pending(w.slots);
    assert Pending(Arrive(c, w, p).slots) == held + multiset{Stored(w, p)};
    BagSwap(multiset(Packets(g.log)) + multiset(g.skipped), held, multiset{Stored(w, p)});
  }

  lemma KeptByAccepting(c: Config, h: History, accepted: seq<Slot>)
    requires LogReaches(h) && SkippedEarly(h)
    ensures LogReaches(h.(accepted := accepted)) && SkippedEarly(h.(accepted := accepted))
  {
  }

  // ---- one poll --------------------------------------------------------------------

  /** A full turn without a valid slot is an empty ring: the receiver waits exactly then. */
  lemma EmptyTurn(slots: seq<Slot>, x: int)
    requires 0 < |slots| && 0 <= x < |slots|
    ensures EmptyRun(slots, x, |slots|) == |slots| <==> Empty(slots)
  {
    if EmptyRun(slots, x, |slots|) == |slots| {
      forall i | 0 <= i < |slots|
        ensures !slots[i].valid
      {
        var y := if i < x then i + |slots| else i;
        WrapTurn(i, |slots|);
        WrapSmall(i, |slots|);
        assert Cell(slots, y) == slots[i];
      }
    }
  }

  lemma PacketsAppend(log: seq<Delivery>, segment: nat, first: int, packets: seq<Slot>, at: int)
    ensures Packets(log + Deliveries(segment, first, packets, at)) == Packets(log) + packets
  {
  }

  lemma OrderedAppend(c: Config, h: History, first: int, packets: seq<Slot>, at: int, g: History)
    requires Ordered(c, h.log) && LogReaches(h)
    requires 0 < first - h.lastNum < c.Half() && packets != [] && 4 <= c.space
    requires g.log == h.log + Deliveries(h.segment, first, packets, at) && g.segment == h.segment
    requires g.lastNum == first + |packets| - 1
    ensures Ordered(c, g.log) && LogReaches(g)
  {
    var more := Deliveries(h.segment, first, packets, at);
    var log := h.log + more;
    var m := |h.log|;
    forall a, b | 0 <= a < b < |log|
      ensures Follows(log[a], log[b])
    {
      if a < m {
        assert h.log[a] in h.log;
      }
    }
    forall b | 0 < b < |log|
      ensures Near(c, log[b - 1], log[b])
    {
      if 0 < b == m {
        assert log[b - 1] == h.log[m - 1];
      }
    }
    forall d | d in log
      ensures d.segment <= h.segment && (d.segment == h.segment ==> d.num <= first + |packets| - 1)
    {
      assert d in h.log || d in more;
    }
  }

  lemma PollConserves(c: Config, s: Stream, h: History, k0: nat, k: nat, n: nat, synced: seq<Slot>, o: Outcome)
    requires WellFormed(c, s) && Parts(c, s, k0, k, n, synced, o) && Conserved(s, h)
    ensures multiset(h.accepted) ==
            multiset(Packets(h.log) + o.chunk.packets) + multiset(h.skipped + o.skipped) + Pending(o.next.slots)
  {
    hide Wrap, Pending, Packets, Cells, Clear, Cell;
    var x := s.index + k0;
    ClearPending(s.slots, x, k);
    ClearPending(synced, x + k, n);
    BagShuffle(multiset(Packets(h.log)), multiset(h.skipped), Pending(o.next.slots),
               multiset(o.chunk.packets), multiset(o.skipped));
  }

  lemma BagShuffle<T>(delivered: multiset<T>, skipped: multiset<T>, left: multiset<T>, out: multiset<T>,
                      sk: multiset<T>)
    ensures delivered + skipped + (left + out + sk) == delivered + out + (skipped + sk) + left
  {
  }

  /** The packets of a chunk are those whose turn it is, each held for longer than the hold time. */
  lemma ChunkGenuine(c: Config, s: Stream, h: History, k0: nat, k: nat, n: nat, synced: seq<Slot>, o: Outcome)
    requires Aligned(c, s, h) && Parts(c, s, k0, k, n, synced, o) && k0 <= c.Ring()
    ensures forall d :: d in Deliveries(h.segment, h.base + k0 + k, o.chunk.packets, s.now) ==> Genuine(c, d)
    ensures n > 0 ==> h.base + k0 + k - h.lastNum < c.Half()
  {
    hide Wrap, Cell, Clear;
    var x, off := s.index + k0 + k, h.base - s.index;
    PassedPositions(s.slots, s.index, k0, k, n, synced);
    WrapSmall(s.index, c.Ring());
    WindowShift(c, s.slots, h.base, s.index, 0, h.lastNum);
    var more := Deliveries(h.segment, h.base + k0 + k, o.chunk.packets, s.now);
    forall j | 0 <= j < n
      ensures Genuine(c, more[j]) && x + j + off - h.lastNum < c.Half()
    {
      assert InPlace(c, Cell(s.slots, x + j), x + j + off, h.lastNum);
      assert Cell(synced, x + j) == Cell(s.slots, x + j);
    }
  }

  lemma PollKeepsInv(c: Config, s: Stream, h: History)
    requires Inv(c, s, h)
    ensures Inv(c, Poll(c, s).next, PollHistory(c, s, h))
  {
    if Productive(c, s) {
      ProductiveKeepsInv(c, s, h);
    } else {
      hide Wrap, Pending, Ordered, Packets, EmptyRun, WindowInPlace, SyncAndDeliver;
      UnproductivePoll(c, s);
      if s.mode.Running? {
        EmptyTurn(s.slots, s.index);
        PollKeepsAligned(c, s, h);
      }
    }
  }

  lemma ProductiveKeepsInv(c: Config, s: Stream, h: History)
    requires Inv(c, s, h) && Productive(c, s)
    ensures Inv(c, Poll(c, s).next, PollHistory(c, s, h))
  {
    hide Wrap, Poll, PollHistory, EmptyRun, Aligned, Conserved, Ordered, LogReaches, Genuine, SkippedEarly;
    ProductiveRuns(c, s);
    PollKeepsAligned(c, s, h);
    ProductiveConserves(c, s, h);
    ProductiveLog(c, s, h);
    ProductiveSkipsEarly(c, s, h);
  }

  lemma ProductiveSkipsEarly(c: Config, s: Stream, h: History)
    requires WellFormed(c, s) && Productive(c, s) && SkippedEarly(h)
    ensures SkippedEarly(PollHistory(c, s, h))
  {
    hide Wrap, Poll, PollHistory, EmptyRun, Parts, Clear;
    var o, g := Poll(c, s), PollHistory(c, s, h);
    var k0, k := EmptyRun(s.slots, s.index, c.Ring()), |o.skipped|;
    ProductiveParts(c, s);
    PartsSkipped(c, s, k0, k, |o.chunk.packets|, Clear(s.slots, s.index + k0, k), o);
    ProductiveHistory(c, s, h, o, h.base + k0 + k);
    forall i | 0 <= i < |g.skipped|
      ensures g.skipped[i].time < g.starts[i]
    {
      if i >= |h.skipped| {
        assert o.skipped[i - |h.skipped|] in o.skipped;
      }
    }
  }

  /** The history after a productive poll, spelled out. */
  lemma ProductiveHistory(c: Config, s: Stream, h: History, o: Outcome, first: int)
    requires WellFormed(c, s) && Productive(c, s) && o == Poll(c, s)
    requires first == h.base + EmptyRun(s.slots, s.index, c.Ring()) + |o.skipped|
    ensures var g := PollHistory(c, s, h); var n := |o.chunk.packets|;
      && g.log == h.log + Deliveries(h.segment, first, o.chunk.packets, s.now)
      && g.lastNum == (if n == 0 then h.lastNum else first + n - 1)
      && g.skipped == h.skipped + o.skipped && g.accepted == h.accepted && g.segment == h.segment
      && g.starts == h.starts + seq(|o.skipped|, _ => s.startTime)
  {
    hide Poll, EmptyRun;
    ProductiveProgress(c, s, o);
  }

  lemma ProductiveConserves(c: Config, s: Stream, h: History)
    requires WellFormed(c, s) && Conserved(s, h) && Productive(c, s)
    ensures Conserved(Poll(c, s).next, PollHistory(c, s, h))
  {
    hide Wrap, Poll, PollHistory, EmptyRun, Pending, Packets, Parts, Deliveries;
    var o := Poll(c, s);
    var k0, k := EmptyRun(s.slots, s.index, c.Ring()), |o.skipped|;
    ProductiveHistory(c, s, h, o, h.base + k0 + k);
    ProductiveParts(c, s);
    PollConserves(c, s, h, k0, k, |o.chunk.packets|, Clear(s.slots, s.index + k0, k), o);
    PacketsAppend(h.log, h.segment, h.base + k0 + k, o.chunk.packets, s.now);
  }

  lemma ProductiveLog(c: Config, s: Stream, h: History)
    requires Inv(c, s, h) && Productive(c, s)
    ensures var g := PollHistory(c, s, h);
      Ordered(c, g.log) && LogReaches(g) && forall d :: d in g.log ==> Genuine(c, d)
  {
    hide Wrap, Poll, PollHistory, EmptyRun, Aligned, Conserved, Ordered;
    hide Genuine, Parts, LogReaches, Clear, FindsReady, TooEarly;
    var o, g := Poll(c, s), PollHistory(c, s, h);
    var k0, k := EmptyRun(s.slots, s.index, c.Ring()), |o.skipped|;
    var first := h.base + k0 + k;
    ProductiveHistory(c, s, h, o, first);
    ProductiveParts(c, s);
    ChunkGenuine(c, s, h, k0, k, |o.chunk.packets|, Clear(s.slots, s.index + k0, k), o);
    AlignedBounds(c, s, h);
    if o.chunk.packets != [] {
      OrderedAppend(c, h, first, o.chunk.packets, s.now, g);
    } else {
      SameLog(c, h, g);
    }
  }

  lemma SameLog(c: Config, h: History, g: History)
    requires Ordered(c, h.log) && LogReaches(h)
    requires g.log == h.log + [] && g.segment == h.segment && g.lastNum == h.lastNum
    ensures Ordered(c, g.log) && LogReaches(g) && g.log == h.log
  {
    hide Ordered;
    assert g.log == h.log;
  }

  lemma AlignedBounds(c: Config, s: Stream, h: History)
    requires Aligned(c, s, h)
    ensures 1 <= h.base - h.lastNum
  {
  }

  lemma ProductiveRuns(c: Config, s: Stream)
    requires WellFormed(c, s) && Productive(c, s)
    ensures Poll(c, s).next.mode.Running? && Poll(c, s).next.now == s.now
    ensures Poll(c, s).next.startTime == s.startTime
  {
    hide Wrap, Cell, Cells, Clear, EmptyRun, SyncRun, ReadyRun;
  }

  // ---- whole runs --------------------------------------------------------------------

  function ArriveOneHistory(c: Config, s: Stream, h: History, a: Arrival): History
    requires WellFormed(c, s) && KnownArrival(c, a)
  {
    if a.Good? then ArriveHistory(c, s, h, a.packet) else h
  }

  function ArriveAllHistory(c: Config, s: Stream, h: History, arrivals: seq<Arrival>): History
    requires WellFormed(c, s) && forall a :: a in arrivals ==> KnownArrival(c, a)
    decreases |arrivals|
  {
    if arrivals == [] then h
    else
      var init := arrivals[..|arrivals| - 1];
      ArriveOneHistory(c, ArriveAll(c, s, init), ArriveAllHistory(c, s, h, init), arrivals[|arrivals| - 1])
  }

  function CallHistory(c: Config, s: Stream, h: History, call: Call): History
    requires WellFormed(c, s) && KnownCall(c, call)
  {
    var t := Tick(c, s, call.now);
    var a := ArriveAll(c, t, call.arrivals);
    var g := ArriveAllHistory(c, t, h, call.arrivals);
    if call.complete then PollHistory(c, a, g) else g
  }

  function RunHistory(c: Config, s: Stream, h: History, calls: seq<Call>): History
    requires WellFormed(c, s) && forall call :: call in calls ==> KnownCall(c, call)
    decreases |calls|
  {
    if calls == [] then h
    else
      var init := calls[..|calls| - 1];
      CallHistory(c, Run(c, s, init), RunHistory(c, s, h, init), calls[|calls| - 1])
  }

  /** The next arrival, if it is the first copy of a packet, fits the ring. */
  predicate ArrivalFits(c: Config, s: Stream, h: History, a: Arrival)
    requires WellFormed(c, s) && KnownArrival(c, a)
  {
    a.Good? ==>
      var w, g := Wake(c, s, a.packet), WakeHistory(c, s, h, a.packet);
      Classify(c, w, a.packet).Fresh? ==> Fits(c, w, g, a.packet)
  }

  ghost predicate ArrivalsFit(c: Config, s: Stream, h: History, arrivals: seq<Arrival>)
    requires WellFormed(c, s) && forall a :: a in arrivals ==> KnownArrival(c, a)
    decreases |arrivals|
  {
    arrivals == [] ||
    var init := arrivals[..|arrivals| - 1];
    && ArrivalsFit(c, s, h, init)
    && ArrivalFits(c, ArriveAll(c, s, init), ArriveAllHistory(c, s, h, init), arrivals[|arrivals| - 1])
  }

  ghost predicate RunFits(c: Config, s: Stream, h: History, calls: seq<Call>)
    requires WellFormed(c, s) && forall call :: call in calls ==> KnownCall(c, call)
    decreases |calls|
  {
    calls == [] ||
    var init, call := calls[..|calls| - 1], calls[|calls| - 1];
    assert call in calls && KnownCall(c, call);
    && RunFits(c, s, h, init)
    && ArrivalsFit(c, Tick(c, Run(c, s, init), call.now), RunHistory(c, s, h, init), call.arrivals)
  }

  lemma TickKeepsInv(c: Config, s: Stream, h: History, now: int)
    requires Inv(c, s, h)
    ensures Inv(c, Tick(c, s, now), h) && !Tick(c, s, now).mode.NotStarted?
  {
    hide Wrap, Pending, Packets, Ordered, WindowInPlace;
  }

  lemma {:induction false} ArrivalsKeepInv(c: Config, s: Stream, h: History, arrivals: seq<Arrival>)
    requires Inv(c, s, h) && !s.mode.NotStarted? && forall a :: a in arrivals ==> KnownArrival(c, a)
    requires ArrivalsFit(c, s, h, arrivals)
    ensures Inv(c, ArriveAll(c, s, arrivals), ArriveAllHistory(c, s, h, arrivals))
    ensures !ArriveAll(c, s, arrivals).mode.NotStarted?
    decreases |arrivals|
  {
    hide Aligned, Conserved, Ordered, LogReaches, Genuine, Empty;
    hide Consecutive, WellFormed, Arrive, ArriveHistory, Wake, WakeHistory;
    if arrivals != [] {
      var init, a := arrivals[..|arrivals| - 1], arrivals[|arrivals| - 1];
      ArrivalsKeepInv(c, s, h, init);
      assert a in arrivals;
      if a.Good? {
        ArriveKeepsInv(c, ArriveAll(c, s, init), ArriveAllHistory(c, s, h, init), a.packet);
      }
    }
  }

  lemma CallKeepsInv(c: Config, s: Stream, h: History, call: Call)
    requires Inv(c, s, h) && KnownCall(c, call)
    requires ArrivalsFit(c, Tick(c, s, call.now), h, call.arrivals)
    ensures Inv(c, GetNextChunk(c, s, call).next, CallHistory(c, s, h, call))
  {
    hide Aligned, Conserved, Ordered, LogReaches, Genuine, Empty, Consecutive;
    hide WellFormed, Tick, ArriveAll, ArriveAllHistory, ArrivalsFit, Poll, PollHistory;
    TickKeepsInv(c, s, h, call.now);
    ArrivalsKeepInv(c, Tick(c, s, call.now), h, call.arrivals);
    PollKeepsInv(c, ArriveAll(c, Tick(c, s, call.now), call.arrivals),
                 ArriveAllHistory(c, Tick(c, s, call.now), h, call.arrivals));
  }

  /** Whole runs: whatever arrives, in whatever order, as long as new packets fit the ring. */
  lemma {:induction false} RunKeepsInv(c: Config, s: Stream, h: History, calls: seq<Call>)
    requires Inv(c, s, h) && forall call :: call in calls ==> KnownCall(c, call)
    requires RunFits(c, s, h, calls)
    ensures Inv(c, Run(c, s, calls), RunHistory(c, s, h, calls))
    decreases |calls|
  {
    hide Aligned, Conserved, Ordered, LogReaches, Genuine, Empty;
    hide Consecutive, WellFormed, GetNextChunk, CallHistory, ArrivalsFit;
    if calls != [] {
      var init, call := calls[..|calls| - 1], calls[|calls| - 1];
      assert call in calls;
      RunKeepsInv(c, s, h, init);
      CallKeepsInv(c, Run(c, s, init), RunHistory(c, s, h, init), call);
    }
  }

  /**
   Ordering and conservation from power-on: within each sender session the
   delivered numbers strictly advance by less than half the number space, every
   delivery is genuine and late enough, and every accepted packet was delivered
   once, skipped once because it came before the start time, or is still in the ring.
   */
  lemma RunOrderedAndConserved(c: Config, first: Stream, calls: seq<Call>)
    requires c.Valid() && Consecutive(c) && forall call :: call in calls ==> KnownCall(c, call)
    requires PoweredOn(c, first) && RunFits(c, first, NO_HISTORY, calls)
    ensures var s, h := Run(c, first, calls), RunHistory(c, first, NO_HISTORY, calls);
      && Ordered(c, h.log)
      && (forall d :: d in h.log ==> Genuine(c, d))
      && multiset(h.accepted) == multiset(Packets(h.log)) + multiset(h.skipped) + Pending(s.slots)
      && SkippedEarly(h)
      && (!s.mode.Running? ==> Empty(s.slots))
  {
    hide Wrap, Pending, Packets, Ordered, Run, RunHistory, RunFits, Genuine, Initial, Aligned, SkippedEarly, PoweredOn;
    InitialInv(c, first);
    RunKeepsInv(c, first, NO_HISTORY, calls);
  }
}
