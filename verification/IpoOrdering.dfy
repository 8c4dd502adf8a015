/**
 Ordering and conservation of the Inline Packet Ordering receiver.

 A ghost history gives every ring position and every delivered packet an
 unwrapped number, of which the sequence number is the remainder.  In an
 aligned state the slot at unwrapped position `y` can only hold packet `y`.
 */
module IpoOrdering {
  import opened Modular
  import opened IpoModel

  /** A packet handed to the caller: sender session, unwrapped number, contents and time. */
  datatype Delivery = Delivery(segment: nat, num: int, packet: Slot, at: int)

  /**
   `base` is the unwrapped number of the ring index and `lastNum` that of the
   last processed packet; `accepted` and `skipped` list packets in order, and
   `starts` the start time in force when each packet was skipped.
   */
  datatype History = History(
    base: int,
    lastNum: int,
    segment: nat,
    accepted: seq<Slot>,
    skipped: seq<Slot>,
    starts: seq<int>,
    log: seq<Delivery>)

  const NO_HISTORY := History(0, 0, 0, [], [], [], [])

  function WakeHistory(c: Config, s: Stream, h: History, p: Packet): History {
    if Anchors(c, s)
    then h.(base := p.number,
            lastNum := p.number - c.InitOffset(),
            segment := if s.mode.Waiting? then h.segment + 1 else h.segment)
    else h
  }

  function ArriveHistory(c: Config, s: Stream, h: History, p: Packet): History
    requires WellFormed(c, s) && Known(c, p)
  {
    var w := Wake(c, s, p);
    var g := WakeHistory(c, s, h, p);
    if Classify(c, w, p).Fresh? then g.(accepted := g.accepted + [Stored(w, p)]) else g
  }

  /** The log entries of a chunk whose first packet has unwrapped number `first`. */
  function Deliveries(segment: nat, first: int, packets: seq<Slot>, at: int): (r: seq<Delivery>)
    ensures |r| == |packets|
    ensures forall j :: 0 <= j < |r| ==> r[j] == Delivery(segment, first + j, packets[j], at)
  {
    seq(|packets|, j requires 0 <= j < |packets| => Delivery(segment, first + j, packets[j], at))
  }

  function PollHistory(c: Config, s: Stream, h: History): History
    requires WellFormed(c, s)
  {
    var o := Poll(c, s);
    if o.skipped == [] && o.chunk.packets == [] then h
    else
      var first := h.base + EmptyRun(s.slots, s.index, c.Ring()) + |o.skipped|;
      var n := |o.chunk.packets|;
      h.(base := first + n,
         lastNum := if n == 0 then h.lastNum else first + n - 1,
         skipped := h.skipped + o.skipped,
         starts := h.starts + seq(|o.skipped|, _ => s.startTime),
         log := h.log + Deliveries(h.segment, first, o.chunk.packets, s.now))
  }

  // ---- alignment -------------------------------------------------------------

  /** The configuration hypothesis: consecutive numbers fall on consecutive slots. */
  predicate Consecutive(c: Config)
    requires c.Valid()
  {
    Wrap(c.space, c.Ring()) == 0
  }

  /** Position `y` holds nothing, or packet `y`, ahead of the last processed one. */
  predicate InPlace(c: Config, slot: Slot, y: int, lastNum: int)
    requires c.Valid()
  {
    slot.valid ==> slot.number == Wrap(y, c.space) && y - lastNum < c.Half()
  }

  /** The ring read from position `x` on, where position `y` stands for number `y + off`. */
  ghost predicate WindowInPlace(c: Config, slots: seq<Slot>, x: int, off: int, lastNum: int)
    requires c.Valid() && |slots| == c.Ring()
  {
    forall y :: x <= y < x + c.Ring() ==> InPlace(c, Cell(slots, y), y + off, lastNum)
  }

  ghost predicate Aligned(c: Config, s: Stream, h: History) {
    && WellFormed(c, s) && Consecutive(c)
    && s.index == Wrap(h.base, c.Ring())
    && s.last == Wrap(h.lastNum, c.space)
    && 1 <= h.base - h.lastNum <= c.Half()
    && WindowInPlace(c, s.slots, h.base, 0, h.lastNum)
  }

  /** The unwrapped number of a packet that is not late. */
  function NumberOf(c: Config, s: Stream, h: History, p: Packet): int
    requires c.Valid()
  {
    h.lastNum + Ahead(c, s.last, p.number)
  }

  /** The packet is neither behind the ring index nor a whole ring ahead of it. */
  predicate Fits(c: Config, s: Stream, h: History, p: Packet)
    requires WellFormed(c, s) && Known(c, p)
  {
    h.base <= NumberOf(c, s, h, p) < h.base + c.Ring()
  }

  lemma NumberOfSlot(c: Config, s: Stream, h: History, p: Packet)
    requires WellFormed(c, s) && Known(c, p) && Consecutive(c)
    requires s.last == Wrap(h.lastNum, c.space)
    ensures Wrap(NumberOf(c, s, h, p), c.space) == p.number
    ensures Wrap(NumberOf(c, s, h, p), c.Ring()) == Wrap(p.number, c.Ring())
  {
    var y := NumberOf(c, s, h, p);
    WrapDistance(p.number, h.lastNum, c.space);
    WrapOfWrap(y, c.space, c.Ring());
  }

  /**
   A first copy keeps the ring aligned exactly when it fits: behind the ring
   index, or a ring or more ahead, it would be read out of its turn.
   */
  lemma FreshKeepsAlignedIff(c: Config, s: Stream, h: History, p: Packet)
    requires Aligned(c, s, h) && s.mode.Running? && Known(c, p)
    requires Classify(c, s, p).Fresh?
    ensures Aligned(c, Arrive(c, s, p), h) <==> Fits(c, s, h, p)
  {
    hide Wrap;
    var r := Arrive(c, s, p);
    var ring := c.Ring();
    var y := NumberOf(c, s, h, p);
    NumberOfSlot(c, s, h, p);
    if Fits(c, s, h, p) {
      forall z | h.base <= z < h.base + ring
        ensures InPlace(c, Cell(r.slots, z), z + 0, h.lastNum)
      {
        assert InPlace(c, Cell(s.slots, z), z + 0, h.lastNum);
        if Wrap(z, ring) == Wrap(y, ring) {
          WrapInjective(z, y, ring);
        }
      }
    } else {
      // the window position that shares the packet's slot
      var z := h.base + Wrap(y - h.base, ring);
      WrapAdd(y - h.base, h.base, ring);
      assert Wrap(z, ring) == Wrap(y, ring);
      if Aligned(c, r, h) {
        assert InPlace(c, Cell(r.slots, z), z + 0, h.lastNum);
        WrapInjective(z, y, c.space);
      }
    }
  }

  /** No accepted packet overwrites another: a fitting first copy finds its slot empty. */
  lemma FreshFindsEmptySlot(c: Config, s: Stream, h: History, p: Packet)
    requires Aligned(c, s, h) && Known(c, p)
    requires Classify(c, s, p).Fresh? && Fits(c, s, h, p)
    ensures !s.slots[Wrap(p.number, c.Ring())].valid
  {
    NumberOfSlot(c, s, h, p);
    assert InPlace(c, Cell(s.slots, NumberOf(c, s, h, p)), NumberOf(c, s, h, p), h.lastNum);
  }

  /** The number whose turn it is when a packet's slot is next read. */
  function TurnOf(c: Config, s: Stream, h: History, p: Packet): (z: int)
    requires c.Valid()
    ensures h.base <= z < h.base + c.Ring()
  {
    h.base + Wrap(NumberOf(c, s, h, p) - h.base, c.Ring())
  }

  /**
   A first copy that does not fit may be lost: the packet whose turn its slot is
   is taken for new when it comes, and stored over it.  A ring or more ahead that
   packet cannot be late; behind the index it must not be.
   */
  lemma StrayCopyIsOverwritten(c: Config, s: Stream, h: History, p: Packet)
    requires Aligned(c, s, h) && s.mode.Running? && Known(c, p)
    requires Classify(c, s, p).Fresh? && !Fits(c, s, h, p)
    requires NumberOf(c, s, h, p) < h.base ==> TurnOf(c, s, h, p) - h.lastNum < c.Half()
    ensures var t, i := Arrive(c, s, p), Wrap(p.number, c.Ring());
      var q := Packet(p.path, Wrap(TurnOf(c, s, h, p), c.space), p.hw);
      && t.slots[i] == Stored(s, p) && WellFormed(c, t) && Known(c, q)
      && q.number != p.number && Classify(c, t, q).Fresh?
      && Arrive(c, t, q).slots == t.slots[i := Stored(t, q)]
  {
    hide Wrap, WindowInPlace;
    var y, z := NumberOf(c, s, h, p), TurnOf(c, s, h, p);
    NumberOfSlot(c, s, h, p);
    AheadOfNumber(c, s, h, z);
    WrapOfWrap(z, c.space, c.Ring());
    WrapAdd(y - h.base, h.base, c.Ring());
    if Wrap(z, c.space) == p.number {
      WrapInjective(y, z, c.space);
    }
  }

  /** A number within a space of the last processed one is as far ahead of it as it looks. */
  lemma AheadOfNumber(c: Config, s: Stream, h: History, y: int)
    requires c.Valid() && s.last == Wrap(h.lastNum, c.space) && 0 <= y - h.lastNum < c.space
    ensures Ahead(c, s.last, Wrap(y, c.space)) == y - h.lastNum
  {
    hide Wrap;
    WrapSub(Wrap(y, c.space), h.lastNum, c.space);
    WrapAdd(y, -h.lastNum, c.space);
    WrapSmall(y - h.lastNum, c.space);
  }

  // ---- positions of one ring ----------------------------------------------------

  /** Reading the ring from a whole number of turns further on changes nothing. */
  lemma WindowShift(c: Config, slots: seq<Slot>, x: int, x': int, off: int, lastNum: int)
    requires c.Valid() && |slots| == c.Ring()
    requires WindowInPlace(c, slots, x, off, lastNum) && Wrap(x', c.Ring()) == Wrap(x, c.Ring())
    ensures WindowInPlace(c, slots, x', off + x - x', lastNum)
  {
    hide Wrap;
    forall y | x' <= y < x' + c.Ring()
      ensures InPlace(c, Cell(slots, y), y + (off + x - x'), lastNum)
    {
      ShiftedInPlace(c, slots, x, x', off, lastNum, y);
    }
  }

  lemma ShiftedInPlace(c: Config, slots: seq<Slot>, x: int, x': int, off: int, lastNum: int, y: int)
    requires c.Valid() && |slots| == c.Ring()
    requires WindowInPlace(c, slots, x, off, lastNum) && Wrap(x', c.Ring()) == Wrap(x, c.Ring())
    requires x' <= y < x' + c.Ring()
    ensures InPlace(c, Cell(slots, y), y + (off + x - x'), lastNum)
  {
    hide Wrap, InPlace;
    WrapShift(x', x, y - x', c.Ring());
    assert InPlace(c, Cell(slots, y + x - x'), y + x - x' + off, lastNum);
  }

  /** The runs are what the loops that look for them find. */
  lemma EmptyRunIs(slots: seq<Slot>, x: int, n: nat, k: nat)
    requires |slots| > 0 && k <= n
    requires forall y :: x <= y < x + k ==> !Cell(slots, y).valid
    requires k < n ==> Cell(slots, x + k).valid
    ensures EmptyRun(slots, x, n) == k
  {
    hide Cell, EmptyRun;
  }

  lemma SyncRunIs(slots: seq<Slot>, x: int, n: nat, t: int, k: nat)
    requires |slots| > 0 && k <= n
    requires forall y :: x <= y < x + k ==> Cell(slots, y).valid && Cell(slots, y).time < t
    requires k < n ==> !(Cell(slots, x + k).valid && Cell(slots, x + k).time < t)
    ensures SyncRun(slots, x, n, t) == k
  {
    hide Cell, SyncRun;
  }

  lemma ReadyRunIs(slots: seq<Slot>, x: int, n: nat, hold: nat, now: int, k: nat)
    requires |slots| > 0 && k <= n
    requires forall y :: x <= y < x + k ==> Cell(slots, y).valid && Cell(slots, y).time + hold < now
    requires k < n ==> !(Cell(slots, x + k).valid && Cell(slots, x + k).time + hold < now)
    ensures ReadyRun(slots, x, n, hold, now) == k
  {
    hide Cell, ReadyRun;
  }

  lemma ClearOneAt(slots: seq<Slot>, x: int, i: nat)
    requires 0 < |slots| && i == Wrap(x, |slots|)
    ensures ClearOne(slots, x) == slots[i := slots[i].(valid := false)]
  {
  }

  /** What clearing does to each position within one turn of the ring. */
  lemma {:induction false} ClearCells(slots: seq<Slot>, x: int, k: nat, y: int)
    requires 0 < |slots| && k <= |slots| && x <= y < x + |slots|
    ensures Cell(Clear(slots, x, k), y) == if y < x + k then Cell(slots, y).(valid := false) else Cell(slots, y)
    decreases k
  {
    if k > 0 {
      var one := ClearOne(slots, x);
      if y == x {
        // position x comes round again as the last of the turn that starts at x + 1
        WrapTurn(x, |slots|);
        ClearCells(one, x + 1, k - 1, x + |slots|);
      } else {
        if Wrap(y, |slots|) == Wrap(x, |slots|) {
          WrapInjective(x, y, |slots|);
        }
        ClearCells(one, x + 1, k - 1, y);
      }
    }
  }

  /** Within the turn from `x`, exactly the positions of `[lo, hi)` were emptied. */
  ghost predicate Emptied(slots: seq<Slot>, x: int, lo: int, hi: int, slots': seq<Slot>) {
    && 0 < |slots| == |slots'|
    && (forall y :: x <= y < x + |slots| && lo <= y < hi ==> Cell(slots', y) == Cell(slots, y).(valid := false))
    && (forall y :: x <= y < x + |slots| && !(lo <= y < hi) ==> Cell(slots', y) == Cell(slots, y))
  }

  lemma ClearEmpties(slots: seq<Slot>, x: int, lo: int, k: nat)
    requires 0 < |slots| && x <= lo && lo + k <= x + |slots|
    ensures Emptied(slots, x, lo, lo + k, Clear(slots, lo, k))
  {
    var r := Clear(slots, lo, k);
    forall y | x <= y < x + |slots|
      ensures lo <= y < lo + k ==> Cell(r, y) == Cell(slots, y).(valid := false)
      ensures !(lo <= y < lo + k) ==> Cell(r, y) == Cell(slots, y)
    {
      if y < lo {
        WrapTurn(y, |slots|);
        ClearCells(slots, lo, k, y + |slots|);
      } else {
        ClearCells(slots, lo, k, y);
      }
    }
  }

  /** A run of valid positions cannot pass the end of a turn whose start is empty. */
  lemma RunStaysInTurn(slots: seq<Slot>, x0: int, x: int, k: nat)
    requires 0 < |slots| && x0 <= x <= x0 + |slots| && k <= |slots|
    requires forall y :: x0 <= y < x ==> !Cell(slots, y).valid
    requires forall y :: x <= y < x + k ==> Cell(slots, y).valid
    ensures x + k <= x0 + |slots|
  {
    WrapTurn(x0, |slots|);
    assert Cell(slots, x0) == Cell(slots, x0 + |slots|);
  }

  /** Moving on over emptied positions keeps the window in place. */
  lemma WindowAdvances(c: Config, slots: seq<Slot>, x: int, off: int, lastNum: int,
                       slots': seq<Slot>, x': int, lastNum': int)
    requires c.Valid() && |slots| == |slots'| == c.Ring()
    requires WindowInPlace(c, slots, x, off, lastNum)
    requires x <= x' <= x + c.Ring() && lastNum <= lastNum'
    requires forall y :: x <= y < x' ==> !Cell(slots', y).valid
    requires forall y :: x' <= y < x + c.Ring() ==> Cell(slots', y) == Cell(slots, y)
    ensures WindowInPlace(c, slots', x', off, lastNum')
  {
    var ring := c.Ring();
    forall y | x' <= y < x' + ring
      ensures InPlace(c, Cell(slots', y), y + off, lastNum')
    {
      if y < x + ring {
        assert InPlace(c, Cell(slots, y), y + off, lastNum);
      } else {
        WrapTurn(y - ring, ring);
        assert Cell(slots', y) == Cell(slots', y - ring);
      }
    }
  }

  // ---- one poll ----------------------------------------------------------------------

  /** Synchronising `k` and delivering `n` packets after `k0` empty positions empties those positions. */
  lemma PassedPositions(slots: seq<Slot>, x: int, k0: nat, k: nat, n: nat, synced: seq<Slot>)
    requires 0 < |slots| && k0 <= |slots| && k <= |slots| && n <= |slots|
    requires forall y :: x <= y < x + k0 ==> !Cell(slots, y).valid
    requires forall y :: x + k0 <= y < x + k0 + k ==> Cell(slots, y).valid
    requires synced == Clear(slots, x + k0, k)
    requires forall y :: x + k0 + k <= y < x + k0 + k + n ==> Cell(synced, y).valid
    ensures k0 + k + n <= |slots|
    ensures Emptied(slots, x, x + k0, x + k0 + k, synced)
    ensures Emptied(slots, x, x + k0, x + k0 + k + n, Clear(synced, x + k0 + k, n))
  {
    hide Wrap, Clear;
    RunStaysInTurn(slots, x, x + k0, k);
    ClearEmpties(slots, x, x + k0, k);
    RunStaysInTurn(synced, x, x + k0 + k, n);
    ClearEmpties(synced, x, x + k0 + k, n);
  }

  /** The scan finds a packet and finds it held for long enough. */
  predicate FindsReady(c: Config, s: Stream)
    requires WellFormed(c, s)
  {
    var k0 := EmptyRun(s.slots, s.index, c.Ring());
    k0 < c.Ring() && Cell(s.slots, s.index + k0).time + c.hold < s.now
  }

  /** The poll gets past the early exit and finds a packet ready. */
  predicate Productive(c: Config, s: Stream)
    requires WellFormed(c, s)
  {
    s.mode.Running? && !TooEarly(c, s) && FindsReady(c, s)
  }

  lemma UnproductivePoll(c: Config, s: Stream)
    requires WellFormed(c, s) && !Productive(c, s)
    ensures Poll(c, s).skipped == [] && Poll(c, s).chunk.packets == []
    ensures Poll(c, s).next.slots == s.slots && Poll(c, s).next.index == s.index
    ensures Poll(c, s).next.last == s.last
  {
  }

  /** The parts of a productive poll: `k0` empty positions, `k` packets skipped, `n` delivered. */
  ghost predicate Parts(c: Config, s: Stream, k0: nat, k: nat, n: nat, synced: seq<Slot>, o: Outcome)
    requires WellFormed(c, s)
  {
    var x := s.index + k0;
    && k == |o.skipped| && n == |o.chunk.packets| && k <= c.Ring() && n <= c.Ring()
    && synced == Clear(s.slots, x, k)
    && o.skipped == Cells(s.slots, x, k)
    && o.chunk.packets == Cells(synced, x + k, n)
    && o.next.slots == Clear(synced, x + k, n)
    && o.next.index == Wrap(x + k + n, c.Ring())
    && o.next.last == (if n == 0 then s.last else Cell(synced, x + k + n - 1).number)
    && (forall y :: s.index <= y < x ==> !Cell(s.slots, y).valid)
    && (forall y :: x <= y < x + k ==> Cell(s.slots, y).valid && Cell(s.slots, y).time < s.startTime)
    && (forall y :: x + k <= y < x + k + n ==> Cell(synced, y).valid && Cell(synced, y).time + c.hold < s.now)
  }

  lemma ClearNothing(slots: seq<Slot>, x: int)
    requires |slots| > 0
    ensures Clear(slots, x, 0) == slots && Cells(slots, x, 0) == []
  {
  }

  lemma ProductiveParts(c: Config, s: Stream)
    requires WellFormed(c, s) && Productive(c, s)
    ensures var o := Poll(c, s);
      var k0, k := EmptyRun(s.slots, s.index, c.Ring()), |o.skipped|;
      Parts(c, s, k0, k, |o.chunk.packets|, Clear(s.slots, s.index + k0, k), o)
  {
    hide Wrap, Cell, Cells, Clear, EmptyRun, SyncAndDeliver, Config.Ring;
    var k0 := EmptyRun(s.slots, s.index, c.Ring());
    SyncParts(c, s, k0, SyncAndDeliver(c, s, s.index + k0));
  }

  lemma SyncParts(c: Config, s: Stream, k0: nat, o: Outcome)
    requires WellFormed(c, s) && forall y :: s.index <= y < s.index + k0 ==> !Cell(s.slots, y).valid
    requires o == SyncAndDeliver(c, s, s.index + k0)
    ensures Parts(c, s, k0, |o.skipped|, |o.chunk.packets|, Clear(s.slots, s.index + k0, |o.skipped|), o)
  {
    hide Wrap, Cell, Cells, Clear, SyncRun, ReadyRun, Config.Ring;
    var x := s.index + k0;
    var k := SyncRun(s.slots, x, c.Ring(), s.startTime);
    ClearNothing(Clear(s.slots, x, k), x + k);
  }

  /** Packet `j` of a chunk is the valid packet at its position, which synchronisation left alone. */
  lemma PartsPacket(c: Config, s: Stream, k0: nat, k: nat, n: nat, synced: seq<Slot>, o: Outcome, j: nat)
    requires WellFormed(c, s) && Parts(c, s, k0, k, n, synced, o) && k0 <= c.Ring() && j < n
    ensures k0 + k + n <= c.Ring() && |o.chunk.packets| == n
    ensures o.chunk.packets[j] == Cell(s.slots, s.index + k0 + k + j) && o.chunk.packets[j].valid
  {
    hide Wrap, Cell, Clear, EmptyRun;
    PassedPositions(s.slots, s.index, k0, k, n, synced);
    var y := s.index + k0 + k + j;
    assert Cell(synced, y) == Cell(s.slots, y) && Cell(synced, y).valid;
  }

  /** Skipped packets are from before the start time. */
  lemma PartsSkipped(c: Config, s: Stream, k0: nat, k: nat, n: nat, synced: seq<Slot>, o: Outcome)
    requires WellFormed(c, s) && Parts(c, s, k0, k, n, synced, o)
    ensures |o.skipped| == k
    ensures forall p :: p in o.skipped ==> p.time < s.startTime
  {
    hide Wrap, Cell, Clear;
    forall i | 0 <= i < k
      ensures o.skipped[i].time < s.startTime
    {
      assert Cell(s.slots, s.index + k0 + i).time < s.startTime;
    }
  }

  /** A poll changes the slots exactly where it passed. */
  lemma PartsPassed(c: Config, s: Stream, k0: nat, k: nat, n: nat, synced: seq<Slot>, o: Outcome)
    requires WellFormed(c, s) && Parts(c, s, k0, k, n, synced, o) && k0 <= c.Ring()
    ensures k0 + k + n <= c.Ring() && |o.skipped| == k && |o.chunk.packets| == n
    ensures Emptied(s.slots, s.index, s.index + k0, s.index + k0 + k + n, o.next.slots)
    ensures forall y :: s.index <= y < s.index + k0 ==> !Cell(s.slots, y).valid
  {
    hide Wrap, Cell, Clear, Cells, Emptied;
    PassedPositions(s.slots, s.index, k0, k, n, synced);
  }

  /** A productive poll moves on, never by more than one turn of the ring, and delivers one unwrapped range. */
  lemma ProductiveProgress(c: Config, s: Stream, o: Outcome)
    requires WellFormed(c, s) && Productive(c, s) && o == Poll(c, s)
    ensures 0 < |o.skipped| + |o.chunk.packets|
    ensures |o.chunk.packets| > 0 ==>
              o.chunk.start == Wrap(s.index + EmptyRun(s.slots, s.index, c.Ring()) + |o.skipped|, c.Ring())
    ensures o.chunk.start + |o.chunk.packets| <= c.Ring()
  {
    hide Wrap, Cell, Cells, Clear, EmptyRun, Config.Ring;
    var x := s.index + EmptyRun(s.slots, s.index, c.Ring());
    ClearNothing(s.slots, x);

  }

  /** Every poll keeps an aligned ring aligned. */
  lemma PollKeepsAligned(c: Config, s: Stream, h: History)
    requires Aligned(c, s, h)
    ensures Aligned(c, Poll(c, s).next, PollHistory(c, s, h))
  {
    hide Wrap, Cell, Cells, Clear, EmptyRun, Config.Ring, WindowInPlace, FullScan;
    var o := Poll(c, s);
    if !Productive(c, s) {
      UnproductivePoll(c, s);
    } else {
      var k0 := EmptyRun(s.slots, s.index, c.Ring());
      var k, n := |o.skipped|, |o.chunk.packets|;
      ProductiveParts(c, s);
      ProductiveProgress(c, s, o);
      AdvanceKeepsAligned(c, s, h, k0, k, n, Clear(s.slots, s.index + k0, k), o, PollHistory(c, s, h));
    }
  }

  lemma AdvanceKeepsAligned(c: Config, s: Stream, h: History, k0: nat, k: nat, n: nat,
                            synced: seq<Slot>, o: Outcome, g: History)
    requires Aligned(c, s, h) && WellFormed(c, o.next) && 0 < k + n && k0 <= c.Ring()
    requires Parts(c, s, k0, k, n, synced, o)
    requires g.base == h.base + k0 + k + n
    requires g.lastNum == if n == 0 then h.lastNum else g.base - 1
    ensures Aligned(c, o.next, g)
  {
    hide Wrap, Cell, Cells, Clear, Config.Ring;
    var x, x' := s.index, s.index + k0 + k + n;
    var off := h.base - x;
    PassedPositions(s.slots, x, k0, k, n, synced);
    WrapSmall(x, c.Ring());
    WindowShift(c, s.slots, h.base, x, 0, h.lastNum);
    WindowAdvances(c, s.slots, x, off, h.lastNum, o.next.slots, x', g.lastNum);
    WrapShift(h.base, x, k0 + k + n, c.Ring());
    WindowShift(c, o.next.slots, x', g.base, off, g.lastNum);
    // the last position passed over held the packet of its own number
    assert InPlace(c, Cell(s.slots, x' - 1), x' - 1 + off, h.lastNum);
  }
}
