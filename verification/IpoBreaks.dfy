/**
 Runs in which the order breaks: what the hypotheses are for.  A packet that is
 older than the one the ring was anchored at is read after it; and where the ring
 does not divide the number space, the number after the last one falls on a slot
 out of turn.
 */
module IpoBreaks {
  import opened Modular
  import opened IpoModel
  import opened IpoOrdering

  // ---- one call ------------------------------------------------------------------------------

  function Quiet(now: int): Call {
    Call(now, [], true)
  }

  lemma QuietCall(c: Config, s: Stream, now: int)
    requires WellFormed(c, s)
    ensures KnownCall(c, Quiet(now)) && WellFormed(c, Tick(c, s, now))
    ensures GetNextChunk(c, s, Quiet(now)) == Poll(c, Tick(c, s, now))
  {
  }

  /** What is left of a slot's packet. */
  function Taken(slots: seq<Slot>, i: nat): (r: seq<Slot>)
    requires i < |slots|
    ensures |r| == |slots|
  {
    slots[i := slots[i].(valid := false)]
  }

  /** A packet alone at the ring's turn to be read, ready and followed by nothing, is delivered by itself. */
  lemma DeliversOne(c: Config, s: Stream, i: nat, k: nat)
    requires WellFormed(c, s) && s.mode.Running? && !TooEarly(c, s)
    requires i < c.Ring() && k < c.Ring() && i == Wrap(s.index + k, c.Ring())
    requires forall y :: s.index <= y < s.index + k ==> !Cell(s.slots, y).valid
    requires s.slots[i].valid && s.slots[i].time + c.hold < s.now && s.startTime <= s.slots[i].time
    requires i + 1 < c.Ring() ==> !s.slots[i + 1].valid
    ensures Poll(c, s)
         == Outcome(s.(slots := Taken(s.slots, i), index := Wrap(i + 1, c.Ring()), last := s.slots[i].number),
                    [], Chunk(i, [s.slots[i]]))
  {
    hide Wrap, Cell, EmptyRun, SyncRun, ReadyRun, Clear, Cells, Deliver;
    var x := s.index + k;
    CellIs(s.slots, x, i);
    EmptyRunIs(s.slots, s.index, c.Ring(), k);
    SyncRunIs(s.slots, x, c.Ring(), s.startTime, 0);
    ClearNothing(s.slots, x);
    DeliverOne(c, s.(index := i), x, i);
  }

  lemma CellIs(slots: seq<Slot>, x: int, i: nat)
    requires 0 < |slots| && Wrap(x, |slots|) == i
    ensures Cell(slots, x) == slots[i]
  {
  }

  lemma DeliverOne(c: Config, s: Stream, x: nat, i: nat)
    requires WellFormed(c, s) && i < c.Ring() && i == Wrap(x, c.Ring())
    requires s.slots[i].valid && s.slots[i].time + c.hold < s.now
    requires i + 1 < c.Ring() ==> !s.slots[i + 1].valid
    ensures Deliver(c, s, x)
         == Outcome(s.(slots := Taken(s.slots, i), index := Wrap(i + 1, c.Ring()), last := s.slots[i].number),
                    [], Chunk(i, [s.slots[i]]))
  {
    hide Wrap, Cell, ReadyRun, ClearOne;
    var r := c.Ring();
    CellIs(s.slots, x, i);
    WrapAdd(x, 1, r);
    CellIs(s.slots, x + 1, Wrap(i + 1, r));
    if i + 1 < r {
      WrapSmall(i + 1, r);
    }
    ReadyRunIs(s.slots, x, r - i, c.hold, s.now, 1);
    ClearOneAt(s.slots, x, i);
    OneCleared(s.slots, x);
  }

  lemma OneCleared(slots: seq<Slot>, x: int)
    requires 0 < |slots|
    ensures Clear(slots, x, 1) == ClearOne(slots, x) && Cells(slots, x, 1) == [Cell(slots, x)]
  {
    hide ClearOne, Cell;
    ClearNothing(ClearOne(slots, x), x + 1);
  }

  /** A first copy of a running stream is stored. */
  lemma StoresFresh(c: Config, s: Stream, p: Packet)
    requires WellFormed(c, s) && s.mode.Running? && Known(c, p)
    requires 0 < Ahead(c, s.last, p.number) < c.Half() && p.number < c.Ring() && !s.slots[p.number].valid
    ensures Arrive(c, s, p) == s.(slots := s.slots[p.number := Stored(s, p)])
  {
    hide Wrap;
    WrapSmall(p.number, c.Ring());
  }

  lemma OneArrival(c: Config, s: Stream, p: Packet)
    requires WellFormed(c, s) && Known(c, p)
    ensures ArriveAll(c, s, [Good(p)]) == Arrive(c, s, p)
  {
    hide Arrive;
    assert [Good(p)][..0] == [];
  }

  lemma TwoArrivals(c: Config, s: Stream, p: Packet, q: Packet)
    requires WellFormed(c, s) && Known(c, p) && Known(c, q)
    ensures ArriveAll(c, s, [Good(p), Good(q)]) == Arrive(c, Arrive(c, s, p), q)
  {
    hide Arrive;
    assert [Good(p), Good(q)][..1] == [Good(p)];
    OneArrival(c, s, p);
  }

  /** The position of slot 0 after the rest of a turn that is empty. */
  lemma EmptyToZero(slots: seq<Slot>, i: nat)
    requires 0 < i <= |slots| && forall y :: i <= y < |slots| ==> !slots[y].valid
    ensures var x := Wrap(i, |slots|); var k := if i == |slots| then 0 else |slots| - i;
      && k < |slots|
      && Wrap(x + k, |slots|) == 0 && forall y :: x <= y < x + k ==> !Cell(slots, y).valid
  {
    hide Wrap, Cell;
    var r := |slots|;
    WrapSmall(0, r);
    WrapTurn(0, r);
    if i < r {
      WrapSmall(i, r);
      forall y | i <= y < r
        ensures !Cell(slots, y).valid
      {
        WrapSmall(y, r);
        CellIs(slots, y, y);
      }
    }
  }

  const NO_PACKET := Slot(0, false, 0, 0)

  // ---- behind the anchor -----------------------------------------------------------------------

  /** The packet that anchors the ring, and the one before it. */
  const FIRST := Packet(0, 1, 0)
  const OLDER := Packet(0, 0, 0)

  function CallWithOlder(c: Config): Call {
    Call(c.hold, [Good(FIRST), Good(OLDER)], true)
  }

  function BothHeld(c: Config): Stream
    requires c.Valid() && 2 <= c.Ring()
  {
    Stream(seq(c.Ring(), _ => NO_PACKET)[1 := Slot(1, true, c.hold, 0)][0 := Slot(0, true, c.hold, 0)],
           Running, 1, c.space + 1 - c.InitOffset(), c.hold, c.hold, c.hold)
  }

  lemma BothAreHeld(c: Config)
    requires c.Valid() && 2 <= c.Ring()
    ensures KnownCall(c, Quiet(0)) && KnownCall(c, CallWithOlder(c))
    ensures GetNextChunk(c, GetNextChunk(c, Initial(c), Quiet(0)).next, CallWithOlder(c)).next == BothHeld(c)
  {
    hide Wrap, FullScan, Arrive;
    QuietCall(c, Initial(c), 0);
    var s := Tick(c, GetNextChunk(c, Initial(c), Quiet(0)).next, c.hold);
    FirstAnchors(c, s);
    TwoArrivals(c, s, FIRST, OLDER);
    var t := Arrive(c, s, FIRST);
    AheadOfOffset(c);
    StoresFresh(c, t, OLDER);
  }

  lemma AheadOfOffset(c: Config)
    requires c.Valid()
    ensures Wrap(1 - c.InitOffset(), c.space) == c.space + 1 - c.InitOffset()
    ensures Ahead(c, c.space + 1 - c.InitOffset(), 1) == c.InitOffset()
    ensures Ahead(c, c.space + 1 - c.InitOffset(), 0) == c.InitOffset() - 1
  {
    hide Wrap;
    var q := c.InitOffset();
    WrapTurn(1 - q, c.space);
    WrapSmall(c.space + 1 - q, c.space);
    WrapTurn(q - c.space, c.space);
    WrapTurn(q - 1 - c.space, c.space);
    WrapSmall(q, c.space);
    WrapSmall(q - 1, c.space);
  }

  lemma FirstAnchors(c: Config, s: Stream)
    requires c.Valid() && 2 <= c.Ring()
    requires s == Stream(seq(c.Ring(), _ => NO_PACKET), WaitFirstPacket, 0, 0, 0, c.hold, c.hold)
    ensures Arrive(c, s, FIRST)
         == Stream(seq(c.Ring(), _ => NO_PACKET)[1 := Slot(1, true, c.hold, 0)],
                   Running, 1, c.space + 1 - c.InitOffset(), c.hold, c.hold, c.hold)
  {
    hide Wrap;
    AheadOfOffset(c);
    WrapSmall(1, c.Ring());
  }

  /**
   A packet older than the one that anchors the ring is accepted, and delivered
   after it: whatever the configuration, if the ring has two slots, the order
   breaks in some run from power-on in which a first copy does not fit.
   */
  lemma BehindAnchorIsDeliveredLate(c: Config)
    requires c.Valid() && 2 <= c.Ring()
    ensures KnownCall(c, Quiet(0)) && KnownCall(c, CallWithOlder(c))
    ensures var s2 := GetNextChunk(c, GetNextChunk(c, Initial(c), Quiet(0)).next, CallWithOlder(c)).next;
      && var o3 := GetNextChunk(c, s2, Quiet(2 * c.hold + 1));
      && var o4 := GetNextChunk(c, o3.next, Quiet(2 * c.hold + 1));
      && o3.chunk.packets == [Slot(1, true, c.hold, 0)] && o4.chunk.packets == [Slot(0, true, c.hold, 0)]
  {
    hide Wrap, Poll, GetNextChunk, Initial, Cell;
    BothAreHeld(c);
    var s, now, r := BothHeld(c), 2 * c.hold + 1, c.Ring();
    QuietCall(c, s, now);
    WrapSmall(1, r);
    DeliversOne(c, Tick(c, s, now), 1, 0);
    var t := GetNextChunk(c, s, Quiet(now)).next;
    QuietCall(c, t, now);
    EmptyToZero(t.slots, 2);
    DeliversOne(c, Tick(c, t, now), 0, if r == 2 then 0 else r - 2);
  }

  // ---- the turn of the numbers -------------------------------------------------------------------

  /** The slot of number 0 would be this one if the ring were read on after the last number. */
  function Misplaced(c: Config): (j: nat)
    requires c.Valid()
    ensures j < c.Ring()
  {
    Wrap(c.space, c.Ring())
  }

  function LastPacket(c: Config): Packet
    requires c.Valid()
  {
    Packet(0, c.space - 1, 0)
  }

  /**
   The last number is received and delivered; then number 0, which comes next,
   and the number of the slot where the ring is read on are received in one poll.
   */
  function CallToAnchor(c: Config): Call
    requires c.Valid()
  {
    Call(c.hold, [Good(LastPacket(c))], true)
  }

  function CallToMix(c: Config): Call
    requires c.Valid()
  {
    Call(2 * c.hold + 1, [Good(Packet(0, 0, 0)), Good(Packet(0, Misplaced(c), 0))], true)
  }

  /** The ring with the last number in its slot. */
  function LastHeld(c: Config): (r: seq<Slot>)
    requires c.Valid() && 0 < Misplaced(c)
    ensures |r| == c.Ring()
  {
    seq(c.Ring(), _ => NO_PACKET)[Misplaced(c) - 1 := Slot(c.space - 1, true, c.hold, 0)]
  }

  function AnchoredAtLast(c: Config): Stream
    requires c.Valid() && 0 < Misplaced(c)
  {
    Stream(LastHeld(c), Running, Misplaced(c) - 1, c.space - 1 - c.InitOffset(), c.hold, c.hold, c.hold)
  }

  function LastDelivered(c: Config): Stream
    requires c.Valid() && 0 < Misplaced(c)
  {
    Stream(Taken(LastHeld(c), Misplaced(c) - 1), Running, Misplaced(c), c.space - 1, c.hold, c.hold, 2 * c.hold + 1)
  }

  function Mixed(c: Config): Stream
    requires c.Valid() && 0 < Misplaced(c)
  {
    var s, now, j := LastDelivered(c), 2 * c.hold + 1, Misplaced(c);
    s.(slots := s.slots[0 := Slot(0, true, now, 0)][j := Slot(j, true, now, 0)], nextTime := now)
  }

  lemma LastPlace(c: Config)
    requires c.Valid() && 0 < Misplaced(c)
    ensures Wrap(c.space - 1, c.Ring()) == Misplaced(c) - 1
  {
    hide Wrap;
    WrapStep(c.space - 1, c.Ring());
  }

  lemma AnchorIsReached(c: Config)
    requires c.Valid() && 0 < Misplaced(c)
    ensures KnownCall(c, Quiet(0)) && KnownCall(c, CallToAnchor(c))
    ensures GetNextChunk(c, GetNextChunk(c, Initial(c), Quiet(0)).next, CallToAnchor(c)).next == AnchoredAtLast(c)
  {
    hide Wrap, FullScan;
    LastPlace(c);
    QuietCall(c, Initial(c), 0);
    var s := Tick(c, GetNextChunk(c, Initial(c), Quiet(0)).next, c.hold);
    var p := LastPacket(c);
    WrapSmall(p.number - c.InitOffset(), c.space);
    WrapSmall(c.InitOffset(), c.space);
    OneArrival(c, s, p);
  }

  lemma LastIsDelivered(c: Config)
    requires c.Valid() && 0 < Misplaced(c)
    ensures WellFormed(c, AnchoredAtLast(c))
    ensures GetNextChunk(c, AnchoredAtLast(c), Quiet(2 * c.hold + 1)).next == LastDelivered(c)
  {
    hide Wrap, Poll;
    var s, now := AnchoredAtLast(c), 2 * c.hold + 1;
    QuietCall(c, s, now);
    WrapSmall(s.index, c.Ring());
    WrapSmall(s.index + 1, c.Ring());
    DeliversOne(c, Tick(c, s, now), s.index, 0);
  }

  lemma MixIsReached(c: Config)
    requires c.Valid() && 0 < Misplaced(c) && Misplaced(c) + 1 < c.Half()
    ensures WellFormed(c, LastDelivered(c)) && KnownCall(c, CallToMix(c))
    ensures GetNextChunk(c, LastDelivered(c), CallToMix(c)).next == Mixed(c)
  {
    hide Wrap, FullScan, Arrive;
    var s, now, j := LastDelivered(c), 2 * c.hold + 1, Misplaced(c);
    var zero, later := Packet(0, 0, 0), Packet(0, j, 0);
    AheadOfLast(c, 0);
    AheadOfLast(c, j);
    StoresFresh(c, s, zero);
    var t := Arrive(c, s, zero);
    StoresFresh(c, t, later);
    TwoArrivals(c, s, zero, later);
    ReadyLater(c, Arrive(c, t, later), j);
  }

  lemma AheadOfLast(c: Config, number: nat)
    requires c.Valid() && number + 1 < c.Half()
    ensures Ahead(c, c.space - 1, number) == number + 1
  {
    hide Wrap;
    WrapTurn(number - (c.space - 1), c.space);
    WrapSmall(number + 1, c.space);
  }

  /** A packet at the ring index that is not ready yet is remembered by its time. */
  lemma ReadyLater(c: Config, s: Stream, i: nat)
    requires WellFormed(c, s) && s.mode.Running? && !TooEarly(c, s) && i == s.index
    requires s.slots[i].valid && s.slots[i].time + c.hold >= s.now
    ensures Poll(c, s) == Idle(s.(nextTime := s.slots[i].time))
  {
    hide Wrap, EmptyRun, Cell, SyncAndDeliver;
    WrapSmall(i, c.Ring());
    CellIs(s.slots, i, i);
    EmptyRunIs(s.slots, i, c.Ring(), 0);
  }

  lemma LaterComesFirst(c: Config)
    requires c.Valid() && 0 < Misplaced(c)
    ensures WellFormed(c, Mixed(c))
    ensures var j, now := Misplaced(c), 3 * c.hold + 2;
      && var o := GetNextChunk(c, Mixed(c), Quiet(now));
      && o.chunk.packets == [Slot(j, true, 2 * c.hold + 1, 0)]
      && o.next == Mixed(c).(slots := Taken(Mixed(c).slots, j), index := Wrap(j + 1, c.Ring()), last := j, now := now)
  {
    hide Wrap, Poll;
    var s, now := Mixed(c), 3 * c.hold + 2;
    QuietCall(c, s, now);
    WrapSmall(s.index, c.Ring());
    DeliversOne(c, Tick(c, s, now), s.index, 0);
  }

  lemma ZeroComesAfter(c: Config, s: Stream)
    requires c.Valid() && 0 < Misplaced(c)
    requires var j := Misplaced(c);
      s == Mixed(c).(slots := Taken(Mixed(c).slots, j), index := Wrap(j + 1, c.Ring()), last := j, now := s.now)
    requires s.now == 3 * c.hold + 2
    ensures WellFormed(c, s)
    ensures GetNextChunk(c, s, Quiet(s.now)).chunk.packets == [Slot(0, true, 2 * c.hold + 1, 0)]
  {
    hide Wrap, Poll, Cell;
    var j, r := Misplaced(c), c.Ring();
    QuietCall(c, s, s.now);
    EmptyToZero(s.slots, j + 1);
    DeliversOne(c, Tick(c, s, s.now), 0, if j + 1 == r then 0 else r - j - 1);
  }

  /** All but one of the ring sizes that do not divide the number space put a number within reach out of turn. */
  lemma MisplacedWithinReach(c: Config)
    requires c.Valid() && !Consecutive(c) && c.Ring() != c.Half() + 1
    ensures 0 < Misplaced(c) && Misplaced(c) + 1 < c.Half()
  {
    hide Wrap, Config.Ring, Config.Half, Config.Valid;
    TwoHalves(c);
    RemainderOfTwice(c.space, c.Half(), c.Ring());
  }

  lemma TwoHalves(c: Config)
    requires c.Valid()
    ensures c.space == c.Half() + c.Half() && 4 <= c.Half() && 0 < c.Ring() <= c.space
  {
  }

  /** A number that does not divide twice `half`, and is not `half + 1`, leaves a remainder below `half - 1`. */
  lemma RemainderOfTwice(space: nat, half: nat, r: nat)
    requires space == half + half && 4 <= half && 0 < r <= space && Wrap(space, r) != 0 && r != half + 1
    ensures 0 < Wrap(space, r) && Wrap(space, r) + 1 < half
  {
    hide Wrap;
    if half <= r {
      WrapTurn(space - r, r);
      if r == half {
        WrapTurn(0, r);
        WrapSmall(0, r);
      } else {
        WrapSmall(space - r, r);
      }
    }
  }

  /**
   Whatever the buffer, if the ring does not divide the number space the order
   breaks in some run from power-on: of two packets received together after the
   last number was delivered, the later one is delivered first.  The one size
   this leaves open is a ring of one slot more than half the number space.
   */
  lemma OrderBreaksAtTheTurn(c: Config)
    requires c.Valid() && !Consecutive(c) && c.Ring() != c.Half() + 1
    ensures KnownCall(c, Quiet(0)) && KnownCall(c, CallToAnchor(c)) && KnownCall(c, CallToMix(c))
    ensures var s2 := GetNextChunk(c, GetNextChunk(c, Initial(c), Quiet(0)).next, CallToAnchor(c)).next;
      && var s3 := GetNextChunk(c, s2, Quiet(2 * c.hold + 1)).next;
      && var s4 := GetNextChunk(c, s3, CallToMix(c)).next;
      && var o5 := GetNextChunk(c, s4, Quiet(3 * c.hold + 2));
      && var o6 := GetNextChunk(c, o5.next, Quiet(3 * c.hold + 2));
      && s3.last == c.space - 1 && Ahead(c, s3.last, 0) < Ahead(c, s3.last, Misplaced(c)) < c.Half()
      && |o5.chunk.packets| == |o6.chunk.packets| == 1
      && o5.chunk.packets[0].number == Misplaced(c) && o6.chunk.packets[0].number == 0
  {
    hide GetNextChunk, Initial, Wrap, AnchoredAtLast, Mixed;
    MisplacedWithinReach(c);
    AnchorIsReached(c);
    LastIsDelivered(c);
    MixIsReached(c);
    LaterComesFirst(c);
    ZeroComesAfter(c, GetNextChunk(c, Mixed(c), Quiet(3 * c.hold + 2)).next);
    AheadOfLast(c, 0);
    AheadOfLast(c, Misplaced(c));
  }
}
