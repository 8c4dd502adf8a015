/**
 The Inline Packet Ordering receiver as its source has it: an object with a slot
 array that loops update in place.  Every method is proved equal to the function
 of `IpoModel` or `IpoAccounting` that specifies it, so that what those modules
 prove of the functions holds of the object.
 */
module IpoReceiver {
  import opened Modular
  import opened IpoModel
  import opened IpoOrdering
  import opened IpoTiming
  import opened IpoAccounting

  // ---- recognising the results of the loops ---------------------------------------

  /** At the position after `k` cleared ones the synchronisation stops, or finds the packet that was there. */
  lemma SyncAt(slots: seq<Slot>, cleared: seq<Slot>, x: int, t: int, k: nat, i: nat)
    requires |slots| > 0 && k <= |slots| && cleared == Clear(slots, x, k) && i == Wrap(x + k, |slots|)
    requires forall y :: x <= y < x + k ==> Cell(slots, y).valid && Cell(slots, y).time < t
    ensures cleared[i] == Cell(cleared, x + k)
    ensures !cleared[i].valid || cleared[i].time >= t ==> SyncRun(slots, x, |slots|, t) == k
    ensures cleared[i].valid ==> k < |slots| && cleared[i] == Cell(slots, x + k)
  {
    hide Wrap, Clear, SyncRun;
    CellAt(cleared, x + k, i);
    WholeTurnCleared(slots, x, k);
    if k < |slots| {
      AfterCleared(slots, x, k);
    }
    if !cleared[i].valid || cleared[i].time >= t {
      SyncRunIs(slots, x, |slots|, t, k);
    }
  }

  lemma {:induction false} ClearNext(slots: seq<Slot>, x: int, k: nat)
    requires |slots| > 0
    ensures Clear(slots, x, k + 1) == ClearOne(Clear(slots, x, k), x + k)
    decreases k
  {
    if k > 0 {
      ClearNext(ClearOne(slots, x), x + 1, k - 1);
    }
  }

  lemma CellsNext(slots: seq<Slot>, x: int, k: nat)
    requires |slots| > 0
    ensures Cells(slots, x, k + 1) == Cells(slots, x, k) + [Cell(slots, x + k)]
  {
  }

  /** Within one turn, the position after a cleared run is as it was. */
  lemma AfterCleared(slots: seq<Slot>, x: int, k: nat)
    requires 0 < |slots| && k < |slots|
    ensures Cell(Clear(slots, x, k), x + k) == Cell(slots, x + k)
  {
    ClearCells(slots, x, k, x + k);
  }

  lemma WakeWellFormed(c: Config, s: Stream, l: Ledger, p: Packet)
    requires WellFormed(c, s) && Known(c, p) && LedgerFits(c, l)
    ensures WellFormed(c, Wake(c, s, p)) && LedgerFits(c, WakeLedger(c, s, l))
  {
  }

  /** The ring's well-formedness does not depend on mode, time or where it is read from. */
  lemma SetOutside(c: Config, s: Stream, r: Stream)
    requires WellFormed(c, s) && r.index < c.Ring()
    requires r == s.(mode := r.mode, index := r.index, nextTime := r.nextTime)
    ensures WellFormed(c, r)
  {
  }

  /** Where the ring was last read from does not matter once a packet is found. */
  lemma SyncFromAnyIndex(c: Config, s: Stream, x: nat, i: nat)
    requires WellFormed(c, s) && i < c.Ring()
    ensures WellFormed(c, s.(index := i))
    ensures SyncAndDeliver(c, s.(index := i), x) == SyncAndDeliver(c, s, x)
  {
    hide Wrap, Cell, Clear, Cells, SyncRun;
  }

  lemma ReceivedFits(c: Config, books: Ledger, b: Ledger, packets: seq<Slot>)
    requires LedgerFits(c, books) && b == CompleteAll(c, books, packets).(received := b.received)
    ensures LedgerFits(c, b)
  {
  }

  /** Synchronisation that meets an empty slot ends the poll. */
  lemma SyncStops(c: Config, s: Stream, x: nat, r: Stream)
    requires WellFormed(c, s)
    requires var k := SyncRun(s.slots, x, c.Ring(), s.startTime);
      && r == s.(slots := Clear(s.slots, x, k), index := Wrap(x + k, c.Ring()),
                 nextTime := if k == 0 then s.nextTime else Cell(s.slots, x + k - 1).time)
      && !Cell(r.slots, x + k).valid
    ensures SyncAndDeliver(c, s, x).next == r && SyncAndDeliver(c, s, x).chunk == Chunk(0, [])
  {
    hide Wrap, Cell, Clear, Cells, SyncRun, Deliver;
  }

  /** Synchronisation that meets a packet of the synchronised stream goes on to deliver. */
  lemma SyncContinues(c: Config, s: Stream, x: nat, r: Stream)
    requires WellFormed(c, s) && WellFormed(c, r)
    requires var k := SyncRun(s.slots, x, c.Ring(), s.startTime);
      && r == s.(slots := Clear(s.slots, x, k), index := Wrap(x + k, c.Ring()),
                 nextTime := if k == 0 then s.nextTime else Cell(s.slots, x + k - 1).time)
      && Cell(r.slots, x + k).valid
    ensures var o := Deliver(c, r, x + SyncRun(s.slots, x, c.Ring(), s.startTime));
      SyncAndDeliver(c, s, x).next == o.next && SyncAndDeliver(c, s, x).chunk == o.chunk
  {
    hide Wrap, Cell, Clear, Cells, SyncRun, Deliver;
  }

  /** The state of the delivery loop after some packets: cleared, completed, and the index not yet judged. */
  ghost predicate Delivering(c: Config, was: Stream, books: Ledger, x: nat, packets: seq<Slot>, v: Stream, b: Ledger)
    requires WellFormed(c, was) && LedgerFits(c, books)
  {
    var n := |packets|;
    && packets == Cells(was.slots, x, n)
    && (forall y :: x <= y < x + n ==> Cell(was.slots, y).valid && Cell(was.slots, y).time + c.hold < was.now)
    && v == was.(slots := Clear(was.slots, x, n), index := v.index,
                 last := if n == 0 then was.last else Cell(was.slots, x + n - 1).number)
    && b == CompleteAll(c, books, packets)
  }

  lemma DeliveringStarts(c: Config, was: Stream, books: Ledger, x: nat)
    requires WellFormed(c, was) && LedgerFits(c, books)
    ensures Delivering(c, was, books, x, [], was, books)
  {
    ClearNothing(was.slots, x);
  }

  lemma DeliveringNext(c: Config, was: Stream, books: Ledger, x: nat, packets: seq<Slot>, v: Stream, b: Ledger)
    requires WellFormed(c, was) && LedgerFits(c, books) && LedgerFits(c, b) && |v.slots| == c.Ring()
    requires Delivering(c, was, books, x, packets, v, b) && |packets| < c.Ring()
    requires var info := Cell(v.slots, x + |packets|); info.valid && info.time + c.hold < v.now
    ensures var y := x + |packets|; var info := Cell(v.slots, y);
      Delivering(c, was, books, x, packets + [info],
                 v.(slots := ClearOne(v.slots, y), last := info.number), Complete(c, b, info.number))
  {
    hide Wrap, Cell, Clear, ClearOne, Cells, Complete;
    var n := |packets|;
    AfterCleared(was.slots, x, n);
    ClearNext(was.slots, x, n);
    CellsNext(was.slots, x, n);
    assert (packets + [Cell(v.slots, x + n)])[..n] == packets;
  }

  lemma DeliveringAnywhere(c: Config, was: Stream, books: Ledger, x: nat, packets: seq<Slot>, v: Stream,
                           b: Ledger, i: nat)
    requires WellFormed(c, was) && LedgerFits(c, books) && WellFormed(c, v) && i < c.Ring()
    requires Delivering(c, was, books, x, packets, v, b)
    ensures Delivering(c, was, books, x, packets, v.(index := i), b) && WellFormed(c, v.(index := i))
  {
  }

  lemma DeliveringStops(c: Config, was: Stream, books: Ledger, x: nat, packets: seq<Slot>, v: Stream, b: Ledger)
    requires WellFormed(c, was) && LedgerFits(c, books) && |v.slots| == c.Ring()
    requires Delivering(c, was, books, x, packets, v, b)
    requires |packets| <= c.Ring() - Wrap(x, c.Ring()) && v.index == Wrap(x + |packets|, c.Ring())
    requires |packets| < c.Ring() - Wrap(x, c.Ring()) ==>
               var info := Cell(v.slots, x + |packets|); !(info.valid && info.time + c.hold < v.now)
    ensures var o := Deliver(c, was, x);
      v == o.next && packets == o.chunk.packets && o.chunk.start == Wrap(x, c.Ring())
    ensures b == CompleteAll(c, books, packets)
  {
    hide Wrap, Cell, Clear, Cells, ReadyRun;
    var n := |packets|;
    if n < c.Ring() - Wrap(x, c.Ring()) {
      AfterCleared(was.slots, x, n);
    }
    ReadyRunIs(was.slots, x, c.Ring() - Wrap(x, c.Ring()), c.hold, was.now, n);
  }

  /** Clearing a run and moving the index on keeps a state well formed. */
  /** After `k` packets from position `x` on were skipped. */
  function Skipping(c: Config, s: Stream, x: int, k: nat): Stream
    requires WellFormed(c, s)
  {
    s.(slots := Clear(s.slots, x, k),
       index := Wrap(x + k, c.Ring()),
       nextTime := if k == 0 then s.nextTime else Cell(s.slots, x + k - 1).time)
  }

  lemma SkippingNone(c: Config, s: Stream, x: int)
    requires WellFormed(c, s) && s.index == Wrap(x, c.Ring())
    ensures Skipping(c, s, x, 0) == s
  {
    hide Wrap;
    ClearNothing(s.slots, x);
  }

  /** What the loop finds next, and that it has found all when it stops there. */
  lemma SkippingAt(c: Config, s: Stream, x: int, k: nat, r: Stream)
    requires WellFormed(c, s) && k <= c.Ring() && r == Skipping(c, s, x, k)
    requires forall y :: x <= y < x + k ==> Cell(s.slots, y).valid && Cell(s.slots, y).time < s.startTime
    ensures WellFormed(c, r) && r.index == Wrap(x + k, c.Ring()) && r.index < |r.slots|
    ensures r.startTime == s.startTime && r.slots[r.index] == Cell(r.slots, x + k)
    ensures var slot := r.slots[r.index];
      && (!slot.valid || slot.time >= s.startTime ==> SyncRun(s.slots, x, c.Ring(), s.startTime) == k)
      && (slot.valid ==> k < c.Ring() && slot == Cell(s.slots, x + k))
  {
    hide Wrap, Clear, SyncRun, Cell;
    SyncAt(s.slots, r.slots, x, s.startTime, k, r.index);
  }

  lemma SkippingNext(c: Config, s: Stream, x: int, k: nat)
    requires WellFormed(c, s) && k < c.Ring()
    ensures var r := Skipping(c, s, x, k);
      && |r.slots| > 0
      && Skipping(c, s, x, k + 1)
         == r.(slots := ClearOne(r.slots, x + k), index := Wrap(x + k + 1, c.Ring()),
               nextTime := Cell(r.slots, x + k).time)
  {
    hide Wrap, Clear, ClearOne, Cell;
    ClearNext(s.slots, x, k);
    AfterCleared(s.slots, x, k);
  }

  class Receiver {
    const c: Config
    const slots: array<Slot>
    var mode: Mode
    var index: nat
    var last: nat
    var nextTime: int
    var startTime: int
    var now: int

    const pathPackets: array<seq<bool>>
    const counts: array<nat>
    const drops: array<nat>
    var received: nat
    var lost: nat
    var late: nat
    var corrupt: nat
    var initialized: bool
    var lastNumber: nat

    ghost function View(): Stream
      requires c.Valid() && slots.Length == c.Ring()
      reads this, slots
    {
      Stream(slots[..], mode, index, last, nextTime, startTime, now)
    }

    ghost function Books(): Ledger
      reads this, pathPackets, counts, drops
    {
      Ledger(pathPackets[..], counts[..], drops[..], received, lost, late, corrupt, initialized, lastNumber)
    }

    ghost predicate Valid()
      reads this, slots, pathPackets, counts, drops
    {
      && c.Valid() && slots.Length == c.Ring() && WellFormed(c, View())
      && LedgerFits(c, Books())
      && counts != drops
      && (slots as object) != pathPackets && (slots as object) != counts && (slots as object) != drops
      && (pathPackets as object) != counts && (pathPackets as object) != drops
    }

    constructor (config: Config)
      requires config.Valid()
      ensures Valid() && c == config && fresh(slots) && fresh(pathPackets) && fresh(counts) && fresh(drops)
      ensures View() == Initial(config) && Books() == NewLedger(config)
    {
      c := config;
      slots := new Slot[config.Ring()](_ => Slot(0, false, 0, 0));
      mode, index, last, nextTime, startTime, now := NotStarted, 0, 0, 0, 0, 0;
      pathPackets := new seq<bool>[config.elements](_ => seq(config.paths, _ => false));
      counts := new nat[config.paths](_ => 0);
      drops := new nat[config.paths](_ => 0);
      received, lost, late, corrupt, initialized, lastNumber := 0, 0, 0, 0, false, 0;
      new;
      assert slots[..] == Initial(config).slots;
      assert pathPackets[..] == NewLedger(config).flags;
      assert counts[..] == NewLedger(config).counts && drops[..] == NewLedger(config).drops;
    }

    method StartAt(time: int)
      requires Valid()
      modifies this
      ensures Valid() && View() == Start(c, old(View()), time) && Books() == old(Books())
    {
      mode := WaitFirstPacket;
      startTime := time + c.hold;
    }

    /** Takes the time at the beginning of a call, starting on demand. */
    method TakeTime(time: int)
      requires Valid()
      modifies this
      ensures Valid() && View() == Tick(c, old(View()), time) && Books() == old(Books())
    {
      now := time;
      if mode.NotStarted? {
        mode := WaitFirstPacket;
        startTime := now + c.hold;
      }
    }

    // ---- arrivals ------------------------------------------------------------------

    /** The flags of a first copy, set path by path. */
    method FirstCopyFlags(path: nat) returns (flags: seq<bool>)
      ensures flags == seq(c.paths, i => i == path)
    {
      flags := [];
      var i := 0;
      while i < c.paths
        invariant i <= c.paths && flags == seq(i, j => j == path)
      {
        flags := flags + [i == path];
        i := i + 1;
      }
    }

    /** The mode switch on a packet's arrival. */
    method WakeFor(p: Packet)
      requires Valid() && Known(c, p)
      modifies this
      ensures Valid()
      ensures View() == Wake(c, old(View()), p)
      ensures Books() == WakeLedger(c, old(View()), old(Books()))
    {
      hide Wrap, WellFormed, LedgerFits;
      WakeWellFormed(c, View(), Books(), p);
      if mode.WaitFirstPacket? {
        index := Wrap(p.number, c.Ring());
        last := Wrap(p.number - c.InitOffset(), c.space);
        mode := Running;
        nextTime := now;
      } else if mode.Waiting? {
        if now - nextTime > c.restartGap {
          initialized := false;
          index := Wrap(p.number, c.Ring());
          last := Wrap(p.number - c.InitOffset(), c.space);
          startTime := now + c.hold;
        }
        mode := Running;
        nextTime := now;
      }
    }

    /** Stores a first copy in its slot. */
    method StoreFresh(p: Packet)
      requires Valid() && Known(c, p)
      modifies slots, pathPackets
      ensures Valid() && Books() == OnFresh(c, old(Books()), p)
      ensures View() == old(View()).(slots := old(slots[..])[Wrap(p.number, c.Ring()) := Stored(old(View()), p)])
    {
      hide Wrap;
      var i := Wrap(p.number, c.Ring());
      slots[i] := Slot(p.number, true, now, p.hw);
      var flags := FirstCopyFlags(p.path);
      pathPackets[i] := flags;
    }

    /** Classifies one packet and stores it if it is new. */
    method ProcessPacket(p: Packet)
      requires Valid() && Known(c, p)
      modifies this, slots, pathPackets
      ensures Valid()
      ensures View() == Arrive(c, old(View()), p)
      ensures Books() == ArriveLedger(c, old(View()), old(Books()), p)
    {
      hide Wrap;
      WakeFor(p);
      var i := Wrap(p.number, c.Ring());
      var ahead := Ahead(c, last, p.number);
      if ahead == 0 || ahead >= c.Half() {
        late := late + 1;
      } else if !slots[i].valid || slots[i].number != p.number {
        StoreFresh(p);
      } else {
        pathPackets[i] := pathPackets[i][p.path := true];
      }
    }

    /** One stride of a sub-stream's completion. */
    method ProcessArrival(a: Arrival)
      requires Valid() && KnownArrival(c, a)
      modifies this, slots, pathPackets
      ensures Valid()
      ensures View() == ArriveOne(c, old(View()), a)
      ensures Books() == ArriveOneLedger(c, old(View()), old(Books()), a)
    {
      match a
      case Corrupt(_) => corrupt := corrupt + 1;
      case Good(p) => ProcessPacket(p);
    }

    method ProcessArrivals(arrivals: seq<Arrival>)
      requires Valid() && forall a :: a in arrivals ==> KnownArrival(c, a)
      modifies this, slots, pathPackets
      ensures Valid()
      ensures View() == ArriveAll(c, old(View()), arrivals)
      ensures Books() == ArriveAllLedger(c, old(View()), old(Books()), arrivals)
    {
      var n := 0;
      while n < |arrivals|
        invariant n <= |arrivals| && Valid()
        invariant forall a :: a in arrivals[..n] ==> KnownArrival(c, a)
        invariant View() == ArriveAll(c, old(View()), arrivals[..n])
        invariant Books() == ArriveAllLedger(c, old(View()), old(Books()), arrivals[..n])
      {
        hide Wrap, ArriveOne, ArriveOneLedger, WellFormed;
        assert arrivals[..n + 1][..n] == arrivals[..n];
        assert arrivals[n] in arrivals;
        assert forall a :: a in arrivals[..n + 1] ==> a in arrivals;
        ProcessArrival(arrivals[n]);
        n := n + 1;
      }
      assert arrivals[..n] == arrivals;
    }

    // ---- reading the ring ----------------------------------------------------------

    /** The next ring index. */
    method Following(i: nat) returns (j: nat)
      requires c.Valid() && i < c.Ring()
      ensures j < c.Ring() && forall x :: Wrap(x, c.Ring()) == i ==> j == Wrap(x + 1, c.Ring())
    {
      j := i + 1;
      if j >= c.Ring() {
        j := 0;
      }
      forall x | Wrap(x, c.Ring()) == i
        ensures j == Wrap(x + 1, c.Ring())
      {
        WrapStep(x, c.Ring());
      }
    }

    /** Searches for the end of an interval of dropped packets, over at most one turn. */
    method FindPacket() returns (found: bool, start: nat)
      requires Valid()
      ensures var k := EmptyRun(slots[..], index, c.Ring());
        (found <==> k < c.Ring()) && start < c.Ring() && (found ==> start == Wrap(index + k, c.Ring()))
      ensures index < c.Ring()
    {
      hide Wrap, EmptyRun;
      start := index;
      WrapSmall(index, c.Ring());
      ghost var slots0 := slots[..];
      var iterations := 1;
      while !slots[start].valid
        invariant 1 <= iterations <= c.Ring() && start == Wrap(index + iterations - 1, c.Ring())
        invariant forall y :: index <= y < index + iterations - 1 ==> !Cell(slots0, y).valid
        decreases c.Ring() - iterations
      {
        assert !Cell(slots0, index + iterations - 1).valid;
        start := Following(start);
        if iterations == c.Ring() {
          EmptyRunIs(slots0, index, c.Ring(), c.Ring());
          return false, start;
        }
        iterations := iterations + 1;
      }
      EmptyRunIs(slots0, index, c.Ring(), iterations - 1);
      return true, start;
    }

    /** Takes the packet at the ring index out of the ring without completing it. */
    method SkipOne(ghost y: int)
      requires Valid() && index == Wrap(y, c.Ring())
      modifies this`index, this`nextTime, slots
      ensures View() == old(View()).(slots := ClearOne(old(slots[..]), y), index := Wrap(y + 1, c.Ring()),
                                     nextTime := Cell(old(slots[..]), y).time)
      ensures Books() == old(Books())
    {
      hide Wrap, ClearOne;
      CellAt(slots[..], y, index);
      ClearOneAt(slots[..], y, index);
      nextTime := slots[index].time;
      slots[index] := slots[index].(valid := false);
      index := Following(index);
    }

    /** Initial synchronisation: skips packets from before the start time; false when it meets an empty slot. */
    method SkipUnsynced(ghost x: nat) returns (synced: bool)
      requires Valid() && index == Wrap(x, c.Ring())
      modifies this`index, this`nextTime, slots
      ensures Valid() && Books() == old(Books())
      ensures var before := old(View()); var k := SyncRun(before.slots, x, c.Ring(), startTime);
        View() == Skipping(c, before, x, k) && (synced <==> Cell(slots[..], x + k).valid)
    {
      hide Wrap, Clear, ClearOne, SyncRun, WellFormed, LedgerFits, Cell, Skipping;
      ghost var was, k := View(), 0;
      SkippingNone(c, was, x);
      while true
        invariant Books() == old(Books()) && View() == Skipping(c, was, x, k) && k <= c.Ring()
        invariant forall y :: x <= y < x + k ==> Cell(was.slots, y).valid && Cell(was.slots, y).time < startTime
        decreases c.Ring() - k
      {
        SkippingAt(c, was, x, k, View());
        if !slots[index].valid || slots[index].time >= startTime {
          return slots[index].valid;
        }
        SkippingNext(c, was, x, k);
        SkipOne(x + k);
        k := k + 1;
      }
    }

    /** Credits each path with the packet or with a drop. */
    method CreditPaths(from: seq<bool>)
      requires |from| == counts.Length == drops.Length && counts != drops
      modifies counts, drops
      ensures counts[..] == seq(|from|, i requires 0 <= i < |from| => old(counts[..])[i] + (if from[i] then 1 else 0))
      ensures drops[..] == seq(|from|, i requires 0 <= i < |from| => old(drops[..])[i] + (if from[i] then 0 else 1))
    {
      var i := 0;
      while i < |from|
        invariant i <= |from|
        invariant forall j :: 0 <= j < i ==> counts[j] == old(counts[j]) + (if from[j] then 1 else 0)
        invariant forall j :: 0 <= j < i ==> drops[j] == old(drops[j]) + (if from[j] then 0 else 1)
        invariant forall j :: i <= j < |from| ==> counts[j] == old(counts[j]) && drops[j] == old(drops[j])
      {
        counts[i] := counts[i] + (if from[i] then 1 else 0);
        drops[i] := drops[i] + (if from[i] then 0 else 1);
        i := i + 1;
      }
    }

    /** Credits one delivered packet to its paths and counts the gap before it. */
    method CompletePacket(number: nat)
      requires Valid() && number < c.space
      modifies this`last, this`lost, this`initialized, this`lastNumber, counts, drops
      ensures Valid() && View() == old(View()).(last := number)
      ensures Books() == Complete(c, old(Books()), number)
    {
      hide Wrap;
      last := number;
      CreditPaths(pathPackets[Wrap(number, c.Ring())]);
      if initialized {
        lost := lost + Wrap(number - (lastNumber + 1), c.space);
      }
      initialized := true;
      lastNumber := number;
    }

    /** Takes the packet at the ring index out of the ring and completes it. */
    method TakeOne(ghost y: int) returns (info: Slot)
      requires Valid() && index == Wrap(y, c.Ring())
      modifies this`last, this`lost, this`initialized, this`lastNumber, slots, counts, drops
      ensures Valid() && info == old(slots[index]) && info.number < c.space
      ensures View() == old(View()).(slots := ClearOne(old(slots[..]), y), last := info.number)
      ensures Books() == Complete(c, old(Books()), info.number)
    {
      hide Wrap, Complete;
      ClearOneAt(slots[..], y, index);
      info := slots[index];
      slots[index] := info.(valid := false);
      CompletePacket(info.number);
    }

    /** Delivers the longest unwrapped run of packets held for long enough. */
    method DeliverReady(ghost x: nat) returns (chunk: Chunk)
      requires Valid() && index == Wrap(x, c.Ring())
      modifies this, slots, counts, drops
      ensures Valid()
      ensures var o := Deliver(c, old(View()), x);
        View() == o.next && chunk == o.chunk && Books() == CompleteAll(c, old(Books()), chunk.packets)
    {
      hide Wrap, Clear, ClearOne, Cell, Complete, WellFormed, LedgerFits, Delivering, Deliver;
      ghost var was, books := old(View()), old(Books());
      var start := index;
      var packets: seq<Slot> := [];
      DeliveringStarts(c, was, books, x);
      while true
        invariant Valid() && |packets| <= c.Ring() - start
        invariant index == start + |packets| < c.Ring() && index == Wrap(x + |packets|, c.Ring())
        invariant Delivering(c, was, books, x, packets, View(), Books())
        decreases c.Ring() - |packets|
      {
        CellAt(slots[..], x + |packets|, index);
        if !slots[index].valid || slots[index].time + c.hold >= now {
          DeliveringStops(c, was, books, x, packets, View(), Books());
          break;
        }
        DeliveringNext(c, was, books, x, packets, View(), Books());
        var info := TakeOne(x + |packets|);
        WrapStep(x + |packets|, c.Ring());
        packets := packets + [info];
        DeliveringAnywhere(c, was, books, x, packets, View(), Books(), if index + 1 >= c.Ring() then 0 else index + 1);
        index := index + 1;
        if index >= c.Ring() {
          index := 0;
          DeliveringStops(c, was, books, x, packets, View(), Books());
          break;
        }
      }
      chunk := Chunk(start, packets);
    }

    /** Synchronisation, then delivery, from ring position `x`. */
    method SyncThenDeliver(ghost x: nat) returns (chunk: Chunk)
      requires Valid() && index == Wrap(x, c.Ring())
      modifies this, slots, counts, drops
      ensures Valid()
      ensures var o := SyncAndDeliver(c, old(View()), x); View() == o.next && chunk == o.chunk
      ensures Books() == CompleteAll(c, old(Books()), chunk.packets)
    {
      hide Wrap, Cell, Clear, SyncRun, Deliver, SyncAndDeliver, WellFormed, LedgerFits;
      ghost var was := View();
      var synced := SkipUnsynced(x);
      if !synced {
        SyncStops(c, was, x, View());
        return Chunk(0, []);
      }
      SyncContinues(c, was, x, View());
      chunk := DeliverReady(x + SyncRun(was.slots, x, c.Ring(), was.startTime));
    }

    /** Reads the ring once: early exit, scan, synchronisation, delivery. */
    method ReadRing() returns (chunk: Chunk)
      requires Valid()
      modifies this, slots, counts, drops
      ensures Valid()
      ensures View() == Poll(c, old(View())).next && chunk == Poll(c, old(View())).chunk
      ensures Books() == CompleteAll(c, old(Books()), chunk.packets)
    {
      hide Wrap, Cell, EmptyRun, SyncAndDeliver, WellFormed, LedgerFits;
      chunk := Chunk(0, []);
      if !mode.Running? || nextTime + c.hold >= now {
        return;
      }
      ghost var was, x := View(), index + EmptyRun(slots[..], index, c.Ring());
      var found, start := FindPacket();
      if !found {
        mode := Waiting;
        SetOutside(c, was, View());
        return;
      }
      CellAt(slots[..], x, start);
      if slots[start].time + c.hold >= now {
        nextTime := slots[start].time;
        SetOutside(c, was, View());
        return;
      }
      // the packet after the gap is due, so the dropped ones are given up
      index := start;
      SetOutside(c, was, View());
      SyncFromAnyIndex(c, was, x, start);
      chunk := SyncThenDeliver(x);
    }

    /** One call of `get_next_chunk`, for what the sub-streams' completions hold. */
    method NextChunk(call: Call) returns (chunk: Chunk)
      requires Valid() && KnownCall(c, call)
      modifies this, slots, pathPackets, counts, drops
      ensures Valid()
      ensures View() == GetNextChunk(c, old(View()), call).next
      ensures chunk == GetNextChunk(c, old(View()), call).chunk
      ensures Books() == CallLedger(c, old(View()), old(Books()), call)
    {
      hide Wrap, Tick, ArriveAll, ArriveAllLedger, Poll, CompleteAll, WellFormed, LedgerFits;
      chunk := Chunk(0, []);
      TakeTime(call.now);
      ProcessArrivals(call.arrivals);
      if call.complete {
        ghost var books := Books();
        chunk := ReadRing();
        received := received + |chunk.packets|;
        ReceivedFits(c, books, Books(), chunk.packets);
      }
    }
  }
}
