/**
 The Inline Packet Ordering receiver as a function on values: one state, one
 arriving packet or one poll at a time.  `IpoReceiver` holds the same code in
 imperative form and is proved equal to these functions; the other `Ipo...`
 modules prove what the functions guarantee over whole runs.

 Sequence numbers are those of section 5.1 of RFC 3550, of 16 bits or extended
 to 32.  Times are ticks of one steady clock.
 */
module IpoModel {
  import opened Modular

  /** `space` is the number of sequence numbers (mask + 1), `elements` the size of the packet buffer. */
  datatype Config = Config(space: nat, elements: nat, hold: nat, restartGap: nat, paths: nat) {
    predicate Valid() {
      8 <= space && space % 4 == 0 && 0 < elements && 0 < paths
    }

    /** The number of ring slots in use: the whole buffer, or as many as there are numbers. */
    function Ring(): (ring: nat)
      requires Valid()
      ensures 0 < ring <= elements && ring <= space && (ring == elements || ring == space)
    {
      var mask := space - 1;
      if mask >= elements then elements else mask + 1
    }

    /** Half the number space: differences from here on read as negative. */
    function Half(): nat {
      space / 2
    }

    /** How far before its first packet a stream places the last processed number. */
    function InitOffset(): nat {
      space / 4
    }
  }

  datatype Slot = Slot(number: nat, valid: bool, time: int, hw: nat)

  datatype Mode = NotStarted | WaitFirstPacket | Running | Waiting

  datatype Packet = Packet(path: nat, number: nat, hw: nat)

  datatype Stream = Stream(
    slots: seq<Slot>,
    mode: Mode,
    index: nat,
    last: nat,
    nextTime: int,
    startTime: int,
    now: int)

  /** What the types of the fields guarantee. */
  predicate WellFormed(c: Config, s: Stream) {
    && c.Valid() && |s.slots| == c.Ring() && s.index < c.Ring() && s.last < c.space
    && forall i :: 0 <= i < |s.slots| ==> s.slots[i].number < c.space
  }

  predicate Known(c: Config, p: Packet) {
    p.number < c.space && p.path < c.paths
  }

  function Initial(c: Config): (s: Stream)
    requires c.Valid()
    ensures WellFormed(c, s)
  {
    Stream(seq(c.Ring(), _ => Slot(0, false, 0, 0)), NotStarted, 0, 0, 0, 0, 0)
  }

  /** `start`: the first `hold` ticks from now are spent on initial synchronisation. */
  function Start(c: Config, s: Stream, now: int): Stream {
    s.(mode := WaitFirstPacket, startTime := now + c.hold)
  }

  /** The beginning of every poll: take the time and start on demand. */
  function Tick(c: Config, s: Stream, now: int): Stream {
    if s.mode.NotStarted?
    then s.(now := now, mode := WaitFirstPacket, startTime := now + c.hold)
    else s.(now := now)
  }

  // ---- arrival of one packet -------------------------------------------------

  /** The stream has been silent long enough for the next packet to be a new sender's. */
  predicate Restarts(c: Config, s: Stream) {
    s.mode.Waiting? && s.now - s.nextTime > c.restartGap
  }

  /** The arriving packet becomes the position the ring is read from. */
  predicate Anchors(c: Config, s: Stream) {
    s.mode.WaitFirstPacket? || Restarts(c, s)
  }

  /** The mode switch made before a packet is classified. */
  function Wake(c: Config, s: Stream, p: Packet): (r: Stream)
    requires WellFormed(c, s) && Known(c, p)
    ensures WellFormed(c, r) && r.slots == s.slots && r.now == s.now
  {
    if Anchors(c, s) then
      s.(mode := Running,
         index := Wrap(p.number, c.Ring()),
         last := Wrap(p.number - c.InitOffset(), c.space),
         nextTime := s.now,
         startTime := if s.mode.Waiting? then s.now + c.hold else s.startTime)
    else if s.mode.Waiting? then
      s.(mode := Running, nextTime := s.now)
    else s
  }

  datatype Verdict = Late | Fresh | Redundant

  /** How far ahead of the last processed number a number is, around the number space. */
  function Ahead(c: Config, last: nat, number: nat): (d: nat)
    requires c.Valid()
    ensures d < c.space
  {
    Wrap(number - last, c.space)
  }

  /** Late, first copy or later copy, for a stream already woken. */
  function Classify(c: Config, s: Stream, p: Packet): Verdict
    requires WellFormed(c, s) && Known(c, p)
  {
    var d := Ahead(c, s.last, p.number);
    var slot := s.slots[Wrap(p.number, c.Ring())];
    if d == 0 || d >= c.Half() then Late
    else if !slot.valid || slot.number != p.number then Fresh
    else Redundant
  }

  /** The slot contents an accepted packet leaves. */
  function Stored(s: Stream, p: Packet): Slot {
    Slot(p.number, true, s.now, p.hw)
  }

  function Arrive(c: Config, s: Stream, p: Packet): (r: Stream)
    requires WellFormed(c, s) && Known(c, p)
    ensures WellFormed(c, r)
  {
    var w := Wake(c, s, p);
    if Classify(c, w, p).Fresh?
    then w.(slots := w.slots[Wrap(p.number, c.Ring()) := Stored(w, p)])
    else w
  }

  // ---- one poll --------------------------------------------------------------

  /** The slot that ring position `x` falls on. */
  function Cell(slots: seq<Slot>, x: int): Slot
    requires |slots| > 0
  {
    slots[Wrap(x, |slots|)]
  }

  /** How many of the `n` positions from `x` on are empty before the first valid one. */
  function EmptyRun(slots: seq<Slot>, x: int, n: nat): (k: nat)
    requires |slots| > 0
    ensures k <= n
    ensures forall y :: x <= y < x + k ==> !Cell(slots, y).valid
    ensures k < n ==> Cell(slots, x + k).valid
    decreases n
  {
    if n == 0 || Cell(slots, x).valid then 0 else 1 + EmptyRun(slots, x + 1, n - 1)
  }

  /** How many of the `n` positions from `x` on hold packets from before `startTime`. */
  function SyncRun(slots: seq<Slot>, x: int, n: nat, startTime: int): (k: nat)
    requires |slots| > 0
    ensures k <= n
    ensures forall y :: x <= y < x + k ==> Cell(slots, y).valid && Cell(slots, y).time < startTime
    ensures k < n ==> !(Cell(slots, x + k).valid && Cell(slots, x + k).time < startTime)
    decreases n
  {
    if n == 0 || !Cell(slots, x).valid || Cell(slots, x).time >= startTime then 0
    else 1 + SyncRun(slots, x + 1, n - 1, startTime)
  }

  /** How many of the `n` positions from `x` on hold packets that have been held for more than `hold`. */
  function ReadyRun(slots: seq<Slot>, x: int, n: nat, hold: nat, now: int): (k: nat)
    requires |slots| > 0
    ensures k <= n
    ensures forall y :: x <= y < x + k ==> Cell(slots, y).valid && Cell(slots, y).time + hold < now
    ensures k < n ==> !(Cell(slots, x + k).valid && Cell(slots, x + k).time + hold < now)
    decreases n
  {
    if n == 0 || !Cell(slots, x).valid || Cell(slots, x).time + hold >= now then 0
    else 1 + ReadyRun(slots, x + 1, n - 1, hold, now)
  }

  /** The contents of the `k` positions from `x` on. */
  function Cells(slots: seq<Slot>, x: int, k: nat): (r: seq<Slot>)
    requires |slots| > 0
    ensures |r| == k
    ensures forall j :: 0 <= j < k ==> r[j] == Cell(slots, x + j)
  {
    seq(k, j => Cell(slots, x + j))
  }

  /** Takes the packet at position `x` out of the ring. */
  function ClearOne(slots: seq<Slot>, x: int): (r: seq<Slot>)
    requires |slots| > 0
    ensures |r| == |slots|
  {
    slots[Wrap(x, |slots|) := Cell(slots, x).(valid := false)]
  }

  /** Takes the packets at the `k` positions from `x` on out of the ring. */
  function Clear(slots: seq<Slot>, x: int, k: nat): (r: seq<Slot>)
    requires |slots| > 0
    ensures |r| == |slots|
    ensures forall i :: 0 <= i < |r| ==> r[i] == slots[i] || r[i] == slots[i].(valid := false)
    decreases k
  {
    if k == 0 then slots else Clear(ClearOne(slots, x), x + 1, k - 1)
  }

  /** One unwrapped range of the ring, `[start, start + |packets|)`, handed to the caller. */
  datatype Chunk = Chunk(start: nat, packets: seq<Slot>)

  datatype Outcome = Outcome(next: Stream, skipped: seq<Slot>, chunk: Chunk)

  function Idle(s: Stream): Outcome {
    Outcome(s, [], Chunk(0, []))
  }

  /**
   Delivery from ring position `x` on: the longest run of packets held for more
   than `hold`, cut where the ring wraps so that one range describes it.
   */
  function Deliver(c: Config, s: Stream, x: nat): (r: Outcome)
    requires WellFormed(c, s)
    ensures WellFormed(c, r.next)
  {
    var ring := c.Ring();
    var n := ReadyRun(s.slots, x, ring - Wrap(x, ring), c.hold, s.now);
    Outcome(
      s.(slots := Clear(s.slots, x, n),
         index := Wrap(x + n, ring),
         last := if n == 0 then s.last else Cell(s.slots, x + n - 1).number),
      [],
      Chunk(Wrap(x, ring), Cells(s.slots, x, n)))
  }

  /** Initial synchronisation from ring position `x` on, then delivery. */
  function SyncAndDeliver(c: Config, s: Stream, x: nat): (r: Outcome)
    requires WellFormed(c, s)
    ensures WellFormed(c, r.next)
  {
    var ring := c.Ring();
    var k := SyncRun(s.slots, x, ring, s.startTime);
    var synced := s.(
      slots := Clear(s.slots, x, k),
      index := Wrap(x + k, ring),
      nextTime := if k == 0 then s.nextTime else Cell(s.slots, x + k - 1).time);
    if !Cell(synced.slots, x + k).valid
    then Outcome(synced, Cells(s.slots, x, k), Chunk(0, []))
    else Deliver(c, synced, x + k).(skipped := Cells(s.slots, x, k))
  }

  /** The scan over dropped packets and what follows it. */
  function FullScan(c: Config, s: Stream): (r: Outcome)
    requires WellFormed(c, s)
    ensures WellFormed(c, r.next)
  {
    var k := EmptyRun(s.slots, s.index, c.Ring());
    var x := s.index + k;
    if k == c.Ring() then Idle(s.(mode := Waiting))
    else if Cell(s.slots, x).time + c.hold >= s.now
    then Idle(s.(nextTime := Cell(s.slots, x).time))
    else SyncAndDeliver(c, s, x)
  }

  /** The early exit on the cached time of the next packet. */
  predicate TooEarly(c: Config, s: Stream) {
    s.nextTime + c.hold >= s.now
  }

  function Poll(c: Config, s: Stream): (r: Outcome)
    requires WellFormed(c, s)
    ensures WellFormed(c, r.next)
  {
    if !s.mode.Running? || TooEarly(c, s) then Idle(s) else FullScan(c, s)
  }

  // ---- one call of get_next_chunk ---------------------------------------------

  /** What a sub-stream's completion holds for one stride: a packet whose header parses, or not. */
  datatype Arrival = Corrupt(badPath: nat) | Good(packet: Packet)

  /** `complete` is false when some sub-stream failed, which ends the call before the ring is read. */
  datatype Call = Call(now: int, arrivals: seq<Arrival>, complete: bool)

  predicate KnownArrival(c: Config, a: Arrival) {
    match a
    case Corrupt(path) => path < c.paths
    case Good(p) => Known(c, p)
  }

  predicate KnownCall(c: Config, call: Call) {
    forall a :: a in call.arrivals ==> KnownArrival(c, a)
  }

  function ArriveOne(c: Config, s: Stream, a: Arrival): (r: Stream)
    requires WellFormed(c, s) && KnownArrival(c, a)
    ensures WellFormed(c, r)
  {
    if a.Good? then Arrive(c, s, a.packet) else s
  }

  function ArriveAll(c: Config, s: Stream, arrivals: seq<Arrival>): (r: Stream)
    requires WellFormed(c, s) && forall a :: a in arrivals ==> KnownArrival(c, a)
    ensures WellFormed(c, r)
    decreases |arrivals|
  {
    if arrivals == [] then s
    else ArriveOne(c, ArriveAll(c, s, arrivals[..|arrivals| - 1]), arrivals[|arrivals| - 1])
  }

  function GetNextChunk(c: Config, s: Stream, call: Call): (r: Outcome)
    requires WellFormed(c, s) && KnownCall(c, call)
    ensures WellFormed(c, r.next)
  {
    var a := ArriveAll(c, Tick(c, s, call.now), call.arrivals);
    if call.complete then Poll(c, a) else Idle(a)
  }

  function Run(c: Config, s: Stream, calls: seq<Call>): (r: Stream)
    requires WellFormed(c, s) && forall call :: call in calls ==> KnownCall(c, call)
    ensures WellFormed(c, r)
    decreases |calls|
  {
    if calls == [] then s
    else GetNextChunk(c, Run(c, s, calls[..|calls| - 1]), calls[|calls| - 1]).next
  }
}
