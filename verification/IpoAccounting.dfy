/**
 The statistics of the Inline Packet Ordering receiver: which paths each
 delivered packet is credited to, and how many packets were lost.
 */
module IpoAccounting {
  import opened Modular
  import opened IpoBreaks
  import opened IpoModel
  import opened IpoOrdering
  import opened IpoRings
  import opened IpoRuns
  import opened IpoSessions

  /** The application's counters; `flags[i][p]` says path `p` brought the packet of slot `i`. */
  datatype Ledger = Ledger(
    flags: seq<seq<bool>>,
    counts: seq<nat>,
    drops: seq<nat>,
    received: nat,
    lost: nat,
    late: nat,
    corrupt: nat,
    initialized: bool,
    lastNumber: nat)

  predicate LedgerFits(c: Config, l: Ledger) {
    && c.Valid() && |l.flags| == c.elements && |l.counts| == |l.drops| == c.paths
    && (forall i :: 0 <= i < |l.flags| ==> |l.flags[i]| == c.paths)
  }

  function NewLedger(c: Config): (l: Ledger)
    requires c.Valid()
    ensures LedgerFits(c, l)
  {
    Ledger(seq(c.elements, _ => seq(c.paths, _ => false)), seq(c.paths, _ => 0), seq(c.paths, _ => 0),
           0, 0, 0, 0, false, 0)
  }

  function OnFresh(c: Config, l: Ledger, p: Packet): (r: Ledger)
    requires LedgerFits(c, l) && Known(c, p)
    ensures LedgerFits(c, r)
  {
    l.(flags := l.flags[Wrap(p.number, c.Ring()) := seq(c.paths, i => i == p.path)])
  }

  function OnRedundant(c: Config, l: Ledger, p: Packet): (r: Ledger)
    requires LedgerFits(c, l) && Known(c, p)
    ensures LedgerFits(c, r)
  {
    var i := Wrap(p.number, c.Ring());
    l.(flags := l.flags[i := l.flags[i][p.path := true]])
  }

  function ArriveLedger(c: Config, s: Stream, l: Ledger, p: Packet): (r: Ledger)
    requires WellFormed(c, s) && LedgerFits(c, l) && Known(c, p)
    ensures LedgerFits(c, r)
  {
    var k := if Restarts(c, s) then l.(initialized := false) else l;
    match Classify(c, Wake(c, s, p), p)
    case Late => k.(late := k.late + 1)
    case Fresh => OnFresh(c, k, p)
    case Redundant => OnRedundant(c, k, p)
  }

  /** One delivered packet: each path gets a packet or a drop, and the gap before it is lost. */
  function Complete(c: Config, l: Ledger, number: nat): (r: Ledger)
    requires LedgerFits(c, l)
    ensures LedgerFits(c, r) && r.flags == l.flags
  {
    var from := l.flags[Wrap(number, c.Ring())];
    l.(counts := seq(c.paths, i requires 0 <= i < c.paths => l.counts[i] + (if from[i] then 1 else 0)),
       drops := seq(c.paths, i requires 0 <= i < c.paths => l.drops[i] + (if from[i] then 0 else 1)),
       lost := l.lost + (if l.initialized then Wrap(number - (l.lastNumber + 1), c.space) else 0),
       initialized := true,
       lastNumber := number)
  }

  function CompleteAll(c: Config, l: Ledger, packets: seq<Slot>): (r: Ledger)
    requires LedgerFits(c, l)
    ensures LedgerFits(c, r) && r.flags == l.flags
    decreases |packets|
  {
    if packets == [] then l
    else Complete(c, CompleteAll(c, l, packets[..|packets| - 1]), packets[|packets| - 1].number)
  }

  function DeliverLedger(c: Config, l: Ledger, packets: seq<Slot>): (r: Ledger)
    requires LedgerFits(c, l)
    ensures LedgerFits(c, r) && r.flags == l.flags
  {
    var k := CompleteAll(c, l, packets);
    k.(received := k.received + |packets|)
  }

  function ArriveOneLedger(c: Config, s: Stream, l: Ledger, a: Arrival): (r: Ledger)
    requires WellFormed(c, s) && LedgerFits(c, l) && KnownArrival(c, a)
    ensures LedgerFits(c, r)
  {
    match a
    case Corrupt(_) => l.(corrupt := l.corrupt + 1)
    case Good(p) => ArriveLedger(c, s, l, p)
  }

  function ArriveAllLedger(c: Config, s: Stream, l: Ledger, arrivals: seq<Arrival>): (r: Ledger)
    requires WellFormed(c, s) && LedgerFits(c, l) && forall a :: a in arrivals ==> KnownArrival(c, a)
    ensures LedgerFits(c, r)
    decreases |arrivals|
  {
    if arrivals == [] then l
    else
      var init := arrivals[..|arrivals| - 1];
      ArriveOneLedger(c, ArriveAll(c, s, init), ArriveAllLedger(c, s, l, init), arrivals[|arrivals| - 1])
  }

  function CallLedger(c: Config, s: Stream, l: Ledger, call: Call): (r: Ledger)
    requires WellFormed(c, s) && LedgerFits(c, l) && KnownCall(c, call)
    ensures LedgerFits(c, r)
  {
    var t := Tick(c, s, call.now);
    var k := ArriveAllLedger(c, t, l, call.arrivals);
    if call.complete then DeliverLedger(c, k, GetNextChunk(c, s, call).chunk.packets) else k
  }

  function RunLedger(c: Config, s: Stream, l: Ledger, calls: seq<Call>): (r: Ledger)
    requires WellFormed(c, s) && LedgerFits(c, l) && forall call :: call in calls ==> KnownCall(c, call)
    ensures LedgerFits(c, r)
    decreases |calls|
  {
    if calls == [] then l
    else
      var init := calls[..|calls| - 1];
      CallLedger(c, Run(c, s, init), RunLedger(c, s, l, init), calls[|calls| - 1])
  }

  // ---- lost packets -----------------------------------------------------------------

  /** The packets missing between neighbouring deliveries of one session. */
  function Lost(log: seq<Delivery>): int {
    if |log| < 2 then 0
    else
      var a, b := log[|log| - 2], log[|log| - 1];
      Lost(log[..|log| - 1]) + (if a.segment == b.segment then b.num - a.num - 1 else 0)
  }

  /** Within one session, lost and delivered packets together make up the whole span of numbers. */
  lemma {:induction false} LostAndDeliveredSpan(log: seq<Delivery>)
    requires log != [] && forall d :: d in log ==> d.segment == log[0].segment
    ensures Lost(log) + |log| == log[|log| - 1].num - log[0].num + 1
  {
    if |log| > 1 {
      var init := log[..|log| - 1];
      assert forall d :: d in init ==> d in log;
      assert log[|log| - 1] in log && log[|log| - 2] in log;
      LostAndDeliveredSpan(init);
    }
  }

  /** Sessions follow one another, and what is lost in each adds up. */
  lemma {:induction false} LostPerSession(before: seq<Delivery>, session: seq<Delivery>)
    requires session != [] && (before == [] || before[|before| - 1].segment != session[0].segment)
    ensures Lost(before + session) == Lost(before) + Lost(session)
  {
    var log := before + session;
    if |session| == 1 {
      assert log[..|log| - 1] == before;
    } else {
      assert log[..|log| - 1] == before + session[..|session| - 1];
      LostPerSession(before, session[..|session| - 1]);
    }
  }

  ghost predicate LossMatches(c: Config, l: Ledger, h: History)
    requires c.Valid()
  {
    && l.lost == Lost(h.log)
    && (l.initialized <==> h.log != [] && h.log[|h.log| - 1].segment == h.segment)
    && (l.initialized ==> l.lastNumber == Wrap(h.log[|h.log| - 1].num, c.space))
  }

  lemma CompleteLoss(c: Config, l: Ledger, h: History, d: Delivery)
    requires LedgerFits(c, l) && LossMatches(c, l, h)
    requires d.segment == h.segment && d.packet.number == Wrap(d.num, c.space)
    requires Ordered(c, h.log + [d])
    ensures LossMatches(c, Complete(c, l, d.packet.number), h.(log := h.log + [d]))
  {
    hide Wrap, Ordered;
    var log := h.log + [d];
    assert log[..|log| - 1] == h.log;
    if l.initialized {
      var a := h.log[|h.log| - 1];
      LastInOrder(c, h.log, d);
      GapOfNumbers(d.num, a.num, c.space);
    }
  }

  lemma LastInOrder(c: Config, log: seq<Delivery>, d: Delivery)
    requires Ordered(c, log + [d]) && log != []
    ensures Follows(log[|log| - 1], d) && Near(c, log[|log| - 1], d)
  {
    hide Follows, Near;
    var all, n := log + [d], |log|;
    assert all[n] == d && all[n - 1] == log[n - 1];
    assert Follows(all[n - 1], all[n]) && Near(c, all[n - 1], all[n]);
  }

  /** The masked subtraction finds the gap between two numbers less than a space apart. */
  lemma GapOfNumbers(b: int, a: int, space: nat)
    requires a < b <= a + space && 0 < space
    ensures Wrap(Wrap(b, space) - (Wrap(a, space) + 1), space) == b - a - 1
  {
    hide Wrap;
    WrapSub(Wrap(b, space) - 1, a, space);
    WrapAdd(b, -1 - a, space);
    WrapSmall(b - a - 1, space);
  }

  lemma {:induction false} CompleteAllLoss(c: Config, l: Ledger, h: History, first: int, packets: seq<Slot>, at: int)
    requires LedgerFits(c, l) && LossMatches(c, l, h)
    requires var more := Deliveries(h.segment, first, packets, at);
      Ordered(c, h.log + more) && forall d :: d in more ==> Genuine(c, d)
    ensures LossMatches(c, CompleteAll(c, l, packets), h.(log := h.log + Deliveries(h.segment, first, packets, at)))
    decreases |packets|
  {
    hide Wrap, Complete, Lost;
    var more := Deliveries(h.segment, first, packets, at);
    if packets == [] {
      assert h.log + more == h.log;
    } else {
      var init := packets[..|packets| - 1];
      var less := Deliveries(h.segment, first, init, at);
      var d := more[|more| - 1];
      assert more == less + [d];
      assert h.log + more == (h.log + less) + [d];
      assert d in more && forall e :: e in less ==> e in more;
      OrderedPrefix(c, h.log + less, [d]);
      CompleteAllLoss(c, l, h, first, init, at);
      CompleteLoss(c, CompleteAll(c, l, init), h.(log := h.log + less), d);
    }
  }

  lemma OrderedPrefix(c: Config, a: seq<Delivery>, b: seq<Delivery>)
    requires Ordered(c, a + b)
    ensures Ordered(c, a)
  {
    forall i, j | 0 <= i < j < |a|
      ensures Follows(a[i], a[j])
    {
      assert Follows((a + b)[i], (a + b)[j]);
    }
    forall j | 0 < j < |a|
      ensures Near(c, a[j - 1], a[j])
    {
      assert Near(c, (a + b)[j - 1], (a + b)[j]);
    }
  }

  // ---- credits ------------------------------------------------------------------------

  /** A copy of packet `num` of a session came over `path` and was not late. */
  datatype Heard = Heard(segment: nat, num: int, path: nat)

  /** `credits[j]` are the path flags of delivery `j` when it was made. */
  datatype Tally = Tally(heard: set<Heard>, credits: seq<seq<bool>>)

  const NO_TALLY := Tally({}, [])

  function ArriveTally(c: Config, s: Stream, h: History, t: Tally, p: Packet): Tally
    requires WellFormed(c, s) && Known(c, p)
  {
    var w, g := Wake(c, s, p), WakeHistory(c, s, h, p);
    if Classify(c, w, p).Late? then t
    else t.(heard := t.heard + {Heard(g.segment, NumberOf(c, w, g, p), p.path)})
  }

  /** The flags of the slots of some packets. */
  function Credits(c: Config, l: Ledger, packets: seq<Slot>): (r: seq<seq<bool>>)
    requires LedgerFits(c, l)
    ensures |r| == |packets|
    ensures forall j :: 0 <= j < |r| ==> r[j] == l.flags[Wrap(packets[j].number, c.Ring())]
  {
    seq(|packets|, j requires 0 <= j < |packets| => l.flags[Wrap(packets[j].number, c.Ring())])
  }

  function DeliverTally(c: Config, l: Ledger, t: Tally, packets: seq<Slot>): Tally
    requires LedgerFits(c, l)
  {
    t.(credits := t.credits + Credits(c, l, packets))
  }

  /** How many of the credits name a path. */
  function Credited(credits: seq<seq<bool>>, path: nat): nat {
    if credits == [] then 0
    else
      var last := credits[|credits| - 1];
      Credited(credits[..|credits| - 1], path) + (if path < |last| && last[path] then 1 else 0)
  }

  /** The per-path counters add up the credits, and every delivery is a packet or a drop on every path. */
  ghost predicate CountsMatch(c: Config, l: Ledger, credits: seq<seq<bool>>)
    requires LedgerFits(c, l)
  {
    forall path :: 0 <= path < c.paths ==>
      l.counts[path] == Credited(credits, path) && l.counts[path] + l.drops[path] == |credits|
  }

  lemma {:induction false} CompleteAllCounts(c: Config, l: Ledger, credits: seq<seq<bool>>, packets: seq<Slot>)
    requires LedgerFits(c, l) && CountsMatch(c, l, credits)
    ensures CountsMatch(c, CompleteAll(c, l, packets), credits + Credits(c, l, packets))
    decreases |packets|
  {
    hide Wrap, Credited, Complete;
    if packets == [] {
      assert credits + Credits(c, l, packets) == credits;
    } else {
      var init, p := packets[..|packets| - 1], packets[|packets| - 1];
      CompleteAllCounts(c, l, credits, init);
      var k := CompleteAll(c, l, init);
      assert credits + Credits(c, l, packets) == credits + Credits(c, l, init) + [k.flags[Wrap(p.number, c.Ring())]];
      CompleteCounts(c, k, credits + Credits(c, l, init), p.number);
    }
  }

  /** One delivery more adds its flags to the credits. */
  lemma CompleteCounts(c: Config, l: Ledger, credits: seq<seq<bool>>, number: nat)
    requires LedgerFits(c, l) && CountsMatch(c, l, credits)
    ensures CountsMatch(c, Complete(c, l, number), credits + [l.flags[Wrap(number, c.Ring())]])
  {
    hide Wrap;
    var all := credits + [l.flags[Wrap(number, c.Ring())]];
    assert all[..|all| - 1] == credits;
  }

  /** The flags of the ring position of number `y`. */
  function FlagsAt(c: Config, l: Ledger, y: int): (r: seq<bool>)
    requires LedgerFits(c, l)
    ensures |r| == c.paths
  {
    l.flags[Wrap(y, c.Ring())]
  }

  /** Flags say exactly which paths brought a copy of a packet. */
  ghost predicate FlagsTell(c: Config, flags: seq<bool>, segment: nat, num: int, heard: set<Heard>) {
    && |flags| == c.paths
    && (forall path :: 0 <= path < c.paths ==> (flags[path] <==> Heard(segment, num, path) in heard))
    && (exists path :: 0 <= path < c.paths && flags[path])
  }

  /** What was heard at or ahead of the ring index is in the ring. */
  ghost predicate HeardIsHeld(c: Config, s: Stream, h: History, heard: set<Heard>)
    requires WellFormed(c, s)
  {
    forall e :: e in heard ==>
      e.segment <= h.segment &&
      (e.segment == h.segment && h.base <= e.num ==> e.num < h.base + c.Ring() && Cell(s.slots, e.num).valid)
  }

  ghost predicate WindowTold(c: Config, s: Stream, h: History, l: Ledger, heard: set<Heard>)
    requires WellFormed(c, s) && LedgerFits(c, l)
  {
    forall y :: h.base <= y < h.base + c.Ring() && Cell(s.slots, y).valid ==>
      FlagsTell(c, FlagsAt(c, l, y), h.segment, y, heard)
  }

  ghost predicate CreditsTold(c: Config, log: seq<Delivery>, t: Tally) {
    && |t.credits| == |log|
    && (forall j :: 0 <= j < |log| ==> FlagsTell(c, t.credits[j], log[j].segment, log[j].num, t.heard))
  }

  ghost predicate Accounted(c: Config, s: Stream, h: History, l: Ledger, t: Tally) {
    && Inv(c, s, h) && LedgerFits(c, l)
    && CountsMatch(c, l, t.credits)
    && LossMatches(c, l, h)
    && CreditsTold(c, h.log, t)
    && (Started(s) ==> HeardIsHeld(c, s, h, t.heard) && WindowTold(c, s, h, l, t.heard))
    && (!Started(s) ==> t.heard == {})
  }

  lemma InitialAccounted(c: Config, first: Stream)
    requires c.Valid() && Consecutive(c) && PoweredOn(c, first)
    ensures Accounted(c, first, NO_HISTORY, NewLedger(c), NO_TALLY)
  {
    InitialInv(c, first);
  }

  // ---- arrivals keep the account ---------------------------------------------------------

  /** The counters after the mode switch: a new sender's first delivery has no predecessor. */
  function WakeLedger(c: Config, s: Stream, l: Ledger): Ledger {
    if Restarts(c, s) then l.(initialized := false) else l
  }

  lemma WakeAccounted(c: Config, s: Stream, h: History, l: Ledger, t: Tally, p: Packet)
    requires Accounted(c, s, h, l, t) && !s.mode.NotStarted? && Known(c, p)
    ensures Accounted(c, Wake(c, s, p), WakeHistory(c, s, h, p), WakeLedger(c, s, l), t)
  {
    hide Wrap, Lost, FlagsTell, Credited, Conserved, Ordered, Genuine, WindowInPlace;
    var w, g := Wake(c, s, p), WakeHistory(c, s, h, p);
    WakeKeepsInv(c, s, h, p);
    if Anchors(c, s) {
      NothingHeld(c, w.slots, g.base);
      assert h.log != [] ==> h.log[|h.log| - 1] in h.log;
    }
  }

  lemma NothingHeld(c: Config, slots: seq<Slot>, x: int)
    requires |slots| > 0 && Empty(slots)
    ensures forall y :: !Cell(slots, y).valid
  {
  }

  /** A copy that is not late is of the packet of its unwrapped number, within the window. */
  lemma RedundantIsInPlace(c: Config, s: Stream, h: History, p: Packet)
    requires Aligned(c, s, h) && s.mode.Running? && Known(c, p)
    requires Classify(c, s, p).Redundant?
    ensures var y := NumberOf(c, s, h, p);
      h.base <= y < h.base + c.Ring() && Wrap(y, c.Ring()) == Wrap(p.number, c.Ring()) && Cell(s.slots, y).valid
  {
    hide Wrap;
    var ring := c.Ring();
    var y := NumberOf(c, s, h, p);
    NumberOfSlot(c, s, h, p);
    // the window position that shares the packet's slot is the packet's own
    var z := h.base + Wrap(y - h.base, ring);
    WrapAdd(y - h.base, h.base, ring);
    assert InPlace(c, Cell(s.slots, z), z + 0, h.lastNum);
    WrapInjective(z, y, c.space);
  }

  /** Hearing of one packet says nothing about the flags of another. */
  lemma HearingOther(c: Config, flags: seq<bool>, segment: nat, num: int, heard: set<Heard>, e: Heard)
    requires FlagsTell(c, flags, segment, num, heard) && (e.segment != segment || e.num != num)
    ensures FlagsTell(c, flags, segment, num, heard + {e})
  {
  }

  /** Credits are settled: what is heard later concerns later numbers. */
  lemma CreditsSettled(c: Config, h: History, t: Tally, e: Heard)
    requires CreditsTold(c, h.log, t) && LogReaches(h)
    requires e.segment == h.segment && h.lastNum < e.num
    ensures CreditsTold(c, h.log, t.(heard := t.heard + {e}))
  {
    hide FlagsTell;
    forall j | 0 <= j < |h.log|
      ensures FlagsTell(c, t.credits[j], h.log[j].segment, h.log[j].num, t.heard + {e})
    {
      assert h.log[j] in h.log;
      HearingOther(c, t.credits[j], h.log[j].segment, h.log[j].num, t.heard, e);
    }
  }

  lemma FreshWindow(c: Config, w: Stream, g: History, l: Ledger, heard: set<Heard>, p: Packet, y: int)
    requires WellFormed(c, w) && LedgerFits(c, l) && Known(c, p)
    requires WindowTold(c, w, g, l, heard) && HeardIsHeld(c, w, g, heard)
    requires g.base <= y < g.base + c.Ring() && Wrap(y, c.Ring()) == Wrap(p.number, c.Ring())
    requires !Cell(w.slots, y).valid
    ensures var r := w.(slots := w.slots[Wrap(p.number, c.Ring()) := Stored(w, p)]);
      var more := heard + {Heard(g.segment, y, p.path)};
      WindowTold(c, r, g, OnFresh(c, l, p), more) && HeardIsHeld(c, r, g, more)
  {
    hide Wrap;
    var i := Wrap(p.number, c.Ring());
    var r := w.(slots := w.slots[i := Stored(w, p)]);
    var k := OnFresh(c, l, p);
    var e := Heard(g.segment, y, p.path);
    forall z | g.base <= z < g.base + c.Ring() && Cell(r.slots, z).valid
      ensures FlagsTell(c, FlagsAt(c, k, z), g.segment, z, heard + {e})
    {
      if z == y {
        assert FlagsAt(c, k, y)[p.path];
      } else {
        if Wrap(z, c.Ring()) == i {
          WrapInjective(z, y, c.Ring());
        }
        HearingOther(c, FlagsAt(c, l, z), g.segment, z, heard, e);
      }
    }
  }

  lemma FreshAccounted(c: Config, w: Stream, g: History, l: Ledger, t: Tally, p: Packet)
    requires Accounted(c, w, g, l, t) && w.mode.Running? && Known(c, p)
    requires Classify(c, w, p).Fresh? && Fits(c, w, g, p)
    ensures var y := NumberOf(c, w, g, p);
      Accounted(c, Arrive(c, w, p), ArriveHistory(c, w, g, p), OnFresh(c, l, p),
                t.(heard := t.heard + {Heard(g.segment, y, p.path)}))
  {
    hide Wrap, Cell, Lost, Credited, Conserved, Ordered;
    hide Genuine, WindowInPlace, LogReaches, FlagsTell, WindowTold, HeardIsHeld;
    hide CreditsTold;
    var y := NumberOf(c, w, g, p);
    ArriveKeepsInv(c, w, g, p);
    NumberOfSlot(c, w, g, p);
    FreshFindsEmptySlot(c, w, g, p);
    CellAt(w.slots, y, Wrap(p.number, c.Ring()));
    FreshWindow(c, w, g, l, t.heard, p, y);
    CreditsSettled(c, g, t, Heard(g.segment, y, p.path));
    SameWindow(c, Arrive(c, w, p), g, ArriveHistory(c, w, g, p), OnFresh(c, l, p),
               t.heard + {Heard(g.segment, y, p.path)});
  }

  lemma CellAt(slots: seq<Slot>, y: int, i: nat)
    requires 0 < |slots| && Wrap(y, |slots|) == i
    ensures Cell(slots, y) == slots[i]
  {
  }

  /** The window depends on the history's base and session only. */
  lemma SameWindow(c: Config, s: Stream, g: History, h: History, l: Ledger, heard: set<Heard>)
    requires WellFormed(c, s) && LedgerFits(c, l) && g.base == h.base && g.segment == h.segment
    ensures WindowTold(c, s, g, l, heard) <==> WindowTold(c, s, h, l, heard)
    ensures HeardIsHeld(c, s, g, heard) <==> HeardIsHeld(c, s, h, heard)
  {
    hide Wrap, FlagsTell;
  }

  lemma RedundantWindow(c: Config, w: Stream, g: History, l: Ledger, heard: set<Heard>, p: Packet, y: int)
    requires WellFormed(c, w) && LedgerFits(c, l) && Known(c, p)
    requires WindowTold(c, w, g, l, heard) && HeardIsHeld(c, w, g, heard)
    requires g.base <= y < g.base + c.Ring() && Wrap(y, c.Ring()) == Wrap(p.number, c.Ring())
    requires Cell(w.slots, y).valid
    ensures var more := heard + {Heard(g.segment, y, p.path)};
      WindowTold(c, w, g, OnRedundant(c, l, p), more) && HeardIsHeld(c, w, g, more)
  {
    hide Wrap;
    var k := OnRedundant(c, l, p);
    var e := Heard(g.segment, y, p.path);
    forall z | g.base <= z < g.base + c.Ring() && Cell(w.slots, z).valid
      ensures FlagsTell(c, FlagsAt(c, k, z), g.segment, z, heard + {e})
    {
      assert FlagsTell(c, FlagsAt(c, l, z), g.segment, z, heard);
      if z == y {
        assert FlagsAt(c, k, y)[p.path];
      } else {
        if Wrap(z, c.Ring()) == Wrap(y, c.Ring()) {
          WrapInjective(z, y, c.Ring());
        }
        HearingOther(c, FlagsAt(c, l, z), g.segment, z, heard, e);
      }
    }
  }

  lemma RedundantAccounted(c: Config, w: Stream, g: History, l: Ledger, t: Tally, p: Packet)
    requires Accounted(c, w, g, l, t) && w.mode.Running? && Known(c, p)
    requires Classify(c, w, p).Redundant?
    ensures var y := NumberOf(c, w, g, p);
      Accounted(c, w, g, OnRedundant(c, l, p), t.(heard := t.heard + {Heard(g.segment, y, p.path)}))
  {
    hide Wrap, Cell, Lost, Credited, Conserved, Ordered;
    hide Genuine, WindowInPlace, LogReaches, FlagsTell, WindowTold, HeardIsHeld;
    hide CreditsTold;
    var y := NumberOf(c, w, g, p);
    RedundantIsInPlace(c, w, g, p);
    RedundantWindow(c, w, g, l, t.heard, p, y);
    CreditsSettled(c, g, t, Heard(g.segment, y, p.path));
  }

  /** Every arrival keeps the account, whenever its packet, if new, fits. */
  lemma ArriveKeepsAccount(c: Config, s: Stream, h: History, l: Ledger, t: Tally, a: Arrival)
    requires Accounted(c, s, h, l, t) && !s.mode.NotStarted? && KnownArrival(c, a)
    requires ArrivalFits(c, s, h, a)
    ensures Accounted(c, ArriveOne(c, s, a), ArriveOneHistory(c, s, h, a), ArriveOneLedger(c, s, l, a),
                      if a.Good? then ArriveTally(c, s, h, t, a.packet) else t)
    ensures !ArriveOne(c, s, a).mode.NotStarted?
  {
    hide Wrap, Cell, Lost, Credited, CreditsTold, Conserved, Ordered, Genuine, LogReaches, WindowInPlace, FlagsTell;
    if a.Good? {
      var p := a.packet;
      var w, g, k := Wake(c, s, p), WakeHistory(c, s, h, p), WakeLedger(c, s, l);
      WakeAccounted(c, s, h, l, t, p);
      WakeKeepsInv(c, s, h, p);
      if Classify(c, w, p).Late? {
        SameFlags(c, w, g, k, k.(late := k.late + 1), t);
      } else if Classify(c, w, p).Fresh? {
        FreshAccounted(c, w, g, k, t, p);
      } else {
        RedundantAccounted(c, w, g, k, t, p);
      }
    } else {
      SameFlags(c, s, h, l, l.(corrupt := l.corrupt + 1), t);
    }
  }

  /** The counters of late and corrupt packets are kept apart from the account of deliveries. */
  lemma SameFlags(c: Config, s: Stream, h: History, l: Ledger, k: Ledger, t: Tally)
    requires Accounted(c, s, h, l, t) && k == l.(late := k.late, corrupt := k.corrupt)
    ensures Accounted(c, s, h, k, t)
  {
    hide Wrap, Cell, Inv, Lost, Credited, CreditsTold, FlagsTell;
    assert LedgerFits(c, k);
    if Started(s) {
      assert WellFormed(c, s) by {
        InvWellFormed(c, s, h);
      }
      assert forall y :: FlagsAt(c, k, y) == FlagsAt(c, l, y);
    }
  }

  // ---- polls keep the account -----------------------------------------------------------

  /** Emptying positions `[lo, hi)` of the turn from `x`, seen in the window from `b`. */
  lemma PassedInWindow(slots: seq<Slot>, x: int, b: int, lo: int, hi: int, slots': seq<Slot>, y: int)
    requires 0 < |slots| == |slots'|
    requires Emptied(slots, x, lo, hi, slots') && Wrap(x, |slots|) == Wrap(b, |slots|)
    requires x <= lo <= hi <= x + |slots|
    requires forall z :: x <= z < lo ==> !Cell(slots, z).valid
    ensures b + hi - x <= y < b + |slots| ==> Cell(slots', y) == Cell(slots, y)
    ensures b + |slots| <= y < b + hi - x + |slots| ==> !Cell(slots', y).valid
  {
    hide Wrap, Cell, Emptied;
    var z := x + (y - b);
    WrapShift(x, b, y - b, |slots|);
    TurnCell(slots, y, z);
    TurnCell(slots', y, z);
    EmptiedAt(slots, x, lo, hi, slots', z);
  }

  lemma TurnCell(slots: seq<Slot>, y: int, z: int)
    requires 0 < |slots| && Wrap(y, |slots|) == Wrap(z, |slots|)
    ensures Cell(slots, y) == Cell(slots, z)
  {
  }

  lemma EmptiedAt(slots: seq<Slot>, x: int, lo: int, hi: int, slots': seq<Slot>, z: int)
    requires Emptied(slots, x, lo, hi, slots') && x <= lo <= hi <= x + |slots|
    requires forall v :: x <= v < lo ==> !Cell(slots, v).valid
    ensures hi <= z < x + |slots| ==> Cell(slots', z) == Cell(slots, z)
    ensures x + |slots| <= z < hi + |slots| ==> !Cell(slots', z).valid
  {
    hide Wrap, Cell;
    if x + |slots| <= z < hi + |slots| {
      WrapTurn(z - |slots|, |slots|);
      TurnCell(slots', z, z - |slots|);
    }
  }

  lemma DeliveredWindow(c: Config, s: Stream, h: History, o: Outcome, g: History, l: Ledger, heard: set<Heard>)
    requires Aligned(c, s, h) && Productive(c, s) && o == Poll(c, s) && LedgerFits(c, l)
    requires g.segment == h.segment
    requires g.base == h.base + EmptyRun(s.slots, s.index, c.Ring()) + |o.skipped| + |o.chunk.packets|
    requires WindowTold(c, s, h, l, heard) && HeardIsHeld(c, s, h, heard)
    ensures WindowTold(c, o.next, g, l, heard) && HeardIsHeld(c, o.next, g, heard)
  {
    hide Wrap, Cell, Clear, Cells, Poll, EmptyRun, WindowInPlace, FlagsTell, Parts, Emptied;
    var k0, k, n := EmptyRun(s.slots, s.index, c.Ring()), |o.skipped|, |o.chunk.packets|;
    ProductiveParts(c, s);
    PartsPassed(c, s, k0, k, n, Clear(s.slots, s.index + k0, k), o);
    WrapSmall(s.index, c.Ring());
    forall y | g.base <= y < g.base + c.Ring() && Cell(o.next.slots, y).valid
      ensures FlagsTell(c, FlagsAt(c, l, y), g.segment, y, heard)
    {
      PassedInWindow(s.slots, s.index, h.base, s.index + k0, s.index + k0 + k + n, o.next.slots, y);
    }
    forall e | e in heard && e.segment == g.segment && g.base <= e.num
      ensures e.num < g.base + c.Ring() && Cell(o.next.slots, e.num).valid
    {
      PassedInWindow(s.slots, s.index, h.base, s.index + k0, s.index + k0 + k + n, o.next.slots, e.num);
    }
  }

  /** Each delivery's flags, at the time, name the paths its copies came over. */
  lemma DeliveredCredits(c: Config, s: Stream, h: History, o: Outcome, l: Ledger, heard: set<Heard>, first: int, j: nat)
    requires Aligned(c, s, h) && Productive(c, s) && o == Poll(c, s) && LedgerFits(c, l)
    requires first == h.base + EmptyRun(s.slots, s.index, c.Ring()) + |o.skipped|
    requires WindowTold(c, s, h, l, heard) && j < |o.chunk.packets|
    ensures FlagsTell(c, l.flags[Wrap(o.chunk.packets[j].number, c.Ring())], h.segment, first + j, heard)
  {
    hide Wrap, Cell, Clear, Poll, EmptyRun, WindowInPlace, FlagsTell, Parts;
    var k0, k, n := EmptyRun(s.slots, s.index, c.Ring()), |o.skipped|, |o.chunk.packets|;
    var synced := Clear(s.slots, s.index + k0, k);
    ProductiveParts(c, s);
    PartsPacket(c, s, k0, k, n, synced, o, j);
    ChunkGenuine(c, s, h, k0, k, n, synced, o);
    var more := Deliveries(h.segment, first, o.chunk.packets, s.now);
    assert Genuine(c, more[j]);
    WrapOfWrap(first + j, c.space, c.Ring());
    var y := first + j;
    SameCell(s.slots, s.index, h.base, y - h.base);
  }

  lemma SameCell(slots: seq<Slot>, x: int, b: int, d: int)
    requires 0 <= x < |slots| && x == Wrap(b, |slots|)
    ensures Cell(slots, b + d) == Cell(slots, x + d)
  {
    WrapAdd(b, d, |slots|);
  }

  lemma PollKeepsAccount(c: Config, s: Stream, h: History, l: Ledger, t: Tally)
    requires Accounted(c, s, h, l, t)
    ensures var packets := Poll(c, s).chunk.packets;
      Accounted(c, Poll(c, s).next, PollHistory(c, s, h), DeliverLedger(c, l, packets), DeliverTally(c, l, t, packets))
  {
    if Productive(c, s) {
      ProductiveKeepsAccount(c, s, h, l, t);
    } else {
      hide Wrap, Cell, Lost, Credited, FlagsTell, Conserved, Ordered, Genuine, LogReaches, WindowInPlace, EmptyRun;
      PollKeepsInv(c, s, h);
      UnproductivePoll(c, s);
      assert DeliverTally(c, l, t, []) == t;
      assert DeliverLedger(c, l, []) == l;
    }
  }

  lemma ProductiveKeepsAccount(c: Config, s: Stream, h: History, l: Ledger, t: Tally)
    requires Accounted(c, s, h, l, t) && Productive(c, s)
    ensures var packets := Poll(c, s).chunk.packets;
      Accounted(c, Poll(c, s).next, PollHistory(c, s, h), DeliverLedger(c, l, packets), DeliverTally(c, l, t, packets))
  {
    hide Wrap, Cell, Clear, Cells, Lost, Credited, FlagsTell, Poll, PollHistory, EmptyRun, Parts, Inv, CreditsTold;
    hide Conserved, WindowInPlace, WindowTold, HeardIsHeld, CompleteAll, LogReaches, CountsMatch, LossMatches;
    InvWellFormed(c, s, h);
    var o, g := Poll(c, s), PollHistory(c, s, h);
    var k' := DeliverLedger(c, l, o.chunk.packets);
    PollKeepsInv(c, s, h);
    InvAligned(c, s, h);
    ProductiveRuns(c, s);
    ProductiveBase(c, s, h, o);
    ProductiveHistory(c, s, h, o, h.base + EmptyRun(s.slots, s.index, c.Ring()) + |o.skipped|);
    DeliveredWindow(c, s, h, o, g, l, t.heard);
    LedgerWindow(c, o.next, g, l, k', t.heard);
    ProductiveCounts(c, l, t, o.chunk.packets);
    ProductiveLoss(c, s, h, l);
    ProductiveCredits(c, s, h, l, t);
  }

  lemma InvAligned(c: Config, s: Stream, h: History)
    requires Inv(c, s, h) && s.mode.Running?
    ensures Aligned(c, s, h)
  {
  }

  lemma ProductiveCounts(c: Config, l: Ledger, t: Tally, packets: seq<Slot>)
    requires LedgerFits(c, l) && CountsMatch(c, l, t.credits)
    ensures CountsMatch(c, DeliverLedger(c, l, packets), DeliverTally(c, l, t, packets).credits)
  {
    hide Credited, Credits;
    CompleteAllCounts(c, l, t.credits, packets);
  }

  lemma ProductiveLoss(c: Config, s: Stream, h: History, l: Ledger)
    requires Inv(c, s, h) && LedgerFits(c, l) && LossMatches(c, l, h) && Productive(c, s)
    ensures LossMatches(c, DeliverLedger(c, l, Poll(c, s).chunk.packets), PollHistory(c, s, h))
  {
    hide Poll, PollHistory, EmptyRun, CompleteAll, Inv, Ordered, Genuine, LossMatches;
    InvWellFormed(c, s, h);
    var o, g := Poll(c, s), PollHistory(c, s, h);
    var first := h.base + EmptyRun(s.slots, s.index, c.Ring()) + |o.skipped|;
    ProductiveHistory(c, s, h, o, first);
    ProductiveDeliveries(c, s, h);
    CompleteAllLoss(c, l, h, first, o.chunk.packets, s.now);
    SameLoss(c, CompleteAll(c, l, o.chunk.packets), DeliverLedger(c, l, o.chunk.packets),
             h.(log := h.log + Deliveries(h.segment, first, o.chunk.packets, s.now)), g);
  }

  /** The log with a poll's deliveries is ordered, and they are genuine. */
  lemma ProductiveDeliveries(c: Config, s: Stream, h: History)
    requires Inv(c, s, h) && Productive(c, s)
    ensures WellFormed(c, s)
    ensures var o := Poll(c, s);
      var more := Deliveries(h.segment, h.base + EmptyRun(s.slots, s.index, c.Ring()) + |o.skipped|,
                             o.chunk.packets, s.now);
      Ordered(c, h.log + more) && forall d :: d in more ==> Genuine(c, d)
  {
    hide Wrap, Cell, Clear, Cells, Poll, PollHistory, EmptyRun, Parts, Inv, Ordered, Genuine;
    InvWellFormed(c, s, h);
    InvAligned(c, s, h);
    var o := Poll(c, s);
    var k0, k := EmptyRun(s.slots, s.index, c.Ring()), |o.skipped|;
    ProductiveLog(c, s, h);
    ProductiveParts(c, s);
    ProductiveHistory(c, s, h, o, h.base + k0 + k);
    ChunkGenuine(c, s, h, k0, k, |o.chunk.packets|, Clear(s.slots, s.index + k0, k), o);
  }

  /** The loss depends on the loss counters, the log and the session only. */
  lemma SameLoss(c: Config, l: Ledger, k: Ledger, h: History, g: History)
    requires c.Valid() && LossMatches(c, l, h) && g.log == h.log && g.segment == h.segment
    requires k.lost == l.lost && k.initialized == l.initialized && k.lastNumber == l.lastNumber
    ensures LossMatches(c, k, g)
  {
    hide Lost, Wrap;
  }

  lemma ProductiveCredits(c: Config, s: Stream, h: History, l: Ledger, t: Tally)
    requires Inv(c, s, h) && LedgerFits(c, l) && CreditsTold(c, h.log, t) && Productive(c, s)
    requires WindowTold(c, s, h, l, t.heard)
    ensures CreditsTold(c, PollHistory(c, s, h).log, DeliverTally(c, l, t, Poll(c, s).chunk.packets))
  {
    hide Wrap, Cell, Clear, Cells, FlagsTell, Poll, PollHistory, EmptyRun, WindowTold, CreditsTold, Inv;
    InvWellFormed(c, s, h);
    var o := Poll(c, s);
    var first := h.base + EmptyRun(s.slots, s.index, c.Ring()) + |o.skipped|;
    InvAligned(c, s, h);
    ProductiveHistory(c, s, h, o, first);
    forall j | 0 <= j < |o.chunk.packets|
      ensures FlagsTell(c, Credits(c, l, o.chunk.packets)[j], h.segment, first + j, t.heard)
    {
      DeliveredCredits(c, s, h, o, l, t.heard, first, j);
    }
    CreditsGrow(c, h.log, t, Deliveries(h.segment, first, o.chunk.packets, s.now), Credits(c, l, o.chunk.packets));
  }

  lemma ProductiveBase(c: Config, s: Stream, h: History, o: Outcome)
    requires WellFormed(c, s) && Productive(c, s) && o == Poll(c, s)
    ensures var g := PollHistory(c, s, h);
      g.base == h.base + EmptyRun(s.slots, s.index, c.Ring()) + |o.skipped| + |o.chunk.packets|
  {
    hide Poll, EmptyRun;
    ProductiveProgress(c, s, o);
  }

  lemma LedgerWindow(c: Config, s: Stream, h: History, l: Ledger, k: Ledger, heard: set<Heard>)
    requires WellFormed(c, s) && LedgerFits(c, l) && LedgerFits(c, k) && l.flags == k.flags
    requires WindowTold(c, s, h, l, heard)
    ensures WindowTold(c, s, h, k, heard)
  {
    hide Wrap, Cell, FlagsTell;
    assert forall y :: FlagsAt(c, k, y) == FlagsAt(c, l, y);
  }

  lemma CreditsGrow(c: Config, log: seq<Delivery>, t: Tally, more: seq<Delivery>, credits: seq<seq<bool>>)
    requires CreditsTold(c, log, t) && |more| == |credits|
    requires forall j :: 0 <= j < |more| ==> FlagsTell(c, credits[j], more[j].segment, more[j].num, t.heard)
    ensures CreditsTold(c, log + more, t.(credits := t.credits + credits))
  {
    hide FlagsTell;
  }

  // ---- whole runs -----------------------------------------------------------------------

  function ArriveAllTally(c: Config, s: Stream, h: History, t: Tally, arrivals: seq<Arrival>): Tally
    requires WellFormed(c, s) && forall a :: a in arrivals ==> KnownArrival(c, a)
    decreases |arrivals|
  {
    if arrivals == [] then t
    else
      var init, a := arrivals[..|arrivals| - 1], arrivals[|arrivals| - 1];
      assert KnownArrival(c, a);
      var u := ArriveAllTally(c, s, h, t, init);
      if a.Good? then ArriveTally(c, ArriveAll(c, s, init), ArriveAllHistory(c, s, h, init), u, a.packet) else u
  }

  function CallTally(c: Config, s: Stream, h: History, l: Ledger, t: Tally, call: Call): Tally
    requires WellFormed(c, s) && LedgerFits(c, l) && KnownCall(c, call)
  {
    var tick := Tick(c, s, call.now);
    var u := ArriveAllTally(c, tick, h, t, call.arrivals);
    if call.complete
    then DeliverTally(c, ArriveAllLedger(c, tick, l, call.arrivals), u, GetNextChunk(c, s, call).chunk.packets)
    else u
  }

  function RunTally(c: Config, s: Stream, h: History, l: Ledger, t: Tally, calls: seq<Call>): Tally
    requires WellFormed(c, s) && LedgerFits(c, l) && forall call :: call in calls ==> KnownCall(c, call)
    decreases |calls|
  {
    if calls == [] then t
    else
      var init := calls[..|calls| - 1];
      CallTally(c, Run(c, s, init), RunHistory(c, s, h, init), RunLedger(c, s, l, init),
                RunTally(c, s, h, l, t, init), calls[|calls| - 1])
  }

  lemma {:induction false} ArrivalsKeepAccount(c: Config, s: Stream, h: History, l: Ledger, t: Tally,
                                               arrivals: seq<Arrival>)
    requires Accounted(c, s, h, l, t) && !s.mode.NotStarted?
    requires forall a :: a in arrivals ==> KnownArrival(c, a)
    requires WellFormed(c, s) && LedgerFits(c, l) && ArrivalsFit(c, s, h, arrivals)
    ensures Accounted(c, ArriveAll(c, s, arrivals), ArriveAllHistory(c, s, h, arrivals),
                      ArriveAllLedger(c, s, l, arrivals), ArriveAllTally(c, s, h, t, arrivals))
    ensures !ArriveAll(c, s, arrivals).mode.NotStarted?
    decreases |arrivals|
  {
    hide Accounted, ArriveOne, ArriveOneHistory, ArriveOneLedger, ArriveTally, ArrivalFits, WellFormed, LedgerFits;
    if arrivals != [] {
      var init, a := arrivals[..|arrivals| - 1], arrivals[|arrivals| - 1];
      assert a in arrivals;
      ArrivalsKeepAccount(c, s, h, l, t, init);
      ArriveKeepsAccount(c, ArriveAll(c, s, init), ArriveAllHistory(c, s, h, init),
                         ArriveAllLedger(c, s, l, init), ArriveAllTally(c, s, h, t, init), a);
    }
  }

  lemma TickKeepsAccount(c: Config, s: Stream, h: History, l: Ledger, t: Tally, now: int)
    requires Accounted(c, s, h, l, t)
    ensures Accounted(c, Tick(c, s, now), h, l, t) && !Tick(c, s, now).mode.NotStarted?
    ensures WellFormed(c, Tick(c, s, now))
  {
    hide Wrap, Cell, Lost, Credited, FlagsTell, Conserved, Ordered, Genuine, LogReaches, WindowInPlace;
    TickKeepsInv(c, s, h, now);
  }

  lemma CallKeepsAccount(c: Config, s: Stream, h: History, l: Ledger, t: Tally, call: Call)
    requires Accounted(c, s, h, l, t) && WellFormed(c, s) && LedgerFits(c, l) && KnownCall(c, call)
    requires ArrivalsFit(c, Tick(c, s, call.now), h, call.arrivals)
    ensures Accounted(c, GetNextChunk(c, s, call).next, CallHistory(c, s, h, call),
                      CallLedger(c, s, l, call), CallTally(c, s, h, l, t, call))
  {
    hide Accounted, Tick, ArriveAll, ArriveAllHistory, ArriveAllLedger, ArriveAllTally, ArrivalsFit;
    hide WellFormed, LedgerFits, Poll, PollHistory, DeliverLedger, DeliverTally;
    var tick := Tick(c, s, call.now);
    TickKeepsAccount(c, s, h, l, t, call.now);
    ArrivalsKeepAccount(c, tick, h, l, t, call.arrivals);
    PollKeepsAccount(c, ArriveAll(c, tick, call.arrivals), ArriveAllHistory(c, tick, h, call.arrivals),
                     ArriveAllLedger(c, tick, l, call.arrivals), ArriveAllTally(c, tick, h, t, call.arrivals));
  }

  lemma {:induction false} RunKeepsAccount(c: Config, s: Stream, h: History, l: Ledger, t: Tally, calls: seq<Call>)
    requires Accounted(c, s, h, l, t) && WellFormed(c, s) && LedgerFits(c, l)
    requires forall call :: call in calls ==> KnownCall(c, call)
    requires RunFits(c, s, h, calls)
    ensures Accounted(c, Run(c, s, calls), RunHistory(c, s, h, calls), RunLedger(c, s, l, calls),
                      RunTally(c, s, h, l, t, calls))
    decreases |calls|
  {
    hide Accounted, WellFormed, LedgerFits, GetNextChunk, CallHistory, CallLedger, CallTally, ArrivalsFit, KnownCall;
    if calls != [] {
      var init, call := calls[..|calls| - 1], calls[|calls| - 1];
      assert call in calls && KnownCall(c, call);
      RunKeepsAccount(c, s, h, l, t, init);
      CallKeepsAccount(c, Run(c, s, init), RunHistory(c, s, h, init), RunLedger(c, s, l, init),
                       RunTally(c, s, h, l, t, init), call);
    }
  }

  /**
   The accounting from power-on: on every path the packets and the drops add up
   to the deliveries, a delivery is credited to exactly the paths its copies came
   over and to at least one, and `lost` is the number of packets missing between
   the deliveries of each session.
   */
  lemma RunAccounting(c: Config, first: Stream, calls: seq<Call>)
    requires c.Valid() && Consecutive(c) && forall call :: call in calls ==> KnownCall(c, call)
    requires PoweredOn(c, first) && RunFits(c, first, NO_HISTORY, calls)
    ensures var h := RunHistory(c, first, NO_HISTORY, calls);
      var l := RunLedger(c, first, NewLedger(c), calls);
      var t := RunTally(c, first, NO_HISTORY, NewLedger(c), NO_TALLY, calls);
      && (forall path :: 0 <= path < c.paths ==> l.counts[path] + l.drops[path] == |h.log|)
      && (forall path :: 0 <= path < c.paths ==> l.counts[path] == Credited(t.credits, path))
      && |t.credits| == |h.log|
      && (forall j :: 0 <= j < |h.log| ==> FlagsTell(c, t.credits[j], h.log[j].segment, h.log[j].num, t.heard))
      && l.lost == Lost(h.log)
  {
    hide Wrap, Initial, NewLedger, Run, RunHistory, RunLedger, RunTally, RunFits, FlagsTell, Lost, Credited, Inv;
    InitialAccounted(c, first);
    RunKeepsAccount(c, first, NO_HISTORY, NewLedger(c), NO_TALLY, calls);
  }

  // ---- the other counters ------------------------------------------------------------------------

  /** The arrivals of a run by kind. */
  datatype Census = Census(corrupt: nat, late: nat, stored: nat, copies: nat)

  const NOBODY := Census(0, 0, 0, 0)

  /** The packet finds the stream anchored, and is at most half the number space behind the last processed one. */
  predicate BehindLast(c: Config, s: Stream, p: Packet)
    requires c.Valid()
  {
    && !s.mode.WaitFirstPacket? && (s.mode.Waiting? ==> s.now - s.nextTime <= c.restartGap)
    && 2 * Wrap(s.last - p.number, c.space) <= c.space
  }

  /** Its slot holds its number. */
  predicate IsHeld(c: Config, s: Stream, p: Packet)
    requires WellFormed(c, s)
  {
    var slot := s.slots[Wrap(p.number, c.Ring())];
    slot.valid && slot.number == p.number
  }

  function CensusOne(c: Config, s: Stream, n: Census, a: Arrival): Census
    requires WellFormed(c, s)
  {
    match a
    case Corrupt(_) => n.(corrupt := n.corrupt + 1)
    case Good(p) =>
      if BehindLast(c, s, p) then n.(late := n.late + 1)
      else if IsHeld(c, s, p) then n.(copies := n.copies + 1)
      else n.(stored := n.stored + 1)
  }

  function CensusAll(c: Config, s: Stream, n: Census, arrivals: seq<Arrival>): Census
    requires WellFormed(c, s) && forall a :: a in arrivals ==> KnownArrival(c, a)
    decreases |arrivals|
  {
    if arrivals == [] then n
    else
      var init := arrivals[..|arrivals| - 1];
      CensusOne(c, ArriveAll(c, s, init), CensusAll(c, s, n, init), arrivals[|arrivals| - 1])
  }

  function CensusCall(c: Config, s: Stream, n: Census, call: Call): Census
    requires WellFormed(c, s) && KnownCall(c, call)
  {
    CensusAll(c, Tick(c, s, call.now), n, call.arrivals)
  }

  function CensusRun(c: Config, s: Stream, calls: seq<Call>): Census
    requires WellFormed(c, s) && forall call :: call in calls ==> KnownCall(c, call)
    decreases |calls|
  {
    if calls == [] then NOBODY
    else
      var init := calls[..|calls| - 1];
      CensusCall(c, Run(c, s, init), CensusRun(c, s, init), calls[|calls| - 1])
  }

  /** How far behind a number is, around the number space. */
  lemma BehindIsNotAhead(c: Config, last: nat, number: nat)
    requires c.Valid() && last < c.space && number < c.space
    ensures var d := Ahead(c, last, number); d == 0 || d >= c.Half() <==> 2 * Wrap(last - number, c.space) <= c.space
  {
    hide Wrap, Config.Half, Config.Ring;
    TwoHalves(c);
    BehindWraps(number - last, last - number, c.space, c.Half());
  }

  lemma BehindWraps(d: int, e: int, space: nat, half: nat)
    requires space == 2 * half && 0 < half && 0 - space < d < space && d + e == 0
    ensures Wrap(d, space) == 0 || Wrap(d, space) >= half <==> Wrap(e, space) <= half
  {
    hide Wrap;
    if d > 0 {
      WrapSmall(d, space);
      WrapTurn(e, space);
      WrapSmall(e + space, space);
    } else if d < 0 {
      WrapTurn(d, space);
      WrapSmall(d + space, space);
      WrapSmall(e, space);
    } else {
      WrapSmall(0, space);
    }
  }

  /** The counters and the history agree with the census. */
  predicate Counted(l: Ledger, h: History, n: Census) {
    l.corrupt == n.corrupt && l.late == n.late && |h.accepted| == n.stored && l.received == |h.log|
  }

  lemma ArrivalCounted(c: Config, s: Stream, h: History, l: Ledger, n: Census, a: Arrival)
    requires WellFormed(c, s) && LedgerFits(c, l) && KnownArrival(c, a) && EmptyUnlessRunning(s)
    requires !s.mode.NotStarted? && Counted(l, h, n)
    ensures Counted(ArriveOneLedger(c, s, l, a), ArriveOneHistory(c, s, h, a), CensusOne(c, s, n, a))
  {
    hide Wrap, Arrive;
    if a.Good? {
      BehindIsNotAhead(c, s.last, a.packet.number);
      QuarterAhead(c, a.packet.number);
    }
  }

  lemma {:induction false} ArrivalsCounted(c: Config, s: Stream, h: History, l: Ledger, n: Census,
                                           arrivals: seq<Arrival>)
    requires OwnSlots(c, s) && WellFormed(c, s) && LedgerFits(c, l) && !s.mode.NotStarted? && Counted(l, h, n)
    requires forall a :: a in arrivals ==> KnownArrival(c, a)
    ensures Counted(ArriveAllLedger(c, s, l, arrivals), ArriveAllHistory(c, s, h, arrivals),
                    CensusAll(c, s, n, arrivals))
    decreases |arrivals|
  {
    hide Counted, ArriveOneLedger, ArriveOneHistory, ArriveOne, CensusOne, OwnSlots, WellFormed, LedgerFits;
    if arrivals != [] {
      var init, a := arrivals[..|arrivals| - 1], arrivals[|arrivals| - 1];
      assert a in arrivals;
      ArrivalsCounted(c, s, h, l, n, init);
      OwnSlotsArriveAll(c, s, init);
      OwnSlotsEmpty(c, ArriveAll(c, s, init));
      ArrivalCounted(c, ArriveAll(c, s, init), ArriveAllHistory(c, s, h, init), ArriveAllLedger(c, s, l, init),
                     CensusAll(c, s, n, init), a);
    }
  }

  lemma {:induction false} CompletingKeeps(c: Config, l: Ledger, packets: seq<Slot>)
    requires LedgerFits(c, l)
    ensures var k := CompleteAll(c, l, packets); k.corrupt == l.corrupt && k.late == l.late && k.received == l.received
    decreases |packets|
  {
    if packets != [] {
      CompletingKeeps(c, l, packets[..|packets| - 1]);
    }
  }

  lemma PollCounted(c: Config, s: Stream, h: History, l: Ledger, n: Census)
    requires WellFormed(c, s) && LedgerFits(c, l) && Counted(l, h, n)
    ensures Counted(DeliverLedger(c, l, Poll(c, s).chunk.packets), PollHistory(c, s, h), n)
  {
    hide Poll, CompleteAll;
    CompletingKeeps(c, l, Poll(c, s).chunk.packets);
  }

  lemma CallCounted(c: Config, s: Stream, h: History, l: Ledger, n: Census, call: Call)
    requires OwnSlots(c, s) && WellFormed(c, s) && LedgerFits(c, l) && KnownCall(c, call) && Counted(l, h, n)
    ensures Counted(CallLedger(c, s, l, call), CallHistory(c, s, h, call), CensusCall(c, s, n, call))
  {
    hide Counted, ArriveAllLedger, ArriveAllHistory, ArriveAll, CensusAll, LedgerFits, Poll, PollHistory, DeliverLedger;
    var t := Tick(c, s, call.now);
    ArrivalsCounted(c, t, h, l, n, call.arrivals);
    PollCounted(c, ArriveAll(c, t, call.arrivals), ArriveAllHistory(c, t, h, call.arrivals),
                ArriveAllLedger(c, t, l, call.arrivals), CensusAll(c, t, n, call.arrivals));
  }

  /**
   From power-on, whatever arrives: the counters are the numbers of corrupt packets, of
   late ones and of deliveries, and every arrival is corrupt, late, accepted or a copy.
   */
  lemma {:induction false} RunCounted(c: Config, first: Stream, calls: seq<Call>)
    requires c.Valid() && PoweredOn(c, first) && WellFormed(c, first)
    requires forall call :: call in calls ==> KnownCall(c, call)
    ensures var l, h, n := RunLedger(c, first, NewLedger(c), calls), RunHistory(c, first, NO_HISTORY, calls),
                           CensusRun(c, first, calls);
      && l.received == |h.log| && l.corrupt == n.corrupt && l.late == n.late && |h.accepted| == n.stored
      && n.corrupt + n.late + n.stored + n.copies == Arrived(calls)
    decreases |calls|
  {
    hide NewLedger, CallLedger, CallHistory, CensusCall, GetNextChunk, OwnSlots, PoweredOn, WellFormed;
    if calls == [] {
      assert NewLedger(c).corrupt == NewLedger(c).late == NewLedger(c).received == 0 by {
        NewCounters(c);
      }
    } else {
      var init, call := calls[..|calls| - 1], calls[|calls| - 1];
      assert call in calls && KnownCall(c, call);
      RunCounted(c, first, init);
      OwnSlotsRun(c, first, init);
      CallCounted(c, Run(c, first, init), RunHistory(c, first, NO_HISTORY, init),
                  RunLedger(c, first, NewLedger(c), init), CensusRun(c, first, init), call);
      CensusComplete(c, Run(c, first, init), CensusRun(c, first, init), call);
    }
  }

  lemma NewCounters(c: Config)
    requires c.Valid()
    ensures NewLedger(c).corrupt == NewLedger(c).late == NewLedger(c).received == 0
  {
  }

  /** How many packets the calls bring. */
  function Arrived(calls: seq<Call>): nat {
    if calls == [] then 0 else Arrived(calls[..|calls| - 1]) + |calls[|calls| - 1].arrivals|
  }

  lemma CensusComplete(c: Config, s: Stream, n: Census, call: Call)
    requires WellFormed(c, s) && KnownCall(c, call)
    ensures var m := CensusCall(c, s, n, call);
      m.corrupt + m.late + m.stored + m.copies == n.corrupt + n.late + n.stored + n.copies + |call.arrivals|
  {
    hide Wrap;
    AllCounted(c, Tick(c, s, call.now), n, call.arrivals);
  }

  lemma {:induction false} AllCounted(c: Config, s: Stream, n: Census, arrivals: seq<Arrival>)
    requires WellFormed(c, s) && forall a :: a in arrivals ==> KnownArrival(c, a)
    ensures var m := CensusAll(c, s, n, arrivals);
      m.corrupt + m.late + m.stored + m.copies == n.corrupt + n.late + n.stored + n.copies + |arrivals|
    decreases |arrivals|
  {
    hide ArriveAll, BehindLast, IsHeld;
    if arrivals != [] {
      AllCounted(c, s, n, arrivals[..|arrivals| - 1]);
    }
  }
}
