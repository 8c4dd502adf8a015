/**
 Sender sessions of the Inline Packet Ordering receiver: which packets anchor the ring,
 restart it or resume it, when each session's synchronisation began, and how the
 restart rule of the code differs from the one it documents.
 */
module IpoSessions {
  import opened Modular
  import opened IpoBreaks
  import opened IpoModel
  import opened IpoOrdering
  import opened IpoRings
  import opened IpoRuns
  import opened IpoTiming

  // ---- one arrival ---------------------------------------------------------------------------

  /** The ring read from a packet on: it is held in the first slot, a quarter of the number space past the last. */
  function ReadFrom(c: Config, s: Stream, p: Packet, startTime: int): Stream
    requires WellFormed(c, s)
  {
    var i := Wrap(p.number, c.Ring());
    Stream(s.slots[i := Slot(p.number, true, s.now, p.hw)], Running, i, Wrap(p.number - c.space / 4, c.space),
           s.now, startTime, s.now)
  }

  /** What a packet that anchors leaves of the history: a new session unless it is the very first packet. */
  function AnchoredHistory(c: Config, s: Stream, h: History, p: Packet, segment: nat): History {
    h.(base := p.number, lastNum := p.number - c.space / 4, segment := segment,
       accepted := h.accepted + [Slot(p.number, true, s.now, p.hw)])
  }

  lemma QuarterAhead(c: Config, number: nat)
    requires c.Valid() && number < c.space
    ensures Ahead(c, Wrap(number - c.space / 4, c.space), number) == c.space / 4 < c.Half()
  {
    hide Wrap;
    WrapSub(number, number - c.space / 4, c.space);
    WrapSmall(c.space / 4, c.space);
  }

  /** The first packet of a stream is held and the ring read from it on; the start time stays. */
  lemma FirstPacketAnchors(c: Config, s: Stream, h: History, p: Packet)
    requires WellFormed(c, s) && Known(c, p) && s.mode.WaitFirstPacket? && Empty(s.slots)
    ensures Arrive(c, s, p) == ReadFrom(c, s, p, s.startTime)
    ensures ArriveHistory(c, s, h, p) == AnchoredHistory(c, s, h, p, h.segment)
  {
    hide Wrap;
    QuarterAhead(c, p.number);
  }

  /**
   The restart test: a packet that finds the ring empty more than the restart gap after
   the cached time begins a new session, synchronised anew from now on; any other leaves
   the ring's position, the last number, the start time and the session as they were.
   */
  lemma PauseDecides(c: Config, s: Stream, h: History, p: Packet)
    requires WellFormed(c, s) && Known(c, p) && s.mode.Waiting? && Empty(s.slots)
    ensures s.now - s.nextTime > c.restartGap ==>
              && Arrive(c, s, p) == ReadFrom(c, s, p, s.now + c.hold)
              && ArriveHistory(c, s, h, p) == AnchoredHistory(c, s, h, p, h.segment + 1)
    ensures s.now - s.nextTime <= c.restartGap ==>
              var r, g := Arrive(c, s, p), ArriveHistory(c, s, h, p);
              && r.mode.Running? && r.nextTime == r.now == s.now
              && r.index == s.index && r.last == s.last && r.startTime == s.startTime
              && g.base == h.base && g.lastNum == h.lastNum && g.segment == h.segment
              && r == Arrive(c, s.(mode := Running, nextTime := s.now), p)
  {
    hide Wrap;
    QuarterAhead(c, p.number);
  }

  /** A packet that finds the stream running changes at most its own slot. */
  lemma RunningArrival(c: Config, s: Stream, h: History, p: Packet)
    requires WellFormed(c, s) && Known(c, p) && s.mode.Running?
    ensures var r, g := Arrive(c, s, p), ArriveHistory(c, s, h, p);
      && r == s.(slots := r.slots)
      && (r.slots == s.slots || r.slots == s.slots[Wrap(p.number, c.Ring()) := Slot(p.number, true, s.now, p.hw)])
      && g.base == h.base && g.lastNum == h.lastNum && g.segment == h.segment
  {
  }

  /**
   Which packets are late, new or copies, by their unwrapped numbers: those up to the last
   processed number are late, those ahead of it are new unless they are held.
   */
  lemma VerdictIff(c: Config, s: Stream, h: History, p: Packet, y: int)
    requires Aligned(c, s, h) && Known(c, p) && Wrap(y, c.space) == p.number
    requires 0 <= 2 * (y - h.lastNum) + c.space < 2 * c.space
    ensures Classify(c, s, p).Late? <==> y <= h.lastNum
    ensures Classify(c, s, p).Redundant? <==> y > h.lastNum && Holds(s, p.number)
    ensures Classify(c, s, p).Fresh? <==> y > h.lastNum && !Holds(s, p.number)
  {
    hide Wrap, WindowInPlace, Ahead, Holds, Consecutive;
    LateIff(c, s, h, p, y);
    HoldsIff(c, s, h, p.number);
  }

  lemma LateIff(c: Config, s: Stream, h: History, p: Packet, y: int)
    requires c.Valid() && s.last == Wrap(h.lastNum, c.space) && Wrap(y, c.space) == p.number
    requires 0 <= 2 * (y - h.lastNum) + c.space < 2 * c.space
    ensures var d := Ahead(c, s.last, p.number); d == 0 || d >= c.Half() <==> y <= h.lastNum
  {
    hide Wrap, Ahead, Config.Half;
    TwoHalves(c);
    if y > h.lastNum {
      AheadOfNumber(c, s, h, y);
    } else {
      NumberBehind(c, s, h, y);
    }
  }

  /** A number is held exactly if its own slot holds it. */
  lemma HoldsIff(c: Config, s: Stream, h: History, number: nat)
    requires Aligned(c, s, h) && number < c.space
    ensures var slot := s.slots[Wrap(number, c.Ring())]; Holds(s, number) <==> slot.valid && slot.number == number
  {
    hide Wrap, WindowInPlace;
    if Holds(s, number) {
      var i :| 0 <= i < |s.slots| && s.slots[i].valid && s.slots[i].number == number;
      HeldInOwnSlot(c, s, h, i);
    }
  }

  /** Some slot holds the number. */
  predicate Holds(s: Stream, number: nat) {
    exists i :: 0 <= i < |s.slots| && s.slots[i].valid && s.slots[i].number == number
  }

  lemma NumberBehind(c: Config, s: Stream, h: History, y: int)
    requires c.Valid() && s.last == Wrap(h.lastNum, c.space) && h.lastNum - c.Half() <= y <= h.lastNum
    ensures var d := Ahead(c, s.last, Wrap(y, c.space)); d == 0 || d >= c.Half()
  {
    hide Wrap;
    if y < h.lastNum {
      WrapTurn(y, c.space);
      AheadOfNumber(c, s, h, y + c.space);
    } else {
      AheadOfNumber(c, s, h, y);
    }
  }

  lemma HeldInOwnSlot(c: Config, s: Stream, h: History, i: nat)
    requires Aligned(c, s, h) && i < |s.slots| && s.slots[i].valid
    ensures i == Wrap(s.slots[i].number, c.Ring())
  {
    hide Wrap;
    var y := h.base + Wrap(i - h.base, c.Ring());
    WrapAdd(i - h.base, h.base, c.Ring());
    WrapSmall(i, c.Ring());
    assert InPlace(c, Cell(s.slots, y), y + 0, h.lastNum);
    WrapOfWrap(y, c.space, c.Ring());
  }

  // ---- calls that fail -----------------------------------------------------------------------------

  lemma {:induction false} ArrivalsJoin(c: Config, s: Stream, a: seq<Arrival>, b: seq<Arrival>)
    requires WellFormed(c, s) && forall x :: x in a + b ==> KnownArrival(c, x)
    ensures forall x :: x in a || x in b ==> KnownArrival(c, x)
    ensures ArriveAll(c, s, a + b) == ArriveAll(c, ArriveAll(c, s, a), b)
    decreases |b|
  {
    hide ArriveOne, WellFormed;
    assert forall x :: x in a || x in b ==> x in a + b;
    if b == [] {
      assert a + b == a;
    } else {
      var init := b[..|b| - 1];
      assert (a + b)[..|a + b| - 1] == a + init;
      assert forall x :: x in a + init ==> x in a + b;
      ArrivalsJoin(c, s, a, init);
    }
  }

  /**
   A call that some sub-stream's failure ends hands over nothing and loses nothing: with
   the next call at the same time it does what one call with all the packets does.
   */
  lemma FailedCallDelays(c: Config, s: Stream, now: int, a: seq<Arrival>, b: seq<Arrival>, complete: bool)
    requires WellFormed(c, s) && KnownCall(c, Call(now, a + b, complete))
    ensures KnownCall(c, Call(now, a, false)) && KnownCall(c, Call(now, b, complete))
    ensures var failed := GetNextChunk(c, s, Call(now, a, false));
      && failed.chunk.packets == [] && failed.skipped == []
      && GetNextChunk(c, failed.next, Call(now, b, complete)) == GetNextChunk(c, s, Call(now, a + b, complete))
  {
    hide ArriveAll, Poll, WellFormed;
    var t := Tick(c, s, now);
    TickStarts(c, s, now);
    ArrivalsJoin(c, t, a, b);
    ArrivalsNow(c, t, a);
    ArrivalsStarted(c, t, a);
  }

  lemma TickStarts(c: Config, s: Stream, now: int)
    requires WellFormed(c, s)
    ensures WellFormed(c, Tick(c, s, now)) && Tick(c, s, now).now == now && !Tick(c, s, now).mode.NotStarted?
  {
  }

  // ---- sessions of a run -------------------------------------------------------------------------

  /** How many sessions began after the first, and when the current one's synchronisation did. */
  datatype Session = Session(number: nat, began: int)

  /** A packet after a pause longer than the restart gap begins a session. */
  function AfterArrival(c: Config, s: Stream, x: Session, a: Arrival): Session {
    if a.Good? && s.mode.Waiting? && s.now - s.nextTime > c.restartGap then Session(x.number + 1, s.now) else x
  }

  function AfterArrivals(c: Config, s: Stream, x: Session, arrivals: seq<Arrival>): Session
    requires WellFormed(c, s) && forall a :: a in arrivals ==> KnownArrival(c, a)
    decreases |arrivals|
  {
    if arrivals == [] then x
    else
      var init := arrivals[..|arrivals| - 1];
      AfterArrival(c, ArriveAll(c, s, init), AfterArrivals(c, s, x, init), arrivals[|arrivals| - 1])
  }

  /** A call starts a stream that was not started; the packets of the call are counted from there. */
  function AfterCall(c: Config, s: Stream, x: Session, call: Call): Session
    requires WellFormed(c, s) && KnownCall(c, call)
  {
    AfterArrivals(c, Tick(c, s, call.now), if s.mode.NotStarted? then Session(x.number, call.now) else x, call.arrivals)
  }

  function AfterCalls(c: Config, s: Stream, x: Session, calls: seq<Call>): Session
    requires WellFormed(c, s) && forall call :: call in calls ==> KnownCall(c, call)
    decreases |calls|
  {
    if calls == [] then x
    else
      var init := calls[..|calls| - 1];
      AfterCall(c, Run(c, s, init), AfterCalls(c, s, x, init), calls[|calls| - 1])
  }

  /** The ring of a stream that is not running is empty. */
  predicate EmptyUnlessRunning(s: Stream) {
    !s.mode.Running? ==> Empty(s.slots)
  }

  /** The history numbers the sessions, and the start time is a hold time after the synchronisation began. */
  predicate InSession(c: Config, s: Stream, h: History, x: Session) {
    EmptyUnlessRunning(s) && h.segment == x.number && (!s.mode.NotStarted? ==> s.startTime == x.began + c.hold)
  }

  lemma ArrivalInSession(c: Config, s: Stream, h: History, x: Session, a: Arrival)
    requires WellFormed(c, s) && KnownArrival(c, a) && InSession(c, s, h, x) && !s.mode.NotStarted?
    ensures InSession(c, ArriveOne(c, s, a), ArriveOneHistory(c, s, h, a), AfterArrival(c, s, x, a))
    ensures !ArriveOne(c, s, a).mode.NotStarted? && (a.Good? ==> ArriveOne(c, s, a).mode.Running?)
  {
    hide Arrive, ArriveHistory;
    if a.Good? {
      if s.mode.WaitFirstPacket? {
        FirstPacketAnchors(c, s, h, a.packet);
      } else if s.mode.Waiting? {
        PauseDecides(c, s, h, a.packet);
      } else {
        RunningArrival(c, s, h, a.packet);
      }
    }
  }

  lemma {:induction false} ArrivalsInSession(c: Config, s: Stream, h: History, x: Session, arrivals: seq<Arrival>)
    requires WellFormed(c, s) && InSession(c, s, h, x) && !s.mode.NotStarted?
    requires forall a :: a in arrivals ==> KnownArrival(c, a)
    ensures InSession(c, ArriveAll(c, s, arrivals), ArriveAllHistory(c, s, h, arrivals),
                      AfterArrivals(c, s, x, arrivals))
    ensures !ArriveAll(c, s, arrivals).mode.NotStarted?
    decreases |arrivals|
  {
    hide ArriveOne, ArriveOneHistory, AfterArrival, InSession, WellFormed;
    if arrivals != [] {
      var init, a := arrivals[..|arrivals| - 1], arrivals[|arrivals| - 1];
      assert a in arrivals;
      ArrivalsInSession(c, s, h, x, init);
      ArrivalInSession(c, ArriveAll(c, s, init), ArriveAllHistory(c, s, h, init), AfterArrivals(c, s, x, init), a);
    }
  }

  /** A poll begins no session. */
  lemma PollInSession(c: Config, s: Stream, h: History, x: Session)
    requires WellFormed(c, s) && InSession(c, s, h, x) && !s.mode.NotStarted?
    ensures InSession(c, Poll(c, s).next, PollHistory(c, s, h), x)
  {
    hide Wrap, Cell, Empty, EmptyRun, SyncAndDeliver;
    if Productive(c, s) {
      hide Poll, PollHistory;
      ProductiveRuns(c, s);
      ProductiveHistory(c, s, h, Poll(c, s),
                        h.base + EmptyRun(s.slots, s.index, c.Ring()) + |Poll(c, s).skipped|);
    } else {
      UnproductivePoll(c, s);
      EmptyTurn(s.slots, s.index);
    }
  }

  lemma TickInSession(c: Config, s: Stream, h: History, x: Session, now: int)
    requires WellFormed(c, s) && InSession(c, s, h, x)
    ensures WellFormed(c, Tick(c, s, now)) && !Tick(c, s, now).mode.NotStarted?
    ensures InSession(c, Tick(c, s, now), h, if s.mode.NotStarted? then Session(x.number, now) else x)
  {
  }

  lemma CallInSession(c: Config, s: Stream, h: History, x: Session, call: Call)
    requires WellFormed(c, s) && InSession(c, s, h, x) && KnownCall(c, call)
    ensures InSession(c, GetNextChunk(c, s, call).next, CallHistory(c, s, h, call), AfterCall(c, s, x, call))
  {
    hide Poll, PollHistory, ArriveAll, ArriveAllHistory, AfterArrivals, WellFormed, Empty;
    var t, y := Tick(c, s, call.now), if s.mode.NotStarted? then Session(x.number, call.now) else x;
    TickInSession(c, s, h, x, call.now);
    ArrivalsInSession(c, t, h, y, call.arrivals);
    PollInSession(c, ArriveAll(c, t, call.arrivals), ArriveAllHistory(c, t, h, call.arrivals),
                  AfterArrivals(c, t, y, call.arrivals));
  }

  lemma {:induction false} RunInSession(c: Config, s: Stream, h: History, x: Session, calls: seq<Call>)
    requires WellFormed(c, s) && InSession(c, s, h, x) && forall call :: call in calls ==> KnownCall(c, call)
    ensures InSession(c, Run(c, s, calls), RunHistory(c, s, h, calls), AfterCalls(c, s, x, calls))
    decreases |calls|
  {
    hide GetNextChunk, CallHistory, AfterCall, InSession, WellFormed, KnownCall;
    if calls != [] {
      var init, call := calls[..|calls| - 1], calls[|calls| - 1];
      assert call in calls && KnownCall(c, call);
      RunInSession(c, s, h, x, init);
      CallInSession(c, Run(c, s, init), RunHistory(c, s, h, init), AfterCalls(c, s, x, init), call);
    }
  }

  /**
   Sessions over whole runs: a stream started at some time, by hand or by its first call,
   is synchronised for a hold time from then on, and again from every packet that comes
   after a pause longer than the restart gap; these packets and no others begin sessions.
   */
  lemma RunSessions(c: Config, calls: seq<Call>, startedAt: int)
    requires c.Valid() && forall call :: call in calls ==> KnownCall(c, call)
    ensures var first := Start(c, Initial(c), startedAt);
      var x := AfterCalls(c, first, Session(0, startedAt), calls);
      && RunHistory(c, first, NO_HISTORY, calls).segment == x.number
      && Run(c, first, calls).startTime == x.began + c.hold
    ensures calls != [] ==>
              var x := AfterCalls(c, Initial(c), Session(0, calls[0].now), calls);
              && RunHistory(c, Initial(c), NO_HISTORY, calls).segment == x.number
              && Run(c, Initial(c), calls).startTime == x.began + c.hold
  {
    hide Run, RunHistory, AfterCalls;
    StartInSession(c, startedAt);
    StartInSession(c, if calls == [] then 0 else calls[0].now);
    RunInSession(c, Start(c, Initial(c), startedAt), NO_HISTORY, Session(0, startedAt), calls);
    RunIsStarted(c, Start(c, Initial(c), startedAt), calls);
    if calls != [] {
      RunInSession(c, Initial(c), NO_HISTORY, Session(0, calls[0].now), calls);
      RunIsStarted(c, Initial(c), calls);
    }
  }

  lemma StartInSession(c: Config, now: int)
    requires c.Valid()
    ensures WellFormed(c, Start(c, Initial(c), now)) && PoweredOn(c, Start(c, Initial(c), now))
    ensures InSession(c, Start(c, Initial(c), now), NO_HISTORY, Session(0, now))
    ensures InSession(c, Initial(c), NO_HISTORY, Session(0, now))
  {
  }

  /** After a start or a call the stream is started. */
  lemma {:induction false} RunIsStarted(c: Config, s: Stream, calls: seq<Call>)
    requires WellFormed(c, s) && EmptyUnlessRunning(s) && forall call :: call in calls ==> KnownCall(c, call)
    requires calls != [] || !s.mode.NotStarted?
    ensures !Run(c, s, calls).mode.NotStarted?
    decreases |calls|
  {
    hide EmptyUnlessRunning, GetNextChunk;
    if calls != [] {
      var init, call := calls[..|calls| - 1], calls[|calls| - 1];
      assert call in calls && KnownCall(c, call);
      CallIsStarted(c, Run(c, s, init), call);
    }
  }

  lemma CallIsStarted(c: Config, s: Stream, call: Call)
    requires WellFormed(c, s) && KnownCall(c, call)
    ensures !GetNextChunk(c, s, call).next.mode.NotStarted?
  {
    hide Wrap, Cell, Cells, Clear, EmptyRun, SyncRun, ReadyRun, ArriveAll, Config.Ring;
    ArrivalsStarted(c, Tick(c, s, call.now), call.arrivals);
  }

  lemma {:induction false} ArrivalsStarted(c: Config, s: Stream, arrivals: seq<Arrival>)
    requires WellFormed(c, s) && !s.mode.NotStarted? && forall a :: a in arrivals ==> KnownArrival(c, a)
    ensures !ArriveAll(c, s, arrivals).mode.NotStarted?
    decreases |arrivals|
  {
    hide Wrap, Classify;
    if arrivals != [] {
      assert arrivals[|arrivals| - 1] in arrivals;
      ArrivalsStarted(c, s, arrivals[..|arrivals| - 1]);
    }
  }

  // ---- the documented restart rule -----------------------------------------------------------------

  /** When a waiting stream began to wait. */
  function WaitingSince(c: Config, s: Stream, calls: seq<Call>): int
    requires WellFormed(c, s) && forall call :: call in calls ==> KnownCall(c, call)
    decreases |calls|
  {
    if calls == [] then s.now
    else
      var init := calls[..|calls| - 1];
      if Run(c, s, init).mode.Waiting? then WaitingSince(c, s, init) else calls[|calls| - 1].now
  }

  /** The cached time of a waiting stream lies more than the hold time before it began to wait. */
  predicate WaitsSince(c: Config, s: Stream, since: int) {
    s.mode.Waiting? ==> s.nextTime + c.hold < since <= s.now
  }

  /** A packet wakes a waiting stream, and then it is too early to read. */
  lemma {:induction false} ArrivalsWake(c: Config, s: Stream, arrivals: seq<Arrival>)
    requires WellFormed(c, s) && s.mode.Waiting? && forall a :: a in arrivals ==> KnownArrival(c, a)
    ensures var r := ArriveAll(c, s, arrivals);
      r == s || (r.mode.Running? && r.nextTime == r.now == s.now)
    decreases |arrivals|
  {
    hide Wrap, Classify;
    if arrivals != [] {
      assert arrivals[|arrivals| - 1] in arrivals;
      ArrivalsWake(c, s, arrivals[..|arrivals| - 1]);
    }
  }

  lemma CallWaits(c: Config, s: Stream, call: Call, since: int)
    requires WellFormed(c, s) && KnownCall(c, call) && WaitsSince(c, s, since) && s.now <= call.now
    ensures WaitsSince(c, GetNextChunk(c, s, call).next, if s.mode.Waiting? then since else call.now)
  {
    hide Wrap, Cell, Clear, EmptyRun, SyncAndDeliver, ArriveAll;
    var t := Tick(c, s, call.now);
    var a := ArriveAll(c, t, call.arrivals);
    ArrivalsNow(c, t, call.arrivals);
    if s.mode.Waiting? {
      ArrivalsWake(c, t, call.arrivals);
    } else {
      NotWaiting(c, t, call.arrivals);
    }
    if Productive(c, a) {
      hide Poll;
      ProductiveRuns(c, a);
    }
  }

  /** Packets make no stream wait. */
  lemma {:induction false} NotWaiting(c: Config, s: Stream, arrivals: seq<Arrival>)
    requires WellFormed(c, s) && !s.mode.Waiting? && forall a :: a in arrivals ==> KnownArrival(c, a)
    ensures !ArriveAll(c, s, arrivals).mode.Waiting?
    decreases |arrivals|
  {
    hide Wrap, Classify;
    if arrivals != [] {
      assert arrivals[|arrivals| - 1] in arrivals;
      NotWaiting(c, s, arrivals[..|arrivals| - 1]);
    }
  }

  lemma {:induction false} RunWaits(c: Config, s: Stream, calls: seq<Call>)
    requires WellFormed(c, s) && !s.mode.Waiting? && Forward(s.now, calls)
    requires forall call :: call in calls ==> KnownCall(c, call)
    ensures WaitsSince(c, Run(c, s, calls), WaitingSince(c, s, calls)) && Run(c, s, calls).now == LastNow(s.now, calls)
    decreases |calls|
  {
    hide GetNextChunk, WaitsSince, WellFormed, KnownCall;
    RunNow(c, s, calls);
    if calls == [] {
      StartsAwake(c, s);
    } else {
      var init, call := calls[..|calls| - 1], calls[|calls| - 1];
      assert call in calls && KnownCall(c, call);
      RunWaits(c, s, init);
      CallWaits(c, Run(c, s, init), call, WaitingSince(c, s, init));
    }
  }

  lemma StartsAwake(c: Config, s: Stream)
    requires !s.mode.Waiting?
    ensures WaitsSince(c, s, s.now)
  {
  }

  /** The next packet begins a session. */
  predicate BeginsSession(c: Config, s: Stream, p: Packet)
    requires WellFormed(c, s) && Known(c, p)
  {
    ArriveHistory(c, s, NO_HISTORY, p).segment == 1
  }

  /**
   The receiver documents that a session begins after more than the restart gap in the
   waiting state.  It begins then, but also before: the code measures from the cached
   time, which lies more than the hold time before the waiting.  For a packet at `now`
   the two rules agree if and only if it does not come in between.
   */
  lemma DocumentedRestartIff(c: Config, first: Stream, calls: seq<Call>, now: int, p: Packet)
    requires c.Valid() && PoweredOn(c, first) && WellFormed(c, first)
    requires (forall call :: call in calls ==> KnownCall(c, call)) && Forward(first.now, calls)
    requires Run(c, first, calls).mode.Waiting? && LastNow(first.now, calls) <= now && Known(c, p)
    ensures WellFormed(c, Tick(c, Run(c, first, calls), now))
    ensures var s, since := Run(c, first, calls), WaitingSince(c, first, calls);
      var begins := BeginsSession(c, Tick(c, s, now), p);
      && s.nextTime + c.hold < since <= LastNow(first.now, calls)
      && (now - since > c.restartGap ==> begins)
      && ((begins <==> now - since > c.restartGap) <==> !(s.nextTime + c.restartGap < now <= since + c.restartGap))
  {
    hide Run, Initial;
    OwnSlotsRun(c, first, calls);
    assert !first.mode.Waiting? by {
      PoweredOnAwake(c, first);
    }
    RunWaits(c, first, calls);
    var s := Run(c, first, calls);
    OwnSlotsEmpty(c, s);
    PauseDecides(c, Tick(c, s, now), NO_HISTORY, p);
  }

  lemma PoweredOnAwake(c: Config, first: Stream)
    requires c.Valid() && PoweredOn(c, first)
    ensures !first.mode.Waiting? && first.now == 0
  {
  }

  /** A time at which a packet held since `hold` is ready, and longer ago than the restart gap. */
  function LatePoll(c: Config): int {
    2 * c.hold + c.restartGap + 1
  }

  function FirstCall(c: Config): Call {
    Call(c.hold, [Good(Packet(0, 0, 0))], true)
  }

  /** A packet arrives, a late poll delivers it, and the next one, at once, finds nothing. */
  function SlowPolls(c: Config): seq<Call> {
    [] + [FirstCall(c)] + [Quiet(LatePoll(c))] + [Quiet(LatePoll(c))]
  }

  /** The packet is held ... */
  function OneHeld(c: Config): (s: Stream)
    requires c.Valid()
    ensures WellFormed(c, s)
  {
    ReadFrom(c, Tick(c, Start(c, Initial(c), 0), c.hold), Packet(0, 0, 0), c.hold)
  }

  /** ... and delivered. */
  function OneDelivered(c: Config): (s: Stream)
    requires c.Valid()
    ensures WellFormed(c, s)
  {
    var s := Tick(c, OneHeld(c), LatePoll(c));
    s.(slots := Taken(s.slots, 0), index := Wrap(1, c.Ring()), last := 0)
  }

  lemma FirstIsHeld(c: Config)
    requires c.Valid()
    ensures KnownCall(c, FirstCall(c)) && WellFormed(c, Start(c, Initial(c), 0))
    ensures GetNextChunk(c, Start(c, Initial(c), 0), FirstCall(c)).next == OneHeld(c)
  {
    hide Wrap, FullScan, Arrive, Classify;
    var s := Tick(c, Start(c, Initial(c), 0), c.hold);
    OneArrival(c, s, Packet(0, 0, 0));
    FirstPacketAnchors(c, s, NO_HISTORY, Packet(0, 0, 0));
  }

  lemma HeldIsTaken(c: Config)
    requires c.Valid()
    ensures KnownCall(c, Quiet(LatePoll(c)))
    ensures GetNextChunk(c, OneHeld(c), Quiet(LatePoll(c))).next == OneDelivered(c)
    ensures Empty(OneDelivered(c).slots)
  {
    hide Wrap, Poll;
    var s := OneHeld(c);
    QuietCall(c, s, LatePoll(c));
    WrapSmall(0, c.Ring());
    DeliversOne(c, Tick(c, s, LatePoll(c)), 0, 0);
  }

  lemma ThenItWaits(c: Config)
    requires c.Valid()
    ensures GetNextChunk(c, OneDelivered(c), Quiet(LatePoll(c))).next == OneDelivered(c).(mode := Waiting)
  {
    hide Wrap, Taken, Cell;
    var s := OneDelivered(c);
    HeldIsTaken(c);
    QuietCall(c, s, LatePoll(c));
    EmptyTurn(s.slots, s.index);
  }

  /**
   For every configuration a run from power-on in which a packet that comes at the very
   time the receiver began to wait begins a session, and is discarded as one of its
   initial synchronisation: the documented pause has not even started.
   */
  lemma RestartsWithoutPause(c: Config)
    requires c.Valid()
    ensures PoweredOn(c, Start(c, Initial(c), 0)) && WellFormed(c, Start(c, Initial(c), 0))
    ensures (forall call :: call in SlowPolls(c) ==> KnownCall(c, call)) && Known(c, Packet(0, 1, 0))
    ensures var first, p := Start(c, Initial(c), 0), Packet(0, 1, 0);
      var s := Run(c, first, SlowPolls(c));
      && s.mode.Waiting? && s.now == WaitingSince(c, first, SlowPolls(c)) == LatePoll(c)
      && WellFormed(c, Tick(c, s, s.now)) && BeginsSession(c, Tick(c, s, s.now), p)
      && Arrive(c, Tick(c, s, s.now), p) == ReadFrom(c, s, p, s.now + c.hold)
  {
    hide GetNextChunk, Wrap, Run, KnownCall, OneHeld, OneDelivered, WaitingSince, Quiet, FirstCall, Arrive;
    var first, quiet := Start(c, Initial(c), 0), Quiet(LatePoll(c));
    FirstIsHeld(c);
    HeldIsTaken(c);
    ThenItWaits(c);
    NoCalls(c, first);
    RunOn(c, first, [], FirstCall(c));
    RunOn(c, first, [] + [FirstCall(c)], quiet);
    RunOn(c, first, [] + [FirstCall(c)] + [quiet], quiet);
    DeliveredCache(c);
    WaitsAtLast(c, first, [] + [FirstCall(c)] + [quiet], quiet);
    PauseDecides(c, Tick(c, Run(c, first, SlowPolls(c)), LatePoll(c)), NO_HISTORY, Packet(0, 1, 0));
  }

  lemma WaitsAtLast(c: Config, s: Stream, calls: seq<Call>, call: Call)
    requires WellFormed(c, s) && KnownCall(c, call) && forall x :: x in calls ==> KnownCall(c, x)
    requires !Run(c, s, calls).mode.Waiting?
    ensures forall x :: x in calls + [call] ==> KnownCall(c, x)
    ensures WaitingSince(c, s, calls + [call]) == call.now
  {
    assert (calls + [call])[..|calls|] == calls;
  }

  lemma DeliveredCache(c: Config)
    requires c.Valid()
    ensures var s := OneDelivered(c);
      s.mode.Running? && s.nextTime == c.hold && s.now == LatePoll(c) == Quiet(LatePoll(c)).now
  {
  }
}
