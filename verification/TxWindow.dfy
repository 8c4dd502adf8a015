/**
 The sender of the media latency node: a window of fields committed to a network
 card and not yet completed, and a ring of the times at which their chunks were
 scheduled, read back when the card completes them.
 */
module TxWindow {
  import opened Modular

  /** `fields` frames or fields in memory, of `chunks` chunks each; the ring has `capacity` slots. */
  datatype Settings = Settings(fields: nat, chunks: nat, capacity: nat) {
    /** The last chunk of a field is not tracked. */
    function Tracked(): int {
      chunks - 1
    }

    /** The ring as the source reserves it: a slot for every chunk in memory. */
    predicate Valid() {
      2 <= chunks && 0 < fields && fields * chunks <= capacity
    }

    /** One slot more than there are tracked chunks in memory. */
    predicate Sized() {
      2 <= chunks && 0 < fields && fields * Tracked() < capacity
    }
  }

  /**
   The node's counters and ring; `nic` is the card's queue of tracked tokens, `sent`
   the scheduled time of every token and `measured` the time each completion was
   measured against; `unread` and `disordered` count the completions taken from the
   card that could not be read or were not the one expected.  `stopped` ends the loop
   of turns, `ended` the draining after it.
   */
  datatype Tx = Tx(
    committed: nat,
    completed: nat,
    chunkInField: nat,
    completionInField: nat,
    marked: nat,
    handled: nat,
    ring: seq<nat>,
    nic: seq<nat>,
    sent: seq<nat>,
    measured: seq<nat>,
    unread: nat,
    disordered: nat,
    stopped: bool,
    ended: bool)

  const SIZE_MAX_PLUS_ONE := 0x1_0000_0000_0000_0000
  const FETCH_BUDGET := 10

  /** The fields in flight, as a subtraction of unsigned counters gives it. */
  function InFlight(s: Tx): int {
    if s.completed <= s.committed then s.committed - s.completed
    else SIZE_MAX_PLUS_ONE + s.committed - s.completed
  }

  predicate PlaceToCommit(c: Settings, s: Tx) {
    InFlight(s) < c.fields
  }

  // ---- completions -------------------------------------------------------------------------

  /** What the card answers to one poll: nothing yet, its oldest token, that token but unreadable, or a failure. */
  datatype Poll = Nothing | Reported | Unreadable | Broken

  datatype Status = Handled | NoCompletion | Failure

  /** `try_process_one_completion`; a card without tokens has nothing to report. */
  function ProcessCompletion(c: Settings, s: Tx, poll: Poll): (r: (Tx, Status))
    requires |s.ring| == c.capacity > 0
    ensures r.0 == s.(nic := r.0.nic, handled := r.0.handled, measured := r.0.measured,
                      unread := r.0.unread, disordered := r.0.disordered)
    ensures r.1.NoCompletion? ==> r.0 == s
  {
    if poll.Broken? then (s, Failure)
    else if poll.Nothing? || s.nic == [] then (s, NoCompletion)
    else if poll.Unreadable? then (s.(nic := s.nic[1..], unread := s.unread + 1), Failure)
    else if s.nic[0] != s.handled then (s.(nic := s.nic[1..], disordered := s.disordered + 1), Failure)
    else (s.(nic := s.nic[1..], handled := s.handled + 1,
             measured := s.measured + [s.ring[Wrap(s.handled, c.capacity)]]), Handled)
  }

  /** Polls until the card has nothing to report, the budget is spent, the field is complete or a poll fails. */
  function Fetch(c: Settings, s: Tx, polls: seq<Poll>, budget: nat): (r: Tx)
    requires |s.ring| == c.capacity > 0
    ensures r.ring == s.ring
    decreases |polls|
  {
    if polls == [] then s
    else
      var (done, status) := ProcessCompletion(c, s, polls[0]);
      match status
      case NoCompletion => s
      case Failure => done.(stopped := true)
      case Handled =>
        var next := done.(completionInField := s.completionInField + 1);
        if budget <= 1 || next.completionInField >= c.Tracked() then next
        else Fetch(c, next, polls[1..], budget - 1)
  }

  function CloseCompletedField(c: Settings, s: Tx): Tx {
    if s.completionInField == c.Tracked() then s.(completed := s.completed + 1, completionInField := 0) else s
  }

  // ---- commits -------------------------------------------------------------------------------

  /** What the card and the clock answer for one chunk; a `blocked` chunk was refused at least once first. */
  datatype Answer = Accepted(time: nat, blocked: bool) | Failed(time: nat)

  function Record(c: Settings, s: Tx, time: nat): (r: Tx)
    requires |s.ring| == c.capacity > 0
    ensures |r.ring| == c.capacity
  {
    s.(ring := s.ring[Wrap(s.marked, c.capacity) := time])
  }

  /** A chunk that the card accepts: all but the last of a field are tracked. */
  function CommitChunk(c: Settings, s: Tx, time: nat): (r: Tx)
    requires |s.ring| == c.capacity > 0
    ensures |r.ring| == c.capacity
  {
    var recorded := Record(c, s, time).(chunkInField := s.chunkInField + 1);
    if s.chunkInField < c.Tracked() then
      recorded.(marked := s.marked + 1, nic := s.nic + [s.marked], sent := s.sent + [time])
    else recorded
  }

  /** Commits to the end of the field, or until the card was busy, or fails; without an answer there is no chunk. */
  function CommitChunks(c: Settings, s: Tx, answers: seq<Answer>): (r: Tx)
    requires |s.ring| == c.capacity > 0
    ensures |r.ring| == c.capacity
    decreases |answers|
  {
    if answers == [] then s.(stopped := true)
    else
      match answers[0]
      case Failed(time) => Record(c, s, time).(stopped := true)
      case Accepted(time, blocked) =>
        var next := CommitChunk(c, s, time);
        if blocked || next.chunkInField >= c.chunks then next else CommitChunks(c, next, answers[1..])
  }

  function CloseCommittedField(c: Settings, s: Tx): Tx {
    if s.chunkInField == c.chunks then s.(committed := s.committed + 1, chunkInField := 0) else s
  }

  // ---- the loop ------------------------------------------------------------------------------

  datatype Step =
    | Turn(isTime: bool, polls: seq<Poll>, answers: seq<Answer>, last: bool)
    | Drain(polls: seq<Poll>)

  function CompletionPhase(c: Settings, s: Tx, polls: seq<Poll>): (r: Tx)
    requires |s.ring| == c.capacity > 0
    ensures r.ring == s.ring
  {
    CloseCompletedField(c, Fetch(c, s, polls, FETCH_BUDGET))
  }

  function CommitPhase(c: Settings, s: Tx, answers: seq<Answer>): (r: Tx)
    requires |s.ring| == c.capacity > 0
    ensures |r.ring| == c.capacity
  {
    CloseCommittedField(c, CommitChunks(c, s, answers))
  }

  /** One turn of the loop; whether there is place is decided before completions are fetched. */
  function DoTurn(c: Settings, s: Tx, isTime: bool, polls: seq<Poll>, answers: seq<Answer>, last: bool): (r: Tx)
    requires |s.ring| == c.capacity > 0
    ensures |r.ring| == c.capacity
  {
    var fetched := if isTime then CompletionPhase(c, s, polls) else s;
    if fetched.stopped || !PlaceToCommit(c, s) then fetched
    else
      var r := CommitPhase(c, fetched, answers);
      r.(stopped := r.stopped || last)
  }

  /** Polls for the tokens still out until all are handled or a poll fails. */
  function DrainTokens(c: Settings, s: Tx, polls: seq<Poll>): (r: Tx)
    requires |s.ring| == c.capacity > 0
    ensures r.ring == s.ring
    decreases |polls|
  {
    if polls == [] || s.ended || s.handled == s.marked then s
    else
      var (done, status) := ProcessCompletion(c, s, polls[0]);
      if status.Failure? then done.(ended := true) else DrainTokens(c, done, polls[1..])
  }

  /** Turns until the loop stops; then the tokens still out are drained. */
  function DoStep(c: Settings, s: Tx, step: Step): (r: Tx)
    requires |s.ring| == c.capacity > 0
    ensures |r.ring| == c.capacity
  {
    match step
    case Turn(isTime, polls, answers, last) =>
      if s.stopped then s else DoTurn(c, s, isTime, polls, answers, last)
    case Drain(polls) =>
      if s.stopped then DrainTokens(c, s, polls) else s
  }

  function DoSteps(c: Settings, s: Tx, steps: seq<Step>): (r: Tx)
    requires |s.ring| == c.capacity > 0
    ensures |r.ring| == c.capacity
    decreases |steps|
  {
    if steps == [] then s else DoStep(c, DoSteps(c, s, steps[..|steps| - 1]), steps[|steps| - 1])
  }

  function Start(ring: seq<nat>): Tx {
    Tx(0, 0, 0, 0, 0, 0, ring, [], [], [], 0, 0, false, false)
  }

  // ---- the ring ------------------------------------------------------------------------------

  function Tokens(from: nat, to: nat): (r: seq<nat>)
    requires from <= to
    ensures |r| == to - from && forall i :: 0 <= i < |r| ==> r[i] == from + i
  {
    seq(to - from, i requires 0 <= i < to - from => from + i)
  }

  predicate SlotHolds(c: Settings, s: Tx, t: nat)
    requires |s.ring| == c.capacity > 0 && t < |s.sent|
  {
    s.ring[Wrap(t, c.capacity)] == s.sent[t]
  }

  /** The completions taken from the card. */
  function Taken(s: Tx): nat {
    s.handled + s.unread + s.disordered
  }

  /**
   The card has the tokens not yet taken from it; the slots of those not handled, and
   every measurement made, have the scheduled times.  No completion is out of order
   unless one could not be read, which stops the loop.
   */
  predicate Kept(c: Settings, s: Tx) {
    && |s.ring| == c.capacity > 0 && Taken(s) <= s.marked == |s.sent|
    && s.nic == Tokens(Taken(s), s.marked)
    && (forall t :: s.handled <= t < s.marked ==> SlotHolds(c, s, t))
    && s.measured == s.sent[..s.handled]
    && (0 < s.disordered ==> 0 < s.unread) && (0 < s.unread ==> s.stopped)
  }

  lemma NextTokens(from: nat, to: nat)
    requires from <= to
    ensures from < to ==> Tokens(from, to)[0] == from && Tokens(from, to)[1..] == Tokens(from + 1, to)
    ensures Tokens(from, to) == [] <==> from == to
  {
  }

  /** What is kept does not depend on the window's counters, and handled tokens need no slots. */
  lemma SlotsStay(c: Settings, s: Tx, r: Tx)
    requires |s.ring| == c.capacity > 0 && s.handled <= s.marked == |s.sent|
    requires r.ring == s.ring && r.sent == s.sent && r.marked == s.marked && s.handled <= r.handled
    requires forall t :: s.handled <= t < s.marked ==> SlotHolds(c, s, t)
    ensures forall t :: r.handled <= t < r.marked ==> SlotHolds(c, r, t)
  {
    hide Wrap;
    forall t | r.handled <= t < r.marked
      ensures SlotHolds(c, r, t)
    {
      assert SlotHolds(c, s, t);
    }
  }

  /** After a poll what is kept is kept, if a failure ends the loop. */
  lemma CompletionKept(c: Settings, s: Tx, poll: Poll)
    requires Kept(c, s)
    ensures |s.ring| == c.capacity > 0
    ensures var (r, status) := ProcessCompletion(c, s, poll);
      && (status.Failure? ==> Kept(c, r.(stopped := true)) && r.handled == s.handled)
      && (status.Handled? ==> Kept(c, r) && r.handled == s.handled + 1)
      && (status.NoCompletion? ==> r == s)
  {
    hide Wrap, Tokens, SlotHolds;
    var (r, status) := ProcessCompletion(c, s, poll);
    NextTokens(Taken(s), s.marked);
    SlotsStay(c, s, r);
    SlotsStay(c, s, r.(stopped := true));
    if status.Handled? {
      assert SlotHolds(c, s, s.handled);
      HandledMeasured(c, s);
    }
  }

  lemma HandledMeasured(c: Settings, s: Tx)
    requires |s.ring| == c.capacity > 0 && s.handled < |s.sent| && s.measured == s.sent[..s.handled]
    requires SlotHolds(c, s, s.handled)
    ensures s.measured + [s.ring[Wrap(s.handled, c.capacity)]] == s.sent[..s.handled + 1]
  {
  }

  /** Fewer tokens out than slots: the slot written belongs to none of them. */
  lemma RecordKept(c: Settings, s: Tx, time: nat)
    requires Kept(c, s) && s.marked - s.handled < c.capacity
    ensures Kept(c, Record(c, s, time))
  {
    hide Wrap;
    var r := Record(c, s, time);
    forall t | r.handled <= t < r.marked
      ensures SlotHolds(c, r, t)
    {
      assert SlotHolds(c, s, t);
      OtherSlot(t, s.marked, c.capacity);
    }
  }

  lemma OtherSlot(t: nat, u: nat, m: nat)
    requires t < u && u - t < m
    ensures Wrap(t, m) != Wrap(u, m)
  {
    hide Wrap;
    if Wrap(t, m) == Wrap(u, m) {
      WrapInjective(t, u, m);
    }
  }

  lemma CommitKept(c: Settings, s: Tx, time: nat)
    requires Kept(c, s) && s.marked - s.handled < c.capacity
    ensures Kept(c, CommitChunk(c, s, time))
  {
    hide Wrap;
    RecordKept(c, s, time);
    var q, r := Record(c, s, time), CommitChunk(c, s, time);
    forall t | r.handled <= t < r.marked
      ensures SlotHolds(c, r, t)
    {
      if t < s.marked {
        assert SlotHolds(c, q, t);
      }
    }
  }

  // ---- the window ------------------------------------------------------------------------------

  /** Tokens of whole fields. */
  function Whole(n: nat, tracked: nat): nat {
    if n == 0 then 0 else Whole(n - 1, tracked) + tracked
  }

  lemma {:induction false} WholeIsProduct(n: nat, tracked: nat)
    ensures Whole(n, tracked) == n * tracked
  {
    if n > 0 {
      WholeIsProduct(n - 1, tracked);
    }
  }

  lemma {:induction false} WholeSplits(m: nat, n: nat, tracked: nat)
    ensures Whole(m + n, tracked) == Whole(m, tracked) + Whole(n, tracked)
    decreases n
  {
    if n > 0 {
      WholeSplits(m, n - 1, tracked);
    }
  }

  function Least(a: nat, b: int): int {
    if a <= b then a else b
  }

  /** Every token is of a chunk committed, and every completion of a token handled. */
  predicate Counted(c: Settings, s: Tx)
    requires 2 <= c.chunks
  {
    && s.chunkInField <= c.chunks && s.completionInField <= c.Tracked()
    && s.marked == Whole(s.committed, c.Tracked()) + Least(s.chunkInField, c.Tracked())
    && s.handled == Whole(s.completed, c.Tracked()) + s.completionInField
  }

  /** Between turns. */
  predicate Between(c: Settings, s: Tx)
    requires 2 <= c.chunks
  {
    && Kept(c, s)
    && (!s.stopped ==>
      && Counted(c, s) && s.chunkInField < c.chunks && s.completionInField < c.Tracked()
      && s.completed <= s.committed && s.committed - s.completed <= c.fields
      && (0 < s.chunkInField ==> s.committed - s.completed < c.fields))
  }

  /**
   Tokens handled never pass tokens marked, so completed fields can pass committed ones
   only by a field all tracked.
   */
  lemma FieldsFollowTokens(c: Settings, s: Tx)
    requires c.Sized() && Counted(c, s) && s.handled <= s.marked
    ensures s.completed <= s.committed + 1
    ensures s.completed == s.committed + 1 ==> s.chunkInField >= c.Tracked()
    ensures s.completed == s.committed + 1 ==> s.completionInField == 0
  {
    if s.completed > s.committed {
      WholeSplits(s.committed, s.completed - s.committed, c.Tracked());
      var extra := s.completed - s.committed;
      assert Whole(1, c.Tracked()) == c.Tracked() by {
        assert Whole(0, c.Tracked()) == 0;
      }
      if extra > 1 {
        WholeSplits(1, extra - 1, c.Tracked());
        WholePositive(extra - 1, c.Tracked());
      }
    }
  }

  lemma {:induction false} WholePositive(n: nat, tracked: nat)
    requires 0 < n && 0 < tracked
    ensures tracked <= Whole(n, tracked)
  {
    if n > 1 {
      WholePositive(n - 1, tracked);
    }
  }

  /** With less than the window of fields in flight, or all of it and none begun, the tokens out fit it. */
  lemma OutstandingFits(c: Settings, s: Tx)
    requires c.Sized() && Counted(c, s)
    requires s.committed < s.completed + c.fields || (s.committed == s.completed + c.fields && s.chunkInField == 0)
    ensures s.marked - s.handled <= Whole(c.fields, c.Tracked()) < c.capacity
  {
    FieldsFit(c);
    var d := c.Tracked();
    WholeSplits(s.completed, c.fields, d);
    if s.committed < s.completed + c.fields {
      WholeSplits(s.committed + 1, s.completed + c.fields - s.committed - 1, d);
    }
  }

  /** There are more slots than tokens in the window. */
  lemma FieldsFit(c: Settings)
    requires c.Sized()
    ensures Whole(c.fields, c.Tracked()) < c.capacity
  {
    WholeIsProduct(c.fields, c.Tracked());
  }

  /** The ring that the source reserves is large enough. */
  lemma ReservedSuffices(c: Settings)
    requires c.Valid()
    ensures c.Sized()
  {
    assert c.fields * c.chunks == c.fields * c.Tracked() + c.fields;
  }

  // ---- every run -------------------------------------------------------------------------------

  /** What fetching completions leaves alone. */
  predicate OnlyCompleted(s: Tx, r: Tx) {
    && r.committed == s.committed && r.chunkInField == s.chunkInField && r.marked == s.marked
    && r.completed >= s.completed && r.handled >= s.handled
  }

  lemma {:induction false} FetchKeeps(c: Settings, s: Tx, polls: seq<Poll>, budget: nat)
    requires c.Sized() && Kept(c, s) && Counted(c, s) && s.completionInField < c.Tracked() && !s.stopped
    ensures var r := Fetch(c, s, polls, budget);
      Kept(c, r) && Counted(c, r) && OnlyCompleted(s, r) && r.completed == s.completed
    decreases |polls|
  {
    hide Kept, Whole, Wrap;
    KeptNic(c, s);
    if polls != [] {
      CompletionKept(c, s, polls[0]);
      var (done, status) := ProcessCompletion(c, s, polls[0]);
      if status.Handled? {
        var next := done.(completionInField := s.completionInField + 1);
        KeptCounters(c, done, next);
        if budget > 1 && next.completionInField < c.Tracked() {
          FetchKeeps(c, next, polls[1..], budget - 1);
        }
      }
    }
  }

  lemma {:induction false} DrainKeeps(c: Settings, s: Tx, polls: seq<Poll>)
    requires Kept(c, s) && s.stopped && InWindow(c, s)
    ensures |s.ring| == c.capacity > 0
    ensures Kept(c, DrainTokens(c, s, polls)) && InWindow(c, DrainTokens(c, s, polls))
    ensures DrainTokens(c, s, polls).stopped
    decreases |polls|
  {
    hide Kept, InWindow, ProcessCompletion;
    KeptNic(c, s);
    if polls != [] && !s.ended && s.handled != s.marked {
      CompletionKept(c, s, polls[0]);
      var (done, status) := ProcessCompletion(c, s, polls[0]);
      SameWindow(c, s, done);
      if status.Failure? {
        assert done.(stopped := true) == done;
        KeptCounters(c, done, done.(ended := true));
        SameWindow(c, done, done.(ended := true));
      } else {
        DrainKeeps(c, done, polls[1..]);
      }
    }
  }

  /** How many polls find the card ready to report. */
  function Reports(polls: seq<Poll>): nat {
    if polls == [] then 0 else (if polls[0].Reported? then 1 else 0) + Reports(polls[1..])
  }

  /**
   When no completion was unreadable, draining ends with every token measured if the
   card reports them all, however often it has nothing to report in between.
   */
  lemma {:induction false} DrainHandlesAll(c: Settings, s: Tx, polls: seq<Poll>)
    requires Kept(c, s) && s.stopped && !s.ended && s.unread == 0
    requires forall poll :: poll in polls ==> poll.Nothing? || poll.Reported?
    requires s.marked - s.handled <= Reports(polls)
    ensures |s.ring| == c.capacity > 0
    ensures var r := DrainTokens(c, s, polls);
      r.handled == r.marked == s.marked && r.measured == r.sent == s.sent && r.nic == [] && !r.ended
    decreases |polls|
  {
    hide Kept, Wrap;
    KeptNic(c, s);
    AllHandled(c, s);
    if polls != [] && s.handled != s.marked {
      assert polls[0] in polls;
      CompletionKept(c, s, polls[0]);
      DrainHandlesAll(c, ProcessCompletion(c, s, polls[0]).0, polls[1..]);
    }
  }

  lemma AllHandled(c: Settings, s: Tx)
    requires Kept(c, s) && s.unread == 0
    ensures s.nic == [] <==> s.handled == s.marked
    ensures s.handled == s.marked ==> s.measured == s.sent
  {
  }

  lemma KeptNic(c: Settings, s: Tx)
    requires Kept(c, s)
    ensures |s.ring| == c.capacity > 0 && s.handled <= s.marked
    ensures !s.stopped ==> (s.nic != [] <==> s.handled < s.marked)
    ensures s.nic != [] && s.unread == 0 ==> s.nic[0] == s.handled
  {
  }

  /** The counters of the window have no part in what is kept. */
  lemma KeptCounters(c: Settings, s: Tx, r: Tx)
    requires Kept(c, s)
    requires r == s.(committed := r.committed, completed := r.completed, chunkInField := r.chunkInField,
                     completionInField := r.completionInField, stopped := r.stopped, ended := r.ended)
    requires s.stopped ==> r.stopped
    ensures Kept(c, r)
  {
    forall t | r.handled <= t < r.marked
      ensures SlotHolds(c, r, t)
    {
      assert SlotHolds(c, s, t);
    }
  }

  lemma CompletionPhaseKeeps(c: Settings, s: Tx, polls: seq<Poll>)
    requires c.Sized() && Kept(c, s) && Counted(c, s) && s.completionInField < c.Tracked() && !s.stopped
    ensures |s.ring| == c.capacity > 0
    ensures var r := CompletionPhase(c, s, polls);
      Kept(c, r) && Counted(c, r) && OnlyCompleted(s, r) && r.completionInField < c.Tracked()
  {
    hide Kept, Fetch;
    KeptNic(c, s);
    FetchKeeps(c, s, polls, FETCH_BUDGET);
    var fetched := Fetch(c, s, polls, FETCH_BUDGET);
    KeptCounters(c, fetched, CloseCompletedField(c, fetched));
  }

  /** What committing leaves alone. */
  predicate OnlyCommitted(s: Tx, r: Tx) {
    && r.committed == s.committed && r.completed == s.completed && r.completionInField == s.completionInField
    && r.handled == s.handled
  }

  predicate InWindow(c: Settings, s: Tx) {
    s.marked - s.handled <= c.fields * c.Tracked()
  }

  lemma OutstandingInWindow(c: Settings, s: Tx)
    requires c.Sized() && Counted(c, s)
    requires s.committed < s.completed + c.fields || (s.committed == s.completed + c.fields && s.chunkInField == 0)
    ensures InWindow(c, s) && s.marked - s.handled < c.capacity
  {
    hide Counted, Whole;
    OutstandingFits(c, s);
    WholeIsProduct(c.fields, c.Tracked());
  }

  lemma {:induction false} CommitChunksKeeps(c: Settings, s: Tx, answers: seq<Answer>)
    requires c.Sized() && Kept(c, s) && Counted(c, s) && s.chunkInField < c.chunks
    requires s.committed < s.completed + c.fields && !s.stopped
    ensures |s.ring| == c.capacity > 0
    ensures var r := CommitChunks(c, s, answers);
      && Kept(c, r) && OnlyCommitted(s, r) && InWindow(c, r)
      && (!r.stopped ==> Counted(c, r) && r.chunkInField > s.chunkInField)
    decreases |answers|
  {
    hide Kept, Whole, InWindow, Record;
    KeptNic(c, s);
    OutstandingInWindow(c, s);
    if answers == [] {
      KeptCounters(c, s, s.(stopped := true));
      SameWindow(c, s, s.(stopped := true));
    } else {
      var time := answers[0].time;
      match answers[0]
      case Failed(_) =>
        RecordKept(c, s, time);
        var q := Record(c, s, time);
        KeptCounters(c, q, q.(stopped := true));
        RecordOnly(c, s, time);
        SameWindow(c, s, q.(stopped := true));
      case Accepted(_, blocked) =>
        CommitKept(c, s, time);
        RecordOnly(c, s, time);
        var next := CommitChunk(c, s, time);
        OutstandingInWindow(c, next);
        if !blocked && next.chunkInField < c.chunks {
          CommitChunksKeeps(c, next, answers[1..]);
        }
    }
  }

  lemma RecordOnly(c: Settings, s: Tx, time: nat)
    requires |s.ring| == c.capacity > 0
    ensures Record(c, s, time) == s.(ring := Record(c, s, time).ring)
  {
  }

  lemma SameWindow(c: Settings, s: Tx, r: Tx)
    requires InWindow(c, s) && r.marked == s.marked && r.handled >= s.handled
    ensures InWindow(c, r)
  {
  }

  lemma CommitPhaseKeeps(c: Settings, s: Tx, answers: seq<Answer>)
    requires c.Sized() && Kept(c, s) && Counted(c, s) && !s.stopped
    requires s.chunkInField < c.chunks && s.completionInField < c.Tracked()
    requires s.committed < s.completed + c.fields
    ensures |s.ring| == c.capacity > 0
    ensures var r := CommitPhase(c, s, answers); Between(c, r) && InWindow(c, r)
  {
    hide Kept, Whole, InWindow, CommitChunks;
    KeptNic(c, s);
    FieldsFollowTokens(c, s);
    CommitChunksKeeps(c, s, answers);
    var done := CommitChunks(c, s, answers);
    var r := CloseCommittedField(c, done);
    KeptCounters(c, done, r);
    SameWindow(c, done, r);
    if !r.stopped && done.chunkInField == c.chunks {
      OneMoreWhole(s.committed, c.Tracked());
    }
  }

  lemma OneMoreWhole(n: nat, tracked: nat)
    ensures Whole(n + 1, tracked) == Whole(n, tracked) + tracked
  {
  }

  /** Between turns the unsigned subtraction does not wrap: it counts the fields in flight, at most the window. */
  lemma NoWrap(c: Settings, s: Tx)
    requires c.Sized() && Between(c, s) && !s.stopped
    ensures InFlight(s) == s.committed - s.completed && 0 <= InFlight(s) <= c.fields
    ensures PlaceToCommit(c, s) <==> s.committed < s.completed + c.fields
  {
  }

  lemma TurnKeeps(c: Settings, s: Tx, isTime: bool, polls: seq<Poll>, answers: seq<Answer>, last: bool)
    requires c.Sized() && Between(c, s) && !s.stopped && InWindow(c, s)
    ensures |s.ring| == c.capacity > 0
    ensures var r := DoTurn(c, s, isTime, polls, answers, last); Between(c, r) && InWindow(c, r)
  {
    hide Kept, Whole, InWindow, CompletionPhase, CommitPhase, InFlight;
    KeptNic(c, s);
    NoWrap(c, s);
    if isTime {
      CompletionPhaseKeeps(c, s, polls);
    }
    var fetched := if isTime then CompletionPhase(c, s, polls) else s;
    SameWindow(c, s, fetched);
    if !fetched.stopped && PlaceToCommit(c, s) {
      CommitPhaseKeeps(c, fetched, answers);
      var r := CommitPhase(c, fetched, answers);
      var done := r.(stopped := r.stopped || last);
      KeptCounters(c, r, done);
      SameWindow(c, r, done);
    } else {
      KeptNic(c, fetched);
      FieldsFollowTokens(c, fetched);
    }
  }

  lemma StepKeeps(c: Settings, s: Tx, step: Step)
    requires c.Sized() && Between(c, s) && InWindow(c, s)
    ensures |s.ring| == c.capacity > 0
    ensures Between(c, DoStep(c, s, step)) && InWindow(c, DoStep(c, s, step))
  {
    hide Kept, InWindow, DoTurn;
    KeptNic(c, s);
    match step
    case Turn(isTime, polls, answers, last) =>
      if !s.stopped {
        TurnKeeps(c, s, isTime, polls, answers, last);
      }
    case Drain(polls) =>
      if s.stopped {
        DrainKeeps(c, s, polls);
      }
  }

  lemma {:induction false} RunKeeps(c: Settings, ring: seq<nat>, steps: seq<Step>)
    requires c.Sized() && |ring| == c.capacity > 0
    ensures var s := DoSteps(c, Start(ring), steps); Between(c, s) && InWindow(c, s)
    decreases |steps|
  {
    hide Between, InWindow, DoStep;
    if steps == [] {
      StartBetween(c, ring);
    } else {
      RunKeeps(c, ring, steps[..|steps| - 1]);
      StepKeeps(c, DoSteps(c, Start(ring), steps[..|steps| - 1]), steps[|steps| - 1]);
    }
  }

  lemma StartBetween(c: Settings, ring: seq<nat>)
    requires c.Sized() && |ring| == c.capacity > 0
    ensures Between(c, Start(ring)) && InWindow(c, Start(ring))
  {
    assert c.fields * c.Tracked() >= 0;
  }

  /**
   Whatever the card accepts, refuses, reports and fails at and whenever the clock
   says so: every completion is measured against the time its own chunk was scheduled
   for, none is out of order unless one could not be read, and no more tokens are out
   than the tracked chunks of the fields in memory.
   */
  lemma RunMeasuresScheduled(c: Settings, ring: seq<nat>, steps: seq<Step>)
    requires c.Sized() && |ring| == c.capacity > 0
    ensures var s := DoSteps(c, Start(ring), steps);
      && s.handled <= s.marked == |s.sent| && s.measured == s.sent[..s.handled]
      && s.marked - s.handled <= c.fields * (c.chunks - 1)
      && (0 < s.disordered ==> 0 < s.unread)
      && (!s.stopped ==> 0 <= InFlight(s) == s.committed - s.completed <= c.fields)
  {
    hide Whole, DoSteps;
    RunKeeps(c, ring, steps);
    var s := DoSteps(c, Start(ring), steps);
    if !s.stopped {
      NoWrap(c, s);
    }
  }

  // ---- how large the ring must be ----------------------------------------------------------------

  /** No run measures a completion against another time than that of its own chunk. */
  ghost predicate AlwaysMeasuresScheduled(c: Settings)
    requires 0 < c.capacity
  {
    forall ring: seq<nat>, steps: seq<Step> :: |ring| == c.capacity ==> MeasuresScheduled(c, ring, steps)
  }

  predicate MeasuresScheduled(c: Settings, ring: seq<nat>, steps: seq<Step>)
    requires |ring| == c.capacity > 0
  {
    DoSteps(c, Start(ring), steps).measured <= DoSteps(c, Start(ring), steps).sent
  }

  /** Chunks that the card accepts at once, all scheduled at time 0. */
  function Zeros(n: nat): (r: seq<Answer>)
    ensures |r| == n && forall i :: 0 <= i < n ==> r[i] == Accepted(0, false)
  {
    seq(n, _ => Accepted(0, false))
  }

  /**
   Only the first token was scheduled at time 1; nothing is completed, and whatever
   came round the ring put 0 in its slot.
   */
  ghost predicate Filling(c: Settings, s: Tx) {
    && |s.ring| == c.capacity > 0 && !s.stopped
    && s.handled == s.completed == s.completionInField == 0 && s.measured == []
    && s.marked > 0 && s.nic == Tokens(0, s.marked) && |s.sent| == s.marked && s.sent[0] == 1
    && (s.marked > c.capacity ==> s.ring[0] == 0)
  }

  lemma ZeroChunkFills(c: Settings, s: Tx)
    requires Filling(c, s)
    ensures var r := CommitChunk(c, s, 0);
      && Filling(c, r) && r.chunkInField == s.chunkInField + 1 && r.committed == s.committed
      && r.marked == (if s.chunkInField < c.Tracked() then s.marked + 1 else s.marked)
      && (s.marked >= c.capacity ==> r.ring[0] == 0)
  {
    hide Wrap;
    WrapTurn(0, c.capacity);
    WrapSmall(0, c.capacity);
    var r := CommitChunk(c, s, 0);
    assert r.ring == s.ring[Wrap(s.marked, c.capacity) := 0];
  }

  /** The rest of a field, committed to its end. */
  lemma {:induction false} ZerosFill(c: Settings, s: Tx, n: nat)
    requires Filling(c, s) && 2 <= c.chunks && 0 < n && s.chunkInField + n == c.chunks
    ensures var r := CommitChunks(c, s, Zeros(n));
      && Filling(c, r) && r.chunkInField == c.chunks && r.committed == s.committed
      && r.marked == s.marked + c.Tracked() - s.chunkInField
      && (r.marked >= c.capacity ==> r.ring[0] == 0)
    decreases n
  {
    hide CommitChunk, Filling;
    assert |s.ring| == c.capacity > 0 by {
      FillingRing(c, s);
    }
    ZeroChunkFills(c, s);
    assert Zeros(n)[1..] == Zeros(n - 1);
    if n > 1 {
      ZerosFill(c, CommitChunk(c, s, 0), n - 1);
    }
  }

  lemma FillingRing(c: Settings, s: Tx)
    requires Filling(c, s)
    ensures |s.ring| == c.capacity > 0
  {
  }

  /** The turns that fill the memory: a whole field each, the very first chunk at time 1. */
  function FillSteps(c: Settings, n: nat): (r: seq<Step>)
    requires 2 <= c.chunks
    ensures |r| == n
  {
    if n == 0 then []
    else if n == 1 then [Turn(false, [], [Accepted(1, false)] + Zeros(c.Tracked()), false)]
    else FillSteps(c, n - 1) + [Turn(false, [], Zeros(c.chunks), false)]
  }

  lemma FirstChunkFills(c: Settings, ring: seq<nat>)
    requires 2 <= c.chunks && |ring| == c.capacity > 0
    ensures var s := CommitChunk(c, Start(ring), 1);
      Filling(c, s) && s.chunkInField == 1 && s.committed == 0 && s.marked == 1
  {
    assert [] + [0] == Tokens(0, 1);
  }

  lemma {:induction false} FieldsFill(c: Settings, ring: seq<nat>, n: nat)
    requires 2 <= c.chunks && |ring| == c.capacity > 0 && 0 < n <= c.fields
    ensures var s := DoSteps(c, Start(ring), FillSteps(c, n));
      && Filling(c, s) && s.chunkInField == 0 && s.committed == n && s.marked == Whole(n, c.Tracked())
      && (s.marked >= c.capacity ==> s.ring[0] == 0)
    decreases n
  {
    hide DoStep, Filling, Whole;
    var steps := FillSteps(c, n);
    if n == 1 {
      FirstFieldFills(c, ring);
      assert steps[..0] == [];
    } else {
      assert steps[..n - 1] == FillSteps(c, n - 1);
      FieldsFill(c, ring, n - 1);
      NextFieldFills(c, DoSteps(c, Start(ring), FillSteps(c, n - 1)));
    }
  }

  /** The first field. */
  lemma FirstFieldFills(c: Settings, ring: seq<nat>)
    requires 2 <= c.chunks && |ring| == c.capacity > 0 && 0 < c.fields
    ensures var s := DoStep(c, Start(ring), Turn(false, [], [Accepted(1, false)] + Zeros(c.Tracked()), false));
      && Filling(c, s) && s.chunkInField == 0 && s.committed == 1 && s.marked == Whole(1, c.Tracked())
      && (s.marked >= c.capacity ==> s.ring[0] == 0)
  {
    hide CommitChunk, CommitChunks, Filling, DoStep;
    var answers := [Accepted(1, false)] + Zeros(c.Tracked());
    assert answers[1..] == Zeros(c.Tracked());
    FirstChunkFills(c, ring);
    ZerosFill(c, CommitChunk(c, Start(ring), 1), c.Tracked());
    FirstAnswer(c, Start(ring), answers);
    FieldCloses(c, Start(ring), answers);
    OneMoreWhole(0, c.Tracked());
  }

  /** One more field. */
  lemma NextFieldFills(c: Settings, s: Tx)
    requires 2 <= c.chunks && Filling(c, s) && s.chunkInField == 0 && s.committed < c.fields
    requires s.marked == Whole(s.committed, c.Tracked())
    ensures |s.ring| == c.capacity > 0
    ensures var r := DoStep(c, s, Turn(false, [], Zeros(c.chunks), false));
      && Filling(c, r) && r.chunkInField == 0 && r.committed == s.committed + 1
      && r.marked == Whole(r.committed, c.Tracked())
      && (r.marked >= c.capacity ==> r.ring[0] == 0)
  {
    hide CommitChunk, CommitChunks, Filling, DoStep;
    FillingPlace(c, s);
    ZerosFill(c, s, c.chunks);
    FieldCloses(c, s, Zeros(c.chunks));
    OneMoreWhole(s.committed, c.Tracked());
  }

  lemma FirstAnswer(c: Settings, s: Tx, answers: seq<Answer>)
    requires |s.ring| == c.capacity > 0 && answers != [] && answers[0] == Accepted(1, false)
    requires CommitChunk(c, s, 1).chunkInField < c.chunks
    ensures CommitChunks(c, s, answers) == CommitChunks(c, CommitChunk(c, s, 1), answers[1..])
  {
    hide CommitChunk;
  }

  lemma FillingPlace(c: Settings, s: Tx)
    requires Filling(c, s)
    ensures s.completed == 0 && !s.stopped && |s.ring| == c.capacity > 0
  {
  }

  /** A turn that commits a field to its end closes it. */
  lemma FieldCloses(c: Settings, s: Tx, answers: seq<Answer>)
    requires |s.ring| == c.capacity > 0 && !s.stopped && s.completed == 0 && s.committed < c.fields
    requires var r := CommitChunks(c, s, answers);
      Filling(c, r) && r.chunkInField == c.chunks && r.committed == s.committed
    ensures var r, t := CommitChunks(c, s, answers), DoStep(c, s, Turn(false, [], answers, false));
      && Filling(c, t) && t.chunkInField == 0 && t.committed == s.committed + 1
      && t.marked == r.marked && t.ring == r.ring
  {
    hide CommitChunks;
  }

  /**
   The exact size: every run measures every completion against its own chunk's
   time if and only if the ring has more slots than there are tracked chunks in memory.
   */
  lemma RingSufficesIff(c: Settings)
    requires 2 <= c.chunks && 0 < c.fields && 0 < c.capacity
    ensures AlwaysMeasuresScheduled(c) <==> c.fields * (c.chunks - 1) < c.capacity
  {
    hide DoSteps, Whole;
    if c.Sized() {
      forall ring: seq<nat>, steps: seq<Step> | |ring| == c.capacity
        ensures MeasuresScheduled(c, ring, steps)
      {
        RunMeasuresScheduled(c, ring, steps);
      }
    } else {
      var ring: seq<nat> := seq(c.capacity, _ => 0);
      WrongTime(c, ring);
      assert !MeasuresScheduled(c, ring, FillSteps(c, c.fields) + [Turn(true, [Reported], [], false)]);
    }
  }

  lemma WrongTime(c: Settings, ring: seq<nat>)
    requires 2 <= c.chunks && 0 < c.fields && |ring| == c.capacity > 0 && !c.Sized()
    ensures !MeasuresScheduled(c, ring, FillSteps(c, c.fields) + [Turn(true, [Reported], [], false)])
  {
    hide Whole;
    var fill := FillSteps(c, c.fields);
    var steps := fill + [Turn(true, [Reported], [], false)];
    assert steps[..|steps| - 1] == fill;
    FieldsFill(c, ring, c.fields);
    WholeIsProduct(c.fields, c.Tracked());
    var s := DoSteps(c, Start(ring), fill);
    FirstMeasure(c, s);
  }

  lemma FirstMeasure(c: Settings, s: Tx)
    requires Filling(c, s) && s.committed == c.fields && s.chunkInField == 0 && 2 <= c.chunks && s.ring[0] == 0
    ensures var r := DoStep(c, s, Turn(true, [Reported], [], false));
      r.measured == [0] && |r.sent| > 0 && r.sent[0] == 1
  {
    var done := ProcessCompletion(c, s, Reported).0;
    var next := done.(completionInField := 1);
    assert Fetch(c, next, [], FETCH_BUDGET - 1) == next;
    assert [Reported][1..] == [];
    assert Fetch(c, s, [Reported], FETCH_BUDGET) == next;
  }
}
