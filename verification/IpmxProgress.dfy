/**
 Progress of the IPMX sender: exactly which steps of a run succeed, and that from
 every moment of every run each sender can finish any number of further fields, as
 long as nothing fails.
 */
module IpmxProgress {
  import opened IpmxModel
  import opened IpmxProtocol
  import opened IpmxRuns

  // ---- which steps succeed ---------------------------------------------------------------

  /** A poll that finds nothing, or a completion that can be read. */
  predicate Harmless(p: PollAnswer) {
    p.poll.NoCompletion? || (p.poll.Success? && p.info)
  }

  predicate Reported(a: ReportAnswer) {
    a.buffer.Success? && a.layout.Success?
  }

  /** The chunk is the first or the last of its field. */
  predicate Marks(shape: Shape, s: Sender) {
    s.chunkInField == 0 || s.chunkInField + 1 == shape.chunks
  }

  /**
   Nothing fails of what the step asks for: a report its buffer and layout, a poll an
   answer if any is due, a chunk its buffer unless it was refused before, and its
   tracking if it marks its field's begin or end.
   */
  predicate Served(shape: Shape, n: Node, step: Step)
    requires Names(n, step)
  {
    match step
    case Greet(_, a) => Reported(a)
    case CheckReport(p) => n.pendingReports > 0 ==> Harmless(p)
    case TrackMedia(_, p, a) => Harmless(p) && (p.poll.Success? && p.token != LAST_CHUNK_TOKEN ==> Reported(a))
    case CommitMedia(i, a) =>
      var s := n.senders[i];
      s.committedFields - s.finishedFields < shape.fields ==>
        && (s.pending || a.chunk.Success?)
        && (Marks(shape, s) ==> a.marked)
        && (a.commit.Success? || a.commit.QueueFull?)
  }

  /** A step succeeds exactly if what it asks for does not fail. */
  lemma StepSucceedsIff(shape: Shape, n: Node, w: World, step: Step)
    requires ProtocolInv(shape, n, w) && Legal(n, w, step) && CountersFit(n)
    ensures DoStep(shape, n, step).status.Success? <==> Served(shape, n, step)
  {
    match step
    case Greet(i, a) =>
    case CheckReport(p) =>
      if p.poll.Success? {
        ReportIsSolicited(n, w, p);
      }
    case TrackMedia(i, p, a) =>
      if p.poll.Success? {
        assert SenderInv(shape, n.senders[i], w.cards[i]);
        ReturnedTokenIsDue(shape, n.senders[i], w.cards[i]);
      }
    case CommitMedia(i, a) =>
  }

  /** The first answer of the step that fails, in the order in which they are looked at. */
  function Failing(shape: Shape, n: Node, step: Step): Status
    requires Names(n, step)
  {
    match step
    case Greet(_, a) => if a.buffer.Success? then a.layout else a.buffer
    case CheckReport(p) => if p.poll.Success? then Failure(Device) else p.poll
    case TrackMedia(_, p, a) =>
      if Harmless(p) then (if a.buffer.Success? then a.layout else a.buffer)
      else if p.poll.Success? then Failure(Device) else p.poll
    case CommitMedia(i, a) =>
      if !n.senders[i].pending && !a.chunk.Success? then a.chunk
      else if Marks(shape, n.senders[i]) && !a.marked then Failure(Device) else a.commit
  }

  /** A step that fails fails with what the card or the buffer answered. */
  lemma StepFailsWith(shape: Shape, n: Node, w: World, step: Step)
    requires ProtocolInv(shape, n, w) && Legal(n, w, step) && CountersFit(n) && !Served(shape, n, step)
    ensures DoStep(shape, n, step).status == Failing(shape, n, step)
  {
    match step
    case Greet(i, a) =>
    case CheckReport(p) =>
      if p.poll.Success? {
        ReportIsSolicited(n, w, p);
      }
    case TrackMedia(i, p, a) =>
      if p.poll.Success? {
        assert SenderInv(shape, n.senders[i], w.cards[i]);
        ReturnedTokenIsDue(shape, n.senders[i], w.cards[i]);
      }
    case CommitMedia(i, a) =>
  }

  /** So it is at every moment of every run: nothing but a failing answer ends the loop. */
  lemma NextStepSucceedsIff(shape: Shape, senders: nat, run: seq<Machine>, steps: seq<Step>, k: nat, next: Step)
    requires IsRun(shape, senders, run, steps) && k <= |steps| && 2 <= shape.chunks
    requires Legal(run[k].node, run[k].world, next)
    ensures DoStep(shape, run[k].node, next).status.Success? <==> Served(shape, run[k].node, next)
  {
    hide ProtocolInv, DoStep, React, Served, Legal;
    RunKeepsInv(shape, senders, run, steps, k);
    RunBoundsFields(shape, senders, run, steps, k);
    StepSucceedsIff(shape, run[k].node, run[k].world, next);
  }

  /** A completed report is taken off its sender and off the shared count, and changes nothing else. */
  lemma ReportCompletes(shape: Shape, n: Node, w: World, p: PollAnswer)
    requires ProtocolInv(shape, n, w) && Legal(n, w, CheckReport(p)) && p.poll.Success? && p.info
    ensures var r := DoStep(shape, n, CheckReport(p)).node;
      && p.token < |n.senders| == |r.senders| && r.pendingReports == n.pendingReports - 1
      && r.senders[p.token] == n.senders[p.token].(finishedReports := n.senders[p.token].finishedReports + 1)
      && forall j :: 0 <= j < |n.senders| && j != p.token ==> r.senders[j] == n.senders[j]
  {
    hide Outstanding, SenderInv;
    ReportIsSolicited(n, w, p);
    NothingPending(n, w, p.token);
  }

  /** With an outstanding report of some sender the shared handler has something to wait for. */
  lemma NothingPending(n: Node, w: World, i: nat)
    requires ReportsShared(n, w) && i < |n.senders|
    requires n.senders[i].finishedReports < n.senders[i].committedReports
    ensures n.pendingReports > 0
  {
    hide Outstanding;
    forall j | 0 <= j < |n.senders|
      ensures n.senders[j].finishedReports <= n.senders[j].committedReports
    {
      assert Count(w.reports, j) >= 0;
    }
    OutstandingIsPositive(n.senders, i);
  }

  lemma {:induction false} OutstandingIsPositive(senders: seq<Sender>, i: nat)
    requires forall j :: 0 <= j < |senders| ==> senders[j].finishedReports <= senders[j].committedReports
    ensures Outstanding(senders) >= 0
    ensures i < |senders| && senders[i].finishedReports < senders[i].committedReports ==> Outstanding(senders) > 0
    decreases |senders|
  {
    if senders != [] {
      OutstandingIsPositive(senders[..|senders| - 1], i);
    }
  }

  /**
   A sender that was greeted may sleep exactly when its memory block is in flight and
   every report is completed, but for that of a field whose first chunk alone came back.
   */
  lemma SleepsIff(shape: Shape, senders: nat, run: seq<Machine>, steps: seq<Step>, k: nat, i: nat)
    requires IsRun(shape, senders, run, steps) && k <= |steps| && 2 <= shape.chunks && i < senders
    ensures i < |run[k].node.senders| == |run[k].world.cards|
    ensures var s := run[k].node.senders[i];
      run[k].world.cards[i].greeted ==>
        (CanSleep(shape, s) <==>
          && s.committedFields - s.finishedFields == shape.fields
          && s.committedReports - s.finishedReports <= s.finishedFirst - s.finishedFields)
  {
    hide DoStep, React, ReportsShared, SentOnce, Tokens;
    RunKeepsInv(shape, senders, run, steps, k);
    RunBoundsFields(shape, senders, run, steps, k);
    assert SenderInv(shape, run[k].node.senders[i], run[k].world.cards[i]);
  }

  // ---- the loop goes on ----------------------------------------------------------------------

  /** Nothing fails: polls find nothing or a completion that can be read, chunks and reports are accepted. */
  predicate Good(step: Step) {
    match step
    case Greet(_, a) => Reported(a)
    case CheckReport(p) => Harmless(p)
    case TrackMedia(_, p, a) => Harmless(p) && Reported(a)
    case CommitMedia(_, a) => a == AGREED
  }

  predicate AllGood(steps: seq<Step>) {
    forall step :: step in steps ==> Good(step)
  }

  /**
   How far a sender is: whole finished fields, and of the field after them the
   chunks sent and whether its first chunk came back.
   */
  function Done(shape: Shape, s: Sender): int {
    Fields(s.finishedFields, shape.chunks) + s.finishedFirst - s.finishedFields
    + (if s.committedFields > s.finishedFields then shape.chunks else s.chunkInField)
  }

  function Fields(n: nat, chunks: nat): nat {
    n * (chunks + 2)
  }

  lemma OneMoreField(n: nat, chunks: nat)
    ensures Fields(n + 1, chunks) == Fields(n, chunks) + chunks + 2
  {
  }

  /** A machine in some run, with no sender past a bound. */
  ghost predicate Sound(shape: Shape, m: Machine, bound: nat) {
    ProtocolInv(shape, m.node, m.world) && FieldsBounded(m.node, bound) && 2 <= shape.chunks
  }

  /** No sender is less far, and the first `n` are further. */
  predicate Further(shape: Shape, before: Node, after: Node, n: nat, more: nat) {
    && |before.senders| == |after.senders|
    && forall j :: 0 <= j < |before.senders| ==>
         Done(shape, after.senders[j]) >= Done(shape, before.senders[j]) + (if j < n then more else 0)
  }

  /** Good steps from `m` to `last`. */
  ghost predicate Goes(shape: Shape, m: Machine, steps: seq<Step>, last: Machine, bound: nat) {
    Reaches(shape, m, steps, last) && AllGood(steps) && Sound(shape, last, bound + |steps|)
  }

  lemma {:induction false} ReachesJoin(shape: Shape, m: Machine, a: seq<Step>, mid: Machine, b: seq<Step>,
                                       last: Machine)
    requires Reaches(shape, m, a, mid) && Reaches(shape, mid, b, last)
    ensures Reaches(shape, m, a + b, last)
    decreases |a|
  {
    hide Moves;
    if a == [] {
      assert a + b == b;
    } else {
      var next :| Moves(shape, m, a[0], next) && Reaches(shape, next, a[1..], mid);
      ReachesJoin(shape, next, a[1..], mid, b, last);
      assert (a + b)[1..] == a[1..] + b;
    }
  }

  lemma GoesJoin(shape: Shape, m: Machine, a: seq<Step>, mid: Machine, b: seq<Step>, last: Machine, bound: nat)
    requires Goes(shape, m, a, mid, bound) && Goes(shape, mid, b, last, bound + |a|)
    ensures Goes(shape, m, a + b, last, bound)
  {
    hide Reaches, Good, Sound;
    ReachesJoin(shape, m, a, mid, b, last);
  }

  lemma GoesNowhere(shape: Shape, m: Machine, bound: nat)
    requires Sound(shape, m, bound)
    ensures Goes(shape, m, [], m, bound) && Further(shape, m.node, m.node, 0, 0)
  {
    hide ProtocolInv;
  }

  /** A good step that the card allows succeeds. */
  lemma GoodStep(shape: Shape, m: Machine, step: Step, bound: nat) returns (next: Machine)
    requires Sound(shape, m, bound) && bound <= LAST_CHUNK_TOKEN && Legal(m.node, m.world, step) && Good(step)
    ensures Goes(shape, m, [step], next, bound) && Moves(shape, m, step, next)
    ensures |next.node.senders| == |next.world.cards| == |m.node.senders|
  {
    hide ProtocolInv;
    StepSucceedsIff(shape, m.node, m.world, step);
    StepKeepsInv(shape, m.node, m.world, step);
    StepBoundsFields(shape, m.node, step, bound);
    next := Machine(DoStep(shape, m.node, step).node, React(shape, m.node, m.world, step));
    assert [step][1..] == [];
    assert Reaches(shape, next, [], next);
  }

  /** What the invariant says of one sender's counters. */
  lemma InvSender(shape: Shape, m: Machine, i: nat)
    requires ProtocolInv(shape, m.node, m.world) && i < |m.node.senders|
    ensures |m.world.cards| == |m.node.senders| && shape.Valid()
    ensures var s, card := m.node.senders[i], m.world.cards[i];
      && s.chunkInField < shape.chunks && 0 <= s.finishedFirst - s.finishedFields <= 1
      && s.finishedFields <= s.committedFields
      && (s.finishedFirst > s.finishedFields ==> s.committedFields > s.finishedFields || s.chunkInField > 0)
      && (card.queue == [] ==> s.committedFields == s.finishedFields)
      && (card.queue != [] ==>
            (card.queue[0] == TokenAt(Returned(s)) && Returned(s) < Marked(s)))
      && s.committedFirst == s.committedFields + InProgress(s)
  {
    hide SentOnce, ReportsShared;
    assert SenderInv(shape, m.node.senders[i], m.world.cards[i]);
  }

  /** The report handler's step moves no sender. */
  lemma CheckStep(shape: Shape, m: Machine, bound: nat) returns (p: PollAnswer, next: Machine)
    requires Sound(shape, m, bound) && bound <= LAST_CHUNK_TOKEN
    ensures Goes(shape, m, [CheckReport(p)], next, bound) && Further(shape, m.node, next.node, 0, 0)
  {
    hide Goes, Sound, Reaches, Done, React, DoStep, CheckReports;
    SoundSenders(shape, m, bound);
    p := if m.world.reports == [] then PollAnswer(NoCompletion, false, 0)
         else PollAnswer(Success, true, m.world.reports[0]);
    next := GoodStep(shape, m, CheckReport(p), bound);
    forall j | 0 <= j < |m.node.senders|
      ensures Done(shape, next.node.senders[j]) == Done(shape, m.node.senders[j])
    {
      CheckMovesNone(shape, m.node, p, j);
    }
  }

  lemma CheckMovesNone(shape: Shape, n: Node, p: PollAnswer, j: nat)
    requires j < |n.senders|
    ensures Done(shape, DoStep(shape, n, CheckReport(p)).node.senders[j]) == Done(shape, n.senders[j])
  {
    hide Fields;
  }

  lemma SoundSenders(shape: Shape, m: Machine, bound: nat)
    requires Sound(shape, m, bound)
    ensures |m.node.senders| == |m.world.cards|
  {
  }

  /** A token that came back is one step done. */
  lemma ReturnIsDone(shape: Shape, s: Sender, pending: nat, token: nat)
    requires token == (if s.finishedFirst == s.finishedFields then s.finishedFirst else LAST_CHUNK_TOKEN)
    requires 0 <= s.finishedFirst - s.finishedFields <= 1 && s.finishedFirst < LAST_CHUNK_TOKEN
    requires s.finishedFirst > s.finishedFields ==> s.committedFields > s.finishedFields
    requires s.finishedFields <= s.committedFields && s.chunkInField < shape.chunks
    ensures Done(shape, Track(s, pending, PollAnswer(Success, true, token), REPORTED).sender) >= Done(shape, s) + 1
  {
    hide Fields;
    OneMoreField(s.finishedFields, shape.chunks);
  }

  /** So is a chunk that goes out, unless a whole field is out already. */
  lemma ChunkIsDone(shape: Shape, s: Sender)
    requires shape.Valid() && s.chunkInField < shape.chunks && s.finishedFields <= s.committedFields
    ensures var t := CommitChunk(shape, s, AGREED).sender;
      && t.finishedFields == s.finishedFields && t.finishedFirst == s.finishedFirst
      && Done(shape, t) >= Done(shape, s) + (if s.committedFields == s.finishedFields then 1 else 0)
  {
    hide Fields;
  }

  /** The card hands back a sender's oldest token, if it has one. */
  lemma TrackStep(shape: Shape, m: Machine, i: nat, bound: nat) returns (t: Turn, next: Machine)
    requires Sound(shape, m, bound) && bound < LAST_CHUNK_TOKEN && i < |m.node.senders| == |m.world.cards|
    ensures t.report == REPORTED && t.commit == AGREED
    ensures Goes(shape, m, [TrackMedia(i, t.poll, t.report)], next, bound)
    ensures Further(shape, m.node, next.node, 0, 0)
    ensures m.world.cards[i].queue != [] ==> Done(shape, next.node.senders[i]) >= Done(shape, m.node.senders[i]) + 1
    ensures m.world.cards[i].queue == [] ==> next.node.senders[i].committedFields == next.node.senders[i].finishedFields
  {
    hide ProtocolInv, Goes, Done, Marked, Returned;
    var queue := m.world.cards[i].queue;
    InvSender(shape, m, i);
    var p := if queue == [] then PollAnswer(NoCompletion, false, 0) else PollAnswer(Success, true, queue[0]);
    t := Turn(p, REPORTED, AGREED);
    next := GoodStep(shape, m, TrackMedia(i, t.poll, t.report), bound);
    if queue != [] {
      DueToken(m.node.senders[i], queue[0]);
      ReturnIsDone(shape, m.node.senders[i], m.node.pendingReports, queue[0]);
    }
  }

  lemma DueToken(s: Sender, token: nat)
    requires token == TokenAt(Returned(s)) && 0 <= s.finishedFirst - s.finishedFields <= 1
    requires Returned(s) < Marked(s) && s.committedFirst == s.committedFields + InProgress(s)
    ensures token == if s.finishedFirst == s.finishedFields then s.finishedFirst else LAST_CHUNK_TOKEN
    ensures s.finishedFirst > s.finishedFields ==> s.committedFields > s.finishedFields
    ensures s.finishedFirst <= s.committedFirst
  {
  }

  /** The card takes a sender's next chunk, if its memory block has room. */
  lemma CommitStep(shape: Shape, m: Machine, i: nat, bound: nat) returns (next: Machine)
    requires Sound(shape, m, bound) && bound <= LAST_CHUNK_TOKEN && i < |m.node.senders| == |m.world.cards|
    ensures Goes(shape, m, [CommitMedia(i, AGREED)], next, bound)
    ensures Further(shape, m.node, next.node, 0, 0)
    ensures m.node.senders[i].committedFields == m.node.senders[i].finishedFields ==>
              Done(shape, next.node.senders[i]) >= Done(shape, m.node.senders[i]) + 1
  {
    hide ProtocolInv, Goes, Done, Marked, Returned;
    InvSender(shape, m, i);
    next := GoodStep(shape, m, CommitMedia(i, AGREED), bound);
    ChunkIsDone(shape, m.node.senders[i]);
  }

  /** A sender's turn brings it further. */
  lemma OneTurn(shape: Shape, m: Machine, i: nat, bound: nat) returns (t: Turn, last: Machine)
    requires Sound(shape, m, bound) && bound + 1 < LAST_CHUNK_TOKEN && i < |m.node.senders|
    ensures Goes(shape, m, [TrackMedia(i, t.poll, t.report), CommitMedia(i, t.commit)], last, bound)
    ensures Further(shape, m.node, last.node, 0, 0)
    ensures Done(shape, last.node.senders[i]) >= Done(shape, m.node.senders[i]) + 1
  {
    hide Sound, Reaches, Done, Good;
    SoundSenders(shape, m, bound);
    var mid;
    t, mid := TrackStep(shape, m, i, bound);
    SoundSenders(shape, mid, bound + 1);
    last := CommitStep(shape, mid, i, bound + 1);
    GoesJoin(shape, m, [TrackMedia(i, t.poll, t.report)], mid, [CommitMedia(i, t.commit)], last, bound);
    assert [TrackMedia(i, t.poll, t.report)] + [CommitMedia(i, t.commit)]
        == [TrackMedia(i, t.poll, t.report), CommitMedia(i, t.commit)];
  }

  /** The first `n` turns of a pass. */
  lemma {:induction false} SomeTurns(shape: Shape, m: Machine, n: nat, bound: nat)
    returns (turns: seq<Turn>, last: Machine)
    requires Sound(shape, m, bound) && bound + 2 * n < LAST_CHUNK_TOKEN && n <= |m.node.senders|
    ensures |turns| == n && Goes(shape, m, TurnSteps(turns), last, bound) && Further(shape, m.node, last.node, n, 1)
    decreases n
  {
    hide Sound, Reaches, Done, Good, Goes;
    if n == 0 {
      turns, last := [], m;
      GoesNowhere(shape, m, bound);
    } else {
      var some, mid := SomeTurns(shape, m, n - 1, bound);
      GoesSound(shape, m, TurnSteps(some), mid, bound);
      var t;
      t, last := OneTurn(shape, mid, n - 1, bound + 2 * (n - 1));
      turns := some + [t];
      assert turns[..n - 1] == some;
      GoesJoin(shape, m, TurnSteps(some), mid, [TrackMedia(n - 1, t.poll, t.report), CommitMedia(n - 1, t.commit)],
               last, bound);
    }
  }

  lemma GoesSound(shape: Shape, m: Machine, steps: seq<Step>, last: Machine, bound: nat)
    requires Goes(shape, m, steps, last, bound)
    ensures Sound(shape, last, bound + |steps|) && Reaches(shape, m, steps, last) && AllGood(steps)
  {
    hide Sound, Reaches, Good;
  }

  /** What the card answers in one pass of the loop. */
  datatype Answers = Answers(check: PollAnswer, turns: seq<Turn>)

  /** The passes of the loop, one after another. */
  function PassSteps(passes: seq<Answers>): (steps: seq<Step>)
    decreases |passes|
  {
    if passes == [] then []
    else
      var m := |passes| - 1;
      PassSteps(passes[..m]) + LoopSteps(passes[m].check, passes[m].turns)
  }

  /** A pass of the loop brings every sender further. */
  lemma OnePass(shape: Shape, m: Machine, bound: nat) returns (a: Answers, last: Machine)
    requires Sound(shape, m, bound) && bound + 1 + 2 * |m.node.senders| < LAST_CHUNK_TOKEN
    ensures |a.turns| == |m.node.senders| && Goes(shape, m, LoopSteps(a.check, a.turns), last, bound)
    ensures |LoopSteps(a.check, a.turns)| == 1 + 2 * |m.node.senders|
    ensures Further(shape, m.node, last.node, |m.node.senders|, 1)
  {
    hide Sound, Reaches, Done, Good, Goes;
    var check, mid := CheckStep(shape, m, bound);
    GoesSound(shape, m, [CheckReport(check)], mid, bound);
    var turns;
    turns, last := SomeTurns(shape, mid, |m.node.senders|, bound + 1);
    a := Answers(check, turns);
    GoesJoin(shape, m, [CheckReport(check)], mid, TurnSteps(turns), last, bound);
  }

  lemma {:induction false} ManyPasses(shape: Shape, m: Machine, p: nat, bound: nat, each: nat)
    returns (passes: seq<Answers>, last: Machine)
    requires Sound(shape, m, bound) && each == 1 + 2 * |m.node.senders| && bound + p * each < LAST_CHUNK_TOKEN
    ensures |passes| == p && (forall a :: a in passes ==> |a.turns| == |m.node.senders|)
    ensures Goes(shape, m, PassSteps(passes), last, bound) && |PassSteps(passes)| == p * each
    ensures Further(shape, m.node, last.node, |m.node.senders|, p)
    decreases p
  {
    hide Sound, Reaches, Done, Good, Goes;
    if p == 0 {
      passes, last := [], m;
      GoesNowhere(shape, m, bound);
      assert 0 * each == 0;
    } else {
      assert p * each == (p - 1) * each + each;
      var some, mid := ManyPasses(shape, m, p - 1, bound, each);
      GoesSound(shape, m, PassSteps(some), mid, bound);
      var a;
      a, last := OnePass(shape, mid, bound + (p - 1) * each);
      passes := some + [a];
      assert passes[..p - 1] == some;
      GoesJoin(shape, m, PassSteps(some), mid, LoopSteps(a.check, a.turns), last, bound);
    }
  }

  /** As far as `k` fields more is `k` fields more. */
  lemma FieldsDone(shape: Shape, m: Machine, last: Machine, k: nat, i: nat)
    requires ProtocolInv(shape, m.node, m.world) && ProtocolInv(shape, last.node, last.world)
    requires i < |m.node.senders| == |last.node.senders|
    requires Done(shape, last.node.senders[i]) >= Done(shape, m.node.senders[i]) + Fields(k, shape.chunks)
    ensures last.node.senders[i].finishedFields >= m.node.senders[i].finishedFields + k
  {
    hide ProtocolInv, Fields;
    InvSender(shape, m, i);
    InvSender(shape, last, i);
    var v, w := m.node.senders[i].finishedFields, last.node.senders[i].finishedFields;
    if w < v + k {
      FieldsMonotone(w + 1, v + k, shape.chunks);
      OneMoreField(w, shape.chunks);
      FieldsAdd(v, k, shape.chunks);
    }
  }

  lemma FieldsMonotone(a: nat, b: nat, chunks: nat)
    requires a <= b
    ensures Fields(a, chunks) <= Fields(b, chunks)
  {
    assert (b - a) * (chunks + 2) >= 0;
  }

  lemma FieldsAdd(a: nat, b: nat, chunks: nat)
    ensures Fields(a + b, chunks) == Fields(a, chunks) + Fields(b, chunks)
  {
  }

  /**
   Progress: from every moment of every run, with answers none of which fails, as many passes of the
   node's loop as `k` fields have chunks, and two for each field, bring every sender to
   finish `k` further fields.  No run gets stuck, and from power-on any number of fields
   can be sent; runs are shorter than the all-ones token.
   */
  lemma LoopFinishesFields(shape: Shape, senders: nat, run: seq<Machine>, steps: seq<Step>, k: nat, p: nat)
    returns (longer: seq<Machine>, passes: seq<Answers>)
    requires IsRun(shape, senders, run, steps) && 2 <= shape.chunks && p == k * (shape.chunks + 2)
    requires |steps| + p * (1 + 2 * senders) < LAST_CHUNK_TOKEN
    ensures |passes| == p && (forall a :: a in passes ==> |a.turns| == senders) && AllGood(PassSteps(passes))
    ensures IsRun(shape, senders, longer, steps + PassSteps(passes)) && run <= longer
    ensures |longer| == |steps| + |PassSteps(passes)| + 1
    ensures forall i :: 0 <= i < senders ==>
              i < |run[|steps|].node.senders| == |longer[|longer| - 1].node.senders|
              && longer[|longer| - 1].node.senders[i].finishedFields
                 >= run[|steps|].node.senders[i].finishedFields + k
  {
    hide Reaches, Good, Moves, ProtocolInv, Done, PassSteps;
    var m := run[|steps|];
    RunKeepsInv(shape, senders, run, steps, |steps|);
    RunBoundsFields(shape, senders, run, steps, |steps|);
    var last;
    passes, last := ManyPasses(shape, m, p, |steps|, 1 + 2 * senders);
    longer := RunGoesOn(shape, senders, run, steps, PassSteps(passes), last);
    assert ProtocolInv(shape, last.node, last.world);
    forall i | 0 <= i < senders
      ensures last.node.senders[i].finishedFields >= m.node.senders[i].finishedFields + k
    {
      FieldsDone(shape, m, last, k, i);
    }
  }
}
