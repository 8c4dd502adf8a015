/**
 Runs of an IPMX node: any number of senders, any order of their steps and of
 the card's answers.  The node's own loop is one such order.
 */
module IpmxRuns {
  import opened IpmxModel
  import opened IpmxProtocol

  datatype Machine = Machine(node: Node, world: World)

  /** A step the card allows and that succeeds, from one machine state to the next. */
  predicate Moves(shape: Shape, m: Machine, step: Step, next: Machine) {
    && Legal(m.node, m.world, step)
    && DoStep(shape, m.node, step).status.Success?
    && next == Machine(DoStep(shape, m.node, step).node, React(shape, m.node, m.world, step))
  }

  /** A run from power-on, as the states it goes through. */
  ghost predicate IsRun(shape: Shape, senders: nat, run: seq<Machine>, steps: seq<Step>) {
    && shape.Valid() && |run| == |steps| + 1 && |steps| < 0x1_0000_0000_0000_0000
    && run[0] == Machine(StartNode(senders), StartWorld(senders))
    && (forall k :: 0 <= k < |steps| ==> Moves(shape, run[k], steps[k], run[k + 1]))
  }

  lemma {:induction false} NothingOutstanding(senders: nat)
    ensures Outstanding(StartNode(senders).senders) == 0
  {
    if senders > 0 {
      NothingOutstanding(senders - 1);
      assert StartNode(senders).senders[..senders - 1] == StartNode(senders - 1).senders;
    }
  }

  lemma StartKeepsInv(shape: Shape, senders: nat)
    requires shape.Valid()
    ensures ProtocolInv(shape, StartNode(senders), StartWorld(senders))
  {
    hide Outstanding, Count, SenderInv;
    NothingOutstanding(senders);
    NothingCounted();
    NewSenderInv(shape);
  }

  lemma NothingCounted()
    ensures forall i :: Count([], i) == 0
  {
  }

  lemma NewSenderInv(shape: Shape)
    requires shape.Valid()
    ensures SenderInv(shape, NEW_SENDER, NEW_CARD)
  {
    IdleSenderInv(shape, NEW_SENDER, NEW_CARD);
    hide SenderInv;
  }

  /** A sender that has done nothing agrees with a card that has seen nothing. */
  lemma IdleSenderInv(shape: Shape, s: Sender, card: Card)
    requires shape.Valid() && s == Sender(0, 0, 0, 0, 0, 0, 0, false) && card == Card([], 0, [], false)
    ensures SenderInv(shape, s, card)
  {
    hide TokensAgree, SentOnce;
    IdleTokens(shape, s, card);
    IdleSent(shape, s, card);
  }

  lemma IdleTokens(shape: Shape, s: Sender, card: Card)
    requires 0 < shape.chunks && s.committedFirst == s.committedFields == s.finishedFirst == s.finishedFields == 0
    requires s.chunkInField == 0 && card.queue == []
    ensures TokensAgree(shape, s, card)
  {
    hide Tokens;
    NoTokens();
  }

  lemma NoTokens()
    ensures Tokens(0, 0) == []
  {
    assert |Tokens(0, 0)| == 0;
  }

  lemma IdleSent(shape: Shape, s: Sender, card: Card)
    requires shape.Valid() && s == Sender(0, 0, 0, 0, 0, 0, 0, false) && card.prepared == 0 && card.sent == []
    ensures SentOnce(shape, s, card)
  {
    NoneTimes(shape.chunks);
  }

  lemma NoneTimes(n: nat)
    ensures 0 * n == 0
  {
  }

  /** No sender has begun more fields than `bound`. */
  predicate FieldsBounded(n: Node, bound: nat) {
    forall i :: 0 <= i < |n.senders| ==> n.senders[i].committedFirst <= bound
  }

  lemma StepBoundsFields(shape: Shape, n: Node, step: Step, bound: nat)
    requires Names(n, step) && FieldsBounded(n, bound)
    ensures FieldsBounded(DoStep(shape, n, step).node, bound + 1)
  {
  }

  lemma {:induction false} RunBoundsFields(shape: Shape, senders: nat, run: seq<Machine>, steps: seq<Step>, k: nat)
    requires IsRun(shape, senders, run, steps) && k <= |steps|
    ensures FieldsBounded(run[k].node, k) && |run[k].node.senders| == senders
    decreases k
  {
    hide DoStep, React;
    if k > 0 {
      RunBoundsFields(shape, senders, run, steps, k - 1);
      assert Moves(shape, run[k - 1], steps[k - 1], run[k]);
      StepBoundsFields(shape, run[k - 1].node, steps[k - 1], k - 1);
    }
  }

  /** The invariant holds at every moment of every run. */
  lemma {:induction false} RunKeepsInv(shape: Shape, senders: nat, run: seq<Machine>, steps: seq<Step>, k: nat)
    requires IsRun(shape, senders, run, steps) && k <= |steps| && 2 <= shape.chunks
    ensures ProtocolInv(shape, run[k].node, run[k].world)
    decreases k
  {
    hide ProtocolInv, DoStep, React;
    if k == 0 {
      StartKeepsInv(shape, senders);
    } else {
      RunKeepsInv(shape, senders, run, steps, k - 1);
      assert Moves(shape, run[k - 1], steps[k - 1], run[k]);
      RunBoundsFields(shape, senders, run, steps, k - 1);
      StepKeepsInv(shape, run[k - 1].node, run[k - 1].world, steps[k - 1]);
    }
  }

  /**
   The token protocol: first chunks and fields are committed and finished in
   step, and the next step, whatever the card answers, cannot find a completion
   out of order, a report unsolicited or a sender that is none.
   */
  lemma TokenProtocol(shape: Shape, senders: nat, run: seq<Machine>, steps: seq<Step>, k: nat, i: nat, next: Step)
    requires IsRun(shape, senders, run, steps) && k <= |steps| && 2 <= shape.chunks && i < senders
    requires Legal(run[k].node, run[k].world, next)
    ensures i < |run[k].node.senders|
    ensures var s := run[k].node.senders[i];
      && s.committedFirst == s.committedFields + (if s.chunkInField > 0 then 1 else 0)
      && 0 <= s.finishedFirst - s.finishedFields <= 1
    ensures OfDevice(DoStep(shape, run[k].node, next).status)
  {
    hide DoStep, React, ReportsShared, SentOnce, BuffersBounded, ReportsCounted, Tokens;
    RunKeepsInv(shape, senders, run, steps, k);
    RunBoundsFields(shape, senders, run, steps, k);
    assert SenderInv(shape, run[k].node.senders[i], run[k].world.cards[i]);
    StepFailsOnlyByDevice(shape, run[k].node, run[k].world, next);
  }

  /**
   Bounded buffers and exactly-once sending: the memory block never holds more
   fields than it has room for, and the chunks the card took are the prepared
   ones, each once and in order, with at most one refused chunk waiting.
   */
  lemma BoundedAndSentOnce(shape: Shape, senders: nat, run: seq<Machine>, steps: seq<Step>, k: nat, i: nat)
    requires IsRun(shape, senders, run, steps) && k <= |steps| && 2 <= shape.chunks && i < senders
    ensures i < |run[k].node.senders| == |run[k].world.cards|
    ensures var s, card := run[k].node.senders[i], run[k].world.cards[i];
      && s.committedFields + (if s.chunkInField > 0 then 1 else 0) - s.finishedFields <= shape.fields
      && card.sent == seq(s.committedFields * shape.chunks + s.chunkInField, j => j)
      && card.prepared == |card.sent| + (if s.pending then 1 else 0)
  {
    hide DoStep, React, ReportsShared, TokensAgree, ReportsCounted;
    RunKeepsInv(shape, senders, run, steps, k);
    RunBoundsFields(shape, senders, run, steps, k);
    assert SenderInv(shape, run[k].node.senders[i], run[k].world.cards[i]);
  }

  /**
   Reports: one for each finished first chunk besides the initial one, and the shared
   count is what is outstanding.
   */
  lemma ReportsAgree(shape: Shape, senders: nat, run: seq<Machine>, steps: seq<Step>, k: nat)
    requires IsRun(shape, senders, run, steps) && k <= |steps| && 2 <= shape.chunks
    ensures run[k].node.pendingReports == Outstanding(run[k].node.senders)
    ensures |run[k].node.senders| == |run[k].world.cards| == senders
    ensures forall i :: 0 <= i < senders && run[k].world.cards[i].greeted ==>
              run[k].node.senders[i].committedReports == run[k].node.senders[i].finishedFirst + 1
  {
    hide DoStep, React, TokensAgree, SentOnce, BuffersBounded, Count, Outstanding;
    RunKeepsInv(shape, senders, run, steps, k);
    RunBoundsFields(shape, senders, run, steps, k);
    forall i | 0 <= i < senders
      ensures ReportsCounted(run[k].node.senders[i], run[k].world.cards[i])
    {
      assert SenderInv(shape, run[k].node.senders[i], run[k].world.cards[i]);
    }
  }

  /**
   At every moment of every run a sender allowed to sleep has a whole block in
   flight, and the completion that frees a buffer is on its way.
   */
  lemma SleeperIsWoken(shape: Shape, senders: nat, run: seq<Machine>, steps: seq<Step>, k: nat, i: nat)
    requires IsRun(shape, senders, run, steps) && k <= |steps| && 2 <= shape.chunks && i < senders
    ensures i < |run[k].node.senders| == |run[k].world.cards|
    ensures var s, card := run[k].node.senders[i], run[k].world.cards[i];
      CanSleep(shape, s) ==>
        && s.committedFields - s.finishedFields == shape.fields && s.chunkInField == 0
        && LAST_CHUNK_TOKEN in card.queue
  {
    hide DoStep, React, ReportsShared, SenderInv;
    RunKeepsInv(shape, senders, run, steps, k);
    RunBoundsFields(shape, senders, run, steps, k);
    var s, card := run[k].node.senders[i], run[k].world.cards[i];
    if CanSleep(shape, s) {
      LastTokenIsOut(shape, s, card);
    }
  }

  lemma LastTokenIsOut(shape: Shape, s: Sender, card: Card)
    requires SenderInv(shape, s, card) && shape.Valid() && CanSleep(shape, s)
    ensures s.committedFields - s.finishedFields == shape.fields && s.chunkInField == 0
    ensures LAST_CHUNK_TOKEN in card.queue
  {
    hide SentOnce;
    var j := 2 * s.finishedFields + 1 - Returned(s);
    assert card.queue[j] == TokenAt(2 * s.finishedFields + 1);
  }

  // ---- the node's loop as a run ----------------------------------------------------------

  /** Some steps one after another, each allowed by the card and successful, and where they lead. */
  ghost predicate Reaches(shape: Shape, m: Machine, steps: seq<Step>, last: Machine)
    decreases |steps|
  {
    if steps == [] then last == m
    else exists next :: Moves(shape, m, steps[0], next) && Reaches(shape, next, steps[1..], last)
  }

  /** The card's answers for one sender's turn in the loop. */
  datatype Turn = Turn(poll: PollAnswer, report: ReportAnswer, commit: CommitAnswer)

  /** The steps of the senders' turns, in the order of the loop. */
  function TurnSteps(turns: seq<Turn>): (steps: seq<Step>)
    ensures |steps| == 2 * |turns|
    ensures forall step :: step in steps ==> !step.CheckReport? && step.id < |turns|
  {
    if turns == [] then []
    else
      var i := |turns| - 1;
      TurnSteps(turns[..i]) + [TrackMedia(i, turns[i].poll, turns[i].report), CommitMedia(i, turns[i].commit)]
  }

  /** One pass of the loop: the report handler, then every sender. */
  function LoopSteps(check: PollAnswer, turns: seq<Turn>): (steps: seq<Step>)
    ensures forall step :: step in steps ==> step.CheckReport? || step.id < |turns|
  {
    [CheckReport(check)] + TurnSteps(turns)
  }

  /** A run goes on with whatever steps succeed from its end. */
  lemma {:induction false} RunGoesOn(shape: Shape, senders: nat, run: seq<Machine>, steps: seq<Step>,
                                     more: seq<Step>, last: Machine) returns (longer: seq<Machine>)
    requires IsRun(shape, senders, run, steps) && |steps| + |more| <= LAST_CHUNK_TOKEN
    requires Reaches(shape, run[|steps|], more, last)
    ensures IsRun(shape, senders, longer, steps + more) && longer[|steps| + |more|] == last
    ensures run <= longer
    decreases |more|
  {
    hide Moves;
    if more == [] {
      assert steps + more == steps;
      longer := run;
    } else {
      var next :| Moves(shape, run[|steps|], more[0], next) && Reaches(shape, next, more[1..], last);
      RunSteps(shape, senders, run, steps, more[0], next);
      longer := RunGoesOn(shape, senders, run + [next], steps + [more[0]], more[1..], last);
      assert (steps + [more[0]]) + more[1..] == steps + more;
    }
  }

  lemma RunSteps(shape: Shape, senders: nat, run: seq<Machine>, steps: seq<Step>, step: Step, next: Machine)
    requires IsRun(shape, senders, run, steps) && |steps| < LAST_CHUNK_TOKEN
    requires Moves(shape, run[|steps|], step, next)
    ensures IsRun(shape, senders, run + [next], steps + [step])
  {
    hide Moves, StartNode, StartWorld;
    var r, t := run + [next], steps + [step];
    forall k | 0 <= k < |t|
      ensures Moves(shape, r[k], t[k], r[k + 1])
    {
      if k < |steps| {
        assert Moves(shape, run[k], steps[k], run[k + 1]);
      }
    }
  }

  /** The steps leave the node that doing them one after another leaves: `DoSteps`, as the loop does them. */
  lemma {:induction false} ReachesDoes(shape: Shape, m: Machine, steps: seq<Step>, last: Machine)
    requires Reaches(shape, m, steps, last)
    ensures forall step :: step in steps ==> Names(m.node, step)
    ensures DoSteps(shape, m.node, steps) == Effect(last.node, Success)
    decreases |steps|
  {
    hide DoStep, React;
    if steps != [] {
      var next :| Moves(shape, m, steps[0], next) && Reaches(shape, next, steps[1..], last);
      ReachesDoes(shape, next, steps[1..], last);
      MovesKeepsSenders(shape, m, steps[0], next);
      forall step | step in steps
        ensures Names(m.node, step)
      {
        assert step == steps[0] || step in steps[1..];
      }
      DoStepsFirst(shape, m.node, steps);
    }
  }

  lemma MovesKeepsSenders(shape: Shape, m: Machine, step: Step, next: Machine)
    requires Moves(shape, m, step, next)
    ensures Names(m.node, step) && |next.node.senders| == |m.node.senders|
    ensures DoStep(shape, m.node, step) == Effect(next.node, Success)
  {
    hide DoStep, React;
  }

  /** Doing the first step and then the others. */
  lemma {:induction false} DoStepsFirst(shape: Shape, n: Node, steps: seq<Step>)
    requires steps != [] && forall step :: step in steps ==> Names(n, step)
    requires DoStep(shape, n, steps[0]).status == Success
    ensures forall step :: step in steps[1..] ==> Names(DoStep(shape, n, steps[0]).node, step)
    ensures DoSteps(shape, n, steps) == DoSteps(shape, DoStep(shape, n, steps[0]).node, steps[1..])
    decreases |steps|
  {
    hide DoStep;
    var m := |steps| - 1;
    forall step | step in steps[1..]
      ensures Names(DoStep(shape, n, steps[0]).node, step)
    {
      assert step in steps;
    }
    if m == 0 {
      assert steps[..0] == [] && steps[1..] == [];
    } else {
      DoStepsFirst(shape, n, steps[..m]);
      assert steps[..m][1..] == steps[1..][..m - 1] && steps[1..][m - 1] == steps[m];
    }
  }

  // ---- fields of one chunk --------------------------------------------------------------

  /** With one chunk to a field its only token is the first chunk's, so no field ever finishes. */
  ghost predicate NeverFinishes(shape: Shape, s: Sender, card: Card) {
    && s.chunkInField == 0 && s.finishedFields == 0
    && s.committedFirst == s.committedFields <= shape.fields
    && s.finishedFirst <= s.committedFirst
    && |card.queue| == s.committedFirst - s.finishedFirst
    && (forall j :: 0 <= j < |card.queue| ==> card.queue[j] == s.finishedFirst + j)
    && (s.pending ==> 0 < card.prepared)
  }

  lemma NeverFinishesStep(shape: Shape, m: Machine, step: Step, next: Machine, i: nat)
    requires shape.Valid() && shape.chunks == 1 && Moves(shape, m, step, next) && i < |m.node.senders|
    requires CountersFit(m.node) && NeverFinishes(shape, m.node.senders[i], m.world.cards[i])
    ensures i < |next.node.senders| == |next.world.cards|
    ensures NeverFinishes(shape, next.node.senders[i], next.world.cards[i])
  {
    match step
    case Greet(j, _) => ReportingNeverFinishes(shape, m, step, next, i);
    case CheckReport(_) => ReportingNeverFinishes(shape, m, step, next, i);
    case TrackMedia(j, _, _) => TrackingNeverFinishes(shape, m, step, next, i);
    case CommitMedia(j, _) => CommittingNeverFinishes(shape, m, step, next, i);
  }

  lemma ReportingNeverFinishes(shape: Shape, m: Machine, step: Step, next: Machine, i: nat)
    requires (step.Greet? || step.CheckReport?) && Moves(shape, m, step, next) && i < |m.node.senders|
    requires NeverFinishes(shape, m.node.senders[i], m.world.cards[i])
    ensures i < |next.node.senders| == |next.world.cards|
    ensures NeverFinishes(shape, next.node.senders[i], next.world.cards[i])
  {
  }

  lemma TrackingNeverFinishes(shape: Shape, m: Machine, step: Step, next: Machine, i: nat)
    requires step.TrackMedia? && Moves(shape, m, step, next) && i < |m.node.senders|
    requires CountersFit(m.node) && NeverFinishes(shape, m.node.senders[i], m.world.cards[i])
    ensures i < |next.node.senders| == |next.world.cards|
    ensures NeverFinishes(shape, next.node.senders[i], next.world.cards[i])
  {
    if step.id == i && step.poll.poll.Success? {
      assert m.world.cards[i].queue[0] == m.node.senders[i].finishedFirst < LAST_CHUNK_TOKEN;
    }
  }

  lemma CommittingNeverFinishes(shape: Shape, m: Machine, step: Step, next: Machine, i: nat)
    requires shape.chunks == 1 && step.CommitMedia? && Moves(shape, m, step, next) && i < |m.node.senders|
    requires NeverFinishes(shape, m.node.senders[i], m.world.cards[i])
    ensures i < |next.node.senders| == |next.world.cards|
    ensures NeverFinishes(shape, next.node.senders[i], next.world.cards[i])
  {
  }

  lemma {:induction false} OneChunkStalls(shape: Shape, senders: nat, run: seq<Machine>, steps: seq<Step>,
                                          k: nat, i: nat)
    requires IsRun(shape, senders, run, steps) && k <= |steps| && shape.chunks == 1 && i < senders
    ensures i < |run[k].node.senders| == |run[k].world.cards|
    ensures NeverFinishes(shape, run[k].node.senders[i], run[k].world.cards[i])
    decreases k
  {
    hide DoStep, React, NeverFinishes;
    if k == 0 {
      assert NeverFinishes(shape, NEW_SENDER, NEW_CARD) by {
        StartNeverFinishes(shape);
      }
    } else {
      OneChunkStalls(shape, senders, run, steps, k - 1, i);
      RunBoundsFields(shape, senders, run, steps, k - 1);
      assert Moves(shape, run[k - 1], steps[k - 1], run[k]);
      NeverFinishesStep(shape, run[k - 1], steps[k - 1], run[k], i);
    }
  }

  lemma StartNeverFinishes(shape: Shape)
    ensures NeverFinishes(shape, NEW_SENDER, NEW_CARD)
  {
  }

  /**
   Finished first chunks of every sender stay within one of its finished fields, in
   every run of `senders` senders.
   */
  ghost predicate AlwaysWithinOne(shape: Shape, senders: nat) {
    forall run, steps :: IsRun(shape, senders, run, steps) ==> WithinOne(run)
  }

  predicate WithinOne(run: seq<Machine>) {
    run != [] && forall s :: s in run[|run| - 1].node.senders ==> 0 <= s.finishedFirst - s.finishedFields <= 1
  }

  const AGREED := CommitAnswer(Success, true, Success)
  const REPORTED := ReportAnswer(Success, Success, true)

  /** Two one-chunk fields of the first sender go out and come back. */
  function TwoFieldSteps(): seq<Step> {
    [CommitMedia(0, AGREED), CommitMedia(0, AGREED),
     TrackMedia(0, PollAnswer(Success, true, 0), REPORTED),
     TrackMedia(0, PollAnswer(Success, true, 1), REPORTED)]
  }

  /** A node whose first sender and card are these, and whose others have done nothing. */
  function FirstOf(senders: nat, s: Sender, pending: nat, card: Card, reports: seq<nat>): Machine
    requires 0 < senders
  {
    Machine(Node(StartNode(senders).senders[0 := s], pending), World(StartWorld(senders).cards[0 := card], reports))
  }

  function TwoFieldRun(senders: nat): seq<Machine>
    requires 0 < senders
  {
    [FirstOf(senders, NEW_SENDER, 0, NEW_CARD, []),
     FirstOf(senders, Sender(0, 0, 1, 0, 1, 0, 0, false), 0, Card([0], 1, [0], false), []),
     FirstOf(senders, Sender(0, 0, 2, 0, 2, 0, 0, false), 0, Card([0, 1], 2, [0, 1], false), []),
     FirstOf(senders, Sender(1, 0, 2, 1, 2, 0, 0, false), 1, Card([1], 2, [0, 1], false), [0]),
     FirstOf(senders, Sender(2, 0, 2, 2, 2, 0, 0, false), 2, Card([], 2, [0, 1], false), [0, 0])]
  }

  /** A chunk of the first sender that the card takes. */
  lemma FirstCommits(shape: Shape, senders: nat, s: Sender, t: Sender, card: Card, after: Card)
    requires shape.chunks == 1 && 0 < senders && HasFreeBuffer(shape, s)
    requires s.chunkInField == 0 && !s.pending
    requires t == s.(committedFirst := s.committedFirst + 1, committedFields := s.committedFields + 1)
    requires after == card.(queue := card.queue + [s.committedFirst], prepared := card.prepared + 1,
                            sent := card.sent + [card.prepared])
    ensures Moves(shape, FirstOf(senders, s, 0, card, []), CommitMedia(0, AGREED), FirstOf(senders, t, 0, after, []))
  {
  }

  /** The completion of a first chunk of the first sender, and its report. */
  lemma FirstTracks(shape: Shape, senders: nat, s: Sender, t: Sender, card: Card, after: Card, reports: seq<nat>)
    requires 0 < senders && card.queue != [] && card.queue[0] == s.finishedFirst < LAST_CHUNK_TOKEN
    requires t == s.(finishedFirst := s.finishedFirst + 1, committedReports := s.committedReports + 1)
    requires after == card.(queue := card.queue[1..])
    ensures Moves(shape, FirstOf(senders, s, |reports|, card, reports),
                  TrackMedia(0, PollAnswer(Success, true, s.finishedFirst), REPORTED),
                  FirstOf(senders, t, |reports| + 1, after, reports + [0]))
  {
  }

  /** The first two steps of that run ... */
  lemma TwoCommits(shape: Shape, senders: nat)
    requires shape.chunks == 1 && 2 <= shape.fields && 0 < senders
    ensures Moves(shape, TwoFieldRun(senders)[0], TwoFieldSteps()[0], TwoFieldRun(senders)[1])
    ensures Moves(shape, TwoFieldRun(senders)[1], TwoFieldSteps()[1], TwoFieldRun(senders)[2])
  {
    hide Moves, FirstOf;
    var s1, c1 := Sender(0, 0, 1, 0, 1, 0, 0, false), Card([0], 1, [0], false);
    assert [0] + [1] == [0, 1] && [] + [0] == [0];
    FirstCommits(shape, senders, NEW_SENDER, s1, NEW_CARD, c1);
    FirstCommits(shape, senders, s1, Sender(0, 0, 2, 0, 2, 0, 0, false), c1, Card([0, 1], 2, [0, 1], false));
  }

  /** ... and the last two. */
  lemma TwoTracks(shape: Shape, senders: nat)
    requires shape.chunks == 1 && 2 <= shape.fields && 0 < senders
    ensures Moves(shape, TwoFieldRun(senders)[2], TwoFieldSteps()[2], TwoFieldRun(senders)[3])
    ensures Moves(shape, TwoFieldRun(senders)[3], TwoFieldSteps()[3], TwoFieldRun(senders)[4])
  {
    hide Moves, FirstOf;
    var s3, c3 := Sender(1, 0, 2, 1, 2, 0, 0, false), Card([1], 2, [0, 1], false);
    assert [0, 1][1..] == [1] && [1][1..] == [] && [0] + [0] == [0, 0] && [] + [0] == [0];
    FirstTracks(shape, senders, Sender(0, 0, 2, 0, 2, 0, 0, false), s3, Card([0, 1], 2, [0, 1], false), c3, []);
    FirstTracks(shape, senders, s3, Sender(2, 0, 2, 2, 2, 0, 0, false), c3, Card([], 2, [0, 1], false), [0]);
  }

  lemma TwoFieldRunIsRun(shape: Shape, senders: nat)
    requires shape.chunks == 1 && 2 <= shape.fields && 0 < senders
    ensures IsRun(shape, senders, TwoFieldRun(senders), TwoFieldSteps())
  {
    hide Moves, FirstOf, IsRun;
    TwoCommits(shape, senders);
    TwoTracks(shape, senders);
    StartIsFirst(senders);
    MovesRun(shape, senders, TwoFieldRun(senders), TwoFieldSteps());
  }

  lemma StartIsFirst(senders: nat)
    requires 0 < senders
    ensures FirstOf(senders, NEW_SENDER, 0, NEW_CARD, []) == Machine(StartNode(senders), StartWorld(senders))
  {
    assert StartNode(senders).senders[0 := NEW_SENDER] == StartNode(senders).senders;
    assert StartWorld(senders).cards[0 := NEW_CARD] == StartWorld(senders).cards;
  }

  /** Four moves make a run. */
  lemma MovesRun(shape: Shape, senders: nat, run: seq<Machine>, steps: seq<Step>)
    requires shape.Valid() && |run| == 5 && |steps| == 4
    requires run[0] == Machine(StartNode(senders), StartWorld(senders))
    requires Moves(shape, run[0], steps[0], run[1]) && Moves(shape, run[1], steps[1], run[2])
    requires Moves(shape, run[2], steps[2], run[3]) && Moves(shape, run[3], steps[3], run[4])
    ensures IsRun(shape, senders, run, steps)
  {
    hide Moves;
  }

  /** The counters of all senders stay in step exactly when a field has two chunks or the block one field. */
  lemma WithinOneIff(shape: Shape, senders: nat)
    requires shape.Valid() && 0 < senders
    ensures AlwaysWithinOne(shape, senders) <==> 2 <= shape.chunks || shape.fields == 1
  {
    hide IsRun, WithinOne, TwoFieldRun, TwoFieldSteps;
    if 2 <= shape.chunks || shape.fields == 1 {
      forall run, steps | IsRun(shape, senders, run, steps)
        ensures WithinOne(run)
      {
        LastWithinOne(shape, senders, run, steps);
      }
    } else {
      TwoFieldRunIsRun(shape, senders);
      TwoFieldRunStrays(senders);
    }
  }

  lemma TwoFieldRunStrays(senders: nat)
    requires 0 < senders
    ensures !WithinOne(TwoFieldRun(senders))
  {
    var last := TwoFieldRun(senders)[4];
    assert last.node.senders[0] == Sender(2, 0, 2, 2, 2, 0, 0, false);
    assert last.node.senders[0] in last.node.senders;
  }

  lemma LastWithinOne(shape: Shape, senders: nat, run: seq<Machine>, steps: seq<Step>)
    requires IsRun(shape, senders, run, steps) && (2 <= shape.chunks || shape.fields == 1)
    ensures WithinOne(run)
  {
    hide DoStep, React, Tokens, SentOnce, Outstanding, Count;
    RunBoundsFields(shape, senders, run, steps, |steps|);
    var m := run[|steps|];
    if 2 <= shape.chunks {
      RunKeepsInv(shape, senders, run, steps, |steps|);
      assert forall i :: 0 <= i < senders ==> SenderInv(shape, m.node.senders[i], m.world.cards[i]);
    } else {
      forall i | 0 <= i < senders
        ensures i < |m.world.cards| && NeverFinishes(shape, m.node.senders[i], m.world.cards[i])
      {
        OneChunkStalls(shape, senders, run, steps, |steps|, i);
      }
    }
  }
}
