/**
 The IPMX sender's objects: a handler of report messages shared by the senders
 of a node, the senders, and the node with its loop.  Each method is proved equal
 to the function of `IpmxModel` it implements.
 */
module IpmxSender {
  import opened IpmxModel
  import opened IpmxRuns

  class SharedMessageHandler {
    var pendingMessages: nat

    constructor ()
      ensures pendingMessages == 0
    {
      pendingMessages := 0;
    }

    /** Commits a message whose buffer is ready; the card's own answer is not looked at. */
    method CommitMessage(a: ReportAnswer) returns (status: Status)
      modifies this
      ensures status == a.layout
      ensures pendingMessages == old(pendingMessages) + (if a.layout == Success then 1 else 0)
    {
      status := a.layout;
      if status == Success {
        pendingMessages := pendingMessages + 1;
      }
    }

    /** Polls for a report completion, unless none is due. */
    method CheckCompletion(p: PollAnswer) returns (status: Status, id: nat)
      modifies this
      ensures status ==
        if old(pendingMessages) == 0 || p.poll == NoCompletion then NoCompletion
        else if p.poll != Success then p.poll else if p.info then Success else Failure(Device)
      ensures pendingMessages == if status == Success then old(pendingMessages) - 1 else old(pendingMessages)
      ensures id == p.token
    {
      id := p.token;
      if pendingMessages == 0 {
        return NoCompletion, id;
      }
      if p.poll != Success {
        return p.poll, id;
      }
      if !p.info {
        return Failure(Device), id;
      }
      pendingMessages := pendingMessages - 1;
      status := Success;
    }
  }

  class StreamSender {
    const shape: Shape
    const handler: SharedMessageHandler
    var committedReports: nat
    var finishedReports: nat
    var committedFirst: nat
    var finishedFirst: nat
    var committedFields: nat
    var finishedFields: nat
    var chunkInField: nat
    var pending: bool

    ghost function View(): Sender
      reads this
    {
      Sender(committedReports, finishedReports, committedFirst, finishedFirst,
             committedFields, finishedFields, chunkInField, pending)
    }

    constructor (s: Shape, h: SharedMessageHandler)
      ensures View() == NEW_SENDER && shape == s && handler == h
    {
      shape, handler := s, h;
      committedReports, finishedReports, committedFirst, finishedFirst := 0, 0, 0, 0;
      committedFields, finishedFields, chunkInField, pending := 0, 0, 0, false;
    }

    method CommitSenderReport(a: ReportAnswer) returns (status: Status)
      modifies this, handler
      ensures ReportEffect(View(), handler.pendingMessages, status)
              == CommitReport(old(View()), old(handler.pendingMessages), a)
    {
      if a.buffer != Success {
        return a.buffer;
      }
      status := handler.CommitMessage(a);
      if status != Success {
        return;
      }
      committedReports := committedReports + 1;
    }

    method ProcessMediaCompletion(token: nat, a: ReportAnswer) returns (status: Status)
      modifies this, handler
      ensures ReportEffect(View(), handler.pendingMessages, status)
              == ProcessCompletion(old(View()), old(handler.pendingMessages), token, a)
    {
      if token == LAST_CHUNK_TOKEN {
        finishedFields := finishedFields + 1;
        return Success;
      }
      if token != finishedFirst {
        return Failure(OutOfOrder);
      }
      finishedFirst := finishedFirst + 1;
      status := CommitSenderReport(a);
    }

    method TrackMediaCompletions(p: PollAnswer, a: ReportAnswer) returns (status: Status)
      modifies this, handler
      ensures ReportEffect(View(), handler.pendingMessages, status)
              == Track(old(View()), old(handler.pendingMessages), p, a)
    {
      if p.poll == NoCompletion {
        return Success;
      }
      if p.poll != Success {
        return p.poll;
      }
      if !p.info {
        return Failure(Device);
      }
      status := ProcessMediaCompletion(p.token, a);
    }

    method CommitNextMediaChunk(a: CommitAnswer) returns (status: Status)
      modifies this
      ensures CommitEffect(View(), status) == CommitChunk(shape, old(View()), a)
    {
      if !pending {
        if a.chunk != Success {
          return a.chunk;
        }
      } else {
        pending := false;
      }
      if chunkInField == 0 || chunkInField == shape.chunks - 1 {
        if !a.marked {
          return Failure(Device);
        }
      }
      if a.commit != Success {
        if a.commit == QueueFull {
          pending := true;
          return Success;
        }
        return a.commit;
      }
      if chunkInField == 0 {
        committedFirst := committedFirst + 1;
      }
      chunkInField := chunkInField + 1;
      if chunkInField == shape.chunks {
        chunkInField := 0;
        committedFields := committedFields + 1;
      }
      status := Success;
    }

    method NotifyReportCompletion() returns (status: Status)
      modifies this
      ensures CommitEffect(View(), status) == NotifyReport(old(View()))
    {
      if committedReports <= finishedReports {
        return Failure(Unsolicited);
      }
      finishedReports := finishedReports + 1;
      status := Success;
    }
  }

  function GreetSteps(answers: seq<ReportAnswer>): (steps: seq<Step>)
    ensures |steps| == |answers|
    ensures forall i :: 0 <= i < |steps| ==> steps[i] == Greet(i, answers[i])
  {
    seq(|answers|, i requires 0 <= i < |answers| => Greet(i, answers[i]))
  }

  lemma GreetStepsNext(answers: seq<ReportAnswer>, i: nat)
    requires i < |answers|
    ensures GreetSteps(answers[..i + 1]) == GreetSteps(answers[..i]) + [Greet(i, answers[i])]
    ensures GreetSteps(answers[..i + 1]) <= GreetSteps(answers)
  {
  }

  /** After a step that fails nothing more is done. */
  lemma {:induction false} DoStepsStop(shape: Shape, n: Node, done: seq<Step>, steps: seq<Step>)
    requires done <= steps && forall step :: step in steps ==> Names(n, step)
    requires (forall step :: step in done ==> Names(n, step)) && DoSteps(shape, n, done).status != Success
    ensures DoSteps(shape, n, steps) == DoSteps(shape, n, done)
    decreases |steps|
  {
    if done != steps {
      DoStepsStop(shape, n, done, steps[..|steps| - 1]);
    }
  }

  lemma FirstStep(shape: Shape, n: Node, check: PollAnswer)
    ensures DoSteps(shape, n, [CheckReport(check)]) == CheckReports(n, check)
  {
    assert [CheckReport(check)][..0] == [];
  }

  lemma {:induction false} TurnStepsPrefix(turns: seq<Turn>, i: nat)
    requires i <= |turns|
    ensures TurnSteps(turns[..i]) <= TurnSteps(turns)
    decreases |turns|
  {
    if i == |turns| {
      assert turns[..i] == turns;
    } else {
      assert turns[..|turns| - 1][..i] == turns[..i];
      TurnStepsPrefix(turns[..|turns| - 1], i);
    }
  }

  lemma DoStepsAppend(shape: Shape, n: Node, done: seq<Step>, step: Step)
    requires (forall x :: x in done ==> Names(n, x)) && Names(n, step)
    ensures var e := DoSteps(shape, n, done);
      DoSteps(shape, n, done + [step]) == if e.status != Success then e else DoStep(shape, e.node, step)
  {
    assert (done + [step])[..|done|] == done;
  }

  /** One sender's turn, as the next two steps of the pass. */
  lemma LoopStepsNext(shape: Shape, n: Node, check: PollAnswer, turns: seq<Turn>, i: nat)
    requires i < |turns| == |n.senders|
    requires DoSteps(shape, n, LoopSteps(check, turns[..i])).status == Success
    ensures var e := TurnEffect(shape, DoSteps(shape, n, LoopSteps(check, turns[..i])).node, i, turns[i]);
      if e.status == Success then DoSteps(shape, n, LoopSteps(check, turns[..i + 1])) == e
      else DoSteps(shape, n, LoopSteps(check, turns)) == e
  {
    hide DoStep, DoSteps;
    var done := LoopSteps(check, turns[..i]);
    var track, commit := TrackMedia(i, turns[i].poll, turns[i].report), CommitMedia(i, turns[i].commit);
    assert turns[..i + 1][..i] == turns[..i];
    assert LoopSteps(check, turns[..i + 1]) == done + [track] + [commit];
    TurnStepsPrefix(turns, i + 1);
    assert done + [track] + [commit] <= LoopSteps(check, turns);
    assert done + [track] <= LoopSteps(check, turns);
    DoStepsAppend(shape, n, done, track);
    DoStepsAppend(shape, n, done + [track], commit);
    if DoSteps(shape, n, done + [track]).status != Success {
      DoStepsStop(shape, n, done + [track], LoopSteps(check, turns));
    } else if DoSteps(shape, n, done + [track] + [commit]).status != Success {
      DoStepsStop(shape, n, done + [track] + [commit], LoopSteps(check, turns));
    }
  }

  /** A sender's turn: track, then commit if that succeeded. */
  function TurnEffect(shape: Shape, n: Node, i: nat, t: Turn): (e: Effect)
    requires i < |n.senders|
    ensures |e.node.senders| == |n.senders|
  {
    var e := DoStep(shape, n, TrackMedia(i, t.poll, t.report));
    if e.status != Success then e else DoStep(shape, e.node, CommitMedia(i, t.commit))
  }

  lemma LoopStepsStart(check: PollAnswer, turns: seq<Turn>)
    ensures LoopSteps(check, turns[..0]) == [CheckReport(check)] <= LoopSteps(check, turns)
  {
  }

  lemma RunLength(shape: Shape, senders: nat, run: seq<Machine>, steps: seq<Step>)
    requires IsRun(shape, senders, run, steps)
    ensures |run| == |steps| + 1
  {
  }

  /**
   A pass of the loop whose steps the card allows and that succeeds goes on with
   a run: what holds of every run holds after every pass.
   */
  lemma LoopPassContinuesRun(shape: Shape, senders: nat, run: seq<Machine>, steps: seq<Step>,
                             check: PollAnswer, turns: seq<Turn>, last: Machine) returns (longer: seq<Machine>)
    requires IsRun(shape, senders, run, steps) && |steps| + |LoopSteps(check, turns)| <= LAST_CHUNK_TOKEN
    requires Reaches(shape, run[|steps|], LoopSteps(check, turns), last)
    ensures forall step :: step in LoopSteps(check, turns) ==> Names(run[|steps|].node, step)
    ensures DoSteps(shape, run[|steps|].node, LoopSteps(check, turns)) == Effect(last.node, Success)
    ensures IsRun(shape, senders, longer, steps + LoopSteps(check, turns)) && run <= longer
    ensures longer[|longer| - 1] == last
  {
    hide IsRun, Reaches, LoopSteps, DoSteps;
    RunLength(shape, senders, run, steps);
    ReachesDoes(shape, run[|steps|], LoopSteps(check, turns), last);
    longer := RunGoesOn(shape, senders, run, steps, LoopSteps(check, turns), last);
    RunLength(shape, senders, longer, steps + LoopSteps(check, turns));
  }

  class SenderNode {
    const shape: Shape
    const handler: SharedMessageHandler
    const senders: seq<StreamSender>

    ghost predicate Valid() {
      && (forall i :: 0 <= i < |senders| ==> senders[i].handler == handler && senders[i].shape == shape)
      && (forall i, j :: 0 <= i < j < |senders| ==> senders[i] != senders[j])
    }

    ghost function View(): Node
      reads handler, senders
    {
      Node(seq(|senders|, i requires 0 <= i < |senders| reads senders => senders[i].View()), handler.pendingMessages)
    }

    constructor (s: Shape, count: nat)
      ensures Valid() && View() == Node(seq(count, _ => NEW_SENDER), 0)
      ensures shape == s && fresh(handler) && forall x :: x in senders ==> fresh(x)
    {
      var h := new SharedMessageHandler();
      var xs: seq<StreamSender> := [];
      while |xs| < count
        invariant |xs| <= count && h.pendingMessages == 0
        invariant forall x :: x in xs ==> fresh(x) && x.handler == h && x.shape == s && x.View() == NEW_SENDER
        invariant forall i, j :: 0 <= i < j < |xs| ==> xs[i] != xs[j]
      {
        var x := new StreamSender(s, h);
        xs := xs + [x];
      }
      shape, handler, senders := s, h, xs;
    }

    method CheckReportCompletion(p: PollAnswer) returns (status: Status)
      requires Valid()
      modifies handler, senders
      ensures Effect(View(), status) == CheckReports(old(View()), p)
    {
      var id;
      status, id := handler.CheckCompletion(p);
      if status == NoCompletion {
        assert View() == old(View());
        return Success;
      }
      if status != Success {
        assert View() == old(View());
        return;
      }
      if id >= |senders| {
        assert View().senders == old(View()).senders;
        return Failure(InvalidSender);
      }
      status := senders[id].NotifyReportCompletion();
      assert View().senders == old(View()).senders[id := senders[id].View()];
    }

    /** What one sender's method does to the view of the node. */
    twostate lemma ViewUpdate(i: nat)
      requires Valid() && i < |senders|
      requires forall j :: 0 <= j < |senders| && j != i ==> senders[j].View() == old(senders[j].View())
      ensures View() == Node(old(View()).senders[i := senders[i].View()], handler.pendingMessages)
    {
      assert View().senders == old(View()).senders[i := senders[i].View()];
    }

    method TrackTurn(i: nat, t: Turn) returns (status: Status)
      requires Valid() && i < |senders|
      modifies handler, senders
      ensures Effect(View(), status) == DoStep(shape, old(View()), TrackMedia(i, t.poll, t.report))
    {
      status := senders[i].TrackMediaCompletions(t.poll, t.report);
      ViewUpdate(i);
    }

    method CommitTurn(i: nat, t: Turn) returns (status: Status)
      requires Valid() && i < |senders|
      modifies senders
      ensures Effect(View(), status) == DoStep(shape, old(View()), CommitMedia(i, t.commit))
    {
      var s := senders[i];
      status := Success;
      if s.committedFields < s.finishedFields + shape.fields {
        status := s.CommitNextMediaChunk(t.commit);
      }
      ViewUpdate(i);
    }

    /** One sender's turn; `sleepy` says whether it may sleep after it. */
    method TakeTurn(i: nat, t: Turn) returns (status: Status, sleepy: bool)
      requires Valid() && i < |senders|
      modifies handler, senders
      ensures Effect(View(), status) == TurnEffect(shape, old(View()), i, t)
      ensures forall j :: 0 <= j < |senders| && j != i ==> View().senders[j] == old(View()).senders[j]
      ensures sleepy == CanSleep(shape, View().senders[i])
    {
      status := TrackTurn(i, t);
      if status == Success {
        status := CommitTurn(i, t);
      }
      var s := senders[i];
      sleepy := !(s.committedFields < s.finishedFields + shape.fields) && s.finishedReports >= s.finishedFields + 1;
    }

    /** The initial reports, up to the first sender whose report fails. */
    method SendInitialReports(answers: seq<ReportAnswer>) returns (status: Status)
      requires Valid() && |answers| == |senders|
      modifies handler, senders
      ensures Effect(View(), status) == DoSteps(shape, old(View()), GreetSteps(answers))
    {
      hide DoStep;
      var i := 0;
      status := Success;
      while i < |senders|
        invariant i <= |senders| && status == Success
        invariant Effect(View(), status) == DoSteps(shape, old(View()), GreetSteps(answers[..i]))
      {
        GreetStepsNext(answers, i);
        status := GreetTurn(i, answers[i]);
        if status != Success {
          DoStepsStop(shape, old(View()), GreetSteps(answers[..i + 1]), GreetSteps(answers));
          return;
        }
        i := i + 1;
      }
      assert answers[..i] == answers;
    }

    method GreetTurn(i: nat, a: ReportAnswer) returns (status: Status)
      requires Valid() && i < |senders|
      modifies handler, senders
      ensures Effect(View(), status) == DoStep(shape, old(View()), Greet(i, a))
    {
      status := senders[i].CommitSenderReport(a);
      ViewUpdate(i);
    }

    /**
     One pass of the loop, up to the first step that fails; `idle` says whether
     every sender may sleep, when the node sleeps at all.
     */
    method LoopPass(check: PollAnswer, turns: seq<Turn>, mayIdle: bool) returns (status: Status, idle: bool)
      requires Valid() && |turns| == |senders|
      modifies handler, senders
      ensures Effect(View(), status) == DoSteps(shape, old(View()), LoopSteps(check, turns))
      ensures status == Success ==>
        (idle <==> mayIdle && forall j :: 0 <= j < |senders| ==> CanSleep(shape, View().senders[j]))
    {
      hide DoStep, DoSteps, TurnEffect, LoopSteps, CanSleep;
      idle := mayIdle;
      status := CheckReportCompletion(check);
      FirstStep(shape, old(View()), check);
      LoopStepsStart(check, turns);
      if status != Success {
        DoStepsStop(shape, old(View()), [CheckReport(check)], LoopSteps(check, turns));
        return;
      }
      var i := 0;
      while i < |senders|
        invariant i <= |senders| && status == Success
        invariant Effect(View(), status) == DoSteps(shape, old(View()), LoopSteps(check, turns[..i]))
        invariant idle <==> mayIdle && forall j :: 0 <= j < i ==> CanSleep(shape, View().senders[j])
      {
        LoopStepsNext(shape, old(View()), check, turns, i);
        var sleepy;
        status, sleepy := TakeTurn(i, turns[i]);
        if status != Success {
          return;
        }
        idle := idle && sleepy;
        i := i + 1;
      }
      assert turns[..i] == turns;
    }
  }
}
