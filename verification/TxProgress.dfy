/**
 Progress of the media latency sender: exactly what a turn fetches and commits and
 when it ends the loop, and that turns without a failure complete any number of fields.
 */
module TxProgress {
  import opened Modular
  import opened TxWindow

  // ---- what a turn fetches -----------------------------------------------------------------

  /** The most completions a turn takes: those that are out, the budget, and the rest of the field. */
  predicate MayFetch(c: Settings, s: Tx, budget: nat, n: nat) {
    n <= |s.nic| && n <= budget && s.completionInField + n <= c.Tracked()
  }

  predicate Fails(s: Tx, poll: Poll, n: nat) {
    poll.Broken? || (poll.Unreadable? && n < |s.nic|)
  }

  /** The card reports `n` completions, and then the turn's fetching is at its end. */
  predicate Fetches(c: Settings, s: Tx, polls: seq<Poll>, budget: nat, n: nat) {
    && n <= |polls| && MayFetch(c, s, budget, n) && (forall i :: 0 <= i < n ==> polls[i].Reported?)
    && (n == |polls| || n == budget || s.completionInField + n == c.Tracked() || Stops(s, polls[n], n))
  }

  predicate Stops(s: Tx, poll: Poll, n: nat) {
    !poll.Reported? || n == |s.nic|
  }

  /** The turn's fetching ends with a poll that fails. */
  predicate FetchFails(c: Settings, s: Tx, polls: seq<Poll>, budget: nat, n: nat) {
    n < |polls| && n < budget && s.completionInField + n < c.Tracked() && Fails(s, polls[n], n)
  }

  /** Exactly the completions reported before are handled, and the loop ends exactly if a poll fails. */
  lemma {:induction false} FetchHandles(c: Settings, s: Tx, polls: seq<Poll>, budget: nat, n: nat)
    requires Kept(c, s) && !s.stopped && s.completionInField < c.Tracked() && 0 < budget
    requires Fetches(c, s, polls, budget, n)
    ensures |s.ring| == c.capacity > 0
    ensures var r := Fetch(c, s, polls, budget);
      && r.handled == s.handled + n && r.completionInField == s.completionInField + n
      && r.committed == s.committed && r.completed == s.completed && r.chunkInField == s.chunkInField
      && r.marked == s.marked && r.sent == s.sent
      && (r.stopped <==> FetchFails(c, s, polls, budget, n))
    decreases |polls|
  {
    hide Kept, Wrap, Fetches, FetchFails, ProcessCompletion, MayFetch;
    KeptNic(c, s);
    FetchesFirst(c, s, polls, budget, n);
    if polls != [] {
      CompletionKept(c, s, polls[0]);
      var (done, status) := ProcessCompletion(c, s, polls[0]);
      OnePoll(c, s, polls[0]);
      if status.Handled? {
        var next := done.(completionInField := s.completionInField + 1);
        KeptCounters(c, done, next);
        FetchesRest(c, s, next, polls, budget, n);
        if budget > 1 && next.completionInField < c.Tracked() {
          FetchHandles(c, next, polls[1..], budget - 1, n - 1);
        }
      }
    }
  }

  /** Whether the first poll is the end of the fetching. */
  lemma FetchesFirst(c: Settings, s: Tx, polls: seq<Poll>, budget: nat, n: nat)
    requires Fetches(c, s, polls, budget, n) && 0 < budget && s.completionInField < c.Tracked()
    ensures polls == [] ==> n == 0 && !FetchFails(c, s, polls, budget, n)
    ensures polls != [] ==> (0 < n <==> polls[0].Reported? && s.nic != [])
    ensures polls != [] && n == 0 ==> (FetchFails(c, s, polls, budget, n) <==> Fails(s, polls[0], 0))
  {
  }

  /** After a first completion one less is fetched of what is left. */
  lemma FetchesRest(c: Settings, s: Tx, next: Tx, polls: seq<Poll>, budget: nat, n: nat)
    requires Fetches(c, s, polls, budget, n) && 0 < n
    requires |next.nic| == |s.nic| - 1 && next.completionInField == s.completionInField + 1
    ensures polls != [] && 0 < budget
    ensures Fetches(c, next, polls[1..], budget - 1, n - 1)
    ensures FetchFails(c, next, polls[1..], budget - 1, n - 1) <==> FetchFails(c, s, polls, budget, n)
    ensures budget == 1 || next.completionInField >= c.Tracked() ==> n == 1 && !FetchFails(c, s, polls, budget, n)
  {
    assert forall i :: 0 <= i < n - 1 ==> polls[1..][i] == polls[i + 1];
  }

  lemma OnePoll(c: Settings, s: Tx, poll: Poll)
    requires Kept(c, s) && !s.stopped
    ensures |s.ring| == c.capacity > 0
    ensures var (done, status) := ProcessCompletion(c, s, poll);
      && (status.Failure? <==> Fails(s, poll, 0))
      && (status.Handled? <==> poll.Reported? && s.nic != [])
      && (status.Handled? ==> |done.nic| == |s.nic| - 1 && !done.stopped)
      && done.completionInField == s.completionInField && done.sent == s.sent
  {
    KeptNic(c, s);
  }

  /** How many completions a turn takes. */
  lemma {:induction false} FetchCount(c: Settings, s: Tx, polls: seq<Poll>, budget: nat) returns (n: nat)
    requires s.completionInField <= c.Tracked()
    ensures Fetches(c, s, polls, budget, n)
  {
    n := 0;
    while n < |polls| && n < budget && s.completionInField + n < c.Tracked() && !Stops(s, polls[n], n)
      invariant n <= |polls| && MayFetch(c, s, budget, n) && forall i :: 0 <= i < n ==> polls[i].Reported?
    {
      n := n + 1;
    }
  }

  // ---- what a turn commits --------------------------------------------------------------------

  /** The card accepts `n` chunks, none but the last after a refusal, and then the turn's commits are at their end. */
  predicate Commits(c: Settings, s: Tx, answers: seq<Answer>, n: nat) {
    && n <= |answers| && s.chunkInField + n <= c.chunks
    && (forall i :: 0 <= i < n ==> answers[i].Accepted?)
    && (forall i :: 0 <= i < n - 1 ==> !answers[i].blocked)
    && (CommitFails(c, s, answers, n) || (0 < n && (answers[n - 1].blocked || s.chunkInField + n == c.chunks)))
  }

  /** There is no chunk, or it fails, in the middle of the field and of the turn. */
  predicate CommitFails(c: Settings, s: Tx, answers: seq<Answer>, n: nat)
    requires n <= |answers| && forall i :: 0 <= i < n ==> answers[i].Accepted?
  {
    && s.chunkInField + n < c.chunks && (0 < n ==> !answers[n - 1].blocked)
    && (n == |answers| || answers[n].Failed?)
  }

  /** The times of the tracked chunks among the first `n`. */
  function Times(c: Settings, chunkInField: nat, answers: seq<Answer>, n: nat): (r: seq<nat>)
    requires n <= |answers|
    decreases n
  {
    if n == 0 then []
    else
      Times(c, chunkInField, answers, n - 1)
      + (if chunkInField + n - 1 < c.Tracked() then [answers[n - 1].time] else [])
  }

  lemma {:induction false} TimesFirst(c: Settings, chunkInField: nat, answers: seq<Answer>, n: nat)
    requires 0 < n <= |answers|
    ensures Times(c, chunkInField, answers, n)
         == (if chunkInField < c.Tracked() then [answers[0].time] else [])
            + Times(c, chunkInField + 1, answers[1..], n - 1)
    decreases n
  {
    if n > 1 {
      TimesFirst(c, chunkInField, answers, n - 1);
      assert answers[1..][n - 2] == answers[n - 1];
    } else {
      assert Times(c, chunkInField, answers, 0) == [] && Times(c, chunkInField + 1, answers[1..], 0) == [];
    }
  }

  /** Exactly the accepted chunks are committed with their times, and the loop ends exactly if the next one fails. */
  lemma {:induction false} CommitsChunks(c: Settings, s: Tx, answers: seq<Answer>, n: nat)
    requires |s.ring| == c.capacity > 0 && !s.stopped && s.chunkInField < c.chunks && Commits(c, s, answers, n)
    ensures var r := CommitChunks(c, s, answers);
      && r.chunkInField == s.chunkInField + n && r.committed == s.committed && r.completed == s.completed
      && r.handled == s.handled && r.completionInField == s.completionInField
      && r.sent == s.sent + Times(c, s.chunkInField, answers, n)
      && (r.stopped <==> CommitFails(c, s, answers, n))
    decreases |answers|
  {
    hide Wrap, Times;
    assert Times(c, s.chunkInField, answers, 0) == [] by {
      NoTimes(c, s.chunkInField, answers);
    }
    if n > 0 {
      TimesFirst(c, s.chunkInField, answers, n);
      NoTimes(c, s.chunkInField + 1, answers[1..]);
      var next := CommitChunk(c, s, answers[0].time);
      if !answers[0].blocked && next.chunkInField < c.chunks {
        assert forall i :: 0 <= i < n - 1 ==> answers[1..][i] == answers[i + 1];
        CommitsChunks(c, next, answers[1..], n - 1);
      }
    }
  }

  lemma NoTimes(c: Settings, chunkInField: nat, answers: seq<Answer>)
    ensures Times(c, chunkInField, answers, 0) == []
  {
  }

  /** How many chunks a turn commits. */
  lemma {:induction false} CommitCount(c: Settings, s: Tx, answers: seq<Answer>) returns (n: nat)
    requires s.chunkInField < c.chunks
    ensures Commits(c, s, answers, n)
  {
    n := 0;
    while n < |answers| && answers[n].Accepted? && s.chunkInField + n < c.chunks
      && (n == 0 || !answers[n - 1].blocked)
      invariant n <= |answers| && s.chunkInField + n <= c.chunks
      invariant forall i :: 0 <= i < n ==> answers[i].Accepted?
      invariant forall i :: 0 <= i < n - 1 ==> !answers[i].blocked
    {
      n := n + 1;
    }
  }

  /** A turn takes no more completions than this. */
  const MOST_FETCHED := 10

  // ---- a whole turn --------------------------------------------------------------------------

  /** The window has room for another field in flight. */
  predicate HasPlace(c: Settings, s: Tx) {
    s.committed - s.completed < c.fields
  }

  /** What the card and the clock answer in a turn: `n` completions, then `k` chunks if there is place for them. */
  predicate Answered(c: Settings, s: Tx, turn: Step, n: nat, k: nat) {
    && turn.Turn?
    && (if turn.isTime then Fetches(c, s, turn.polls, MOST_FETCHED, n) else n == 0)
    && (if HasPlace(c, s) && !TurnPollFails(c, s, turn, n) then Commits(c, s, turn.answers, k) else k == 0)
  }

  predicate TurnPollFails(c: Settings, s: Tx, turn: Step, n: nat)
    requires turn.Turn?
  {
    turn.isTime && FetchFails(c, s, turn.polls, MOST_FETCHED, n)
  }

  /** The turn ends the loop: a poll or a chunk fails, a chunk is missing, or it was the last after a commit. */
  predicate EndsLoop(c: Settings, s: Tx, turn: Step, n: nat, k: nat)
    requires Answered(c, s, turn, n, k)
  {
    || TurnPollFails(c, s, turn, n)
    || (HasPlace(c, s) && (CommitFails(c, s, turn.answers, k) || turn.last))
  }

  /** The fields and the chunks or completions after so many more. */
  predicate CountsOn(fields: nat, inField: nat, fields': nat, inField': nat, n: nat, whole: int) {
    if inField + n == whole then fields' == fields + 1 && inField' == 0
    else fields' == fields && inField' == inField + n
  }

  /**
   A turn, exactly: the completions the card reports are handled and the chunks it
   accepts committed with their times, the fields they complete are counted, and the loop
   ends if and only if a poll or a chunk fails, a chunk is missing, or the time is over.
   */
  lemma TurnDoes(c: Settings, s: Tx, turn: Step, n: nat, k: nat)
    requires c.Sized() && Between(c, s) && !s.stopped && Answered(c, s, turn, n, k)
    ensures |s.ring| == c.capacity > 0
    ensures var r := DoStep(c, s, turn);
      && r.handled == s.handled + n
      && r.sent == s.sent + (if k == 0 then [] else Times(c, s.chunkInField, turn.answers, k))
      && CountsOn(s.completed, s.completionInField, r.completed, r.completionInField, n, c.chunks - 1)
      && CountsOn(s.committed, s.chunkInField, r.committed, r.chunkInField, k, c.chunks)
      && (r.stopped <==> EndsLoop(c, s, turn, n, k))
  {
    hide Kept, Fetch, CommitChunks, Counted, Commits, Fetches, FetchFails, CommitFails, Times, InFlight;
    KeptNic(c, s);
    NoWrap(c, s);
    if turn.isTime {
      FetchHandles(c, s, turn.polls, MOST_FETCHED, n);
      FetchesWithin(c, s, turn.polls, MOST_FETCHED, n);
    }
    var fetched := if turn.isTime then CompletionPhase(c, s, turn.polls) else s;
    if HasPlace(c, s) && !TurnPollFails(c, s, turn, n) {
      SameCommits(c, s, fetched, turn.answers, k);
      CommitsChunks(c, fetched, turn.answers, k);
    }
    NoTimes(c, s.chunkInField, turn.answers);
  }

  lemma FetchesWithin(c: Settings, s: Tx, polls: seq<Poll>, budget: nat, n: nat)
    requires Fetches(c, s, polls, budget, n)
    ensures s.completionInField + n <= c.Tracked()
  {
  }

  /** What the turn commits is decided by the place in the field. */
  lemma SameCommits(c: Settings, s: Tx, r: Tx, answers: seq<Answer>, k: nat)
    requires Commits(c, s, answers, k) && r.chunkInField == s.chunkInField
    ensures Commits(c, r, answers, k) && (CommitFails(c, r, answers, k) <==> CommitFails(c, s, answers, k))
  {
  }

  /** Every turn is answered in some way. */
  lemma TurnAnswers(c: Settings, s: Tx, turn: Step) returns (n: nat, k: nat)
    requires c.Sized() && Between(c, s) && !s.stopped && turn.Turn?
    ensures Answered(c, s, turn, n, k)
  {
    hide Kept, Commits, Fetches, FetchFails, Whole;
    n, k := 0, 0;
    if turn.isTime {
      n := FetchCount(c, s, turn.polls, MOST_FETCHED);
    }
    if HasPlace(c, s) && !TurnPollFails(c, s, turn, n) {
      k := CommitCount(c, s, turn.answers);
    }
  }

  // ---- fields get completed -----------------------------------------------------------------------

  /** A turn in which nothing fails; the card may have nothing to report, or be busy. */
  predicate Harmless(c: Settings, turn: Step) {
    && turn.Turn? && !turn.last && |turn.answers| >= c.chunks
    && (forall poll :: poll in turn.polls ==> poll.Nothing? || poll.Reported?)
    && (forall a :: a in turn.answers ==> a.Accepted?)
  }

  /** Such a turn never ends the loop. */
  lemma HarmlessGoesOn(c: Settings, s: Tx, turn: Step)
    requires c.Sized() && Between(c, s) && !s.stopped && Harmless(c, turn)
    ensures |s.ring| == c.capacity > 0 && !DoStep(c, s, turn).stopped
  {
    hide Kept, Whole, DoStep, Times;
    var n, k := TurnAnswers(c, s, turn);
    TurnDoes(c, s, turn, n, k);
    assert n < |turn.polls| ==> turn.polls[n] in turn.polls;
    assert k < |turn.answers| ==> turn.answers[k] in turn.answers;
  }

  /** Completions are out, or the next chunk is tracked, or it is the last of its field. */
  function Stage(c: Settings, s: Tx): int {
    if s.handled < s.marked then 2 else if s.chunkInField < c.Tracked() then 1 else 0
  }

  /** A turn in which completions are polled for and one that is out is reported. */
  predicate Brisk(c: Settings, turn: Step) {
    Harmless(c, turn) && turn.isTime && turn.polls != [] && turn.polls[0].Reported?
  }

  /** With nothing out there is place. */
  lemma NothingOutPlace(c: Settings, s: Tx)
    requires c.Sized() && Between(c, s) && !s.stopped && s.handled == s.marked
    ensures HasPlace(c, s)
  {
    hide Kept, Whole;
    if s.committed == s.completed + c.fields {
      WholeSplits(s.completed, c.fields, c.Tracked());
      WholePositive(c.fields, c.Tracked());
    }
  }

  lemma {:induction false} TimesGrow(c: Settings, chunkInField: nat, answers: seq<Answer>, n: nat)
    requires 0 < n <= |answers| && chunkInField < c.Tracked()
    ensures Times(c, chunkInField, answers, n) != []
    decreases n
  {
    if n > 1 {
      TimesGrow(c, chunkInField, answers, n - 1);
    }
  }

  /** Every such turn brings the sender on: three of them handle a completion. */
  lemma BriskTurn(c: Settings, s: Tx, turn: Step)
    requires c.Sized() && Between(c, s) && InWindow(c, s) && !s.stopped && Brisk(c, turn)
    ensures |s.ring| == c.capacity > 0
    ensures var r := DoStep(c, s, turn);
      && !r.stopped && Between(c, r) && InWindow(c, r)
      && 3 * r.handled + Stage(c, r) >= 3 * s.handled + Stage(c, s) + 1
  {
    hide Kept, Whole, DoStep, Times, Counted, InWindow;
    KeptNic(c, s);
    HarmlessGoesOn(c, s, turn);
    StepKeeps(c, s, turn);
    var n, k := TurnAnswers(c, s, turn);
    TurnDoes(c, s, turn, n, k);
    if s.handled < s.marked {
      assert n > 0;
    } else {
      NothingOutPlace(c, s);
      assert turn.answers[0] in turn.answers;
      assert n == 0 && 0 < k;
      KeptSent(c, s);
      KeptSent(c, DoStep(c, s, turn));
      if s.chunkInField < c.Tracked() {
        TimesGrow(c, s.chunkInField, turn.answers, k);
      }
    }
  }

  lemma KeptSent(c: Settings, s: Tx)
    requires Kept(c, s)
    ensures s.handled <= s.marked == |s.sent|
  {
  }

  lemma {:induction false} BriskTurns(c: Settings, s: Tx, turns: seq<Step>)
    requires c.Sized() && Between(c, s) && InWindow(c, s) && !s.stopped
    requires forall turn :: turn in turns ==> Brisk(c, turn)
    ensures |s.ring| == c.capacity > 0
    ensures var r := DoSteps(c, s, turns);
      && !r.stopped && Between(c, r) && InWindow(c, r)
      && 3 * r.handled + Stage(c, r) >= 3 * s.handled + Stage(c, s) + |turns|
    decreases |turns|
  {
    hide Between, InWindow, DoStep, Stage, Brisk;
    BetweenRing(c, s);
    if turns != [] {
      var m := |turns| - 1;
      BriskTurns(c, s, turns[..m]);
      assert turns[m] in turns;
      BriskTurn(c, DoSteps(c, s, turns[..m]), turns[m]);
    }
  }

  lemma BetweenRing(c: Settings, s: Tx)
    requires c.Sized() && Between(c, s)
    ensures |s.ring| == c.capacity > 0
  {
  }

  lemma {:induction false} StepsJoin(c: Settings, s: Tx, a: seq<Step>, b: seq<Step>)
    requires |s.ring| == c.capacity > 0
    ensures DoSteps(c, s, a + b) == DoSteps(c, DoSteps(c, s, a), b)
    decreases |b|
  {
    hide DoStep;
    if b == [] {
      assert a + b == a;
    } else {
      StepsJoin(c, s, a, b[..|b| - 1]);
      assert (a + b)[..|a + b| - 1] == a + b[..|b| - 1];
    }
  }

  /** As many completions as `k` fields track complete `k` fields. */
  lemma CompletedFollow(c: Settings, s: Tx, r: Tx, k: nat)
    requires c.Sized() && Between(c, s) && Between(c, r) && !s.stopped && !r.stopped
    requires r.handled >= s.handled + k * c.Tracked()
    ensures r.completed >= s.completed + k
  {
    hide Kept, Whole;
    if r.completed < s.completed + k {
      var t := c.Tracked();
      WholeIsProduct(k, t);
      WholeSplits(s.completed, k, t);
      WholeSplits(r.completed + 1, s.completed + k - r.completed - 1, t);
      OneMoreWhole(r.completed, t);
    }
  }

  /**
   Progress: from every moment of every run whose loop goes on, three turns for each
   tracked chunk of `k` fields, and two more, complete `k` further fields, if nothing
   fails and completions that are out are reported; the loop still goes on.
   */
  lemma TurnsCompleteFields(c: Settings, ring: seq<nat>, steps: seq<Step>, turns: seq<Step>, k: nat)
    requires c.Sized() && |ring| == c.capacity > 0 && !DoSteps(c, Start(ring), steps).stopped
    requires (forall turn :: turn in turns ==> Brisk(c, turn)) && |turns| >= 3 * (k * c.Tracked()) + 2
    ensures var s, r := DoSteps(c, Start(ring), steps), DoSteps(c, Start(ring), steps + turns);
      !r.stopped && r.completed >= s.completed + k
  {
    hide Between, InWindow, DoSteps, Brisk;
    RunKeeps(c, ring, steps);
    var s := DoSteps(c, Start(ring), steps);
    BriskTurns(c, s, turns);
    StepsJoin(c, Start(ring), steps, turns);
    CompletedFollow(c, s, DoSteps(c, s, turns), k);
  }

  lemma BriskExists(c: Settings)
    requires 2 <= c.chunks
    ensures Brisk(c, Turn(true, [Reported], Zeros(c.chunks), false))
  {
  }

  /** So any number of fields can be measured. */
  lemma AnyFieldsComplete(c: Settings, ring: seq<nat>, k: nat) returns (turns: seq<Step>)
    requires c.Sized() && |ring| == c.capacity > 0
    ensures var r := DoSteps(c, Start(ring), turns); !r.stopped && r.completed >= k
  {
    hide Brisk;
    BriskExists(c);
    assert k * c.Tracked() >= 0;
    turns := seq(3 * (k * c.Tracked()) + 2, _ => Turn(true, [Reported], Zeros(c.chunks), false));
    TurnsCompleteFields(c, ring, [], turns, k);
    assert [] + turns == turns;
  }

  // ---- draining -------------------------------------------------------------------------------------

  /** A poll that fails while tokens are out ends the draining there, with what was reported before it handled. */
  lemma {:induction false} DrainFails(c: Settings, s: Tx, polls: seq<Poll>, n: nat)
    requires Kept(c, s) && s.stopped && !s.ended && s.unread == 0 && n < |polls|
    requires forall i :: 0 <= i < n ==> polls[i].Nothing? || polls[i].Reported?
    requires polls[n].Broken? || polls[n].Unreadable?
    requires Reports(polls[..n]) < s.marked - s.handled
    ensures |s.ring| == c.capacity > 0
    ensures var r := DrainTokens(c, s, polls); r.ended && r.handled == s.handled + Reports(polls[..n])
    decreases n
  {
    hide Kept, Wrap;
    KeptNic(c, s);
    AllHandled(c, s);
    CompletionKept(c, s, polls[0]);
    if n > 0 {
      var done := ProcessCompletion(c, s, polls[0]).0;
      assert polls[..n][0] == polls[0] && polls[..n][1..] == polls[1..][..n - 1];
      DrainFails(c, done, polls[1..], n - 1);
    }
  }
}
