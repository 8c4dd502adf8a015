/**
 The media latency sender as its source has it: counters and a time ring updated
 in place by the completion and commit loops.
 */
module TxSender {
  import opened Modular
  import opened TxWindow

  class MediaTxIONode {
    const settings: Settings
    const commitTs: array<nat>
    var committed: nat
    var completed: nat
    var chunkInField: nat
    var completionInField: nat
    var marked: nat
    var handled: nat
    /** The card's queue, and the times of its tokens and of its completions. */
    var nic: seq<nat>
    var sent: seq<nat>
    var measured: seq<nat>
    var unread: nat
    var disordered: nat
    var stopped: bool
    var ended: bool

    ghost function View(): Tx
      reads this, commitTs
    {
      Tx(committed, completed, chunkInField, completionInField, marked, handled, commitTs[..],
         nic, sent, measured, unread, disordered, stopped, ended)
    }

    ghost predicate Valid()
      reads this
    {
      settings.Valid() && commitTs.Length == settings.capacity > 0
    }

    constructor (settings: Settings)
      requires settings.Valid()
      ensures Valid() && this.settings == settings && fresh(commitTs)
      ensures View() == Start(commitTs[..])
    {
      assert settings.fields * settings.chunks > 0;
      this.settings := settings;
      committed, completed, chunkInField, completionInField, marked, handled := 0, 0, 0, 0, 0, 0;
      commitTs := new nat[settings.capacity];
      nic, sent, measured := [], [], [];
      unread, disordered, stopped, ended := 0, 0, false, false;
    }

    /** Polls the card once. */
    method TryProcessOneCompletion(poll: Poll) returns (status: Status)
      requires Valid()
      modifies this
      ensures Valid() && (View(), status) == ProcessCompletion(settings, old(View()), poll)
    {
      if poll.Broken? {
        return Failure;
      }
      if poll.Nothing? || nic == [] {
        return NoCompletion;
      }
      var token := nic[0];
      nic := nic[1..];
      if poll.Unreadable? {
        unread := unread + 1;
        return Failure;
      }
      if token != handled {
        disordered := disordered + 1;
        return Failure;
      }
      measured := measured + [commitTs[Wrap(handled, settings.capacity)]];
      handled := handled + 1;
      return Handled;
    }

    /** Fetches completions as the card answers, within the budget, and closes the field they complete. */
    method FetchCompletions(polls: seq<Poll>)
      requires Valid()
      modifies this
      ensures Valid() && View() == CompletionPhase(settings, old(View()), polls)
    {
      hide Wrap, ProcessCompletion;
      var i, budget, more := 0, FETCH_BUDGET, true;
      while more
        invariant Valid() && 0 <= i <= |polls| && 0 <= budget
        invariant more ==>
          Fetch(settings, View(), polls[i..], budget) == Fetch(settings, old(View()), polls, FETCH_BUDGET)
        invariant !more ==> View() == Fetch(settings, old(View()), polls, FETCH_BUDGET)
        decreases more, |polls| - i
      {
        if i == |polls| {
          more := false;
        } else {
          assert polls[i..][1..] == polls[i + 1..];
          var status := TryProcessOneCompletion(polls[i]);
          match status
          case NoCompletion =>
            more := false;
          case Failure =>
            more, stopped := false, true;
          case Handled =>
            completionInField := completionInField + 1;
            if budget <= 1 || completionInField >= settings.Tracked() {
              more := false;
            } else {
              i, budget := i + 1, budget - 1;
            }
        }
      }
      if completionInField == settings.Tracked() {
        completed, completionInField := completed + 1, 0;
      }
    }

    /** Polls until every token is handled or a poll fails. */
    method DrainCompletions(polls: seq<Poll>)
      requires Valid() && !ended
      modifies this
      ensures Valid() && View() == DrainTokens(settings, old(View()), polls)
    {
      hide Wrap, ProcessCompletion;
      var i := 0;
      while i < |polls| && handled != marked && !ended
        invariant Valid() && 0 <= i <= |polls|
        invariant !ended ==>
          DrainTokens(settings, View(), polls[i..]) == DrainTokens(settings, old(View()), polls)
        invariant ended ==> View() == DrainTokens(settings, old(View()), polls)
        decreases |polls| - i
      {
        assert polls[i..][1..] == polls[i + 1..];
        var status := TryProcessOneCompletion(polls[i]);
        if status.Failure? {
          ended := true;
        }
        i := i + 1;
      }
    }

    method CommitOneChunk(time: nat)
      requires Valid()
      modifies this, commitTs
      ensures Valid() && View() == CommitChunk(settings, old(View()), time)
    {
      commitTs[Wrap(marked, settings.capacity)] := time;
      if chunkInField < settings.Tracked() {
        nic, sent := nic + [marked], sent + [time];
        marked := marked + 1;
      }
      chunkInField := chunkInField + 1;
    }

    /** Commits chunks as the card answers, and closes the field they end. */
    method CommitFieldChunks(answers: seq<Answer>)
      requires Valid()
      modifies this, commitTs
      ensures Valid() && View() == CommitPhase(settings, old(View()), answers)
    {
      hide CommitChunk, Wrap;
      var i, more := 0, true;
      while more
        invariant Valid() && 0 <= i <= |answers|
        invariant more ==> CommitChunks(settings, View(), answers[i..]) == CommitChunks(settings, old(View()), answers)
        invariant !more ==> View() == CommitChunks(settings, old(View()), answers)
        decreases more, |answers| - i
      {
        if i == |answers| {
          more, stopped := false, true;
        } else if answers[i].Failed? {
          commitTs[Wrap(marked, settings.capacity)] := answers[i].time;
          more, stopped := false, true;
        } else {
          assert answers[i..][1..] == answers[i + 1..];
          CommitOneChunk(answers[i].time);
          if answers[i].blocked || chunkInField >= settings.chunks {
            more := false;
          } else {
            i := i + 1;
          }
        }
      }
      if chunkInField == settings.chunks {
        committed, chunkInField := committed + 1, 0;
      }
    }

    /** One turn of the loop. */
    method RunOnce(isTime: bool, polls: seq<Poll>, answers: seq<Answer>, last: bool)
      requires Valid() && !stopped
      modifies this, commitTs
      ensures Valid() && View() == DoTurn(settings, old(View()), isTime, polls, answers, last)
    {
      hide CompletionPhase, CommitPhase;
      var inFlight :=
        if completed <= committed then committed - completed else SIZE_MAX_PLUS_ONE + committed - completed;
      var isPlaceToCommit := inFlight < settings.fields;
      if isTime {
        FetchCompletions(polls);
      }
      if stopped || !isPlaceToCommit {
        return;
      }
      CommitFieldChunks(answers);
      stopped := stopped || last;
    }
  }
}
