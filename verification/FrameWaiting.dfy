/**
 The consumers that wait for a frame of the buffered provider: threads, one mutex, a
 condition variable and a stop flag that is set without the mutex.  Steps of all
 threads come in any order.

 A blocking get holds the mutex while it looks at the queue and the flag; when it
 finds nothing it is still holding it, and then goes to sleep and lets go of it in
 one step.  Adding a frame holds the mutex and wakes one sleeper.  A stop sets the
 flag and later wakes all sleepers, in two steps that need no mutex.
 */
module FrameWaiting {
  import opened FrameProvider

  /** Where a consumer is: not in a get, decided to sleep, asleep, or woken and waiting for the mutex. */
  datatype Place = Outside | Deciding | Asleep | Woken

  /**
   `notifying` counts the stops that have set the flag and not yet woken the sleepers;
   `accepted` and `delivered` list frames in order.
   */
  datatype Room<!Frame> = Room(
    queue: seq<Frame>,
    maximum: nat,
    stopped: bool,
    notifying: nat,
    consumers: seq<Place>,
    accepted: seq<Frame>,
    delivered: seq<Frame>)

  /** `SetFlagLocked` is the stop that the destructor of the file provider makes, with the mutex. */
  datatype Step<!Frame> =
    | Look(i: nat)
    | Sleep(i: nat)
    | WakeByItself(i: nat)
    | Add(frame: Frame, wake: nat)
    | TryGet
    | SetFlag
    | SetFlagLocked
    | NotifyAll

  function Count(consumers: seq<Place>, place: Place): nat {
    if consumers == [] then 0
    else Count(consumers[..|consumers| - 1], place) + (if consumers[|consumers| - 1] == place then 1 else 0)
  }

  /** Nobody holds the mutex. */
  predicate Unlocked(consumers: seq<Place>) {
    Deciding !in consumers
  }

  predicate At(consumers: seq<Place>, i: nat, place: Place) {
    i < |consumers| && consumers[i] == place
  }

  function Pop<Frame>(s: Room<Frame>): Room<Frame>
    requires s.queue != []
  {
    s.(queue := s.queue[1..], delivered := s.delivered + [s.queue[0]])
  }

  /** A woken consumer: those that sleep are woken by a notification, and one if it is for one. */
  function WakeOne(consumers: seq<Place>, wake: nat): seq<Place> {
    if At(consumers, wake, Asleep) then consumers[wake := Woken] else consumers
  }

  function WakeAll(consumers: seq<Place>): (r: seq<Place>)
    ensures |r| == |consumers|
    ensures forall i :: 0 <= i < |r| ==> r[i] == if consumers[i] == Asleep then Woken else consumers[i]
  {
    seq(|consumers|, i requires 0 <= i < |consumers| => if consumers[i] == Asleep then Woken else consumers[i])
  }

  /** A notification for one goes to some sleeper if there is any. */
  predicate Allowed<Frame>(s: Room<Frame>, step: Step<Frame>) {
    match step
    case Look(i) => Unlocked(s.consumers) && (At(s.consumers, i, Outside) || At(s.consumers, i, Woken))
    case Sleep(i) => At(s.consumers, i, Deciding)
    case WakeByItself(i) => At(s.consumers, i, Asleep)
    case Add(_, wake) => Unlocked(s.consumers) && (Asleep in s.consumers ==> At(s.consumers, wake, Asleep))
    case TryGet => Unlocked(s.consumers)
    case SetFlag => true
    case SetFlagLocked => Unlocked(s.consumers)
    case NotifyAll => s.notifying > 0
  }

  function DoStep<Frame>(s: Room<Frame>, step: Step<Frame>): Room<Frame>
    requires Allowed(s, step)
  {
    match step
    case Look(i) =>
      if s.queue != [] then Pop(s).(consumers := s.consumers[i := Outside])
      else s.(consumers := s.consumers[i := if s.stopped then Outside else Deciding])
    case Sleep(i) => s.(consumers := s.consumers[i := Asleep])
    case WakeByItself(i) => s.(consumers := s.consumers[i := Woken])
    case Add(frame, wake) =>
      if Full(s.queue, s.maximum) then s
      else s.(queue := s.queue + [frame], accepted := s.accepted + [frame], consumers := WakeOne(s.consumers, wake))
    case TryGet => if s.queue == [] then s else Pop(s)
    case SetFlag => s.(stopped := true, notifying := s.notifying + 1)
    case SetFlagLocked => s.(stopped := true, notifying := s.notifying + 1)
    case NotifyAll => s.(notifying := s.notifying - 1, consumers := WakeAll(s.consumers))
  }

  ghost predicate IsRun<Frame>(s: Room<Frame>, steps: seq<Step<Frame>>)
    decreases |steps|
  {
    steps == [] || (Allowed(s, steps[0]) && IsRun(DoStep(s, steps[0]), steps[1..]))
  }

  function After<Frame>(s: Room<Frame>, steps: seq<Step<Frame>>): Room<Frame>
    requires IsRun(s, steps)
    decreases |steps|
  {
    if steps == [] then s else After(DoStep(s, steps[0]), steps[1..])
  }

  function Opened<Frame>(maximum: nat, consumers: nat): Room<Frame> {
    Room([], maximum, false, 0, seq(consumers, _ => Outside), [], [])
  }

  // ---- counting places -------------------------------------------------------------------------

  lemma {:induction false} CountUpdate(consumers: seq<Place>, i: nat, to: Place, place: Place)
    requires i < |consumers|
    ensures Count(consumers[i := to], place) + (if consumers[i] == place then 1 else 0)
         == Count(consumers, place) + (if to == place then 1 else 0)
    decreases |consumers|
  {
    var n := |consumers| - 1;
    if i < n {
      assert consumers[i := to][..n] == consumers[..n][i := to];
      CountUpdate(consumers[..n], i, to, place);
    } else {
      assert consumers[i := to][..n] == consumers[..n];
    }
  }

  lemma {:induction false} CountNone(consumers: seq<Place>, place: Place)
    ensures Count(consumers, place) == 0 <==> place !in consumers
    decreases |consumers|
  {
    if consumers != [] {
      var n := |consumers| - 1;
      CountNone(consumers[..n], place);
      assert consumers == consumers[..n] + [consumers[n]];
    }
  }

  lemma {:induction false} CountWakeAll(consumers: seq<Place>)
    ensures Count(WakeAll(consumers), Asleep) == 0
    ensures Count(WakeAll(consumers), Deciding) == Count(consumers, Deciding)
    ensures Count(WakeAll(consumers), Woken) == Count(consumers, Woken) + Count(consumers, Asleep)
    decreases |consumers|
  {
    if consumers != [] {
      var n := |consumers| - 1;
      assert WakeAll(consumers)[..n] == WakeAll(consumers[..n]);
      CountWakeAll(consumers[..n]);
    }
  }

  // ---- what every step keeps ---------------------------------------------------------------------

  /** Nothing accepted is lost, reordered or handed out twice, and the bound is kept. */
  ghost predicate FramesKept<Frame>(s: Room<Frame>) {
    s.delivered + s.queue == s.accepted && (s.maximum > 0 ==> |s.queue| <= s.maximum)
  }

  /**
   At most one consumer holds the mutex, and then there is no frame; and for every
   frame somebody is on the way, unless nobody sleeps.
   */
  predicate NobodyOverslept<Frame>(s: Room<Frame>) {
    && Count(s.consumers, Deciding) <= 1
    && (0 < Count(s.consumers, Deciding) ==> s.queue == [])
    && (0 < Count(s.consumers, Asleep) ==> |s.queue| <= Count(s.consumers, Woken))
  }

  lemma StepKeepsFrames<Frame>(s: Room<Frame>, step: Step<Frame>)
    requires Allowed(s, step) && FramesKept(s)
    ensures FramesKept(DoStep(s, step))
  {
    match step
    case Look(_) =>
      if s.queue != [] {
        assert (s.delivered + [s.queue[0]]) + s.queue[1..] == s.delivered + s.queue;
      }
    case TryGet =>
      if s.queue != [] {
        assert (s.delivered + [s.queue[0]]) + s.queue[1..] == s.delivered + s.queue;
      }
    case Add(frame, _) =>
      assert s.delivered + (s.queue + [frame]) == (s.delivered + s.queue) + [frame];
    case _ =>
  }

  /** A consumer that moves, place by place. */
  lemma Moves(consumers: seq<Place>, i: nat, to: Place)
    requires i < |consumers|
    ensures forall place :: Count(consumers[i := to], place) + (if consumers[i] == place then 1 else 0)
                         == Count(consumers, place) + (if to == place then 1 else 0)
  {
    forall place {
      CountUpdate(consumers, i, to, place);
    }
  }

  lemma StepKeepsWatch<Frame>(s: Room<Frame>, step: Step<Frame>)
    requires Allowed(s, step) && NobodyOverslept(s)
    ensures NobodyOverslept(DoStep(s, step))
  {
    hide Count, WakeAll;
    CountNone(s.consumers, Deciding);
    CountNone(s.consumers, Asleep);
    match step
    case Look(i) =>
      Moves(s.consumers, i, DoStep(s, step).consumers[i]);
    case Sleep(i) =>
      Moves(s.consumers, i, Asleep);
    case WakeByItself(i) =>
      Moves(s.consumers, i, Woken);
    case Add(_, wake) =>
      if At(s.consumers, wake, Asleep) {
        Moves(s.consumers, wake, Woken);
      }
    case TryGet =>
    case SetFlag =>
    case SetFlagLocked =>
    case NotifyAll =>
      CountWakeAll(s.consumers);
  }

  // ---- whole runs --------------------------------------------------------------------------------

  lemma {:induction false} RunKeeps<Frame>(s: Room<Frame>, steps: seq<Step<Frame>>)
    requires IsRun(s, steps) && FramesKept(s) && NobodyOverslept(s)
    ensures FramesKept(After(s, steps)) && NobodyOverslept(After(s, steps))
    decreases |steps|
  {
    hide FramesKept, NobodyOverslept, DoStep, Allowed;
    if steps != [] {
      StepKeepsFrames(s, steps[0]);
      StepKeepsWatch(s, steps[0]);
      RunKeeps(DoStep(s, steps[0]), steps[1..]);
    }
  }

  lemma {:induction false} NobodyInside(n: nat, place: Place)
    ensures place != Outside ==> Count(seq(n, _ => Outside), place) == 0
    decreases n
  {
    if n > 0 {
      assert seq(n, _ => Outside)[..n - 1] == seq(n - 1, _ => Outside);
      NobodyInside(n - 1, place);
    }
  }

  /**
   In every run, of any number of consumers: frames come out once each and in order,
   and a frame is never left in the queue while a consumer sleeps and none is woken.
   */
  lemma NoFrameIsOverslept<Frame>(maximum: nat, consumers: nat, steps: seq<Step<Frame>>)
    requires IsRun(Opened(maximum, consumers), steps)
    ensures var s := After(Opened(maximum, consumers), steps);
      && s.delivered + s.queue == s.accepted && (s.maximum > 0 ==> |s.queue| <= s.maximum)
      && (s.queue != [] && Asleep in s.consumers ==> Woken in s.consumers && |s.queue| <= Count(s.consumers, Woken))
  {
    hide After, Count;
    var first := Opened<Frame>(maximum, consumers);
    NobodyInside(consumers, Deciding);
    NobodyInside(consumers, Asleep);
    RunKeeps(first, steps);
    var s := After(first, steps);
    CountNone(s.consumers, Asleep);
    CountNone(s.consumers, Woken);
  }

  /** Frames accepted and not yet delivered. */
  function Waiting<Frame>(s: Room<Frame>): int {
    |s.accepted| - |s.delivered|
  }

  /** A get takes the oldest frame waiting if there is one. */
  ghost predicate Delivers<Frame>(s: Room<Frame>, r: Room<Frame>) {
    && r.accepted == s.accepted
    && (0 < Waiting(s) ==> r.delivered == s.delivered + [s.accepted[|s.delivered|]])
    && (Waiting(s) <= 0 ==> r.delivered == s.delivered)
  }

  /**
   Progress: at every moment of every run a get, blocking or not, takes the oldest frame
   waiting exactly if there is one, stopped or not; a frame is accepted exactly if the
   bound leaves room for it, and nothing else moves frames.
   */
  lemma FramesMove<Frame>(maximum: nat, consumers: nat, steps: seq<Step<Frame>>, step: Step<Frame>)
    requires IsRun(Opened(maximum, consumers), steps) && Allowed(After(Opened(maximum, consumers), steps), step)
    ensures var s := After(Opened(maximum, consumers), steps);
      var r := DoStep(s, step);
      match step
      case Look(_) => Delivers(s, r)
      case TryGet => Delivers(s, r)
      case Add(frame, _) =>
        && r.delivered == s.delivered
        && (maximum == 0 || Waiting(s) < maximum ==> r.accepted == s.accepted + [frame])
        && (0 < maximum <= Waiting(s) ==> r.accepted == s.accepted)
      case _ => r.delivered == s.delivered && r.accepted == s.accepted
  {
    hide After, Count, WakeAll, NobodyOverslept;
    var first := Opened<Frame>(maximum, consumers);
    NobodyOversleepsAtFirst<Frame>(maximum, consumers);
    RunKeeps(first, steps);
    MaximumStays(first, steps);
    var s := After(first, steps);
    assert s.accepted == s.delivered + s.queue;
    if s.queue != [] {
      assert s.accepted[..|s.delivered| + 1] == s.delivered + [s.queue[0]];
    }
  }

  lemma NobodyOversleepsAtFirst<Frame>(maximum: nat, consumers: nat)
    ensures NobodyOverslept(Opened<Frame>(maximum, consumers)) && FramesKept(Opened<Frame>(maximum, consumers))
  {
    NobodyInside(consumers, Deciding);
    NobodyInside(consumers, Asleep);
  }

  lemma {:induction false} MaximumStays<Frame>(s: Room<Frame>, steps: seq<Step<Frame>>)
    requires IsRun(s, steps)
    ensures After(s, steps).maximum == s.maximum
    decreases |steps|
  {
    if steps != [] {
      MaximumStays(DoStep(s, steps[0]), steps[1..]);
    }
  }

  /** So many gets that do not wait. */
  function Gets<Frame>(n: nat): (r: seq<Step<Frame>>)
    ensures |r| == n
  {
    if n == 0 then [] else [TryGet] + Gets(n - 1)
  }

  /** From every moment at which nobody holds the mutex, gets can take out every frame accepted. */
  lemma {:induction false} AllCanBeTaken<Frame>(s: Room<Frame>)
    requires FramesKept(s) && Unlocked(s.consumers)
    ensures IsRun(s, Gets(|s.queue|)) && After(s, Gets(|s.queue|)).delivered == s.accepted
    decreases |s.queue|
  {
    if s.queue != [] {
      StepKeepsFrames(s, TryGet);
      AllCanBeTaken(DoStep(s, TryGet));
      assert Gets<Frame>(|s.queue|)[1..] == Gets<Frame>(|s.queue| - 1);
    } else {
      assert s.delivered + s.queue == s.delivered;
    }
  }

  // ---- the stop ----------------------------------------------------------------------------------

  /** Stopped, and nobody sleeps or is about to. */
  predicate Awake<Frame>(s: Room<Frame>) {
    s.stopped && Unlocked(s.consumers) && Asleep !in s.consumers
  }

  lemma {:induction false} AwakeStays<Frame>(s: Room<Frame>, steps: seq<Step<Frame>>)
    requires IsRun(s, steps) && Awake(s)
    ensures Awake(After(s, steps))
    decreases |steps|
  {
    if steps != [] {
      AwakeStep(s, steps[0]);
      AwakeStays(DoStep(s, steps[0]), steps[1..]);
    }
  }

  lemma AwakeStep<Frame>(s: Room<Frame>, step: Step<Frame>)
    requires Allowed(s, step) && Awake(s)
    ensures Awake(DoStep(s, step))
  {
  }

  /** After the flag is set nobody decides to sleep any more. */
  lemma {:induction false} NobodyDecides<Frame>(s: Room<Frame>, steps: seq<Step<Frame>>)
    requires IsRun(s, steps) && s.stopped && Unlocked(s.consumers)
    ensures After(s, steps).stopped && Unlocked(After(s, steps).consumers)
    decreases |steps|
  {
    if steps != [] {
      NobodyDecidesStep(s, steps[0]);
      NobodyDecides(DoStep(s, steps[0]), steps[1..]);
    }
  }

  lemma NobodyDecidesStep<Frame>(s: Room<Frame>, step: Step<Frame>)
    requires Allowed(s, step) && s.stopped && Unlocked(s.consumers)
    ensures DoStep(s, step).stopped && Unlocked(DoStep(s, step).consumers)
  {
  }

  lemma OneSleeps<Frame>(s: Room<Frame>, i: nat)
    requires At(s.consumers, i, Deciding)
    ensures var steps: seq<Step<Frame>> := [Sleep(i)]; IsRun(s, steps) && Asleep in After(s, steps).consumers
  {
    var steps: seq<Step<Frame>> := [Sleep(i)];
    assert steps[1..] == [];
    assert DoStep(s, Sleep(i)).consumers[i] == Asleep;
  }

  /**
   When a stop wakes the sleepers, all consumers are awake for good if and only if
   none of them had found nothing and not yet gone to sleep.
   */
  lemma StopWakesAllIff<Frame(!new)>(s: Room<Frame>)
    requires s.stopped && s.notifying > 0
    ensures (forall steps: seq<Step<Frame>> :: IsRun(DoStep(s, NotifyAll), steps) ==>
              Asleep !in After(DoStep(s, NotifyAll), steps).consumers)
            <==> Unlocked(s.consumers)
  {
    var t := DoStep(s, NotifyAll);
    if Unlocked(s.consumers) {
      forall steps: seq<Step<Frame>> | IsRun(t, steps)
        ensures Asleep !in After(t, steps).consumers
      {
        AwakeStays(t, steps);
      }
    } else {
      var i :| 0 <= i < |s.consumers| && s.consumers[i] == Deciding;
      OneSleeps(t, i);
    }
  }

  /** A stop that holds the mutex while it sets the flag leaves nobody asleep, whatever happens around it. */
  lemma LockedStopWakesAll<Frame>(s: Room<Frame>, between: seq<Step<Frame>>, more: seq<Step<Frame>>)
    requires Allowed(s, SetFlagLocked)
    requires IsRun(DoStep(s, SetFlagLocked), between)
    requires Allowed(After(DoStep(s, SetFlagLocked), between), NotifyAll)
    requires IsRun(DoStep(After(DoStep(s, SetFlagLocked), between), NotifyAll), more)
    ensures Awake(After(DoStep(After(DoStep(s, SetFlagLocked), between), NotifyAll), more))
  {
    hide After, IsRun;
    NobodyDecides(DoStep(s, SetFlagLocked), between);
    AwakeStays(DoStep(After(DoStep(s, SetFlagLocked), between), NotifyAll), more);
  }

  /** Stopped, and at most one consumer sleeps or is about to. */
  predicate OneLeft<Frame>(s: Room<Frame>) {
    s.stopped && Count(s.consumers, Asleep) + Count(s.consumers, Deciding) <= 1
  }

  lemma OneLeftStep<Frame>(s: Room<Frame>, step: Step<Frame>)
    requires Allowed(s, step) && OneLeft(s)
    ensures OneLeft(DoStep(s, step))
  {
    hide Count, WakeAll;
    match step
    case Look(i) =>
      Moves(s.consumers, i, Outside);
    case Sleep(i) =>
      Moves(s.consumers, i, Asleep);
    case WakeByItself(i) =>
      Moves(s.consumers, i, Woken);
    case Add(_, wake) =>
      if At(s.consumers, wake, Asleep) {
        Moves(s.consumers, wake, Woken);
      }
    case TryGet =>
    case SetFlag =>
    case SetFlagLocked =>
    case NotifyAll =>
      CountWakeAll(s.consumers);
  }

  lemma {:induction false} OneLeftStays<Frame>(s: Room<Frame>, steps: seq<Step<Frame>>)
    requires IsRun(s, steps) && OneLeft(s)
    ensures OneLeft(After(s, steps))
    decreases |steps|
  {
    hide OneLeft, DoStep, Allowed;
    if steps != [] {
      OneLeftStep(s, steps[0]);
      OneLeftStays(DoStep(s, steps[0]), steps[1..]);
    }
  }

  /** In every run a stop that has woken the sleepers leaves at most one consumer asleep from then on. */
  lemma StopLeavesAtMostOne<Frame>(maximum: nat, consumers: nat, before: seq<Step<Frame>>, more: seq<Step<Frame>>)
    requires IsRun(Opened(maximum, consumers), before)
    requires var s := After(Opened(maximum, consumers), before);
      s.stopped && Allowed(s, NotifyAll) && IsRun(DoStep(s, NotifyAll), more)
    ensures var s := After(Opened(maximum, consumers), before);
      Count(After(DoStep(s, NotifyAll), more).consumers, Asleep) <= 1
  {
    hide After, IsRun, Count, WakeAll;
    var first := Opened<Frame>(maximum, consumers);
    NobodyInside(consumers, Deciding);
    NobodyInside(consumers, Asleep);
    RunKeeps(first, before);
    var s := After(first, before);
    CountWakeAll(s.consumers);
    OneLeftStays(DoStep(s, NotifyAll), more);
  }

  /** A consumer looks and finds nothing; the stop comes before it sleeps. */
  function StopTooEarly<Frame>(): seq<Step<Frame>> {
    [Look(0), SetFlag, NotifyAll, Sleep(0)]
  }

  /** For any bound and any consumers there is a run in which the stop leaves one asleep, all notifications made. */
  lemma StopCanLeaveOne<Frame>(maximum: nat, consumers: nat)
    requires 0 < consumers
    ensures IsRun(Opened<Frame>(maximum, consumers), StopTooEarly())
    ensures var s := After(Opened<Frame>(maximum, consumers), StopTooEarly());
      s.stopped && s.notifying == 0 && At(s.consumers, 0, Asleep)
  {
    var s := Opened<Frame>(maximum, consumers);
    var steps := StopTooEarly<Frame>();
    var s1 := DoStep(s, steps[0]);
    var s2 := DoStep(s1, steps[1]);
    var s3 := DoStep(s2, steps[2]);
    assert steps[1..][1..][1..][1..] == [];
    assert steps[1..][0] == SetFlag && steps[1..][1..][0] == NotifyAll && steps[1..][1..][1..][0] == Sleep(0);
    assert IsRun(s3, steps[1..][1..][1..]);
    assert IsRun(s2, steps[1..][1..]);
    assert IsRun(s1, steps[1..]);
  }
}
