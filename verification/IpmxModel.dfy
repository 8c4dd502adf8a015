/**
 The IPMX sender: commit and completion counters kept against a network card
 that answers asynchronously.  The functions here are the sender's code, given
 the card's answers; `IpmxSender` holds the same code as objects.

 A chunk's tracking token comes back with its completion.  The first chunk of a
 field carries the field's number, the last chunk the all-ones token.
 Sender reports are those of section 6.4.1 of RFC 3550.
 */
module IpmxModel {

  const LAST_CHUNK_TOKEN: nat := 0xFFFF_FFFF_FFFF_FFFF

  datatype Reason = Device | OutOfOrder | Unsolicited | InvalidSender

  /** `ReturnStatus`, with the reason of a failure told apart. */
  datatype Status = Success | SignalReceived | NoCompletion | QueueFull | NoFreeChunks | Failure(reason: Reason)

  /** `chunks` in a field and `fields` in the memory block. */
  datatype Shape = Shape(chunks: nat, fields: nat) {
    predicate Valid() {
      0 < chunks && 0 < fields
    }
  }

  datatype Sender = Sender(
    committedReports: nat,
    finishedReports: nat,
    committedFirst: nat,
    finishedFirst: nat,
    committedFields: nat,
    finishedFields: nat,
    chunkInField: nat,
    pending: bool)

  const NEW_SENDER := Sender(0, 0, 0, 0, 0, 0, 0, false)

  /** The senders of a node and the number of reports the shared handler waits for. */
  datatype Node = Node(senders: seq<Sender>, pendingReports: nat)

  // ---- the card's answers --------------------------------------------------------

  /** `taken` says whether the card accepts the report, which the sender does not look at. */
  datatype ReportAnswer = ReportAnswer(buffer: Status, layout: Status, taken: bool)

  datatype CommitAnswer = CommitAnswer(chunk: Status, marked: bool, commit: Status)

  /** A completion poll; `info` says whether the completion can be read, and `token` is what it carries. */
  datatype PollAnswer = PollAnswer(poll: Status, info: bool, token: nat)

  // ---- one sender ------------------------------------------------------------------

  predicate HasFreeBuffer(shape: Shape, s: Sender) {
    s.committedFields < s.finishedFields + shape.fields
  }

  predicate ReportSent(s: Sender) {
    s.finishedReports >= s.finishedFields + 1
  }

  predicate CanSleep(shape: Shape, s: Sender) {
    !HasFreeBuffer(shape, s) && ReportSent(s)
  }

  datatype ReportEffect = ReportEffect(sender: Sender, pendingReports: nat, status: Status)

  /** `commit_sender_report` through the shared handler. */
  function CommitReport(s: Sender, pendingReports: nat, a: ReportAnswer): ReportEffect {
    if a.buffer != Success then ReportEffect(s, pendingReports, a.buffer)
    else if a.layout != Success then ReportEffect(s, pendingReports, a.layout)
    else ReportEffect(s.(committedReports := s.committedReports + 1), pendingReports + 1, Success)
  }

  /** `process_media_completion` for a token. */
  function ProcessCompletion(s: Sender, pendingReports: nat, token: nat, a: ReportAnswer): ReportEffect {
    if token == LAST_CHUNK_TOKEN then
      ReportEffect(s.(finishedFields := s.finishedFields + 1), pendingReports, Success)
    else if token != s.finishedFirst then
      ReportEffect(s, pendingReports, Failure(OutOfOrder))
    else
      CommitReport(s.(finishedFirst := s.finishedFirst + 1), pendingReports, a)
  }

  /** `track_media_completions`. */
  function Track(s: Sender, pendingReports: nat, p: PollAnswer, a: ReportAnswer): ReportEffect {
    match p.poll
    case NoCompletion => ReportEffect(s, pendingReports, Success)
    case Success =>
      if !p.info then ReportEffect(s, pendingReports, Failure(Device))
      else ProcessCompletion(s, pendingReports, p.token, a)
    case _ => ReportEffect(s, pendingReports, p.poll)
  }

  /** The token the chunk at this place of its field is marked with, if any. */
  function TokenFor(shape: Shape, s: Sender): seq<nat> {
    if s.chunkInField == 0 then [s.committedFirst]
    else if s.chunkInField == shape.chunks - 1 then [LAST_CHUNK_TOKEN]
    else []
  }

  /** The counters after a chunk is accepted. */
  function Advance(shape: Shape, s: Sender): Sender {
    var first := if s.chunkInField == 0 then s.committedFirst + 1 else s.committedFirst;
    if s.chunkInField + 1 == shape.chunks
    then s.(committedFirst := first, chunkInField := 0, committedFields := s.committedFields + 1)
    else s.(committedFirst := first, chunkInField := s.chunkInField + 1)
  }

  datatype CommitEffect = CommitEffect(sender: Sender, status: Status)

  /** `commit_next_media_chunk`: a refused chunk is kept and offered again. */
  function CommitChunk(shape: Shape, s: Sender, a: CommitAnswer): CommitEffect {
    if !s.pending && a.chunk != Success then CommitEffect(s, a.chunk)
    else
      var t := s.(pending := false);
      if TokenFor(shape, s) != [] && !a.marked then CommitEffect(t, Failure(Device))
      else if a.commit == QueueFull then CommitEffect(t.(pending := true), Success)
      else if a.commit != Success then CommitEffect(t, a.commit)
      else CommitEffect(Advance(shape, t), Success)
  }

  /** `notify_report_completion`. */
  function NotifyReport(s: Sender): CommitEffect {
    if s.committedReports <= s.finishedReports then CommitEffect(s, Failure(Unsolicited))
    else CommitEffect(s.(finishedReports := s.finishedReports + 1), Success)
  }

  // ---- the node's steps ------------------------------------------------------------

  /**
   `Greet` is a sender's report before the loop, `CheckReport` the poll of the
   shared handler, `TrackMedia` and `CommitMedia` a sender's turn in the loop.
   */
  datatype Step =
    | Greet(id: nat, report: ReportAnswer)
    | CheckReport(poll: PollAnswer)
    | TrackMedia(id: nat, poll: PollAnswer, report: ReportAnswer)
    | CommitMedia(id: nat, answer: CommitAnswer)

  datatype Effect = Effect(node: Node, status: Status)

  function SetSender(n: Node, i: nat, e: ReportEffect): Effect
    requires i < |n.senders|
  {
    Effect(Node(n.senders[i := e.sender], e.pendingReports), e.status)
  }

  /** `check_completion` of the handler, then `notify_report_completion` of the sender it names. */
  function CheckReports(n: Node, p: PollAnswer): Effect {
    if n.pendingReports == 0 || p.poll == NoCompletion then Effect(n, Success)
    else if p.poll != Success then Effect(n, p.poll)
    else if !p.info then Effect(n, Failure(Device))
    else
      var m := n.(pendingReports := n.pendingReports - 1);
      if p.token >= |n.senders| then Effect(m, Failure(InvalidSender))
      else
        var e := NotifyReport(n.senders[p.token]);
        Effect(m.(senders := n.senders[p.token := e.sender]), e.status)
  }

  predicate Names(n: Node, step: Step) {
    step.CheckReport? || step.id < |n.senders|
  }

  function DoStep(shape: Shape, n: Node, step: Step): (e: Effect)
    requires Names(n, step)
    ensures |e.node.senders| == |n.senders|
  {
    match step
    case Greet(i, a) => SetSender(n, i, CommitReport(n.senders[i], n.pendingReports, a))
    case CheckReport(p) => CheckReports(n, p)
    case TrackMedia(i, p, a) => SetSender(n, i, Track(n.senders[i], n.pendingReports, p, a))
    case CommitMedia(i, a) =>
      if !HasFreeBuffer(shape, n.senders[i]) then Effect(n, Success)
      else
        var e := CommitChunk(shape, n.senders[i], a);
        Effect(n.(senders := n.senders[i := e.sender]), e.status)
  }

  /** Steps one after another, up to the first that does not succeed. */
  function DoSteps(shape: Shape, n: Node, steps: seq<Step>): (e: Effect)
    requires forall step :: step in steps ==> Names(n, step)
    ensures |e.node.senders| == |n.senders|
    decreases |steps|
  {
    if steps == [] then Effect(n, Success)
    else
      var e := DoSteps(shape, n, steps[..|steps| - 1]);
      assert Names(n, steps[|steps| - 1]);
      if e.status != Success then e else DoStep(shape, e.node, steps[|steps| - 1])
  }
}
