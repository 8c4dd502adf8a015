/**
 The IPMX token protocol over whole runs.  The card is a queue of tracked
 tokens for each sender and one queue of sender reports; it answers in order but
 at any time, may refuse a chunk because its queue is full, and may drop a report.
 */
module IpmxProtocol {
  import opened IpmxModel

  /** What the card and the stream buffer hold for a sender; `sent` numbers the prepared chunks it took. */
  datatype Card = Card(queue: seq<nat>, prepared: nat, sent: seq<nat>, greeted: bool)

  datatype World = World(cards: seq<Card>, reports: seq<nat>)

  const NEW_CARD := Card([], 0, [], false)

  function StartNode(senders: nat): Node {
    Node(seq(senders, _ => NEW_SENDER), 0)
  }

  function StartWorld(senders: nat): World {
    World(seq(senders, _ => NEW_CARD), [])
  }

  /** The card's own failures are all of its device. */
  predicate OfDevice(status: Status) {
    status.Failure? ==> status.reason == Device
  }

  predicate OfDevices(step: Step) {
    match step
    case Greet(_, a) => OfDevice(a.buffer) && OfDevice(a.layout)
    case CheckReport(p) => OfDevice(p.poll)
    case TrackMedia(_, p, a) => OfDevice(p.poll) && OfDevice(a.buffer) && OfDevice(a.layout)
    case CommitMedia(_, a) => OfDevice(a.chunk) && OfDevice(a.commit)
  }

  /** The card's rules: completions come back in order, and only for what was sent. */
  predicate Legal(n: Node, w: World, step: Step) {
    && Names(n, step) && |w.cards| == |n.senders| && OfDevices(step)
    && match step
       case Greet(i, _) => !w.cards[i].greeted
       case CheckReport(p) => p.poll.Success? ==> w.reports != [] && p.token == w.reports[0]
       case TrackMedia(i, p, _) => p.poll.Success? ==> w.cards[i].queue != [] && p.token == w.cards[i].queue[0]
       case CommitMedia(_, _) => true
  }

  function Announce(reports: seq<nat>, i: nat, before: Sender, after: Sender, a: ReportAnswer): seq<nat> {
    if after.committedReports > before.committedReports && a.taken then reports + [i] else reports
  }

  /** What a step does to the card, for a step that succeeds. */
  function React(shape: Shape, n: Node, w: World, step: Step): (r: World)
    requires Legal(n, w, step)
    ensures |r.cards| == |w.cards|
  {
    var after := DoStep(shape, n, step).node;
    match step
    case Greet(i, a) =>
      World(w.cards[i := w.cards[i].(greeted := true)],
            Announce(w.reports, i, n.senders[i], after.senders[i], a))
    case CheckReport(p) =>
      if n.pendingReports > 0 && p.poll.Success? then w.(reports := w.reports[1..]) else w
    case TrackMedia(i, p, a) =>
      if p.poll.Success?
      then World(w.cards[i := w.cards[i].(queue := w.cards[i].queue[1..])],
                 Announce(w.reports, i, n.senders[i], after.senders[i], a))
      else w
    case CommitMedia(i, a) =>
      var s, card := n.senders[i], w.cards[i];
      if !HasFreeBuffer(shape, s) then w
      else
        var prepared := if s.pending then card.prepared else card.prepared + 1;
        if a.commit == QueueFull || prepared == 0 then w.(cards := w.cards[i := card.(prepared := prepared)])
        else w.(cards := w.cards[i := card.(
               queue := card.queue + TokenFor(shape, s), prepared := prepared, sent := card.sent + [prepared - 1])])
  }

  // ---- the token stream ----------------------------------------------------------

  /** The tokens of one sender in the order they are marked: field 0, last, field 1, last, ... */
  function TokenAt(k: nat): nat {
    if k % 2 == 0 then k / 2 else LAST_CHUNK_TOKEN
  }

  function Tokens(from: nat, to: nat): (r: seq<nat>)
    requires from <= to
    ensures |r| == to - from
    ensures forall k :: 0 <= k < |r| ==> r[k] == TokenAt(from + k)
  {
    seq<nat>(to - from, k requires 0 <= k < to - from => TokenAt(from + k))
  }

  /** How many tokens of a sender were marked and how many came back. */
  function Marked(s: Sender): nat {
    s.committedFirst + s.committedFields
  }

  function Returned(s: Sender): nat {
    s.finishedFirst + s.finishedFields
  }

  /** A field in progress has its first chunk out and its last not yet. */
  function InProgress(s: Sender): nat {
    if s.chunkInField > 0 then 1 else 0
  }

  /** Tokens are out in order, and each kind is counted where it is due. */
  ghost predicate TokensAgree(shape: Shape, s: Sender, card: Card) {
    && s.chunkInField < shape.chunks
    && s.committedFirst == s.committedFields + InProgress(s)
    && 0 <= s.finishedFirst - s.finishedFields <= 1
    && Returned(s) <= Marked(s)
    && card.queue == Tokens(Returned(s), Marked(s))
  }

  /** No more fields are in flight, the one being filled included, than the memory block has room for. */
  predicate BuffersBounded(shape: Shape, s: Sender) {
    s.committedFields + InProgress(s) <= s.finishedFields + shape.fields
  }

  /** Chunks go out once each, in the order they were prepared; at most one refused chunk waits. */
  ghost predicate SentOnce(shape: Shape, s: Sender, card: Card) {
    && |card.sent| == s.committedFields * shape.chunks + s.chunkInField
    && card.prepared == |card.sent| + (if s.pending then 1 else 0)
    && (forall k :: 0 <= k < |card.sent| ==> card.sent[k] == k)
  }

  /** One report for each finished first chunk, besides the initial one. */
  predicate ReportsCounted(s: Sender, card: Card) {
    && s.committedReports == s.finishedFirst + (if card.greeted then 1 else 0)
    && s.finishedReports <= s.committedReports
  }

  ghost predicate SenderInv(shape: Shape, s: Sender, card: Card) {
    TokensAgree(shape, s, card) && BuffersBounded(shape, s) && SentOnce(shape, s, card) && ReportsCounted(s, card)
  }

  /** Reports committed and not finished, over all senders. */
  function Outstanding(senders: seq<Sender>): int {
    if senders == [] then 0
    else
      var s := senders[|senders| - 1];
      Outstanding(senders[..|senders| - 1]) + s.committedReports - s.finishedReports
  }

  function Count(reports: seq<nat>, i: nat): nat {
    if reports == [] then 0
    else Count(reports[..|reports| - 1], i) + (if reports[|reports| - 1] == i then 1 else 0)
  }

  ghost predicate ReportsShared(n: Node, w: World) {
    && n.pendingReports == Outstanding(n.senders)
    && (forall k :: 0 <= k < |w.reports| ==> w.reports[k] < |n.senders|)
    && (forall i :: 0 <= i < |n.senders| ==>
          Count(w.reports, i) <= n.senders[i].committedReports - n.senders[i].finishedReports)
  }

  ghost predicate ProtocolInv(shape: Shape, n: Node, w: World) {
    && shape.Valid() && |w.cards| == |n.senders|
    && (forall i :: 0 <= i < |n.senders| ==> SenderInv(shape, n.senders[i], w.cards[i]))
    && ReportsShared(n, w)
  }

  // ---- single senders ---------------------------------------------------------------

  /** With two chunks or more in a field, an accepted chunk carries the next token of the stream, if it is due. */
  lemma CommitKeepsTokens(shape: Shape, s: Sender, card: Card)
    requires TokensAgree(shape, s, card) && 2 <= shape.chunks
    ensures TokensAgree(shape, Advance(shape, s), card.(queue := card.queue + TokenFor(shape, s)))
  {
    var t := Advance(shape, s);
    var m := Marked(s);
    assert m == 2 * s.committedFields + InProgress(s);
    if TokenFor(shape, s) == [] {
      assert Marked(t) == m;
    } else {
      assert TokenFor(shape, s) == [TokenAt(m)];
      assert Tokens(Returned(s), m + 1) == Tokens(Returned(s), m) + [TokenAt(m)];
    }
  }

  lemma CommitKeepsSent(shape: Shape, s: Sender, card: Card)
    requires SentOnce(shape, s, card) && shape.Valid() && s.chunkInField < shape.chunks
    ensures var prepared := if s.pending then card.prepared else card.prepared + 1;
      SentOnce(shape, Advance(shape, s.(pending := false)),
               card.(prepared := prepared, sent := card.sent + [prepared - 1]))
  {
    assert (s.committedFields + 1) * shape.chunks == s.committedFields * shape.chunks + shape.chunks;
  }

  /** The token that comes back is the one that is due: no completion is out of order. */
  lemma ReturnedTokenIsDue(shape: Shape, s: Sender, card: Card)
    requires TokensAgree(shape, s, card) && card.queue != [] && s.committedFirst <= LAST_CHUNK_TOKEN
    ensures card.queue[0] == LAST_CHUNK_TOKEN <==> s.finishedFirst == s.finishedFields + 1
    ensures card.queue[0] != LAST_CHUNK_TOKEN ==> card.queue[0] == s.finishedFirst
  {
    var r := Returned(s);
    assert card.queue[0] == TokenAt(r);
    if s.finishedFirst == s.finishedFields {
      assert r == 2 * s.finishedFirst;
      // a first chunk's token is out, so its number is below the number of committed ones
      assert r < Marked(s) <= 2 * s.committedFirst;
    } else {
      assert r == 2 * s.finishedFields + 1;
    }
  }

  lemma ReturnKeepsTokens(shape: Shape, s: Sender, card: Card)
    requires TokensAgree(shape, s, card) && card.queue != [] && s.committedFirst <= LAST_CHUNK_TOKEN
    ensures var rest := card.(queue := card.queue[1..]);
      if card.queue[0] == LAST_CHUNK_TOKEN
      then TokensAgree(shape, s.(finishedFields := s.finishedFields + 1), rest)
      else TokensAgree(shape, s.(finishedFirst := s.finishedFirst + 1), rest)
  {
    ReturnedTokenIsDue(shape, s, card);
    assert Tokens(Returned(s), Marked(s))[1..] == Tokens(Returned(s) + 1, Marked(s));
  }

  // ---- one step of the node -----------------------------------------------------------

  lemma {:induction false} OutstandingUpdate(senders: seq<Sender>, i: nat, s: Sender)
    requires i < |senders|
    ensures Outstanding(senders[i := s]) == Outstanding(senders)
            - (senders[i].committedReports - senders[i].finishedReports) + (s.committedReports - s.finishedReports)
  {
    var m := |senders| - 1;
    if i == m {
      assert senders[i := s][..m] == senders[..m];
    } else {
      assert senders[i := s][..m] == senders[..m][i := s];
      OutstandingUpdate(senders[..m], i, s);
    }
  }

  lemma CountAppend(reports: seq<nat>, i: nat, j: nat)
    ensures Count(reports + [i], j) == Count(reports, j) + (if i == j then 1 else 0)
  {
    assert (reports + [i])[..|reports|] == reports;
  }

  lemma {:induction false} CountRest(reports: seq<nat>, j: nat)
    requires reports != []
    ensures Count(reports, j) == Count(reports[1..], j) + (if reports[0] == j then 1 else 0)
    decreases |reports|
  {
    if |reports| > 1 {
      var init := reports[..|reports| - 1];
      assert reports[1..][..|reports| - 2] == init[1..];
      CountRest(init, j);
    }
  }

  /** The numbers of fields stay below the all-ones token. */
  predicate CountersFit(n: Node) {
    forall i :: 0 <= i < |n.senders| ==> n.senders[i].committedFirst <= LAST_CHUNK_TOKEN
  }

  /** One sender committing one more report, or none, keeps the shared count. */
  lemma ReportKeepsShared(n: Node, w: World, i: nat, s: Sender, pending: nat, taken: bool, cards: seq<Card>)
    requires ReportsShared(n, w) && i < |n.senders|
    requires s.finishedReports == n.senders[i].finishedReports
    requires 0 <= s.committedReports - n.senders[i].committedReports == pending - n.pendingReports <= 1
    requires taken ==> pending == n.pendingReports + 1
    ensures ReportsShared(Node(n.senders[i := s], pending), World(cards, if taken then w.reports + [i] else w.reports))
  {
    OutstandingUpdate(n.senders, i, s);
    forall j | 0 <= j < |n.senders|
      ensures Count(w.reports + [i], j) == Count(w.reports, j) + (if i == j then 1 else 0)
    {
      CountAppend(w.reports, i, j);
    }
  }

  lemma GreetKeepsInv(shape: Shape, n: Node, w: World, i: nat, a: ReportAnswer)
    requires ProtocolInv(shape, n, w) && Legal(n, w, Greet(i, a))
    requires DoStep(shape, n, Greet(i, a)).status.Success?
    ensures ProtocolInv(shape, DoStep(shape, n, Greet(i, a)).node, React(shape, n, w, Greet(i, a)))
  {
    hide Tokens, Outstanding, Count, TokensAgree, SentOnce, BuffersBounded, ReportsShared;
    var r := React(shape, n, w, Greet(i, a));
    var s := n.senders[i].(committedReports := n.senders[i].committedReports + 1);
    assert SenderInv(shape, n.senders[i], w.cards[i]);
    MediaIgnoresReports(shape, n.senders[i], s, w.cards[i], r.cards[i]);
    ReportKeepsShared(n, w, i, s, n.pendingReports + 1, a.taken, r.cards);
  }

  /** A report completion is never unsolicited and names a sender. */
  lemma ReportIsSolicited(n: Node, w: World, p: PollAnswer)
    requires ReportsShared(n, w) && p.poll.Success? && w.reports != [] && p.token == w.reports[0]
    ensures p.token < |n.senders| && n.senders[p.token].finishedReports < n.senders[p.token].committedReports
    ensures w.reports[0] < |n.senders|
    ensures OfDevice(CheckReports(n, p).status)
  {
    CountRest(w.reports, p.token);
  }

  lemma CheckKeepsInv(shape: Shape, n: Node, w: World, p: PollAnswer)
    requires ProtocolInv(shape, n, w) && Legal(n, w, CheckReport(p))
    requires DoStep(shape, n, CheckReport(p)).status.Success?
    ensures ProtocolInv(shape, DoStep(shape, n, CheckReport(p)).node, React(shape, n, w, CheckReport(p)))
  {
    hide Tokens, Outstanding, Count, TokensAgree, SentOnce, BuffersBounded, ReportsShared;
    if n.pendingReports > 0 && p.poll.Success? {
      ReportIsSolicited(n, w, p);
      FinishKeepsShared(n, w);
      var s := n.senders[p.token];
      assert SenderInv(shape, s, w.cards[p.token]);
      MediaIgnoresReports(shape, s, s.(finishedReports := s.finishedReports + 1), w.cards[p.token], w.cards[p.token]);
    }
  }

  /** The oldest report finishing takes one off its sender and off the shared count. */
  lemma FinishKeepsShared(n: Node, w: World)
    requires ReportsShared(n, w) && n.pendingReports > 0 && w.reports != []
    ensures var i := w.reports[0]; var s := n.senders[i];
      ReportsShared(Node(n.senders[i := s.(finishedReports := s.finishedReports + 1)], n.pendingReports - 1),
                    w.(reports := w.reports[1..]))
  {
    hide Outstanding, Count;
    var i := w.reports[0];
    OutstandingUpdate(n.senders, i, n.senders[i].(finishedReports := n.senders[i].finishedReports + 1));
    forall j | 0 <= j < |n.senders|
      ensures Count(w.reports, j) == Count(w.reports[1..], j) + (if i == j then 1 else 0)
    {
      CountRest(w.reports, j);
    }
  }

  lemma TrackKeepsInv(shape: Shape, n: Node, w: World, i: nat, p: PollAnswer, a: ReportAnswer)
    requires ProtocolInv(shape, n, w) && Legal(n, w, TrackMedia(i, p, a)) && CountersFit(n)
    requires DoStep(shape, n, TrackMedia(i, p, a)).status.Success?
    ensures ProtocolInv(shape, DoStep(shape, n, TrackMedia(i, p, a)).node, React(shape, n, w, TrackMedia(i, p, a)))
  {
    hide Tokens, Outstanding, Count, TokensAgree, SentOnce;
    var e := DoStep(shape, n, TrackMedia(i, p, a)).node;
    var s, t, card := n.senders[i], e.senders[i], w.cards[i];
    if p.poll.Success? {
      assert SenderInv(shape, s, card);
      TrackKeepsSender(shape, s, n.pendingReports, card, p, a);
      var r := React(shape, n, w, TrackMedia(i, p, a));
      ReportKeepsShared(n, w, i, t, e.pendingReports, t.committedReports > s.committedReports && a.taken, r.cards);
    } else {
      assert n.senders[i := s] == n.senders;
    }
  }

  lemma TrackKeepsSender(shape: Shape, s: Sender, pending: nat, card: Card, p: PollAnswer, a: ReportAnswer)
    requires SenderInv(shape, s, card) && card.queue != [] && s.committedFirst <= LAST_CHUNK_TOKEN
    requires p.poll.Success? && p.token == card.queue[0]
    ensures var e := Track(s, pending, p, a);
      && (OfDevice(a.buffer) && OfDevice(a.layout) ==> OfDevice(e.status))
      && (e.status.Success? ==>
            && SenderInv(shape, e.sender, card.(queue := card.queue[1..]))
            && e.sender.finishedReports == s.finishedReports
            && 0 <= e.sender.committedReports - s.committedReports == e.pendingReports - pending <= 1)
  {
    hide Tokens;
    ReturnedTokenIsDue(shape, s, card);
    ReturnKeepsTokens(shape, s, card);
    var f := s.(finishedFirst := s.finishedFirst + 1);
    if p.token != LAST_CHUNK_TOKEN {
      var rest := card.(queue := card.queue[1..]);
      MediaIgnoresReports(shape, f, f.(committedReports := f.committedReports + 1), rest, rest);
    }
  }

  /** Reports and media are counted apart. */
  lemma MediaIgnoresReports(shape: Shape, s: Sender, t: Sender, card: Card, after: Card)
    requires TokensAgree(shape, s, card) && BuffersBounded(shape, s) && SentOnce(shape, s, card)
    requires t == s.(committedReports := t.committedReports, finishedReports := t.finishedReports)
    requires after == card.(greeted := after.greeted)
    ensures TokensAgree(shape, t, after) && BuffersBounded(shape, t) && SentOnce(shape, t, after)
  {
  }

  lemma CommitKeepsInv(shape: Shape, n: Node, w: World, i: nat, a: CommitAnswer)
    requires ProtocolInv(shape, n, w) && Legal(n, w, CommitMedia(i, a)) && 2 <= shape.chunks
    requires DoStep(shape, n, CommitMedia(i, a)).status.Success?
    ensures ProtocolInv(shape, DoStep(shape, n, CommitMedia(i, a)).node, React(shape, n, w, CommitMedia(i, a)))
  {
    hide Tokens, Outstanding, Count, TokensAgree, SentOnce, TokenFor;
    var e := DoStep(shape, n, CommitMedia(i, a)).node;
    var s, card := n.senders[i], w.cards[i];
    if HasFreeBuffer(shape, s) {
      assert SenderInv(shape, s, card);
      CommitKeepsSender(shape, s, card, a);
      ReportKeepsShared(n, w, i, e.senders[i], n.pendingReports, false, React(shape, n, w, CommitMedia(i, a)).cards);
    }
  }

  lemma CommitKeepsSender(shape: Shape, s: Sender, card: Card, a: CommitAnswer)
    requires SenderInv(shape, s, card) && shape.Valid() && 2 <= shape.chunks && HasFreeBuffer(shape, s)
    requires CommitChunk(shape, s, a).status.Success?
    ensures var t := CommitChunk(shape, s, a).sender;
      var prepared := if s.pending then card.prepared else card.prepared + 1;
      && prepared > 0
      && t.committedReports == s.committedReports && t.finishedReports == s.finishedReports
      && if a.commit == QueueFull then SenderInv(shape, t, card.(prepared := prepared))
         else SenderInv(shape, t, card.(queue := card.queue + TokenFor(shape, s), prepared := prepared,
                                        sent := card.sent + [prepared - 1]))
  {
    hide TokensAgree, SentOnce;
    if a.commit == QueueFull {
      RefusalKeeps(shape, s, card);
    } else {
      CommitKeepsTokens(shape, s, card);
      CommitKeepsSent(shape, s, card);
      AcceptanceKeeps(shape, s, card, TokenFor(shape, s), if s.pending then card.prepared else card.prepared + 1);
    }
  }

  /** A refused chunk waits, and nothing else changes. */
  lemma RefusalKeeps(shape: Shape, s: Sender, card: Card)
    requires TokensAgree(shape, s, card) && SentOnce(shape, s, card)
    ensures var prepared := if s.pending then card.prepared else card.prepared + 1;
      && prepared > 0
      && TokensAgree(shape, s.(pending := true), card.(prepared := prepared))
      && SentOnce(shape, s.(pending := true), card.(prepared := prepared))
  {
    hide Tokens;
  }

  /** Tokens and chunks are counted apart. */
  lemma AcceptanceKeeps(shape: Shape, s: Sender, card: Card, tokens: seq<nat>, prepared: nat)
    requires prepared == (if s.pending then card.prepared else card.prepared + 1)
    requires SentOnce(shape, s, card)
    requires TokensAgree(shape, Advance(shape, s), card.(queue := card.queue + tokens))
    requires SentOnce(shape, Advance(shape, s.(pending := false)),
                      card.(prepared := prepared, sent := card.sent + [prepared - 1]))
    ensures prepared > 0
    ensures var t, r := Advance(shape, s.(pending := false)),
                        card.(queue := card.queue + tokens, prepared := prepared, sent := card.sent + [prepared - 1]);
      TokensAgree(shape, t, r) && SentOnce(shape, t, r)
  {
    hide Tokens;
  }

  /** Every step that succeeds keeps the protocol's invariant. */
  lemma StepKeepsInv(shape: Shape, n: Node, w: World, step: Step)
    requires ProtocolInv(shape, n, w) && Legal(n, w, step) && 2 <= shape.chunks && CountersFit(n)
    requires DoStep(shape, n, step).status.Success?
    ensures ProtocolInv(shape, DoStep(shape, n, step).node, React(shape, n, w, step))
  {
    hide ProtocolInv, DoStep, React;
    match step
    case Greet(i, a) => GreetKeepsInv(shape, n, w, i, a);
    case CheckReport(p) => CheckKeepsInv(shape, n, w, p);
    case TrackMedia(i, p, a) => TrackKeepsInv(shape, n, w, i, p, a);
    case CommitMedia(i, a) => CommitKeepsInv(shape, n, w, i, a);
  }

  /** No step fails for a reason of the protocol: only the card's own failures end a run. */
  lemma StepFailsOnlyByDevice(shape: Shape, n: Node, w: World, step: Step)
    requires ProtocolInv(shape, n, w) && Legal(n, w, step) && CountersFit(n)
    ensures OfDevice(DoStep(shape, n, step).status)
  {
    match step
    case Greet(i, a) =>
    case CheckReport(p) =>
      if p.poll.Success? {
        ReportIsSolicited(n, w, p);
      }
    case TrackMedia(i, p, a) =>
      if p.poll.Success? {
        assert SenderInv(shape, n.senders[i], w.cards[i]);
        TrackKeepsSender(shape, n.senders[i], n.pendingReports, w.cards[i], p, a);
      }
    case CommitMedia(i, a) =>
  }
}
