/**
 From Send on one side to OnRecvPacket on the other: one session whose queued buffers lie in the chunks that all
 threads share, the byte stream of its current connection, and the receiver's parser at the other end.
 */
module EndToEnd {
  import opened SendBatch
  import opened PacketFraming
  import H = SendBuffers
  import HR = SendBufferRuns
  import P = SendPipeline
  import opened PacketPrinter

  lemma FramesOfPrefix(ms: seq<Message>, k: nat)
    requires k < |ms| && forall m <- ms :: Framable(m)
    ensures Frames(ms[..k + 1]) == [Frame(ms[0])] + Frames(ms[1..][..k])
  {
    assert forall i :: 0 <= i < k ==> ms[..k + 1][i + 1] == ms[1..][..k][i];
  }

  /** Any prefix of the wire parses to some of the frames, in order from the first, and never gets stuck. */
  lemma {:induction false} PrefixParsesToFrames(ms: seq<Message>, received: seq<H.Byte>) returns (n: nat)
    requires forall m <- ms :: Framable(m)
    requires received <= Flatten(Frames(ms))
    ensures n <= |ms| && Parse(received).packets == Frames(ms[..n]) && !Parse(received).hung
    ensures received == Flatten(Frames(ms)) ==> n == |ms| && Parse(received).rest == []
    decreases |ms|
  {
    if ms == [] {
      n := 0;
    } else {
      var f := Frame(ms[0]);
      FrameRoundTrip(ms[0]);
      assert Frames(ms)[1..] == Frames(ms[1..]) && Frames(ms)[0] == f;
      if |received| < |f| {
        n := 0;
        assert received == f[..|received|];
        if |received| >= HEADER_SIZE {
          assert ReadU16(received, 0) == ReadU16(f, 0);
        }
      } else {
        assert received[..|f|] == f;
        assert ReadU16(received, 0) == ReadU16(f, 0);
        ParseStep(received, |f|);
        assert received[|f|..] <= Flatten(Frames(ms[1..]));
        var k := PrefixParsesToFrames(ms[1..], received[|f|..]);
        n := k + 1;
        FramesOfPrefix(ms, k);
      }
    }
  }

  // ---------------------------------------------------------------- buffers and their messages

  predicate IsFrame(bytes: seq<H.Byte>) {
    |bytes| >= HEADER_SIZE && Framable(Unframe(bytes)) && bytes == Frame(Unframe(bytes))
  }

  /** A buffer that may be passed to Send: closed, its WriteSize as the session sees it, holding a frame. */
  predicate Sendable(h: H.Heap, b: SendBuffer) {
    && b.id in h.live && h.live[b.id].closed && h.live[b.id].written == b.size
    && H.BufferSound(h, h.live[b.id]) && h.live[b.id].owner < |h.chunks|
    && h.live[b.id].offset + h.live[b.id].written <= |h.chunks[h.live[b.id].owner].bytes|
    && IsFrame(H.Contents(h, b.id))
  }

  function Written(h: H.Heap, b: SendBuffer): seq<H.Byte>
    requires Sendable(h, b)
  {
    H.Contents(h, b.id)
  }

  function MessageOf(h: H.Heap, b: SendBuffer): Message
    requires Sendable(h, b)
  {
    Unframe(Written(h, b))
  }

  function MessagesOf(h: H.Heap, bs: seq<SendBuffer>): seq<Message>
    requires forall b <- bs :: Sendable(h, b)
  {
    seq(|bs|, i requires 0 <= i < |bs| => MessageOf(h, bs[i]))
  }

  /** The bytes WSASend gathers: each buffer's written bytes, read from its chunk. */
  function GatheredBytes(h: H.Heap, bs: seq<SendBuffer>): seq<H.Byte>
    requires forall b <- bs :: Sendable(h, b)
  {
    Flatten(seq(|bs|, i requires 0 <= i < |bs| => Written(h, bs[i])))
  }

  lemma GatheredAreFrames(h: H.Heap, bs: seq<SendBuffer>)
    requires forall b <- bs :: Sendable(h, b)
    ensures forall m <- MessagesOf(h, bs) :: Framable(m)
    ensures GatheredBytes(h, bs) == Flatten(Frames(MessagesOf(h, bs)))
  {
    forall i | 0 <= i < |bs| ensures Sendable(h, bs[i]) && Framable(MessagesOf(h, bs)[i]) {
      assert bs[i] in bs;
    }
    var ms := MessagesOf(h, bs);
    assert seq(|bs|, i requires 0 <= i < |bs| => Written(h, bs[i])) == Frames(ms);
  }

  /** What MakeSendBuffer made may be sent, as the message it was made from, until its last reference goes. */
  lemma MadeMayBeSent(h: H.Heap, t: H.ThreadId, b: H.BufferId, m: Message, events: seq<H.Event>, h': H.Heap)
    requires H.Sound(h) && H.Hand(t) !in h.slots && b !in h.live && m.id < 0x1_0000
    requires Make(h, t, b, m).Made? && HR.Runs(Make(h, t, b, m).heap, events, h') && H.Drop(b) !in events
    ensures b in h'.live && Sendable(h', SendBuffer(b, h'.live[b].written))
    ensures MessageOf(h', SendBuffer(b, h'.live[b].written)) == m
  {
    MadeIffItFits(h, t, b, m);
    MadeAfterOpen(h, t, b, m);
    HR.ClosedContentsAreStable(Make(h, t, b, m).heap, events, h', b);
    assert H.BufferSound(h', h'.live[b]);
    FrameRoundTrip(m);
  }

  // ---------------------------------------------------------------- the system

  /**
   said lists the messages accepted by Send, carried those whose WSASend was issued on the current connection and
   wire their bytes as read from the chunks; first counts the messages that had gone before it was made, and
   lossy tells that a WSASend has failed since.
   */
  datatype System = System(heap: H.Heap, session: P.State, said: seq<Message>, carried: seq<Message>,
                           wire: seq<H.Byte>, first: nat, lossy: bool)

  const BEGIN := System(H.EMPTY, P.START, [], [], [], 0, false)

  datatype Event =
    | HeapStep(heapEvent: H.Event)         // any thread, for this session or anybody else
    | SessionStep(sessionEvent: P.Event)

  /** The session refers to b: queued, in the send event, or passed to a Send under way. */
  ghost predicate Held(s: P.State, b: SendBuffer) {
    b in s.pipe.batch || b in s.pipe.queue || exists t :: P.PcOf(s, t) == P.Checked(b)
  }

  /** The heap is sound and whatever the session refers to is still the frame it was. */
  ghost predicate Ready(h: H.Heap, s: P.State) {
    H.Sound(h) && forall b :: Held(s, b) ==> Sendable(h, b)
  }

  ghost predicate Allowed(sys: System, e: Event) {
    match e
    case HeapStep(x) =>
      && Ready(sys.heap, sys.session) && HR.Allowed(sys.heap, x) && !HR.Step(sys.heap, x).Crash?
      && (x.Drop? ==> forall b :: Held(sys.session, b) ==> b.id != x.b)
    case SessionStep(x) =>
      && Ready(sys.heap, sys.session) && P.Enabled(sys.session, x)
      && (x.Call? ==> Sendable(sys.heap, x.b))
  }

  /** Accepted buffers that have been handed to WSASend, or were dropped when it failed. */
  function Gone(s: P.State): nat {
    |Concat(P.Batches(s.fates))| + if s.outstanding > 0 then |s.pipe.batch| else 0
  }

  /** The accepted buffers that have not. */
  function Unsent(s: P.State): seq<SendBuffer> {
    (if s.outstanding > 0 then [] else s.pipe.batch) + s.pipe.queue
  }

  ghost function Step(sys: System, e: Event): System
    requires Allowed(sys, e)
  {
    match e
    case HeapStep(x) => sys.(heap := HR.After(sys.heap, x))
    case SessionStep(x) => Noted(sys, x).(session := P.Step(sys.session, x))
  }

  /** What the history variables note of a session's step. */
  ghost function Noted(sys: System, x: P.Event): System
    requires Allowed(sys, SessionStep(x))
  {
    var pipe := sys.session.pipe;
    match x
    case Push(t) =>
      var b := P.PcOf(sys.session, t).b;
      assert Held(sys.session, b);
      if Accepts(pipe, b) then sys.(said := sys.said + [MessageOf(sys.heap, b)]) else sys
    case Submit(_) =>
      assert forall b <- pipe.batch :: Held(sys.session, b);
      sys.(carried := sys.carried + MessagesOf(sys.heap, pipe.batch),
           wire := sys.wire + GatheredBytes(sys.heap, pipe.batch))
    case Recover(_) => sys.(lossy := true)
    case Connect => sys.(carried := [], wire := [], first := Gone(sys.session), lossy := false)
    case _ => sys
  }

  ghost predicate Runs(sys: System, events: seq<Event>, sys': System)
    decreases |events|
  {
    if events == [] then sys' == sys
    else Allowed(sys, events[0]) && Runs(Step(sys, events[0]), events[1..], sys')
  }

  // ---------------------------------------------------------------- what every run keeps

  /** The messages not yet sent are the last ones accepted, and still what they were then. */
  ghost predicate TailWaits(sys: System) {
    && (forall b <- Unsent(sys.session) :: Sendable(sys.heap, b))
    && |sys.said| == Gone(sys.session) + |Unsent(sys.session)|
    && sys.said[Gone(sys.session)..] == MessagesOf(sys.heap, Unsent(sys.session))
  }

  /** Without loss the connection has carried exactly the messages accepted from its first one on. */
  predicate CarriesAccepted(said: seq<Message>, carried: seq<Message>, first: nat, gone: nat) {
    first <= gone <= |said| && carried == said[first..gone]
  }

  predicate WireIsFrames(carried: seq<Message>, wire: seq<H.Byte>) {
    (forall m <- carried :: Framable(m)) && wire == Flatten(Frames(carried))
  }

  ghost predicate Sound(sys: System) {
    && Ready(sys.heap, sys.session) && P.Sound(sys.session) && TailWaits(sys)
    && WireIsFrames(sys.carried, sys.wire)
    && (!sys.lossy ==> CarriesAccepted(sys.said, sys.carried, sys.first, Gone(sys.session)))
  }

  lemma HeapStepKeepsReady(sys: System, x: H.Event)
    requires Sound(sys) && Allowed(sys, HeapStep(x))
    ensures Ready(HR.After(sys.heap, x), sys.session)
    ensures forall b :: Held(sys.session, b) ==>
              Sendable(sys.heap, b) && MessageOf(HR.After(sys.heap, x), b) == MessageOf(sys.heap, b)
  {
    if HR.Step(sys.heap, x).Ok? {
      HR.StepKeepsSound(sys.heap, x);
    }
    forall b | Held(sys.session, b)
      ensures Sendable(sys.heap, b) && Sendable(HR.After(sys.heap, x), b)
      ensures MessageOf(HR.After(sys.heap, x), b) == MessageOf(sys.heap, b)
    {
      HR.StepKeepsContents(sys.heap, x, b.id);
      assert H.BufferSound(HR.After(sys.heap, x), HR.After(sys.heap, x).live[b.id]);
    }
  }

  lemma UnsentIsHeld(s: P.State)
    ensures forall b <- Unsent(s) :: Held(s, b)
  {
  }

  lemma HeapStepKeepsSound(sys: System, x: H.Event)
    requires Sound(sys) && Allowed(sys, HeapStep(x))
    ensures Sound(Step(sys, HeapStep(x)))
  {
    HeapStepKeepsReady(sys, x);
    UnsentIsHeld(sys.session);
    var h, h', bs := sys.heap, HR.After(sys.heap, x), Unsent(sys.session);
    assert MessagesOf(h', bs) == MessagesOf(h, bs) by {
      forall i | 0 <= i < |bs| ensures MessageOf(h', bs[i]) == MessageOf(h, bs[i]) {
        assert bs[i] in bs;
      }
    }
  }

  /** A session refers to nothing it was not given. */
  lemma HeldWasGiven(s: P.State, x: P.Event, b: SendBuffer)
    requires P.Enabled(s, x) && Held(P.Step(s, x), b)
    ensures Held(s, b) || (x.Call? && x.b == b)
  {
    var s' := P.Step(s, x);
    if t :| P.PcOf(s', t) == P.Checked(b) {
      assert P.PcOf(s, t) == P.Checked(b) || x == P.Call(t, b);
    }
    if x.Push? && b == P.PcOf(s, x.t).b {
      assert P.PcOf(s, x.t) == P.Checked(b);
    }
  }

  lemma SessionStepKeepsReady(sys: System, x: P.Event)
    requires Sound(sys) && Allowed(sys, SessionStep(x))
    ensures Ready(sys.heap, P.Step(sys.session, x))
  {
    forall b | Held(P.Step(sys.session, x), b) ensures Sendable(sys.heap, b) {
      HeldWasGiven(sys.session, x, b);
    }
  }

  /** How each step of the session changes what is gone and what is not. */
  lemma SessionMoves(s: P.State, x: P.Event)
    requires P.Sound(s) && P.Enabled(s, x)
    ensures
      var s' := P.Step(s, x);
      if x.Push? && Accepts(s.pipe, P.PcOf(s, x.t).b) then
        Gone(s') == Gone(s) && Unsent(s') == Unsent(s) + [P.PcOf(s, x.t).b]
      else if x.Submit? || x.Recover? then
        Gone(s') == Gone(s) + |s.pipe.batch| && Unsent(s) == s.pipe.batch + Unsent(s')
      else Gone(s') == Gone(s) && Unsent(s') == Unsent(s)
  {
    var s' := P.Step(s, x);
    if x.Submit? || x.Recover? || x.GatherBatch? {
      assert P.Owns(P.PcOf(s, x.t)) && P.BatchFits(s, x.t);
    }
    match x
    case GatherBatch(_) =>
      var q, k := s.pipe.queue, BatchSize(s.pipe.queue);
      assert [] + q == ([] + q[..k]) + q[k..];
    case Recover(_) => P.FateAppended(s, P.Lost(s.pipe.batch));
    case Complete(_, bytes) => P.FateAppended(s, if bytes == 0 then P.Lost(s.pipe.batch) else P.Sent(s.pipe.batch));
    case Push(t) =>
      var front := if s.outstanding > 0 then [] else s.pipe.batch;
      assert front + (s.pipe.queue + [P.PcOf(s, t).b]) == (front + s.pipe.queue) + [P.PcOf(s, t).b];
    case _ =>
  }

  lemma MessagesSplit(h: H.Heap, p: seq<SendBuffer>, q: seq<SendBuffer>)
    requires forall b <- p + q :: Sendable(h, b)
    ensures (forall b <- p :: b in p + q) && (forall b <- q :: b in p + q)
    ensures MessagesOf(h, p + q) == MessagesOf(h, p) + MessagesOf(h, q)
  {
    forall b | b in p ensures b in p + q {}
    forall b | b in q ensures b in p + q {}
  }

  lemma SessionStepKeepsTail(sys: System, x: P.Event)
    requires Sound(sys) && Allowed(sys, SessionStep(x)) && Ready(sys.heap, P.Step(sys.session, x))
    ensures TailWaits(Step(sys, SessionStep(x)))
  {
    var s, s', h := sys.session, P.Step(sys.session, x), sys.heap;
    UnsentIsHeld(s');
    SessionMoves(s, x);
    if x.Push? && Accepts(s.pipe, P.PcOf(s, x.t).b) {
      var b := P.PcOf(s, x.t).b;
      MessagesSplit(h, Unsent(s), [b]);
      assert (sys.said + [MessageOf(h, b)])[Gone(s)..] == sys.said[Gone(s)..] + [MessageOf(h, b)];
    } else if x.Submit? || x.Recover? {
      MessagesSplit(h, s.pipe.batch, Unsent(s'));
      assert sys.said[Gone(s')..] == sys.said[Gone(s)..][|s.pipe.batch|..];
    }
  }

  lemma {:induction false} FlattenOfConcat(p: seq<seq<H.Byte>>, q: seq<seq<H.Byte>>)
    ensures Flatten(p + q) == Flatten(p) + Flatten(q)
    decreases |p|
  {
    if p == [] {
      assert p + q == q;
    } else {
      assert (p + q)[1..] == p[1..] + q;
      FlattenOfConcat(p[1..], q);
    }
  }

  lemma WireGrows(carried: seq<Message>, wire: seq<H.Byte>, h: H.Heap, bs: seq<SendBuffer>)
    requires WireIsFrames(carried, wire) && forall b <- bs :: Sendable(h, b)
    ensures WireIsFrames(carried + MessagesOf(h, bs), wire + GatheredBytes(h, bs))
  {
    GatheredAreFrames(h, bs);
    var more := MessagesOf(h, bs);
    assert forall m <- carried + more :: m in carried || m in more;
    assert Frames(carried + more) == Frames(carried) + Frames(more);
    FlattenOfConcat(Frames(carried), Frames(more));
  }

  lemma SubmitCarriesNext(sys: System, t: P.ThreadId)
    requires Sound(sys) && Allowed(sys, SessionStep(P.Submit(t))) && !sys.lossy
    ensures
      var sys' := Step(sys, SessionStep(P.Submit(t)));
      CarriesAccepted(sys'.said, sys'.carried, sys'.first, Gone(sys'.session))
  {
    var s, s' := sys.session, P.Step(sys.session, P.Submit(t));
    SessionMoves(s, P.Submit(t));
    MessagesSplit(sys.heap, s.pipe.batch, Unsent(s'));
    var ms := MessagesOf(sys.heap, s.pipe.batch);
    assert sys.said[Gone(s)..Gone(s')] == sys.said[Gone(s)..][..|ms|] == ms;
    assert sys.said[sys.first..Gone(s')] == sys.said[sys.first..Gone(s)] + sys.said[Gone(s)..Gone(s')];
  }

  lemma MoreSaid(said: seq<Message>, m: Message, carried: seq<Message>, first: nat, gone: nat)
    requires CarriesAccepted(said, carried, first, gone)
    ensures CarriesAccepted(said + [m], carried, first, gone)
  {
  }

  lemma SessionStepKeepsSound(sys: System, x: P.Event)
    requires Sound(sys) && Allowed(sys, SessionStep(x))
    ensures Sound(Step(sys, SessionStep(x)))
  {
    P.StepKeepsSound(sys.session, x);
    SessionStepKeepsReady(sys, x);
    SessionStepKeepsTail(sys, x);
    SessionMoves(sys.session, x);
    if x.Submit? {
      forall b | b in sys.session.pipe.batch ensures Sendable(sys.heap, b) {
        assert Held(sys.session, b);
      }
      WireGrows(sys.carried, sys.wire, sys.heap, sys.session.pipe.batch);
      if !sys.lossy {
        SubmitCarriesNext(sys, x.t);
      }
    } else if x.Push? && Accepts(sys.session.pipe, P.PcOf(sys.session, x.t).b) && !sys.lossy {
      var m := MessageOf(sys.heap, P.PcOf(sys.session, x.t).b);
      MoreSaid(sys.said, m, sys.carried, sys.first, Gone(sys.session));
    }
  }

  lemma {:induction false} RunsStaySound(sys: System, events: seq<Event>, sys': System)
    requires Sound(sys) && Runs(sys, events, sys')
    ensures Sound(sys')
    decreases |events|
  {
    if events != [] {
      match events[0] {
        case HeapStep(x) => HeapStepKeepsSound(sys, x);
        case SessionStep(x) => SessionStepKeepsSound(sys, x);
      }
      RunsStaySound(Step(sys, events[0]), events[1..], sys');
    }
  }

  /** What a reachable system says about the wire. */
  lemma WireOfRun(events: seq<Event>, sys: System)
    requires Runs(BEGIN, events, sys)
    ensures WireIsFrames(sys.carried, sys.wire)
    ensures !sys.lossy ==> CarriesAccepted(sys.said, sys.carried, sys.first, Gone(sys.session))
    ensures |sys.said| == Gone(sys.session) + |Unsent(sys.session)|
  {
    BeginIsSound();
    RunsStaySound(BEGIN, events, sys);
  }

  lemma CarriedIsSaid(said: seq<Message>, carried: seq<Message>, first: nat, gone: nat)
    requires CarriesAccepted(said, carried, first, gone)
    ensures first + |carried| == gone <= |said| && forall i :: 0 <= i < |carried| ==> carried[i] == said[first + i]
  {
  }

  lemma BeginIsSound()
    ensures Sound(BEGIN)
  {
    assert P.Batches(BEGIN.session.fates) == [];
    assert Frames([]) == [];
  }

  /** Nothing the session refers to is ever recycled or overwritten: every reachable system is ready for more. */
  lemma QueuedBuffersStayFrames(events: seq<Event>, sys: System)
    requires Runs(BEGIN, events, sys)
    ensures Ready(sys.heap, sys.session)
  {
    BeginIsSound();
    RunsStaySound(BEGIN, events, sys);
  }

  /** Frames arriving in any pieces, complete or not, are handed over as the first of the messages. */
  lemma PiecesParseToMessages(ms: seq<Message>, chunks: seq<seq<H.Byte>>) returns (n: nat)
    requires (forall m <- ms :: Framable(m)) && Flatten(chunks) <= Flatten(Frames(ms))
    ensures n <= |ms| && !FeedAll(chunks).hung && |FeedAll(chunks).packets| == n
    ensures forall i :: 0 <= i < n ==> |FeedAll(chunks).packets[i]| >= HEADER_SIZE
    ensures forall i :: 0 <= i < n ==> Unframe(FeedAll(chunks).packets[i]) == ms[i]
    ensures Flatten(chunks) == Flatten(Frames(ms)) ==> n == |ms| && FeedAll(chunks).rest == []
  {
    ChunkingDoesNotMatter(chunks);
    n := PrefixParsesToFrames(ms, Flatten(chunks));
    forall i | 0 <= i < n
      ensures |FeedAll(chunks).packets[i]| >= HEADER_SIZE && Unframe(FeedAll(chunks).packets[i]) == ms[i]
    {
      assert FeedAll(chunks).packets[i] == Frame(ms[..n][i]) && ms[..n][i] == ms[i] && ms[i] in ms;
      FrameRoundTrip(ms[i]);
    }
  }

  /**
   Over every run, with any other threads cutting, closing and recycling buffers around it, and every way the
   network cuts what it has delivered of the current connection so far: the receiver has been handed exactly the
   first messages carried, whole and in order; and unless a WSASend failed on this connection, those are the
   messages Send accepted, one after another, from the first that had not gone when it was made.
   */
  lemma ReceivedInAcceptedOrder(events: seq<Event>, sys: System, chunks: seq<seq<H.Byte>>) returns (n: nat)
    requires Runs(BEGIN, events, sys) && Flatten(chunks) <= sys.wire
    ensures n <= |sys.carried| && !FeedAll(chunks).hung && |FeedAll(chunks).packets| == n
    ensures forall i :: 0 <= i < n ==> |FeedAll(chunks).packets[i]| >= HEADER_SIZE
    ensures forall i :: 0 <= i < n ==> Unframe(FeedAll(chunks).packets[i]) == sys.carried[i]
    ensures !sys.lossy ==>
              && |sys.said| == sys.first + |sys.carried| + |Unsent(sys.session)|
              && forall i :: 0 <= i < n ==> Unframe(FeedAll(chunks).packets[i]) == sys.said[sys.first + i]
    ensures Flatten(chunks) == sys.wire ==> n == |sys.carried| && FeedAll(chunks).rest == []
  {
    WireOfRun(events, sys);
    n := PiecesParseToMessages(sys.carried, chunks);
    if !sys.lossy {
      CarriedIsSaid(sys.said, sys.carried, sys.first, Gone(sys.session));
    }
  }
}
