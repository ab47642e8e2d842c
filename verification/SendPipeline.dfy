/**
 Session::Send, RegisterSend and ProcessSend as steps that any number of threads interleave: the locked
 sections are single steps, everything between them is a place where another thread may run.
 */
module SendPipeline {
  import opened SendBatch
  import opened FreshIds

  type ThreadId = nat

  /** Where a thread stands. From MustRegister on it is the one allowed to touch `_sendEvent`. */
  datatype Pc =
    | Rest
    | Checked(b: SendBuffer)   // Send: connected, not yet in the lock
    | MustRegister             // about to call RegisterSend
    | Batching                 // RegisterSend: connected, not yet in the lock
    | Submitting               // batch gathered, WSASend next
    | Failing                  // WSASend failed
    | Completed                // ProcessSend: batch released, lock not yet taken

  predicate Owns(pc: Pc) {
    !pc.Rest? && !pc.Checked?
  }

  /** A batch that has left `_sendEvent`: it went out, or WSASend failed or completed with nothing sent. */
  datatype Fate = Sent(batch: seq<SendBuffer>) | Lost(batch: seq<SendBuffer>)

  /** accepted, fates and failed record the past; the program keeps none of them. */
  datatype State = State(pipe: Pipe, pcs: map<ThreadId, Pc>, outstanding: nat,
                         accepted: seq<SendBuffer>, fates: seq<Fate>, failed: bool)

  const START := State(IDLE, map[], 0, [], [], false)

  datatype Event =
    | Connect                            // ProcessConnect
    | Disconnect                         // from any cause
    | Call(t: ThreadId, b: SendBuffer)   // Send: IsConnected
    | Push(t: ThreadId)                  // Send: locked section
    | Check(t: ThreadId)                 // RegisterSend: IsConnected
    | GatherBatch(t: ThreadId)           // RegisterSend: locked section
    | Submit(t: ThreadId)                // WSASend accepted or pending
    | SubmitFails(t: ThreadId, reset: bool)   // WSASend failed; HandleError disconnects on a reset
    | Recover(t: ThreadId)               // release the batch, _sendRegistered = false
    | Complete(t: ThreadId, bytes: nat)  // IOCP completion, up to OnSend
    | Settle(t: ThreadId)                // ProcessSend: locked section

  function PcOf(s: State, t: ThreadId): Pc {
    if t in s.pcs then s.pcs[t] else Rest
  }

  function At(s: State, t: ThreadId, pc: Pc): State {
    s.(pcs := s.pcs[t := pc])
  }

  predicate Enabled(s: State, e: Event) {
    match e
    case Connect => true
    case Disconnect => true
    case Call(t, _) => PcOf(s, t).Rest?
    case Push(t) => PcOf(s, t).Checked?
    case Check(t) => PcOf(s, t).MustRegister?
    case GatherBatch(t) => PcOf(s, t).Batching?
    case Submit(t) => PcOf(s, t).Submitting?
    case SubmitFails(t, _) => PcOf(s, t).Submitting?
    case Recover(t) => PcOf(s, t).Failing?
    case Complete(t, _) => PcOf(s, t).Rest? && s.outstanding > 0
    case Settle(t) => PcOf(s, t).Completed?
  }

  function Step(s: State, e: Event): State
    requires Enabled(s, e)
  {
    match e
    case Connect => s.(pipe := s.pipe.(connected := true))
    case Disconnect => s.(pipe := s.pipe.(connected := false))
    case Call(t, b) => if s.pipe.connected then At(s, t, Checked(b)) else s
    case Push(t) =>
      var b := PcOf(s, t).b;
      if Accepts(s.pipe, b) then
        At(s.(pipe := Enqueue(s.pipe, b), accepted := s.accepted + [b], failed := false),
           t, if s.pipe.registered then Rest else MustRegister)
      else At(s, t, Rest)
    case Check(t) => At(s, t, if s.pipe.connected then Batching else Rest)
    case GatherBatch(t) => At(s.(pipe := Gather(s.pipe)), t, Submitting)
    case Submit(t) => At(s.(outstanding := s.outstanding + 1), t, Rest)
    case SubmitFails(t, reset) => At(s.(pipe := s.pipe.(connected := s.pipe.connected && !reset)), t, Failing)
    case Recover(t) =>
      At(s.(pipe := s.pipe.(batch := [], registered := false), fates := s.fates + [Lost(s.pipe.batch)],
            failed := true), t, Rest)
    case Complete(t, bytes) =>
      var fate := if bytes == 0 then Lost(s.pipe.batch) else Sent(s.pipe.batch);
      var done := s.(pipe := s.pipe.(batch := []), fates := s.fates + [fate], outstanding := s.outstanding - 1);
      if bytes == 0 then done.(pipe := done.pipe.(connected := false)) else At(done, t, Completed)
    case Settle(t) =>
      if s.pipe.queue == [] then At(s.(pipe := s.pipe.(registered := false)), t, Rest) else At(s, t, MustRegister)
  }

  /** One thread, or one pending WSASend, is responsible for the queue at this moment. */
  ghost predicate Active(s: State) {
    s.outstanding > 0 || exists t :: Owns(PcOf(s, t))
  }

  /** `_sendRegistered` is set but nobody will ever look at the queue again. */
  ghost predicate Stalled(s: State) {
    s.pipe.registered && !Active(s)
  }

  function Batches(fates: seq<Fate>): seq<seq<SendBuffer>> {
    seq(|fates|, i requires 0 <= i < |fates| => fates[i].batch)
  }

  predicate InOrder(s: State) {
    s.accepted == Concat(Batches(s.fates)) + s.pipe.batch + s.pipe.queue
  }

  predicate BatchFits(s: State, t: ThreadId) {
    match PcOf(s, t)
    case Rest => true
    case Checked(_) => true
    case MustRegister => s.pipe.batch == [] && s.pipe.queue != []
    case Batching => s.pipe.batch == [] && s.pipe.queue != []
    case Submitting => s.pipe.batch != []
    case Failing => s.pipe.batch != []
    case Completed => s.pipe.batch == []
  }

  ghost predicate OneOwner(s: State) {
    && (forall t, u :: Owns(PcOf(s, t)) && Owns(PcOf(s, u)) ==> t == u)
    && (forall t :: Owns(PcOf(s, t)) ==> s.pipe.registered && s.outstanding == 0)
    && s.outstanding <= 1
    && (s.outstanding == 1 ==> s.pipe.registered && s.pipe.batch != [])
    && (forall t :: BatchFits(s, t))
    && (!Active(s) ==> s.pipe.batch == [])
  }

  /** While buffers wait, the flag is set exactly until a WSASend fails. */
  predicate FlagHonest(s: State) {
    && (s.pipe.queue != [] && !s.failed ==> s.pipe.registered)
    && (s.failed ==> !s.pipe.registered)
  }

  ghost predicate Sound(s: State) {
    LedgerExact(s.pipe) && InOrder(s) && OneOwner(s) && FlagHonest(s)
  }

  lemma StepKeepsLedger(s: State, e: Event)
    requires Enabled(s, e) && LedgerExact(s.pipe)
    ensures LedgerExact(Step(s, e).pipe)
  {
    if e.Push? {
      EnqueueKeepsLedger(s.pipe, PcOf(s, e.t).b);
    } else if e.GatherBatch? {
      GatherKeepsLedger(s.pipe);
    }
  }

  lemma FateAppended(s: State, f: Fate)
    ensures Concat(Batches(s.fates + [f])) == Concat(Batches(s.fates)) + f.batch
  {
    assert Batches(s.fates + [f]) == Batches(s.fates) + [f.batch];
    ConcatOfPush(Batches(s.fates), f.batch);
  }

  lemma SplitInPlace(front: seq<SendBuffer>, q: seq<SendBuffer>, k: nat)
    requires k <= |q|
    ensures front + [] + q == front + ([] + q[..k]) + q[k..]
  {
    assert q == q[..k] + q[k..];
  }

  lemma GatherKeepsOrder(s: State)
    requires InOrder(s) && s.pipe.batch == []
    ensures s.accepted == Concat(Batches(s.fates)) + Gather(s.pipe).batch + Gather(s.pipe).queue
  {
    SplitInPlace(Concat(Batches(s.fates)), s.pipe.queue, BatchSize(s.pipe.queue));
  }

  lemma PushKeepsOrder(s: State, t: ThreadId)
    requires PcOf(s, t).Checked? && InOrder(s)
    ensures InOrder(Step(s, Push(t)))
  {
    var b, front := PcOf(s, t).b, Concat(Batches(s.fates)) + s.pipe.batch;
    assert front + s.pipe.queue + [b] == front + (s.pipe.queue + [b]);
  }

  lemma StepKeepsOrder(s: State, e: Event)
    requires Enabled(s, e) && InOrder(s) && (e.GatherBatch? ==> s.pipe.batch == [])
    ensures InOrder(Step(s, e))
  {
    var front := Concat(Batches(s.fates)) + s.pipe.batch;
    assert front + [] == front;
    match e
    case Push(t) => PushKeepsOrder(s, t);
    case GatherBatch(_) => GatherKeepsOrder(s);
    case Recover(_) => FateAppended(s, Lost(s.pipe.batch));
    case Complete(_, bytes) => FateAppended(s, if bytes == 0 then Lost(s.pipe.batch) else Sent(s.pipe.batch));
    case _ =>
  }

  /** A thread whose step it is, if the event is a thread's. */
  function Mover(e: Event): ThreadId
    requires !e.Connect? && !e.Disconnect?
  {
    e.t
  }

  lemma OtherThreadsStay(s: State, e: Event, u: ThreadId)
    requires Enabled(s, e) && (e.Connect? || e.Disconnect? || u != Mover(e))
    ensures PcOf(Step(s, e), u) == PcOf(s, u)
  {
  }

  lemma GatherTakesSome(p: Pipe)
    requires p.batch == []
    ensures p.queue != [] ==> Gather(p).batch != []
    ensures |Gather(p).batch| + |Gather(p).queue| == |p.queue|
  {
  }

  lemma StepKeepsOneOwner(s: State, e: Event)
    requires Enabled(s, e) && OneOwner(s)
    ensures OneOwner(Step(s, e))
  {
    var s' := Step(s, e);
    if e.Connect? || e.Disconnect? {
      forall u ensures PcOf(s', u) == PcOf(s, u) {}
      assert forall u :: BatchFits(s, u) ==> BatchFits(s', u);
    } else {
      var t := Mover(e);
      assert BatchFits(s, t);
      if e.GatherBatch? {
        GatherTakesSome(s.pipe);
      }
      forall u | u != t ensures PcOf(s', u) == PcOf(s, u) && BatchFits(s', u) {
        OtherThreadsStay(s, e, u);
        assert BatchFits(s, u);
      }
      assert Owns(PcOf(s, t)) ==> Active(s);
      assert Owns(PcOf(s', t)) ==> Active(s');
    }
  }

  lemma StepKeepsSound(s: State, e: Event)
    requires Sound(s) && Enabled(s, e)
    ensures Sound(Step(s, e))
  {
    if e.GatherBatch? {
      assert BatchFits(s, e.t);
    }
    StepKeepsLedger(s, e);
    StepKeepsOrder(s, e);
    StepKeepsOneOwner(s, e);
    StepKeepsFlagHonest(s, e);
  }

  lemma StepKeepsFlagHonest(s: State, e: Event)
    requires Enabled(s, e) && OneOwner(s) && FlagHonest(s)
    ensures FlagHonest(Step(s, e))
  {
    if e.Settle? || e.Submit? || e.Check? || e.GatherBatch? {
      assert Owns(PcOf(s, e.t));
    }
  }

  ghost predicate Runs(s: State, events: seq<Event>, s': State)
    decreases |events|
  {
    if events == [] then s' == s
    else Enabled(s, events[0]) && Runs(Step(s, events[0]), events[1..], s')
  }

  lemma {:induction false} RunsStaySound(s: State, events: seq<Event>, s': State)
    requires Sound(s) && Runs(s, events, s')
    ensures Sound(s')
    decreases |events|
  {
    if events != [] {
      StepKeepsSound(s, events[0]);
      RunsStaySound(Step(s, events[0]), events[1..], s');
    }
  }

  /**
   Send order is conserved over every run: what was accepted is the batches already gone, the one in
   `_sendEvent` and the queue, end to end.
   */
  lemma AcceptedInOrder(events: seq<Event>, s: State)
    requires Runs(START, events, s)
    ensures s.accepted == Concat(Batches(s.fates)) + s.pipe.batch + s.pipe.queue
  {
    RunsStaySound(START, events, s);
  }

  /** The step loses the batch in `_sendEvent`: WSASend failed, or completed with nothing sent. */
  predicate Loses(e: Event) {
    e.Recover? || (e.Complete? && e.bytes == 0)
  }

  /** A batch leaves the send event whole, and nothing else ever leaves the session. */
  lemma BatchesLeaveWhole(s: State, e: Event)
    requires Enabled(s, e)
    ensures Step(s, e).fates ==
            s.fates + if Loses(e) then [Lost(s.pipe.batch)] else if e.Complete? then [Sent(s.pipe.batch)] else []
    ensures Loses(e) || e.Complete? ==> Step(s, e).pipe.batch == [] && Step(s, e).pipe.queue == s.pipe.queue
  {
    assert s.fates + [] == s.fates;
  }

  /** Only those two steps lose anything: in a run without them every batch gone was sent. */
  lemma {:induction false} LostOnlyByFailure(s: State, events: seq<Event>, s': State)
    requires Runs(s, events, s') && forall e <- events :: !Loses(e)
    ensures s.fates <= s'.fates && forall i :: |s.fates| <= i < |s'.fates| ==> s'.fates[i].Sent?
    decreases |events|
  {
    if events != [] {
      assert !Loses(events[0]);
      BatchesLeaveWhole(s, events[0]);
      LostOnlyByFailure(Step(s, events[0]), events[1..], s');
    }
  }

  /** Send goes on to the queue exactly when it finds the session connected. */
  lemma SendNeedsConnection(s: State, t: ThreadId, b: SendBuffer)
    requires PcOf(s, t).Rest?
    ensures PcOf(Step(s, Call(t, b)), t) == if s.pipe.connected then Checked(b) else Rest
    ensures Step(s, Call(t, b)).pipe == s.pipe && Step(s, Call(t, b)).accepted == s.accepted
  {
  }

  /**
   When a buffer is accepted, said of what waits: it must fit 128 KB and 256 buffers, and while a WSASend is
   registered there must wait less than 64 KB and 128 buffers. It then goes to the end of the queue, and the sender
   registers if nobody had; otherwise nothing changes.
   */
  lemma SendAcceptsIff(events: seq<Event>, s: State, t: ThreadId, b: SendBuffer)
    requires Runs(START, events, s) && PcOf(s, t) == Checked(b)
    ensures
      var s' := Step(s, Push(t));
      var waiting := Bytes(s.pipe.queue);
      if waiting + b.size <= 128 * 1024 && |s.pipe.queue| < 256 &&
         (s.pipe.registered ==> waiting < 64 * 1024 && |s.pipe.queue| < 128)
      then
        && s'.accepted == s.accepted + [b] && s'.pipe.queue == s.pipe.queue + [b]
        && s'.pipe.registered && s'.pipe.connected == s.pipe.connected && s'.pipe.batch == s.pipe.batch
        && s'.pipe.backlogBytes == waiting + b.size && s'.pipe.backlogCount == |s.pipe.queue| + 1
        && PcOf(s', t) == (if s.pipe.registered then Rest else MustRegister)
      else s'.accepted == s.accepted && s'.pipe == s.pipe && PcOf(s', t) == Rest
  {
    RunsStaySound(START, events, s);
  }

  /** The ledger is the queue's true size in every reachable state, and the hard caps hold. */
  lemma LedgerMatchesQueue(events: seq<Event>, s: State)
    requires Runs(START, events, s)
    ensures s.pipe.backlogBytes == Bytes(s.pipe.queue) <= MAX_BACKLOG_BYTES
    ensures s.pipe.backlogCount == |s.pipe.queue| <= MAX_BACKLOG_COUNT
  {
    RunsStaySound(START, events, s);
  }

  /** A WSASend is never issued while another is outstanding, and never with an empty batch. */
  lemma OneSendAtATime(events: seq<Event>, s: State, t: ThreadId)
    requires Runs(START, events, s)
    ensures s.outstanding <= 1
    ensures PcOf(s, t).Submitting? ==>
              && s.outstanding == 0 && s.pipe.batch != []
              && forall u :: Owns(PcOf(s, u)) ==> u == t
  {
    RunsStaySound(START, events, s);
    assert BatchFits(s, t);
  }

  // ---------------------------------------------------------------- wake-up

  /** RegisterSend turns back because the connection is gone, or a completion brings no bytes. */
  predicate Strands(s: State, e: Event) {
    (e.Check? && !s.pipe.connected) || (e.Complete? && e.bytes == 0)
  }

  /** These two steps leave the flag behind with nobody active, and no step ever takes it back. */
  lemma StallsIff(s: State, e: Event)
    requires OneOwner(s) && Enabled(s, e)
    ensures Stalled(Step(s, e)) <==> Stalled(s) || Strands(s, e)
  {
    var s' := Step(s, e);
    forall u | e.Connect? || e.Disconnect? || u != Mover(e) ensures PcOf(s', u) == PcOf(s, u) {
      OtherThreadsStay(s, e, u);
    }
    if e.Connect? || e.Disconnect? || !Owns(PcOf(s, e.t)) {
      BystanderKeepsStall(s, e);
    } else {
      assert Owns(PcOf(s', e.t)) ==> Active(s');
      forall u | u != e.t ensures !Owns(PcOf(s', u)) {
        assert !Owns(PcOf(s, u));
      }
    }
  }

  lemma BystanderKeepsStall(s: State, e: Event)
    requires OneOwner(s) && Enabled(s, e) && (e.Connect? || e.Disconnect? || !Owns(PcOf(s, Mover(e))))
    ensures Stalled(Step(s, e)) <==> Stalled(s) || Strands(s, e)
  {
    var s' := Step(s, e);
    forall u | e.Connect? || e.Disconnect? || u != Mover(e) ensures PcOf(s', u) == PcOf(s, u) {
      OtherThreadsStay(s, e, u);
    }
    if t :| Owns(PcOf(s, t)) {
      assert Owns(PcOf(s', t));
    }
    if e.Complete? && e.bytes > 0 {
      assert Owns(PcOf(s', e.t));
    }
    if e.Push? && Owns(PcOf(s', e.t)) {
      assert Active(s');
    }
  }

  ghost predicate Stranded(s: State, events: seq<Event>)
    decreases |events|
  {
    && events != [] && Enabled(s, events[0])
    && (Strands(s, events[0]) || Stranded(Step(s, events[0]), events[1..]))
  }

  lemma {:induction false} StalledIffStranded(s: State, events: seq<Event>, s': State)
    requires OneOwner(s) && Runs(s, events, s')
    ensures Stalled(s') <==> Stalled(s) || Stranded(s, events)
    decreases |events|
  {
    if events != [] {
      StallsIff(s, events[0]);
      StepKeepsOneOwner(s, events[0]);
      StalledIffStranded(Step(s, events[0]), events[1..], s');
    }
  }

  /**
   No lost wake-up: a waiting buffer has its flag set exactly when no WSASend failed since the last one was
   accepted, and then somebody will come back for it exactly when nothing was stranded on the way.
   */
  lemma NoLostWakeUp(events: seq<Event>, s: State)
    requires Runs(START, events, s) && s.pipe.queue != []
    ensures s.pipe.registered <==> !s.failed
    ensures Active(s) <==> !s.failed && !Stranded(START, events)
  {
    RunsStaySound(START, events, s);
    StalledIffStranded(START, events, s);
    assert Active(s) ==> s.pipe.registered;
  }

  /** Within one connection nothing is stranded: whoever is connected afterwards has connected again since. */
  lemma {:induction false} StrandedMeansReconnected(s: State, events: seq<Event>, s': State) returns (i: nat)
    requires Runs(s, events, s') && Stranded(s, events) && s'.pipe.connected
    ensures i < |events| && events[i].Connect? && Stranded(s, events[..i])
    decreases |events|
  {
    var next := Step(s, events[0]);
    if Strands(s, events[0]) {
      var k := ConnectedByConnect(next, events[1..], s');
      i := k + 1;
    } else {
      var k := StrandedMeansReconnected(next, events[1..], s');
      i := k + 1;
      assert events[..i][1..] == events[1..][..k];
    }
  }

  lemma {:induction false} ConnectedByConnect(s: State, events: seq<Event>, s': State) returns (i: nat)
    requires Runs(s, events, s') && !s.pipe.connected && s'.pipe.connected
    ensures i < |events| && events[i].Connect?
    decreases |events|
  {
    if events[0].Connect? {
      i := 0;
    } else {
      var k := ConnectedByConnect(Step(s, events[0]), events[1..], s');
      i := k + 1;
    }
  }

  /** Once stalled, no batch ever goes out and no buffer ever leaves the queue, whatever anybody does. */
  lemma {:induction false} StalledForGood(s: State, events: seq<Event>, s': State)
    requires OneOwner(s) && Stalled(s) && Runs(s, events, s')
    ensures Stalled(s') && s'.outstanding == 0 && s'.fates == s.fates
    ensures s'.pipe.batch == s.pipe.batch && s.pipe.queue <= s'.pipe.queue
    decreases |events|
  {
    if events != [] {
      var e := events[0];
      assert e.Connect? || e.Disconnect? || !Owns(PcOf(s, Mover(e)));
      StallsIff(s, e);
      StepKeepsOneOwner(s, e);
      StalledForGood(Step(s, e), events[1..], s');
    }
  }

  predicate PreBatch(pc: Pc) {
    !pc.Submitting? && !pc.Failing? && !pc.Completed?
  }

  /** The queue never grows past one more than the soft cap. */
  ghost predicate Short(s: State) {
    && |s.pipe.queue| <= SOFT_BACKLOG_COUNT_WHEN_REGISTERED + 1
    && (|s.pipe.queue| > SOFT_BACKLOG_COUNT_WHEN_REGISTERED ==>
          s.pipe.registered && s.outstanding == 0 && forall t :: PreBatch(PcOf(s, t)))
  }

  lemma StepKeepsShort(s: State, e: Event)
    requires Sound(s) && Enabled(s, e) && Short(s)
    ensures Short(Step(s, e))
  {
    var s' := Step(s, e);
    if e.GatherBatch? {
      assert BatchFits(s, e.t);
      GatherTakesSome(s.pipe);
    }
    forall u ensures PcOf(s', u) == PcOf(s, u) || (!e.Connect? && !e.Disconnect? && u == Mover(e)) {}
    if !s.pipe.registered {
      forall u ensures PreBatch(PcOf(s, u)) {}
    }
  }

  lemma {:induction false} RunsStayShort(s: State, events: seq<Event>, s': State)
    requires Sound(s) && Short(s) && Runs(s, events, s')
    ensures Short(s')
    decreases |events|
  {
    if events != [] {
      StepKeepsSound(s, events[0]);
      StepKeepsShort(s, events[0]);
      RunsStayShort(Step(s, events[0]), events[1..], s');
    }
  }

  /** The hard cap on the number of buffers is never what rejects a Send: at most 129 ever wait. */
  lemma CountCapNeverRejects(events: seq<Event>, s: State)
    requires Runs(START, events, s)
    ensures s.pipe.backlogCount + 1 <= SOFT_BACKLOG_COUNT_WHEN_REGISTERED + 2 < MAX_BACKLOG_COUNT
  {
    RunsStaySound(START, events, s);
    RunsStayShort(START, events, s);
  }

  /** A failed WSASend with buffers still waiting leaves nobody to send them until the next Send. */
  lemma FailureLeavesQueueUnwatched(s: State, t: ThreadId)
    requires Sound(s) && PcOf(s, t).Failing? && s.pipe.queue != []
    ensures var s' := Step(s, Recover(t)); s'.pipe.queue != [] && !s'.pipe.registered && !Active(s')
  {
    StepKeepsOneOwner(s, Recover(t));
  }

  /** Queued, disconnected before RegisterSend looks, and connected again. */
  function Reconnect(t: ThreadId, b: SendBuffer): seq<Event> {
    [Connect, Call(t, b), Push(t), Disconnect, Check(t), Connect]
  }

  /** The first four steps: the buffer is queued, t is to register it, and the connection is gone. */
  lemma QueuedThenGone(t: ThreadId, b: SendBuffer) returns (s: State)
    requires b.size <= MAX_BACKLOG_BYTES
    ensures Runs(START, Reconnect(t, b)[..4], s)
    ensures s == START.(pipe := Pipe(false, [b], b.size, 1, true, []), pcs := map[t := MustRegister], accepted := [b])
  {
    var s1 := Step(Step(START, Connect), Call(t, b));
    s := Step(Step(s1, Push(t)), Disconnect);
    assert [] + [b] == [b];
    RunsOne(Step(s1, Push(t)), Disconnect, [], s);
    RunsOne(s1, Push(t), [Disconnect], s);
    RunsOne(Step(START, Connect), Call(t, b), [Push(t), Disconnect], s);
    RunsOne(START, Connect, [Call(t, b), Push(t), Disconnect], s);
    assert Reconnect(t, b)[..4] == [Connect] + [Call(t, b), Push(t), Disconnect];
  }

  lemma ReconnectIsARun(t: ThreadId, b: SendBuffer) returns (s: State)
    requires b.size <= MAX_BACKLOG_BYTES
    ensures Runs(START, Reconnect(t, b), s)
    ensures Stalled(s) && s.pipe.connected && s.pipe.queue == [b] && !s.failed && s.pipe.batch == [] && s.fates == []
  {
    var gone := QueuedThenGone(t, b);
    s := Step(Step(gone, Check(t)), Connect);
    RunsOne(Step(gone, Check(t)), Connect, [], s);
    RunsOne(gone, Check(t), [Connect], s);
    RunsConcat(START, Reconnect(t, b)[..4], gone, [Check(t)] + [Connect], s);
    assert Reconnect(t, b) == Reconnect(t, b)[..4] + ([Check(t)] + [Connect]);
  }

  /**
   A Send that loses its connection between queueing and RegisterSend leaves the flag set; after a new
   connect the buffer waits for ever, whatever anybody does later.
   */
  lemma ReconnectStalls(t: ThreadId, b: SendBuffer) returns (s: State)
    requires b.size <= MAX_BACKLOG_BYTES
    ensures Runs(START, Reconnect(t, b), s) && s.pipe.connected && s.pipe.queue == [b] && !s.failed
    ensures forall more, later :: Runs(s, more, later) ==>
              !Active(later) && later.fates == [] && later.pipe.batch == [] && [b] <= later.pipe.queue
  {
    s := ReconnectIsARun(t, b);
    RunsStaySound(START, Reconnect(t, b), s);
    forall more, later | Runs(s, more, later)
      ensures !Active(later) && later.fates == [] && later.pipe.batch == [] && [b] <= later.pipe.queue
    {
      StalledForGood(s, more, later);
    }
  }

  /** One round of thread t: gather, submit, complete with some bytes, settle. */
  function Round(t: ThreadId): seq<Event> {
    [Check(t), GatherBatch(t), Submit(t), Complete(t, 1), Settle(t)]
  }

  lemma RunsOne(s: State, e: Event, events: seq<Event>, s': State)
    requires Enabled(s, e) && Runs(Step(s, e), events, s')
    ensures Runs(s, [e] + events, s')
  {
    assert ([e] + events)[1..] == events;
  }

  /** The first three steps of a round put the batch on the wire. */
  lemma BatchGoesOut(s: State, t: ThreadId) returns (s3: State)
    requires Sound(s) && PcOf(s, t).MustRegister? && s.pipe.connected
    ensures Runs(s, [Check(t), GatherBatch(t), Submit(t)], s3) && Sound(s3)
    ensures s3.pipe == Gather(s.pipe) && s3.outstanding == 1 && PcOf(s3, t).Rest?
    ensures s3.accepted == s.accepted && s3.fates == s.fates
  {
    var s1 := Step(s, Check(t));
    StepKeepsSound(s, Check(t));
    var s2 := Step(s1, GatherBatch(t));
    StepKeepsSound(s1, GatherBatch(t));
    s3 := Step(s2, Submit(t));
    StepKeepsSound(s2, Submit(t));
    RunsOne(s2, Submit(t), [], s3);
    RunsOne(s1, GatherBatch(t), [Submit(t)], s3);
    RunsOne(s, Check(t), [GatherBatch(t), Submit(t)], s3);
    assert [Check(t)] + [GatherBatch(t), Submit(t)] == [Check(t), GatherBatch(t), Submit(t)];
    assert [GatherBatch(t)] + [Submit(t)] == [GatherBatch(t), Submit(t)];
    assert [Submit(t)] + [] == [Submit(t)];
  }

  /** The last two: the batch has gone, and t settles. */
  lemma BatchCompletes(s: State, t: ThreadId) returns (s': State)
    requires Sound(s) && s.outstanding > 0 && PcOf(s, t).Rest? && s.pipe.connected
    ensures Runs(s, [Complete(t, 1), Settle(t)], s') && Sound(s')
    ensures s'.pipe == s.pipe.(batch := [], registered := s.pipe.registered && s.pipe.queue != [])
    ensures s'.fates == s.fates + [Sent(s.pipe.batch)] && s'.accepted == s.accepted
    ensures s.pipe.queue != [] ==> PcOf(s', t).MustRegister?
  {
    var done := Step(s, Complete(t, 1));
    StepKeepsSound(s, Complete(t, 1));
    s' := Step(done, Settle(t));
    StepKeepsSound(done, Settle(t));
    RunsOne(done, Settle(t), [], s');
    RunsOne(s, Complete(t, 1), [Settle(t)], s');
  }

  lemma OneRound(s: State, t: ThreadId) returns (s': State)
    requires Sound(s) && PcOf(s, t).MustRegister? && s.pipe.connected
    ensures Runs(s, Round(t), s') && Sound(s')
    ensures s'.pipe.queue == s.pipe.queue[BatchSize(s.pipe.queue)..] && s'.pipe.connected && s'.accepted == s.accepted
    ensures s'.fates == s.fates + [Sent(s.pipe.queue[..BatchSize(s.pipe.queue)])]
    ensures if s'.pipe.queue == [] then !s'.pipe.registered else PcOf(s', t).MustRegister?
    ensures s'.pipe.batch == []
  {
    assert BatchFits(s, t);
    var gone := BatchGoesOut(s, t);
    var k := BatchSize(s.pipe.queue);
    assert [] + s.pipe.queue[..k] == s.pipe.queue[..k];
    s' := BatchCompletes(gone, t);
    RunsConcat(s, [Check(t), GatherBatch(t), Submit(t)], gone, [Complete(t, 1), Settle(t)], s');
    assert Round(t) == [Check(t), GatherBatch(t), Submit(t)] + [Complete(t, 1), Settle(t)];
  }

  lemma {:induction false} RunsConcat(s: State, events: seq<Event>, mid: State, more: seq<Event>, s': State)
    requires Runs(s, events, mid) && Runs(mid, more, s')
    ensures Runs(s, events + more, s')
    decreases |events|
  {
    if events == [] {
      assert events + more == more;
    } else {
      assert events + more == [events[0]] + (events[1..] + more);
      RunsConcat(Step(s, events[0]), events[1..], mid, more, s');
      RunsOne(s, events[0], events[1..] + more, s');
    }
  }

  /** The WSASends it takes to empty a queue that nobody adds to. */
  function RoundsFor(q: seq<SendBuffer>): (n: nat)
    ensures n <= |q|
    decreases |q|
  {
    if q == [] then 0 else 1 + RoundsFor(q[BatchSize(q)..])
  }

  function Rounds(t: ThreadId, n: nat): seq<Event> {
    if n == 0 then [] else Round(t) + Rounds(t, n - 1)
  }

  lemma RoundsUnroll(t: ThreadId, q: seq<SendBuffer>)
    requires q != []
    ensures Rounds(t, RoundsFor(q)) == Round(t) + Rounds(t, RoundsFor(q[BatchSize(q)..]))
  {
  }

  lemma SentStaysInFront(before: seq<Fate>, batch: seq<SendBuffer>, after: seq<Fate>)
    requires before + [Sent(batch)] <= after
    requires forall i :: |before| + 1 <= i < |after| ==> after[i].Sent?
    ensures before <= after && forall i :: |before| <= i < |after| ==> after[i].Sent?
  {
    assert after[|before|] == (before + [Sent(batch)])[|before|];
  }

  /** One schedule that empties the queue: thread t takes one round after another. */
  lemma {:induction false} RoundsDrain(s: State, t: ThreadId) returns (s': State)
    requires Sound(s) && PcOf(s, t).MustRegister? && s.pipe.connected
    ensures Runs(s, Rounds(t, RoundsFor(s.pipe.queue)), s')
    ensures s'.pipe.queue == [] && !s'.pipe.registered && Concat(Batches(s'.fates)) == s.accepted
    ensures |s'.fates| == |s.fates| + RoundsFor(s.pipe.queue) && s.fates <= s'.fates
    ensures forall i :: |s.fates| <= i < |s'.fates| ==> s'.fates[i].Sent?
    decreases |s.pipe.queue|
  {
    assert BatchFits(s, t);
    var mid := OneRound(s, t);
    if mid.pipe.queue == [] {
      s' := mid;
      assert RoundsFor(mid.pipe.queue) == 0;
      assert InOrder(mid);
    } else {
      s' := RoundsDrain(mid, t);
    }
    SentStaysInFront(s.fates, s.pipe.queue[..BatchSize(s.pipe.queue)], s'.fates);
    RoundsUnroll(t, s.pipe.queue);
    RunsConcat(s, Round(t), mid, Rounds(t, RoundsFor(mid.pipe.queue)), s');
  }

  // ---------------------------------------------------------------- draining

  /** The WSASends it takes to empty queue and send event. */
  function Owed(s: State): nat {
    RoundsFor(s.pipe.queue) + if s.pipe.batch != [] then 1 else 0
  }

  /** Nothing new is accepted, WSASend does not fail and the connection stays. */
  predicate Quiet(s: State, e: Event) {
    match e
    case Disconnect => false
    case Push(t) => PcOf(s, t).Checked? ==> !Accepts(s.pipe, PcOf(s, t).b)
    case SubmitFails(_, _) => false
    case Complete(_, bytes) => bytes > 0
    case _ => true
  }

  /** The steps that bring the queue forward. */
  predicate Advances(e: Event) {
    e.Check? || e.GatherBatch? || e.Submit? || e.Complete? || e.Settle?
  }

  ghost predicate Draining(s: State) {
    && Sound(s) && s.pipe.connected && !Stalled(s) && (s.pipe.queue != [] ==> !s.failed)
    && forall t :: !PcOf(s, t).Failing?
  }

  ghost predicate SomebodyAt(s: State, pc: Pc) {
    exists t :: PcOf(s, t) == pc
  }

  /** The advancing steps still to come: five to a WSASend, less what the current one has behind it. */
  ghost function StepsLeft(s: State): int {
    var rounds := 5 * RoundsFor(s.pipe.queue);
    if s.outstanding > 0 then rounds + 2
    else if SomebodyAt(s, MustRegister) then rounds
    else if SomebodyAt(s, Batching) then rounds - 1
    else if SomebodyAt(s, Submitting) then rounds + 3
    else if SomebodyAt(s, Completed) then rounds + 1
    else 0
  }

  /** Which of the cases it is depends on the one owner, if there is one. */
  lemma StepsLeftOfOwner(s: State, t: ThreadId)
    requires OneOwner(s) && Owns(PcOf(s, t)) && !PcOf(s, t).Failing?
    ensures StepsLeft(s) ==
            5 * RoundsFor(s.pipe.queue) +
            match PcOf(s, t) case MustRegister => 0 case Batching => -1 case Submitting => 3 case _ => 1
  {
    assert SomebodyAt(s, PcOf(s, t));
  }

  lemma StepsLeftUnowned(s: State)
    requires forall t :: !Owns(PcOf(s, t))
    ensures StepsLeft(s) == if s.outstanding > 0 then 5 * RoundsFor(s.pipe.queue) + 2 else 0
  {
  }

  lemma DrainingStep(s: State, e: Event)
    requires Draining(s) && Enabled(s, e) && Quiet(s, e)
    ensures Draining(Step(s, e)) && Step(s, e).accepted == s.accepted
    ensures StepsLeft(s) == StepsLeft(Step(s, e)) + if Advances(e) then 1 else 0
    ensures Owed(s) == Owed(Step(s, e)) + if e.Complete? then 1 else 0
  {
    var s' := Step(s, e);
    StepKeepsSound(s, e);
    StallsIff(s, e);
    forall u | e.Connect? || u != Mover(e) ensures PcOf(s', u) == PcOf(s, u) {
      OtherThreadsStay(s, e, u);
    }
    if Advances(e) {
      AdvancingStep(s, e);
    } else {
      forall u ensures PcOf(s', u) == PcOf(s, u) || (!Owns(PcOf(s, u)) && !Owns(PcOf(s', u))) {}
      forall pc | Owns(pc) ensures SomebodyAt(s', pc) <==> SomebodyAt(s, pc) {
        if t :| PcOf(s, t) == pc { assert PcOf(s', t) == pc; }
        if t :| PcOf(s', t) == pc { assert PcOf(s, t) == pc; }
      }
    }
  }

  lemma AdvancingStep(s: State, e: Event)
    requires Draining(s) && Enabled(s, e) && Quiet(s, e) && Advances(e) && OneOwner(Step(s, e))
    ensures StepsLeft(s) == StepsLeft(Step(s, e)) + 1
    ensures Owed(s) == Owed(Step(s, e)) + if e.Complete? then 1 else 0
  {
    var s', t := Step(s, e), e.t;
    assert BatchFits(s, t);
    forall u | u != t ensures PcOf(s', u) == PcOf(s, u) {
      OtherThreadsStay(s, e, u);
    }
    if e.Complete? {
      StepsLeftUnowned(s);
    } else {
      StepsLeftOfOwner(s, t);
    }
    if Owns(PcOf(s', t)) {
      StepsLeftOfOwner(s', t);
    } else {
      StepsLeftUnowned(s');
    }
  }

  /** While anything is owed, somebody has an advancing step to take. */
  lemma DrainingGoesOn(s: State) returns (e: Event)
    requires Draining(s) && Owed(s) > 0
    ensures Enabled(s, e) && Quiet(s, e) && Advances(e)
  {
    if s.outstanding > 0 {
      var t := FreshId(s.pcs.Keys);
      e := Complete(t, 1);
    } else {
      assert Active(s);
      var t :| Owns(PcOf(s, t));
      assert BatchFits(s, t) && !PcOf(s, t).Failing?;
      e := match PcOf(s, t)
           case MustRegister => Check(t)
           case Batching => GatherBatch(t)
           case Submitting => Submit(t)
           case _ => Settle(t);
    }
  }

  ghost predicate QuietRun(s: State, events: seq<Event>, s': State)
    decreases |events|
  {
    if events == [] then s' == s
    else
      && Enabled(s, events[0]) && Quiet(s, events[0])
      && QuietRun(Step(s, events[0]), events[1..], s')
  }

  function Advancing(events: seq<Event>): nat {
    if events == [] then 0 else (if Advances(events[0]) then 1 else 0) + Advancing(events[1..])
  }

  function Completions(events: seq<Event>): nat {
    if events == [] then 0 else (if events[0].Complete? then 1 else 0) + Completions(events[1..])
  }

  /**
   The queue drains, whichever threads take the steps: every completion pays one WSASend of what is owed and
   every advancing step one of the steps left. When none is left nothing waits, the flag is free and everything
   accepted has gone; until then DrainingGoesOn names a step somebody can take.
   */
  lemma {:induction false} QueueDrains(s: State, events: seq<Event>, s': State)
    requires Draining(s) && QuietRun(s, events, s')
    ensures Draining(s') && s'.accepted == s.accepted
    ensures Owed(s) == Owed(s') + Completions(events)
    ensures StepsLeft(s) == StepsLeft(s') + Advancing(events)
    ensures Owed(s') == 0 ==> s'.pipe.queue == [] && s'.pipe.batch == [] && Concat(Batches(s'.fates)) == s.accepted
    ensures StepsLeft(s') >= 0 && (StepsLeft(s') == 0 ==> Owed(s') == 0 && !s'.pipe.registered)
    decreases |events|
  {
    if events == [] {
      NothingLeftIsIdle(s);
    } else {
      DrainingStep(s, events[0]);
      QueueDrains(Step(s, events[0]), events[1..], s');
    }
  }

  lemma NothingLeftIsIdle(s: State)
    requires Draining(s)
    ensures Owed(s) == 0 ==> s.pipe.queue == [] && s.pipe.batch == [] && Concat(Batches(s.fates)) == s.accepted
    ensures StepsLeft(s) >= 0 && (StepsLeft(s) == 0 ==> Owed(s) == 0 && !s.pipe.registered)
  {
    if t :| Owns(PcOf(s, t)) {
      assert BatchFits(s, t);
      StepsLeftOfOwner(s, t);
    } else {
      StepsLeftUnowned(s);
    }
  }
}
