/** The send side of Session in place: each locked section is one method. */
module Session {
  import opened SendBatch
  import P = SendPipeline

  lemma GatherOneMore(q: seq<SendBuffer>, done: seq<SendBuffer>, rest: seq<SendBuffer>)
    requires q == done + rest && rest != []
    ensures q == (done + [rest[0]]) + rest[1..] && Bytes(done + [rest[0]]) == Bytes(done) + rest[0].size
    ensures BatchFrom(q, |done|) ==
            if done == [] || (Bytes(done) + rest[0].size <= MAX_SEND_BATCH_BYTES && |done| < MAX_SEND_BATCH_COUNT)
            then BatchFrom(q, |done| + 1) else |done|
  {
    BytesOfPush(done, rest[0]);
    assert q[..|done|] == done && q[|done|] == rest[0];
  }

  /** The loop has stopped after moving a whole batch: that is what Gather does. */
  lemma GatherIs(p: Pipe, r: Pipe)
    requires p.batch == [] && p.queue == r.batch + r.queue && |r.batch| == BatchSize(p.queue)
    requires r.connected == p.connected && r.registered == p.registered
    requires r.backlogBytes == p.backlogBytes - Bytes(r.batch) && r.backlogCount == p.backlogCount - |r.batch|
    ensures r == Gather(p)
  {
    var k := BatchSize(p.queue);
    assert p.queue[..k] == r.batch && p.queue[k..] == r.queue;
    assert [] + r.batch == r.batch;
  }

  /** p' is what thread t leaves of p, in whatever state the rest is, by failing to submit and recovering. */
  ghost predicate RecoveredTo(p: Pipe, reset: bool, p': Pipe) {
    forall s: P.State, t :: s.pipe == p && P.PcOf(s, t).Submitting? ==>
      P.Step(P.Step(s, P.SubmitFails(t, reset)), P.Recover(t)).pipe == p'
  }

  /** Likewise by taking a completion and, if it brought bytes, settling. */
  ghost predicate SettledTo(p: Pipe, bytes: nat, p': Pipe, registerSend: bool) {
    forall s: P.State, t :: s.pipe == p && P.PcOf(s, t).Rest? && s.outstanding > 0 ==>
      var mid := P.Step(s, P.Complete(t, bytes));
      var end := if bytes == 0 then mid else P.Step(mid, P.Settle(t));
      end.pipe == p' && (registerSend <==> P.PcOf(end, t).MustRegister?)
  }

  /** Likewise by the locked section of Send. */
  ghost predicate PushedTo(p: Pipe, b: SendBuffer, p': Pipe, registerSend: bool) {
    forall s: P.State, t :: s.pipe == p && P.PcOf(s, t) == P.Checked(b) ==>
      var end := P.Step(s, P.Push(t));
      end.pipe == p' && (registerSend <==> P.PcOf(end, t).MustRegister?)
  }

  class Session {
    var connected: bool
    var sendQueue: seq<SendBuffer>
    var sendRegistered: bool
    var sendBacklogBytes: int
    var sendBacklogCount: int
    var sendBuffers: seq<SendBuffer>   // _sendEvent.sendBuffers

    function View(): Pipe
      reads this
    {
      Pipe(connected, sendQueue, sendBacklogBytes, sendBacklogCount, sendRegistered, sendBuffers)
    }

    predicate Valid()
      reads this
    {
      LedgerExact(View())
    }

    constructor ()
      ensures Valid() && View() == IDLE
    {
      connected, sendQueue, sendRegistered := false, [], false;
      sendBacklogBytes, sendBacklogCount, sendBuffers := 0, 0, [];
    }

    /** Session::Send inside the lock; the caller goes on to RegisterSend when it is told to. */
    method Push(sendBuffer: SendBuffer) returns (registerSend: bool)
      requires Valid()
      modifies `sendQueue, `sendRegistered, `sendBacklogBytes, `sendBacklogCount
      ensures Valid() && View() == Enqueue(old(View()), sendBuffer)
      ensures registerSend <==> Accepts(old(View()), sendBuffer) && !old(sendRegistered)
      ensures PushedTo(old(View()), sendBuffer, View(), registerSend)
      ensures sendQueue ==
              if Bytes(old(sendQueue)) + sendBuffer.size <= 128 * 1024 && |old(sendQueue)| < 256 &&
                 (old(sendRegistered) ==> Bytes(old(sendQueue)) < 64 * 1024 && |old(sendQueue)| < 128)
              then old(sendQueue) + [sendBuffer] else old(sendQueue)
    {
      EnqueueKeepsLedger(View(), sendBuffer);
      var sz := sendBuffer.size;
      registerSend := false;
      if sendBacklogBytes + sz > MAX_BACKLOG_BYTES || sendBacklogCount + 1 > MAX_BACKLOG_COUNT {
        return;
      }
      if sendRegistered {
        if sendBacklogBytes >= SOFT_BACKLOG_BYTES_WHEN_REGISTERED ||
           sendBacklogCount >= SOFT_BACKLOG_COUNT_WHEN_REGISTERED
        {
          return;
        }
      }
      sendQueue := sendQueue + [sendBuffer];
      sendBacklogBytes := sendBacklogBytes + sz;
      sendBacklogCount := sendBacklogCount + 1;
      if !sendRegistered {
        registerSend := true;
      }
      sendRegistered := true;
    }

    /** RegisterSend inside the lock: move the greedy prefix of the queue into the send event. */
    method GatherBatch()
      requires Valid() && sendBuffers == []
      modifies `sendQueue, `sendBuffers, `sendBacklogBytes, `sendBacklogCount
      ensures Valid() && View() == Gather(old(View()))
    {
      ghost var before := View();
      MoveBatch();
      GatherIs(before, View());
      GatherKeepsLedger(before);
    }

    method MoveBatch()
      requires sendBuffers == []
      modifies `sendQueue, `sendBuffers, `sendBacklogBytes, `sendBacklogCount
      ensures old(sendQueue) == sendBuffers + sendQueue && |sendBuffers| == BatchSize(old(sendQueue))
      ensures sendBacklogBytes == old(sendBacklogBytes) - Bytes(sendBuffers)
      ensures sendBacklogCount == old(sendBacklogCount) - |sendBuffers|
    {
      ghost var q := sendQueue;
      var batchedBytes := 0;
      while sendQueue != []
        invariant |sendBuffers| <= |q| && q == sendBuffers + sendQueue
        invariant batchedBytes == Bytes(sendBuffers) && BatchFrom(q, |sendBuffers|) == BatchSize(q)
        invariant sendBacklogBytes == old(sendBacklogBytes) - batchedBytes
        invariant sendBacklogCount == old(sendBacklogCount) - |sendBuffers|
        decreases |sendQueue|
      {
        var sb := sendQueue[0];
        var sz := sb.size;
        GatherOneMore(q, sendBuffers, sendQueue);
        if sendBuffers != [] {
          if batchedBytes + sz > MAX_SEND_BATCH_BYTES {
            break;
          }
          if |sendBuffers| >= MAX_SEND_BATCH_COUNT {
            break;
          }
        }
        MoveFront();
        batchedBytes := batchedBytes + sz;
      }
    }

    /** Pop the front of the queue into the send event and take it off the ledger. */
    method MoveFront()
      requires sendQueue != []
      modifies `sendQueue, `sendBuffers, `sendBacklogBytes, `sendBacklogCount
      ensures sendQueue == old(sendQueue)[1..] && sendBuffers == old(sendBuffers) + [old(sendQueue)[0]]
      ensures sendBacklogBytes == old(sendBacklogBytes) - old(sendQueue)[0].size
      ensures sendBacklogCount == old(sendBacklogCount) - 1
    {
      var sb := sendQueue[0];
      sendQueue := sendQueue[1..];
      sendBuffers := sendBuffers + [sb];
      sendBacklogBytes := sendBacklogBytes - sb.size;
      sendBacklogCount := sendBacklogCount - 1;
    }

    /** RegisterSend when WSASend fails: HandleError may disconnect, the batch is dropped. */
    method SendFailed(reset: bool)
      modifies `connected, `sendBuffers, `sendRegistered
      ensures View() == old(View()).(connected := old(connected) && !reset, batch := [], registered := false)
      ensures RecoveredTo(old(View()), reset, View())
    {
      if reset {
        connected := false;
      }
      sendBuffers := [];
      sendRegistered := false;
    }

    /** ProcessSend: release the batch, then free the flag or ask for another RegisterSend. */
    method ProcessSend(numOfBytes: nat) returns (registerSend: bool)
      modifies `connected, `sendBuffers, `sendRegistered
      ensures View() == old(View()).(batch := [], connected := old(connected) && numOfBytes != 0,
                                     registered := old(sendRegistered) && (numOfBytes == 0 || sendQueue != []))
      ensures registerSend <==> numOfBytes != 0 && sendQueue != []
      ensures SettledTo(old(View()), numOfBytes, View(), registerSend)
    {
      registerSend := false;
      sendBuffers := [];
      if numOfBytes == 0 {
        connected := false;
        return;
      }
      if sendQueue == [] {
        sendRegistered := false;
      } else {
        registerSend := true;
      }
    }
  }
}
