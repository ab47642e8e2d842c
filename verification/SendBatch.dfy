/** Backlog arithmetic and the greedy batch: which prefix of the send queue one WSASend carries. */
module SendBatch {

  const MAX_SEND_BATCH_BYTES := 32 * 1024
  const MAX_SEND_BATCH_COUNT := 64
  const MAX_BACKLOG_BYTES := 128 * 1024
  const MAX_BACKLOG_COUNT := 256
  const SOFT_BACKLOG_BYTES_WHEN_REGISTERED := 64 * 1024
  const SOFT_BACKLOG_COUNT_WHEN_REGISTERED := 128

  /** A SendBufferRef, as far as the session looks at it. */
  datatype SendBuffer = SendBuffer(id: nat, size: nat)

  function Bytes(q: seq<SendBuffer>): nat {
    if q == [] then 0 else Bytes(q[..|q| - 1]) + q[|q| - 1].size
  }

  lemma {:induction false} BytesOfConcat(p: seq<SendBuffer>, q: seq<SendBuffer>)
    ensures Bytes(p + q) == Bytes(p) + Bytes(q)
    decreases |q|
  {
    if q == [] {
      assert p + q == p;
    } else {
      assert (p + q)[..|p + q| - 1] == p + q[..|q| - 1];
      BytesOfConcat(p, q[..|q| - 1]);
    }
  }

  lemma BytesOfPush(q: seq<SendBuffer>, b: SendBuffer)
    ensures Bytes(q + [b]) == Bytes(q) + b.size
  {
    assert (q + [b])[..|q|] == q;
  }

  lemma BytesOfSplit(q: seq<SendBuffer>, k: nat)
    requires k <= |q|
    ensures Bytes(q) == Bytes(q[..k]) + Bytes(q[k..])
  {
    assert q == q[..k] + q[k..];
    BytesOfConcat(q[..k], q[k..]);
  }

  lemma BytesOfTake(q: seq<SendBuffer>, k: nat)
    requires k < |q|
    ensures Bytes(q[..k + 1]) == Bytes(q[..k]) + q[k].size
  {
    assert q[..k + 1] == q[..k] + [q[k]];
    BytesOfPush(q[..k], q[k]);
  }

  /** A prefix of length k respects the limits of one WSASend; a single buffer always does. */
  predicate WithinLimits(q: seq<SendBuffer>, k: nat) {
    k <= |q| && (k <= 1 || (Bytes(q[..k]) <= MAX_SEND_BATCH_BYTES && k <= MAX_SEND_BATCH_COUNT))
  }

  /** k buffers of q already gathered: does the loop take one more? */
  predicate TakesMore(q: seq<SendBuffer>, k: nat) {
    k < |q| && (k == 0 || (Bytes(q[..k]) + q[k].size <= MAX_SEND_BATCH_BYTES && k < MAX_SEND_BATCH_COUNT))
  }

  function BatchFrom(q: seq<SendBuffer>, k: nat): (r: nat)
    requires k <= |q|
    ensures k <= r <= |q|
    decreases |q| - k
  {
    if TakesMore(q, k) then BatchFrom(q, k + 1) else k
  }

  function BatchSize(q: seq<SendBuffer>): (k: nat)
    ensures k <= |q| && (q != [] ==> k >= 1)
  {
    BatchFrom(q, 0)
  }

  lemma {:induction false} LimitsAreDownwardClosed(q: seq<SendBuffer>, j: nat, k: nat)
    requires j <= k && WithinLimits(q, k)
    ensures WithinLimits(q, j)
    decreases k - j
  {
    if j < k {
      BytesOfTake(q, k - 1);
      LimitsAreDownwardClosed(q, j, k - 1);
    }
  }

  lemma {:induction false} BatchFromIsLargest(q: seq<SendBuffer>, k: nat, j: nat)
    requires WithinLimits(q, k)
    ensures WithinLimits(q, BatchFrom(q, k))
    ensures WithinLimits(q, j) ==> j <= BatchFrom(q, k)
    decreases |q| - k
  {
    if k < |q| {
      BytesOfTake(q, k);
    }
    if TakesMore(q, k) {
      BatchFromIsLargest(q, k + 1, j);
    } else if WithinLimits(q, j) && k < j {
      LimitsAreDownwardClosed(q, k + 1, j);
    }
  }

  /** The batch is the longest prefix within the limits, and every shorter prefix is within them too. */
  lemma BatchIsLargestPrefix(q: seq<SendBuffer>, j: nat)
    ensures WithinLimits(q, j) <==> j <= BatchSize(q)
  {
    BatchFromIsLargest(q, 0, j);
    if j <= BatchSize(q) {
      LimitsAreDownwardClosed(q, j, BatchSize(q));
    }
  }

  function Concat(batches: seq<seq<SendBuffer>>): seq<SendBuffer> {
    if batches == [] then [] else Concat(batches[..|batches| - 1]) + batches[|batches| - 1]
  }

  lemma ConcatOfPush(batches: seq<seq<SendBuffer>>, b: seq<SendBuffer>)
    ensures Concat(batches + [b]) == Concat(batches) + b
  {
    assert (batches + [b])[..|batches|] == batches;
  }

  /** The session's send side: `_connected`, `_sendQueue`, the ledger, `_sendRegistered`, `_sendEvent.sendBuffers`. */
  datatype Pipe = Pipe(connected: bool, queue: seq<SendBuffer>, backlogBytes: int, backlogCount: int,
                       registered: bool, batch: seq<SendBuffer>)

  const IDLE := Pipe(false, [], 0, 0, false, [])

  predicate LedgerExact(p: Pipe) {
    && p.backlogBytes == Bytes(p.queue) <= MAX_BACKLOG_BYTES
    && p.backlogCount == |p.queue| <= MAX_BACKLOG_COUNT
  }

  /** Session::Send under the lock: hard cap always, soft cap while a WSASend is registered. */
  predicate Accepts(p: Pipe, b: SendBuffer) {
    && p.backlogBytes + b.size <= MAX_BACKLOG_BYTES
    && p.backlogCount + 1 <= MAX_BACKLOG_COUNT
    && (p.registered ==>
          && p.backlogBytes < SOFT_BACKLOG_BYTES_WHEN_REGISTERED
          && p.backlogCount < SOFT_BACKLOG_COUNT_WHEN_REGISTERED)
  }

  function Enqueue(p: Pipe, b: SendBuffer): Pipe {
    if Accepts(p, b) then
      p.(queue := p.queue + [b], backlogBytes := p.backlogBytes + b.size, backlogCount := p.backlogCount + 1,
         registered := true)
    else p
  }

  /** RegisterSend under the lock. */
  function Gather(p: Pipe): Pipe {
    var k := BatchSize(p.queue);
    p.(queue := p.queue[k..], batch := p.batch + p.queue[..k],
       backlogBytes := p.backlogBytes - Bytes(p.queue[..k]), backlogCount := p.backlogCount - k)
  }

  lemma EnqueueKeepsLedger(p: Pipe, b: SendBuffer)
    requires LedgerExact(p)
    ensures LedgerExact(Enqueue(p, b))
  {
    BytesOfPush(p.queue, b);
  }

  lemma GatherKeepsLedger(p: Pipe)
    requires LedgerExact(p)
    ensures LedgerExact(Gather(p))
  {
    BytesOfSplit(p.queue, BatchSize(p.queue));
  }
}
