/** What each step of the chunk allocator brings about, said of the heap before and after alone. */
module SendBufferEffects {
  import opened SendBuffers
  import opened SendBufferRuns

  predicate AllInUse(h: Heap) {
    forall c: ChunkId :: c < |h.chunks| ==> Referenced(h, c)
  }

  /**
   Popping a chunk makes a new one exactly when every chunk there is is in use; otherwise it takes the one that was
   pooled last, and only that one.
   */
  lemma TakeRecycles(h: Heap, t: ThreadId)
    requires Sound(h) && Hand(t) !in h.slots
    ensures Step(h, Take(t)).Ok? && Hand(t) in Step(h, Take(t)).heap.slots
    ensures
      var h' := Step(h, Take(t)).heap;
      var c := h'.slots[Hand(t)];
      && h'.slots == h.slots[Hand(t) := c] && h'.live == h.live
      && (|h'.chunks| > |h.chunks| <==> AllInUse(h))
      && (AllInUse(h) ==> c == |h.chunks| && h'.chunks == h.chunks + [FreshChunk()] && h'.pool == h.pool == [])
      && (!AllInUse(h) ==> h.pool == h'.pool + [c] && h'.chunks == h.chunks)
  {
    if h.pool != [] {
      assert h.pool[|h.pool| - 1] in h.pool && !Referenced(h, h.pool[|h.pool| - 1]);
    } else {
      forall c: ChunkId | c < |h.chunks| ensures Referenced(h, c) {
        assert c !in h.pool;
      }
    }
  }

  /** The popped chunk becomes the thread's own, empty; the one it had goes to its deleter if no buffer needs it. */
  lemma InstallReplaces(h: Heap, t: ThreadId)
    requires Sound(h) && Hand(t) in h.slots
    ensures
      var h' := InstallChunk(h, t);
      var c := h.slots[Hand(t)];
      && Local(t) in h'.slots && h'.slots[Local(t)] == c && Hand(t) !in h'.slots
      && h'.chunks == h.chunks[c := h.chunks[c].(open := false, used := 0)] && h'.live == h.live && h'.pool == h.pool
      && (Local(t) in h.slots ==> (Returning(h.slots[Local(t)]) in h'.slots <==> !Owned(h, h.slots[Local(t)])))
  {
    if Local(t) in h.slots {
      var c := h.slots[Local(t)];
      var m := h.(slots := (h.slots - {Hand(t)})[Local(t) := h.slots[Hand(t)]],
                  chunks := h.chunks[h.slots[Hand(t)] := Reset(h.chunks[h.slots[Hand(t)]])]);
      assert Owned(m, c) <==> Owned(h, c);
      assert forall s <- m.slots :: m.slots[s] != c;
    }
  }

  /** Whoever else refers to buffer b's chunk: another live buffer, or some thread. */
  ghost predicate SharedChunk(h: Heap, b: BufferId)
    requires b in h.live
  {
    || (exists a <- h.live :: a != b && h.live[a].owner == h.live[b].owner)
    || (exists s <- h.slots :: h.slots[s] == h.live[b].owner)
  }

  /** Dropping a buffer sends its chunk to the deleter exactly when nobody else refers to it. */
  lemma DropReturnsIff(h: Heap, b: BufferId)
    requires Sound(h) && b in h.live
    ensures
      var h' := DropBuffer(h, b);
      && h'.live == h.live - {b} && h'.chunks == h.chunks && h'.pool == h.pool
      && (Returning(h.live[b].owner) in h'.slots <==> !SharedChunk(h, b))
  {
    var c, m := h.live[b].owner, h.(live := h.live - {b});
    assert Owned(h, c) && Returning(c) !in h.slots;
    if a :| a in h.live && a != b && h.live[a].owner == c {
      assert m.live[a].owner == c;
    }
    if a :| a in m.live && m.live[a].owner == c {
      assert a != b && h.live[a].owner == c;
    }
  }

  /** A thread's end sends its chunk to the deleter exactly when no buffer needs it. */
  lemma ExitReturnsIff(h: Heap, t: ThreadId)
    requires Sound(h) && Local(t) in h.slots
    ensures
      var h' := ExitThread(h, t);
      && Local(t) !in h'.slots && h'.live == h.live && h'.chunks == h.chunks && h'.pool == h.pool
      && (Returning(h.slots[Local(t)]) in h'.slots <==> !Owned(h, h.slots[Local(t)]))
  {
    var c, m := h.slots[Local(t)], h.(slots := h.slots - {Local(t)});
    assert Owned(m, c) <==> Owned(h, c);
    assert forall s <- m.slots :: m.slots[s] != c;
  }

  /** The deleter's push makes the chunk the next one to be popped. */
  lemma ReturnPools(h: Heap, c: ChunkId)
    requires Sound(h) && Returning(c) in h.slots
    ensures
      var h' := ReturnChunk(h, c);
      && h'.pool == h.pool + [c] && h'.slots == h.slots - {Returning(c)} && !Referenced(h', c)
      && h'.live == h.live && h'.chunks == h.chunks
  {
    ReturnKeepsSound(h, c);
    assert c in ReturnChunk(h, c).pool;
  }

  lemma ChunksGrowByTake(h: Heap, e: Event)
    requires Sound(h) && Allowed(h, e) && !Step(h, e).Crash?
    ensures |After(h, e).chunks| >= |h.chunks|
    ensures |After(h, e).chunks| > |h.chunks| ==> e.Take? && AllInUse(h) && AllInUse(After(h, e))
  {
    if e.Take? {
      TakeRecycles(h, e.t);
      if AllInUse(h) {
        TakeKeepsAllInUse(h, e.t);
      }
    }
  }

  lemma TakeKeepsAllInUse(h: Heap, t: ThreadId)
    requires Sound(h) && Hand(t) !in h.slots && AllInUse(h)
    ensures AllInUse(TakeChunk(h, t))
  {
    TakeRecycles(h, t);
    var h' := TakeChunk(h, t);
    forall c: ChunkId | c < |h'.chunks| ensures Referenced(h', c) {
      if c < |h.chunks| {
        assert Referenced(h, c);
        if s :| s in h.slots && h.slots[s] == c {
          assert h'.slots[s] == c;
        } else {
          assert Owned(h, c) && Owned(h', c);
        }
      } else {
        assert h'.slots[Hand(t)] == c;
      }
    }
  }

  /**
   Recycling over whole runs: there are never more chunks than were in use at once. If a run added any, at some
   moment in it there were as many as at its end and every one of them was referenced.
   */
  lemma {:induction false} ChunksArePeakUse(h: Heap, events: seq<Event>, h': Heap) returns (i: nat, peak: Heap)
    requires Sound(h) && Runs(h, events, h') && |h'.chunks| > |h.chunks|
    ensures i <= |events| && Runs(h, events[..i], peak) && |peak.chunks| == |h'.chunks| && AllInUse(peak)
    decreases |events|
  {
    var e, next := events[0], After(h, events[0]);
    ChunksGrowByTake(h, e);
    if Step(h, e).Ok? {
      StepKeepsSound(h, e);
    }
    if |h'.chunks| > |next.chunks| {
      var k;
      k, peak := ChunksArePeakUse(next, events[1..], h');
      i := k + 1;
      assert events[..i][1..] == events[1..][..k];
    } else {
      ChunksNeverShrink(next, events[1..], h');
      i, peak := 1, next;
      assert events[..1][1..] == [];
    }
  }

  lemma {:induction false} ChunksNeverShrink(h: Heap, events: seq<Event>, h': Heap)
    requires Sound(h) && Runs(h, events, h')
    ensures |h'.chunks| >= |h.chunks|
    decreases |events|
  {
    if events != [] {
      ChunksGrowByTake(h, events[0]);
      if Step(h, events[0]).Ok? {
        StepKeepsSound(h, events[0]);
      }
      ChunksNeverShrink(After(h, events[0]), events[1..], h');
    }
  }

  /** The thread's own chunk has room for size more bytes. */
  predicate HasRoom(h: Heap, t: ThreadId, size: nat)
    requires Sound(h)
  {
    Local(t) in h.slots && h.chunks[h.slots[Local(t)]].used + size <= CHUNK_SIZE
  }

  /**
   Where Open cuts: at the used end of the thread's own chunk while that has room, and only otherwise at the start
   of another, the last one pooled or, if none is, a new one.
   */
  lemma OpenCutsInPlace(h: Heap, t: ThreadId, size: nat, b: BufferId)
    requires Sound(h) && Hand(t) !in h.slots && b !in h.live && size <= CHUNK_SIZE && !HasOpenChunk(h, t)
    ensures ManagerOpen(h, t, size, b).Ok?
    ensures
      var h' := ManagerOpen(h, t, size, b).heap;
      if HasRoom(h, t, size) then
        var c := h.slots[Local(t)];
        && h' == h.(chunks := h.chunks[c := h.chunks[c].(open := true)],
                    live := h.live[b := Buffer(c, h.chunks[c].used, size, 0, false)])
      else
        var c := if h.pool != [] then h.pool[|h.pool| - 1] else |h.chunks|;
        && h'.live == h.live[b := Buffer(c, 0, size, 0, false)]
        && Local(t) in h'.slots && h'.slots[Local(t)] == c
        && |h'.chunks| == (if h.pool != [] then |h.chunks| else |h.chunks| + 1)
  {
    ManagerOpenServes(h, t, size, b);
    if !HasRoom(h, t, size) {
      RefilledWith(h, t);
      RefilledIsReady(h, t);
    }
  }

  lemma RefilledWith(h: Heap, t: ThreadId)
    requires Sound(h) && Hand(t) !in h.slots
    ensures
      var r := Refilled(h, t);
      && Local(t) in r.slots
      && r.slots[Local(t)] == (if h.pool != [] then h.pool[|h.pool| - 1] else |h.chunks|)
      && |r.chunks| == (if h.pool != [] then |h.chunks| else |h.chunks| + 1)
  {
    TakeKeepsSound(h, t);
    var taken := TakeChunk(h, t);
    InstallReplaces(taken, t);
    if Local(t) in h.slots {
      InstallKeepsSound(taken, t);
      PushedKeepsSound(InstallChunk(taken, t), h.slots[Local(t)]);
    }
  }

  /** Close is refused exactly for more than was reserved, or when the chunk is not marked open. */
  lemma CloseAdvances(h: Heap, b: BufferId, size: nat)
    requires Sound(h) && b in h.live
    ensures BufferSound(h, h.live[b])
    ensures
      var c := h.live[b].owner;
      var r := CloseBuffer(h, b, size);
      && (r.Ok? <==> size <= h.live[b].alloc && h.chunks[c].open)
      && (r.Ok? ==>
            && r.heap.chunks == h.chunks[c := h.chunks[c].(open := false, used := h.chunks[c].used + size)]
            && r.heap.live == h.live[b := h.live[b].(written := size, closed := true)]
            && r.heap.slots == h.slots && r.heap.pool == h.pool)
  {
    assert BufferSound(h, h.live[b]);
  }
}
