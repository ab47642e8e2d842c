/** What every interleaving of the threads' steps keeps: no live buffer ever shares a byte with another. */
module SendBufferRuns {
  import opened SendBuffers

  /**
   When a thread takes the step. A buffer is written only between its Open and its Close, inside what it
   reserved, and is closed once; CloseKeepsSoundIff below says when a second Close would do.
   */
  predicate Allowed(h: Heap, e: Event) {
    match e
    case Take(t) => Hand(t) !in h.slots
    case Install(t) => Hand(t) in h.slots
    case Cut(t, size, b) => Local(t) in h.slots && b !in h.live
    case Write(b, at, data) => b in h.live && !h.live[b].closed && at + |data| <= h.live[b].alloc
    case Close(b, size) => b in h.live && !h.live[b].closed
    case Drop(b) => b in h.live
    case Exit(t) => Local(t) in h.slots
    case Return(c) => Returning(c) in h.slots
  }

  function Step(h: Heap, e: Event): Outcome
    requires Sound(h) && Allowed(h, e)
  {
    match e
    case Take(t) => Ok(TakeChunk(h, t))
    case Install(t) => Ok(InstallChunk(h, t))
    case Cut(t, size, b) => CutBuffer(h, t, size, b)
    case Write(b, at, data) =>
      assert BufferSound(h, h.live[b]);
      Ok(WriteBytes(h, b, at, data))
    case Close(b, size) =>
      assert BufferSound(h, h.live[b]);
      CloseBuffer(h, b, size)
    case Drop(b) => Ok(DropBuffer(h, b))
    case Exit(t) => Ok(ExitThread(h, t))
    case Return(c) => Ok(ReturnChunk(h, c))
  }

  /** Live buffers stay sound when every chunk they lie in keeps its used size and open flag. */
  lemma BuffersFramed(h: Heap, h': Heap)
    requires BuffersSound(h) && h'.live == h.live && |h.chunks| <= |h'.chunks|
    requires forall c :: 0 <= c < |h.chunks| && Owned(h, c) ==>
               h'.chunks[c].used == h.chunks[c].used && h'.chunks[c].open == h.chunks[c].open
    ensures BuffersSound(h')
  {
    forall b | b in h'.live ensures BufferSound(h', h'.live[b]) {
      assert BufferSound(h, h.live[b]) && Owned(h, h.live[b].owner);
    }
  }

  lemma TakeKeepsSound(h: Heap, t: ThreadId)
    requires Sound(h) && Hand(t) !in h.slots
    ensures Sound(TakeChunk(h, t))
  {
    var h' := TakeChunk(h, t);
    var c := h'.slots[Hand(t)];
    assert !Referenced(h, c) by {
      if h.pool != [] {
        assert c in h.pool;
      } else {
        forall b | b in h.live ensures h.live[b].owner != c { assert BufferSound(h, h.live[b]); }
      }
    }
    forall d ensures Owned(h', d) == Owned(h, d) {}
    assert forall s <- h.slots :: h'.slots[s] == h.slots[s];
    forall d ensures Referenced(h', d) <==> Referenced(h, d) || d == c {
      if s :| s in h.slots && h.slots[s] == d { assert h'.slots[s] == d; }
    }
    assert Accounted(h') by {
      assert forall d <- h'.pool :: d in h.pool;
      forall d: ChunkId | d < |h'.chunks| ensures d in h'.pool <==> !Referenced(h', d) {
        if d < |h.chunks| { assert d in h.pool <==> !Referenced(h, d); }
      }
    }
    BuffersFramed(h, h');
  }

  /** Accounted for every chunk but c, which has just lost a reference. */
  predicate AccountedBut(h: Heap, c: ChunkId) {
    && NoRepeats(h.pool) && c < |h.chunks| && c !in h.pool
    && (forall d <- h.pool :: d < |h.chunks|)
    && (forall d: ChunkId :: d < |h.chunks| && d != c ==> (d in h.pool <==> !Referenced(h, d)))
  }

  lemma ReleaseAccounts(h: Heap, c: ChunkId)
    requires AccountedBut(h, c) && ChunksSound(h) && Exclusive(h) && BuffersSound(h)
    ensures Sound(Released(h, c))
  {
    var h' := Released(h, c);
    forall d ensures Owned(h', d) == Owned(h, d) {}
    if !Referenced(h, c) {
      assert Returning(c) !in h.slots;
      assert forall s <- h.slots :: h'.slots[s] == h.slots[s];
      forall d ensures Referenced(h', d) <==> Referenced(h, d) || d == c {
        if s :| s in h.slots && h.slots[s] == d { assert h'.slots[s] == d; }
        if d == c { assert h'.slots[Returning(c)] == d; }
      }
    }
    BuffersFramed(h, h');
  }

  /** The push that ends a chunk's return: from now on any thread may pop it. */
  lemma ReturnKeepsSound(h: Heap, c: ChunkId)
    requires Sound(h) && Returning(c) in h.slots
    ensures Sound(ReturnChunk(h, c))
  {
    var h' := ReturnChunk(h, c);
    assert Referenced(h, c);
    forall d ensures Owned(h', d) == Owned(h, d) {}
    forall d ensures Referenced(h', d) <==> Referenced(h, d) && d != c {
      if s :| s in h.slots && h.slots[s] == d { assert d != c ==> h'.slots[s] == d; }
    }
    forall d: ChunkId | d < |h'.chunks| ensures d in h'.pool <==> !Referenced(h', d) {
      assert d in h'.pool <==> d in h.pool || d == c;
    }
    BuffersFramed(h, h');
  }

  lemma InstallKeepsSound(h: Heap, t: ThreadId)
    requires Sound(h) && Hand(t) in h.slots
    ensures Sound(InstallChunk(h, t))
  {
    var c := h.slots[Hand(t)];
    var m := h.(slots := (h.slots - {Hand(t)})[Local(t) := c], chunks := h.chunks[c := Reset(h.chunks[c])]);
    forall d ensures Owned(m, d) == Owned(h, d) {}
    BuffersFramed(h, m);
    assert Exclusive(m) by {
      forall s, r | s in m.slots && r in m.slots && s != r ensures m.slots[s] != m.slots[r] {
        var s0 := if s == Local(t) then Hand(t) else s;
        var r0 := if r == Local(t) then Hand(t) else r;
        assert h.slots[s0] == m.slots[s] && h.slots[r0] == m.slots[r];
      }
    }
    InstallReferences(h, t, m);
    if Local(t) in h.slots {
      assert Referenced(h, h.slots[Local(t)]);
      ReleaseAccounts(m, h.slots[Local(t)]);
    }
  }

  lemma InstallReferences(h: Heap, t: ThreadId, m: Heap)
    requires Sound(h) && Hand(t) in h.slots && m.live == h.live
    requires m.slots == (h.slots - {Hand(t)})[Local(t) := h.slots[Hand(t)]]
    ensures forall d :: Referenced(m, d) ==> Referenced(h, d)
    ensures forall d :: Referenced(h, d) && (Local(t) in h.slots ==> d != h.slots[Local(t)]) ==> Referenced(m, d)
  {
    var c := h.slots[Hand(t)];
    forall d ensures Owned(m, d) == Owned(h, d) {}
    forall d | Referenced(m, d) ensures Referenced(h, d) {
      if s :| s in m.slots && m.slots[s] == d {
        assert h.slots[if s == Local(t) then Hand(t) else s] == d;
      }
    }
    forall d | Referenced(h, d) && (Local(t) in h.slots ==> d != h.slots[Local(t)]) ensures Referenced(m, d) {
      if s :| s in h.slots && h.slots[s] == d {
        assert m.slots[if s == Hand(t) then Local(t) else s] == d;
      }
    }
  }

  lemma CutKeepsSound(h: Heap, t: ThreadId, size: nat, b: BufferId)
    requires Sound(h) && Local(t) in h.slots && b !in h.live && CutBuffer(h, t, size, b).Ok?
    ensures Sound(CutBuffer(h, t, size, b).heap)
  {
    var h' := CutBuffer(h, t, size, b).heap;
    var c := h.slots[Local(t)];
    forall d ensures Owned(h', d) <==> Owned(h, d) || d == c {
      if a :| a in h.live && h.live[a].owner == d { assert h'.live[a].owner == d; }
      if d == c { assert h'.live[b].owner == d; }
    }
    assert Accounted(h') by {
      assert Referenced(h, c);
      forall d ensures Referenced(h', d) == Referenced(h, d) {}
    }
    forall a | a in h'.live ensures BufferSound(h', h'.live[a]) && (a != b ==> Apart(h'.live[a], h'.live[b])) {
      if a != b { assert BufferSound(h, h.live[a]); }
    }
  }

  lemma WriteKeepsSound(h: Heap, b: BufferId, at: nat, data: seq<Byte>)
    requires Sound(h) && Allowed(h, Write(b, at, data))
    ensures Step(h, Write(b, at, data)).Ok? && Sound(Step(h, Write(b, at, data)).heap)
  {
    assert BufferSound(h, h.live[b]);
    var h' := WriteBytes(h, b, at, data);
    forall d ensures Owned(h', d) == Owned(h, d) {}
    forall d ensures Referenced(h', d) == Referenced(h, d) {}
    BuffersFramed(h, h');
  }

  lemma CloseKeepsSound(h: Heap, b: BufferId, size: nat)
    requires Sound(h) && b in h.live && !h.live[b].closed && Step(h, Close(b, size)).Ok?
    ensures Sound(Step(h, Close(b, size)).heap)
  {
    assert BufferSound(h, h.live[b]);
    var h' := CloseBuffer(h, b, size).heap;
    forall d ensures Owned(h', d) <==> Owned(h, d) {
      if a :| a in h.live && h.live[a].owner == d { assert h'.live[a].owner == d; }
      if a :| a in h'.live && h'.live[a].owner == d { assert h.live[a].owner == d; }
    }
    forall d ensures Referenced(h', d) == Referenced(h, d) {}
    forall a | a in h'.live ensures BufferSound(h', h'.live[a]) {
      assert BufferSound(h, h.live[a]);
      if a != b { assert Apart(h.live[a], h.live[b]); }
    }
    forall a | a in h'.live && a != b ensures Apart(h'.live[a], h'.live[b]) && Apart(h'.live[b], h'.live[a]) {
      assert Apart(h.live[a], h.live[b]) && BufferSound(h, h.live[a]);
    }
    assert BuffersSound(h');
  }

  lemma DropKeepsSound(h: Heap, b: BufferId)
    requires Sound(h) && b in h.live
    ensures Sound(DropBuffer(h, b))
  {
    assert BufferSound(h, h.live[b]);
    var c, m := h.live[b].owner, h.(live := h.live - {b});
    assert Owned(h, c);
    forall d ensures (Owned(m, d) ==> Owned(h, d)) && (Owned(h, d) && d != c ==> Owned(m, d)) {
      if a :| a in h.live && h.live[a].owner == d { assert d != c ==> m.live[a].owner == d; }
      if a :| a in m.live && m.live[a].owner == d { assert h.live[a].owner == d; }
    }
    forall d ensures d != c ==> Referenced(m, d) == Referenced(h, d) {}
    forall a | a in m.live ensures BufferSound(m, m.live[a]) { assert BufferSound(h, h.live[a]); }
    ReleaseAccounts(m, c);
  }

  lemma ExitKeepsSound(h: Heap, t: ThreadId)
    requires Sound(h) && Local(t) in h.slots
    ensures Sound(ExitThread(h, t))
  {
    var c, m := h.slots[Local(t)], h.(slots := h.slots - {Local(t)});
    assert Referenced(h, c);
    forall d ensures Owned(m, d) == Owned(h, d) {}
    forall d ensures d != c ==> Referenced(m, d) == Referenced(h, d) {
      if s :| s in h.slots && h.slots[s] == d { assert d != c ==> m.slots[s] == d; }
    }
    BuffersFramed(h, m);
    ReleaseAccounts(m, c);
  }

  /** No step of any thread breaks the heap, whatever the others did before. */
  lemma StepKeepsSound(h: Heap, e: Event)
    requires Sound(h) && Allowed(h, e) && Step(h, e).Ok?
    ensures Sound(Step(h, e).heap)
  {
    match e
    case Take(t) => TakeKeepsSound(h, t);
    case Install(t) => InstallKeepsSound(h, t);
    case Cut(t, size, b) => CutKeepsSound(h, t, size, b);
    case Write(b, at, data) => WriteKeepsSound(h, b, at, data);
    case Close(b, size) => CloseKeepsSound(h, b, size);
    case Drop(b) => DropKeepsSound(h, b);
    case Exit(t) => ExitKeepsSound(h, t);
    case Return(c) => ReturnKeepsSound(h, c);
  }

  /** The heap after a step that does not crash; a null reference changes nothing. */
  function After(h: Heap, e: Event): Heap
    requires Sound(h) && Allowed(h, e) && !Step(h, e).Crash?
  {
    var r := Step(h, e);
    if r.NoRoom? then h else r.heap
  }

  /** events takes h to h', interleaving any number of threads. */
  ghost predicate Runs(h: Heap, events: seq<Event>, h': Heap)
    decreases |events|
  {
    if events == [] then h' == h
    else
      && Sound(h) && Allowed(h, events[0]) && !Step(h, events[0]).Crash?
      && Runs(After(h, events[0]), events[1..], h')
  }

  lemma {:induction false} RunsStaySound(h: Heap, events: seq<Event>, h': Heap)
    requires Sound(h) && Runs(h, events, h')
    ensures Sound(h')
    decreases |events|
  {
    if events != [] {
      if Step(h, events[0]).Ok? {
        StepKeepsSound(h, events[0]);
      }
      RunsStaySound(After(h, events[0]), events[1..], h');
    }
  }

  /** Runs asks for a sound heap only to make Step defined: it never keeps a thread from its next step. */
  lemma {:induction false} RunsGoOn(h: Heap, events: seq<Event>, h': Heap, e: Event)
    requires Sound(h) && Runs(h, events, h') && Allowed(h', e)
    ensures Sound(h') && (!Step(h', e).Crash? ==> Runs(h, events + [e], After(h', e)))
    decreases |events|
  {
    RunsStaySound(h, events, h');
    if events == [] {
      assert ([] + [e])[1..] == [] && ([] + [e])[0] == e;
    } else {
      if Step(h, events[0]).Ok? {
        StepKeepsSound(h, events[0]);
      }
      RunsGoOn(After(h, events[0]), events[1..], h', e);
      assert (events + [e])[1..] == events[1..] + [e];
    }
  }

  /** Byte i of chunk c belongs to the buffer. */
  predicate Holds(b: Buffer, c: ChunkId, i: nat) {
    b.owner == c && b.offset <= i < End(b)
  }

  /** In every reachable heap no byte belongs to two live buffers, and none lies outside its chunk. */
  lemma NoSharedByte(events: seq<Event>, h: Heap, a: BufferId, b: BufferId, c: ChunkId, i: nat)
    requires Runs(EMPTY, events, h) && a in h.live && b in h.live
    requires Holds(h.live[a], c, i) && Holds(h.live[b], c, i)
    ensures a == b && i < CHUNK_SIZE
  {
    RunsStaySound(EMPTY, events, h);
    assert BufferSound(h, h.live[a]);
    assert a != b ==> Apart(h.live[a], h.live[b]);
  }

  /** In every reachable heap each chunk is in the pool exactly once, or else somebody refers to it. */
  lemma NoChunkLostOrPooledTwice(events: seq<Event>, h: Heap, c: ChunkId)
    requires Runs(EMPTY, events, h) && c < |h.chunks|
    ensures multiset(h.pool)[c] == if Referenced(h, c) then 0 else 1
  {
    RunsStaySound(EMPTY, events, h);
    if !Referenced(h, c) {
      var i :| 0 <= i < |h.pool| && h.pool[i] == c;
      assert h.pool == h.pool[..i] + [c] + h.pool[i + 1..];
      assert c !in h.pool[..i] && c !in h.pool[i + 1..];
    }
  }

  /** The chunk a thread is about to reset holds no live buffer. */
  lemma ResetHitsNoLiveBuffer(events: seq<Event>, h: Heap, t: ThreadId, b: BufferId)
    requires Runs(EMPTY, events, h) && Hand(t) in h.slots && b in h.live
    ensures h.live[b].owner != h.slots[Hand(t)]
  {
    RunsStaySound(EMPTY, events, h);
    assert !Owned(h, h.slots[Hand(t)]);
  }

  /** Only a write changes bytes; recycling a chunk does not even clear them. */
  lemma BytesChangeOnlyByWrite(h: Heap, e: Event, c: ChunkId)
    requires Sound(h) && Allowed(h, e) && !Step(h, e).Crash? && !e.Write? && c < |h.chunks|
    ensures c < |After(h, e).chunks| && After(h, e).chunks[c].bytes == h.chunks[c].bytes
  {
  }

  lemma ClosedBuffersStay(h: Heap, e: Event, b: BufferId)
    requires Sound(h) && Allowed(h, e) && !Step(h, e).Crash?
    requires b in h.live && h.live[b].closed && e != Drop(b)
    ensures b in After(h, e).live && After(h, e).live[b] == h.live[b]
  {
  }

  lemma StepKeepsContents(h: Heap, e: Event, b: BufferId)
    requires Sound(h) && Allowed(h, e) && !Step(h, e).Crash? && Sound(After(h, e))
    requires b in h.live && h.live[b].closed && e != Drop(b)
    ensures BufferSound(h, h.live[b])
    ensures b in After(h, e).live && After(h, e).live[b] == h.live[b]
    ensures Contents(After(h, e), b) == Contents(h, b)
  {
    assert BufferSound(h, h.live[b]);
    ClosedBuffersStay(h, e, b);
    if e.Write? {
      WriteElsewhere(h, e.b, e.at, e.data, b);
    } else {
      BytesChangeOnlyByWrite(h, e, h.live[b].owner);
    }
  }

  lemma WriteElsewhere(h: Heap, w: BufferId, at: nat, data: seq<Byte>, b: BufferId)
    requires Sound(h) && Allowed(h, Write(w, at, data)) && b in h.live && h.live[b].closed
    ensures BufferSound(h, h.live[w]) && BufferSound(h, h.live[b])
    ensures Contents(WriteBytes(h, w, at, data), b) == Contents(h, b)
  {
    assert BufferSound(h, h.live[w]) && BufferSound(h, h.live[b]);
    assert Apart(h.live[w], h.live[b]);
  }

  /** Once closed, a buffer's bytes stay as written until its last reference goes, whatever the threads do. */
  lemma {:induction false} ClosedContentsAreStable(h: Heap, events: seq<Event>, h': Heap, b: BufferId)
    requires Sound(h) && Runs(h, events, h') && b in h.live && h.live[b].closed
    requires Drop(b) !in events
    ensures Sound(h') && BufferSound(h, h.live[b])
    ensures b in h'.live && h'.live[b] == h.live[b] && Contents(h', b) == Contents(h, b)
    decreases |events|
  {
    assert BufferSound(h, h.live[b]);
    if events != [] {
      var next := After(h, events[0]);
      if Step(h, events[0]).Ok? {
        StepKeepsSound(h, events[0]);
      }
      StepKeepsContents(h, events[0], b);
      ClosedContentsAreStable(next, events[1..], h', b);
    }
  }

  /** The deleter's push, if the chunk has gone to its deleter. */
  function Pushed(h: Heap, c: ChunkId): Heap {
    if Returning(c) in h.slots then ReturnChunk(h, c) else h
  }

  lemma PushedKeepsSound(h: Heap, c: ChunkId)
    requires Sound(h)
    ensures Sound(Pushed(h, c)) && Pushed(h, c).live == h.live && Pushed(h, c).chunks == h.chunks
    ensures forall s: Slot :: !s.Returning? ==> (s in Pushed(h, c).slots <==> s in h.slots)
    ensures forall s <- Pushed(h, c).slots :: s in h.slots && Pushed(h, c).slots[s] == h.slots[s]
  {
    if Returning(c) in h.slots {
      ReturnKeepsSound(h, c);
    }
  }

  /** Pop a chunk and make it the thread's current one; the one it had may go back to the pool. */
  function Refilled(h: Heap, t: ThreadId): Heap
    requires Sound(h) && Hand(t) !in h.slots
  {
    TakeKeepsSound(h, t);
    var installed := InstallChunk(TakeChunk(h, t), t);
    if Local(t) in h.slots then Pushed(installed, h.slots[Local(t)]) else installed
  }

  lemma InstalledIsEmpty(h: Heap, t: ThreadId)
    requires Sound(h) && Hand(t) in h.slots
    ensures var r := InstallChunk(h, t);
            && Sound(r) && Hand(t) !in r.slots && Local(t) in r.slots && r.live == h.live
            && !r.chunks[r.slots[Local(t)]].open && r.chunks[r.slots[Local(t)]].used == 0
  {
    InstallKeepsSound(h, t);
  }

  lemma RefilledIsReady(h: Heap, t: ThreadId)
    requires Sound(h) && Hand(t) !in h.slots
    ensures var r := Refilled(h, t);
            && Sound(r) && Hand(t) !in r.slots && Local(t) in r.slots && r.live == h.live
            && !r.chunks[r.slots[Local(t)]].open && r.chunks[r.slots[Local(t)]].used == 0
  {
    TakeKeepsSound(h, t);
    InstalledIsEmpty(TakeChunk(h, t), t);
    if Local(t) in h.slots {
      PushedKeepsSound(InstallChunk(TakeChunk(h, t), t), h.slots[Local(t)]);
    }
  }

  /** The thread's chunk, popped if it has none yet. */
  function Started(h: Heap, t: ThreadId): Heap
    requires Sound(h) && Hand(t) !in h.slots
  {
    if Local(t) in h.slots then h else Refilled(h, t)
  }

  /** A new chunk if the current one has no room left. */
  function Roomy(h: Heap, t: ThreadId, size: nat): Heap
    requires MayCut(h, t)
  {
    if CHUNK_SIZE - h.chunks[h.slots[Local(t)]].used < size then Refilled(h, t) else h
  }

  /** Between calls of Open: nothing popped and not stored, and a current chunk. */
  predicate MayCut(h: Heap, t: ThreadId) {
    Sound(h) && Hand(t) !in h.slots && Local(t) in h.slots
  }

  lemma StartedMayCut(h: Heap, t: ThreadId)
    requires Sound(h) && Hand(t) !in h.slots
    ensures MayCut(Started(h, t), t) && Started(h, t).live == h.live
    ensures HasOpenChunk(Started(h, t), t) <==> HasOpenChunk(h, t)
  {
    RefilledIsReady(h, t);
  }

  lemma RoomyMayCut(h: Heap, t: ThreadId, size: nat)
    requires MayCut(h, t) && !HasOpenChunk(h, t)
    ensures var r := Roomy(h, t, size);
            && MayCut(r, t) && r.live == h.live && !HasOpenChunk(r, t)
            && (size <= CHUNK_SIZE ==> r.chunks[r.slots[Local(t)]].used + size <= CHUNK_SIZE)
  {
    RefilledIsReady(h, t);
  }

  /** SendBufferManager::Open, as the steps one thread takes with nobody in between. */
  function ManagerOpen(h: Heap, t: ThreadId, size: nat, b: BufferId): Outcome
    requires Sound(h) && Hand(t) !in h.slots && b !in h.live
  {
    StartedMayCut(h, t);
    if HasOpenChunk(Started(h, t), t) then Crash
    else
      RoomyMayCut(Started(h, t), t, size);
      CutBuffer(Roomy(Started(h, t), t, size), t, size, b)
  }

  /** The last reference to a buffer goes, and its chunk to the pool if that was its last one too. */
  function Dropped(h: Heap, b: BufferId): Heap
    requires Sound(h) && b in h.live
  {
    Pushed(DropBuffer(h, b), h.live[b].owner)
  }

  lemma DroppedKeepsSound(h: Heap, b: BufferId)
    requires Sound(h) && b in h.live
    ensures Sound(Dropped(h, b)) && Dropped(h, b).live == h.live - {b}
  {
    DropKeepsSound(h, b);
    PushedKeepsSound(DropBuffer(h, b), h.live[b].owner);
  }

  predicate HasOpenChunk(h: Heap, t: ThreadId)
    requires Sound(h)
  {
    Local(t) in h.slots && h.chunks[h.slots[Local(t)]].open
  }

  lemma CutServes(h: Heap, t: ThreadId, size: nat, b: BufferId)
    requires Sound(h) && Local(t) in h.slots && b !in h.live
    requires !h.chunks[h.slots[Local(t)]].open && h.chunks[h.slots[Local(t)]].used + size <= CHUNK_SIZE
    ensures var r := CutBuffer(h, t, size, b);
            r.Ok? && Sound(r.heap) && r.heap.slots == h.slots
            && r.heap.live == h.live[b := Buffer(h.slots[Local(t)], h.chunks[h.slots[Local(t)]].used, size, 0, false)]
  {
    CutKeepsSound(h, t, size, b);
  }

  /** A request up to the chunk size always gets its room, never null, unless the thread's chunk is marked open. */
  lemma ManagerOpenServes(h: Heap, t: ThreadId, size: nat, b: BufferId)
    requires Sound(h) && Hand(t) !in h.slots && b !in h.live
    ensures var r := ManagerOpen(h, t, size, b);
            && !r.NoRoom?
            && (r.Ok? <==> size <= CHUNK_SIZE && !HasOpenChunk(h, t))
            && (r.Ok? ==>
                  && Sound(r.heap) && Hand(t) !in r.heap.slots && Local(t) in r.heap.slots
                  && exists offset ::
                       r.heap.live == h.live[b := Buffer(r.heap.slots[Local(t)], offset, size, 0, false)])
  {
    StartedMayCut(h, t);
    if !HasOpenChunk(h, t) {
      RoomyMayCut(Started(h, t), t, size);
      if size <= CHUNK_SIZE {
        CutServes(Roomy(Started(h, t), t, size), t, size, b);
      }
    }
  }

  /** The bytes [offset, offset + size) of b's chunk meet no other live buffer's. */
  predicate RoomFor(h: Heap, b: BufferId, size: nat)
    requires b in h.live
  {
    forall a <- h.live :: a != b && h.live[a].owner == h.live[b].owner ==>
      End(h.live[a]) <= h.live[b].offset || h.live[b].offset + size <= h.live[a].offset
  }

  predicate NobodyOpen(h: Heap, c: ChunkId) {
    forall a <- h.live :: h.live[a].owner == c ==> h.live[a].closed
  }

  /** What another Close of a closed buffer needs: nobody cutting, the bytes to itself, and no overrun. */
  predicate MayCloseAgain(h: Heap, b: BufferId, size: nat)
    requires b in h.live && h.live[b].owner < |h.chunks|
  {
    && NobodyOpen(h, h.live[b].owner)
    && RoomFor(h, b, size)
    && h.chunks[h.live[b].owner].used + size <= CHUNK_SIZE
  }

  /** A Close that passes the program's own checks keeps the heap sound exactly in these two cases. */
  lemma CloseKeepsSoundIff(h: Heap, b: BufferId, size: nat)
    requires Sound(h) && b in h.live
    ensures BufferSound(h, h.live[b])
    ensures CloseBuffer(h, b, size).Ok? ==>
              (Sound(CloseBuffer(h, b, size).heap) <==> !h.live[b].closed || MayCloseAgain(h, b, size))
  {
    assert BufferSound(h, h.live[b]);
    if CloseBuffer(h, b, size).Ok? {
      if !h.live[b].closed {
        CloseKeepsSound(h, b, size);
      } else if MayCloseAgain(h, b, size) {
        CloseAgainKeepsSound(h, b, size);
      } else {
        CloseAgainBreaks(h, b, size);
      }
    }
  }

  lemma CloseAgainKeepsSound(h: Heap, b: BufferId, size: nat)
    requires Sound(h) && b in h.live && h.live[b].closed && h.live[b].owner < |h.chunks|
    requires CloseBuffer(h, b, size).Ok? && MayCloseAgain(h, b, size)
    ensures Sound(CloseBuffer(h, b, size).heap)
  {
    assert BufferSound(h, h.live[b]);
    var h' := CloseBuffer(h, b, size).heap;
    forall d ensures Owned(h', d) <==> Owned(h, d) {
      if a :| a in h.live && h.live[a].owner == d { assert h'.live[a].owner == d; }
      if a :| a in h'.live && h'.live[a].owner == d { assert h.live[a].owner == d; }
    }
    forall d ensures Referenced(h', d) == Referenced(h, d) {}
    forall a | a in h'.live ensures BufferSound(h', h'.live[a]) {
      assert BufferSound(h, h.live[a]);
    }
    forall a | a in h'.live && a != b ensures Apart(h'.live[a], h'.live[b]) && Apart(h'.live[b], h'.live[a]) {
      assert Apart(h.live[a], h.live[b]);
    }
    assert BuffersSound(h');
  }

  lemma CloseAgainBreaks(h: Heap, b: BufferId, size: nat)
    requires Sound(h) && b in h.live && h.live[b].closed && h.live[b].owner < |h.chunks|
    requires CloseBuffer(h, b, size).Ok? && !MayCloseAgain(h, b, size)
    ensures !Sound(CloseBuffer(h, b, size).heap)
  {
    var h', c := CloseBuffer(h, b, size).heap, h.live[b].owner;
    if a :| a in h.live && h.live[a].owner == c && !h.live[a].closed {
      assert h'.live[a] == h.live[a] && !BufferSound(h', h'.live[a]);
    } else if a :| a in h.live && a != b && h.live[a].owner == c &&
                   End(h.live[a]) > h.live[b].offset && h.live[b].offset + size > h.live[a].offset {
      assert h'.live[a] == h.live[a] && !Apart(h'.live[b], h'.live[a]);
    } else {
      assert h'.chunks[c].used > CHUNK_SIZE;
    }
  }

  /** Two live buffers hold a byte in common. */
  ghost predicate SharesByte(h: Heap) {
    exists a, b, c, i :: a in h.live && b in h.live && a != b && Holds(h.live[a], c, i) && Holds(h.live[b], c, i)
  }

  /** Some other live buffer of b's chunk has a byte in [offset, offset + size). */
  predicate TakesBytes(h: Heap, b: BufferId, size: nat)
    requires b in h.live
  {
    exists a <- h.live :: a != b && Meets(h.live[a], h.live[b].owner, h.live[b].offset, size)
  }

  predicate Meets(a: Buffer, c: ChunkId, offset: nat, size: nat) {
    a.owner == c && a.offset < End(a) && size > 0 && a.offset < offset + size && offset < End(a)
  }

  /** A Close that passes the program's own checks makes two buffers share a byte exactly when it claims one. */
  lemma CloseSharesIff(h: Heap, b: BufferId, size: nat)
    requires Sound(h) && b in h.live
    ensures BufferSound(h, h.live[b])
    ensures CloseBuffer(h, b, size).Ok? ==> (SharesByte(CloseBuffer(h, b, size).heap) <==> TakesBytes(h, b, size))
  {
    assert BufferSound(h, h.live[b]);
    if CloseBuffer(h, b, size).Ok? {
      var h', offset := CloseBuffer(h, b, size).heap, h.live[b].offset;
      if a :| a in h.live && a != b && Meets(h.live[a], h.live[b].owner, offset, size) {
        var i := if h.live[a].offset < offset then offset else h.live[a].offset;
        assert h'.live[a] == h.live[a];
        assert Holds(h'.live[a], h.live[b].owner, i) && Holds(h'.live[b], h.live[b].owner, i);
      }
      if x, y, c, i :| x in h'.live && y in h'.live && x != y && Holds(h'.live[x], c, i) && Holds(h'.live[y], c, i) {
        assert x != b && y != b ==> Apart(h.live[x], h.live[y]);
        assert Meets(h.live[if x == b then y else x], h.live[b].owner, offset, size);
      }
    }
  }

  /** A second Close with a larger size, while the next buffer is open, puts that buffer's first byte in both. */
  lemma CloseTwiceShares(h: Heap, b: BufferId, size: nat, next: BufferId)
    requires Sound(h) && b in h.live && next in h.live && h.live[b].closed && !h.live[next].closed
    requires h.live[next].owner == h.live[b].owner && h.live[next].offset == End(h.live[b])
    requires h.live[b].written < size <= h.live[b].alloc && h.live[next].alloc > 0
    ensures h.live[b].owner < |h.chunks| && CloseBuffer(h, b, size).Ok?
    ensures var h' := CloseBuffer(h, b, size).heap;
            && Holds(h'.live[b], h.live[b].owner, h.live[next].offset)
            && Holds(h'.live[next], h.live[b].owner, h.live[next].offset)
  {
    assert BufferSound(h, h.live[b]) && BufferSound(h, h.live[next]);
  }

  // ---------------------------------------------------------------- two runs to a second Close that shares a byte

  /** Thread 0 cuts size bytes as buffer b and closes it with written. */
  function CutAndClose(size: nat, b: BufferId, written: nat): seq<Event> {
    [Cut(0, size, b), Close(b, written)]
  }

  /** A thread's first chunk, with used bytes taken and nothing open. */
  predicate OneChunk(h: Heap, used: nat) {
    && |h.chunks| == 1 && h.chunks[0].used == used && !h.chunks[0].open
    && Sound(h) && Local(0) in h.slots && h.slots[Local(0)] == 0
  }

  /** The events lead from the empty heap to such a chunk. */
  ghost predicate Reached(events: seq<Event>, h: Heap, used: nat) {
    Runs(EMPTY, events, h) && OneChunk(h, used)
  }

  lemma FirstChunk() returns (h: Heap)
    ensures Reached([Take(0), Install(0)], h, 0) && h.live == map[]
  {
    TakeKeepsSound(EMPTY, 0);
    var one := After(EMPTY, Take(0));
    InstallKeepsSound(one, 0);
    h := After(one, Install(0));
    RunsOne(one, Install(0), [], h);
    RunsOne(EMPTY, Take(0), [Install(0)], h);
  }

  lemma RunsOne(h: Heap, e: Event, events: seq<Event>, h': Heap)
    requires Sound(h) && Allowed(h, e) && !Step(h, e).Crash? && Runs(After(h, e), events, h')
    ensures Runs(h, [e] + events, h')
  {
    assert ([e] + events)[1..] == events;
  }

  lemma {:induction false} RunsConcat(h: Heap, events: seq<Event>, mid: Heap, more: seq<Event>, h': Heap)
    requires Runs(h, events, mid) && Runs(mid, more, h')
    ensures Runs(h, events + more, h')
    decreases |events|
  {
    if events == [] {
      assert events + more == more;
    } else {
      assert events + more == [events[0]] + (events[1..] + more);
      RunsConcat(After(h, events[0]), events[1..], mid, more, h');
      RunsOne(h, events[0], events[1..] + more, h');
    }
  }

  lemma CutThenClose(h: Heap, used: nat, size: nat, b: BufferId, written: nat) returns (h': Heap)
    requires OneChunk(h, used) && b !in h.live && written <= size && used + size <= CHUNK_SIZE
    ensures Runs(h, CutAndClose(size, b, written), h') && OneChunk(h', used + written)
    ensures h'.live == h.live[b := Buffer(0, used, size, written, true)]
  {
    CutServes(h, 0, size, b);
    var cut := After(h, Cut(0, size, b));
    CloseKeepsSound(cut, b, written);
    h' := After(cut, Close(b, written));
    RunsOne(cut, Close(b, written), [], h');
    RunsOne(h, Cut(0, size, b), [Close(b, written)], h');
  }

  lemma CutAndCloseRuns(events: seq<Event>, h: Heap, used: nat, size: nat, b: BufferId, written: nat)
    returns (h': Heap)
    requires Reached(events, h, used) && b !in h.live && written <= size && used + size <= CHUNK_SIZE
    ensures Reached(events + CutAndClose(size, b, written), h', used + written)
    ensures h'.live == h.live[b := Buffer(0, used, size, written, true)]
  {
    h' := CutThenClose(h, used, size, b, written);
    RunsConcat(EMPTY, events, h, CutAndClose(size, b, written), h');
  }

  lemma CutRuns(events: seq<Event>, h: Heap, used: nat, size: nat, b: BufferId) returns (h': Heap)
    requires Reached(events, h, used) && b !in h.live && used + size <= CHUNK_SIZE
    ensures Runs(EMPTY, events + [Cut(0, size, b)], h') && Sound(h') && |h'.chunks| == 1 && h'.chunks[0].open
    ensures h'.live == h.live[b := Buffer(0, used, size, 0, false)] && h'.slots == h.slots
  {
    CutServes(h, 0, size, b);
    h' := After(h, Cut(0, size, b));
    RunsOne(h, Cut(0, size, b), [], h');
    RunsConcat(EMPTY, events, h, [Cut(0, size, b)], h');
  }

  /** Buffer 1 is closed with one of its ten bytes, then buffer 2 is cut and stays open. */
  const BEFORE_OPEN := [Take(0), Install(0)] + CutAndClose(10, 1, 1) + [Cut(0, 5, 2)]

  /** Closing buffer 1 again with all ten bytes puts its second byte in both buffers. */
  lemma SecondCloseSharesWithOpen() returns (h: Heap)
    ensures Runs(EMPTY, BEFORE_OPEN, h) && 1 in h.live && 2 in h.live && |h.chunks| == 1 && h.live[1].owner == 0
    ensures CloseBuffer(h, 1, 10).Ok?
    ensures var h' := CloseBuffer(h, 1, 10).heap;
            1 in h'.live && 2 in h'.live && Holds(h'.live[1], 0, 1) && Holds(h'.live[2], 0, 1)
  {
    var first := FirstChunk();
    var second := CutAndCloseRuns([Take(0), Install(0)], first, 0, 10, 1, 1);
    h := CutRuns([Take(0), Install(0)] + CutAndClose(10, 1, 1), second, 1, 5, 2);
    CloseTwiceShares(h, 1, 10, 2);
  }

  /** A buffer dropped while open leaves its chunk open. */
  lemma CutThenDrop(h: Heap, used: nat, size: nat, b: BufferId) returns (h': Heap)
    requires OneChunk(h, used) && b !in h.live && used + size <= CHUNK_SIZE
    ensures Runs(h, [Cut(0, size, b), Drop(b)], h') && Sound(h')
    ensures h'.live == h.live && h'.slots == h.slots && |h'.chunks| == 1 && h'.chunks[0].open
  {
    CutServes(h, 0, size, b);
    var cut := After(h, Cut(0, size, b));
    assert cut.slots[Local(0)] == 0 && cut.live - {b} == h.live;
    DropKeepsSound(cut, b);
    h' := After(cut, Drop(b));
    RunsOne(cut, Drop(b), [], h');
    RunsOne(h, Cut(0, size, b), [Drop(b)], h');
  }

  /** Both earlier buffers are closed; a third is dropped while open. */
  const BEFORE_NONE_OPEN :=
    [Take(0), Install(0)] + CutAndClose(10, 1, 1) + CutAndClose(5, 2, 5) + [Cut(0, 3, 3), Drop(3)]

  lemma NoneOpenRun() returns (h: Heap)
    ensures Runs(EMPTY, BEFORE_NONE_OPEN, h) && |h.chunks| == 1 && h.chunks[0].open && Sound(h)
    ensures h.live == map[1 := Buffer(0, 0, 10, 1, true), 2 := Buffer(0, 1, 5, 5, true)]
    ensures Local(0) in h.slots && h.slots[Local(0)] == 0
  {
    var first := FirstChunk();
    var second := CutAndCloseRuns([Take(0), Install(0)], first, 0, 10, 1, 1);
    var third := CutAndCloseRuns([Take(0), Install(0)] + CutAndClose(10, 1, 1), second, 1, 5, 2, 5);
    h := CutThenDrop(third, 6, 3, 3);
    RunsConcat(EMPTY, [Take(0), Install(0)] + CutAndClose(10, 1, 1) + CutAndClose(5, 2, 5), third,
               [Cut(0, 3, 3), Drop(3)], h);
  }

  // ---------------------------------------------------------------- a chunk left open

  /** The thread's chunk is marked open, but the buffer that was open in it is gone. */
  predicate Stuck(h: Heap, t: ThreadId) {
    && Local(t) in h.slots && h.slots[Local(t)] < |h.chunks|
    && h.chunks[h.slots[Local(t)]].open && NobodyOpen(h, h.slots[Local(t)])
  }

  lemma StuckStays(h: Heap, e: Event, t: ThreadId)
    requires Sound(h) && Allowed(h, e) && !Step(h, e).Crash? && Stuck(h, t) && e != Install(t) && e != Exit(t)
    ensures Stuck(After(h, e), t)
  {
    if e.Close? {
      assert BufferSound(h, h.live[e.b]);
    }
    assert e.Install? ==> h.slots[Hand(e.t)] != h.slots[Local(t)];
    assert e.Cut? && e.t != t ==> h.slots[Local(e.t)] != h.slots[Local(t)];
  }

  /**
   Every later Open of that thread crashes, whatever the others do. Open installs another chunk only after the
   check that fails, so the thread never gets to Install; only its end releases the chunk.
   */
  lemma {:induction false} StuckForGood(h: Heap, events: seq<Event>, h': Heap, t: ThreadId)
    requires Sound(h) && Runs(h, events, h') && Stuck(h, t) && Install(t) !in events && Exit(t) !in events
    ensures Sound(h') && Stuck(h', t)
    ensures forall size, b :: Hand(t) !in h'.slots && b !in h'.live ==> ManagerOpen(h', t, size, b).Crash?
    decreases |events|
  {
    if events == [] {
      forall size, b | Hand(t) !in h'.slots && b !in h'.live ensures ManagerOpen(h', t, size, b).Crash? {
        ManagerOpenServes(h', t, size, b);
      }
    } else {
      StuckStays(h, events[0], t);
      if Step(h, events[0]).Ok? {
        StepKeepsSound(h, events[0]);
      }
      StuckForGood(After(h, events[0]), events[1..], h', t);
    }
  }

  /** A run that gets a thread there: its third buffer is dropped while open. */
  lemma DroppedOpenIsStuck() returns (h: Heap)
    ensures Runs(EMPTY, BEFORE_NONE_OPEN, h) && Sound(h) && Stuck(h, 0)
  {
    h := NoneOpenRun();
  }

  /** Closing buffer 1 again passes the chunk's check although no buffer is open, and it takes buffer 2's bytes. */
  lemma SecondCloseSharesWithClosed() returns (h: Heap)
    ensures Runs(EMPTY, BEFORE_NONE_OPEN, h) && 1 in h.live && 2 in h.live && |h.chunks| == 1 && h.live[1].owner == 0
    ensures NobodyOpen(h, 0) && CloseBuffer(h, 1, 10).Ok?
    ensures var h' := CloseBuffer(h, 1, 10).heap;
            1 in h'.live && 2 in h'.live && Holds(h'.live[1], 0, 3) && Holds(h'.live[2], 0, 3)
  {
    h := NoneOpenRun();
  }
}
