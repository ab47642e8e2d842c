/**
 Send buffers cut out of 6000-byte chunks. Chunks are shared by reference: every thread keeps one to cut
 from, every live buffer keeps its own, and a chunk whose last reference goes returns to a global pool.
 This module is the specification, one function per step a thread can take.
 */
module SendBuffers {

  newtype Byte = x: int | 0 <= x < 256
  type ThreadId = nat
  type ChunkId = nat
  type BufferId = nat

  const CHUNK_SIZE := 6000

  datatype Chunk = Chunk(bytes: seq<Byte>, open: bool, used: nat)

  /** closed records that Close has been called; the program itself keeps no such flag per buffer. */
  datatype Buffer = Buffer(owner: ChunkId, offset: nat, alloc: nat, written: nat, closed: bool)

  /**
   Local is a thread's `LSendBufferChunk`; Hand is a chunk it has popped but not yet stored there; Returning is a
   chunk whose deleter has run but has not yet pushed it into the pool.
   */
  datatype Slot = Local(t: ThreadId) | Hand(t: ThreadId) | Returning(c: ChunkId)

  datatype Heap = Heap(chunks: seq<Chunk>, pool: seq<ChunkId>, slots: map<Slot, ChunkId>, live: map<BufferId, Buffer>)

  const EMPTY := Heap([], [], map[], map[])

  datatype Event =
    | Take(t: ThreadId)                                   // SendBufferManager::Pop
    | Install(t: ThreadId)                                // assign to LSendBufferChunk, then Reset
    | Cut(t: ThreadId, size: nat, b: BufferId)            // SendBufferChunk::Open
    | Write(b: BufferId, at: nat, data: seq<Byte>)        // through SendBuffer::Buffer()
    | Close(b: BufferId, size: nat)                       // SendBuffer::Close
    | Drop(b: BufferId)                                   // last SendBufferRef released
    | Exit(t: ThreadId)                                   // thread-local storage destroyed
    | Return(c: ChunkId)                                  // SendBufferManager::Push

  /** NoRoom is the null reference. */
  datatype Outcome = Ok(heap: Heap) | NoRoom | Crash

  function FreshChunk(): Chunk {
    Chunk(seq(CHUNK_SIZE, _ => 0 as Byte), false, 0)
  }

  function Reset(c: Chunk): Chunk {
    c.(open := false, used := 0)
  }

  predicate Owned(h: Heap, c: ChunkId) {
    exists b <- h.live :: h.live[b].owner == c
  }

  predicate Referenced(h: Heap, c: ChunkId) {
    (exists s <- h.slots :: h.slots[s] == c) || Owned(h, c)
  }

  /** A chunk nobody refers to any more goes to its deleter. */
  function Released(h: Heap, c: ChunkId): Heap {
    if Referenced(h, c) then h else h.(slots := h.slots[Returning(c) := c])
  }

  /** The deleter's push: the chunk goes to the back of the pool. */
  function ReturnChunk(h: Heap, c: ChunkId): Heap
    requires Returning(c) in h.slots
  {
    h.(slots := h.slots - {Returning(c)}, pool := h.pool + [c])
  }

  function TakeChunk(h: Heap, t: ThreadId): Heap {
    if h.pool != [] then
      h.(slots := h.slots[Hand(t) := h.pool[|h.pool| - 1]], pool := h.pool[..|h.pool| - 1])
    else
      h.(slots := h.slots[Hand(t) := |h.chunks|], chunks := h.chunks + [FreshChunk()])
  }

  /** The popped chunk replaces the thread's current one and is reset; the current one loses a reference. */
  function InstallChunk(h: Heap, t: ThreadId): Heap
    requires Hand(t) in h.slots && h.slots[Hand(t)] < |h.chunks|
  {
    var c := h.slots[Hand(t)];
    var moved := h.(slots := (h.slots - {Hand(t)})[Local(t) := c], chunks := h.chunks[c := Reset(h.chunks[c])]);
    if Local(t) in h.slots then Released(moved, h.slots[Local(t)]) else moved
  }

  function CutBuffer(h: Heap, t: ThreadId, size: nat, b: BufferId): Outcome
    requires Local(t) in h.slots && h.slots[Local(t)] < |h.chunks| && h.chunks[h.slots[Local(t)]].used <= CHUNK_SIZE
  {
    var c := h.slots[Local(t)];
    var chunk := h.chunks[c];
    if size > CHUNK_SIZE || chunk.open then Crash
    else if size > CHUNK_SIZE - chunk.used then NoRoom
    else Ok(h.(chunks := h.chunks[c := chunk.(open := true)],
               live := h.live[b := Buffer(c, chunk.used, size, 0, false)]))
  }

  function Spliced(s: seq<Byte>, at: nat, data: seq<Byte>): (r: seq<Byte>)
    requires at + |data| <= |s|
    ensures |r| == |s|
    ensures forall i :: 0 <= i < |s| ==> r[i] == if at <= i < at + |data| then data[i - at] else s[i]
  {
    s[..at] + data + s[at + |data|..]
  }

  function WriteBytes(h: Heap, b: BufferId, at: nat, data: seq<Byte>): Heap
    requires b in h.live && h.live[b].owner < |h.chunks|
    requires h.live[b].offset + at + |data| <= |h.chunks[h.live[b].owner].bytes|
  {
    var c := h.live[b].owner;
    h.(chunks := h.chunks[c := h.chunks[c].(bytes := Spliced(h.chunks[c].bytes, h.live[b].offset + at, data))])
  }

  function CloseBuffer(h: Heap, b: BufferId, size: nat): Outcome
    requires b in h.live && h.live[b].owner < |h.chunks|
  {
    var c := h.live[b].owner;
    var chunk := h.chunks[c];
    if size > h.live[b].alloc || !chunk.open then Crash
    else Ok(h.(live := h.live[b := h.live[b].(written := size, closed := true)],
               chunks := h.chunks[c := chunk.(open := false, used := chunk.used + size)]))
  }

  function DropBuffer(h: Heap, b: BufferId): Heap
    requires b in h.live
  {
    Released(h.(live := h.live - {b}), h.live[b].owner)
  }

  function ExitThread(h: Heap, t: ThreadId): Heap
    requires Local(t) in h.slots
  {
    Released(h.(slots := h.slots - {Local(t)}), h.slots[Local(t)])
  }

  /** One past the last byte that belongs to the buffer: all it reserved until Close, then what it wrote. */
  function End(b: Buffer): nat {
    b.offset + if b.closed then b.written else b.alloc
  }

  function Contents(h: Heap, b: BufferId): seq<Byte>
    requires b in h.live && h.live[b].owner < |h.chunks|
    requires h.live[b].offset + h.live[b].written <= |h.chunks[h.live[b].owner].bytes|
  {
    var s := h.live[b];
    h.chunks[s.owner].bytes[s.offset..s.offset + s.written]
  }

  predicate ChunksSound(h: Heap) {
    forall c :: 0 <= c < |h.chunks| ==> |h.chunks[c].bytes| == CHUNK_SIZE && h.chunks[c].used <= CHUNK_SIZE
  }

  predicate NoRepeats(pool: seq<ChunkId>) {
    forall i, j :: 0 <= i < j < |pool| ==> pool[i] != pool[j]
  }

  /** Each chunk is in the pool exactly once or referenced, never both. */
  predicate Accounted(h: Heap) {
    && NoRepeats(h.pool)
    && (forall c <- h.pool :: c < |h.chunks|)
    && (forall c: ChunkId :: c < |h.chunks| ==> (c in h.pool <==> !Referenced(h, c)))
  }

  /** No chunk is in two slots, and one about to be reset or pooled has no live buffer. */
  predicate Exclusive(h: Heap) {
    && (forall s <- h.slots :: h.slots[s] < |h.chunks|)
    && (forall s, r :: s in h.slots && r in h.slots && s != r ==> h.slots[s] != h.slots[r])
    && (forall s <- h.slots :: !s.Local? ==> !Owned(h, h.slots[s]))
    && (forall s <- h.slots :: s.Returning? ==> h.slots[s] == s.c)
  }

  predicate BufferSound(h: Heap, s: Buffer) {
    && s.owner < |h.chunks|
    && (s.closed ==> s.written <= s.alloc && End(s) <= h.chunks[s.owner].used)
    && (!s.closed ==>
          && h.chunks[s.owner].open && s.offset == h.chunks[s.owner].used
          && End(s) <= CHUNK_SIZE && s.written == 0)
  }

  predicate Apart(a: Buffer, b: Buffer) {
    a.owner == b.owner ==> (a.closed || b.closed) && (End(a) <= b.offset || End(b) <= a.offset)
  }

  predicate BuffersSound(h: Heap) {
    && (forall b <- h.live :: BufferSound(h, h.live[b]))
    && (forall a, b :: a in h.live && b in h.live && a != b ==> Apart(h.live[a], h.live[b]))
  }

  predicate Sound(h: Heap) {
    ChunksSound(h) && Accounted(h) && Exclusive(h) && BuffersSound(h)
  }
}
