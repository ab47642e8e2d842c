/** The chunk pool in place: one object holds the pool, every thread's current chunk and the live buffers. */
module SendBufferManager {
  import opened SendBuffers
  import opened SendBufferRuns

  class SendBufferManager {
    var sendBufferChunks: seq<ChunkId>
    var chunks: seq<Chunk>
    // Who holds a reference: the threads, and the buffers still alive.
    var slots: map<Slot, ChunkId>
    var live: map<BufferId, Buffer>

    function View(): Heap
      reads this
    {
      Heap(chunks, sendBufferChunks, slots, live)
    }

    predicate Valid()
      reads this
    {
      Sound(View())
    }

    constructor ()
      ensures Valid() && View() == EMPTY
    {
      sendBufferChunks, chunks, slots, live := [], [], map[], map[];
    }

    method Pop(t: ThreadId)
      requires Valid() && Hand(t) !in slots
      modifies `sendBufferChunks, `chunks, `slots
      ensures Valid() && View() == TakeChunk(old(View()), t)
      ensures Hand(t) in slots
      ensures if old(sendBufferChunks) != [] then old(sendBufferChunks) == sendBufferChunks + [slots[Hand(t)]]
              else sendBufferChunks == [] && slots[Hand(t)] == |old(chunks)|
      ensures chunks == if old(sendBufferChunks) != [] then old(chunks) else old(chunks) + [FreshChunk()]
    {
      TakeKeepsSound(View(), t);
      if sendBufferChunks != [] {
        slots := slots[Hand(t) := sendBufferChunks[|sendBufferChunks| - 1]];
        sendBufferChunks := sendBufferChunks[..|sendBufferChunks| - 1];
      } else {
        slots := slots[Hand(t) := |chunks|];
        chunks := chunks + [FreshChunk()];
      }
    }

    /** A reference to the chunk has gone; if it was the last one, the deleter runs. */
    method PushGlobal(c: ChunkId)
      requires Returning(c) !in slots
      modifies `sendBufferChunks, `slots
      ensures View() == Pushed(Released(old(View()), c), c)
    {
      if !Referenced(View(), c) {
        slots := slots[Returning(c) := c];
        Push(c);
      }
    }

    /** Under the pool's lock. */
    method Push(c: ChunkId)
      requires Returning(c) in slots
      modifies `sendBufferChunks, `slots
      ensures View() == ReturnChunk(old(View()), c)
    {
      sendBufferChunks := sendBufferChunks + [c];
      slots := slots - {Returning(c)};
    }

    /** A popped chunk becomes the thread's current one, emptied; the one it had loses a reference. */
    method Refill(t: ThreadId)
      requires Valid() && Hand(t) !in slots
      modifies `sendBufferChunks, `chunks, `slots
      ensures Valid() && View() == Refilled(old(View()), t)
    {
      RefilledIsReady(View(), t);
      Pop(t);
      Install(t);
    }

    /** Stores and resets the chunk in hand; the deleter runs for the one it replaces if that was its last reference. */
    method Install(t: ThreadId)
      requires Valid() && Hand(t) in slots
      modifies `sendBufferChunks, `chunks, `slots
      ensures var installed := InstallChunk(old(View()), t);
              View() == if Local(t) in old(slots) then Pushed(installed, old(slots)[Local(t)]) else installed
    {
      var c := slots[Hand(t)];
      var hadChunk := Local(t) in slots;
      var previous := if hadChunk then slots[Local(t)] else c;
      slots := (slots - {Hand(t)})[Local(t) := c];
      chunks := chunks[c := chunks[c].(open := false, used := 0)];
      assert hadChunk ==> Returning(previous) !in slots;
      if hadChunk {
        PushGlobal(previous);
      }
    }

    /** SendBufferChunk::Open on the thread's current chunk. */
    method OpenInChunk(t: ThreadId, allocSize: nat, b: BufferId) returns (crash: bool, isNull: bool)
      requires Valid() && Local(t) in slots && b !in live
      modifies `chunks, `live
      ensures crash <==> CutBuffer(old(View()), t, allocSize, b).Crash?
      ensures !crash ==> (isNull <==> CutBuffer(old(View()), t, allocSize, b).NoRoom?)
      ensures !crash && !isNull ==> Valid() && CutBuffer(old(View()), t, allocSize, b) == Ok(View())
    {
      crash, isNull := false, false;
      var c := slots[Local(t)];
      var chunk := chunks[c];
      if allocSize > CHUNK_SIZE || chunk.open {
        crash := true;
        return;
      }
      if allocSize > CHUNK_SIZE - chunk.used {
        isNull := true;
        return;
      }
      CutServes(View(), t, allocSize, b);
      chunks := chunks[c := chunk.(open := true)];
      live := live[b := Buffer(c, chunk.used, allocSize, 0, false)];
    }

    method Open(t: ThreadId, size: nat, b: BufferId) returns (crash: bool, isNull: bool)
      requires Valid() && Hand(t) !in slots && b !in live
      modifies this
      ensures crash <==> ManagerOpen(old(View()), t, size, b).Crash?
      ensures !crash ==> !isNull && Valid() && ManagerOpen(old(View()), t, size, b) == Ok(View())
    {
      ManagerOpenServes(View(), t, size, b);
      StartedMayCut(View(), t);
      ghost var first := Started(View(), t);
      crash, isNull := true, false;
      if Local(t) !in slots {
        Refill(t);
      }
      assert View() == first;
      var c := slots[Local(t)];
      if chunks[c].open {
        return;
      }
      RoomyMayCut(first, t, size);
      if CHUNK_SIZE - chunks[c].used < size {
        Refill(t);
      }
      assert View() == Roomy(first, t, size);
      crash, isNull := OpenInChunk(t, size, b);
    }

    /** Store through the pointer SendBuffer::Buffer() returned. */
    method Store(b: BufferId, at: nat, data: seq<Byte>)
      requires Valid() && b in live && !live[b].closed && at + |data| <= live[b].alloc
      modifies `chunks
      ensures BufferSound(old(View()), old(live)[b])
      ensures Valid() && View() == WriteBytes(old(View()), b, at, data)
    {
      WriteKeepsSound(View(), b, at, data);
      var buffer := live[b];
      assert BufferSound(View(), buffer);
      var chunk := chunks[buffer.owner];
      chunks := chunks[buffer.owner := chunk.(bytes := Spliced(chunk.bytes, buffer.offset + at, data))];
    }

    /** Checks only the reservation and the chunk's flag, so it lets a buffer be closed again. */
    method Close(b: BufferId, writeSize: nat) returns (crash: bool)
      requires Valid() && b in live
      modifies `live, `chunks
      ensures BufferSound(old(View()), old(live)[b])
      ensures crash <==> CloseBuffer(old(View()), b, writeSize).Crash?
      ensures crash <==> writeSize > old(live)[b].alloc || !old(chunks)[old(live)[b].owner].open
      ensures crash ==> View() == old(View())
      ensures !crash ==> CloseBuffer(old(View()), b, writeSize) == Ok(View())
      ensures !crash ==> (Valid() <==> !old(live)[b].closed || MayCloseAgain(old(View()), b, writeSize))
    {
      var buffer := live[b];
      CloseKeepsSoundIff(View(), b, writeSize);
      crash := writeSize > buffer.alloc || !chunks[buffer.owner].open;
      if !crash {
        live := live[b := buffer.(written := writeSize, closed := true)];
        var chunk := chunks[buffer.owner];
        chunks := chunks[buffer.owner := chunk.(open := false, used := chunk.used + writeSize)];
      }
    }

    method Drop(b: BufferId)
      requires Valid() && b in live
      modifies `live, `sendBufferChunks, `slots
      ensures Valid() && View() == Dropped(old(View()), b)
    {
      DroppedKeepsSound(View(), b);
      var c := live[b].owner;
      assert Returning(c) !in slots by {
        assert Owned(View(), c);
      }
      live := live - {b};
      PushGlobal(c);
    }
  }
}
