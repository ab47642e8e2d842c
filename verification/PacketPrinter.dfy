/** MakeSendBuffer: cut a buffer, write header and payload into it, close it. */
module PacketPrinter {
  import opened SendBuffers
  import opened SendBufferRuns
  import opened PacketFraming
  import Manager = SendBufferManager

  /** OutsideBuffer: the header and payload would not lie inside the buffer that was cut for them. */
  datatype MakeResult = Made(heap: Heap) | Crash | OutsideBuffer

  /** `static_cast<uint16>` of the payload's size, and the 16-bit sum with the header's. */
  function DataSize(payload: seq<Byte>): nat {
    |payload| % 0x1_0000
  }

  function PacketSize(payload: seq<Byte>): nat {
    (DataSize(payload) + HEADER_SIZE) % 0x1_0000
  }

  /**
   MakeSendBuffer run by thread t, the new buffer being b. Serialising fails, and so crashes, when the
   payload is longer than the data size it is told.
   */
  function Make(h: Heap, t: ThreadId, b: BufferId, m: Message): MakeResult
    requires Sound(h) && Hand(t) !in h.slots && b !in h.live && m.id < 0x1_0000
  {
    ManagerOpenServes(h, t, PacketSize(m.payload), b);
    var cut := ManagerOpen(h, t, PacketSize(m.payload), b);
    if !cut.Ok? then MakeResult.Crash
    else if PacketSize(m.payload) < HEADER_SIZE then OutsideBuffer
    else if |m.payload| > DataSize(m.payload) then MakeResult.Crash
    else
      assert BufferSound(cut.heap, cut.heap.live[b]);
      var written := WriteBytes(cut.heap, b, 0, Frame(m));
      var closed := CloseBuffer(written, b, PacketSize(m.payload));
      if closed.Ok? then Made(closed.heap) else MakeResult.Crash
  }

  lemma SizesFit(payload: seq<Byte>)
    ensures PacketSize(payload) >= HEADER_SIZE && |payload| <= DataSize(payload) <==> |payload| + HEADER_SIZE < 0x1_0000
    ensures |payload| + HEADER_SIZE < 0x1_0000 ==> PacketSize(payload) == |payload| + HEADER_SIZE
  {
  }

  /** Filling an open buffer and closing it leaves exactly the bytes written. */
  lemma FilledAndClosed(h: Heap, b: BufferId, data: seq<Byte>)
    requires Sound(h) && b in h.live && !h.live[b].closed && h.live[b].alloc == |data|
    ensures BufferSound(h, h.live[b])
    ensures
      var r := CloseBuffer(WriteBytes(h, b, 0, data), b, |data|);
      && r.Ok? && Sound(r.heap) && r.heap.live == h.live[b := h.live[b].(written := |data|, closed := true)]
      && BufferSound(r.heap, r.heap.live[b]) && Contents(r.heap, b) == data
  {
    assert BufferSound(h, h.live[b]);
    WriteKeepsSound(h, b, 0, data);
    var written := WriteBytes(h, b, 0, data);
    CloseKeepsSound(written, b, |data|);
    var closed := CloseBuffer(written, b, |data|).heap;
    assert BufferSound(closed, closed.live[b]);
  }

  lemma MadeAfterOpen(h: Heap, t: ThreadId, b: BufferId, m: Message)
    requires Sound(h) && Hand(t) !in h.slots && b !in h.live && Framable(m)
    requires |m.payload| + HEADER_SIZE <= CHUNK_SIZE && !HasOpenChunk(h, t)
    ensures
      var r := Make(h, t, b, m);
      && r.Made? && Sound(r.heap) && r.heap.live.Keys == h.live.Keys + {b} && r.heap.live[b].closed
      && BufferSound(r.heap, r.heap.live[b]) && Contents(r.heap, b) == Frame(m)
  {
    SizesFit(m.payload);
    FrameRoundTrip(m);
    ManagerOpenServes(h, t, PacketSize(m.payload), b);
    FilledAndClosed(ManagerOpen(h, t, PacketSize(m.payload), b).heap, b, Frame(m));
  }

  /** A frame is made exactly when payload and header fit a chunk and the thread's chunk is not marked open. */
  lemma MadeIffItFits(h: Heap, t: ThreadId, b: BufferId, m: Message)
    requires Sound(h) && Hand(t) !in h.slots && b !in h.live && m.id < 0x1_0000
    ensures Make(h, t, b, m).Made? <==> |m.payload| + HEADER_SIZE <= CHUNK_SIZE && !HasOpenChunk(h, t)
  {
    SizesFit(m.payload);
    ManagerOpenServes(h, t, PacketSize(m.payload), b);
    if |m.payload| + HEADER_SIZE <= CHUNK_SIZE && !HasOpenChunk(h, t) {
      MadeAfterOpen(h, t, b, m);
    }
  }

  /**
   How the other calls end: with a size that wraps to less than a header while the thread may open, the header goes
   outside the buffer; all the rest crash.
   */
  lemma MakeFailsHow(h: Heap, t: ThreadId, b: BufferId, m: Message)
    requires Sound(h) && Hand(t) !in h.slots && b !in h.live && m.id < 0x1_0000
    ensures Make(h, t, b, m).OutsideBuffer? <==> |m.payload| % 0x1_0000 >= 0xFFFC && !HasOpenChunk(h, t)
  {
    ManagerOpenServes(h, t, PacketSize(m.payload), b);
  }

  /** What was made is still the frame, byte for byte, after anything any thread does short of dropping it. */
  lemma MadeStaysReadable(h: Heap, t: ThreadId, b: BufferId, m: Message, events: seq<Event>, h': Heap)
    requires Sound(h) && Hand(t) !in h.slots && b !in h.live && m.id < 0x1_0000
    requires Make(h, t, b, m).Made? && Runs(Make(h, t, b, m).heap, events, h') && Drop(b) !in events
    ensures b in h'.live && BufferSound(h', h'.live[b]) && Sound(h')
    ensures Parse(Contents(h', b)) == Parsed([Contents(h', b)], [], false)
    ensures |Contents(h', b)| >= HEADER_SIZE && Unframe(Contents(h', b)) == m
  {
    MadeIffItFits(h, t, b, m);
    MadeAfterOpen(h, t, b, m);
    ClosedContentsAreStable(Make(h, t, b, m).heap, events, h', b);
    assert BufferSound(h', h'.live[b]);
    FrameRoundTrip(m);
    ParseStep(Frame(m), |Frame(m)|);
    assert Frame(m)[|Frame(m)|..] == [] && Frame(m)[..|Frame(m)|] == Frame(m);
  }

  lemma WritesJoin(h: Heap, b: BufferId, first: seq<Byte>, second: seq<Byte>)
    requires Sound(h) && b in h.live && !h.live[b].closed && |first| + |second| <= h.live[b].alloc
    ensures BufferSound(h, h.live[b]) && BufferSound(WriteBytes(h, b, 0, first), h.live[b])
    ensures WriteBytes(WriteBytes(h, b, 0, first), b, |first|, second) == WriteBytes(h, b, 0, first + second)
  {
    assert BufferSound(h, h.live[b]);
    WriteKeepsSound(h, b, 0, first);
    var c, offset := h.live[b].owner, h.live[b].offset;
    var one := Spliced(h.chunks[c].bytes, offset, first);
    assert Spliced(one, offset + |first|, second) == Spliced(h.chunks[c].bytes, offset, first + second);
  }

  datatype Ended = Returned | Crashed | WroteOutside

  method MakeSendBuffer(manager: Manager.SendBufferManager, t: ThreadId, b: BufferId, m: Message) returns (ended: Ended)
    requires manager.Valid() && Hand(t) !in manager.slots && b !in manager.live && m.id < 0x1_0000
    modifies manager
    ensures ended == match Make(old(manager.View()), t, b, m)
                     case Made(_) => Returned
                     case Crash => Crashed
                     case OutsideBuffer => WroteOutside
    ensures ended.Returned? ==> manager.Valid() && Make(old(manager.View()), t, b, m) == Made(manager.View())
  {
    ghost var before := manager.View();
    ghost var expected := Make(before, t, b, m);
    var dataSize := DataSize(m.payload);
    var packetSize := PacketSize(m.payload);
    SizesFit(m.payload);
    ManagerOpenServes(before, t, packetSize, b);
    var crash, isNull := manager.Open(t, packetSize, b);
    if crash {
      assert expected.Crash?;
      return Crashed;
    }
    if packetSize < HEADER_SIZE {
      assert expected.OutsideBuffer?;
      return WroteOutside;
    }
    if |m.payload| > dataSize {
      assert expected.Crash?;
      return Crashed;
    }
    FrameRoundTrip(m);
    Print(manager, b, m);
    assert expected == Made(manager.View());
    ended := Returned;
  }

  /** Header and payload into the open buffer, then Close. */
  method Print(manager: Manager.SendBufferManager, b: BufferId, m: Message)
    requires manager.Valid() && b in manager.live && !manager.live[b].closed && Framable(m)
    requires manager.live[b].alloc == |m.payload| + HEADER_SIZE
    modifies manager
    ensures BufferSound(old(manager.View()), old(manager.live)[b])
    ensures var r := CloseBuffer(WriteBytes(old(manager.View()), b, 0, Frame(m)), b, |m.payload| + HEADER_SIZE);
            r == Ok(manager.View()) && manager.Valid()
  {
    ghost var cut := manager.View();
    var packetSize := |m.payload| + HEADER_SIZE;
    var size, id := U16(packetSize), U16(m.id);
    WritesJoin(cut, b, size, id);
    WritesJoin(cut, b, size + id, m.payload);
    manager.Store(b, 0, size);
    manager.Store(b, 2, id);
    manager.Store(b, HEADER_SIZE, m.payload);
    FilledAndClosed(cut, b, Frame(m));
    var crash := manager.Close(b, packetSize);
  }
}
