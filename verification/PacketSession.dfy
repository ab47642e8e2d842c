/** RecvBuffer and the receive side of PacketSession, working in place on one byte array. */
module PacketSession {
  import opened SendBuffers
  import opened PacketFraming

  const BUFFER_SIZE := 0x1_0000
  const BUFFER_COUNT := 10

  class RecvBuffer {
    const bufferSize: nat
    const capacity: nat
    const buffer: array<Byte>
    var readPos: nat
    var writePos: nat

    predicate Valid()
      reads this
    {
      capacity == bufferSize * BUFFER_COUNT && buffer.Length == capacity && readPos <= writePos <= capacity
    }

    function Data(): seq<Byte>
      requires Valid()
      reads this, buffer
    {
      buffer[readPos..writePos]
    }

    function DataSize(): nat
      requires Valid()
      reads this
    {
      writePos - readPos
    }

    function FreeSize(): nat
      requires Valid()
      reads this
    {
      capacity - writePos
    }

    constructor (size: nat)
      ensures Valid() && fresh(buffer) && bufferSize == size && readPos == writePos == 0
    {
      bufferSize, capacity := size, size * BUFFER_COUNT;
      buffer := new Byte[size * BUFFER_COUNT](_ => 0);
      readPos, writePos := 0, 0;
    }

    /** memcpy is given two ranges of the same array, so it needs them not to overlap. */
    method Clean()
      requires Valid() && (FreeSize() < bufferSize ==> DataSize() <= readPos)
      modifies this, buffer
      ensures Valid() && Data() == old(Data())
      ensures Data() == [] ==> FreeSize() == capacity
      ensures FreeSize() >= bufferSize || FreeSize() == capacity - DataSize()
    {
      var dataSize := DataSize();
      if dataSize == 0 {
        readPos, writePos := 0, 0;
      } else if FreeSize() < bufferSize {
        ghost var kept := Data();
        forall i | 0 <= i < dataSize {
          buffer[i] := buffer[readPos + i];
        }
        readPos, writePos := 0, dataSize;
        assert Data() == kept;
      }
    }

    method OnRead(numOfBytes: nat) returns (ok: bool)
      requires Valid()
      modifies `readPos
      ensures ok <==> numOfBytes <= old(DataSize())
      ensures Valid() && readPos == old(readPos) + if ok then numOfBytes else 0
    {
      if numOfBytes > DataSize() {
        return false;
      }
      readPos := readPos + numOfBytes;
      ok := true;
    }

    method OnWrite(numOfBytes: nat) returns (ok: bool)
      requires Valid()
      modifies `writePos
      ensures ok <==> numOfBytes <= old(FreeSize())
      ensures Valid() && writePos == old(writePos) + if ok then numOfBytes else 0
    {
      if numOfBytes > FreeSize() {
        return false;
      }
      writePos := writePos + numOfBytes;
      ok := true;
    }
  }

  class PacketSession {
    var connected: bool
    const recvBuffer: RecvBuffer
    // What OnRecvPacket has been handed, and whether the receive loop is stuck on an empty packet.
    var delivered: seq<seq<Byte>>
    var hung: bool

    /** Between completions: only an unfinished packet is buffered and a full block is free for the next one. */
    ghost predicate Valid()
      reads this, recvBuffer, recvBuffer.buffer
    {
      && recvBuffer.Valid() && recvBuffer.bufferSize == BUFFER_SIZE
      && (!hung ==>
            && recvBuffer.FreeSize() >= BUFFER_SIZE
            && |recvBuffer.Data()| < 0xFFFF
            && Parse(recvBuffer.Data()) == Parsed([], recvBuffer.Data(), false))
    }

    ghost function Stream(): Parsed
      requires recvBuffer.Valid()
      reads this, recvBuffer, recvBuffer.buffer
    {
      Parsed(delivered, recvBuffer.Data(), hung)
    }

    constructor ()
      ensures Valid() && connected && fresh(recvBuffer) && fresh(recvBuffer.buffer) && Stream() == FeedAll([])
    {
      connected, delivered, hung := true, [], false;
      recvBuffer := new RecvBuffer(BUFFER_SIZE);
    }

    /** PacketSession::OnRecv on what is buffered; packets are what OnRecvPacket is called with, in order. */
    method OnRecv() returns (processLen: nat, packets: seq<seq<Byte>>, stuck: bool)
      requires recvBuffer.Valid()
      ensures processLen <= recvBuffer.DataSize()
      ensures Parse(recvBuffer.Data()) == Parsed(packets, recvBuffer.Data()[processLen..], stuck)
    {
      var buffer := recvBuffer.Data();
      var len := |buffer|;
      processLen, packets, stuck := 0, [], false;
      assert [] + Parse(buffer).packets == Parse(buffer).packets && buffer[0..] == buffer;
      while true
        invariant CutSoFar(buffer, processLen, packets) && !stuck
        decreases len - processLen
      {
        var dataSize := len - processLen;
        if dataSize < HEADER_SIZE {
          break;
        }
        var size := ReadU16(buffer, processLen);
        if dataSize < size {
          break;
        }
        if size == 0 {
          stuck := true;
          break;
        }
        CutOneMore(buffer, processLen, packets, size);
        packets := packets + [buffer[processLen..processLen + size]];
        processLen := processLen + size;
      }
      CutEnds(buffer, processLen, packets);
    }

    /**
     A receive completion. The kernel has written data at WritePos, at most the FreeSize bytes WSARecv
     offered; ProcessRecv then takes numOfBytes = |data|.
     */
    method ProcessRecv(data: seq<Byte>)
      requires Valid() && !hung && |data| <= recvBuffer.FreeSize()
      modifies this, recvBuffer, recvBuffer.buffer
      ensures Valid()
      ensures connected <==> old(connected) && data != []
      ensures data != [] ==>
                var fed := Feed(old(Stream()), data);
                delivered == fed.packets && hung == fed.hung && (!hung ==> recvBuffer.Data() == fed.rest)
      ensures data == [] ==> Stream() == old(Stream())
    {
      Receive(data);
      if data == [] {
        assert recvBuffer.Data() + [] == recvBuffer.Data();
        connected := false;
        return;
      }
      var ok := recvBuffer.OnWrite(|data|);
      if !ok {
        assert false;  // "OnWrite Overflow" is never taken
      }
      ghost var all := old(recvBuffer.Data()) + data;
      assert recvBuffer.Data() == all;
      RestIsUnfinished(all);
      var processLen, packets, stuck := OnRecv();
      delivered := delivered + packets;
      if stuck {
        hung := true;
        return;
      }
      Consume(processLen);
      assert recvBuffer.Data() == Parse(all).rest;
    }

    /** Steps over the packets handed on and makes room for the next block. */
    method Consume(processLen: nat)
      requires recvBuffer.Valid() && recvBuffer.bufferSize == BUFFER_SIZE
      requires processLen <= recvBuffer.DataSize() && recvBuffer.DataSize() - processLen < 0xFFFF
      modifies recvBuffer, recvBuffer.buffer
      ensures recvBuffer.Valid() && recvBuffer.FreeSize() >= BUFFER_SIZE
      ensures recvBuffer.Data() == old(recvBuffer.Data()[processLen..])
    {
      ghost var rest := recvBuffer.Data()[processLen..];
      var ok := recvBuffer.OnRead(processLen);
      if !ok {
        assert false;  // "OnRead Overflow" is never taken
      }
      assert recvBuffer.Data() == rest;
      recvBuffer.Clean();
    }

    /** The kernel's write into the buffer WSARecv was given. */
    method Receive(data: seq<Byte>)
      requires recvBuffer.Valid() && |data| <= recvBuffer.FreeSize()
      modifies recvBuffer.buffer
      ensures recvBuffer.Data() == old(recvBuffer.Data())
      ensures recvBuffer.buffer[recvBuffer.writePos..recvBuffer.writePos + |data|] == data
    {
      forall i | 0 <= i < |data| {
        recvBuffer.buffer[recvBuffer.writePos + i] := data[i];
      }
    }
  }
}
