/** The wire format [size(2)][id(2)][payload], little-endian, and how a byte stream is cut back into packets. */
module PacketFraming {
  import opened SendBuffers

  const HEADER_SIZE := 4

  /** id and payload length both fit the 16-bit header fields. */
  datatype Message = Message(id: nat, payload: seq<Byte>)

  predicate Framable(m: Message) {
    m.id < 0x1_0000 && |m.payload| + HEADER_SIZE < 0x1_0000
  }

  function U16(n: nat): (s: seq<Byte>)
    requires n < 0x1_0000
    ensures |s| == 2 && ReadU16(s, 0) == n
  {
    [(n % 256) as Byte, (n / 256) as Byte]
  }

  function ReadU16(s: seq<Byte>, at: nat): (n: nat)
    requires at + 2 <= |s|
    ensures n < 0x1_0000
  {
    s[at] as nat + 256 * s[at + 1] as nat
  }

  function Frame(m: Message): seq<Byte>
    requires Framable(m)
  {
    U16(|m.payload| + HEADER_SIZE) + U16(m.id) + m.payload
  }

  /** The message a delivered packet carries, read the way HandlePacket does. */
  function Unframe(packet: seq<Byte>): Message
    requires |packet| >= HEADER_SIZE
  {
    Message(ReadU16(packet, 2), packet[HEADER_SIZE..])
  }

  lemma FrameRoundTrip(m: Message)
    requires Framable(m)
    ensures |Frame(m)| == |m.payload| + HEADER_SIZE && ReadU16(Frame(m), 0) == |Frame(m)|
    ensures Unframe(Frame(m)) == m
  {
    var f := Frame(m);
    assert f[..2] == U16(|m.payload| + HEADER_SIZE) && f[2..4] == U16(m.id) && f[4..] == m.payload;
    assert f[0] == U16(|m.payload| + HEADER_SIZE)[0] && f[1] == U16(|m.payload| + HEADER_SIZE)[1];
    assert f[2] == U16(m.id)[0] && f[3] == U16(m.id)[1];
  }

  /** hung: a packet of size 0 was met, on which the loop advances by nothing for ever. */
  datatype Parsed = Parsed(packets: seq<seq<Byte>>, rest: seq<Byte>, hung: bool)

  /** PacketSession::OnRecv over everything received. */
  function Parse(s: seq<Byte>): Parsed
    decreases |s|
  {
    if |s| < HEADER_SIZE || |s| < ReadU16(s, 0) then Parsed([], s, false)
    else if ReadU16(s, 0) == 0 then Parsed([], s, true)
    else
      var n := ReadU16(s, 0);
      var later := Parse(s[n..]);
      Parsed([s[..n]] + later.packets, later.rest, later.hung)
  }

  function Flatten(chunks: seq<seq<Byte>>): seq<Byte> {
    if chunks == [] then [] else chunks[0] + Flatten(chunks[1..])
  }

  /** What is kept back is shorter than any packet can be long, and is kept back again. */
  lemma {:induction false} RestIsUnfinished(s: seq<Byte>)
    ensures !Parse(s).hung ==> |Parse(s).rest| < 0xFFFF && Parse(Parse(s).rest) == Parsed([], Parse(s).rest, false)
    decreases |s|
  {
    if |s| >= HEADER_SIZE && 0 < ReadU16(s, 0) <= |s| {
      RestIsUnfinished(s[ReadU16(s, 0)..]);
    }
  }

  /** Packets are cut from the front, so nothing is lost, added or reordered. */
  lemma {:induction false} ParsePreservesBytes(s: seq<Byte>)
    ensures Flatten(Parse(s).packets) + Parse(s).rest == s
    decreases |s|
  {
    if |s| >= HEADER_SIZE && 0 < ReadU16(s, 0) <= |s| {
      var n := ReadU16(s, 0);
      ParsePreservesBytes(s[n..]);
      var later := Parse(s[n..]);
      assert Parse(s).packets[1..] == later.packets;
      assert s == s[..n] + s[n..];
    }
  }

  lemma ParseStep(s: seq<Byte>, n: nat)
    requires |s| >= HEADER_SIZE && 0 < ReadU16(s, 0) == n <= |s|
    ensures var later := Parse(s[n..]); Parse(s) == Parsed([s[..n]] + later.packets, later.rest, later.hung)
  {
  }

  /** The loop of OnRecv after at bytes: packets are cut off, the rest is parsed as if it were the whole. */
  ghost predicate CutSoFar(s: seq<Byte>, at: nat, packets: seq<seq<Byte>>) {
    && at <= |s|
    && var later := Parse(s[at..]);
       Parse(s) == Parsed(packets + later.packets, later.rest, later.hung)
  }

  lemma CutOneMore(s: seq<Byte>, at: nat, packets: seq<seq<Byte>>, size: nat)
    requires CutSoFar(s, at, packets) && |s| - at >= HEADER_SIZE && 0 < size == ReadU16(s, at) <= |s| - at
    ensures CutSoFar(s, at + size, packets + [s[at..at + size]])
  {
    var left := s[at..];
    assert ReadU16(left, 0) == size;
    ParseStep(left, size);
    assert left[size..] == s[at + size..] && left[..size] == s[at..at + size];
    var later := Parse(left[size..]);
    assert (packets + [left[..size]]) + later.packets == packets + ([left[..size]] + later.packets);
  }

  lemma CutEnds(s: seq<Byte>, at: nat, packets: seq<seq<Byte>>)
    requires CutSoFar(s, at, packets)
    requires |s| - at < HEADER_SIZE || |s| - at < ReadU16(s, at) || ReadU16(s, at) == 0
    ensures Parse(s) == Parsed(packets, s[at..], |s| - at >= HEADER_SIZE && ReadU16(s, at) == 0)
  {
    var left := s[at..];
    if |left| >= HEADER_SIZE {
      assert ReadU16(left, 0) == ReadU16(s, at);
    }
    assert packets + [] == packets;
  }

  lemma ConcatAssociates(p: seq<seq<Byte>>, q: seq<seq<Byte>>, r: seq<seq<Byte>>)
    ensures p + (q + r) == (p + q) + r
  {
  }

  /** Parsing what was kept back together with new bytes continues exactly where the first parse stopped. */
  lemma {:induction false} ParseContinues(s: seq<Byte>, more: seq<Byte>)
    ensures
      var first, whole := Parse(s), Parse(s + more);
      if first.hung then whole.hung && whole.packets == first.packets
      else
        var second := Parse(first.rest + more);
        whole == Parsed(first.packets + second.packets, second.rest, second.hung)
    decreases |s|
  {
    if |s| >= HEADER_SIZE && ReadU16(s, 0) <= |s| {
      var n := ReadU16(s, 0);
      assert ReadU16(s + more, 0) == n;
      if n > 0 {
        assert (s + more)[..n] == s[..n] && (s + more)[n..] == s[n..] + more;
        ParseStep(s, n);
        ParseStep(s + more, n);
        ParseContinues(s[n..], more);
        var later := Parse(s[n..]);
        if !later.hung {
          var second := Parse(later.rest + more);
          ConcatAssociates([s[..n]], later.packets, second.packets);
        }
      }
    } else {
      assert [] + Parse(s + more).packets == Parse(s + more).packets;
    }
  }

  /** The stream so far, as a receiver fed one completion at a time sees it. */
  function Feed(state: Parsed, chunk: seq<Byte>): Parsed {
    if state.hung then state
    else
      var next := Parse(state.rest + chunk);
      Parsed(state.packets + next.packets, next.rest, next.hung)
  }

  function FeedAll(chunks: seq<seq<Byte>>): Parsed {
    if chunks == [] then Parsed([], [], false) else Feed(FeedAll(chunks[..|chunks| - 1]), chunks[|chunks| - 1])
  }

  lemma {:induction false} FlattenPush(chunks: seq<seq<Byte>>, c: seq<Byte>)
    ensures Flatten(chunks + [c]) == Flatten(chunks) + c
    decreases |chunks|
  {
    if chunks == [] {
      assert (chunks + [c])[1..] == [];
    } else {
      assert (chunks + [c])[1..] == chunks[1..] + [c];
      FlattenPush(chunks[1..], c);
    }
  }

  /**
   Delivery does not depend on how the stream is cut into completions, for every stream: well-formed or not,
   the packets are those of one parse of the whole, and so is the unfinished tail.
   */
  lemma {:induction false} ChunkingDoesNotMatter(chunks: seq<seq<Byte>>)
    ensures
      var fed, whole := FeedAll(chunks), Parse(Flatten(chunks));
      fed.packets == whole.packets && fed.hung == whole.hung && (!fed.hung ==> fed.rest == whole.rest)
    decreases |chunks|
  {
    if chunks != [] {
      var front, last := chunks[..|chunks| - 1], chunks[|chunks| - 1];
      ChunkingDoesNotMatter(front);
      assert front + [last] == chunks;
      FlattenPush(front, last);
      ParseContinues(Flatten(front), last);
    }
  }

  function Frames(ms: seq<Message>): seq<seq<Byte>>
    requires forall m <- ms :: Framable(m)
  {
    seq(|ms|, i requires 0 <= i < |ms| => Frame(ms[i]))
  }

  predicate StrictPrefixOfFrame(tail: seq<Byte>, m: Message)
    requires Framable(m)
  {
    |tail| < |Frame(m)| && tail == Frame(m)[..|tail|]
  }

  /** Printing any messages and parsing them back, with an incomplete one behind, gives them back in order. */
  lemma {:induction false} FramesRoundTrip(ms: seq<Message>, tail: seq<Byte>, last: Message)
    requires (forall m <- ms :: Framable(m)) && Framable(last) && StrictPrefixOfFrame(tail, last)
    ensures Parse(Flatten(Frames(ms)) + tail) == Parsed(Frames(ms), tail, false)
    decreases |ms|
  {
    if ms == [] {
      FrameRoundTrip(last);
      assert Flatten(Frames(ms)) + tail == tail;
      if |tail| >= HEADER_SIZE {
        assert ReadU16(tail, 0) == ReadU16(Frame(last), 0);
      }
    } else {
      var f, later := Frame(ms[0]), Flatten(Frames(ms[1..])) + tail;
      FrameRoundTrip(ms[0]);
      assert Frames(ms)[0] == f && Frames(ms)[1..] == Frames(ms[1..]);
      var s := Flatten(Frames(ms)) + tail;
      assert s == f + later;
      assert ReadU16(s, 0) == ReadU16(f, 0);
      assert s[..|f|] == f && s[|f|..] == later;
      FramesRoundTrip(ms[1..], tail, last);
    }
  }

  /** A stream on which the loop never advances. */
  lemma ZeroSizeHangs(s: seq<Byte>)
    requires |s| >= HEADER_SIZE
    ensures Parse([0, 0, 7, 0] + s).hung && Parse([0, 0, 7, 0] + s).packets == []
  {
    assert ReadU16([0, 0, 7, 0] + s, 0) == 0;
  }

  /** Offsets of headers from start on: each is the one before plus the size it states, all inside the stream. */
  predicate HeadersAt(s: seq<Byte>, start: nat, at: seq<nat>) {
    && at != [] && at[0] == start
    && forall i :: 0 <= i < |at| - 1 ==> NextHeader(s, at[i], at[i + 1])
  }

  predicate NextHeader(s: seq<Byte>, at: nat, next: nat) {
    at + HEADER_SIZE <= |s| && 0 < ReadU16(s, at) && next == at + ReadU16(s, at) <= |s|
  }

  predicate IsZeroSize(s: seq<Byte>, at: nat) {
    at + HEADER_SIZE <= |s| && ReadU16(s, at) == 0
  }

  /** Following the sizes from the first header leads to one that states 0. */
  ghost predicate LeadsToZeroSize(s: seq<Byte>) {
    exists at: seq<nat> :: HeadersAt(s, 0, at) && IsZeroSize(s, at[|at| - 1])
  }

  /** The parse from an offset on, in terms of the bytes there. */
  lemma HungFrom(s: seq<Byte>, start: nat)
    requires start <= |s|
    ensures Parse(s[start..]).hung <==>
            || IsZeroSize(s, start)
            || (|s| - start >= HEADER_SIZE && NextHeader(s, start, start + ReadU16(s, start)) &&
                Parse(s[start + ReadU16(s, start)..]).hung)
  {
    if |s| - start >= HEADER_SIZE {
      var n := ReadU16(s, start);
      assert ReadU16(s[start..], 0) == n;
      if n <= |s| - start {
        assert s[start..][n..] == s[start + n..];
      }
    }
  }

  lemma {:induction false} HungHasZeroSize(s: seq<Byte>, start: nat) returns (at: seq<nat>)
    requires start <= |s| && Parse(s[start..]).hung
    ensures HeadersAt(s, start, at) && IsZeroSize(s, at[|at| - 1])
    decreases |s| - start
  {
    HungFrom(s, start);
    if IsZeroSize(s, start) {
      at := [start];
    } else {
      var later := HungHasZeroSize(s, start + ReadU16(s, start));
      at := [start] + later;
    }
  }

  lemma {:induction false} ZeroSizeIsMet(s: seq<Byte>, start: nat, at: seq<nat>)
    requires start <= |s| && HeadersAt(s, start, at) && IsZeroSize(s, at[|at| - 1])
    ensures Parse(s[start..]).hung
    decreases |at|
  {
    HungFrom(s, start);
    if |at| > 1 {
      assert NextHeader(s, at[0], at[1]);
      ZeroSizeIsMet(s, at[1], at[1..]);
    }
  }

  /** OnRecv's loop never ends exactly when the sizes in the stream lead to a header that states 0. */
  lemma HangsIffZeroSizeMet(s: seq<Byte>)
    ensures Parse(s).hung <==> LeadsToZeroSize(s)
  {
    assert s[0..] == s;
    if Parse(s).hung {
      var at := HungHasZeroSize(s, 0);
    }
    if at: seq<nat> :| HeadersAt(s, 0, at) && IsZeroSize(s, at[|at| - 1]) {
      ZeroSizeIsMet(s, 0, at);
    }
  }
}
