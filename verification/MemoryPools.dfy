/** The size-class table and the blocks that go in and out of its pools. */
module MemoryPools {
  import opened Options

  const MAX_ALLOC_SIZE := 4096
  const POOL_COUNT := 1024 / 32 + 1024 / 128 + 2048 / 256

  /** A pool is known by the size of its blocks; a table entry nothing was stored in is None. */
  type PoolSize = nat
  type Table = seq<Option<PoolSize>>

  predicate IsSmallestFitting(pools: seq<PoolSize>, size: nat, p: PoolSize) {
    p in pools && size <= p && forall q <- pools :: size <= q ==> p <= q
  }

  /** The entries below n name the smallest pool that fits, those from n on nothing. */
  predicate FilledTo(table: Table, pools: seq<PoolSize>, n: nat) {
    && n <= |table|
    && (forall p <- pools :: p < n)
    && (forall i :: 0 <= i < n ==> table[i].Some? && IsSmallestFitting(pools, i, table[i].value))
    && (forall i :: n <= i < |table| ==> table[i].None?)
  }

  /** The pool sizes one loop adds: size, size + step, ... up to limit. */
  function StageSizes(size: nat, limit: nat, step: nat): seq<PoolSize>
    requires step > 0
    decreases limit - size
  {
    if size > limit then [] else [size] + StageSizes(size + step, limit, step)
  }

  /** Where size stands when the loop ends. */
  function StageEnd(size: nat, limit: nat, step: nat): (r: nat)
    requires step > 0
    ensures r > limit && r >= size
    decreases limit - size
  {
    if size > limit then size else StageEnd(size + step, limit, step)
  }

  /** Where size stands after n rounds of a loop. */
  function Advanced(size: nat, step: nat, n: nat): (r: nat)
    ensures r >= size
    decreases n
  {
    if n == 0 then size else Advanced(size + step, step, n - 1)
  }

  lemma {:induction false} AdvancedIs(size: nat, step: nat, n: nat)
    ensures Advanced(size, step, n) == size + n * step
    decreases n
  {
    if n > 0 {
      AdvancedIs(size + step, step, n - 1);
      assert n * step == (n - 1) * step + step;
    }
  }

  lemma {:induction false} StageInSteps(size: nat, limit: nat, step: nat, n: nat)
    requires step > 0 && n > 0 && Advanced(size, step, n - 1) <= limit < Advanced(size, step, n)
    ensures |StageSizes(size, limit, step)| == n && StageEnd(size, limit, step) == Advanced(size, step, n)
    ensures StageSizes(size, limit, step)[n - 1] == Advanced(size, step, n - 1)
    decreases n
  {
    if n == 1 {
      assert StageSizes(size + step, limit, step) == [];
    } else {
      StageInSteps(size + step, limit, step, n - 1);
    }
  }

  /** The same with the rounds counted by multiplication. */
  lemma StageIs(size: nat, limit: nat, step: nat, n: nat)
    requires step > 0 && n > 0 && size + (n - 1) * step <= limit < size + n * step
    ensures |StageSizes(size, limit, step)| == n && StageEnd(size, limit, step) == size + n * step
    ensures StageSizes(size, limit, step)[n - 1] == size + (n - 1) * step
  {
    AdvancedIs(size, step, n - 1);
    AdvancedIs(size, step, n);
    StageInSteps(size, limit, step, n);
  }

  /** A loop's bound and stride; the constructor runs three of them on one running size. */
  datatype Stage = Stage(limit: nat, step: nat)

  const SMALLEST := 32
  const FINE := Stage(1024, 32)
  const MEDIUM := Stage(2048, 128)
  const COARSE := Stage(4096, 256)

  function StagePools(size: nat, stage: Stage): seq<PoolSize>
    requires stage.step > 0
  {
    StageSizes(size, stage.limit, stage.step)
  }

  function AfterStage(size: nat, stage: Stage): nat
    requires stage.step > 0
  {
    StageEnd(size, stage.limit, stage.step)
  }

  function AllPools(): seq<PoolSize> {
    var second := AfterStage(SMALLEST, FINE);
    var third := AfterStage(second, MEDIUM);
    StagePools(SMALLEST, FINE) + StagePools(second, MEDIUM) + StagePools(third, COARSE)
  }

  /** The loops carry size over (1056, then 2080), so the largest pool is 3872, not 4096. */
  lemma PoolsEndAt3872()
    ensures |AllPools()| == POOL_COUNT && AllPools()[POOL_COUNT - 1] == 3872
    ensures AfterStage(SMALLEST, FINE) == 1056 && AfterStage(1056, MEDIUM) == 2080
  {
    StageIs(SMALLEST, FINE.limit, FINE.step, 32);
    StageIs(1056, MEDIUM.limit, MEDIUM.step, 8);
    StageIs(2080, COARSE.limit, COARSE.step, 8);
  }

  // ---------------------------------------------------------------- blocks

  type Block = nat

  /**
   origin is the size a block was obtained with from the system, header its `allocSize` field (0 while it
   waits in a pool), free each pool's list.
   */
  datatype Blocks = Blocks(origin: map<Block, nat>, header: map<Block, nat>, free: map<PoolSize, seq<Block>>)

  const NO_BLOCKS := Blocks(map[], map[], map[])

  /** Unfilled: the table entry looked up was never stored. */
  datatype Outcome = Done(blocks: Blocks, block: Block) | Crash | Unfilled

  function FreeList(s: Blocks, p: PoolSize): seq<Block> {
    if p in s.free then s.free[p] else []
  }

  /** MemoryPool::Pop, with fresh the address malloc answers when the pool is empty. */
  function PopBlock(s: Blocks, p: PoolSize, fresh_: Block): Outcome {
    var list := FreeList(s, p);
    if list == [] then Done(s.(origin := s.origin[fresh_ := p]), fresh_)
    else if list[0] in s.header && s.header[list[0]] != 0 then Crash
    else Done(s.(free := s.free[p := list[1..]]), list[0])
  }

  /** allocSize is the size asked for plus the header's. */
  function Allocate(s: Blocks, table: Table, allocSize: nat, fresh_: Block): Outcome
    requires |table| == MAX_ALLOC_SIZE + 1
  {
    var got :=
      if allocSize > MAX_ALLOC_SIZE then Done(s.(origin := s.origin[fresh_ := allocSize]), fresh_)
      else if table[allocSize].None? then Unfilled
      else PopBlock(s, table[allocSize].value, fresh_);
    if got.Done? then Done(got.blocks.(header := got.blocks.header[got.block := allocSize]), got.block) else got
  }

  function Release(s: Blocks, table: Table, b: Block): Outcome
    requires |table| == MAX_ALLOC_SIZE + 1 && b in s.header
  {
    var allocSize := s.header[b];
    if allocSize == 0 then Crash
    else if allocSize > MAX_ALLOC_SIZE then Done(s.(origin := s.origin - {b}, header := s.header - {b}), b)
    else if table[allocSize].None? then Unfilled
    else
      var p := table[allocSize].value;
      Done(s.(header := s.header[b := 0], free := s.free[p := [b] + FreeList(s, p)]), b)
  }

  predicate Live(s: Blocks, b: Block) {
    b in s.header && s.header[b] > 0
  }

  /** A pooled live block is one of its own pool's; a large one was obtained for its own size. */
  predicate AtHome(s: Blocks, table: Table, b: Block)
    requires |table| == MAX_ALLOC_SIZE + 1 && b in s.header
  {
    b in s.origin && s.header[b] > 0 ==>
      if s.header[b] > MAX_ALLOC_SIZE then s.origin[b] == s.header[b] else table[s.header[b]] == Some(s.origin[b])
  }

  predicate NoRepeats(list: seq<Block>) {
    forall i, j :: 0 <= i < j < |list| ==> list[i] != list[j]
  }

  /** Free lists hold only blocks of their own size that nobody uses, each once. */
  predicate FreeSound(s: Blocks) {
    && (forall p <- s.free :: NoRepeats(s.free[p]))
    && (forall p <- s.free, b <- s.free[p] :: b in s.header && b in s.origin && s.header[b] == 0 && s.origin[b] == p)
  }

  predicate Sound(s: Blocks, table: Table)
    requires |table| == MAX_ALLOC_SIZE + 1
  {
    && s.header.Keys == s.origin.Keys
    && (forall b <- s.header :: AtHome(s, table, b))
    && (forall b <- s.header :: s.header[b] == 0 ==> b in FreeList(s, s.origin[b]))
    && FreeSound(s)
  }

  /** A block handed out is a fresh one or the head of its pool's list; either way nobody used it. */
  lemma PopGivesUnused(s: Blocks, table: Table, p: PoolSize, fresh_: Block)
    requires |table| == MAX_ALLOC_SIZE + 1 && Sound(s, table) && fresh_ !in s.header
    ensures var r := PopBlock(s, p, fresh_);
            r.Done? && !Live(s, r.block) && r.blocks.header == s.header && r.blocks.origin == s.origin[r.block := p]
  {
    var list := FreeList(s, p);
    if list != [] {
      assert list[0] in s.free[p];
      assert s.origin == s.origin[list[0] := p];
    }
  }

  lemma PopKeepsFreeSound(s: Blocks, table: Table, p: PoolSize, fresh_: Block)
    requires |table| == MAX_ALLOC_SIZE + 1 && Sound(s, table) && fresh_ !in s.header
    ensures var r := PopBlock(s, p, fresh_);
            && r.Done?
            && (forall q <- r.blocks.free :: NoRepeats(r.blocks.free[q]))
            && forall q: PoolSize, b <- FreeList(s, q) :: b != r.block <==> b in FreeList(r.blocks, q)
    ensures forall q: PoolSize, b <- FreeList(PopBlock(s, p, fresh_).blocks, q) :: b in FreeList(s, q)
  {
    var r := PopBlock(s, p, fresh_);
    var list := FreeList(s, p);
    if list != [] {
      assert list[0] in s.free[p];
      assert forall b <- list[1..] :: b in list && b != list[0];
      assert forall b <- list :: b == list[0] || b in list[1..];
    }
  }

  /** Taking b off its free list (t) and writing its header leaves everything sound. */
  lemma TakenKeepsSound(s: Blocks, table: Table, p: PoolSize, t: Blocks, b: Block, allocSize: nat)
    requires |table| == MAX_ALLOC_SIZE + 1 && Sound(s, table) && !Live(s, b)
    requires t.header == s.header && t.origin == s.origin[b := p]
    requires 0 < allocSize <= MAX_ALLOC_SIZE && table[allocSize] == Some(p)
    requires forall q <- t.free :: NoRepeats(t.free[q])
    requires forall q: PoolSize, x <- FreeList(s, q) :: x != b <==> x in FreeList(t, q)
    requires forall q: PoolSize, x <- FreeList(t, q) :: x in FreeList(s, q)
    ensures Sound(t.(header := t.header[b := allocSize]), table)
  {
    var u := t.(header := t.header[b := allocSize]);
    forall q <- u.free, x <- u.free[q] ensures x in u.header && x in u.origin && u.header[x] == 0 && u.origin[x] == q {
      assert x in FreeList(t, q) && x in FreeList(s, q);
    }
    forall x <- u.header | u.header[x] == 0 ensures x in FreeList(u, u.origin[x]) {
      assert x in FreeList(s, s.origin[x]);
    }
  }

  lemma AllocateKeepsSound(s: Blocks, table: Table, allocSize: nat, fresh_: Block)
    requires |table| == MAX_ALLOC_SIZE + 1 && Sound(s, table) && fresh_ !in s.header && allocSize > 0
    ensures var r := Allocate(s, table, allocSize, fresh_);
            && !r.Crash?
            && (r.Done? ==> Sound(r.blocks, table) && !Live(s, r.block) && Live(r.blocks, r.block))
            && (r.Unfilled? <==> allocSize <= MAX_ALLOC_SIZE && table[allocSize].None?)
  {
    var r := Allocate(s, table, allocSize, fresh_);
    if r.Done? && allocSize <= MAX_ALLOC_SIZE {
      var p := table[allocSize].value;
      PopGivesUnused(s, table, p, fresh_);
      PopKeepsFreeSound(s, table, p, fresh_);
      TakenKeepsSound(s, table, p, PopBlock(s, p, fresh_).blocks, r.block, allocSize);
    }
  }

  lemma ReleaseKeepsSound(s: Blocks, table: Table, b: Block)
    requires |table| == MAX_ALLOC_SIZE + 1 && Sound(s, table) && b in s.header
    ensures var r := Release(s, table, b);
            && !r.Unfilled?
            && (r.Crash? <==> !Live(s, b))
            && (r.Done? ==> Sound(r.blocks, table))
            && (r.Done? && s.header[b] <= MAX_ALLOC_SIZE ==>
                  r.blocks.free == s.free[s.origin[b] := [b] + FreeList(s, s.origin[b])])
  {
    assert AtHome(s, table, b);
  }

  /**
   Where a block comes from: the head of its pool's list while there is one, and the system only when there is none,
   or when the size is too large for any pool.
   */
  lemma AllocateReuses(s: Blocks, table: Table, allocSize: nat, fresh_: Block)
    requires |table| == MAX_ALLOC_SIZE + 1 && Sound(s, table) && fresh_ !in s.header && allocSize > 0
    requires allocSize <= MAX_ALLOC_SIZE ==> table[allocSize].Some?
    ensures
      var r := Allocate(s, table, allocSize, fresh_);
      && r.Done? && r.blocks.header == s.header[r.block := allocSize]
      && if allocSize <= MAX_ALLOC_SIZE && FreeList(s, table[allocSize].value) != [] then
           var p := table[allocSize].value;
           && [r.block] + FreeList(r.blocks, p) == FreeList(s, p) && r.blocks.origin == s.origin
           && forall q: PoolSize :: q != p ==> FreeList(r.blocks, q) == FreeList(s, q)
         else
           && r.block == fresh_ && r.blocks.free == s.free
           && r.blocks.origin ==
              s.origin[fresh_ := if allocSize > MAX_ALLOC_SIZE then allocSize else table[allocSize].value]
  {
    if allocSize <= MAX_ALLOC_SIZE {
      PopGivesUnused(s, table, table[allocSize].value, fresh_);
    }
  }

  /** The next request a pool serves gets the block released to it last; a large block goes back to the system. */
  lemma ReleasedIsNext(s: Blocks, table: Table, b: Block, allocSize: nat, fresh_: Block)
    requires |table| == MAX_ALLOC_SIZE + 1 && Sound(s, table) && b in s.header && Live(s, b)
    ensures Release(s, table, b).Done?
    ensures
      var after := Release(s, table, b).blocks;
      if s.header[b] > MAX_ALLOC_SIZE then
        after.origin == s.origin - {b} && after.header == s.header - {b} && after.free == s.free
      else
        && b in s.origin && after.origin == s.origin && after.header == s.header[b := 0]
        && (0 < allocSize <= MAX_ALLOC_SIZE && table[allocSize] == Some(s.origin[b]) && fresh_ !in s.header ==>
              Allocate(after, table, allocSize, fresh_).Done? && Allocate(after, table, allocSize, fresh_).block == b)
  {
    assert AtHome(s, table, b);
    ReleaseKeepsSound(s, table, b);
  }

  // ---------------------------------------------------------------- runs

  datatype Event = Alloc(allocSize: nat, fresh_: Block) | Free(b: Block)

  predicate Allowed(s: Blocks, e: Event) {
    match e
    case Alloc(allocSize, fresh_) => allocSize > 0 && fresh_ !in s.header
    case Free(b) => b in s.header
  }

  function Step(s: Blocks, table: Table, e: Event): Outcome
    requires |table| == MAX_ALLOC_SIZE + 1 && Allowed(s, e)
  {
    match e
    case Alloc(allocSize, fresh_) => Allocate(s, table, allocSize, fresh_)
    case Free(b) => Release(s, table, b)
  }

  ghost predicate Runs(s: Blocks, table: Table, events: seq<Event>, s': Blocks)
    requires |table| == MAX_ALLOC_SIZE + 1
    decreases |events|
  {
    if events == [] then s' == s
    else
      && Allowed(s, events[0]) && Step(s, table, events[0]).Done?
      && Runs(Step(s, table, events[0]).blocks, table, events[1..], s')
  }

  lemma {:induction false} RunsStaySound(s: Blocks, table: Table, events: seq<Event>, s': Blocks)
    requires |table| == MAX_ALLOC_SIZE + 1 && Sound(s, table) && Runs(s, table, events, s')
    ensures Sound(s', table)
    decreases |events|
  {
    if events != [] {
      match events[0] {
        case Alloc(allocSize, fresh_) => AllocateKeepsSound(s, table, allocSize, fresh_);
        case Free(b) => ReleaseKeepsSound(s, table, b);
      }
      RunsStaySound(Step(s, table, events[0]).blocks, table, events[1..], s');
    }
  }

  /**
   In every run: a block handed out was not in use, holds what was asked for, and going back lands in the pool
   it came from; releasing a pooled block a second time crashes; and the only requests that find no pool are
   those above the largest pool and not above the malloc threshold.
   */
  lemma BlocksComeAndGo(table: Table, pools: seq<PoolSize>, n: nat, events: seq<Event>, s: Blocks)
    requires |table| == MAX_ALLOC_SIZE + 1 && FilledTo(table, pools, n) && Runs(NO_BLOCKS, table, events, s)
    ensures forall allocSize: nat, fresh_: Block :: allocSize > 0 && fresh_ !in s.header ==>
              var r := Allocate(s, table, allocSize, fresh_);
              && (r.Done? <==> allocSize < n || allocSize > MAX_ALLOC_SIZE)
              && (r.Done? ==> !Live(s, r.block) && r.block in r.blocks.origin && r.blocks.origin[r.block] >= allocSize)
    ensures forall b <- s.header ::
              var r := Release(s, table, b);
              && (r.Done? <==> Live(s, b))
              && (r.Done? && s.header[b] <= MAX_ALLOC_SIZE ==>
                    b in s.origin && FreeList(r.blocks, s.origin[b]) == [b] + FreeList(s, s.origin[b]))
  {
    RunsStaySound(NO_BLOCKS, table, events, s);
    forall allocSize: nat, fresh_: Block | allocSize > 0 && fresh_ !in s.header
      ensures var r := Allocate(s, table, allocSize, fresh_);
              && (r.Done? <==> allocSize < n || allocSize > MAX_ALLOC_SIZE)
              && (r.Done? ==> !Live(s, r.block) && r.block in r.blocks.origin && r.blocks.origin[r.block] >= allocSize)
    {
      AllocateKeepsSound(s, table, allocSize, fresh_);
      var r := Allocate(s, table, allocSize, fresh_);
      if r.Done? {
        assert AtHome(r.blocks, table, r.block);
      }
    }
    forall b | b in s.header
      ensures var r := Release(s, table, b);
              && (r.Done? <==> Live(s, b))
              && (r.Done? && s.header[b] <= MAX_ALLOC_SIZE ==>
                    b in s.origin && FreeList(r.blocks, s.origin[b]) == [b] + FreeList(s, s.origin[b]))
    {
      ReleaseKeepsSound(s, table, b);
    }
  }
}
