/** Memory in place: the constructor's three loops, Allocate and Release. */
module Memory {
  import opened Options
  import opened MemoryPools

  class Memory {
    const poolTable: array<Option<PoolSize>>
    var pools: seq<PoolSize>
    var blocks: Blocks

    predicate Valid()
      reads this, poolTable
    {
      && poolTable.Length == MAX_ALLOC_SIZE + 1
      && FilledTo(poolTable[..], pools, 3873) && |pools| == POOL_COUNT
      && Sound(blocks, poolTable[..])
    }

    /** Exactly the entries 0 to 3872 are filled, each with the smallest pool that fits it. */
    constructor ()
      ensures Valid() && blocks == NO_BLOCKS && fresh(poolTable)
    {
      poolTable := new Option<PoolSize>[MAX_ALLOC_SIZE + 1](_ => None);
      pools, blocks := [], NO_BLOCKS;
      new;
      Fill();
    }

    method Fill()
      requires poolTable.Length == MAX_ALLOC_SIZE + 1 && pools == [] && FilledTo(poolTable[..], [], 0)
      modifies `pools, poolTable
      ensures FilledTo(poolTable[..], pools, 3873) && |pools| == POOL_COUNT
    {
      PoolsEndAt3872();
      var size, tableIndex := Run(SMALLEST, 0, FINE);
      size, tableIndex := Run(size, tableIndex, MEDIUM);
      size, tableIndex := Run(size, tableIndex, COARSE);
      assert pools == AllPools();
      assert tableIndex == 3873;
    }

    /** One of the three loops: size and tableIndex carry over to the next. */
    method Run(size0: nat, tableIndex0: nat, stage: Stage) returns (size: nat, tableIndex: nat)
      requires poolTable.Length == MAX_ALLOC_SIZE + 1 && stage.limit <= MAX_ALLOC_SIZE && stage.step > 0
      requires tableIndex0 <= size0 && FilledTo(poolTable[..], pools, tableIndex0)
      requires pools != [] ==> tableIndex0 == pools[|pools| - 1] + 1
      modifies `pools, poolTable
      ensures size == AfterStage(size0, stage) && pools == old(pools) + StagePools(size0, stage)
      ensures tableIndex <= size && FilledTo(poolTable[..], pools, tableIndex)
      ensures pools != [] ==> tableIndex == pools[|pools| - 1] + 1
    {
      var limit, step := stage.limit, stage.step;
      size, tableIndex := size0, tableIndex0;
      while size <= limit
        invariant StageEnd(size, limit, step) == StageEnd(size0, stage.limit, stage.step)
        invariant pools + StageSizes(size, limit, step) == old(pools) + StageSizes(size0, stage.limit, stage.step)
        invariant tableIndex <= size && FilledTo(poolTable[..], pools, tableIndex)
        invariant pools != [] ==> tableIndex == pools[|pools| - 1] + 1
        decreases limit - size
      {
        ghost var before, known := poolTable[..], pools;
        var first := tableIndex;
        while tableIndex <= size
          invariant first <= tableIndex <= size + 1 && pools == known
          invariant forall i :: 0 <= i < poolTable.Length ==>
                      poolTable[i] == if first <= i < tableIndex then Some(size) else before[i]
        {
          poolTable[tableIndex] := Some(size);
          tableIndex := tableIndex + 1;
        }
        OnePoolMore(before, poolTable[..], pools, first, size);
        assert (pools + [size]) + StageSizes(size + step, limit, step) == pools + StageSizes(size, limit, step);
        pools := pools + [size];
        size := size + step;
      }
    }

    /** malloced is the address the system answers if it is asked. */
    method Allocate(allocSize: nat, malloced: Block) returns (unfilled: bool, block: Block)
      requires Valid() && allocSize > 0 && malloced !in blocks.header
      modifies `blocks
      ensures unfilled <==> 3872 < allocSize <= MAX_ALLOC_SIZE
      ensures unfilled ==> blocks == old(blocks)
      ensures !unfilled ==>
                Valid() && MemoryPools.Allocate(old(blocks), poolTable[..], allocSize, malloced) == Done(blocks, block)
    {
      AllocateKeepsSound(blocks, poolTable[..], allocSize, malloced);
      unfilled, block := false, malloced;
      if allocSize > MAX_ALLOC_SIZE {
        blocks := blocks.(origin := blocks.origin[malloced := allocSize]);
      } else {
        if poolTable[allocSize].None? {
          unfilled := true;
          return;
        }
        block := Pop(poolTable[allocSize].value, malloced);
      }
      blocks := blocks.(header := blocks.header[block := allocSize]);
    }

    /** MemoryPool::Pop; its assertion that a pooled block is unused always holds. */
    method Pop(pool: PoolSize, malloced: Block) returns (block: Block)
      requires Valid()
      modifies `blocks
      ensures PopBlock(old(blocks), pool, malloced) == Done(blocks, block)
    {
      var list := FreeList(blocks, pool);
      if list == [] {
        block := malloced;
        blocks := blocks.(origin := blocks.origin[malloced := pool]);
      } else {
        block := list[0];
        assert list[0] in blocks.free[pool];
        blocks := blocks.(free := blocks.free[pool := list[1..]]);
      }
    }

    method Release(block: Block) returns (crash: bool)
      requires Valid() && block in blocks.header
      modifies `blocks
      ensures crash <==> !Live(old(blocks), block)
      ensures crash ==> blocks == old(blocks)
      ensures !crash ==> Valid() && MemoryPools.Release(old(blocks), poolTable[..], block) == Done(blocks, block)
    {
      ReleaseKeepsSound(blocks, poolTable[..], block);
      var allocSize := blocks.header[block];
      crash := allocSize == 0;
      if crash {
        return;
      }
      if allocSize > MAX_ALLOC_SIZE {
        blocks := blocks.(origin := blocks.origin - {block}, header := blocks.header - {block});
      } else {
        var pool := poolTable[allocSize].value;
        blocks := blocks.(header := blocks.header[block := 0],
                          free := blocks.free[pool := [block] + FreeList(blocks, pool)]);
      }
    }
  }

  lemma OnePoolMore(before: Table, after: Table, pools: seq<PoolSize>, n: nat, size: nat)
    requires FilledTo(before, pools, n) && n <= size < |before| == |after|
    requires forall i :: 0 <= i < |after| ==> after[i] == if n <= i <= size then Some(size) else before[i]
    ensures FilledTo(after, pools + [size], size + 1)
  {
    forall i | 0 <= i <= size ensures after[i].Some? && IsSmallestFitting(pools + [size], i, after[i].value) {
      if i < n {
        assert IsSmallestFitting(pools, i, before[i].value);
      }
    }
  }
}
