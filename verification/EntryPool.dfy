// The block allocator behind the database records: blocks of 1024 zeroed slots, handed out
// from the top of the newest block downwards.
module EntryPool {
  import opened HashIndex

  const POOL_BLOCK_SIZE: nat := 1024

  class PoolBlock {
    const entries: seq<FsEntry>
    const next: PoolBlock?

    constructor (next: PoolBlock?)
      ensures this.next == next
      ensures |entries| == POOL_BLOCK_SIZE && NoDuplicates(entries) && fresh(entries)
    {
      var zeroed: seq<FsEntry> := [];
      while |zeroed| < POOL_BLOCK_SIZE
        invariant |zeroed| <= POOL_BLOCK_SIZE && fresh(zeroed) && NoDuplicates(zeroed)
      {
        var e := new FsEntry.Zeroed();
        zeroed := zeroed + [e];
      }
      this.entries, this.next := zeroed, next;
    }
  }

  ghost function Reverse(s: seq<FsEntry>): (r: seq<FsEntry>)
    ensures |r| == |s|
    ensures forall k :: 0 <= k < |s| ==> r[k] == s[|s| - 1 - k]
  {
    if s == [] then [] else Reverse(s[1..]) + [s[0]]
  }

  /** All slots of these blocks (newest block first) in the order they are handed out. */
  ghost function SlotsOf(blocks: seq<PoolBlock>): seq<FsEntry> {
    if blocks == [] then [] else SlotsOf(blocks[1..]) + Reverse(blocks[0].entries)
  }

  ghost function FirstOf(blocks: seq<PoolBlock>): PoolBlock? {
    if blocks == [] then null else blocks[0]
  }

  /** The blocks form the linked list that starts at the first one. */
  ghost predicate Chained(blocks: seq<PoolBlock>) {
    blocks == [] || (blocks[0].next == FirstOf(blocks[1..]) && Chained(blocks[1..]))
  }

  class Pool {
    var head: PoolBlock?
    var freeCount: nat
    ghost var blocks: seq<PoolBlock>   // newest first
    ghost var slots: seq<FsEntry>      // every slot, in the order they are handed out

    ghost predicate Valid()
      reads this
    {
      && head == FirstOf(blocks) && Chained(blocks)
      && (forall b :: b in blocks ==> |b.entries| == POOL_BLOCK_SIZE)
      && |slots| == POOL_BLOCK_SIZE * |blocks| && slots == SlotsOf(blocks)
      && freeCount <= (if blocks == [] then 0 else POOL_BLOCK_SIZE)
      && NoDuplicates(slots)
    }

    /** The slots handed out so far, in order. */
    ghost function Used(): (u: seq<FsEntry>)
      reads this
      requires Valid()
      ensures |u| == POOL_BLOCK_SIZE * |blocks| - freeCount
      ensures NoDuplicates(u)
    {
      slots[..|slots| - freeCount]
    }

    constructor ()
      ensures Valid() && Used() == [] && slots == []
    {
      head, freeCount, blocks, slots := null, 0, [], [];
    }

    method AllocateBlock(granted: bool) returns (ok: bool)
      requires Valid() && freeCount == 0
      modifies this
      ensures Valid() && ok == granted
      ensures !ok ==> slots == old(slots) && freeCount == 0
      ensures ok ==> freeCount == POOL_BLOCK_SIZE && |slots| == POOL_BLOCK_SIZE + |old(slots)|
      ensures ok ==> slots[..|old(slots)|] == old(slots) && fresh(slots[|old(slots)|..])
    {
      if !granted {
        return false;
      }
      var block := new PoolBlock(head);
      ghost var oldBlocks := blocks;
      head := block;
      freeCount := freeCount + POOL_BLOCK_SIZE;
      blocks, slots := [block] + blocks, slots + Reverse(block.entries);
      assert blocks[1..] == oldBlocks;
      return true;
    }

    /** Hands out the next slot, asking for a new block only when the head block is used up. */
    method Take(granted: bool) returns (e: FsEntry?)
      requires Valid()
      modifies this
      ensures Valid()
      ensures e == null <==> old(freeCount) == 0 && !granted
      ensures e == null ==> Used() == old(Used()) && slots == old(slots) && freeCount == old(freeCount)
      ensures e != null ==> Used() == old(Used()) + [e] && e !in old(Used()) && freeCount < POOL_BLOCK_SIZE
      ensures e != null ==> e in slots && (e in old(slots) || fresh(e)) && blocks != []
      ensures forall k :: 0 <= k < |slots| ==> slots[k] in old(slots) || fresh(slots[k])
    {
      if freeCount == 0 {
        var ok := AllocateBlock(granted);
        if !ok {
          return null;
        }
        assert slots == old(slots) + slots[|old(slots)|..];
      }
      assert head.entries[freeCount - 1] == Reverse(head.entries)[POOL_BLOCK_SIZE - freeCount]
          == slots[|slots| - freeCount];
      freeCount := freeCount - 1;
      e := head.entries[freeCount];
    }

    method GiveBack()
      requires Valid() && blocks != [] && freeCount < POOL_BLOCK_SIZE
      modifies this
      ensures Valid() && Used() == old(Used())[..|old(Used())| - 1] && slots == old(slots)
      ensures freeCount == old(freeCount) + 1
    {
      freeCount := freeCount + 1;
    }
  }
}
