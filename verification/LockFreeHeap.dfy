/**
  The fixed-size block heap of airplay/threads/LockFree.cpp (lines 84-158) as one thread runs it undisturbed:
  the arithmetic that cuts a chunk into blocks, and the free list those blocks go to.  What other threads may do
  in between is the subject of TaggedStack and LockFreeQueue.

  Sizes are those of the 32-bit targets the double-word form is written for.
*/
module LockFreeHeap {
  import opened TaggedStack

  const MIN_ALLOC: nat := 4096
  const CHUNK_HEADER: nat := 8       // sizeof(lf_heap_chunk)
  const NODE_SIZE: nat := 8          // sizeof(lf_node)

  /** lf_heap_chunk: where malloc put it and how many bytes it has, header included. */
  datatype Chunk = Chunk(address: Ptr, size: nat)

  /** Lines 106-110: the number of blocks of a chunk for at least `size` bytes. */
  function BlockCount(size: nat, blockSize: nat): nat
    requires blockSize > 0
  {
    var wanted := if size < MIN_ALLOC - CHUNK_HEADER then MIN_ALLOC - CHUNK_HEADER else size;
    wanted / blockSize + if wanted % blockSize != 0 then 1 else 0
  }

  /** At least a page, at least what was asked for, in whole blocks, and no block more than that takes. */
  lemma BlockCountRoundsUp(size: nat, blockSize: nat)
    requires blockSize > 0
    ensures var wanted := if size < 4096 - 8 then 4096 - 8 else size;
      wanted <= BlockCount(size, blockSize) * blockSize < wanted + blockSize && BlockCount(size, blockSize) > 0
  {
    var wanted := if size < MIN_ALLOC - CHUNK_HEADER then MIN_ALLOC - CHUNK_HEADER else size;
    var n := wanted / blockSize;
    assert wanted == n * blockSize + wanted % blockSize;
    assert (n + 1) * blockSize == n * blockSize + blockSize;
  }

  function MallocSize(size: nat, blockSize: nat): nat
    requires blockSize > 0
  {
    BlockCount(size, blockSize) * blockSize + CHUNK_HEADER
  }

  function BlockAt(address: Ptr, blockSize: nat, k: nat): Ptr {
    address + CHUNK_HEADER + k * blockSize
  }

  /** The blocks lf_heap_grow pushes for a chunk, in the order it pushes them. */
  function ChunkBlocks(address: Ptr, blockSize: nat, count: nat): (blocks: seq<Ptr>)
  {
    seq(count, k requires 0 <= k < count => BlockAt(address, blockSize, k))
  }

  /** The byte ranges [a, a + blockSize) and [b, b + blockSize) have no byte in common. */
  predicate Apart(a: Ptr, b: Ptr, blockSize: nat) {
    a + blockSize <= b || b + blockSize <= a
  }

  lemma BlocksAreApart(address: Ptr, blockSize: nat, count: nat, j: nat, k: nat)
    requires j < k < count
    ensures Apart(BlockAt(address, blockSize, j), BlockAt(address, blockSize, k), blockSize)
    ensures BlockAt(address, blockSize, j) + blockSize <= BlockAt(address, blockSize, k)
  {
    assert (j + 1) * blockSize <= k * blockSize by { Monotone(j + 1, k, blockSize); }
    assert (j + 1) * blockSize == j * blockSize + blockSize;
  }

  lemma Monotone(a: nat, b: nat, c: nat)
    requires a <= b
    ensures a * c <= b * c
  {
  }

  /** The blocks of a chunk tile it: every byte behind the header is in exactly one of them, and none sticks out. */
  lemma BlocksFillChunk(address: Ptr, blockSize: nat, size: nat, byte: nat)
    requires blockSize > 0
    ensures address + 8 <= byte < address + 8 + BlockCount(size, blockSize) * blockSize
      <==> exists k: nat :: k < BlockCount(size, blockSize) && InBlock(address, blockSize, k, byte)
  {
    var count := BlockCount(size, blockSize);
    if address + CHUNK_HEADER <= byte < address + MallocSize(size, blockSize) {
      var k := OwnBlock(blockSize, count, byte - address - CHUNK_HEADER);
      assert InBlock(address, blockSize, k, byte);
    }
    if k: nat :| k < count && InBlock(address, blockSize, k, byte) {
      BlockEndsInside(blockSize, k, count);
    }
  }

  predicate InBlock(address: Ptr, blockSize: nat, k: nat, byte: nat) {
    BlockAt(address, blockSize, k) <= byte < BlockAt(address, blockSize, k) + blockSize
  }

  lemma OwnBlock(blockSize: nat, count: nat, offset: nat) returns (k: nat)
    requires blockSize > 0 && offset < count * blockSize
    ensures k < count && k * blockSize <= offset < k * blockSize + blockSize
  {
    k := offset / blockSize;
    assert offset == k * blockSize + offset % blockSize;
    if count <= k { Monotone(count, k, blockSize); }
  }

  lemma BlockEndsInside(blockSize: nat, k: nat, count: nat)
    requires k < count
    ensures k * blockSize + blockSize <= count * blockSize
  {
    Monotone(k + 1, count, blockSize);
    assert (k + 1) * blockSize == k * blockSize + blockSize;
  }

  function Reverse(s: seq<Ptr>): (r: seq<Ptr>)
    ensures |r| == |s|
  {
    if s == [] then [] else Reverse(s[1..]) + [s[0]]
  }

  lemma {:induction false} ReverseSnoc(s: seq<Ptr>, x: Ptr)
    ensures Reverse(s + [x]) == [x] + Reverse(s)
  {
    if s == [] {
      assert s + [x] == [x];
    } else {
      ReverseSnoc(s[1..], x);
      assert (s + [x])[1..] == s[1..] + [x];
    }
  }

  lemma NextPushed(blocks: seq<Ptr>, k: nat, rest: seq<Ptr>)
    requires k < |blocks|
    ensures [blocks[k]] + (Reverse(blocks[..k]) + rest) == Reverse(blocks[..k + 1]) + rest
  {
    assert blocks[..k + 1] == blocks[..k] + [blocks[k]];
    ReverseSnoc(blocks[..k], blocks[k]);
  }

  lemma {:induction false} ReverseKeepsElements(s: seq<Ptr>)
    ensures forall b :: b in Reverse(s) <==> b in s
  {
    if s != [] {
      ReverseKeepsElements(s[1..]);
      assert s == [s[0]] + s[1..];
    }
  }

  /** Every carved block lies inside a chunk, behind its header, and shares no byte with another block. */
  ghost predicate Layout(blockSize: nat, chunks: seq<Chunk>, carved: set<Ptr>) {
    && NODE_SIZE <= blockSize
    && (forall b :: b in carved ==> InSomeChunk(blockSize, chunks, b))
    && (forall a, b :: a in carved && b in carved && a != b ==> Apart(a, b, blockSize))
  }

  ghost predicate InSomeChunk(blockSize: nat, chunks: seq<Chunk>, b: Ptr) {
    exists c :: c in chunks && c.address + CHUNK_HEADER <= b && b + blockSize <= c.address + c.size
  }

  /** malloc's promise: the new chunk overlaps none of the old ones, and is not at NULL. */
  ghost predicate Unused(chunks: seq<Chunk>, chunk: Chunk) {
    && chunk.address != NULL
    && forall c :: c in chunks ==> c.address + c.size <= chunk.address || chunk.address + chunk.size <= c.address
  }

  function Elements(blocks: seq<Ptr>): (s: set<Ptr>)
    ensures forall b :: b in s <==> b in blocks
  {
    set b | b in blocks
  }

  class Heap {
    var blockSize: nat
    var chunks: seq<Chunk>          // top_chunk and its successors
    var top: Ref                    // free_list.top
    var count: int                  // free_list.count
    var next: map<Ptr, Ref>         // the first words of every block carved so far
    ghost var free: seq<Ptr>        // the free list, top first

    ghost predicate ListOk()
      reads this`next, this`top, this`count, this`free
    {
      && NULL !in next
      && Chain(next, top.ptr, free) && Distinct(free) && count == |free|
    }

    ghost predicate Valid()
      reads this
    {
      ListOk() && Layout(blockSize, chunks, next.Keys)
    }

    /** lf_stack_push without interference: the cas2 succeeds at the first try. */
    method Push(node: Ptr)
      requires ListOk() && node in next && node !in free
      modifies this`top, this`count, this`next, this`free
      ensures ListOk() && free == [node] + old(free)
      ensures top == Ref(node, old(top).version + 1) && count == old(count) + 1
      ensures next == old(next)[node := old(next)[node].(ptr := old(top).ptr)]
    {
      var oldTop := top;
      next := StorePtr(next, node, oldTop.ptr);
      top := Ref(node, oldTop.version + 1);
      free := [node] + free;
      count := count + 1;
    }

    /** lf_stack_pop without interference. */
    method Pop() returns (node: Ptr)
      requires ListOk()
      modifies this`top, this`count, this`free
      ensures ListOk()
      ensures node == NULL ==> old(free) == [] && free == [] && top == old(top) && count == old(count)
      ensures node != NULL ==> top.version == old(top).version + 1 && count == old(count) - 1
      ensures node != NULL ==> [node] + free == old(free) && node in next && node !in free
    {
      if top.ptr == NULL {
        assert free == [] by { assert At(free, 0) == NULL; }
        return NULL;
      }
      node := top.ptr;
      assert free == [node] + free[1..];
      top := Ref(next[node].ptr, top.version + 1);
      free := free[1..];
      count := count - 1;
    }

    /** The loop of lf_heap_grow: each block in turn becomes the top of the free list. */
    method PushAll(blocks: seq<Ptr>)
      requires ListOk() && Distinct(blocks)
      requires forall b :: b in blocks ==> b in next && b !in free
      modifies this`top, this`count, this`next, this`free
      ensures ListOk() && free == Reverse(blocks) + old(free) && next.Keys == old(next).Keys
    {
      ghost var free0 := free;
      assert Reverse(blocks[..0]) + free0 == free0;
      for block := 0 to |blocks|
        invariant ListOk() && next.Keys == old(next).Keys
        invariant free == Reverse(blocks[..block]) + free0
        invariant forall k :: block <= k < |blocks| ==> blocks[k] !in free
      {
        var node := blocks[block];
        assert node in old(next).Keys;
        NextPushed(blocks, block, free0);
        Push(node);
        assert next.Keys == old(next).Keys;
      }
      assert blocks[..|blocks|] == blocks;
    }

    /** lf_heap_grow: `address` is what malloc returned, `garbage` what its blocks hold at first. */
    method Grow(size: nat, address: Ptr, garbage: Ref)
      requires Valid() && Unused(chunks, Chunk(address, MallocSize(size, blockSize)))
      modifies this`chunks, this`top, this`count, this`next, this`free
      ensures Valid() && chunks == [Chunk(address, MallocSize(size, blockSize))] + old(chunks)
      ensures var blocks := ChunkBlocks(address, blockSize, BlockCount(size, blockSize));
        && free == Reverse(blocks) + old(free)
        && next.Keys == old(next).Keys + Elements(blocks)
        && (forall b :: b in blocks ==> b !in old(next))
    {
      var blockCount := BlockCount(size, blockSize);
      var blocks := ChunkBlocks(address, blockSize, blockCount);
      NewBlocks(blockSize, address, blockCount, chunks, next.Keys);
      ghost var carved := next.Keys + Elements(blocks);
      Carve(blocks, garbage);
      PushAll(blocks);
      chunks := [Chunk(address, MallocSize(size, blockSize))] + chunks;
      assert next.Keys == carved;
    }

    /** The memory malloc returned becomes addressable. */
    method Carve(blocks: seq<Ptr>, garbage: Ref)
      requires ListOk() && forall b :: b in blocks ==> b != NULL && b !in next
      modifies this`next
      ensures ListOk() && next.Keys == old(next).Keys + Elements(blocks)
      ensures forall b :: b in blocks ==> b in next && b !in free
    {
      next := next + map b | b in blocks :: garbage;
    }

    /** lf_heap_init: a block holds at least a free-list node, and the first chunk at least ten blocks. */
    constructor Init(wantedBlockSize: nat, initialSize: nat, address: Ptr, garbage: Ref)
      requires address != NULL
      ensures Valid() && blockSize == (if wantedBlockSize < 8 then 8 else wantedBlockSize)
      ensures |free| >= 10 && |chunks| == 1 && next.Keys == Elements(free)
      ensures |free| * blockSize >= initialSize && free == Reverse(ChunkBlocks(address, blockSize, |free|))
    {
      var size := if wantedBlockSize < NODE_SIZE then NODE_SIZE else wantedBlockSize;
      blockSize := size;
      chunks, top, count, next, free := [], Ref(NULL, 0), 0, map[], [];
      new;
      Grow(if initialSize < 10 * size then 10 * size else initialSize, address, garbage);
      BlockCountRoundsUp(if initialSize < 10 * size then 10 * size else initialSize, size);
      TenBlocks(size, if initialSize < 10 * size then 10 * size else initialSize);
      ReverseKeepsElements(ChunkBlocks(address, blockSize, |free|));
    }

    /**
      lf_heap_alloc, with the chunk malloc would return if the list is empty: never NULL, a block that was free or
      has just been carved, and is on the free list no more.
    */
    method Alloc(address: Ptr, garbage: Ref) returns (p: Ptr)
      requires Valid() && Unused(chunks, Chunk(address, MallocSize(0, blockSize)))
      modifies this`chunks, this`top, this`count, this`next, this`free
      ensures Valid() && p != NULL && p in next && p !in free
      ensures old(free) != [] ==> [p] + free == old(free) && next == old(next) && chunks == old(chunks)
      ensures old(free) == [] ==>
        [p] + free == Reverse(ChunkBlocks(address, blockSize, BlockCount(0, blockSize))) && p !in old(next)
    {
      p := Pop();
      if p == NULL {
        Grow(0, address, garbage);
        ghost var blocks := ChunkBlocks(address, blockSize, BlockCount(0, blockSize));
        assert free == Reverse(blocks);
        BlockCountRoundsUp(0, blockSize);
        ReverseKeepsElements(blocks);
        p := Pop();
        assert p in Reverse(blocks);
      }
    }

    /** lf_heap_free. */
    method Free(p: Ptr)
      requires Valid() && (p != NULL ==> p in next && p !in free)
      modifies this`top, this`count, this`next, this`free
      ensures Valid() && next.Keys == old(next).Keys
      ensures free == if p == NULL then old(free) else [p] + old(free)
    {
      if p == NULL {
        return;
      }
      Push(p);
      assert next.Keys == old(next).Keys;
    }
  }

  lemma TenBlocks(blockSize: nat, size: nat)
    requires blockSize > 0 && size >= 10 * blockSize
    ensures BlockCount(size, blockSize) >= 10
  {
    var count := BlockCount(size, blockSize);
    BlockCountRoundsUp(size, blockSize);
    if count < 10 {
      BlockEndsInside(blockSize, count, 10);
    }
  }

  lemma ChunkBlocksFit(blockSize: nat, address: Ptr, count: nat)
    requires blockSize > 0
    ensures var blocks := ChunkBlocks(address, blockSize, count);
      && Distinct(blocks)
      && (forall b :: b in blocks ==>
            address + CHUNK_HEADER <= b && b + blockSize <= address + count * blockSize + CHUNK_HEADER)
      && (forall a, b :: a in blocks && b in blocks && a != b ==> Apart(a, b, blockSize))
  {
    var blocks := ChunkBlocks(address, blockSize, count);
    forall j, k | 0 <= j < k < count
      ensures blocks[j] != blocks[k] && Apart(blocks[j], blocks[k], blockSize)
    {
      BlocksAreApart(address, blockSize, count, j, k);
    }
    forall k | 0 <= k < count
      ensures address + CHUNK_HEADER <= blocks[k] && blocks[k] + blockSize <= address + count * blockSize + CHUNK_HEADER
    {
      BlockEndsInside(blockSize, k, count);
    }
  }

  /** The blocks of a fresh chunk are inside it, apart from each other and from every block carved before. */
  lemma NewBlocks(blockSize: nat, address: Ptr, count: nat, chunks: seq<Chunk>, carved: set<Ptr>)
    requires Layout(blockSize, chunks, carved)
    requires Unused(chunks, Chunk(address, count * blockSize + CHUNK_HEADER))
    ensures var blocks := ChunkBlocks(address, blockSize, count);
      && Distinct(blocks)
      && (forall b :: b in blocks ==> b != NULL && b !in carved)
      && Layout(blockSize, [Chunk(address, count * blockSize + CHUNK_HEADER)] + chunks, carved + Elements(blocks))
  {
    var blocks := ChunkBlocks(address, blockSize, count);
    var chunks' := [Chunk(address, count * blockSize + CHUNK_HEADER)] + chunks;
    ChunkBlocksFit(blockSize, address, count);
    forall a, b | a in blocks && b in carved ensures Apart(a, b, blockSize) && a != b {
      assert InSomeChunk(blockSize, chunks, b);
    }
    forall b | b in carved + Elements(blocks) ensures InSomeChunk(blockSize, chunks', b) {
      if b in carved {
        var c :| c in chunks && c.address + CHUNK_HEADER <= b && b + blockSize <= c.address + c.size;
        assert c in chunks';
      } else {
        assert chunks'[0] in chunks';
      }
    }
  }
}
