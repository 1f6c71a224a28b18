/**
 * The two memory pools of the runtime (Allocators.h, Allocators.cpp).
 *
 * Memory is a flat address space of natural numbers, 0 being the null
 * pointer. `malloc` is not called: the address it would answer (0 when it
 * fails) is a parameter of every operation that may need a new block, and the
 * caller promises that a non-null answer is a region disjoint from every block
 * the allocator still holds. The sizes are those of an LP64 target:
 * `sizeof(Chunk) == 8`, `RoundUp(sizeof(FixedAllocator::Block)) == 16` and
 * `RoundUp(sizeof(LinearAllocator::Block)) == 32`.
 */
module Allocators {

  /** `kAlignment` */
  const Alignment: nat := 8
  /** `SIZE_MAX + 1`: `std::size_t` arithmetic is modulo this. */
  const SizeModulus: nat := 0x1_0000_0000_0000_0000
  /** `sizeof(FixedAllocator::Chunk)`: one `next` pointer. */
  const ChunkBytes: nat := 8
  /** `RoundUp(sizeof(FixedAllocator::Block))`: two pointers. */
  const PoolHeaderBytes: nat := 16
  /** `RoundUp(sizeof(LinearAllocator::Block))`: three pointers and a `size_t`. */
  const ArenaHeaderBytes: nat := 32

  /** An address; 0 is `nullptr`. */
  type Addr = nat

  /**
   * `RoundUp(n)` on a `std::size_t`: `(n + kAlignment - 1) & -kAlignment`,
   * the sum taken modulo 2^64. It is the next multiple of 8, except that the
   * sum wraps for the seven largest values, which round to 0.
   */
  function RoundUp(n: nat): (r: nat)
    requires n < SizeModulus
    ensures r < SizeModulus && r % Alignment == 0
    ensures n + Alignment - 1 < SizeModulus ==> n <= r < n + Alignment
    ensures n + Alignment - 1 >= SizeModulus ==> r == 0
  {
    (n + Alignment - 1) % SizeModulus / Alignment * Alignment
  }

  /** `RoundUp` of a heap address as an `intptr_t`, which does not wrap for a heap address. */
  function AlignAddress(a: Addr): (r: Addr)
    ensures r % Alignment == 0 && a <= r < a + Alignment
  {
    (a + Alignment - 1) / Alignment * Alignment
  }

  function Max(a: nat, b: nat): nat {
    if a < b then b else a
  }

  /** A range of addresses `[start, start + size)`. */
  datatype Region = Region(start: Addr, size: nat) {
    function End(): nat {
      start + size
    }

    predicate Disjoint(other: Region) {
      End() <= other.start || other.End() <= start
    }

    predicate Within(outer: Region) {
      outer.start <= start && End() <= outer.End()
    }
  }

  /** Two regions that lie in two disjoint regions are disjoint. */
  lemma WithinDisjoint(a: Region, outerA: Region, b: Region, outerB: Region)
    requires a.Within(outerA) && b.Within(outerB) && outerA.Disjoint(outerB)
    ensures a.Disjoint(b)
  {
  }

  /** A size no larger than a multiple of the alignment rounds up to at most that multiple. */
  lemma RoundUpWithin(n: nat, m: nat)
    requires n <= m < SizeModulus && m % Alignment == 0
    ensures n <= RoundUp(n) <= m
  {
    var r := RoundUp(n);
    assert r == r / Alignment * Alignment && m == m / Alignment * Alignment;
    assert r / Alignment <= m / Alignment;
  }

  /** Chunks of different indices are at least a chunk apart. */
  lemma MulApart(i: nat, j: nat, c: nat)
    requires i < j
    ensures i * c + c <= j * c
  {
    assert (i + 1) * c <= j * c;
  }

  /**
   * `FixedAllocator`: a pool of equal chunks. Blocks of `chunkCount` chunks are
   * obtained from `malloc`; the free chunks form a list threaded through their
   * first word, and `Allocate` and `Free` pop and push its head.
   */
  class FixedAllocator {
    /** `chunkHead`: the first free chunk, or null. */
    var chunkHead: Addr
    /** The `data` pointer of each block of the `blockHead` list, newest first. */
    var blocks: seq<Addr>
    const chunkSize: nat
    const chunkCount: nat
    /** The `Chunk::next` word stored in the memory of each chunk that was ever linked. */
    var next: map<Addr, Addr>
    /** The free list, in list order from `chunkHead`. */
    ghost var free: seq<Addr>
    /** The chunks handed out by `Allocate` and not yet given back. */
    ghost var inUse: set<Addr>

    /** The bytes `AddBlock` asks `malloc` for. */
    function BlockBytes(): nat {
      chunkSize * chunkCount + PoolHeaderBytes + Alignment - 1
    }

    /** The block obtained at `data`. */
    function BlockRegion(data: Addr): Region {
      Region(data, BlockBytes())
    }

    /** The first chunk of the block obtained at `data`: past its aligned `Block` header. */
    function FirstChunk(data: Addr): Addr {
      AlignAddress(data) + PoolHeaderBytes
    }

    /** The `j`-th chunk of the block obtained at `data`. */
    function ChunkAt(data: Addr, j: nat): Addr {
      FirstChunk(data) + j * chunkSize
    }

    /** `p` is a chunk of one of the blocks obtained at `held`. */
    ghost predicate OwnedIn(held: seq<Addr>, p: Addr) {
      exists i, j :: 0 <= i < |held| && 0 <= j < chunkCount && p == ChunkAt(held[i], j)
    }

    /** `p` is a chunk of a block the allocator holds. */
    ghost predicate Owned(p: Addr)
      reads this
    {
      OwnedIn(blocks, p)
    }

    /** `malloc` answered `data` for a new block: a region apart from every block of `held`. */
    ghost predicate FreshIn(held: seq<Addr>, data: Addr) {
      data > 0 && forall i :: 0 <= i < |held| ==> BlockRegion(data).Disjoint(BlockRegion(held[i]))
    }

    /** `malloc` answered `data` for a new block: a region apart from every held block. */
    ghost predicate FreshBlock(data: Addr)
      reads this
    {
      FreshIn(blocks, data)
    }

    /** The chunks `AddBlock` threads, from `first`: ascending, `chunkSize` apart. */
    function Stitch(first: Addr): (s: seq<Addr>)
      ensures |s| == chunkCount
      ensures forall j :: 0 <= j < chunkCount ==> s[j] == first + j * chunkSize
    {
      seq(chunkCount, j requires 0 <= j => first + j * chunkSize)
    }

    /**
     * `list` is the chain that starts at `head` and follows `links`: it ends
     * with a null link, and `head` is null exactly when it is empty.
     */
    ghost predicate IsFreeList(head: Addr, list: seq<Addr>, links: map<Addr, Addr>) {
      (list == [] <==> head == 0) &&
      (list != [] ==> head == list[0]) &&
      (forall i :: 0 <= i < |list| ==> list[i] != 0 && list[i] in links) &&
      (forall i :: 0 <= i < |list| - 1 ==> links[list[i]] == list[i + 1]) &&
      (list != [] ==> links[list[|list| - 1]] == 0)
    }

    /**
     * The pool invariant, on the values of the fields: the held blocks are
     * disjoint, the free list is a null-terminated chain of distinct chunks of
     * those blocks, and the chunks in use are other chunks of those blocks.
     */
    ghost predicate Invariant(head: Addr, held: seq<Addr>, links: map<Addr, Addr>, list: seq<Addr>, used: set<Addr>) {
      chunkSize >= ChunkBytes && chunkSize % Alignment == 0 && chunkCount >= 1 &&
      (forall i :: 0 <= i < |held| ==> held[i] > 0) &&
      (forall i, j :: 0 <= i < j < |held| ==> BlockRegion(held[i]).Disjoint(BlockRegion(held[j]))) &&
      IsFreeList(head, list, links) &&
      (forall i, j :: 0 <= i < j < |list| ==> list[i] != list[j]) &&
      (forall i :: 0 <= i < |list| ==> OwnedIn(held, list[i]) && list[i] !in used) &&
      (forall p :: p in used ==> OwnedIn(held, p))
    }

    ghost predicate Valid()
      reads this
    {
      Invariant(chunkHead, blocks, next, free, inUse)
    }

    /** Every chunk lies inside its block's `malloc`ed bytes. */
    lemma ChunkWithinBlock(data: Addr, j: nat)
      requires j < chunkCount
      ensures Region(ChunkAt(data, j), chunkSize).Within(BlockRegion(data))
    {
      MulApart(j, chunkCount, chunkSize);
    }

    /** Two different chunks of the blocks held do not overlap. */
    lemma OwnedDisjoint(held: seq<Addr>, p: Addr, q: Addr)
      requires forall i, j :: 0 <= i < j < |held| ==> BlockRegion(held[i]).Disjoint(BlockRegion(held[j]))
      requires OwnedIn(held, p) && OwnedIn(held, q) && p != q
      ensures Region(p, chunkSize).Disjoint(Region(q, chunkSize))
    {
      var i, j :| 0 <= i < |held| && 0 <= j < chunkCount && p == ChunkAt(held[i], j);
      var k, l :| 0 <= k < |held| && 0 <= l < chunkCount && q == ChunkAt(held[k], l);
      if i == k {
        if j < l {
          MulApart(j, l, chunkSize);
        } else {
          MulApart(l, j, chunkSize);
        }
      } else {
        ChunkWithinBlock(held[i], j);
        ChunkWithinBlock(held[k], l);
        if i < k {
          WithinDisjoint(Region(p, chunkSize), BlockRegion(held[i]), Region(q, chunkSize), BlockRegion(held[k]));
        } else {
          WithinDisjoint(Region(q, chunkSize), BlockRegion(held[k]), Region(p, chunkSize), BlockRegion(held[i]));
        }
      }
    }

    /** A chunk of a fresh block is none of the chunks of the blocks held. */
    lemma FreshChunk(held: seq<Addr>, data: Addr, p: Addr, j: nat)
      requires FreshIn(held, data) && OwnedIn(held, p) && j < chunkCount
      ensures p != ChunkAt(data, j)
    {
      var i, l :| 0 <= i < |held| && 0 <= l < chunkCount && p == ChunkAt(held[i], l);
      ChunkWithinBlock(held[i], l);
      ChunkWithinBlock(data, j);
    }

    /** Prepending a block keeps every chunk owned. */
    lemma OwnedPrepend(held: seq<Addr>, data: Addr, p: Addr)
      requires OwnedIn(held, p)
      ensures OwnedIn([data] + held, p)
    {
      var i, j :| 0 <= i < |held| && 0 <= j < chunkCount && p == ChunkAt(held[i], j);
      assert ([data] + held)[i + 1] == held[i];
    }

    /** The stitched chunks of a new block are distinct chunks of it. */
    lemma StitchOwned(held: seq<Addr>, data: Addr)
      requires chunkSize > 0
      ensures forall i, j :: 0 <= i < j < chunkCount ==> Stitch(FirstChunk(data))[i] != Stitch(FirstChunk(data))[j]
      ensures forall j :: 0 <= j < chunkCount ==> OwnedIn([data] + held, Stitch(FirstChunk(data))[j])
    {
      var s := Stitch(FirstChunk(data));
      forall i, j | 0 <= i < j < chunkCount
        ensures s[i] != s[j]
      {
        MulApart(i, j, chunkSize);
      }
      forall j | 0 <= j < chunkCount
        ensures OwnedIn([data] + held, s[j])
      {
        assert s[j] == ChunkAt(([data] + held)[0], j);
      }
    }

    /** `AddBlock` on an empty free list establishes the invariant for the new block. */
    lemma AddBlockInvariant(held: seq<Addr>, links: map<Addr, Addr>, oldLinks: map<Addr, Addr>, used: set<Addr>, data: Addr)
      requires Invariant(0, held, oldLinks, [], used) && FreshIn(held, data)
      requires IsFreeList(FirstChunk(data), Stitch(FirstChunk(data)), links)
      ensures Invariant(FirstChunk(data), [data] + held, links, Stitch(FirstChunk(data)), used)
    {
      var s := Stitch(FirstChunk(data));
      var held' := [data] + held;
      StitchOwned(held, data);
      forall i, j | 0 <= i < j < |held'|
        ensures BlockRegion(held'[i]).Disjoint(BlockRegion(held'[j]))
      {
        if i > 0 {
          assert held'[i] == held[i - 1] && held'[j] == held[j - 1];
        } else {
          assert held'[j] == held[j - 1];
        }
      }
      forall p | p in used
        ensures OwnedIn(held', p)
      {
        OwnedPrepend(held, data, p);
      }
      forall j | 0 <= j < |s|
        ensures s[j] !in used
      {
        if s[j] in used {
          FreshChunk(held, data, s[j], j);
        }
      }
    }

    /**
     * `FixedAllocator(size, count)`: no block and no free chunk yet; chunks of
     * `RoundUp(max(sizeof(Chunk), size))` bytes, so each can hold `size` bytes
     * and the free-list link, and stays 8-aligned.
     */
    constructor(size: nat, count: nat)
      requires size <= SizeModulus - Alignment && count >= 1
      ensures chunkSize == RoundUp(Max(ChunkBytes, size)) && chunkCount == count
      ensures chunkSize % Alignment == 0 && ChunkBytes <= chunkSize && size <= chunkSize < Max(ChunkBytes, size) + Alignment
      ensures chunkHead == 0 && blocks == [] && free == [] && inUse == {}
      ensures Valid()
    {
      chunkSize := RoundUp(Max(ChunkBytes, size));
      chunkCount := count;
      chunkHead := 0;
      blocks := [];
      next := map[];
      free := [];
      inUse := {};
    }

    /**
     * `AddBlock()`, called when the free list is empty: with `malloc`'s answer
     * `data`, prepends the block and threads its chunks into the free list, in
     * ascending order, each linked to the one `chunkSize` bytes further, the
     * last to null. A null answer changes nothing.
     */
    method AddBlock(data: Addr) returns (ok: bool)
      requires Valid() && free == []
      requires data == 0 || FreshBlock(data)
      modifies this
      ensures ok == (data != 0) && Valid() && inUse == old(inUse)
      ensures !ok ==> chunkHead == old(chunkHead) && blocks == old(blocks) && next == old(next) && free == old(free)
      ensures ok ==> blocks == [data] + old(blocks) && chunkHead == FirstChunk(data) && free == Stitch(FirstChunk(data))
    {
      if data == 0 {
        return false;
      }
      var first := FirstChunk(data);
      var links := Thread(first, next);
      AddBlockInvariant(blocks, links, next, inUse, data);
      blocks := [data] + blocks;
      chunkHead := first;
      next := links;
      free := Stitch(first);
      return true;
    }

    /**
     * `Allocate()`: when the free list is empty, first `AddBlock` with
     * `malloc`'s answer `data`, and answer null if that fails; then pop the
     * head of the free list. The chunk answered was free, so it overlaps no
     * chunk still in use.
     */
    method Allocate(data: Addr) returns (p: Addr)
      requires Valid()
      requires free == [] ==> data == 0 || FreshBlock(data)
      modifies this
      ensures Valid()
      ensures old(free) != [] ==> p == old(free)[0] && free == old(free)[1..] && blocks == old(blocks)
      ensures old(free) == [] && data == 0 ==> p == 0 && free == [] && blocks == old(blocks)
      ensures old(free) == [] && data != 0 ==>
        p == FirstChunk(data) && blocks == [data] + old(blocks) && free == Stitch(FirstChunk(data))[1..]
      ensures p != 0 ==> Owned(p) && p !in old(inUse) && inUse == old(inUse) + {p}
      ensures p != 0 ==> forall q :: q in old(inUse) ==> Region(p, chunkSize).Disjoint(Region(q, chunkSize))
      ensures p == 0 ==> inUse == old(inUse)
    {
      if chunkHead == 0 {
        var ok := AddBlock(data);
        if !ok {
          return 0;
        }
      }
      p := Pop();
    }

    /** The pop of `Allocate()`: `chunkHead = chunkHead->next`, answering the old head. */
    method Pop() returns (p: Addr)
      requires Valid() && free != []
      modifies this`chunkHead, this`free, this`inUse
      ensures Valid()
      ensures p == old(free)[0] && free == old(free)[1..]
      ensures p != 0 && Owned(p) && p !in old(inUse) && inUse == old(inUse) + {p}
      ensures forall q :: q in old(inUse) ==> Region(p, chunkSize).Disjoint(Region(q, chunkSize))
    {
      PopInvariant(chunkHead, blocks, next, free, inUse);
      p := chunkHead;
      chunkHead := next[chunkHead];
      free := free[1..];
      inUse := inUse + {p};
      forall q | q in old(inUse)
        ensures Region(p, chunkSize).Disjoint(Region(q, chunkSize))
      {
        OwnedDisjoint(blocks, p, q);
      }
    }

    /** Popping the head of the free list into use keeps the invariant. */
    lemma PopInvariant(head: Addr, held: seq<Addr>, links: map<Addr, Addr>, list: seq<Addr>, used: set<Addr>)
      requires Invariant(head, held, links, list, used) && list != []
      ensures head in links && Invariant(links[head], held, links, list[1..], used + {head})
    {
      var rest := list[1..];
      assert rest == [] <==> links[head] == 0 by {
        if rest != [] {
          assert links[list[0]] == list[1];
        }
      }
      forall i | 0 <= i < |rest|
        ensures rest[i] != head
      {
        assert rest[i] == list[i + 1];
      }
    }

    /** A non-empty free list starts inside a held block. */
    lemma HeadWithinBlock() returns (i: nat)
      requires Valid() && free != []
      ensures chunkHead != 0 && i < |blocks| && Region(chunkHead, chunkSize).Within(BlockRegion(blocks[i]))
    {
      var k, j :| 0 <= k < |blocks| && 0 <= j < chunkCount && chunkHead == ChunkAt(blocks[k], j);
      ChunkWithinBlock(blocks[k], j);
      i := k;
    }

    /** Chunks are never at the null address. */
    lemma OwnedNonNull(held: seq<Addr>, p: Addr)
      requires OwnedIn(held, p)
      ensures p != 0
    {
    }

    /** `Free(ptr)`: push the chunk back on the head of the free list. */
    method Free(ptr: Addr)
      requires Valid() && ptr in inUse
      modifies this
      ensures Valid()
      ensures chunkHead == ptr && free == [ptr] + old(free) && inUse == old(inUse) - {ptr}
      ensures next == old(next)[ptr := old(chunkHead)] && blocks == old(blocks)
    {
      OwnedNonNull(blocks, ptr);
      next := next[ptr := chunkHead];
      chunkHead := ptr;
      free := [ptr] + free;
      inUse := inUse - {ptr};
    }

    /**
     * `Purge()`, also run by `~FixedAllocator()`, with the free list reset:
     * every block goes back to `free`, in list order (answered as
     * `released`), and no chunk is left free or in use.
     */
    method Purge() returns (released: seq<Addr>)
      requires Valid()
      modifies this
      ensures released == old(blocks)
      ensures blocks == [] && chunkHead == 0 && free == [] && inUse == {} && Valid()
    {
      released := ReleaseBlocks();
      chunkHead := 0;
      free := [];
      inUse := {};
    }

    /**
     * `Purge()` as written: it releases every block but leaves `chunkHead` as
     * it was, so when chunks were free it still points into a released
     * block, and the next `Allocate()` answers memory already given back.
     */
    method PurgeAsWritten() returns (released: seq<Addr>)
      requires Valid()
      modifies this`blocks
      ensures released == old(blocks) && blocks == []
      ensures old(free) != [] ==>
        (chunkHead != 0 && exists i :: 0 <= i < |released| && Region(chunkHead, chunkSize).Within(BlockRegion(released[i])))
    {
      ghost var i: nat := 0;
      if free != [] {
        i := HeadWithinBlock();
      }
      released := ReleaseBlocks();
      if free != [] {
        assert Region(chunkHead, chunkSize).Within(BlockRegion(released[i]));
      }
    }

    /** The loop of both `Purge`s: `free` each block of the chain, newest first, until the head is null. */
    method ReleaseBlocks() returns (released: seq<Addr>)
      modifies this`blocks
      ensures released == old(blocks) && blocks == []
    {
      released := [];
      while blocks != []
        invariant released + blocks == old(blocks)
        decreases |blocks|
      {
        released := released + [blocks[0]];
        blocks := blocks[1..];
      }
    }

    /**
     * The loop of `AddBlock`: links each chunk from `first` to the one
     * `chunkSize` bytes further, and the last one to null.
     */
    method Thread(first: Addr, links0: map<Addr, Addr>) returns (links: map<Addr, Addr>)
      requires chunkCount >= 1 && chunkSize > 0 && first > 0
      ensures IsFreeList(first, Stitch(first), links)
    {
      links := links0;
      ghost var s := Stitch(first);
      var chunkNMinus1 := first;
      var chunkN := first + chunkSize;
      var chunkEnd := first + chunkSize * chunkCount;
      ghost var n: nat := 1;
      while chunkN < chunkEnd
        invariant 1 <= n <= chunkCount
        invariant chunkNMinus1 == s[n - 1] && chunkN == chunkNMinus1 + chunkSize
        invariant forall j :: 0 <= j < n - 1 ==> s[j] in links && links[s[j]] == s[j + 1]
        decreases chunkEnd - chunkN
      {
        NextChunk(first, n, chunkN, chunkEnd);
        StitchBelow(first, n - 1);
        links := links[chunkNMinus1 := chunkN];
        chunkNMinus1 := chunkN;
        chunkN := chunkN + chunkSize;
        n := n + 1;
      }
      LastChunk(first, n, chunkN, chunkEnd);
      StitchBelow(first, n - 1);
      links := links[chunkNMinus1 := 0];
    }

    /** While `chunkN` is below `chunkEnd`, it is the next stitched chunk. */
    lemma NextChunk(first: Addr, n: nat, chunkN: Addr, chunkEnd: Addr)
      requires 1 <= n <= chunkCount && chunkSize > 0
      requires chunkN == first + (n - 1) * chunkSize + chunkSize && chunkEnd == first + chunkSize * chunkCount
      requires chunkN < chunkEnd
      ensures n < chunkCount && chunkN == Stitch(first)[n]
    {
    }

    /** Once `chunkN` reaches `chunkEnd`, the chunk before it is the last one. */
    lemma LastChunk(first: Addr, n: nat, chunkN: Addr, chunkEnd: Addr)
      requires 1 <= n <= chunkCount && chunkSize > 0
      requires chunkN == first + (n - 1) * chunkSize + chunkSize && chunkEnd == first + chunkSize * chunkCount
      requires chunkN >= chunkEnd
      ensures n == chunkCount
    {
    }

    /** The chunks stitched before the `n`-th are all different from it. */
    lemma StitchBelow(first: Addr, n: nat)
      requires chunkSize > 0 && n < chunkCount
      ensures forall j :: 0 <= j < n ==> Stitch(first)[j] != Stitch(first)[n]
    {
      var s := Stitch(first);
      forall j | 0 <= j < n
        ensures s[j] != s[n]
      {
        MulApart(j, n, chunkSize);
      }
    }
  }

  /** `LinearAllocator::Block`: a block's `malloc` answer, its bump pointer and the bytes left after it. */
  datatype Arena = Arena(data: Addr, head: Addr, available: nat)

  /**
   * `head->head += size; head->available -= size;`: the bump, with the
   * subtraction on `std::size_t`, so modulo 2^64.
   */
  function Bump(b: Arena, size: nat): (r: Arena)
    requires b.available < SizeModulus
    ensures r.data == b.data && r.head == b.head + size
    ensures size <= b.available ==> r.available == b.available - size
    ensures size > b.available && size - b.available <= SizeModulus ==> r.available == SizeModulus - (size - b.available)
  {
    Arena(b.data, b.head + size, (b.available - size) % SizeModulus)
  }

  /**
   * `LinearAllocator`: a bump allocator over blocks of `blockSize` bytes.
   * `Allocate` carves the next bytes of the newest block, and starts a new
   * block when they do not fit; nothing is given back before `Purge`.
   */
  class LinearAllocator {
    /** The `head` list of blocks, newest first: the first one is bumped. */
    var blocks: seq<Arena>
    const blockSize: nat
    /** The regions `Allocate` answered since the last `Purge`. */
    ghost var handed: seq<Region>

    /** The bytes `AddBlock` asks `malloc` for. */
    function BlockBytes(): nat {
      blockSize + ArenaHeaderBytes + Alignment - 1
    }

    function BlockRegion(data: Addr): Region {
      Region(data, BlockBytes())
    }

    /** The first byte after the aligned `Block` header of the block obtained at `data`. */
    function Start(data: Addr): Addr {
      AlignAddress(data) + ArenaHeaderBytes
    }

    /** The bytes of a block already carved. */
    function Used(b: Arena): Region
      requires Start(b.data) <= b.head
    {
      Region(Start(b.data), b.head - Start(b.data))
    }

    /** `AddBlock()`'s new block: nothing carved, `blockSize` bytes available. */
    function NewArena(data: Addr): (b: Arena)
      ensures data > 0 ==> ArenaValid(b) && b.available == blockSize && Used(b).size == 0
    {
      Arena(data, Start(data), blockSize)
    }

    /** Carved and available bytes make up the block's `blockSize`. */
    ghost predicate ArenaValid(b: Arena) {
      b.data > 0 && Start(b.data) <= b.head && b.head - Start(b.data) + b.available == blockSize
    }

    /** `r` lies in the carved bytes of a block of `held`. */
    ghost predicate CarvedIn(held: seq<Arena>, r: Region) {
      exists i :: 0 <= i < |held| && ArenaValid(held[i]) && r.Within(Used(held[i]))
    }

    ghost predicate FreshIn(held: seq<Arena>, data: Addr) {
      data > 0 && forall i :: 0 <= i < |held| ==> BlockRegion(data).Disjoint(BlockRegion(held[i].data))
    }

    /** `malloc` answered `data` for a new block: a region apart from every held block. */
    ghost predicate FreshBlock(data: Addr)
      reads this
    {
      FreshIn(blocks, data)
    }

    /**
     * The arena invariant, on the values of the fields: the blocks are
     * disjoint and each has carved plus available bytes equal to `blockSize`;
     * every region answered lies in carved bytes, and no two overlap.
     */
    ghost predicate Invariant(held: seq<Arena>, regions: seq<Region>) {
      blockSize % Alignment == 0 && blockSize < SizeModulus &&
      (forall i :: 0 <= i < |held| ==> ArenaValid(held[i])) &&
      (forall i, j :: 0 <= i < j < |held| ==> BlockRegion(held[i].data).Disjoint(BlockRegion(held[j].data))) &&
      (forall k :: 0 <= k < |regions| ==> CarvedIn(held, regions[k])) &&
      (forall k, l :: 0 <= k < l < |regions| ==> regions[k].Disjoint(regions[l]))
    }

    ghost predicate Valid()
      reads this
    {
      Invariant(blocks, handed)
    }

    /** `LinearAllocator(blockSize)`: no block yet, blocks of `RoundUp(blockSize)` bytes. */
    constructor(size: nat)
      requires size < SizeModulus
      ensures blockSize == RoundUp(size) && blocks == [] && handed == [] && Valid()
    {
      blockSize := RoundUp(size);
      blocks := [];
      handed := [];
    }

    /** A block's carved bytes lie inside its `malloc`ed bytes. */
    lemma UsedWithinBlock(b: Arena)
      requires ArenaValid(b)
      ensures Used(b).Within(BlockRegion(b.data))
    {
    }

    /** Bumping the newest block by `size` available bytes keeps the invariant and adds the carved region. */
    lemma BumpInvariant(held: seq<Arena>, regions: seq<Region>, size: nat)
      requires Invariant(held, regions) && held != [] && size <= held[0].available
      ensures Invariant([Bump(held[0], size)] + held[1..], regions + [Region(held[0].head, size)])
    {
      var held' := [Bump(held[0], size)] + held[1..];
      forall i | 0 <= i < |held'|
        ensures ArenaValid(held'[i]) && held'[i].data == held[i].data
      {
      }
      BumpCarved(held, regions, size);
      BumpDisjoint(held, regions, size);
    }

    /** After the bump, the old regions and the new one lie in carved bytes. */
    lemma BumpCarved(held: seq<Arena>, regions: seq<Region>, size: nat)
      requires Invariant(held, regions) && held != [] && size <= held[0].available
      ensures forall k :: 0 <= k < |regions| + 1 ==>
        CarvedIn([Bump(held[0], size)] + held[1..], (regions + [Region(held[0].head, size)])[k])
    {
      var held' := [Bump(held[0], size)] + held[1..];
      var regions' := regions + [Region(held[0].head, size)];
      forall k | 0 <= k < |regions'|
        ensures CarvedIn(held', regions'[k])
      {
        if k < |regions| {
          assert CarvedIn(held, regions[k]);
          var i :| 0 <= i < |held| && ArenaValid(held[i]) && regions[k].Within(Used(held[i]));
          BumpKeepsCarved(held, size, i, regions[k]);
          assert regions'[k] == regions[k];
        } else {
          assert ArenaValid(held'[0]) && regions'[k].Within(Used(held'[0]));
        }
      }
    }

    /** Bumping the newest block keeps what any block had carved. */
    lemma BumpKeepsCarved(held: seq<Arena>, size: nat, i: nat, r: Region)
      requires blockSize < SizeModulus && held != [] && ArenaValid(held[0]) && size <= held[0].available
      requires i < |held| && ArenaValid(held[i]) && r.Within(Used(held[i]))
      ensures CarvedIn([Bump(held[0], size)] + held[1..], r)
    {
      var held' := [Bump(held[0], size)] + held[1..];
      assert held'[i].data == held[i].data && held'[i].head >= held[i].head && ArenaValid(held'[i]);
      assert r.Within(Used(held'[i]));
    }

    /** The new region overlaps none of the old ones. */
    lemma BumpDisjoint(held: seq<Arena>, regions: seq<Region>, size: nat)
      requires Invariant(held, regions) && held != [] && size <= held[0].available
      ensures forall k :: 0 <= k < |regions| ==> regions[k].Disjoint(Region(held[0].head, size))
    {
      var b := Bump(held[0], size);
      var r := Region(held[0].head, size);
      forall k | 0 <= k < |regions|
        ensures regions[k].Disjoint(r)
      {
        assert CarvedIn(held, regions[k]);
        var i :| 0 <= i < |held| && ArenaValid(held[i]) && regions[k].Within(Used(held[i]));
        if i != 0 {
          assert ArenaValid(b);
          UsedWithinBlock(held[i]);
          UsedWithinBlock(b);
          assert r.Within(Used(b));
          WithinDisjoint(r, BlockRegion(b.data), regions[k], BlockRegion(held[i].data));
        }
      }
    }

    /** Prepending a fresh block keeps the invariant. */
    lemma NewArenaInvariant(held: seq<Arena>, regions: seq<Region>, data: Addr)
      requires Invariant(held, regions) && FreshIn(held, data)
      ensures Invariant([NewArena(data)] + held, regions)
    {
      var held' := [NewArena(data)] + held;
      forall k | 0 <= k < |regions|
        ensures CarvedIn(held', regions[k])
      {
        assert CarvedIn(held, regions[k]);
        var i :| 0 <= i < |held| && ArenaValid(held[i]) && regions[k].Within(Used(held[i]));
        assert held'[i + 1] == held[i];
      }
      forall i, j | 0 <= i < j < |held'|
        ensures BlockRegion(held'[i].data).Disjoint(BlockRegion(held'[j].data))
      {
        assert held'[j] == held[j - 1];
        if i > 0 {
          assert held'[i] == held[i - 1];
        }
      }
    }

    /** The newest block can carve `size` more bytes: `head != nullptr && head->available >= size`. */
    predicate Fits(held: seq<Arena>, size: nat) {
      held != [] && held[0].available >= size
    }

    /**
     * `Allocate(size)` as written, on the block list `held` with `malloc`'s
     * answer `data`: round `size` up; if the newest block cannot carve it,
     * `AddBlock()` (or answer null when `malloc` fails); then answer the bump
     * pointer and bump it. Nothing checks that the rounded size fits in a
     * fresh block.
     */
    function AllocateAsWritten(held: seq<Arena>, size: nat, data: Addr): (r: (Addr, seq<Arena>))
      requires size < SizeModulus && blockSize < SizeModulus
      requires forall i :: 0 <= i < |held| ==> held[i].available < SizeModulus
      ensures !Fits(held, RoundUp(size)) && data == 0 ==> r == (0, held)
      ensures r.0 != 0 ==> |r.1| > 0 && r.1[0].head == r.0 + RoundUp(size)
      ensures r.0 != 0 ==> r.1[1..] == if Fits(held, RoundUp(size)) then held[1..] else held
    {
      var s := RoundUp(size);
      if Fits(held, s) then (held[0].head, [Bump(held[0], s)] + held[1..])
      else if data == 0 then (0, held)
      else (NewArena(data).head, [Bump(NewArena(data), s)] + held)
    }

    /**
     * When the rounded size exceeds `blockSize`, the code as written answers
     * a region that runs past the end of the block it just obtained, and the
     * block's `available` wraps around to nearly 2^64, so later allocations
     * also run past it.
     */
    lemma AllocateAsWrittenOverruns(held: seq<Arena>, size: nat, data: Addr)
      requires Invariant(held, []) && size < SizeModulus && data > 0
      requires RoundUp(size) > blockSize
      ensures var (p, held') := AllocateAsWritten(held, size, data);
        p != 0 && held'[0].data == data &&
        !Region(p, RoundUp(size)).Within(Region(Start(data), blockSize)) &&
        held'[0].available == SizeModulus - (RoundUp(size) - blockSize) &&
        held'[0].available > blockSize
    {
    }

    /**
     * For the seven largest sizes `RoundUp` wraps to 0, so the code as
     * written answers a non-null pointer to no bytes at all for a request of
     * nearly 2^64 bytes, and carves nothing.
     */
    lemma AllocateAsWrittenHugeIsEmpty(held: seq<Arena>, regions: seq<Region>, size: nat, data: Addr)
      requires Invariant(held, regions) && SizeModulus - Alignment < size < SizeModulus
      requires held != [] || data > 0
      ensures var (p, held') := AllocateAsWritten(held, size, data);
        RoundUp(size) == 0 && p != 0 && held' != [] && held'[0].head == p
    {
      if held != [] {
        assert ArenaValid(held[0]);
      }
    }

    /**
     * `Allocate(size)`, answering null when `size` exceeds the block size
     * and so can never fit in a block; otherwise it is the code as written.
     * The answer holds at least `size` bytes, is the end of the previous
     * carve of the same block, lies inside that block, and overlaps no region
     * answered before.
     */
    method Allocate(size: nat, data: Addr) returns (p: Addr)
      requires Valid() && size < SizeModulus
      requires data == 0 || FreshBlock(data)
      modifies this
      ensures Valid()
      ensures size > blockSize ==> p == 0
      ensures size <= blockSize ==> (p, blocks) == AllocateAsWritten(old(blocks), size, data)
      ensures p == 0 ==> blocks == old(blocks) && handed == old(handed)
      ensures p != 0 ==> size <= RoundUp(size) <= blockSize
      ensures p != 0 ==> handed == old(handed) + [Region(p, RoundUp(size))]
      ensures p != 0 ==> blocks[0].head == p + RoundUp(size) && Region(p, RoundUp(size)).Within(BlockRegion(blocks[0].data))
      ensures p != 0 ==> forall k :: 0 <= k < |old(handed)| ==> Region(p, RoundUp(size)).Disjoint(old(handed)[k])
    {
      if size > blockSize {
        return 0;
      }
      var s := RoundUp(size);
      RoundUpWithin(size, blockSize);
      if !Fits(blocks, s) {
        if data == 0 {
          return 0;
        }
        NewArenaInvariant(blocks, handed, data);
        blocks := [NewArena(data)] + blocks;
      }
      p := Carve(s);
    }

    /** The bump of `Allocate(size)`: answer the newest block's `head`, then advance it by `s` bytes. */
    method Carve(s: nat) returns (p: Addr)
      requires Valid() && Fits(blocks, s)
      modifies this
      ensures Valid()
      ensures p == old(blocks)[0].head && blocks == [Bump(old(blocks)[0], s)] + old(blocks)[1..]
      ensures p != 0 && handed == old(handed) + [Region(p, s)]
      ensures blocks[0].head == p + s && Region(p, s).Within(BlockRegion(blocks[0].data))
      ensures forall k :: 0 <= k < |old(handed)| ==> Region(p, s).Disjoint(old(handed)[k])
    {
      p := blocks[0].head;
      BumpInvariant(blocks, handed, s);
      UsedWithinBlock(Bump(blocks[0], s));
      blocks := [Bump(blocks[0], s)] + blocks[1..];
      handed := handed + [Region(p, s)];
    }

    /** The `data` pointers of a list of blocks. */
    function DataOf(held: seq<Arena>): (ds: seq<Addr>)
      ensures |ds| == |held| && forall i :: 0 <= i < |held| ==> ds[i] == held[i].data
    {
      seq(|held|, i requires 0 <= i < |held| => held[i].data)
    }

    /**
     * `Purge()`, also run by `~LinearAllocator()`: every block goes back to
     * `free`, in list order (answered as `released`), and the list is left
     * empty.
     */
    method Purge() returns (released: seq<Addr>)
      requires Valid()
      modifies this
      ensures released == DataOf(old(blocks)) && blocks == [] && handed == [] && Valid()
    {
      released := [];
      while blocks != []
        invariant released + DataOf(blocks) == DataOf(old(blocks))
        decreases |blocks|
      {
        assert DataOf(blocks) == [blocks[0].data] + DataOf(blocks[1..]);
        released := released + [blocks[0].data];
        blocks := blocks[1..];
      }
      handed := [];
    }
  }
}
