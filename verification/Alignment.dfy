/**
  memalign: an aligned pointer inside a larger chunk, with a pseudo header that leads back to the real one.
*/
module Alignment {
  import opened Sizes
  import opened Wrappers
  import opened NatBits
  import opened ZoneModel
  import Z = ZoneRuns
  import opened HeapModel
  import opened HeapProofs
  import opened HeapOps
  import opened HeapRealloc

  // ---------------------------------------------------------------- arithmetic

  /** A power of two divides the block size or is divided by it. */
  lemma AlignmentOrBlock(alignment: nat)
    requires IsPowerOf2(alignment)
    ensures alignment % UNIT == 0 || (alignment < UNIT && UNIT % alignment == 0)
  {
    var k := OnlyPowersOf2Pass(alignment);
    if k >= 4 {
      Pow2Add(4, k - 4);
      assert Pow2(4) == UNIT;
      ModOfMultiple(Pow2(k - 4), UNIT);
    } else {
      assert Pow2(0) == 1 && Pow2(1) == 2 && Pow2(2) == 4 && Pow2(3) == 8;
    }
    hide IsPowerOf2;
  }

  lemma SmallAlignments(ptr: nat, alignment: nat)
    requires 0 < alignment < UNIT && UNIT % alignment == 0 && ptr % UNIT == 0
    ensures ptr % alignment == 0
  {
    var m, d := ptr / UNIT, UNIT / alignment;
    assert ptr == m * UNIT && UNIT == d * alignment;
    assert m * (d * alignment) == (m * d) * alignment;
    ModOfMultiple(m * d, alignment);
  }

  /** Adding the distance to the next multiple gives that multiple. */
  lemma NextMultiple(x: nat, a: nat)
    requires 0 < a
    ensures (x + (a - x % a) % a) % a == 0 && (a - x % a) % a < a
  {
    var q, r := x / a, x % a;
    assert x == a * q + r;
    if r == 0 {
      assert (a - 0) % a == 0;
      assert x == q * a;
      ModOfMultiple(q, a);
    } else {
      Remainder(a - r, a, 0, a - r);
      assert x + (a - r) == (q + 1) * a;
      ModOfMultiple(q + 1, a);
    }
  }

  lemma MultipleOfMultiple(x: nat, a: nat)
    requires 0 < a && a % UNIT == 0 && x % a == 0
    ensures x % UNIT == 0
  {
    var q, m := x / a, a / UNIT;
    assert x == q * a && a == m * UNIT;
    assert q * (m * UNIT) == (q * m) * UNIT;
    ModOfMultiple(q * m, UNIT);
  }

  lemma BlocksBetween(x: int, a: int)
    requires x < a && x % UNIT == 0 && a % UNIT == 0
    ensures x + UNIT <= a
  {
  }

  lemma SumOfBlocks(x: int, y: int)
    requires x % UNIT == 0 && (x + y) % UNIT == 0
    ensures y % UNIT == 0
  {
    var k, m := x / UNIT, (x + y) / UNIT;
    assert y == (m - k) * UNIT;
  }

  /** The pseudo header lies on a block boundary behind the real header, and the pointer behind it is aligned. */
  lemma PseudoIsAligned(ptr: nat, alignment: nat)
    requires 0 < alignment && alignment % UNIT == 0 && ptr % UNIT == 0
    ensures var d := PseudoOffset(ptr, alignment);
            (ptr + d) % alignment == 0 && d % UNIT == 0 && UNIT <= d <= alignment
  {
    NextMultiple(ptr + UNIT, alignment);
    AfterPseudo(ptr, alignment, (alignment - (ptr + UNIT) % alignment) % alignment);
  }

  lemma AfterPseudo(ptr: nat, alignment: nat, e: nat)
    requires 0 < alignment && alignment % UNIT == 0 && ptr % UNIT == 0 && e < alignment &&
             (ptr + UNIT + e) % alignment == 0
    ensures e % UNIT == 0 && e + UNIT <= alignment
  {
    MultipleOfMultiple(ptr + UNIT + e, alignment);
    SumOfBlocks(ptr + UNIT, e);
    BlocksBetween(e, alignment);
  }

  /** No pointer between the real header and the pseudo header is aligned. */
  lemma PseudoIsFirst(ptr: nat, alignment: nat, d: nat)
    requires 0 < alignment && alignment % UNIT == 0 && ptr % UNIT == 0 && UNIT <= d < PseudoOffset(ptr, alignment)
    ensures (ptr + d) % alignment != 0
  {
    PseudoIsAligned(ptr, alignment);
    hide PseudoOffset;
    if (ptr + d) % alignment == 0 { MultiplesApart(ptr + d, ptr + PseudoOffset(ptr, alignment), alignment); }
  }

  lemma MultiplesApart(x: nat, y: nat, a: nat)
    requires 0 < a && x % a == 0 && y % a == 0 && x < y
    ensures a <= y - x
  {
    var q, r := x / a, y / a;
    assert x == q * a && y == r * a;
    assert q < r by { if r <= q { MulLe(r, q, a); } }
    MulLe(q + 1, r, a);
    assert (q + 1) * a == q * a + a;
  }

  /** The chunk is large enough for the pseudo header and the nominal body behind it, wherever they fall. */
  lemma NominalBodyFits(alignment: size_t, size: size_t, d: nat)
    requires AllocSize(alignment, size).Some? && alignment % UNIT == 0 && UNIT <= d <= alignment && d % UNIT == 0
    ensures var n := AllocSize(alignment, size).value;
            d / UNIT + BlocksForSize(size) <= BlocksForSize(n) && size <= BlocksForSize(size) * UNIT &&
              d / UNIT <= BlocksForSize(n)
  {
    hide IsPowerOf2;
  }

  /** memalign refuses exactly what is not a power of two, or leaves no room for the pseudo header below 2^64. */
  lemma AllocSizeChecks(alignment: size_t, size: size_t)
    ensures AllocSize(alignment, size).None? <==> !IsPowerOf2(alignment) || size + alignment > WORD - 2 * UNIT
    ensures AllocSize(alignment, size).Some? ==>
              var n := AllocSize(alignment, size).value;
              n % UNIT == 0 && size + alignment + UNIT <= n < size + alignment + 2 * UNIT
  {
    assert IsPowerOf2(alignment) ==> alignment > 0;
    hide IsPowerOf2;
  }

  lemma PlaceOfPseudo(ptr: nat, alignment: size_t, size: size_t)
    requires AllocSize(alignment, size).Some? && 0 < alignment && ptr % UNIT == 0 && ptr % alignment != 0
    ensures var k := PseudoOffset(ptr, alignment) / UNIT;
            && 1 <= k && k + BlocksForSize(size) <= BlocksForSize(AllocSize(alignment, size).value)
            && (ptr + UNIT * k) % alignment == 0 && size <= BlocksForSize(size) * UNIT
    ensures forall j :: 0 <= j < PseudoOffset(ptr, alignment) / UNIT ==> (ptr + UNIT * j) % alignment != 0
  {
    hide AllocSize, IsPowerOf2, PseudoOffset, BlocksForSize;
    AlignmentOrBlock(alignment);
    if alignment < UNIT && UNIT % alignment == 0 { SmallAlignments(ptr, alignment); }
    PseudoIsAligned(ptr, alignment);
    NominalBodyFits(alignment, size, PseudoOffset(ptr, alignment));
    forall j | 0 <= j < PseudoOffset(ptr, alignment) / UNIT ensures (ptr + UNIT * j) % alignment != 0 {
      if j > 0 { PseudoIsFirst(ptr, alignment, UNIT * j); }
    }
  }

  lemma RoomForPseudo(ptr: int, alignment: size_t, size: size_t)
    requires AllocSize(alignment, size).Some? && 0 <= ptr && ptr % UNIT == 0 && !IsAligned(ptr, alignment)
    ensures 0 < alignment && 1 <= PseudoOffset(ptr, alignment) / UNIT <= BlocksForSize(AllocSize(alignment, size).value)
  {
    hide AllocSize, PseudoOffset, BlocksForSize;
    PlaceOfPseudo(ptr, alignment, size);
  }

  lemma SmallAlignmentFits(alignment: size_t, size: size_t)
    requires AllocSize(alignment, size).Some?
    ensures size <= AllocSize(alignment, size).value
  {
    hide IsPowerOf2;
  }

  // ---------------------------------------------------------------- memalign

  /** An aligned pointer behind header `p`, whose nominal body lies in the body of chunk `q` and holds `size` bytes. */
  ghost predicate Aligned(c: Config, h: Heap, p: Place, q: Place, alignment: nat, size: nat)
    requires c.header <= 0x1000
  {
    && 0 < alignment && 0 <= Address(c, h, p) && (Address(c, h, p) + UNIT) % alignment == 0
    && Exists(h, p) && Exists(h, q) && Actual(h, p) == q
    && (p == q || (p.base == q.base && q.i < p.i))
    && Load(h, p).Header? && size <= (Load(h, p).blocks - 1) * UNIT
    && Address(c, h, p) + UNIT * Load(h, p).blocks <= Address(c, h, q) + UNIT * (|BodyOf(h, q)| + 1)
  }

  /** The pointer is the chunk's own if that is aligned, and else the first aligned one, with a header of its own. */
  ghost predicate FirstAligned(c: Config, h: Heap, p: Place, q: Place, alignment: nat, size: size_t)
    requires c.header <= 0x1000
  {
    && 0 < alignment && Exists(h, p)
    && (p == q <==> (Address(c, h, q) + UNIT) % alignment == 0)
    && (p != q ==> Load(h, p) == Header(BlocksForSize(size) + 1, At(q.i), PSEUDO_FLAG))
    && (p != q ==> forall k :: q.i <= k < p.i ==> (Address(c, h, Place(q.base, k)) + UNIT) % alignment != 0)
  }

  lemma AlreadyAligned(c: Config, g: Heap, q: Place, alignment: size_t, size: size_t, n: nat)
    requires HeapInv(c, g) && Live(g, q) && 0 < alignment && (Address(c, g, q) + UNIT) % alignment == 0 &&
             size <= n <= |BodyOf(g, q)| * UNIT
    ensures Aligned(c, g, q, q, alignment, size) && FirstAligned(c, g, q, q, alignment, size)
  {
    LiveChunk(c, g, q);
    RealHeaderIsActual(g, q);
    BlockInside(c, g, q);
    BasesArePositive(c, g, q.base);
    hide HeapInv, Address, Live, Exists, Load, BodyOf, Actual;
  }

  lemma BasesArePositive(c: Config, h: Heap, b: int)
    requires HeapInv(c, h) && Mapped(h, b)
    ensures 0 < b
  {
    assert b in h.zones ==> ZoneOk(c, b, h.zones[b]);
    assert b in h.bigs ==> BigOk(c, b, h.bigs[b]);
    hide Inv, ListsOk, Apart;
  }

  lemma PseudoLoads(c: Config, g: Heap, h': Heap, q: Place, k: nat, cell: Cell)
    requires HeapInv(c, g) && Live(g, q) && 1 <= k <= |BodyOf(g, q)|
    requires HeapInv(c, h') && Rewritten(g, h', q, BodyOf(g, q)[k - 1 := cell])
    ensures Exists(h', Place(q.base, q.i + k)) && Load(h', Place(q.base, q.i + k)) == cell && Exists(h', q)
  {
    hide HeapInv, Live, BodyOf, Load, Exists, OthersSame;
    BodyBlock(c, h', q, k);
    LiveChunk(c, h', q);
  }

  lemma SameAddresses(c: Config, g: Heap, q: Place, k: nat, cell: Cell, p: Place)
    requires c.header <= 0x1000
    ensures Address(c, WriteCell(g, q, k, cell), p) == Address(c, g, p)
  {
    hide Z.Step;
  }

  /** The pseudo header written at block `k` of chunk `q` points back to the header of `q`. */
  lemma PseudoWritten(c: Config, g: Heap, q: Place, k: nat, blocks: nat)
    requires HeapInv(c, g) && Live(g, q) && 1 <= k <= |BodyOf(g, q)|
    ensures var h', p := WriteCell(g, q, k, Header(blocks, At(q.i), PSEUDO_FLAG)), Place(q.base, q.i + k);
            && HeapInv(c, h') && Live(h', q) && |BodyOf(h', q)| == |BodyOf(g, q)| && OthersSame(g, h', q)
            && Exists(h', p) && Exists(h', q) && Actual(h', p) == q &&
               Load(h', p) == Header(blocks, At(q.i), PSEUDO_FLAG)
            && Address(c, h', q) == Address(c, g, q) && Address(c, h', p) == Address(c, g, q) + UNIT * k
  {
    assert GoodConfig(c);
    hide HeapInv, Live, Exists, Load, BodyOf, WriteCell, Address, OthersSame;
    var cell := Header(blocks, At(q.i), PSEUDO_FLAG);
    var h', p := WriteCell(g, q, k, cell), Place(q.base, q.i + k);
    WriteKeeps(c, g, q, k, cell);
    PseudoLoads(c, g, h', q, k, cell);
    SameAddresses(c, g, q, k, cell, p);
    SameAddresses(c, g, q, k, cell, q);
    Distance(c, h', q, p);
  }

  lemma ChunkStart(c: Config, g: Heap, q: Place)
    requires HeapInv(c, g) && Live(g, q)
    ensures GoodConfig(c) && 0 < Address(c, g, q) && Address(c, g, q) % UNIT == 0
  {
    LiveChunk(c, g, q);
    BlockInside(c, g, q);
    BasesArePositive(c, g, q.base);
    hide Live, Load, Exists, Address, ZoneOk, BigOk, ListsOk, Apart;
  }

  lemma PseudoPlaced(c: Config, g: Heap, q: Place, alignment: size_t, size: size_t)
    requires HeapInv(c, g) && Live(g, q) && AllocSize(alignment, size).Some? &&
             |BodyOf(g, q)| == BlocksForSize(AllocSize(alignment, size).value)
    requires c.header <= 0x1000 && 0 < alignment && 0 <= Address(c, g, q) && (Address(c, g, q) + UNIT) % alignment != 0
    ensures var k := PseudoOffset(Address(c, g, q) + UNIT, alignment) / UNIT;
            var h' := WriteCell(g, q, k, Header(BlocksForSize(size) + 1, At(q.i), PSEUDO_FLAG));
            && HeapInv(c, h') && Live(h', q) && |BodyOf(h', q)| == |BodyOf(g, q)| && OthersSame(g, h', q)
            && Aligned(c, h', Place(q.base, q.i + k), q, alignment, size)
            && FirstAligned(c, h', Place(q.base, q.i + k), q, alignment, size)
  {
    hide HeapInv, AllocSize, IsPowerOf2, PseudoOffset, Live, Exists, Load, BodyOf, WriteCell, Address, BlocksForSize,
         OthersSame, Actual;
    ChunkStart(c, g, q);
    PlaceOfPseudo(Address(c, g, q) + UNIT, alignment, size);
    var k := PseudoOffset(Address(c, g, q) + UNIT, alignment) / UNIT;
    PseudoWritten(c, g, q, k, BlocksForSize(size) + 1);
    var h' := WriteCell(g, q, k, Header(BlocksForSize(size) + 1, At(q.i), PSEUDO_FLAG));
    forall i | q.i <= i < q.i + k ensures (Address(c, h', Place(q.base, i)) + UNIT) % alignment != 0 {
      Distance(c, h', q, Place(q.base, i));
    }
  }

  lemma AddedThenWritten(h: Heap, g: Heap, h': Heap, q: Place, blocks: nat)
    requires Added(h, g, q, blocks) && Live(h', q) && |BodyOf(h', q)| == |BodyOf(g, q)| && OthersSame(g, h', q)
    ensures Added(h, h', q, blocks)
  {
    forall r | r != q ensures SameAt(h, h', r) { assert SameAt(h, g, r) && SameAt(g, h', r); }
    hide Live, BodyOf;
  }

  lemma AlignedChunk(c: Config, h: Heap, p: Place, q: Place, alignment: size_t, size: size_t)
    requires c.header <= 0x1000 && Aligned(c, h, p, q, alignment, size)
    ensures ChunkOf(h, p) == q
  {
    hide Exists, Load, BodyOf, Address, Actual;
  }

  lemma AlignedAlready(c: Config, h: Heap, g: Heap, q: Place, alignment: size_t, size: size_t)
    requires HeapInv(c, g) && AllocSize(alignment, size).Some? && c.header <= 0x1000
    requires Added(h, g, q, BlocksForSize(AllocSize(alignment, size).value)) &&
             AllocSize(alignment, size).value <= |BodyOf(g, q)| * UNIT
    requires IsAligned(Address(c, g, q) + UNIT, alignment)
    ensures AlignIn(c, g, q, alignment, size) == (g, q)
    ensures Aligned(c, g, q, q, alignment, size) && FirstAligned(c, g, q, q, alignment, size)
  {
    assert Live(g, q);
    hide HeapInv, AllocSize, PseudoOffset, Live, BodyOf, WriteCell, Address, BlocksForSize, Added, Aligned,
         FirstAligned;
    SmallAlignmentFits(alignment, size);
    ChunkStart(c, g, q);
    AlreadyAligned(c, g, q, alignment, size, AllocSize(alignment, size).value);
  }

  lemma BehindIs(c: Config, g: Heap, q: Place, alignment: size_t, size: size_t)
    requires c.header <= 0x1000 && !IsAligned(Address(c, g, q) + UNIT, alignment) && 0 < Address(c, g, q)
    ensures 0 < alignment && (Address(c, g, q) + UNIT) % alignment != 0
    ensures var k := PseudoOffset(Address(c, g, q) + UNIT, alignment) / UNIT;
            AlignIn(c, g, q, alignment, size) ==
            (WriteCell(g, q, k, Header(BlocksForSize(size) + 1, At(q.i), PSEUDO_FLAG)), Place(q.base, q.i + k))
  {
    hide PseudoOffset, WriteCell, Address, BlocksForSize;
  }

  lemma AlignedBehind(c: Config, h: Heap, g: Heap, q: Place, alignment: size_t, size: size_t)
    requires HeapInv(c, g) && AllocSize(alignment, size).Some? && c.header <= 0x1000
    requires Added(h, g, q, BlocksForSize(AllocSize(alignment, size).value))
    requires !IsAligned(Address(c, g, q) + UNIT, alignment)
    ensures var (h', p) := AlignIn(c, g, q, alignment, size);
            && HeapInv(c, h') && Added(h, h', q, BlocksForSize(AllocSize(alignment, size).value))
            && Aligned(c, h', p, q, alignment, size) && FirstAligned(c, h', p, q, alignment, size)
  {
    var blocks := BlocksForSize(AllocSize(alignment, size).value);
    assert Live(g, q) && |BodyOf(g, q)| == blocks;
    hide *;
    ChunkStart(c, g, q);
    BehindIs(c, g, q, alignment, size);
    PseudoPlaced(c, g, q, alignment, size);
    AddedThenWritten(h, g, AlignIn(c, g, q, alignment, size).0, q, blocks);
  }

  lemma AlignInKeeps(c: Config, h: Heap, g: Heap, q: Place, alignment: size_t, size: size_t)
    requires HeapInv(c, g) && AllocSize(alignment, size).Some? && c.header <= 0x1000
    requires Added(h, g, q, BlocksForSize(AllocSize(alignment, size).value)) &&
             AllocSize(alignment, size).value <= |BodyOf(g, q)| * UNIT
    ensures var (h', p) := AlignIn(c, g, q, alignment, size);
            && HeapInv(c, h') && ChunkOf(h', p) == q
            && Added(h, h', q, BlocksForSize(AllocSize(alignment, size).value)) && Aligned(c, h', p, q, alignment, size)
            && FirstAligned(c, h', p, q, alignment, size)
  {
    hide *;
    if IsAligned(Address(c, g, q) + UNIT, alignment) {
      AlignedAlready(c, h, g, q, alignment, size);
    } else {
      AlignedBehind(c, h, g, q, alignment, size);
    }
    var (h', p) := AlignIn(c, g, q, alignment, size);
    AlignedChunk(c, h', p, q, alignment, size);
  }

  /**
    memalign that returns NULL has changed nothing for the callers; with a pointer there is one new chunk, the
    pointer is aligned, and the size its header shows lies within the new chunk, behind its header, and covers the
    request.
  */
  lemma MemalignKeeps(c: Config, h: Heap, alignment: size_t, size: size_t, os: Os)
    requires HeapInv(c, h)
    ensures var (h', p) := Memalign(c, h, alignment, size, os);
            && HeapInv(c, h') && (p.Fails? ==> AllSame(h, h'))
            && (p.Gives? ==> var q := ChunkOf(h', p.value);
                            Added(h, h', q, BlocksForSize(AllocSize(alignment, size).value)) &&
                              Aligned(c, h', p.value, q, alignment, size) &&
                              FirstAligned(c, h', p.value, q, alignment, size))
  {
    assert GoodConfig(c);
    NothingChanged(h);
    hide HeapInv, AllocSize, Malloc, BodyOf, AllSame, Added, Aligned, FirstAligned, AlignIn, ChunkOf, BlocksForSize;
    var n := AllocSize(alignment, size);
    if n.Some? {
      var (g, q) := Malloc(c, h, n.value, os);
      MallocKeeps(c, h, n.value, os);
      if q.Gives? {
        AlignInKeeps(c, h, g, q.value, alignment, size);
      }
    }
  }

  /** free of a pointer from memalign frees the whole chunk behind it, and nothing else. */
  lemma MemalignThenFree(c: Config, h: Heap, p: Place)
    requires HeapInv(c, h) && Live(h, ChunkOf(h, p)) && Exists(h, p)
    ensures FreeAt(c, h, p) == FreeAt(c, h, ChunkOf(h, p))
    ensures HeapInv(c, FreeAt(c, h, p)) && Freed(h, FreeAt(c, h, p), ChunkOf(h, p))
  {
    var q := ChunkOf(h, p);
    assert GoodConfig(c);
    LiveChunk(c, h, q);
    RealHeaderIsActual(h, q);
    FreeKeeps(c, h, q);
    hide HeapInv, Live, Exists, Load, Actual, Freed, ZoneAndIndex, FreeLocked, FreeLarge, SetView;
  }
}
