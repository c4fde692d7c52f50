/**
  The whole allocator: where chunks lie, that free finds the zone of every live chunk, and that every operation
  keeps the invariant and leaves the contents of other chunks alone.
*/
module HeapProofs {
  import opened Sizes
  import opened Wrappers
  import opened ZoneModel
  import opened ZoneShrink
  import opened ZoneFree
  import opened ZoneStore
  import Z = ZoneRuns
  import opened ZoneLayout
  import L = LargeList
  import opened LinkedLists
  import opened HeapModel

  // ---------------------------------------------------------------- addresses

  lemma ConfigIsGood(c: Config, h: Heap)
    requires HeapInv(c, h)
    ensures GoodConfig(c)
  {
  }

  /** The blocks of a zone fill its mapping from an aligned offset up to its end. */
  lemma BlocksFill(c: Config, class_: ZoneType)
    requires GoodConfig(c) && class_ != LARGE
    ensures var size := AlignmentOf(class_);
            && c.header + 2 * BitmapBytes(size, c.header) <= OffsetHeap(size, c.header) &&
               OffsetHeap(size, c.header) % UNIT == 0
            && OffsetHeap(size, c.header) + UNIT * HeapBlocks(size, c.header) == size
            && 2 * LiveMax(class_) <= HeapBlocks(size, c.header)
  {
    PartsAreDisjoint(AlignmentOf(class_), c.header);
    RoomInAZone(class_, c.page, c.header);
  }

  lemma ZoneBlockInside(c: Config, b: int, z: ZoneAt, i: nat)
    requires GoodConfig(c) && ZoneOk(c, b, z) && i < |z.view.mem|
    ensures var a := b + OffsetHeap(AlignmentOf(z.class_), c.header) + UNIT * i;
            && b + c.header + 2 * BitmapBytes(AlignmentOf(z.class_), c.header) <= a
            && b <= a && a + UNIT <= b + AlignmentOf(z.class_) && a % UNIT == 0
  {
    hide HeapBlocks, OffsetHeap, Inv;
    LengthsAgree(z.view, z.class_);
    BlocksFill(c, z.class_);
    BasesAreAligned(b, z.class_);
    var k, m := b / UNIT, OffsetHeap(AlignmentOf(z.class_), c.header) / UNIT;
    UnitsAdd((k + m) * UNIT, i);
  }

  lemma LengthsAgree(v: View, class_: ZoneType)
    requires Inv(v, class_)
    ensures |v.mem| == |v.tags|
  {
    hide Threaded, Counted, Rover, Coalesced, Classed;
  }

  lemma BasesAreAligned(b: int, class_: ZoneType)
    requires b % AlignmentOf(class_) == 0
    ensures b % UNIT == 0
  {
  }

  lemma UnitsAdd(a: int, i: nat)
    requires a % UNIT == 0
    ensures (a + UNIT * i) % UNIT == 0
  {
    var k := a / UNIT;
    assert a + UNIT * i == (k + i) * UNIT;
  }

  /** The address behind what a mapping keeps for itself: zone header and two bitmaps, or LARGE header. */
  function HeapStart(c: Config, h: Heap, b: int): int
    requires c.header <= 0x1000
  {
    if b in h.zones then b + c.header + 2 * BitmapBytes(AlignmentOf(h.zones[b].class_), c.header)
      else b + LARGE_OFFSET - UNIT
  }

  lemma BigBlockInside(c: Config, b: int, x: Big, i: nat)
    requires BigOk(c, b, x) && i <= |x.body|
    ensures var a := b + LARGE_OFFSET - UNIT + UNIT * i; a + UNIT <= b + x.bytes && a % UNIT == 0
  {
    UnitsAdd(b + LARGE_OFFSET - UNIT, i);
  }

  lemma MappingOk(c: Config, h: Heap, p: Place)
    requires HeapInv(c, h) && Exists(h, p)
    ensures GoodConfig(c)
    ensures if p.base in h.zones then ZoneOk(c, p.base, h.zones[p.base]) && p.i < |h.zones[p.base].view.mem|
            else p.base in h.bigs && BigOk(c, p.base, h.bigs[p.base]) && p.i <= |h.bigs[p.base].body|
  {
    hide ZoneOk, BigOk, ListsOk, Apart;
  }

  /**
    The bytes of a block lie inside the mapping, behind the zone header and the bitmaps, or behind the LARGE header.
  */
  lemma BlockInside(c: Config, h: Heap, p: Place)
    requires HeapInv(c, h) && Exists(h, p)
    ensures Mapped(h, p.base) && p.base <= HeapStart(c, h, p.base) <= Address(c, h, p)
    ensures Address(c, h, p) + UNIT <= p.base + Extent(h, p.base) && Address(c, h, p) % UNIT == 0
  {
    MappingOk(c, h, p);
    hide HeapInv, Exists, ZoneOk, BigOk, OffsetHeap, BitmapBytes, GoodConfig;
    if p.base in h.zones {
      ZoneBlockInside(c, p.base, h.zones[p.base], p.i);
    } else {
      BigBlockInside(c, p.base, h.bigs[p.base], p.i);
    }
  }

  /** Different blocks have different addresses. */
  lemma BlocksApart(c: Config, h: Heap, p: Place, q: Place)
    requires HeapInv(c, h) && Exists(h, p) && Exists(h, q) && p != q
    ensures Address(c, h, p) + UNIT <= Address(c, h, q) || Address(c, h, q) + UNIT <= Address(c, h, p)
  {
    if p.base != q.base {
      BlockInside(c, h, p);
      BlockInside(c, h, q);
      assert Apart(h);
    }
    hide ZoneOk, BigOk, ListsOk, Address;
    if p.base == q.base {
      SameBaseApart(c, h, p, q);
    }
  }

  lemma SameBaseApart(c: Config, h: Heap, p: Place, q: Place)
    requires c.header <= 0x1000 && p.base == q.base && p.i != q.i
    ensures Address(c, h, p) + UNIT <= Address(c, h, q) || Address(c, h, q) + UNIT <= Address(c, h, p)
  {
    hide OffsetHeap;
  }

  /** A live chunk: its blocks exist, its header says how many, and its body is what follows. */
  lemma LiveChunk(c: Config, h: Heap, p: Place)
    requires HeapInv(c, h) && Live(h, p)
    ensures Exists(h, p) && Load(h, p).Header? && Load(h, p).blocks == |BodyOf(h, p)| + 1 && 1 <= |BodyOf(h, p)|
    ensures p.base in h.zones ==>
              LiveMin(h.zones[p.base].class_) <= Load(h, p).blocks <= LiveMax(h.zones[p.base].class_) &&
                Load(h, p).flags == 0
    ensures p.base !in h.zones ==> p.i == 0 && Load(h, p).flags == LARGE_FLAG && SMALL_MAX_BLOCKS < |BodyOf(h, p)|
  {
    if p.base in h.zones {
      var v := h.zones[p.base].view;
      assert ZoneOk(c, p.base, h.zones[p.base]);
      assert ChunkAt(v.tags, v.mem, p.i);
    } else {
      assert BigOk(c, p.base, h.bigs[p.base]);
    }
    hide Threaded, Counted, Rover, Coalesced, ListsOk, Apart;
  }

  lemma BodyBlock(c: Config, h: Heap, p: Place, k: nat)
    requires HeapInv(c, h) && Live(h, p) && 1 <= k <= |BodyOf(h, p)|
    ensures Exists(h, Place(p.base, p.i + k)) && Load(h, Place(p.base, p.i + k)) == BodyOf(h, p)[k - 1]
  {
    if p.base in h.zones {
      var v := h.zones[p.base].view;
      assert ZoneOk(c, p.base, h.zones[p.base]);
      assert ChunkAt(v.tags, v.mem, p.i);
    }
    hide Threaded, Counted, Rover, Coalesced, ListsOk, Apart;
  }

  lemma Distance(c: Config, h: Heap, p: Place, q: Place)
    requires c.header <= 0x1000 && p.base == q.base
    ensures Address(c, h, q) - Address(c, h, p) == UNIT * (q.i - p.i)
  {
    hide OffsetHeap;
  }

  lemma ZoneChunksApart(c: Config, h: Heap, p: Place, q: Place)
    requires HeapInv(c, h) && Live(h, p) && Live(h, q) && p.base == q.base && p.base in h.zones && p.i < q.i
    ensures p.i + |BodyOf(h, p)| + 1 <= q.i
  {
    LiveChunk(c, h, p);
    var z := h.zones[p.base];
    assert Load(h, p) == z.view.mem[p.i];
    assert ZoneOk(c, p.base, z);
    hide HeapInv, Load, BodyOf, Threaded, Counted, Coalesced, Classed, HeapBlocks;
    ChunksDisjoint(z.view, p.i, q.i);
  }

  /** A live chunk, header and body, lies inside its mapping and behind what the mapping keeps for itself. */
  lemma LiveChunkInside(c: Config, h: Heap, p: Place)
    requires HeapInv(c, h) && Live(h, p)
    ensures Exists(h, p) && Mapped(h, p.base) && HeapStart(c, h, p.base) <= Address(c, h, p) &&
            p.base <= Address(c, h, p)
    ensures Address(c, h, p) + UNIT * (|BodyOf(h, p)| + 1) <= p.base + Extent(h, p.base)
  {
    hide *;
    ConfigIsGood(c, h);
    HeaderIsSmall(c);
    LiveChunk(c, h, p);
    var last := Place(p.base, p.i + |BodyOf(h, p)|);
    BodyBlock(c, h, p, |BodyOf(h, p)|);
    BlockInside(c, h, p);
    BlockInside(c, h, last);
    Distance(c, h, p, last);
  }

  lemma HeaderIsSmall(c: Config)
    requires GoodConfig(c)
    ensures 0 < c.page && c.header <= 0x1000
  {
  }

  lemma MappingsApart(c: Config, h: Heap, a: int, b: int)
    requires HeapInv(c, h) && Mapped(h, a) && Mapped(h, b) && a != b
    ensures a + Extent(h, a) <= b || b + Extent(h, b) <= a
  {
    hide ZoneOk, BigOk, ListsOk, Extent, Mapped;
    assert Apart(h);
  }

  /** Distinct live chunks, headers and bodies, occupy disjoint ranges of addresses. */
  lemma LiveChunksApart(c: Config, h: Heap, p: Place, q: Place)
    requires HeapInv(c, h) && Live(h, p) && Live(h, q) && p != q
    ensures Address(c, h, p) + UNIT * (|BodyOf(h, p)| + 1) <= Address(c, h, q)
            || Address(c, h, q) + UNIT * (|BodyOf(h, q)| + 1) <= Address(c, h, p)
  {
    hide HeapInv, BodyOf, Address, Extent, Mapped, HeapStart, Exists, Load;
    ConfigIsGood(c, h);
    HeaderIsSmall(c);
    if p.base == q.base {
      if p.base in h.zones {
        if p.i < q.i { ZoneChunksApart(c, h, p, q); } else { ZoneChunksApart(c, h, q, p); }
      }
      Distance(c, h, p, q);
    } else {
      LiveChunkInside(c, h, p);
      LiveChunkInside(c, h, q);
      MappingsApart(c, h, p.base, q.base);
    }
  }

  /**
    For every live TINY or SMALL chunk, the size in its header and its address lead free back to its zone and its
    block.
  */
  lemma FreeFindsZone(c: Config, h: Heap, p: Place)
    requires HeapInv(c, h) && Live(h, p) && p.base in h.zones
    ensures ZoneAndIndex(c, h, p) == Some(p)
  {
    LiveChunk(c, h, p);
    BlockInside(c, h, p);
    var class_ := h.zones[p.base].class_;
    assert ZoneOk(c, p.base, h.zones[p.base]);
    hide Inv, HeapInv, Exists, Live, ListsOk, Apart;
    LiveChunkFindsZone(class_, p.base, Address(c, h, p), Load(h, p).blocks);
    BlockIndexInverts(p.base, AlignmentOf(class_), c.header, p.i);
    hide ZoneOfChunk, OffsetHeap, Load;
  }
}
