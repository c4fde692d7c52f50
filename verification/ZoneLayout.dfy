/**
  Where a zone lies in memory: srcs/zone_initialize.c, the address functions of srcs/zone_utils.c and the aligned
  mapping of srcs/memory_alloc.c.  Addresses are natural numbers below WORD.
*/
module ZoneLayout {
  import opened Sizes
  import opened Wrappers
  import opened NatBits
  import opened ZoneModel

  const ZONE_TINY_BYTE: nat := 0x4_0000
  const ZONE_SMALL_BYTE: nat := 0x80_0000

  function AlignmentOf(class_: ZoneType): nat {
    if class_ == TINY then ZONE_TINY_BYTE else ZONE_SMALL_BYTE
  }

  /** zone_bytes_for_zone_type. */
  function ZoneBytes(class_: ZoneType, page: nat): nat
    requires page > 0
  {
    match class_
    case TINY => ZONE_TINY_BYTE / page * page
    case SMALL => ZONE_SMALL_BYTE / page * page
    case LARGE => 0
  }

  // ---------------------------------------------------------------- header, bitmaps and heap

  /** heap_bytes_for_zone_bytes, in blocks; `header` is sizeof(t_yoyo_zone). */
  function HeapBlocks(zone: nat, header: nat): nat
    requires header <= zone
  {
    4 * (zone - header) / (4 * UNIT + 1) / 8 * 8
  }

  function BitmapBytes(zone: nat, header: nat): nat
    requires header <= zone
  {
    HeapBlocks(zone, header) * UNIT / UNIT / 8
  }

  function OffsetHeap(zone: nat, header: nat): int
    requires header <= zone
  {
    zone - HeapBlocks(zone, header) * UNIT
  }

  /** The bytes taken by the header, two bitmaps for `h` blocks, and the blocks. */
  function Needs(header: nat, h: nat): nat { header + 2 * (h / 8) + UNIT * h }

  /** The heap is as large as it can be in whole bitmap bytes. */
  lemma HeapIsLargest(zone: nat, header: nat)
    requires header <= zone
    ensures var h := HeapBlocks(zone, header);
            h % 8 == 0 && Needs(header, h) <= zone && forall k: nat :: k % 8 == 0 && Needs(header, k) <= zone ==> k <= h
  {
    var h := HeapBlocks(zone, header);
    var t := 4 * (zone - header) / (4 * UNIT + 1);
    assert h == t / 8 * 8;
    forall k: nat | k % 8 == 0 && Needs(header, k) <= zone ensures k <= h {
      assert 65 * k <= 4 * (zone - header);
      assert k <= t;
    }
  }

  /** The parts of a zone follow one another without overlap, and blocks are aligned. */
  lemma PartsAreDisjoint(zone: nat, header: nat)
    requires header <= zone && zone % UNIT == 0
    ensures var heads := header;
            var used := heads + BitmapBytes(zone, header);
            && used + BitmapBytes(zone, header) <= OffsetHeap(zone, header)
            && OffsetHeap(zone, header) + UNIT * HeapBlocks(zone, header) == zone
            && OffsetHeap(zone, header) % UNIT == 0
            && 8 * BitmapBytes(zone, header) == HeapBlocks(zone, header)
  {
    HeapIsLargest(zone, header);
  }

  /** Real zones have room for two chunks of any size of their class, and their block counts fit 32 bits. */
  lemma RoomInAZone(class_: ZoneType, page: nat, header: nat)
    requires class_ != LARGE && page > 0 && AlignmentOf(class_) % page == 0 && header <= 0x1000
    ensures ZoneBytes(class_, page) == AlignmentOf(class_)
    ensures 2 * LiveMax(class_) <= HeapBlocks(AlignmentOf(class_), header) <= AlignmentOf(class_) / UNIT < 0x1_0000_0000
  {
  }

  // ---------------------------------------------------------------- from a chunk to its zone

  /** The address of heap block `i` of the zone at `base`. */
  function BlockAddress(base: nat, zone: nat, header: nat, i: nat): int
    requires header <= zone
  {
    base + OffsetHeap(zone, header) + UNIT * i
  }

  /** get_block_index. */
  function BlockIndex(base: nat, zone: nat, header: nat, addr: nat): int
    requires header <= zone
  {
    (addr - (base + OffsetHeap(zone, header))) / UNIT
  }

  lemma BlockIndexInverts(base: nat, zone: nat, header: nat, i: nat)
    requires header <= zone
    ensures BlockAddress(base, zone, header, i) >= 0 ==>
              BlockIndex(base, zone, header, BlockAddress(base, zone, header, i)) == i
  {
  }

  /** get_zone_of_chunk, which sees the address and the `blocks` of a chunk header and nothing else. */
  function ZoneOfChunk(addr: nat, blocks: nat): Option<nat>
    requires blocks >= 1
  {
    var zoneType := ZoneTypeForBytes((blocks - 1) * UNIT);
    if zoneType == LARGE then None
    else Some(And(addr, SIZE_MAX - ((if zoneType == TINY then ZONE_TINY_BYTE else ZONE_SMALL_BYTE) - 1)))
  }

  lemma WordPowers()
    ensures WORD == Pow2(64) && ZONE_TINY_BYTE == Pow2(18) && ZONE_SMALL_BYTE == Pow2(23)
  {
    Pow2Of64();
    assert Pow2(9) == 0x200 && Pow2(14) == 0x4000;
    Pow2Add(9, 9);
    Pow2Add(9, 14);
  }

  lemma MaskRoundsDown(addr: nat, size: nat)
    requires addr < WORD && (size == ZONE_TINY_BYTE || size == ZONE_SMALL_BYTE)
    ensures And(addr, SIZE_MAX - (size - 1)) == addr - addr % size
  {
    WordPowers();
    var k := if size == ZONE_TINY_BYTE then 18 else 23;
    AndHighMask(addr, k, 64);
    assert SIZE_MAX - (size - 1) == Pow2(64) - Pow2(k);
  }

  /** For a live chunk of a zone, size and address lead back to the zone. */
  lemma LiveChunkFindsZone(class_: ZoneType, base: nat, addr: nat, blocks: nat)
    requires class_ != LARGE && base % AlignmentOf(class_) == 0 && base <= addr < base + AlignmentOf(class_) &&
             addr < WORD
    requires LiveMin(class_) <= blocks <= LiveMax(class_)
    ensures ZoneOfChunk(addr, blocks) == Some(base)
  {
    MaskRoundsDown(addr, AlignmentOf(class_));
    var size := AlignmentOf(class_);
    Remainder(addr, size, base / size, addr - base);
    assert ZoneTypeForBytes((blocks - 1) * UNIT) == class_;
  }

  /** Only the sizes of live chunks lead to the right mask: a free SMALL chunk may be one block too small for it. */
  lemma SizesThatFindSmallZones(blocks: nat)
    requires 1 <= blocks && (blocks - 1) * UNIT <= WORD - UNIT
    ensures ZoneTypeForBytes((blocks - 1) * UNIT) == SMALL <==> LiveMin(SMALL) <= blocks <= LiveMax(SMALL)
    ensures ZoneTypeForBytes((FreeMin(SMALL) - 1) * UNIT) != SMALL
  {
  }

  // ---------------------------------------------------------------- aligned mapping

  datatype Range = Range(begin: nat, end: nat)

  /** yoyo_map_memory with align, on a mapping of `2 * bytes` at `bulk`: what is kept and what is unmapped. */
  function TrimmedMapping(bulk: nat, bytes: nat): (nat, Range, Range)
    requires bytes > 0
  {
    var mem := CeilBy(bulk, bytes);
    (mem, Range(bulk, mem), Range(mem + bytes, bulk + 2 * bytes))
  }

  lemma TrimmingAligns(bulk: nat, bytes: nat)
    requires 0 < bytes && WORD % bytes == 0 && bulk + 2 * bytes <= WORD
    ensures var (mem, before, after) := TrimmedMapping(bulk, bytes);
            && mem % bytes == 0
            && bulk <= mem && mem + bytes <= bulk + 2 * bytes
            && before.begin <= before.end == mem && mem + bytes == after.begin <= after.end
            && (before.end - before.begin) + (after.end - after.begin) == bytes
  {
    if bulk == 0 {
      assert bytes % bytes == 0;
    } else {
      CeilByExact(bulk, bytes);
    }
  }
}
