/**
  Every operation of the whole allocator keeps the invariant, does to its own chunk what the C standard says, and leaves
  the contents of every other chunk alone.
*/
module HeapOps {
  import opened Sizes
  import opened Wrappers
  import opened ZoneModel
  import opened ZoneAlloc
  import opened ZoneFree
  import opened ZoneShrink
  import opened ZoneStore
  import opened ZoneTheorems
  import Z = ZoneRuns
  import opened ZoneLayout
  import L = LargeList
  import opened LinkedLists
  import opened HeapModel
  import opened HeapProofs

  /** The chunk with header `q` is live before and after, with the same contents, or neither. */
  ghost predicate SameAt(h: Heap, h': Heap, q: Place) {
    (Live(h', q) <==> Live(h, q)) && (Live(h, q) ==> BodyOf(h', q) == BodyOf(h, q))
  }

  ghost predicate OthersSame(h: Heap, h': Heap, p: Place) {
    forall q {:trigger SameAt(h, h', q)} :: q != p ==> SameAt(h, h', q)
  }

  ghost predicate AllSame(h: Heap, h': Heap) {
    forall q {:trigger SameAt(h, h', q)} :: SameAt(h, h', q)
  }

  // ---------------------------------------------------------------- one zone changed

  lemma SetViewInv(c: Config, h: Heap, b: int, v: View)
    requires HeapInv(c, h) && b in h.zones && Inv(v, h.zones[b].class_) && |v.tags| == |h.zones[b].view.tags|
    ensures HeapInv(c, SetView(h, b, v))
  {
    var h' := SetView(h, b, v);
    assert ZoneOk(c, b, h.zones[b]);
    assert ZoneOk(c, b, h'.zones[b]);
    forall a, d | Mapped(h', a) && Mapped(h', d) && a < d ensures a + Extent(h', a) <= d {
      assert Mapped(h, a) && Mapped(h, d) && Extent(h', a) == Extent(h, a);
    }
    hide Inv, HeapBlocks, Distinct, Ascending;
  }

  lemma SeenTells(v: View, v': View, i: nat, j: nat, class_: ZoneType)
    requires Inv(v, class_) && Inv(v', class_) && Z.Seen(v') - {i} == Z.Seen(v) - {i} && j != i
    ensures Z.Live(v', j) <==> Z.Live(v, j)
    ensures Z.Live(v, j) ==> BodyAt(v'.mem, j) == BodyAt(v.mem, j)
  {
    Z.LiveIffUsed(v, j);
    Z.LiveIffUsed(v', j);
    var s: Z.Contents := Z.Seen(v);
    var s': Z.Contents := Z.Seen(v');
    var t: Z.Contents := s - {i};
    assert j in s <==> j in t;
    assert j in s ==> s[j] == t[j];
    hide BodyAt, Z.Live, Inv;
  }

  /** An operation on one chunk of one zone touches no other chunk. */
  lemma SetViewOthers(c: Config, h: Heap, p: Place, v: View)
    requires HeapInv(c, h) && p.base in h.zones && Inv(v, h.zones[p.base].class_)
    requires Z.Seen(v) - {p.i} == Z.Seen(h.zones[p.base].view) - {p.i}
    ensures OthersSame(h, SetView(h, p.base, v), p)
  {
    var h' := SetView(h, p.base, v);
    assert ZoneOk(c, p.base, h.zones[p.base]);
    forall q | q != p ensures SameAt(h, h', q) {
      if q.base == p.base { SeenTells(h.zones[p.base].view, v, p.i, q.i, h.zones[p.base].class_); }
    }
    hide Inv, Z.Seen, Z.Live, BodyAt;
  }

  // ---------------------------------------------------------------- malloc

  /** `p` is a new chunk of `blocks` usable blocks, and nothing else has changed for the callers. */
  ghost predicate Added(h: Heap, h': Heap, p: Place, blocks: nat) {
    !Live(h, p) && Live(h', p) && |BodyOf(h', p)| == blocks && OthersSame(h, h', p)
  }

  lemma AllocateLength(v: View, n: size_t, scribbler: bv8)
    ensures |Z.Allocate(v, n, scribbler).0.tags| == |v.tags|
  {
    var needed := BlocksForSize(n);
    var l := NextFit(v, needed);
    if needed != 0 && l.At? && Fits(v, l.pos, needed) && l.pos + v.mem[l.pos].blocks <= |v.tags| {
      TakeLength(v, l.pos, needed);
    }
    hide NextFit, Fits, Take;
  }

  lemma TakeLength(v: View, i: nat, needed: nat)
    requires Fits(v, i, needed) && i + v.mem[i].blocks <= |v.tags| && 1 <= needed
    ensures |Take(v, i, needed).tags| == |v.tags|
  {
    if !Exhaustible(v.mem[i].blocks, needed) {
      SeparableRest(v.mem[i].blocks, needed);
    }
  }

  lemma AllocateInKeeps(c: Config, h: Heap, b: int, n: size_t)
    requires HeapInv(c, h) && b in h.zones && ZoneTypeForBytes(n) == h.zones[b].class_
    ensures var (h', p) := AllocateIn(c, h, b, n);
            HeapInv(c, h') && (p.None? ==> h' == h) &&
              (p.Some? ==> p.value.base == b && Added(h, h', p.value, BlocksForSize(n)))
  {
    hide Inv, HeapInv, Z.Allocate, Z.Seen, Z.Live, Z.Added, BodyAt, OthersSame, BlocksForSize;
    var z := h.zones[b];
    var (v, l) := Z.Allocate(z.view, n, c.scribbler);
    ZoneIsSound(c, h, b);
    Z.AllocateKeepsInv(z.view, n, c.scribbler, z.class_);
    Z.AllocateEffect(z.view, n, c.scribbler, z.class_);
    AllocateLength(z.view, n, c.scribbler);
    SetViewInv(c, h, b, v);
    if l.At? {
      AddedAlone(z.view, v, l.pos, BlocksForSize(n), z.class_);
      SetViewOthers(c, h, Place(b, l.pos), v);
    } else {
      assert h.zones[b := z] == h.zones;
    }
  }

  lemma ZoneIsSound(c: Config, h: Heap, b: int)
    requires HeapInv(c, h) && b in h.zones
    ensures h.zones[b].class_ != LARGE && Inv(h.zones[b].view, h.zones[b].class_)
  {
    assert ZoneOk(c, b, h.zones[b]);
    hide Inv, HeapBlocks;
  }

  lemma AddedAlone(v: View, v': View, i: nat, blocks: nat, class_: ZoneType)
    requires Inv(v, class_) && Inv(v', class_) && Z.Added(Z.Seen(v), i, blocks, Z.Seen(v'))
    ensures Z.Seen(v') - {i} == Z.Seen(v) - {i} && !Z.Live(v, i) && Z.Live(v', i) && |BodyAt(v'.mem, i)| == blocks
  {
    Z.LiveIffUsed(v, i);
    Z.LiveIffUsed(v', i);
    assert Z.Seen(v) - {i} == Z.Seen(v);
    hide BodyAt, Inv, Z.Live;
  }

  predicate Serves(c: Config, h: Heap, b: int, n: size_t, busy: set<int>) {
    b !in busy && b in h.zones && Z.Allocate(h.zones[b].view, n, c.scribbler).1.At?
  }

  lemma {:induction false} FirstServingIs(c: Config, h: Heap, list: seq<int>, n: size_t, busy: set<int>)
    ensures match FirstServing(c, h, list, n, busy)
            case Some(b) => exists k :: 0 <= k < |list| && list[k] == b && Serves(c, h, b, n, busy)
                                        && forall j :: 0 <= j < k ==> !Serves(c, h, list[j], n, busy)
            case None => forall k :: 0 <= k < |list| ==> !Serves(c, h, list[k], n, busy)
  {
    hide Z.Allocate;
    if list != [] {
      var rest := list[1..];
      FirstServingIs(c, h, rest, n, busy);
      var found := FirstServing(c, h, rest, n, busy);
      if !Serves(c, h, list[0], n, busy) && found.Some? {
        var k :| 0 <= k < |rest| && rest[k] == found.value && Serves(c, h, found.value, n, busy)
                 && forall j :: 0 <= j < k ==> !Serves(c, h, rest[j], n, busy);
        forall j | 0 <= j < k + 1 ensures !Serves(c, h, list[j], n, busy) {
          assert j > 0 ==> list[j] == rest[j - 1];
        }
        assert list[k + 1] == found.value;
      }
    }
  }

  /** A zone mapped afresh is aligned and touches no other mapping. */
  lemma NewZoneIs(c: Config, h: Heap, class_: ZoneType, os: Os)
    requires HeapInv(c, h) && class_ != LARGE && NewZone(c, h, class_, os).Some?
    ensures var b := NewZone(c, h, class_, os).value;
            var size := AlignmentOf(class_);
            0 < b && b % size == 0 && b + size <= WORD && FreshRange(h, b, size) && !Mapped(h, b)
  {
    var size := AlignmentOf(class_);
    assert WORD % size == 0;
    TrimmingAligns(os.mapped.value, size);
    hide TrimmedMapping, Inv, ListsOk, Apart;
    forall a | a in h.zones ensures 0 < AlignmentOf(h.zones[a].class_) {}
    forall a | a in h.bigs ensures 0 < h.bigs[a].bytes { assert BigOk(c, a, h.bigs[a]); }
  }

  lemma PushZoneMaps(c: Config, h: Heap, class_: ZoneType, b: nat)
    requires HeapInv(c, h) && class_ != LARGE && 0 < b && b % AlignmentOf(class_) == 0 &&
             b + AlignmentOf(class_) <= WORD
    requires FreshRange(h, b, AlignmentOf(class_)) && !Mapped(h, b)
    ensures Apart(PushZone(c, h, class_, b))
  {
    var h' := PushZone(c, h, class_, b);
    forall a, d | Mapped(h', a) && Mapped(h', d) && a < d ensures a + Extent(h', a) <= d {
      if a != b { assert Mapped(h, a) && Extent(h', a) == Extent(h, a); }
      if d != b { assert Mapped(h, d); }
    }
    hide ZoneOk, BigOk, ListsOk, HeapBlocks, Z.Fresh;
  }

  lemma ListGains(list: seq<int>, b: int)
    requires Distinct(list) && b !in list
    ensures Distinct([b] + list) && forall x :: x in [b] + list <==> x == b || x in list
  {
  }

  lemma PushZoneLists(c: Config, h: Heap, class_: ZoneType, b: int)
    requires ListsOk(h) && class_ != LARGE && b !in h.zones && c.header <= 0x1000
    ensures ListsOk(PushZone(c, h, class_, b))
  {
    ListGains(if class_ == TINY then h.tiny else h.small, b);
    hide Distinct, Ascending, HeapBlocks, Z.Fresh;
  }

  lemma FreshZoneIs(blocks: nat, class_: ZoneType)
    requires FreeMin(class_) <= blocks
    ensures Inv(Z.Fresh(blocks), class_) && |Z.Fresh(blocks).tags| == blocks && forall i :: !Z.Live(Z.Fresh(blocks), i)
  {
    Z.FreshZone(blocks, class_);
    hide Inv;
  }

  /** A new zone at `b`, with no chunk in use. */
  lemma NewZoneUnseen(c: Config, h: Heap, h': Heap, b: int, z: ZoneAt)
    requires HeapInv(c, h) && !Mapped(h, b) && h'.zones == h.zones[b := z] && h'.bigs == h.bigs
    requires forall i :: !Z.Live(z.view, i)
    ensures AllSame(h, h')
  {
    forall q ensures SameAt(h, h', q) {}
    hide Z.Live, BodyAt, HeapInv;
  }

  lemma PushZoneKeeps(c: Config, h: Heap, class_: ZoneType, b: nat)
    requires HeapInv(c, h) && class_ != LARGE && 0 < b && b % AlignmentOf(class_) == 0 &&
             b + AlignmentOf(class_) <= WORD
    requires FreshRange(h, b, AlignmentOf(class_)) && !Mapped(h, b)
    ensures HeapInv(c, PushZone(c, h, class_, b)) && AllSame(h, PushZone(c, h, class_, b))
  {
    var h' := PushZone(c, h, class_, b);
    var z := ZoneAt(class_, Z.Fresh(HeapBlocks(AlignmentOf(class_), c.header)));
    assert h'.zones == h.zones[b := z] && h'.bigs == h.bigs by { hide Z.Fresh, HeapBlocks, HeapInv; }
    PushZoneMaps(c, h, class_, b);
    PushZoneLists(c, h, class_, b);
    hide Inv, HeapBlocks, ListsOk, Apart, Z.Fresh, Z.Live, OffsetHeap, PushZone, FreshRange, AllSame;
    BlocksFill(c, class_);
    FreshZoneIs(HeapBlocks(AlignmentOf(class_), c.header), class_);
    NewZoneUnseen(c, h, h', b, z);
    assert ZoneOk(c, b, z);
    hide ZoneOk, BigOk;
  }

  lemma MallocFromZonesKeeps(c: Config, h: Heap, class_: ZoneType, n: size_t, os: Os)
    requires HeapInv(c, h) && class_ != LARGE && ZoneTypeForBytes(n) == class_
    ensures var (h', p) := MallocFromZones(c, h, class_, n, os);
            HeapInv(c, h') && (p.None? ==> AllSame(h, h')) && (p.Some? ==> Added(h, h', p.value, BlocksForSize(n)))
  {
    var found := FirstServing(c, h, ListOf(h, class_), n, os.busy);
    FirstServingIs(c, h, ListOf(h, class_), n, os.busy);
    var b := NewZone(c, h, class_, os);
    assert found.Some? ==> h.zones[found.value].class_ == class_;
    hide HeapInv, FirstServing, NewZone, AllocateIn, Added, AllSame, ListOf, BlocksForSize;
    if found.Some? {
      AllocateInKeeps(c, h, found.value, n);
    } else if b.Some? {
      NewZoneIs(c, h, class_, os);
      PushZoneKeeps(c, h, class_, b.value);
      var h0 := PushZone(c, h, class_, b.value);
      assert h0.zones[b.value].class_ == class_ by { hide Z.Fresh, HeapBlocks; }
      hide PushZone;
      AllocateInKeeps(c, h0, b.value, n);
      SameThen(h, h0, AllocateIn(c, h0, b.value, n).0, AllocateIn(c, h0, b.value, n).1, BlocksForSize(n));
    }
    NothingChanged(h);
  }

  lemma NothingChanged(h: Heap)
    ensures AllSame(h, h)
  {
  }

  lemma SameThen(h: Heap, h0: Heap, h': Heap, p: Option<Place>, blocks: nat)
    requires AllSame(h, h0)
    ensures p.Some? && Added(h0, h', p.value, blocks) ==> Added(h, h', p.value, blocks)
    ensures AllSame(h0, h') ==> AllSame(h, h')
    ensures h' == h0 ==> AllSame(h, h')
  {
    if p.Some? && Added(h0, h', p.value, blocks) {
      assert SameAt(h, h0, p.value);
      forall q | q != p.value ensures SameAt(h, h', q) { assert SameAt(h, h0, q) && SameAt(h0, h', q); }
    }
    if AllSame(h0, h') {
      forall q ensures SameAt(h, h', q) { assert SameAt(h, h0, q) && SameAt(h0, h', q); }
    }
    hide Live, BodyOf;
  }

  lemma LargeMaps(c: Config, h: Heap, b: nat, x: Big)
    requires HeapInv(c, h) && 0 < x.bytes && FreshRange(h, b, x.bytes) && !Mapped(h, b)
    ensures Apart(h.(inUse := L.Inserted(h.inUse, b), bigs := h.bigs[b := x]))
  {
    var h' := h.(inUse := L.Inserted(h.inUse, b), bigs := h.bigs[b := x]);
    forall a, d | Mapped(h', a) && Mapped(h', d) && a < d ensures a + Extent(h', a) <= d {
      if a != b { assert Mapped(h, a) && Extent(h', a) == Extent(h, a); }
      if d != b { assert Mapped(h, d); }
    }
    hide ZoneOk, BigOk, ListsOk, L.Inserted;
  }

  lemma FreshIsUnmapped(c: Config, h: Heap, b: nat, bytes: nat)
    requires HeapInv(c, h) && 0 < bytes && FreshRange(h, b, bytes)
    ensures !Mapped(h, b)
  {
    assert b in h.bigs ==> BigOk(c, b, h.bigs[b]);
    hide ZoneOk, ListsOk, Apart;
  }

  lemma LargeAdds(c: Config, h: Heap, b: nat, x: Big)
    requires HeapInv(c, h) && BigOk(c, b, x) && FreshRange(h, b, x.bytes)
    ensures var h' := h.(inUse := L.Inserted(h.inUse, b), bigs := h.bigs[b := x]);
            HeapInv(c, h') && Added(h, h', Place(b, 0), |x.body|)
  {
    var h' := h.(inUse := L.Inserted(h.inUse, b), bigs := h.bigs[b := x]);
    FreshIsUnmapped(c, h, b, x.bytes);
    LargeMaps(c, h, b, x);
    L.InsertedAscending(h.inUse, b);
    hide Apart, ZoneOk, L.Inserted, Ascending, Distinct;
    forall q | q != Place(b, 0) ensures SameAt(h, h', q) {}
  }

  function LargeChunk(n: size_t, c: Config): Big
    requires 0 < c.page && LargePlan(n, c.page).Some?
  {
    var (bytes, blocks) := LargePlan(n, c.page).value;
    Big(bytes, blocks, LargeBody(blocks - 1, c.scribbler))
  }

  lemma MallocLargeIs(c: Config, h: Heap, n: size_t, os: Os)
    requires 0 < c.page
    ensures var (h', p) := MallocLarge(c, h, n, os);
            if p.None? then h' == h
            else
              && LargePlan(n, c.page).Some? && os.mapped.Some? && os.mapped.value % c.page == 0
              && var (b, x) := (os.mapped.value, LargeChunk(n, c));
              && FreshRange(h, b, x.bytes) && p.value == Place(b, 0)
              && h' == h.(inUse := L.Inserted(h.inUse, b), bigs := h.bigs[b := x])
  {
    hide LargePlan, LargeBody, FreshRange, L.Inserted;
  }

  lemma LargeChunkOk(c: Config, h: Heap, b: nat, n: size_t)
    requires GoodConfig(c) && !MallocRejects(n) && ZoneTypeForBytes(n) == LARGE && LargePlan(n, c.page).Some?
    requires b % c.page == 0 && FreshRange(h, b, LargeChunk(n, c).bytes)
    ensures BigOk(c, b, LargeChunk(n, c)) && |LargeChunk(n, c).body| == BlocksForSize(n)
  {
    LargePlanIsExact(n, c.page);
    assert SMALL_MAX_BLOCKS < BlocksForSize(n);
    hide LargePlan, MallocRejects, BlocksForSize, Z.Filler;
    PageAligned(b, c.page);
  }

  lemma MallocLargeKeeps(c: Config, h: Heap, n: size_t, os: Os)
    requires HeapInv(c, h) && !MallocRejects(n) && ZoneTypeForBytes(n) == LARGE
    ensures var (h', p) := MallocLarge(c, h, n, os);
            HeapInv(c, h') && (p.None? ==> h' == h) && (p.Some? ==> Added(h, h', p.value, BlocksForSize(n)))
  {
    hide *;
    ConfigIsGood(c, h);
    HeaderIsSmall(c);
    MallocLargeIs(c, h, n, os);
    if MallocLarge(c, h, n, os).1.Some? {
      LargeChunkOk(c, h, os.mapped.value, n);
      LargeAdds(c, h, os.mapped.value, LargeChunk(n, c));
    }
  }

  lemma PageAligned(b: nat, page: nat)
    requires 0 < page && b % page == 0 && page % UNIT == 0
    ensures b % UNIT == 0
  {
    var k, m := b / page, page / UNIT;
    assert b == k * page && page == m * UNIT;
    assert k * (m * UNIT) == (k * m) * UNIT;
    ModOfMultiple(k * m, UNIT);
  }

  /**
    malloc that returns NULL has changed nothing for the callers; a pointer is to a new chunk with room for the
    request.
  */
  lemma MallocKeeps(c: Config, h: Heap, n: size_t, os: Os)
    requires HeapInv(c, h)
    ensures var (h', p) := Malloc(c, h, n, os);
            HeapInv(c, h') && (p.Fails? ==> AllSame(h, h'))
            && (p.Gives? ==> Added(h, h', p.value, BlocksForSize(n)) && n <= |BodyOf(h', p.value)| * UNIT)
  {
    hide HeapInv, MallocFromZones, MallocLarge, AllSame, ZoneTypeForBytes, MallocRejects, Live, BodyOf, OthersSame;
    ConfigIsGood(c, h);
    NothingChanged(h);
    if !MallocRejects(n) {
      RejectsOnlyTheLast31(n);
      if ZoneTypeForBytes(n) == LARGE {
        MallocLargeKeeps(c, h, n, os);
        assert Malloc(c, h, n, os).0 == MallocLarge(c, h, n, os).0;
      } else {
        MallocFromZonesKeeps(c, h, ZoneTypeForBytes(n), n, os);
        assert Malloc(c, h, n, os).0 == MallocFromZones(c, h, ZoneTypeForBytes(n), n, os).0;
      }
    }
  }

  // ---------------------------------------------------------------- free

  /** `p` is no longer a chunk in use, and nothing else has changed for the callers. */
  ghost predicate Freed(h: Heap, h': Heap, p: Place) {
    !Live(h', p) && OthersSame(h, h', p)
  }

  lemma ClassedIsClassedBut(v: View, i: nat, class_: ZoneType)
    requires Inv(v, class_) && Z.Live(v, i)
    ensures ClassedBut(v, i, class_) && FreeMin(class_) <= v.mem[i].blocks
  {
  }

  lemma FreeLength(v: View, i: nat, fill: Option<Cell>)
    requires HeaderAt(v, i)
    ensures |FreeLocked(v, i, fill).tags| == |v.tags|
  {
  }

  lemma FreeZoneKeeps(c: Config, h: Heap, p: Place)
    requires HeapInv(c, h) && Live(h, p) && p.base in h.zones
    ensures var h' := SetView(h, p.base, FreeLocked(h.zones[p.base].view, p.i, Z.Filler(c.scribbler, true)));
            HeapInv(c, h') && Freed(h, h', p)
  {
    var z := h.zones[p.base];
    var fill := Z.Filler(c.scribbler, true);
    var v := FreeLocked(z.view, p.i, fill);
    assert ZoneOk(c, p.base, z);
    ClassedIsClassedBut(z.view, p.i, z.class_);
    assert Core(z.view) && Coalesced(z.view);
    FreeLength(z.view, p.i, fill);
    hide HeapInv, ZoneOk, FreeLocked, Core, Coalesced, ClassedBut, Z.Seen, Store;
    FreeKeepsInv(z.view, p.i, fill, z.class_);
    FreeStore(z.view, p.i, fill);
    FreedAlone(z.view, v, p.i, z.class_);
    SetViewInv(c, h, p.base, v);
    SetViewOthers(c, h, p, v);
    hide OthersSame, Inv;
  }

  lemma FreedAlone(v: View, v': View, i: nat, class_: ZoneType)
    requires Inv(v', class_) && Store(v'.tags, v'.mem) == Store(v.tags, v.mem) - {i}
    ensures Z.Seen(v') - {i} == Z.Seen(v) - {i} && !Z.Live(v', i)
  {
    Z.LiveIffUsed(v', i);
    hide BodyAt, Inv, Z.Live;
    assert i !in Store(v'.tags, v'.mem);
  }

  lemma LargeLeavesApart(h: Heap, b: int)
    requires Apart(h) && b in h.bigs
    ensures Apart(FreeLarge(h, b))
  {
    var h' := FreeLarge(h, b);
    hide L.Removed;
    forall a, d | Mapped(h', a) && Mapped(h', d) && a < d ensures a + Extent(h', a) <= d {
      assert Mapped(h, a) && Mapped(h, d) && Extent(h', a) == Extent(h, a);
    }
  }

  lemma LargeLeavesOthers(h: Heap, p: Place)
    requires ListsOk(h) && Live(h, p) && p.base !in h.zones
    ensures Freed(h, FreeLarge(h, p.base), p)
  {
    hide L.Removed, ListsOk;
    var h' := FreeLarge(h, p.base);
    forall q | q != p ensures SameAt(h, h', q) {}
  }

  lemma FreeLargeKeeps(c: Config, h: Heap, p: Place)
    requires HeapInv(c, h) && Live(h, p) && p.base !in h.zones
    ensures HeapInv(c, FreeLarge(h, p.base)) && Freed(h, FreeLarge(h, p.base), p)
  {
    LargeLeavesApart(h, p.base);
    LargeLeavesOthers(h, p);
    hide Apart, Freed;
    L.RemovedAscending(h.inUse, p.base);
    hide ZoneOk, BigOk, L.Removed, Ascending, Distinct;
  }

  lemma RealHeaderIsActual(h: Heap, p: Place)
    requires Exists(h, p) && Load(h, p).Header? && Load(h, p).flags <= LARGE_FLAG
    ensures Actual(h, p) == p
  {
  }

  /** free of a chunk in use frees that chunk: it finds the zone from the address, or the list from the LARGE flag. */
  lemma FreeKeeps(c: Config, h: Heap, p: Place)
    requires HeapInv(c, h) && Live(h, p)
    ensures HeapInv(c, FreeAt(c, h, p)) && Freed(h, FreeAt(c, h, p), p)
  {
    LiveChunk(c, h, p);
    RealHeaderIsActual(h, p);
    assert p.base in h.zones ==> Z.Live(h.zones[p.base].view, p.i);
    hide HeapInv, Actual, ZoneAndIndex, Freed, FreeLocked, FreeLarge;
    if p.base in h.zones {
      FreeFindsZone(c, h, p);
      FreeZoneKeeps(c, h, p);
    } else {
      FreeLargeKeeps(c, h, p);
    }
    hide Exists, Load, Live, SetView, Z.Live, BodyOf;
  }
}
