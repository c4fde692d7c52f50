/**
  The allocator as it runs: the zone lists and the LARGE list are fields that malloc, free, realloc and release_memory
  update, walking and copying in loops.
*/
module HeapClass {
  import opened Sizes
  import opened Wrappers
  import opened ZoneModel
  import opened ZoneShrink
  import Z = ZoneRuns
  import opened ZoneLayout
  import opened LinkedLists
  import L = LargeList
  import opened HeapModel
  import opened HeapProofs
  import opened HeapOps
  import opened HeapRealloc
  import opened HeapExact
  import opened Alignment

  class Allocator {
    const c: Config
    var tiny: seq<int>
    var small: seq<int>
    var zones: map<int, ZoneAt>
    var inUse: seq<int>
    var bigs: map<int, Big>

    function State(): Heap
      reads this
    {
      Heap(tiny, small, zones, inUse, bigs)
    }

    ghost predicate Valid()
      reads this
    {
      HeapInv(c, State())
    }

    constructor (config: Config)
      requires GoodConfig(config)
      ensures Valid() && c == config && State() == Heap([], [], map[], [], map[])
    {
      c := config;
      tiny, small, zones, inUse, bigs := [], [], map[], [], map[];
    }

    /** The walk along the zone list in allocate_memory_from_zone_list, past zones that are locked or have no room. */
    method AllocateFromZones(class_: ZoneType, n: size_t, busy: set<int>) returns (p: Option<Place>)
      requires Valid() && class_ != LARGE && ZoneTypeForBytes(n) == class_
      modifies this`zones
      ensures var h := old(State());
              var found := FirstServing(c, h, ListOf(h, class_), n, busy);
              if found.None? then p == None && State() == h
              else p.Some? && found.value in h.zones && (State(), p) == AllocateIn(c, h, found.value, n)
    {
      hide HeapInv, Z.Allocate;
      var list := if class_ == TINY then tiny else small;
      var k := 0;
      while k < |list|
        invariant k <= |list| && State() == old(State())
        invariant FirstServing(c, State(), list, n, busy) == FirstServing(c, State(), list[k..], n, busy)
      {
        var b := list[k];
        assert list[k..][0] == b && list[k..][1..] == list[k + 1..];
        if b !in busy && b in zones {
          var (v, l) := Z.Allocate(zones[b].view, n, c.scribbler);
          if l.At? {
            zones := zones[b := zones[b].(view := v)];
            return Some(Place(b, l.pos));
          }
        }
        k := k + 1;
      }
      return None;
    }

    method MallocSmall(class_: ZoneType, n: size_t, os: Os) returns (p: Option<Place>)
      requires Valid() && class_ != LARGE && ZoneTypeForBytes(n) == class_
      modifies this
      ensures (State(), p) == MallocFromZones(c, old(State()), class_, n, os)
    {
      assert GoodConfig(c);
      p := AllocateFromZones(class_, n, os.busy);
      hide HeapInv, FirstServing, Z.Allocate, NewZone, Z.Fresh, HeapBlocks;
      if p.Some? { return; }
      var b := NewZone(c, State(), class_, os);
      if b.None? { return; }
      zones := zones[b.value := ZoneAt(class_, Z.Fresh(HeapBlocks(AlignmentOf(class_), c.header)))];
      if class_ == TINY { tiny := [b.value] + tiny; } else { small := [b.value] + small; }
      assert State() == PushZone(c, old(State()), class_, b.value);
      var (v, l) := Z.Allocate(zones[b.value].view, n, c.scribbler);
      zones := zones[b.value := zones[b.value].(view := v)];
      p := if l.At? then Some(Place(b.value, l.pos)) else None;
    }

    method MallocLargeChunk(n: size_t, os: Os) returns (p: Option<Place>)
      requires Valid()
      modifies this
      ensures (State(), p) == MallocLarge(c, old(State()), n, os)
    {
      assert GoodConfig(c);
      hide HeapInv, LargePlan, FreshRange, LargeBody;
      var plan := LargePlan(n, c.page);
      if plan.None? || os.mapped.None? || !FreshRange(State(), os.mapped.value, plan.value.0) ||
        os.mapped.value % c.page != 0 {
        return None;
      }
      var b := os.mapped.value;
      inUse := L.Inserted(inUse, b);
      bigs := bigs[b := Big(plan.value.0, plan.value.1, LargeBody(plan.value.1 - 1, c.scribbler))];
      return Some(Place(b, 0));
    }

    /** yoyo_actual_malloc. */
    method Malloc(n: size_t, os: Os) returns (p: Outcome)
      requires Valid()
      modifies this
      ensures Valid() && (p.Crashes? <==> FillsNull(c, old(State()), n, os))
      ensures p.Fails? ==> AllSame(old(State()), State())
      ensures p.Gives? ==>
                Added(old(State()), State(), p.value, BlocksForSize(n)) && n <= |BodyOf(State(), p.value)| * UNIT
      ensures 0 < c.page && Mallocs(c, old(State()), State(), p, n, os)
      ensures (State(), p) == HeapModel.Malloc(c, old(State()), n, os)
    {
      ghost var h := State();
      MallocKeeps(c, h, n, os);
      MallocCrashesExactly(c, h, n, os);
      MallocExactly(c, h, n, os);
      hide HeapInv, MallocFromZones, MallocLarge, AllSame, Added, FillsNull, Mallocs;
      if MallocRejects(n) { return Fails; }
      var class_ := ZoneTypeForBytes(n);
      var found: Option<Place>;
      if class_ == LARGE {
        found := MallocLargeChunk(n, os);
      } else {
        found := MallocSmall(class_, n, os);
      }
      return Filled(c, found);
    }

    /** yoyo_actual_free, for a pointer behind header `p`: a real one, or a pseudo header of memalign. */
    method Free(p: Place)
      requires Valid() && Exists(State(), p) && Live(State(), ChunkOf(State(), p))
      modifies this`zones, this`inUse, this`bigs
      ensures Valid() && Freed(old(State()), State(), ChunkOf(old(State()), p)) && State() == FreeAt(c, old(State()), p)
    {
      hide HeapInv, Live, BodyOf, Freed, Actual, ZoneAndIndex, FreeLocked, Z.Filler;
      ghost var h := State();
      ConfigIsGood(c, h);
      MemalignThenFree(c, h, p);
      var q := Actual(State(), p);
      assert ChunkOf(h, p) == q;
      LiveChunk(c, h, q);
      if Load(State(), q).flags % 2 == LARGE_FLAG {
        if q.base in bigs {
          inUse := L.Removed(inUse, q.base);
          bigs := bigs - {q.base};
        }
      } else {
        var at := ZoneAndIndex(c, State(), q);
        if at.Some? && at.value.base in zones && Z.Live(zones[at.value.base].view, at.value.i) {
          var v := FreeLocked(zones[at.value.base].view, at.value.i, Z.Filler(c.scribbler, true));
          zones := zones[at.value.base := zones[at.value.base].(view := v)];
        }
      }
    }

    /** One block of the body of `p` is written. */
    method WriteBlock(p: Place, k: nat, cell: Cell)
      requires Valid() && Live(State(), p) && 1 <= k <= |BodyOf(State(), p)|
      modifies this`zones, this`bigs
      ensures Valid() && Rewritten(old(State()), State(), p, old(BodyOf(State(), p))[k - 1 := cell])
      ensures State() == WriteCell(old(State()), p, k, cell)
    {
      WriteKeeps(c, State(), p, k, cell);
      hide HeapInv, Rewritten, Z.Step;
      if p.base in zones {
        var v := Z.Step(zones[p.base].view, zones[p.base].class_, 0, Z.Write(p.i, k, cell));
        zones := zones[p.base := zones[p.base].(view := v)];
      } else if p.base in bigs {
        bigs := bigs[p.base := bigs[p.base].(body := bigs[p.base].body[k - 1 := cell])];
      }
    }

    /** The copying loop of relocate_chunk: the first `m` blocks of `p` go to `q`, read one by one. */
    method CopyBlocks(p: Place, q: Place, m: nat)
      requires Valid() && Live(State(), p) && Live(State(), q) && p != q && m <= |BodyOf(State(), p)| &&
               m <= |BodyOf(State(), q)|
      modifies this`zones, this`bigs
      ensures Valid() && State() == CopyFrom(old(State()), q, old(BodyOf(State(), p))[..m], 0)
    {
      hide HeapInv, WriteCell, Live, BodyOf, Rewritten;
      ghost var g := State();
      ghost var cells := BodyOf(g, p)[..m];
      var k := 0;
      while k < m
        invariant Valid() && k <= m && Live(State(), p) && Live(State(), q)
        invariant BodyOf(State(), p) == BodyOf(g, p) && |BodyOf(State(), q)| == |BodyOf(g, q)|
        invariant CopyFrom(State(), q, cells, k) == CopyFrom(g, q, cells, 0)
      {
        ghost var before := State();
        var cell := BodyOf(State(), p)[k];
        WriteBlock(q, k + 1, cell);
        WrittenApart(before, State(), p, q, BodyOf(before, q)[k := cell]);
        k := k + 1;
      }
    }

    /** relocate_chunk. */
    method Relocate(p: Place, required: nat, os: Os) returns (q: Outcome)
      requires Valid() && Live(State(), p) && 2 <= required && (required - 1) * UNIT < WORD
      modifies this
      ensures (State(), q) == RelocateChunk(c, old(State()), p, required, os)
    {
      ghost var h := State();
      assert GoodConfig(c);
      LiveChunk(c, h, p);
      hide HeapInv, HeapModel.Malloc, Live, BodyOf, CopyFrom, FreeAt, Exists, Load, AllSame, Freed;
      q := Malloc((required - 1) * UNIT, os);
      if !q.Gives? { return; }
      ghost var g := State();
      AddedApart(h, g, p, q.value, BlocksForSize((required - 1) * UNIT));
      var m := Min(|BodyOf(State(), q.value)|, |BodyOf(State(), p)|);
      ghost var cells := BodyOf(g, p)[..m];
      CopyBlocks(p, q.value, m);
      CopyKeeps(c, g, q.value, cells, 0);
      StillReal(c, g, State(), p, q.value, BodyOf(g, q.value)[..0] + cells[0..] + BodyOf(g, q.value)[|cells|..]);
      Free(p);
    }

    /** shrink_chunk: the chunk keeps its first blocks, in the zone that its address and its size lead to. */
    method ShrinkInPlace(p: Place, required: nat)
      requires Valid() && Live(State(), p) && p.base in zones && Exists(State(), p)
      requires LiveMin(zones[p.base].class_) <= required
      requires required + FreeMin(zones[p.base].class_) <= Load(State(), p).blocks
      modifies this`zones
      ensures Valid() && required - 1 <= |old(BodyOf(State(), p))|
      ensures Rewritten(old(State()), State(), p, old(BodyOf(State(), p))[..required - 1])
      ensures State() == Shrunk(c, old(State()), p, required)
    {
      hide HeapInv, Live, BodyOf, ZoneAndIndex, ShrinkLocked, Rewritten, Z.Filler;
      ghost var h := State();
      ConfigIsGood(c, h);
      FreeFindsZone(c, h, p);
      ShrinkKeeps(c, h, p, required);
      var at := ZoneAndIndex(c, State(), p);
      if at.Some? && at.value.base in zones {
        var b, i := at.value.base, at.value.i;
        var v := zones[b].view;
        if HeaderAt(v, i) && 2 <= required < v.mem[i].blocks && i + v.mem[i].blocks <= |v.mem| {
          zones := zones[b := zones[b].(view := ShrinkLocked(v, i, required, Z.Filler(c.scribbler, true)))];
        }
      }
    }

    /** yoyo_actual_memalign; the pointer is behind header `p`. */
    method AlignedMalloc(alignment: size_t, size: size_t, os: Os) returns (p: Outcome)
      requires Valid()
      modifies this
      ensures Valid()
      ensures p.Crashes? <==>
                AllocSize(alignment, size).Some? && FillsNull(c, old(State()), AllocSize(alignment, size).value, os)
      ensures p.Fails? ==> AllSame(old(State()), State())
      ensures p.Gives? ==>
                Aligned(c, State(), p.value, ChunkOf(State(), p.value), alignment, size) &&
                FirstAligned(c, State(), p.value, ChunkOf(State(), p.value), alignment, size)
      ensures (State(), p) == Memalign(c, old(State()), alignment, size, os)
    {
      hide HeapInv, HeapModel.Malloc, AllSame, Aligned, FirstAligned, AllocSize, PseudoOffset, Live, BodyOf, ChunkOf,
           Address,
           IsAligned;
      ghost var h := State();
      MemalignKeeps(c, h, alignment, size, os);
      ConfigIsGood(c, h);
      NothingChanged(h);
      var n := AllocSize(alignment, size);
      if n.None? { return Fails; }
      p := Malloc(n.value, os);
      if !p.Gives? { return; }
      PseudoRoom(c, State(), p.value, alignment, size);
      hide AlignIn;
      p := AlignPointer(p.value, alignment, size);
    }

    /** The end of memalign, on a chunk large enough. */
    method AlignPointer(q: Place, alignment: size_t, size: size_t) returns (p: Outcome)
      requires Valid() && c.header <= 0x1000 && Live(State(), q)
      requires var ptr := Address(c, State(), q) + UNIT;
               !IsAligned(ptr, alignment) ==>
                 0 < alignment && 0 <= ptr && 1 <= PseudoOffset(ptr, alignment) / UNIT <= |BodyOf(State(), q)|
      modifies this`zones, this`bigs
      ensures p.Gives? && (State(), p.value) == AlignIn(c, old(State()), q, alignment, size)
    {
      hide HeapInv, PseudoOffset, Live, BodyOf, Address, IsAligned, Rewritten, BlocksForSize, WriteCell;
      var ptr := Address(c, State(), q) + UNIT;
      if IsAligned(ptr, alignment) { return Gives(q); }
      var k := PseudoOffset(ptr, alignment) / UNIT;
      WriteBlock(q, k, Header(BlocksForSize(size) + 1, At(q.i), PSEUDO_FLAG));
      return Gives(Place(q.base, q.i + k));
    }

    /** yoyo_actual_realloc, for a chunk with a real header. */
    method Realloc(p: Place, n: size_t, os: Os) returns (q: Outcome)
      requires Valid() && Live(State(), p)
      modifies this
      ensures Valid()
      ensures q.Fails? ==> AllSame(old(State()), State())
      ensures q.Gives? ==> Reallocated(old(State()), State(), p, q.value, n)
      ensures c.header <= 0x1000 && 0 < c.page && Resizes(c, old(State()), State(), p, q, n, os)
      ensures (State(), q) == HeapModel.Realloc(c, old(State()), p, n, os)
    {
      ghost var h := State();
      hide HeapInv, ReallocPlan, Live, BodyOf, Load, Exists, AllSame, Reallocated, RelocateChunk, ZoneAndIndex,
           ShrinkLocked, Resizes;
      ConfigIsGood(c, h);
      LiveChunk(c, h, p);
      PlanIsSound(c, h, p, n);
      ReallocKeeps(c, h, p, n, os);
      ReallocExactly(c, h, p, n, os);
      match ReallocPlan(Load(State(), p).blocks, n)
      case Reject => return Fails;
      case Maintain => return Gives(p);
      case Relocate(required) => q := Relocate(p, required, os);
      case ShrinkTo(required) =>
        ShrinkInPlace(p, required);
        return Gives(p);
    }

    /** release_entirely_free_zone: the entirely free zones of a list are unlinked and unmapped one by one. */
    method ReleaseFrom(all: seq<int>) returns (list: seq<int>)
      requires Distinct(all)
      modifies this`zones
      ensures list == Unreleased(old(State()), all)
      ensures zones == old(zones) - ReleasableIn(old(State()), all)
    {
      ghost var h := State();
      ghost var gone: set<int> := {};
      list := all;
      var k := 0;
      hide Releasable, Unreleased;
      assert list[..0] + Unreleased(h, list[0..]) == Unreleased(h, all) by { assert list[0..] == all; }
      while k < |list|
        invariant Releasing(h, State(), all, list, k, gone)
        decreases |list| - k
      {
        ReleasingStep(h, State(), all, list, k, gone);
        var b := list[k];
        if Releasable(State(), b) {
          list := list[..k] + list[k + 1..];
          zones := zones - {b};
          gone := gone + {b};
        } else {
          k := k + 1;
        }
      }
      ReleasingDone(h, State(), all, list, k, gone);
    }

    /** The body of the loop of yoyo_actual_release_memory: both lists of one arena. */
    method ReleaseMemory()
      requires Valid()
      modifies this`tiny, this`small, this`zones
      ensures Valid() && AllSame(old(State()), State()) && State() == Release(old(State()))
    {
      ghost var h := State();
      ReleaseKeeps(c, h);
      BothListsReleased(c, h);
      hide HeapInv, Releasable, Unreleased, AllSame, Distinct;
      tiny := ReleaseFrom(tiny);
      SameReleases(h, State(), h.small);
      small := ReleaseFrom(small);
    }
  }

  /** yoyo_actual_release_memory: every arena in turn. */
  method ReleaseAll(arenas: seq<Allocator>)
    requires forall i, j :: 0 <= i < j < |arenas| ==> arenas[i] != arenas[j]
    requires forall i :: 0 <= i < |arenas| ==> arenas[i].Valid()
    modifies set i | 0 <= i < |arenas| :: arenas[i]
    ensures forall i :: 0 <= i < |arenas| ==>
              arenas[i].Valid() && AllSame(old(arenas[i].State()), arenas[i].State())
              && arenas[i].State() == Release(old(arenas[i].State()))
  {
    hide HeapInv, AllSame, Release;
    var k := 0;
    while k < |arenas|
      invariant k <= |arenas|
      invariant forall i :: 0 <= i < |arenas| ==> arenas[i].Valid()
      invariant forall i :: 0 <= i < k ==>
                  AllSame(old(arenas[i].State()), arenas[i].State()) &&
                    arenas[i].State() == Release(old(arenas[i].State()))
      invariant forall i :: k <= i < |arenas| ==> arenas[i].State() == old(arenas[i].State())
    {
      arenas[k].ReleaseMemory();
      k := k + 1;
    }
  }

  function ReleasableIn(h: Heap, list: seq<int>): set<int> {
    set b | b in list && Releasable(h, b)
  }

  /** The state of the releasing loop at position `k`. */
  ghost predicate Releasing(h: Heap, now: Heap, all: seq<int>, list: seq<int>, k: nat, gone: set<int>) {
    && k <= |list| && Distinct(list) && now.zones == h.zones - gone
    && list[..k] + Unreleased(h, list[k..]) == Unreleased(h, all)
    && (forall b :: b in gone ==> b in all && Releasable(h, b))
    && (forall b :: b in all && Releasable(h, b) && b !in gone ==> b in list[k..])
    && (forall b :: b in list ==> b in all && b !in gone)
  }

  lemma ReleasingStep(h: Heap, now: Heap, all: seq<int>, list: seq<int>, k: nat, gone: set<int>)
    requires Releasing(h, now, all, list, k, gone) && k < |list|
    ensures Releasable(now, list[k]) ==>
              Releasing(h, now.(zones := now.zones - {list[k]}), all, list[..k] + list[k + 1..], k, gone + {list[k]})
    ensures !Releasable(now, list[k]) ==> Releasing(h, now, all, list, k + 1, gone)
  {
    var b := list[k];
    assert Releasable(now, b) == Releasable(h, b) by { assert b in list; }
    assert list[k..] == [b] + list[k + 1..];
    UnreleasedUnfolds(h, b, list[k + 1..]);
    hide Releasable, Unreleased;
    if Releasable(now, b) {
      ReleasingDrops(h, now, all, list, k, gone);
    } else {
      ReleasingKeeps(h, now, all, list, k, gone);
    }
    hide Releasing;
  }

  lemma UnreleasedUnfolds(h: Heap, b: int, list: seq<int>)
    ensures Unreleased(h, [b] + list) == (if Releasable(h, b) then [] else [b]) + Unreleased(h, list)
  {
    assert ([b] + list)[1..] == list;
    hide Releasable;
  }

  lemma ReleasingDrops(h: Heap, now: Heap, all: seq<int>, list: seq<int>, k: nat, gone: set<int>)
    requires Releasing(h, now, all, list, k, gone) && k < |list| && Releasable(h, list[k])
    requires list[k..] == [list[k]] + list[k + 1..] && Unreleased(h, list[k..]) == Unreleased(h, list[k + 1..])
    ensures Releasing(h, now.(zones := now.zones - {list[k]}), all, list[..k] + list[k + 1..], k, gone + {list[k]})
  {
    hide Releasable, Unreleased;
    var b, list' := list[k], list[..k] + list[k + 1..];
    assert list'[..k] == list[..k] && list'[k..] == list[k + 1..];
    L.CutElements(list, k);
    assert h.zones - gone - {b} == h.zones - (gone + {b});
  }

  lemma ReleasingKeeps(h: Heap, now: Heap, all: seq<int>, list: seq<int>, k: nat, gone: set<int>)
    requires Releasing(h, now, all, list, k, gone) && k < |list| && !Releasable(h, list[k])
    requires list[k..] == [list[k]] + list[k + 1..] &&
             Unreleased(h, list[k..]) == [list[k]] + Unreleased(h, list[k + 1..])
    ensures Releasing(h, now, all, list, k + 1, gone)
  {
    hide Releasable, Unreleased, Distinct;
    var b := list[k];
    assert list[..k + 1] == list[..k] + [b];
    assert (list[..k] + [b]) + Unreleased(h, list[k + 1..]) == list[..k] + ([b] + Unreleased(h, list[k + 1..]));
  }

  lemma ReleasingDone(h: Heap, now: Heap, all: seq<int>, list: seq<int>, k: nat, gone: set<int>)
    requires Releasing(h, now, all, list, k, gone) && k == |list|
    ensures list == Unreleased(h, all) && now.zones == h.zones - ReleasableIn(h, all)
  {
    assert list[..k] == list && list[k..] == [];
    forall b ensures b in gone <==> b in ReleasableIn(h, all) {}
    hide Releasable;
  }

  /** Releasing the zones of one list does not change what is releasable on the other. */
  lemma SameReleases(h: Heap, now: Heap, list: seq<int>)
    requires now.zones == h.zones - ReleasableIn(h, h.tiny) && forall b :: b in list ==> b !in h.tiny
    ensures Unreleased(now, list) == Unreleased(h, list) && ReleasableIn(now, list) == ReleasableIn(h, list)
  {
  }

  lemma BothListsReleased(c: Config, h: Heap)
    requires HeapInv(c, h)
    ensures Distinct(h.tiny) && Distinct(h.small) && (forall b :: b in h.small ==> b !in h.tiny)
    ensures h.zones - ReleasableIn(h, h.tiny) - ReleasableIn(h, h.small) == Release(h).zones
  {
    forall b | b in h.zones ensures b in h.tiny || b in h.small { assert ZoneOk(c, b, h.zones[b]); }
    hide Inv, Distinct, Ascending;
  }

  lemma PseudoRoom(c: Config, g: Heap, q: Place, alignment: size_t, size: size_t)
    requires HeapInv(c, g) && AllocSize(alignment, size).Some? && Live(g, q)
    requires |BodyOf(g, q)| == BlocksForSize(AllocSize(alignment, size).value) && c.header <= 0x1000
    ensures var ptr := Address(c, g, q) + UNIT;
            !IsAligned(ptr, alignment) ==>
                0 < alignment && 0 <= ptr && 1 <= PseudoOffset(ptr, alignment) / UNIT <= |BodyOf(g, q)|
  {
    hide *;
    ChunkStart(c, g, q);
    var a := Address(c, g, q);
    NextBlock(a);
    if !IsAligned(a + UNIT, alignment) { RoomForPseudo(a + UNIT, alignment, size); }
  }

  lemma NextBlock(a: int)
    requires a % UNIT == 0
    ensures (a + UNIT) % UNIT == 0
  {
  }

  /** A chunk with a real header still has one after another chunk has been written. */
  lemma StillReal(c: Config, g: Heap, h': Heap, p: Place, q: Place, body: seq<Cell>)
    requires HeapInv(c, h') && Rewritten(g, h', q, body) && Live(g, p) && p != q
    ensures Exists(h', p) && Live(h', p) && ChunkOf(h', p) == p
  {
    WrittenApart(g, h', p, q, body);
    LiveChunk(c, h', p);
    RealHeaderIsActual(h', p);
    hide HeapInv, Live, Load, BodyOf, Exists, Actual;
  }

  lemma PlanIsSound(c: Config, h: Heap, p: Place, n: size_t)
    requires HeapInv(c, h) && Live(h, p)
    ensures Exists(h, p) && Load(h, p).Header?
    ensures var plan := ReallocPlan(Load(h, p).blocks, n);
            && (plan.Relocate? ==> 2 <= plan.blocks && (plan.blocks - 1) * UNIT < WORD)
            && (plan.ShrinkTo? ==>
                  && p.base in h.zones && LiveMin(h.zones[p.base].class_) <= plan.blocks
                  && plan.blocks + FreeMin(h.zones[p.base].class_) <= Load(h, p).blocks)
  {
    LiveChunk(c, h, p);
    if p.base in h.zones {
      LiveInZone(c, h, p);
      ZonePlan(h.zones[p.base].class_, Load(h, p).blocks, n);
      Z.ShrinkRespectsClass(h.zones[p.base].class_, Load(h, p).blocks, n);
    } else {
      BigPlan(c, h, p, n);
    }
    hide HeapInv, Live, Load, BodyOf, Exists, ReallocPlan, Inv;
  }
}
