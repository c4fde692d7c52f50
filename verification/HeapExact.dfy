/**
  Which memory malloc, free and realloc take, and what they leave alone: the first zone of the list that serves, a new
  zone only when none does, and when realloc stays in place.
*/
module HeapExact {
  import opened Sizes
  import opened Wrappers
  import opened ZoneModel
  import opened ZoneAlloc
  import opened ZoneFree
  import opened ZoneShrink
  import opened ZoneStore
  import opened ZoneTheorems
  import Z = ZoneRuns
  import opened ZoneLayout
  import L = LargeList
  import opened LinkedLists
  import opened HeapModel
  import opened HeapProofs
  import opened HeapOps
  import opened HeapRealloc

  // ---------------------------------------------------------------- which zone serves

  /** A zone that is not locked by others and has a free chunk that fits. */
  ghost predicate CanServe(h: Heap, b: int, n: size_t, busy: set<int>) {
    b !in busy && b in h.zones && !NoFit(h.zones[b].view, BlocksForSize(n), 0, |h.zones[b].view.tags|)
  }

  lemma ServesIff(c: Config, h: Heap, b: int, n: size_t, busy: set<int>)
    requires HeapInv(c, h) && BlocksForSize(n) != 0 && (b in h.zones ==> ZoneTypeForBytes(n) == h.zones[b].class_)
    ensures Serves(c, h, b, n, busy) <==> CanServe(h, b, n, busy)
  {
    hide HeapInv, Inv, Z.Allocate, NoFit, BlocksForSize, ZoneTypeForBytes, Z.Added;
    if b in h.zones {
      ZoneIsSound(c, h, b);
      Z.AllocateEffect(h.zones[b].view, n, c.scribbler, h.zones[b].class_);
    }
  }

  /** `list[k]` is the first zone of the list that can serve. */
  ghost predicate FirstToServe(h: Heap, list: seq<int>, k: nat, n: size_t, busy: set<int>) {
    k < |list| && CanServe(h, list[k], n, busy) && forall j :: 0 <= j < k ==> !CanServe(h, list[j], n, busy)
  }

  ghost predicate NoneServes(h: Heap, list: seq<int>, n: size_t, busy: set<int>) {
    forall j :: 0 <= j < |list| ==> !CanServe(h, list[j], n, busy)
  }

  /** Of the zones, only the one at `b` may differ; lists and LARGE chunks are as they were. */
  ghost predicate OnlyZone(h: Heap, h': Heap, b: int) {
    && b in h.zones && h'.zones.Keys == h.zones.Keys && h'.zones[b].class_ == h.zones[b].class_
    && (forall a :: a in h.zones && a != b ==> h'.zones[a] == h.zones[a])
    && h'.tiny == h.tiny && h'.small == h.small && h'.inUse == h.inUse && h'.bigs == h.bigs
  }

  /** A request served from the zone at `b`: at the next-fit chunk, and the next search starts at the front. */
  ghost predicate FromZone(h: Heap, h': Heap, p: Place, b: int, n: size_t) {
    && OnlyZone(h, h', b) && p.base == b && IsNextFit(h.zones[b].view, BlocksForSize(n), At(p.i))
    && h'.zones[b].view.freePrev == NextFree(h'.zones[b].view.tags, 0)
  }

  /** One zone more, at the front of the list of its class, with the request in its first block. */
  ghost predicate FromNewZone(h: Heap, h': Heap, p: Place, class_: ZoneType) {
    && p.base !in h.zones && p.base !in h.bigs && p.i == 0
    && h'.zones.Keys == h.zones.Keys + {p.base} && h'.zones[p.base].class_ == class_
    && (forall a :: a in h.zones ==> h'.zones[a] == h.zones[a])
    && h'.tiny == (if class_ == TINY then [p.base] + h.tiny else h.tiny)
    && h'.small == (if class_ == TINY then h.small else [p.base] + h.small)
    && h'.inUse == h.inUse && h'.bigs == h.bigs
  }

  /** What malloc of a TINY or SMALL size does: it takes the first zone that serves, and maps one only if none does. */
  ghost predicate Chooses(h: Heap, h': Heap, p: Outcome, n: size_t, os: Os) {
    var list := ListOf(h, ZoneTypeForBytes(n));
    && (forall k: nat :: FirstToServe(h, list, k, n, os.busy) ==> p.Gives? && FromZone(h, h', p.value, list[k], n))
    && (NoneServes(h, list, n, os.busy) ==>
          if p.Gives? then FromNewZone(h, h', p.value, ZoneTypeForBytes(n)) && FromMapping(p.value.base, n, os)
          else h' == h)
  }

  /** A zone lies at its alignment in the mapping that mmap gave. */
  ghost predicate FromMapping(b: int, n: size_t, os: Os) {
    var size := AlignmentOf(ZoneTypeForBytes(n));
    os.mapped.Some? && b % size == 0 && os.mapped.value <= b && b + size <= os.mapped.value + 2 * size
  }

  lemma AllocateInChooses(c: Config, h: Heap, b: int, n: size_t)
    requires HeapInv(c, h) && b in h.zones && ZoneTypeForBytes(n) == h.zones[b].class_
    ensures var (h', p) := AllocateIn(c, h, b, n); p.Some? ==> FromZone(h, h', p.value, b, n)
    ensures AllocateIn(c, h, b, n).1.Some? <==> Z.Allocate(h.zones[b].view, n, c.scribbler).1.At?
  {
    hide HeapInv, Inv, Z.Allocate, NoFit, BlocksForSize, ZoneTypeForBytes, IsNextFit, NextFree;
    ZoneIsSound(c, h, b);
    if Z.Allocate(h.zones[b].view, n, c.scribbler).1.At? {
      Z.AllocateChooses(h.zones[b].view, n, c.scribbler, h.zones[b].class_);
    }
  }

  lemma ListedClass(c: Config, h: Heap, class_: ZoneType)
    requires HeapInv(c, h) && class_ != LARGE
    ensures forall k :: 0 <= k < |ListOf(h, class_)| ==>
              ListOf(h, class_)[k] in h.zones && h.zones[ListOf(h, class_)[k]].class_ == class_
  {
    var list := ListOf(h, class_);
    assert ListsOk(h);
    forall k | 0 <= k < |list| ensures list[k] in h.zones && h.zones[list[k]].class_ == class_ {
      var b := list[k];
      assert b in list;
      assert class_ == TINY ==> b in h.tiny;
      assert class_ == SMALL ==> b in h.small;
    }
    hide HeapInv, ListsOk;
  }

  /** What the walk along the list ends with. */
  ghost predicate Finds(h: Heap, list: seq<int>, found: Option<int>, class_: ZoneType, n: size_t, busy: set<int>) {
    match found
    case Some(b) => b in h.zones && h.zones[b].class_ == class_ &&
                    exists k: nat :: FirstToServe(h, list, k, n, busy) && list[k] == b
    case None => NoneServes(h, list, n, busy)
  }

  /** The walk along the list finds the zone that `FirstToServe` names, or none if there is none. */
  lemma WalkFinds(c: Config, h: Heap, class_: ZoneType, n: size_t, busy: set<int>)
    requires HeapInv(c, h) && class_ != LARGE && ZoneTypeForBytes(n) == class_ && BlocksForSize(n) != 0
    ensures Finds(h, ListOf(h, class_), FirstServing(c, h, ListOf(h, class_), n, busy), class_, n, busy)
  {
    var list := ListOf(h, class_);
    hide HeapInv, Serves, CanServe, FirstServing, ListOf, BlocksForSize, ZoneTypeForBytes;
    ListedClass(c, h, class_);
    FirstServingIs(c, h, list, n, busy);
    forall k | 0 <= k < |list| ensures Serves(c, h, list[k], n, busy) <==> CanServe(h, list[k], n, busy) {
      ServesIff(c, h, list[k], n, busy);
    }
    var found := FirstServing(c, h, list, n, busy);
    if found.Some? {
      var k :| 0 <= k < |list| && list[k] == found.value && Serves(c, h, found.value, n, busy)
               && forall j :: 0 <= j < k ==> !Serves(c, h, list[j], n, busy);
      assert FirstToServe(h, list, k, n, busy);
    }
  }

  lemma OneFirst(h: Heap, list: seq<int>, k: nat, m: nat, n: size_t, busy: set<int>)
    requires FirstToServe(h, list, k, n, busy) && FirstToServe(h, list, m, n, busy)
    ensures k == m
  {
    hide CanServe;
  }

  lemma NewZoneServes(c: Config, h: Heap, n: size_t, b: int)
    requires HeapInv(c, h) && ZoneTypeForBytes(n) != LARGE && BlocksForSize(n) != 0 && b !in h.zones && b !in h.bigs
    requires HeapInv(c, PushZone(c, h, ZoneTypeForBytes(n), b))
    ensures var (h', p) := AllocateIn(c, PushZone(c, h, ZoneTypeForBytes(n), b), b, n);
            p == Some(Place(b, 0)) && FromNewZone(h, h', p.value, ZoneTypeForBytes(n))
  {
    var class_ := ZoneTypeForBytes(n);
    BlocksFill(c, class_);
    Z.FreshZoneServes(HeapBlocks(AlignmentOf(class_), c.header), class_, n, c.scribbler);
    hide HeapInv, Z.Allocate, Z.Fresh, HeapBlocks, BlocksForSize, ZoneTypeForBytes, OffsetHeap, BitmapBytes;
  }

  lemma NewZoneMapping(c: Config, h: Heap, class_: ZoneType, n: size_t, os: Os)
    requires class_ != LARGE && ZoneTypeForBytes(n) == class_ && NewZone(c, h, class_, os).Some?
    ensures FromMapping(NewZone(c, h, class_, os).value, n, os)
  {
    assert WORD % AlignmentOf(class_) == 0;
    TrimmingAligns(os.mapped.value, AlignmentOf(class_));
    hide TrimmedMapping, ZoneTypeForBytes;
  }

  lemma FromZonesChooses(c: Config, h: Heap, class_: ZoneType, n: size_t, os: Os)
    requires HeapInv(c, h) && class_ != LARGE && ZoneTypeForBytes(n) == class_ && BlocksForSize(n) != 0
    ensures var (h', p) := MallocFromZones(c, h, class_, n, os); Chooses(h, h', Filled(c, p), n, os)
  {
    var list := ListOf(h, class_);
    var found := FirstServing(c, h, list, n, os.busy);
    hide HeapInv, FirstServing, NewZone, AllocateIn, FromZone, FromNewZone, FromMapping, ListOf, BlocksForSize,
         ZoneTypeForBytes, CanServe, PushZone;
    WalkFinds(c, h, class_, n, os.busy);
    if found.Some? {
      var k: nat :| FirstToServe(h, list, k, n, os.busy) && list[k] == found.value;
      AllocateInChooses(c, h, found.value, n);
      ServesIff(c, h, found.value, n, os.busy);
      hide Z.Allocate;
      forall m: nat | FirstToServe(h, list, m, n, os.busy) ensures m == k { OneFirst(h, list, k, m, n, os.busy); }
      assert !NoneServes(h, list, n, os.busy);
    } else {
      var b := NewZone(c, h, class_, os);
      if b.Some? {
        NewZoneIs(c, h, class_, os);
        NewZoneMapping(c, h, class_, n, os);
        PushZoneKeeps(c, h, class_, b.value);
        UnmappedIs(h, b.value);
        NewZoneServes(c, h, n, b.value);
      }
      forall k: nat ensures !FirstToServe(h, list, k, n, os.busy) {}
    }
  }

  lemma UnmappedIs(h: Heap, b: int)
    requires !Mapped(h, b)
    ensures b !in h.zones && b !in h.bigs
  {
  }

  /** malloc takes the first zone of the list that serves, and maps a new zone exactly when none does. */
  lemma MallocChooses(c: Config, h: Heap, n: size_t, os: Os)
    requires HeapInv(c, h) && !MallocRejects(n) && ZoneTypeForBytes(n) != LARGE
    ensures var (h', p) := Malloc(c, h, n, os); Chooses(h, h', p, n, os)
  {
    ConfigIsGood(c, h);
    assert BlocksForSize(n) != 0;
    hide HeapInv, MallocRejects, BlocksForSize, ZoneTypeForBytes, MallocFromZones, Chooses;
    FromZonesChooses(c, h, ZoneTypeForBytes(n), n, os);
  }

  /** malloc of a LARGE size maps just the pages of one chunk, at the address that mmap gave. */
  ghost predicate MapsOnce(c: Config, h: Heap, h': Heap, p: Outcome, n: size_t, os: Os)
    requires 0 < c.page
  {
    if !p.Gives? then h' == h
    else
      && os.mapped == Some(p.value.base) && !Mapped(h, p.value.base)
      && h'.zones == h.zones && h'.tiny == h.tiny && h'.small == h.small
      && h'.bigs.Keys == h.bigs.Keys + {p.value.base}
      && (forall a :: a in h.bigs ==> h'.bigs[a] == h.bigs[a])
      && var whole := 48 + UNIT * BlocksForSize(n);
         whole <= Extent(h', p.value.base) < whole + c.page && Extent(h', p.value.base) % c.page == 0
  }

  lemma LargeMapsOnce(c: Config, h: Heap, n: size_t, os: Os)
    requires HeapInv(c, h) && !MallocRejects(n) && ZoneTypeForBytes(n) == LARGE
    ensures var (h', p) := Malloc(c, h, n, os); MapsOnce(c, h, h', p, n, os)
  {
    ConfigIsGood(c, h);
    assert Malloc(c, h, n, os).0 == MallocLarge(c, h, n, os).0;
    hide HeapInv, MallocRejects, BlocksForSize, ZoneTypeForBytes, LargePlan, LargeBody, MallocLarge, L.Inserted;
    MallocLargeIs(c, h, n, os);
    if MallocLarge(c, h, n, os).1.Some? {
      LargePlanIsExact(n, c.page);
      var bytes := LargeChunk(n, c).bytes;
      PlanPositive(n, c.page);
      FreshIsUnmapped(c, h, os.mapped.value, bytes);
    }
    hide FreshRange, GoodConfig;
  }

  /** All that malloc does: which memory it takes, and that it takes no more. */
  ghost predicate Mallocs(c: Config, h: Heap, h': Heap, p: Outcome, n: size_t, os: Os)
    requires 0 < c.page
  {
    && (p.Gives? ==> Added(h, h', p.value, BlocksForSize(n)) && n <= |BodyOf(h', p.value)| * UNIT)
    && if n > WORD - 2 * UNIT then h' == h && p == Fails
       else if ZoneTypeForBytes(n) == LARGE then MapsOnce(c, h, h', p, n, os)
       else Chooses(h, h', p, n, os)
  }

  lemma MallocExactly(c: Config, h: Heap, n: size_t, os: Os)
    requires HeapInv(c, h)
    ensures c.header <= 0x1000 && 0 < c.page
    ensures var (h', p) := Malloc(c, h, n, os); HeapInv(c, h') && Mallocs(c, h, h', p, n, os)
  {
    ConfigIsGood(c, h);
    HeaderIsSmall(c);
    RejectsOnlyTheLast31(n);
    MallocKeeps(c, h, n, os);
    if n > WORD - 2 * UNIT {
      assert Malloc(c, h, n, os) == (h, Fails);
    } else if ZoneTypeForBytes(n) == LARGE {
      LargeMapsOnce(c, h, n, os);
    } else {
      MallocChooses(c, h, n, os);
    }
    hide HeapInv, Malloc, MapsOnce, Chooses, Added, BlocksForSize, ZoneTypeForBytes, BodyOf, MallocRejects, GoodConfig;
  }

  lemma PlanPositive(n: size_t, page: nat)
    requires 1 < page && WORD % page == 0 && !MallocRejects(n) && LargePlan(n, page).Some?
    ensures 0 < LargePlan(n, page).value.0
  {
    LargePlanIsExact(n, page);
    hide LargePlan, MallocRejects, BlocksForSize;
  }

  // ---------------------------------------------------------------- what a new body holds

  ghost predicate FilledWith(body: seq<Cell>, byte: bv8) {
    forall k :: 0 <= k < |body| ==> body[k] == Data(seq(UNIT, _ => byte))
  }

  lemma AllocateInFills(c: Config, h: Heap, b: int, n: size_t)
    requires HeapInv(c, h) && b in h.zones && ZoneTypeForBytes(n) == h.zones[b].class_ && c.scribbler != 0
    requires AllocateIn(c, h, b, n).1.Some?
    ensures var (h', p) := AllocateIn(c, h, b, n); FilledWith(BodyOf(h', p.value), c.scribbler)
  {
    var (h', p) := AllocateIn(c, h, b, n);
    hide HeapInv, Inv, Z.Allocate, BlocksForSize, ZoneTypeForBytes, BodyAt, Z.Added;
    ZoneIsSound(c, h, b);
    Z.AllocateEffect(h.zones[b].view, n, c.scribbler, h.zones[b].class_);
    var v := Z.Allocate(h.zones[b].view, n, c.scribbler).0;
    BodyAdded(h.zones[b].view, v, p.value.i, BlocksForSize(n));
    forall k | 0 <= k < |BodyOf(h', p.value)| ensures BodyOf(h', p.value)[k] == Data(seq(UNIT, _ => c.scribbler)) {
      Z.AllocateFills(h.zones[b].view, n, c.scribbler, h.zones[b].class_, k);
    }
  }

  lemma BodyAdded(v: View, u: View, i: nat, blocks: nat)
    requires Z.Added(Z.Seen(v), i, blocks, Z.Seen(u))
    ensures i in Z.Seen(u) && Z.Seen(u)[i] == BodyAt(u.mem, i) && |BodyAt(u.mem, i)| == blocks
  {
    hide BodyAt;
  }

  /** A new body holds the scribbler byte throughout; without one, a LARGE body holds zeros. */
  lemma MallocFills(c: Config, h: Heap, n: size_t, os: Os)
    requires HeapInv(c, h) && Malloc(c, h, n, os).1.Gives? && (c.scribbler != 0 || ZoneTypeForBytes(n) == LARGE)
    ensures var (h', p) := Malloc(c, h, n, os); FilledWith(BodyOf(h', p.value), c.scribbler)
  {
    ConfigIsGood(c, h);
    hide HeapInv, MallocRejects, BlocksForSize, ZoneTypeForBytes, MallocFromZones, MallocLarge, BodyOf, FilledWith;
    var class_ := ZoneTypeForBytes(n);
    if class_ == LARGE { LargeFills(c, h, n, os); } else { ZonesFill(c, h, class_, n, os); }
  }

  lemma LargeFills(c: Config, h: Heap, n: size_t, os: Os)
    requires HeapInv(c, h) && MallocLarge(c, h, n, os).1.Some?
    ensures var (h', p) := MallocLarge(c, h, n, os); FilledWith(BodyOf(h', p.value), c.scribbler)
  {
    assert MallocLarge(c, h, n, os).1.value.base !in h.zones by {
      assert FreshRange(h, os.mapped.value, LargePlan(n, c.page).value.0);
      forall a | a in h.zones ensures a != os.mapped.value { assert 0 < AlignmentOf(h.zones[a].class_); }
    }
    hide HeapInv, FreshRange, LargePlan, L.Inserted;
  }

  lemma ZonesFill(c: Config, h: Heap, class_: ZoneType, n: size_t, os: Os)
    requires HeapInv(c, h) && class_ != LARGE && ZoneTypeForBytes(n) == class_ && c.scribbler != 0
    requires MallocFromZones(c, h, class_, n, os).1.Some?
    ensures var (h', p) := MallocFromZones(c, h, class_, n, os); FilledWith(BodyOf(h', p.value), c.scribbler)
  {
    var list := ListOf(h, class_);
    hide HeapInv, FirstServing, NewZone, AllocateIn, ListOf, ZoneTypeForBytes, BodyOf, FilledWith;
    ConfigIsGood(c, h);
    FoundClass(c, h, class_, n, os.busy);
    var found := FirstServing(c, h, list, n, os.busy);
    if found.Some? {
      AllocateInFills(c, h, found.value, n);
    } else {
      var b := NewZone(c, h, class_, os).value;
      NewZoneIs(c, h, class_, os);
      PushZoneKeeps(c, h, class_, b);
      assert PushZone(c, h, class_, b).zones[b].class_ == class_ by { hide Z.Fresh, HeapBlocks; }
      hide PushZone;
      AllocateInFills(c, PushZone(c, h, class_, b), b, n);
    }
  }

  lemma FoundClass(c: Config, h: Heap, class_: ZoneType, n: size_t, busy: set<int>)
    requires HeapInv(c, h) && class_ != LARGE
    ensures var found := FirstServing(c, h, ListOf(h, class_), n, busy);
            found.Some? ==> found.value in h.zones && h.zones[found.value].class_ == class_
  {
    hide HeapInv, FirstServing, ListOf, Serves;
    ListedClass(c, h, class_);
    FirstServingIs(c, h, ListOf(h, class_), n, busy);
  }

  // ---------------------------------------------------------------- free

  lemma FreeInZoneIs(c: Config, h: Heap, p: Place)
    requires HeapInv(c, h) && Live(h, p) && p.base in h.zones
    ensures HeaderAt(h.zones[p.base].view, p.i)
    ensures FreeAt(c, h, p) ==
            SetView(h, p.base, FreeLocked(h.zones[p.base].view, p.i, Z.Filler(c.scribbler, true)))
  {
    LiveChunk(c, h, p);
    RealHeaderIsActual(h, p);
    assert HeaderAt(h.zones[p.base].view, p.i) && Z.Live(h.zones[p.base].view, p.i);
    hide HeapInv, Actual, ZoneAndIndex, FreeLocked, Z.Filler, BodyOf, SetView;
    FreeFindsZone(c, h, p);
  }

  lemma FreeLargeIs(c: Config, h: Heap, p: Place)
    requires HeapInv(c, h) && Live(h, p) && p.base !in h.zones
    ensures FreeAt(c, h, p) == FreeLarge(h, p.base)
  {
    LiveChunk(c, h, p);
    RealHeaderIsActual(h, p);
    hide HeapInv, Actual, ZoneAndIndex, BodyOf, FreeLarge;
  }

  lemma ZoneRover(c: Config, h: Heap, p: Place, fill: Option<Cell>)
    requires HeapInv(c, h) && Live(h, p) && p.base in h.zones
    ensures HeaderAt(h.zones[p.base].view, p.i)
    ensures RoverCovers(FreeLocked(h.zones[p.base].view, p.i, fill), p.i, |BodyOf(h, p)| + 1)
  {
    LiveInZone(c, h, p);
    var v := h.zones[p.base].view;
    Z.InvIsCore(v, h.zones[p.base].class_);
    Z.CoreIsShape(v);
    Z.LiveIffUsed(v, p.i);
    hide HeapInv, Inv, Core, FreeLocked, Live, BodyAt, Shape;
    RoverAfterFree(v, p.i, fill);
  }

  /** free changes the zone of its chunk alone, or unmaps the one LARGE chunk; it unmaps no zone. */
  lemma FreeTouchesOne(c: Config, h: Heap, p: Place)
    requires HeapInv(c, h) && Live(h, p)
    ensures var h' := FreeAt(c, h, p);
            if p.base in h.zones
            then OnlyZone(h, h', p.base) && RoverCovers(h'.zones[p.base].view, p.i, |BodyOf(h, p)| + 1)
            else h'.zones == h.zones && h'.tiny == h.tiny && h'.small == h.small && h'.bigs == h.bigs - {p.base}
  {
    ConfigIsGood(c, h);
    hide *;
    HeaderIsSmall(c);
    if p.base in h.zones {
      FreeInZoneIs(c, h, p);
      ZoneRover(c, h, p, Z.Filler(c.scribbler, true));
      SetViewIs(h, p.base, FreeLocked(h.zones[p.base].view, p.i, Z.Filler(c.scribbler, true)));
    } else {
      FreeLargeIs(c, h, p);
      FreeLargeLeaves(h, p.base);
    }
  }

  lemma SetViewIs(h: Heap, b: int, v: View)
    requires b in h.zones
    ensures OnlyZone(h, SetView(h, b, v), b) && SetView(h, b, v).zones[b].view == v
  {
  }

  lemma FreeLargeLeaves(h: Heap, b: int)
    ensures var h' := FreeLarge(h, b);
            h'.zones == h.zones && h'.tiny == h.tiny && h'.small == h.small && h'.bigs == h.bigs - {b}
  {
  }

  /** The rover is at the free chunk that the `blocks` blocks from `i` on are part of. */
  ghost predicate RoverCovers(v: View, i: nat, blocks: nat) {
    && v.freePrev.At? && v.freePrev.pos <= i && HeaderAt(v, v.freePrev.pos) && v.tags[v.freePrev.pos] == Free
    && i + blocks <= v.freePrev.pos + v.mem[v.freePrev.pos].blocks
  }

  // ---------------------------------------------------------------- realloc

  /** The request is of the class of the chunk and fits, and the chunk is below the misclassified size of its class. */
  ghost predicate Stays(h: Heap, p: Place, n: size_t) {
    var needed, current := BlocksForSize(n), |BodyOf(h, p)|;
    && n <= WORD - UNIT && needed <= current
    && if p.base in h.zones
       then ZoneTypeForBytes(n) == h.zones[p.base].class_ && current + 1 < LiveMax(h.zones[p.base].class_)
       else SMALL_MAX_BLOCKS < needed
  }

  /** The piece that can be cut off is large enough for a free chunk of the class. */
  ghost predicate Shrinks(h: Heap, p: Place, n: size_t) {
    p.base in h.zones && BlocksForSize(n) + FreeMin(h.zones[p.base].class_) <= |BodyOf(h, p)|
  }

  /** realloc in place, in a zone: the body loses its tail, or nothing happens at all. */
  lemma ZoneReallocInPlace(c: Config, h: Heap, p: Place, n: size_t, os: Os)
    requires HeapInv(c, h) && Live(h, p) && p.base in h.zones && Stays(h, p, n)
    ensures var (h', q) := Realloc(c, h, p, n, os);
            && q == Gives(p)
            && (Shrinks(h, p, n) ==> OnlyZone(h, h', p.base) && Rewritten(h, h', p, BodyOf(h, p)[..BlocksForSize(n)]))
            && (!Shrinks(h, p, n) ==> h' == h)
  {
    ConfigIsGood(c, h);
    LiveChunk(c, h, p);
    LiveInZone(c, h, p);
    var class_, current, keep := h.zones[p.base].class_, Load(h, p).blocks, BlocksForSize(n) + 1;
    Z.PlanExactly(class_, current, n);
    RequestIsLive(class_, n);
    ReallocByPlan(c, h, p, n, os);
    if Shrinks(h, p, n) {
      assert ReallocPlan(current, n) == ShrinkTo(keep);
      hide *;
      ShrinksOnly(c, h, p, n, os, keep);
    }
    hide HeapInv, ReallocPlan, Realloc, BodyOf, Load, Live, Exists, Inv;
  }

  lemma RequestIsLive(class_: ZoneType, n: size_t)
    requires class_ != LARGE && n <= WORD - UNIT && ZoneTypeForBytes(n) == class_
    ensures LiveMin(class_) <= BlocksForSize(n) + 1
  {
  }

  lemma ShrinksOnly(c: Config, h: Heap, p: Place, n: size_t, os: Os, keep: nat)
    requires HeapInv(c, h) && Live(h, p) && p.base in h.zones && Exists(h, p) && Load(h, p).Header?
    requires ReallocPlan(Load(h, p).blocks, n) == ShrinkTo(keep)
    requires LiveMin(h.zones[p.base].class_) <= keep && keep + FreeMin(h.zones[p.base].class_) <= Load(h, p).blocks
    ensures c.header <= 0x1000 && 0 < c.page && 1 <= keep && keep - 1 <= |BodyOf(h, p)|
    ensures var (h', q) := Realloc(c, h, p, n, os);
            q == Gives(p) && OnlyZone(h, h', p.base) && Rewritten(h, h', p, BodyOf(h, p)[..keep - 1])
  {
    hide *;
    ConfigIsGood(c, h);
    HeaderIsSmall(c);
    FreeFindsZone(c, h, p);
    ShrinkKeeps(c, h, p, keep);
    ShrinkArm(c, h, p, n, os, keep);
    SetViewIs(h, p.base, ShrinkLocked(h.zones[p.base].view, p.i, keep, Z.Filler(c.scribbler, true)));
  }

  /** Where realloc does not stay, it moves: to a new chunk of just the requested blocks, if malloc gives one. */
  ghost predicate Moves(c: Config, h: Heap, h': Heap, p: Place, q: Outcome, n: size_t, os: Os)
    requires c.header <= 0x1000 && 0 < c.page && n <= WORD - UNIT
  {
    && q == Malloc(c, h, BlocksForSize(n) * UNIT, os).1
    && (q.Gives? ==> q.value != p && |BodyOf(h', q.value)| == BlocksForSize(n) && Reallocated(h, h', p, q.value, n))
    && (q.Fails? ==> AllSame(h, h'))
  }

  lemma PlanToMove(c: Config, h: Heap, p: Place, n: size_t)
    requires HeapInv(c, h) && Live(h, p) && n <= WORD - UNIT && !Stays(h, p, n)
    ensures Exists(h, p) && Load(h, p).Header? && ReallocPlan(Load(h, p).blocks, n) == Relocate(BlocksForSize(n) + 1)
    ensures 1 <= BlocksForSize(n) && BlocksForSize(n) * UNIT < WORD && n <= BlocksForSize(n) * UNIT
  {
    hide HeapInv, Live, BodyOf, Load, Exists, Inv;
    LiveChunk(c, h, p);
    if p.base in h.zones {
      LiveInZone(c, h, p);
      Z.PlanExactly(h.zones[p.base].class_, Load(h, p).blocks, n);
      if ReallocPlan(Load(h, p).blocks, n).Relocate? { ZonePlan(h.zones[p.base].class_, Load(h, p).blocks, n); }
    } else {
      BigPlan(c, h, p, n);
      BigPlanExactly(|BodyOf(h, p)|, n);
    }
    hide ReallocPlan;
  }

  /** All that realloc does, said without its size computations. */
  ghost predicate Resizes(c: Config, h: Heap, h': Heap, p: Place, q: Outcome, n: size_t, os: Os)
    requires c.header <= 0x1000 && 0 < c.page
  {
    if n > WORD - UNIT then h' == h && q == Fails
    else if !Stays(h, p, n) then Moves(c, h, h', p, q, n, os)
    else
      && q == Gives(p)
      && (Shrinks(h, p, n) ==> OnlyZone(h, h', p.base) && Rewritten(h, h', p, BodyOf(h, p)[..BlocksForSize(n)]))
      && (!Shrinks(h, p, n) ==> h' == h)
  }

  lemma ReallocRefuses(c: Config, h: Heap, p: Place, n: size_t, os: Os)
    requires HeapInv(c, h) && Live(h, p) && n > WORD - UNIT
    ensures c.header <= 0x1000 && 0 < c.page && Realloc(c, h, p, n, os) == (h, Fails)
  {
    ConfigIsGood(c, h);
    LiveChunk(c, h, p);
    hide HeapInv, Realloc, BodyOf, Load, Live, Exists;
    ReallocByPlan(c, h, p, n, os);
  }

  lemma ReallocMoves(c: Config, h: Heap, p: Place, n: size_t, os: Os)
    requires HeapInv(c, h) && Live(h, p) && n <= WORD - UNIT && !Stays(h, p, n)
    ensures c.header <= 0x1000 && 0 < c.page
    ensures var (h', q) := Realloc(c, h, p, n, os); Moves(c, h, h', p, q, n, os)
  {
    hide HeapInv, Realloc, RelocateChunk, Malloc, BodyOf, Load, Live, Exists, ReallocPlan, BlocksForSize, Stays,
         Reallocated, AllSame, GoodConfig;
    ConfigIsGood(c, h);
    HeaderIsSmall(c);
    LiveChunk(c, h, p);
    ReallocByPlan(c, h, p, n, os);
    PlanToMove(c, h, p, n);
    RelocateKeeps(c, h, p, BlocksForSize(n) + 1, n, os);
  }

  lemma BigReallocInPlace(c: Config, h: Heap, p: Place, n: size_t, os: Os)
    requires HeapInv(c, h) && Live(h, p) && p.base !in h.zones && Stays(h, p, n)
    ensures c.header <= 0x1000 && 0 < c.page && Realloc(c, h, p, n, os) == (h, Gives(p)) && !Shrinks(h, p, n)
  {
    hide HeapInv, Realloc, BodyOf, Load, Live, Exists, ReallocPlan, GoodConfig;
    ConfigIsGood(c, h);
    HeaderIsSmall(c);
    LiveChunk(c, h, p);
    ReallocByPlan(c, h, p, n, os);
    BigPlan(c, h, p, n);
    BigPlanExactly(|BodyOf(h, p)|, n);
  }

  /** realloc stays in place exactly when `Stays` says so, whatever mmap would give; a LARGE chunk is then untouched. */
  lemma ReallocExactly(c: Config, h: Heap, p: Place, n: size_t, os: Os)
    requires HeapInv(c, h) && Live(h, p)
    ensures c.header <= 0x1000 && 0 < c.page
    ensures var (h', q) := Realloc(c, h, p, n, os);
            Resizes(c, h, h', p, q, n, os) && (q == Gives(p) <==> Stays(h, p, n))
  {
    ConfigIsGood(c, h);
    HeaderIsSmall(c);
    hide HeapInv, Realloc, BodyOf, Live, GoodConfig, Rewritten, OnlyZone, Shrinks, BlocksForSize, Reallocated, Malloc;
    if n > WORD - UNIT {
      ReallocRefuses(c, h, p, n, os);
    } else if !Stays(h, p, n) {
      ReallocMoves(c, h, p, n, os);
    } else if p.base in h.zones {
      ZoneReallocInPlace(c, h, p, n, os);
    } else {
      BigReallocInPlace(c, h, p, n, os);
    }
    hide ZoneTypeForBytes;
  }

  // ---------------------------------------------------------------- release_memory

  /** What stays on a list keeps its order. */
  lemma {:induction false} ReleaseKeepsOrder(h: Heap, a: seq<int>, b: seq<int>)
    ensures Unreleased(h, a + b) == Unreleased(h, a) + Unreleased(h, b)
    ensures |a| == 1 ==> Unreleased(h, a) == if Releasable(h, a[0]) then [] else a
  {
    if a == [] {
      assert a + b == b;
    } else {
      assert (a + b)[1..] == a[1..] + b;
      ReleaseKeepsOrder(h, a[1..], b);
    }
    hide Releasable;
  }
}
