/**
  Writes by the caller, realloc and release_memory.
*/
module HeapRealloc {
  import opened Sizes
  import opened Wrappers
  import opened ZoneModel
  import opened ZoneFree
  import opened ZoneShrink
  import opened ZoneStore
  import opened ZoneTheorems
  import Z = ZoneRuns
  import opened ZoneLayout
  import L = LargeList
  import opened LinkedLists
  import opened HeapModel
  import opened HeapProofs
  import opened HeapOps

  // ---------------------------------------------------------------- writes

  /** The body of `p` has become `body`, and nothing else has changed for the callers. */
  ghost predicate Rewritten(h: Heap, h': Heap, p: Place, body: seq<Cell>) {
    Live(h', p) && BodyOf(h', p) == body && OthersSame(h, h', p)
  }

  lemma WriteLength(v: View, class_: ZoneType, i: nat, k: nat, cell: Cell)
    ensures Z.Step(v, class_, 0, Z.Write(i, k, cell)).tags == v.tags
  {
  }

  lemma WriteZone(c: Config, h: Heap, p: Place, k: nat, cell: Cell)
    requires HeapInv(c, h) && Live(h, p) && p.base in h.zones && 1 <= k <= |BodyOf(h, p)|
    ensures HeapInv(c, WriteCell(h, p, k, cell)) &&
            Rewritten(h, WriteCell(h, p, k, cell), p, BodyOf(h, p)[k - 1 := cell])
  {
    var z := h.zones[p.base];
    var v := Z.Step(z.view, z.class_, 0, Z.Write(p.i, k, cell));
    assert ZoneOk(c, p.base, z);
    Z.StepKeepsInv(z.view, z.class_, 0, Z.Write(p.i, k, cell));
    Z.WriteEffect(z.view, 0, p.i, k, cell, z.class_);
    Z.WriteLands(z.view, p.i, k);
    WriteLength(z.view, z.class_, p.i, k, cell);
    hide HeapInv, ZoneOk, Z.Step, Z.Seen, Store;
    WrittenAlone(z.view, v, p.i, k, cell, z.class_);
    SetViewInv(c, h, p.base, v);
    SetViewOthers(c, h, p, v);
    hide OthersSame, Inv, Z.Live, BodyAt;
  }

  lemma WrittenAlone(v: View, v': View, i: nat, k: nat, cell: Cell, class_: ZoneType)
    requires Inv(v, class_) && Inv(v', class_) && Z.Live(v, i) && 1 <= k <= |BodyAt(v.mem, i)|
    requires Z.Effect(Z.Seen(v), Z.Write(i, k, cell), Z.Seen(v'))
    ensures Z.Seen(v') - {i} == Z.Seen(v) - {i} && Z.Live(v', i) && BodyAt(v'.mem, i) == BodyAt(v.mem, i)[k - 1 := cell]
  {
    Z.LiveIffUsed(v, i);
    Z.LiveIffUsed(v', i);
    assert i in Z.Seen(v) && Z.Seen(v)[i] == BodyAt(v.mem, i);
    assert i in Z.Seen(v') && Z.Seen(v')[i] == BodyAt(v'.mem, i);
    hide BodyAt, Inv, Z.Live;
  }

  lemma WriteBig(c: Config, h: Heap, p: Place, k: nat, cell: Cell)
    requires HeapInv(c, h) && Live(h, p) && p.base !in h.zones && 1 <= k <= |BodyOf(h, p)|
    ensures HeapInv(c, WriteCell(h, p, k, cell)) &&
            Rewritten(h, WriteCell(h, p, k, cell), p, BodyOf(h, p)[k - 1 := cell])
  {
    var h' := WriteCell(h, p, k, cell);
    forall q | q != p ensures SameAt(h, h', q) {}
    forall a, d | Mapped(h', a) && Mapped(h', d) && a < d ensures a + Extent(h', a) <= d {
      assert Mapped(h, a) && Mapped(h, d) && Extent(h', a) == Extent(h, a);
    }
    forall b | b in h'.bigs ensures BigOk(c, b, h'.bigs[b]) { assert BigOk(c, b, h.bigs[b]); }
    hide ZoneOk, Ascending, Distinct;
  }

  /** A write to a block of a chunk changes that block alone. */
  lemma WriteKeeps(c: Config, h: Heap, p: Place, k: nat, cell: Cell)
    requires HeapInv(c, h) && Live(h, p) && 1 <= k <= |BodyOf(h, p)|
    ensures HeapInv(c, WriteCell(h, p, k, cell)) &&
            Rewritten(h, WriteCell(h, p, k, cell), p, BodyOf(h, p)[k - 1 := cell])
  {
    hide *;
    if p.base in h.zones { WriteZone(c, h, p, k, cell); } else { WriteBig(c, h, p, k, cell); }
  }

  lemma RewrittenTwice(h: Heap, g: Heap, h': Heap, p: Place, a: seq<Cell>, b: seq<Cell>)
    requires Rewritten(h, g, p, a) && Rewritten(g, h', p, b)
    ensures Rewritten(h, h', p, b)
  {
    forall q | q != p ensures SameAt(h, h', q) { assert SameAt(h, g, q) && SameAt(g, h', q); }
    hide Live, BodyOf;
  }

  lemma CopiedSoFar(body: seq<Cell>, cells: seq<Cell>, k: nat)
    requires k < |cells| <= |body|
    ensures body[k := cells[k]][..k + 1] + cells[k + 1..] + body[k := cells[k]][|cells|..] ==
            body[..k] + cells[k..] + body[|cells|..]
  {
    var b := body[k := cells[k]];
    assert b[..k + 1] == body[..k] + [cells[k]] && cells[k..] == [cells[k]] + cells[k + 1..] &&
           b[|cells|..] == body[|cells|..];
  }

  /** The copying loop of relocate_chunk puts the blocks in place, and changes nothing else. */
  lemma {:induction false} CopyKeeps(c: Config, h: Heap, p: Place, cells: seq<Cell>, k: nat)
    requires HeapInv(c, h) && Live(h, p) && k <= |cells| <= |BodyOf(h, p)|
    ensures HeapInv(c, CopyFrom(h, p, cells, k))
    ensures Rewritten(h, CopyFrom(h, p, cells, k), p, BodyOf(h, p)[..k] + cells[k..] + BodyOf(h, p)[|cells|..])
    decreases |cells| - k
  {
    var body := BodyOf(h, p);
    hide HeapInv, WriteCell, Live, BodyOf, OthersSame;
    if k == |cells| {
      assert body[..k] + cells[k..] + body[|cells|..] == body;
      Unwritten(h, p);
    } else {
      var g := WriteCell(h, p, k + 1, cells[k]);
      WriteKeeps(c, h, p, k + 1, cells[k]);
      CopyKeeps(c, g, p, cells, k + 1);
      CopiedSoFar(body, cells, k);
      RewrittenTwice(h, g, CopyFrom(g, p, cells, k + 1), p, body[k := cells[k]],
        body[..k] + cells[k..] + body[|cells|..]);
    }
  }

  lemma Unwritten(h: Heap, p: Place)
    requires Live(h, p)
    ensures Rewritten(h, h, p, BodyOf(h, p))
  {
  }

  // ---------------------------------------------------------------- realloc

  /** What realloc of `p` to `n` bytes promises for a result `q`: room, the old contents, and no change elsewhere. */
  ghost predicate Reallocated(h: Heap, h': Heap, p: Place, q: Place, n: nat) {
    && Live(h', q) && n <= |BodyOf(h', q)| * UNIT
    && (var m := Min(|BodyOf(h, p)|, |BodyOf(h', q)|); BodyOf(h', q)[..m] == BodyOf(h, p)[..m])
    && (q != p ==> !Live(h, q) && !Live(h', p))
    && forall r {:trigger SameAt(h, h', r)} :: r != p && r != q ==> SameAt(h, h', r)
  }

  lemma ShrinkLength(v: View, i: nat, keep: nat, fill: Option<Cell>)
    requires HeaderAt(v, i) && 2 <= keep < v.mem[i].blocks && i + v.mem[i].blocks <= |v.mem|
    ensures |ShrinkLocked(v, i, keep, fill).tags| == |v.tags|
  {
    FreeLength(CutOff(v, i, keep), i + keep, fill);
    hide FreeLocked;
  }

  lemma ShrunkAlone(v: View, v': View, i: nat, keep: nat, class_: ZoneType)
    requires Inv(v, class_) && Inv(v', class_) && Z.Live(v, i) && keep <= |BodyAt(v.mem, i)|
    requires Store(v'.tags, v'.mem) == Store(v.tags, v.mem)[i := BodyAt(v.mem, i)[..keep]]
    ensures Z.Seen(v') - {i} == Z.Seen(v) - {i} && Z.Live(v', i) && BodyAt(v'.mem, i) == BodyAt(v.mem, i)[..keep]
  {
    Z.LiveIffUsed(v', i);
    assert i in Z.Seen(v') && Z.Seen(v')[i] == BodyAt(v'.mem, i);
    hide BodyAt, Inv, Z.Live;
  }

  lemma LiveInZone(c: Config, h: Heap, p: Place)
    requires HeapInv(c, h) && Live(h, p) && p.base in h.zones
    ensures var z := h.zones[p.base];
            && z.class_ != LARGE && Inv(z.view, z.class_) && Z.Live(z.view, p.i) && HeaderAt(z.view, p.i) &&
               z.view.tags[p.i] == Used
            && p.i + z.view.mem[p.i].blocks <= |z.view.mem| && BodyOf(h, p) == BodyAt(z.view.mem, p.i)
  {
    assert ZoneOk(c, p.base, h.zones[p.base]);
    Z.LiveIffUsed(h.zones[p.base].view, p.i);
    hide Inv, HeapBlocks, BodyAt;
  }

  lemma ShrinkKeeps(c: Config, h: Heap, p: Place, keep: nat)
    requires HeapInv(c, h) && Live(h, p) && p.base in h.zones
    requires LiveMin(h.zones[p.base].class_) <= keep && keep + FreeMin(h.zones[p.base].class_) <= Load(h, p).blocks
    ensures var v := h.zones[p.base].view;
            && HeaderAt(v, p.i) && 2 <= keep < v.mem[p.i].blocks && p.i + v.mem[p.i].blocks <= |v.mem|
            && var h' := SetView(h, p.base, ShrinkLocked(v, p.i, keep, Z.Filler(c.scribbler, true)));
               HeapInv(c, h') && keep - 1 <= |BodyOf(h, p)| && Rewritten(h, h', p, BodyOf(h, p)[..keep - 1])
  {
    hide HeapInv, Live, Z.Live, ShrinkLocked, Z.Seen, Store, Inv, CutOff, FreeLocked, OthersSame, BodyAt, Z.Filler;
    LiveInZone(c, h, p);
    var z := h.zones[p.base];
    var fill := Z.Filler(c.scribbler, true);
    assert HeaderAt(z.view, p.i) && 2 <= keep < z.view.mem[p.i].blocks;
    var v := ShrinkLocked(z.view, p.i, keep, fill);
    ShrinkKeepsInv(z.view, p.i, keep, fill, z.class_);
    ShrinkStore(z.view, p.i, keep, fill, z.class_);
    ShrinkLength(z.view, p.i, keep, fill);
    ShrunkAlone(z.view, v, p.i, keep - 1, z.class_);
    SetViewInv(c, h, p.base, v);
    SetViewOthers(c, h, p, v);
    ShrunkBody(h, p, v);
  }

  lemma ShrunkBody(h: Heap, p: Place, v: View)
    requires p.base in h.zones && Z.Live(v, p.i)
    ensures Live(SetView(h, p.base, v), p) && BodyOf(SetView(h, p.base, v), p) == BodyAt(v.mem, p.i)
  {
    hide Z.Live, BodyAt;
  }

  lemma ShrunkIsReallocated(h: Heap, h': Heap, p: Place, k: nat, n: nat)
    requires Live(h, p) && k <= |BodyOf(h, p)| && Rewritten(h, h', p, BodyOf(h, p)[..k]) && n <= k * UNIT
    ensures Reallocated(h, h', p, p, n)
  {
    hide Live, BodyOf, SameAt;
  }

  lemma WholeBlocks(blocks: nat)
    requires 1 <= blocks && blocks * UNIT < WORD
    ensures BlocksForSize(blocks * UNIT) == blocks
  {
  }

  /** Allocated, copied and freed: the three stages of a relocation put together. */
  lemma StagesOfRelocation(h: Heap, g: Heap, f: Heap, h': Heap, p: Place, q: Place, blocks: nat, n: nat)
    requires Live(h, p) && Added(h, g, q, blocks) && n <= blocks * UNIT
    requires var m := Min(|BodyOf(g, q)|, |BodyOf(g, p)|); Rewritten(g, f, q, BodyOf(g, p)[..m] + BodyOf(g, q)[m..])
    requires Freed(f, h', p)
    ensures Reallocated(h, h', p, q, n) && q != p && |BodyOf(h', q)| == blocks
  {
    assert p != q;
    assert SameAt(h, g, p) && SameAt(f, h', q);
    assert |BodyOf(h', q)| == blocks;
    var m := Min(|BodyOf(h, p)|, blocks);
    assert BodyOf(h', q)[..m] == BodyOf(h, p)[..m];
    forall r | r != p && r != q ensures SameAt(h, h', r) {
      assert SameAt(h, g, r) && SameAt(g, f, r) && SameAt(f, h', r);
    }
    hide Live, BodyOf;
  }

  lemma RelocateKeeps(c: Config, h: Heap, p: Place, required: nat, n: nat, os: Os)
    requires HeapInv(c, h) && Live(h, p) && 2 <= required && (required - 1) * UNIT < WORD && n <= (required - 1) * UNIT
    ensures var (h', q) := RelocateChunk(c, h, p, required, os);
            HeapInv(c, h') && (q.Fails? ==> AllSame(h, h')) && (q.Gives? ==> Reallocated(h, h', p, q.value, n))
    ensures var (h', q) := RelocateChunk(c, h, p, required, os);
            && q == Malloc(c, h, (required - 1) * UNIT, os).1
            && (q.Gives? ==> q.value != p && |BodyOf(h', q.value)| == required - 1)
  {
    assert GoodConfig(c);
    hide HeapInv, Malloc, Live, BodyOf, CopyFrom, FreeAt, AllSame, BlocksForSize, Added, Reallocated;
    var (g, q) := Malloc(c, h, (required - 1) * UNIT, os);
    MallocKeeps(c, h, (required - 1) * UNIT, os);
    WholeBlocks(required - 1);
    if q.Gives? {
      MoveKeeps(c, h, g, p, q.value, required - 1, n);
    }
  }

  lemma WholeCopy(body: seq<Cell>, cells: seq<Cell>)
    requires |cells| <= |body|
    ensures body[..0] + cells[0..] + body[|cells|..] == cells + body[|cells|..]
  {
  }

  /** A chunk that is not written stays as it is. */
  lemma WrittenApart(h: Heap, h': Heap, p: Place, q: Place, body: seq<Cell>)
    requires Rewritten(h, h', q, body) && Live(h, p) && p != q
    ensures Live(h', p) && BodyOf(h', p) == BodyOf(h, p) && Live(h', q) && BodyOf(h', q) == body
  {
    assert SameAt(h, h', p);
    hide Live, BodyOf;
  }

  /** A chunk that was there before is not the new one, and stays as it is. */
  lemma AddedApart(h: Heap, g: Heap, p: Place, q: Place, blocks: nat)
    requires Added(h, g, q, blocks) && Live(h, p)
    ensures p != q && Live(g, p) && Live(g, q) && BodyOf(g, p) == BodyOf(h, p) && |BodyOf(g, q)| == blocks
  {
    assert SameAt(h, g, p);
    hide Live, BodyOf;
  }

  lemma MoveKeeps(c: Config, h: Heap, g: Heap, p: Place, q: Place, blocks: nat, n: nat)
    requires HeapInv(c, g) && Live(h, p) && Added(h, g, q, blocks) && n <= blocks * UNIT
    ensures var h' := FreeAt(c, CopyFrom(g, q, BodyOf(g, p)[..Min(|BodyOf(g, q)|, |BodyOf(g, p)|)], 0), p);
            HeapInv(c, h') && Reallocated(h, h', p, q, n) && q != p && |BodyOf(h', q)| == blocks
  {
    assert GoodConfig(c);
    hide HeapInv, Live, BodyOf, CopyFrom, FreeAt, Reallocated, Freed;
    var m := Min(|BodyOf(g, q)|, |BodyOf(g, p)|);
    var cells := BodyOf(g, p)[..m];
    var f := CopyFrom(g, q, cells, 0);
    hide Added, Rewritten;
    AddedApart(h, g, p, q, blocks);
    CopyKeeps(c, g, q, cells, 0);
    WholeCopy(BodyOf(g, q), cells);
    WrittenApart(g, f, p, q, cells + BodyOf(g, q)[m..]);
    FreeKeeps(c, f, p);
    StagesOfRelocation(h, g, f, FreeAt(c, f, p), p, q, blocks, n);
  }

  /** The decision tree of realloc for a LARGE chunk: it stays if the request is LARGE and fits, and never shrinks. */
  lemma BigPlanExactly(body: nat, n: size_t)
    requires SMALL_MAX_BLOCKS < body && (body + 2) * UNIT < WORD
    ensures var needed := BlocksForSize(n);
            ReallocPlan(body + 1, n) ==
              if n > WORD - UNIT then Reject
              else if SMALL_MAX_BLOCKS < needed <= body then Maintain
              else Relocate(needed + 1)
  {
  }

  lemma BigPlan(c: Config, h: Heap, p: Place, n: size_t)
    requires HeapInv(c, h) && Live(h, p) && p.base !in h.zones
    ensures SMALL_MAX_BLOCKS < |BodyOf(h, p)| && (|BodyOf(h, p)| + 2) * UNIT < WORD
    ensures match ReallocPlan(|BodyOf(h, p)| + 1, n)
            case Reject => true
            case ShrinkTo(_) => false
            case Maintain => n <= |BodyOf(h, p)| * UNIT
            case Relocate(required) => 2 <= required && (required - 1) * UNIT < WORD && n <= (required - 1) * UNIT
  {
    assert BigOk(c, p.base, h.bigs[p.base]);
    hide HeapInv, ReallocPlan;
    BigPlanExactly(|BodyOf(h, p)|, n);
  }

  lemma ZonePlan(class_: ZoneType, current: nat, n: size_t)
    requires class_ != LARGE && LiveMin(class_) <= current <= LiveMax(class_)
    ensures ReallocPlan(current, n).Relocate? ==>
              var required := ReallocPlan(current, n).blocks; 2 <= required && (required - 1) * UNIT < WORD
  {
  }

  lemma MaintainKeeps(h: Heap, p: Place, n: nat)
    requires Live(h, p) && n <= |BodyOf(h, p)| * UNIT
    ensures Reallocated(h, h, p, p, n)
  {
  }

  lemma ShrinkArm(c: Config, h: Heap, p: Place, n: size_t, os: Os, keep: nat)
    requires 0 < c.page && c.header <= 0x1000 && p.base in h.zones && Exists(h, p) && Load(h, p).Header?
    requires ReallocPlan(Load(h, p).blocks, n) == ShrinkTo(keep) && ZoneAndIndex(c, h, p) == Some(p)
    requires var v := h.zones[p.base].view;
             HeaderAt(v, p.i) && 2 <= keep < v.mem[p.i].blocks && p.i + v.mem[p.i].blocks <= |v.mem|
    ensures Realloc(c, h, p, n, os) ==
            (SetView(h, p.base, ShrinkLocked(h.zones[p.base].view, p.i, keep, Z.Filler(c.scribbler, true))), Gives(p))
  {
    hide ReallocPlan, ZoneAndIndex, ShrinkLocked, SetView, Exists, Load, Z.Filler;
  }

  lemma ShrinksInZone(c: Config, h: Heap, p: Place, n: size_t, os: Os, keep: nat)
    requires HeapInv(c, h) && Live(h, p) && p.base in h.zones && Exists(h, p) && Load(h, p).Header?
    requires ReallocPlan(Load(h, p).blocks, n) == ShrinkTo(keep) && n <= (keep - 1) * UNIT
    requires LiveMin(h.zones[p.base].class_) <= keep && keep + FreeMin(h.zones[p.base].class_) <= Load(h, p).blocks
    ensures var (h', q) := Realloc(c, h, p, n, os); HeapInv(c, h') && q == Gives(p) && Reallocated(h, h', p, p, n)
  {
    hide *;
    ConfigIsGood(c, h);
    HeaderIsSmall(c);
    FreeFindsZone(c, h, p);
    ShrinkKeeps(c, h, p, keep);
    ShrinkArm(c, h, p, n, os, keep);
    ShrunkIsReallocated(h, Realloc(c, h, p, n, os).0, p, keep - 1, n);
  }

  lemma ReallocInZone(c: Config, h: Heap, p: Place, n: size_t, os: Os)
    requires HeapInv(c, h) && Live(h, p) && p.base in h.zones
    ensures var (h', q) := Realloc(c, h, p, n, os);
            HeapInv(c, h') && (q.Fails? ==> AllSame(h, h')) && (q.Gives? ==> Reallocated(h, h', p, q.value, n))
  {
    assert GoodConfig(c);
    LiveChunk(c, h, p);
    LiveInZone(c, h, p);
    NothingChanged(h);
    hide HeapInv, ReallocPlan, Live, BodyOf, Load, AllSame, Exists, ZoneAndIndex, RelocateChunk, Reallocated, Inv;
    var class_, current := h.zones[p.base].class_, Load(h, p).blocks;
    Z.ShrinkRespectsClass(class_, current, n);
    ZonePlan(class_, current, n);
    match ReallocPlan(current, n)
    case Reject =>
    case Maintain => MaintainKeeps(h, p, n);
    case Relocate(required) => RelocateKeeps(c, h, p, required, n, os);
    case ShrinkTo(keep) => ShrinksInZone(c, h, p, n, os, keep);
  }

  /** The arms of realloc that do not shrink. */
  lemma ReallocByPlan(c: Config, h: Heap, p: Place, n: size_t, os: Os)
    requires GoodConfig(c) && Exists(h, p) && Load(h, p).Header?
    ensures match ReallocPlan(Load(h, p).blocks, n)
            case Reject => Realloc(c, h, p, n, os) == (h, Fails)
            case Maintain => Realloc(c, h, p, n, os) == (h, Gives(p))
            case Relocate(required) =>
              1 <= required && (required - 1) * UNIT < WORD ==>
                Realloc(c, h, p, n, os) == RelocateChunk(c, h, p, required, os)
            case ShrinkTo(_) => true
  {
    hide ReallocPlan, Load, Exists, RelocateChunk, ZoneAndIndex, ShrinkLocked, SetView;
  }

  lemma ReallocLarge(c: Config, h: Heap, p: Place, n: size_t, os: Os)
    requires HeapInv(c, h) && Live(h, p) && p.base !in h.zones
    ensures var (h', q) := Realloc(c, h, p, n, os);
            HeapInv(c, h') && (q.Fails? ==> AllSame(h, h')) && (q.Gives? ==> Reallocated(h, h', p, q.value, n))
  {
    assert GoodConfig(c);
    hide *;
    LiveChunk(c, h, p);
    BigPlan(c, h, p, n);
    ReallocByPlan(c, h, p, n, os);
    NothingChanged(h);
    match ReallocPlan(|BodyOf(h, p)| + 1, n)
    case Reject =>
    case Maintain => MaintainKeeps(h, p, n);
    case Relocate(required) => RelocateKeeps(c, h, p, required, n, os);
  }

  /**
    realloc keeps the first min(old, new) blocks of the chunk and yields room for the request, whether it shrinks in
    place, stays or moves; if it returns NULL, the old chunk, and every other, is as it was.
  */
  lemma ReallocKeeps(c: Config, h: Heap, p: Place, n: size_t, os: Os)
    requires HeapInv(c, h) && Live(h, p)
    ensures var (h', q) := Realloc(c, h, p, n, os);
            HeapInv(c, h') && (q.Fails? ==> AllSame(h, h')) && (q.Gives? ==> Reallocated(h, h', p, q.value, n))
  {
    hide *;
    if p.base in h.zones { ReallocInZone(c, h, p, n, os); } else { ReallocLarge(c, h, p, n, os); }
  }

  // ---------------------------------------------------------------- release_memory

  lemma {:induction false} UnreleasedIs(h: Heap, list: seq<int>)
    ensures forall b :: b in Unreleased(h, list) <==> b in list && !Releasable(h, b)
    ensures Distinct(list) ==> Distinct(Unreleased(h, list))
  {
    if list != [] {
      UnreleasedIs(h, list[1..]);
      assert list == [list[0]] + list[1..];
      var rest := Unreleased(h, list[1..]);
      assert Distinct(list) ==> Distinct(list[1..]) && list[0] !in list[1..];
      assert forall b :: b in [list[0]] + rest <==> b == list[0] || b in rest;
    }
    hide Releasable;
  }

  lemma ReleasedZoneIsEmpty(c: Config, h: Heap, b: int, i: nat)
    requires HeapInv(c, h) && Releasable(h, b)
    ensures !Z.Live(h.zones[b].view, i)
  {
    assert ZoneOk(c, b, h.zones[b]);
    EntirelyFree(h.zones[b].view, h.zones[b].class_);
    hide Inv, HeapBlocks;
  }

  lemma ReleaseShows(c: Config, h: Heap)
    requires HeapInv(c, h)
    ensures AllSame(h, Release(h))
  {
    var h' := Release(h);
    forall q ensures SameAt(h, h', q) {
      ReleaseShowsAt(c, h, q);
    }
    hide SameAt, Release, HeapInv;
  }

  lemma ReleaseShowsAt(c: Config, h: Heap, q: Place)
    requires HeapInv(c, h)
    ensures SameAt(h, Release(h), q)
  {
    if Releasable(h, q.base) {
      ReleasedZoneIsEmpty(c, h, q.base, q.i);
      assert q.base !in h.bigs by { assert Apart(h); }
    }
    hide HeapInv, Releasable, Unreleased, BodyAt;
  }

  lemma ReleaseLists(c: Config, h: Heap)
    requires HeapInv(c, h)
    ensures ListsOk(Release(h))
  {
    UnreleasedIs(h, h.tiny);
    UnreleasedIs(h, h.small);
    hide ZoneOk, BigOk, Releasable, Unreleased, Distinct, Ascending, Apart;
  }

  lemma ReleaseInv(c: Config, h: Heap)
    requires HeapInv(c, h)
    ensures HeapInv(c, Release(h))
  {
    var h' := Release(h);
    ReleaseLists(c, h);
    hide ZoneOk, BigOk, Releasable, Unreleased, ListsOk;
    forall a, d | Mapped(h', a) && Mapped(h', d) && a < d ensures a + Extent(h', a) <= d {
      assert Mapped(h, a) && Mapped(h, d) && Extent(h', a) == Extent(h, a);
    }
  }

  /** release_memory unmaps exactly the zones without a chunk in use, and no caller can tell. */
  lemma ReleaseKeeps(c: Config, h: Heap)
    requires HeapInv(c, h)
    ensures HeapInv(c, Release(h)) && AllSame(h, Release(h))
    ensures forall b :: b in h.zones ==> (b !in Release(h).zones <==> forall i :: !Live(h, Place(b, i)))
  {
    ReleaseInv(c, h);
    ReleaseShows(c, h);
    forall b | b in h.zones ensures b !in Release(h).zones <==> forall i :: !Live(h, Place(b, i)) {
      ReleasedIffEmpty(c, h, b);
    }
    hide HeapInv, AllSame, Releasable, Unreleased, Live;
  }

  lemma ReleasedIffEmpty(c: Config, h: Heap, b: int)
    requires HeapInv(c, h) && b in h.zones
    ensures Releasable(h, b) <==> forall i :: !Live(h, Place(b, i))
  {
    var v := h.zones[b].view;
    assert ZoneOk(c, b, h.zones[b]);
    EntirelyFree(v, h.zones[b].class_);
    hide HeapBlocks;
    if forall i :: !Live(h, Place(b, i)) {
      forall i | 0 <= i < |v.tags| ensures v.tags[i] != Used { Z.LiveIffUsed(v, i); assert !Live(h, Place(b, i)); }
    }
    if Releasable(h, b) {
      forall i ensures !Live(h, Place(b, i)) { ReleasedZoneIsEmpty(c, h, b, i); }
    }
  }

  // ---------------------------------------------------------------- when malloc fails

  /** Whether mmap gives what a request needs if no zone on the list serves it. */
  predicate CanMap(c: Config, h: Heap, n: size_t, os: Os)
    requires 0 < c.page
  {
    if ZoneTypeForBytes(n) != LARGE then NewZone(c, h, ZoneTypeForBytes(n), os).Some?
    else
      LargePlan(n, c.page).Some? && os.mapped.Some? && os.mapped.value % c.page == 0
      && FreshRange(h, os.mapped.value, LargePlan(n, c.page).value.0)
  }

  /** No zone of the list that is not locked by others serves the request, and mmap gives nothing either. */
  predicate NoRoom(c: Config, h: Heap, n: size_t, os: Os)
    requires 0 < c.page
  {
    var list := ListOf(h, ZoneTypeForBytes(n));
    !CanMap(c, h, n, os)
    && (ZoneTypeForBytes(n) != LARGE ==> forall k :: 0 <= k < |list| ==> !Serves(c, h, list[k], n, os.busy))
  }

  /** With a mapping to be had, malloc refuses only the sizes that cannot be expressed. */
  lemma MallocServes(c: Config, h: Heap, n: size_t, os: Os)
    requires HeapInv(c, h) && !MallocRejects(n) && CanMap(c, h, n, os)
    ensures Malloc(c, h, n, os).1.Gives?
  {
    var class_ := ZoneTypeForBytes(n);
    if class_ != LARGE {
      FirstServingIs(c, h, ListOf(h, class_), n, os.busy);
      var b := NewZone(c, h, class_, os).value;
      NewZoneIs(c, h, class_, os);
      BlocksFill(c, class_);
      RejectsOnlyTheLast31(n);
      Z.FreshZoneServes(HeapBlocks(AlignmentOf(class_), c.header), class_, n, c.scribbler);
      FreshZoneIs(HeapBlocks(AlignmentOf(class_), c.header), class_);
    }
    hide HeapInv, Z.Allocate, Z.Fresh, HeapBlocks, NewZone, LargePlan, FreshRange, MallocRejects, BlocksForSize,
         OffsetHeap;
  }

  lemma MallocGivesExactly(c: Config, h: Heap, n: size_t, os: Os)
    requires HeapInv(c, h)
    ensures Malloc(c, h, n, os).1.Gives? <==> !MallocRejects(n) && !NoRoom(c, h, n, os)
  {
    var class_ := ZoneTypeForBytes(n);
    if !MallocRejects(n) && CanMap(c, h, n, os) {
      MallocServes(c, h, n, os);
    } else {
      FirstServingIs(c, h, ListOf(h, class_), n, os.busy);
    }
    hide HeapInv, Z.Allocate, Z.Fresh, HeapBlocks, NewZone, LargePlan, FreshRange, MallocRejects, BlocksForSize,
         ZoneTypeForBytes;
  }

  /** The request for which malloc fills NULL: it has found no memory, and a scribbler is set. */
  predicate FillsNull(c: Config, h: Heap, n: size_t, os: Os)
    requires 0 < c.page
  {
    c.scribbler != 0 && !MallocRejects(n) && NoRoom(c, h, n, os)
  }

  /** malloc crashes exactly when it finds no memory while a scribbler is set. */
  lemma MallocCrashesExactly(c: Config, h: Heap, n: size_t, os: Os)
    requires HeapInv(c, h)
    ensures Malloc(c, h, n, os).1.Crashes? <==> FillsNull(c, h, n, os)
  {
    MallocGivesExactly(c, h, n, os);
    hide HeapInv, NoRoom, MallocRejects, MallocFromZones, MallocLarge;
  }

  /**
    malloc returns NULL exactly for sizes that cannot be expressed, or when it finds no memory and no scribbler is
    set.
  */
  lemma MallocFailsExactly(c: Config, h: Heap, n: size_t, os: Os)
    requires HeapInv(c, h)
    ensures Malloc(c, h, n, os).1.Fails? <==> MallocRejects(n) || (c.scribbler == 0 && NoRoom(c, h, n, os))
  {
    MallocGivesExactly(c, h, n, os);
    hide HeapInv, NoRoom, MallocRejects, MallocFromZones, MallocLarge;
  }

  /** Under any scribbler, the first byte asked for crashes if mmap has nothing to give. */
  lemma FirstByteCrashes(c: Config)
    requires GoodConfig(c) && c.scribbler != 0
    ensures Malloc(c, Heap([], [], map[], [], map[]), 1, Os({}, None)).1.Crashes?
  {
  }
}
