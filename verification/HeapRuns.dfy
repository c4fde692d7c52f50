/**
  Runs of the whole allocator: any sequence of malloc, free, realloc, memalign, release_memory and writes by the caller.
*/
module HeapRuns {
  import opened Sizes
  import opened Wrappers
  import opened ZoneModel
  import opened ZoneStore
  import Z = ZoneRuns
  import opened HeapModel
  import opened HeapProofs
  import opened HeapOps
  import opened HeapRealloc
  import opened Alignment

  /** The operation is not asked to free or move chunk `p`, nor to write its block `k`, counted from the header. */
  predicate SparesBlock(h: Heap, op: Op, p: Place, k: nat) {
    match op
    case DoMalloc(_, _) => true
    case DoFree(q) => ChunkOf(h, q) != p
    case DoRealloc(q, _, _) => q != p
    case DoWrite(q, j, _) => q != p || j != k
    case DoMemalign(_, _, _) => true
    case DoRelease => true
  }

  /** The same for a whole run, as far as it gets. */
  predicate RunSparesBlock(c: Config, s: Process, ops: seq<Op>, p: Place, k: nat)
    requires 0 < c.page && c.header <= 0x1000
    decreases |ops|
  {
    ops == [] || s.Crashed? || (SparesBlock(s.heap, ops[0], p, k) &&
      RunSparesBlock(c, Step(c, s, ops[0]), ops[1..], p, k))
  }

  /** A write outside the bodies of live chunks is not a step of this model. */
  lemma WriteNowhere(c: Config, h: Heap, p: Place, k: nat, cell: Cell)
    requires HeapInv(c, h) && !(Live(h, p) && 1 <= k <= |BodyOf(h, p)|)
    ensures WriteCell(h, p, k, cell) == h
  {
    if p.base in h.zones {
      var z := h.zones[p.base];
      assert ZoneOk(c, p.base, z);
      Z.WriteLands(z.view, p.i, k);
      Z.LiveIffUsed(z.view, p.i);
      assert Z.Step(z.view, z.class_, 0, Z.Write(p.i, k, cell)) == z.view;
      assert h.zones[p.base := z] == h.zones;
    }
    hide Inv, Z.Seen, BodyAt;
  }

  /** The chunk `p` is in use before and after, as large as it was, and its block `k` holds the same cell. */
  ghost predicate BlockSame(h: Heap, h': Heap, p: Place, k: nat) {
    && Live(h, p) && Live(h', p) && |BodyOf(h', p)| == |BodyOf(h, p)|
    && (1 <= k <= |BodyOf(h, p)| ==> BodyOf(h', p)[k - 1] == BodyOf(h, p)[k - 1])
  }

  lemma SameIsBlockSame(h: Heap, h': Heap, p: Place, k: nat)
    requires Live(h, p) && SameAt(h, h', p)
    ensures BlockSame(h, h', p, k)
  {
    hide Live, BodyOf;
  }

  lemma WriteKeepsBlock(c: Config, h: Heap, q: Place, j: nat, cell: Cell, p: Place, k: nat)
    requires HeapInv(c, h) && Live(h, p) && (q != p || j != k)
    ensures HeapInv(c, WriteCell(h, q, j, cell)) && BlockSame(h, WriteCell(h, q, j, cell), p, k)
  {
    hide HeapInv, Live, BodyOf, WriteCell;
    if Live(h, q) && 1 <= j <= |BodyOf(h, q)| {
      WriteKeeps(c, h, q, j, cell);
      if q != p { assert SameAt(h, WriteCell(h, q, j, cell), p); }
    } else {
      WriteNowhere(c, h, q, j, cell);
    }
  }

  /** Every operation that returns keeps the invariant. */
  lemma StepKeeps(c: Config, h: Heap, op: Op)
    requires HeapInv(c, h) && Step(c, Running(h), op).Running?
    ensures HeapInv(c, Step(c, Running(h), op).heap)
  {
    hide HeapInv, Malloc, FreeAt, Realloc, WriteCell, Memalign, Release, Live, BodyOf, Exists, ChunkOf, Aligned, Added;
    match op
    case DoMalloc(n, os) => MallocKeeps(c, h, n, os);
    case DoFree(p) => if Exists(h, p) && Live(h, ChunkOf(h, p)) { MemalignThenFree(c, h, p); }
    case DoRealloc(p, n, os) => if Live(h, p) { ReallocKeeps(c, h, p, n, os); }
    case DoWrite(p, k, cell) =>
      if Live(h, p) && 1 <= k <= |BodyOf(h, p)| {
        WriteKeeps(c, h, p, k, cell);
      } else {
        WriteNowhere(c, h, p, k, cell);
      }
    case DoMemalign(alignment, size, os) => MemalignKeeps(c, h, alignment, size, os);
    case DoRelease => ReleaseKeeps(c, h);
  }

  lemma AddedKeepsBlock(h: Heap, h': Heap, p: Place, k: nat, r: Outcome, q: Place, blocks: nat)
    requires Live(h, p) && !r.Crashes? && (r.Fails? ==> AllSame(h, h')) && (r.Gives? ==> Added(h, h', q, blocks))
    ensures BlockSame(h, h', p, k)
  {
    hide Live, BodyOf;
    assert SameAt(h, h', p);
    SameIsBlockSame(h, h', p, k);
  }

  lemma ReallocKeepsBlock(c: Config, h: Heap, q: Place, n: size_t, os: Os, p: Place, k: nat)
    requires HeapInv(c, h) && Live(h, p) && Live(h, q) && p != q && !Realloc(c, h, q, n, os).1.Crashes?
    ensures BlockSame(h, Realloc(c, h, q, n, os).0, p, k)
  {
    hide HeapInv, Live, BodyOf, Realloc;
    ConfigIsGood(c, h);
    var (h', r) := Realloc(c, h, q, n, os);
    ReallocKeeps(c, h, q, n, os);
    assert r.Gives? && r.value == p ==> false;
    assert SameAt(h, h', p);
    SameIsBlockSame(h, h', p, k);
  }

  lemma FreeKeepsBlock(c: Config, h: Heap, q: Place, p: Place, k: nat)
    requires HeapInv(c, h) && Live(h, p) && Exists(h, q) && Live(h, ChunkOf(h, q)) && ChunkOf(h, q) != p
    ensures BlockSame(h, FreeAt(c, h, q), p, k)
  {
    hide HeapInv, Live, BodyOf, FreeAt, ChunkOf, Exists;
    ConfigIsGood(c, h);
    MemalignThenFree(c, h, q);
    assert SameAt(h, FreeAt(c, h, q), p);
    SameIsBlockSame(h, FreeAt(c, h, q), p, k);
  }

  /** Every operation keeps the chunks it is not asked to free or move, and of these the blocks it does not write. */
  lemma StepKeepsBlock(c: Config, h: Heap, op: Op, p: Place, k: nat)
    requires HeapInv(c, h) && Live(h, p) && SparesBlock(h, op, p, k) && Step(c, Running(h), op).Running?
    ensures BlockSame(h, Step(c, Running(h), op).heap, p, k)
  {
    assert SameAt(h, h, p);
    SameIsBlockSame(h, h, p, k);
    hide HeapInv, Malloc, FreeAt, Realloc, WriteCell, Memalign, Release, Live, BodyOf, Exists, ChunkOf, Aligned, Added,
         BlockSame, AllSame;
    match op
    case DoMalloc(n, os) =>
      var (h', r) := Malloc(c, h, n, os);
      MallocKeeps(c, h, n, os);
      AddedKeepsBlock(h, h', p, k, r, if r.Gives? then r.value else p, BlocksForSize(n));
    case DoFree(q) => if Exists(h, q) && Live(h, ChunkOf(h, q)) { FreeKeepsBlock(c, h, q, p, k); }
    case DoRealloc(q, n, os) => if Live(h, q) { ReallocKeepsBlock(c, h, q, n, os, p, k); }
    case DoWrite(q, j, cell) => WriteKeepsBlock(c, h, q, j, cell, p, k);
    case DoMemalign(alignment, size, os) =>
      var (h', r) := Memalign(c, h, alignment, size, os);
      MemalignKeeps(c, h, alignment, size, os);
      if r.Gives? {
        AddedKeepsBlock(h, h', p, k, r, ChunkOf(h', r.value), BlocksForSize(AllocSize(alignment, size).value));
      } else {
        AddedKeepsBlock(h, h', p, k, r, p, 0);
      }
    case DoRelease =>
      ReleaseKeeps(c, h);
      AddedKeepsBlock(h, Release(h), p, k, Fails, p, 0);
  }

  lemma {:induction false} RunKeepsHeapInv(c: Config, h: Heap, ops: seq<Op>)
    requires HeapInv(c, h) && Run(c, Running(h), ops).Running?
    ensures HeapInv(c, Run(c, Running(h), ops).heap)
    decreases |ops|
  {
    ConfigIsGood(c, h);
    hide HeapInv, Step;
    if ops != [] {
      var s := Step(c, Running(h), ops[0]);
      OnceCrashed(c, s, ops[1..]);
      StepKeeps(c, h, ops[0]);
      RunKeepsHeapInv(c, s.heap, ops[1..]);
    }
  }

  lemma {:induction false} OnceCrashed(c: Config, s: Process, ops: seq<Op>)
    requires 0 < c.page && c.header <= 0x1000
    ensures s.Crashed? ==> Run(c, s, ops).Crashed?
    decreases |ops|
  {
    if ops != [] { OnceCrashed(c, Step(c, s, ops[0]), ops[1..]); }
  }

  /**
    Over any run, block `k` of a chunk that is not freed or moved keeps its cell, unless that very block is written.
  */
  lemma {:induction false} RunKeepsBlock(c: Config, h: Heap, ops: seq<Op>, p: Place, k: nat)
    requires HeapInv(c, h) && Live(h, p) && Run(c, Running(h), ops).Running? && RunSparesBlock(c, Running(h), ops, p, k)
    ensures BlockSame(h, Run(c, Running(h), ops).heap, p, k)
    decreases |ops|
  {
    ConfigIsGood(c, h);
    hide HeapInv, Step, Live, BodyOf;
    if ops != [] {
      var s := Step(c, Running(h), ops[0]);
      OnceCrashed(c, s, ops[1..]);
      StepKeeps(c, h, ops[0]);
      StepKeepsBlock(c, h, ops[0], p, k);
      RunKeepsBlock(c, s.heap, ops[1..], p, k);
    }
  }

  /** Over any run, a chunk that is not freed, resized or written keeps its place and its contents. */
  lemma RunKeepsChunk(c: Config, h: Heap, ops: seq<Op>, p: Place)
    requires HeapInv(c, h) && Live(h, p) && Run(c, Running(h), ops).Running?
    requires forall k :: 0 <= k <= |BodyOf(h, p)| ==> RunSparesBlock(c, Running(h), ops, p, k)
    ensures var g := Run(c, Running(h), ops).heap; Live(g, p) && BodyOf(g, p) == BodyOf(h, p)
  {
    hide HeapInv, Run, Live, BodyOf, RunSparesBlock;
    ConfigIsGood(c, h);
    var g := Run(c, Running(h), ops).heap;
    RunKeepsBlock(c, h, ops, p, 0);
    forall i | 0 <= i < |BodyOf(h, p)| ensures BodyOf(g, p)[i] == BodyOf(h, p)[i] {
      RunKeepsBlock(c, h, ops, p, i + 1);
    }
  }

  // ---------------------------------------------------------------- pointers from memalign

  lemma PseudoIsBlock(c: Config, h: Heap, p: Place, q: Place)
    requires HeapInv(c, h) && Live(h, q) && p.base == q.base && q.i <= p.i <= q.i + |BodyOf(h, q)|
    ensures Exists(h, p) && (p != q ==> Load(h, p) == BodyOf(h, q)[p.i - q.i - 1])
  {
    hide HeapInv, Live, BodyOf, Load, Exists;
    LiveChunk(c, h, q);
    if p.i != q.i {
      BodyBlock(c, h, q, p.i - q.i);
      assert p == Place(q.base, q.i + (p.i - q.i));
    } else {
      assert p == q;
    }
  }

  lemma SameCellSameChunk(h: Heap, g: Heap, p: Place)
    requires Exists(h, p) && Exists(g, p) && Load(g, p) == Load(h, p)
    ensures ChunkOf(g, p) == ChunkOf(h, p)
  {
    hide Load, Exists;
  }

  /**
    A pointer from memalign leads to its chunk for as long as the chunk is neither freed nor moved and its pseudo
    header is not written, however the caller uses its nominal body and everything else.
  */
  lemma MemalignPointerLasts(c: Config, h: Heap, p: Place, q: Place, ops: seq<Op>)
    requires HeapInv(c, h) && Live(h, q) && p.base == q.base && q.i <= p.i <= q.i + |BodyOf(h, q)| && ChunkOf(h, p) == q
    requires Run(c, Running(h), ops).Running? && RunSparesBlock(c, Running(h), ops, q, p.i - q.i)
    ensures var g := Run(c, Running(h), ops).heap; Live(g, q) && Exists(g, p) && ChunkOf(g, p) == q
  {
    hide HeapInv, Run, Live, BodyOf, RunSparesBlock, Exists, Load, Actual, ChunkOf, GoodConfig;
    ConfigIsGood(c, h);
    HeaderIsSmall(c);
    var g := Run(c, Running(h), ops).heap;
    RunKeepsHeapInv(c, h, ops);
    RunKeepsBlock(c, h, ops, q, p.i - q.i);
    PseudoIsBlock(c, h, p, q);
    PseudoIsBlock(c, g, p, q);
    if p != q {
      SameCellSameChunk(h, g, p);
    } else {
      LiveChunk(c, g, q);
      RealHeaderIsActual(g, q);
      ChunkIsActual(g, q);
    }
  }

  lemma ChunkIsActual(h: Heap, p: Place)
    requires Exists(h, p)
    ensures ChunkOf(h, p) == Actual(h, p)
  {
    hide Actual, Exists;
  }

  // ---------------------------------------------------------------- crashes

  /** What an operation asks malloc for, if it gets that far. */
  function Requested(h: Heap, op: Op): Option<(size_t, Os)> {
    match op
    case DoMalloc(n, os) => Some((n, os))
    case DoRealloc(p, n, os) =>
      if Live(h, p) && Exists(h, p) && Load(h, p).Header? && ReallocPlan(Load(h, p).blocks, n).Relocate?
         && 1 <= ReallocPlan(Load(h, p).blocks, n).blocks &&
            (ReallocPlan(Load(h, p).blocks, n).blocks - 1) * UNIT < WORD
      then Some(((ReallocPlan(Load(h, p).blocks, n).blocks - 1) * UNIT, os)) else None
    case DoMemalign(alignment, size, os) =>
      if AllocSize(alignment, size).Some? then Some((AllocSize(alignment, size).value, os)) else None
    case _ => None
  }

  lemma ReallocCrashes(c: Config, h: Heap, p: Place, n: size_t, os: Os)
    requires 0 < c.page && c.header <= 0x1000 && Live(h, p)
    ensures Realloc(c, h, p, n, os).1.Crashes? <==>
            match Requested(h, DoRealloc(p, n, os))
            case None => false
            case Some((m, o)) => Malloc(c, h, m, o).1.Crashes?
  {
    hide Malloc, FreeAt, ReallocPlan, Live, Exists, Load, CopyFrom, Shrunk;
  }

  lemma MemalignCrashes(c: Config, h: Heap, alignment: size_t, size: size_t, os: Os)
    requires 0 < c.page && c.header <= 0x1000
    ensures Memalign(c, h, alignment, size, os).1.Crashes? <==>
            AllocSize(alignment, size).Some? && Malloc(c, h, AllocSize(alignment, size).value, os).1.Crashes?
  {
    hide Malloc, AlignIn, AllocSize;
  }

  /** An operation crashes exactly when the request it makes of malloc is one for which malloc fills NULL. */
  lemma StepCrashesExactly(c: Config, h: Heap, op: Op)
    requires HeapInv(c, h)
    ensures Step(c, Running(h), op).Crashed? <==>
            Requested(h, op).Some? && FillsNull(c, h, Requested(h, op).value.0, Requested(h, op).value.1)
  {
    ConfigIsGood(c, h);
    hide HeapInv, Malloc, FreeAt, Realloc, WriteCell, Memalign, AllocSize, Release, Live, Exists, ChunkOf, FillsNull;
    if Requested(h, op).Some? {
      MallocCrashesExactly(c, h, Requested(h, op).value.0, Requested(h, op).value.1);
    }
    match op
    case DoRealloc(p, n, os) => if Live(h, p) { ReallocCrashes(c, h, p, n, os); }
    case DoMemalign(alignment, size, os) => MemalignCrashes(c, h, alignment, size, os);
    case _ =>
  }

  /** Without a scribbler no run crashes. */
  lemma {:induction false} NoScribblerNoCrash(c: Config, h: Heap, ops: seq<Op>)
    requires HeapInv(c, h) && c.scribbler == 0
    ensures Run(c, Running(h), ops).Running?
    decreases |ops|
  {
    ConfigIsGood(c, h);
    hide HeapInv, Step, Requested;
    if ops != [] {
      StepCrashesExactly(c, h, ops[0]);
      StepKeeps(c, h, ops[0]);
      NoScribblerNoCrash(c, Step(c, Running(h), ops[0]).heap, ops[1..]);
    }
  }

  // ---------------------------------------------------------------- from the start

  const EMPTY: Heap := Heap([], [], map[], [], map[])

  lemma EmptyHeapInv(c: Config)
    requires GoodConfig(c)
    ensures HeapInv(c, EMPTY)
  {
  }

  /**
    From an empty heap, in every state a run reaches: free finds every zone chunk, live chunks do not overlap, and
    they lie behind the header and the bitmaps of their zone, or behind the LARGE header, and inside the mapping.
  */
  lemma ReachableHeapsAreSound(c: Config, ops: seq<Op>, p: Place, q: Place)
    requires GoodConfig(c) && Run(c, Running(EMPTY), ops).Running?
    requires var h := Run(c, Running(EMPTY), ops).heap; Live(h, p) && Live(h, q)
    ensures var h := Run(c, Running(EMPTY), ops).heap;
            && (p.base in h.zones ==> Exists(h, p) && ZoneAndIndex(c, h, p) == Some(p))
            && Mapped(h, p.base) && HeapStart(c, h, p.base) <= Address(c, h, p)
            && Address(c, h, p) + UNIT * (|BodyOf(h, p)| + 1) <= p.base + Extent(h, p.base)
            && (p != q ==> Address(c, h, p) + UNIT * (|BodyOf(h, p)| + 1) <= Address(c, h, q)
                           || Address(c, h, q) + UNIT * (|BodyOf(h, q)| + 1) <= Address(c, h, p))
  {
    hide HeapInv, Run, Live, BodyOf, ZoneAndIndex, Address, Exists, HeapStart, Mapped, Extent;
    EmptyHeapInv(c);
    RunKeepsHeapInv(c, EMPTY, ops);
    var h := Run(c, Running(EMPTY), ops).heap;
    LiveChunkInside(c, h, p);
    if p.base in h.zones { FreeFindsZone(c, h, p); }
    if p != q { LiveChunksApart(c, h, p, q); }
  }
}
