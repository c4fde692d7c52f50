/**
  Runs: any sequence of malloc, free, realloc in place and writes by the caller, on one zone.
*/
module ZoneRuns {
  import opened Sizes
  import opened Wrappers
  import opened ZoneModel
  import opened ZoneAlloc
  import opened ZoneFree
  import opened ZoneShrink
  import opened ZoneStore
  import opened ZoneTheorems

  /** The cells fill_chunk_by_scribbler writes: none if the scribbler byte is 0. */
  function Filler(scribbler: bv8, complement: bool): Option<Cell> {
    if scribbler == 0 then None else Some(Data(seq(UNIT, _ => if complement then !scribbler else scribbler)))
  }

  /** try_allocate_chunk_from_zone, and the fill that malloc does on its result. */
  function Allocate(v: View, n: size_t, scribbler: bv8): (View, Link) {
    var needed := BlocksForSize(n);
    var l := NextFit(v, needed);
    if needed == 0 || l.Null? || !Fits(v, l.pos, needed) || |v.tags| < l.pos + v.mem[l.pos].blocks then (v, Null)
    else
      var u := Take(v, l.pos, needed);
      if HeaderAt(u, l.pos) then (Scribble(u, l.pos, Filler(scribbler, false)), l) else (u, l)
  }

  /** What a caller can do to a zone of class `class_`: the arguments are block indices of chunk headers. */
  datatype Op =
    | Malloc(n: size_t)
    | Release(c: nat)
    | Resize(c: nat, n: size_t)             // the arms of realloc that stay in place
    | Write(c: nat, k: nat, cell: Cell)     // the caller writes block k of the body of chunk c

  predicate Live(v: View, c: nat) {
    HeaderAt(v, c) && v.tags[c] == Used
  }

  function Step(v: View, class_: ZoneType, scribbler: bv8, op: Op): View {
    match op
    case Malloc(n) => if ZoneTypeForBytes(n) == class_ then Allocate(v, n, scribbler).0 else v
    case Release(c) => if Live(v, c) then FreeLocked(v, c, Filler(scribbler, true)) else v
    case Resize(c, n) =>
      if Live(v, c) && c + v.mem[c].blocks <= |v.mem| && ReallocPlan(v.mem[c].blocks, n).ShrinkTo?
         && 2 <= ReallocPlan(v.mem[c].blocks, n).blocks < v.mem[c].blocks
      then ShrinkLocked(v, c, ReallocPlan(v.mem[c].blocks, n).blocks, Filler(scribbler, true)) else v
    case Write(c, k, cell) =>
      if Live(v, c) && 1 <= k < v.mem[c].blocks && c + k < |v.mem| then v.(mem := v.mem[c + k := cell]) else v
  }

  function Run(v: View, class_: ZoneType, scribbler: bv8, ops: seq<Op>): View
    decreases |ops|
  {
    if ops == [] then v else Run(Step(v, class_, scribbler, ops[0]), class_, scribbler, ops[1..])
  }

  // ---------------------------------------------------------------- realloc stays in place only inside the true class

  lemma InPlaceIffFits(class_: ZoneType, current: nat, n: size_t)
    requires class_ != LARGE && LiveMin(class_) <= current <= LiveMax(class_)
    requires n <= WORD - UNIT
    ensures var plan := ReallocPlan(current, n);
            (plan.ShrinkTo? || plan.Maintain?) <==>
            ZoneTypeForBytes(n) == class_ && BlocksForSize(n) + 1 <= current && current < LiveMax(class_)
  {
  }

  /** The decision tree of realloc, for a chunk of true class `class_`, without reference to its size computations. */
  lemma PlanExactly(class_: ZoneType, current: nat, n: size_t)
    requires class_ != LARGE && LiveMin(class_) <= current <= LiveMax(class_)
    ensures var required := BlocksForSize(n) + 1;
            ReallocPlan(current, n) ==
              if n > WORD - UNIT then Reject
              else if ZoneTypeForBytes(n) != class_ || current == LiveMax(class_) || current < required
                then Relocate(required)
              else if required + FreeMin(class_) <= current then ShrinkTo(required)
              else Maintain
  {
  }

  lemma ShrinkRespectsClass(class_: ZoneType, current: nat, n: size_t)
    requires class_ != LARGE && LiveMin(class_) <= current <= LiveMax(class_)
    ensures match ReallocPlan(current, n)
            case Reject => n > WORD - UNIT
            case ShrinkTo(keep) => LiveMin(class_) <= keep && keep + FreeMin(class_) <= current &&
              n <= (keep - 1) * UNIT
            case Maintain => n <= (current - 1) * UNIT
            case Relocate(blocks) => blocks == BlocksForSize(n) + 1 && n <= (blocks - 1) * UNIT
  {
  }

  // ---------------------------------------------------------------- every step keeps the invariant

  lemma ScribbleKeepsInv(v: View, c: nat, fill: Option<Cell>, class_: ZoneType)
    requires Inv(v, class_) && Live(v, c)
    ensures Inv(Scribble(v, c, fill), class_)
    ensures var u := Scribble(v, c, fill);
            Store(u.tags, u.mem) - {c} == Store(v.tags, v.mem) - {c} && |BodyAt(u.mem, c)| == |BodyAt(v.mem, c)|
  {
    assert ChunkAt(v.tags, v.mem, c);
    BodiesAreFree(v, Scribble(v, c, fill).mem, class_);
    ScribbleStore(v, c, fill);
  }

  lemma AllocateKeepsInv(v: View, n: size_t, scribbler: bv8, class_: ZoneType)
    requires Inv(v, class_) && class_ != LARGE && ZoneTypeForBytes(n) == class_
    ensures Inv(Allocate(v, n, scribbler).0, class_)
  {
    var needed := BlocksForSize(n);
    NextFitFits(v, needed);
    var l := NextFit(v, needed);
    if needed != 0 && l.At? {
      ClassOfBlocks(n);
      TakeKeepsInv(v, l.pos, needed, class_);
      TakenBody(v, l.pos, needed);
      var u := Take(v, l.pos, needed);
      assert ChunkAt(u.tags, u.mem, l.pos);
      ScribbleKeepsInv(u, l.pos, Filler(scribbler, false), class_);
    }
  }

  lemma ClassOfBlocks(n: size_t)
    requires BlocksForSize(n) != 0 && ZoneTypeForBytes(n) != LARGE
    ensures BlocksForSize(n) <= SMALL_MAX_BLOCKS && ZoneTypeForBytes(BlocksForSize(n) * UNIT) == ZoneTypeForBytes(n)
  {
  }

  lemma FreshZone(blocks: nat, class_: ZoneType)
    requires FreeMin(class_) <= blocks
    ensures Inv(Fresh(blocks), class_)
  {
    var v := Fresh(blocks);
    assert ChunkAt(v.tags, v.mem, 0);
    var f := Weights(v.tags, v.mem, Free);
    assert f == [blocks] + f[1..];
    SumZero(f[1..]);
    SumZero(Weights(v.tags, v.mem, Used));
  }

  /** init_zone, on memory that mmap has filled with zeros. */
  function Fresh(blocks: nat): View {
    View(seq(blocks, i => if i == 0 then Free else Body),
         seq(blocks, i => if i == 0 then Header(blocks, Null, 0) else Data(seq(UNIT, _ => 0))),
         At(0), Null, blocks, 0)
  }

  /** A new zone serves any request of its class at once, at its first block. */
  lemma FreshZoneServes(blocks: nat, class_: ZoneType, n: size_t, scribbler: bv8)
    requires class_ != LARGE && ZoneTypeForBytes(n) == class_ && BlocksForSize(n) != 0
    requires 2 * LiveMax(class_) <= blocks
    ensures Allocate(Fresh(blocks), n, scribbler).1 == At(0)
  {
    var v := Fresh(blocks);
    var needed := BlocksForSize(n);
    ClassOfBlocks(n);
    assert Fits(v, 0, needed);
  }

  lemma ResizeKeepsInv(v: View, class_: ZoneType, scribbler: bv8, c: nat, n: size_t)
    requires Inv(v, class_) && class_ != LARGE
    ensures Inv(Step(v, class_, scribbler, Resize(c, n)), class_)
  {
    hide Inv, ShrinkLocked, ReallocPlan, FreeMin;
    if Live(v, c) && c + v.mem[c].blocks <= |v.mem| {
      LiveSize(v, c, class_);
      ShrinkRespectsClass(class_, v.mem[c].blocks, n);
      if ReallocPlan(v.mem[c].blocks, n).ShrinkTo? {
        ShrinkKeepsInv(v, c, ReallocPlan(v.mem[c].blocks, n).blocks, Filler(scribbler, true), class_);
      }
    }
  }

  lemma LiveSize(v: View, c: nat, class_: ZoneType)
    requires Inv(v, class_) && Live(v, c)
    ensures LiveMin(class_) <= v.mem[c].blocks <= LiveMax(class_) && c + v.mem[c].blocks <= |v.tags|
  {
    assert ChunkAt(v.tags, v.mem, c);
    assert SizeFits(v.tags[c], v.mem[c].blocks, class_);
  }

  lemma WriteKeepsInv(v: View, class_: ZoneType, c: nat, k: nat, cell: Cell)
    requires Inv(v, class_) && Live(v, c) && 1 <= k < v.mem[c].blocks && c + k < |v.mem|
    ensures Inv(v.(mem := v.mem[c + k := cell]), class_)
  {
    assert ChunkAt(v.tags, v.mem, c);
    BodiesAreFree(v, v.mem[c + k := cell], class_);
    hide Inv;
  }

  lemma StepKeepsInv(v: View, class_: ZoneType, scribbler: bv8, op: Op)
    requires Inv(v, class_) && class_ != LARGE
    ensures Inv(Step(v, class_, scribbler, op), class_)
  {
    match op
    case Malloc(n) =>
      hide Inv, Allocate;
      if ZoneTypeForBytes(n) == class_ { AllocateKeepsInv(v, n, scribbler, class_); }
    case Release(c) =>
      hide FreeLocked;
      if Live(v, c) {
        LiveSize(v, c, class_);
        FreeKeepsInv(v, c, Filler(scribbler, true), class_);
      }
    case Resize(c, n) =>
      hide *;
      ResizeKeepsInv(v, class_, scribbler, c, n);
    case Write(c, k, cell) =>
      hide Inv;
      if Live(v, c) && 1 <= k < v.mem[c].blocks && c + k < |v.mem| { WriteKeepsInv(v, class_, c, k, cell); }
  }

  lemma {:induction false} RunKeepsInv(v: View, class_: ZoneType, scribbler: bv8, ops: seq<Op>)
    requires Inv(v, class_) && class_ != LARGE
    ensures Inv(Run(v, class_, scribbler, ops), class_)
    decreases |ops|
  {
    hide Inv, Step;
    if ops != [] {
      StepKeepsInv(v, class_, scribbler, ops[0]);
      RunKeepsInv(Step(v, class_, scribbler, ops[0]), class_, scribbler, ops[1..]);
    }
  }

  // ---------------------------------------------------------------- what a caller sees

  type Contents = map<nat, seq<Cell>>

  /** The effect of one operation on the live chunks, said without free lists, bitmaps or headers. */
  ghost predicate Effect(s: Contents, op: Op, s': Contents) {
    match op
    case Malloc(n) => s' == s || exists i :: Added(s, i, BlocksForSize(n), s')
    case Release(c) => s' == s - {c}
    case Resize(c, n) => s' == s || (c in s && exists k :: 0 <= k <= |s[c]| && n <= k * UNIT && s' == s[c := s[c][..k]])
    case Write(c, k, cell) => s' == if c in s && 1 <= k <= |s[c]| then s[c := s[c][k - 1 := cell]] else s
  }

  function Seen(v: View): Contents { Store(v.tags, v.mem) }

  /** The contents after a successful allocation at block `i`. */
  ghost predicate Added(s: Contents, i: nat, blocks: nat, s': Contents) {
    i !in s && i in s' && |s'[i]| == blocks && s' - {i} == s
  }

  lemma UpdateAdds(s: Contents, i: nat, cells: seq<Cell>, s': Contents)
    requires i !in s && s' == s[i := cells]
    ensures Added(s, i, |cells|, s')
  {
    assert s' - {i} == s;
  }

  lemma TakeAdds(v: View, i: nat, needed: nat, fill: Option<Cell>, class_: ZoneType)
    requires Inv(v, class_) && Fits(v, i, needed) && 1 <= needed <= SMALL_MAX_BLOCKS
    requires class_ != LARGE && ZoneTypeForBytes(needed * UNIT) == class_ && i + v.mem[i].blocks <= |v.tags|
    ensures Live(Take(v, i, needed), i)
    ensures Added(Seen(v), i, needed, Seen(Scribble(Take(v, i, needed), i, fill)))
  {
    var u := Take(v, i, needed);
    hide Take, Store, Fits, Coalesced, Classed, Threaded, Counted, BodyAt;
    TakeKeepsInv(v, i, needed, class_);
    TakenBody(v, i, needed);
    TakeStore(v, i, needed);
    assert ChunkAt(u.tags, u.mem, i);
    UpdateAdds(Seen(v), i, BodyAt(u.mem, i), Seen(u));
    hide Added;
    ScribbleKeepsInv(u, i, fill, class_);
    assert Scribble(u, i, fill).tags == u.tags;
    hide Scribble, Shape, Core, Inv;
    AddedAgain(Seen(v), i, needed, Seen(u), Seen(Scribble(u, i, fill)), u, Scribble(u, i, fill));
  }

  lemma AddedAgain(s: Contents, i: nat, blocks: nat, a: Contents, b: Contents, u: View, w: View)
    requires Added(s, i, blocks, a) && a - {i} == b - {i}
    requires u.tags == w.tags && a == Seen(u) && b == Seen(w) && |BodyAt(w.mem, i)| == |BodyAt(u.mem, i)|
    ensures Added(s, i, blocks, b)
  {
    assert i in b && b[i] == BodyAt(w.mem, i) && a[i] == BodyAt(u.mem, i);
    hide BodyAt, Seen;
  }

  lemma AllocateEffect(v: View, n: size_t, scribbler: bv8, class_: ZoneType)
    requires Inv(v, class_) && class_ != LARGE && ZoneTypeForBytes(n) == class_
    ensures var (u, l) := Allocate(v, n, scribbler);
            (l.Null? ==> u == v) && (l.At? ==> Added(Seen(v), l.pos, BlocksForSize(n), Seen(u)))
    ensures Allocate(v, n, scribbler).1.Null? <==>
            BlocksForSize(n) == 0 || NoFit(v, BlocksForSize(n), 0, |v.tags|)
  {
    var needed := BlocksForSize(n);
    NextFitFits(v, needed);
    if v.blocksFree < needed + 1 { TooBig(v, needed); }
    var l := NextFit(v, needed);
    hide Inv, Scribble, Take, NextFit, Seen, Fits;
    if needed != 0 && l.At? {
      ClassOfBlocks(n);
      TakeAdds(v, l.pos, needed, Filler(scribbler, false), class_);
    }
  }

  /** Which chunk an allocation takes, and where it leaves the rover. */
  lemma AllocateChooses(v: View, n: size_t, scribbler: bv8, class_: ZoneType)
    requires Inv(v, class_) && class_ != LARGE && ZoneTypeForBytes(n) == class_ && Allocate(v, n, scribbler).1.At?
    ensures var (u, l) := Allocate(v, n, scribbler);
            IsNextFit(v, BlocksForSize(n), l) && u.freePrev == NextFree(u.tags, 0)
  {
    var needed := BlocksForSize(n);
    hide Inv, IsNextFit, NextFit, Take, Fits;
    InvIsCore(v, class_);
    NextFitIs(v, needed);
    RoverAfterTake(v, NextFit(v, needed).pos, needed);
  }

  lemma InvIsCore(v: View, class_: ZoneType)
    requires Inv(v, class_)
    ensures Core(v)
  {
  }

  /** With a scribbler, every block of a new body holds its byte. */
  lemma AllocateFills(v: View, n: size_t, scribbler: bv8, class_: ZoneType, k: nat)
    requires Inv(v, class_) && class_ != LARGE && ZoneTypeForBytes(n) == class_ && scribbler != 0
    requires Allocate(v, n, scribbler).1.At? && k < BlocksForSize(n)
    ensures var (u, l) := Allocate(v, n, scribbler);
            l.pos in Seen(u) && k < |Seen(u)[l.pos]| && Seen(u)[l.pos][k] == Data(seq(UNIT, _ => scribbler))
  {
    var needed := BlocksForSize(n);
    var l := NextFit(v, needed);
    NextFitFits(v, needed);
    ClassOfBlocks(n);
    TakeKeepsInv(v, l.pos, needed, class_);
    TakenBody(v, l.pos, needed);
    var u := Take(v, l.pos, needed);
    assert ChunkAt(u.tags, u.mem, l.pos);
    hide Take, NextFit, Inv;
    ScribbleFills(u, l.pos, Data(seq(UNIT, _ => scribbler)), k);
  }

  lemma ScribbleFills(u: View, c: nat, cell: Cell, k: nat)
    requires |u.tags| == |u.mem| && HeaderAt(u, c) && u.tags[c] == Used && c + u.mem[c].blocks <= |u.mem| &&
             k + 1 < u.mem[c].blocks
    ensures var w := Scribble(u, c, Some(cell)); c in Seen(w) && k < |Seen(w)[c]| && Seen(w)[c][k] == cell
  {
  }

  /** With a scribbler, free fills the body it frees with the complement of the byte. */
  lemma ReleaseFills(v: View, scribbler: bv8, c: nat, class_: ZoneType, j: nat)
    requires Inv(v, class_) && Live(v, c) && scribbler != 0 && c < j < c + v.mem[c].blocks
    ensures var u := Step(v, class_, scribbler, Release(c)); j < |u.mem| && u.mem[j] == Data(seq(UNIT, _ => !scribbler))
  {
    FreeFills(v, c, Data(seq(UNIT, _ => !scribbler)), j);
    hide FreeLocked, Inv;
  }

  /** And so does realloc with the body of the piece that it cuts off. */
  lemma ResizeFills(v: View, scribbler: bv8, c: nat, n: size_t, class_: ZoneType, j: nat)
    requires Inv(v, class_) && Live(v, c) && scribbler != 0 && class_ != LARGE &&
             ReallocPlan(v.mem[c].blocks, n).ShrinkTo?
    requires c + ReallocPlan(v.mem[c].blocks, n).blocks < j < c + v.mem[c].blocks
    ensures var u := Step(v, class_, scribbler, Resize(c, n));
            j < |u.mem| && u.mem[j] == Data(seq(UNIT, _ => !scribbler))
  {
    LiveSize(v, c, class_);
    ShrinkRespectsClass(class_, v.mem[c].blocks, n);
    var keep, fill := ReallocPlan(v.mem[c].blocks, n).blocks, Filler(scribbler, true);
    assert Step(v, class_, scribbler, Resize(c, n)) == ShrinkLocked(v, c, keep, fill);
    hide *;
    TailFills(v, c, keep, Data(seq(UNIT, _ => !scribbler)), class_, j);
    FillerIs(scribbler);
  }

  lemma FillerIs(scribbler: bv8)
    requires scribbler != 0
    ensures Filler(scribbler, true) == Some(Data(seq(UNIT, _ => !scribbler)))
  {
  }

  lemma TailFills(v: View, c: nat, keep: nat, cell: Cell, class_: ZoneType, j: nat)
    requires Inv(v, class_) && Live(v, c)
    requires LiveMin(class_) <= keep && keep + FreeMin(class_) <= v.mem[c].blocks && c + v.mem[c].blocks <= |v.mem|
    requires c + keep < j < c + v.mem[c].blocks
    ensures j < |ShrinkLocked(v, c, keep, Some(cell)).mem| && ShrinkLocked(v, c, keep, Some(cell)).mem[j] == cell
  {
    hide Inv, Core, FreeLocked, ShrinkLocked, Coalesced, ClassedBut;
    CutInTwoReady(v, c, keep, class_);
    ShrinkIsFree(v, c, keep, Some(cell));
    CoreIsShape(CutInTwo(v, c, keep));
    hide Shape;
    FreeFills(CutInTwo(v, c, keep), c + keep, cell, j);
  }

  lemma CoreIsShape(v: View)
    requires Core(v)
    ensures Shape(v)
  {
  }

  lemma LiveIffUsed(v: View, c: nat)
    requires Shape(v)
    ensures Live(v, c) <==> c < |v.tags| && v.tags[c] == Used
    ensures Live(v, c) ==> c + v.mem[c].blocks <= |v.mem| && |BodyAt(v.mem, c)| == v.mem[c].blocks - 1
  {
    assert c < |v.tags| && v.tags[c] == Used ==> ChunkAt(v.tags, v.mem, c);
  }

  lemma ReleaseEffect(v: View, scribbler: bv8, c: nat, class_: ZoneType)
    requires Inv(v, class_)
    ensures Seen(Step(v, class_, scribbler, Release(c))) == Seen(v) - {c}
  {
    hide FreeLocked;
    LiveIffUsed(v, c);
    if Live(v, c) {
      FreeStore(v, c, Filler(scribbler, true));
    } else {
      assert Seen(v) - {c} == Seen(v);
    }
  }

  lemma ShrinkHasEffect(s: Contents, c: nat, n: size_t, k: nat, s': Contents)
    requires c in s && k <= |s[c]| && n <= k * UNIT && s' == s[c := s[c][..k]]
    ensures Effect(s, Resize(c, n), s')
  {
  }

  lemma ResizeEffect(v: View, scribbler: bv8, c: nat, n: size_t, class_: ZoneType)
    requires Inv(v, class_) && class_ != LARGE
    ensures Effect(Seen(v), Resize(c, n), Seen(Step(v, class_, scribbler, Resize(c, n))))
  {
    hide Inv, ShrinkLocked, ReallocPlan, BodyAt;
    if Live(v, c) && c + v.mem[c].blocks <= |v.mem| {
      LiveSize(v, c, class_);
      ShrinkRespectsClass(class_, v.mem[c].blocks, n);
      var plan := ReallocPlan(v.mem[c].blocks, n);
      if plan.ShrinkTo? {
        ShrinkStore(v, c, plan.blocks, Filler(scribbler, true), class_);
        assert c in Seen(v) && Seen(v)[c] == BodyAt(v.mem, c);
        hide Store;
        ShrinkHasEffect(Seen(v), c, n, plan.blocks - 1, Seen(ShrinkLocked(v, c, plan.blocks, Filler(scribbler, true))));
      }
    }
  }

  lemma WriteLands(v: View, c: nat, k: nat)
    requires Shape(v)
    ensures (Live(v, c) && 1 <= k < v.mem[c].blocks && c + k < |v.mem|) <==> (c in Seen(v) && 1 <= k <= |Seen(v)[c]|)
    ensures c in Seen(v) ==> Seen(v)[c] == BodyAt(v.mem, c)
  {
    LiveIffUsed(v, c);
    hide Shape, BodyAt;
  }

  lemma WriteEffect(v: View, scribbler: bv8, c: nat, k: nat, cell: Cell, class_: ZoneType)
    requires Inv(v, class_)
    ensures Effect(Seen(v), Write(c, k, cell), Seen(Step(v, class_, scribbler, Write(c, k, cell))))
  {
    hide Allocate, FreeLocked, ShrinkLocked, Store, BodyAt;
    WriteLands(v, c, k);
    if Live(v, c) && 1 <= k < v.mem[c].blocks && c + k < |v.mem| {
      WriteStore(v, c, c + k, cell);
    }
  }

  lemma StepHasEffect(v: View, class_: ZoneType, scribbler: bv8, op: Op)
    requires Inv(v, class_) && class_ != LARGE
    ensures Effect(Seen(v), op, Seen(Step(v, class_, scribbler, op)))
  {
    match op
    case Malloc(n) =>
      hide Allocate;
      if ZoneTypeForBytes(n) == class_ { AllocateEffect(v, n, scribbler, class_); }
    case Release(c) => hide Step; ReleaseEffect(v, scribbler, c, class_);
    case Resize(c, n) => hide Step; ResizeEffect(v, scribbler, c, n, class_);
    case Write(c, k, cell) => hide Step; WriteEffect(v, scribbler, c, k, cell, class_);
  }

  predicate Spares(op: Op, c: nat) {
    match op
    case Malloc(_) => true
    case Release(d) => d != c
    case Resize(d, _) => d != c
    case Write(d, _, _) => d != c
  }

  /** The contents of a chunk survive any run that neither frees, resizes nor writes it. */
  lemma {:induction false} RunKeepsContents(v: View, class_: ZoneType, scribbler: bv8, ops: seq<Op>, c: nat)
    requires Inv(v, class_) && class_ != LARGE
    requires c in Seen(v) && forall k :: 0 <= k < |ops| ==> Spares(ops[k], c)
    ensures c in Seen(Run(v, class_, scribbler, ops)) && Seen(Run(v, class_, scribbler, ops))[c] == Seen(v)[c]
    decreases |ops|
  {
    hide Inv, Step, Seen;
    if ops != [] {
      var u := Step(v, class_, scribbler, ops[0]);
      StepKeepsInv(v, class_, scribbler, ops[0]);
      StepHasEffect(v, class_, scribbler, ops[0]);
      assert Spares(ops[0], c);
      RunKeepsContents(u, class_, scribbler, ops[1..], c);
    }
  }
}
