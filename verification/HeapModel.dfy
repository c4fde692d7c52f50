/**
  The whole allocator as a value: the zones of one arena, its LARGE chunks, and malloc, free, realloc, memalign and
  release_memory over them, with addresses.  mmap and the outcome of try_lock_zone are parameters.
*/
module HeapModel {
  import opened Sizes
  import opened Wrappers
  import opened NatBits
  import opened ZoneModel
  import opened ZoneShrink
  import opened ZoneStore
  import Z = ZoneRuns
  import opened ZoneLayout
  import L = LargeList
  import opened LinkedLists

  // getpagesize(), sizeof(t_yoyo_zone) and the byte of MALLOC_PERTURB_.
  datatype Config = Config(page: nat, header: nat, scribbler: bv8)

  ghost predicate GoodConfig(c: Config) {
    && UNIT <= c.page && ZONE_TINY_BYTE % c.page == 0 && ZONE_SMALL_BYTE % c.page == 0 && WORD % c.page == 0 &&
       c.page % UNIT == 0
    && c.header <= 0x1000
  }

  datatype ZoneAt = ZoneAt(class_: ZoneType, view: View)

  // A LARGE chunk: the bytes mapped for it, the `blocks` of its header, and its body.
  datatype Big = Big(bytes: nat, blocks: nat, body: seq<Cell>)

  // Zones and LARGE chunks by the address of their mapping; the zone lists and the LARGE in-use list.
  datatype Heap = Heap(tiny: seq<int>, small: seq<int>, zones: map<int, ZoneAt>, inUse: seq<int>, bigs: map<int, Big>)

  // A block: of the heap of a zone, or of a LARGE chunk, whose header is its block 0.
  datatype Place = Place(base: int, i: nat)

  // What malloc, realloc and memalign end with: a pointer, as the place of the header before it; NULL; or a crash.
  datatype Outcome = Gives(value: Place) | Fails | Crashes

  // What the rest of the system decides: which zones are locked by others, and what mmap returns.
  datatype Os = Os(busy: set<int>, mapped: Option<nat>)

  // ---------------------------------------------------------------- memory

  predicate Mapped(h: Heap, b: int) { b in h.zones || b in h.bigs }

  function Extent(h: Heap, b: int): nat {
    if b in h.zones then AlignmentOf(h.zones[b].class_) else if b in h.bigs then h.bigs[b].bytes else 0
  }

  predicate Exists(h: Heap, p: Place) {
    (p.base in h.zones && p.i < |h.zones[p.base].view.mem|) ||
      (p.base !in h.zones && p.base in h.bigs && p.i <= |h.bigs[p.base].body|)
  }

  /** The address of a block. */
  function Address(c: Config, h: Heap, p: Place): int
    requires c.header <= 0x1000
  {
    if p.base in h.zones then p.base + OffsetHeap(AlignmentOf(h.zones[p.base].class_), c.header) + UNIT * p.i
    else p.base + LARGE_OFFSET - UNIT + UNIT * p.i
  }

  const LARGE_FLAG: nat := 1
  const PSEUDO_FLAG: nat := 2

  function Load(h: Heap, p: Place): Cell
    requires Exists(h, p)
  {
    if p.base in h.zones then h.zones[p.base].view.mem[p.i]
    else if p.i == 0 then Header(h.bigs[p.base].blocks, Null, LARGE_FLAG)
    else h.bigs[p.base].body[p.i - 1]
  }

  /** The chunk whose header is at `p` is in use. */
  predicate Live(h: Heap, p: Place) {
    if p.base in h.zones then Z.Live(h.zones[p.base].view, p.i) else p.base in h.bigs && p.i == 0
  }

  /** The blocks a caller may use. */
  function BodyOf(h: Heap, p: Place): seq<Cell> {
    if p.base in h.zones then BodyAt(h.zones[p.base].view.mem, p.i)
    else if p.base in h.bigs then h.bigs[p.base].body
    else []
  }

  // ---------------------------------------------------------------- the invariant

  ghost predicate ZoneOk(c: Config, b: int, z: ZoneAt)
    requires c.header <= 0x1000
  {
    && z.class_ != LARGE && 0 < b && b % AlignmentOf(z.class_) == 0 && b + AlignmentOf(z.class_) <= WORD
    && |z.view.tags| == HeapBlocks(AlignmentOf(z.class_), c.header)
    && Inv(z.view, z.class_)
  }

  ghost predicate BigOk(c: Config, b: int, x: Big) {
    && 0 < b && b % UNIT == 0 && b + x.bytes <= WORD
    && LARGE_OFFSET + |x.body| * UNIT <= x.bytes && x.blocks == |x.body| + 1 && SMALL_MAX_BLOCKS < |x.body|
  }

  /** The zone lists hold the zones of their class, each once; the in-use list the LARGE chunks, in ascending order. */
  ghost predicate ListsOk(h: Heap) {
    && Distinct(h.tiny) && Distinct(h.small) && Ascending(h.inUse)
    && (forall b :: b in h.tiny <==> b in h.zones && h.zones[b].class_ == TINY)
    && (forall b :: b in h.small <==> b in h.zones && h.zones[b].class_ == SMALL)
    && (forall b :: b in h.inUse <==> b in h.bigs)
  }

  /** Mappings do not overlap. */
  ghost predicate Apart(h: Heap) {
    && (forall b :: b in h.zones ==> b !in h.bigs)
    && (forall a, b :: Mapped(h, a) && Mapped(h, b) && a < b ==> a + Extent(h, a) <= b)
  }

  ghost predicate HeapInv(c: Config, h: Heap) {
    && GoodConfig(c)
    && (forall b :: b in h.zones ==> ZoneOk(c, b, h.zones[b]))
    && (forall b :: b in h.bigs ==> BigOk(c, b, h.bigs[b]))
    && ListsOk(h) && Apart(h)
  }

  // ---------------------------------------------------------------- malloc

  /** Whether a new mapping of `bytes` at `b` is one that mmap may return. */
  predicate FreshRange(h: Heap, b: nat, bytes: nat) {
    0 < b && b + bytes <= WORD
    && (forall a :: a in h.zones ==> a + AlignmentOf(h.zones[a].class_) <= b || b + bytes <= a)
    && (forall a :: a in h.bigs ==> a + h.bigs[a].bytes <= b || b + bytes <= a)
  }

  function ListOf(h: Heap, class_: ZoneType): seq<int> { if class_ == TINY then h.tiny else h.small }

  function SetView(h: Heap, b: int, v: View): Heap
    requires b in h.zones
  {
    h.(zones := h.zones[b := h.zones[b].(view := v)])
  }

  /** The first zone of the list that is not locked by someone else and serves the request. */
  function FirstServing(c: Config, h: Heap, list: seq<int>, n: size_t, busy: set<int>): Option<int> {
    if list == [] then None
    else if list[0] !in busy && list[0] in h.zones && Z.Allocate(h.zones[list[0]].view, n, c.scribbler).1.At?
      then Some(list[0])
    else FirstServing(c, h, list[1..], n, busy)
  }

  /** try_allocate_chunk_from_zone, and malloc's fill. */
  function AllocateIn(c: Config, h: Heap, b: int, n: size_t): (Heap, Option<Place>)
    requires b in h.zones
  {
    var (v, l) := Z.Allocate(h.zones[b].view, n, c.scribbler);
    (SetView(h, b, v), if l.At? then Some(Place(b, l.pos)) else None)
  }

  /** allocate_zone: the aligned part of a mapping of twice the zone size. */
  function NewZone(c: Config, h: Heap, class_: ZoneType, os: Os): Option<int>
  {
    if os.mapped.None? || !FreshRange(h, os.mapped.value, 2 * AlignmentOf(class_)) then None
    else Some(TrimmedMapping(os.mapped.value, AlignmentOf(class_)).0)
  }

  /** init_zone and zone_push_front. */
  function PushZone(c: Config, h: Heap, class_: ZoneType, b: int): Heap
    requires c.header <= 0x1000
  {
    var z := ZoneAt(class_, Z.Fresh(HeapBlocks(AlignmentOf(class_), c.header)));
    if class_ == TINY then h.(tiny := [b] + h.tiny, zones := h.zones[b := z])
    else h.(small := [b] + h.small, zones := h.zones[b := z])
  }

  /** allocate_memory_from_zone_list. */
  function MallocFromZones(c: Config, h: Heap, class_: ZoneType, n: size_t, os: Os): (Heap, Option<Place>)
    requires c.header <= 0x1000
  {
    var found := FirstServing(c, h, ListOf(h, class_), n, os.busy);
    if found.Some? then
      if found.value in h.zones then AllocateIn(c, h, found.value, n) else (h, None)
    else
      var b := NewZone(c, h, class_, os);
      if b.None? then (h, None) else AllocateIn(c, PushZone(c, h, class_, b.value), b.value, n)
  }

  function LargeBody(blocks: nat, scribbler: bv8): seq<Cell> {
    var fill := Z.Filler(scribbler, false);
    seq(blocks, _ => if fill.Some? then fill.value else Data(seq(UNIT, _ => 0)))
  }

  /** allocate_memory_from_large. */
  function MallocLarge(c: Config, h: Heap, n: size_t, os: Os): (Heap, Option<Place>)
    requires 0 < c.page
  {
    var plan := LargePlan(n, c.page);
    if plan.None? || os.mapped.None? || !FreshRange(h, os.mapped.value, plan.value.0) || os.mapped.value % c.page != 0
      then (h, None)
    else
      var b := os.mapped.value;
      var x := Big(plan.value.0, plan.value.1, LargeBody(plan.value.1 - 1, c.scribbler));
      (h.(inUse := L.Inserted(h.inUse, b), bigs := h.bigs[b := x]), Some(Place(b, 0)))
  }

  /** malloc's last lines: the fill reads the header before the pointer, also when the pointer is NULL. */
  function Filled(c: Config, p: Option<Place>): Outcome {
    if p.Some? then Gives(p.value) else if c.scribbler != 0 then Crashes else Fails
  }

  /** yoyo_actual_malloc. */
  function Malloc(c: Config, h: Heap, n: size_t, os: Os): (Heap, Outcome)
    requires 0 < c.page && c.header <= 0x1000
  {
    if MallocRejects(n) then (h, Fails)
    else
      var (h', p) := if ZoneTypeForBytes(n) == LARGE then MallocLarge(c, h, n, os)
                     else MallocFromZones(c, h, ZoneTypeForBytes(n), n, os);
      (h', Filled(c, p))
  }

  // ---------------------------------------------------------------- free

  /** addr_to_actual_header: through the pseudo header of memalign, if there is one. */
  function Actual(h: Heap, p: Place): Place
    requires Exists(h, p)
  {
    match Load(h, p)
    case Header(_, next, flags) => if flags / PSEUDO_FLAG % 2 == 1 && next.At? then Place(p.base, next.pos) else p
    case Data(_) => p
  }

  /** The zone and the block index that free computes from the address and the size of a chunk. */
  function ZoneAndIndex(c: Config, h: Heap, p: Place): Option<Place>
    requires c.header <= 0x1000 && Exists(h, p)
  {
    var a := Address(c, h, p);
    if !Load(h, p).Header? || Load(h, p).blocks < 1 || a < 0 then None else
    var b := ZoneOfChunk(a, Load(h, p).blocks);
    if b.None? || b.value !in h.zones then None
    else
      var i := BlockIndex(b.value, AlignmentOf(h.zones[b.value].class_), c.header, a);
      if i < 0 then None else Some(Place(b.value, i))
  }

  function FreeLarge(h: Heap, b: int): Heap {
    h.(inUse := L.Removed(h.inUse, b), bigs := h.bigs - {b})
  }

  /** yoyo_actual_free, for the chunk or pseudo chunk with header `p`. */
  function FreeAt(c: Config, h: Heap, p: Place): Heap
    requires c.header <= 0x1000
  {
    if !Exists(h, p) || !Exists(h, Actual(h, p)) then h else
    var q := Actual(h, p);
    if !Load(h, q).Header? then h
    else if Load(h, q).flags % 2 == LARGE_FLAG then
      if q.base in h.bigs then FreeLarge(h, q.base) else h
    else
      var at := ZoneAndIndex(c, h, q);
      if at.None? || at.value.base !in h.zones then h else
      var v := h.zones[at.value.base].view;
      if Z.Live(v, at.value.i) then SetView(h, at.value.base, FreeLocked(v, at.value.i, Z.Filler(c.scribbler, true)))
        else h
  }

  // ---------------------------------------------------------------- writes and realloc

  /** Block `k` of the chunk with header `p`, counted from the header, is written. */
  function WriteCell(h: Heap, p: Place, k: nat, cell: Cell): Heap {
    if p.base in h.zones
    then SetView(h, p.base, Z.Step(h.zones[p.base].view, h.zones[p.base].class_, 0, Z.Write(p.i, k, cell)))
    else if p.base in h.bigs && p.i == 0 && 1 <= k <= |h.bigs[p.base].body|
    then h.(bigs := h.bigs[p.base := h.bigs[p.base].(body := h.bigs[p.base].body[k - 1 := cell])])
    else h
  }

  /** Blocks `k` and on of `cells` are copied to the body of `p`. */
  function CopyFrom(h: Heap, p: Place, cells: seq<Cell>, k: nat): Heap
    requires k <= |cells|
    decreases |cells| - k
  {
    if k == |cells| then h else CopyFrom(WriteCell(h, p, k + 1, cells[k]), p, cells, k + 1)
  }

  /** relocate_chunk. */
  function RelocateChunk(c: Config, h: Heap, p: Place, required: nat, os: Os): (Heap, Outcome)
    requires 0 < c.page && c.header <= 0x1000 && 1 <= required && (required - 1) * UNIT < WORD
  {
    var (g, q) := Malloc(c, h, (required - 1) * UNIT, os);
    if !q.Gives? then (g, q)
    else
      var copied := Min(|BodyOf(g, q.value)|, |BodyOf(g, p)|);
      (FreeAt(c, CopyFrom(g, q.value, BodyOf(g, p)[..copied], 0), p), q)
  }

  /** shrink_chunk. */
  function Shrunk(c: Config, h: Heap, p: Place, required: nat): Heap
    requires c.header <= 0x1000 && Exists(h, p)
  {
    var at := ZoneAndIndex(c, h, p);
    if at.None? || at.value.base !in h.zones then h else
    var v, i := h.zones[at.value.base].view, at.value.i;
    if HeaderAt(v, i) && 2 <= required < v.mem[i].blocks && i + v.mem[i].blocks <= |v.mem|
    then SetView(h, at.value.base, ShrinkLocked(v, i, required, Z.Filler(c.scribbler, true)))
    else h
  }

  /** yoyo_actual_realloc, for a chunk with a real header. */
  function Realloc(c: Config, h: Heap, p: Place, n: size_t, os: Os): (Heap, Outcome)
    requires 0 < c.page && c.header <= 0x1000
  {
    if !Exists(h, p) || !Load(h, p).Header? then (h, Fails) else
    match ReallocPlan(Load(h, p).blocks, n)
    case Reject => (h, Fails)
    case Maintain => (h, Gives(p))
    case Relocate(required) =>
      if 1 <= required && (required - 1) * UNIT < WORD then RelocateChunk(c, h, p, required, os) else (h, Fails)
    case ShrinkTo(required) => (Shrunk(c, h, p, required), Gives(p))
  }

  // ---------------------------------------------------------------- memalign

  /** overflow_by_addtion. */
  predicate Overflows(a: size_t, b: size_t) { a > SIZE_MAX - b }

  /** The bytes that memalign asks malloc for; None is EINVAL or ENOMEM. */
  function AllocSize(alignment: size_t, size: size_t): (r: Option<size_t>)
    ensures r.Some? ==> 0 < alignment && IsPowerOf2(alignment)
  {
    if !IsPowerOf2(alignment) || Overflows(size, alignment) then None
    else
      var ceiled := CeilBy(size + alignment, UNIT);
      if ceiled == 0 || Overflows(ceiled, UNIT) then None else Some(ceiled + UNIT)
  }

  /** From the end of the real header to the end of the pseudo header, for a body at `ptr`. */
  function PseudoOffset(ptr: nat, alignment: nat): nat
    requires 0 < alignment
  {
    UNIT + (alignment - (ptr + UNIT) % alignment) % alignment
  }

  predicate IsAligned(ptr: int, alignment: nat) {
    ptr < 0 || alignment == 0 || ptr % alignment == 0
  }

  /** The end of memalign: the place of a header just before an aligned pointer into chunk `q`. */
  function AlignIn(c: Config, g: Heap, q: Place, alignment: size_t, size: size_t): (Heap, Place)
    requires c.header <= 0x1000
  {
    var ptr := Address(c, g, q) + UNIT;
    if IsAligned(ptr, alignment) then (g, q)
    else
      var k := PseudoOffset(ptr, alignment) / UNIT;
      (WriteCell(g, q, k, Header(BlocksForSize(size) + 1, At(q.i), PSEUDO_FLAG)), Place(q.base, q.i + k))
  }

  /** yoyo_actual_memalign; a result is the place of the header just before the pointer. */
  function Memalign(c: Config, h: Heap, alignment: size_t, size: size_t, os: Os): (Heap, Outcome)
    requires 0 < c.page && c.header <= 0x1000
  {
    var n := AllocSize(alignment, size);
    if n.None? then (h, Fails)
    else
      var (g, q) := Malloc(c, h, n.value, os);
      if !q.Gives? then (g, q)
      else
        var (h', p) := AlignIn(c, g, q.value, alignment, size);
        (h', Gives(p))
  }

  /** The chunk that a pointer of memalign stands for. */
  function ChunkOf(h: Heap, p: Place): Place {
    if Exists(h, p) then Actual(h, p) else p
  }

  // ---------------------------------------------------------------- release_memory

  predicate Releasable(h: Heap, b: int) {
    b in h.zones && h.zones[b].view.blocksFree == |h.zones[b].view.tags|
  }

  /** release_entirely_free_zone: what stays on a list. */
  function Unreleased(h: Heap, list: seq<int>): seq<int> {
    if list == [] then [] else (if Releasable(h, list[0]) then [] else [list[0]]) + Unreleased(h, list[1..])
  }

  function Release(h: Heap): Heap {
    h.(tiny := Unreleased(h, h.tiny), small := Unreleased(h, h.small),
       zones := map b | b in h.zones && !Releasable(h, b) :: h.zones[b])
  }

  // ---------------------------------------------------------------- runs

  datatype Op =
    | DoMalloc(n: size_t, os: Os)
    | DoFree(p: Place)
    | DoRealloc(p: Place, n: size_t, os: Os)
    | DoWrite(p: Place, k: nat, cell: Cell)
    | DoMemalign(alignment: size_t, size: size_t, os: Os)
    | DoRelease

  datatype Process = Running(heap: Heap) | Crashed

  function After(r: (Heap, Outcome)): Process {
    if r.1.Crashes? then Crashed else Running(r.0)
  }

  /** What a program does: it frees, resizes and writes only chunks it has, and resizes none that came from memalign. */
  function Step(c: Config, s: Process, op: Op): Process
    requires 0 < c.page && c.header <= 0x1000
  {
    if s.Crashed? then s else
    var h := s.heap;
    match op
    case DoMalloc(n, os) => After(Malloc(c, h, n, os))
    case DoFree(p) => if Exists(h, p) && Live(h, ChunkOf(h, p)) then Running(FreeAt(c, h, p)) else s
    case DoRealloc(p, n, os) => if Live(h, p) then After(Realloc(c, h, p, n, os)) else s
    case DoWrite(p, k, cell) => Running(WriteCell(h, p, k, cell))
    case DoMemalign(alignment, size, os) => After(Memalign(c, h, alignment, size, os))
    case DoRelease => Running(Release(h))
  }

  function Run(c: Config, s: Process, ops: seq<Op>): Process
    requires 0 < c.page && c.header <= 0x1000
    decreases |ops|
  {
    if ops == [] then s else Run(c, Step(c, s, ops[0]), ops[1..])
  }
}
