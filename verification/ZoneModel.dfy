/**
  The state of one TINY or SMALL zone, as a value, and what each of the zone operations does to it.

  A heap block is one `Cell`: the 16 bytes of a block hold either a chunk header or data, never both, so writing one
  destroys the other.  `tags` is the reading of the two bitmaps: a block is not a head (`Body`), the head of a free
  chunk (`Free`), or the head of a live chunk (`Used`).  Positions are block indices.
*/
module ZoneModel {
  import opened Sizes
  import opened Wrappers

  // A chunk pointer, as the index of its header block.
  datatype Link = Null | At(pos: nat)

  // `flags` are the low three bits of the C field `next`.
  datatype Cell = Header(blocks: nat, next: Link, flags: nat) | Data(bytes: seq<bv8>)

  datatype Tag = Body | Free | Used

  datatype View = View(
    tags: seq<Tag>,
    mem: seq<Cell>,
    frees: Link,
    freePrev: Link,
    blocksFree: int,
    blocksUsed: int
  )

  // ---------------------------------------------------------------- the invariant

  /** Block `i` heads a chunk that ends where the next chunk, or the end of the heap, begins. */
  ghost predicate ChunkAt(tags: seq<Tag>, mem: seq<Cell>, i: nat)
    requires |mem| == |tags|
  {
    && i < |tags|
    && mem[i].Header?
    && mem[i].flags == 0
    && 2 <= mem[i].blocks
    && i + mem[i].blocks <= |tags|
    && (forall j :: i < j < i + mem[i].blocks ==> tags[j] == Body)
    && (i + mem[i].blocks < |tags| ==> tags[i + mem[i].blocks] != Body)
  }

  /** The chunks tile the heap. */
  ghost predicate Shape(v: View) {
    && |v.mem| == |v.tags|
    && 2 <= |v.tags|
    && v.tags[0] != Body
    && forall i {:trigger ChunkAt(v.tags, v.mem, i)} :: 0 <= i < |v.tags| && v.tags[i] != Body ==>
       ChunkAt(v.tags, v.mem, i)
  }

  /** `l` is the first free chunk at or after block `i`. */
  ghost predicate IsNextFree(tags: seq<Tag>, i: nat, l: Link) {
    match l
    case Null => forall j :: i <= j < |tags| ==> tags[j] != Free
    case At(p) => i <= p < |tags| && tags[p] == Free && forall j :: i <= j < p ==> tags[j] != Free
  }

  /** `l` is the last free chunk before block `i`. */
  ghost predicate IsPrevFree(tags: seq<Tag>, i: nat, l: Link)
    requires i <= |tags|
  {
    match l
    case Null => forall j :: 0 <= j < i ==> tags[j] != Free
    case At(p) => p < i && tags[p] == Free && forall j :: p < j < i ==> tags[j] != Free
  }

  /** The free list is threaded through exactly the free chunks, in ascending order. */
  ghost predicate Threaded(v: View)
    requires |v.mem| == |v.tags|
  {
    && IsNextFree(v.tags, 0, v.frees)
    && forall i {:trigger ThreadAt(v.tags, v.mem, i)} :: 0 <= i < |v.tags| && v.tags[i] == Free ==>
       ThreadAt(v.tags, v.mem, i)
  }

  ghost predicate ThreadAt(tags: seq<Tag>, mem: seq<Cell>, i: nat)
    requires i < |mem|
  {
    mem[i].Header? && IsNextFree(tags, i + 1, mem[i].next)
  }

  ghost function Weight(tag: Tag, cell: Cell, t: Tag): int {
    if tag == t && cell.Header? then cell.blocks else 0
  }

  /** The blocks of the chunks carrying tag `t`, one number per heap block. */
  ghost function Weights(tags: seq<Tag>, mem: seq<Cell>, t: Tag): (w: seq<int>)
    requires |mem| == |tags|
  {
    seq(|tags|, i requires 0 <= i < |tags| => Weight(tags[i], mem[i], t))
  }

  ghost function Sum(w: seq<int>): int {
    if w == [] then 0 else w[0] + Sum(w[1..])
  }

  ghost predicate Counted(v: View)
    requires |v.mem| == |v.tags|
  {
    v.blocksFree == Sum(Weights(v.tags, v.mem, Free)) && v.blocksUsed == Sum(Weights(v.tags, v.mem, Used))
  }

  ghost predicate Rover(v: View) {
    v.freePrev.Null? || (v.freePrev.pos < |v.tags| && v.tags[v.freePrev.pos] == Free)
  }

  /** Everything but coalescing and the class limits; it holds between the steps of an insertion too. */
  ghost predicate Core(v: View) {
    Shape(v) && Threaded(v) && Counted(v) && Rover(v)
  }

  /** No two free chunks touch. */
  ghost predicate Coalesced(v: View)
    requires |v.mem| == |v.tags|
  {
    forall i {:trigger SealedAt(v.tags, v.mem, i)} :: 0 <= i < |v.tags| && v.tags[i] == Free && v.mem[i].Header? ==>
      SealedAt(v.tags, v.mem, i)
  }

  /** The chunk at `i` is not followed by a free chunk. */
  ghost predicate SealedAt(tags: seq<Tag>, mem: seq<Cell>, i: nat)
    requires i < |mem| == |tags| && mem[i].Header?
  {
    i + mem[i].blocks < |tags| ==> tags[i + mem[i].blocks] == Used
  }

  /** Sizes, in blocks with the header, that a live and a free chunk of a class can have. */
  ghost predicate Classed(v: View, class_: ZoneType)
    requires |v.mem| == |v.tags|
  {
    forall i :: 0 <= i < |v.tags| && v.tags[i] != Body && v.mem[i].Header? ==>
      SizeFits(v.tags[i], v.mem[i].blocks, class_)
  }

  ghost predicate ClassedBut(v: View, c: nat, class_: ZoneType)
    requires |v.mem| == |v.tags|
  {
    forall i :: 0 <= i < |v.tags| && i != c && v.tags[i] != Body && v.mem[i].Header? ==>
      SizeFits(v.tags[i], v.mem[i].blocks, class_)
  }

  predicate SizeFits(t: Tag, blocks: nat, class_: ZoneType) {
    match t
    case Body => true
    case Used => LiveMin(class_) <= blocks <= LiveMax(class_)
    case Free => FreeMin(class_) <= blocks
  }

  function LiveMin(class_: ZoneType): nat { if class_ == SMALL then TINY_MAX_BLOCKS + 2 else 2 }
  function LiveMax(class_: ZoneType): nat { if class_ == SMALL then SMALL_MAX_BLOCKS + 1 else TINY_MAX_BLOCKS + 1 }
  // One less than LiveMin for SMALL: realloc classifies the piece it cuts off by whole blocks.
  function FreeMin(class_: ZoneType): nat { if class_ == SMALL then TINY_MAX_BLOCKS + 1 else 2 }

  ghost predicate Inv(v: View, class_: ZoneType) {
    Core(v) && Coalesced(v) && Classed(v, class_)
  }

  // ---------------------------------------------------------------- the operations

  function NextFree(tags: seq<Tag>, i: nat): (l: Link)
    requires i <= |tags|
    ensures IsNextFree(tags, i, l)
    decreases |tags| - i
  {
    if i == |tags| then Null else if tags[i] == Free then At(i) else NextFree(tags, i + 1)
  }

  function PrevFree(tags: seq<Tag>, i: nat): (l: Link)
    requires i <= |tags|
    ensures IsPrevFree(tags, i, l)
  {
    if i == 0 then Null else if tags[i - 1] == Free then At(i - 1) else PrevFree(tags, i - 1)
  }

  /** Stores `l` in the lot that follows `prev`: its `next` field, or the list head. */
  function Relink(v: View, prev: Link, l: Link): View {
    match prev
    case Null => v.(frees := l)
    case At(p) =>
      if p < |v.mem| && v.mem[p].Header? then v.(mem := v.mem[p := v.mem[p].(next := l, flags := 0)]) else v
  }

  predicate HeaderAt(v: View, i: nat) {
    i < |v.tags| == |v.mem| && v.mem[i].Header?
  }

  /** exhaust_chunk: the whole free chunk `i` becomes live. */
  function Exhaust(v: View, i: nat): View
    requires HeaderAt(v, i)
  {
    var b := v.mem[i].blocks;
    var r := Relink(v, PrevFree(v.tags, i), v.mem[i].next);
    r.(tags := v.tags[i := Used], blocksFree := v.blocksFree - b, blocksUsed := v.blocksUsed + b, freePrev := r.frees)
  }

  /** separate_chunk: the first `whole` blocks of the free chunk `i` become live, the rest stays free. */
  function Separate(v: View, i: nat, whole: nat): View
    requires HeaderAt(v, i) && 2 <= whole && whole + 2 <= v.mem[i].blocks && i + whole < |v.mem|
  {
    var h := v.mem[i];
    var cut := v.(mem := v.mem[i := h.(blocks := whole)][i + whole := h.(blocks := h.blocks - whole)]);
    var r := Relink(cut, PrevFree(v.tags, i), At(i + whole));
    r.(tags := v.tags[i := Used][i + whole := Free],
       blocksFree := v.blocksFree - whole, blocksUsed := v.blocksUsed + whole, freePrev := r.frees)
  }

  /** is_separatable and is_exhaustible, for a free chunk of `blocks` blocks. */
  predicate Exhaustible(blocks: nat, needed: nat) {
    blocks == needed + 1
  }

  predicate Separatable(blocks: nat, needed: nat) {
    var whole := needed + 1;
    if blocks - 1 <= whole then
      false
    else
      var rest := blocks - whole;
      rest >= whole || ZoneTypeForBytes(needed * UNIT) == ZoneTypeForBytes((rest - 1) * UNIT)
  }

  predicate Fits(v: View, i: nat, needed: nat) {
    HeaderAt(v, i) && v.tags[i] == Free && (Exhaustible(v.mem[i].blocks, needed) ||
      Separatable(v.mem[i].blocks, needed))
  }

  /** The lowest free chunk in `[lo, hi)` that can serve the request. */
  function FirstFit(v: View, needed: nat, lo: nat, hi: nat): (l: Link)
    requires lo <= hi
    ensures match l
            case Null => forall j :: lo <= j < hi ==> !Fits(v, j, needed)
            case At(p) => lo <= p < hi && Fits(v, p, needed) && forall j :: lo <= j < p ==> !Fits(v, j, needed)
    decreases hi - lo
  {
    if lo == hi then Null else if Fits(v, lo, needed) then At(lo) else FirstFit(v, needed, lo + 1, hi)
  }

  /** Where the roving search starts: after `freePrev`, or at the front of the list. */
  function SearchStart(v: View): nat {
    var next := if v.freePrev.At? && HeaderAt(v, v.freePrev.pos) then v.mem[v.freePrev.pos].next else v.frees;
    var start := if next.Null? then v.frees else next;
    if start.At? && start.pos <= |v.tags| then start.pos else 0
  }

  /** Next fit: the first chunk that fits, in address order from the starting point and around. */
  function NextFit(v: View, needed: nat): Link {
    if v.blocksFree < needed + 1 then
      Null
    else
      var start := SearchStart(v);
      if start > |v.tags| then Null else
      var ahead := FirstFit(v, needed, start, |v.tags|);
      if ahead.At? then ahead else FirstFit(v, needed, 0, start)
  }

  function Take(v: View, i: nat, needed: nat): View
    requires Fits(v, i, needed) && i + v.mem[i].blocks <= |v.tags| && 1 <= needed
  {
    if Exhaustible(v.mem[i].blocks, needed) then Exhaust(v, i) else Separate(v, i, needed + 1)
  }

  /** The test of try_unite_free_chunks. */
  predicate CanUnite(v: View, front: Link) {
    && front.At? && HeaderAt(v, front.pos)
    && var back := v.mem[front.pos].next;
    && back.At? && HeaderAt(v, back.pos)
    && front.pos + v.mem[front.pos].blocks == back.pos
  }

  /** try_unite_free_chunks: the chunk after `front` in the free list joins it if it also follows it in memory. */
  function Unite(v: View, front: Link): View {
    if !CanUnite(v, front) then v else
    var f, b := front.pos, v.mem[front.pos].next.pos;
    v.(mem := v.mem[f := v.mem[b].(blocks := v.mem[f].blocks + v.mem[b].blocks)], tags := v.tags[b := Body])
  }

  function MarkFree(v: View, c: nat): View
    requires HeaderAt(v, c)
  {
    v.(tags := v.tags[c := Free])
  }

  /** The freed chunk `c`, counted and pointing at its right neighbour, but not yet reachable from the list. */
  function Dangling(v: View, c: nat): View
    requires HeaderAt(v, c)
  {
    v.(mem := v.mem[c := v.mem[c].(next := NextFree(v.tags, c + 1))], freePrev := At(c),
       blocksFree := v.blocksFree + v.mem[c].blocks, blocksUsed := v.blocksUsed - v.mem[c].blocks)
  }

  /** insert_chunk_to_tiny_small_zone, for a chunk `c` that the bitmaps already call free. */
  function Insert(v: View, c: nat): View
    requires HeaderAt(v, c)
  {
    var left := PrevFree(v.tags, c);
    var listed := Relink(Unite(Dangling(v, c), At(c)), left, At(c));
    Unite(listed, left).(freePrev := if CanUnite(listed, left) then left else At(c))
  }

  /** fill_chunk_by_scribbler over the body of the chunk whose header is at `c`; no filler, no fill. */
  function Scribble(v: View, c: nat, fill: Option<Cell>): View
    requires HeaderAt(v, c)
  {
    if fill.None? then v else
    v.(mem := seq(|v.mem|, j requires 0 <= j < |v.mem| => if c < j < c + v.mem[c].blocks then fill.value else v.mem[j]))
  }

  /** yoyo_free_from_locked_tiny_small_zone. */
  function FreeLocked(v: View, c: nat, fill: Option<Cell>): View
    requires HeaderAt(v, c)
  {
    Scribble(Insert(MarkFree(v, c), c), c, fill)
  }
}
