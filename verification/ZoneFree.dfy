/**
  Freeing in a zone: insertion in address order with coalescing on both sides.
*/
module ZoneFree {
  import opened Sizes
  import opened Wrappers
  import opened ZoneModel
  import opened ZoneAlloc

  lemma NextFreeUnique(tags: seq<Tag>, i: nat, l: Link)
    requires i <= |tags| && IsNextFree(tags, i, l)
    ensures NextFree(tags, i) == l
  {
    var m := NextFree(tags, i);
    if l.At? && m.At? { assert l.pos == m.pos; }
  }

  lemma PrevFreeUnique(tags: seq<Tag>, i: nat, l: Link)
    requires i <= |tags| && IsPrevFree(tags, i, l)
    ensures PrevFree(tags, i) == l
  {
    var m := PrevFree(tags, i);
    if l.At? && m.At? { assert l.pos == m.pos; }
  }

  /** The list with `c` put in between its neighbours, before anything is united. */
  function LinkIn(v: View, c: nat): View
    requires HeaderAt(v, c)
  {
    Relink(Dangling(MarkFree(v, c), c), PrevFree(v.tags, c), At(c))
  }

  lemma NeighboursStay(v: View, c: nat)
    requires HeaderAt(v, c)
    ensures PrevFree(MarkFree(v, c).tags, c) == PrevFree(v.tags, c)
    ensures NextFree(MarkFree(v, c).tags, c + 1) == NextFree(v.tags, c + 1)
  {
    PrevFreeUnique(MarkFree(v, c).tags, c, PrevFree(v.tags, c));
    NextFreeUnique(MarkFree(v, c).tags, c + 1, NextFree(v.tags, c + 1));
  }

  lemma LinkInShape(v: View, c: nat)
    requires Shape(v) && HeaderAt(v, c) && v.tags[c] == Used
    ensures Shape(LinkIn(v, c))
  {
    var u := LinkIn(v, c);
    hide PrevFree, NextFree;
    RelinkKeepsSizes(Dangling(MarkFree(v, c), c), PrevFree(v.tags, c), At(c));
    hide Relink;
    forall j | 0 <= j < |u.tags| && u.tags[j] != Body ensures ChunkAt(u.tags, u.mem, j) {
      assert ChunkAt(v.tags, v.mem, j);
    }
  }

  lemma LinkInThreads(v: View, c: nat)
    requires Shape(v) && Threaded(v) && HeaderAt(v, c) && v.tags[c] == Used
    ensures Threaded(LinkIn(v, c))
  {
    NeighboursStay(v, c);
    var u := LinkIn(v, c);
    var left := PrevFree(v.tags, c);
    if left.At? { assert ThreadAt(v.tags, v.mem, left.pos); }
    forall j | 0 <= j < |u.tags| && u.tags[j] == Free ensures ThreadAt(u.tags, u.mem, j) {
      assert ThreadAt(v.tags, v.mem, j) || j == c;
    }
  }

  lemma LinkInWeight(v: View, c: nat, j: nat)
    requires |v.tags| == |v.mem| && HeaderAt(v, c) && v.tags[c] == Used && j < |v.tags|
    ensures var u := LinkIn(v, c);
            && |u.tags| == |u.mem| == |v.tags|
            && Weight(u.tags[j], u.mem[j], Free) ==
               (if j == c then v.mem[c].blocks else Weight(v.tags[j], v.mem[j], Free))
            && Weight(u.tags[j], u.mem[j], Used) == if j == c then 0 else Weight(v.tags[j], v.mem[j], Used)
  {
    hide PrevFree, NextFree;
    RelinkKeepsSizes(Dangling(MarkFree(v, c), c), PrevFree(v.tags, c), At(c));
    hide Relink;
  }

  lemma LinkInCounts(v: View, c: nat)
    requires |v.tags| == |v.mem| && Counted(v) && HeaderAt(v, c) && v.tags[c] == Used
    ensures |LinkIn(v, c).tags| == |LinkIn(v, c).mem| && Counted(LinkIn(v, c))
  {
    var u := LinkIn(v, c);
    assert u.blocksFree == v.blocksFree + v.mem[c].blocks && u.blocksUsed == v.blocksUsed - v.mem[c].blocks;
    hide LinkIn, Sum;
    var f, w := Weights(v.tags, v.mem, Free), Weights(v.tags, v.mem, Used);
    SumUpdate(f, c, v.mem[c].blocks);
    SumUpdate(w, c, 0);
    forall j | 0 <= j < |v.tags|
      ensures Weight(u.tags[j], u.mem[j], Free) == f[c := v.mem[c].blocks][j]
      ensures Weight(u.tags[j], u.mem[j], Used) == w[c := 0][j] {
      LinkInWeight(v, c, j);
    }
    LinkInWeight(v, c, c);
    assert Weights(u.tags, u.mem, Free) == f[c := v.mem[c].blocks];
    assert Weights(u.tags, u.mem, Used) == w[c := 0];
  }

  lemma UniteShape(v: View, front: Link)
    requires Shape(v) && Threaded(v) && CanUnite(v, front) && v.tags[front.pos] == Free
    ensures Shape(Unite(v, front))
  {
    var f, b := front.pos, v.mem[front.pos].next.pos;
    var u := Unite(v, front);
    assert ThreadAt(v.tags, v.mem, f);
    assert ChunkAt(v.tags, v.mem, f);
    assert ChunkAt(v.tags, v.mem, b);
    forall j | 0 <= j < |u.tags| && u.tags[j] != Body ensures ChunkAt(u.tags, u.mem, j) {
      assert ChunkAt(v.tags, v.mem, j);
    }
  }

  lemma UniteThreads(v: View, front: Link)
    requires Shape(v) && Threaded(v) && CanUnite(v, front) && v.tags[front.pos] == Free
    ensures Threaded(Unite(v, front))
  {
    var f, b := front.pos, v.mem[front.pos].next.pos;
    var u := Unite(v, front);
    assert ThreadAt(v.tags, v.mem, f);
    assert ThreadAt(v.tags, v.mem, b);
    forall j | 0 <= j < |u.tags| && u.tags[j] == Free ensures ThreadAt(u.tags, u.mem, j) {
      assert ThreadAt(v.tags, v.mem, j);
    }
  }

  lemma UniteCounts(v: View, front: Link)
    requires Shape(v) && Threaded(v) && Counted(v) && CanUnite(v, front) && v.tags[front.pos] == Free
    ensures Counted(Unite(v, front))
  {
    var f, b := front.pos, v.mem[front.pos].next.pos;
    var u := Unite(v, front);
    assert ThreadAt(v.tags, v.mem, f);
    assert ChunkAt(v.tags, v.mem, b);
    var sum := v.mem[f].blocks + v.mem[b].blocks;
    var w := Weights(v.tags, v.mem, Free);
    SumUpdate(w, f, sum);
    SumUpdate(w[f := sum], b, 0);
    assert Weights(u.tags, u.mem, Free) == w[f := sum][b := 0];
    assert Weights(u.tags, u.mem, Used) == Weights(v.tags, v.mem, Used);
  }

  /** Storing the link from the left before or after uniting to the right makes no difference. */
  lemma RelinkUniteCommute(v: View, front: Link, prev: Link)
    requires |v.mem| == |v.tags|
    requires prev.At? ==> front.At? && prev.pos < front.pos
    requires CanUnite(v, front) ==> v.mem[front.pos].next.pos > front.pos
    ensures Relink(Unite(v, front), prev, front) == Unite(Relink(v, prev, front), front)
  {
    var x, y := Relink(Unite(v, front), prev, front), Unite(Relink(v, prev, front), front);
    assert x.mem == y.mem;
  }

  /** Linking first and uniting afterwards gives what insert_chunk_to_tiny_small_zone computes. */
  lemma InsertIsLinkThenUnite(v: View, c: nat)
    requires |v.mem| == |v.tags| && HeaderAt(v, c)
    ensures var l := Unite(LinkIn(v, c), At(c));
            var left := PrevFree(v.tags, c);
            Insert(MarkFree(v, c), c) == Unite(l, left).(freePrev := if CanUnite(l, left) then left else At(c))
  {
    NeighboursStay(v, c);
    RelinkUniteCommute(Dangling(MarkFree(v, c), c), At(c), PrevFree(v.tags, c));
  }

  predicate JoinsRight(v: View, c: nat)
    requires HeaderAt(v, c)
  {
    NextFree(v.tags, c + 1) == At(c + v.mem[c].blocks)
  }

  predicate JoinsLeft(v: View, c: nat)
    requires HeaderAt(v, c)
  {
    var left := PrevFree(v.tags, c);
    left.At? && HeaderAt(v, left.pos) && left.pos + v.mem[left.pos].blocks == c
  }

  /** The header at `c` once the chunk has absorbed its right neighbour. */
  function Grown(v: View, c: nat): Cell
    requires HeaderAt(v, c)
  {
    var r := c + v.mem[c].blocks;
    if JoinsRight(v, c) && HeaderAt(v, r) then v.mem[r].(blocks := v.mem[c].blocks + v.mem[r].blocks)
    else v.mem[c].(next := NextFree(v.tags, c + 1))
  }

  /** The heap after `c` is freed, written out: one free chunk made of `c` and of the free chunks it touches. */
  function Coalesce(v: View, c: nat): View
    requires HeaderAt(v, c)
  {
    var left := PrevFree(v.tags, c);
    var r := c + v.mem[c].blocks;
    var h := Grown(v, c);
    var mem := v.mem[c := h];
    v.(
      tags := var t := v.tags[c := if JoinsLeft(v, c) then Body else Free];
              if JoinsRight(v, c) then t[r := Body] else t,
      mem := if left.Null? || !HeaderAt(v, left.pos) then mem
             else if JoinsLeft(v, c) then mem[left.pos := h.(blocks := v.mem[left.pos].blocks + h.blocks)]
             else mem[left.pos := v.mem[left.pos].(next := At(c), flags := 0)],
      frees := if left.Null? then At(c) else v.frees,
      freePrev := if JoinsLeft(v, c) then left else At(c),
      blocksFree := v.blocksFree + v.mem[c].blocks,
      blocksUsed := v.blocksUsed - v.mem[c].blocks)
  }

  /** The freed chunk is counted and has absorbed its right neighbour. */
  function Absorbed(v: View, c: nat): View
    requires HeaderAt(v, c)
  {
    var marked := v.tags[c := Free];
    var r := c + v.mem[c].blocks;
    v.(tags := if JoinsRight(v, c) && r < |marked| then marked[r := Body] else marked,
       mem := v.mem[c := Grown(v, c)],
       freePrev := At(c), blocksFree := v.blocksFree + v.mem[c].blocks, blocksUsed := v.blocksUsed - v.mem[c].blocks)
  }

  lemma UnitesRight(v: View, c: nat)
    requires Shape(v) && HeaderAt(v, c) && v.tags[c] == Used
    ensures Unite(Dangling(MarkFree(v, c), c), At(c)) == Absorbed(v, c)
  {
    NeighboursStay(v, c);
    var right := NextFree(v.tags, c + 1);
    if right.At? { assert ChunkAt(v.tags, v.mem, right.pos); }
  }

  /** Linking `c` behind its free left neighbour `p` and uniting the two. */
  lemma UnitesBehind(w: View, p: nat, c: nat)
    requires HeaderAt(w, p) && HeaderAt(w, c) && p < c
    ensures var f := Relink(w, At(p), At(c));
            && (CanUnite(f, At(p)) <==> p + w.mem[p].blocks == c)
            && Unite(f, At(p)) ==
               if p + w.mem[p].blocks == c then Merged(w, p, c)
               else w.(mem := w.mem[p := w.mem[p].(next := At(c), flags := 0)])
  {
    var f := Relink(w, At(p), At(c));
    assert f == w.(mem := w.mem[p := w.mem[p].(next := At(c), flags := 0)]);
    assert w.mem[p := f.mem[p]][p := w.mem[c]] == w.mem[p := w.mem[c]];
  }

  /** The chunk `c` has become part of the chunk `p` before it. */
  function Merged(w: View, p: nat, c: nat): View
    requires HeaderAt(w, p) && HeaderAt(w, c)
  {
    w.(mem := w.mem[p := w.mem[c].(blocks := w.mem[p].blocks + w.mem[c].blocks)], tags := w.tags[c := Body])
  }

  lemma CoalesceAtFront(v: View, c: nat)
    requires HeaderAt(v, c) && PrevFree(v.tags, c).Null?
    ensures Coalesce(v, c) == Absorbed(v, c).(frees := At(c)) && Absorbed(v, c).freePrev == At(c)
  {
    assert JoinsRight(v, c) ==> c + v.mem[c].blocks < |v.tags|;
    hide PrevFree, NextFree, JoinsRight, Grown;
  }

  lemma LeftNeighbour(v: View, c: nat)
    requires Shape(v) && HeaderAt(v, c) && v.tags[c] == Used && PrevFree(v.tags, c).At?
    ensures var p := PrevFree(v.tags, c).pos; p < c && HeaderAt(v, p)
    ensures var w, p := Absorbed(v, c), PrevFree(v.tags, c).pos;
            && HeaderAt(w, p) && HeaderAt(w, c) && w.mem[p] == v.mem[p] && w.freePrev == At(c)
            && (JoinsLeft(v, c) <==> p + w.mem[p].blocks == c)
  {
    var p := PrevFree(v.tags, c).pos;
    assert ChunkAt(v.tags, v.mem, p);
    assert Grown(v, c).Header?;
    hide PrevFree, NextFree, JoinsRight, Grown, Shape, ChunkAt;
  }

  lemma CoalesceJoins(v: View, c: nat, p: nat)
    requires HeaderAt(v, c) && PrevFree(v.tags, c) == At(p) && p < c && JoinsLeft(v, c) && HeaderAt(Absorbed(v, c), p)
    requires HeaderAt(Absorbed(v, c), c)
    ensures Coalesce(v, c) == Merged(Absorbed(v, c), p, c).(freePrev := At(p))
  {
    assert JoinsRight(v, c) ==> c + v.mem[c].blocks < |v.tags|;
    hide PrevFree, NextFree, JoinsRight, Grown;
    assert Absorbed(v, c).tags[c := Body] == Coalesce(v, c).tags;
  }

  lemma CoalesceLinks(v: View, c: nat, p: nat)
    requires HeaderAt(v, c) && PrevFree(v.tags, c) == At(p) && p < c && !JoinsLeft(v, c) && HeaderAt(Absorbed(v, c), p)
    requires HeaderAt(v, p)
    ensures var w := Absorbed(v, c); Coalesce(v, c) == w.(mem := w.mem[p := w.mem[p].(next := At(c), flags := 0)])
  {
    assert JoinsRight(v, c) ==> c + v.mem[c].blocks < |v.tags|;
    hide PrevFree, NextFree, JoinsRight, Grown;
  }

  lemma UnitesLeft(v: View, c: nat)
    requires Shape(v) && HeaderAt(v, c) && v.tags[c] == Used
    ensures var left := PrevFree(v.tags, c);
            var f := Relink(Absorbed(v, c), left, At(c));
            Unite(f, left).(freePrev := if CanUnite(f, left) then left else At(c)) == Coalesce(v, c)
  {
    var w, left := Absorbed(v, c), PrevFree(v.tags, c);
    hide Shape, PrevFree, Absorbed, Coalesce, JoinsLeft, Merged, Unite, CanUnite;
    if left.At? {
      hide Relink;
      LeftNeighbour(v, c);
      UnitesBehind(w, left.pos, c);
      if JoinsLeft(v, c) { CoalesceJoins(v, c, left.pos); } else { CoalesceLinks(v, c, left.pos); }
    } else {
      CoalesceAtFront(v, c);
      UnitesNothing(Relink(w, left, At(c)));
    }
  }

  lemma UnitesNothing(w: View)
    ensures !CanUnite(w, Null) && Unite(w, Null) == w
  {
  }

  lemma InsertCoalesces(v: View, c: nat)
    requires Shape(v) && HeaderAt(v, c) && v.tags[c] == Used
    ensures Insert(MarkFree(v, c), c) == Coalesce(v, c)
  {
    hide Shape, Unite, Dangling, Relink, Absorbed, Coalesce, CanUnite, PrevFree;
    UnitesRight(v, c);
    UnitesLeft(v, c);
    NeighboursStay(v, c);
  }

  lemma CoalesceKeepsCore(v: View, c: nat)
    requires Core(v) && HeaderAt(v, c) && v.tags[c] == Used
    ensures Core(Coalesce(v, c))
  {
    CoalesceThreads(v, c);
    assert Rover(Coalesce(v, c));
  }

  lemma LinkedInTags(v: View, c: nat)
    requires HeaderAt(v, c) && |v.tags| == |v.mem|
    ensures var k, left := LinkIn(v, c), PrevFree(v.tags, c);
            c < |k.tags| == |v.tags| && k.tags[c] == Free && (left.At? ==> left.pos < c && k.tags[left.pos] == Free)
  {
  }

  lemma CoalesceThreads(v: View, c: nat)
    requires Core(v) && HeaderAt(v, c) && v.tags[c] == Used
    ensures var u := Coalesce(v, c); Shape(u) && Threaded(u) && Counted(u)
  {
    InsertCoalesces(v, c);
    InsertIsLinkThenUnite(v, c);
    LinkInShape(v, c);
    LinkInThreads(v, c);
    LinkInCounts(v, c);
    LinkedInTags(v, c);
    hide Core, LinkIn, Insert, Coalesce, MarkFree, PrevFree, NextFree, Unite, CanUnite, ChunkAt, ThreadAt;
    var k, left := LinkIn(v, c), PrevFree(v.tags, c);
    UniteKeeps(k, At(c));
    assert left.At? ==> Unite(k, At(c)).tags[..c][left.pos] == k.tags[..c][left.pos];
    UniteKeeps(Unite(k, At(c)), left);
  }

  lemma UniteKeeps(v: View, front: Link)
    requires Shape(v) && Threaded(v) && Counted(v)
    requires front.At? ==> front.pos < |v.tags| && v.tags[front.pos] == Free
    ensures var u := Unite(v, front); Shape(u) && Threaded(u) && Counted(u)
    ensures front.At? ==> Unite(v, front).tags[..front.pos] == v.tags[..front.pos]
  {
    if front.At? { assert ThreadAt(v.tags, v.mem, front.pos); }
    if CanUnite(v, front) {
      UniteShape(v, front);
      UniteThreads(v, front);
      UniteCounts(v, front);
    }
  }

  /** The freed chunk joins its left neighbour exactly if a free chunk ends where it begins. */
  lemma JoinsLeftIff(v: View, c: nat)
    requires Shape(v) && HeaderAt(v, c) && v.tags[c] == Used
    ensures forall j :: 0 <= j < c && v.tags[j] == Free && v.mem[j].Header? && j + v.mem[j].blocks == c ==>
      JoinsLeft(v, c) && PrevFree(v.tags, c) == At(j)
    ensures PrevFree(v.tags, c).At? ==> PrevFree(v.tags, c).pos < c && v.tags[PrevFree(v.tags, c).pos] == Free
  {
    forall j | 0 <= j < c && v.tags[j] == Free && v.mem[j].Header? && j + v.mem[j].blocks == c
      ensures PrevFree(v.tags, c) == At(j) {
      assert ChunkAt(v.tags, v.mem, j);
      PrevFreeUnique(v.tags, c, At(j));
    }
  }

  /** It joins its right neighbour exactly if the chunk behind it is free. */
  lemma JoinsRightIff(v: View, c: nat)
    requires Shape(v) && HeaderAt(v, c) && v.tags[c] == Used
    ensures var r := c + v.mem[c].blocks; JoinsRight(v, c) <==> r < |v.tags| && v.tags[r] == Free
  {
    var r := c + v.mem[c].blocks;
    assert ChunkAt(v.tags, v.mem, c);
    if r < |v.tags| && v.tags[r] == Free { NextFreeUnique(v.tags, c + 1, At(r)); }
  }

  lemma CoalesceSealedAt(v: View, c: nat, j: nat)
    requires Shape(v) && Coalesced(v) && HeaderAt(v, c) && v.tags[c] == Used && j < |v.tags|
    requires Coalesce(v, c).tags[j] == Free && Coalesce(v, c).mem[j].Header?
    ensures SealedAt(Coalesce(v, c).tags, Coalesce(v, c).mem, j)
  {
    hide PrevFree, NextFree, IsPrevFree, IsNextFree, JoinsRight;
    var r := c + v.mem[c].blocks;
    JoinsLeftIff(v, c);
    JoinsRightIff(v, c);
    assert ChunkAt(v.tags, v.mem, c);
    if r < |v.tags| { assert ChunkAt(v.tags, v.mem, r); }
    if r < |v.tags| && v.tags[r] == Free { assert SealedAt(v.tags, v.mem, r); }
    if j != c { assert ChunkAt(v.tags, v.mem, j) && SealedAt(v.tags, v.mem, j); }
  }

  lemma CoalesceSeals(v: View, c: nat)
    requires Shape(v) && Coalesced(v) && HeaderAt(v, c) && v.tags[c] == Used
    ensures |Coalesce(v, c).tags| == |Coalesce(v, c).mem| && Coalesced(Coalesce(v, c))
  {
    var u := Coalesce(v, c);
    assert |u.tags| == |u.mem| == |v.tags|;
    hide Coalesce;
    forall j | 0 <= j < |u.tags| && u.tags[j] == Free && u.mem[j].Header? ensures SealedAt(u.tags, u.mem, j) {
      CoalesceSealedAt(v, c, j);
    }
  }

  lemma CoalesceClasses(v: View, c: nat, class_: ZoneType)
    requires Core(v) && HeaderAt(v, c) && v.tags[c] == Used && FreeMin(class_) <= v.mem[c].blocks
    requires ClassedBut(v, c, class_)
    ensures Classed(Coalesce(v, c), class_)
  {
  }

  /** The invariant reads no cell but the headers of chunks. */
  ghost predicate SameHeaders(tags: seq<Tag>, mem: seq<Cell>, mem': seq<Cell>) {
    |mem| == |mem'| == |tags| && forall i :: 0 <= i < |tags| && tags[i] != Body ==> mem'[i] == mem[i]
  }

  lemma SameHeadersAt(v: View, mem: seq<Cell>, i: nat)
    requires Core(v) && Coalesced(v) && SameHeaders(v.tags, v.mem, mem) && i < |v.tags| && v.tags[i] != Body
    ensures ChunkAt(v.tags, mem, i)
    ensures v.tags[i] == Free ==> ThreadAt(v.tags, mem, i) && SealedAt(v.tags, mem, i)
  {
    assert ChunkAt(v.tags, v.mem, i);
    if v.tags[i] == Free { assert ThreadAt(v.tags, v.mem, i) && SealedAt(v.tags, v.mem, i); }
  }

  lemma SameHeadersShape(v: View, mem: seq<Cell>)
    requires Core(v) && Coalesced(v) && SameHeaders(v.tags, v.mem, mem)
    ensures var u := v.(mem := mem); Shape(u) && Threaded(u) && Coalesced(u)
  {
    forall i | 0 <= i < |v.tags| && v.tags[i] != Body
      ensures ChunkAt(v.tags, mem, i)
      ensures v.tags[i] == Free ==> ThreadAt(v.tags, mem, i) && SealedAt(v.tags, mem, i) {
      SameHeadersAt(v, mem, i);
    }
    hide ChunkAt, ThreadAt, SealedAt;
  }

  /** Cells that are not headers of chunks may hold anything. */
  lemma BodiesAreFree(v: View, mem: seq<Cell>, class_: ZoneType)
    requires Inv(v, class_) && SameHeaders(v.tags, v.mem, mem)
    ensures Inv(v.(mem := mem), class_)
  {
    SameHeadersShape(v, mem);
    assert Weights(v.tags, mem, Free) == Weights(v.tags, v.mem, Free);
    assert Weights(v.tags, mem, Used) == Weights(v.tags, v.mem, Used);
    hide Shape, Threaded, Coalesced;
  }

  lemma FreeKeepsInv(v: View, c: nat, fill: Option<Cell>, class_: ZoneType)
    requires Core(v) && Coalesced(v) && HeaderAt(v, c) && v.tags[c] == Used && FreeMin(class_) <= v.mem[c].blocks
    requires ClassedBut(v, c, class_)
    ensures FreeLocked(v, c, fill) == Scribble(Coalesce(v, c), c, fill)
    ensures Inv(FreeLocked(v, c, fill), class_)
  {
    var u := Coalesce(v, c);
    InsertCoalesces(v, c);
    CoalesceKeepsCore(v, c);
    CoalesceSeals(v, c);
    CoalesceClasses(v, c, class_);
    FilledPartIsBody(v, c);
    BodiesAreFree(u, Scribble(u, c, fill).mem, class_);
  }

  /** The fill of a free covers at least the whole body of the freed chunk. */
  lemma FreeFills(v: View, c: nat, cell: Cell, j: nat)
    requires Shape(v) && HeaderAt(v, c) && v.tags[c] == Used && c < j < c + v.mem[c].blocks
    ensures j < |FreeLocked(v, c, Some(cell)).mem| && FreeLocked(v, c, Some(cell)).mem[j] == cell
  {
    assert ChunkAt(v.tags, v.mem, c);
    InsertCoalesces(v, c);
    hide Insert;
  }

  lemma FilledPartIsBody(v: View, c: nat)
    requires Shape(v) && HeaderAt(v, c) && v.tags[c] == Used
    ensures var u := Coalesce(v, c); HeaderAt(u, c) && forall j :: c < j < c + u.mem[c].blocks && j < |u.tags| ==>
            u.tags[j] == Body
  {
    assert ChunkAt(v.tags, v.mem, c);
    if JoinsRight(v, c) { assert ChunkAt(v.tags, v.mem, c + v.mem[c].blocks); }
  }
}
