/**
  What the invariant means: block accounting, the release test, the free list, and that the bitmaps determine the rest.
*/
module ZoneTheorems {
  import opened Sizes
  import opened Wrappers
  import opened ZoneModel
  import opened ZoneAlloc
  import opened ZoneFree

  // ---------------------------------------------------------------- accounting

  lemma {:induction false} SumAppend(a: seq<int>, b: seq<int>)
    ensures Sum(a + b) == Sum(a) + Sum(b)
  {
    if a == [] {
      assert a + b == b;
    } else {
      assert (a + b)[1..] == a[1..] + b;
      SumAppend(a[1..], b);
    }
  }

  lemma {:induction false} SumZero(w: seq<int>)
    requires forall i :: 0 <= i < |w| ==> w[i] == 0
    ensures Sum(w) == 0
  {
    if w != [] { SumZero(w[1..]); }
  }

  lemma {:induction false} SumNonNegative(w: seq<int>)
    requires forall i :: 0 <= i < |w| ==> w[i] >= 0
    ensures forall i :: 0 <= i < |w| ==> w[i] <= Sum(w)
    ensures Sum(w) >= 0
  {
    if w != [] {
      SumNonNegative(w[1..]);
      forall i | 0 <= i < |w| ensures w[i] <= Sum(w) {
        if i > 0 { assert w[i] == w[1..][i - 1]; }
      }
    }
  }

  /** A stretch of weights that is zero but for its first entry. */
  lemma SumChunk(w: seq<int>, i: nat, b: nat)
    requires 1 <= b && i + b <= |w|
    requires forall j :: i < j < i + b ==> w[j] == 0
    ensures Sum(w[i..]) == w[i] + Sum(w[i + b..])
  {
    var head, rest := w[i..i + b], w[i + b..];
    assert w[i..] == head + rest;
    SumAppend(head, rest);
    SumZero(head[1..]);
  }

  lemma {:induction false} BlocksFrom(v: View, i: nat)
    requires Shape(v) && i <= |v.tags| && (i < |v.tags| ==> v.tags[i] != Body)
    ensures Sum(Weights(v.tags, v.mem, Free)[i..]) + Sum(Weights(v.tags, v.mem, Used)[i..]) == |v.tags| - i
    decreases |v.tags| - i
  {
    if i < |v.tags| {
      assert ChunkAt(v.tags, v.mem, i);
      var b := v.mem[i].blocks;
      SumChunk(Weights(v.tags, v.mem, Free), i, b);
      SumChunk(Weights(v.tags, v.mem, Used), i, b);
      assert Weights(v.tags, v.mem, Free)[i] + Weights(v.tags, v.mem, Used)[i] == b;
      hide Sum, Weights, Shape;
      BlocksFrom(v, i + b);
    }
  }

  /** blocks_free + blocks_used is the number of blocks of the heap, and neither is negative. */
  lemma BlocksAddUp(v: View)
    requires Core(v)
    ensures v.blocksFree + v.blocksUsed == |v.tags|
    ensures 0 <= v.blocksFree && 0 <= v.blocksUsed
    ensures forall i :: 0 <= i < |v.tags| && v.tags[i] == Free && v.mem[i].Header? ==> v.mem[i].blocks <= v.blocksFree
    ensures forall i :: 0 <= i < |v.tags| && v.tags[i] == Used && v.mem[i].Header? ==> v.mem[i].blocks <= v.blocksUsed
  {
    BlocksFrom(v, 0);
    var f, w := Weights(v.tags, v.mem, Free), Weights(v.tags, v.mem, Used);
    assert f[0..] == f && w[0..] == w;
    SumNonNegative(f);
    SumNonNegative(w);
    forall i | 0 <= i < |v.tags| && v.tags[i] == Free && v.mem[i].Header? ensures v.mem[i].blocks <= v.blocksFree {
      assert f[i] == v.mem[i].blocks;
    }
    forall i | 0 <= i < |v.tags| && v.tags[i] == Used && v.mem[i].Header? ensures v.mem[i].blocks <= v.blocksUsed {
      assert w[i] == v.mem[i].blocks;
    }
  }

  /** The test of release_entirely_free_zone: all blocks are free exactly when one free chunk is the whole heap. */
  lemma EntirelyFree(v: View, class_: ZoneType)
    requires Inv(v, class_)
    ensures v.blocksFree == |v.tags| <==>
            v.frees == At(0) && v.mem[0].Header? && v.mem[0].blocks == |v.tags| && v.mem[0].next == Null
    ensures v.blocksFree == |v.tags| <==> forall i :: 0 <= i < |v.tags| ==> v.tags[i] != Used
  {
    BlocksAddUp(v);
    assert ChunkAt(v.tags, v.mem, 0);
    forall i | 0 <= i < |v.tags| && v.tags[i] == Used ensures v.mem[i].Header? && 2 <= v.mem[i].blocks {
      assert ChunkAt(v.tags, v.mem, i);
    }
    if forall i :: 0 <= i < |v.tags| ==> v.tags[i] != Used {
      assert SealedAt(v.tags, v.mem, 0);
      assert ThreadAt(v.tags, v.mem, 0);
      assert v.mem[0].blocks == |v.tags|;
      SumZero(Weights(v.tags, v.mem, Used));
    }
    if v.frees == At(0) && v.mem[0].blocks == |v.tags| {
      forall i | 0 < i < |v.tags| ensures v.tags[i] == Body {}
    }
  }

  // ---------------------------------------------------------------- the bitmaps determine the rest

  lemma HeadersAgree(v: View, w: View, i: nat)
    requires Core(v) && Core(w) && v.tags == w.tags && i < |v.tags| && v.tags[i] != Body
    ensures HeaderAt(v, i) && HeaderAt(w, i) && v.mem[i].blocks == w.mem[i].blocks
    ensures v.tags[i] == Free ==> v.mem[i] == w.mem[i]
  {
    assert ChunkAt(v.tags, v.mem, i);
    assert ChunkAt(w.tags, w.mem, i);
    var a, b := i + v.mem[i].blocks, i + w.mem[i].blocks;
    assert a < |v.tags| ==> v.tags[a] != Body;
    assert b < |w.tags| ==> w.tags[b] != Body;
    if v.tags[i] == Free {
      assert ThreadAt(v.tags, v.mem, i);
      assert ThreadAt(w.tags, w.mem, i);
      NextFreeUnique(v.tags, i + 1, v.mem[i].next);
      NextFreeUnique(v.tags, i + 1, w.mem[i].next);
    }
  }

  lemma BitmapsDetermineZone(v: View, w: View)
    requires Core(v) && Core(w) && v.tags == w.tags
    ensures v.frees == w.frees && v.blocksFree == w.blocksFree && v.blocksUsed == w.blocksUsed
    ensures forall i :: 0 <= i < |v.tags| && v.tags[i] != Body ==>
            HeaderAt(v, i) && HeaderAt(w, i) && v.mem[i].blocks == w.mem[i].blocks
    ensures forall i :: 0 <= i < |v.tags| && v.tags[i] == Free ==> v.mem[i] == w.mem[i]
  {
    NextFreeUnique(v.tags, 0, v.frees);
    NextFreeUnique(v.tags, 0, w.frees);
    forall i | 0 <= i < |v.tags| && v.tags[i] != Body
      ensures HeaderAt(v, i) && HeaderAt(w, i) && v.mem[i].blocks == w.mem[i].blocks
      ensures v.tags[i] == Free ==> v.mem[i] == w.mem[i] {
      HeadersAgree(v, w, i);
    }
    assert Weights(v.tags, v.mem, Free) == Weights(w.tags, w.mem, Free);
    assert Weights(v.tags, v.mem, Used) == Weights(w.tags, w.mem, Used);
  }

  // ---------------------------------------------------------------- the free list

  /** The blocks met by following `next` from `l`. */
  function Walk(mem: seq<Cell>, l: Link): seq<nat>
    decreases if l.At? then |mem| - l.pos else 0
  {
    if l.Null? || l.pos >= |mem| || !mem[l.pos].Header? then []
    else if mem[l.pos].next.At? && mem[l.pos].next.pos <= l.pos then [l.pos]
    else [l.pos] + Walk(mem, if mem[l.pos].next.At? && mem[l.pos].next.pos < |mem| then mem[l.pos].next else Null)
  }

  /** The free chunks at or after `i`, in address order. */
  function FreeHeads(tags: seq<Tag>, i: nat): seq<nat>
    requires i <= |tags|
    decreases |tags| - i
  {
    if i == |tags| then [] else (if tags[i] == Free then [i] else []) + FreeHeads(tags, i + 1)
  }

  lemma {:induction false} FreeHeadsSkip(tags: seq<Tag>, i: nat, l: Link)
    requires i <= |tags| && IsNextFree(tags, i, l)
    ensures FreeHeads(tags, i) == if l.Null? then [] else FreeHeads(tags, l.pos)
    decreases |tags| - i
  {
    if i < |tags| && tags[i] != Free {
      assert l.At? ==> l.pos != i;
      FreeHeadsSkip(tags, i + 1, l);
    }
  }

  lemma {:induction false} WalkFrom(v: View, i: nat, l: Link)
    requires Core(v) && i <= |v.tags| && IsNextFree(v.tags, i, l)
    ensures Walk(v.mem, l) == FreeHeads(v.tags, i)
    decreases |v.tags| - i
  {
    FreeHeadsSkip(v.tags, i, l);
    if l.At? {
      var p := l.pos;
      assert ThreadAt(v.tags, v.mem, p);
      assert FreeHeads(v.tags, p) == [p] + FreeHeads(v.tags, p + 1);
      WalkUnfolds(v.mem, p);
      hide Walk, FreeHeads, Core;
      WalkFrom(v, p + 1, v.mem[p].next);
    }
  }

  lemma WalkUnfolds(mem: seq<Cell>, p: nat)
    requires p < |mem| && mem[p].Header? && (mem[p].next.At? ==> p < mem[p].next.pos < |mem|)
    ensures Walk(mem, At(p)) == [p] + Walk(mem, mem[p].next)
  {
  }

  /** The free list holds exactly the free chunks, in ascending order. */
  lemma FreeListIsFreeHeads(v: View)
    requires Core(v)
    ensures Walk(v.mem, v.frees) == FreeHeads(v.tags, 0)
  {
    WalkFrom(v, 0, v.frees);
  }

  // ---------------------------------------------------------------- next fit

  /** A free chunk serves a request if it has just the blocks, or enough for a rest that could be a live chunk. */
  lemma FitsExactly(v: View, i: nat, needed: nat, class_: ZoneType)
    requires Inv(v, class_) && i < |v.tags| && v.tags[i] == Free
    requires class_ != LARGE && 1 <= needed <= SMALL_MAX_BLOCKS && ZoneTypeForBytes(needed * UNIT) == class_
    requires |v.tags| * UNIT < WORD
    ensures v.mem[i].Header?
    ensures Fits(v, i, needed) <==> v.mem[i].blocks == needed + 1 || needed + 1 + LiveMin(class_) <= v.mem[i].blocks
  {
    assert ChunkAt(v.tags, v.mem, i);
    SeparatableExactly(class_, v.mem[i].blocks, needed);
    hide Separatable, ZoneTypeForBytes, Core, Coalesced, Classed;
  }

  ghost predicate NoFit(v: View, needed: nat, lo: nat, hi: nat) {
    forall j :: lo <= j < hi ==> !Fits(v, j, needed)
  }

  /**
    The answer to a request: the lowest chunk that fits behind `freePrev`, if there is one, and otherwise the lowest
    of all that fit.
  */
  ghost predicate IsNextFit(v: View, needed: nat, l: Link) {
    match l
    case Null => NoFit(v, needed, 0, |v.tags|)
    case At(p) =>
      && p < |v.tags| && Fits(v, p, needed)
      && if v.freePrev.At? && v.freePrev.pos < p then NoFit(v, needed, v.freePrev.pos + 1, p)
         else NoFit(v, needed, 0, p) && (v.freePrev.At? ==> NoFit(v, needed, v.freePrev.pos + 1, |v.tags|))
  }

  lemma NextFitUnique(v: View, needed: nat, l: Link, m: Link)
    requires IsNextFit(v, needed, l) && IsNextFit(v, needed, m)
    ensures l == m
  {
    hide Fits;
    if l.At? && m.At? { assert !(l.pos < m.pos) && !(m.pos < l.pos); }
  }

  lemma SomeFree(v: View)
    requires Core(v) && v.blocksFree > 0
    ensures v.frees.At? && v.frees.pos < |v.tags| && v.tags[v.frees.pos] == Free
  {
    if v.frees.Null? { SumZero(Weights(v.tags, v.mem, Free)); }
  }

  /** The first free chunk behind `freePrev`, or the first of all if there is none. */
  function FirstLooked(v: View): Link {
    if v.freePrev.At? && v.freePrev.pos < |v.tags| && NextFree(v.tags, v.freePrev.pos + 1).At?
    then NextFree(v.tags, v.freePrev.pos + 1) else NextFree(v.tags, 0)
  }

  lemma SearchStartIs(v: View)
    requires Core(v) && v.blocksFree > 0
    ensures FirstLooked(v) == At(SearchStart(v)) && SearchStart(v) < |v.tags| && v.tags[SearchStart(v)] == Free
    ensures v.frees.At? && v.frees.pos < |v.tags| && v.tags[v.frees.pos] == Free
  {
    SomeFree(v);
    NextFreeUnique(v.tags, 0, v.frees);
    if v.freePrev.At? {
      assert ThreadAt(v.tags, v.mem, v.freePrev.pos);
      NextFreeUnique(v.tags, v.freePrev.pos + 1, v.mem[v.freePrev.pos].next);
    }
    hide Shape, Counted;
  }

  lemma TooBig(v: View, needed: nat)
    requires Core(v) && v.blocksFree < needed + 1
    ensures NoFit(v, needed, 0, |v.tags|)
  {
    BlocksAddUp(v);
    hide Core, ZoneTypeForBytes;
  }

  /** The search of try_allocate_chunk_from_zone, said without a walk. */
  lemma NextFitIs(v: View, needed: nat)
    requires Core(v)
    ensures IsNextFit(v, needed, NextFit(v, needed))
  {
    if v.blocksFree < needed + 1 {
      TooBig(v, needed);
    } else {
      SearchStartIs(v);
      var start := SearchStart(v);
      assert NoFit(v, needed, start, |v.tags|) || FirstFit(v, needed, start, |v.tags|).At?;
      hide SearchStart, Shape, Threaded, Counted, Exhaustible, Separatable, HeaderAt;
    }
  }

  /** An allocation leaves the rover at the front of the list. */
  lemma RoverAfterTake(v: View, i: nat, needed: nat)
    requires Core(v) && Fits(v, i, needed) && 1 <= needed && i + v.mem[i].blocks <= |v.tags|
    ensures var u := Take(v, i, needed); u.freePrev == NextFree(u.tags, 0)
  {
    TakeKeepsCore(v, i, needed);
    var u := Take(v, i, needed);
    NextFreeUnique(u.tags, 0, u.frees);
    if !Exhaustible(v.mem[i].blocks, needed) { SeparableRest(v.mem[i].blocks, needed); }
    hide Relink, Core;
  }

  /** A free leaves the rover at the free chunk that the freed blocks are part of. */
  lemma RoverAfterFree(v: View, c: nat, fill: Option<Cell>)
    requires Shape(v) && HeaderAt(v, c) && v.tags[c] == Used
    ensures var u := FreeLocked(v, c, fill);
            && u.freePrev.At? && u.freePrev.pos <= c && HeaderAt(u, u.freePrev.pos) && u.tags[u.freePrev.pos] == Free
            && c + v.mem[c].blocks <= u.freePrev.pos + u.mem[u.freePrev.pos].blocks
  {
    InsertCoalesces(v, c);
    GrownCovers(v, c);
    hide Insert, NextFree, JoinsRight, Grown;
    var left := PrevFree(v.tags, c);
    if left.At? { assert ChunkAt(v.tags, v.mem, left.pos); }
    hide Shape, PrevFree;
  }

  lemma GrownCovers(v: View, c: nat)
    requires Shape(v) && HeaderAt(v, c) && v.tags[c] == Used
    ensures Grown(v, c).Header? && v.mem[c].blocks <= Grown(v, c).blocks
    ensures JoinsRight(v, c) ==> c + v.mem[c].blocks < |v.tags|
  {
    if JoinsRight(v, c) { assert ChunkAt(v.tags, v.mem, c + v.mem[c].blocks); }
  }
}
