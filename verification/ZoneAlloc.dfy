/**
  Allocation in a zone: exact fit, split, and the next-fit search keep the invariant of `ZoneModel`.
*/
module ZoneAlloc {
  import opened Sizes
  import opened ZoneModel

  lemma {:induction false} SumUpdate(w: seq<int>, i: nat, x: int)
    requires i < |w|
    ensures Sum(w[i := x]) == Sum(w) - w[i] + x
  {
    if i == 0 {
      assert w[i := x][1..] == w[1..];
    } else {
      assert w[i := x][1..] == w[1..][i - 1 := x];
      SumUpdate(w[1..], i - 1, x);
    }
  }

  /** Storing a link changes no size, no flag but to 0, and no other header. */
  lemma RelinkKeepsSizes(v: View, prev: Link, l: Link)
    ensures var u := Relink(v, prev, l);
            && |u.mem| == |v.mem|
            && (forall j :: 0 <= j < |v.mem| && prev != At(j) ==> u.mem[j] == v.mem[j])
            && (forall j :: 0 <= j < |v.mem| && v.mem[j].Header? ==>
              u.mem[j].Header? && u.mem[j].blocks == v.mem[j].blocks && (v.mem[j].flags == 0 ==> u.mem[j].flags == 0))
  {
  }

  lemma ExhaustShape(v: View, i: nat)
    requires Shape(v) && HeaderAt(v, i) && v.tags[i] == Free
    ensures Shape(Exhaust(v, i))
  {
    var u := Exhaust(v, i);
    forall j | 0 <= j < |u.tags| && u.tags[j] != Body ensures ChunkAt(u.tags, u.mem, j) {
      assert ChunkAt(v.tags, v.mem, j);
    }
  }

  lemma ExhaustThreads(v: View, i: nat)
    requires Shape(v) && Threaded(v) && HeaderAt(v, i) && v.tags[i] == Free
    ensures Threaded(Exhaust(v, i))
  {
    var u := Exhaust(v, i);
    var prev := PrevFree(v.tags, i);
    assert ThreadAt(v.tags, v.mem, i);
    if prev.At? { assert ThreadAt(v.tags, v.mem, prev.pos); }
    forall j | 0 <= j < |u.tags| && u.tags[j] == Free ensures ThreadAt(u.tags, u.mem, j) {
      assert ThreadAt(v.tags, v.mem, j);
    }
  }

  lemma ExhaustCounts(v: View, i: nat)
    requires Core(v) && HeaderAt(v, i) && v.tags[i] == Free
    ensures Counted(Exhaust(v, i))
  {
    var u := Exhaust(v, i);
    var f, w := Weights(v.tags, v.mem, Free), Weights(v.tags, v.mem, Used);
    SumUpdate(f, i, 0);
    SumUpdate(w, i, v.mem[i].blocks);
    assert Weights(u.tags, u.mem, Free) == f[i := 0];
    assert Weights(u.tags, u.mem, Used) == w[i := v.mem[i].blocks];
  }

  lemma SeparateShape(v: View, i: nat, whole: nat)
    requires Shape(v) && HeaderAt(v, i) && v.tags[i] == Free
    requires 2 <= whole && whole + 2 <= v.mem[i].blocks && i + whole < |v.mem|
    ensures Shape(Separate(v, i, whole))
  {
    var u := Separate(v, i, whole);
    assert ChunkAt(v.tags, v.mem, i);
    forall j | 0 <= j < |u.tags| && u.tags[j] != Body ensures ChunkAt(u.tags, u.mem, j) {
      SeparateChunk(v, i, whole, j);
    }
    hide Separate;
  }

  lemma SeparateChunk(v: View, i: nat, whole: nat, j: nat)
    requires Shape(v) && HeaderAt(v, i) && v.tags[i] == Free
    requires 2 <= whole && whole + 2 <= v.mem[i].blocks && i + whole < |v.mem|
    requires j < |v.tags| && Separate(v, i, whole).tags[j] != Body
    ensures |Separate(v, i, whole).mem| == |v.tags| && ChunkAt(Separate(v, i, whole).tags, Separate(v, i, whole).mem, j)
  {
    hide PrevFree, IsPrevFree;
    assert ChunkAt(v.tags, v.mem, i);
    if j != i + whole { assert ChunkAt(v.tags, v.mem, j); }
    var h := v.mem[i];
    var cut := v.(mem := v.mem[i := h.(blocks := whole)][i + whole := h.(blocks := h.blocks - whole)]);
    RelinkKeepsSizes(cut, PrevFree(v.tags, i), At(i + whole));
    hide Relink;
  }

  lemma SeparateThreads(v: View, i: nat, whole: nat)
    requires Shape(v) && Threaded(v) && HeaderAt(v, i) && v.tags[i] == Free
    requires 2 <= whole && whole + 2 <= v.mem[i].blocks && i + whole < |v.mem|
    ensures Threaded(Separate(v, i, whole))
  {
    var u := Separate(v, i, whole);
    var prev := PrevFree(v.tags, i);
    assert ChunkAt(v.tags, v.mem, i);
    assert ThreadAt(v.tags, v.mem, i);
    if prev.At? { assert ThreadAt(v.tags, v.mem, prev.pos); }
    forall j | 0 <= j < |u.tags| && u.tags[j] == Free ensures ThreadAt(u.tags, u.mem, j) {
      if j != i + whole { assert ThreadAt(v.tags, v.mem, j); }
    }
  }

  lemma SeparateWeight(v: View, i: nat, whole: nat, j: nat)
    requires Shape(v) && i < |v.tags| && v.tags[i] == Free && HeaderAt(v, i)
    requires 2 <= whole && whole + 2 <= v.mem[i].blocks && i + whole < |v.mem| && j < |v.tags|
    ensures var u := Separate(v, i, whole);
            && |u.mem| == |u.tags| == |v.tags|
            && Weight(u.tags[j], u.mem[j], Free) ==
               (if j == i then 0 else if j == i + whole then v.mem[i].blocks - whole
                                                     else Weight(v.tags[j], v.mem[j], Free))
            && Weight(u.tags[j], u.mem[j], Used) == if j == i then whole else Weight(v.tags[j], v.mem[j], Used)
  {
    assert ChunkAt(v.tags, v.mem, i);
    var h := v.mem[i];
    var cut := v.(mem := v.mem[i := h.(blocks := whole)][i + whole := h.(blocks := h.blocks - whole)]);
    RelinkKeepsSizes(cut, PrevFree(v.tags, i), At(i + whole));
    hide Relink;
  }

  lemma SeparateWeights(v: View, i: nat, whole: nat)
    requires Shape(v) && i < |v.tags| && v.tags[i] == Free && HeaderAt(v, i)
    requires 2 <= whole && whole + 2 <= v.mem[i].blocks && i + whole < |v.mem|
    ensures var u := Separate(v, i, whole);
            && |u.mem| == |u.tags|
            && Weights(u.tags, u.mem, Free) ==
               Weights(v.tags, v.mem, Free)[i := 0][i + whole := v.mem[i].blocks - whole]
            && Weights(u.tags, u.mem, Used) == Weights(v.tags, v.mem, Used)[i := whole]
  {
    hide Separate, Shape, Weight;
    var u := Separate(v, i, whole);
    SeparateWeight(v, i, whole, i);
    forall j | 0 <= j < |v.tags|
      ensures Weight(u.tags[j], u.mem[j], Free) == if j == i then 0 else if j == i + whole then v.mem[i].blocks - whole
                                                   else Weight(v.tags[j], v.mem[j], Free)
      ensures Weight(u.tags[j], u.mem[j], Used) == if j == i then whole else Weight(v.tags[j], v.mem[j], Used) {
      SeparateWeight(v, i, whole, j);
    }
  }

  lemma SeparateCounts(v: View, i: nat, whole: nat)
    requires Shape(v) && Counted(v) && i < |v.tags| && v.tags[i] == Free && HeaderAt(v, i)
    requires 2 <= whole && whole + 2 <= v.mem[i].blocks && i + whole < |v.mem|
    ensures |Separate(v, i, whole).mem| == |Separate(v, i, whole).tags| && Counted(Separate(v, i, whole))
  {
    var u := Separate(v, i, whole);
    assert u.blocksFree == v.blocksFree - whole && u.blocksUsed == v.blocksUsed + whole;
    var f, w := Weights(v.tags, v.mem, Free), Weights(v.tags, v.mem, Used);
    assert f[i] == v.mem[i].blocks && w[i] == 0 && f[i + whole] == 0 by { assert ChunkAt(v.tags, v.mem, i); }
    hide Separate, Shape, Weights, Weight, Sum;
    SeparateWeights(v, i, whole);
    SumUpdate(f, i, 0);
    SumUpdate(f[i := 0], i + whole, v.mem[i].blocks - whole);
    SumUpdate(w, i, whole);
  }

  /** A free chunk can be split if and only if the rest would do as the smallest live chunk of the class. */
  lemma SeparatableExactly(class_: ZoneType, blocks: nat, needed: nat)
    requires class_ != LARGE && 1 <= needed && ZoneTypeForBytes(needed * UNIT) == class_ &&
             needed <= SMALL_MAX_BLOCKS && blocks * UNIT < WORD
    ensures Separatable(blocks, needed) <==> needed + 1 + LiveMin(class_) <= blocks
  {
  }

  lemma SeparableRest(blocks: nat, needed: nat)
    requires Separatable(blocks, needed) && 1 <= needed
    ensures needed + 3 <= blocks
    ensures needed <= SMALL_MAX_BLOCKS && ZoneTypeForBytes(needed * UNIT) == SMALL ==>
            LiveMin(SMALL) <= blocks - (needed + 1)
  {
  }

  lemma ExhaustKeepsCore(v: View, i: nat)
    requires Core(v) && HeaderAt(v, i) && v.tags[i] == Free
    ensures Core(Exhaust(v, i))
  {
    ExhaustShape(v, i);
    ExhaustThreads(v, i);
    ExhaustCounts(v, i);
    assert Exhaust(v, i).freePrev == Exhaust(v, i).frees;
    hide Exhaust;
    FrontIsRover(Exhaust(v, i));
  }

  lemma SeparateKeepsCore(v: View, i: nat, whole: nat)
    requires Core(v) && HeaderAt(v, i) && v.tags[i] == Free
    requires 2 <= whole && whole + 2 <= v.mem[i].blocks && i + whole < |v.mem|
    ensures Core(Separate(v, i, whole))
  {
    SeparateShape(v, i, whole);
    SeparateThreads(v, i, whole);
    SeparateCounts(v, i, whole);
    assert Separate(v, i, whole).freePrev == Separate(v, i, whole).frees;
    hide Separate;
    FrontIsRover(Separate(v, i, whole));
  }

  lemma TakeKeepsCore(v: View, i: nat, needed: nat)
    requires Core(v) && Fits(v, i, needed) && 1 <= needed
    requires i + v.mem[i].blocks <= |v.tags|
    ensures Core(Take(v, i, needed))
  {
    hide Exhaust, Separate, Core;
    if Exhaustible(v.mem[i].blocks, needed) {
      ExhaustKeepsCore(v, i);
    } else {
      SeparableRest(v.mem[i].blocks, needed);
      SeparateKeepsCore(v, i, needed + 1);
    }
  }

  lemma ExhaustRover(v: View, i: nat)
    requires HeaderAt(v, i)
    ensures Exhaust(v, i).freePrev == Exhaust(v, i).frees
  {
  }

  lemma SeparateRover(v: View, i: nat, whole: nat)
    requires HeaderAt(v, i) && 2 <= whole && whole + 2 <= v.mem[i].blocks && i + whole < |v.mem|
    ensures Separate(v, i, whole).freePrev == Separate(v, i, whole).frees
  {
  }

  lemma FrontIsRover(v: View)
    requires |v.mem| == |v.tags| && Threaded(v) && v.freePrev == v.frees
    ensures Rover(v)
  {
  }

  lemma TakeKeepsInv(v: View, i: nat, needed: nat, class_: ZoneType)
    requires Inv(v, class_) && Fits(v, i, needed) && 1 <= needed
    requires class_ != LARGE && needed <= SMALL_MAX_BLOCKS && ZoneTypeForBytes(needed * UNIT) == class_
    requires i + v.mem[i].blocks <= |v.tags|
    ensures Inv(Take(v, i, needed), class_)
  {
    TakeKeepsCore(v, i, needed);
    TakeSeals(v, i, needed);
    TakeClasses(v, i, needed, class_);
  }

  lemma TakeSeals(v: View, i: nat, needed: nat)
    requires Core(v) && Coalesced(v) && Fits(v, i, needed) && 1 <= needed
    requires i + v.mem[i].blocks <= |v.tags|
    ensures Coalesced(Take(v, i, needed))
  {
    hide Coalesced, Exhaust, Separate;
    if Exhaustible(v.mem[i].blocks, needed) {
      ExhaustSeals(v, i);
    } else {
      SeparableRest(v.mem[i].blocks, needed);
      SeparateSeals(v, i, needed + 1);
    }
  }

  lemma ExhaustSeals(v: View, i: nat)
    requires Core(v) && Coalesced(v) && HeaderAt(v, i) && v.tags[i] == Free
    ensures |Exhaust(v, i).mem| == |Exhaust(v, i).tags| && Coalesced(Exhaust(v, i))
  {
    var u := Exhaust(v, i);
    RelinkKeepsSizes(v, PrevFree(v.tags, i), v.mem[i].next);
    hide Relink, Threaded, Counted, Rover;
    forall j | 0 <= j < |u.tags| && u.tags[j] == Free && u.mem[j].Header? ensures SealedAt(u.tags, u.mem, j) {
      assert ChunkAt(v.tags, v.mem, j);
      assert SealedAt(v.tags, v.mem, j);
    }
  }

  lemma SeparateSeals(v: View, i: nat, whole: nat)
    requires Core(v) && Coalesced(v) && HeaderAt(v, i) && v.tags[i] == Free
    requires 2 <= whole && whole + 2 <= v.mem[i].blocks && i + whole < |v.mem|
    ensures |Separate(v, i, whole).mem| == |Separate(v, i, whole).tags| && Coalesced(Separate(v, i, whole))
  {
    var u := Separate(v, i, whole);
    var h := v.mem[i];
    var cut := v.(mem := v.mem[i := h.(blocks := whole)][i + whole := h.(blocks := h.blocks - whole)]);
    RelinkKeepsSizes(cut, PrevFree(v.tags, i), At(i + whole));
    hide Relink, Threaded, Counted, Rover;
    assert ChunkAt(v.tags, v.mem, i) && SealedAt(v.tags, v.mem, i);
    forall j | 0 <= j < |u.tags| && u.tags[j] == Free && u.mem[j].Header? ensures SealedAt(u.tags, u.mem, j) {
      if j != i + whole { assert ChunkAt(v.tags, v.mem, j) && SealedAt(v.tags, v.mem, j); }
    }
  }

  lemma TakeClasses(v: View, i: nat, needed: nat, class_: ZoneType)
    requires Inv(v, class_) && Fits(v, i, needed) && 1 <= needed
    requires class_ != LARGE && needed <= SMALL_MAX_BLOCKS && ZoneTypeForBytes(needed * UNIT) == class_
    requires i + v.mem[i].blocks <= |v.tags|
    ensures Classed(Take(v, i, needed), class_)
  {
    assert LiveMin(class_) <= needed + 1 <= LiveMax(class_);
    hide Classed, Exhaust, Separate, ZoneTypeForBytes, Core, Coalesced;
    if Exhaustible(v.mem[i].blocks, needed) {
      ExhaustClasses(v, i, class_);
    } else {
      SeparableRest(v.mem[i].blocks, needed);
      SeparateClasses(v, i, needed + 1, class_);
    }
  }

  lemma ExhaustClasses(v: View, i: nat, class_: ZoneType)
    requires |v.mem| == |v.tags| && HeaderAt(v, i) && Classed(v, class_) &&
             LiveMin(class_) <= v.mem[i].blocks <= LiveMax(class_)
    ensures |Exhaust(v, i).mem| == |Exhaust(v, i).tags| && Classed(Exhaust(v, i), class_)
  {
    RelinkKeepsSizes(v, PrevFree(v.tags, i), v.mem[i].next);
    hide Relink, LiveMin, LiveMax, FreeMin;
  }

  lemma SeparateClasses(v: View, i: nat, whole: nat, class_: ZoneType)
    requires |v.mem| == |v.tags| && HeaderAt(v, i) && Classed(v, class_) && LiveMin(class_) <= whole <= LiveMax(class_)
    requires 2 <= whole && whole + 2 <= v.mem[i].blocks && i + whole < |v.mem| &&
             FreeMin(class_) <= v.mem[i].blocks - whole
    ensures |Separate(v, i, whole).mem| == |Separate(v, i, whole).tags| && Classed(Separate(v, i, whole), class_)
  {
    var h := v.mem[i];
    var cut := v.(mem := v.mem[i := h.(blocks := whole)][i + whole := h.(blocks := h.blocks - whole)]);
    RelinkKeepsSizes(cut, PrevFree(v.tags, i), At(i + whole));
    hide Relink, LiveMin, LiveMax, FreeMin;
  }

  /** The search can only return a chunk that fits and lies in the heap. */
  lemma NextFitFits(v: View, needed: nat)
    requires Core(v)
    ensures var l := NextFit(v, needed); l.At? ==> Fits(v, l.pos, needed) && l.pos + v.mem[l.pos].blocks <= |v.tags|
    ensures NextFit(v, needed).Null? <==> v.blocksFree < needed + 1 || forall j :: 0 <= j < |v.tags| ==>
            !Fits(v, j, needed)
  {
    var l := NextFit(v, needed);
    if l.At? { assert ChunkAt(v.tags, v.mem, l.pos); }
  }
}
