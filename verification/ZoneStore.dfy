/**
  The contents of live chunks, and what each operation does to them.
*/
module ZoneStore {
  import opened Sizes
  import opened Wrappers
  import opened ZoneModel
  import opened ZoneAlloc
  import opened ZoneFree
  import opened ZoneShrink

  /** The cells a caller may use: those of chunk `i` after its header. */
  function BodyAt(mem: seq<Cell>, i: nat): seq<Cell> {
    if i < |mem| && mem[i].Header? && 1 <= mem[i].blocks && i + mem[i].blocks <= |mem|
    then mem[i + 1..i + mem[i].blocks] else []
  }

  /** What the zone is to its callers: the contents of each live chunk. */
  function Store(tags: seq<Tag>, mem: seq<Cell>): map<nat, seq<Cell>> {
    map i | 0 <= i < |tags| && tags[i] == Used :: BodyAt(mem, i)
  }

  /** Chunks do not overlap. */
  lemma ChunksDisjoint(v: View, i: nat, j: nat)
    requires Shape(v) && i < j < |v.tags| && v.tags[i] != Body && v.tags[j] != Body
    ensures HeaderAt(v, i) && i + v.mem[i].blocks <= j
  {
    assert ChunkAt(v.tags, v.mem, i);
  }

  lemma StoreIs(tags: seq<Tag>, mem: seq<Cell>, m: map<nat, seq<Cell>>)
    requires forall j: nat :: j in m <==> j < |tags| && tags[j] == Used
    requires forall j :: j in m ==> m[j] == BodyAt(mem, j)
    ensures Store(tags, mem) == m
  {
  }

  lemma BodyUntouched(mem: seq<Cell>, mem': seq<Cell>, i: nat)
    requires |mem| == |mem'| && i < |mem| && mem[i].Header? && i + mem[i].blocks <= |mem|
    requires mem'[i].Header? && mem'[i].blocks == mem[i].blocks
    requires forall k :: i < k < i + mem[i].blocks ==> mem'[k] == mem[k]
    ensures BodyAt(mem', i) == BodyAt(mem, i)
  {
  }

  /** The only cells an allocation writes. */
  lemma TakeWrites(v: View, i: nat, needed: nat)
    requires Fits(v, i, needed) && 1 <= needed && i + v.mem[i].blocks <= |v.tags|
    ensures var u := Take(v, i, needed);
            |u.mem| == |v.mem| &&
            forall k :: 0 <= k < |v.mem| && k != i && k != i + needed + 1 && At(k) != PrevFree(v.tags, i) ==>
              u.mem[k] == v.mem[k]
  {
    if !Exhaustible(v.mem[i].blocks, needed) { SeparableRest(v.mem[i].blocks, needed); }
  }

  /** Allocation does not touch the contents of a live chunk. */
  lemma TakeOthers(v: View, i: nat, needed: nat, j: nat)
    requires Shape(v) && Fits(v, i, needed) && 1 <= needed && i + v.mem[i].blocks <= |v.tags|
    requires j < |v.tags| && v.tags[j] == Used
    ensures BodyAt(Take(v, i, needed).mem, j) == BodyAt(v.mem, j)
  {
    assert ChunkAt(v.tags, v.mem, i);
    assert ChunkAt(v.tags, v.mem, j);
    TakeWrites(v, i, needed);
    SeparatedBy(v, i, needed);
    hide Take;
    BodyUntouched(v.mem, Take(v, i, needed).mem, j);
  }

  lemma SeparatedBy(v: View, i: nat, needed: nat)
    requires Fits(v, i, needed) && 1 <= needed
    ensures needed + 1 < v.mem[i].blocks || Exhaustible(v.mem[i].blocks, needed)
  {
    if !Exhaustible(v.mem[i].blocks, needed) { SeparableRest(v.mem[i].blocks, needed); }
  }

  lemma TakeStore(v: View, i: nat, needed: nat)
    requires Shape(v) && Fits(v, i, needed) && 1 <= needed && i + v.mem[i].blocks <= |v.tags|
    ensures var u := Take(v, i, needed);
            && |BodyAt(u.mem, i)| == needed
            && i !in Store(v.tags, v.mem)
            && Store(u.tags, u.mem) == Store(v.tags, v.mem)[i := BodyAt(u.mem, i)]
  {
    var u := Take(v, i, needed);
    assert ChunkAt(v.tags, v.mem, i);
    TakenBody(v, i, needed);
    forall j | 0 <= j < |v.tags| && v.tags[j] == Used ensures BodyAt(u.mem, j) == BodyAt(v.mem, j) {
      TakeOthers(v, i, needed, j);
    }
    hide Take;
    assert Store(u.tags, u.mem) == Store(v.tags, v.mem)[i := BodyAt(u.mem, i)];
  }

  lemma TakenBody(v: View, i: nat, needed: nat)
    requires Shape(v) && Fits(v, i, needed) && 1 <= needed && i + v.mem[i].blocks <= |v.tags|
    ensures var u := Take(v, i, needed);
            && |u.tags| == |v.tags|
            && |BodyAt(u.mem, i)| == needed
            && u.tags[i] == Used
            && forall j :: 0 <= j < |u.tags| && j != i ==> (u.tags[j] == Used <==> v.tags[j] == Used)
  {
    assert ChunkAt(v.tags, v.mem, i);
    if !Exhaustible(v.mem[i].blocks, needed) { SeparableRest(v.mem[i].blocks, needed); }
  }

  lemma CoalesceOthers(v: View, c: nat, j: nat)
    requires Shape(v) && HeaderAt(v, c) && v.tags[c] == Used
    requires j < |v.tags| && v.tags[j] == Used && j != c
    ensures BodyAt(Coalesce(v, c).mem, j) == BodyAt(v.mem, j)
  {
    assert ChunkAt(v.tags, v.mem, j);
    BodyUntouched(v.mem, Coalesce(v, c).mem, j);
  }

  lemma CoalesceUsed(v: View, c: nat)
    requires Shape(v) && HeaderAt(v, c) && v.tags[c] == Used
    ensures |Coalesce(v, c).tags| == |v.tags|
    ensures forall j :: 0 <= j < |v.tags| ==> (Coalesce(v, c).tags[j] == Used <==> v.tags[j] == Used && j != c)
  {
    if JoinsRight(v, c) { assert v.tags[c + v.mem[c].blocks] == Free; }
    hide JoinsLeft, JoinsRight, Grown;
  }

  lemma CoalesceStore(v: View, c: nat)
    requires Shape(v) && HeaderAt(v, c) && v.tags[c] == Used
    ensures var u := Coalesce(v, c); Store(u.tags, u.mem) == Store(v.tags, v.mem) - {c}
  {
    hide BodyAt, Coalesce;
    var u := Coalesce(v, c);
    CoalesceUsed(v, c);
    forall j | 0 <= j < |v.tags| && v.tags[j] == Used && j != c ensures BodyAt(u.mem, j) == BodyAt(v.mem, j) {
      CoalesceOthers(v, c, j);
    }
    StoreIs(u.tags, u.mem, Store(v.tags, v.mem) - {c});
  }

  /** Filling the body of a chunk leaves the contents of every other chunk. */
  lemma ScribbleStore(v: View, c: nat, fill: Option<Cell>)
    requires Shape(v) && HeaderAt(v, c)
    requires forall j :: c < j < c + v.mem[c].blocks && j < |v.tags| ==> v.tags[j] == Body
    requires v.tags[c] != Used ==> forall i :: 0 <= i < c && v.tags[i] == Used && HeaderAt(v, i) ==>
             i + v.mem[i].blocks <= c
    ensures var u := Scribble(v, c, fill); Store(u.tags, u.mem) - {c} == Store(v.tags, v.mem) - {c}
    ensures v.tags[c] != Used ==> var u := Scribble(v, c, fill); Store(u.tags, u.mem) == Store(v.tags, v.mem)
  {
    var u := Scribble(v, c, fill);
    forall j | 0 <= j < |v.tags| && v.tags[j] == Used && j != c ensures BodyAt(u.mem, j) == BodyAt(v.mem, j) {
      ScribbleOthers(v, c, fill, j);
    }
    hide BodyAt;
  }

  lemma ScribbleOthers(v: View, c: nat, fill: Option<Cell>, j: nat)
    requires Shape(v) && HeaderAt(v, c) && j < |v.tags| && v.tags[j] == Used && j != c
    requires forall j :: c < j < c + v.mem[c].blocks && j < |v.tags| ==> v.tags[j] == Body
    requires v.tags[c] != Used && j < c && HeaderAt(v, j) ==> j + v.mem[j].blocks <= c
    ensures BodyAt(Scribble(v, c, fill).mem, j) == BodyAt(v.mem, j)
  {
    assert ChunkAt(v.tags, v.mem, j);
    BodyUntouched(v.mem, Scribble(v, c, fill).mem, j);
  }

  lemma FreeStore(v: View, c: nat, fill: Option<Cell>)
    requires Core(v) && HeaderAt(v, c) && v.tags[c] == Used
    ensures var u := FreeLocked(v, c, fill); Store(u.tags, u.mem) == Store(v.tags, v.mem) - {c}
  {
    var u := Coalesce(v, c);
    InsertCoalesces(v, c);
    CoalesceKeepsCore(v, c);
    CoalesceStore(v, c);
    FilledPartIsBody(v, c);
    EarlierChunksEnd(v, c);
    hide Coalesce, Insert, Core;
    ScribbleStore(u, c, fill);
    hide Store, Scribble;
  }

  lemma EarlierChunksEnd(v: View, c: nat)
    requires Shape(v) && HeaderAt(v, c) && v.tags[c] == Used
    ensures var u := Coalesce(v, c);
            && |u.tags| == |u.mem| == |v.tags| && c < |u.tags| && u.tags[c] != Used
            && forall i :: 0 <= i < c && u.tags[i] == Used && HeaderAt(u, i) ==> i + u.mem[i].blocks <= c
  {
    var u := Coalesce(v, c);
    forall i | 0 <= i < c && u.tags[i] == Used && HeaderAt(u, i) ensures i + u.mem[i].blocks <= c {
      assert ChunkAt(v.tags, v.mem, i);
    }
  }

  lemma CutOthers(v: View, c: nat, keep: nat, j: nat)
    requires Shape(v) && HeaderAt(v, c) && v.tags[c] == Used
    requires 2 <= keep && keep + 2 <= v.mem[c].blocks && c + v.mem[c].blocks <= |v.mem|
    requires j < |v.tags| && v.tags[j] == Used && j != c
    ensures BodyAt(CutInTwo(v, c, keep).mem, j) == BodyAt(v.mem, j)
  {
    assert ChunkAt(v.tags, v.mem, c);
    assert ChunkAt(v.tags, v.mem, j);
    BodyUntouched(v.mem, CutInTwo(v, c, keep).mem, j);
  }

  lemma CutBody(v: View, c: nat, keep: nat)
    requires Shape(v) && HeaderAt(v, c) && v.tags[c] == Used
    requires 2 <= keep && keep + 2 <= v.mem[c].blocks && c + v.mem[c].blocks <= |v.mem|
    ensures v.tags[c + keep] == Body && CutInTwo(v, c, keep).tags == v.tags[c + keep := Used]
    ensures keep - 1 <= |BodyAt(v.mem, c)|
    ensures BodyAt(CutInTwo(v, c, keep).mem, c) == BodyAt(v.mem, c)[..keep - 1]
  {
    assert ChunkAt(v.tags, v.mem, c);
  }

  /** One chunk of the store shortened, and a new one at `d` ignored. */
  lemma StorePatch(tags: seq<Tag>, mem: seq<Cell>, tags': seq<Tag>, mem': seq<Cell>, c: nat, d: nat)
    requires d < |tags| && tags[d] != Used && tags' == tags[d := Used] && c < |tags| && tags[c] == Used
    requires forall j :: 0 <= j < |tags| && tags[j] == Used && j != c ==> BodyAt(mem', j) == BodyAt(mem, j)
    ensures Store(tags', mem') - {d} == Store(tags, mem)[c := BodyAt(mem', c)]
  {
    hide BodyAt;
  }

  lemma CutStore(v: View, c: nat, keep: nat)
    requires Shape(v) && HeaderAt(v, c) && v.tags[c] == Used
    requires 2 <= keep && keep + 2 <= v.mem[c].blocks && c + v.mem[c].blocks <= |v.mem|
    ensures var w := CutInTwo(v, c, keep);
            && keep - 1 <= |BodyAt(v.mem, c)|
            && Store(w.tags, w.mem) - {c + keep} == Store(v.tags, v.mem)[c := BodyAt(v.mem, c)[..keep - 1]]
  {
    var w := CutInTwo(v, c, keep);
    forall j | 0 <= j < |v.tags| && v.tags[j] == Used && j != c ensures BodyAt(w.mem, j) == BodyAt(v.mem, j) {
      CutOthers(v, c, keep, j);
    }
    CutBody(v, c, keep);
    hide BodyAt, CutInTwo, Store;
    StorePatch(v.tags, v.mem, w.tags, w.mem, c, c + keep);
  }

  lemma ShrinkStore(v: View, c: nat, keep: nat, fill: Option<Cell>, class_: ZoneType)
    requires Inv(v, class_) && HeaderAt(v, c) && v.tags[c] == Used
    requires LiveMin(class_) <= keep && keep + FreeMin(class_) <= v.mem[c].blocks && c + v.mem[c].blocks <= |v.mem|
    ensures var u := ShrinkLocked(v, c, keep, fill);
            && keep - 1 <= |BodyAt(v.mem, c)|
            && Store(u.tags, u.mem) == Store(v.tags, v.mem)[c := BodyAt(v.mem, c)[..keep - 1]]
  {
    hide Insert, Scribble, Unite, FreeLocked;
    CutStore(v, c, keep);
    CutInTwoReady(v, c, keep, class_);
    ShrinkIsFree(v, c, keep, fill);
    FreeStore(CutInTwo(v, c, keep), c + keep, fill);
  }

  lemma WriteStore(v: View, c: nat, j: nat, cell: Cell)
    requires Shape(v) && HeaderAt(v, c) && v.tags[c] == Used && c < j < c + v.mem[c].blocks && j < |v.mem|
    ensures |BodyAt(v.mem, c)| == v.mem[c].blocks - 1
    ensures Store(v.tags, v.mem[j := cell]) == Store(v.tags, v.mem)[c := BodyAt(v.mem, c)[j - c - 1 := cell]]
  {
    assert ChunkAt(v.tags, v.mem, c);
    var mem := v.mem[j := cell];
    assert BodyAt(mem, c) == BodyAt(v.mem, c)[j - c - 1 := cell];
    forall i | 0 <= i < |v.tags| && v.tags[i] == Used && i != c ensures BodyAt(mem, i) == BodyAt(v.mem, i) {
      assert ChunkAt(v.tags, v.mem, i);
    }
  }
}
