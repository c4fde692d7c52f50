/**
  realloc in place: the tail of a live chunk is cut off and freed.
*/
module ZoneShrink {
  import opened Sizes
  import opened Wrappers
  import opened ZoneModel
  import opened ZoneAlloc
  import opened ZoneFree

  function CutOff(v: View, c: nat, keep: nat): View
    requires HeaderAt(v, c) && 2 <= keep < v.mem[c].blocks && c + v.mem[c].blocks <= |v.mem|
  {
    var h := v.mem[c];
    v.(mem := v.mem[c + keep := Header(h.blocks - keep, Null, h.flags)][c := h.(blocks := keep)])
  }

  function ShrinkLocked(v: View, c: nat, keep: nat, fill: Option<Cell>): View
    requires HeaderAt(v, c) && 2 <= keep < v.mem[c].blocks && c + v.mem[c].blocks <= |v.mem|
  {
    FreeLocked(CutOff(v, c, keep), c + keep, fill)
  }

  /** The cut made visible in the tags: two live chunks where there was one. */
  function CutInTwo(v: View, c: nat, keep: nat): View
    requires HeaderAt(v, c) && 2 <= keep < v.mem[c].blocks && c + v.mem[c].blocks <= |v.mem|
  {
    CutOff(v, c, keep).(tags := v.tags[c + keep := Used])
  }

  lemma CutInTwoShape(v: View, c: nat, keep: nat)
    requires Shape(v) && HeaderAt(v, c) && v.tags[c] == Used
    requires 2 <= keep && keep + 2 <= v.mem[c].blocks && c + v.mem[c].blocks <= |v.mem|
    ensures Shape(CutInTwo(v, c, keep))
  {
    var u := CutInTwo(v, c, keep);
    assert ChunkAt(v.tags, v.mem, c);
    forall j | 0 <= j < |u.tags| && u.tags[j] != Body ensures ChunkAt(u.tags, u.mem, j) {
      if j != c + keep { assert ChunkAt(v.tags, v.mem, j); }
    }
  }

  lemma CutInTwoThreads(v: View, c: nat, keep: nat)
    requires Core(v) && Coalesced(v) && HeaderAt(v, c) && v.tags[c] == Used
    requires 2 <= keep && keep + 2 <= v.mem[c].blocks && c + v.mem[c].blocks <= |v.mem|
    ensures Threaded(CutInTwo(v, c, keep)) && Coalesced(CutInTwo(v, c, keep)) && Rover(CutInTwo(v, c, keep))
  {
    var u := CutInTwo(v, c, keep);
    assert ChunkAt(v.tags, v.mem, c);
    forall j | 0 <= j < |u.tags| && u.tags[j] == Free ensures ThreadAt(u.tags, u.mem, j) {
      assert ThreadAt(v.tags, v.mem, j);
    }
    forall j | 0 <= j < |u.tags| && u.tags[j] == Free && u.mem[j].Header? ensures SealedAt(u.tags, u.mem, j) {
      assert SealedAt(v.tags, v.mem, j);
    }
  }

  lemma CutInTwoCounts(v: View, c: nat, keep: nat)
    requires Core(v) && HeaderAt(v, c) && v.tags[c] == Used
    requires 2 <= keep && keep + 2 <= v.mem[c].blocks && c + v.mem[c].blocks <= |v.mem|
    ensures Counted(CutInTwo(v, c, keep))
  {
    var u := CutInTwo(v, c, keep);
    assert ChunkAt(v.tags, v.mem, c);
    var w := Weights(v.tags, v.mem, Used);
    SumUpdate(w, c, keep);
    SumUpdate(w[c := keep], c + keep, v.mem[c].blocks - keep);
    assert Weights(u.tags, u.mem, Used) == w[c := keep][c + keep := v.mem[c].blocks - keep];
    assert Weights(u.tags, u.mem, Free) == Weights(v.tags, v.mem, Free);
  }

  lemma CutInTwoReady(v: View, c: nat, keep: nat, class_: ZoneType)
    requires Inv(v, class_) && HeaderAt(v, c) && v.tags[c] == Used
    requires LiveMin(class_) <= keep && keep + FreeMin(class_) <= v.mem[c].blocks && c + v.mem[c].blocks <= |v.mem|
    ensures Core(CutInTwo(v, c, keep)) && Coalesced(CutInTwo(v, c, keep))
    ensures ClassedBut(CutInTwo(v, c, keep), c + keep, class_)
  {
    CutInTwoShape(v, c, keep);
    CutInTwoThreads(v, c, keep);
    CutInTwoCounts(v, c, keep);
  }

  lemma ShrinkIsFree(v: View, c: nat, keep: nat, fill: Option<Cell>)
    requires HeaderAt(v, c) && 2 <= keep < v.mem[c].blocks && c + v.mem[c].blocks <= |v.mem|
    ensures ShrinkLocked(v, c, keep, fill) == FreeLocked(CutInTwo(v, c, keep), c + keep, fill)
  {
    assert CutOff(v, c, keep).tags[c + keep := Free] == CutInTwo(v, c, keep).tags[c + keep := Free];
  }

  lemma FreedInv(v: View, c: nat, fill: Option<Cell>, class_: ZoneType, u: View)
    requires Core(v) && Coalesced(v) && HeaderAt(v, c) && v.tags[c] == Used && FreeMin(class_) <= v.mem[c].blocks
    requires ClassedBut(v, c, class_)
    requires u == FreeLocked(v, c, fill)
    ensures Inv(u, class_)
  {
    FreeKeepsInv(v, c, fill, class_);
  }

  lemma ShrinkKeepsInv(v: View, c: nat, keep: nat, fill: Option<Cell>, class_: ZoneType)
    requires Inv(v, class_) && HeaderAt(v, c) && v.tags[c] == Used
    requires LiveMin(class_) <= keep && keep + FreeMin(class_) <= v.mem[c].blocks && c + v.mem[c].blocks <= |v.mem|
    ensures Inv(ShrinkLocked(v, c, keep, fill), class_)
  {
    hide Insert, Scribble, Unite, FreeLocked;
    CutInTwoReady(v, c, keep, class_);
    ShrinkIsFree(v, c, keep, fill);
    FreedInv(CutInTwo(v, c, keep), c + keep, fill, class_, ShrinkLocked(v, c, keep, fill));
  }
}
