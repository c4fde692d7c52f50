/**
  A TINY or SMALL zone as the program keeps it: bitmaps, block heap, list head, roving pointer and counters, changed in
  place.  Each method is proved against the operation of the same name on `View`.
*/
module ZoneClass {
  import opened Sizes
  import opened Wrappers
  import opened ZoneModel
  import opened ZoneAlloc
  import opened ZoneFree
  import opened ZoneShrink
  import opened ZoneStore
  import opened ZoneTheorems
  import opened ZoneRuns
  import opened Bitmap

  class Zone {
    const class_: ZoneType
    const heads: array<bv8>
    const used: array<bv8>
    const mem: array<Cell>
    var frees: Link
    var freePrev: Link
    var blocksFree: nat
    var blocksUsed: nat

    /** The arrays fit together; the rest of the invariant may be broken for a moment. */
    ghost predicate Wired()
      reads this, heads, used
    {
      && heads != used
      && heads.Length == used.Length
      && mem.Length == 8 * heads.Length
      && Clean(heads[..], used[..])
    }

    ghost function State(): View
      reads this, heads, used, mem
      requires Wired()
    {
      View(Tags(heads[..], used[..]), mem[..], frees, freePrev, blocksFree, blocksUsed)
    }

    ghost predicate Valid()
      reads this, heads, used, mem
    {
      Wired() && class_ != LARGE && Inv(State(), class_)
    }

    // ---------------------------------------------------------------- bitmaps

    method MarkChunkAsFree(i: nat)
      requires Wired() && i < mem.Length
      modifies heads, used
      ensures Wired() && State() == old(State()).(tags := old(State()).tags[i := Free])
    {
      Marking(heads[..], used[..], i);
      heads[i / 8] := With(heads[i / 8], i % 8);
      used[i / 8] := Without(used[i / 8], i % 8);
      assert heads[..] == SetBit(old(heads[..]), i);
      assert used[..] == ClearBit(old(used[..]), i);
    }

    method MarkChunkAsUsed(i: nat)
      requires Wired() && i < mem.Length
      modifies heads, used
      ensures Wired() && State() == old(State()).(tags := old(State()).tags[i := Used])
    {
      Marking(heads[..], used[..], i);
      heads[i / 8] := With(heads[i / 8], i % 8);
      used[i / 8] := With(used[i / 8], i % 8);
      assert heads[..] == SetBit(old(heads[..]), i);
      assert used[..] == SetBit(old(used[..]), i);
    }

    /** Both halves of a chunk that is split: `i` becomes live and `rest` free. */
    method MarkSplit(i: nat, rest: nat)
      requires Wired() && i < rest < mem.Length
      modifies heads, used
      ensures Wired() && State() == old(State()).(tags := old(State()).tags[i := Used][rest := Tag.Free])
    {
      hide Tags, Clean;
      ghost var t := State().tags;
      MarkChunkAsFree(rest);
      MarkChunkAsUsed(i);
      assert t[rest := Tag.Free][i := Used] == t[i := Used][rest := Tag.Free];
    }

    method UnmarkChunk(i: nat)
      requires Wired() && i < mem.Length
      modifies heads, used
      ensures Wired() && State() == old(State()).(tags := old(State()).tags[i := Body])
    {
      Marking(heads[..], used[..], i);
      heads[i / 8] := Without(heads[i / 8], i % 8);
      used[i / 8] := Without(used[i / 8], i % 8);
      assert heads[..] == ClearBit(old(heads[..]), i);
      assert used[..] == ClearBit(old(used[..]), i);
    }

    /** is_header_and_used. */
    predicate IsHeaderAndUsed(i: nat)
      reads this, heads, used
      requires heads.Length == used.Length && i < 8 * heads.Length
    {
      Has(heads[i / 8], i % 8) && Has(used[i / 8], i % 8)
    }

    // ---------------------------------------------------------------- free

    method TryUniteFreeChunks(front: Link) returns (united: bool)
      requires Wired()
      requires front.At? ==> HeaderAt(State(), front.pos)
      requires front.At? && mem[front.pos].next.At? ==> HeaderAt(State(), mem[front.pos].next.pos)
      modifies heads, used, mem
      ensures Wired() && State() == Unite(old(State()), front)
      ensures united == CanUnite(old(State()), front)
    {
      if front == Null { return false; }
      var f := front.pos;
      var back := mem[f].next;
      if back == Null { return false; }
      if f + mem[f].blocks != back.pos { return false; }
      var b := back.pos;
      mem[f] := mem[f].(next := mem[b].next, flags := mem[b].flags);
      mem[f] := mem[f].(blocks := mem[f].blocks + mem[b].blocks);
      assert mem[..] == Unite(old(State()), front).mem;
      UnmarkChunk(b);
      return true;
    }

    /** Stores `l` in the lot after `prev`. */
    method SetLot(prev: Link, l: Link)
      requires Wired() && (prev.At? ==> HeaderAt(State(), prev.pos))
      modifies this`frees, mem
      ensures Wired() && State() == Relink(old(State()), prev, l)
    {
      if prev == Null {
        frees := l;
      } else {
        mem[prev.pos] := mem[prev.pos].(next := l, flags := 0);
      }
      assert mem[..] == Relink(old(State()), prev, l).mem;
    }

    /** The search of insert_chunk_to_tiny_small_zone: the free chunks around `c`. */
    method FindNeighbours(c: nat, ghost v: View) returns (left: Link, right: Link)
      requires Core(v) && Live(v, c)
      requires Wired() && State() == MarkFree(v, c)
      ensures left == PrevFree(v.tags, c) && right == NextFree(v.tags, c + 1)
    {
      left := Null;
      right := frees;
      while right != Null && !(c < right.pos)
        invariant left.At? ==> left.pos < c && v.tags[left.pos] == Free
        invariant IsNextFree(v.tags, if left.At? then left.pos + 1 else 0, right)
        invariant left.At? || right == v.frees
        decreases if right.At? then mem.Length - right.pos else -1
      {
        assert ThreadAt(v.tags, v.mem, right.pos);
        assert mem[right.pos] == v.mem[right.pos];
        left := right;
        right := mem[right.pos].next;
      }
      PrevFreeUnique(v.tags, c, left);
      NextFreeUnique(v.tags, c + 1, right);
    }

    method InsertChunk(c: nat, ghost v: View)
      requires Core(v) && Live(v, c)
      requires Wired() && State() == MarkFree(v, c)
      modifies this`frees, this`freePrev, this`blocksFree, this`blocksUsed, heads, used, mem
      ensures Wired() && State() == Insert(MarkFree(v, c), c)
    {
      var left, right := FindNeighbours(c, v);
      InsertSteps(v, c);
      var chunkBlocks := mem[c].blocks;
      mem[c] := mem[c].(next := right);
      freePrev, blocksFree, blocksUsed := At(c), blocksFree + chunkBlocks, blocksUsed - chunkBlocks;
      assert mem[..] == Dangling(MarkFree(v, c), c).mem;
      assert State() == Dangling(MarkFree(v, c), c);
      hide Core, Relink, Unite, Dangling, Tags, Clean, MarkFree;
      var united := TryUniteFreeChunks(At(c));
      SetLot(left, At(c));
      united := TryUniteFreeChunks(left);
      if united { freePrev := left; }
    }

    /** fill_chunk_by_scribbler over the body of the chunk at `c`. */
    method FillChunk(c: nat, scribbler: bv8, complement: bool)
      requires Wired() && HeaderAt(State(), c) && c + mem[c].blocks <= mem.Length
      modifies mem
      ensures Wired() && State() == Scribble(old(State()), c, Filler(scribbler, complement))
    {
      if scribbler == 0 { return; }
      var filler := if complement then !scribbler else scribbler;
      var end := c + mem[c].blocks;
      var j := c + 1;
      while j < end
        invariant c < j && (j <= end || j == c + 1)
        invariant mem[c] == old(mem[c])
        invariant forall k :: 0 <= k < mem.Length ==>
                  mem[k] == if c < k < j then Data(seq(UNIT, _ => filler)) else old(mem[k])
      {
        mem[j] := Data(seq(UNIT, _ => filler));
        j := j + 1;
      }
      assert mem[..] == Scribble(old(State()), c, Filler(scribbler, complement)).mem;
    }

    /** yoyo_free_from_locked_tiny_small_zone: the caller holds the lock of the zone. */
    method FreeFromLockedZone(c: nat, scribbler: bv8, ghost v: View)
      requires Core(v) && Live(v, c)
      requires Wired() && HeaderAt(State(), c) && MarkFree(State(), c) == MarkFree(v, c)
      modifies this`frees, this`freePrev, this`blocksFree, this`blocksUsed, heads, used, mem
      ensures Wired() && State() == FreeLocked(v, c, Filler(scribbler, true))
    {
      MarkChunkAsFree(c);
      assert State() == MarkFree(v, c);
      InsertChunk(c, v);
      InsertCoalesces(v, c);
      CoalesceKeepsCore(v, c);
      GrownFits(v, c);
      hide Core, Insert, Coalesce;
      FillChunk(c, scribbler, true);
    }

    /** The part of free_from_tiny_small_zone under the lock; a chunk that is not live is left alone. */
    method FreeChunk(c: nat, scribbler: bv8)
      requires Valid() && c < mem.Length
      modifies this`frees, this`freePrev, this`blocksFree, this`blocksUsed, heads, used, mem
      ensures Valid() && State() == Step(old(State()), class_, scribbler, Release(c))
    {
      StepKeepsInv(State(), class_, scribbler, Release(c));
      LiveIffUsed(State(), c);
      ghost var v := State();
      if IsHeaderAndUsed(c) {
        hide FreeLocked;
        FreeFromLockedZone(c, scribbler, v);
      }
    }

    // ---------------------------------------------------------------- malloc

    method ExhaustChunk(prev: Link, i: nat)
      requires Wired() && Core(State()) && HeaderAt(State(), i) && State().tags[i] == Tag.Free &&
               prev == PrevFree(State().tags, i)
      modifies this`frees, this`blocksFree, this`blocksUsed, heads, used, mem
      ensures Wired() && State() == Exhaust(old(State()), i).(freePrev := freePrev)
    {
      ghost var v := State();
      hide Core, Relink, Exhaust, Tags, Clean, PrevFree;
      FreeBlocksCovered(v, i);
      PrevIsHeader(v, i);
      ExhaustParts(v, i);
      var blocks := mem[i].blocks;
      SetLot(prev, mem[i].next);
      MarkChunkAsUsed(i);
      blocksFree := blocksFree - blocks;
      blocksUsed := blocksUsed + blocks;
    }

    /** The header writes of separate_chunk: chunk `i` keeps `whole` blocks, the rest takes its place in the list. */
    method SplitHeaders(prev: Link, i: nat, whole: nat)
      requires Wired() && HeaderAt(State(), i) && 2 <= whole && whole + 2 <= mem[i].blocks && i + whole < mem.Length
      requires prev.At? ==> HeaderAt(State(), prev.pos) && prev.pos < i
      modifies this`frees, mem
      ensures Wired() && State() == Relink(Cut(old(State()), i, whole), prev, At(i + whole))
    {
      ghost var v := State();
      var rest := i + whole;
      mem[rest] := Header(mem[i].blocks - whole, mem[i].next, mem[i].flags);
      mem[i] := mem[i].(blocks := whole);
      assert mem[..] == Cut(v, i, whole).mem;
      assert State() == Cut(v, i, whole);
      SetLot(prev, At(rest));
    }

    method SeparateChunk(prev: Link, i: nat, whole: nat)
      requires Wired() && Core(State()) && HeaderAt(State(), i) && State().tags[i] == Tag.Free
      requires prev == PrevFree(State().tags, i)
      requires 2 <= whole && whole + 2 <= mem[i].blocks && i + whole < mem.Length
      modifies this`frees, this`blocksFree, this`blocksUsed, heads, used, mem
      ensures Wired() && State() == Separate(old(State()), i, whole).(freePrev := freePrev)
    {
      ghost var v := State();
      hide Core, Relink, Cut, Separate, Tags, Clean, PrevFree;
      FreeBlocksCovered(v, i);
      PrevIsHeader(v, i);
      SeparateParts(v, i, whole);
      SplitHeaders(prev, i, whole);
      MarkSplit(i, i + whole);
      blocksFree := blocksFree - whole;
      blocksUsed := blocksUsed + whole;
    }

    /** The two ways of serving a request from the free chunk `i`. */
    method TakeChunk(prev: Link, i: nat, needed: nat)
      requires Wired() && Core(State()) && Fits(State(), i, needed) && prev == PrevFree(State().tags, i)
      requires 1 <= needed && i + mem[i].blocks <= mem.Length
      modifies this`frees, this`freePrev, this`blocksFree, this`blocksUsed, heads, used, mem
      ensures Wired() && State() == Take(old(State()), i, needed)
    {
      hide Core, Relink, Tags, Clean, Exhaust, Separate;
      if Exhaustible(mem[i].blocks, needed) {
        TakeWhole(prev, i);
      } else {
        SeparableRest(mem[i].blocks, needed);
        TakePart(prev, i, needed + 1);
      }
    }

    method TakeWhole(prev: Link, i: nat)
      requires Wired() && Core(State()) && HeaderAt(State(), i) && State().tags[i] == Tag.Free &&
               prev == PrevFree(State().tags, i)
      modifies this`frees, this`freePrev, this`blocksFree, this`blocksUsed, heads, used, mem
      ensures Wired() && State() == Exhaust(old(State()), i)
    {
      ghost var v := State();
      hide Core, Relink, Tags, Clean, Exhaust;
      ExhaustChunk(prev, i);
      freePrev := frees;
      ExhaustRover(v, i);
    }

    method TakePart(prev: Link, i: nat, whole: nat)
      requires Wired() && Core(State()) && HeaderAt(State(), i) && State().tags[i] == Tag.Free &&
               prev == PrevFree(State().tags, i)
      requires 2 <= whole && whole + 2 <= mem[i].blocks && i + whole < mem.Length
      modifies this`frees, this`freePrev, this`blocksFree, this`blocksUsed, heads, used, mem
      ensures Wired() && State() == Separate(old(State()), i, whole)
    {
      ghost var v := State();
      hide Core, Relink, Tags, Clean, Separate;
      SeparateChunk(prev, i, whole);
      freePrev := frees;
      SeparateRover(v, i, whole);
    }

    /** try_allocate_chunk_from_zone: next fit along the free list, from the chunk after `freePrev` and around. */
    method TryAllocateChunk(n: size_t) returns (chunk: Link)
      requires Valid() && ZoneTypeForBytes(n) == class_ && BlocksForSize(n) != 0
      modifies this`frees, this`freePrev, this`blocksFree, this`blocksUsed, heads, used, mem
      ensures Valid()
      ensures chunk == NextFit(old(State()), BlocksForSize(n))
      ensures IsNextFit(old(State()), BlocksForSize(n), chunk)
      ensures chunk == Null ==> State() == old(State())
      ensures chunk.At? ==>
                Fits(old(State()), chunk.pos, BlocksForSize(n)) &&
                chunk.pos + old(State()).mem[chunk.pos].blocks <= mem.Length
      ensures chunk.At? ==> State() == Take(old(State()), chunk.pos, BlocksForSize(n))
    {
      var needed := BlocksForSize(n);
      ghost var v := State();
      NextFitIs(v, needed);
      if blocksFree < needed + 1 { return Null; }
      var prev;
      prev, chunk := Search(needed);
      if chunk == Null { return; }
      ClassOfBlocks(n);
      TakeKeepsInv(v, chunk.pos, needed, class_);
      hide NextFit, Fits, Core;
      TakeChunk(prev, chunk.pos, needed);
    }

    /**
      The walk of try_allocate_chunk_from_zone around the free list, up to the first chunk that can serve the
      request.
    */
    method Search(needed: nat) returns (prev: Link, head: Link)
      requires Wired() && Core(State()) && needed + 1 <= blocksFree
      ensures head == NextFit(State(), needed) && IsNextFit(State(), needed, head)
      ensures head.At? ==>
                Fits(State(), head.pos, needed) && prev == PrevFree(State().tags, head.pos) &&
                head.pos + mem[head.pos].blocks <= mem.Length
    {
      ghost var v := State();
      NextFitIs(v, needed);
      prev, head := StartSearch();
      var initialHead := head;
      ghost var wrapped := false;
      hide Core;
      while true
        invariant head.At? && SearchAt(v, needed, wrapped, head.pos) && prev == PrevFree(v.tags, head.pos)
        decreases !wrapped, mem.Length - head.pos
      {
        var i := head.pos;
        SearchedHeader(v, i);
        assert Has(heads[i / 8], i % 8) && !Has(used[i / 8], i % 8);
        if Exhaustible(mem[i].blocks, needed) || Separatable(mem[i].blocks, needed) {
          FoundIsNextFit(v, needed, i, wrapped);
          return;
        }
        SearchStep(v, needed, wrapped, i);
        hide Exhaustible, Separatable, SearchAt, NextFit, Tags;
        prev := head;
        head := mem[i].next;
        if head == Null {
          head, prev, wrapped := frees, Null, true;
        }
        if head == initialHead { return prev, Null; }
      }
    }

    // ---------------------------------------------------------------- realloc

    /** The headers of the two parts of chunk `c`. */
    method CutHeaders(c: nat, keep: nat)
      requires Wired() && HeaderAt(State(), c) && 2 <= keep < mem[c].blocks && c + mem[c].blocks <= mem.Length
      modifies mem
      ensures Wired() && State() == CutOff(old(State()), c, keep)
    {
      ghost var v := State();
      mem[c + keep] := Header(mem[c].blocks - keep, Null, mem[c].flags);
      mem[c] := mem[c].(blocks := keep);
      assert mem[..] == CutOff(v, c, keep).mem;
    }

    /** shrink_chunk: chunk `c` keeps `keep` blocks, the tail is freed. */
    method ShrinkChunk(c: nat, keep: nat, scribbler: bv8)
      requires Valid() && Live(State(), c)
      requires LiveMin(class_) <= keep && keep + FreeMin(class_) <= mem[c].blocks && c + mem[c].blocks <= mem.Length
      modifies this`frees, this`freePrev, this`blocksFree, this`blocksUsed, heads, used, mem
      ensures Valid() && State() == ShrinkLocked(old(State()), c, keep, Filler(scribbler, true))
    {
      ghost var v := State();
      hide Inv, Core, FreeLocked, ShrinkLocked, MarkFree, CutOff, CutInTwo, Coalesced, ClassedBut, Live, Filler, Tags,
           Clean;
      ShrinkReady(v, c, keep, Filler(scribbler, true), class_);
      CutAndFree(c, keep, scribbler, CutInTwo(v, c, keep));
    }

    /** The cut and the free of the tail; `w` is the zone as if the tail were a live chunk. */
    method CutAndFree(c: nat, keep: nat, scribbler: bv8, ghost w: View)
      requires Wired() && HeaderAt(State(), c) && 2 <= keep < mem[c].blocks && c + mem[c].blocks <= mem.Length
      requires Core(w) && Live(w, c + keep) && HeaderAt(CutOff(State(), c, keep), c + keep)
      requires MarkFree(CutOff(State(), c, keep), c + keep) == MarkFree(w, c + keep)
      modifies this`frees, this`freePrev, this`blocksFree, this`blocksUsed, heads, used, mem
      ensures Wired() && State() == FreeLocked(w, c + keep, Filler(scribbler, true))
    {
      hide Core, FreeLocked, MarkFree, CutOff, Live, Filler, Tags, Clean;
      CutHeaders(c, keep);
      FreeFromLockedZone(c + keep, scribbler, w);
    }

    // ---------------------------------------------------------------- init

    /** init_zone on a zero-filled mapping: one free chunk, `8 * bytes` blocks long. */
    constructor (class_: ZoneType, bytes: nat)
      requires class_ != LARGE && FreeMin(class_) <= 8 * bytes
      ensures Valid() && this.class_ == class_ && State() == Fresh(8 * bytes)
      ensures fresh(heads) && fresh(used) && fresh(mem)
    {
      this.class_ := class_;
      heads := new bv8[bytes](i => 0);
      used := new bv8[bytes](i => 0);
      mem := new Cell[8 * bytes](i => Data(seq(UNIT, _ => 0)));
      frees, freePrev, blocksFree, blocksUsed := Null, Null, 8 * bytes, 0;
      new;
      BlankBitmaps(heads[..], used[..]);
      MarkChunkAsFree(0);
      mem[0] := Header(blocksFree, Null, 0);
      frees := At(0);
      assert mem[..] == Fresh(8 * bytes).mem;
      assert State().tags == Fresh(8 * bytes).tags;
      FreshZone(8 * bytes, class_);
    }

    /** The chunk the search looks at first, and the one before it in the list. */
    method StartSearch() returns (prev: Link, head: Link)
      requires Wired() && Core(State()) && blocksFree > 0
      ensures head.At? && head.pos < mem.Length && State().tags[head.pos] == Tag.Free
      ensures head == FirstLooked(State()) && prev == PrevFree(State().tags, head.pos)
      ensures head.pos == SearchStart(State())
    {
      ghost var v := State();
      SearchStartIs(v);
      prev := freePrev;
      if prev.At? { assert ThreadAt(v.tags, v.mem, prev.pos); }
      head := if prev.At? then mem[prev.pos].next else frees;
      if head == Null {
        head := frees;
        prev := Null;
      }
      PrevFreeUnique(v.tags, head.pos, prev);
    }
  }

  function Cut(v: View, i: nat, whole: nat): View
    requires HeaderAt(v, i) && whole <= v.mem[i].blocks && i + whole < |v.mem|
  {
    v.(mem := v.mem[i := v.mem[i].(blocks := whole)][i + whole := v.mem[i].(blocks := v.mem[i].blocks - whole)])
  }

  lemma SeparateParts(v: View, i: nat, whole: nat)
    requires HeaderAt(v, i) && 2 <= whole && whole + 2 <= v.mem[i].blocks && i + whole < |v.mem|
    ensures var u, r := Separate(v, i, whole), Relink(Cut(v, i, whole), PrevFree(v.tags, i), At(i + whole));
            && u.mem == r.mem && u.frees == r.frees
            && u.tags == v.tags[i := Used][i + whole := Free] && r.tags == v.tags
            && u.blocksFree == v.blocksFree - whole && u.blocksUsed == v.blocksUsed + whole
            && r.blocksFree == v.blocksFree && r.blocksUsed == v.blocksUsed && r.freePrev == v.freePrev
  {
  }

  lemma ExhaustParts(v: View, i: nat)
    requires HeaderAt(v, i)
    ensures var u, r := Exhaust(v, i), Relink(v, PrevFree(v.tags, i), v.mem[i].next);
            && u.mem == r.mem && u.frees == r.frees && u.tags == v.tags[i := Used] && r.tags == v.tags
            && u.blocksFree == v.blocksFree - v.mem[i].blocks && u.blocksUsed == v.blocksUsed + v.mem[i].blocks
            && r.blocksFree == v.blocksFree && r.blocksUsed == v.blocksUsed && r.freePrev == v.freePrev
  {
  }

  /** The search stands at the free chunk `i`, before or after its wrap-around, and has met no chunk that fits. */
  ghost predicate SearchAt(v: View, needed: nat, wrapped: bool, i: nat) {
    var start := SearchStart(v);
    && i < |v.tags| && v.tags[i] == Free
    && start < |v.tags| && v.tags[start] == Free
    && if wrapped then i < start && NoFit(v, needed, start, |v.tags|) && NoFit(v, needed, 0, i)
       else start <= i && NoFit(v, needed, start, i)
  }

  lemma FoundIsNextFit(v: View, needed: nat, i: nat, wrapped: bool)
    requires |v.mem| == |v.tags| && needed + 1 <= v.blocksFree && SearchAt(v, needed, wrapped, i) && Fits(v, i, needed)
    ensures NextFit(v, needed) == At(i)
  {
    hide Fits, SearchStart;
  }

  lemma NothingFits(v: View, needed: nat)
    requires SearchStart(v) <= |v.tags| && NoFit(v, needed, SearchStart(v), |v.tags|) &&
             NoFit(v, needed, 0, SearchStart(v))
    ensures NextFit(v, needed) == Null
  {
    hide Fits, SearchStart;
  }

  lemma SearchedHeader(v: View, i: nat)
    requires Core(v) && i < |v.tags| && v.tags[i] == Free
    ensures HeaderAt(v, i) && i + v.mem[i].blocks <= |v.mem| && IsNextFree(v.tags, i + 1, v.mem[i].next)
  {
    assert ChunkAt(v.tags, v.mem, i) && ThreadAt(v.tags, v.mem, i);
  }

  lemma NoFitAhead(v: View, needed: nat, lo: nat, i: nat, hi: nat)
    requires NoFit(v, needed, lo, i) && !Fits(v, i, needed) && forall j :: i < j < hi && j < |v.tags| ==>
             v.tags[j] != Free
    ensures NoFit(v, needed, lo, hi)
  {
  }

  /**
    Leaving the free chunk `i`: on to the next one, or around to the front, or back at the start with nothing found.
  */
  lemma SearchStep(v: View, needed: nat, wrapped: bool, i: nat)
    requires Core(v) && SearchAt(v, needed, wrapped, i) && !Fits(v, i, needed)
    ensures HeaderAt(v, i)
    ensures match v.mem[i].next
            case At(p) =>
              && i < p < |v.tags| && PrevFree(v.tags, p) == At(i)
              && (p == SearchStart(v) ==> NextFit(v, needed) == Null)
              && (p != SearchStart(v) ==> SearchAt(v, needed, wrapped, p))
            case Null =>
              && !wrapped && v.frees.At? && v.frees.pos < |v.tags| && PrevFree(v.tags, v.frees.pos) == Null
              && (v.frees.pos == SearchStart(v) ==> NextFit(v, needed) == Null)
              && (v.frees.pos != SearchStart(v) ==> SearchAt(v, needed, true, v.frees.pos))
  {
    SearchedHeader(v, i);
    var next, start := v.mem[i].next, SearchStart(v);
    var lo := if wrapped then 0 else start;
    var hi := if next.At? then next.pos else |v.tags|;
    NoFitAhead(v, needed, lo, i, hi);
    hide SearchStart, Fits;
    if next.At? {
      PrevFreeUnique(v.tags, next.pos, At(i));
      if next.pos == start { NothingFits(v, needed); }
    } else {
      PrevFreeUnique(v.tags, v.frees.pos, Null);
      assert NoFit(v, needed, 0, v.frees.pos);
      if v.frees.pos == start { NothingFits(v, needed); }
    }
  }

  lemma FreeBlocksCovered(v: View, i: nat)
    requires Core(v) && HeaderAt(v, i) && v.tags[i] == Free
    ensures v.mem[i].blocks <= v.blocksFree && 0 <= v.blocksUsed
  {
    BlocksAddUp(v);
  }

  lemma PrevIsHeader(v: View, i: nat)
    requires Core(v) && HeaderAt(v, i) && v.tags[i] == Free
    ensures var prev := PrevFree(v.tags, i); prev.At? ==>
            HeaderAt(v, prev.pos) && prev.pos + v.mem[prev.pos].blocks <= i
    ensures i + v.mem[i].blocks <= |v.tags|
  {
    assert ChunkAt(v.tags, v.mem, i);
    var prev := PrevFree(v.tags, i);
    assert prev.At? ==> ChunkAt(v.tags, v.mem, prev.pos);
  }

  lemma ShrinkReady(v: View, c: nat, keep: nat, fill: Option<Cell>, class_: ZoneType)
    requires Inv(v, class_) && Live(v, c)
    requires LiveMin(class_) <= keep && keep + FreeMin(class_) <= v.mem[c].blocks && c + v.mem[c].blocks <= |v.mem|
    ensures 2 <= keep && HeaderAt(v, c)
    ensures Inv(ShrinkLocked(v, c, keep, fill), class_)
    ensures ShrinkLocked(v, c, keep, fill) == FreeLocked(CutInTwo(v, c, keep), c + keep, fill)
    ensures Core(CutInTwo(v, c, keep)) && Live(CutInTwo(v, c, keep), c + keep) && HeaderAt(CutOff(v, c, keep), c + keep)
    ensures MarkFree(CutOff(v, c, keep), c + keep) == MarkFree(CutInTwo(v, c, keep), c + keep)
  {
    hide Inv, Core, FreeLocked, ShrinkLocked, MarkFree, CutOff, CutInTwo, Coalesced, ClassedBut;
    ShrinkKeepsInv(v, c, keep, fill, class_);
    ShrinkIsFree(v, c, keep, fill);
    CutInTwoReady(v, c, keep, class_);
    CutIsMarked(v, c, keep);
  }

  lemma CutIsMarked(v: View, c: nat, keep: nat)
    requires HeaderAt(v, c) && 2 <= keep < v.mem[c].blocks && c + v.mem[c].blocks <= |v.mem|
    ensures HeaderAt(CutOff(v, c, keep), c + keep) && Live(CutInTwo(v, c, keep), c + keep)
    ensures MarkFree(CutOff(v, c, keep), c + keep) == MarkFree(CutInTwo(v, c, keep), c + keep)
  {
    assert v.tags[c + keep := Free] == v.tags[c + keep := Used][c + keep := Free];
  }

  lemma BlankBitmaps(heads: seq<bv8>, used: seq<bv8>)
    requires |heads| == |used| && forall i :: 0 <= i < |heads| ==> heads[i] == 0 && used[i] == 0
    ensures Clean(heads, used) && Tags(heads, used) == seq(8 * |heads|, _ => Body)
  {
  }

  /** If blocks are left, the free list is not empty. */
  lemma GrownFits(v: View, c: nat)
    requires Shape(v) && Live(v, c)
    ensures var u := Coalesce(v, c); HeaderAt(u, c) && c + u.mem[c].blocks <= |u.mem|
  {
    assert ChunkAt(v.tags, v.mem, c);
    if JoinsRight(v, c) { assert ChunkAt(v.tags, v.mem, c + v.mem[c].blocks); }
  }

  /** Every header that the steps of an insertion touch is there. */
  lemma InsertSteps(v: View, c: nat)
    requires Core(v) && Live(v, c)
    ensures var left, right := PrevFree(v.tags, c), NextFree(v.tags, c + 1);
            var m := MarkFree(v, c);
            var e := Relink(Unite(Dangling(m, c), At(c)), left, At(c));
            && left == PrevFree(m.tags, c) && right == NextFree(m.tags, c + 1)
            && (right.At? ==> HeaderAt(Dangling(m, c), right.pos))
            && (left.At? ==>
                   HeaderAt(Unite(Dangling(m, c), At(c)), left.pos) && HeaderAt(e, left.pos) &&
                   e.mem[left.pos].next == At(c) && HeaderAt(e, c))
            && v.mem[c].blocks <= v.blocksUsed
  {
    var left, right := PrevFree(v.tags, c), NextFree(v.tags, c + 1);
    NeighboursStay(v, c);
    BlocksAddUp(v);
    assert right.At? ==> ChunkAt(v.tags, v.mem, right.pos);
    assert left.At? ==> ChunkAt(v.tags, v.mem, left.pos);
    hide Core;
  }
}
