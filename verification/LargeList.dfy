/**
  The in-use list of a LARGE subarena: insert_large_chunk_to_subarena of srcs/actual_malloc.c and the unlinking of
  free_from_large_zone in srcs/actual_free.c.
*/
module LargeList {
  import opened LinkedLists

  /** `x` put before the first address above it. */
  function Inserted(s: seq<int>, x: int): seq<int> {
    if s == [] || x < s[0] then [x] + s else [s[0]] + Inserted(s[1..], x)
  }

  /** The first `x` taken out. */
  function Removed(s: seq<int>, x: int): seq<int> {
    if s == [] then [] else if s[0] == x then s[1..] else [s[0]] + Removed(s[1..], x)
  }

  /** The number of elements before the insertion point. */
  function Rank(s: seq<int>, x: int): (k: nat)
    ensures k <= |s|
  {
    if s == [] || x < s[0] then 0 else 1 + Rank(s[1..], x)
  }

  lemma RankStep(s: seq<int>, x: int, r: nat)
    requires s != [] && !(x < s[0]) && r == Rank(s[1..], x)
    ensures Rank(s, x) == r + 1 && Inserted(s, x) == [s[0]] + Inserted(s[1..], x)
  {
  }

  lemma {:induction false} InsertedAtRank(s: seq<int>, x: int)
    ensures Inserted(s, x) == s[..Rank(s, x)] + [x] + s[Rank(s, x)..]
    ensures forall k :: 0 <= k < Rank(s, x) ==> !(x < s[k])
    ensures Rank(s, x) < |s| ==> x < s[Rank(s, x)]
  {
    if s != [] && !(x < s[0]) {
      InsertedAtRank(s[1..], x);
      var r := Rank(s[1..], x);
      RankStep(s, x, r);
      hide Inserted, Rank;
      var t := s[1..];
      assert [s[0]] + (t[..r] + [x] + t[r..]) == ([s[0]] + t[..r]) + [x] + t[r..];
      assert s[..r + 1] == [s[0]] + t[..r] && s[r + 1..] == t[r..];
      forall k | 0 <= k < r + 1 ensures !(x < s[k]) { assert k > 0 ==> s[k] == t[k - 1]; }
    }
  }

  lemma RankIs(s: seq<int>, x: int, k: nat)
    requires k <= |s| && (forall j :: 0 <= j < k ==> !(x < s[j])) && (k < |s| ==> x < s[k])
    ensures Rank(s, x) == k
  {
    InsertedAtRank(s, x);
  }

  /** An ascending list stays ascending, and gains exactly the new address. */
  lemma InsertedAscending(s: seq<int>, x: int)
    requires Ascending(s) && x !in s
    ensures Ascending(Inserted(s, x))
    ensures forall y :: y in Inserted(s, x) <==> y in s || y == x
  {
    InsertedAtRank(s, x);
    var r, t := Rank(s, x), Inserted(s, x);
    hide Inserted, Rank;
    forall i, j | 0 <= i < j < |t| ensures t[i] < t[j] { InsertedPair(s, x, r, i, j); }
    assert s == s[..r] + s[r..];
  }

  lemma InsertedPair(s: seq<int>, x: int, r: nat, i: nat, j: nat)
    requires Ascending(s) && x !in s && r <= |s| && i < j <= |s|
    requires (forall k :: 0 <= k < r ==> !(x < s[k])) && (r < |s| ==> x < s[r])
    ensures (s[..r] + [x] + s[r..])[i] < (s[..r] + [x] + s[r..])[j]
  {
    if i < r { assert s[i] in s; }
  }

  lemma {:induction false} RemovedAt(s: seq<int>, k: nat)
    requires k < |s| && Distinct(s)
    ensures Removed(s, s[k]) == s[..k] + s[k + 1..]
  {
    if k == 0 {
      assert s[..0] + s[1..] == s[1..];
    } else {
      assert s[0] != s[k];
      RemovedAt(s[1..], k - 1);
      assert s[..k] == [s[0]] + s[1..][..k - 1] && s[1..][k..] == s[k + 1..];
    }
  }

  lemma {:induction false} RemovedAbsent(s: seq<int>, x: int)
    requires x !in s
    ensures Removed(s, x) == s
  {
    if s != [] { RemovedAbsent(s[1..], x); }
  }

  /** Removing a member leaves the others, in order. */
  lemma RemovedAscending(s: seq<int>, x: int)
    requires Ascending(s)
    ensures Ascending(Removed(s, x))
    ensures forall y :: y in Removed(s, x) <==> y in s && y != x
  {
    if x in s {
      var k :| 0 <= k < |s| && s[k] == x;
      RemovedAt(s, k);
      CutAscending(s, k);
    } else {
      RemovedAbsent(s, x);
    }
  }

  /** A list without its element `k`. */
  lemma CutElements(s: seq<int>, k: nat)
    requires Distinct(s) && k < |s|
    ensures Distinct(s[..k] + s[k + 1..])
    ensures forall y :: y in s[..k] + s[k + 1..] <==> y in s && y != s[k]
  {
    var t := s[..k] + s[k + 1..];
    forall y ensures y in t <==> y in s && y != s[k] {
      if y in s && y != s[k] {
        var i :| 0 <= i < |s| && s[i] == y;
        assert t[if i < k then i else i - 1] == y;
      }
      if y in t {
        var i :| 0 <= i < |t| && t[i] == y;
        assert s[if i < k then i else i + 1] == y;
      }
    }
  }

  lemma CutAscending(s: seq<int>, k: nat)
    requires Ascending(s) && k < |s|
    ensures Ascending(s[..k] + s[k + 1..])
    ensures forall y :: y in s[..k] + s[k + 1..] <==> y in s && y != s[k]
  {
    assert Distinct(s);
    CutElements(s, k);
  }

  /** Freeing what has just been inserted restores the list. */
  lemma {:induction false} InsertThenRemove(s: seq<int>, x: int)
    requires x !in s
    ensures Removed(Inserted(s, x), x) == s
  {
    var t := Inserted(s, x);
    if s == [] || x < s[0] {
      assert t[1..] == s;
    } else {
      assert t[1..] == Inserted(s[1..], x);
      InsertThenRemove(s[1..], x);
    }
  }

  // ---------------------------------------------------------------- the list in memory

  class LargeArena {
    // The head of the list, the C field `allocated`.
    var inUse: int
    // The `large_next` field of each mapped LARGE chunk, by its address.
    var next: map<int, int>

    ghost predicate Holds(s: seq<int>)
      reads this
    {
      IsList(next, inUse, s) && Ascending(s)
    }

    /** `lot` is the address of the chunk whose `large_next` is meant, NULL for the list head. */
    method SetLot(lot: int, x: int)
      requires lot == NULL || lot in next
      modifies this
      ensures inUse == (if lot == NULL then x else old(inUse))
      ensures next == if lot == NULL then old(next) else old(next)[lot := x]
    {
      if lot == NULL { inUse := x; } else { next := next[lot := x]; }
    }

    method InsertChunk(chunk: int, ghost s: seq<int>)
      requires Holds(s) && chunk !in s && chunk in next && chunk != NULL
      modifies this
      ensures Holds(Inserted(s, chunk)) && SameOutside(old(next), next, s + [chunk])
    {
      var lot, back := NULL, inUse;
      ghost var k := 0;
      InsertStart(next, inUse, s, chunk);
      hide IsList, Ascending;
      while back != NULL && !(chunk < back)
        invariant next == old(next) && inUse == old(inUse)
        invariant InsertAt(s, chunk, k, lot, back)
        decreases |s| - k
      {
        InsertStep(next, inUse, s, chunk, k, lot, back);
        lot := back;
        back := next[back];
        k := k + 1;
      }
      InsertDone(next, inUse, s, chunk, k, lot, back);
      next := next[chunk := back];
      SetLot(lot, chunk);
    }

    /** The unlinking in free_from_large_zone; a chunk that is not in the list is reported and left alone. */
    method RemoveChunk(chunk: int, ghost s: seq<int>) returns (found: bool)
      requires Holds(s) && chunk != NULL
      modifies this
      ensures found <==> chunk in s
      ensures Holds(Removed(s, chunk))
      ensures found ==> chunk in next && next[chunk] == NULL
      ensures SameOutside(old(next), next, s)
    {
      var head, front := inUse, false;
      ghost var k := 0;
      SeekStart(next, inUse, s, chunk);
      Untouched(next, s);
      hide IsList, Ascending, SoughtAt, SameOutside, Removed;
      while true
        invariant next == old(next) && inUse == old(inUse) && k <= |s|
        invariant SoughtAt(s, chunk, k, head)
        decreases |s| - k
      {
        SeekStep(next, inUse, s, chunk, k, head);
        if head == NULL { return false; }
        if head == chunk {
          front := true;
          break;
        }
        var after := next[head];
        if after == chunk { k := k + 1; break; }
        head := after;
        k := k + 1;
      }
      RemoveDone(next, inUse, s, chunk, k);
      var after := next[chunk];
      if front { inUse := after; } else { next := next[head := after]; }
      next := next[chunk := NULL];
      return true;
    }
  }

  /**
    The search in free_from_large_zone at position `k`: past the front, the chunk would have been seen one step
    earlier.
  */
  ghost predicate SoughtAt(s: seq<int>, chunk: int, k: nat, head: int) {
    k <= |s| && head == Pointer(s, k) && (forall j :: 0 <= j < k ==> s[j] != chunk) && (k > 0 ==> head != chunk)
  }

  lemma Untouched(next: map<int, int>, s: seq<int>)
    ensures SameOutside(next, next, s)
  {
  }

  lemma SeekStart(next: map<int, int>, head: int, s: seq<int>, chunk: int)
    requires IsList(next, head, s)
    ensures SoughtAt(s, chunk, 0, head)
  {
  }

  lemma SeekStep(next: map<int, int>, first: int, s: seq<int>, chunk: int, k: nat, head: int)
    requires IsList(next, first, s) && SoughtAt(s, chunk, k, head) && chunk != NULL
    ensures head == NULL ==> chunk !in s && Removed(s, chunk) == s
    ensures head != NULL ==> k < |s| && head == s[k] && head in next
    ensures head == chunk ==> k == 0
    ensures head != NULL && head != chunk && next[head] == chunk ==> k + 1 < |s| && s[k + 1] == chunk
    ensures head != NULL && head != chunk && next[head] != chunk ==> SoughtAt(s, chunk, k + 1, next[head])
  {
    if head == NULL { NotFound(s, chunk, k); } else { ListAt(next, first, s, k); }
  }

  /** The insertion loop at position `k`. */
  ghost predicate InsertAt(s: seq<int>, chunk: int, k: nat, lot: int, back: int) {
    && k <= |s| && back == Pointer(s, k) && lot == (if k == 0 then NULL else s[k - 1])
    && forall j :: 0 <= j < k ==> !(chunk < s[j])
  }

  lemma InsertStart(next: map<int, int>, head: int, s: seq<int>, chunk: int)
    requires IsList(next, head, s)
    ensures InsertAt(s, chunk, 0, NULL, head)
  {
  }

  lemma InsertStep(next: map<int, int>, head: int, s: seq<int>, chunk: int, k: nat, lot: int, back: int)
    requires IsList(next, head, s) && InsertAt(s, chunk, k, lot, back) && back != NULL && !(chunk < back)
    ensures k < |s| && back in next && InsertAt(s, chunk, k + 1, back, next[back])
  {
    ListAt(next, head, s, k);
  }

  lemma InsertDone(next: map<int, int>, head: int, s: seq<int>, chunk: int, k: nat, lot: int, back: int)
    requires IsList(next, head, s) && Ascending(s) && InsertAt(s, chunk, k, lot, back) && (back == NULL || chunk < back)
    requires chunk !in s && chunk in next && chunk != NULL
    ensures lot == NULL || lot in next
    ensures var linked := next[chunk := back];
            IsList(if lot == NULL then linked else linked[lot := chunk], if lot == NULL then chunk else head,
                   Inserted(s, chunk))
    ensures Ascending(Inserted(s, chunk)) && (lot != NULL ==> lot in s)
  {
    if k > 0 { ListAt(next, head, s, k - 1); }
    RankIs(s, chunk, k);
    InsertedAtRank(s, chunk);
    InsertedAscending(s, chunk);
    SpliceIn(next, head, s, k, chunk);
    hide Inserted, Rank, IsList, Ascending;
  }

  lemma NotFound(s: seq<int>, chunk: int, k: nat)
    requires k <= |s| && Pointer(s, k) == NULL && NULL !in s && forall j :: 0 <= j < k ==> s[j] != chunk
    ensures chunk !in s && Removed(s, chunk) == s
  {
    NullIsEnd(s, k);
    RemovedAbsent(s, chunk);
  }

  lemma UnlinkedOutside(next: map<int, int>, s: seq<int>, k: nat)
    requires k < |s| && s[k] in next && (k > 0 ==> s[k - 1] in next)
    ensures SameOutside(next, SplicedOut(next, s, k), s)
  {
    assert s[k] in s && (k > 0 ==> s[k - 1] in s);
  }

  lemma RemoveDone(next: map<int, int>, head: int, s: seq<int>, chunk: int, k: nat)
    requires IsList(next, head, s) && Ascending(s) && k < |s| && s[k] == chunk
    ensures chunk in next && (k > 0 ==> s[k - 1] in next) && chunk in s && SameOutside(next, SplicedOut(next, s, k), s)
    ensures IsList(SplicedOut(next, s, k), if k == 0 then next[chunk] else head, Removed(s, chunk)) &&
            Ascending(Removed(s, chunk))
  {
    ListAt(next, head, s, k);
    if k > 0 { ListAt(next, head, s, k - 1); }
    hide Removed, IsList, Ascending, SameOutside;
    IsDistinct(next, head, s);
    RemovedAt(s, k);
    RemovedAscending(s, chunk);
    SpliceOut(next, head, s, k);
    UnlinkedOutside(next, s, k);
  }

  lemma IsDistinct(next: map<int, int>, head: int, s: seq<int>)
    requires IsList(next, head, s)
    ensures Distinct(s)
  {
  }
}
