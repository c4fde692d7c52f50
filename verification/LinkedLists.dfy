/**
  Singly linked lists in memory: the link of each node by its address, 0 for NULL, and the sequence a list stands for.
*/
module LinkedLists {
  predicate Ascending(s: seq<int>) {
    forall i, j :: 0 <= i < j < |s| ==> s[i] < s[j]
  }

  predicate Distinct<T(==)>(s: seq<T>) {
    forall i, j :: 0 <= i < j < |s| ==> s[i] != s[j]
  }

  const NULL: int := 0

  /** The pointer to element `k` of a list, NULL past its end. */
  function Pointer(s: seq<int>, k: nat): int {
    if k < |s| then s[k] else NULL
  }

  /** `s` from position `lo` on is linked up. */
  ghost predicate Linked(next: map<int, int>, s: seq<int>, lo: nat) {
    forall k :: lo <= k < |s| ==> s[k] in next && next[s[k]] == Pointer(s, k + 1)
  }

  ghost predicate IsList(next: map<int, int>, head: int, s: seq<int>) {
    Distinct(s) && NULL !in s && head == Pointer(s, 0) && Linked(next, s, 0)
  }

  /** The `next` fields of the zones outside `s` are as they were. */
  ghost predicate SameOutside(before: map<int, int>, after: map<int, int>, s: seq<int>) {
    before.Keys == after.Keys && forall p :: p in before && p !in s ==> after[p] == before[p]
  }

  /** Only the end of a list without null pointers is null. */
  lemma NullIsEnd(s: seq<int>, k: nat)
    requires NULL !in s && k <= |s|
    ensures Pointer(s, k) == NULL <==> k == |s|
  {
    if k < |s| {
      assert s[k] in s;
    }
  }

  lemma ListAt(next: map<int, int>, head: int, s: seq<int>, k: nat)
    requires IsList(next, head, s) && k < |s|
    ensures s[k] != NULL && s[k] in next && next[s[k]] == Pointer(s, k + 1)
    ensures k + 1 < |s| ==> s[k + 1] != NULL
  {
  }

  // ---------------------------------------------------------------- splicing

  /** The links after `x` is put in at position `k`. */
  function SplicedIn(next: map<int, int>, s: seq<int>, k: nat, x: int): map<int, int>
    requires k <= |s|
  {
    var linked := next[x := Pointer(s, k)];
    if k == 0 then linked else linked[s[k - 1] := x]
  }

  lemma SpliceInAt(next: map<int, int>, head: int, s: seq<int>, k: nat, x: int, i: nat)
    requires IsList(next, head, s) && k <= |s| && x !in s && x != NULL && i <= |s|
    ensures var t, n := s[..k] + [x] + s[k..], SplicedIn(next, s, k, x); t[i] in n && n[t[i]] == Pointer(t, i + 1)
  {
    if i < k { ListAt(next, head, s, i); }
    if i > k { ListAt(next, head, s, i - 1); }
    assert i < k ==> s[i] != x;
  }

  lemma SpliceIn(next: map<int, int>, head: int, s: seq<int>, k: nat, x: int)
    requires IsList(next, head, s) && k <= |s| && x !in s && x != NULL
    ensures IsList(SplicedIn(next, s, k, x), if k == 0 then x else head, s[..k] + [x] + s[k..])
  {
    var t := s[..k] + [x] + s[k..];
    forall i | 0 <= i < |t|
      ensures t[i] in SplicedIn(next, s, k, x) && SplicedIn(next, s, k, x)[t[i]] == Pointer(t, i + 1) {
      SpliceInAt(next, head, s, k, x, i);
    }
    forall i, j | 0 <= i < j < |t| ensures t[i] != t[j] {
      if i == k || j == k { assert s[if i == k then j - 1 else i] in s; }
    }
    hide SplicedIn;
  }

  /** The links after position `k` is taken out; the node itself gets NULL. */
  function SplicedOut(next: map<int, int>, s: seq<int>, k: nat): map<int, int>
    requires k < |s| && s[k] in next
  {
    (if k == 0 then next else next[s[k - 1] := next[s[k]]])[s[k] := NULL]
  }

  lemma SpliceOutAt(next: map<int, int>, head: int, s: seq<int>, k: nat, i: nat)
    requires IsList(next, head, s) && k < |s| && i < |s| - 1 && s[k] in next
    ensures var t, n := s[..k] + s[k + 1..], SplicedOut(next, s, k); t[i] in n && n[t[i]] == Pointer(t, i + 1)
  {
    ListAt(next, head, s, k);
    ListAt(next, head, s, if i < k then i else i + 1);
  }

  lemma SpliceOut(next: map<int, int>, head: int, s: seq<int>, k: nat)
    requires IsList(next, head, s) && k < |s|
    ensures s[k] in next && IsList(SplicedOut(next, s, k), if k == 0 then next[s[k]] else head, s[..k] + s[k + 1..])
  {
    ListAt(next, head, s, k);
    var t := s[..k] + s[k + 1..];
    forall i | 0 <= i < |t|
      ensures t[i] in SplicedOut(next, s, k) && SplicedOut(next, s, k)[t[i]] == Pointer(t, i + 1) {
      SpliceOutAt(next, head, s, k, i);
    }
    hide SplicedOut;
  }
}
