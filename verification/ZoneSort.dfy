/**
  Sorting the zone list by address: merge_zone_lists, divide_and_sort and sort_zone_list of srcs/zone_utils.c.
*/
module ZoneSort {
  import opened LinkedLists

  // ---------------------------------------------------------------- what the functions compute

  function Merge(a: seq<int>, b: seq<int>): seq<int> {
    if a == [] then b
    else if b == [] then a
    else if a[0] < b[0] then [a[0]] + Merge(a[1..], b)
    else [b[0]] + Merge(a, b[1..])
  }

  predicate InOrder(s: seq<int>, k: nat)
    requires k < |s|
  {
    k + 1 == |s| || s[k] < s[k + 1]
  }

  /** The positions that the dividing loop looks at: all of the front half, and the odd ones of the back half. */
  predicate Checked(length: nat, k: nat) {
    2 * k < length || k % 2 == 1
  }

  /** The flag `sorted` at the end of the dividing loop. */
  predicate LooksSorted(s: seq<int>) {
    forall k :: 0 <= k < |s| && Checked(|s|, k) ==> InOrder(s, k)
  }

  function DivideAndSort(s: seq<int>): seq<int>
    decreases |s|
  {
    if |s| <= 1 || LooksSorted(s) then s
    else Merge(DivideAndSort(s[..(|s| + 1) / 2]), DivideAndSort(s[(|s| + 1) / 2..]))
  }

  /** The zones at the positions that the flag skips, even ones of the back half, are below their successors. */
  predicate SkippedInOrder(s: seq<int>) {
    forall k :: 0 <= k < |s| && !Checked(|s|, k) ==> InOrder(s, k)
  }

  /** At every early exit, here and in the recursive calls, the skipped positions are in order. */
  predicate EarlyExitsAreRight(s: seq<int>)
    decreases |s|
  {
    |s| <= 1 ||
    if LooksSorted(s) then SkippedInOrder(s)
    else EarlyExitsAreRight(s[..(|s| + 1) / 2]) && EarlyExitsAreRight(s[(|s| + 1) / 2..])
  }

  // ---------------------------------------------------------------- properties

  lemma {:induction false} MergePermutes(a: seq<int>, b: seq<int>)
    ensures multiset(Merge(a, b)) == multiset(a) + multiset(b)
    ensures |Merge(a, b)| == |a| + |b|
  {
    if a != [] && b != [] {
      if a[0] < b[0] {
        MergePermutes(a[1..], b);
        assert a == [a[0]] + a[1..];
        AddFirst(a[0], a[1..], b, Merge(a[1..], b));
      } else {
        MergePermutes(a, b[1..]);
        assert b == [b[0]] + b[1..];
        AddFirst(b[0], b[1..], a, Merge(a, b[1..]));
      }
    }
  }

  lemma AddFirst(x: int, c: seq<int>, d: seq<int>, m: seq<int>)
    requires multiset(m) == multiset(c) + multiset(d)
    ensures multiset([x] + m) == multiset([x] + c) + multiset(d)
  {
    assert multiset([x] + m) == multiset{x} + multiset(m) && multiset([x] + c) == multiset{x} + multiset(c);
  }

  lemma MergedFrom(a: seq<int>, b: seq<int>, x: int)
    ensures x in Merge(a, b) <==> x in a || x in b
  {
    MergePermutes(a, b);
    assert x in Merge(a, b) <==> x in multiset(Merge(a, b));
    assert x in a <==> x in multiset(a);
    assert x in b <==> x in multiset(b);
  }

  predicate Below(x: int, s: seq<int>) {
    forall y :: y in s ==> x < y
  }

  lemma AscendingCons(x: int, s: seq<int>)
    ensures Ascending([x] + s) <==> Ascending(s) && Below(x, s)
  {
    var t := [x] + s;
    if Ascending(t) {
      forall i, j | 0 <= i < j < |s| ensures s[i] < s[j] { assert t[i + 1] < t[j + 1]; }
      forall y | y in s ensures x < y { var i :| 0 <= i < |s| && s[i] == y; assert t[0] < t[i + 1]; }
    }
    if Ascending(s) && Below(x, s) {
      forall i, j | 0 <= i < j < |t| ensures t[i] < t[j] { assert t[j] == s[j - 1] && s[j - 1] in s; }
    }
  }

  lemma BelowMerge(x: int, a: seq<int>, b: seq<int>)
    ensures Below(x, Merge(a, b)) <==> Below(x, a) && Below(x, b)
  {
    forall y ensures y in Merge(a, b) <==> y in a || y in b { MergedFrom(a, b, y); }
  }

  lemma BelowAll(x: int, s: seq<int>)
    requires s != [] && Ascending(s) && x < s[0]
    ensures Below(x, s)
  {
  }

  /** Merging disjoint ascending lists gives an ascending list, and only they do. */
  lemma {:induction false} MergeAscendingIff(a: seq<int>, b: seq<int>)
    requires forall x :: x in a ==> x !in b
    ensures Ascending(Merge(a, b)) <==> Ascending(a) && Ascending(b)
    decreases |a| + |b|, 0
  {
    if a != [] && b != [] {
      assert a == [a[0]] + a[1..] && b == [b[0]] + b[1..];
      assert a[0] in a && b[0] in b;
      if a[0] < b[0] { MergeFront(a[0], a[1..], b); } else { MergeBack(a, b[0], b[1..]); }
    }
  }

  lemma MergeFront(x: int, c: seq<int>, b: seq<int>)
    requires b != [] && x < b[0] && forall y :: y in [x] + c ==> y !in b
    ensures Ascending([x] + Merge(c, b)) <==> Ascending([x] + c) && Ascending(b)
    decreases |c| + |b|, 1
  {
    assert forall y :: y in c ==> y in [x] + c;
    MergeAscendingIff(c, b);
    AscendingCons(x, Merge(c, b));
    AscendingCons(x, c);
    BelowMerge(x, c, b);
    if Ascending(b) { BelowAll(x, b); }
    hide Ascending, Below;
  }

  lemma MergeBack(a: seq<int>, x: int, d: seq<int>)
    requires a != [] && x < a[0] && forall y :: y in a ==> y !in [x] + d
    ensures Ascending([x] + Merge(a, d)) <==> Ascending(a) && Ascending([x] + d)
    decreases |a| + |d|, 1
  {
    assert forall y :: y in d ==> y in [x] + d;
    MergeAscendingIff(a, d);
    AscendingCons(x, Merge(a, d));
    AscendingCons(x, d);
    BelowMerge(x, a, d);
    if Ascending(a) { BelowAll(x, a); }
    hide Ascending, Below;
  }

  lemma {:induction false} SortPermutes(s: seq<int>)
    ensures multiset(DivideAndSort(s)) == multiset(s)
    ensures |DivideAndSort(s)| == |s|
    decreases |s|
  {
    if |s| > 1 && !LooksSorted(s) {
      var h := (|s| + 1) / 2;
      SortPermutes(s[..h]);
      SortPermutes(s[h..]);
      SortUnfolds(s);
      hide LooksSorted, Merge, DivideAndSort;
      MergePermutes(DivideAndSort(s[..h]), DivideAndSort(s[h..]));
      HalvesHoldAll(s, h);
    }
  }

  lemma HalvesHoldAll(s: seq<int>, h: nat)
    requires h <= |s|
    ensures multiset(s) == multiset(s[..h]) + multiset(s[h..])
  {
    assert s == s[..h] + s[h..];
  }

  lemma SortedFrom(s: seq<int>, x: int)
    ensures x in DivideAndSort(s) <==> x in s
  {
    SortPermutes(s);
    assert x in s <==> x in multiset(s);
    assert x in DivideAndSort(s) <==> x in multiset(DivideAndSort(s));
  }

  /** On a list that passes the flag, the skipped positions decide. */
  lemma SkippedPositionsDecide(s: seq<int>)
    requires LooksSorted(s)
    ensures Ascending(s) <==> SkippedInOrder(s)
  {
    if SkippedInOrder(s) {
      forall k | 0 <= k < |s| ensures InOrder(s, k) { assert Checked(|s|, k) || !Checked(|s|, k); }
      NeighboursSuffice(s);
    }
  }

  /** The result is in order exactly when at every early exit the positions that the flag has skipped are in order. */
  lemma {:induction false} SortsIff(s: seq<int>)
    requires Distinct(s)
    ensures Ascending(DivideAndSort(s)) <==> EarlyExitsAreRight(s)
    decreases |s|
  {
    if |s| > 1 && LooksSorted(s) {
      SkippedPositionsDecide(s);
    } else if |s| > 1 {
      var h := (|s| + 1) / 2;
      var a, b := s[..h], s[h..];
      SortsIff(a);
      SortsIff(b);
      forall x | x in DivideAndSort(a) ensures x !in DivideAndSort(b) {
        SortedFrom(a, x);
        SortedFrom(b, x);
        var i :| 0 <= i < h && s[i] == x;
      }
      MergeAscendingIff(DivideAndSort(a), DivideAndSort(b));
    }
  }

  /** The flag does not see position 2 of four. */
  lemma FlagMissesADescent()
    ensures DivideAndSort([1, 2, 4, 3]) == [1, 2, 4, 3] && !Ascending(DivideAndSort([1, 2, 4, 3]))
    ensures LooksSorted([1, 2, 4, 3]) && !SkippedInOrder([1, 2, 4, 3])
  {
    var s := [1, 2, 4, 3];
    assert LooksSorted(s);
    assert !Checked(|s|, 2) && !InOrder(s, 2);
    assert !(s[2] < s[3]);
  }

  lemma NeighboursSuffice(s: seq<int>)
    requires forall k :: 0 <= k < |s| ==> InOrder(s, k)
    ensures Ascending(s)
  {
    forall i, j | 0 <= i < j < |s| ensures s[i] < s[j] { Chained(s, i, j); }
  }

  lemma {:induction false} Chained(s: seq<int>, i: nat, j: nat)
    requires i < j < |s| && forall k :: 0 <= k < |s| ==> InOrder(s, k)
    ensures s[i] < s[j]
    decreases j
  {
    assert InOrder(s, j - 1);
    if i < j - 1 { Chained(s, i, j - 1); }
  }

  /** Every early exit on a sorted list with one new zone pushed to its front is right. */
  lemma {:induction false} SortsAfterOnePush(s: seq<int>)
    requires s != [] && Ascending(s[1..])
    ensures EarlyExitsAreRight(s)
    decreases |s|
  {
    forall k | 1 <= k < |s| ensures InOrder(s, k) {
      if k + 1 < |s| { assert s[1..][k - 1] < s[1..][k]; }
    }
    if |s| > 1 {
      assert Checked(|s|, 0);
      if !LooksSorted(s) {
        var h := (|s| + 1) / 2;
        assert s[..h][1..] == s[1..][..h - 1] && s[h..] == s[1..][h - 1..];
        SortsAfterOnePush(s[..h]);
        SortsAfterOnePush(s[h..]);
      }
    }
  }

  /** A sorted list with one new zone pushed to its front comes out sorted. */
  lemma PushedListIsSorted(s: seq<int>)
    requires s != [] && Distinct(s) && Ascending(s[1..])
    ensures Ascending(DivideAndSort(s))
  {
    SortsAfterOnePush(s);
    SortsIff(s);
    hide *;
  }

  /** Half-way through a merge: `done` is linked up but for its last zone, the rests of `a` and `b` are still lists. */
  ghost predicate Weaving(next: map<int, int>, a: seq<int>, b: seq<int>, i: nat, j: nat, done: seq<int>) {
    && i <= |a| && j <= |b|
    && Linked(next, a, i) && Linked(next, b, j)
    && Merge(a, b) == done + Merge(a[i..], b[j..])
    && (forall k :: 0 <= k < |done| ==> done[k] in next)
    && (forall k :: 0 <= k < |done| - 1 ==> next[done[k]] == done[k + 1])
  }

  ghost predicate Separate(a: seq<int>, b: seq<int>) {
    Distinct(a) && Distinct(b) && NULL !in a && NULL !in b && forall x :: x in a ==> x !in b
  }

  /** A merge does not repeat zones. */
  lemma {:induction false} MergeDistinct(a: seq<int>, b: seq<int>)
    requires Separate(a, b)
    ensures Distinct(Merge(a, b)) && NULL !in Merge(a, b)
  {
    forall x ensures x in Merge(a, b) <==> x in a || x in b { MergedFrom(a, b, x); }
    if a != [] && b != [] {
      if a[0] < b[0] {
        MergeDistinct(a[1..], b);
        forall x ensures x in Merge(a[1..], b) <==> x in a[1..] || x in b { MergedFrom(a[1..], b, x); }
        DistinctCons(a[0], Merge(a[1..], b));
      } else {
        MergeDistinct(a, b[1..]);
        forall x ensures x in Merge(a, b[1..]) <==> x in a || x in b[1..] { MergedFrom(a, b[1..], x); }
        DistinctCons(b[0], Merge(a, b[1..]));
      }
    }
  }

  lemma DistinctCons(x: int, s: seq<int>)
    requires Distinct(s) && x !in s
    ensures Distinct([x] + s)
  {
  }

  lemma MergeUnfold(a: seq<int>, b: seq<int>, i: nat, j: nat, fromA: bool)
    requires i <= |a| && j <= |b| && (i < |a| || j < |b|)
    requires fromA == (j == |b| || (i < |a| && a[i] < b[j]))
    ensures Merge(a[i..], b[j..]) == if fromA then [a[i]] + Merge(a[i + 1..], b[j..])
            else [b[j]] + Merge(a[i..], b[j + 1..])
  {
    var c, d := a[i..], b[j..];
    if fromA { assert c[0] == a[i] && c[1..] == a[i + 1..]; } else { assert d[0] == b[j] && d[1..] == b[j + 1..]; }
    if d == [] { assert Merge(a[i + 1..], d) == a[i + 1..]; }
    if c == [] { assert Merge(c, b[j + 1..]) == b[j + 1..]; }
  }

  lemma MergeMoves(a: seq<int>, b: seq<int>, i: nat, j: nat, done: seq<int>, fromA: bool, x: int)
    requires i <= |a| && j <= |b| && (i < |a| || j < |b|) && Merge(a, b) == done + Merge(a[i..], b[j..])
    requires fromA == (j == |b| || (i < |a| && a[i] < b[j])) && x == if fromA then a[i] else b[j]
    ensures Merge(a, b) == (done + [x]) + if fromA then Merge(a[i + 1..], b[j..]) else Merge(a[i..], b[j + 1..])
  {
    MergeUnfold(a, b, i, j, fromA);
    hide Merge;
    var rest := if fromA then Merge(a[i + 1..], b[j..]) else Merge(a[i..], b[j + 1..]);
    assert done + ([x] + rest) == (done + [x]) + rest;
  }

  lemma PartsApart(s: seq<int>, t: seq<int>)
    requires Distinct(s + t)
    ensures forall x :: x in t ==> x !in s
  {
    forall k, m | 0 <= k < |s| && 0 <= m < |t| ensures s[k] != t[m] {
      assert (s + t)[k] == s[k] && (s + t)[|s| + m] == t[m];
    }
  }

  /** What has been merged is apart from what has not. */
  lemma DoneApart(a: seq<int>, b: seq<int>, i: nat, j: nat, done: seq<int>)
    requires Separate(a, b) && i <= |a| && j <= |b| && Merge(a, b) == done + Merge(a[i..], b[j..])
    ensures Distinct(done) && NULL !in done
    ensures forall k, m :: 0 <= k < |done| && i <= m < |a| ==> a[m] != done[k]
    ensures forall k, m :: 0 <= k < |done| && j <= m < |b| ==> b[m] != done[k]
    ensures forall x :: x in done ==> x in a + b
  {
    MergeDistinct(a, b);
    var s, rest := Merge(a, b), Merge(a[i..], b[j..]);
    forall x | x in done ensures x in a + b && x != NULL {
      MergedFrom(a, b, x);
      assert x in s;
    }
    PartsApart(done, rest);
    forall m | i <= m < |a| ensures a[m] in rest { MergedFrom(a[i..], b[j..], a[m]); assert a[i..][m - i] == a[m]; }
    forall m | j <= m < |b| ensures b[m] in rest { MergedFrom(a[i..], b[j..], b[m]); assert b[j..][m - j] == b[m]; }
    forall k, l | 0 <= k < l < |done| ensures done[k] != done[l] { assert s[k] != s[l]; }
    hide Merge;
  }

  /** Linking `x` behind `done` does not disturb the lists that are left. */
  lemma WeaveLinks(next: map<int, int>, a: seq<int>, b: seq<int>, i: nat, j: nat, done: seq<int>, x: int,
                   next': map<int, int>)
    requires Weaving(next, a, b, i, j, done) && Separate(a, b) && x in next
    requires next' == if done == [] then next else next[done[|done| - 1] := x]
    ensures Linked(next', a, i) && Linked(next', b, j)
    ensures forall k :: 0 <= k < |done + [x]| ==> (done + [x])[k] in next'
    ensures forall k :: 0 <= k < |done + [x]| - 1 ==> next'[(done + [x])[k]] == (done + [x])[k + 1]
  {
    DoneApart(a, b, i, j, done);
    hide Merge, Separate;
    if done != [] {
      var last := |done| - 1;
      forall m | i <= m < |a| ensures a[m] in next' && next'[a[m]] == Pointer(a, m + 1) { assert a[m] != done[last]; }
      forall m | j <= m < |b| ensures b[m] in next' && next'[b[m]] == Pointer(b, m + 1) { assert b[m] != done[last]; }
    }
    WovenPart(next, done, x, next');
    hide Linked, Pointer;
  }

  lemma WovenPart(next: map<int, int>, done: seq<int>, x: int, next': map<int, int>)
    requires Distinct(done) && x in next && (forall k :: 0 <= k < |done| ==> done[k] in next)
    requires forall k :: 0 <= k < |done| - 1 ==> next[done[k]] == done[k + 1]
    requires next' == if done == [] then next else next[done[|done| - 1] := x]
    ensures forall k :: 0 <= k < |done + [x]| ==> (done + [x])[k] in next'
    ensures forall k :: 0 <= k < |done + [x]| - 1 ==> next'[(done + [x])[k]] == (done + [x])[k + 1]
  {
    forall k | 0 <= k < |done| ensures (done + [x])[k] == done[k] && next'[done[k]] == (done + [x])[k + 1] {
      assert k < |done| - 1 ==> done[k] != done[|done| - 1] && (done + [x])[k + 1] == done[k + 1];
    }
  }

  /** A zone is taken from the front of `a` or of `b` and linked behind `done`. */
  lemma WeaveStep(next: map<int, int>, a: seq<int>, b: seq<int>, i: nat, j: nat, done: seq<int>, fromA: bool, x: int,
                  next': map<int, int>)
    requires Weaving(next, a, b, i, j, done) && Separate(a, b) && (i < |a| || j < |b|)
    requires fromA == (j == |b| || (i < |a| && a[i] < b[j])) && x == if fromA then a[i] else b[j]
    requires next' == if done == [] then next else next[done[|done| - 1] := x]
    ensures Weaving(next', a, b, if fromA then i + 1 else i, if fromA then j else j + 1, done + [x])
  {
    MergeMoves(a, b, i, j, done, fromA, x);
    assert x in next by {
      if fromA { assert next[a[i]] == Pointer(a, i + 1); } else { assert next[b[j]] == Pointer(b, j + 1); }
    }
    WeaveLinks(next, a, b, i, j, done, x, next');
    hide Merge, Separate;
  }

  /** The state of the merging loop. */
  ghost predicate Merging(n0: map<int, int>, next: map<int, int>, a: seq<int>, b: seq<int>, i: nat, j: nat,
                          done: seq<int>, top: int, bottom: int, head: int, tail: int) {
    && Weaving(next, a, b, i, j, done) && Separate(a, b) && a + b != []
    && top == Pointer(a, i) && bottom == Pointer(b, j)
    && head == Pointer(done, 0) && tail == (if done == [] then NULL else done[|done| - 1])
    && SameOutside(n0, next, a + b)
  }

  lemma StartMerging(next: map<int, int>, first: int, second: int, a: seq<int>, b: seq<int>)
    requires IsList(next, first, a) && IsList(next, second, b) && Separate(a, b) && a + b != []
    ensures Merging(next, next, a, b, 0, 0, [], first, second, NULL, NULL)
  {
    assert a[0..] == a && b[0..] == b && [] + Merge(a, b) == Merge(a, b);
  }

  lemma FrontOf(next: map<int, int>, s: seq<int>, i: nat)
    requires Linked(next, s, i) && i <= |s| && NULL !in s
    ensures Pointer(s, i) == NULL <==> i == |s|
    ensures i < |s| ==> s[i] in next && next[s[i]] == Pointer(s, i + 1)
  {
    NullIsEnd(s, i);
  }

  lemma EndsOf(a: seq<int>, b: seq<int>, i: nat, j: nat, done: seq<int>)
    requires Separate(a, b) && i <= |a| && j <= |b| && Merge(a, b) == done + Merge(a[i..], b[j..])
    ensures done != [] ==> done[0] != NULL && done[|done| - 1] != NULL && done[|done| - 1] in a + b
  {
    DoneApart(a, b, i, j, done);
    hide Merge, Separate;
    if done != [] { assert done[0] in done && done[|done| - 1] in done; }
  }

  lemma StoredInside(n0: map<int, int>, next: map<int, int>, s: seq<int>, p: int, x: int)
    requires SameOutside(n0, next, s) && p in s && p in next
    ensures SameOutside(n0, next[p := x], s)
  {
  }

  lemma MergingStep(n0: map<int, int>, next: map<int, int>, a: seq<int>, b: seq<int>, i: nat, j: nat, done: seq<int>,
                    top: int, bottom: int, head: int, tail: int)
    requires Merging(n0, next, a, b, i, j, done, top, bottom, head, tail) && (top != NULL || bottom != NULL)
    ensures var fromA := bottom == NULL || (top != NULL && top < bottom);
            var x := if fromA then top else bottom;
            && i + j < |a| + |b| && i <= |a| && j <= |b| && (if fromA then i < |a| else j < |b|)
            && x in next
            && Merging(n0, if tail != NULL then next[tail := x] else next, a, b,
                       if fromA then i + 1 else i, if fromA then j else j + 1, done + [x],
                       if fromA then next[x] else top, if fromA then bottom else next[x],
                       if head == NULL then x else head, x)
  {
    FrontOf(next, a, i);
    FrontOf(next, b, j);
    EndsOf(a, b, i, j, done);
    hide Merge, Separate, Linked, SameOutside;
    var fromA := bottom == NULL || (top != NULL && top < bottom);
    var x := if fromA then top else bottom;
    WeaveStep(next, a, b, i, j, done, fromA, x, if tail != NULL then next[tail := x] else next);
    if tail != NULL { StoredInside(n0, next, a + b, tail, x); }
    hide Weaving;
  }

  lemma EndMerging(n0: map<int, int>, next: map<int, int>, a: seq<int>, b: seq<int>, i: nat, j: nat, done: seq<int>,
                   top: int, bottom: int, head: int, tail: int)
    requires Merging(n0, next, a, b, i, j, done, top, bottom, head, tail) && top == NULL && bottom == NULL
    ensures IsList(next[tail := NULL], head, Merge(a, b)) && SameOutside(n0, next[tail := NULL], a + b)
  {
    DoneApart(a, b, i, j, done);
    NullIsEnd(a, i);
    NullIsEnd(b, j);
    assert Merge(a[i..], b[j..]) == [];
    assert Merge(a, b) == done;
    MergePermutes(a, b);
    hide Merge, Separate;
  }

  class ZoneLinks {
    // The `next` field of each zone, by the address of the zone.
    var next: map<int, int>

    method MergeZoneLists(first: int, second: int, ghost a: seq<int>, ghost b: seq<int>) returns (head: int)
      requires IsList(next, first, a) && IsList(next, second, b) && Separate(a, b) && a + b != []
      modifies this
      ensures IsList(next, head, Merge(a, b))
      ensures SameOutside(old(next), next, a + b)
    {
      var top, bottom, tail := first, second, NULL;
      head := NULL;
      ghost var n0, i, j, done: seq<int> := next, 0, 0, [];
      StartMerging(next, first, second, a, b);
      hide IsList, Separate, Merge, Merging, SameOutside;
      while top != NULL || bottom != NULL
        invariant Merging(n0, next, a, b, i, j, done, top, bottom, head, tail)
        decreases |a| - i + |b| - j
      {
        MergingStep(n0, next, a, b, i, j, done, top, bottom, head, tail);
        var temp;
        if bottom == NULL || (top != NULL && top < bottom) {
          temp := top;
          top := next[top];
          i := i + 1;
        } else {
          temp := bottom;
          bottom := next[bottom];
          j := j + 1;
        }
        if tail != NULL { next := next[tail := temp]; }
        tail := temp;
        done := done + [temp];
        if head == NULL { head := tail; }
      }
      EndMerging(n0, next, a, b, i, j, done, top, bottom, head, tail);
      next := next[tail := NULL];
    }

    /**
      The dividing loop of divide_and_sort: `bottom` runs two zones for each one of `top`, and all of them are
      checked.
    */
    method Divide(list: int, ghost s: seq<int>) returns (sorted: bool, prevTop: int, top: int)
      requires IsList(next, list, s) && |s| >= 2
      ensures sorted <==> LooksSorted(s)
      ensures prevTop == s[(|s| + 1) / 2 - 1] && top == Pointer(s, (|s| + 1) / 2)
    {
      prevTop, top, sorted := NULL, list, true;
      var bottom := list;
      ghost var t := 0;
      ListEnds(next, list, s);
      assert Halfway(s, 0, NULL, list, list, true);
      hide IsList, LooksSorted, LooksSortedTo, InOrder, Halfway, Pointer;
      while bottom != NULL
        invariant Halfway(s, t, prevTop, top, bottom, sorted)
        decreases |s| + 1 - t
      {
        HalfwayStep(next, list, s, t, prevTop, top, bottom, sorted);
        sorted := sorted && (next[top] == NULL || top < next[top]);
        prevTop := top;
        top := next[top];
        bottom := next[bottom];
        if bottom != NULL {
          sorted := sorted && (next[bottom] == NULL || bottom < next[bottom]);
          bottom := next[bottom];
        }
        t := t + 1;
      }
      HalfwayDone(s, t, prevTop, top, sorted);
    }

    /** divide_and_sort. */
    method DivideAndSortList(list: int, ghost s: seq<int>) returns (head: int)
      requires IsList(next, list, s)
      modifies this
      ensures IsList(next, head, DivideAndSort(s)) && SameOutside(old(next), next, s)
      decreases |s|, 1
    {
      ListEnds(next, list, s);
      if s != [] { ListAt(next, list, s, 0); }
      SortUnfolds(s);
      assert SameOutside(next, next, s);
      hide IsList, Separate, DivideAndSort, LooksSorted, Merge, SameOutside;
      if list == NULL || next[list] == NULL { return list; }
      var sorted, prevTop, top := Divide(list, s);
      if sorted { return list; }
      head := CutAndSort(list, prevTop, top, s);
    }

    /** The cut of the list in two. */
    method CutAndSort(list: int, prevTop: int, top: int, ghost s: seq<int>) returns (head: int)
      requires IsList(next, list, s) && |s| >= 2
      requires prevTop == s[(|s| + 1) / 2 - 1] && top == Pointer(s, (|s| + 1) / 2)
      modifies this
      ensures IsList(next, head, Merge(DivideAndSort(s[..(|s| + 1) / 2]), DivideAndSort(s[(|s| + 1) / 2..])))
      ensures SameOutside(old(next), next, s)
      decreases |s|, 0, 1
    {
      ghost var t := (|s| + 1) / 2;
      ghost var n0 := next;
      HalvesAreLists(next, list, next[prevTop := NULL], s, t);
      next := next[prevTop := NULL];
      ghost var n1 := next;
      hide IsList, Separate, DivideAndSort, Merge, SameOutside;
      head := SortHalves(list, top, s[..t], s[t..]);
      SameOutsideAfterCut(n0, n1, next, s, t);
    }

    /** The two recursive calls and the merge. */
    method SortHalves(front: int, back: int, ghost a: seq<int>, ghost b: seq<int>) returns (head: int)
      requires IsList(next, front, a) && IsList(next, back, b) && Separate(a, b) && a != [] && b != []
      modifies this
      ensures IsList(next, head, Merge(DivideAndSort(a), DivideAndSort(b))) && SameOutside(old(next), next, a + b)
      decreases |a| + |b|, 0, 0
    {
      hide IsList, Separate, DivideAndSort, Merge, SameOutside;
      ghost var n0 := next;
      var first := DivideAndSortList(front, a);
      ghost var n1 := next;
      OtherListStays(n0, n1, a, back, b);
      var second := DivideAndSortList(back, b);
      ghost var n2 := next;
      SortedSeparate(a, b);
      SortedListStays(n1, n2, a, first, b);
      head := MergeZoneLists(first, second, DivideAndSort(a), DivideAndSort(b));
      Outside(n0, n1, n2, next, a, b);
    }
  }

  /** The state of the dividing loop after `t` rounds. */
  ghost predicate Halfway(s: seq<int>, t: nat, prevTop: int, top: int, bottom: int, sorted: bool) {
    && 2 * t <= |s| + 1 && top == Pointer(s, t) && bottom == Pointer(s, 2 * t)
    && prevTop == (if t == 0 || t > |s| then NULL else s[t - 1])
    && (sorted <==> LooksSortedTo(s, t))
  }

  lemma HalfwayDone(s: seq<int>, t: nat, prevTop: int, top: int, sorted: bool)
    requires Halfway(s, t, prevTop, top, NULL, sorted) && |s| >= 2 && forall k :: 0 <= k < |s| ==> s[k] != NULL
    ensures (sorted <==> LooksSorted(s)) && prevTop == s[(|s| + 1) / 2 - 1] && top == Pointer(s, (|s| + 1) / 2)
  {
    AllChecked(s, t);
    hide LooksSorted, LooksSortedTo;
  }

  lemma HalfwayStep(next: map<int, int>, list: int, s: seq<int>, t: nat, prevTop: int, top: int, bottom: int,
                    sorted: bool)
    requires IsList(next, list, s) && Halfway(s, t, prevTop, top, bottom, sorted) && bottom != NULL
    ensures top in next && bottom in next && t < |s|
    ensures var sorted1 := sorted && (next[top] == NULL || top < next[top]);
            var bottom1 := next[bottom];
            && (bottom1 == NULL ==> Halfway(s, t + 1, top, next[top], NULL, sorted1))
            && (bottom1 != NULL ==> bottom1 in next)
            && (bottom1 != NULL ==>
                  Halfway(s, t + 1, top, next[top], next[bottom1], sorted1 &&
                    (next[bottom1] == NULL || bottom1 < next[bottom1])))
  {
    hide LooksSortedTo, InOrder, Distinct;
    ListAt(next, list, s, t);
    ListAt(next, list, s, 2 * t);
    NextInOrder(s, t);
    LooksSortedStep(s, t);
    if 2 * t + 1 < |s| {
      ListAt(next, list, s, 2 * t + 1);
      NextInOrder(s, 2 * t + 1);
    }
    hide IsList;
  }

  /** What IS_IN_ORDER sees in memory. */
  lemma NextInOrder(s: seq<int>, k: nat)
    requires k < |s| && (k + 1 < |s| ==> s[k + 1] != NULL)
    ensures InOrder(s, k) <==> Pointer(s, k + 1) == NULL || s[k] < Pointer(s, k + 1)
  {
  }

  lemma ListEnds(next: map<int, int>, head: int, s: seq<int>)
    requires IsList(next, head, s)
    ensures head == Pointer(s, 0) && forall k :: 0 <= k < |s| ==> s[k] != NULL
  {
  }

  lemma SameOutsideAfterCut(n0: map<int, int>, n1: map<int, int>, n2: map<int, int>, s: seq<int>, t: nat)
    requires 0 < t <= |s| && s[t - 1] in n0 && n1 == n0[s[t - 1] := NULL] && SameOutside(n1, n2, s[..t] + s[t..])
    ensures SameOutside(n0, n2, s)
  {
    assert s[..t] + s[t..] == s;
    assert s[t - 1] in s;
  }

  lemma SortUnfolds(s: seq<int>)
    ensures DivideAndSort(s) == if |s| <= 1 || LooksSorted(s) then s
                                else Merge(DivideAndSort(s[..(|s| + 1) / 2]), DivideAndSort(s[(|s| + 1) / 2..]))
  {
  }

  lemma OtherListStays(before: map<int, int>, after: map<int, int>, a: seq<int>, head: int, b: seq<int>)
    requires Separate(a, b) && IsList(before, head, b) && SameOutside(before, after, a)
    ensures IsList(after, head, b)
  {
    forall k | 0 <= k < |b| ensures b[k] in after && after[b[k]] == Pointer(b, k + 1) {
      ListAt(before, head, b, k);
      assert b[k] in b;
      assert b[k] !in a;
    }
  }

  lemma SortedListStays(before: map<int, int>, after: map<int, int>, a: seq<int>, head: int, b: seq<int>)
    requires Separate(a, b) && IsList(before, head, DivideAndSort(a)) && SameOutside(before, after, b)
    ensures IsList(after, head, DivideAndSort(a))
  {
    var s := DivideAndSort(a);
    forall k | 0 <= k < |s| ensures s[k] in after && after[s[k]] == Pointer(s, k + 1) {
      SortedFrom(a, s[k]);
    }
    hide DivideAndSort;
  }

  lemma SortedSeparate(a: seq<int>, b: seq<int>)
    requires Separate(a, b)
    ensures Separate(DivideAndSort(a), DivideAndSort(b)) && (a + b != [] ==> DivideAndSort(a) + DivideAndSort(b) != [])
  {
    forall x ensures (x in DivideAndSort(a) <==> x in a) && (x in DivideAndSort(b) <==> x in b) {
      SortedFrom(a, x);
      SortedFrom(b, x);
    }
    SortedDistinct(a);
    SortedDistinct(b);
    SortPermutes(a);
    SortPermutes(b);
    hide DivideAndSort, Distinct;
  }

  lemma {:induction false} SortedDistinct(s: seq<int>)
    requires Distinct(s)
    ensures Distinct(DivideAndSort(s))
  {
    SortPermutes(s);
    OnceEach(s);
    var t := DivideAndSort(s);
    hide DivideAndSort;
    DistinctIfOnce(t);
  }

  lemma {:induction false} OnceEach(s: seq<int>)
    requires Distinct(s)
    ensures forall x :: multiset(s)[x] <= 1
  {
    if s != [] {
      OnceEach(s[1..]);
      assert s == [s[0]] + s[1..];
      assert s[0] !in s[1..];
    }
  }

  lemma DistinctIfOnce(t: seq<int>)
    requires forall x :: multiset(t)[x] <= 1
    ensures Distinct(t)
  {
    forall i, j | 0 <= i < j < |t| ensures t[i] != t[j] {
      assert t == t[..i] + [t[i]] + t[i + 1..j] + [t[j]] + t[j + 1..];
      assert multiset(t) == multiset(t[..i]) + multiset{t[i]} + multiset(t[i + 1..j]) + multiset{t[j]} +
             multiset(t[j + 1..]);
      assert multiset(t)[t[i]] >= if t[i] == t[j] then 2 else 1;
    }
  }

  lemma Outside(n0: map<int, int>, n1: map<int, int>, n2: map<int, int>, n3: map<int, int>, a: seq<int>, b: seq<int>)
    requires SameOutside(n0, n1, a) && SameOutside(n1, n2, b) &&
             SameOutside(n2, n3, DivideAndSort(a) + DivideAndSort(b))
    ensures SameOutside(n0, n3, a + b)
  {
    forall p | p in n0 && p !in a + b ensures n3[p] == n0[p] {
      assert p in n1 && p in n2 && p !in a && p !in b;
      SortedFrom(a, p);
      SortedFrom(b, p);
      assert p !in DivideAndSort(a) + DivideAndSort(b);
    }
    hide DivideAndSort;
  }

  ghost predicate LooksSortedTo(s: seq<int>, t: nat) {
    forall k :: 0 <= k < |s| && (k < t || (k % 2 == 1 && k < 2 * t)) ==> InOrder(s, k)
  }

  lemma LooksSortedStep(s: seq<int>, t: nat)
    requires 2 * t < |s|
    ensures LooksSortedTo(s, t + 1) <==>
              LooksSortedTo(s, t) && InOrder(s, t) && (2 * t + 1 < |s| ==> InOrder(s, 2 * t + 1))
  {
  }

  lemma AllChecked(s: seq<int>, t: nat)
    requires |s| <= 2 * t <= |s| + 1
    ensures LooksSortedTo(s, t) <==> LooksSorted(s)
  {
  }

  lemma HalvesAreLists(before: map<int, int>, list: int, after: map<int, int>, s: seq<int>, t: nat)
    requires IsList(before, list, s) && 0 < t < |s| && after == before[s[t - 1] := NULL]
    ensures s[t - 1] in before && IsList(after, list, s[..t]) && IsList(after, Pointer(s, t), s[t..]) &&
            Separate(s[..t], s[t..])
  {
  }
}
