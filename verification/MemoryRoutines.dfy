/**
  The GO_FAST memory and string routines of libft.  Memory is one byte array and a pointer is an index into it, so
  ranges may overlap and word alignment is alignment of the index.
*/
module MemoryRoutines {
  import opened Sizes
  import opened Wrappers
  import opened NatBits
  import opened Words

  /** ft_memrest: the distance from `p` to the next word boundary. */
  function MemRest(p: size_t): nat {
    And((WORD - p) % WORD, 8 - 1)
  }

  lemma MemRestAligns(p: size_t)
    ensures MemRest(p) < 8 && (p + MemRest(p)) % 8 == 0
  {
    assert Pow2(3) == 8;
    hide And, Pow2;
    AndLowMask((WORD - p) % WORD, 3);
    Complement(p, (WORD - p) % WORD);
  }

  lemma Complement(p: size_t, d: nat)
    requires d == if p == 0 then 0 else WORD - p
    ensures (p + d % 8) % 8 == 0
  {
  }

  /** The masks `n & ~(8 - 1)` and `n & ~(32ull - 1)` test for a whole word, and for 32 bytes. */
  predicate AtLeastWord(n: size_t) { And(n, SIZE_MAX - (8 - 1)) != 0 }
  predicate AtLeast32(n: size_t) { And(n, SIZE_MAX - (32 - 1)) != 0 }

  lemma HighMask(n: size_t, k: nat)
    requires k <= 64
    ensures Pow2(k) <= WORD && And(n, WORD - Pow2(k)) == n - n % Pow2(k)
  {
    hide And, Pow2;
    Pow2Of64();
    AndHighMask(n, k, 64);
  }

  lemma LengthTests(n: size_t)
    ensures AtLeastWord(n) <==> n >= 8
    ensures AtLeast32(n) <==> n >= 32
  {
    assert Pow2(3) == 8 && Pow2(5) == 32;
    hide And, Pow2;
    HighMask(n, 3);
    HighMask(n, 5);
  }

  // ---------------------------------------------------------------- copying

  /** `mem` after a snapshot of `n` bytes at `s` has been stored at `d`. */
  function Moved(mem: seq<bv8>, d: nat, s: nat, n: nat): (m: seq<bv8>)
    requires d + n <= |mem| && s + n <= |mem|
    ensures |m| == |mem|
  {
    mem[..d] + mem[s..s + n] + mem[d + n..]
  }

  lemma MovedAt(mem: seq<bv8>, d: nat, s: nat, n: nat, i: nat)
    requires d + n <= |mem| && s + n <= |mem| && i < |mem|
    ensures Moved(mem, d, s, n)[i] == if d <= i < d + n then mem[s + (i - d)] else mem[i]
  {
  }

  /** A forward copy reads no byte it has already overwritten. */
  predicate ForwardSafe(d: nat, s: nat, n: nat) {
    d <= s || s + n <= d
  }

  /** A copy in two pieces, the second taken from memory as the first has left it. */
  lemma MovedOn(mem: seq<bv8>, d: nat, s: nat, k: nat, m: nat)
    requires d + k + m <= |mem| && s + k + m <= |mem| && ForwardSafe(d, s, k + m)
    ensures Moved(Moved(mem, d, s, k), d + k, s + k, m) == Moved(mem, d, s, k + m)
  {
    var a, b := Moved(Moved(mem, d, s, k), d + k, s + k, m), Moved(mem, d, s, k + m);
    forall i | 0 <= i < |mem| ensures a[i] == b[i] { MovedOnAt(mem, d, s, k, m, i); }
    hide Moved;
  }

  lemma MovedOnAt(mem: seq<bv8>, d: nat, s: nat, k: nat, m: nat, i: nat)
    requires d + k + m <= |mem| && s + k + m <= |mem| && ForwardSafe(d, s, k + m) && i < |mem|
    ensures Moved(Moved(mem, d, s, k), d + k, s + k, m)[i] == Moved(mem, d, s, k + m)[i]
  {
    hide Moved;
    MovedAt(mem, d, s, k + m, i);
    MovedAt(mem, d, s, k, i);
    MovedAt(Moved(mem, d, s, k), d + k, s + k, m, i);
    if d + k <= i < d + k + m { MovedAt(mem, d, s, k, s + (i - d)); }
  }

  lemma MoveStep(before: seq<bv8>, now: seq<bv8>, next: seq<bv8>, d: nat, s: nat, k: nat, m: nat)
    requires d + k + m <= |before| && s + k + m <= |before| && ForwardSafe(d, s, k + m)
    requires now == Moved(before, d, s, k) && next == Moved(now, d + k, s + k, m)
    ensures next == Moved(before, d, s, k + m)
  {
    MovedOn(before, d, s, k, m);
  }

  lemma ForwardSafeBefore(d: nat, s: nat, k: nat, n: nat)
    requires ForwardSafe(d, s, n) && k <= n
    ensures ForwardSafe(d, s, k) && ForwardSafe(d + k, s + k, n - k)
  {
  }

  lemma MovedNothing(mem: seq<bv8>, d: nat, s: nat, n: nat)
    requires d + n <= |mem| && s + n <= |mem| && (n == 0 || d == s)
    ensures Moved(mem, d, s, n) == mem
  {
  }

  lemma MovedOne(mem: seq<bv8>, d: nat, s: nat)
    requires d < |mem| && s < |mem|
    ensures Moved(mem, d, s, 1) == mem[d := mem[s]]
  {
    forall i | 0 <= i < |mem| ensures Moved(mem, d, s, 1)[i] == mem[d := mem[s]][i] { MovedAt(mem, d, s, 1, i); }
    hide Moved;
  }

  method CopyByte(mem: array<bv8>, d: nat, s: nat)
    requires d < mem.Length && s < mem.Length
    modifies mem
    ensures mem[..] == Moved(old(mem[..]), d, s, 1)
  {
    ghost var before := mem[..];
    mem[d] := mem[s];
    assert mem[..] == before[d := before[s]];
    MovedOne(before, d, s);
  }

  method CopyWord(mem: array<bv8>, d: nat, s: nat)
    requires d + 8 <= mem.Length && s + 8 <= mem.Length
    modifies mem
    ensures mem[..] == Moved(old(mem[..]), d, s, 8)
  {
    ghost var before := mem[..];
    var w := WordOf(mem[s..s + 8]);
    LoadThenStore(mem[s..s + 8]);
    hide WordOf, BytesOf;
    StoreWord(mem, d, w);
  }

  method StoreWord(mem: array<bv8>, d: nat, w: bv64)
    requires d + 8 <= mem.Length
    modifies mem
    ensures mem[..] == old(mem[..d]) + BytesOf(w) + old(mem[d + 8..])
  {
    hide BytesOf;
    var b := BytesOf(w);
    forall k | 0 <= k < 8 { mem[d + k] := b[k]; }
  }

  method MiniMemcpy(mem: array<bv8>, d: nat, s: nat, n1: nat, n2: nat) returns (r: nat)
    requires d + Min(n1, n2) <= mem.Length && s + Min(n1, n2) <= mem.Length && ForwardSafe(d, s, Min(n1, n2))
    modifies mem
    ensures r == d + Min(n1, n2)
    ensures mem[..] == Moved(old(mem[..]), d, s, Min(n1, n2))
  {
    hide Moved, ForwardSafe;
    ghost var before := mem[..];
    ghost var n := Min(n1, n2);
    var k := 0;
    MovedNothing(before, d, s, 0);
    while k < n1 && k < n2
      invariant k <= n
      invariant mem[..] == Moved(before, d, s, k)
    {
      ghost var now := mem[..];
      CopyByte(mem, d + k, s + k);
      ForwardSafeBefore(d, s, k + 1, n);
      MoveStep(before, now, mem[..], d, s, k, 1);
      k := k + 1;
    }
    r := d + k;
  }

  method FastMemcpy(mem: array<bv8>, dst: nat, src: nat, n: nat)
    requires mem.Length < WORD && dst + n <= mem.Length && src + n <= mem.Length
    requires MemRest(dst) == MemRest(src) && ForwardSafe(dst, src, n)
    modifies mem
    ensures mem[..] == Moved(old(mem[..]), dst, src, n)
  {
    hide MemRest, AtLeastWord, And, Moved, ForwardSafe;
    ghost var before := mem[..];
    ForwardSafeBefore(dst, src, Min(MemRest(dst), n), n);
    var u1 := MiniMemcpy(mem, dst, src, MemRest(dst), n);
    var u2 := src + (u1 - dst);
    var rest := n - (u1 - dst);
    LengthTests(rest);
    while AtLeastWord(rest)
      invariant dst <= u1 && rest == n - (u1 - dst) && u2 == src + (u1 - dst) && u1 - dst <= n
      invariant AtLeastWord(rest) <==> rest >= 8
      invariant mem[..] == Moved(before, dst, src, u1 - dst)
      decreases rest
    {
      ghost var now := mem[..];
      CopyWord(mem, u1, u2);
      ForwardSafeBefore(dst, src, u1 - dst + 8, n);
      MoveStep(before, now, mem[..], dst, src, u1 - dst, 8);
      u1, u2, rest := u1 + 8, u2 + 8, rest - 8;
      LengthTests(rest);
    }
    ghost var now := mem[..];
    ForwardSafeBefore(dst, src, u1 - dst, n);
    var end := MiniMemcpy(mem, u1, u2, rest, rest);
    MoveStep(before, now, mem[..], dst, src, u1 - dst, rest);
  }

  method Memcpy(mem: array<bv8>, dst: nat, src: nat, n: nat)
    requires mem.Length < WORD && dst + n <= mem.Length && src + n <= mem.Length && ForwardSafe(dst, src, n)
    modifies mem
    ensures mem[..] == Moved(old(mem[..]), dst, src, n)
  {
    hide Moved, MemRest, AtLeast32, And;
    ghost var before := mem[..];
    if dst == src || n == 0 {
      MovedNothing(before, dst, src, n);
      return;
    }
    if AtLeast32(n) && MemRest(dst) == MemRest(src) {
      FastMemcpy(mem, dst, src, n);
      return;
    }
    var k := 0;
    MovedNothing(before, dst, src, 0);
    while k < n
      invariant k <= n && mem[..] == Moved(before, dst, src, k)
    {
      ghost var now := mem[..];
      CopyByte(mem, dst + k, src + k);
      MoveStep(before, now, mem[..], dst, src, k, 1);
      k := k + 1;
    }
  }

  /** Every pair of ranges, however they overlap, is moved as if through a snapshot. */
  method Memmove(mem: array<bv8>, dst: nat, src: nat, n: nat)
    requires mem.Length < WORD && dst + n <= mem.Length && src + n <= mem.Length
    modifies mem
    ensures mem[..] == Moved(old(mem[..]), dst, src, n)
  {
    if dst <= src {
      Memcpy(mem, dst, src, n);
      return;
    }
    if n == 0 {
      MovedNothing(mem[..], dst, src, n);
      return;
    }
    ghost var before := mem[..];
    var k := n;
    while k > 0
      invariant 0 <= k <= n
      invariant forall i :: 0 <= i < mem.Length ==>
                mem[i] == if dst + k <= i < dst + n then old(mem[src + (i - dst)]) else old(mem[i])
    {
      k := k - 1;
      mem[dst + k] := mem[src + k];
    }
    forall i | 0 <= i < mem.Length ensures mem[..][i] == Moved(before, dst, src, n)[i] {
      MovedAt(before, dst, src, n, i);
    }
    hide Moved;
  }

  // ---------------------------------------------------------------- filling

  function Filled(mem: seq<bv8>, d: nat, c: bv8, n: nat): (m: seq<bv8>)
    requires d + n <= |mem|
    ensures |m| == |mem|
    ensures forall i :: 0 <= i < |mem| ==> m[i] == if d <= i < d + n then c else mem[i]
  {
    mem[..d] + seq(n, _ => c) + mem[d + n..]
  }

  lemma FilledOn(mem: seq<bv8>, d: nat, c: bv8, k: nat, m: nat)
    requires d + k + m <= |mem|
    ensures Filled(Filled(mem, d, c, k), d + k, c, m) == Filled(mem, d, c, k + m)
  {
    var a, b := Filled(Filled(mem, d, c, k), d + k, c, m), Filled(mem, d, c, k + m);
    forall i | 0 <= i < |mem| ensures a[i] == b[i] {}
  }

  method MiniMemset(mem: array<bv8>, d: nat, c: bv8, n1: nat, n2: nat) returns (r: nat)
    requires d + Min(n1, n2) <= mem.Length
    modifies mem
    ensures r == d + Min(n1, n2)
    ensures mem[..] == Filled(old(mem[..]), d, c, Min(n1, n2))
  {
    var n := if n2 < n1 then n2 else n1;
    var k := 0;
    while k < n
      invariant k <= n
      invariant forall i :: 0 <= i < mem.Length ==> mem[i] == if d <= i < d + k then c else old(mem[i])
    {
      mem[d + k] := c;
      k := k + 1;
    }
    r := d + k;
  }

  method FillWord(mem: array<bv8>, d: nat, c: bv8)
    requires d + 8 <= mem.Length
    modifies mem
    ensures mem[..] == Filled(old(mem[..]), d, c, 8)
  {
    StampBytes(c);
    hide BytesOf, Stamp;
    StoreWord(mem, d, Stamp(c));
  }

  method Memset(mem: array<bv8>, dst: nat, c: bv8, n: nat)
    requires mem.Length < WORD && dst + n <= mem.Length
    modifies mem
    ensures mem[..] == Filled(old(mem[..]), dst, c, n)
  {
    hide MemRest, AtLeastWord, And, Filled;
    ghost var before := mem[..];
    var u := MiniMemset(mem, dst, c, MemRest(dst), n);
    var rest := n - (u - dst);
    LengthTests(rest);
    while AtLeastWord(rest)
      invariant dst <= u && rest == n - (u - dst) && u - dst <= n
      invariant AtLeastWord(rest) <==> rest >= 8
      invariant mem[..] == Filled(before, dst, c, u - dst)
      decreases rest
    {
      FilledOn(before, dst, c, u - dst, 8);
      FillWord(mem, u, c);
      u, rest := u + 8, rest - 8;
      LengthTests(rest);
    }
    FilledOn(before, dst, c, u - dst, rest);
    var end := MiniMemset(mem, u, c, rest, rest);
  }

  // ---------------------------------------------------------------- scanning

  lemma JoinAt(mem: seq<bv8>, i: nat, j: nat, k: nat)
    requires i <= j <= k <= |mem|
    ensures mem[i..j] + mem[j..k] == mem[i..k]
  {
  }

  /** The first `c` in `s`, or the end of `s`. */
  function IndexOf(s: seq<bv8>, c: bv8): (k: nat)
    ensures k <= |s| && c !in s[..k] && (k < |s| ==> s[k] == c)
  {
    if s == [] || s[0] == c then 0 else
      var k := 1 + IndexOf(s[1..], c);
      assert s[..k] == [s[0]] + s[1..][..k - 1];
      k
  }

  lemma NoneBefore(s: seq<bv8>, c: bv8, k: nat)
    requires k <= |s| && c !in s[..k]
    ensures forall i :: 0 <= i < k ==> s[i] != c
  {
    forall i | 0 <= i < k ensures s[i] != c {
      assert s[i] == s[..k][i] && s[..k][i] in s[..k];
    }
  }

  lemma IndexIs(s: seq<bv8>, c: bv8, k: nat)
    requires k <= |s| && c !in s[..k] && (k < |s| ==> s[k] == c)
    ensures IndexOf(s, c) == k
  {
    NoneBefore(s, c, k);
    NoneBefore(s, c, IndexOf(s, c));
  }

  method MiniMemchr(mem: seq<bv8>, p: nat, c: bv8, n1: nat, n2: nat) returns (r: nat)
    requires p + Min(n1, n2) <= |mem|
    ensures r == p + IndexOf(mem[p..p + Min(n1, n2)], c)
  {
    var n := if n2 < n1 then n2 else n1;
    var k := 0;
    while k < n && mem[p + k] != c
      invariant k <= n && c !in mem[p..p + n][..k]
    {
      assert mem[p..p + n][..k + 1] == mem[p..p + n][..k] + [mem[p + k]];
      k := k + 1;
    }
    IndexIs(mem[p..p + n], c, k);
    r := p + k;
  }

  /** The word loop of memchr over `n` bytes at `u`: it passes only words without `c`. */
  method SkipWords(mem: seq<bv8>, u: nat, c: bv8, n: nat) returns (k: nat)
    requires |mem| < WORD && u + n <= |mem|
    ensures k <= n && c !in mem[u..u + k]
  {
    hide AtLeastWord, And, WordOf, HasByte;
    k := 0;
    LengthTests(n);
    while AtLeastWord(n - k)
      invariant k <= n && c !in mem[u..u + k]
      invariant AtLeastWord(n - k) <==> n - k >= 8
      decreases n - k
    {
      var w := mem[u + k..u + k + 8];
      ByteTest(w, c);
      if HasByte(WordOf(w), c) { break; }
      assert mem[u..u + k + 8] == mem[u..u + k] + w;
      k := k + 8;
      LengthTests(n - k);
    }
  }

  method FastMemchr(mem: seq<bv8>, p: nat, c: bv8, n: nat) returns (r: Option<nat>)
    requires |mem| < WORD && p + n <= |mem|
    ensures r == if c in mem[p..p + n] then Some(p + IndexOf(mem[p..p + n], c)) else None
  {
    hide MemRest, IndexOf;
    var u := MiniMemchr(mem, p, c, MemRest(p), n);
    PrefixMiss(mem[p..p + Min(MemRest(p), n)], c);
    var skipped := SkipWords(mem, u, c, n - (u - p));
    FoundAfter(mem, p, c, n, u - p, skipped);
    u := MiniMemchr(mem, u + skipped, c, n - (u - p) - skipped, n - (u - p) - skipped);
    if u - p == n { return None; }
    return Some(u);
  }

  lemma PrefixMiss(s: seq<bv8>, c: bv8)
    ensures c !in s[..IndexOf(s, c)]
  {
  }

  /** A search resumed after two stretches without `c`. */
  lemma FoundAfter(mem: seq<bv8>, p: nat, c: bv8, n: nat, a: nat, b: nat)
    requires a + b <= n && p + n <= |mem|
    requires c !in mem[p..p + a] && c !in mem[p + a..p + a + b]
    ensures IndexOf(mem[p..p + n], c) == a + b + IndexOf(mem[p + a + b..p + n], c)
    ensures c in mem[p..p + n] <==> IndexOf(mem[p..p + n], c) < n
  {
    var s, t := mem[p..p + n], mem[p + a + b..p + n];
    var j := IndexOf(t, c);
    hide IndexOf;
    JoinAt(mem, p, p + a, p + a + b);
    assert s[..a + b] == mem[p..p + a + b];
    assert s[..a + b + j] == s[..a + b] + t[..j];
    IndexIs(s, c, a + b + j);
    assert s == s[..n];
  }

  method Memchr(mem: seq<bv8>, p: nat, c: bv8, n: nat) returns (r: Option<nat>)
    requires |mem| < WORD && p + n <= |mem|
    ensures r == if c in mem[p..p + n] then Some(p + IndexOf(mem[p..p + n], c)) else None
  {
    if AtLeast32(n) {
      r := FastMemchr(mem, p, c, n);
      return;
    }
    ghost var s := mem[p..p + n];
    var k := 0;
    while k < n
      invariant k <= n && c !in s[..k]
    {
      if mem[p + k] == c {
        IndexIs(s, c, k);
        return Some(p + k);
      }
      assert s[..k + 1] == s[..k] + [s[k]];
      k := k + 1;
    }
    assert s[..n] == s;
    return None;
  }

  method MiniStrlen(mem: seq<bv8>, p: nat, n: nat) returns (r: nat)
    requires p + n <= |mem| || exists t :: p <= t < |mem| && t < p + n && mem[t] == 0
    ensures p <= r <= p + n && r <= |mem| && 0 !in mem[p..r] && (r < p + n ==> r < |mem| && mem[r] == 0)
  {
    var k := 0;
    while k < n && mem[p + k] != 0
      invariant k <= n && p + k <= |mem| && 0 !in mem[p..p + k]
    {
      assert mem[p..p + k + 1] == mem[p..p + k] + [mem[p + k]];
      k := k + 1;
    }
    r := p + k;
  }

  /** A string starts at `p`: its terminator is somewhere behind. */
  ghost predicate Terminated(mem: seq<bv8>, p: nat) {
    exists t :: p <= t < |mem| && mem[t] == 0
  }

  lemma HasTerminator(mem: seq<bv8>, p: nat)
    requires Terminated(mem, p)
    ensures var t := p + IndexOf(mem[p..], 0); t < |mem| && mem[t] == 0 && 0 !in mem[p..t]
  {
    var t :| p <= t < |mem| && mem[t] == 0;
    var n := IndexOf(mem[p..], 0);
    hide IndexOf;
    NoneBefore(mem[p..], 0, n);
    assert mem[p..][t - p] == 0;
    assert mem[p..][..n] == mem[p..p + n];
  }

  /** Where the string at `p` ends. */
  ghost function Terminator(mem: seq<bv8>, p: nat): (t: nat)
    requires Terminated(mem, p)
    ensures p <= t < |mem| && mem[t] == 0 && 0 !in mem[p..t]
  {
    HasTerminator(mem, p);
    p + IndexOf(mem[p..], 0)
  }

  /**
    The words that strlen reads are all within memory: the aligned ones up to the one that holds the terminator, or, if
    the terminator comes before the first word boundary, the unaligned one that starts at the terminator.
  */
  ghost predicate ReadsInside(mem: seq<bv8>, p: size_t)
    requires Terminated(mem, p)
  {
    var t := Terminator(mem, p);
    (if t < p + MemRest(p) then t else t / 8 * 8) + 8 <= |mem|
  }

  /** In a memory of whole words, strlen overreads exactly at strings that end before a boundary in the last word. */
  lemma StrlenOverreads(mem: seq<bv8>, p: size_t)
    requires Terminated(mem, p) && |mem| % 8 == 0
    ensures !ReadsInside(mem, p) <==> Terminator(mem, p) < p + MemRest(p) && |mem| < Terminator(mem, p) + 8
  {
    hide Terminator, MemRest;
  }

  /**
    The terminator in the last byte of memory, looked for from the byte before: the word read starts at that last
    byte.
  */
  lemma OverreadAtTheEnd()
    ensures Terminated([1, 1, 1, 1, 1, 1, 1, 0], 6) && !ReadsInside([1, 1, 1, 1, 1, 1, 1, 0], 6)
  {
    var mem: seq<bv8> := [1, 1, 1, 1, 1, 1, 1, 0];
    assert mem[7] == 0;
    hide Terminator, MemRest;
    assert Terminator(mem, 6) == 7;
    MemRestAligns(6);
  }

  lemma NotZero(mem: seq<bv8>, p: nat, q: nat, i: nat)
    requires p <= i < q <= |mem| && 0 !in mem[p..q]
    ensures mem[i] != 0
  {
    assert mem[p..q][i - p] == mem[i];
  }

  /** The bytes from `q` on are not the terminator before the first byte 0. */
  lemma ScanFrom(mem: seq<bv8>, p: nat, q: nat, r: nat)
    requires Terminated(mem, p) && p <= q <= Terminator(mem, p) && q <= r <= |mem| && 0 !in mem[q..r]
    ensures r <= Terminator(mem, p) && (r < |mem| && mem[r] == 0 ==> r == Terminator(mem, p))
  {
    var t := Terminator(mem, p);
    hide Terminator;
    if t < r { NotZero(mem, q, r, t); }
    if r < t { NotZero(mem, p, t, r); }
  }

  /** Whether the terminator is in the word at `q`. */
  lemma WordEnds(mem: seq<bv8>, p: nat, q: nat)
    requires Terminated(mem, p) && p <= q <= Terminator(mem, p) && q + 8 <= |mem|
    ensures HasZeroByte(WordOf(mem[q..q + 8])) <==> Terminator(mem, p) < q + 8
  {
    var t, w := Terminator(mem, p), mem[q..q + 8];
    hide Terminator, HasZeroByte, WordOf;
    ZeroByteTest(w);
    if t < q + 8 { assert w[t - q] == 0; }
    if k :| 0 <= k < 8 && w[k] == 0 && q + k < t { NotZero(mem, p, t, q + k); }
  }

  /** Where strlen stands in its loop: at the terminator before the first boundary, or at a boundary. */
  ghost predicate AtWord(mem: seq<bv8>, p: size_t, q: nat)
    requires Terminated(mem, p)
  {
    var t := Terminator(mem, p);
    p <= q <= t && if t < p + MemRest(p) then q == t else q % 8 == 0
  }

  lemma LastWord(mem: seq<bv8>, p: size_t, q: nat)
    requires Terminated(mem, p) && AtWord(mem, p, q) && (|mem| < q + 8 || Terminator(mem, p) < q + 8)
    ensures ReadsInside(mem, p) <==> q + 8 <= |mem|
  {
    hide Terminator, MemRest;
  }

  /** strlen; None where it reads a word that is not all in memory. */
  method Strlen(mem: seq<bv8>, p: nat) returns (r: Option<nat>)
    requires |mem| < WORD && p < WORD && Terminated(mem, p)
    ensures r == if ReadsInside(mem, p) then Some(Terminator(mem, p) - p) else None
  {
    ghost var t := Terminator(mem, p);
    hide Terminator, MemRest, WordOf, HasZeroByte, ReadsInside;
    MemRestAligns(p);
    var q := MiniStrlen(mem, p, MemRest(p));
    ScanFrom(mem, p, p, q);
    var n := q - p;
    while true
      invariant AtWord(mem, p, q) && q == p + n
      decreases t - q
    {
      if q + 8 > |mem| {
        LastWord(mem, p, q);
        return None;
      }
      var w := mem[q..q + 8];
      WordEnds(mem, p, q);
      if HasZeroByte(WordOf(w)) { break; }
      q, n := q + 8, n + 8;
    }
    LastWord(mem, p, q);
    var end := MiniStrlen(mem, q, 8);
    ScanFrom(mem, p, q, end);
    return Some(n + (end - q));
  }

  method Strnlen(mem: seq<bv8>, p: nat, max: nat) returns (n: nat)
    requires p + max <= |mem| || exists t :: p <= t < |mem| && t < p + max && mem[t] == 0
    ensures n <= max && p + n <= |mem| && 0 !in mem[p..p + n] && (n < max ==> p + n < |mem| && mem[p + n] == 0)
  {
    var r := MiniStrlen(mem, p, max);
    return r - p;
  }

  // ---------------------------------------------------------------- comparing

  /** The first index where `s` and `t` differ, or their length. */
  function FirstDiff(s: seq<bv8>, t: seq<bv8>): (k: nat)
    requires |s| == |t|
    ensures k <= |s| && s[..k] == t[..k] && (k < |s| ==> s[k] != t[k])
  {
    if s == [] || s[0] != t[0] then 0 else
      var k := 1 + FirstDiff(s[1..], t[1..]);
      assert s[..k] == [s[0]] + s[1..][..k - 1] && t[..k] == [t[0]] + t[1..][..k - 1];
      k
  }

  lemma DiffIs(s: seq<bv8>, t: seq<bv8>, k: nat)
    requires |s| == |t| && k <= |s| && s[..k] == t[..k] && (k < |s| ==> s[k] != t[k])
    ensures FirstDiff(s, t) == k
  {
    SameBefore(s, t, k);
    SameBefore(s, t, FirstDiff(s, t));
  }

  lemma SameBefore(s: seq<bv8>, t: seq<bv8>, k: nat)
    requires |s| == |t| && k <= |s| && s[..k] == t[..k]
    ensures forall i :: 0 <= i < k ==> s[i] == t[i]
  {
    forall i | 0 <= i < k ensures s[i] == t[i] {
      assert s[i] == s[..k][i] && t[i] == t[..k][i];
    }
  }

  function Difference(x: bv8, y: bv8): int { x as int - y as int }

  /** What memcmp returns: the difference of the first bytes that differ, as unsigned characters. */
  function Compared(s: seq<bv8>, t: seq<bv8>): int
    requires |s| == |t|
  {
    var k := FirstDiff(s, t);
    if k < |s| then Difference(s[k], t[k]) else 0
  }

  method MiniMemcmp(mem: seq<bv8>, a: nat, b: nat, n1: nat, n2: nat) returns (r: nat)
    requires a + Min(n1, n2) <= |mem| && b + Min(n1, n2) <= |mem|
    ensures r == a + FirstDiff(mem[a..a + Min(n1, n2)], mem[b..b + Min(n1, n2)])
  {
    hide FirstDiff;
    var n := if n2 < n1 then n2 else n1;
    ghost var s, t := mem[a..a + n], mem[b..b + n];
    var k := 0;
    while k < n
      invariant k <= n && s[..k] == t[..k]
    {
      if mem[a + k] ^ mem[b + k] != 0 {
        XorDiffers(mem[a + k], mem[b + k]);
        break;
      }
      XorDiffers(mem[a + k], mem[b + k]);
      assert s[..k + 1] == s[..k] + [s[k]] && t[..k + 1] == t[..k] + [t[k]];
      k := k + 1;
    }
    DiffIs(s, t, k);
    r := a + k;
  }

  lemma XorDiffers(x: bv8, y: bv8)
    ensures x ^ y == 0 <==> x == y
  {
  }

  /** The word loop of memcmp: it passes only words that agree. */
  method SkipEqualWords(mem: seq<bv8>, a: nat, b: nat, n: nat) returns (k: nat)
    requires |mem| < WORD && a + n <= |mem| && b + n <= |mem|
    ensures k <= n && mem[a..a + k] == mem[b..b + k]
  {
    hide AtLeastWord, And, WordOf, Xor;
    k := 0;
    LengthTests(n);
    while AtLeastWord(n - k)
      invariant k <= n && mem[a..a + k] == mem[b..b + k]
      invariant AtLeastWord(n - k) <==> n - k >= 8
      decreases n - k
    {
      var v, w := mem[a + k..a + k + 8], mem[b + k..b + k + 8];
      WordsDiffer(v, w);
      if Xor(WordOf(v), WordOf(w)) != 0 { break; }
      JoinAt(mem, a, a + k, a + k + 8);
      JoinAt(mem, b, b + k, b + k + 8);
      k := k + 8;
      LengthTests(n - k);
    }
  }

  /** The three stages of ft_memcmp_fast that look for the first difference. */
  method FastMismatch(mem: seq<bv8>, s1: nat, s2: nat, n: nat) returns (u1: nat)
    requires |mem| < WORD && s1 + n <= |mem| && s2 + n <= |mem|
    ensures u1 == s1 + FirstDiff(mem[s1..s1 + n], mem[s2..s2 + n])
  {
    hide MemRest, FirstDiff;
    u1 := MiniMemcmp(mem, s1, s2, MemRest(s1), n);
    var k := u1 - s1;
    EqualSoFar(mem, s1, s2, Min(MemRest(s1), n));
    var skipped := SkipEqualWords(mem, s1 + k, s2 + k, n - k);
    DiffAfter(mem, s1, s2, n, k, skipped);
    k := k + skipped;
    u1 := MiniMemcmp(mem, s1 + k, s2 + k, n - k, n - k);
  }

  method FastMemcmp(mem: seq<bv8>, s1: nat, s2: nat, n: nat) returns (r: int)
    requires |mem| < WORD && s1 + n <= |mem| && s2 + n <= |mem|
    ensures r == Compared(mem[s1..s1 + n], mem[s2..s2 + n])
  {
    hide Compared, Difference;
    var u1 := FastMismatch(mem, s1, s2, n);
    var at := s2 + (u1 - s1);
    ComparedAt(mem, s1, s2, n);
    if n == u1 - s1 { return 0; }
    return Difference(mem[u1], mem[at]);
  }

  lemma ComparedAt(mem: seq<bv8>, s1: nat, s2: nat, n: nat)
    requires s1 + n <= |mem| && s2 + n <= |mem|
    ensures var k := FirstDiff(mem[s1..s1 + n], mem[s2..s2 + n]);
            Compared(mem[s1..s1 + n], mem[s2..s2 + n]) == if k < n then Difference(mem[s1 + k], mem[s2 + k]) else 0
  {
  }

  lemma EqualSoFar(mem: seq<bv8>, s1: nat, s2: nat, m: nat)
    requires s1 + m <= |mem| && s2 + m <= |mem|
    ensures var k := FirstDiff(mem[s1..s1 + m], mem[s2..s2 + m]); mem[s1..s1 + k] == mem[s2..s2 + k]
  {
    var k := FirstDiff(mem[s1..s1 + m], mem[s2..s2 + m]);
    assert mem[s1..s1 + k] == mem[s1..s1 + m][..k] && mem[s2..s2 + k] == mem[s2..s2 + m][..k];
  }

  /** A comparison resumed after two stretches that agree. */
  lemma DiffAfter(mem: seq<bv8>, p: nat, q: nat, n: nat, a: nat, b: nat)
    requires a + b <= n && p + n <= |mem| && q + n <= |mem|
    requires mem[p..p + a] == mem[q..q + a] && mem[p + a..p + a + b] == mem[q + a..q + a + b]
    ensures FirstDiff(mem[p..p + n], mem[q..q + n]) == a + b + FirstDiff(mem[p + a + b..p + n], mem[q + a + b..q + n])
  {
    hide FirstDiff;
    JoinAt(mem, p, p + a, p + a + b);
    JoinAt(mem, q, q + a, q + a + b);
    DiffBehind(mem, p, q, n, a + b);
  }

  lemma DiffBehind(mem: seq<bv8>, p: nat, q: nat, n: nat, m: nat)
    requires m <= n && p + n <= |mem| && q + n <= |mem| && mem[p..p + m] == mem[q..q + m]
    ensures FirstDiff(mem[p..p + n], mem[q..q + n]) == m + FirstDiff(mem[p + m..p + n], mem[q + m..q + n])
  {
    hide FirstDiff;
    JoinAt(mem, p, p + m, p + n);
    JoinAt(mem, q, q + m, q + n);
    DiffAppend(mem[p..p + m], mem[p + m..p + n], mem[q + m..q + n]);
  }

  lemma {:induction false} DiffAppend(c: seq<bv8>, u: seq<bv8>, v: seq<bv8>)
    requires |u| == |v|
    ensures FirstDiff(c + u, c + v) == |c| + FirstDiff(u, v)
  {
    if c == [] {
      assert c + u == u && c + v == v;
    } else {
      assert (c + u)[1..] == c[1..] + u && (c + v)[1..] == c[1..] + v;
      DiffAppend(c[1..], u, v);
    }
  }

  method Memcmp(mem: seq<bv8>, s1: nat, s2: nat, n: nat) returns (r: int)
    requires |mem| < WORD && s1 + n <= |mem| && s2 + n <= |mem|
    ensures r == Compared(mem[s1..s1 + n], mem[s2..s2 + n])
  {
    if AtLeast32(n) && MemRest(s1) == MemRest(s2) {
      r := FastMemcmp(mem, s1, s2, n);
      return;
    }
    hide Difference, FirstDiff;
    ghost var s, t := mem[s1..s1 + n], mem[s2..s2 + n];
    r := 0;
    var k := 0;
    while r == 0 && k < n
      invariant k <= n
      invariant r == 0 ==> s[..k] == t[..k]
      invariant r != 0 ==>
                  k > 0 && s[..k - 1] == t[..k - 1] && s[k - 1] != t[k - 1] && r == Difference(s[k - 1], t[k - 1])
    {
      r := Difference(mem[s1 + k], mem[s2 + k]);
      NoDifference(mem[s1 + k], mem[s2 + k]);
      if r == 0 {
        assert s[..k + 1] == s[..k] + [s[k]] && t[..k + 1] == t[..k] + [t[k]];
      }
      k := k + 1;
    }
    DiffIs(s, t, if r == 0 then k else k - 1);
  }

  lemma NoDifference(x: bv8, y: bv8)
    ensures Difference(x, y) == 0 <==> x == y
  {
  }
}
