/**
  Flags in the low three bits of a chunk pointer: the macros of includes/flag.h, on 64-bit words.
*/
module Tagging {
  const LARGE: bv64 := 1
  const PSEUDO_HEADER: bv64 := 2
  const FLAG_MASK: bv64 := 7

  function AddressOf(p: bv64): bv64 { p & !FLAG_MASK }

  function SetFlags(p: bv64, flags: bv64): bv64 { AddressOf(p) | (FLAG_MASK & flags) }

  function UnsetFlags(p: bv64, flags: bv64): bv64 { SetFlags(p, flags) ^ (FLAG_MASK & flags) }

  function CopyFlags(dst: bv64, src: bv64): bv64 { SetFlags(dst, src) }

  predicate IsLargeChunk(next: bv64) { next & LARGE != 0 }

  predicate IsPseudoHeader(next: bv64) { next & PSEUDO_HEADER != 0 }

  /** A block address and three flags share a word, and both can be read back. */
  lemma TaggedPointer(p: bv64, flags: bv64)
    requires p & 0xf == 0 && flags <= FLAG_MASK
    ensures var w := SetFlags(p, flags);
            AddressOf(w) == p && w & FLAG_MASK == flags
            && (IsLargeChunk(w) <==> flags & LARGE != 0) && (IsPseudoHeader(w) <==> flags & PSEUDO_HEADER != 0)
  {
  }

  /** Different pairs make different words. */
  lemma TaggingIsInjective(p: bv64, f: bv64, q: bv64, g: bv64)
    requires p & 0xf == 0 && q & 0xf == 0 && f <= FLAG_MASK && g <= FLAG_MASK && SetFlags(p, f) == SetFlags(q, g)
    ensures p == q && f == g
  {
    hide *;
    TaggedPointer(p, f);
    TaggedPointer(q, g);
  }

  /** COPY_FLAGS keeps the flags of one word and the address of the other, whatever flags the other had. */
  lemma FlagsAreCopied(dst: bv64, src: bv64)
    ensures AddressOf(CopyFlags(dst, src)) == AddressOf(dst) && CopyFlags(dst, src) & FLAG_MASK == src & FLAG_MASK
    ensures CopyFlags(CopyFlags(dst, src), dst) == dst
  {
  }

  /** A header whose link carries no flags is neither LARGE nor pseudo, after any of the list operations on it. */
  lemma CleanLinksStayClean(dst: bv64, next: bv64)
    requires next & FLAG_MASK == 0
    ensures CopyFlags(dst, next) & FLAG_MASK == 0 && !IsLargeChunk(CopyFlags(dst, next)) &&
            !IsPseudoHeader(CopyFlags(dst, next))
  {
  }

  /** UNSET_FLAGS clears all three flags, not only those named: it gives back the bare address. */
  lemma UnsetClearsAll(p: bv64, flags: bv64)
    ensures UnsetFlags(p, flags) == AddressOf(p)
  {
  }
}
