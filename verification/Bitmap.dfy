/**
  The two bitmaps of a zone: srcs/zone_bitmap.c and srcs/zone_operation.c.  Block `i` has bit `i % 8` of byte `i / 8`.
*/
module Bitmap {
  import opened ZoneModel

  function Mask(bit: nat): bv8
    requires bit < 8
  {
    1 << bit
  }

  predicate Has(b: bv8, bit: nat)
    requires bit < 8
  {
    b & Mask(bit) != 0
  }

  function With(b: bv8, bit: nat): bv8
    requires bit < 8
  {
    b | Mask(bit)
  }

  function Without(b: bv8, bit: nat): bv8
    requires bit < 8
  {
    b & !Mask(bit)
  }

  predicate SingleBit(m: bv8) {
    m == 1 || m == 2 || m == 4 || m == 8 || m == 16 || m == 32 || m == 64 || m == 128
  }

  lemma MaskIsSingleBit(bit: nat)
    requires bit < 8
    ensures SingleBit(Mask(bit)) && Mask(bit) == [1, 2, 4, 8, 16, 32, 64, 128][bit]
  {
  }

  lemma SingleBits(b: bv8, m: bv8, k: bv8)
    requires SingleBit(m) && SingleBit(k)
    ensures (b | m) & k != 0 <==> m == k || b & k != 0
    ensures (b & !m) & k != 0 <==> m != k && b & k != 0
  {
  }

  lemma MasksApart(b: bv8, i: nat, j: nat)
    requires i < 8 && j < 8
    ensures Has(With(b, i), j) <==> i == j || Has(b, j)
    ensures Has(Without(b, i), j) <==> i != j && Has(b, j)
  {
    hide Mask, SingleBit;
    MaskIsSingleBit(i);
    MaskIsSingleBit(j);
    MasksDiffer(i, j);
    SingleBits(b, Mask(i), Mask(j));
  }

  lemma MasksDiffer(i: nat, j: nat)
    requires i < 8 && j < 8
    ensures Mask(i) == Mask(j) <==> i == j
  {
  }

  /** is_head and is_used. */
  predicate Bit(bytes: seq<bv8>, i: nat)
    requires i < 8 * |bytes|
  {
    Has(bytes[i / 8], i % 8)
  }

  function SetBit(bytes: seq<bv8>, i: nat): seq<bv8>
    requires i < 8 * |bytes|
  {
    bytes[i / 8 := With(bytes[i / 8], i % 8)]
  }

  function ClearBit(bytes: seq<bv8>, i: nat): seq<bv8>
    requires i < 8 * |bytes|
  {
    bytes[i / 8 := Without(bytes[i / 8], i % 8)]
  }

  /** Marking one block changes its own bit and no other. */
  lemma OwnBit(bytes: seq<bv8>, i: nat, j: nat)
    requires i < 8 * |bytes| && j < 8 * |bytes|
    ensures Bit(SetBit(bytes, i), j) <==> i == j || Bit(bytes, j)
    ensures Bit(ClearBit(bytes, i), j) <==> i != j && Bit(bytes, j)
  {
    hide Has, With, Without;
    if i / 8 == j / 8 { MasksApart(bytes[i / 8], i % 8, j % 8); }
  }

  /** The two bitmaps read as one tag a block. */
  function Tags(heads: seq<bv8>, used: seq<bv8>): (tags: seq<Tag>)
    requires |heads| == |used|
    ensures |tags| == 8 * |heads|
  {
    seq(8 * |heads|, i requires 0 <= i < 8 * |heads| =>
      if !Bit(heads, i) then Body else if Bit(used, i) then Used else Free)
  }

  /** A block that is not a head is not marked used either. */
  ghost predicate Clean(heads: seq<bv8>, used: seq<bv8>)
    requires |heads| == |used|
  {
    forall i :: 0 <= i < 8 * |heads| && Bit(used, i) ==> Bit(heads, i)
  }

  /** mark_chunk_as_free, mark_chunk_as_used and unmark_chunk set the tag of one block. */
  lemma Marking(heads: seq<bv8>, used: seq<bv8>, i: nat)
    requires |heads| == |used| && i < 8 * |heads| && Clean(heads, used)
    ensures Tags(SetBit(heads, i), ClearBit(used, i)) == Tags(heads, used)[i := Free] &&
            Clean(SetBit(heads, i), ClearBit(used, i))
    ensures Tags(SetBit(heads, i), SetBit(used, i)) == Tags(heads, used)[i := Used] &&
            Clean(SetBit(heads, i), SetBit(used, i))
    ensures Tags(ClearBit(heads, i), ClearBit(used, i)) == Tags(heads, used)[i := Body] &&
            Clean(ClearBit(heads, i), ClearBit(used, i))
  {
    forall j | 0 <= j < 8 * |heads|
      ensures Bit(SetBit(heads, i), j) <==> i == j || Bit(heads, j)
      ensures Bit(ClearBit(heads, i), j) <==> i != j && Bit(heads, j)
      ensures Bit(SetBit(used, i), j) <==> i == j || Bit(used, j)
      ensures Bit(ClearBit(used, i), j) <==> i != j && Bit(used, j) {
      OwnBit(heads, i, j);
      OwnBit(used, i, j);
    }
    hide Bit, SetBit, ClearBit;
  }
}
