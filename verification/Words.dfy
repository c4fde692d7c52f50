/**
  Eight bytes as one machine word, least significant byte first, and the word tricks of libft.
*/
module Words {
  const HIMAGIC: bv64 := 0x8080808080808080
  const LOMAGIC: bv64 := 0x0101010101010101

  function Join(b0: bv8, b1: bv8, b2: bv8, b3: bv8, b4: bv8, b5: bv8, b6: bv8, b7: bv8): bv64 {
    (b0 as bv64) | ((b1 as bv64) << 8) | ((b2 as bv64) << 16) | ((b3 as bv64) << 24)
    | ((b4 as bv64) << 32) | ((b5 as bv64) << 40) | ((b6 as bv64) << 48) | ((b7 as bv64) << 56)
  }

  /** The word a load reads from eight bytes. */
  function WordOf(b: seq<bv8>): bv64
    requires |b| == 8
  {
    Join(b[0], b[1], b[2], b[3], b[4], b[5], b[6], b[7])
  }

  function Byte(w: bv64, shift: bv64): bv8
    requires shift <= 56
  {
    ((w >> shift) & 0xff) as bv8
  }

  /** The bytes a store writes for a word. */
  function BytesOf(w: bv64): (b: seq<bv8>)
    ensures |b| == 8
  {
    [Byte(w, 0), Byte(w, 8), Byte(w, 16), Byte(w, 24), Byte(w, 32), Byte(w, 40), Byte(w, 48), Byte(w, 56)]
  }

  lemma JoinParts(b0: bv8, b1: bv8, b2: bv8, b3: bv8, b4: bv8, b5: bv8, b6: bv8, b7: bv8)
    ensures var w := Join(b0, b1, b2, b3, b4, b5, b6, b7);
            && Byte(w, 0) == b0 && Byte(w, 8) == b1 && Byte(w, 16) == b2 && Byte(w, 24) == b3
            && Byte(w, 32) == b4 && Byte(w, 40) == b5 && Byte(w, 48) == b6 && Byte(w, 56) == b7
  {
  }

  lemma JoinBytes(b0: bv8, b1: bv8, b2: bv8, b3: bv8, b4: bv8, b5: bv8, b6: bv8, b7: bv8)
    ensures BytesOf(Join(b0, b1, b2, b3, b4, b5, b6, b7)) == [b0, b1, b2, b3, b4, b5, b6, b7]
  {
    JoinParts(b0, b1, b2, b3, b4, b5, b6, b7);
    hide Join, Byte;
  }

  /** A word copy copies eight bytes. */
  lemma LoadThenStore(b: seq<bv8>)
    requires |b| == 8
    ensures BytesOf(WordOf(b)) == b
  {
    JoinBytes(b[0], b[1], b[2], b[3], b[4], b[5], b[6], b[7]);
    hide Join, BytesOf;
  }

  function XorByte(b: bv8, c: bv8): bv8 { b ^ c }

  function Xor(v: bv64, w: bv64): bv64 { v ^ w }

  /** Two words are equal exactly when their bytes are. */
  lemma WordsDiffer(a: seq<bv8>, b: seq<bv8>)
    requires |a| == 8 && |b| == 8
    ensures Xor(WordOf(a), WordOf(b)) == 0 <==> a == b
  {
    hide WordOf, BytesOf, Xor;
    LoadThenStore(a);
    LoadThenStore(b);
    XorZero(WordOf(a), WordOf(b));
  }

  lemma XorZero(v: bv64, w: bv64)
    ensures Xor(v, w) == 0 <==> v == w
  {
  }

  /** The test for a zero byte anywhere in a word. */
  predicate HasZeroByte(w: bv64) {
    (w - LOMAGIC) & !w & HIMAGIC != 0
  }

  lemma JoinHasZeroByte(b0: bv8, b1: bv8, b2: bv8, b3: bv8, b4: bv8, b5: bv8, b6: bv8, b7: bv8)
    ensures HasZeroByte(Join(b0, b1, b2, b3, b4, b5, b6, b7)) <==>
            (b0 == 0 || b1 == 0 || b2 == 0 || b3 == 0 || b4 == 0 || b5 == 0 || b6 == 0 || b7 == 0)
  {
  }

  lemma ZeroByteTest(b: seq<bv8>)
    requires |b| == 8
    ensures HasZeroByte(WordOf(b)) <==> exists k :: 0 <= k < 8 && b[k] == 0
  {
    JoinHasZeroByte(b[0], b[1], b[2], b[3], b[4], b[5], b[6], b[7]);
    hide HasZeroByte, Join;
  }

  /** Eight copies of one byte, as memset and memchr build them. */
  function Stamp(c: bv8): bv64 {
    var s := c as bv64;
    var s2 := s | (s << 8);
    var s4 := s2 | (s2 << 16);
    s4 | (s4 << 32)
  }

  lemma StampBytes(c: bv8)
    ensures Stamp(c) == Join(c, c, c, c, c, c, c, c)
    ensures BytesOf(Stamp(c)) == [c, c, c, c, c, c, c, c]
  {
    StampJoins(c);
    JoinBytes(c, c, c, c, c, c, c, c);
    hide Stamp, Join, BytesOf;
  }

  lemma StampJoins(c: bv8)
    ensures Stamp(c) == Join(c, c, c, c, c, c, c, c)
  {
  }

  /** The test of memchr. */
  predicate HasByte(w: bv64, c: bv8) {
    HasZeroByte(Xor(w, Stamp(c)))
  }

  lemma XorZeroByte(b: bv8, c: bv8)
    ensures XorByte(b, c) == 0 <==> b == c
  {
  }

  /** Exclusive or works byte by byte. */
  lemma XorOfJoins(b0: bv8, b1: bv8, b2: bv8, b3: bv8, b4: bv8, b5: bv8, b6: bv8, b7: bv8,
                   c0: bv8, c1: bv8, c2: bv8, c3: bv8, c4: bv8, c5: bv8, c6: bv8, c7: bv8)
    ensures Xor(Join(b0, b1, b2, b3, b4, b5, b6, b7), Join(c0, c1, c2, c3, c4, c5, c6, c7))
            == Join(XorByte(b0, c0), XorByte(b1, c1), XorByte(b2, c2), XorByte(b3, c3),
                    XorByte(b4, c4), XorByte(b5, c5), XorByte(b6, c6), XorByte(b7, c7))
  {
  }

  lemma XorOfBytes(b: seq<bv8>, c: bv8, z: seq<bv8>)
    requires |b| == 8 && |z| == 8 && forall k :: 0 <= k < 8 ==> z[k] == XorByte(b[k], c)
    ensures Xor(WordOf(b), Join(c, c, c, c, c, c, c, c)) == WordOf(z)
  {
    hide Join, Xor, XorByte;
    XorOfJoins(b[0], b[1], b[2], b[3], b[4], b[5], b[6], b[7], c, c, c, c, c, c, c, c);
  }

  /** memchr's test, by way of the word with the byte cancelled. */
  lemma HasByteMeansZero(b: seq<bv8>, c: bv8, z: seq<bv8>)
    requires |b| == 8 && |z| == 8 && forall k :: 0 <= k < 8 ==> z[k] == XorByte(b[k], c)
    ensures HasByte(WordOf(b), c) == HasZeroByte(WordOf(z))
  {
    hide Join, Stamp, HasZeroByte, Xor, WordOf, XorByte;
    StampJoins(c);
    XorOfBytes(b, c, z);
  }

  lemma ByteTest(b: seq<bv8>, c: bv8)
    requires |b| == 8
    ensures HasByte(WordOf(b), c) <==> exists k :: 0 <= k < 8 && b[k] == c
  {
    hide *;
    var z := seq(8, k requires 0 <= k < 8 => XorByte(b[k], c));
    HasByteMeansZero(b, c, z);
    ZeroByteTest(z);
    forall k | 0 <= k < 8 ensures z[k] == 0 <==> b[k] == c {
      XorZeroByte(b[k], c);
    }
  }
}
