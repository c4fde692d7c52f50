/**
  Sizes and size classes: includes/structure.h, srcs/zone_utils.c and the size checks of malloc, calloc and realloc.
  Arithmetic on `size_t` is 64-bit and wraps; `% WORD` is written wherever the C expression can wrap.
*/
module Sizes {
  import opened Wrappers

  datatype ZoneType = TINY | SMALL | LARGE

  const WORD: nat := 0x1_0000_0000_0000_0000
  const SIZE_MAX: nat := WORD - 1
  type size_t = n: nat | n < WORD

  // BLOCK_UNIT_SIZE: 16 bytes, the size of a chunk header.
  const UNIT: nat := 16
  // TINY_MAX_CHUNK_BLOCK and SMALL_MAX_CHUNK_BLOCK: 1024 and 15360 bytes.
  const TINY_MAX_BLOCKS: nat := 64
  const SMALL_MAX_BLOCKS: nat := 960
  // LARGE_OFFSET_USABLE: the LARGE header rounded up to two units, and a chunk header.
  const LARGE_OFFSET: nat := 48

  /** CEIL_BY: `a` rounded up to a multiple of `b`, and `b` for 0. */
  function CeilBy(a: nat, b: nat): nat
    requires b > 0
  {
    if a != 0 then ((a - 1) / b + 1) * b % WORD else b
  }

  /** BLOCKS_FOR_SIZE: 0 only for the sizes whose rounding wraps. */
  function BlocksForSize(n: nat): (blocks: nat)
    ensures n <= WORD - UNIT ==>
              blocks >= 1 && n <= blocks * UNIT && (n > 0 ==> (blocks - 1) * UNIT < n) && (n == 0 ==> blocks == 1)
    ensures WORD - UNIT < n < WORD ==> blocks == 0
  {
    CeilBy(n, UNIT) / UNIT
  }

  function ZoneTypeForBytes(n: nat): ZoneType {
    var blocks := BlocksForSize(n);
    if blocks > SMALL_MAX_BLOCKS then LARGE else if blocks > TINY_MAX_BLOCKS then SMALL else TINY
  }

  // sizeof(t_yoyo_chunk) and sizeof(t_yoyo_large_chunk): two and three words.
  const CHUNK_HEADER: nat := 2 * 8
  const LARGE_HEADER: nat := 3 * 8

  /** The constants as the header file computes them. */
  lemma SizesOfTheHeaders()
    ensures UNIT == CeilBy(CHUNK_HEADER, 8)
    ensures LARGE_OFFSET == CeilBy(LARGE_HEADER, UNIT) + CeilBy(CHUNK_HEADER, UNIT) && LARGE_OFFSET - UNIT == 32
    ensures TINY_MAX_BLOCKS == BlocksForSize(1024) && SMALL_MAX_BLOCKS == BlocksForSize(15360)
  {
  }

  /** The class of a request, by its bytes; the sizes whose rounding wraps are taken for TINY. */
  lemma ClassBySize(n: size_t)
    ensures ZoneTypeForBytes(n) ==
            if n <= 1024 || WORD - UNIT < n then TINY else if n <= 15360 then SMALL else LARGE
  {
  }

  function Min(a: nat, b: nat): nat { if b < a then b else a }

  // ---------------------------------------------------------------- malloc

  /** The check at the head of yoyo_actual_malloc: the request cannot be expressed in blocks with a header. */
  predicate MallocRejects(n: size_t) {
    var needed := BlocksForSize(n);
    needed == 0 || (needed + 1) * UNIT % WORD == 0
  }

  lemma RejectsOnlyTheLast31(n: size_t)
    ensures MallocRejects(n) <==> n > WORD - 2 * UNIT
  {
    var needed := BlocksForSize(n);
    if n <= WORD - UNIT {
      assert 0 < (needed + 1) * UNIT <= WORD;
    }
  }

  /** What allocate_large_chunk asks mmap for: the bytes to map and the block count for the header. */
  function LargePlan(n: size_t, page: nat): Option<(nat, nat)>
    requires 0 < page
  {
    var needed := BlocksForSize(n);
    var usable := needed * UNIT;
    if LARGE_OFFSET >= SIZE_MAX - usable then None
    else
      var bytes := CeilBy((LARGE_OFFSET + usable) % WORD, page);
      if bytes < page then None else Some((bytes, needed + 1))
  }

  lemma MulLe(a: int, b: int, p: nat)
    requires a <= b
    ensures a * p <= b * p
  {
  }

  lemma ModOfMultiple(q: nat, p: nat)
    requires 0 < p
    ensures q * p % p == 0
  {
    var d, r := q * p / p, q * p % p;
    assert q * p == p * d + r;
    assert (q - d) * p == r;
    if q < d { MulLe(q - d, -1, p); }
    if q > d { MulLe(1, q - d, p); }
  }

  lemma RoundUp(a: nat, p: nat)
    requires 0 < a && 0 < p
    ensures var m := ((a - 1) / p + 1) * p; a <= m < a + p && m % p == 0
  {
    var q := (a - 1) / p;
    assert (q + 1) * p == q * p + p;
    ModOfMultiple(q + 1, p);
  }

  lemma MultipleIs(q: nat, k: nat, p: nat)
    requires (k - 1) * p < q * p < (k + 1) * p
    ensures q == k
  {
  }

  /** The multiple of a divisor of the word size that a size rounds up to: within the word, or the word size itself. */
  lemma RoundedInWord(a: nat, m: nat, page: nat)
    requires 0 < page && WORD % page == 0 && m % page == 0 && 0 < a <= m < a + page
    ensures if a <= WORD - page then page <= m < WORD else a < WORD ==> m == WORD
  {
    var q, k := m / page, WORD / page;
    assert m == q * page && WORD == k * page;
    assert (k - 1) * page == k * page - page && (k + 1) * page == k * page + page;
    if a <= WORD - page {
      if q <= 0 { MulLe(q, 0, page); }
      MulLe(1, q, page);
    } else if a < WORD {
      MultipleIs(q, k, page);
    }
  }

  /** Rounding up to a divisor of the word size: exact, or 0 if the exact result is the word size. */
  lemma CeilByExact(a: nat, page: nat)
    requires 0 < a < WORD && 0 < page && WORD % page == 0
    ensures var r := CeilBy(a, page);
            if a <= WORD - page then r % page == 0 && a <= r < a + page && page <= r < WORD else r == 0
  {
    RoundUp(a, page);
    var m := ((a - 1) / page + 1) * page;
    assert CeilBy(a, page) == m % WORD;
    hide CeilBy;
    RoundedInWord(a, m, page);
  }

  /** The plan is exact where it exists, and it exists exactly when its size is below the word size. */
  lemma LargePlanIsExact(n: size_t, page: nat)
    requires 1 < page && WORD % page == 0 && !MallocRejects(n)
    ensures var whole := LARGE_OFFSET + BlocksForSize(n) * UNIT;
            match LargePlan(n, page)
            case None => whole > WORD - page
            case Some((bytes, blocks)) =>
              && whole <= WORD - page
              && bytes % page == 0 && whole <= bytes < whole + page && bytes < WORD
              && blocks == BlocksForSize(n) + 1 && LARGE_OFFSET + n <= bytes
  {
    RejectsOnlyTheLast31(n);
    hide CeilBy, BlocksForSize, MallocRejects;
    var whole := LARGE_OFFSET + BlocksForSize(n) * UNIT;
    if whole < WORD { CeilByExact(whole, page); }
  }

  // ---------------------------------------------------------------- calloc

  /** The size yoyo_actual_calloc passes to malloc; None is its ENOMEM. */
  function CallocSize(count: size_t, size: size_t): Option<nat> {
    var c, s := if count == 0 || size == 0 then 1 else count, if count == 0 || size == 0 then 1 else size;
    if SIZE_MAX / c < s then None else Some(c * s % WORD)
  }

  lemma CallocChecksTheProduct(count: size_t, size: size_t)
    ensures match CallocSize(count, size)
            case None => count * size > SIZE_MAX
            case Some(n) => n == (if count == 0 || size == 0 then 1 else count * size)
  {
    if count != 0 && size != 0 {
      var q := SIZE_MAX / count;
      var r := SIZE_MAX % count;
      assert q * count + r == SIZE_MAX;
      if q < size {
        MulLe(q + 1, size, count);
        assert (q + 1) * count == q * count + count;
      } else {
        MulLe(size, q, count);
      }
      assert size * count == count * size;
    }
  }

  // ---------------------------------------------------------------- realloc

  datatype Plan = Reject | Relocate(blocks: nat) | ShrinkTo(blocks: nat) | Maintain

  /** The decision tree of yoyo_actual_realloc for a chunk of `current` blocks and a request of `n` bytes. */
  function ReallocPlan(current: nat, n: size_t): Plan {
    var needed := BlocksForSize(n);
    var required := needed + 1;
    if needed == 0 || required == 0 then
      Reject
    else
      var typeRequired := ZoneTypeForBytes(n);
      var typeCurrent := ZoneTypeForBytes(current * UNIT);
      if typeRequired != typeCurrent then Relocate(required)
      else if typeCurrent != LARGE && required < current && current - required >= 2
              && ZoneTypeForBytes((current - required) * UNIT) == typeCurrent then ShrinkTo(required)
      else if required <= current then Maintain
      else Relocate(required)
  }
}
