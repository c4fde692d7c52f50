/**
  The `&` of unsigned words on natural numbers, for the masks the program builds from powers of two.
*/
module NatBits {
  function Pow2(k: nat): (p: nat)
    ensures p >= 1
  {
    if k == 0 then 1 else 2 * Pow2(k - 1)
  }

  lemma {:induction false} Pow2Add(a: nat, b: nat)
    ensures Pow2(a + b) == Pow2(a) * Pow2(b)
  {
    if a > 0 {
      Pow2Add(a - 1, b);
      assert 2 * (Pow2(a - 1) * Pow2(b)) == (2 * Pow2(a - 1)) * Pow2(b);
    }
  }

  lemma Pow2Twice(k: nat, p: nat)
    requires Pow2(k) == p
    ensures Pow2(k + k) == p * p
  {
    Pow2Add(k, k);
  }

  lemma Pow2Of64()
    ensures Pow2(64) == 0x1_0000_0000_0000_0000
  {
    assert Pow2(4) == 0x10;
    hide Pow2;
    Pow2Twice(4, 0x10);
    Pow2Twice(8, 0x100);
    Pow2Twice(16, 0x1_0000);
    Pow2Twice(32, 0x1_0000_0000);
  }

  function And(a: nat, b: nat): nat {
    if a == 0 || b == 0 then 0 else (a % 2) * (b % 2) + 2 * And(a / 2, b / 2)
  }

  lemma HalfMod(a: nat, p: nat)
    requires 0 < p
    ensures a % (2 * p) == 2 * ((a / 2) % p) + a % 2
  {
    var q, r := a / 2 / p, a / 2 % p;
    assert a / 2 == p * q + r;
    Twice(p, q);
    Remainder(a, 2 * p, q, 2 * r + a % 2);
  }

  lemma Twice(p: nat, q: nat)
    ensures (2 * p) * q == 2 * (p * q)
  {
  }

  lemma Remainder(a: nat, m: nat, q: nat, r: nat)
    requires 0 < m && r < m && a == m * q + r
    ensures a % m == r && a / m == q
  {
    var d, s := a / m, a % m;
    assert m * (q - d) == s - r;
    TimesAtLeastOne(m, q - d);
  }

  lemma TimesAtLeastOne(m: int, x: int)
    requires 0 <= m
    ensures x >= 1 ==> m * x >= m
    ensures x <= -1 ==> m * x <= -m
  {
    assert m * x == m * (x - 1) + m && m * x == m * (x + 1) - m;
  }

  /** A mask of the low `k` bits takes the remainder. */
  lemma {:induction false} AndLowMask(a: nat, k: nat)
    ensures And(a, Pow2(k) - 1) == a % Pow2(k)
  {
    if k == 0 {
      assert Pow2(k) == 1;
    } else {
      AndLowMask(a / 2, k - 1);
      LowMaskStep(a, Pow2(k - 1));
    }
    hide And;
  }

  lemma LowMaskStep(a: nat, p: nat)
    requires 0 < p && And(a / 2, p - 1) == a / 2 % p
    ensures And(a, 2 * p - 1) == a % (2 * p)
  {
    hide And;
    HalfMod(a, p);
    AndOdd(a, p - 1);
  }

  lemma AndOdd(a: nat, b: nat)
    ensures And(a, 2 * b + 1) == a % 2 + 2 * And(a / 2, b)
  {
    hide And;
    assert (2 * b + 1) / 2 == b && (2 * b + 1) % 2 == 1;
    AndHalves(a, 2 * b + 1);
  }

  lemma AndHalves(a: nat, b: nat)
    ensures And(a, b) == (a % 2) * (b % 2) + 2 * And(a / 2, b / 2)
  {
  }

  /** A mask of all but the low `k` bits of an `m`-bit word rounds down. */
  lemma {:induction false} AndHighMask(a: nat, k: nat, m: nat)
    requires k <= m && a < Pow2(m)
    ensures Pow2(k) <= Pow2(m) && And(a, Pow2(m) - Pow2(k)) == a - a % Pow2(k)
    decreases k
  {
    if k == 0 {
      AndLowMask(a, m);
      Remainder(a, Pow2(m), 0, a);
    } else {
      assert Pow2(k) == 2 * Pow2(k - 1) && Pow2(m) == 2 * Pow2(m - 1);
      hide And, Pow2;
      HalfMod(a, Pow2(k - 1));
      AndHighMask(a / 2, k - 1, m - 1);
      var mask := Pow2(m) - Pow2(k);
      assert mask / 2 == Pow2(m - 1) - Pow2(k - 1) && mask % 2 == 0;
      AndHalves(a, mask);
    }
  }

  /** The test `n && (n & (n - 1)) == 0`. */
  predicate IsPowerOf2(n: nat) {
    n != 0 && And(n, n - 1) == 0
  }

  lemma {:induction false} AndSelf(a: nat)
    ensures And(a, a) == a
  {
    if a != 0 { AndSelf(a / 2); }
  }

  lemma {:induction false} PowerOf2Passes(k: nat)
    ensures IsPowerOf2(Pow2(k))
  {
    if k > 0 {
      PowerOf2Passes(k - 1);
      var n := Pow2(k);
      assert (n - 1) / 2 == Pow2(k - 1) - 1;
    }
  }

  lemma {:induction false} OnlyPowersOf2Pass(n: nat) returns (k: nat)
    requires IsPowerOf2(n)
    ensures n == Pow2(k)
  {
    if n == 1 {
      k := 0;
    } else if n % 2 == 1 {
      assert (n - 1) / 2 == n / 2 && (n - 1) % 2 == 0;
      AndSelf(n / 2);
      assert false;
    } else {
      assert (n - 1) / 2 == n / 2 - 1;
      var j := OnlyPowersOf2Pass(n / 2);
      k := j + 1;
    }
  }

  /** is_power_of_2 accepts exactly the powers of two. */
  lemma PowerOf2Test(n: nat)
    ensures IsPowerOf2(n) <==> exists k :: n == Pow2(k)
  {
    if IsPowerOf2(n) { var k := OnlyPowersOf2Pass(n); }
    if k :| n == Pow2(k) { PowerOf2Passes(k); }
  }
}
