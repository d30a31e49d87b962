/** Machine words as numbers: powers of two, shifts and bitwise operations on 64-bit values. */
module Bits {

  const WORD: nat := 0x1_0000_0000_0000_0000
  const HALF: nat := 0x1_0000_0000

  function Pow2(n: nat): (p: nat)
    ensures p > 0
  {
    if n == 0 then 1 else 2 * Pow2(n - 1)
  }

  /** Quotient and remainder, with the facts that define them. */
  function Quot(x: nat, d: nat): (q: nat)
    requires d > 0
    ensures q * d <= x < q * d + d
  {
    x / d
  }

  function Rem(x: nat, d: nat): (r: nat)
    requires d > 0
    ensures r < d && x == Quot(x, d) * d + r
  {
    x % d
  }

  function And(x: nat, y: nat): nat {
    if x == 0 || y == 0 then 0 else 2 * And(x / 2, y / 2) + (x % 2) * (y % 2)
  }

  function Or(x: nat, y: nat): nat {
    if x == 0 then y else if y == 0 then x else 2 * Or(x / 2, y / 2) + (if x % 2 == 0 && y % 2 == 0 then 0 else 1)
  }

  function Not64(x: nat): nat
    requires x < WORD
  {
    WORD - 1 - x
  }

  function Shl64(x: nat, n: nat): nat {
    Rem(x * Pow2(n), WORD)
  }

  function Shr64(x: nat, n: nat): (r: nat)
    ensures r <= x
  {
    MulMono(1, Pow2(n), Quot(x, Pow2(n)));
    Quot(x, Pow2(n))
  }

  /** The product, as a function that can be hidden. */
  function Times(a: nat, b: nat): nat {
    a * b
  }

  lemma TimesIs(a: nat, b: nat)
    ensures Times(a, b) == a * b
  {
  }

  lemma MulMono(a: int, b: int, d: nat)
    requires a <= b
    ensures a * d <= b * d
  {
  }

  lemma Distribute(a: int, b: int, c: int)
    ensures (a + b) * c == a * c + b * c
  {
  }

  lemma Associate(a: int, b: int, c: int)
    ensures (a * b) * c == a * (b * c)
  {
  }

  /** Quotient and remainder are determined by their defining equation. */
  lemma QuotRem(x: nat, d: nat, q: nat, r: nat)
    requires d > 0 && x == q * d + r && r < d
    ensures Quot(x, d) == q && Rem(x, d) == r
  {
    hide Quot, Rem;
    var q', r' := Quot(x, d), Rem(x, d);
    if q < q' {
      MulMono(q + 1, q', d);
      Distribute(q, 1, d);
      assert false;
    }
    if q' < q {
      MulMono(q' + 1, q, d);
      Distribute(q', 1, d);
      assert false;
    }
  }

  lemma {:induction false} Pow2Add(m: nat, n: nat)
    ensures Pow2(m + n) == Pow2(m) * Pow2(n)
  {
    if m > 0 {
      Pow2Add(m - 1, n);
      assert Pow2(m + n) == 2 * Pow2(m - 1 + n);
      Associate(2, Pow2(m - 1), Pow2(n));
    }
  }

  lemma Pow2Word()
    ensures Pow2(32) == HALF && Pow2(64) == WORD
  {
    assert Pow2(4) == 16;
    assert Pow2(8) == 256;
    Pow2Add(8, 8);
    assert Pow2(16) == 0x1_0000;
    Pow2Add(16, 16);
    Pow2Add(32, 32);
  }

  /** Halving splits a quotient and remainder by twice a number. */
  lemma HalfQuotRem(x: nat, p: nat)
    requires p > 0
    ensures Quot(x, 2 * p) == Quot(x / 2, p) && Rem(x, 2 * p) == 2 * Rem(x / 2, p) + x % 2
  {
    hide Quot, Rem;
    var q, r := Quot(x / 2, p), Rem(x / 2, p);
    Twice(q, p);
    QuotRem(x, 2 * p, q, 2 * r + x % 2);
  }

  lemma Twice(q: nat, p: nat)
    ensures q * (2 * p) == 2 * (q * p)
  {
  }

  /** Bits below and above a boundary do not meet: there, "or" is addition. */
  lemma {:induction false} OrDisjoint(x: nat, y: nat, n: nat)
    requires y < Pow2(n) && Rem(x, Pow2(n)) == 0
    ensures Or(x, y) == x + y
  {
    hide Quot, Rem;
    if n > 0 && x != 0 && y != 0 {
      HalfQuotRem(x, Pow2(n - 1));
      OrDisjoint(x / 2, y / 2, n - 1);
    }
  }

  /** "or" acts on the two sides of a boundary separately. */
  lemma {:induction false} OrSplit(h: nat, l: nat, h': nat, l': nat, n: nat)
    requires l < Pow2(n) && l' < Pow2(n)
    ensures Or(l, l') < Pow2(n)
    ensures Or(Times(h, Pow2(n)) + l, Times(h', Pow2(n)) + l') == Times(Or(h, h'), Pow2(n)) + Or(l, l')
  {
    hide Times, Or;
    if n == 0 {
      TimesIs(h, 1);
      TimesIs(h', 1);
      TimesIs(Or(h, h'), 1);
      OrZero(0);
    } else {
      var p := Pow2(n - 1);
      OrSplit(h, l / 2, h', l' / 2, n - 1);
      TimesTwice(h, p);
      TimesTwice(h', p);
      TimesTwice(Or(h, h'), p);
      OrHalves(l, l');
      OrHalves(Times(h, Pow2(n)) + l, Times(h', Pow2(n)) + l');
    }
  }

  lemma OrHalves(x: nat, y: nat)
    ensures Or(x, y) == 2 * Or(x / 2, y / 2) + if x % 2 == 0 && y % 2 == 0 then 0 else 1
  {
  }

  lemma OrZero(x: nat)
    ensures Or(0, x) == x && Or(x, 0) == x
  {
  }

  lemma TimesTwice(a: nat, x: nat)
    ensures Times(a, x * 2) == 2 * Times(a, x)
    ensures a > 0 ==> Times(a, x) >= x
  {
    if a > 0 {
      MulMono(1, a, x);
    }
  }

  lemma {:induction false} OrCommutes(x: nat, y: nat)
    ensures Or(x, y) == Or(y, x)
  {
    if x != 0 && y != 0 {
      OrCommutes(x / 2, y / 2);
    }
  }

  lemma AndOdd(x: nat, p: nat)
    requires p > 0
    ensures And(x, 2 * p - 1) == 2 * And(x / 2, p - 1) + x % 2
  {
    assert (2 * p - 1) / 2 == p - 1 && (2 * p - 1) % 2 == 1;
  }

  lemma AndEven(x: nat, y: nat)
    ensures And(x, 2 * y) == 2 * And(x / 2, y)
  {
    assert (2 * y) / 2 == y && (2 * y) % 2 == 0;
  }

  /** Masking with `n` ones takes the remainder. */
  lemma {:induction false} AndOnes(x: nat, n: nat)
    ensures And(x, Pow2(n) - 1) == Rem(x, Pow2(n))
  {
    hide Quot, Rem, And;
    if n == 0 {
      NoBits(x);
    } else {
      AndOnes(x / 2, n - 1);
      HalfQuotRem(x, Pow2(n - 1));
      AndOdd(x, Pow2(n - 1));
    }
  }

  lemma NoBits(x: nat)
    ensures And(x, 0) == 0 && Rem(x, 1) == 0
  {
  }

  /** `m` ones above `k` zeros. */
  function HighMask(m: nat, k: nat): nat {
    if k == 0 then Pow2(m) - 1 else 2 * HighMask(m, k - 1)
  }

  lemma {:induction false} HighMaskIs(m: nat, k: nat)
    ensures HighMask(m, k) == Pow2(m + k) - Pow2(k)
  {
    if k > 0 {
      HighMaskIs(m, k - 1);
      assert m + k - 1 == m + (k - 1);
    }
  }

  /** Masking with ones above `k` zeros clears the low `k` bits. */
  lemma {:induction false} AndHigh(x: nat, m: nat, k: nat)
    requires x < Pow2(m + k)
    ensures And(x, HighMask(m, k)) == x - Rem(x, Pow2(k))
  {
    hide Quot, Rem, And;
    if k == 0 {
      AndOnes(x, m);
      NoBits(x);
      QuotRem(x, Pow2(m), 0, x);
    } else {
      assert m + k - 1 == m + (k - 1);
      AndHigh(x / 2, m, k - 1);
      HalfQuotRem(x, Pow2(k - 1));
      AndEven(x, HighMask(m, k - 1));
    }
  }

  /** All 64 ones shifted right by `n` leave 64 - n ones. */
  lemma OnesShifted(n: nat)
    requires n <= 64
    ensures Shr64(WORD - 1, n) == Pow2(64 - n) - 1
  {
    hide Quot, Rem;
    Pow2Word();
    Pow2Add(64 - n, n);
    var p, d := Pow2(64 - n), Pow2(n);
    Distribute(p - 1, 1, d);
    QuotRem(WORD - 1, d, p - 1, d - 1);
  }

  // ---------- remainders ----------

  lemma RemDrop(x: nat, k: nat, m: nat)
    requires m > 0
    ensures Rem(k * m + x, m) == Rem(x, m)
  {
    hide Quot, Rem;
    var q, r := Quot(x, m), Rem(x, m);
    Distribute(k, q, m);
    QuotRem(k * m + x, m, k + q, r);
  }

  lemma RemAdd(x: nat, y: nat, m: nat)
    requires m > 0
    ensures Rem(Rem(x, m) + y, m) == Rem(x + y, m)
  {
    hide Quot, Rem;
    RemDrop(Rem(x, m) + y, Quot(x, m), m);
  }

  lemma RemMul(x: nat, y: nat, m: nat)
    requires m > 0
    ensures Rem(Rem(x, m) * y, m) == Rem(x * y, m)
  {
    hide Quot, Rem;
    var q, r := Quot(x, m), Rem(x, m);
    Distribute(q * m, r, y);
    Associate(q, m, y);
    Associate(q, y, m);
    RemDrop(r * y, q * y, m);
  }

  lemma RemSmall(x: nat, m: nat)
    requires x < m
    ensures Rem(x, m) == x && Quot(x, m) == 0
  {
    QuotRem(x, m, 0, x);
  }
}
