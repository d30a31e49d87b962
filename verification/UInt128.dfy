/** 128-bit unsigned integers as two 64-bit halves. */
module UInt128s {
  import opened Bits

  const DWORD: nat := 0x1_0000_0000_0000_0000_0000_0000_0000_0000

  function Value(hi: nat, lo: nat): nat {
    hi * WORD + lo
  }

  lemma ValueBound(hi: nat, lo: nat)
    requires hi < WORD && lo < WORD
    ensures Value(hi, lo) < DWORD
  {
  }

  /** The bits that move from the low to the high half when shifting left by `n`. */
  function Carried(lo: nat, n: nat): nat
    requires n <= 64
  {
    Shr64(And(lo, Not64(Shr64(WORD - 1, n))), 64 - n)
  }

  lemma CarriedIs(lo: nat, n: nat)
    requires 0 < n < 64 && lo < WORD
    ensures Carried(lo, n) == Quot(lo, Pow2(64 - n)) < Pow2(n)
  {
    hide Quot, Rem, And, HighMask;
    var p, q := Pow2(n), Pow2(64 - n);
    Pow2Word();
    Pow2Add(n, 64 - n);
    OnesShifted(n);
    HighMaskIs(n, 64 - n);
    AndHigh(lo, n, 64 - n);
    var k := Quot(lo, q);
    QuotRem(k * q, q, k, 0);
    if k >= p {
      MulMono(p, k, q);
    }
  }

  /** The high half after shifting left: the two parts do not overlap. */
  lemma HighShifted(hi: nat, lo: nat, n: nat)
    requires 0 < n < 64 && hi < WORD && lo < WORD
    ensures Or(Shl64(hi, n), Carried(lo, n)) == Shl64(hi, n) + Quot(lo, Pow2(64 - n))
  {
    hide Quot, Rem, And, Or, Carried;
    var p, q := Pow2(n), Pow2(64 - n);
    CarriedIs(lo, n);
    Pow2Word();
    Pow2Add(n, 64 - n);
    var a, r := Quot(hi * p, WORD), Rem(hi * p, WORD);
    ShiftedRest(hi, p, q, a, r);
    QuotRem(r, p, hi - a * q, 0);
    OrDisjoint(r, Carried(lo, n), n);
  }

  lemma ShiftedRest(hi: nat, p: nat, q: nat, a: nat, r: nat)
    requires p > 0 && p * q == WORD && hi * p == a * WORD + r
    ensures a * q <= hi && r == (hi - a * q) * p
  {
    Associate(a, q, p);
    Distribute(hi, -(a * q), p);
    if a * q > hi {
      MulMono(hi + 1, a * q, p);
      Distribute(hi, 1, p);
    }
  }

  /** Shifting both halves left by less than a word. */
  lemma ShiftLeft(hi: nat, lo: nat, n: nat)
    requires 0 < n < 64 && hi < WORD && lo < WORD
    ensures var hi', lo' := Or(Shl64(hi, n), Carried(lo, n)), Shl64(lo, n);
            && hi' < WORD && lo' < WORD
            && Value(hi', lo') == Rem(Value(hi, lo) * Pow2(n), DWORD)
  {
    hide Quot, Rem, And, Or, Carried, Pow2;
    var p, q := Pow2(n), Pow2(64 - n);
    HighShifted(hi, lo, n);
    Pow2Word();
    Pow2Add(n, 64 - n);
    var a, r := Quot(hi * p, WORD), Rem(hi * p, WORD);
    ShiftedRest(hi, p, q, a, r);
    var k, l := Quot(lo, q), Rem(lo, q);
    CarriedIs(lo, n);
    LowShifted(lo, p, q, k, l);
    QuotRem(lo * p, WORD, k, l * p);
    BelowWord(p, q, hi - a * q, k, r);
    Distribute(hi * WORD, lo, p);
    assert (hi * WORD) * p == (hi * p) * WORD;
    assert Value(hi, lo) * p == a * DWORD + Value(r + k, l * p);
    ValueBound(r + k, l * p);
    QuotRem(Value(hi, lo) * p, DWORD, a, Value(r + k, l * p));
  }

  lemma LowShifted(lo: nat, p: nat, q: nat, k: nat, l: nat)
    requires p > 0 && p * q == WORD && lo == k * q + l && l < q
    ensures lo * p == k * WORD + l * p && l * p < WORD
  {
    Distribute(k * q, l, p);
    Associate(k, q, p);
    MulMono(l + 1, q, p);
    Distribute(l, 1, p);
  }

  lemma BelowWord(p: nat, q: nat, m: nat, k: nat, r: nat)
    requires p * q == WORD && k < p && r == m * p && r < WORD
    ensures r + k < WORD
  {
    if m >= q {
      MulMono(q, m, p);
    } else {
      MulMono(m + 1, q, p);
      Distribute(m, 1, p);
    }
  }

  /** The bits that move from the high to the low half when shifting right by `n`. */
  function Lowered(hi: nat, n: nat): nat
    requires n <= 64
  {
    Shl64(And(hi, Not64(Shl64(WORD - 1, n))), 64 - n)
  }

  lemma LoweredIs(hi: nat, n: nat)
    requires 0 < n < 64 && hi < WORD
    ensures Lowered(hi, n) == Rem(hi, Pow2(n)) * Pow2(64 - n) < WORD
  {
    hide Quot, Rem, And, Pow2;
    var p, q := Pow2(n), Pow2(64 - n);
    Pow2Word();
    Pow2Add(n, 64 - n);
    MulMono(1, q, p);
    Distribute(WORD, -1, p);
    QuotRem((WORD - 1) * p, WORD, p - 1, WORD - p);
    AndOnes(hi, n);
    var h := Rem(hi, p);
    MulMono(h + 1, p, q);
    Distribute(h, 1, q);
    QuotRem(h * q, WORD, 0, h * q);
  }

  /** Shifting both halves right by less than a word. */
  lemma ShiftRight(hi: nat, lo: nat, n: nat)
    requires 0 < n < 64 && hi < WORD && lo < WORD
    ensures var hi', lo' := Shr64(hi, n), Or(Shr64(lo, n), Lowered(hi, n));
            && hi' < WORD && lo' < WORD
            && Value(hi', lo') == Quot(Value(hi, lo), Pow2(n))
  {
    hide Quot, Rem, And, Or, Lowered, Pow2;
    var p, q := Pow2(n), Pow2(64 - n);
    Pow2Word();
    Pow2Add(n, 64 - n);
    LoweredIs(hi, n);
    var h, k, l, m := Quot(hi, p), Rem(hi, p), Quot(lo, p), Rem(lo, p);
    SmallQuot(lo, l, p, q);
    OrCommutes(l, k * q);
    QuotRem(k * q, q, k, 0);
    OrDisjoint(k * q, l, 64 - n);
    BelowWord(q, p, k, l, k * q);
    Recombine(hi, lo, p, q, h, k, l, m);
    QuotRem(Value(hi, lo), p, Value(h, k * q + l), m);
  }

  lemma SmallQuot(lo: nat, l: nat, p: nat, q: nat)
    requires l * p <= lo < WORD == p * q
    ensures l < q
  {
    if l >= q {
      MulMono(q, l, p);
    }
  }

  lemma Recombine(hi: nat, lo: nat, p: nat, q: nat, h: nat, k: nat, l: nat, m: nat)
    requires hi == h * p + k && lo == l * p + m && p * q == WORD
    ensures Value(hi, lo) == Value(h, k * q + l) * p + m
  {
    Distribute(h * p, k, WORD);
    Associate(h, p, WORD);
    Distribute(h * WORD, k * q + l, p);
    Associate(h, WORD, p);
    Distribute(k * q, l, p);
    Associate(k, q, p);
  }

  class UInt128 {
    var hi: nat
    var lo: nat

    ghost predicate Valid()
      reads this
    {
      hi < WORD && lo < WORD
    }

    ghost function Val(): nat
      reads this
    {
      Value(hi, lo)
    }

    constructor (hi: nat, lo: nat)
      requires hi < WORD && lo < WORD
      ensures Valid() && Val() == Value(hi, lo)
    {
      this.hi, this.lo := hi, lo;
    }

    /** `operator<<=`. */
    method ShiftLeftAssign(count: nat)
      requires Valid()
      modifies this
      ensures Valid() && Val() == Rem(old(Val()) * Pow2(count), DWORD)
    {
      hide Quot, Rem, And, Or, Carried, Pow2;
      if count >= 128 {
        BeyondAll(Val(), count);
        hi, lo := 0, 0;
      } else {
        var n := count;
        if n >= 64 {
          n := n - 64;
          WholeWordLeft(hi, lo, n);
          hi := lo;
          lo := 0;
        } else {
          ValueBound(hi, lo);
          RemSmall(Val(), DWORD);
        }
        ShiftNone(hi, lo);
        if n != 0 {
          ShiftLeft(hi, lo, n);
          var moved := Carried(lo, n);
          hi := Shl64(hi, n);
          hi := Or(hi, moved);
          lo := Shl64(lo, n);
        }
      }
    }

    /** `operator>>=`. */
    method ShiftRightAssign(count: nat)
      requires Valid()
      modifies this
      ensures Valid() && Val() == Quot(old(Val()), Pow2(count))
    {
      hide Quot, Rem, And, Or, Lowered, Pow2;
      if count >= 128 {
        BelowAll(hi, lo, count);
        hi, lo := 0, 0;
      } else {
        var n := count;
        if n >= 64 {
          n := n - 64;
          WholeWordRight(hi, lo, n);
          lo := hi;
          hi := 0;
        }
        ShiftNone(hi, lo);
        if n != 0 {
          ShiftRight(hi, lo, n);
          var moved := Lowered(hi, n);
          lo := Shr64(lo, n);
          lo := Or(lo, moved);
          hi := Shr64(hi, n);
        }
      }
    }

    /** `operator+=` with the halves of the argument. */
    method AddHalves(uhi: nat, ulo: nat)
      requires Valid() && uhi < WORD && ulo < WORD
      modifies this
      ensures Valid() && Val() == Rem(old(Val()) + Value(uhi, ulo), DWORD)
    {
      hide Quot, Rem;
      AddCarries(hi, lo, uhi, ulo);
      var before := lo;
      lo := Rem(lo + ulo, WORD);
      hi := Rem(hi + Rem(uhi + (if lo < before then 1 else 0), WORD), WORD);
    }

    /** `operator+=`; the argument may be the number itself. */
    method AddAssign(u: UInt128)
      requires Valid() && u.Valid()
      modifies this
      ensures Valid() && Val() == Rem(old(Val()) + old(u.Val()), DWORD)
    {
      AddHalves(u.hi, u.lo);
    }

    /** `operator-=`: add the two's complement. */
    method SubAssign(u: UInt128)
      requires Valid() && u.Valid()
      modifies this
      ensures Valid() && Val() == Rem(old(Val()) + DWORD - old(u.Val()), DWORD)
    {
      NegateHalves(u.hi, u.lo, Val());
      var nlo := Rem(Not64(u.lo) + 1, WORD);
      var nhi := Rem(Not64(u.hi) + (if nlo == 0 then 1 else 0), WORD);
      AddHalves(nhi, nlo);
    }

    /** `operator*=` on 32-bit limbs; the argument may be the number itself. */
    method MulAssign(b: UInt128)
      requires Valid() && b.Valid()
      modifies this
      ensures Valid() && Val() == Rem(old(Val()) * old(b.Val()), DWORD)
    {
      hide Quot, Rem, Pow2, Value, Times, Horner;
      var a0, a1, a2, a3 := Limbs(hi, lo);
      var b0, b1, b2, b3 := Limbs(b.hi, b.lo);
      TopColumn(a0, a1, a2, a3, b0, b1, b2, b3);
      ghost var p3 := Times(a3, b0) + Times(a2, b1) + Times(a1, b2) + Times(a0, b3);
      NextLimb(p3);
      AddProduct(a2, b0, p3 * HALF);
      AddProduct(a1, b1, p3 * HALF + Times(a2, b0));
      AddProduct(a0, b2, p3 * HALF + Times(a2, b0) + Times(a1, b1));
      ghost var p2 := p3 * HALF + Times(a2, b0) + Times(a1, b1) + Times(a0, b2);
      NextLimb(p2);
      AddProduct(a1, b0, p2 * HALF);
      AddProduct(a0, b1, p2 * HALF + Times(a1, b0));
      ghost var p1 := p2 * HALF + Times(a1, b0) + Times(a0, b1);
      NextLimb(p1);
      AddProduct(a0, b0, p1 * HALF);
      Schoolbook(a0, a1, a2, a3, b0, b1, b2, b3);
    }

    /** The products that count for the highest limb. */
    method TopColumn(a0: nat, a1: nat, a2: nat, a3: nat, b0: nat, b1: nat, b2: nat, b3: nat)
      requires a0 < HALF && a1 < HALF && a2 < HALF && a3 < HALF && b0 < HALF && b1 < HALF && b2 < HALF && b3 < HALF
      modifies this
      ensures Valid() && Val() == Rem(Times(a3, b0) + Times(a2, b1) + Times(a1, b2) + Times(a0, b3), DWORD)
    {
      hide Quot, Rem, Times;
      StartProduct(a3, b0);
      hi := 0;
      lo := Times(a3, b0);
      AddProduct(a2, b1, Times(a3, b0));
      AddProduct(a1, b2, Times(a3, b0) + Times(a2, b1));
      AddProduct(a0, b3, Times(a3, b0) + Times(a2, b1) + Times(a1, b2));
    }

    /** Add one limb product to an accumulator that holds `acc` modulo 2^128. */
    method AddProduct(a: nat, b: nat, ghost acc: nat)
      requires Valid() && a < HALF && b < HALF && Val() == Rem(acc, DWORD)
      modifies this
      ensures Valid() && Val() == Rem(acc + Times(a, b), DWORD)
    {
      hide Quot, Rem, Times;
      LimbProduct(a, b);
      AddHalves(0, Times(a, b));
      RemAdd(acc, Times(a, b), DWORD);
    }

    /** A fresh number holding the product of two words, as `full_product` computes it. */
    static method WordProduct(x: nat, y: nat) returns (p: UInt128)
      requires x < WORD && y < WORD
      ensures fresh(p) && p.Valid() && p.Val() == Times(x, y)
    {
      hide Quot, Rem;
      p := new UInt128(0, x);
      var t := new UInt128(0, y);
      p.MulAssign(t);
      MulMono(x, WORD, y);
      MulMono(y, WORD - 1, WORD);
      RemSmall(x * y, DWORD);
    }

    /** Sum four words in a fresh accumulator. */
    static method SumWords(w: nat, x: nat, y: nat, z: nat) returns (hi: nat, lo: nat)
      requires w < WORD && x < WORD && y < WORD && z < WORD
      ensures hi < WORD && lo < WORD && Value(hi, lo) == w + x + y + z
    {
      hide Quot, Rem;
      var acc := new UInt128(0, w);
      RemSmall(w + x, DWORD);
      acc.AddHalves(0, x);
      RemSmall(w + x + y, DWORD);
      acc.AddHalves(0, y);
      RemSmall(w + x + y + z, DWORD);
      acc.AddHalves(0, z);
      hi, lo := acc.hi, acc.lo;
    }

    /** `full_product`: the exact 256-bit product, as two 128-bit halves. */
    static method FullProduct(a: UInt128, b: UInt128) returns (high: UInt128, low: UInt128)
      requires a.Valid() && b.Valid()
      ensures high.Valid() && low.Valid()
      ensures high.Val() * DWORD + low.Val() == old(a.Val()) * old(b.Val())
    {
      hide Quot, Rem, Times;
      var s := WordProduct(a.lo, b.lo);
      var r := WordProduct(a.hi, b.lo);
      var q := WordProduct(a.lo, b.hi);
      var p := WordProduct(a.hi, b.hi);
      var c1, y1 := SumWords(s.hi, q.lo, r.lo, 0);
      var c2, y2 := SumWords(c1, q.hi, r.hi, p.lo);
      WordsOfProduct(a.hi, a.lo, b.hi, b.lo, s.hi, s.lo, r.hi, r.lo, q.hi, q.lo, p.hi, p.lo, c1, y1, c2, y2);
      RemSmall(c2 + p.hi, WORD);
      var y3 := Rem(c2 + p.hi, WORD);
      high := new UInt128(y3, y2);
      low := new UInt128(y1, s.lo);
    }

    /** Make room for the next limb. */
    method NextLimb(ghost acc: nat)
      requires Valid() && Val() == Rem(acc, DWORD)
      modifies this
      ensures Valid() && Val() == Rem(acc * HALF, DWORD)
    {
      hide Quot, Rem, Pow2;
      Pow2Word();
      ShiftLeftAssign(32);
      RemMul(acc, HALF, DWORD);
    }

    /** The four 32-bit limbs of a number, lowest first. */
    static method Limbs(hi: nat, lo: nat) returns (l0: nat, l1: nat, l2: nat, l3: nat)
      requires hi < WORD && lo < WORD
      ensures l0 < HALF && l1 < HALF && l2 < HALF && l3 < HALF
      ensures Value(hi, lo) == Horner(l0, l1, l2, l3)
    {
      l0, l1, l2, l3 := lo % HALF, lo / HALF, hi % HALF, hi / HALF;
    }

    /** `operator<`. */
    method LessThan(u: UInt128) returns (r: bool)
      requires Valid() && u.Valid()
      ensures r == (Val() < u.Val())
    {
      r := if hi == u.hi then lo < u.lo else hi < u.hi;
    }

    /** `operator>=`. */
    method AtLeast(u: UInt128) returns (r: bool)
      requires Valid() && u.Valid()
      ensures r == (Val() >= u.Val())
    {
      r := hi == u.hi && lo == u.lo;
      if !r {
        r := u.LessThan(this);
      }
    }

    /** `operator|=`. */
    method OrAssign(u: UInt128)
      requires Valid() && u.Valid()
      modifies this
      ensures Valid() && Val() == Or(old(Val()), old(u.Val()))
    {
      OrWords(hi, lo, u.hi, u.lo);
      hide Or;
      hi, lo := Or(hi, u.hi), Or(lo, u.lo);
    }

    /** Whether the highest of the 128 bits is clear, by shifting it down. */
    method TopBitClear() returns (r: bool)
      requires Valid()
      ensures r == (Val() < DWORD / 2)
    {
      hide And;
      var t := new UInt128(hi, lo);
      t.ShiftRightAssign(127);
      TopBit(Val());
      AndOnes(t.lo, 1);
      r := And(t.lo, 1) == 0;
    }

    /** `divide`: shift the divisor up, then subtract it on the way down.  False where it throws. */
    static method Divide(numerator: UInt128, denominator: UInt128) returns (ok: bool, quotient: UInt128, remainder: UInt128)
      requires numerator.Valid() && denominator.Valid()
      ensures ok <==> denominator.Val() > 0
      ensures fresh(quotient) && fresh(remainder) && quotient.Valid() && remainder.Valid()
      ensures ok ==> numerator.Val() == quotient.Val() * denominator.Val() + remainder.Val() && remainder.Val() < denominator.Val()
    {
      hide Times, Or, Quot, Rem, Pow2;
      ghost var nv, dv := numerator.Val(), denominator.Val();
      var n := new UInt128(numerator.hi, numerator.lo);
      var d := new UInt128(denominator.hi, denominator.lo);
      var x := new UInt128(0, 1);
      quotient := new UInt128(0, 0);
      remainder := n;
      if denominator.hi == 0 && denominator.lo == 0 {
        return false, quotient, remainder;
      }
      ghost var k: nat := ShiftUp(n, d, x, dv);
      Started(nv, dv, n.Val(), x.Val(), k);
      Descend(n, d, x, quotient, nv, dv, k);
      ok := true;
      TimesIs(quotient.Val(), dv);
    }

    /** The first loop of `divide`: the divisor as far up as it may go. */
    static method ShiftUp(n: UInt128, d: UInt128, x: UInt128, ghost dv: nat) returns (ghost k: nat)
      requires n.Valid() && d.Valid() && x.Valid() && n != d && n != x && d != x
      requires d.Val() == dv > 0 && x.Val() == 1
      modifies d, x
      ensures d.Valid() && x.Valid() && x.Val() == Pow2(k) && d.Val() == Times(dv, x.Val()) && n.Val() < 2 * d.Val()
    {
      hide Times, Quot, Rem, Value;
      k := 0;
      TimesIs(dv, 1);
      ValueBound(n.hi, n.lo);
      ValueBound(d.hi, d.lo);
      while true
        invariant d.Valid() && x.Valid() && x.Val() == Pow2(k) && d.Val() == Times(dv, x.Val()) < DWORD && d.Val() > 0
        decreases DWORD - d.Val()
      {
        var more := n.AtLeast(d);
        var clear := d.TopBitClear();
        if !more || !clear {
          break;
        }
        TimesTwice(dv, x.Val());
        ShiftedOnce(x.Val());
        ShiftedOnce(d.Val());
        x.ShiftLeftAssign(1);
        d.ShiftLeftAssign(1);
        k := k + 1;
      }
    }

    /** The second loop of `divide`: one bit of the quotient at a time. */
    static method Descend(n: UInt128, d: UInt128, x: UInt128, answer: UInt128, ghost nv: nat, ghost dv: nat, ghost k0: nat)
      requires n.Valid() && d.Valid() && x.Valid() && answer.Valid()
      requires n != d && n != x && d != x && answer != n && answer != d && answer != x
      requires Descending(nv, dv, n.Val(), x.Val(), answer.Val(), k0) && d.Val() == Times(dv, x.Val())
      modifies n, d, x, answer
      ensures n.Valid() && answer.Valid() && n.Val() < dv && nv == Times(answer.Val(), dv) + n.Val()
    {
      hide Times, Or, Descending, Quot, Rem, Value;
      ghost var k := k0;
      BitPositive(nv, dv, n.Val(), x.Val(), answer.Val(), k);
      ValueZero(x.hi, x.lo);
      while x.hi != 0 || x.lo != 0
        invariant n.Valid() && d.Valid() && x.Valid() && answer.Valid()
        invariant x.Val() != 0 ==> Descending(nv, dv, n.Val(), x.Val(), answer.Val(), k) && d.Val() == Times(dv, x.Val())
        invariant x.Val() == 0 ==> n.Val() < dv && nv == Times(answer.Val(), dv) + n.Val()
        invariant x.Val() == 0 <==> x.hi == 0 && x.lo == 0
        decreases x.Val()
      {
        DownStep(nv, dv, n.Val(), x.Val(), answer.Val(), k);
        var take := n.AtLeast(d);
        if take {
          ValueBound(n.hi, n.lo);
          SubSmall(n.Val(), d.Val());
          n.SubAssign(d);
          answer.OrAssign(x);
        }
        TimesHalf(dv, k);
        HalvedOnce(x.Val());
        HalvedOnce(d.Val());
        x.ShiftRightAssign(1);
        d.ShiftRightAssign(1);
        ValueZero(x.hi, x.lo);
        k := if k == 0 then 0 else k - 1;
      }
    }

    /** `operator%=`; the argument may be the number itself.  False where it throws. */
    method RemAssign(b: UInt128) returns (ok: bool)
      requires Valid() && b.Valid()
      modifies this
      ensures Valid() && (ok <==> old(b.Val()) > 0)
      ensures Val() == if ok then Rem(old(Val()), old(b.Val())) else old(Val())
    {
      hide Rem, Quot, Value;
      var quotient, remainder;
      ok, quotient, remainder := Divide(this, b);
      if ok {
        QuotRem(Val(), b.Val(), quotient.Val(), remainder.Val());
        hi, lo := remainder.hi, remainder.lo;
      }
    }
  }

  lemma AddCarries(hi: nat, lo: nat, uhi: nat, ulo: nat)
    requires hi < WORD && lo < WORD && uhi < WORD && ulo < WORD
    ensures var lo' := Rem(lo + ulo, WORD);
            var hi' := Rem(hi + Rem(uhi + (if lo' < lo then 1 else 0), WORD), WORD);
            hi' < WORD && lo' < WORD && Value(hi', lo') == Rem(Value(hi, lo) + Value(uhi, ulo), DWORD)
  {
    hide Quot, Rem;
    var c := if lo + ulo >= WORD then 1 else 0;
    QuotRem(lo + ulo, WORD, c, lo + ulo - c * WORD);
    var d := if uhi + c >= WORD then 1 else 0;
    QuotRem(uhi + c, WORD, d, uhi + c - d * WORD);
    var t := hi + uhi + c - d * WORD;
    var e := if t >= WORD then 1 else 0;
    QuotRem(t, WORD, e, t - e * WORD);
    var v := Value(t - e * WORD, lo + ulo - c * WORD);
    ValueBound(t - e * WORD, lo + ulo - c * WORD);
    assert Value(hi, lo) + Value(uhi, ulo) == (d + e) * DWORD + v;
    QuotRem(Value(hi, lo) + Value(uhi, ulo), DWORD, d + e, v);
  }

  lemma NegateHalves(uhi: nat, ulo: nat, v: nat)
    requires uhi < WORD && ulo < WORD
    ensures var nlo := Rem(Not64(ulo) + 1, WORD);
            var nhi := Rem(Not64(uhi) + (if nlo == 0 then 1 else 0), WORD);
            && nlo < WORD && nhi < WORD && Value(uhi, ulo) < DWORD
            && Rem(v + Value(nhi, nlo), DWORD) == Rem(v + DWORD - Value(uhi, ulo), DWORD)
  {
    hide Quot, Rem;
    ValueBound(uhi, ulo);
    var c := if ulo == 0 then 1 else 0;
    QuotRem(Not64(ulo) + 1, WORD, c, Not64(ulo) + 1 - c * WORD);
    var d := if uhi == 0 && ulo == 0 then 1 else 0;
    QuotRem(Not64(uhi) + c, WORD, d, Not64(uhi) + c - d * WORD);
    if d == 1 {
      RemDrop(v, 1, DWORD);
    }
  }

  function Horner(l0: nat, l1: nat, l2: nat, l3: nat): nat {
    ((l3 * HALF + l2) * HALF + l1) * HALF + l0
  }

  lemma LimbProduct(a: nat, b: nat)
    requires a < HALF && b < HALF
    ensures Times(a, b) < WORD
  {
    MulMono(a, HALF, b);
    MulMono(b, HALF - 1, HALF);
  }

  lemma StartProduct(a: nat, b: nat)
    requires a < HALF && b < HALF
    ensures Times(a, b) < WORD && Value(0, Times(a, b)) == Rem(Times(a, b), DWORD)
  {
    LimbProduct(a, b);
    RemSmall(Times(a, b), DWORD);
  }

  /** The limb products below 2^128 determine the product modulo 2^128. */
  lemma Schoolbook(a0: nat, a1: nat, a2: nat, a3: nat, b0: nat, b1: nat, b2: nat, b3: nat)
    ensures var p3 := Times(a3, b0) + Times(a2, b1) + Times(a1, b2) + Times(a0, b3);
            var p2 := p3 * HALF + Times(a2, b0) + Times(a1, b1) + Times(a0, b2);
            var p1 := p2 * HALF + Times(a1, b0) + Times(a0, b1);
            Rem(Horner(a0, a1, a2, a3) * Horner(b0, b1, b2, b3), DWORD) == Rem(p1 * HALF + Times(a0, b0), DWORD)
  {
    hide Quot, Rem, Times, Horner;
    var p3 := Times(a3, b0) + Times(a2, b1) + Times(a1, b2) + Times(a0, b3);
    var p2 := p3 * HALF + Times(a2, b0) + Times(a1, b1) + Times(a0, b2);
    var p1 := p2 * HALF + Times(a1, b0) + Times(a0, b1);
    Columns(a0, a1, a2, a3, b0, b1, b2, b3);
    RemDrop(p1 * HALF + Times(a0, b0), HighColumns(a1, a2, a3, b1, b2, b3), DWORD);
  }

  /** The limb products at and above 2^128. */
  function HighColumns(a1: nat, a2: nat, a3: nat, b1: nat, b2: nat, b3: nat): nat {
    (Times(a3, b3) * HALF + Times(a3, b2) + Times(a2, b3)) * HALF + Times(a3, b1) + Times(a2, b2) + Times(a1, b3)
  }

  lemma Columns(a0: nat, a1: nat, a2: nat, a3: nat, b0: nat, b1: nat, b2: nat, b3: nat)
    ensures var p3 := Times(a3, b0) + Times(a2, b1) + Times(a1, b2) + Times(a0, b3);
            var p2 := p3 * HALF + Times(a2, b0) + Times(a1, b1) + Times(a0, b2);
            var p1 := p2 * HALF + Times(a1, b0) + Times(a0, b1);
            Horner(a0, a1, a2, a3) * Horner(b0, b1, b2, b3)
            == HighColumns(a1, a2, a3, b1, b2, b3) * DWORD + (p1 * HALF + Times(a0, b0))
  {
  }

  /** The column sums of the word products are the product, and the top word does not overflow. */
  lemma WordsOfProduct(ah: nat, al: nat, bh: nat, bl: nat, sh: nat, sl: nat, rh: nat, rl: nat, qh: nat, ql: nat,
                       ph: nat, pl: nat, c1: nat, y1: nat, c2: nat, y2: nat)
    requires ah < WORD && al < WORD && bh < WORD && bl < WORD && y1 < WORD && y2 < WORD && sl < WORD
    requires Value(sh, sl) == Times(al, bl) && Value(rh, rl) == Times(ah, bl)
    requires Value(qh, ql) == Times(al, bh) && Value(ph, pl) == Times(ah, bh)
    requires Value(c1, y1) == sh + ql + rl && Value(c2, y2) == c1 + qh + rh + pl
    ensures c2 + ph < WORD
    ensures Value(c2 + ph, y2) * DWORD + Value(y1, sl) == Value(ah, al) * Value(bh, bl)
  {
    var a, b, t := Value(ah, al), Value(bh, bl), Value(c2 + ph, y2) * DWORD + Value(y1, sl);
    CrossProducts(ah, al, bh, bl);
    assert t == a * b;
    ValueBound(ah, al);
    ValueBound(bh, bl);
    MulMono(a, DWORD, b);
    MulMono(b, DWORD - 1, DWORD);
  }

  lemma CrossProducts(ah: nat, al: nat, bh: nat, bl: nat)
    ensures Value(ah, al) * Value(bh, bl)
            == Times(ah, bh) * DWORD + (Times(al, bh) + Times(ah, bl)) * WORD + Times(al, bl)
  {
  }

  lemma ShiftNone(hi: nat, lo: nat)
    ensures Pow2(0) == 1 && Quot(Value(hi, lo), 1) == Value(hi, lo)
    ensures hi < WORD && lo < WORD ==> Rem(Value(hi, lo) * Pow2(0), DWORD) == Value(hi, lo)
  {
    if hi < WORD && lo < WORD {
      ValueBound(hi, lo);
      RemSmall(Value(hi, lo), DWORD);
    }
  }

  lemma BeyondAll(v: nat, n: nat)
    requires n >= 128
    ensures Rem(v * Pow2(n), DWORD) == 0
  {
    hide Quot, Rem, Pow2;
    Pow2Word();
    Pow2Add(64, 64);
    Pow2Add(n - 128, 128);
    Associate(v, Pow2(n - 128), DWORD);
    QuotRem(v * Pow2(n), DWORD, v * Pow2(n - 128), 0);
  }

  lemma BelowAll(hi: nat, lo: nat, n: nat)
    requires hi < WORD && lo < WORD && n >= 128
    ensures Quot(Value(hi, lo), Pow2(n)) == 0
  {
    hide Quot, Rem, Pow2;
    ValueBound(hi, lo);
    Pow2Word();
    Pow2Add(64, 64);
    Pow2Add(n - 128, 128);
    MulMono(1, Pow2(n - 128), DWORD);
    QuotRem(Value(hi, lo), Pow2(n), 0, Value(hi, lo));
  }

  lemma WholeWordLeft(hi: nat, lo: nat, n: nat)
    requires hi < WORD && lo < WORD
    ensures Rem(Value(hi, lo) * Pow2(n + 64), DWORD) == Rem(Value(lo, 0) * Pow2(n), DWORD)
  {
    hide Quot, Rem, Pow2;
    Pow2Word();
    Pow2Add(64, n);
    Associate(Value(hi, lo), WORD, Pow2(n));
    assert Value(hi, lo) * WORD == hi * DWORD + Value(lo, 0);
    RemMul(Value(hi, lo) * WORD, Pow2(n), DWORD);
    RemDrop(Value(lo, 0), hi, DWORD);
    RemMul(Value(lo, 0), Pow2(n), DWORD);
  }

  lemma WholeWordRight(hi: nat, lo: nat, n: nat)
    requires hi < WORD && lo < WORD
    ensures Quot(Value(hi, lo), Pow2(n + 64)) == Quot(Value(0, hi), Pow2(n))
  {
    hide Quot, Rem, Pow2;
    Pow2Word();
    Pow2Add(n, 64);
    var p := Pow2(n);
    var q, r := Quot(hi, p), Rem(hi, p);
    Distribute(q * p, r, WORD);
    Associate(q, p, WORD);
    MulMono(r + 1, p, WORD);
    QuotRem(Value(hi, lo), p * WORD, q, r * WORD + lo);
  }

  lemma TimesHalf(a: nat, k: nat)
    ensures k == 0 ==> Pow2(k) / 2 == 0
    ensures k > 0 ==> Pow2(k) / 2 == Pow2(k - 1) && Times(a, Pow2(k)) / 2 == Times(a, Pow2(k - 1))
  {
    if k > 0 {
      TimesTwice(a, Pow2(k - 1));
    }
  }

  /** The state of the subtraction loop at bit `k`. */
  ghost predicate Descending(numerator: nat, denominator: nat, n: nat, x: nat, answer: nat, k: nat) {
    && x == Pow2(k) && n < 2 * Times(denominator, x)
    && numerator == Times(answer, denominator) + n && Rem(answer, 2 * x) == 0
  }

  lemma Started(numerator: nat, denominator: nat, n: nat, x: nat, k: nat)
    requires x == Pow2(k) && n == numerator && n < 2 * Times(denominator, x)
    ensures Descending(numerator, denominator, n, x, Value(0, 0), k)
  {
    RemSmall(0, 2 * x);
  }

  lemma BitPositive(numerator: nat, denominator: nat, n: nat, x: nat, answer: nat, k: nat)
    requires Descending(numerator, denominator, n, x, answer, k)
    ensures x > 0
  {
  }

  lemma ValueZero(hi: nat, lo: nat)
    ensures Value(hi, lo) == 0 <==> hi == 0 && lo == 0
  {
  }

  lemma ShiftedOnce(v: nat)
    ensures Pow2(1) == 2 && (v < DWORD / 2 ==> Rem(v * Pow2(1), DWORD) == 2 * v)
  {
    assert Pow2(1) == 2;
    if v < DWORD / 2 {
      RemSmall(2 * v, DWORD);
    }
  }

  lemma HalvedOnce(v: nat)
    ensures Quot(v, Pow2(1)) == v / 2
  {
    assert Pow2(1) == 2;
  }

  lemma SubSmall(a: nat, b: nat)
    requires b <= a < DWORD
    ensures Rem(a + DWORD - b, DWORD) == a - b
  {
    QuotRem(a + DWORD - b, DWORD, 1, a - b);
  }

  lemma TopBit(v: nat)
    requires v < DWORD
    ensures Quot(v, Pow2(127)) == (if v < DWORD / 2 then 0 else 1) && Pow2(1) == 2
  {
    Pow2Word();
    assert Pow2(63) * 2 == Pow2(64);
    Pow2Add(64, 63);
    assert Pow2(127) == DWORD / 2;
    QuotRem(v, DWORD / 2, if v < DWORD / 2 then 0 else 1, if v < DWORD / 2 then v else v - DWORD / 2);
  }

  lemma OrWords(hi: nat, lo: nat, hi': nat, lo': nat)
    requires hi < WORD && lo < WORD && hi' < WORD && lo' < WORD
    ensures Or(hi, hi') < WORD && Or(lo, lo') < WORD
    ensures Value(Or(hi, hi'), Or(lo, lo')) == Or(Value(hi, lo), Value(hi', lo'))
  {
    hide Or;
    Pow2Word();
    OrSplit(0, hi, 0, hi', 64);
    OrSplit(hi, lo, hi', lo', 64);
  }

  /** One bit of the quotient. */
  lemma DownStep(numerator: nat, denominator: nat, n: nat, x: nat, answer: nat, k: nat)
    requires Descending(numerator, denominator, n, x, answer, k)
    ensures var take := n >= Times(denominator, x);
            var n', answer' := if take then n - Times(denominator, x) else n, if take then Or(answer, x) else answer;
            && x == Pow2(k)
            && (k == 0 ==> n' < denominator && numerator == Times(answer', denominator) + n')
            && (k > 0 ==> Descending(numerator, denominator, n', Pow2(k - 1), answer', k - 1))
  {
    hide Quot, Rem, Or;
    OrDisjoint(answer, x, k + 1);
    var q := Quot(answer, 2 * x);
    Twice(q, x);
    QuotRem(answer, x, 2 * q, 0);
    Distribute(2 * q, 1, x);
    QuotRem(answer + x, x, 2 * q + 1, 0);
    Distribute(answer, x, denominator);
    if k > 0 {
      TimesTwice(denominator, Pow2(k - 1));
    }
  }
}
