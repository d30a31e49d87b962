/** Printing and parsing 128-bit integers. */
module UInt128Texts {
  import opened Bits
  import opened UInt128s

  const DIGITS := "0123456789abcdefghijklmnopqrstuvwxyz"

  function DigitChar(d: nat): char
    requires d < 10
  {
    DIGITS[d]
  }

  lemma DigitChars(d: nat)
    requires d < 10
    ensures Digit(DigitChar(d), 10) == d
    ensures DigitChar(d) != '\0' && DigitChar(d) != '-' && (DigitChar(d) == '0' <==> d == 0)
  {
  }

  /** The decimal numeral of a number, without leading zeros. */
  function Decimal(v: nat): string {
    if v < 10 then [DigitChar(v)] else Decimal(v / 10) + [DigitChar(v % 10)]
  }

  function Leading(v: nat): string {
    if v == 0 then "" else Decimal(v)
  }

  lemma LeadingStep(v: nat, tail: string)
    requires v > 0
    ensures Leading(v) + tail == Leading(v / 10) + ([DigitChar(v % 10)] + tail)
  {
    hide DigitChar;
  }

  lemma {:induction false} Pow2Mono(m: nat, n: nat)
    requires m <= n
    ensures Pow2(m) <= Pow2(n)
  {
    if m > 0 {
      Pow2Mono(m - 1, n - 1);
    }
  }

  /** Forty-three octal digits are enough for 128 bits, so the decimal digits never fill the buffer. */
  lemma FewDigits(v: nat, ii: nat, count: nat)
    requires v < DWORD && ii > 0 && ii * Pow2(3 * count) <= v
    ensures count < 43
  {
    hide Pow2;
    if count >= 43 {
      Pow2Word();
      Pow2Add(64, 64);
      Pow2Mono(128, 3 * count);
      MulMono(1, ii, Pow2(3 * count));
    }
  }

  lemma FewDigitsStep(v: nat, ii: nat, count: nat)
    requires ii * Pow2(3 * count) <= v
    ensures (ii / 10) * Pow2(3 * (count + 1)) <= v
  {
    hide Pow2;
    var p := Pow2(3 * count);
    Pow2Add(3, 3 * count);
    Pow2Three();
    assert 3 + 3 * count == 3 * (count + 1);
    Associate(ii / 10, 8, p);
    MulMono(ii / 10 * 8, ii, p);
  }

  lemma Pow2Three()
    ensures Pow2(3) == 8
  {
    assert Pow2(1) == 2;
  }

  /** Conversion to a string: digits are written backwards into a static, zero-initialised buffer. */
  method ToDecimal(v: nat, sz: array<char>) returns (text: string)
    requires v < DWORD && sz.Length == 129 && sz[127] == '\0'
    modifies sz
    ensures sz[127] == '\0' && text == Decimal(v)
  {
    hide Pow2, Decimal, DigitChar, Leading;
    DecimalEdges(v);
    if v == 0 {
      return "0";
    }
    sz[128] := '\0';
    var ii: nat, i: nat := v, 127;
    while ii != 0 && i != 0
      invariant ii < DWORD && 84 <= i <= 127 && sz[127] == '\0'
      invariant Decimal(v) == Leading(ii) + sz[i..127]
      invariant forall j :: i <= j < 127 ==> sz[j] != '\0'
      invariant ii * Pow2(3 * (127 - i)) <= v
      decreases ii
    {
      FewDigits(v, ii, 127 - i);
      FewDigitsStep(v, ii, 127 - i);
      LeadingStep(ii, sz[i..127]);
      var digit := Rem(ii, 10);
      Digits(ii, Quot(ii, 10), digit);
      ghost var tail := sz[i..127];
      i := i - 1;
      sz[i] := DigitChar(digit);
      assert sz[i..127] == [sz[i]] + tail;
      ii := Quot(ii, 10);
    }
    text := ReadString(sz, i);
  }

  lemma DecimalEdges(v: nat)
    ensures Decimal(0) == "0" && Leading(0) == "" && (v > 0 ==> Leading(v) == Decimal(v)) && v * Pow2(3 * 0) == v
  {
    assert Decimal(0) == [DigitChar(0)] && Pow2(3 * 0) == 1;
    hide Decimal, Pow2;
  }

  lemma Digits(v: nat, q: nat, r: nat)
    requires v == q * 10 + r && r < 10
    ensures q == v / 10 && r == v % 10 && DigitChar(r) != '\0'
  {
    DigitChars(r);
  }

  /** The zero-terminated string that starts at `start`. */
  method ReadString(sz: array<char>, start: nat) returns (text: string)
    requires start <= 127 < sz.Length && sz[127] == '\0'
    requires forall j :: start <= j < 127 ==> sz[j] != '\0'
    ensures text == sz[start..127]
  {
    var i := start;
    while sz[i] != '\0'
      invariant start <= i <= 127
      decreases 127 - i
    {
      i := i + 1;
    }
    text := sz[start..i];
  }

  // ---------- parsing ----------

  /** The value of a digit, or nothing if it is not one in this radix. */
  function Digit(ch: char, radix: nat): (d: int)
    ensures d < radix
    ensures d >= -1
    requires radix > 0
  {
    var d := if 'A' <= ch <= 'Z' then (ch - 'A') as int + 10
             else if 'a' <= ch <= 'z' then (ch - 'a') as int + 10
             else if '0' <= ch <= '9' then (ch - '0') as int
             else radix;
    if d < radix then d else -1
  }

  /** Read digits on top of `v`, modulo 2^128, until something is not a digit. */
  function Accumulate(v: nat, radix: nat, s: string): (r: nat)
    requires radix > 0 && v < DWORD
    ensures r < DWORD
    decreases |s|
  {
    if s == [] || Digit(s[0], radix) < 0 then v
    else Accumulate(Rem(v * radix + Digit(s[0], radix), DWORD), radix, s[1..])
  }

  function Unsigned(s: string): (r: nat)
    ensures r < DWORD
  {
    if s != [] && s[0] == '0' then
      if |s| > 1 && s[1] == 'x' then Accumulate(0, 16, s[2..]) else Accumulate(0, 8, s[1..])
    else Accumulate(0, 10, s)
  }

  /** What a numeral means: an optional sign, an optional radix prefix, digits. */
  function Numeral(s: string): (r: nat)
    ensures r < DWORD
  {
    if s != [] && s[0] == '-' then Rem(DWORD - Unsigned(s[1..]), DWORD) else Unsigned(s)
  }

  lemma AccumulateStep(v: nat, radix: nat, s: string)
    requires radix > 0 && v < DWORD
    ensures s == [] || Digit(s[0], radix) < 0 ==> Accumulate(v, radix, s) == v
    ensures s != [] && Digit(s[0], radix) >= 0 ==>
              Accumulate(v, radix, s) == Accumulate(Rem(v * radix + Digit(s[0], radix), DWORD), radix, s[1..])
  {
    hide Digit, Rem, Quot;
  }

  /** The constructor from a string. */
  method Parse(sz: string) returns (v: nat)
    ensures v == Numeral(sz)
  {
    hide Rem, Quot, Accumulate, Digit;
    AccumulateStep(0, 10, "");
    v := 0;
    if sz == "" {
      return;
    }
    var minus, i := false, 0;
    if sz[i] == '-' {
      i := i + 1;
      minus := true;
    }
    v := ParseUnsigned(sz, i);
    if minus {
      v := Rem(DWORD - v, DWORD);
    } else {
      assert sz[0..] == sz;
    }
  }

  /** The part of the constructor after the sign. */
  method ParseUnsigned(sz: string, start: nat) returns (v: nat)
    requires start <= |sz|
    ensures v == Unsigned(sz[start..])
  {
    hide Rem, Quot, Accumulate, Digit;
    v := 0;
    var radix: nat, i: nat := 10, start;
    if i != |sz| {
      if sz[i] == '0' {
        radix := 8;
        i := i + 1;
        if i != |sz| {
          if sz[i] == 'x' {
            radix := 16;
            i := i + 1;
          }
        }
      }
      assert Unsigned(sz[start..]) == Accumulate(0, radix, sz[i..]) by {
        assert sz[start..][1..] == sz[start + 1..];
        if start + 1 < |sz| {
          assert sz[start..][2..] == sz[start + 2..];
        }
      }
    } else {
      AccumulateStep(0, 10, sz[start..]);
    }
    v := ParseDigits(sz, i, radix);
  }

  /** The digit loop of the constructor. */
  method ParseDigits(sz: string, start: nat, radix: nat) returns (v: nat)
    requires start <= |sz| && radix > 0
    ensures v == Accumulate(0, radix, sz[start..])
  {
    hide Rem, Quot, Accumulate, Digit;
    v := 0;
    var i := start;
    while i != |sz|
      invariant start <= i <= |sz| && v < DWORD
      invariant Accumulate(v, radix, sz[i..]) == Accumulate(0, radix, sz[start..])
      decreases |sz| - i
    {
      AccumulateStep(v, radix, sz[i..]);
      var n := Digit(sz[i], radix);
      if n < 0 {
        return;
      }
      RemAdd(v * radix, n, DWORD);
      v := Rem(v * radix, DWORD);
      v := Rem(v + n, DWORD);
      assert sz[i..][1..] == sz[i + 1..];
      i := i + 1;
    }
    AccumulateStep(v, radix, sz[i..]);
  }

  // ---------- the meaning of numerals ----------

  predicate AllDigits(s: string, radix: nat)
    requires radix > 0
  {
    forall i :: 0 <= i < |s| ==> Digit(s[i], radix) >= 0
  }

  /** The value of a row of digits: the last one counts once, the one before it `radix` times, and so on. */
  function Positional(s: string, radix: nat): nat
    requires radix > 0 && AllDigits(s, radix)
  {
    if s == [] then 0 else Positional(s[..|s| - 1], radix) * radix + Digit(s[|s| - 1], radix)
  }

  /** Which characters are digits: the decimal ones below the radix, and from ten on the letters, small or capital. */
  lemma DigitMeans(ch: char, radix: nat, d: nat)
    requires radix in {8, 10, 16} && d < radix
    ensures Digit(ch, radix) == d <==>
              if d < 10 then ch == "0123456789"[d] else ch == "abcdef"[d - 10] || ch == "ABCDEF"[d - 10]
  {
  }

  lemma {:induction false} AccumulateIs(s: string, radix: nat)
    requires radix > 0 && AllDigits(s, radix)
    ensures Accumulate(0, radix, s) == Rem(Positional(s, radix), DWORD)
  {
    hide Rem, Quot, Digit, Accumulate;
    if s == [] {
      AccumulateStep(0, radix, s);
      RemSmall(0, DWORD);
    } else {
      var p, ch := s[..|s| - 1], s[|s| - 1];
      var v := Positional(p, radix);
      AccumulateIs(p, radix);
      AccumulateSnoc(0, radix, p, ch);
      assert p + [ch] == s;
      RemMul(v, radix, DWORD);
      RemAdd(Rem(v, DWORD) * radix, Digit(ch, radix), DWORD);
      RemAdd(v * radix, Digit(ch, radix), DWORD);
    }
  }

  lemma {:induction false} AccumulateStops(v: nat, radix: nat, s: string, rest: string)
    requires v < DWORD && radix > 0 && AllDigits(s, radix) && (rest == [] || Digit(rest[0], radix) < 0)
    ensures Accumulate(v, radix, s + rest) == Accumulate(v, radix, s)
    decreases |s|
  {
    hide Rem, Quot, Digit;
    if s == [] {
      assert s + rest == rest;
    } else {
      assert (s + rest)[1..] == s[1..] + rest;
      AccumulateStops(Rem(v * radix + Digit(s[0], radix), DWORD), radix, s[1..], rest);
    }
  }

  /** A numeral, whatever follows its digits, has their value modulo 2^128. */
  lemma DigitsThenRest(s: string, rest: string, radix: nat)
    requires radix > 0 && AllDigits(s, radix) && (rest == [] || Digit(rest[0], radix) < 0)
    ensures Accumulate(0, radix, s + rest) == Rem(Positional(s, radix), DWORD)
  {
    hide Rem, Quot, Digit, Accumulate;
    AccumulateStops(0, radix, s, rest);
    AccumulateIs(s, radix);
  }

  lemma HexMeans(s: string, rest: string)
    requires AllDigits(s, 16) && (rest == [] || Digit(rest[0], 16) < 0)
    ensures Unsigned("0x" + s + rest) == Rem(Positional(s, 16), DWORD)
  {
    hide Rem, Quot, Digit, Accumulate, Positional;
    DigitsThenRest(s, rest, 16);
    assert ("0x" + s + rest)[2..] == s + rest;
  }

  lemma OctalMeans(s: string, rest: string)
    requires AllDigits(s, 8) && (rest == [] || Digit(rest[0], 8) < 0) && (s == [] && rest != [] ==> rest[0] != 'x')
    ensures Unsigned("0" + s + rest) == Rem(Positional(s, 8), DWORD)
  {
    hide Rem, Quot, Digit, Accumulate, Positional, AllDigits;
    DigitsThenRest(s, rest, 8);
    NoX(s);
    var text := "0" + s + rest;
    assert text[0] == '0' && text[1..] == s + rest;
    assert |text| > 1 ==> text[1] == if s == [] then rest[0] else s[0];
  }

  lemma NoX(s: string)
    requires AllDigits(s, 8)
    ensures s != [] ==> s[0] != 'x'
  {
    if s != [] {
      assert Digit(s[0], 8) >= 0;
    }
  }

  lemma DecimalMeans(s: string, rest: string)
    requires AllDigits(s, 10) && (rest == [] || Digit(rest[0], 10) < 0) && s != [] && s[0] != '0'
    ensures Unsigned(s + rest) == Rem(Positional(s, 10), DWORD)
  {
    hide Rem, Quot, Digit, Accumulate, Positional;
    DigitsThenRest(s, rest, 10);
  }

  /** A minus sign in front negates modulo 2^128. */
  lemma SignMeans(s: string)
    ensures Numeral("-" + s) == Rem(DWORD - Unsigned(s), DWORD) && (s == [] || s[0] != '-' ==> Numeral(s) == Unsigned(s))
  {
    hide Rem, Quot, Unsigned;
    assert ("-" + s)[1..] == s;
  }

  // ---------- the round trip ----------

  lemma {:induction false} AccumulateSnoc(v: nat, radix: nat, s: string, ch: char)
    requires v < DWORD && radix > 0 && Digit(ch, radix) >= 0 && AllDigits(s, radix)
    ensures Accumulate(v, radix, s + [ch]) == Rem(Accumulate(v, radix, s) * radix + Digit(ch, radix), DWORD)
    decreases |s|
  {
    hide Rem, Quot, Digit;
    if s != [] {
      assert (s + [ch])[1..] == s[1..] + [ch];
      AccumulateSnoc(Rem(v * radix + Digit(s[0], radix), DWORD), radix, s[1..], ch);
    }
  }

  lemma {:induction false} DecimalDigits(v: nat)
    ensures Decimal(v) != "" && (v > 0 ==> Decimal(v)[0] != '0') && Decimal(v)[0] != '-'
    ensures AllDigits(Decimal(v), 10)
  {
    hide DigitChar, Digit;
    DigitChars(v % 10);
    if v >= 10 {
      DecimalDigits(v / 10);
    }
  }

  lemma {:induction false} DecimalReads(v: nat)
    requires v < DWORD
    ensures Accumulate(0, 10, Decimal(v)) == v
  {
    hide Rem, Quot, DigitChar, Digit, Accumulate;
    RemSmall(v, DWORD);
    DigitChars(v % 10);
    if v >= 10 {
      DecimalReads(v / 10);
      DecimalDigits(v / 10);
      AccumulateSnoc(0, 10, Decimal(v / 10), DigitChar(v % 10));
    } else {
      assert Decimal(v) == [DigitChar(v)] && Decimal(v)[1..] == "";
      AccumulateStep(0, 10, Decimal(v));
      AccumulateStep(v, 10, "");
    }
  }

  /** Parsing the printed form of any value gives the value back. */
  lemma PrintParse(v: nat)
    requires v < DWORD
    ensures Numeral(Decimal(v)) == v
  {
    hide Rem, Quot, DigitChar, Digit;
    DecimalDigits(v);
    DecimalReads(v);
    if v == 0 {
      DigitChars(0);
      AccumulateStep(0, 8, "");
    }
  }
}
