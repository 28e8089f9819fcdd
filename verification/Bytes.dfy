// Little-endian integers and raw IEEE-754 single-precision floats, as the co-save holds them.
module Bytes {
  import opened ActorValues

  type Bytes = seq<byte>

  /** The 32 bits of a float. Storing and loading never round. */
  type Float = u32

  const U32_SIZE: nat := 4
  const U64_SIZE: nat := 8

  function U32Bytes(x: u32): (r: Bytes)
    ensures |r| == U32_SIZE
  {
    [x % 0x100, x / 0x100 % 0x100, x / 0x1_0000 % 0x100, x / 0x100_0000]
  }

  function U32At(d: Bytes, pos: nat): u32
    requires pos + U32_SIZE <= |d|
  {
    var b0: int, b1: int, b2: int, b3: int := d[pos], d[pos + 1], d[pos + 2], d[pos + 3];
    b0 + 0x100 * b1 + 0x1_0000 * b2 + 0x100_0000 * b3
  }

  function U64Bytes(x: u64): (r: Bytes)
    ensures |r| == U64_SIZE
  {
    U32Bytes(x % U32_MODULUS) + U32Bytes(x / U32_MODULUS)
  }

  function U64At(d: Bytes, pos: nat): u64
    requires pos + U64_SIZE <= |d|
  {
    U32At(d, pos) + U32_MODULUS * U32At(d, pos + U32_SIZE)
  }

  /** Two's complement. */
  function I32Bits(x: i32): u32 { if x < 0 then x + U32_MODULUS else x }

  function I32Of(bits: u32): i32 { if bits >= 0x8000_0000 then bits - U32_MODULUS else bits }

  /** What a 32-bit signed product wraps to. */
  function WrapI32(x: int): i32 { I32Of(x % U32_MODULUS) }

  function TextBytes(s: string): Bytes
    requires IsByteText(s)
  {
    seq(|s|, i requires 0 <= i < |s| => s[i] as int)
  }

  predicate IsByteText(s: string) { forall i | 0 <= i < |s| :: s[i] as int < 0x100 }

  function TextOf(d: Bytes): string {
    seq(|d|, i requires 0 <= i < |d| => d[i] as char)
  }

  // ---- Reading back what was written -------------------------------------------------------

  predicate HoldsAt(d: Bytes, pos: nat, part: Bytes) {
    pos + |part| <= |d| && d[pos..pos + |part|] == part
  }

  lemma HoldsSplit(d: Bytes, pos: nat, a: Bytes, b: Bytes)
    requires HoldsAt(d, pos, a + b)
    ensures HoldsAt(d, pos, a) && HoldsAt(d, pos + |a|, b)
  {
    assert d[pos..pos + |a|] == (a + b)[..|a|];
    assert d[pos + |a|..pos + |a| + |b|] == (a + b)[|a|..];
  }

  lemma U32ReadsBack(d: Bytes, pos: nat, x: u32)
    requires HoldsAt(d, pos, U32Bytes(x))
    ensures U32At(d, pos) == x
  {
    var part := d[pos..pos + U32_SIZE];
    assert d[pos] == part[0] && d[pos + 1] == part[1] && d[pos + 2] == part[2] && d[pos + 3] == part[3];
    DigitsOfU32(x);
  }

  lemma DigitsOfU32(x: u32)
    ensures x
      == x % 0x100 + 0x100 * (x / 0x100 % 0x100) + 0x1_0000 * (x / 0x1_0000 % 0x100) + 0x100_0000 * (x / 0x100_0000)
  {
    assert x / 0x100 / 0x100 == x / 0x1_0000;
    assert x / 0x1_0000 / 0x100 == x / 0x100_0000;
  }

  lemma U64ReadsBack(d: Bytes, pos: nat, x: u64)
    requires HoldsAt(d, pos, U64Bytes(x))
    ensures U64At(d, pos) == x
  {
    HoldsSplit(d, pos, U32Bytes(x % U32_MODULUS), U32Bytes(x / U32_MODULUS));
    U32ReadsBack(d, pos, x % U32_MODULUS);
    U32ReadsBack(d, pos + U32_SIZE, x / U32_MODULUS);
  }

  lemma I32ReadsBack(x: i32)
    ensures I32Of(I32Bits(x)) == x
  {
  }

  lemma TextReadsBack(s: string)
    requires IsByteText(s)
    ensures TextOf(TextBytes(s)) == s
  {
  }

  // ---- Floats ------------------------------------------------------------------------------

  /** Neither infinite nor a NaN: the exponent bits are not all ones. */
  predicate IsFinite(f: Float) { f / 0x80_0000 % 0x100 != 0xFF }

  /** `f > bound` for a bound that is positive and finite: the order of positive floats is the order of their bits. */
  predicate IsAbove(f: Float, bound: Float) { bound < f < 0x8000_0000 && IsFinite(f) }

  function Pow2(n: nat): (r: real)
    ensures r >= 1.0
  {
    if n == 0 then 1.0 else 2.0 * Pow2(n - 1)
  }

  function Exponent(f: Float): nat { f / 0x80_0000 }

  /** The fraction bits, with the implicit leading one of a normal float. */
  function Mantissa(f: Float): (r: real)
    ensures r >= 0.0
  {
    var fraction := f % 0x80_0000;
    if f / 0x80_0000 == 0 then fraction as real else (0x80_0000 + fraction) as real
  }

  /** The value of a positive finite float, as a multiple of the smallest positive one, 2 to the -149. */
  function Units(f: Float): (r: real)
    requires f < 0x7F80_0000
    ensures r >= 0.0
  {
    if Exponent(f) == 0 then Mantissa(f) else Mantissa(f) * Pow2(Exponent(f) - 1)
  }

  lemma {:induction false} Pow2Grows(m: nat, n: nat)
    requires m <= n
    ensures Pow2(m) <= Pow2(n)
  {
    if m < n {
      Pow2Grows(m, n - 1);
    }
  }

  lemma Scale(x: real, y: real, p: real)
    requires x < y && p > 0.0
    ensures x * p < y * p
  {
  }

  lemma ScaleBy(x: real, p: real, q: real)
    requires x >= 0.0 && p <= q
    ensures x * p <= x * q
  {
  }

  lemma ScaleOrKeep(x: real, y: real, p: real)
    requires x <= y && p >= 0.0
    ensures x * p <= y * p
  {
  }

  const FULL: real := 8388608.0

  lemma Binades(m: real, m': real, e: nat, e': nat)
    requires m < 2.0 * FULL && FULL <= m' && 1 <= e < e'
    ensures m * Pow2(e - 1) < m' * Pow2(e' - 1)
  {
    var p, q := Pow2(e - 1), Pow2(e' - 1);
    Pow2Grows(e, e' - 1);
    assert 2.0 * p <= q;
    Between(m, m', p, q);
  }

  lemma Between(m: real, m': real, p: real, q: real)
    requires m < 2.0 * FULL && FULL <= m' && 0.0 < p && 2.0 * p <= q
    ensures m * p < m' * q
  {
    Scale(m, 2.0 * FULL, p);
    ScaleBy(FULL, 2.0 * p, q);
    ScaleOrKeep(FULL, m', q);
    assert m * p < 16777216.0 * p;
    assert 16777216.0 * p <= 8388608.0 * q;
  }

  lemma MantissaRange(f: Float)
    ensures Mantissa(f) < 2.0 * FULL
    ensures if Exponent(f) == 0 then Mantissa(f) < FULL else FULL <= Mantissa(f)
  {
  }

  /** A float with a larger exponent is larger. */
  lemma NextBinadeIsLarger(f: Float, g: Float)
    requires Exponent(f) < Exponent(g) && g < 0x7F80_0000 && f < 0x7F80_0000
    ensures Units(f) < Units(g)
  {
    MantissaRange(f);
    MantissaRange(g);
    var m, q := Mantissa(g), Pow2(Exponent(g) - 1);
    assert q >= 1.0 && Units(g) == m * q;
    if Exponent(f) == 0 {
      hide Mantissa, Exponent, Pow2;
      assert Units(f) == Mantissa(f);
      hide Units;
      ScaleBy(m, 1.0, q);
    } else {
      hide Mantissa, Exponent, Pow2;
      Binades(Mantissa(f), m, Exponent(f), Exponent(g));
    }
  }

  lemma SameBinade(f: Float, g: Float)
    requires f < g && Exponent(f) == Exponent(g)
    ensures Mantissa(f) < Mantissa(g)
  {
  }

  /** Positive floats are ordered like their bit patterns. */
  lemma BitsAreOrdered(f: Float, g: Float)
    requires f < g < 0x7F80_0000
    ensures Units(f) < Units(g)
  {
    if Exponent(f) < Exponent(g) {
      NextBinadeIsLarger(f, g);
    } else {
      SameBinade(f, g);
      hide Mantissa;
      if Exponent(f) > 0 {
        Scale(Mantissa(f), Mantissa(g), Pow2(Exponent(f) - 1));
      }
    }
  }
}
