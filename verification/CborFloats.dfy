/** The numbers that the patterns of the three floating-point formats denote, from zero upwards: each is one unit in the
    last place above the one before it, that unit doubles with every exponent, the sign bit negates, and the largest
    exponent denotes no number. */
module CborFloats {
  import opened Utf8
  import opened Cbor

  datatype Pattern = Pattern(negative: bool, exponent: nat, fraction: nat)
  /** So many fractions to an exponent, so many exponents, and the exponent of one. */
  datatype Format = Format(fractions: nat, exponents: nat, bias: nat)

  const HALF := Format(0x400, 0x20, 15)
  const SINGLE := Format(0x80_0000, 0x100, 127)
  const DOUBLE := Format(0x10_0000_0000_0000, 0x800, 1023)

  predicate IsPattern(p: Pattern, f: Format) {
    p.exponent < f.exponents && p.fraction < f.fractions
  }

  /** The pattern as one number: sign, exponent, fraction, from the top. */
  function Bits(p: Pattern, f: Format): int {
    ((if p.negative then f.exponents else 0) + p.exponent) * f.fractions + p.fraction
  }

  function Next(p: Pattern, f: Format): Pattern {
    if p.fraction + 1 < f.fractions then p.(fraction := p.fraction + 1) else Pattern(p.negative, p.exponent + 1, 0)
  }

  function LastPlace(p: Pattern, f: Format): real
    requires f.fractions > 0
  {
    Pow2((if p.exponent == 0 then 1 else p.exponent) - f.bias) / f.fractions as real
  }

  function Number(p: Pattern, f: Format): real
    requires f.fractions > 0
  {
    var units := if p.exponent == 0 then p.fraction else f.fractions + p.fraction;
    if p.negative then -(LastPlace(p, f) * units as real) else LastPlace(p, f) * units as real
  }

  predicate Denotes(read: Option<real>, p: Pattern, f: Format)
    requires f.fractions > 0
  {
    if p.exponent == f.exponents - 1 then read.None? else read.Some? && read.value == Number(p, f)
  }

  // ---- the patterns in order

  lemma Pow2Next(k: int)
    ensures Pow2(k + 1) == 2.0 * Pow2(k)
  {
  }

  /** From zero, every pattern is the one after the one before it, and denotes a unit more. */
  lemma PatternsStep(p: Pattern, f: Format)
    requires IsPattern(p, f) && !p.negative && f.exponents > 2
    ensures Bits(Next(p, f), f) == Bits(p, f) + 1
    ensures Number(Next(p, f), f) - Number(p, f) == LastPlace(p, f)
    ensures LastPlace(Pattern(false, 0, 0), f) == LastPlace(Pattern(false, 1, 0), f) && Number(Pattern(false, 0, 0), f) == 0.0
    ensures Number(p.(negative := true), f) == -Number(p, f)
    ensures p.exponent > 0 ==> LastPlace(p.(exponent := p.exponent + 1), f) == 2.0 * LastPlace(p, f)
  {
    var exponent := if p.exponent == 0 then 1 else p.exponent;
    Pow2Next(exponent - f.bias);
    hide Pow2;
    var units := if p.exponent == 0 then p.fraction else f.fractions + p.fraction;
    TwiceOver(Pow2(exponent - f.bias), f.fractions as real);
    OneMore(LastPlace(p, f), units);
    if p.fraction + 1 == f.fractions && p.exponent > 0 { Doubled(LastPlace(p, f), f.fractions); }
  }

  lemma OneIsOne(f: Format)
    requires f.fractions > 0 && f.bias > 0
    ensures Number(Pattern(false, f.bias, 0), f) == 1.0
  {
    assert LastPlace(Pattern(false, f.bias, 0), f) == 1.0 / f.fractions as real by { assert Pow2(0) == 1.0; }
    Reciprocal(f.fractions as real);
    hide Pow2, LastPlace;
  }

  lemma Reciprocal(x: real)
    requires x != 0.0
    ensures 1.0 / x * x == 1.0
  {
  }

  lemma OneMore(unit: real, units: nat)
    ensures unit * (units + 1) as real - unit * units as real == unit
  {
  }

  lemma TwiceOver(x: real, y: real)
    requires y != 0.0
    ensures 2.0 * x / y == 2.0 * (x / y)
  {
  }

  lemma Doubled(unit: real, units: nat)
    ensures 2.0 * unit * units as real == unit * (units + units) as real
  {
  }

  // ---- the bytes of each format

  lemma BitsAreUnique(p: Pattern, q: Pattern, f: Format)
    requires IsPattern(p, f) && IsPattern(q, f) && Bits(p, f) == Bits(q, f)
    ensures p == q
  {
    var top, other := Bits(p, f) - p.fraction, Bits(q, f) - q.fraction;
    var h, g := (if p.negative then f.exponents else 0) + p.exponent, (if q.negative then f.exponents else 0) + q.exponent;
    if h > g { Apart(h, g, f.fractions); } else if g > h { Apart(g, h, f.fractions); }
  }

  lemma Apart(h: nat, g: nat, unit: nat)
    requires h > g
    ensures h * unit >= g * unit + unit
  {
    assert (h - g - 1) * unit >= 0;
  }

  lemma {:induction false} Pow2Shift(k: int, n: nat)
    ensures Pow2(k + n) == Pow2(k) * Pow2(n)
  {
    if n > 0 {
      Pow2Next(n - 1);
      hide Pow2;
      Pow2Shift(k, n - 1);
      Pow2Next(k + n - 1);
      Doubling(Pow2(k), Pow2(n - 1));
    }
  }

  lemma Doubling(x: real, y: real)
    ensures 2.0 * (x * y) == x * (2.0 * y)
  {
  }

  lemma Pow2Known()
    ensures Pow2(10) == 1024.0 && Pow2(23) == 8388608.0 && Pow2(52) == 4503599627370496.0
  {
    assert Pow2(3) == 8.0 && Pow2(2) == 4.0;
    assert Pow2(5) == 32.0;
    Pow2Shift(5, 5);
    Pow2Shift(10, 10);
    Pow2Shift(20, 3);
    Pow2Shift(20, 20);
    Pow2Shift(40, 10);
    Pow2Shift(50, 2);
  }

  lemma Over(x: real, y: real, z: real)
    requires z != 0.0
    ensures x / z * y == x * (y / z) && x * z / z == x
  {
  }

  lemma SignFirst(negative: bool, scale: real, part: real)
    ensures Signed(negative, scale, part) == if negative then -(scale * part) else scale * part
  {
  }

  lemma TwoBytes(b: seq<Byte>)
    requires |b| == 2
    ensures BigEndian(b) == b[0] as int * 0x100 + b[1]
  {
    assert BigEndian(b[..1]) == b[0] by { assert b[..1][..0] == []; }
  }

  lemma FourBytes(b: seq<Byte>)
    requires |b| == 4
    ensures BigEndian(b) == ((b[0] as int * 0x100 + b[1]) * 0x100 + b[2]) * 0x100 + b[3]
  {
    TwoBytes(b[..2]);
    assert b[..3][..2] == b[..2];
    assert BigEndian(b[..3]) == BigEndian(b[..2]) * 0x100 + b[2];
  }

  function Weight(n: nat): nat {
    if n == 0 then 1 else 0x100 * Weight(n - 1)
  }

  lemma OneByteOn(top: nat, weight: nat)
    ensures top * (0x100 * weight) == top * weight * 0x100
  {
  }

  lemma {:induction false} TopAndRest(b: seq<Byte>, k: nat)
    requires k <= |b|
    ensures BigEndian(b) == BigEndian(b[..k]) * Weight(|b| - k) + BigEndian(b[k..]) && BigEndian(b[k..]) < Weight(|b| - k)
    decreases |b| - k
  {
    if k < |b| {
      var but, rest := b[..|b| - 1], b[k..];
      TopAndRest(but, k);
      assert but[..k] == b[..k] && but[k..] == rest[..|rest| - 1] && rest[|rest| - 1] == b[|b| - 1];
      assert BigEndian(rest) == BigEndian(but[k..]) * 0x100 + b[|b| - 1];
      OneByteOn(BigEndian(b[..k]), Weight(|b| - 1 - k));
    } else {
      assert b[..k] == b && b[k..] == [];
    }
  }

  lemma EightBytes(b: seq<Byte>)
    requires |b| == 8
    ensures BigEndian(b) == (b[0] as int * 0x100 + b[1]) * 0x1_0000_0000_0000 + BigEndian(b[2..]) && BigEndian(b[2..]) < 0x1_0000_0000_0000
  {
    assert Weight(3) == 0x100_0000 && Weight(6) == 0x1_0000_0000_0000;
    TopAndRest(b, 2);
    TwoBytes(b[..2]);
  }

  lemma Denoting(p: Pattern, f: Format, log: nat)
    requires f.fractions > 0 && Pow2(log) == f.fractions as real
    ensures var units := if p.exponent == 0 then p.fraction else f.fractions + p.fraction;
            Signed(p.negative, Pow2((if p.exponent == 0 then 1 else p.exponent) - f.bias - log), units as real) == Number(p, f)
  {
    hide Pow2, Signed;
    var k, units := (if p.exponent == 0 then 1 else p.exponent) - f.bias - log, if p.exponent == 0 then p.fraction else f.fractions + p.fraction;
    Pow2Shift(k, log);
    Over(Pow2(k), 1.0, f.fractions as real);
    assert LastPlace(p, f) == Pow2(k);
    SignFirst(p.negative, Pow2(k), units as real);
  }

  lemma HalfDenoting(p: Pattern)
    requires IsPattern(p, HALF)
    ensures Denotes(HalfValue(p.negative, p.exponent, p.fraction), p, HALF)
  {
    hide Pow2, Signed;
    var scale, units := Pow2((if p.exponent == 0 then 1 else p.exponent) - 15), if p.exponent == 0 then p.fraction else 0x400 + p.fraction;
    Over(scale, units as real, 1024.0);
    SignFirst(p.negative, scale, units as real / 1024.0);
    assert LastPlace(p, HALF) == scale / 1024.0;
  }

  /** The bytes of each format, most significant first, are its pattern, and denote its number. */
  lemma HalfDenotes(b: seq<Byte>) returns (p: Pattern)
    requires |b| == 2
    ensures IsPattern(p, HALF) && Bits(p, HALF) == BigEndian(b) && Denotes(Half(b), p, HALF)
  {
    hide BigEndian, HalfValue, Denotes;
    TwoBytes(b);
    p := Pattern(b[0] >= 0x80, b[0] as int % 0x80 / 4, b[0] as int % 4 * 0x100 + b[1]);
    HalfDenoting(p);
  }

  lemma SingleDenotes(b: seq<Byte>) returns (p: Pattern)
    requires |b| == 4
    ensures IsPattern(p, SINGLE) && Bits(p, SINGLE) == BigEndian(b) && Denotes(Single(b), p, SINGLE)
  {
    hide Pow2, BigEndian, Signed, Number;
    FourBytes(b);
    p := Pattern(b[0] >= 0x80, b[0] as int % 0x80 * 2 + b[1] / 0x80, b[1] as int % 0x80 * 0x1_0000 + b[2] as int * 0x100 + b[3]);
    Pow2Known();
    Denoting(p, SINGLE, 23);
  }

  lemma DoubleDenotes(b: seq<Byte>) returns (p: Pattern)
    requires |b| == 8
    ensures IsPattern(p, DOUBLE) && Bits(p, DOUBLE) == BigEndian(b) && Denotes(Double(b), p, DOUBLE)
  {
    hide Pow2, BigEndian, Signed, Number;
    EightBytes(b);
    p := Pattern(b[0] >= 0x80, b[0] as int % 0x80 * 0x10 + b[1] / 0x10, b[1] as int % 0x10 * 0x1_0000_0000_0000 + BigEndian(b[2..]));
    Pow2Known();
    Denoting(p, DOUBLE, 52);
  }
}
