/** The text steps of the CBOR codec: `Buffer.from(s, 'utf8')` on UTF-16 code units, and a fatal
    `TextDecoder('utf-8')`, which also drops one leading byte order mark. */
module Utf8 {

  type Byte = b: int | 0 <= b < 0x100
  type Unit = u: int | 0 <= u < 0x1_0000
  type Text = seq<Unit>

  datatype Option<T> = None | Some(value: T)

  const BOM: Unit := 0xFEFF
  const REPLACEMENT: Unit := 0xFFFD

  predicate High(u: Unit) { 0xD800 <= u < 0xDC00 }
  predicate Low(u: Unit) { 0xDC00 <= u < 0xE000 }

  /** The first unit opens a surrogate pair. */
  predicate OpensPair(s: Text) {
    |s| >= 2 && High(s[0]) && Low(s[1])
  }

  /** The first unit is a surrogate without its partner. */
  predicate Lone(s: Text) {
    s != [] && (High(s[0]) || Low(s[0])) && !OpensPair(s)
  }

  predicate WellFormed(s: Text) {
    s != [] ==> !Lone(s) && WellFormed(s[if OpensPair(s) then 2 else 1..])
  }

  /** What survives encoding: a lone surrogate becomes U+FFFD. */
  function Scrub(s: Text): Text {
    if s == [] then []
    else if OpensPair(s) then s[..2] + Scrub(s[2..])
    else [if Lone(s) then REPLACEMENT else s[0]] + Scrub(s[1..])
  }

  function Three(u: Unit): seq<Byte>
    requires u >= 0x800
  {
    [0xE0 + u / 0x1000, 0x80 + u % 0x1000 / 0x40, 0x80 + u % 0x40]
  }

  /** The low 20 bits of the code point of a surrogate pair. */
  function PairBits(s: Text): (bits: int)
    requires OpensPair(s)
    ensures 0 <= bits < 0x10_0000
  {
    (s[0] as int - 0xD800) * 0x400 + (s[1] as int - 0xDC00)
  }

  function Four(bits: int): seq<Byte>
    requires 0 <= bits < 0x10_0000
  {
    var point := bits + 0x1_0000;
    [0xF0 + point / 0x4_0000, 0x80 + point % 0x4_0000 / 0x1000, 0x80 + point % 0x1000 / 0x40, 0x80 + point % 0x40]
  }

  function Encode(s: Text): seq<Byte> {
    if s == [] then []
    else if OpensPair(s) then Four(PairBits(s)) + Encode(s[2..])
    else
      var u := if Lone(s) then REPLACEMENT else s[0];
      (if u < 0x80 then [u] else if u < 0x800 then [0xC0 + u / 0x40, 0x80 + u % 0x40] else Three(u)) + Encode(s[1..])
  }

  predicate Continues(b: seq<Byte>, n: nat) {
    |b| > n && forall k | 1 <= k <= n :: 0x80 <= b[k] < 0xC0
  }

  /** The payload of a continuation byte. */
  function Low6(b: seq<Byte>, k: nat): int
    requires k < |b|
  {
    b[k] as int - 0x80
  }

  datatype Step = Step(units: Text, width: nat)

  /** One code point, refusing overlong forms, surrogates and values above U+10FFFF. */
  function DecodeOne(b: seq<Byte>): (step: Option<Step>)
    requires b != []
    ensures step.Some? ==> 1 <= step.value.width <= |b|
  {
    if b[0] < 0x80 then Some(Step([b[0]], 1))
    else if 0xC2 <= b[0] < 0xE0 && Continues(b, 1) then Some(Step([Low6(b, 1) + (b[0] as int - 0xC0) * 0x40], 2))
    else if 0xE0 <= b[0] < 0xF0 && Continues(b, 2) && (b[0] == 0xE0 ==> b[1] >= 0xA0) && (b[0] == 0xED ==> b[1] < 0xA0) then
      Some(Step([(b[0] as int - 0xE0) * 0x1000 + Low6(b, 1) * 0x40 + Low6(b, 2)], 3))
    else if 0xF0 <= b[0] < 0xF5 && Continues(b, 3) && (b[0] == 0xF0 ==> b[1] >= 0x90) && (b[0] == 0xF4 ==> b[1] < 0x90) then
      var bits := (b[0] as int - 0xF0) * 0x4_0000 + Low6(b, 1) * 0x1000 + Low6(b, 2) * 0x40 + Low6(b, 3) - 0x1_0000;
      Some(Step([0xD800 + bits / 0x400, 0xDC00 + bits % 0x400], 4))
    else None
  }

  function DecodeAll(b: seq<Byte>): Option<Text> {
    if b == [] then Some([])
    else
      var step := DecodeOne(b);
      if step.None? then None
      else
        var rest := DecodeAll(b[step.value.width..]);
        if rest.None? then None else Some(step.value.units + rest.value)
  }

  /** The decoder as the codec configures it: fatal, and silent about a leading mark. */
  function Decode(b: seq<Byte>): Option<Text> {
    DecodeAll(if |b| >= 3 && b[..3] == [0xEF, 0xBB, 0xBF] then b[3..] else b)
  }

  function StripBom(s: Text): Text {
    if s != [] && s[0] == BOM then s[1..] else s
  }

  lemma DecodeThree(u: Unit, rest: seq<Byte>)
    requires u >= 0x800 && !High(u) && !Low(u)
    ensures DecodeOne(Three(u) + rest) == Some(Step([u], 3))
  {
    var b := Three(u) + rest;
    assert b[0] == 0xE0 + u / 0x1000 && b[1] == 0x80 + u % 0x1000 / 0x40 && b[2] == 0x80 + u % 0x40;
    assert u == u / 0x1000 * 0x1000 + u % 0x1000;
  }

  lemma DecodeFour(bits: int, rest: seq<Byte>)
    requires 0 <= bits < 0x10_0000
    ensures DecodeOne(Four(bits) + rest) == Some(Step([0xD800 + bits / 0x400, 0xDC00 + bits % 0x400], 4))
  {
    var b := Four(bits) + rest;
    var point := bits + 0x1_0000;
    assert b[0] == 0xF0 + point / 0x4_0000 && b[1] == 0x80 + point % 0x4_0000 / 0x1000
           && b[2] == 0x80 + point % 0x1000 / 0x40 && b[3] == 0x80 + point % 0x40;
    SixBits(point);
  }

  /** Four groups of a code point above U+FFFF put together again. */
  lemma SixBits(point: int)
    requires 0x1_0000 <= point < 0x11_0000
    ensures point == point / 0x4_0000 * 0x4_0000 + point % 0x4_0000 / 0x1000 * 0x1000 + point % 0x1000 / 0x40 * 0x40 + point % 0x40
  {
    assert point % 0x4_0000 == point % 0x4_0000 / 0x1000 * 0x1000 + point % 0x1000;
  }

  /** The code point a nonempty text starts with comes back first, and nothing else is consumed. */
  lemma DecodePair(s: Text)
    requires OpensPair(s)
    ensures DecodeOne(Encode(s)) == Some(Step(s[..2], 4)) && Encode(s)[4..] == Encode(s[2..])
  {
    var bits := PairBits(s);
    DecodeFour(bits, Encode(s[2..]));
    assert bits / 0x400 == s[0] as int - 0xD800 && bits % 0x400 == s[1] as int - 0xDC00;
    assert s[..2] == [s[0], s[1]];
  }

  lemma DecodeSingle(s: Text) returns (width: nat)
    requires s != [] && !OpensPair(s)
    ensures width <= |Encode(s)| && Encode(s)[width..] == Encode(s[1..])
    ensures DecodeOne(Encode(s)) == Some(Step([if Lone(s) then REPLACEMENT else s[0]], width))
  {
    var u := if Lone(s) then REPLACEMENT else s[0];
    width := if u < 0x80 then 1 else if u < 0x800 then 2 else 3;
    if u >= 0x800 { DecodeThree(u, Encode(s[1..])); }
  }

  /** Decoding what was encoded gives the scrubbed text back. */
  lemma {:induction false} DecodeAllEncode(s: Text)
    ensures DecodeAll(Encode(s)) == Some(Scrub(s))
    decreases |s|
  {
    if s == [] {
    } else if OpensPair(s) {
      DecodePair(s);
      DecodeAllEncode(s[2..]);
    } else {
      var _ := DecodeSingle(s);
      DecodeAllEncode(s[1..]);
    }
  }

  lemma {:induction false} ScrubKeepsExactlyWellFormed(s: Text)
    ensures Scrub(s) == s <==> WellFormed(s)
    ensures |Scrub(s)| == |s|
    decreases |s|
  {
    if s == [] {
    } else if OpensPair(s) {
      ScrubKeepsExactlyWellFormed(s[2..]);
      assert s == s[..2] + s[2..];
    } else {
      ScrubKeepsExactlyWellFormed(s[1..]);
      assert s == [s[0]] + s[1..];
      assert Scrub(s)[1..] == Scrub(s[1..]);
      assert Lone(s) ==> s[0] != REPLACEMENT;
    }
  }

  lemma ThreeIsBom(u: Unit)
    requires u >= 0x800
    ensures Three(u) == [0xEF, 0xBB, 0xBF] <==> u == BOM
  {
    assert u == u / 0x1000 * 0x1000 + u % 0x1000 / 0x40 * 0x40 + u % 0x40;
    assert Three(u)[0] == 0xEF && Three(u)[1] == 0xBB && Three(u)[2] == 0xBF <==> u == BOM;
  }

  lemma EncodedBom(s: Text)
    ensures (|Encode(s)| >= 3 && Encode(s)[..3] == [0xEF, 0xBB, 0xBF]) <==> s != [] && s[0] == BOM
    ensures s != [] && s[0] == BOM ==> Encode(s)[3..] == Encode(s[1..]) && Scrub(s)[1..] == Scrub(s[1..])
    ensures s != [] && Scrub(s)[0] == BOM ==> s[0] == BOM
  {
    if s != [] && !OpensPair(s) {
      var u := if Lone(s) then REPLACEMENT else s[0];
      if u >= 0x800 {
        assert Encode(s)[..3] == Three(u);
        ThreeIsBom(u);
      } else {
        assert Encode(s)[0] < 0xE0;
      }
    } else if s != [] {
      assert Encode(s)[0] >= 0xF0;
    }
  }

  /** What the codec's text path returns for any string. */
  lemma DecodeEncode(s: Text)
    ensures Decode(Encode(s)) == Some(StripBom(Scrub(s)))
  {
    EncodedBom(s);
    ScrubKeepsExactlyWellFormed(s);
    if s != [] && s[0] == BOM { DecodeAllEncode(s[1..]); } else { DecodeAllEncode(s); }
  }

  predicate Plain(s: Text) {
    WellFormed(s) && (s != [] ==> s[0] != BOM)
  }

  /** A string survives exactly when it is well formed and does not start with U+FEFF. */
  lemma SurvivesExactlyPlain(s: Text)
    ensures StripBom(Scrub(s)) == s <==> Plain(s)
  {
    ScrubKeepsExactlyWellFormed(s);
    EncodedBom(s);
  }

  // ---- what the decoder accepts

  /** The units of one code point. */
  predicate IsPoint(units: Text) {
    if |units| == 2 then OpensPair(units) else |units| == 1 && !High(units[0]) && !Low(units[0])
  }

  /** A code point that decodes is the encoding of its one or two units, in its shortest form. */
  lemma DecodedOne(b: seq<Byte>)
    requires b != [] && DecodeOne(b).Some?
    ensures var step := DecodeOne(b).value;
            && IsPoint(step.units)
            && b == Encode(step.units) + b[step.width..]
  {
    var step := DecodeOne(b).value;
    assert b == b[..step.width] + b[step.width..];
    if step.width == 1 {
      assert b[..1] == [b[0]];
    } else if step.width == 2 {
      assert b[..2] == [b[0], b[1]];
    } else if step.width == 3 {
      DecodedThree(b[0], b[1], b[2], step.units[0]);
      assert b[..3] == [b[0], b[1], b[2]] == Three(step.units[0]);
    } else {
      var bits := (b[0] as int - 0xF0) * 0x4_0000 + Low6(b, 1) * 0x1000 + Low6(b, 2) * 0x40 + Low6(b, 3) - 0x1_0000;
      DecodedFour(b[0], b[1], b[2], b[3], bits);
      assert PairBits(step.units) == bits;
      assert b[..4] == [b[0], b[1], b[2], b[3]] == Four(bits);
    }
    assert Encode([]) == [];
    assert Encode(step.units) == b[..step.width];
  }

  lemma DecodedThree(a: Byte, b: Byte, c: Byte, u: Unit)
    requires 0xE0 <= a < 0xF0 && 0x80 <= b < 0xC0 && 0x80 <= c < 0xC0 && (a == 0xE0 ==> b >= 0xA0)
    requires u == (a as int - 0xE0) * 0x1000 + (b as int - 0x80) * 0x40 + c as int - 0x80
    ensures u >= 0x800 && Three(u) == [a, b, c]
  {
  }

  lemma DecodedFour(a: Byte, b: Byte, c: Byte, d: Byte, bits: int)
    requires 0xF0 <= a < 0xF5 && 0x80 <= b < 0xC0 && 0x80 <= c < 0xC0 && 0x80 <= d < 0xC0
    requires (a == 0xF0 ==> b >= 0x90) && (a == 0xF4 ==> b < 0x90)
    requires bits == (a as int - 0xF0) * 0x4_0000 + (b as int - 0x80) * 0x1000 + (c as int - 0x80) * 0x40 + d as int - 0x80 - 0x1_0000
    ensures 0 <= bits < 0x10_0000 && Four(bits) == [a, b, c, d]
  {
    var point := bits + 0x1_0000;
    var low12, low18 := (c as int - 0x80) * 0x40 + d as int - 0x80, (b as int - 0x80) * 0x1000 + (c as int - 0x80) * 0x40 + d as int - 0x80;
    assert point == (a as int - 0xF0) * 0x4_0000 + low18 && 0 <= low18 < 0x4_0000;
    assert point / 0x4_0000 == a as int - 0xF0 && point % 0x4_0000 == low18;
    assert low18 / 0x1000 == b as int - 0x80 && point % 0x1000 == low12;
    assert low12 / 0x40 == c as int - 0x80 && point % 0x40 == d as int - 0x80;
  }

  lemma {:induction false} DecodedAll(b: seq<Byte>)
    requires DecodeAll(b).Some?
    ensures WellFormed(DecodeAll(b).value) && Encode(DecodeAll(b).value) == b
    decreases |b|
  {
    if b != [] {
      var step := DecodeOne(b).value;
      var rest := b[step.width..];
      DecodedOne(b);
      DecodedAll(rest);
      FirstOfEncoded(step.units, DecodeAll(rest).value);
    }
  }

  lemma FirstOfEncoded(units: Text, rest: Text)
    requires IsPoint(units) && WellFormed(rest)
    ensures WellFormed(units + rest) && Encode(units + rest) == Encode(units) + Encode(rest)
  {
    assert (units + rest)[|units|..] == rest && units[|units|..] == [] && Encode([]) == [];
    if OpensPair(units) {
      assert OpensPair(units + rest) && PairBits(units + rest) == PairBits(units);
    } else {
      assert !OpensPair(units + rest) && !Lone(units + rest) && !Lone(units);
    }
  }

  /** Bytes decode exactly when they are the encoding of a well-formed text: no overlong form, no surrogate, nothing
      above U+10FFFF. A leading mark goes. */
  lemma DecodesExactlyEncodings(b: seq<Byte>, t: Text)
    ensures Decode(b) == Some(t) <==> exists s :: WellFormed(s) && Encode(s) == b && StripBom(s) == t
  {
    if Decode(b) == Some(t) {
      var marked := |b| >= 3 && b[..3] == [0xEF, 0xBB, 0xBF];
      DecodedAll(if marked then b[3..] else b);
      if marked {
        FirstOfEncoded([BOM], t);
        ThreeIsBom(BOM);
        assert Encode([BOM]) == Three(BOM) + Encode([]) == [0xEF, 0xBB, 0xBF];
        assert b == b[..3] + b[3..] && ([BOM] + t)[1..] == t;
        assert Encode([BOM] + t) == b && StripBom([BOM] + t) == t;
      } else {
        EncodedBom(t);
        assert Encode(t) == b && StripBom(t) == t;
      }
    }
    if s :| WellFormed(s) && Encode(s) == b && StripBom(s) == t {
      DecodeEncode(s);
      ScrubKeepsExactlyWellFormed(s);
    }
  }

  /** Where the four lengths of section 3 of RFC 3629 begin and end. */
  lemma BoundariesOfTheLengths()
    ensures Encode([0x00]) == [0x00] && Encode([0x7F]) == [0x7F]
    ensures Encode([0x80]) == [0xC2, 0x80] && Encode([0x7FF]) == [0xDF, 0xBF]
    ensures Encode([0x800]) == [0xE0, 0xA0, 0x80] && Encode([0xFFFF]) == [0xEF, 0xBF, 0xBF]
    ensures Encode([0xD800, 0xDC00]) == [0xF0, 0x90, 0x80, 0x80] && Encode([0xDBFF, 0xDFFF]) == [0xF4, 0x8F, 0xBF, 0xBF]
  {
    assert Encode([]) == [];
    assert PairBits([0xD800, 0xDC00]) == 0 && PairBits([0xDBFF, 0xDFFF]) == 0xF_FFFF;
    assert Four(0) == [0xF0, 0x90, 0x80, 0x80] && Four(0xF_FFFF) == [0xF4, 0x8F, 0xBF, 0xBF];
  }
}
