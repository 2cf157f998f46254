/** The CBOR subset of `codec.ts` (section 3 of RFC 8949): what the writer emits and what the reader
    accepts, as functions on byte sequences. */
module Cbor {
  import opened Utf8

  const MAX_SAFE_INTEGER := 0x1F_FFFF_FFFF_FFFF
  const MAX_COLLECTION_LENGTH := 1_000_000
  const MAX_DEPTH := 128

  /** A JSON value as the engine holds it. A finite number is its real value, so -0 is 0. Entries are
      in insertion order. */
  datatype Json =
    | Null
    | Bool(b: bool)
    | Num(r: real)
    | Str(s: Text)
    | Arr(items: seq<Json>)
    | Obj(entries: seq<Entry>)
  datatype Entry = Entry(key: Text, value: Json)

  // ---- numbers

  function Pow2(k: int): (p: real)
    ensures p > 0.0
    decreases if k < 0 then -k else k
  {
    if k == 0 then 1.0 else if k > 0 then 2.0 * Pow2(k - 1) else Pow2(k + 1) / 2.0
  }

  function Signed(negative: bool, scale: real, part: real): real {
    (if negative then -1.0 else 1.0) * scale * part
  }

  /** Section 3.3 of RFC 8949 takes the IEEE 754 formats as they are: sign, exponent, fraction. */
  function Half(b: seq<Byte>): Option<real>
    requires |b| == 2
  {
    var exponent: nat, fraction: nat := b[0] as int % 0x80 / 4, b[0] as int % 4 * 0x100 + b[1];
    HalfValue(b[0] >= 0x80, exponent, fraction)
  }

  function HalfValue(negative: bool, exponent: nat, fraction: nat): Option<real> {
    if exponent == 0x1F then None
    else if exponent == 0 then Some(Signed(negative, Pow2(-14), fraction as real / 1024.0))
    else Some(Signed(negative, Pow2(exponent - 15), 1.0 + fraction as real / 1024.0))
  }

  function Single(b: seq<Byte>): Option<real>
    requires |b| == 4
  {
    var exponent: nat, fraction: nat := b[0] as int % 0x80 * 2 + b[1] / 0x80, b[1] as int % 0x80 * 0x1_0000 + b[2] as int * 0x100 + b[3];
    if exponent == 0xFF then None
    else if exponent == 0 then Some(Signed(b[0] >= 0x80, Pow2(-149), fraction as real))
    else Some(Signed(b[0] >= 0x80, Pow2(exponent - 150), (0x80_0000 + fraction) as real))
  }

  function Double(b: seq<Byte>): Option<real>
    requires |b| == 8
  {
    var exponent: nat, fraction: nat := b[0] as int % 0x80 * 0x10 + b[1] / 0x10, b[1] as int % 0x10 * 0x1_0000_0000_0000 + BigEndian(b[2..]);
    if exponent == 0x7FF then None
    else if exponent == 0 then Some(Signed(b[0] >= 0x80, Pow2(-1074), fraction as real))
    else Some(Signed(b[0] >= 0x80, Pow2(exponent - 1075), (0x10_0000_0000_0000 + fraction) as real))
  }

  ghost predicate IsDouble(r: real) {
    exists b: seq<Byte> :: |b| == 8 && Double(b) == Some(r)
  }

  /** The host's `setFloat64`: eight bytes that denote the number it is given. */
  type FloatBytes = real -> seq<Byte>

  ghost predicate Faithful(f: FloatBytes) {
    forall r | IsDouble(r) :: |f(r)| == 8 && Double(f(r)) == Some(r)
  }

  predicate IsSafeInteger(r: real) {
    r == r.Floor as real && -MAX_SAFE_INTEGER <= r.Floor <= MAX_SAFE_INTEGER
  }

  // ---- heads

  function BigEndian(b: seq<Byte>): nat {
    if b == [] then 0 else BigEndian(b[..|b| - 1]) * 0x100 + b[|b| - 1]
  }

  function Bytes(n: nat, width: nat): (b: seq<Byte>)
    ensures |b| == width
  {
    if width == 0 then [] else Bytes(n / 0x100, width - 1) + [n % 0x100]
  }

  function Width(n: nat): nat {
    if n < 24 then 0 else if n <= 0xFF then 1 else if n <= 0xFFFF then 2 else if n <= 0xFFFF_FFFF then 4 else 8
  }

  /** The low five bits of the initial byte that announce a length of this width. */
  function Announce(width: nat): nat {
    if width == 1 then 24 else if width == 2 then 25 else if width == 4 then 26 else 27
  }

  function Head(major: nat, n: nat): seq<Byte>
    requires major < 8
  {
    if n < 24 then [major * 0x20 + n] else [major * 0x20 + Announce(Width(n))] + Bytes(n, Width(n))
  }

  // ---- the writer's output

  /** The bytes of a value whose entries are written in the order they stand in. */
  function EncodeValue(f: FloatBytes, v: Json): seq<Byte>
    decreases v
  {
    match v
    case Null => [0xF6]
    case Bool(b) => [if b then 0xF5 else 0xF4]
    case Num(r) =>
      if !IsSafeInteger(r) then [0xFB] + f(r)
      else if r >= 0.0 then Head(0, r.Floor) else Head(1, -1 - r.Floor)
    case Str(s) => EncodeText(s)
    case Arr(items) => Head(4, |items|) + EncodeItems(f, items)
    case Obj(entries) => Head(5, |entries|) + EncodeEntries(f, entries)
  }

  function EncodeText(s: Text): seq<Byte> {
    Head(3, |Utf8.Encode(s)|) + Utf8.Encode(s)
  }

  function EncodeItems(f: FloatBytes, items: seq<Json>): seq<Byte>
    decreases items
  {
    if items == [] then [] else EncodeValue(f, items[0]) + EncodeItems(f, items[1..])
  }

  function EncodeEntries(f: FloatBytes, entries: seq<Entry>): seq<Byte>
    decreases entries
  {
    if entries == [] then []
    else EncodeText(entries[0].key) + EncodeValue(f, entries[0].value) + EncodeEntries(f, entries[1..])
  }

  // ---- the reader

  datatype Length = Length(n: nat, rest: seq<Byte>) | NoLength
  datatype Read = Got(value: Json, rest: seq<Byte>) | Refused
  datatype ReadMany<T> = GotMany(items: seq<T>, rest: seq<Byte>) | RefusedMany

  function ReadLength(additional: nat, b: seq<Byte>): Length {
    if additional < 24 then Length(additional, b)
    else if additional > 27 then NoLength
    else
      var width := if additional == 24 then 1 else if additional == 25 then 2 else if additional == 26 then 4 else 8;
      if |b| < width || BigEndian(b[..width]) > MAX_SAFE_INTEGER then NoLength
      else Length(BigEndian(b[..width]), b[width..])
  }

  function ReadFloat(number: Option<real>, rest: seq<Byte>): Read {
    if number.None? then Refused else Got(Num(number.value), rest)
  }

  function ReadSimple(additional: nat, b: seq<Byte>): Read {
    if additional == 20 then Got(Bool(false), b)
    else if additional == 21 then Got(Bool(true), b)
    else if additional == 22 then Got(Null, b)
    else if additional == 25 && |b| >= 2 then ReadFloat(Half(b[..2]), b[2..])
    else if additional == 26 && |b| >= 4 then ReadFloat(Single(b[..4]), b[4..])
    else if additional == 27 && |b| >= 8 then ReadFloat(Double(b[..8]), b[8..])
    else Refused
  }

  function ReadText(n: nat, b: seq<Byte>): Read {
    if |b| < n then Refused
    else
      var text := Utf8.Decode(b[..n]);
      if text.None? then Refused else Got(Str(text.value), b[n..])
  }

  function ReadValue(b: seq<Byte>, depth: nat): (r: Read)
    ensures r.Got? ==> |r.rest| < |b|
    decreases |b|, 0
  {
    if depth > MAX_DEPTH || b == [] then Refused
    else
      var major, additional := b[0] / 0x20, b[0] % 0x20;
      if major == 7 then ReadSimple(additional, b[1..])
      else
        var length := ReadLength(additional, b[1..]);
        if length.NoLength? then Refused
        else if major == 0 then Got(Num(length.n as real), length.rest)
        else if major == 1 then Got(Num((-1 - length.n) as real), length.rest)
        else if major == 3 then ReadText(length.n, length.rest)
        else if major == 4 then
          if length.n > MAX_COLLECTION_LENGTH then Refused
          else
            var many := ReadItems(length.rest, length.n, depth + 1);
            if many.GotMany? then Got(Arr(many.items), many.rest) else Refused
        else if major == 5 then
          if length.n > MAX_COLLECTION_LENGTH then Refused
          else
            var many := ReadEntries(length.rest, length.n, depth + 1, []);
            if many.GotMany? then Got(Obj(many.items), many.rest) else Refused
        else Refused
  }

  function ReadItems(b: seq<Byte>, n: nat, depth: nat): (r: ReadMany<Json>)
    ensures r.GotMany? ==> |r.rest| <= |b|
    decreases |b|, n + 1
  {
    if n == 0 then GotMany([], b)
    else
      var first := ReadValue(b, depth);
      if first.Refused? then RefusedMany
      else
        var others := ReadItems(first.rest, n - 1, depth);
        if others.GotMany? then GotMany([first.value] + others.items, others.rest) else RefusedMany
  }

  predicate HasKey(entries: seq<Entry>, key: Text) {
    exists k :: 0 <= k < |entries| && entries[k].key == key
  }

  /** `soFar` is the object built by the earlier rounds of the loop. */
  function ReadEntries(b: seq<Byte>, n: nat, depth: nat, soFar: seq<Entry>): (r: ReadMany<Entry>)
    ensures r.GotMany? ==> |r.rest| <= |b|
    decreases |b|, n + 1
  {
    if n == 0 then GotMany(soFar, b)
    else
      var key := ReadValue(b, depth);
      if key.Refused? || !key.value.Str? || HasKey(soFar, key.value.s) then RefusedMany
      else
        var entry := ReadValue(key.rest, depth);
        if entry.Refused? then RefusedMany
        else ReadEntries(entry.rest, n - 1, depth, soFar + [Entry(key.value.s, entry.value)])
  }

  function ReadDocument(b: seq<Byte>): Option<Json> {
    var r := ReadValue(b, 0);
    if r.Got? && r.rest == [] then Some(r.value) else None
  }
}
