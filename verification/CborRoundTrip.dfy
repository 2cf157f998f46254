/** What reading back an encoded value gives, for every value the writer accepts. */
module CborRoundTrip {
  import opened Utf8
  import opened Cbor

  // ---- heads come back

  function Pow256(width: nat): nat {
    if width == 0 then 1 else 0x100 * Pow256(width - 1)
  }

  lemma {:induction false} BigEndianBytes(n: nat, width: nat)
    requires n < Pow256(width)
    ensures BigEndian(Bytes(n, width)) == n
  {
    if width > 0 {
      BigEndianBytes(n / 0x100, width - 1);
      assert Bytes(n, width)[..width - 1] == Bytes(n / 0x100, width - 1);
    }
  }

  lemma Pow256Widths()
    ensures Pow256(1) == 0x100 && Pow256(2) == 0x1_0000 && Pow256(4) == 0x1_0000_0000 && Pow256(8) == 0x1_0000_0000_0000_0000
  {
    assert Pow256(3) == 0x100_0000;
    assert Pow256(5) == 0x100_0000_0000 && Pow256(6) == 0x1_0000_0000_0000 && Pow256(7) == 0x100_0000_0000_0000;
  }

  lemma ReadHead(major: nat, n: nat, rest: seq<Byte>)
    requires major < 8 && n <= MAX_SAFE_INTEGER
    ensures var b := Head(major, n) + rest;
            b != [] && b[0] / 0x20 == major && ReadLength(b[0] % 0x20, b[1..]) == Length(n, rest)
  {
    var b := Head(major, n) + rest;
    var width := Width(n);
    if n < 24 {
      assert b[1..] == rest;
    } else {
      Pow256Widths();
      BigEndianBytes(n, width);
      assert b[1..] == Bytes(n, width) + rest;
      assert b[1..][..width] == Bytes(n, width) && b[1..][width..] == rest;
    }
  }

  // ---- the value that comes back

  /** Lengths that fit a head. Every other value makes the writer throw. */
  predicate Fits(n: nat) {
    n <= MAX_SAFE_INTEGER
  }

  /** The writer accepts `v`: numbers are doubles, lengths fit. */
  ghost predicate Encodable(v: Json) {
    match v
    case Num(r) => IsDouble(r)
    case Str(s) => Fits(|Utf8.Encode(s)|)
    case Arr(items) => Fits(|items|) && forall k | 0 <= k < |items| :: Encodable(items[k])
    case Obj(entries) =>
      Fits(|entries|) && forall k | 0 <= k < |entries| :: Fits(|Utf8.Encode(entries[k].key)|) && Encodable(entries[k].value)
    case _ => true
  }

  /** The text the decoder returns for an encoded string. */
  function SeenText(s: Text): Text {
    StripBom(Scrub(s))
  }

  function Seen(v: Json): Json
    decreases v
  {
    match v
    case Str(s) => Str(SeenText(s))
    case Arr(items) => Arr(SeenItems(items))
    case Obj(entries) => Obj(SeenEntries(entries))
    case _ => v
  }

  function SeenItems(items: seq<Json>): seq<Json>
    decreases items
  {
    if items == [] then [] else [Seen(items[0])] + SeenItems(items[1..])
  }

  function SeenEntries(entries: seq<Entry>): seq<Entry>
    decreases entries
  {
    if entries == [] then []
    else [Entry(SeenText(entries[0].key), Seen(entries[0].value))] + SeenEntries(entries[1..])
  }

  /** The reader accepts the encoding of `v` at this nesting depth. */
  predicate Readable(v: Json, depth: nat)
    decreases v
  {
    depth <= MAX_DEPTH &&
    match v
    case Arr(items) => |items| <= MAX_COLLECTION_LENGTH && ItemsReadable(items, depth + 1)
    case Obj(entries) => |entries| <= MAX_COLLECTION_LENGTH && EntriesReadable(entries, depth + 1, [])
    case _ => true
  }

  predicate ItemsReadable(items: seq<Json>, depth: nat)
    decreases items
  {
    items == [] || (Readable(items[0], depth) && ItemsReadable(items[1..], depth))
  }

  predicate EntriesReadable(entries: seq<Entry>, depth: nat, soFar: seq<Entry>)
    decreases entries
  {
    entries == []
    || (depth <= MAX_DEPTH && !HasKey(soFar, SeenText(entries[0].key)) && Readable(entries[0].value, depth)
        && EntriesReadable(entries[1..], depth, soFar + [Entry(SeenText(entries[0].key), Seen(entries[0].value))]))
  }

  lemma ReadEncodedText(s: Text, depth: nat, rest: seq<Byte>)
    requires Fits(|Utf8.Encode(s)|)
    ensures ReadValue(EncodeText(s) + rest, depth) == if depth <= MAX_DEPTH then Got(Str(SeenText(s)), rest) else Refused
  {
    var bytes := Utf8.Encode(s);
    assert EncodeText(s) + rest == Head(3, |bytes|) + (bytes + rest);
    ReadHead(3, |bytes|, bytes + rest);
    assert (bytes + rest)[..|bytes|] == bytes && (bytes + rest)[|bytes|..] == rest;
    DecodeEncode(s);
  }

  lemma ReadEncodedDouble(bytes: seq<Byte>, number: Option<real>, depth: nat, rest: seq<Byte>)
    requires |bytes| == 8 && Double(bytes) == number && depth <= MAX_DEPTH
    ensures ReadValue([0xFB] + bytes + rest, depth) == ReadFloat(number, rest)
  {
    var b := [0xFB] + bytes + rest;
    assert b[0] == 0xFB && b[1..] == bytes + rest;
    assert b[1..][..8] == bytes && b[1..][8..] == rest;
  }

  lemma ReadEncodedInteger(n: nat, depth: nat, rest: seq<Byte>)
    requires Fits(n) && depth <= MAX_DEPTH
    ensures ReadValue(Head(0, n) + rest, depth) == Got(Num(n as real), rest)
    ensures ReadValue(Head(1, n) + rest, depth) == Got(Num((-1 - n) as real), rest)
  {
    ReadHead(0, n, rest);
    ReadHead(1, n, rest);
  }

  lemma ReadEncodedNumber(f: FloatBytes, r: real, depth: nat, rest: seq<Byte>)
    requires Faithful(f) && IsDouble(r) && depth <= MAX_DEPTH
    ensures ReadValue(EncodeValue(f, Num(r)) + rest, depth) == Got(Num(r), rest)
  {
    if !IsSafeInteger(r) {
      ReadEncodedDouble(f(r), Some(r), depth, rest);
    } else if r >= 0.0 {
      ReadEncodedInteger(r.Floor, depth, rest);
    } else {
      ReadEncodedInteger(-1 - r.Floor, depth, rest);
    }
  }

  lemma ReadCollectionHead(n: nat, tail: seq<Byte>, depth: nat)
    requires Fits(n) && depth <= MAX_DEPTH
    ensures var many := ReadItems(tail, n, depth + 1);
            ReadValue(Head(4, n) + tail, depth)
            == if n <= MAX_COLLECTION_LENGTH && many.GotMany? then Got(Arr(many.items), many.rest) else Refused
    ensures var many := ReadEntries(tail, n, depth + 1, []);
            ReadValue(Head(5, n) + tail, depth)
            == if n <= MAX_COLLECTION_LENGTH && many.GotMany? then Got(Obj(many.items), many.rest) else Refused
  {
    ReadHead(4, n, tail);
    ReadHead(5, n, tail);
  }

  lemma ReadEncodedSimple(f: FloatBytes, v: Json, depth: nat, rest: seq<Byte>)
    requires (v.Null? || v.Bool?) && depth <= MAX_DEPTH
    ensures ReadValue(EncodeValue(f, v) + rest, depth) == Got(v, rest)
  {
    var b := EncodeValue(f, v) + rest;
    assert b[1..] == rest;
  }

  /** Reading the encoding of any accepted value, whatever bytes follow it: either the reader
      refuses it, or it returns the value as the decoder sees its strings and stops right after it. */
  lemma {:induction false} ReadEncoded(f: FloatBytes, v: Json, depth: nat, rest: seq<Byte>)
    requires Faithful(f) && Encodable(v)
    ensures ReadValue(EncodeValue(f, v) + rest, depth) == if Readable(v, depth) then Got(Seen(v), rest) else Refused
    decreases v
  {
    if depth > MAX_DEPTH { return; }
    match v
    case Num(r) => ReadEncodedNumber(f, r, depth, rest);
    case Str(s) => ReadEncodedText(s, depth, rest);
    case Arr(items) =>
      var tail := EncodeItems(f, items) + rest;
      assert EncodeValue(f, v) + rest == Head(4, |items|) + tail;
      ReadCollectionHead(|items|, tail, depth);
      ReadEncodedItems(f, items, depth + 1, rest);
    case Obj(entries) =>
      var tail := EncodeEntries(f, entries) + rest;
      assert EncodeValue(f, v) + rest == Head(5, |entries|) + tail;
      ReadCollectionHead(|entries|, tail, depth);
      ReadEncodedEntries(f, entries, depth + 1, [], rest);
      assert [] + SeenEntries(entries) == SeenEntries(entries);
    case _ => ReadEncodedSimple(f, v, depth, rest);
  }

  lemma {:induction false} ReadEncodedItems(f: FloatBytes, items: seq<Json>, depth: nat, rest: seq<Byte>)
    requires Faithful(f) && forall k | 0 <= k < |items| :: Encodable(items[k])
    ensures ReadItems(EncodeItems(f, items) + rest, |items|, depth)
            == if ItemsReadable(items, depth) then GotMany(SeenItems(items), rest) else RefusedMany
    decreases items
  {
    if items == [] {
      assert [] + rest == rest;
    } else {
      var tail := EncodeItems(f, items[1..]) + rest;
      assert EncodeItems(f, items) + rest == EncodeValue(f, items[0]) + tail;
      ReadEncoded(f, items[0], depth, tail);
      ReadEncodedItems(f, items[1..], depth, rest);
    }
  }

  lemma ReadEncodedEntry(f: FloatBytes, entry: Entry, depth: nat, tail: seq<Byte>, n: nat, soFar: seq<Entry>)
    requires Fits(|Utf8.Encode(entry.key)|) && n > 0
    requires ReadValue(EncodeValue(f, entry.value) + tail, depth)
             == if Readable(entry.value, depth) then Got(Seen(entry.value), tail) else Refused
    ensures ReadEntries(EncodeText(entry.key) + (EncodeValue(f, entry.value) + tail), n, depth, soFar)
            == if depth <= MAX_DEPTH && !HasKey(soFar, SeenText(entry.key)) && Readable(entry.value, depth)
               then ReadEntries(tail, n - 1, depth, soFar + [Entry(SeenText(entry.key), Seen(entry.value))])
               else RefusedMany
  {
    ReadEncodedText(entry.key, depth, EncodeValue(f, entry.value) + tail);
  }

  lemma {:induction false} ReadEncodedEntries(f: FloatBytes, entries: seq<Entry>, depth: nat, soFar: seq<Entry>, rest: seq<Byte>)
    requires Faithful(f)
    requires forall k | 0 <= k < |entries| :: Fits(|Utf8.Encode(entries[k].key)|) && Encodable(entries[k].value)
    ensures ReadEntries(EncodeEntries(f, entries) + rest, |entries|, depth, soFar)
            == if EntriesReadable(entries, depth, soFar) then GotMany(soFar + SeenEntries(entries), rest) else RefusedMany
    decreases entries
  {
    if entries == [] {
      assert [] + rest == rest && soFar + [] == soFar;
    } else {
      var entry := entries[0];
      var tail := EncodeEntries(f, entries[1..]) + rest;
      var longer := soFar + [Entry(SeenText(entry.key), Seen(entry.value))];
      assert EncodeEntries(f, entries) + rest == EncodeText(entry.key) + (EncodeValue(f, entry.value) + tail);
      ReadEncoded(f, entry.value, depth, tail);
      ReadEncodedEntry(f, entry, depth, tail, |entries|, soFar);
      ReadEncodedEntries(f, entries[1..], depth, longer, rest);
      assert longer + SeenEntries(entries[1..]) == soFar + SeenEntries(entries);
    }
  }
}
