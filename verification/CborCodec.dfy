/** The stateful halves of `codec.ts`: a writer that appends to a byte array and a reader that advances
    an offset, each proved against the functions of module Cbor. */
module CborCodec {
  import opened Utf8
  import opened Cbor
  import opened CborRoundTrip
  import opened CborCanonical

  /** Every length fits a head; the writer throws exactly when one does not. */
  ghost predicate Writable(v: Json) {
    match v
    case Str(s) => Fits(|Utf8.Encode(s)|)
    case Arr(items) => Fits(|items|) && forall k | 0 <= k < |items| :: Writable(items[k])
    case Obj(entries) =>
      Fits(|entries|) && forall k | 0 <= k < |entries| :: EntryWritable(entries[k])
    case _ => true
  }

  ghost predicate EntryWritable(e: Entry) {
    Fits(|Utf8.Encode(e.key)|) && Writable(e.value)
  }

  lemma {:induction false} EncodableIsWritable(v: Json)
    requires Encodable(v)
    ensures Writable(v)
  {
    match v
    case Arr(items) =>
      forall k | 0 <= k < |items| ensures Writable(items[k]) { EncodableIsWritable(items[k]); }
    case Obj(entries) =>
      forall k | 0 <= k < |entries| ensures EntryWritable(entries[k]) { EncodableIsWritable(entries[k].value); }
    case _ =>
  }

  // ---- what the writer's loops need

  lemma SortedReady(f: FloatBytes, entries: seq<Entry>)
    requires WellKeyed(Obj(entries))
    ensures |Sort(entries)| == |entries|
    ensures forall k | 0 <= k < |entries| :: Sort(entries)[k] in entries && WellKeyed(Sort(entries)[k].value)
    ensures Writable(Obj(entries)) <==> Fits(|entries|) && forall k | 0 <= k < |entries| :: EntryWritable(Sort(entries)[k])
    ensures EncodeCbor(f, Obj(entries)) == Head(5, |entries|) + EncodeEntries(f, CanonEntries(Sort(entries)))
  {
    SortSorts(entries);
    SortCommutes(entries);
    var sorted := Sort(entries);
    forall k | 0 <= k < |entries| ensures sorted[k] in entries && WellKeyed(sorted[k].value) {
      assert sorted[k] in sorted;
      var j :| 0 <= j < |entries| && entries[j] == sorted[k];
      assert WellKeyed(entries[j].value);
    }
    SortKeepsAll(entries, (e: Entry) => EntryWritable(e));
  }

  lemma {:induction false} InsertCommutes(e: Entry, sorted: seq<Entry>)
    ensures CanonEntries(Insert(e, sorted)) == Insert(Entry(e.key, Canon(e.value)), CanonEntries(sorted))
  {
    if sorted != [] && Less(sorted[0].key, e.key) {
      InsertCommutes(e, sorted[1..]);
      assert CanonEntries(sorted)[1..] == CanonEntries(sorted[1..]);
      assert Insert(e, sorted)[1..] == Insert(e, sorted[1..]);
    } else {
      assert Insert(e, sorted)[1..] == sorted;
    }
  }

  /** Sorting looks at keys only, so it may come before or after the values are sorted. */
  lemma {:induction false} SortCommutes(entries: seq<Entry>)
    ensures CanonEntries(Sort(entries)) == Sort(CanonEntries(entries))
  {
    if entries != [] {
      SortCommutes(entries[1..]);
      InsertCommutes(entries[0], Sort(entries[1..]));
    }
  }

  lemma ItemsStep(f: FloatBytes, items: seq<Json>, k: nat, before: seq<Byte>)
    requires k < |items|
    ensures before + EncodeItems(f, CanonItems(items[k..])) == before + EncodeCbor(f, items[k]) + EncodeItems(f, CanonItems(items[k + 1..]))
  {
    assert items[k..][1..] == items[k + 1..];
    assert CanonItems(items[k..])[1..] == CanonItems(items[k + 1..]);
  }

  lemma EntriesStep(f: FloatBytes, entries: seq<Entry>, k: nat, before: seq<Byte>)
    requires k < |entries|
    ensures before + EncodeEntries(f, CanonEntries(entries[k..]))
            == before + EncodeText(entries[k].key) + EncodeCbor(f, entries[k].value) + EncodeEntries(f, CanonEntries(entries[k + 1..]))
  {
    assert entries[k..][1..] == entries[k + 1..];
    assert CanonEntries(entries[k..])[1..] == CanonEntries(entries[k + 1..]);
    var x, y, z := EncodeText(entries[k].key), EncodeCbor(f, entries[k].value), EncodeEntries(f, CanonEntries(entries[k + 1..]));
    assert EncodeEntries(f, CanonEntries(entries[k..])) == x + y + z;
    assert before + (x + y + z) == before + x + y + z;
  }

  function ShiftRight(n: nat, octets: nat): nat {
    if octets == 0 then n else ShiftRight(n / 0x100, octets - 1)
  }

  lemma {:induction false} ShiftOnce(n: nat, octets: nat)
    ensures ShiftRight(n, octets) / 0x100 == ShiftRight(n, octets + 1)
  {
    if octets > 0 { ShiftOnce(n / 0x100, octets - 1); }
  }

  lemma OneByte(n: nat)
    ensures Bytes(n, 1) == [n % 0x100]
  {
  }

  lemma TwoBytes(n: nat)
    ensures Bytes(n, 2) == [n / 0x100 % 0x100, n % 0x100]
  {
    assert Bytes(n / 0x100, 1) == [n / 0x100 % 0x100];
  }

  lemma FourBytes(n: nat)
    requires n <= 0xFFFF_FFFF
    ensures Bytes(n, 4) == [n / 0x100_0000 % 0x100, n / 0x1_0000 % 0x100, n / 0x100 % 0x100, n % 0x100]
  {
    assert n / 0x100 / 0x100 == n / 0x1_0000 && n / 0x1_0000 / 0x100 == n / 0x100_0000;
    assert Bytes(n / 0x100_0000, 1) == [n / 0x100_0000 % 0x100];
    assert Bytes(n / 0x1_0000, 2) == [n / 0x100_0000 % 0x100, n / 0x1_0000 % 0x100];
  }

  class CborWriter {
    const setFloat64: FloatBytes
    var bytes: seq<Byte>

    constructor (setFloat64: FloatBytes)
      ensures this.setFloat64 == setFloat64 && bytes == []
    {
      this.setFloat64 := setFloat64;
      bytes := [];
    }

    method WriteHead(major: nat, value: nat) returns (ok: bool)
      requires major < 8
      modifies this`bytes
      ensures ok <==> Fits(value)
      ensures bytes == if ok then old(bytes) + Head(major, value) else old(bytes)
    {
      hide Bytes;
      if value > MAX_SAFE_INTEGER { return false; }
      if value < 24 {
        bytes := bytes + [major * 0x20 + value];
      } else if value <= 0xFF {
        OneByte(value);
        bytes := bytes + [major * 0x20 + 24, value];
      } else if value <= 0xFFFF {
        TwoBytes(value);
        bytes := bytes + [major * 0x20 + 25, value / 0x100 % 0x100, value % 0x100];
      } else if value <= 0xFFFF_FFFF {
        FourBytes(value);
        bytes := bytes + [major * 0x20 + 26, value / 0x100_0000 % 0x100, value / 0x1_0000 % 0x100, value / 0x100 % 0x100, value % 0x100];
      } else {
        bytes := bytes + [major * 0x20 + 27];
        WriteEight(value);
        assert Head(major, value) == [major * 0x20 + 27] + Bytes(value, 8);
      }
      return true;
    }

    method WriteEight(value: nat)
      requires value <= MAX_SAFE_INTEGER
      modifies this`bytes
      ensures bytes == old(bytes) + Bytes(value, 8)
    {
      var shift := 8;
      while shift > 0
        invariant 0 <= shift <= 8
        invariant bytes == old(bytes) + Bytes(ShiftRight(value, shift), 8 - shift)
      {
        shift := shift - 1;
        ShiftOnce(value, shift);
        bytes := bytes + [ShiftRight(value, shift) % 0x100];
      }
    }

    method WriteText(s: Text) returns (ok: bool)
      modifies this`bytes
      ensures ok <==> Fits(|Utf8.Encode(s)|)
      ensures ok ==> bytes == old(bytes) + EncodeText(s)
    {
      var encoded := Utf8.Encode(s);
      ok := WriteHead(3, |encoded|);
      if ok { bytes := bytes + encoded; }
    }

    method Write(value: Json) returns (ok: bool)
      requires WellKeyed(value)
      modifies this`bytes
      ensures ok <==> Writable(value)
      ensures ok ==> bytes == old(bytes) + EncodeCbor(setFloat64, value)
      decreases value, 0
    {
      match value
      case Null => bytes := bytes + [0xF6]; ok := true;
      case Bool(b) => bytes := bytes + [if b then 0xF5 else 0xF4]; ok := true;
      case Str(s) => ok := WriteText(s);
      case Num(r) =>
        if IsSafeInteger(r) {
          if r >= 0.0 { ok := WriteHead(0, r.Floor); } else { ok := WriteHead(1, -1 - r.Floor); }
        } else {
          bytes := bytes + ([0xFB] + setFloat64(r));
          ok := true;
        }
      case Arr(items) => ok := WriteArray(items);
      case Obj(entries) => ok := WriteObject(entries);
    }

    method WriteArray(items: seq<Json>) returns (ok: bool)
      requires WellKeyed(Arr(items))
      modifies this`bytes
      ensures ok <==> Writable(Arr(items))
      ensures ok ==> bytes == old(bytes) + EncodeCbor(setFloat64, Arr(items))
      decreases items, 1
    {
      ok := WriteHead(4, |items|);
      if ok { ok := WriteItems(items); }
    }

    method WriteItems(items: seq<Json>) returns (ok: bool)
      requires forall k | 0 <= k < |items| :: WellKeyed(items[k])
      modifies this`bytes
      ensures ok <==> forall k | 0 <= k < |items| :: Writable(items[k])
      ensures ok ==> bytes == old(bytes) + EncodeItems(setFloat64, CanonItems(items))
      decreases items, 0
    {
      var k := 0;
      assert items[0..] == items;
      while k < |items|
        invariant 0 <= k <= |items|
        invariant forall j | 0 <= j < k :: Writable(items[j])
        invariant bytes + EncodeItems(setFloat64, CanonItems(items[k..])) == old(bytes) + EncodeItems(setFloat64, CanonItems(items))
      {
        ItemsStep(setFloat64, items, k, bytes);
        ok := Write(items[k]);
        if !ok { return; }
        k := k + 1;
      }
      ok := true;
    }

    method WriteObject(entries: seq<Entry>) returns (ok: bool)
      requires WellKeyed(Obj(entries))
      modifies this`bytes
      ensures ok <==> Writable(Obj(entries))
      ensures ok ==> bytes == old(bytes) + EncodeCbor(setFloat64, Obj(entries))
      decreases entries, 1
    {
      var sorted := Sort(entries);
      SortedReady(setFloat64, entries);
      ok := WriteHead(5, |sorted|);
      if ok { ok := WriteEntries(entries, sorted); }
    }

    method WriteEntries(ghost entries: seq<Entry>, sorted: seq<Entry>) returns (ok: bool)
      requires forall k | 0 <= k < |sorted| :: sorted[k] in entries && WellKeyed(sorted[k].value)
      modifies this`bytes
      ensures ok <==> forall k | 0 <= k < |sorted| :: EntryWritable(sorted[k])
      ensures ok ==> bytes == old(bytes) + EncodeEntries(setFloat64, CanonEntries(sorted))
      decreases entries, 0
    {
      var k := 0;
      assert sorted[0..] == sorted;
      while k < |sorted|
        invariant 0 <= k <= |sorted|
        invariant forall j | 0 <= j < k :: EntryWritable(sorted[j])
        invariant bytes + EncodeEntries(setFloat64, CanonEntries(sorted[k..])) == old(bytes) + EncodeEntries(setFloat64, CanonEntries(sorted))
      {
        EntriesStep(setFloat64, sorted, k, bytes);
        ok := WriteText(sorted[k].key);
        if !ok { return; }
        ok := Write(sorted[k].value);
        if !ok { return; }
        k := k + 1;
      }
      ok := true;
    }
  }

  class CborReader {
    const bytes: seq<Byte>
    var offset: nat

    ghost predicate Valid()
      reads this
    {
      offset <= |bytes|
    }

    ghost function Rest(): seq<Byte>
      reads this
      requires Valid()
    {
      bytes[offset..]
    }

    constructor (bytes: seq<Byte>)
      ensures Valid() && this.bytes == bytes && offset == 0
    {
      this.bytes, offset := bytes, 0;
    }

    method ReadByte() returns (r: Option<Byte>)
      requires Valid()
      modifies this
      ensures Valid() && old(offset) <= offset
      ensures if old(offset) == |bytes| then r == None
              else r == Some(old(Rest()[0])) && Rest() == old(Rest()[1..])
    {
      if offset + 1 > |bytes| { return None; }
      r := Some(bytes[offset]);
      offset := offset + 1;
    }

    method ReadAdditional(additional: nat) returns (r: Option<nat>)
      requires Valid() && additional < 0x20
      modifies this
      ensures Valid() && old(offset) <= offset
      ensures match ReadLength(additional, old(Rest()))
              case Length(n, rest) => r == Some(n) && Rest() == rest
              case NoLength => r == None
    {
      if additional < 24 { return Some(additional); }
      if additional == 31 { return None; }
      var width := if additional == 24 then 1 else if additional == 25 then 2 else if additional == 26 then 4 else if additional == 27 then 8 else 0;
      if width == 0 { return None; }
      ghost var from := Rest();
      var value, index := 0, 0;
      while index < width
        invariant 0 <= index <= width && index <= |from| && Valid() && old(offset) <= offset
        invariant Rest() == from[index..] && value == BigEndian(from[..index])
      {
        var next := ReadByte();
        if next.None? { return None; }
        assert from[..index + 1][..index] == from[..index];
        value := value * 0x100 + next.value;
        index := index + 1;
      }
      if value > MAX_SAFE_INTEGER { return None; }
      r := Some(value);
    }

    method ReadTextBytes(length: nat) returns (r: Option<Json>)
      requires Valid()
      modifies this
      ensures Valid() && old(offset) <= offset
      ensures Agrees(ReadText(length, old(Rest())), r, offset)
    {
      if offset + length > |bytes| { return None; }
      var text := Utf8.Decode(bytes[offset..offset + length]);
      assert Rest()[..length] == bytes[offset..offset + length];
      if text.None? { return None; }
      offset := offset + length;
      r := Some(Str(text.value));
    }

    /** A method read what the specification reads and stands where its rest begins. */
    ghost predicate Agrees(expected: Read, r: Option<Json>, at: nat)
      requires at <= |bytes|
    {
      match expected
      case Got(value, rest) => r == Some(value) && bytes[at..] == rest
      case Refused => r == None
    }

    method ReadFloat16() returns (r: Option<Json>)
      requires Valid()
      modifies this
      ensures Valid() && old(offset) <= offset
      ensures Agrees(ReadSimple(25, old(Rest())), r, offset)
    {
      var high := ReadByte();
      if high.None? { return None; }
      var low := ReadByte();
      if low.None? { return None; }
      var bits := high.value as int * 0x100 + low.value;
      var exponent, fraction := bits / 0x400 % 0x20, bits % 0x400;
      assert old(Rest())[..2] == [high.value, low.value] && old(Rest())[2..] == Rest();
      HalfBits(high.value, low.value);
      r := HalfNumber(bits >= 0x8000, exponent, fraction);
    }

    method HalfNumber(negative: bool, exponent: nat, fraction: nat) returns (r: Option<Json>)
      ensures var number := HalfValue(negative, exponent, fraction);
              r == if number.Some? then Some(Num(number.value)) else None
    {
      if exponent == 0 { return Some(Num(Signed(negative, Pow2(-14), fraction as real / 1024.0))); }
      if exponent == 0x1F { return None; }
      r := Some(Num(Signed(negative, Pow2(exponent - 15), 1.0 + fraction as real / 1024.0)));
    }

    method ReadSimpleValue(additional: nat) returns (r: Option<Json>)
      requires Valid()
      modifies this
      ensures Valid() && old(offset) <= offset
      ensures Agrees(ReadSimple(additional, old(Rest())), r, offset)
    {
      match additional
      case 20 => r := Some(Bool(false));
      case 21 => r := Some(Bool(true));
      case 22 => r := Some(Null);
      case 25 => r := ReadFloat16();
      case 26 =>
        if offset + 4 > |bytes| { return None; }
        assert Rest()[..4] == bytes[offset..offset + 4];
        var number := Single(bytes[offset..offset + 4]);
        if number.None? { return None; }
        offset := offset + 4;
        r := Some(Num(number.value));
      case 27 =>
        if offset + 8 > |bytes| { return None; }
        assert Rest()[..8] == bytes[offset..offset + 8];
        var number := Double(bytes[offset..offset + 8]);
        if number.None? { return None; }
        offset := offset + 8;
        r := Some(Num(number.value));
      case _ => r := None;
    }

    method ReadValue(depth: nat) returns (r: Option<Json>)
      requires Valid()
      modifies this
      ensures Valid() && old(offset) <= offset
      ensures Agrees(Cbor.ReadValue(old(Rest()), depth), r, offset)
      decreases |bytes| - offset, 0
    {
      if depth > MAX_DEPTH { return None; }
      var initial := ReadByte();
      if initial.None? { return None; }
      var major, additional := initial.value as int / 0x20, initial.value as int % 0x20;
      if major == 7 {
        r := ReadSimpleValue(additional);
        return;
      }
      var length := ReadAdditional(additional);
      if length.None? { return None; }
      match major
      case 0 => r := Some(Num(length.value as real));
      case 1 => r := Some(Num((-1 - length.value) as real));
      case 3 => r := ReadTextBytes(length.value);
      case 4 => r := ReadArray(length.value, depth);
      case 5 => r := ReadMap(length.value, depth);
      case _ => r := None;
    }

    method ReadArray(length: nat, depth: nat) returns (r: Option<Json>)
      requires Valid()
      modifies this
      ensures Valid() && old(offset) <= offset
      ensures if length > MAX_COLLECTION_LENGTH then r == None
              else match ReadItems(old(Rest()), length, depth + 1)
                   case GotMany(items, rest) => r == Some(Arr(items)) && Rest() == rest
                   case RefusedMany => r == None
      decreases |bytes| - offset, 1
    {
      if length > MAX_COLLECTION_LENGTH { return None; }
      hide Cbor.ReadValue, ReadItems, ReadEntries;
      ghost var all := ReadItems(Rest(), length, depth + 1);
      var value, index := [], 0;
      while index < length
        invariant 0 <= index <= length && Valid() && old(offset) <= offset
        invariant Prepend([], all) == Prepend(value, ReadItems(Rest(), length - index, depth + 1))
      {
        ItemStep(Rest(), length - index, depth + 1, value);
        var item := ReadValue(depth + 1);
        if item.None? { return None; }
        value := value + [item.value];
        index := index + 1;
      }
      NoneLeft(Rest(), depth + 1, []);
      assert all.GotMany? && [] + all.items == all.items && value + [] == value;
      r := Some(Arr(value));
    }

    method ReadMap(length: nat, depth: nat) returns (r: Option<Json>)
      requires Valid()
      modifies this
      ensures Valid() && old(offset) <= offset
      ensures if length > MAX_COLLECTION_LENGTH then r == None
              else match ReadEntries(old(Rest()), length, depth + 1, [])
                   case GotMany(entries, rest) => r == Some(Obj(entries)) && Rest() == rest
                   case RefusedMany => r == None
      decreases |bytes| - offset, 2
    {
      hide Cbor.ReadValue, ReadItems, ReadEntries;
      if length > MAX_COLLECTION_LENGTH { return None; }
      ghost var all := ReadEntries(Rest(), length, depth + 1, []);
      var value, index := [], 0;
      while index < length
        invariant 0 <= index <= length && Valid() && old(offset) <= offset
        invariant all == ReadEntries(Rest(), length - index, depth + 1, value)
      {
        EntryStep(Rest(), length - index, depth + 1, value);
        var entry := ReadEntry(depth, value);
        if entry.None? { return None; }
        value := value + [entry.value];
        index := index + 1;
      }
      NoneLeft(Rest(), depth + 1, value);
      r := Some(Obj(value));
    }

    method ReadEntry(depth: nat, soFar: seq<Entry>) returns (r: Option<Entry>)
      requires Valid()
      modifies this
      ensures Valid() && old(offset) <= offset
      ensures match OneEntry(old(Rest()), depth + 1, soFar)
              case GotMany(entry, rest) => r.Some? && entry == [r.value] && Rest() == rest
              case RefusedMany => r == None
      decreases |bytes| - offset, 1
    {
      var key := ReadValue(depth + 1);
      if key.None? || !key.value.Str? { return None; }
      if HasKey(soFar, key.value.s) { return None; }
      var entry := ReadValue(depth + 1);
      if entry.None? { return None; }
      r := Some(Entry(key.value.s, entry.value));
    }

    method Document() returns (r: Option<Json>)
      requires offset == 0
      modifies this
      ensures r == ReadDocument(bytes)
    {
      assert bytes[0..] == bytes;
      r := ReadValue(0);
      if r.Some? && offset != |bytes| { return None; }
    }
  }

  /** One round of the object loop. */
  function OneEntry(b: seq<Byte>, depth: nat, soFar: seq<Entry>): ReadMany<Entry>
  {
    var key := ReadValue(b, depth);
    if key.Refused? || !key.value.Str? || HasKey(soFar, key.value.s) then RefusedMany
    else
      var entry := ReadValue(key.rest, depth);
      if entry.Refused? then RefusedMany else GotMany([Entry(key.value.s, entry.value)], entry.rest)
  }

  lemma NoneLeft(b: seq<Byte>, depth: nat, soFar: seq<Entry>)
    ensures ReadEntries(b, 0, depth, soFar) == GotMany(soFar, b) && ReadItems(b, 0, depth) == GotMany([], b)
  {
  }

  lemma ItemStep(b: seq<Byte>, n: nat, depth: nat, value: seq<Json>)
    requires n > 0
    ensures Prepend(value, ReadItems(b, n, depth))
            == match ReadValue(b, depth)
               case Got(item, rest) => Prepend(value + [item], ReadItems(rest, n - 1, depth))
               case Refused => RefusedMany
  {
    var first := ReadValue(b, depth);
    if first.Got? {
      var others := ReadItems(first.rest, n - 1, depth);
      assert others.GotMany? ==> value + ([first.value] + others.items) == value + [first.value] + others.items;
    }
  }

  lemma EntryStep(b: seq<Byte>, n: nat, depth: nat, soFar: seq<Entry>)
    requires n > 0
    ensures ReadEntries(b, n, depth, soFar)
            == match OneEntry(b, depth, soFar)
               case GotMany(entry, rest) => ReadEntries(rest, n - 1, depth, soFar + entry)
               case RefusedMany => RefusedMany
  {
  }

  function Prepend(value: seq<Json>, many: ReadMany<Json>): ReadMany<Json> {
    if many.GotMany? then GotMany(value + many.items, many.rest) else RefusedMany
  }

  lemma HalfBits(high: Byte, low: Byte)
    ensures var bits := high as int * 0x100 + low;
            Half([high, low]) == HalfValue(bits >= 0x8000, bits / 0x400 % 0x20, bits % 0x400)
  {
    var bits := high as int * 0x100 + low;
    assert bits / 0x400 % 0x20 == high as int % 0x80 / 4 && bits % 0x400 == high as int % 4 * 0x100 + low && (bits >= 0x8000 <==> high >= 0x80);
  }

  /** What one object writes the other reads back, for exactly the transportable values. */
  method Transport(setFloat64: FloatBytes, v: Json) returns (r: Option<Json>)
    requires Faithful(setFloat64) && WellKeyed(v) && Encodable(v)
    ensures r == Some(Canon(v)) <==> Transportable(v, 0)
  {
    EncodableIsWritable(v);
    var writer := new CborWriter(setFloat64);
    var ok := writer.Write(v);
    assert writer.bytes == EncodeCbor(setFloat64, v);
    var reader := new CborReader(writer.bytes);
    r := reader.Document();
    RoundTrip(setFloat64, v);
  }
}
