/** The data items of section 3 of RFC 8949 that are JSON values, and that the reader accepts exactly these:
    every length form, and no byte strings, tags, indefinite lengths, duplicate keys or other simple values. */
module CborGrammar {
  import opened Utf8
  import opened Cbor

  /** The argument of a head: in the initial byte, or in the bytes that follow it. */
  datatype Argument = Immediate(n: nat) | Following(bytes: seq<Byte>)

  datatype Item =
    | Unsigned(arg: Argument)
    | Negative(arg: Argument)
    | TextString(arg: Argument, bytes: seq<Byte>)
    | Array(arg: Argument, items: seq<Item>)
    | Map(arg: Argument, pairs: seq<Pair>)
    | False | True | NullItem
    | Float(bytes: seq<Byte>)
  datatype Pair = Pair(arg: Argument, key: seq<Byte>, value: Item)

  // ---- the bytes of an item

  function ArgumentOf(arg: Argument): nat {
    match arg
    case Immediate(n) => n
    case Following(bytes) => BigEndian(bytes)
  }

  predicate IsArgument(arg: Argument) {
    match arg
    case Immediate(n) => n < 24
    case Following(bytes) => |bytes| in {1, 2, 4, 8} && BigEndian(bytes) <= 9_007_199_254_740_991
  }

  function InitialByte(major: nat, arg: Argument): (b: Byte)
    requires major < 8 && IsArgument(arg)
  {
    0x20 * major + match arg
                   case Immediate(n) => n
                   case Following(bytes) => if |bytes| == 1 then 24 else if |bytes| == 2 then 25 else if |bytes| == 4 then 26 else 27
  }

  function HeadOf(major: nat, arg: Argument): seq<Byte>
    requires major < 8 && IsArgument(arg)
  {
    [InitialByte(major, arg)] + if arg.Following? then arg.bytes else []
  }

  predicate IsText(bytes: seq<Byte>) {
    Utf8.Decode(bytes).Some?
  }

  function FloatOf(bytes: seq<Byte>): Option<real> {
    if |bytes| == 2 then Half(bytes) else if |bytes| == 4 then Single(bytes) else if |bytes| == 8 then Double(bytes) else None
  }

  function KeyOf(pair: Pair): Text {
    if IsText(pair.key) then Utf8.Decode(pair.key).value else []
  }

  predicate IsKey(pair: Pair) {
    IsArgument(pair.arg) && ArgumentOf(pair.arg) == |pair.key| && IsText(pair.key)
  }

  /** An item at this nesting depth: lengths that count what follows, at most 128 levels, at most a million
      elements, valid text, distinct text keys, finite numbers. */
  ghost predicate IsItem(item: Item, depth: nat)
    decreases item
  {
    depth <= 128 &&
    match item
    case Unsigned(arg) => IsArgument(arg)
    case Negative(arg) => IsArgument(arg)
    case TextString(arg, bytes) => IsArgument(arg) && ArgumentOf(arg) == |bytes| && IsText(bytes)
    case Array(arg, items) =>
      IsArgument(arg) && ArgumentOf(arg) == |items| <= 1_000_000 && forall k | 0 <= k < |items| :: IsItem(items[k], depth + 1)
    case Map(arg, pairs) =>
      && IsArgument(arg) && ArgumentOf(arg) == |pairs| <= 1_000_000
      && (pairs != [] ==> depth < 128) && (forall k | 0 <= k < |pairs| :: IsKey(pairs[k]) && IsItem(pairs[k].value, depth + 1))
      && (forall j, k | 0 <= j < k < |pairs| :: KeyOf(pairs[j]) != KeyOf(pairs[k]))
    case Float(bytes) => FloatOf(bytes).Some?
    case _ => true
  }

  function BytesOf(item: Item): seq<Byte>
    decreases item
  {
    match item
    case Unsigned(arg) => if IsArgument(arg) then HeadOf(0, arg) else []
    case Negative(arg) => if IsArgument(arg) then HeadOf(1, arg) else []
    case TextString(arg, bytes) => if IsArgument(arg) then HeadOf(3, arg) + bytes else []
    case Array(arg, items) => if IsArgument(arg) then HeadOf(4, arg) + BytesOfAll(items) else []
    case Map(arg, pairs) => if IsArgument(arg) then HeadOf(5, arg) + BytesOfPairs(pairs) else []
    case False => [0xF4]
    case True => [0xF5]
    case NullItem => [0xF6]
    case Float(bytes) => [if |bytes| == 2 then 0xF9 else if |bytes| == 4 then 0xFA else 0xFB] + bytes
  }

  function BytesOfAll(items: seq<Item>): seq<Byte>
    decreases items
  {
    if items == [] then [] else BytesOf(items[0]) + BytesOfAll(items[1..])
  }

  function BytesOfKey(pair: Pair): seq<Byte> {
    if IsArgument(pair.arg) then HeadOf(3, pair.arg) + pair.key else []
  }

  function BytesOfPairs(pairs: seq<Pair>): seq<Byte>
    decreases pairs
  {
    if pairs == [] then [] else BytesOfKey(pairs[0]) + BytesOf(pairs[0].value) + BytesOfPairs(pairs[1..])
  }

  function ValueOf(item: Item): Json
    decreases item
  {
    match item
    case Unsigned(arg) => Num(ArgumentOf(arg) as real)
    case Negative(arg) => Num((-1 - ArgumentOf(arg)) as real)
    case TextString(_, bytes) => if IsText(bytes) then Str(Utf8.Decode(bytes).value) else Null
    case Array(_, items) => Arr(ValuesOf(items))
    case Map(_, pairs) => Obj(EntriesOf(pairs))
    case False => Bool(false)
    case True => Bool(true)
    case NullItem => Null
    case Float(bytes) => if FloatOf(bytes).Some? then Num(FloatOf(bytes).value) else Null
  }

  function ValuesOf(items: seq<Item>): seq<Json>
    decreases items
  {
    if items == [] then [] else [ValueOf(items[0])] + ValuesOf(items[1..])
  }

  function EntriesOf(pairs: seq<Pair>): seq<Entry>
    decreases pairs
  {
    if pairs == [] then [] else [Entry(KeyOf(pairs[0]), ValueOf(pairs[0].value))] + EntriesOf(pairs[1..])
  }

  // ---- every item is read

  lemma ReadArgument(major: nat, arg: Argument, rest: seq<Byte>)
    requires major < 7 && IsArgument(arg)
    ensures var b := HeadOf(major, arg) + rest;
            b != [] && b[0] / 0x20 == major && ReadLength(b[0] % 0x20, b[1..]) == Length(ArgumentOf(arg), rest)
  {
    var b := HeadOf(major, arg) + rest;
    if arg.Following? {
      assert b[1..] == arg.bytes + rest;
      assert b[1..][..|arg.bytes|] == arg.bytes && b[1..][|arg.bytes|..] == rest;
    } else {
      assert b[1..] == rest;
    }
  }

  /** What the reader does after a head. */
  lemma ReadByMajor(b: seq<Byte>, depth: nat, n: nat, tail: seq<Byte>)
    requires depth <= 128 && b != [] && b[0] / 0x20 < 7 && ReadLength(b[0] % 0x20, b[1..]) == Length(n, tail)
    ensures var major, r := b[0] / 0x20, ReadValue(b, depth);
            && (major == 0 ==> r == Got(Num(n as real), tail)) && (major == 1 ==> r == Got(Num((-1 - n) as real), tail))
            && (major == 3 ==> r == ReadText(n, tail))
            && (major == 4 ==> r == if n > 1_000_000 then Refused else
                                      var many := ReadItems(tail, n, depth + 1);
                                      if many.GotMany? then Got(Arr(many.items), many.rest) else Refused)
            && (major == 5 ==> r == if n > 1_000_000 then Refused else
                                      var many := ReadEntries(tail, n, depth + 1, []);
                                      if many.GotMany? then Got(Obj(many.items), many.rest) else Refused)
            && (major in {2, 6} ==> r.Refused?)
  {
  }

  lemma TextIsRead(arg: Argument, bytes: seq<Byte>, depth: nat, rest: seq<Byte>)
    requires depth <= 128 && IsArgument(arg) && ArgumentOf(arg) == |bytes| && IsText(bytes)
    ensures ReadValue(HeadOf(3, arg) + bytes + rest, depth) == Got(Str(Utf8.Decode(bytes).value), rest)
  {
    hide HeadOf, ReadLength, ReadValue;
    var b, tail := HeadOf(3, arg) + bytes + rest, bytes + rest;
    ReadArgument(3, arg, tail);
    assert b == HeadOf(3, arg) + tail && tail[..|bytes|] == bytes && tail[|bytes|..] == rest;
    ReadByMajor(b, depth, |bytes|, tail);
  }

  lemma FloatIsRead(bytes: seq<Byte>, depth: nat, rest: seq<Byte>)
    requires depth <= 128 && FloatOf(bytes).Some?
    ensures ReadValue(BytesOf(Float(bytes)) + rest, depth) == Got(Num(FloatOf(bytes).value), rest)
  {
    hide Half, Single, Double;
    var b := BytesOf(Float(bytes)) + rest;
    assert b[1..] == bytes + rest && (bytes + rest)[..|bytes|] == bytes && (bytes + rest)[|bytes|..] == rest;
  }

  /** Whatever follows, an item is read as its value. */
  lemma {:induction false} ItemIsRead(item: Item, depth: nat, rest: seq<Byte>)
    requires IsItem(item, depth)
    ensures ReadValue(BytesOf(item) + rest, depth) == Got(ValueOf(item), rest)
    decreases item, 0
  {
    hide HeadOf, ReadLength, ReadValue, FloatOf;
    var b := BytesOf(item) + rest;
    match item
    case Unsigned(arg) => ReadArgument(0, arg, rest); ReadByMajor(b, depth, ArgumentOf(arg), rest);
    case Negative(arg) => ReadArgument(1, arg, rest); ReadByMajor(b, depth, ArgumentOf(arg), rest);
    case TextString(arg, bytes) => TextIsRead(arg, bytes, depth, rest);
    case Array(arg, items) =>
      var tail := BytesOfAll(items) + rest;
      ReadArgument(4, arg, tail);
      assert b == HeadOf(4, arg) + tail;
      ReadByMajor(b, depth, |items|, tail);
      ItemsAreRead(items, depth + 1, rest);
    case Map(arg, pairs) =>
      var tail := BytesOfPairs(pairs) + rest;
      ReadArgument(5, arg, tail);
      assert b == HeadOf(5, arg) + tail;
      ReadByMajor(b, depth, |pairs|, tail);
      PairsAreRead(pairs, depth + 1, [], rest);
      assert [] + EntriesOf(pairs) == EntriesOf(pairs);
    case Float(bytes) => FloatIsRead(bytes, depth, rest);
    case _ => SimpleIsRead(item, depth, rest);
  }

  lemma SimpleIsRead(item: Item, depth: nat, rest: seq<Byte>)
    requires depth <= 128 && (item.False? || item.True? || item.NullItem?)
    ensures ReadValue(BytesOf(item) + rest, depth) == Got(ValueOf(item), rest)
  {
    assert (BytesOf(item) + rest)[1..] == rest;
  }

  lemma {:induction false} ItemsAreRead(items: seq<Item>, depth: nat, rest: seq<Byte>)
    requires forall k | 0 <= k < |items| :: IsItem(items[k], depth)
    ensures ReadItems(BytesOfAll(items) + rest, |items|, depth) == GotMany(ValuesOf(items), rest)
    decreases items
  {
    hide BytesOf, ReadValue;
    if items == [] {
      assert BytesOfAll(items) + rest == rest;
    } else {
      var b, others := BytesOfAll(items) + rest, BytesOfAll(items[1..]) + rest;
      assert b == BytesOf(items[0]) + others;
      ItemIsRead(items[0], depth, others);
      ItemsAreRead(items[1..], depth, rest);
    }
  }

  lemma {:induction false} PairsAreRead(pairs: seq<Pair>, depth: nat, soFar: seq<Entry>, rest: seq<Byte>)
    requires (pairs != [] ==> depth <= 128) && forall k | 0 <= k < |pairs| :: IsKey(pairs[k]) && IsItem(pairs[k].value, depth)
    requires forall j, k | 0 <= j < k < |pairs| :: KeyOf(pairs[j]) != KeyOf(pairs[k])
    requires forall k | 0 <= k < |pairs| :: !HasKey(soFar, KeyOf(pairs[k]))
    ensures ReadEntries(BytesOfPairs(pairs) + rest, |pairs|, depth, soFar) == GotMany(soFar + EntriesOf(pairs), rest)
    decreases pairs
  {
    hide BytesOf, BytesOfKey, ReadValue, KeyOf, IsKey, IsItem, HasKey;
    if pairs == [] {
      assert BytesOfPairs(pairs) + rest == rest && soFar + EntriesOf(pairs) == soFar;
    } else {
      var others := BytesOfPairs(pairs[1..]) + rest;
      var b, later := BytesOfPairs(pairs) + rest, BytesOf(pairs[0].value) + others;
      var entry := Entry(KeyOf(pairs[0]), ValueOf(pairs[0].value));
      assert b == BytesOfKey(pairs[0]) + later;
      assert IsKey(pairs[0]) && IsItem(pairs[0].value, depth);
      KeyIsRead(pairs[0], depth, later);
      ItemIsRead(pairs[0].value, depth, others);
      forall k | 0 <= k < |pairs| - 1 ensures !HasKey(soFar + [entry], KeyOf(pairs[1..][k])) {
        assert pairs[1..][k] == pairs[k + 1] && KeyOf(pairs[0]) != KeyOf(pairs[k + 1]);
        NotAmongMore(soFar, entry, KeyOf(pairs[k + 1]));
      }
      PairsAreRead(pairs[1..], depth, soFar + [entry], rest);
      ReadOneEntry(b, |pairs|, depth, soFar, entry, later, others);
      assert soFar + [entry] + EntriesOf(pairs[1..]) == soFar + EntriesOf(pairs);
    }
  }

  lemma NotAmongMore(soFar: seq<Entry>, one: Entry, key: Text)
    requires !HasKey(soFar, key) && one.key != key
    ensures !HasKey(soFar + [one], key)
  {
  }

  lemma ReadOneEntry(b: seq<Byte>, n: nat, depth: nat, soFar: seq<Entry>, entry: Entry, later: seq<Byte>, others: seq<Byte>)
    requires n > 0 && ReadValue(b, depth) == Got(Str(entry.key), later) && ReadValue(later, depth) == Got(entry.value, others)
    requires !HasKey(soFar, entry.key)
    ensures ReadEntries(b, n, depth, soFar) == ReadEntries(others, n - 1, depth, soFar + [entry])
  {
    hide ReadValue, HasKey;
  }

  lemma KeyIsRead(pair: Pair, depth: nat, rest: seq<Byte>)
    requires IsKey(pair) && depth <= 128
    ensures ReadValue(BytesOfKey(pair) + rest, depth) == Got(Str(KeyOf(pair)), rest)
  {
    TextIsRead(pair.arg, pair.key, depth, rest);
  }

  // ---- nothing else is read

  lemma ArgumentRead(b: seq<Byte>) returns (arg: Argument)
    requires b != [] && b[0] / 0x20 < 7 && ReadLength(b[0] % 0x20, b[1..]).Length?
    ensures IsArgument(arg)
    ensures var length := ReadLength(b[0] % 0x20, b[1..]);
            ArgumentOf(arg) == length.n && b == HeadOf(b[0] / 0x20, arg) + length.rest
  {
    var additional := b[0] % 0x20;
    if additional < 24 {
      arg := Immediate(additional);
      assert b == [b[0]] + b[1..];
    } else {
      var width := if additional == 24 then 1 else if additional == 25 then 2 else if additional == 26 then 4 else 8;
      arg := Following(b[1..][..width]);
      assert b == [b[0]] + (b[1..][..width] + b[1..][width..]);
    }
  }

  /** Whatever is read is an item, and the rest. */
  lemma {:induction false} ReadIsItem(b: seq<Byte>, depth: nat) returns (item: Item)
    requires ReadValue(b, depth).Got?
    ensures var r := ReadValue(b, depth); IsItem(item, depth) && b == BytesOf(item) + r.rest && ValueOf(item) == r.value
    decreases |b|, 0
  {
    hide *;
    ReadStarts(b, depth);
    var major, r := b[0] / 0x20, ReadValue(b, depth);
    if major == 7 {
      item := SimpleIsItem(b, depth);
    } else {
      var length := ReadLength(b[0] % 0x20, b[1..]);
      var arg := ArgumentRead(b);
      ReadByMajor(b, depth, length.n, length.rest);
      if major == 0 || major == 1 {
        item := NumberIsItem(major, arg, depth);
      } else if major == 3 {
        item := TextIsItem(arg, length.n, length.rest, depth);
      } else if major == 4 {
        var items := ReadAreItems(length.rest, length.n, depth + 1);
        item := Array(arg, items);
        ArrayIsItem(arg, items, depth);
        assert b == HeadOf(4, arg) + BytesOfAll(items) + r.rest;
      } else {
        var pairs := ReadArePairs(length.rest, length.n, depth + 1, []);
        item := Map(arg, pairs);
        MapIsItem(arg, pairs, depth);
        assert [] + EntriesOf(pairs) == EntriesOf(pairs);
        assert b == HeadOf(5, arg) + BytesOfPairs(pairs) + r.rest;
      }
    }
  }

  lemma NumberIsItem(major: nat, arg: Argument, depth: nat) returns (item: Item)
    requires major < 2 && depth <= 128 && IsArgument(arg)
    ensures IsItem(item, depth) && BytesOf(item) == HeadOf(major, arg)
    ensures ValueOf(item) == Num((if major == 0 then ArgumentOf(arg) else -1 - ArgumentOf(arg)) as real)
  {
    item := if major == 0 then Unsigned(arg) else Negative(arg);
  }

  lemma TextIsItem(arg: Argument, n: nat, tail: seq<Byte>, depth: nat) returns (item: Item)
    requires depth <= 128 && IsArgument(arg) && ArgumentOf(arg) == n && ReadText(n, tail).Got?
    ensures IsItem(item, depth) && HeadOf(3, arg) + tail == BytesOf(item) + ReadText(n, tail).rest
    ensures ValueOf(item) == ReadText(n, tail).value
  {
    item := TextString(arg, tail[..n]);
    assert tail == tail[..n] + tail[n..];
  }

  lemma ArrayIsItem(arg: Argument, items: seq<Item>, depth: nat)
    requires depth <= 128 && IsArgument(arg) && ArgumentOf(arg) == |items| <= 1_000_000
    requires forall k | 0 <= k < |items| :: IsItem(items[k], depth + 1)
    ensures IsItem(Array(arg, items), depth) && BytesOf(Array(arg, items)) == HeadOf(4, arg) + BytesOfAll(items)
    ensures ValueOf(Array(arg, items)) == Arr(ValuesOf(items))
  {
  }

  lemma MapIsItem(arg: Argument, pairs: seq<Pair>, depth: nat)
    requires depth <= 128 && IsArgument(arg) && ArgumentOf(arg) == |pairs| <= 1_000_000 && (pairs != [] ==> depth < 128)
    requires ArePairs(pairs, depth + 1, [])
    ensures IsItem(Map(arg, pairs), depth) && BytesOf(Map(arg, pairs)) == HeadOf(5, arg) + BytesOfPairs(pairs)
    ensures ValueOf(Map(arg, pairs)) == Obj(EntriesOf(pairs))
  {
  }

  lemma ReadStarts(b: seq<Byte>, depth: nat)
    requires ReadValue(b, depth).Got?
    ensures depth <= 128 && b != []
    ensures b[0] / 0x20 < 7 ==>
              ReadLength(b[0] % 0x20, b[1..]).Length? && |ReadLength(b[0] % 0x20, b[1..]).rest| < |b|
  {
  }

  lemma SimpleIsItem(b: seq<Byte>, depth: nat) returns (item: Item)
    requires b != [] && b[0] / 0x20 == 7 && ReadValue(b, depth).Got?
    ensures var r := ReadValue(b, depth); IsItem(item, depth) && b == BytesOf(item) + r.rest && ValueOf(item) == r.value
  {
    var additional := b[0] % 0x20;
    assert b == [b[0]] + b[1..];
    if additional == 20 {
      item := False;
    } else if additional == 21 {
      item := True;
    } else if additional == 22 {
      item := NullItem;
    } else {
      var width := if additional == 25 then 2 else if additional == 26 then 4 else 8;
      item := Float(b[1..][..width]);
      assert b == [b[0]] + (b[1..][..width] + b[1..][width..]);
    }
  }

  lemma {:induction false} ReadAreItems(b: seq<Byte>, n: nat, depth: nat) returns (items: seq<Item>)
    requires ReadItems(b, n, depth).GotMany?
    ensures var r := ReadItems(b, n, depth);
            && |items| == n && (forall k | 0 <= k < n :: IsItem(items[k], depth))
            && b == BytesOfAll(items) + r.rest && ValuesOf(items) == r.items
    decreases |b|, n + 1
  {
    if n == 0 {
      items := [];
    } else {
      var first := ReadValue(b, depth);
      var item := ReadIsItem(b, depth);
      var others := ReadAreItems(first.rest, n - 1, depth);
      items := [item] + others;
      assert items[1..] == others;
    }
  }

  lemma {:induction false} ReadArePairs(b: seq<Byte>, n: nat, depth: nat, soFar: seq<Entry>) returns (pairs: seq<Pair>)
    requires ReadEntries(b, n, depth, soFar).GotMany?
    ensures var r := ReadEntries(b, n, depth, soFar);
            && |pairs| == n && (n > 0 ==> depth <= 128) && ArePairs(pairs, depth, soFar)
            && b == BytesOfPairs(pairs) + r.rest && soFar + EntriesOf(pairs) == r.items
    decreases |b|, n + 1
  {
    hide *;
    if n == 0 {
      pairs := [];
      NoPairs(b, depth, soFar);
    } else {
      EntryRead(b, n, depth, soFar);
      var key := ReadValue(b, depth);
      var keyItem := ReadIsItem(b, depth);
      var entry := ReadValue(key.rest, depth);
      var valueItem := ReadIsItem(key.rest, depth);
      TextItem(keyItem, depth, key.value.s, valueItem);
      var pair, one := Pair(keyItem.arg, keyItem.bytes, valueItem), Entry(key.value.s, entry.value);
      var others := ReadArePairs(entry.rest, n - 1, depth, soFar + [one]);
      pairs := [pair] + others;
      PairFirst(pair, others, depth, soFar);
      assert soFar + [one] + EntriesOf(others) == soFar + EntriesOf(pairs);
      assert b == BytesOfPairs(pairs) + ReadEntries(b, n, depth, soFar).rest;
    }
  }

  ghost predicate ArePairs(pairs: seq<Pair>, depth: nat, soFar: seq<Entry>) {
    && (forall k | 0 <= k < |pairs| :: IsKey(pairs[k]) && IsItem(pairs[k].value, depth) && !HasKey(soFar, KeyOf(pairs[k])))
    && (forall j, k | 0 <= j < k < |pairs| :: KeyOf(pairs[j]) != KeyOf(pairs[k]))
  }

  lemma NoPairs(b: seq<Byte>, depth: nat, soFar: seq<Entry>)
    ensures ReadEntries(b, 0, depth, soFar) == GotMany(soFar, b)
    ensures ArePairs([], depth, soFar) && BytesOfPairs([]) == [] && EntriesOf([]) == [] && soFar + EntriesOf([]) == soFar
  {
    assert soFar + [] == soFar;
  }

  lemma PairFirst(pair: Pair, others: seq<Pair>, depth: nat, soFar: seq<Entry>)
    requires IsKey(pair) && IsItem(pair.value, depth) && !HasKey(soFar, KeyOf(pair))
    requires ArePairs(others, depth, soFar + [Entry(KeyOf(pair), ValueOf(pair.value))])
    ensures ArePairs([pair] + others, depth, soFar)
    ensures BytesOfPairs([pair] + others) == BytesOfKey(pair) + BytesOf(pair.value) + BytesOfPairs(others)
    ensures EntriesOf([pair] + others) == [Entry(KeyOf(pair), ValueOf(pair.value))] + EntriesOf(others)
  {
    hide IsKey, IsItem, HasKey, KeyOf, ValueOf;
    forall k | 0 <= k < |others| ensures KeyOf(pair) != KeyOf(others[k]) && !HasKey(soFar, KeyOf(others[k])) {
      NotAmong(soFar, Entry(KeyOf(pair), ValueOf(pair.value)), KeyOf(others[k]));
    }
    assert ([pair] + others)[1..] == others;
  }

  lemma TextItem(item: Item, depth: nat, s: Text, value: Item)
    requires IsItem(item, depth) && ValueOf(item) == Str(s)
    ensures item.TextString? && var pair := Pair(item.arg, item.bytes, value); IsKey(pair) && KeyOf(pair) == s && BytesOfKey(pair) == BytesOf(item)
    ensures depth <= 128
  {
  }

  lemma EntryRead(b: seq<Byte>, n: nat, depth: nat, soFar: seq<Entry>)
    requires n > 0 && ReadEntries(b, n, depth, soFar).GotMany?
    ensures var key := ReadValue(b, depth);
            && key.Got? && key.value.Str? && !HasKey(soFar, key.value.s) && |key.rest| < |b|
            && var entry := ReadValue(key.rest, depth);
               && entry.Got? && |entry.rest| < |b|
               && ReadEntries(b, n, depth, soFar) == ReadEntries(entry.rest, n - 1, depth, soFar + [Entry(key.value.s, entry.value)])
  {
    hide ReadValue;
  }

  lemma NotAmong(soFar: seq<Entry>, one: Entry, key: Text)
    requires !HasKey(soFar + [one], key)
    ensures one.key != key && !HasKey(soFar, key)
  {
    assert (soFar + [one])[|soFar|] == one;
    assert forall k | 0 <= k < |soFar| :: (soFar + [one])[k] == soFar[k];
  }

  /** The reader accepts exactly the items, and gives exactly their values. */
  lemma ReadsExactlyItems(b: seq<Byte>, depth: nat, v: Json, rest: seq<Byte>)
    ensures ReadValue(b, depth) == Got(v, rest) <==> exists item :: IsItem(item, depth) && b == BytesOf(item) + rest && ValueOf(item) == v
  {
    if ReadValue(b, depth) == Got(v, rest) {
      var item := ReadIsItem(b, depth);
    }
    if item :| IsItem(item, depth) && b == BytesOf(item) + rest && ValueOf(item) == v {
      ItemIsRead(item, depth, rest);
    }
  }

  /** A document is one item and nothing after it. */
  lemma DocumentsAreItems(b: seq<Byte>, v: Json)
    ensures ReadDocument(b) == Some(v) <==> exists item :: IsItem(item, 0) && b == BytesOf(item) && ValueOf(item) == v
  {
    ReadsExactlyItems(b, 0, v, []);
    assert forall item :: BytesOf(item) + [] == BytesOf(item);
  }
}
