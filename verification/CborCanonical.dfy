/** The writer sorts object keys, so what it emits depends on the value alone. Exactly which values
    survive the codec, and exactly when two values share an encoding. */
module CborCanonical {
  import opened Utf8
  import opened Cbor
  import opened CborRoundTrip

  // ---- key order

  /** JavaScript's default order on strings compares UTF-16 units. */
  predicate Less(a: Text, b: Text) {
    b != [] && (a == [] || a[0] < b[0] || (a[0] == b[0] && Less(a[1..], b[1..])))
  }

  function Insert(e: Entry, sorted: seq<Entry>): seq<Entry> {
    if sorted != [] && Less(sorted[0].key, e.key) then [sorted[0]] + Insert(e, sorted[1..]) else [e] + sorted
  }

  function Sort(entries: seq<Entry>): seq<Entry> {
    if entries == [] then [] else Insert(entries[0], Sort(entries[1..]))
  }

  predicate DistinctKeys(entries: seq<Entry>) {
    forall j, k | 0 <= j < k < |entries| :: entries[j].key != entries[k].key
  }

  predicate Ascending(entries: seq<Entry>) {
    forall j, k | 0 <= j < k < |entries| :: Less(entries[j].key, entries[k].key)
  }

  /** The smaller key is a proper prefix, or smaller at the first unit that differs. */
  lemma {:induction false} LessAtTheFirstDifference(a: Text, b: Text)
    ensures Less(a, b) <==> || (|a| < |b| && a == b[..|a|])
                            || exists k :: 0 <= k < |a| && k < |b| && a[..k] == b[..k] && a[k] < b[k]
  {
    if a != [] && b != [] {
      var s, t := a[1..], b[1..];
      LessAtTheFirstDifference(s, t);
      assert a == [a[0]] + s && b == [b[0]] + t;
      if Less(a, b) {
        if a[0] < b[0] {
          assert a[..0] == b[..0];
        } else if |s| < |t| && s == t[..|s|] {
          assert b[..|a|] == [b[0]] + t[..|s|];
        } else {
          var k :| 0 <= k < |s| && k < |t| && s[..k] == t[..k] && s[k] < t[k];
          assert a[..k + 1] == [a[0]] + s[..k] && b[..k + 1] == [b[0]] + t[..k] && a[k + 1] < b[k + 1];
        }
      }
      if |a| < |b| && a == b[..|a|] {
        assert a[0] == b[0] && t[..|s|] == b[..|a|][1..];
      }
      if k :| 0 <= k < |a| && k < |b| && a[..k] == b[..k] && a[k] < b[k] {
        if k > 0 {
          assert a[..k][0] == a[0] && b[..k][0] == b[0] && s[..k - 1] == a[..k][1..] && t[..k - 1] == b[..k][1..];
          assert s[k - 1] < t[k - 1];
        }
      }
    }
  }

  lemma {:induction false} LessIsTotal(a: Text, b: Text)
    ensures a == b || Less(a, b) || Less(b, a)
    ensures !(Less(a, b) && Less(b, a)) && !Less(a, a)
  {
    if a != [] {
      LessIsTotal(a[1..], a[1..]);
      if b != [] && a[0] == b[0] {
        LessIsTotal(a[1..], b[1..]);
        assert a == [a[0]] + a[1..] && b == [b[0]] + b[1..];
      }
    }
  }

  lemma {:induction false} LessIsTransitive(a: Text, b: Text, c: Text)
    requires Less(a, b) && Less(b, c)
    ensures Less(a, c)
  {
    if a != [] && a[0] == b[0] && b[0] == c[0] { LessIsTransitive(a[1..], b[1..], c[1..]); }
  }

  lemma {:induction false} InsertSorts(e: Entry, sorted: seq<Entry>)
    requires Ascending(sorted) && forall k | 0 <= k < |sorted| :: sorted[k].key != e.key
    ensures Ascending(Insert(e, sorted)) && |Insert(e, sorted)| == |sorted| + 1
    ensures forall x :: x in Insert(e, sorted) <==> x == e || x in sorted
  {
    if sorted != [] && Less(sorted[0].key, e.key) {
      InsertSorts(e, sorted[1..]);
      var rest := Insert(e, sorted[1..]);
      forall k | 0 <= k < |rest| ensures Less(sorted[0].key, rest[k].key) {
        assert rest[k] in rest;
        if rest[k] != e {
          var m :| 0 <= m < |sorted| - 1 && sorted[1..][m] == rest[k];
          assert Less(sorted[0].key, sorted[m + 1].key);
        }
      }
    } else if sorted != [] {
      LessIsTotal(sorted[0].key, e.key);
      forall k | 0 <= k < |sorted| ensures Less(e.key, sorted[k].key) {
        if k > 0 { LessIsTransitive(e.key, sorted[0].key, sorted[k].key); }
      }
    }
  }

  lemma {:induction false} SortSorts(entries: seq<Entry>)
    requires DistinctKeys(entries)
    ensures Ascending(Sort(entries)) && |Sort(entries)| == |entries|
    ensures forall x :: x in Sort(entries) <==> x in entries
  {
    if entries != [] {
      var rest := Sort(entries[1..]);
      SortSorts(entries[1..]);
      forall k | 0 <= k < |rest| ensures rest[k].key != entries[0].key {
        assert rest[k] in entries[1..];
      }
      InsertSorts(entries[0], rest);
      assert entries == [entries[0]] + entries[1..];
    }
  }

  lemma AscendingIsDistinct(sorted: seq<Entry>)
    requires Ascending(sorted)
    ensures DistinctKeys(sorted)
  {
    forall j, k | 0 <= j < k < |sorted| ensures sorted[j].key != sorted[k].key { LessIsTotal(sorted[j].key, sorted[k].key); }
  }

  lemma SortKeepsAll(entries: seq<Entry>, p: Entry -> bool)
    requires DistinctKeys(entries)
    ensures (forall k | 0 <= k < |Sort(entries)| :: p(Sort(entries)[k])) <==> forall k | 0 <= k < |entries| :: p(entries[k])
  {
    SortSorts(entries);
    if forall k | 0 <= k < |Sort(entries)| :: p(Sort(entries)[k]) {
      forall k | 0 <= k < |entries| ensures p(entries[k]) { assert entries[k] in Sort(entries); }
    }
    if forall k | 0 <= k < |entries| :: p(entries[k]) {
      forall k | 0 <= k < |Sort(entries)| ensures p(Sort(entries)[k]) { assert Sort(entries)[k] in entries; }
    }
  }

  /** The first element of an ascending list is none of the others. */
  lemma RestOfAscending(a: seq<Entry>, x: Entry)
    requires Ascending(a) && a != []
    ensures x in a[1..] <==> x in a && x != a[0]
  {
    assert a == [a[0]] + a[1..];
    if x in a[1..] {
      var m :| 1 <= m < |a| && a[m] == x;
      assert Less(a[0].key, a[m].key);
      LessIsTotal(a[0].key, a[0].key);
    }
  }

  /** An ascending list is determined by its elements. */
  lemma {:induction false} AscendingIsUnique(a: seq<Entry>, b: seq<Entry>)
    requires Ascending(a) && Ascending(b) && forall x :: x in a <==> x in b
    ensures a == b
  {
    assert (a != [] ==> a[0] in b) && (b != [] ==> b[0] in a);
    if a != [] && b != [] {
      var j :| 0 <= j < |b| && b[j] == a[0];
      var k :| 0 <= k < |a| && a[k] == b[0];
      LessIsTotal(a[0].key, b[0].key);
      assert a[0] == b[0];
      forall x ensures x in a[1..] <==> x in b[1..] {
        RestOfAscending(a, x);
        RestOfAscending(b, x);
      }
      AscendingIsUnique(a[1..], b[1..]);
      assert a == [a[0]] + a[1..] && b == [b[0]] + b[1..];
    }
  }

  // ---- values with sorted keys

  /** Objects with their keys sorted at every level, as the writer goes through them. */
  function Canon(v: Json): Json
    decreases v
  {
    match v
    case Arr(items) => Arr(CanonItems(items))
    case Obj(entries) => Obj(Sort(CanonEntries(entries)))
    case _ => v
  }

  function CanonItems(items: seq<Json>): (r: seq<Json>)
    ensures |r| == |items| && forall k | 0 <= k < |items| :: r[k] == Canon(items[k])
    decreases items
  {
    if items == [] then [] else [Canon(items[0])] + CanonItems(items[1..])
  }

  function CanonEntries(entries: seq<Entry>): (r: seq<Entry>)
    ensures |r| == |entries| && forall k | 0 <= k < |entries| :: r[k] == Entry(entries[k].key, Canon(entries[k].value))
    decreases entries
  {
    if entries == [] then [] else [Entry(entries[0].key, Canon(entries[0].value))] + CanonEntries(entries[1..])
  }

  /** `encodeCbor`. */
  function EncodeCbor(f: FloatBytes, v: Json): seq<Byte> {
    EncodeValue(f, Canon(v))
  }

  /** What every JavaScript value has: one entry per key. */
  ghost predicate WellKeyed(v: Json) {
    match v
    case Arr(items) => forall k | 0 <= k < |items| :: WellKeyed(items[k])
    case Obj(entries) => DistinctKeys(entries) && forall k | 0 <= k < |entries| :: WellKeyed(entries[k].value)
    case _ => true
  }

  /** The values the codec carries unchanged: nesting at most 128 below `depth`, collections of at
      most a million, well-formed strings that do not start with U+FEFF. */
  ghost predicate Transportable(v: Json, depth: nat)
    decreases v
  {
    depth <= MAX_DEPTH &&
    match v
    case Str(s) => Plain(s)
    case Arr(items) => |items| <= MAX_COLLECTION_LENGTH && forall k | 0 <= k < |items| :: Transportable(items[k], depth + 1)
    case Obj(entries) =>
      && |entries| <= MAX_COLLECTION_LENGTH
      && forall k | 0 <= k < |entries| :: Plain(entries[k].key) && Transportable(entries[k].value, depth + 1)
    case _ => true
  }

  ghost function Keys(entries: seq<Entry>): set<Text> {
    set e | e in entries :: e.key
  }

  /** The same JSON value: entry order does not count. */
  ghost predicate Same(v: Json, w: Json)
    decreases v
  {
    match v
    case Arr(items) => w.Arr? && |items| == |w.items| && forall k | 0 <= k < |items| :: Same(items[k], w.items[k])
    case Obj(entries) =>
      && w.Obj?
      && Keys(w.entries) <= Keys(entries)
      && forall k | 0 <= k < |entries| ::
           exists j :: 0 <= j < |w.entries| && w.entries[j].key == entries[k].key && Same(entries[k].value, w.entries[j].value)
    case _ => v == w
  }

  lemma {:induction false} CanonKeepsKeys(v: Json)
    requires WellKeyed(v)
    ensures WellKeyed(Canon(v))
    decreases v
  {
    match v
    case Arr(items) =>
      forall k | 0 <= k < |items| ensures WellKeyed(Canon(items[k])) { CanonKeepsKeys(items[k]); }
    case Obj(entries) =>
      forall k | 0 <= k < |entries| ensures WellKeyed(Canon(entries[k].value)) { CanonKeepsKeys(entries[k].value); }
      var mapped := CanonEntries(entries);
      SortSorts(mapped);
      AscendingIsDistinct(Sort(mapped));
      SortKeepsAll(mapped, (e: Entry) => WellKeyed(e.value));
    case _ =>
  }

  lemma {:induction false} CanonKeepsEncodable(v: Json)
    requires WellKeyed(v) && Encodable(v)
    ensures Encodable(Canon(v))
    decreases v
  {
    match v
    case Arr(items) =>
      forall k | 0 <= k < |items| ensures Encodable(Canon(items[k])) { CanonKeepsEncodable(items[k]); }
    case Obj(entries) =>
      forall k | 0 <= k < |entries| ensures Fits(|Utf8.Encode(entries[k].key)|) && Encodable(Canon(entries[k].value)) { CanonKeepsEncodable(entries[k].value); }
      var mapped := CanonEntries(entries);
      SortSorts(mapped);
      SortKeepsAll(mapped, (e: Entry) => Fits(|Utf8.Encode(e.key)|) && Encodable(e.value));
    case _ =>
  }

  lemma {:induction false} CanonKeepsTransportable(v: Json, depth: nat)
    requires WellKeyed(v)
    ensures Transportable(Canon(v), depth) <==> Transportable(v, depth)
    decreases v
  {
    match v
    case Arr(items) =>
      forall k | 0 <= k < |items| ensures Transportable(Canon(items[k]), depth + 1) <==> Transportable(items[k], depth + 1) { CanonKeepsTransportable(items[k], depth + 1); }
    case Obj(entries) =>
      forall k | 0 <= k < |entries| ensures Transportable(Canon(entries[k].value), depth + 1) <==> Transportable(entries[k].value, depth + 1) { CanonKeepsTransportable(entries[k].value, depth + 1); }
      var mapped := CanonEntries(entries);
      SortSorts(mapped);
      SortKeepsAll(mapped, (e: Entry) => Plain(e.key) && Transportable(e.value, depth + 1));
    case _ =>
  }

  // ---- exactly what survives

  lemma {:induction false} SurvivesExactly(v: Json, depth: nat)
    requires WellKeyed(v)
    ensures Readable(v, depth) && Seen(v) == v <==> Transportable(v, depth)
    decreases v
  {
    match v
    case Str(s) => SurvivesExactlyPlain(s);
    case Arr(items) => ItemsSurviveExactly(items, depth + 1);
    case Obj(entries) => EntriesSurviveExactly(entries, depth + 1, []);
    case _ =>
  }

  lemma {:induction false} ItemsSurviveExactly(items: seq<Json>, depth: nat)
    requires forall k | 0 <= k < |items| :: WellKeyed(items[k])
    ensures ItemsReadable(items, depth) && SeenItems(items) == items
            <==> forall k | 0 <= k < |items| :: Transportable(items[k], depth)
    decreases items
  {
    if items != [] {
      SurvivesExactly(items[0], depth);
      ItemsSurviveExactly(items[1..], depth);
      assert items == [items[0]] + items[1..];
    }
  }

  lemma {:induction false} EntriesSurviveExactly(entries: seq<Entry>, depth: nat, soFar: seq<Entry>)
    requires DistinctKeys(entries) && (forall k | 0 <= k < |entries| :: WellKeyed(entries[k].value))
    requires forall k | 0 <= k < |entries| :: !HasKey(soFar, entries[k].key)
    ensures EntriesReadable(entries, depth, soFar) && SeenEntries(entries) == entries
            <==> forall k | 0 <= k < |entries| :: Plain(entries[k].key) && Transportable(entries[k].value, depth)
    decreases entries
  {
    if entries != [] {
      var key, value := entries[0].key, entries[0].value;
      SurvivesExactlyPlain(key);
      SurvivesExactly(value, depth);
      assert entries == [entries[0]] + entries[1..];
      if SeenText(key) == key && Seen(value) == value {
        EntriesSurviveExactly(entries[1..], depth, soFar + [entries[0]]);
      }
    }
  }

  /** Decoding inverts encoding for exactly the transportable values; bytes that follow make the
      document invalid but never change where the value ends. */
  lemma RoundTrip(f: FloatBytes, v: Json)
    requires Faithful(f) && WellKeyed(v) && Encodable(v)
    ensures ReadDocument(EncodeCbor(f, v)) == Some(Canon(v)) <==> Transportable(v, 0)
    ensures Transportable(v, 0) ==> forall rest :: ReadValue(EncodeCbor(f, v) + rest, 0) == Got(Canon(v), rest)
    ensures forall rest | rest != [] :: ReadDocument(EncodeCbor(f, v) + rest) == None
  {
    CanonKeepsKeys(v);
    CanonKeepsEncodable(v);
    CanonKeepsTransportable(v, 0);
    SurvivesExactly(Canon(v), 0);
    forall rest ensures ReadValue(EncodeCbor(f, v) + rest, 0) == if Readable(Canon(v), 0) then Got(Seen(Canon(v)), rest) else Refused {
      ReadEncoded(f, Canon(v), 0, rest);
    }
    assert EncodeCbor(f, v) + [] == EncodeCbor(f, v);
  }

  /** With all keys sorted, two values are equal exactly when they are the same JSON value. */
  lemma {:induction false} SameExactlyWhenCanonEqual(v: Json, w: Json)
    requires WellKeyed(v) && WellKeyed(w)
    ensures Same(v, w) <==> Canon(v) == Canon(w)
    decreases v
  {
    match v
    case Arr(items) =>
      if w.Arr? {
        forall k | 0 <= k < |items| && k < |w.items| ensures Same(items[k], w.items[k]) <==> Canon(items[k]) == Canon(w.items[k]) {
          SameExactlyWhenCanonEqual(items[k], w.items[k]);
        }
        assert Canon(v) == Canon(w) ==> forall k | 0 <= k < |items| :: CanonItems(items)[k] == CanonItems(w.items)[k];
      }
    case Obj(entries) =>
      if w.Obj? { SameEntriesExactly(v, w); }
    case _ =>
  }

  lemma {:induction false} SameEntriesExactly(v: Json, w: Json)
    requires WellKeyed(v) && WellKeyed(w) && v.Obj? && w.Obj?
    ensures Same(v, w) <==> Canon(v) == Canon(w)
    decreases v, 0
  {
    var x, y := CanonEntries(v.entries), CanonEntries(w.entries);
    forall k | 0 <= k < |v.entries|
      ensures (exists j :: 0 <= j < |w.entries| && w.entries[j].key == v.entries[k].key && Same(v.entries[k].value, w.entries[j].value))
              <==> x[k] in y
    {
      forall j | 0 <= j < |w.entries|
        ensures w.entries[j].key == v.entries[k].key && Same(v.entries[k].value, w.entries[j].value) <==> y[j] == x[k]
      {
        SameExactlyWhenCanonEqual(v.entries[k].value, w.entries[j].value);
      }
    }
    SameSetsSort(v.entries, w.entries);
  }

  lemma SameSetsSort(a: seq<Entry>, b: seq<Entry>)
    requires DistinctKeys(a) && DistinctKeys(b)
    ensures Keys(b) <= Keys(a) && (forall k | 0 <= k < |a| :: CanonEntries(a)[k] in CanonEntries(b))
            <==> Sort(CanonEntries(a)) == Sort(CanonEntries(b))
  {
    var x, y := CanonEntries(a), CanonEntries(b);
    SortSorts(x);
    SortSorts(y);
    if Keys(b) <= Keys(a) && forall k | 0 <= k < |a| :: x[k] in y {
      forall e | e in y ensures e in x { LikeComesBack(a, b, e); }
      AscendingIsUnique(Sort(x), Sort(y));
    }
    if Sort(x) == Sort(y) {
      forall key | key in Keys(b) ensures key in Keys(a) { KeyComesBack(a, b, key); }
      forall k | 0 <= k < |a| ensures x[k] in y { assert x[k] in Sort(y); }
    }
  }

  lemma LikeComesBack(a: seq<Entry>, b: seq<Entry>, e: Entry)
    requires DistinctKeys(b) && Keys(b) <= Keys(a) && e in CanonEntries(b)
    requires forall k | 0 <= k < |a| :: CanonEntries(a)[k] in CanonEntries(b)
    ensures e in CanonEntries(a)
  {
    var x, y := CanonEntries(a), CanonEntries(b);
    var j :| 0 <= j < |y| && y[j] == e;
    assert b[j] in b && b[j].key in Keys(b);
    var k :| 0 <= k < |a| && a[k].key == b[j].key;
    assert x[k] in y;
    var i :| 0 <= i < |y| && y[i] == x[k];
    assert b[i].key == b[j].key && i == j;
  }

  lemma KeyComesBack(a: seq<Entry>, b: seq<Entry>, key: Text)
    requires Sort(CanonEntries(a)) == Sort(CanonEntries(b)) && DistinctKeys(a) && DistinctKeys(b) && key in Keys(b)
    ensures key in Keys(a)
  {
    var x, y := CanonEntries(a), CanonEntries(b);
    SortSorts(x);
    SortSorts(y);
    var j :| 0 <= j < |b| && b[j].key == key;
    assert y[j] in Sort(y);
    var k :| 0 <= k < |x| && x[k] == y[j];
    assert a[k] in a && a[k].key == key;
  }

  /** Two transportable values share an encoding exactly when they are the same JSON value: the
      encoding is injective and does not depend on insertion order. */
  lemma EncodingIsInjective(f: FloatBytes, v: Json, w: Json)
    requires Faithful(f) && WellKeyed(v) && WellKeyed(w) && Encodable(v) && Encodable(w)
    requires Transportable(v, 0) && Transportable(w, 0)
    ensures EncodeCbor(f, v) == EncodeCbor(f, w) <==> Same(v, w)
  {
    RoundTrip(f, v);
    RoundTrip(f, w);
    SameExactlyWhenCanonEqual(v, w);
  }
}
