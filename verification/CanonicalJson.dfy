/** `canonicalize`, the sorted form behind `encodeJson` and instruction fingerprints: it copies an object
    by plain assignment, and assigning to `__proto__` makes no key. */
module CanonicalJson {
  import opened Utf8
  import opened Cbor
  import opened CborCanonical

  const PROTO: Text := [0x5F, 0x5F, 0x70, 0x72, 0x6F, 0x74, 0x6F, 0x5F, 0x5F]

  /** `canonicalize`, with the entries of an object in the order they are assigned. */
  function Canonicalize(v: Json): Json
    decreases v
  {
    match v
    case Arr(items) => Arr(CanonicalizeItems(items))
    case Obj(entries) => Obj(Sort(AssignEntries(entries)))
    case _ => v
  }

  function CanonicalizeItems(items: seq<Json>): (r: seq<Json>)
    ensures |r| == |items| && forall k | 0 <= k < |items| :: r[k] == Canonicalize(items[k])
    decreases items
  {
    if items == [] then [] else [Canonicalize(items[0])] + CanonicalizeItems(items[1..])
  }

  function AssignEntries(entries: seq<Entry>): seq<Entry>
    decreases entries
  {
    if entries == [] then []
    else (if entries[0].key == PROTO then [] else [Entry(entries[0].key, Canonicalize(entries[0].value))]) + AssignEntries(entries[1..])
  }

  /** No object in the value has a key of its own named `__proto__`. */
  predicate NoProto(v: Json)
    decreases v
  {
    match v
    case Arr(items) => forall k | 0 <= k < |items| :: NoProto(items[k])
    case Obj(entries) => forall k | 0 <= k < |entries| :: entries[k].key != PROTO && NoProto(entries[k].value)
    case _ => true
  }

  /** The value without those keys. */
  function Strip(v: Json): Json
    decreases v
  {
    match v
    case Arr(items) => Arr(StripItems(items))
    case Obj(entries) => Obj(StripEntries(entries))
    case _ => v
  }

  function StripItems(items: seq<Json>): (r: seq<Json>)
    ensures |r| == |items| && forall k | 0 <= k < |items| :: r[k] == Strip(items[k])
    decreases items
  {
    if items == [] then [] else [Strip(items[0])] + StripItems(items[1..])
  }

  function StripEntries(entries: seq<Entry>): seq<Entry>
    decreases entries
  {
    if entries == [] then []
    else (if entries[0].key == PROTO then [] else [Entry(entries[0].key, Strip(entries[0].value))]) + StripEntries(entries[1..])
  }

  lemma {:induction false} CanonicalizeIsCanonOfStrip(v: Json)
    ensures Canonicalize(v) == Canon(Strip(v))
    decreases v
  {
    match v
    case Arr(items) =>
      forall k | 0 <= k < |items| ensures Canonicalize(items[k]) == Canon(Strip(items[k])) { CanonicalizeIsCanonOfStrip(items[k]); }
      assert CanonicalizeItems(items) == CanonItems(StripItems(items));
    case Obj(entries) => AssignIsCanonOfStrip(entries);
    case _ =>
  }

  lemma {:induction false} AssignIsCanonOfStrip(entries: seq<Entry>)
    ensures AssignEntries(entries) == CanonEntries(StripEntries(entries))
    decreases entries
  {
    if entries != [] {
      CanonicalizeIsCanonOfStrip(entries[0].value);
      AssignIsCanonOfStrip(entries[1..]);
      if entries[0].key != PROTO {
        assert StripEntries(entries)[1..] == StripEntries(entries[1..]);
      } else {
        assert StripEntries(entries) == StripEntries(entries[1..]);
      }
    }
  }

  lemma {:induction false} StripKeepsKeys(v: Json)
    requires WellKeyed(v)
    ensures WellKeyed(Strip(v)) && NoProto(Strip(v))
    decreases v
  {
    match v
    case Arr(items) =>
      forall k | 0 <= k < |items| ensures WellKeyed(Strip(items[k])) && NoProto(Strip(items[k])) { StripKeepsKeys(items[k]); }
    case Obj(entries) => StripEntriesKeep(entries);
    case _ =>
  }

  lemma {:induction false} StripEntriesKeep(entries: seq<Entry>)
    requires DistinctKeys(entries) && forall k | 0 <= k < |entries| :: WellKeyed(entries[k].value)
    ensures DistinctKeys(StripEntries(entries))
    ensures forall e | e in StripEntries(entries) ::
              e.key != PROTO && WellKeyed(e.value) && NoProto(e.value) && exists k :: 0 <= k < |entries| && entries[k].key == e.key
    decreases entries
  {
    if entries != [] {
      var rest := entries[1..];
      StripKeepsKeys(entries[0].value);
      StripEntriesKeep(rest);
      forall e | e in StripEntries(rest) ensures e.key != entries[0].key && exists k :: 0 <= k < |entries| && entries[k].key == e.key {
        var k :| 0 <= k < |rest| && rest[k].key == e.key;
        assert entries[k + 1].key == e.key;
      }
    }
  }

  lemma {:induction false} StripChangesNothing(v: Json)
    requires NoProto(v)
    ensures Strip(v) == v
    decreases v
  {
    match v
    case Arr(items) =>
      forall k | 0 <= k < |items| ensures Strip(items[k]) == items[k] { StripChangesNothing(items[k]); }
      assert StripItems(items) == items;
    case Obj(entries) => StripEntriesChangeNothing(entries);
    case _ =>
  }

  lemma {:induction false} StripEntriesChangeNothing(entries: seq<Entry>)
    requires forall k | 0 <= k < |entries| :: entries[k].key != PROTO && NoProto(entries[k].value)
    ensures StripEntries(entries) == entries
    decreases entries
  {
    if entries != [] {
      StripChangesNothing(entries[0].value);
      StripEntriesChangeNothing(entries[1..]);
    }
  }

  lemma {:induction false} SameAsCanon(v: Json)
    requires WellKeyed(v)
    ensures Same(v, Canon(v))
    decreases v
  {
    match v
    case Arr(items) =>
      forall k | 0 <= k < |items| ensures Same(items[k], Canon(items[k])) { SameAsCanon(items[k]); }
    case Obj(entries) =>
      var mapped := CanonEntries(entries);
      SortSorts(mapped);
      forall k | 0 <= k < |entries|
        ensures exists j :: 0 <= j < |mapped| && Sort(mapped)[j].key == entries[k].key && Same(entries[k].value, Sort(mapped)[j].value)
      {
        SameAsCanon(entries[k].value);
        assert mapped[k] in Sort(mapped);
      }
      forall key | key in Keys(Sort(mapped)) ensures key in Keys(entries) {
        var e :| e in Sort(mapped) && e.key == key;
        var k :| 0 <= k < |mapped| && mapped[k] == e;
        assert entries[k] in entries;
      }
    case _ =>
  }

  lemma {:induction false} SameHasNoProto(v: Json, w: Json)
    requires Same(v, w) && NoProto(w)
    ensures NoProto(v)
    decreases v
  {
    match v
    case Arr(items) =>
      forall k | 0 <= k < |items| ensures NoProto(items[k]) { SameHasNoProto(items[k], w.items[k]); }
    case Obj(entries) =>
      forall k | 0 <= k < |entries| ensures entries[k].key != PROTO && NoProto(entries[k].value) {
        var j :| 0 <= j < |w.entries| && w.entries[j].key == entries[k].key && Same(entries[k].value, w.entries[j].value);
        SameHasNoProto(entries[k].value, w.entries[j].value);
      }
    case _ =>
  }

  lemma {:induction false} CanonHasNoProto(v: Json)
    requires WellKeyed(v) && NoProto(v)
    ensures NoProto(Canon(v))
    decreases v
  {
    match v
    case Arr(items) =>
      forall k | 0 <= k < |items| ensures NoProto(Canon(items[k])) { CanonHasNoProto(items[k]); }
    case Obj(entries) =>
      forall k | 0 <= k < |entries| ensures NoProto(Canon(entries[k].value)) { CanonHasNoProto(entries[k].value); }
      SortKeepsAll(CanonEntries(entries), (e: Entry) => e.key != PROTO && NoProto(e.value));
    case _ =>
  }

  /** The canonical form is the same JSON value exactly when no object has a key `__proto__`. */
  lemma KeepsTheValueExactly(v: Json)
    requires WellKeyed(v)
    ensures Same(v, Canonicalize(v)) <==> NoProto(v)
  {
    CanonicalizeIsCanonOfStrip(v);
    StripKeepsKeys(v);
    CanonHasNoProto(Strip(v));
    if NoProto(v) {
      StripChangesNothing(v);
      SameAsCanon(v);
    }
    if Same(v, Canonicalize(v)) { SameHasNoProto(v, Canonicalize(v)); }
  }

  /** Canonical forms agree exactly when the values are the same apart from their `__proto__` keys. */
  lemma AgreeExactly(v: Json, w: Json)
    requires WellKeyed(v) && WellKeyed(w)
    ensures Canonicalize(v) == Canonicalize(w) <==> Same(Strip(v), Strip(w))
    ensures NoProto(v) && NoProto(w) ==> (Canonicalize(v) == Canonicalize(w) <==> Same(v, w))
  {
    CanonicalizeIsCanonOfStrip(v);
    CanonicalizeIsCanonOfStrip(w);
    StripKeepsKeys(v);
    StripKeepsKeys(w);
    SameExactlyWhenCanonEqual(Strip(v), Strip(w));
    if NoProto(v) && NoProto(w) {
      StripChangesNothing(v);
      StripChangesNothing(w);
    }
  }

  /** Every value with a `__proto__` key shares its canonical form with a different value without one;
      `{"__proto__": 1}` shares it with `{}`. */
  lemma ProtoKeysCollide(v: Json)
    requires WellKeyed(v) && !NoProto(v)
    ensures Canonicalize(v) == Canonicalize(Strip(v)) && !Same(v, Strip(v))
    ensures Strip(Obj([Entry(PROTO, Num(1.0))])) == Obj([])
  {
    CanonicalizeIsCanonOfStrip(v);
    CanonicalizeIsCanonOfStrip(Strip(v));
    StripKeepsKeys(v);
    StripChangesNothing(Strip(v));
    if Same(v, Strip(v)) { SameHasNoProto(v, Strip(v)); }
    var one := [Entry(PROTO, Num(1.0))];
    assert one[1..] == [];
    assert StripEntries(one) == [] + StripEntries(one[1..]);
  }
}
