/** What all four protocols share: calls, parsed responses, and JavaScript maps keyed by index. */
module WireCalls {
  import opened WireText

  const INPUT_TOKENS := 100
  const OUTPUT_TOKENS := 20

  datatype Call = Call(id: string, name: string, args: Args)
  datatype ParsedCall = ParsedCall(call: Call, timeoutMs: Option<real>)
  datatype Parsed = Parsed(text: string, toolCalls: seq<ParsedCall>, inputTokens: int, outputTokens: int)

  function Timed<F>(json: Json<F>, call: Call): ParsedCall {
    ParsedCall(call, json.timeoutOf(call.args))
  }

  predicate IsCall<F>(json: Json<F>, parsed: ParsedCall, id: string, name: string, args: Args) {
    parsed.call == Call(id, name, args) && parsed.timeoutMs == json.timeoutOf(args)
  }

  function AllTimed<F>(json: Json<F>, calls: seq<Call>): (r: seq<ParsedCall>)
    ensures |r| == |calls|
  {
    seq(|calls|, k requires 0 <= k < |calls| => Timed(json, calls[k]))
  }

  /** The parsed form of a turn. */
  function Turn<F>(json: Json<F>, text: string, calls: seq<Call>): Parsed {
    Parsed(text, AllTimed(json, calls), INPUT_TOKENS, OUTPUT_TOKENS)
  }

  lemma AllTimedSnoc<F>(json: Json<F>, calls: seq<Call>, call: Call)
    ensures AllTimed(json, calls + [call]) == AllTimed(json, calls) + [Timed(json, call)]
  {
  }

  // ---- what a sequence of frames says

  /** What the frames contribute, in order. */
  function Gathered<F, T>(frames: seq<F>, part: F -> seq<T>): seq<T> {
    if frames == [] then [] else part(frames[0]) + Gathered(frames[1..], part)
  }

  lemma GatheredSnoc<F, T>(frames: seq<F>, f: F, part: F -> seq<T>)
    ensures Gathered(frames + [f], part) == Gathered(frames, part) + part(f)
  {
    GatheredBoth(frames, [f], part);
    assert [f][1..] == [];
  }

  lemma {:induction false} GatheredBoth<F, T>(frames: seq<F>, more: seq<F>, part: F -> seq<T>)
    ensures Gathered(frames + more, part) == Gathered(frames, part) + Gathered(more, part)
  {
    if frames == [] {
      assert [] + more == more;
    } else {
      assert (frames + more)[1..] == frames[1..] + more;
      GatheredBoth(frames[1..], more, part);
    }
  }

  /** The frames without the last, which says its part at the end. */
  lemma GatheredLast<F, T>(frames: seq<F>, part: F -> seq<T>)
    requires frames != []
    ensures Gathered(frames, part) == Gathered(frames[..|frames| - 1], part) + part(frames[|frames| - 1])
  {
    GatheredSnoc(frames[..|frames| - 1], frames[|frames| - 1], part);
    assert frames[..|frames| - 1] + [frames[|frames| - 1]] == frames;
  }

  /** The last value that a frame reports, or the one there is if none does. */
  predicate IsLast<F, T(==)>(frames: seq<F>, report: F -> Option<T>, otherwise: T, last: T) {
    || (last == otherwise && forall k | 0 <= k < |frames| :: report(frames[k]).None?)
    || exists k :: 0 <= k < |frames| && report(frames[k]) == Some(last) && forall j | k < j < |frames| :: report(frames[j]).None?
  }

  lemma LastSnoc<F, T>(frames: seq<F>, report: F -> Option<T>, otherwise: T, before: T)
    requires frames != [] && IsLast(frames[..|frames| - 1], report, otherwise, before)
    ensures var f := frames[|frames| - 1];
            IsLast(frames, report, otherwise, if report(f).Some? then report(f).value else before)
  {
    var front, f := frames[..|frames| - 1], frames[|frames| - 1];
    assert forall k | 0 <= k < |front| :: front[k] == frames[k];
    if report(f).None? && !(before == otherwise && forall k | 0 <= k < |front| :: report(front[k]).None?) {
      var k :| 0 <= k < |front| && report(front[k]) == Some(before) && forall j | k < j < |front| :: report(front[j]).None?;
      assert report(frames[k]) == Some(before);
    }
  }

  // ---- `Map` with numeric keys, in insertion order

  type Entries<V> = seq<(nat, V)>

  function Get<V>(m: Entries<V>, key: nat): Option<V> {
    if m == [] then None else if m[0].0 == key then Some(m[0].1) else Get(m[1..], key)
  }

  function Set<V>(m: Entries<V>, key: nat, v: V): Entries<V> {
    if m == [] then [(key, v)] else if m[0].0 == key then [(key, v)] + m[1..] else [m[0]] + Set(m[1..], key, v)
  }

  /** Stable sort of the entries by key. */
  function SortEntries<V>(m: Entries<V>): Entries<V> {
    if m == [] then [] else InsertEntry(m[0], SortEntries(m[1..]))
  }

  function InsertEntry<V>(e: (nat, V), m: Entries<V>): Entries<V> {
    if m != [] && m[0].0 < e.0 then [m[0]] + InsertEntry(e, m[1..]) else [e] + m
  }

  predicate AscendingKeys<V>(m: Entries<V>) {
    forall j, k | 0 <= j < k < |m| :: m[j].0 < m[k].0
  }

  lemma {:induction false} SortedAlready<V>(m: Entries<V>)
    requires AscendingKeys(m)
    ensures SortEntries(m) == m
  {
    if m != [] {
      SortedAlready(m[1..]);
      assert m == [m[0]] + m[1..];
    }
  }

  predicate UniqueKeys<V>(m: Entries<V>) {
    forall j, k | 0 <= j < k < |m| :: m[j].0 != m[k].0
  }

  lemma {:induction false} GetExactly<V(!new)>(m: Entries<V>, key: nat)
    requires UniqueKeys(m)
    ensures forall v :: Get(m, key) == Some(v) <==> (key, v) in m
  {
    if m != [] {
      assert m == [m[0]] + m[1..];
      GetExactly(m[1..], key);
      if m[0].0 == key {
        forall v ensures (key, v) !in m[1..] {
          if k :| 0 <= k < |m| - 1 && m[1..][k] == (key, v) { assert m[k + 1].0 == m[0].0; }
        }
      }
    }
  }

  /** A set key holds its value, the others hold theirs, and keys stay unique. */
  lemma {:induction false} SetChangesOne<V>(m: Entries<V>, key: nat, v: V)
    requires UniqueKeys(m)
    ensures UniqueKeys(Set(m, key, v)) && Get(Set(m, key, v), key) == Some(v)
    ensures forall other | other != key :: Get(Set(m, key, v), other) == Get(m, other)
    ensures forall k | 0 <= k < |Set(m, key, v)| :: Set(m, key, v)[k].0 == key || exists j :: 0 <= j < |m| && m[j].0 == Set(m, key, v)[k].0
  {
    if m != [] && m[0].0 != key {
      SetChangesOne(m[1..], key, v);
      assert Set(m, key, v)[1..] == Set(m[1..], key, v);
      forall k | 0 < k < |Set(m, key, v)|
        ensures Set(m, key, v)[k].0 != m[0].0 && (Set(m, key, v)[k].0 == key || exists j :: 0 <= j < |m| && m[j].0 == Set(m, key, v)[k].0)
      {
        assert Set(m, key, v)[k] == Set(m[1..], key, v)[k - 1];
        if Set(m, key, v)[k].0 != key {
          var j :| 0 <= j < |m| - 1 && m[1..][j].0 == Set(m, key, v)[k].0;
          assert m[j + 1].0 == Set(m, key, v)[k].0;
        }
      }
    } else if m != [] {
      assert Set(m, key, v)[1..] == m[1..];
    }
  }

  /** Sorting orders the entries by key and keeps them. */
  lemma {:induction false} SortOrders<V(!new)>(m: Entries<V>)
    requires UniqueKeys(m)
    ensures AscendingKeys(SortEntries(m)) && |SortEntries(m)| == |m| && forall e :: e in SortEntries(m) <==> e in m
  {
    if m != [] {
      SortOrders(m[1..]);
      var rest := SortEntries(m[1..]);
      forall k | 0 <= k < |rest| ensures rest[k].0 != m[0].0 {
        assert rest[k] in m[1..];
        var j :| 0 <= j < |m| - 1 && m[1..][j] == rest[k];
        assert m[j + 1] == rest[k];
      }
      InsertOrders(m[0], rest);
      assert m == [m[0]] + m[1..];
    }
  }

  lemma {:induction false} InsertOrders<V(!new)>(e: (nat, V), m: Entries<V>)
    requires AscendingKeys(m) && forall k | 0 <= k < |m| :: m[k].0 != e.0
    ensures AscendingKeys(InsertEntry(e, m)) && |InsertEntry(e, m)| == |m| + 1
    ensures forall x :: x in InsertEntry(e, m) <==> x == e || x in m
  {
    if m != [] && m[0].0 < e.0 {
      InsertOrders(e, m[1..]);
      var rest := InsertEntry(e, m[1..]);
      forall k | 0 <= k < |rest| ensures m[0].0 < rest[k].0 {
        assert rest[k] in rest;
        if rest[k] != e {
          var j :| 0 <= j < |m| - 1 && m[1..][j] == rest[k];
          assert m[j + 1] == rest[k];
        }
      }
    }
  }

  /** A new key goes to the end. */
  lemma {:induction false} SetNew<V>(m: Entries<V>, key: nat, v: V)
    requires forall k | 0 <= k < |m| :: m[k].0 != key
    ensures Set(m, key, v) == m + [(key, v)] && Get(m, key) == None
  {
    if m != [] {
      SetNew(m[1..], key, v);
      assert m == [m[0]] + m[1..];
    }
  }

  /** The last key is found and replaced in place. */
  lemma {:induction false} SetLast<V>(m: Entries<V>, key: nat, old': V, v: V)
    requires forall k | 0 <= k < |m| :: m[k].0 != key
    ensures Get(m + [(key, old')], key) == Some(old') && Set(m + [(key, old')], key, v) == m + [(key, v)]
  {
    var longer := m + [(key, old')];
    if m != [] {
      SetLast(m[1..], key, old', v);
      assert longer[0] == m[0] && longer[1..] == m[1..] + [(key, old')];
      assert m == [m[0]] + m[1..];
    }
  }
}
