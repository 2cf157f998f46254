/** The helper's command buffer (the main loop of `xioflow-reaper.c`), a C string: when the commands do
    not depend on how the channel cuts the stream, and what they are. */
module ReaperLines {

  /** `sizeof(buf) - 1`: one byte is kept for the terminator. */
  const CAPACITY: nat := 4095

  /** Handled lines so far, and the unfinished one. */
  datatype Reading = Reading(lines: seq<string>, rest: string)

  const START := Reading([], "")

  /** One byte alone: a newline ends a line, a NUL is lost, an unfinished line that fills the buffer is
      dropped. */
  function Take(r: Reading, c: char): Reading {
    if c == '\n' then Reading(r.lines + [r.rest], "")
    else if c == '\0' then r
    else if |r.rest| + 1 >= CAPACITY then Reading(r.lines, "")
    else Reading(r.lines, r.rest + [c])
  }

  function TakeAll(r: Reading, stream: string): Reading
    decreases stream
  {
    if stream == "" then r else TakeAll(Take(r, stream[0]), stream[1..])
  }

  /** What of one `read` the string functions see. */
  function UpToNul(chunk: string): string {
    if chunk == "" || chunk[0] == '\0' then "" else [chunk[0]] + UpToNul(chunk[1..])
  }

  function Reads(r: Reading, cuts: seq<string>): Reading
    decreases cuts
  {
    if cuts == [] then r else Reads(TakeAll(r, UpToNul(cuts[0])), cuts[1..])
  }

  /** A `read` returns something, and no more than the free part of the buffer. */
  predicate Fit(r: Reading, cuts: seq<string>)
    decreases cuts
  {
    cuts == []
    || (0 < |cuts[0]| <= CAPACITY - |r.rest| && Fit(TakeAll(r, UpToNul(cuts[0])), cuts[1..]))
  }

  function Concat(chunks: seq<string>): string {
    if chunks == [] then "" else chunks[0] + Concat(chunks[1..])
  }

  lemma {:induction false} TakeInPieces(r: Reading, a: string, b: string)
    ensures TakeAll(r, a + b) == TakeAll(TakeAll(r, a), b)
    decreases |a|
  {
    if a == "" {
      assert a + b == b;
    } else {
      TakeInPieces(Take(r, a[0]), a[1..], b);
      assert (a + b)[1..] == a[1..] + b;
    }
  }

  lemma {:induction false} SeenPart(chunk: string)
    ensures UpToNul(chunk) <= chunk && '\0' !in UpToNul(chunk)
    ensures UpToNul(chunk) != chunk ==> chunk[|UpToNul(chunk)|] == '\0'
  {
    if chunk != "" && chunk[0] != '\0' {
      SeenPart(chunk[1..]);
      assert chunk == [chunk[0]] + chunk[1..];
    }
  }

  // ---- what the cuts can change

  /** Where a NUL could be read together with the byte after it, and a line still ends later. */
  predicate Harmful(stream: string, i: nat) {
    i < |stream| && stream[i] == '\0' && |TakeAll(START, stream[..i]).rest| < CAPACITY - 1 && '\n' in stream[i + 1..]
  }

  lemma {:induction false} LinesGrow(r: Reading, s: string)
    ensures r.lines <= TakeAll(r, s).lines
    ensures '\n' !in s ==> TakeAll(r, s).lines == r.lines
    ensures '\0' !in s ==> |TakeAll(r, s).rest| <= |r.rest| + |s|
    decreases |s|
  {
    if s != "" { LinesGrow(Take(r, s[0]), s[1..]); }
  }

  /** One `read` that lies where no NUL is harmful does what its bytes do one by one, as far as lines
      can still end. */
  lemma OneRead(stream: string, at: nat, n: nat)
    requires at + n <= |stream| && 0 < n <= CAPACITY - |TakeAll(START, stream[..at]).rest|
    requires forall i: nat :: !Harmful(stream, i)
    ensures var r, chunk := TakeAll(START, stream[..at]), stream[at..at + n];
            TakeAll(r, UpToNul(chunk)) == TakeAll(START, stream[..at + n])
            || ('\n' !in stream[at + n..] && TakeAll(r, UpToNul(chunk)).lines == TakeAll(START, stream[..at + n]).lines)
  {
    hide TakeAll, Harmful, UpToNul;
    var r, chunk := TakeAll(START, stream[..at]), stream[at..at + n];
    var seen := UpToNul(chunk);
    SeenPart(chunk);
    assert stream[..at + n] == stream[..at] + chunk;
    TakeInPieces(START, stream[..at], chunk);
    if seen != chunk {
      var i, tail := at + |seen|, chunk[|seen|..];
      assert chunk == seen + tail && tail[0] == '\0';
      TakeInPieces(r, seen, tail);
      if |tail| == 1 {
        NulAlone(TakeAll(r, seen), tail);
      } else {
        assert stream[..i] == stream[..at] + seen;
        TakeInPieces(START, stream[..at], seen);
        LinesGrow(r, seen);
        NoLineAfter(stream, i);
        assert stream[i + 1..] == tail[1..] + stream[at + n..];
        NoNewlineIn(tail, stream[at + n..]);
        LinesGrow(TakeAll(r, seen), tail);
      }
    }
  }

  lemma NoLineAfter(stream: string, i: nat)
    requires i < |stream| && stream[i] == '\0' && |TakeAll(START, stream[..i]).rest| < CAPACITY - 1 && !Harmful(stream, i)
    ensures '\n' !in stream[i + 1..]
  {
  }

  lemma NulAlone(r: Reading, nul: string)
    requires nul == "\0"
    ensures TakeAll(r, nul) == r
  {
    assert nul[1..] == "";
  }

  lemma NoNewlineIn(tail: string, later: string)
    requires tail != "" && tail[0] == '\0' && '\n' !in tail[1..] + later
    ensures '\n' !in tail && '\n' !in later
  {
    assert tail == [tail[0]] + tail[1..];
    assert forall c | c in later :: c in tail[1..] + later;
  }

  /** Once no line can end any more, cuts change no line. */
  lemma {:induction false} NoMoreLines(r: Reading, cuts: seq<string>)
    requires '\n' !in Concat(cuts)
    ensures Reads(r, cuts).lines == r.lines
    decreases |cuts|
  {
    if cuts != [] {
      SeenPart(cuts[0]);
      assert forall c | c in UpToNul(cuts[0]) :: c in cuts[0];
      LinesGrow(r, UpToNul(cuts[0]));
      NoMoreLines(TakeAll(r, UpToNul(cuts[0])), cuts[1..]);
    }
  }

  lemma {:induction false} AnyCut(stream: string, at: nat, cuts: seq<string>)
    requires at <= |stream| && stream[at..] == Concat(cuts) && Fit(TakeAll(START, stream[..at]), cuts)
    requires forall i: nat :: !Harmful(stream, i)
    ensures Reads(TakeAll(START, stream[..at]), cuts).lines == TakeAll(START, stream).lines
    decreases |cuts|
  {
    if cuts == [] {
      assert stream[..at] == stream;
    } else {
      var n, r := |cuts[0]|, TakeAll(START, stream[..at]);
      assert stream[at..][..n] == cuts[0] && stream[at..][n..] == Concat(cuts[1..]);
      assert stream[at..at + n] == cuts[0] && stream[at + n..] == Concat(cuts[1..]);
      OneRead(stream, at, n);
      if TakeAll(r, UpToNul(cuts[0])) == TakeAll(START, stream[..at + n]) {
        AnyCut(stream, at + n, cuts[1..]);
      } else {
        NoMoreLines(TakeAll(r, UpToNul(cuts[0])), cuts[1..]);
        LinesGrow(TakeAll(START, stream[..at + n]), stream[at + n..]);
        TakeInPieces(START, stream[..at + n], stream[at + n..]);
        assert stream == stream[..at + n] + stream[at + n..];
      }
    }
  }

  // ---- a harmful NUL does change the lines

  /** Lengths one apart in the cycle of lengths. */
  predicate OneApart(a: nat, b: nat) {
    a == b + 1 || (a == 0 && b == CAPACITY - 1)
  }

  lemma {:induction false} StayApart(a: Reading, b: Reading, s: string)
    requires |a.lines| == |b.lines| && OneApart(|a.rest|, |b.rest|) && |a.rest| < CAPACITY && |b.rest| < CAPACITY && '\n' in s
    ensures TakeAll(a, s).lines != TakeAll(b, s).lines
    decreases |s|
  {
    if s[0] == '\n' {
      var n := |a.lines|;
      LinesGrow(Take(a, s[0]), s[1..]);
      LinesGrow(Take(b, s[0]), s[1..]);
      assert TakeAll(a, s).lines[n] == a.rest && TakeAll(b, s).lines[n] == b.rest;
    } else {
      StayApart(Take(a, s[0]), Take(b, s[0]), s[1..]);
    }
  }

  lemma {:induction false} SameCount(a: Reading, b: Reading, s: string)
    ensures |TakeAll(a, s).lines| - |a.lines| == |TakeAll(b, s).lines| - |b.lines|
    decreases |s|
  {
    if s != "" { SameCount(Take(a, s[0]), Take(b, s[0]), s[1..]); }
  }

  function Singles(s: string): seq<string> {
    if s == "" then [] else [[s[0]]] + Singles(s[1..])
  }

  /** Byte by byte, nothing is lost but the NULs. */
  lemma {:induction false} SinglesTake(r: Reading, s: string, more: seq<string>)
    requires |r.rest| < CAPACITY
    ensures Reads(r, Singles(s) + more) == Reads(TakeAll(r, s), more) && Concat(Singles(s) + more) == s + Concat(more)
    ensures Fit(r, Singles(s) + more) <==> Fit(TakeAll(r, s), more)
    decreases |s|
  {
    var all := Singles(s) + more;
    if s == "" {
      assert all == more && s + Concat(more) == Concat(more);
    } else {
      assert all[0] == [s[0]] && all[1..] == Singles(s[1..]) + more;
      assert [s[0]][1..] == "" && UpToNul([s[0]]) == if s[0] == '\0' then "" else [s[0]];
      assert TakeAll(r, UpToNul([s[0]])) == Take(r, s[0]);
      SinglesTake(Take(r, s[0]), s[1..], more);
      assert s + Concat(more) == [s[0]] + (s[1..] + Concat(more));
    }
  }

  /** The cut that reads the NUL together with the next byte. */
  function Paired(stream: string, i: nat): seq<string>
    requires i + 1 < |stream|
  {
    Singles(stream[..i]) + ([stream[i..i + 2]] + Singles(stream[i + 2..]))
  }

  lemma PairedReads(stream: string, i: nat)
    requires Harmful(stream, i)
    ensures var cuts, r := Paired(stream, i), TakeAll(START, stream[..i]);
            Fit(START, cuts) && Concat(cuts) == stream && Reads(START, cuts) == TakeAll(r, stream[i + 2..])
  {
    var r, two, tail := TakeAll(START, stream[..i]), stream[i..i + 2], stream[i + 2..];
    var more := [two] + Singles(tail);
    assert Paired(stream, i) == Singles(stream[..i]) + more && UpToNul(two) == "" && TakeAll(r, "") == r && |r.rest| < CAPACITY - 1;
    hide TakeAll, Singles, Harmful, UpToNul, Paired, Fit, Reads, Concat;
    PairThenSingles(r, two, tail);
    SinglesTake(START, stream[..i], more);
    assert stream[..i] + (two + tail) == stream;
  }

  lemma PairThenSingles(r: Reading, two: string, tail: string)
    requires |two| == 2 && UpToNul(two) == "" && |r.rest| < CAPACITY - 1
    ensures var more := [two] + Singles(tail);
            Fit(r, more) && Concat(more) == two + tail && Reads(r, more) == TakeAll(r, tail)
  {
    hide Singles, UpToNul;
    var more := [two] + Singles(tail);
    assert more[1..] == Singles(tail) && TakeAll(r, "") == r;
    SinglesTake(r, tail, []);
    assert Singles(tail) + [] == Singles(tail) && tail + Concat([]) == tail;
  }

  lemma {:induction false} HarmIsDone(stream: string, i: nat) returns (cuts: seq<string>)
    requires Harmful(stream, i)
    ensures Fit(START, cuts) && Concat(cuts) == stream && Reads(START, cuts).lines != TakeAll(START, stream).lines
    decreases |stream| - i
  {
    var r, c, tail := TakeAll(START, stream[..i]), stream[i + 1], stream[i + 2..];
    assert stream[i + 1..] == [c] + tail && stream[..i + 1] == stream[..i] + [stream[i]] && stream == stream[..i + 1] + ([c] + tail);
    assert [stream[i]][1..] == "" && ([c] + tail)[1..] == tail;
    TakeInPieces(START, stream[..i], [stream[i]]);
    TakeInPieces(START, stream[..i + 1], [c] + tail);
    assert TakeAll(START, stream) == TakeAll(Take(r, c), tail);
    if c == '\0' {
      cuts := HarmIsDone(stream, i + 1);
    } else {
      cuts := Paired(stream, i);
      PairedReads(stream, i);
      if c == '\n' { SameCount(Take(r, c), r, tail); } else { StayApart(Take(r, c), r, tail); }
    }
  }

  /** The commands are the same however the channel cuts the stream, exactly when no NUL that can be
      read together with the next byte comes before the end of a line. */
  lemma CutsDoNotMatterExactly(stream: string)
    ensures (forall cuts | Fit(START, cuts) && Concat(cuts) == stream :: Reads(START, cuts).lines == TakeAll(START, stream).lines)
            <==> forall i: nat :: !Harmful(stream, i)
  {
    if forall i: nat :: !Harmful(stream, i) {
      forall cuts | Fit(START, cuts) && Concat(cuts) == stream ensures Reads(START, cuts).lines == TakeAll(START, stream).lines {
        assert stream[..0] == "" && stream[0..] == stream;
        AnyCut(stream, 0, cuts);
      }
    } else {
      var i: nat :| Harmful(stream, i);
      var cuts := HarmIsDone(stream, i);
    }
  }

  /** A NUL before the command `go`: read byte by byte the command is handled, read at once it is lost. */
  lemma NulHidesACommand()
    ensures var stream := "\0go\n";
            Harmful(stream, 0) && TakeAll(START, stream).lines == ["go"]
            && Fit(START, [stream]) && Concat([stream]) == stream && Reads(START, [stream]).lines == []
  {
    var stream := "\0go\n";
    assert stream[1..] == "go\n" && "go\n"[1..] == "o\n" && "o\n"[1..] == "\n" && "\n"[1..] == "";
    assert "" + ['g'] == "g" && "g" + ['o'] == "go";
    assert TakeAll(START, stream) == TakeAll(START, "go\n");
    assert TakeAll(START, "go\n") == TakeAll(Reading([], "g"), "o\n");
    assert TakeAll(Reading([], "g"), "o\n") == TakeAll(Reading([], "go"), "\n");
    assert TakeAll(Reading([], "go"), "\n") == TakeAll(Reading(["go"], ""), "");
    assert "go\n"[2] == '\n' && '\n' in stream[1..];
    assert [stream][1..] == [] && UpToNul(stream) == "";
    assert stream + "" == stream;
  }

  // ---- what the commands are

  /** The lines of a stream and what follows the last newline. */
  function Lines(stream: string): Reading {
    if stream == "" then START
    else
      var before := Lines(stream[..|stream| - 1]);
      var c := stream[|stream| - 1];
      if c == '\n' then Reading(before.lines + [before.rest], "") else Reading(before.lines, before.rest + [c])
  }

  function WithoutNuls(stream: string): string {
    if stream == "" then ""
    else WithoutNuls(stream[..|stream| - 1]) + if stream[|stream| - 1] == '\0' then "" else [stream[|stream| - 1]]
  }

  /** What is left of a line after whole buffers of it are dropped. */
  function Tail(line: string): string {
    line[|line| / CAPACITY * CAPACITY..]
  }

  predicate AreTails(handled: seq<string>, lines: seq<string>) {
    |handled| == |lines| && forall k | 0 <= k < |lines| :: handled[k] == Tail(lines[k])
  }

  lemma TailGrows(line: string, c: char)
    ensures Tail(line + [c]) == if |Tail(line)| + 1 >= CAPACITY then "" else Tail(line) + [c]
    ensures Tail("") == ""
  {
    var n := |line| / CAPACITY;
    if |Tail(line)| + 1 >= CAPACITY {
      assert |line + [c]| == (n + 1) * CAPACITY;
      assert Tail(line + [c]) == (line + [c])[|line| + 1..];
    } else {
      assert |line + [c]| / CAPACITY == n;
      assert (line + [c])[n * CAPACITY..] == line[n * CAPACITY..] + [c];
    }
  }

  lemma OneByte(r: Reading, c: char)
    ensures TakeAll(r, [c]) == Take(r, c)
  {
    assert [c][1..] == "";
    assert TakeAll(Take(r, c), "") == Take(r, c);
  }

  /** Byte by byte every line arrives without its NULs and without the whole buffers it fills. */
  lemma {:induction false} TailsAreTaken(stream: string)
    ensures AreTails(TakeAll(START, stream).lines, Lines(WithoutNuls(stream)).lines)
    ensures TakeAll(START, stream).rest == Tail(Lines(WithoutNuls(stream)).rest)
    decreases |stream|
  {
    TailGrows("", ' ');
    if stream != "" {
      var front, c := stream[..|stream| - 1], stream[|stream| - 1];
      TailsAreTaken(front);
      assert stream == front + [c];
      TakeInPieces(START, front, [c]);
      OneByte(TakeAll(START, front), c);
      var text := WithoutNuls(front);
      assert WithoutNuls(stream) == if c == '\0' then text else text + [c] by { assert text + "" == text; }
      assert (text + [c])[..|text|] == text;
      hide TakeAll, Tail, WithoutNuls;
      TailGrows(Lines(text).rest, c);
    }
  }

  /** Where no NUL is harmful, that is what arrives, whatever the cuts. */
  lemma TailsArrive(stream: string, cuts: seq<string>)
    requires (forall i: nat :: !Harmful(stream, i)) && Fit(START, cuts) && Concat(cuts) == stream
    ensures AreTails(Reads(START, cuts).lines, Lines(WithoutNuls(stream)).lines)
  {
    CutsDoNotMatterExactly(stream);
    TailsAreTaken(stream);
  }

  /** The lines are what stands between the newlines. */
  lemma {:induction false} LinesAreBetweenNewlines(stream: string)
    ensures stream == Terminated(Lines(stream).lines) + Lines(stream).rest && '\n' !in Lines(stream).rest
    ensures forall k | 0 <= k < |Lines(stream).lines| :: '\n' !in Lines(stream).lines[k]
    decreases |stream|
  {
    if stream != "" {
      LinesAreBetweenNewlines(stream[..|stream| - 1]);
      var before := Lines(stream[..|stream| - 1]);
      assert (before.lines + [before.rest])[..|before.lines|] == before.lines;
    }
  }

  function Terminated(lines: seq<string>): string {
    if lines == [] then "" else Terminated(lines[..|lines| - 1]) + lines[|lines| - 1] + "\n"
  }

  predicate AllShort(r: Reading) {
    |r.rest| < CAPACITY && forall k | 0 <= k < |r.lines| :: |r.lines[k]| < CAPACITY
  }

  lemma {:induction false} ShortLinesAreTaken(stream: string)
    requires '\0' !in stream && AllShort(Lines(stream))
    ensures TakeAll(START, stream) == Lines(stream)
    decreases |stream|
  {
    if stream != "" {
      var front, c := stream[..|stream| - 1], stream[|stream| - 1];
      var before := Lines(front);
      assert stream == front + [c];
      assert AllShort(before) by {
        if c == '\n' { assert Lines(stream).lines[|before.lines|] == before.rest; }
        assert forall k | 0 <= k < |before.lines| :: Lines(stream).lines[k] == before.lines[k];
      }
      ShortLinesAreTaken(front);
      TakeInPieces(START, front, [c]);
      assert [c][1..] == "";
      assert TakeAll(before, [c]) == TakeAll(Take(before, c), "");
    }
  }

  /** Text without NULs whose lines fit arrives line by line, whatever the cuts. */
  lemma ShortLinesArriveWhole(stream: string, cuts: seq<string>)
    requires '\0' !in stream && AllShort(Lines(stream)) && Fit(START, cuts) && Concat(cuts) == stream
    ensures Reads(START, cuts).lines == Lines(stream).lines
  {
    CutsDoNotMatterExactly(stream);
    ShortLinesAreTaken(stream);
  }

  // ---- the buffer

  class CommandBuffer {
    const buf: array<char>
    var len: nat
    var handled: seq<string>

    ghost predicate Valid()
      reads this, buf
    {
      buf.Length == CAPACITY && len < CAPACITY && '\n' !in buf[..len] && '\0' !in buf[..len]
    }

    ghost function Now(): Reading
      reads this, buf
      requires Valid()
    {
      Reading(handled, buf[..len])
    }

    constructor ()
      ensures Valid() && fresh(buf) && Now() == START
    {
      buf := new char[CAPACITY](_ => '\0');
      len, handled := 0, [];
    }

    /** `read` into the free part of the buffer. */
    method Fill(chunk: string)
      requires buf.Length == CAPACITY && |chunk| <= CAPACITY - len
      modifies buf
      ensures buf[..len + |chunk|] == old(buf[..len]) + chunk
    {
      var i := 0;
      while i < |chunk|
        invariant 0 <= i <= |chunk| && buf[..len] == old(buf[..len]) && buf[len..len + i] == chunk[..i]
        modifies buf
      {
        buf[len + i] := chunk[i];
        i := i + 1;
      }
    }

    /** The loop over complete lines, up to the terminator; `line` is where the unfinished one starts and
        `stop` where it ends. */
    method HandleLines(end: nat) returns (line: nat, stop: nat)
      requires end <= buf.Length == CAPACITY
      modifies this`handled
      ensures line <= stop <= end && '\n' !in buf[line..stop] && '\0' !in buf[..stop] && (stop < end ==> buf[stop] == '\0')
      ensures TakeAll(Reading(old(handled), ""), buf[..stop]) == TakeAll(Reading(handled, ""), buf[line..stop])
    {
      ghost var text := buf[..end];
      line, stop := 0, 0;
      while stop < end && buf[stop] != '\0'
        invariant 0 <= line <= stop <= end && '\n' !in text[line..stop] && '\0' !in text[..stop]
        invariant TakeAll(Reading(old(handled), ""), text[..line]) == Reading(handled, "")
      {
        if buf[stop] == '\n' {
          LineTaken(old(handled), text, line, stop, handled);
          assert buf[line..stop] == text[line..stop];
          handled := handled + [buf[line..stop]];
          line := stop + 1;
        }
        stop := stop + 1;
      }
      assert buf[line..stop] == text[line..stop] && buf[..stop] == text[..line] + text[line..stop];
      TakeInPieces(Reading(old(handled), ""), text[..line], text[line..stop]);
    }

    /** `memmove` of the unfinished line to the front. */
    method MoveToFront(from: nat, count: nat)
      requires from + count <= buf.Length
      modifies buf
      ensures buf[..count] == old(buf[from..from + count])
    {
      var k := 0;
      while k < count
        invariant 0 <= k <= count
        invariant forall j | 0 <= j < k :: buf[j] == old(buf[from + j])
        invariant forall j | k <= j < buf.Length :: buf[j] == old(buf[j])
      {
        buf[k] := buf[from + k];
        k := k + 1;
      }
    }

    /** One `read`, then every complete line, then the unfinished one moved to the front. */
    method Receive(chunk: string)
      requires Valid() && 0 < |chunk| <= CAPACITY - len
      modifies this`len, this`handled, buf
      ensures Valid() && Now() == TakeAll(old(Now()), UpToNul(chunk))
    {
      hide TakeAll, UpToNul;
      ghost var kept, before := buf[..len], handled;
      Fill(chunk);
      ghost var text := buf[..len + |chunk|];
      var line, stop := HandleLines(len + |chunk|);
      ghost var piece := text[line..stop];
      assert buf[..stop] == text[..stop] && buf[line..stop] == piece;
      ReadTaken(before, kept, chunk, text, stop, handled, piece);
      MoveToFront(line, stop - line);
      len := stop - line;
      assert buf[..len] == piece;
      if len >= CAPACITY { len := 0; }
    }
  }

  lemma ReadTaken(before: seq<string>, kept: string, chunk: string, text: string, stop: nat, handled: seq<string>, piece: string)
    requires '\n' !in kept && '\0' !in kept && |kept| < CAPACITY && text == kept + chunk
    requires stop <= |text| && '\0' !in text[..stop] && (stop < |text| ==> text[stop] == '\0')
    requires '\n' !in piece && '\0' !in piece && |piece| <= CAPACITY
    requires TakeAll(Reading(before, ""), text[..stop]) == TakeAll(Reading(handled, ""), piece)
    ensures TakeAll(Reading(before, kept), UpToNul(chunk)) == Reading(handled, if |piece| == CAPACITY then "" else piece)
  {
    hide TakeAll, UpToNul;
    SeenBehind(kept, chunk, text, stop);
    TakeInPieces(Reading(before, ""), kept, UpToNul(chunk));
    NoNewlineYet(Reading(before, ""), kept);
    assert "" + kept == kept;
    Leftover(handled, piece);
  }

  /** A piece without a newline that leaves room is only appended. */
  lemma {:induction false} NoNewlineYet(r: Reading, piece: string)
    requires '\n' !in piece && '\0' !in piece && |r.rest| + |piece| < CAPACITY
    ensures TakeAll(r, piece) == Reading(r.lines, r.rest + piece)
    decreases |piece|
  {
    if piece == "" {
      assert r.rest + piece == r.rest;
    } else {
      NoNewlineYet(Take(r, piece[0]), piece[1..]);
      assert r.rest + [piece[0]] + piece[1..] == r.rest + piece;
    }
  }

  /** A complete line in the buffer is shorter than the buffer, so it is taken whole. */
  lemma LineTaken(before: seq<string>, text: string, line: nat, at: nat, handled: seq<string>)
    requires line <= at < |text| <= CAPACITY && text[at] == '\n' && '\n' !in text[line..at] && '\0' !in text[..at]
    requires TakeAll(Reading(before, ""), text[..line]) == Reading(handled, "")
    ensures TakeAll(Reading(before, ""), text[..at + 1]) == Reading(handled + [text[line..at]], "")
  {
    var piece := text[line..at];
    assert text[..at + 1] == text[..line] + (piece + "\n") && "" + piece == piece && "\n"[1..] == "";
    TakeInPieces(Reading(before, ""), text[..line], piece + "\n");
    TakeInPieces(Reading(handled, ""), piece, "\n");
    NoNewlineYet(Reading(handled, ""), piece);
  }

  /** What the string functions see of the buffer is the unfinished line and what they see of the read. */
  lemma SeenBehind(kept: string, chunk: string, text: string, stop: nat)
    requires '\0' !in kept && text == kept + chunk && stop <= |text| && '\0' !in text[..stop] && (stop < |text| ==> text[stop] == '\0')
    ensures text[..stop] == kept + UpToNul(chunk)
  {
    SeenPart(chunk);
    var seen := kept + UpToNul(chunk);
    assert text[..|seen|] == seen;
    assert forall k | 0 <= k < |seen| :: text[k] == seen[k] && seen[k] != '\0';
    assert forall k | 0 <= k < stop :: text[k] == text[..stop][k] && text[k] != '\0';
    assert |seen| < |text| ==> text[|seen|] == '\0';
  }

  /** What is left without a newline is kept, or dropped when it fills the buffer. */
  lemma Leftover(handled: seq<string>, piece: string)
    requires '\n' !in piece && '\0' !in piece && |piece| <= CAPACITY
    ensures TakeAll(Reading(handled, ""), piece) == Reading(handled, if |piece| == CAPACITY then "" else piece)
  {
    assert "" + piece == piece;
    if |piece| < CAPACITY {
      NoNewlineYet(Reading(handled, ""), piece);
    } else {
      FullBuffer(handled, piece);
    }
  }

  lemma FullBuffer(handled: seq<string>, piece: string)
    requires '\n' !in piece && '\0' !in piece && |piece| == CAPACITY
    ensures TakeAll(Reading(handled, ""), piece) == Reading(handled, "")
  {
    var front, last := piece[..CAPACITY - 1], piece[CAPACITY - 1];
    assert piece == front + [last] && "" + front == front;
    TakeInPieces(Reading(handled, ""), front, [last]);
    NoNewlineYet(Reading(handled, ""), front);
    hide TakeAll;
    LastByte(Reading(handled, front), last);
  }

  lemma LastByte(r: Reading, c: char)
    requires |r.rest| == CAPACITY - 1 && c != '\n' && c != '\0'
    ensures TakeAll(r, [c]) == Reading(r.lines, "")
  {
    assert [c][1..] == "";
  }

  /** The loop over reads. */
  method ReceiveAll(cuts: seq<string>) returns (handled: seq<string>)
    requires Fit(START, cuts)
    ensures handled == Reads(START, cuts).lines
  {
    var b := new CommandBuffer();
    var k := 0;
    assert cuts[0..] == cuts;
    while k < |cuts|
      invariant 0 <= k <= |cuts| && b.Valid() && fresh(b) && fresh(b.buf)
      invariant Fit(b.Now(), cuts[k..]) && Reads(b.Now(), cuts[k..]) == Reads(START, cuts)
    {
      assert cuts[k..][1..] == cuts[k + 1..];
      b.Receive(cuts[k]);
      k := k + 1;
    }
    handled := b.handled;
  }
}
