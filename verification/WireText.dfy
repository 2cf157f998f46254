/** The text layer of `wire-proxy.ts`: server-sent events on the way out, data lines on the way in.
    The host's JSON text is a parameter. */
module WireText {

  datatype Option<T> = None | Some(value: T)

  /** What `typeof` calls an object: an object proper or an array, each value as `JSON.stringify` writes it. */
  datatype Args = Record(entries: map<string, string>) | List(items: seq<string>)

  const NO_ARGS := Record(map[])

  /** What a frame carries as arguments: JSON text, an object or array, or anything else. */
  datatype Given = Text(raw: string) | Structured(args: Args) | Nothing

  /** `JSON.stringify` and `JSON.parse`: `write` and `read` on protocol frames, `writeArgs` and `readArgs` on
      tool arguments. Reading gives `None` for a syntax error; `readArgs` also for `null`, a number, a
      string or a boolean, but not for an array. */
  datatype Json<!F> = Json(
    write: F -> string, read: string -> Option<F>,
    writeArgs: Args -> string, readArgs: string -> Option<Args>, timeoutOf: Args -> Option<real>)

  /** Frames are written in braces on one line, arrays in brackets, and reading inverts writing. */
  ghost predicate Lawful<F(!new)>(json: Json<F>) {
    && (forall f :: IsObjectText(json.write(f)) && json.read(json.write(f)) == Some(f))
    && (forall a :: IsArgsText(json.writeArgs(a)) && json.readArgs(json.writeArgs(a)) == Some(a))
  }

  predicate IsObjectText(t: string) {
    |t| >= 2 && t[0] == '{' && t[|t| - 1] == '}' && '\n' !in t
  }

  predicate IsArgsText(t: string) {
    |t| >= 2 && t[0] in "{[" && t[|t| - 1] in "}]"
  }

  // ---- JavaScript strings

  predicate IsSpace(c: char) {
    c in " \t\n\r" || c == 0xB as char || c == 0xC as char || c == 0xA0 as char || c == 0x1680 as char
    || 0x2000 as char <= c <= 0x200A as char || c == 0x2028 as char || c == 0x2029 as char || c == 0x202F as char
    || c == 0x205F as char || c == 0x3000 as char || c == 0xFEFF as char
  }

  function TrimStart(s: string): string {
    if s != "" && IsSpace(s[0]) then TrimStart(s[1..]) else s
  }

  function TrimEnd(s: string): string {
    if s != "" && IsSpace(s[|s| - 1]) then TrimEnd(s[..|s| - 1]) else s
  }

  function Trim(s: string): string {
    TrimEnd(TrimStart(s))
  }

  function IndexOfNewline(s: string): (i: nat)
    ensures i <= |s| && '\n' !in s[..i] && (i < |s| ==> s[i] == '\n')
  {
    if s == "" || s[0] == '\n' then 0 else 1 + IndexOfNewline(s[1..])
  }

  /** `split('\n')` */
  function Split(s: string): seq<string> {
    var i := IndexOfNewline(s);
    if i == |s| then [s] else [s[..i]] + Split(s[i + 1..])
  }

  /** The pieces a stream is cut into. */
  function Halves(text: string): seq<string> {
    var mid := (|text| + 1) / 2;
    (if text[..mid] != "" then [text[..mid]] else []) + (if text[mid..] != "" then [text[mid..]] else [])
  }

  function Join(pieces: seq<string>): string {
    if pieces == [] then "" else pieces[0] + Join(pieces[1..])
  }

  lemma JoinStep(pieces: seq<string>, k: nat, before: string)
    requires k <= |pieces|
    ensures before + Join(pieces[k..]) == if k < |pieces| then before + pieces[k] + Join(pieces[k + 1..]) else before
    ensures k == 0 ==> "" + Join(pieces[k..]) == Join(pieces)
  {
    assert pieces[0..] == pieces;
    if k < |pieces| { assert pieces[k..][1..] == pieces[k + 1..]; }
  }

  lemma HalvesJoin(text: string)
    ensures Join(Halves(text)) == text && |Halves(text)| <= 2
  {
    var mid := (|text| + 1) / 2;
    assert text[..mid] + text[mid..] == text;
    if text[..mid] != "" && text[mid..] != "" {
      var second := [text[mid..]];
      assert Halves(text)[1..] == second && second[1..] == [];
      assert Join(second) == text[mid..] + Join([]);
    } else if text[..mid] != "" {
      assert Halves(text)[1..] == [];
    }
  }

  // ---- tool arguments

  /** An array is taken as text and refused as a value. */
  function SafeJsonParse<F>(json: Json<F>, given: Given): Args {
    match given
    case Structured(args) => if args.Record? then args else NO_ARGS
    case Text(raw) =>
      if Trim(raw) == "" then NO_ARGS
      else if json.readArgs(raw).Some? then json.readArgs(raw).value else NO_ARGS
    case Nothing => NO_ARGS
  }

  lemma ArgsComeBack<F(!new)>(json: Json<F>, a: Args)
    requires Lawful(json)
    ensures SafeJsonParse(json, Text(json.writeArgs(a))) == a && json.writeArgs(a) != ""
  {
    TrimKeeps(json.writeArgs(a));
  }

  lemma TrimKeeps(s: string)
    requires s != "" && !IsSpace(s[0]) && !IsSpace(s[|s| - 1])
    ensures Trim(s) == s
  {
  }

  predicate Blank(s: string) {
    forall k | 0 <= k < |s| :: IsSpace(s[k])
  }

  /** Arguments are those that are given as an object, or as text that is not blank and reads as an object or array. */
  lemma ArgumentsExactly<F>(json: Json<F>, given: Given, a: Args)
    requires a != NO_ARGS
    ensures SafeJsonParse(json, given) == a <==>
            || (given == Structured(a) && a.Record?)
            || (given.Text? && !Blank(given.raw) && json.readArgs(given.raw) == Some(a))
  {
    if given.Text? { TrimIsBlankExactly(given.raw); }
  }

  /** What is left after trimming: the middle, with nothing but spaces around it. */
  lemma {:induction false} TrimEndCuts(s: string) returns (after: string)
    ensures s == TrimEnd(s) + after && Blank(after)
    ensures TrimEnd(s) != "" ==> !IsSpace(TrimEnd(s)[|TrimEnd(s)| - 1])
    decreases |s|
  {
    if s != "" && IsSpace(s[|s| - 1]) {
      var rest := TrimEndCuts(s[..|s| - 1]);
      after := rest + [s[|s| - 1]];
    } else {
      after := "";
    }
  }

  lemma {:induction false} TrimStartCuts(s: string) returns (before: string)
    ensures s == before + TrimStart(s) && Blank(before)
    ensures TrimStart(s) != "" ==> !IsSpace(TrimStart(s)[0])
    decreases |s|
  {
    if s != "" && IsSpace(s[0]) {
      var rest := TrimStartCuts(s[1..]);
      before := [s[0]] + rest;
    } else {
      before := "";
    }
  }

  predicate Tight(s: string) {
    s != "" ==> !IsSpace(s[0]) && !IsSpace(s[|s| - 1])
  }

  lemma TrimCuts(s: string) returns (before: string, after: string)
    ensures s == before + Trim(s) + after && Blank(before) && Blank(after) && Tight(Trim(s))
  {
    before := TrimStartCuts(s);
    after := TrimEndCuts(TrimStart(s));
    assert Trim(s) != "" ==> Trim(s)[0] == TrimStart(s)[0];
  }

  lemma TrimIsBlankExactly(s: string)
    ensures Trim(s) == "" <==> Blank(s)
  {
    var before, after := TrimCuts(s);
    if Trim(s) != "" { assert s[|before|] == Trim(s)[0]; }
  }

  lemma {:induction false} TrimStartKeeps(before: string, t: string)
    requires Blank(before) && t != "" && !IsSpace(t[0])
    ensures TrimStart(before + t) == t
  {
    if before != "" {
      assert (before + t)[1..] == before[1..] + t;
      TrimStartKeeps(before[1..], t);
    } else {
      assert before + t == t;
    }
  }

  lemma {:induction false} TrimEndKeeps(t: string, after: string)
    requires Blank(after) && t != "" && !IsSpace(t[|t| - 1])
    ensures TrimEnd(t + after) == t
    decreases |after|
  {
    if after != "" {
      assert (t + after)[..|t + after| - 1] == t + after[..|after| - 1];
      TrimEndKeeps(t, after[..|after| - 1]);
    } else {
      assert t + after == t;
    }
  }

  lemma TrimFinds(before: string, t: string, after: string)
    requires Blank(before) && Blank(after) && t != "" && Tight(t)
    ensures Trim(before + t + after) == t
  {
    assert before + t + after == before + (t + after);
    TrimStartKeeps(before, t + after);
    TrimEndKeeps(t, after);
  }

  // ---- events out

  /** One call of `send`: a frame, or the literal end mark. */
  datatype Sent<F> = Frame(event: string, f: F) | Done

  function Payload<F>(json: Json<F>, m: Sent<F>): string {
    if m.Done? then "[DONE]" else json.write(m.f)
  }

  function Render<F>(json: Json<F>, m: Sent<F>): string {
    (if m.Frame? && m.event != "" then "event: " + m.event + "\n" else "") + ("data: " + Payload(json, m) + "\n\n")
  }

  /** The response body. */
  function Body<F>(json: Json<F>, sent: seq<Sent<F>>): string {
    if sent == [] then "" else Render(json, sent[0]) + Body(json, sent[1..])
  }

  predicate PlainEvents<F>(sent: seq<Sent<F>>) {
    forall k | 0 <= k < |sent| && sent[k].Frame? :: '\n' !in sent[k].event
  }

  // ---- data lines in

  function FrameOf<F>(json: Json<F>, line: string): seq<F> {
    if !("data:" <= line) then []
    else
      var payload := Trim(line[5..]);
      if payload == "" || payload == "[DONE]" then []
      else if json.read(payload).Some? then [json.read(payload).value] else []
  }

  ghost predicate IsDataLine<F>(json: Json<F>, line: string, payload: string, f: F) {
    payload != "" && Tight(payload) && payload != "[DONE]" && json.read(payload) == Some(f) && "data:" <= line
    && exists before, after :: Blank(before) && Blank(after) && line[5..] == before + payload + after
  }

  /** A line gives a frame exactly when it is a field name, the text of the frame, and spaces around that. */
  lemma DataLinesExactly<F(!new)>(json: Json<F>, line: string, f: F)
    ensures f in FrameOf(json, line) <==> exists payload :: IsDataLine(json, line, payload, f)
    ensures |FrameOf(json, line)| <= 1
  {
    hide Trim, Blank, Tight;
    if f in FrameOf(json, line) {
      var before, after := TrimCuts(line[5..]);
      assert IsDataLine(json, line, Trim(line[5..]), f);
    }
    if payload :| IsDataLine(json, line, payload, f) {
      var before, after :| Blank(before) && Blank(after) && line[5..] == before + payload + after;
      TrimFinds(before, payload, after);
    }
  }

  /** The lines are what stands between the newlines. */
  lemma {:induction false} SplitIsUndoneByJoining(s: string)
    ensures Split(s) != [] && JoinLines(Split(s)) == s && forall k | 0 <= k < |Split(s)| :: '\n' !in Split(s)[k]
    decreases |s|
  {
    var i := IndexOfNewline(s);
    if i < |s| {
      SplitIsUndoneByJoining(s[i + 1..]);
      assert Split(s)[1..] == Split(s[i + 1..]);
      assert s == s[..i] + "\n" + s[i + 1..];
    } else {
      assert s[..i] == s && [s][1..] == [];
    }
  }

  function JoinLines(lines: seq<string>): string {
    if lines == [] then "" else if lines[1..] == [] then lines[0] else lines[0] + "\n" + JoinLines(lines[1..])
  }

  function FramesOf<F>(json: Json<F>, lines: seq<string>): seq<F> {
    if lines == [] then [] else FrameOf(json, lines[0]) + FramesOf(json, lines[1..])
  }

  /** The frames `parseWireResponse` finds in a raw response. */
  function DataFrames<F>(json: Json<F>, raw: string): seq<F> {
    var trimmed := Trim(raw);
    if "{" <= trimmed then if json.read(trimmed).Some? then [json.read(trimmed).value] else []
    else FramesOf(json, Split(raw))
  }

  /** The loop over lines. */
  method ReadFrames<F>(json: Json<F>, raw: string) returns (dataFrames: seq<F>)
    ensures dataFrames == DataFrames(json, raw)
  {
    hide FramesOf, Split, Trim;
    dataFrames := [];
    var trimmed := Trim(raw);
    if "{" <= trimmed {
      if json.read(trimmed).Some? { dataFrames := [json.read(trimmed).value]; }
      return;
    }
    var lines := Split(raw);
    var k := 0;
    assert lines[0..] == lines;
    while k < |lines|
      invariant 0 <= k <= |lines|
      invariant dataFrames + FramesOf(json, lines[k..]) == FramesOf(json, lines)
    {
      var line := lines[k];
      FramesStep(json, lines, k, dataFrames);
      k := k + 1;
      if !("data:" <= line) { continue; }
      var payload := Trim(line[5..]);
      if payload == "" || payload == "[DONE]" { continue; }
      if json.read(payload).Some? { dataFrames := dataFrames + [json.read(payload).value]; }
    }
    FramesStep(json, lines, k, dataFrames);
  }

  lemma FramesStep<F>(json: Json<F>, lines: seq<string>, k: nat, before: seq<F>)
    requires k <= |lines|
    ensures k < |lines| ==> before + FramesOf(json, lines[k..]) == before + FrameOf(json, lines[k]) + FramesOf(json, lines[k + 1..])
    ensures k < |lines| && FrameOf(json, lines[k]) == [] ==> before + FrameOf(json, lines[k]) == before
    ensures k == |lines| ==> before + FramesOf(json, lines[k..]) == before
  {
    if k < |lines| { assert lines[k..][1..] == lines[k + 1..]; }
  }

  // ---- what was sent is what is found

  function Frames<F>(sent: seq<Sent<F>>): seq<F> {
    if sent == [] then []
    else (if sent[0].Frame? then [sent[0].f] else []) + Frames(sent[1..])
  }

  lemma {:induction false} FramesSnoc<F>(sent: seq<Sent<F>>, m: Sent<F>)
    ensures Frames(sent + [m]) == if m.Frame? then Frames(sent) + [m.f] else Frames(sent)
  {
    if sent == [] {
      assert [m][1..] == [];
    } else {
      FramesSnoc(sent[1..], m);
      assert (sent + [m])[1..] == sent[1..] + [m];
    }
  }

  lemma {:induction false} NewlineAt(line: string, rest: string)
    requires '\n' !in line
    ensures IndexOfNewline(line + ("\n" + rest)) == |line|
  {
    if line != "" {
      NewlineAt(line[1..], rest);
      assert (line + ("\n" + rest))[1..] == line[1..] + ("\n" + rest);
    }
  }

  lemma SplitLine(line: string, rest: string)
    requires '\n' !in line
    ensures Split(line + ("\n" + rest)) == [line] + Split(rest)
  {
    var s := line + ("\n" + rest);
    NewlineAt(line, rest);
    assert s[..|line|] == line && s[|line| + 1..] == rest;
  }

  lemma DataLine<F(!new)>(json: Json<F>, m: Sent<F>)
    requires Lawful(json)
    ensures '\n' !in "data: " + Payload(json, m)
    ensures FrameOf(json, "data: " + Payload(json, m)) == if m.Frame? then [m.f] else []
  {
    var line := "data: " + Payload(json, m);
    assert line[5..] == " " + Payload(json, m);
    assert (" " + Payload(json, m))[1..] == Payload(json, m);
    assert TrimStart(" " + Payload(json, m)) == Payload(json, m);
    TrimKeeps(Payload(json, m));
    if m.Frame? { assert Payload(json, m)[0] != "[DONE]"[0]; }
  }

  lemma LineFrames<F>(json: Json<F>, line: string, rest: string)
    requires '\n' !in line
    ensures FramesOf(json, Split(line + ("\n" + rest))) == FrameOf(json, line) + FramesOf(json, Split(rest))
  {
    SplitLine(line, rest);
    assert ([line] + Split(rest))[1..] == Split(rest);
  }

  lemma RenderedFrame<F(!new)>(json: Json<F>, m: Sent<F>, rest: string)
    requires Lawful(json) && (m.Frame? ==> '\n' !in m.event)
    ensures FramesOf(json, Split(Render(json, m) + rest)) == (if m.Frame? then [m.f] else []) + FramesOf(json, Split(rest))
  {
    hide FramesOf, Split, FrameOf, Payload;
    var line := "data: " + Payload(json, m);
    var blank := "" + ("\n" + rest);
    DataLine(json, m);
    LineFrames(json, line, blank);
    LineFrames(json, "", rest);
    NoFrame(json, "");
    if m.Frame? && m.event != "" {
      var event := "event: " + m.event;
      assert Render(json, m) + rest == event + ("\n" + (line + ("\n" + blank)));
      LineFrames(json, event, line + ("\n" + blank));
      NoFrame(json, event);
    } else {
      assert Render(json, m) + rest == line + ("\n" + blank);
    }
  }

  /** An event is its name if it has one, one line of data, and the blank line that ends it. */
  lemma EventsAreBlocksOfLines<F(!new)>(json: Json<F>, m: Sent<F>, rest: string)
    requires Lawful(json) && (m.Frame? ==> '\n' !in m.event)
    ensures Split(Render(json, m) + rest)
            == (if m.Frame? && m.event != "" then ["event: " + m.event] else []) + ["data: " + Payload(json, m), ""] + Split(rest)
  {
    hide Split, Payload;
    var line, blank := "data: " + Payload(json, m), "" + ("\n" + rest);
    DataLine(json, m);
    SplitLine(line, blank);
    SplitLine("", rest);
    if m.Frame? && m.event != "" {
      var event := "event: " + m.event;
      assert Render(json, m) + rest == event + ("\n" + (line + ("\n" + blank)));
      SplitLine(event, line + ("\n" + blank));
    } else {
      assert Render(json, m) + rest == line + ("\n" + blank);
    }
  }

  lemma NoFrame<F>(json: Json<F>, line: string)
    requires line == "" || line[0] != 'd'
    ensures FrameOf(json, line) == []
  {
  }

  lemma {:induction false} BodyFrames<F(!new)>(json: Json<F>, sent: seq<Sent<F>>)
    requires Lawful(json) && PlainEvents(sent)
    ensures FramesOf(json, Split(Body(json, sent))) == Frames(sent)
  {
    if sent == [] {
      assert Split("") == [""] && [""][1..] == [];
    } else {
      RenderedFrame(json, sent[0], Body(json, sent[1..]));
      BodyFrames(json, sent[1..]);
    }
  }

  /** Reading a stream finds exactly the frames that were sent, in order. */
  lemma SentFramesAreFound<F(!new)>(json: Json<F>, sent: seq<Sent<F>>)
    requires Lawful(json) && PlainEvents(sent)
    ensures DataFrames(json, Body(json, sent)) == Frames(sent)
  {
    BodyFrames(json, sent);
    hide FramesOf, Split, Frames, Lawful, PlainEvents, Trim;
    if sent != [] {
      BodyStarts(json, sent);
      FirstStays(Body(json, sent));
    } else {
      assert Trim("") == "";
    }
  }

  lemma BodyStarts<F>(json: Json<F>, sent: seq<Sent<F>>)
    requires sent != []
    ensures Body(json, sent) != "" && !IsSpace(Body(json, sent)[0]) && Body(json, sent)[0] != '{'
  {
    var body := Body(json, sent);
    assert body[0] == 'd' || body[0] == 'e';
  }

  lemma {:induction false} FirstStays(s: string)
    requires s != "" && !IsSpace(s[0])
    ensures Trim(s) != "" && Trim(s)[0] == s[0]
    decreases |s|
  {
    if IsSpace(s[|s| - 1]) && |s| > 1 {
      FirstStays(s[..|s| - 1]);
      assert TrimStart(s[..|s| - 1]) == s[..|s| - 1];
    }
  }
}
