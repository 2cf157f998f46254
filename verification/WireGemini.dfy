/** The Gemini stream: its writer, its parser, and exactly which calls they carry unchanged. */
module WireGemini {
  import opened WireText
  import opened WireCalls

  // ---- frames, as far as the parser reads them

  datatype FunctionCall = FunctionCall(id: Option<string>, name: Option<string>, args: Given)
  datatype Part = Part(text: Option<string>, functionCall: Option<FunctionCall>)
  datatype UsageMetadata = UsageMetadata(promptTokenCount: Option<int>, candidatesTokenCount: Option<int>)
  datatype GeminiFrame = GeminiFrame(usageMetadata: Option<UsageMetadata>, candidates: seq<seq<Part>>)

  // ---- the parser

  function TextOf(parts: seq<Part>): string {
    if parts == [] then "" else (if parts[0].text.Some? then parts[0].text.value else "") + TextOf(parts[1..])
  }

  function CallOf(json: Json<GeminiFrame>, c: FunctionCall): Call {
    Call(if c.id.Some? then c.id.value else if c.name.Some? then c.name.value else "",
         if c.name.Some? then c.name.value else "", SafeJsonParse(json, c.args))
  }

  function CallsOf(json: Json<GeminiFrame>, parts: seq<Part>): seq<Call> {
    if parts == [] then []
    else (if parts[0].functionCall.Some? then [CallOf(json, parts[0].functionCall.value)] else []) + CallsOf(json, parts[1..])
  }

  function AllParts(candidates: seq<seq<Part>>): seq<Part> {
    if candidates == [] then [] else candidates[0] + AllParts(candidates[1..])
  }

  datatype Reading = Reading(text: string, calls: seq<Call>, inputTokens: int, outputTokens: int)

  const START := Reading("", [], INPUT_TOKENS, OUTPUT_TOKENS)

  function TakeUsage(r: Reading, usage: Option<UsageMetadata>): Reading {
    if usage.None? then r
    else
      r.(inputTokens := if usage.value.promptTokenCount.Some? then usage.value.promptTokenCount.value else r.inputTokens,
         outputTokens := if usage.value.candidatesTokenCount.Some? then usage.value.candidatesTokenCount.value else r.outputTokens)
  }

  function Take(json: Json<GeminiFrame>, r: Reading, f: GeminiFrame): Reading {
    var parts := AllParts(f.candidates);
    var r := TakeUsage(r, f.usageMetadata);
    r.(text := r.text + TextOf(parts), calls := r.calls + CallsOf(json, parts))
  }

  function TakeAll(json: Json<GeminiFrame>, frames: seq<GeminiFrame>): Reading {
    if frames == [] then START else Take(json, TakeAll(json, frames[..|frames| - 1]), frames[|frames| - 1])
  }

  function Parse(json: Json<GeminiFrame>, raw: string): Parsed {
    var r := TakeAll(json, DataFrames(json, raw));
    Parsed(r.text, AllTimed(json, r.calls), r.inputTokens, r.outputTokens)
  }

  method ParseWireResponse(json: Json<GeminiFrame>, raw: string) returns (r: Parsed)
    ensures r == Parse(json, raw)
  {
    var dataFrames := ReadFrames(json, raw);
    var text, calls, inputTokens, outputTokens := "", [], INPUT_TOKENS, OUTPUT_TOKENS;
    var k := 0;
    while k < |dataFrames|
      invariant 0 <= k <= |dataFrames|
      invariant TakeAll(json, dataFrames[..k]) == Reading(text, calls, inputTokens, outputTokens)
    {
      var frame := dataFrames[k];
      assert dataFrames[..k + 1][..k] == dataFrames[..k];
      if frame.usageMetadata.Some? {
        if frame.usageMetadata.value.promptTokenCount.Some? { inputTokens := frame.usageMetadata.value.promptTokenCount.value; }
        if frame.usageMetadata.value.candidatesTokenCount.Some? { outputTokens := frame.usageMetadata.value.candidatesTokenCount.value; }
      }
      text, calls := TakeParts(json, AllParts(frame.candidates), text, calls);
      k := k + 1;
    }
    assert dataFrames[..k] == dataFrames;
    r := Parsed(text, AllTimed(json, calls), inputTokens, outputTokens);
  }

  /** The loop over the parts of a frame. */
  method TakeParts(json: Json<GeminiFrame>, parts: seq<Part>, textBefore: string, callsBefore: seq<Call>) returns (text: string, calls: seq<Call>)
    ensures text == textBefore + TextOf(parts) && calls == callsBefore + CallsOf(json, parts)
  {
    text, calls := textBefore, callsBefore;
    var p := 0;
    assert parts[0..] == parts;
    while p < |parts|
      invariant 0 <= p <= |parts|
      invariant text + TextOf(parts[p..]) == textBefore + TextOf(parts)
      invariant calls + CallsOf(json, parts[p..]) == callsBefore + CallsOf(json, parts)
    {
      var part := parts[p];
      assert parts[p..][1..] == parts[p + 1..];
      if part.text.Some? { text := text + part.text.value; }
      if part.functionCall.Some? { calls := calls + [CallOf(json, part.functionCall.value)]; }
      p := p + 1;
    }
  }

  // ---- what any response says

  function PartsIn(f: GeminiFrame): seq<Part> {
    Gathered(f.candidates, (parts: seq<Part>) => parts)
  }

  function PromptTokensIn(f: GeminiFrame): Option<int> {
    if f.usageMetadata.Some? then f.usageMetadata.value.promptTokenCount else None
  }

  function CandidatesTokensIn(f: GeminiFrame): Option<int> {
    if f.usageMetadata.Some? then f.usageMetadata.value.candidatesTokenCount else None
  }

  function TextBy(part: Part): string {
    if part.text.Some? then part.text.value else ""
  }

  function CallBy(part: Part): seq<FunctionCall> {
    if part.functionCall.Some? then [part.functionCall.value] else []
  }

  lemma {:induction false} PartsInOrder(json: Json<GeminiFrame>, parts: seq<Part>)
    ensures TextOf(parts) == Gathered(parts, TextBy) && CallsOf(json, parts) == AllCalls(json, Gathered(parts, CallBy))
  {
    if parts != [] {
      PartsInOrder(json, parts[1..]);
      assert CallsOf(json, parts) == AllCalls(json, CallBy(parts[0])) + AllCalls(json, Gathered(parts[1..], CallBy));
    }
  }

  lemma {:induction false} CandidatesInOrder(candidates: seq<seq<Part>>)
    ensures AllParts(candidates) == Gathered(candidates, (parts: seq<Part>) => parts)
  {
    if candidates != [] { CandidatesInOrder(candidates[1..]); }
  }

  function AllCalls(json: Json<GeminiFrame>, calls: seq<FunctionCall>): (r: seq<Call>)
    ensures |r| == |calls|
  {
    seq(|calls|, k requires 0 <= k < |calls| => CallOf(json, calls[k]))
  }

  lemma {:induction false} TakesEverything(json: Json<GeminiFrame>, frames: seq<GeminiFrame>)
    ensures var r, parts := TakeAll(json, frames), Gathered(frames, PartsIn);
            && r.text == Gathered(parts, TextBy) && r.calls == AllCalls(json, Gathered(parts, CallBy))
            && IsLast(frames, PromptTokensIn, INPUT_TOKENS, r.inputTokens) && IsLast(frames, CandidatesTokensIn, OUTPUT_TOKENS, r.outputTokens)
    decreases |frames|
  {
    hide IsLast, Gathered, TakeAll, CallOf, AllParts, CallsOf, TextOf;
    if frames == [] {
      NothingTaken(json);
    } else {
      var front, f := frames[..|frames| - 1], frames[|frames| - 1];
      var before, parts := TakeAll(json, front), Gathered(front, PartsIn);
      TakesEverything(json, front);
      LastTaken(json, frames);
      GatheredLast(frames, PartsIn);
      LastSnoc(frames, PromptTokensIn, INPUT_TOKENS, before.inputTokens);
      LastSnoc(frames, CandidatesTokensIn, OUTPUT_TOKENS, before.outputTokens);
      CandidatesInOrder(f.candidates);
      PartsInOrder(json, AllParts(f.candidates));
      GatheredBoth(parts, PartsIn(f), TextBy);
      GatheredBoth(parts, PartsIn(f), CallBy);
    }
  }

  lemma NothingTaken(json: Json<GeminiFrame>)
    ensures TakeAll(json, []) == START && Gathered([], PartsIn) == [] && Gathered([], TextBy) == "" && Gathered([], CallBy) == []
    ensures IsLast([], PromptTokensIn, INPUT_TOKENS, INPUT_TOKENS) && IsLast([], CandidatesTokensIn, OUTPUT_TOKENS, OUTPUT_TOKENS)
  {
  }

  lemma LastTaken(json: Json<GeminiFrame>, frames: seq<GeminiFrame>)
    requires frames != []
    ensures TakeAll(json, frames) == Take(json, TakeAll(json, frames[..|frames| - 1]), frames[|frames| - 1])
  {
  }

  /** Any response is read as the text and the calls of all its parts in order, and the token counts it reports last.
      A call without an id goes by its name. */
  lemma ReadsWhatIsSaid(json: Json<GeminiFrame>, raw: string)
    ensures var frames := DataFrames(json, raw); var r := Parse(json, raw);
            var parts := Gathered(frames, PartsIn); var calls := Gathered(parts, CallBy);
            && r.text == Gathered(parts, TextBy)
            && IsLast(frames, PromptTokensIn, INPUT_TOKENS, r.inputTokens) && IsLast(frames, CandidatesTokensIn, OUTPUT_TOKENS, r.outputTokens)
            && |r.toolCalls| == |calls|
            && forall k | 0 <= k < |calls| ::
                 var name := if calls[k].name.Some? then calls[k].name.value else "";
                 IsCall(json, r.toolCalls[k], if calls[k].id.Some? then calls[k].id.value else name, name, SafeJsonParse(json, calls[k].args))
  {
    TakesEverything(json, DataFrames(json, raw));
  }

  // ---- what survives

  /** The writer puts arguments into the frame as a value, and the parser takes an array there for no arguments. */
  function Objects(calls: seq<Call>): (r: seq<Call>)
    ensures |r| == |calls|
  {
    seq(|calls|, k requires 0 <= k < |calls| => if calls[k].args.Record? then calls[k] else calls[k].(args := NO_ARGS))
  }

  predicate AllRecords(calls: seq<Call>) {
    forall k | 0 <= k < |calls| :: calls[k].args.Record?
  }

  /** All calls survive exactly when the arguments of each are an object. */
  lemma AllObjectsExactly(calls: seq<Call>)
    ensures Objects(calls) == calls <==> AllRecords(calls)
  {
    if k :| 0 <= k < |calls| && !calls[k].args.Record? {
      assert Objects(calls)[k] != calls[k];
    }
  }

  lemma ObjectsOfBoth(calls: seq<Call>, more: seq<Call>)
    ensures Objects(calls + more) == Objects(calls) + Objects(more)
  {
  }

  // ---- the writer

  /** Usage is sent in one frame only, and every frame has one candidate of one part. */
  predicate CountedAt(sent: seq<Sent<GeminiFrame>>, last: nat) {
    forall k | 0 <= k < |sent| ::
      sent[k].Frame? && (sent[k].f.usageMetadata.Some? <==> k == last) && |sent[k].f.candidates| == 1 && |sent[k].f.candidates[0]| == 1
  }

  class GeminiStream {
    const json: Json<GeminiFrame>
    var sent: seq<Sent<GeminiFrame>>
    ghost var text: string
    ghost var calls: seq<Call>

    ghost predicate Valid()
      reads this
    {
      Lawful(json) && PlainEvents(sent) && CountedAt(sent, |sent|) && TakeAll(json, Frames(sent)) == Reading(text, Objects(calls), INPUT_TOKENS, OUTPUT_TOKENS)
    }

    constructor (json: Json<GeminiFrame>)
      requires Lawful(json)
      ensures Valid() && text == "" && calls == [] && this.json == json
    {
      this.json, sent, text, calls := json, [], "", [];
    }

    method SendPart(part: Part, ghost more: seq<Call>)
      requires Valid() && CallsOf(json, [part]) == Objects(more)
      modifies this
      ensures Valid() && text == old(text) + TextOf([part]) && calls == old(calls) + more
    {
      var f := GeminiFrame(None, [[part]]);
      OneMore(json, sent, f);
      assert AllParts([[part]]) == [part];
      ObjectsOfBoth(calls, more);
      sent := sent + [Frame("", f)];
      text, calls := text + TextOf([part]), calls + more;
    }

    method Text(chunk: string)
      requires Valid()
      modifies this
      ensures Valid() && text == old(text) + chunk && calls == old(calls)
    {
      assert [Part(Some(chunk), None)][1..] == [];
      SendPart(Part(Some(chunk), None), []);
    }

    method ToolCall(call: Call)
      requires Valid()
      modifies this
      ensures Valid() && text == old(text) && calls == old(calls) + [call]
    {
      var part := Part(None, Some(FunctionCall(Some(call.id), Some(call.name), Structured(call.args))));
      assert [part][1..] == [];
      assert CallsOf(json, [part]) == Objects([call]);
      SendPart(part, [call]);
    }

    /** The stream that `end` completes counts in its last frame, and is read back with an array of arguments as no arguments. */
    method End()
      requires Valid()
      modifies this`sent
      ensures PlainEvents(sent) && Parse(json, Body(json, sent)) == Turn(json, text, Objects(calls))
      ensures sent != [] && CountedAt(sent, |sent| - 1)
    {
      var part := Part(Some(""), None);
      var f := GeminiFrame(Some(UsageMetadata(Some(INPUT_TOKENS), Some(OUTPUT_TOKENS))), [[part]]);
      OneMore(json, sent, f);
      assert AllParts([[part]]) == [part] && [part][1..] == [];
      assert TextOf([part]) == "" && CallsOf(json, [part]) == [] && text + "" == text && Objects(calls) + [] == Objects(calls);
      sent := sent + [Frame("", f)];
      SentFramesAreFound(json, sent);
    }
  }

  lemma OneMore(json: Json<GeminiFrame>, sent: seq<Sent<GeminiFrame>>, f: GeminiFrame)
    ensures TakeAll(json, Frames(sent + [Frame("", f)])) == Take(json, TakeAll(json, Frames(sent)), f)
  {
    FramesSnoc(sent, Frame("", f));
    assert (Frames(sent) + [f])[..|Frames(sent)|] == Frames(sent);
  }
}
