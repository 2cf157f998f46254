/** Replaying a cached turn in another protocol (`wire-proxy.ts` lines 1721-1734). */
module WireTranscode {
  import opened WireText
  import opened WireCalls
  import WireChat
  import WireResponses
  import WireAnthropic
  import WireGemini

  datatype Wire = ChatCompletions | Responses | Anthropic | Gemini

  /** The host's JSON on each protocol's frames; arguments are the same text in all of them. */
  datatype Host = Host(
    chat: Json<WireChat.ChatFrame>, responses: Json<WireResponses.ResponsesFrame>,
    anthropic: Json<WireAnthropic.AnthropicFrame>, gemini: Json<WireGemini.GeminiFrame>)

  ghost predicate LawfulHost(h: Host) {
    Lawful(h.chat) && Lawful(h.responses) && Lawful(h.anthropic) && Lawful(h.gemini)
  }

  /** `parseWireResponse` */
  function ParseBy(h: Host, wire: Wire, raw: string): Parsed {
    match wire
    case ChatCompletions => WireChat.Parse(h.chat, raw)
    case Responses => WireResponses.Parse(h.responses, raw)
    case Anthropic => WireAnthropic.Parse(h.anthropic, raw)
    case Gemini => WireGemini.Parse(h.gemini, raw)
  }

  function CallsIn(p: Parsed): (r: seq<Call>)
    ensures |r| == |p.toolCalls|
  {
    seq(|p.toolCalls|, k requires 0 <= k < |p.toolCalls| => p.toolCalls[k].call)
  }

  /** A target protocol carries a turn unchanged, except that responses needs ids to tell calls apart
      and Gemini needs every call's arguments to be an object. */
  predicate Carries(wire: Wire, calls: seq<Call>) {
    (wire.Responses? ==> WireResponses.DistinctIds(calls)) && (wire.Gemini? ==> WireGemini.AllRecords(calls))
  }

  method WriteChat(json: Json<WireChat.ChatFrame>, includeUsage: bool, text: string, calls: seq<Call>) returns (body: string)
    requires Lawful(json)
    ensures WireChat.Parse(json, body) == Turn(json, text, calls)
  {
    hide WireChat.TakeAll, WireChat.PhaseOf, WireChat.Parse, WireChat.Written, Frames, Lawful, PlainEvents, AllTimed, Turn, Body;
    var writer := new WireChat.ChatStream(json, includeUsage);
    if text != "" { writer.Text(text); }
    var k := 0;
    while k < |calls|
      invariant 0 <= k <= |calls| && writer.Valid() && fresh(writer)
      invariant writer.json == json && writer.text == text && writer.calls == calls[..k]
    {
      writer.ToolCall(calls[k]);
      k := k + 1;
    }
    assert calls[..k] == calls;
    writer.End();
    body := Body(json, writer.sent);
  }

  method WriteResponses(json: Json<WireResponses.ResponsesFrame>, text: string, calls: seq<Call>) returns (body: string)
    requires Lawful(json)
    ensures WireResponses.Parse(json, body) == Turn(json, text, WireResponses.Kept(calls))
  {
    hide WireResponses.TakeAll, WireResponses.PhaseOf, WireResponses.ItemsTell, WireResponses.ItemKnown, Gathered, WireResponses.Parse, WireResponses.Kept, WireResponses.Ids, WireResponses.Numbered, Frames, Lawful, PlainEvents, AllTimed, Turn, Body;
    var writer := new WireResponses.ResponsesStream(json);
    if text != "" { writer.Text(text); }
    var k := 0;
    while k < |calls|
      invariant 0 <= k <= |calls| && writer.Valid() && fresh(writer)
      invariant writer.json == json && writer.text == text && writer.calls == calls[..k]
    {
      writer.ToolCall(calls[k]);
      k := k + 1;
    }
    assert calls[..k] == calls;
    writer.End();
    body := Body(json, writer.sent);
  }

  method WriteAnthropic(json: Json<WireAnthropic.AnthropicFrame>, text: string, calls: seq<Call>) returns (body: string)
    requires Lawful(json)
    ensures WireAnthropic.Parse(json, body) == Turn(json, text, calls)
  {
    hide WireAnthropic.TakeAll, WireAnthropic.PhaseOf, WireAnthropic.Parse, WireAnthropic.Written, WireAnthropic.Below, Frames, Lawful, PlainEvents, AllTimed, Turn, Body;
    var writer := new WireAnthropic.AnthropicStream(json);
    if text != "" { writer.Text(text); }
    var k := 0;
    while k < |calls|
      invariant 0 <= k <= |calls| && writer.Valid() && fresh(writer)
      invariant writer.json == json && writer.text == text && writer.calls == calls[..k]
    {
      writer.ToolCall(calls[k]);
      k := k + 1;
    }
    assert calls[..k] == calls;
    writer.End();
    body := Body(json, writer.sent);
  }

  method WriteGemini(json: Json<WireGemini.GeminiFrame>, text: string, calls: seq<Call>) returns (body: string)
    requires Lawful(json)
    ensures WireGemini.Parse(json, body) == Turn(json, text, WireGemini.Objects(calls))
  {
    hide WireGemini.TakeAll, WireGemini.Parse, WireGemini.Take, WireGemini.Objects, Frames, Lawful, PlainEvents, AllTimed, Turn, Body;
    var writer := new WireGemini.GeminiStream(json);
    if text != "" { writer.Text(text); }
    var k := 0;
    while k < |calls|
      invariant 0 <= k <= |calls| && writer.Valid() && fresh(writer)
      invariant writer.json == json && writer.text == text && writer.calls == calls[..k]
    {
      writer.ToolCall(calls[k]);
      k := k + 1;
    }
    assert calls[..k] == calls;
    writer.End();
    body := Body(json, writer.sent);
  }

  /** The cached turn, written by the target's stream writer. Reading it back gives the same text and,
      exactly when the target carries them, the same calls in order. */
  method Transcode(h: Host, wire: Wire, includeUsage: bool, cached: Parsed) returns (body: string)
    requires LawfulHost(h)
    ensures ParseBy(h, wire, body).text == cached.text
    ensures CallsIn(ParseBy(h, wire, body)) == CallsIn(cached) <==> Carries(wire, CallsIn(cached))
    ensures ParseBy(h, wire, body).inputTokens == INPUT_TOKENS && ParseBy(h, wire, body).outputTokens == OUTPUT_TOKENS
  {
    var calls := CallsIn(cached);
    match wire
    case ChatCompletions => body := WriteChat(h.chat, includeUsage, cached.text, calls); TurnCalls(h.chat, cached.text, calls);
    case Responses =>
      body := WriteResponses(h.responses, cached.text, calls);
      TurnCalls(h.responses, cached.text, WireResponses.Kept(calls));
      WireResponses.AllKeptExactly(calls);
    case Anthropic => body := WriteAnthropic(h.anthropic, cached.text, calls); TurnCalls(h.anthropic, cached.text, calls);
    case Gemini =>
      body := WriteGemini(h.gemini, cached.text, calls);
      TurnCalls(h.gemini, cached.text, WireGemini.Objects(calls));
      WireGemini.AllObjectsExactly(calls);
  }

  lemma TurnCalls<F>(json: Json<F>, text: string, calls: seq<Call>)
    ensures Turn(json, text, calls).text == text && CallsIn(Turn(json, text, calls)) == calls
  {
  }

  /** From any protocol to any other and read again: the meaning of the turn is the same. */
  method RoundTrip(h: Host, source: Wire, raw: string, target: Wire, includeUsage: bool) returns (body: string)
    requires LawfulHost(h)
    ensures ParseBy(h, target, body).text == ParseBy(h, source, raw).text
    ensures CallsIn(ParseBy(h, target, body)) == CallsIn(ParseBy(h, source, raw)) <==> Carries(target, CallsIn(ParseBy(h, source, raw)))
  {
    body := Transcode(h, target, includeUsage, ParseBy(h, source, raw));
  }

  // ---- turns that do not survive

  lemma OneFrame<F(!new)>(json: Json<F>, f: F)
    requires Lawful(json)
    ensures DataFrames(json, json.write(f)) == [f]
  {
    TrimKeeps(json.write(f));
  }

  /** A chat-completions response whose one call has the array `[1]` as arguments: its calls reach any
      target but Gemini. */
  lemma ArrayArgumentsAreLost(h: Host)
    requires LawfulHost(h)
    ensures var call := WireChat.MessageCall("c", "f", Text(h.chat.writeArgs(List(["1"]))));
            var message := WireChat.Message(None, [call]);
            var raw := h.chat.write(WireChat.ChatFrame(None, Some(WireChat.Choice(Some(message), None))));
            var calls := CallsIn(ParseBy(h, ChatCompletions, raw));
            calls == [Call("c", "f", List(["1"]))] && forall wire :: Carries(wire, calls) <==> wire != Gemini
  {
    hide Lawful, Trim, DataFrames, SafeJsonParse;
    var call := WireChat.MessageCall("c", "f", Text(h.chat.writeArgs(List(["1"]))));
    var f := WireChat.ChatFrame(None, Some(WireChat.Choice(Some(WireChat.Message(None, [call])), None)));
    OneFrame(h.chat, f);
    ArgsComeBack(h.chat, List(["1"]));
    assert [f][..0] == [] && [call][1..] == [];
    assert WireChat.TakeAll(h.chat, [f]) == WireChat.Take(h.chat, WireChat.START, f);
    assert WireChat.MessageCalls(h.chat, [call]) == [Timed(h.chat, Call("c", "f", List(["1"])))];
    var calls := CallsIn(ParseBy(h, ChatCompletions, h.chat.write(f)));
    assert calls == [Call("c", "f", List(["1"]))];
    assert !WireGemini.AllRecords(calls) by { assert calls[0].args.List?; }
  }

  /** A Gemini response that calls one tool twice without ids: both calls are named by the tool, and its
      calls reach any target but responses. */
  lemma CallsWithoutIdsCollide(h: Host, name: string)
    requires LawfulHost(h)
    ensures var part := WireGemini.Part(None, Some(WireGemini.FunctionCall(None, Some(name), Nothing)));
            var raw := h.gemini.write(WireGemini.GeminiFrame(None, [[part, part]]));
            var calls := CallsIn(ParseBy(h, Gemini, raw));
            calls == [Call(name, name, NO_ARGS), Call(name, name, NO_ARGS)] && forall wire :: Carries(wire, calls) <==> wire != Responses
  {
    hide Lawful, Trim, DataFrames;
    var part := WireGemini.Part(None, Some(WireGemini.FunctionCall(None, Some(name), Nothing)));
    var f := WireGemini.GeminiFrame(None, [[part, part]]);
    var call := Call(name, name, NO_ARGS);
    OneFrame(h.gemini, f);
    assert [f][..0] == [] && [[part, part]][1..] == [] && [part, part] + [] == [part, part];
    assert [part, part][1..] == [part] && [part][1..] == [];
    assert WireGemini.TakeAll(h.gemini, [f]) == WireGemini.Take(h.gemini, WireGemini.START, f);
    assert WireGemini.CallsOf(h.gemini, [part]) == [call];
    assert WireGemini.CallsOf(h.gemini, [part, part]) == [call, call];
    assert WireGemini.AllParts([[part, part]]) == [part, part];
    var calls := CallsIn(ParseBy(h, Gemini, h.gemini.write(f)));
    assert calls == [call, call];
    assert !WireResponses.DistinctIds(calls) by { assert calls[0].id == calls[1].id; }
  }
}
