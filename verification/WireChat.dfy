/** The chat-completions stream: its writer, its parser, and that they agree. */
module WireChat {
  import opened WireText
  import opened WireCalls

  // ---- frames, as far as the parser reads them; an absent string is ""

  datatype ToolDelta = ToolDelta(index: Option<nat>, id: string, name: string, arguments: string)
  datatype MessageCall = MessageCall(id: string, name: string, arguments: Given)
  datatype Message = Message(content: Option<string>, toolCalls: seq<MessageCall>)
  datatype Delta = Delta(content: Option<string>, toolCalls: seq<ToolDelta>)
  datatype Choice = Choice(message: Option<Message>, delta: Option<Delta>)
  datatype Usage = Usage(promptTokens: Option<int>, completionTokens: Option<int>)
  datatype ChatFrame = ChatFrame(usage: Option<Usage>, choice: Option<Choice>)

  // ---- the parser

  datatype Partial = Partial(id: string, name: string, argChunks: string)
  datatype Reading = Reading(text: string, toolCalls: seq<ParsedCall>, byIndex: Entries<Partial>, inputTokens: int, outputTokens: int)

  const START := Reading("", [], [], INPUT_TOKENS, OUTPUT_TOKENS)

  function Merge(existing: Partial, tc: ToolDelta): Partial {
    Partial(if tc.id != "" then tc.id else existing.id, if tc.name != "" then tc.name else existing.name, existing.argChunks + tc.arguments)
  }

  function TakeDeltas(byIndex: Entries<Partial>, deltas: seq<ToolDelta>): Entries<Partial>
    decreases deltas
  {
    if deltas == [] then byIndex
    else
      var index := if deltas[0].index.Some? then deltas[0].index.value else 0;
      var existing := if Get(byIndex, index).Some? then Get(byIndex, index).value else Partial("", "", "");
      TakeDeltas(Set(byIndex, index, Merge(existing, deltas[0])), deltas[1..])
  }

  function MessageCalls(json: Json<ChatFrame>, calls: seq<MessageCall>): seq<ParsedCall> {
    if calls == [] then []
    else [Timed(json, Call(calls[0].id, calls[0].name, SafeJsonParse(json, calls[0].arguments)))] + MessageCalls(json, calls[1..])
  }

  function TakeUsage(r: Reading, usage: Option<Usage>): Reading {
    if usage.None? then r
    else
      r.(inputTokens := if usage.value.promptTokens.Some? then usage.value.promptTokens.value else r.inputTokens,
         outputTokens := if usage.value.completionTokens.Some? then usage.value.completionTokens.value else r.outputTokens)
  }

  function TakeMessage(json: Json<ChatFrame>, r: Reading, message: Option<Message>): Reading {
    if message.None? then r
    else
      r.(text := if message.value.content.Some? then r.text + message.value.content.value else r.text,
         toolCalls := r.toolCalls + MessageCalls(json, message.value.toolCalls))
  }

  function TakeDelta(r: Reading, delta: Option<Delta>): Reading {
    if delta.None? then r
    else
      r.(text := if delta.value.content.Some? then r.text + delta.value.content.value else r.text,
         byIndex := TakeDeltas(r.byIndex, delta.value.toolCalls))
  }

  function Take(json: Json<ChatFrame>, r: Reading, f: ChatFrame): Reading {
    var r := TakeUsage(r, f.usage);
    if f.choice.None? then r else TakeDelta(TakeMessage(json, r, f.choice.value.message), f.choice.value.delta)
  }

  function TakeAll(json: Json<ChatFrame>, frames: seq<ChatFrame>): Reading {
    if frames == [] then START else Take(json, TakeAll(json, frames[..|frames| - 1]), frames[|frames| - 1])
  }

  function CallsOf(json: Json<ChatFrame>, entries: Entries<Partial>): seq<ParsedCall> {
    if entries == [] then []
    else [Timed(json, Call(entries[0].1.id, entries[0].1.name, SafeJsonParse(json, Text(entries[0].1.argChunks))))] + CallsOf(json, entries[1..])
  }

  function Finish(json: Json<ChatFrame>, r: Reading): Parsed {
    Parsed(r.text, r.toolCalls + CallsOf(json, SortEntries(r.byIndex)), r.inputTokens, r.outputTokens)
  }

  /** `parseWireResponse` on this protocol. */
  function Parse(json: Json<ChatFrame>, raw: string): Parsed {
    Finish(json, TakeAll(json, DataFrames(json, raw)))
  }

  method ParseWireResponse(json: Json<ChatFrame>, raw: string) returns (r: Parsed)
    ensures r == Parse(json, raw)
  {
    var dataFrames := ReadFrames(json, raw);
    var text, inputTokens, outputTokens := "", INPUT_TOKENS, OUTPUT_TOKENS;
    var toolCalls: seq<ParsedCall>, byIndex: Entries<Partial> := [], [];
    var k := 0;
    while k < |dataFrames|
      invariant 0 <= k <= |dataFrames|
      invariant TakeAll(json, dataFrames[..k]) == Reading(text, toolCalls, byIndex, inputTokens, outputTokens)
    {
      var frame := dataFrames[k];
      assert dataFrames[..k + 1][..k] == dataFrames[..k];
      k := k + 1;
      if frame.usage.Some? {
        if frame.usage.value.promptTokens.Some? { inputTokens := frame.usage.value.promptTokens.value; }
        if frame.usage.value.completionTokens.Some? { outputTokens := frame.usage.value.completionTokens.value; }
      }
      if frame.choice.None? { continue; }
      var choice := frame.choice.value;
      if choice.message.Some? {
        if choice.message.value.content.Some? { text := text + choice.message.value.content.value; }
        toolCalls := toolCalls + MessageCalls(json, choice.message.value.toolCalls);
      }
      if choice.delta.Some? {
        if choice.delta.value.content.Some? { text := text + choice.delta.value.content.value; }
        byIndex := TakeDeltas(byIndex, choice.delta.value.toolCalls);
      }
    }
    assert dataFrames[..k] == dataFrames;
    r := Parsed(text, toolCalls + CallsOf(json, SortEntries(byIndex)), inputTokens, outputTokens);
  }

  // ---- what any response says

  function TextIn(f: ChatFrame): string {
    if f.choice.None? then ""
    else
      var message, delta := f.choice.value.message, f.choice.value.delta;
      (if message.Some? && message.value.content.Some? then message.value.content.value else "")
      + (if delta.Some? && delta.value.content.Some? then delta.value.content.value else "")
  }

  function PromptTokensIn(f: ChatFrame): Option<int> {
    if f.usage.Some? then f.usage.value.promptTokens else None
  }

  function CompletionTokensIn(f: ChatFrame): Option<int> {
    if f.usage.Some? then f.usage.value.completionTokens else None
  }

  function MessageCallsIn(f: ChatFrame): seq<MessageCall> {
    if f.choice.Some? && f.choice.value.message.Some? then f.choice.value.message.value.toolCalls else []
  }

  function DeltasIn(f: ChatFrame): seq<ToolDelta> {
    if f.choice.Some? && f.choice.value.delta.Some? then f.choice.value.delta.value.toolCalls else []
  }

  function IndexOf(tc: ToolDelta): nat {
    if tc.index.Some? then tc.index.value else 0
  }

  function IdAt(index: nat): ToolDelta -> Option<string> {
    (tc: ToolDelta) => if IndexOf(tc) == index && tc.id != "" then Some(tc.id) else None
  }

  function NameAt(index: nat): ToolDelta -> Option<string> {
    (tc: ToolDelta) => if IndexOf(tc) == index && tc.name != "" then Some(tc.name) else None
  }

  function ArgumentsAt(index: nat): ToolDelta -> string {
    (tc: ToolDelta) => if IndexOf(tc) == index then tc.arguments else ""
  }

  predicate Mentions(deltas: seq<ToolDelta>, index: nat) {
    exists k :: 0 <= k < |deltas| && IndexOf(deltas[k]) == index
  }

  /** The call under an index: its last id and name, and all its arguments in order. */
  predicate IsMerged(deltas: seq<ToolDelta>, index: nat, p: Partial) {
    && Mentions(deltas, index) && IsLast(deltas, IdAt(index), "", p.id) && IsLast(deltas, NameAt(index), "", p.name)
    && p.argChunks == Gathered(deltas, ArgumentsAt(index))
  }

  ghost predicate MergesExactly(m: Entries<Partial>, deltas: seq<ToolDelta>) {
    UniqueKeys(m) && forall index :: if Get(m, index).Some? then IsMerged(deltas, index, Get(m, index).value) else !Mentions(deltas, index)
  }

  lemma {:induction false} DeltasInTurn(m: Entries<Partial>, deltas: seq<ToolDelta>, more: seq<ToolDelta>)
    ensures TakeDeltas(m, deltas + more) == TakeDeltas(TakeDeltas(m, deltas), more)
    decreases deltas
  {
    if deltas == [] {
      assert [] + more == more;
    } else {
      assert (deltas + more)[1..] == deltas[1..] + more;
      var index := IndexOf(deltas[0]);
      var existing := if Get(m, index).Some? then Get(m, index).value else Partial("", "", "");
      DeltasInTurn(Set(m, index, Merge(existing, deltas[0])), deltas[1..], more);
    }
  }

  lemma {:induction false} DeltasMerge(deltas: seq<ToolDelta>)
    ensures MergesExactly(TakeDeltas([], deltas), deltas)
    decreases |deltas|
  {
    if deltas == [] {
    } else {
      var front, tc := deltas[..|deltas| - 1], deltas[|deltas| - 1];
      DeltasMerge(front);
      DeltasInTurn([], front, [tc]);
      assert front + [tc] == deltas && [tc][1..] == [];
      OneMoreMerges(TakeDeltas([], front), front, tc);
    }
  }

  lemma OneMoreMerges(m: Entries<Partial>, front: seq<ToolDelta>, tc: ToolDelta)
    requires MergesExactly(m, front)
    ensures var existing := if Get(m, IndexOf(tc)).Some? then Get(m, IndexOf(tc)).value else Partial("", "", "");
            MergesExactly(Set(m, IndexOf(tc), Merge(existing, tc)), front + [tc])
  {
    var existing := if Get(m, IndexOf(tc)).Some? then Get(m, IndexOf(tc)).value else Partial("", "", "");
    var longer := Set(m, IndexOf(tc), Merge(existing, tc));
    SetChangesOne(m, IndexOf(tc), Merge(existing, tc));
    forall index
      ensures if Get(longer, index).Some? then IsMerged(front + [tc], index, Get(longer, index).value) else !Mentions(front + [tc], index)
    {
      MergeAt(m, front, tc, index, existing);
    }
  }

  lemma MergeAt(m: Entries<Partial>, front: seq<ToolDelta>, tc: ToolDelta, index: nat, existing: Partial)
    requires MergesExactly(m, front)
    requires existing == if Get(m, IndexOf(tc)).Some? then Get(m, IndexOf(tc)).value else Partial("", "", "")
    ensures index == IndexOf(tc) ==> IsMerged(front + [tc], index, Merge(existing, tc))
    ensures index != IndexOf(tc) ==>
              if Get(m, index).Some? then IsMerged(front + [tc], index, Get(m, index).value) else !Mentions(front + [tc], index)
  {
    hide Get, IsLast, Gathered;
    var deltas := front + [tc];
    assert deltas[..|deltas| - 1] == front && deltas[|front|] == tc;
    assert Mentions(deltas, index) <==> Mentions(front, index) || IndexOf(tc) == index by {
      if k :| 0 <= k < |front| && IndexOf(front[k]) == index { assert IndexOf(deltas[k]) == index; }
    }
    GatheredSnoc(front, tc, ArgumentsAt(index));
    if Get(m, index).Some? {
      var p := Get(m, index).value;
      LastSnoc(deltas, IdAt(index), "", p.id);
      LastSnoc(deltas, NameAt(index), "", p.name);
    } else {
      Unmentioned(front, index);
      LastSnoc(deltas, IdAt(index), "", "");
      LastSnoc(deltas, NameAt(index), "", "");
    }
  }

  lemma {:induction false} Unmentioned(deltas: seq<ToolDelta>, index: nat)
    requires !Mentions(deltas, index)
    ensures IsLast(deltas, IdAt(index), "", "") && IsLast(deltas, NameAt(index), "", "") && Gathered(deltas, ArgumentsAt(index)) == ""
  {
    if deltas != [] {
      assert IndexOf(deltas[0]) != index;
      Unmentioned(deltas[1..], index);
    }
  }

  lemma {:induction false} TakesEverything(json: Json<ChatFrame>, frames: seq<ChatFrame>)
    ensures var r := TakeAll(json, frames);
            && r.text == Gathered(frames, TextIn)
            && IsLast(frames, PromptTokensIn, INPUT_TOKENS, r.inputTokens) && IsLast(frames, CompletionTokensIn, OUTPUT_TOKENS, r.outputTokens)
            && r.toolCalls == MessageCalls(json, Gathered(frames, MessageCallsIn))
            && r.byIndex == TakeDeltas([], Gathered(frames, DeltasIn))
    decreases |frames|
  {
    hide IsLast, Gathered, MessageCalls, TakeDeltas, TakeAll;
    if frames == [] {
      NothingTaken(json);
    } else {
      var front, f := frames[..|frames| - 1], frames[|frames| - 1];
      var before := TakeAll(json, front);
      TakesEverything(json, front);
      LastTaken(json, frames);
      GatheredLast(frames, TextIn);
      GatheredLast(frames, MessageCallsIn);
      GatheredLast(frames, DeltasIn);
      LastSnoc(frames, PromptTokensIn, INPUT_TOKENS, before.inputTokens);
      LastSnoc(frames, CompletionTokensIn, OUTPUT_TOKENS, before.outputTokens);
      MessageCallsInTurn(json, Gathered(front, MessageCallsIn), MessageCallsIn(f));
      DeltasInTurn([], Gathered(front, DeltasIn), DeltasIn(f));
      TakesItsParts(json, before, f);
    }
  }

  lemma NothingTaken(json: Json<ChatFrame>)
    ensures TakeAll(json, []) == START && MessageCalls(json, []) == [] && TakeDeltas([], []) == []
    ensures Gathered([], TextIn) == "" && Gathered([], MessageCallsIn) == [] && Gathered([], DeltasIn) == []
    ensures IsLast([], PromptTokensIn, INPUT_TOKENS, INPUT_TOKENS) && IsLast([], CompletionTokensIn, OUTPUT_TOKENS, OUTPUT_TOKENS)
  {
  }

  lemma LastTaken(json: Json<ChatFrame>, frames: seq<ChatFrame>)
    requires frames != []
    ensures TakeAll(json, frames) == Take(json, TakeAll(json, frames[..|frames| - 1]), frames[|frames| - 1])
  {
  }

  lemma TakesItsParts(json: Json<ChatFrame>, before: Reading, f: ChatFrame)
    ensures var r := Take(json, before, f);
            && r.text == before.text + TextIn(f)
            && r.inputTokens == (if PromptTokensIn(f).Some? then PromptTokensIn(f).value else before.inputTokens)
            && r.outputTokens == (if CompletionTokensIn(f).Some? then CompletionTokensIn(f).value else before.outputTokens)
            && r.toolCalls == before.toolCalls + MessageCalls(json, MessageCallsIn(f))
            && r.byIndex == TakeDeltas(before.byIndex, DeltasIn(f))
  {
  }

  lemma {:induction false} MessageCallsInTurn(json: Json<ChatFrame>, calls: seq<MessageCall>, more: seq<MessageCall>)
    ensures MessageCalls(json, calls + more) == MessageCalls(json, calls) + MessageCalls(json, more)
  {
    if calls == [] {
      assert [] + more == more;
    } else {
      assert (calls + more)[1..] == calls[1..] + more;
      MessageCallsInTurn(json, calls[1..], more);
    }
  }

  lemma {:induction false} MessageCallsOneByOne(json: Json<ChatFrame>, calls: seq<MessageCall>)
    ensures |MessageCalls(json, calls)| == |calls|
    ensures forall k | 0 <= k < |calls| ::
              MessageCalls(json, calls)[k] == Timed(json, Call(calls[k].id, calls[k].name, SafeJsonParse(json, calls[k].arguments)))
  {
    if calls != [] { MessageCallsOneByOne(json, calls[1..]); }
  }

  lemma {:induction false} PartialsOneByOne(json: Json<ChatFrame>, entries: Entries<Partial>)
    ensures |CallsOf(json, entries)| == |entries|
    ensures forall k | 0 <= k < |entries| ::
              CallsOf(json, entries)[k] == Timed(json, Call(entries[k].1.id, entries[k].1.name, SafeJsonParse(json, Text(entries[k].1.argChunks))))
  {
    if entries != [] { PartialsOneByOne(json, entries[1..]); }
  }

  /** Any response is read as all its text in order, the token counts it reports last, its whole calls in order, and
      after them its streamed calls: one for each index it mentions, in the order of the indices. */
  lemma ReadsWhatIsSaid(json: Json<ChatFrame>, raw: string) returns (streamed: Entries<Partial>)
    ensures var frames := DataFrames(json, raw); var r := Parse(json, raw);
            var whole, deltas := Gathered(frames, MessageCallsIn), Gathered(frames, DeltasIn);
            && r.text == Gathered(frames, TextIn)
            && IsLast(frames, PromptTokensIn, INPUT_TOKENS, r.inputTokens) && IsLast(frames, CompletionTokensIn, OUTPUT_TOKENS, r.outputTokens)
            && AscendingKeys(streamed) && (forall k | 0 <= k < |streamed| :: IsMerged(deltas, streamed[k].0, streamed[k].1))
            && (forall index: nat | Mentions(deltas, index) :: exists k :: 0 <= k < |streamed| && streamed[k].0 == index)
            && |r.toolCalls| == |whole| + |streamed|
            && (forall k | 0 <= k < |whole| ::
                  IsCall(json, r.toolCalls[k], whole[k].id, whole[k].name, SafeJsonParse(json, whole[k].arguments)))
            && (forall k | 0 <= k < |streamed| ::
                  var p := streamed[k].1;
                  IsCall(json, r.toolCalls[|whole| + k], p.id, p.name, SafeJsonParse(json, Text(p.argChunks))))
  {
    hide DataFrames, SafeJsonParse, Gathered, TakeDeltas, TakeAll, CallsOf, MessageCalls, SortEntries, IsMerged, Mentions, Get, IsLast;
    var frames := DataFrames(json, raw);
    var byIndex, deltas := TakeAll(json, frames).byIndex, Gathered(frames, DeltasIn);
    streamed := SortEntries(byIndex);
    TakesEverything(json, frames);
    DeltasMerge(deltas);
    SortOrders(byIndex);
    MessageCallsOneByOne(json, Gathered(frames, MessageCallsIn));
    PartialsOneByOne(json, streamed);
    forall k | 0 <= k < |streamed| ensures IsMerged(deltas, streamed[k].0, streamed[k].1) {
      assert streamed[k] in byIndex;
      GetExactly(byIndex, streamed[k].0);
    }
    forall index: nat | Mentions(deltas, index) ensures exists k :: 0 <= k < |streamed| && streamed[k].0 == index {
      GetExactly(byIndex, index);
      assert (index, Get(byIndex, index).value) in streamed;
    }
  }

  // ---- the writer

  /** The entries of completely written calls. */
  function Written(json: Json<ChatFrame>, calls: seq<Call>): (r: Entries<Partial>)
    ensures |r| == |calls|
  {
    seq(|calls|, k requires 0 <= k < |calls| => (k as nat, Partial(calls[k].id, calls[k].name, json.writeArgs(calls[k].args))))
  }

  /** The order of a stream: an opening chunk; text, and calls under consecutive indices, each opened once and followed by
      its arguments; a closing chunk; usage if it was asked for; the end mark. */
  datatype Phase = Unopened | Streaming(calls: nat) | Stopped | Counted | Over(counted: bool) | Broken

  function AdvanceDelta(phase: Phase, d: Delta): Phase {
    match phase
    case Unopened => if d == Delta(Some(""), []) then Streaming(0) else Broken
    case Streaming(calls) =>
      if d.toolCalls == [] then if d.content.Some? then phase else Stopped
      else if |d.toolCalls| > 1 || d.content.Some? then Broken
      else
        var tc := d.toolCalls[0];
        if tc.index == Some(calls) && tc.arguments == "" then Streaming(calls + 1)
        else if calls > 0 && tc.index == Some(calls - 1) && tc.id == "" && tc.name == "" then phase
        else Broken
    case _ => Broken
  }

  function Advance(phase: Phase, m: Sent<ChatFrame>): Phase {
    match m
    case Frame(_, ChatFrame(None, Some(Choice(None, Some(delta))))) => AdvanceDelta(phase, delta)
    case Frame(_, ChatFrame(Some(_), None)) => if phase == Stopped then Counted else Broken
    case Done => if phase == Stopped then Over(false) else if phase == Counted then Over(true) else Broken
    case _ => Broken
  }

  function PhaseOf(sent: seq<Sent<ChatFrame>>): Phase {
    if sent == [] then Unopened else Advance(PhaseOf(sent[..|sent| - 1]), sent[|sent| - 1])
  }

  class ChatStream {
    const json: Json<ChatFrame>
    const includeUsage: bool
    var toolCalls: nat
    var sent: seq<Sent<ChatFrame>>
    ghost var text: string
    ghost var calls: seq<Call>

    ghost predicate Valid()
      reads this
    {
      && Lawful(json) && PlainEvents(sent) && toolCalls == |calls|
      && TakeAll(json, Frames(sent)) == Reading(text, [], Written(json, calls), INPUT_TOKENS, OUTPUT_TOKENS)
      && PhaseOf(sent) == Streaming(toolCalls)
    }

    constructor (json: Json<ChatFrame>, includeUsage: bool)
      requires Lawful(json)
      ensures Valid() && text == "" && calls == [] && this.json == json && this.includeUsage == includeUsage
    {
      this.json, this.includeUsage := json, includeUsage;
      toolCalls, text, calls := 0, "", [];
      sent := [Frame("", ChatFrame(None, Some(Choice(None, Some(Delta(Some(""), []))))))];
      new;
      FirstChunk(json);
      assert Written(json, []) == [];
    }

    method Chunk(delta: Delta)
      requires Lawful(json) && PlainEvents(sent)
      modifies this`sent
      ensures PlainEvents(sent)
      ensures TakeAll(json, Frames(sent)) == TakeDelta(TakeAll(json, old(Frames(sent))), Some(delta))
      ensures PhaseOf(sent) == AdvanceDelta(PhaseOf(old(sent)), delta)
    {
      var f := ChatFrame(None, Some(Choice(None, Some(delta))));
      OneMore(json, sent, "", f);
      sent := sent + [Frame("", f)];
    }

    method Text(chunk: string)
      requires Valid()
      modifies this`sent, this`text
      ensures Valid() && text == old(text) + chunk
    {
      Chunk(Delta(Some(chunk), []));
      text := text + chunk;
    }

    method ToolCall(call: Call)
      requires Valid()
      modifies this
      ensures Valid() && text == old(text) && calls == old(calls) + [call]
    {
      hide TakeDeltas, TakeAll, Frames, Halves, Join, Lawful, SafeJsonParse, PhaseOf;
      var index := toolCalls;
      toolCalls := toolCalls + 1;
      ghost var before := Written(json, calls);
      Chunk(Delta(None, [ToolDelta(Some(index), call.id, call.name, "")]));
      OneDelta(before, ToolDelta(Some(index), call.id, call.name, ""));
      assert Merge(Partial("", "", ""), ToolDelta(Some(index), call.id, call.name, "")) == Partial(call.id, call.name, "");
      var pieces := Halves(json.writeArgs(call.args));
      HalvesJoin(json.writeArgs(call.args));
      JoinStep(pieces, 0, "");
      var k := 0;
      ghost var soFar := "";
      while k < |pieces|
        invariant 0 <= k <= |pieces| && PlainEvents(sent) && text == old(text) && calls == old(calls) && toolCalls == |calls| + 1
        invariant PhaseOf(sent) == Streaming(toolCalls)
        invariant soFar + Join(pieces[k..]) == json.writeArgs(call.args)
        invariant TakeAll(json, Frames(sent)) == Reading(text, [], before + [(index, Partial(call.id, call.name, soFar))], INPUT_TOKENS, OUTPUT_TOKENS)
      {
        Chunk(Delta(None, [ToolDelta(Some(index), "", "", pieces[k])]));
        AnotherDelta(before, Partial(call.id, call.name, soFar), ToolDelta(Some(index), "", "", pieces[k]));
        JoinStep(pieces, k, soFar);
        soFar := soFar + pieces[k];
        k := k + 1;
      }
      JoinStep(pieces, k, soFar);
      calls := calls + [call];
      assert Written(json, calls) == before + [(index, Partial(call.id, call.name, json.writeArgs(call.args)))];
    }

    /** The stream that `end` completes is in order, and is read back as exactly what was written. */
    method End()
      requires Valid()
      modifies this`sent
      ensures PlainEvents(sent) && Parse(json, Body(json, sent)) == Turn(json, text, calls) && PhaseOf(sent) == Over(includeUsage)
    {
      hide TakeDeltas, TakeAll, Frames, PhaseOf, Written, CallsOf, SortEntries, Lawful, DataFrames;
      ghost var before := TakeAll(json, Frames(sent));
      Chunk(Delta(None, []));
      NoDeltas(before);
      if includeUsage {
        var f := ChatFrame(Some(Usage(Some(INPUT_TOKENS), Some(OUTPUT_TOKENS))), None);
        OneMore(json, sent, "", f);
        sent := sent + [Frame("", f)];
      }
      FramesSnoc(sent, Done);
      PhaseSnoc(sent, Done);
      sent := sent + [Done];
      SentFramesAreFound(json, sent);
      WrittenCalls(json, calls);
      assert TakeAll(json, Frames(sent)) == before;
      assert [] + AllTimed(json, calls) == AllTimed(json, calls);
    }
  }

  lemma OneMore(json: Json<ChatFrame>, sent: seq<Sent<ChatFrame>>, event: string, f: ChatFrame)
    ensures TakeAll(json, Frames(sent + [Frame(event, f)])) == Take(json, TakeAll(json, Frames(sent)), f)
    ensures PhaseOf(sent + [Frame(event, f)]) == Advance(PhaseOf(sent), Frame(event, f))
  {
    PhaseSnoc(sent, Frame(event, f));
    FramesSnoc(sent, Frame(event, f));
    assert (Frames(sent) + [f])[..|Frames(sent)|] == Frames(sent);
  }

  lemma PhaseSnoc(sent: seq<Sent<ChatFrame>>, m: Sent<ChatFrame>)
    ensures PhaseOf(sent + [m]) == Advance(PhaseOf(sent), m)
  {
    assert (sent + [m])[..|sent|] == sent;
  }

  lemma NoDeltas(r: Reading)
    ensures TakeDelta(r, Some(Delta(None, []))) == r
  {
  }

  lemma FirstChunk(json: Json<ChatFrame>)
    ensures var f := ChatFrame(None, Some(Choice(None, Some(Delta(Some(""), [])))));
            TakeAll(json, Frames([Frame("", f)])) == START && PhaseOf([Frame("", f)]) == Streaming(0)
  {
    var f := ChatFrame(None, Some(Choice(None, Some(Delta(Some(""), [])))));
    var sent := [Frame("", f)];
    assert sent[1..] == [] && Frames(sent) == [f] && [f][..0] == [];
  }

  lemma OneDelta(before: Entries<Partial>, tc: ToolDelta)
    requires tc.index == Some(|before|) && forall k | 0 <= k < |before| :: before[k].0 == k
    ensures TakeDeltas(before, [tc]) == before + [(|before|, Merge(Partial("", "", ""), tc))]
  {
    SetNew(before, |before|, Merge(Partial("", "", ""), tc));
    assert [tc][1..] == [];
  }

  lemma AnotherDelta(before: Entries<Partial>, partial: Partial, tc: ToolDelta)
    requires tc.index == Some(|before|) && forall k | 0 <= k < |before| :: before[k].0 == k
    ensures TakeDeltas(before + [(|before|, partial)], [tc]) == before + [(|before|, Merge(partial, tc))]
  {
    SetLast(before, |before|, partial, Merge(partial, tc));
    assert [tc][1..] == [];
  }

  lemma {:induction false} CallsOfFrom(json: Json<ChatFrame>, calls: seq<Call>, k: nat)
    requires Lawful(json) && k <= |calls|
    ensures CallsOf(json, Written(json, calls)[k..]) == AllTimed(json, calls)[k..]
    decreases |calls| - k
  {
    if k < |calls| {
      CallsOfFrom(json, calls, k + 1);
      ArgsComeBack(json, calls[k].args);
      assert Written(json, calls)[k..][1..] == Written(json, calls)[k + 1..];
    }
  }

  lemma WrittenCalls(json: Json<ChatFrame>, calls: seq<Call>)
    requires Lawful(json)
    ensures CallsOf(json, SortEntries(Written(json, calls))) == AllTimed(json, calls)
  {
    SortedAlready(Written(json, calls));
    CallsOfFrom(json, calls, 0);
    assert Written(json, calls)[0..] == Written(json, calls);
  }
}
