/** The Anthropic messages stream: its writer, its parser, and that they agree. */
module WireAnthropic {
  import opened WireText
  import opened WireCalls

  // ---- frames, as far as the parser reads them

  datatype ToolUse = ToolUse(id: string, name: string, input: Given)
  datatype BlockDelta = TextDelta(text: string) | InputJsonDelta(partialJson: string) | OtherDelta
  datatype ContentBlock = TextBlock(text: string) | ToolBlock(tool: ToolUse)
  datatype AnthropicFrame =
    | MessageStart(inputTokens: Option<int>)
    | MessageDelta(outputTokens: Option<int>)
    | ContentBlockStart(index: Option<nat>, tool: Option<ToolUse>)
    | ContentBlockDelta(index: Option<nat>, delta: BlockDelta)
    | ContentBlockStop(index: Option<nat>)
    | WholeMessage(content: seq<ContentBlock>)
    | MessageStop

  // ---- the parser

  datatype Block = Block(id: string, name: string, text: string, initialInput: Given)
  datatype Reading = Reading(text: string, toolCalls: seq<ParsedCall>, blocks: Entries<Block>, inputTokens: int, outputTokens: int)

  const START := Reading("", [], [], INPUT_TOKENS, OUTPUT_TOKENS)

  function Or0(index: Option<nat>): nat {
    if index.Some? then index.value else 0
  }

  function TextOf(content: seq<ContentBlock>): string {
    if content == [] then "" else (if content[0].TextBlock? then content[0].text else "") + TextOf(content[1..])
  }

  function ToolsOf(json: Json<AnthropicFrame>, content: seq<ContentBlock>): seq<ParsedCall> {
    if content == [] then []
    else
      (if content[0].ToolBlock? then [Timed(json, Call(content[0].tool.id, content[0].tool.name, SafeJsonParse(json, content[0].tool.input)))] else [])
      + ToolsOf(json, content[1..])
  }

  function TakeJson(blocks: Entries<Block>, index: nat, partialJson: string): Entries<Block> {
    var b := Get(blocks, index);
    if b.None? then blocks else Set(blocks, index, b.value.(text := b.value.text + partialJson))
  }

  function Take(json: Json<AnthropicFrame>, r: Reading, f: AnthropicFrame): Reading {
    match f
    case MessageStart(input) => if input.Some? then r.(inputTokens := input.value) else r
    case MessageDelta(output) => if output.Some? then r.(outputTokens := output.value) else r
    case ContentBlockStart(index, tool) =>
      if tool.None? then r
      else r.(blocks := Set(r.blocks, Or0(index), Block(tool.value.id, tool.value.name, "", tool.value.input)))
    case ContentBlockDelta(index, delta) =>
      (match delta
       case TextDelta(text) => r.(text := r.text + text)
       case InputJsonDelta(partialJson) => r.(blocks := TakeJson(r.blocks, Or0(index), partialJson))
       case OtherDelta => r)
    case WholeMessage(content) => r.(text := r.text + TextOf(content), toolCalls := r.toolCalls + ToolsOf(json, content))
    case _ => r
  }

  function TakeAll(json: Json<AnthropicFrame>, frames: seq<AnthropicFrame>): Reading {
    if frames == [] then START else Take(json, TakeAll(json, frames[..|frames| - 1]), frames[|frames| - 1])
  }

  function CallOf(json: Json<AnthropicFrame>, b: Block): Call {
    Call(b.id, b.name, SafeJsonParse(json, if b.text != "" then Given.Text(b.text) else b.initialInput))
  }

  function CallsOf(json: Json<AnthropicFrame>, blocks: Entries<Block>): seq<ParsedCall> {
    if blocks == [] then [] else [Timed(json, CallOf(json, blocks[0].1))] + CallsOf(json, blocks[1..])
  }

  function Finish(json: Json<AnthropicFrame>, r: Reading): Parsed {
    Parsed(r.text, r.toolCalls + CallsOf(json, SortEntries(r.blocks)), r.inputTokens, r.outputTokens)
  }

  function Parse(json: Json<AnthropicFrame>, raw: string): Parsed {
    Finish(json, TakeAll(json, DataFrames(json, raw)))
  }

  method ParseWireResponse(json: Json<AnthropicFrame>, raw: string) returns (r: Parsed)
    ensures r == Parse(json, raw)
  {
    var dataFrames := ReadFrames(json, raw);
    var text, inputTokens, outputTokens := "", INPUT_TOKENS, OUTPUT_TOKENS;
    var toolCalls: seq<ParsedCall>, blocks: Entries<Block> := [], [];
    var k := 0;
    while k < |dataFrames|
      invariant 0 <= k <= |dataFrames|
      invariant TakeAll(json, dataFrames[..k]) == Reading(text, toolCalls, blocks, inputTokens, outputTokens)
    {
      assert dataFrames[..k + 1][..k] == dataFrames[..k];
      match dataFrames[k] {
        case MessageStart(input) => if input.Some? { inputTokens := input.value; }
        case MessageDelta(output) => if output.Some? { outputTokens := output.value; }
        case ContentBlockStart(index, tool) =>
          if tool.Some? { blocks := Set(blocks, Or0(index), Block(tool.value.id, tool.value.name, "", tool.value.input)); }
        case ContentBlockDelta(index, TextDelta(piece)) => text := text + piece;
        case ContentBlockDelta(index, InputJsonDelta(partialJson)) => blocks := TakeJson(blocks, Or0(index), partialJson);
        case WholeMessage(content) =>
          text := text + TextOf(content);
          toolCalls := toolCalls + ToolsOf(json, content);
        case _ =>
      }
      k := k + 1;
    }
    assert dataFrames[..k] == dataFrames;
    r := Parsed(text, toolCalls + CallsOf(json, SortEntries(blocks)), inputTokens, outputTokens);
  }

  // ---- what any response says

  function TextIn(f: AnthropicFrame): string {
    match f
    case ContentBlockDelta(_, TextDelta(text)) => text
    case WholeMessage(content) => Gathered(content, (block: ContentBlock) => if block.TextBlock? then block.text else "")
    case _ => ""
  }

  function InputTokensIn(f: AnthropicFrame): Option<int> {
    if f.MessageStart? then f.inputTokens else None
  }

  function OutputTokensIn(f: AnthropicFrame): Option<int> {
    if f.MessageDelta? then f.outputTokens else None
  }

  function ToolsIn(f: AnthropicFrame): seq<ToolUse> {
    if f.WholeMessage? then Gathered(f.content, (block: ContentBlock) => if block.ToolBlock? then [block.tool] else []) else []
  }

  function StartAt(f: AnthropicFrame, index: nat): Option<ToolUse> {
    if f.ContentBlockStart? && Or0(f.index) == index then f.tool else None
  }

  function JsonAt(index: nat): AnthropicFrame -> string {
    (f: AnthropicFrame) => if f.ContentBlockDelta? && f.delta.InputJsonDelta? && Or0(f.index) == index then f.delta.partialJson else ""
  }

  predicate Started(frames: seq<AnthropicFrame>, index: nat) {
    exists k :: 0 <= k < |frames| && StartAt(frames[k], index).Some?
  }

  predicate StartsLast(frames: seq<AnthropicFrame>, index: nat, k: nat) {
    k < |frames| && StartAt(frames[k], index).Some? && forall j | k < j < |frames| :: StartAt(frames[j], index).None?
  }

  /** The block under an index: as it was last started, with all the JSON that came after that. */
  ghost predicate IsBlock(frames: seq<AnthropicFrame>, index: nat, b: Block) {
    exists k: nat :: StartsLast(frames, index, k)
                     && b.id == StartAt(frames[k], index).value.id && b.name == StartAt(frames[k], index).value.name
                     && b.initialInput == StartAt(frames[k], index).value.input && b.text == Gathered(frames[k + 1..], JsonAt(index))
  }

  ghost predicate BlocksExactly(m: Entries<Block>, frames: seq<AnthropicFrame>) {
    UniqueKeys(m) && forall index :: if Get(m, index).Some? then IsBlock(frames, index, Get(m, index).value) else !Started(frames, index)
  }

  lemma BlockStays(front: seq<AnthropicFrame>, f: AnthropicFrame, index: nat, b: Block)
    requires IsBlock(front, index, b) && StartAt(f, index).None?
    ensures IsBlock(front + [f], index, b.(text := b.text + JsonAt(index)(f)))
  {
    var k: nat :| StartsLast(front, index, k)
                  && b.id == StartAt(front[k], index).value.id && b.name == StartAt(front[k], index).value.name
                  && b.initialInput == StartAt(front[k], index).value.input && b.text == Gathered(front[k + 1..], JsonAt(index));
    hide Gathered;
    GatheredSnoc(front[k + 1..], f, JsonAt(index));
    assert (front + [f])[k + 1..] == front[k + 1..] + [f] && (front + [f])[k] == front[k];
    assert StartsLast(front + [f], index, k);
  }

  lemma BlockStarts(front: seq<AnthropicFrame>, f: AnthropicFrame, index: nat)
    requires StartAt(f, index).Some?
    ensures var tool := StartAt(f, index).value; IsBlock(front + [f], index, Block(tool.id, tool.name, "", tool.input))
  {
    var frames := front + [f];
    assert frames[|front|] == f && frames[|front| + 1..] == [];
    assert StartsLast(frames, index, |front|);
  }

  lemma NotStarted(front: seq<AnthropicFrame>, f: AnthropicFrame, index: nat)
    ensures Started(front + [f], index) <==> Started(front, index) || StartAt(f, index).Some?
  {
    var frames := front + [f];
    if k :| 0 <= k < |front| && StartAt(front[k], index).Some? { assert StartAt(frames[k], index).Some?; }
    if StartAt(f, index).Some? { assert StartAt(frames[|front|], index).Some?; }
  }

  lemma OneMoreBlock(json: Json<AnthropicFrame>, r: Reading, front: seq<AnthropicFrame>, f: AnthropicFrame)
    requires BlocksExactly(r.blocks, front)
    ensures BlocksExactly(Take(json, r, f).blocks, front + [f])
  {
    hide Gathered, IsBlock, Started, Get, Set, UniqueKeys;
    var after := Take(json, r, f).blocks;
    match f {
      case ContentBlockStart(index, Some(tool)) => SetChangesOne(r.blocks, Or0(index), Block(tool.id, tool.name, "", tool.input));
      case ContentBlockDelta(index, InputJsonDelta(partialJson)) =>
        if Get(r.blocks, Or0(index)).Some? {
          var b := Get(r.blocks, Or0(index)).value;
          SetChangesOne(r.blocks, Or0(index), b.(text := b.text + partialJson));
        }
      case _ =>
    }
    forall index: nat
      ensures if Get(after, index).Some? then IsBlock(front + [f], index, Get(after, index).value) else !Started(front + [f], index)
    {
      NotStarted(front, f, index);
      if StartAt(f, index).Some? {
        BlockStarts(front, f, index);
      } else if Get(r.blocks, index).Some? {
        var b := Get(r.blocks, index).value;
        BlockStays(front, f, index, b);
        assert b.(text := b.text + "") == b by { assert b.text + "" == b.text; }
      }
    }
  }

  lemma {:induction false} TakesEverything(json: Json<AnthropicFrame>, frames: seq<AnthropicFrame>)
    ensures var r := TakeAll(json, frames);
            && r.text == Gathered(frames, TextIn)
            && IsLast(frames, InputTokensIn, INPUT_TOKENS, r.inputTokens) && IsLast(frames, OutputTokensIn, OUTPUT_TOKENS, r.outputTokens)
            && AreCalls(json, r.toolCalls, Gathered(frames, ToolsIn))
            && BlocksExactly(r.blocks, frames)
    decreases |frames|
  {
    hide IsLast, Gathered, TakeAll, BlocksExactly, AreCalls, Take, TextIn;
    if frames == [] {
      NothingTaken(json);
    } else {
      var front, f := frames[..|frames| - 1], frames[|frames| - 1];
      var before := TakeAll(json, front);
      TakesEverything(json, front);
      LastTaken(json, frames);
      GatheredLast(frames, TextIn);
      GatheredLast(frames, ToolsIn);
      LastSnoc(frames, InputTokensIn, INPUT_TOKENS, before.inputTokens);
      LastSnoc(frames, OutputTokensIn, OUTPUT_TOKENS, before.outputTokens);
      OneMoreBlock(json, before, front, f);
      assert front + [f] == frames;
      TakesItsParts(json, before, f);
      CallsInTurn(json, before.toolCalls, Gathered(front, ToolsIn), WholeCalls(json, f), ToolsIn(f));
    }
  }

  lemma NothingTaken(json: Json<AnthropicFrame>)
    ensures TakeAll(json, []) == START && BlocksExactly([], []) && AreCalls(json, [], [])
    ensures Gathered([], TextIn) == "" && Gathered([], ToolsIn) == []
    ensures IsLast([], InputTokensIn, INPUT_TOKENS, INPUT_TOKENS) && IsLast([], OutputTokensIn, OUTPUT_TOKENS, OUTPUT_TOKENS)
  {
  }

  lemma LastTaken(json: Json<AnthropicFrame>, frames: seq<AnthropicFrame>)
    requires frames != []
    ensures TakeAll(json, frames) == Take(json, TakeAll(json, frames[..|frames| - 1]), frames[|frames| - 1])
  {
  }

  function WholeCalls(json: Json<AnthropicFrame>, f: AnthropicFrame): seq<ParsedCall> {
    if f.WholeMessage? then ToolsOf(json, f.content) else []
  }

  predicate AreCalls(json: Json<AnthropicFrame>, calls: seq<ParsedCall>, tools: seq<ToolUse>) {
    |calls| == |tools|
    && forall k | 0 <= k < |tools| :: IsCall(json, calls[k], tools[k].id, tools[k].name, SafeJsonParse(json, tools[k].input))
  }

  lemma CallsInTurn(json: Json<AnthropicFrame>, calls: seq<ParsedCall>, tools: seq<ToolUse>, more: seq<ParsedCall>, others: seq<ToolUse>)
    requires AreCalls(json, calls, tools) && AreCalls(json, more, others)
    ensures AreCalls(json, calls + more, tools + others)
  {
  }

  lemma TakesItsParts(json: Json<AnthropicFrame>, before: Reading, f: AnthropicFrame)
    ensures var r := Take(json, before, f);
            && r.text == before.text + TextIn(f)
            && r.inputTokens == (if InputTokensIn(f).Some? then InputTokensIn(f).value else before.inputTokens)
            && r.outputTokens == (if OutputTokensIn(f).Some? then OutputTokensIn(f).value else before.outputTokens)
            && r.toolCalls == before.toolCalls + WholeCalls(json, f) && AreCalls(json, WholeCalls(json, f), ToolsIn(f))
  {
    hide SafeJsonParse;
    assert before.text + "" == before.text && before.toolCalls + [] == before.toolCalls;
    if f.WholeMessage? { ContentInOrder(json, f.content); }
  }

  lemma {:induction false} ContentInOrder(json: Json<AnthropicFrame>, content: seq<ContentBlock>)
    ensures TextOf(content) == Gathered(content, (block: ContentBlock) => if block.TextBlock? then block.text else "")
    ensures AreCalls(json, ToolsOf(json, content), Gathered(content, (block: ContentBlock) => if block.ToolBlock? then [block.tool] else []))
  {
    if content != [] { ContentInOrder(json, content[1..]); }
  }

  lemma {:induction false} BlocksOneByOne(json: Json<AnthropicFrame>, entries: Entries<Block>)
    ensures |CallsOf(json, entries)| == |entries|
    ensures forall k | 0 <= k < |entries| :: CallsOf(json, entries)[k] == Timed(json, CallOf(json, entries[k].1))
  {
    if entries != [] { BlocksOneByOne(json, entries[1..]); }
  }

  /** Any response is read as all its text in order, the token counts it reports last, its whole calls in order, and
      after them its streamed calls: one for each index where a tool block starts, in the order of the indices, with
      the JSON of its deltas if there is any and its first input if not. */
  lemma ReadsWhatIsSaid(json: Json<AnthropicFrame>, raw: string) returns (streamed: Entries<Block>)
    ensures var frames := DataFrames(json, raw); var r := Parse(json, raw);
            var whole := Gathered(frames, ToolsIn);
            && r.text == Gathered(frames, TextIn)
            && IsLast(frames, InputTokensIn, INPUT_TOKENS, r.inputTokens) && IsLast(frames, OutputTokensIn, OUTPUT_TOKENS, r.outputTokens)
            && AscendingKeys(streamed) && (forall k | 0 <= k < |streamed| :: IsBlock(frames, streamed[k].0, streamed[k].1))
            && (forall index: nat | Started(frames, index) :: exists k :: 0 <= k < |streamed| && streamed[k].0 == index)
            && |r.toolCalls| == |whole| + |streamed| && AreCalls(json, r.toolCalls[..|whole|], whole)
            && (forall k | 0 <= k < |streamed| ::
                  var b := streamed[k].1;
                  IsCall(json, r.toolCalls[|whole| + k], b.id, b.name,
                         if b.text != "" then SafeJsonParse(json, Given.Text(b.text)) else SafeJsonParse(json, b.initialInput)))
  {
    hide DataFrames, SafeJsonParse, Gathered, TakeAll, CallsOf, SortEntries, IsBlock, Started, Get, IsLast;
    var frames := DataFrames(json, raw);
    var r := TakeAll(json, frames);
    streamed := SortEntries(r.blocks);
    TakesEverything(json, frames);
    SortOrders(r.blocks);
    BlocksOneByOne(json, streamed);
    assert Parse(json, raw).toolCalls[..|r.toolCalls|] == r.toolCalls;
    forall k | 0 <= k < |streamed| ensures IsBlock(frames, streamed[k].0, streamed[k].1) {
      assert streamed[k] in r.blocks;
      GetExactly(r.blocks, streamed[k].0);
    }
    forall index: nat | Started(frames, index) ensures exists k :: 0 <= k < |streamed| && streamed[k].0 == index {
      GetExactly(r.blocks, index);
      assert (index, Get(r.blocks, index).value) in streamed;
    }
  }

  // ---- the writer

  function BlockOf(json: Json<AnthropicFrame>, call: Call): Block {
    Block(call.id, call.name, json.writeArgs(call.args), Structured(NO_ARGS))
  }

  /** The entries of completely written calls, each under its block index. */
  function Written(json: Json<AnthropicFrame>, calls: seq<Call>, at: seq<nat>): (r: Entries<Block>)
    requires |at| == |calls|
    ensures |r| == |calls|
  {
    seq(|calls|, k requires 0 <= k < |calls| => (at[k], BlockOf(json, calls[k])))
  }

  predicate Below(at: seq<nat>, index: nat) {
    (forall k | 0 <= k < |at| :: at[k] < index) && forall j, k | 0 <= j < k < |at| :: at[j] < at[k]
  }

  /** The order of a stream: a start, blocks one at a time under consecutive indices, each with its own kind of
      deltas, and an end. */
  datatype Phase = Unopened | Between(next: nat) | InText(next: nat) | InTool(next: nat) | Told | Over | Broken

  function Advance(phase: Phase, f: AnthropicFrame): Phase {
    match (phase, f)
    case (Unopened, MessageStart(_)) => Between(0)
    case (Between(next), ContentBlockStart(Some(index), tool)) => if index != next then Broken else if tool.Some? then InTool(next) else InText(next)
    case (InText(next), ContentBlockDelta(Some(index), TextDelta(_))) => if index == next then phase else Broken
    case (InTool(next), ContentBlockDelta(Some(index), InputJsonDelta(_))) => if index == next then phase else Broken
    case (InText(next), ContentBlockStop(Some(index))) => if index == next then Between(next + 1) else Broken
    case (InTool(next), ContentBlockStop(Some(index))) => if index == next then Between(next + 1) else Broken
    case (Between(_), MessageDelta(_)) => Told
    case (Told, MessageStop) => Over
    case _ => Broken
  }

  function PhaseOf(frames: seq<AnthropicFrame>): Phase {
    if frames == [] then Unopened else Advance(PhaseOf(frames[..|frames| - 1]), frames[|frames| - 1])
  }

  class AnthropicStream {
    const json: Json<AnthropicFrame>
    var index: nat
    var textOpen: bool
    var toolCalls: nat
    var sent: seq<Sent<AnthropicFrame>>
    ghost var text: string
    ghost var calls: seq<Call>
    ghost var at: seq<nat>

    ghost predicate Valid()
      reads this
    {
      && Lawful(json) && PlainEvents(sent) && toolCalls == |calls| == |at| && Below(at, index)
      && TakeAll(json, Frames(sent)) == Reading(text, [], Written(json, calls, at), INPUT_TOKENS, OUTPUT_TOKENS)
      && PhaseOf(Frames(sent)) == if textOpen then InText(index) else Between(index)
    }

    constructor (json: Json<AnthropicFrame>)
      requires Lawful(json)
      ensures Valid() && text == "" && calls == [] && this.json == json
    {
      this.json := json;
      index, textOpen, toolCalls, text, calls, at := 0, false, 0, "", [], [];
      sent := [];
      new;
      Send("message_start", MessageStart(Some(INPUT_TOKENS)));
    }

    method Send(event: string, f: AnthropicFrame)
      requires PlainEvents(sent) && '\n' !in event
      modifies this`sent
      ensures PlainEvents(sent) && TakeAll(json, Frames(sent)) == Take(json, TakeAll(json, old(Frames(sent))), f)
      ensures PhaseOf(Frames(sent)) == Advance(PhaseOf(old(Frames(sent))), f)
    {
      OneMore(json, sent, event, f);
      sent := sent + [Frame(event, f)];
    }

    method CloseText()
      requires Valid()
      modifies this`sent, this`index, this`textOpen
      ensures Valid() && !textOpen
    {
      if !textOpen { return; }
      Send("content_block_stop", ContentBlockStop(Some(index)));
      index := index + 1;
      textOpen := false;
    }

    method Text(chunk: string)
      requires Valid()
      modifies this`sent, this`text, this`textOpen
      ensures Valid() && text == old(text) + chunk
    {
      if !textOpen {
        Send("content_block_start", ContentBlockStart(Some(index), None));
        textOpen := true;
      }
      Send("content_block_delta", ContentBlockDelta(Some(index), TextDelta(chunk)));
      text := text + chunk;
    }

    /** The arguments of the block just opened, in pieces. */
    method SendArguments(ghost before: Entries<Block>, ghost started: Block, arguments: string)
      requires PlainEvents(sent) && started.text == "" && forall k | 0 <= k < |before| :: before[k].0 != index
      requires TakeAll(json, Frames(sent)) == Reading(text, [], before + [(index, started)], INPUT_TOKENS, OUTPUT_TOKENS)
      requires PhaseOf(Frames(sent)) == InTool(index)
      modifies this`sent
      ensures PlainEvents(sent)
      ensures TakeAll(json, Frames(sent)) == Reading(text, [], before + [(index, started.(text := arguments))], INPUT_TOKENS, OUTPUT_TOKENS)
      ensures PhaseOf(Frames(sent)) == InTool(index)
    {
      hide TakeAll, Frames, Halves, Join, Set, Get, PhaseOf, Take, Advance;
      var pieces := Halves(arguments);
      HalvesJoin(arguments);
      JoinStep(pieces, 0, "");
      var k := 0;
      ghost var soFar := "";
      while k < |pieces|
        invariant 0 <= k <= |pieces| && PlainEvents(sent) && PhaseOf(Frames(sent)) == InTool(index)
        invariant soFar + Join(pieces[k..]) == arguments
        invariant TakeAll(json, Frames(sent)) == Reading(text, [], before + [(index, started.(text := soFar))], INPUT_TOKENS, OUTPUT_TOKENS)
      {
        PieceTaken(json, text, before, started.(text := soFar), index, pieces[k]);
        Send("content_block_delta", ContentBlockDelta(Some(index), InputJsonDelta(pieces[k])));
        JoinStep(pieces, k, soFar);
        soFar := soFar + pieces[k];
        k := k + 1;
      }
      JoinStep(pieces, k, soFar);
    }

    method ToolCall(call: Call)
      requires Valid()
      modifies this
      ensures Valid() && text == old(text) && calls == old(calls) + [call]
    {
      hide TakeAll, Frames, Halves, Join, Lawful, Set, Get, PhaseOf, Take;
      CloseText();
      toolCalls := toolCalls + 1;
      ghost var before := Written(json, calls, at);
      var started := Block(call.id, call.name, "", Structured(NO_ARGS));
      ToolStarts(json, text, before, started, index);
      Send("content_block_start", ContentBlockStart(Some(index), Some(ToolUse(call.id, call.name, Structured(NO_ARGS)))));
      SendArguments(before, started, json.writeArgs(call.args));
      Send("content_block_stop", ContentBlockStop(Some(index)));
      calls, at := calls + [call], at + [index];
      index := index + 1;
      assert Written(json, calls, at) == before + [(index - 1, BlockOf(json, call))];
    }

    /** The stream that `end` completes is in order, and is read back as exactly what was written. */
    method End()
      requires Valid()
      modifies this`sent, this`index, this`textOpen
      ensures PlainEvents(sent) && Parse(json, Body(json, sent)) == Turn(json, text, calls) && PhaseOf(Frames(sent)) == Over
    {
      hide TakeAll, Frames, PhaseOf, Written, CallsOf, SortEntries, Lawful, DataFrames;
      CloseText();
      Send("message_delta", MessageDelta(Some(OUTPUT_TOKENS)));
      Send("message_stop", MessageStop);
      SentFramesAreFound(json, sent);
      WrittenCalls(json, calls, at, index);
      assert [] + AllTimed(json, calls) == AllTimed(json, calls);
    }
  }

  lemma ToolStarts(json: Json<AnthropicFrame>, text: string, before: Entries<Block>, started: Block, index: nat)
    requires started.text == "" && forall k | 0 <= k < |before| :: before[k].0 != index
    ensures var f := ContentBlockStart(Some(index), Some(ToolUse(started.id, started.name, started.initialInput)));
            Take(json, Reading(text, [], before, INPUT_TOKENS, OUTPUT_TOKENS), f)
            == Reading(text, [], before + [(index, started)], INPUT_TOKENS, OUTPUT_TOKENS)
    ensures forall r :: Take(json, r, ContentBlockStop(Some(index))) == r
  {
    SetNew(before, index, started);
  }

  lemma PieceTaken(json: Json<AnthropicFrame>, text: string, before: Entries<Block>, b: Block, index: nat, piece: string)
    requires forall k | 0 <= k < |before| :: before[k].0 != index
    ensures var f := ContentBlockDelta(Some(index), InputJsonDelta(piece));
            && Take(json, Reading(text, [], before + [(index, b)], INPUT_TOKENS, OUTPUT_TOKENS), f)
               == Reading(text, [], before + [(index, b.(text := b.text + piece))], INPUT_TOKENS, OUTPUT_TOKENS)
            && Advance(InTool(index), f) == InTool(index)
  {
    SetLast(before, index, b, b.(text := b.text + piece));
  }

  lemma OneMore(json: Json<AnthropicFrame>, sent: seq<Sent<AnthropicFrame>>, event: string, f: AnthropicFrame)
    ensures TakeAll(json, Frames(sent + [Frame(event, f)])) == Take(json, TakeAll(json, Frames(sent)), f)
    ensures PhaseOf(Frames(sent + [Frame(event, f)])) == Advance(PhaseOf(Frames(sent)), f)
  {
    FramesSnoc(sent, Frame(event, f));
    assert (Frames(sent) + [f])[..|Frames(sent)|] == Frames(sent);
  }

  lemma {:induction false} CallsOfFrom(json: Json<AnthropicFrame>, calls: seq<Call>, at: seq<nat>, k: nat)
    requires Lawful(json) && |at| == |calls| && k <= |calls|
    ensures CallsOf(json, Written(json, calls, at)[k..]) == AllTimed(json, calls)[k..]
    decreases |calls| - k
  {
    if k < |calls| {
      CallsOfFrom(json, calls, at, k + 1);
      ArgsComeBack(json, calls[k].args);
      assert Written(json, calls, at)[k..][1..] == Written(json, calls, at)[k + 1..];
    }
  }

  lemma WrittenCalls(json: Json<AnthropicFrame>, calls: seq<Call>, at: seq<nat>, index: nat)
    requires Lawful(json) && |at| == |calls| && Below(at, index)
    ensures CallsOf(json, SortEntries(Written(json, calls, at))) == AllTimed(json, calls)
  {
    SortedAlready(Written(json, calls, at));
    CallsOfFrom(json, calls, at, 0);
    assert Written(json, calls, at)[0..] == Written(json, calls, at);
  }
}
