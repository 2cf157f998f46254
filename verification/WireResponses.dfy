/** The responses stream: its writer, its parser, and exactly which turns they carry unchanged. */
module WireResponses {
  import opened WireText
  import opened WireCalls

  // ---- frames, as far as the parser reads them

  datatype Item =
    | FunctionCall(id: Option<string>, callId: Option<string>, name: Option<string>, arguments: Given)
    | MessageItem(text: string)
    | NullItem
  datatype Usage = Usage(inputTokens: Option<int>, outputTokens: Option<int>)
  datatype Content =
    | Created | InProgress | OutputItemAdded(item: Item) | ContentPartAdded
    | OutputTextDelta(delta: string) | OutputTextDone(text: string) | ContentPartDone(text: string)
    | ArgumentsDelta(delta: string) | ArgumentsDone(arguments: string)
    | OutputItemDone(item: Item)
    | ResponseCompleted(output: seq<Item>, usage: Option<Usage>)
    | WholeResponse(output: seq<Item>)
  datatype ResponsesFrame = ResponsesFrame(sequenceNumber: nat, body: Content)

  // ---- the parser

  datatype Reading = Reading(text: string, toolCalls: seq<ParsedCall>, seenIds: set<string>, inputTokens: int, outputTokens: int)

  const START := Reading("", [], {}, INPUT_TOKENS, OUTPUT_TOKENS)

  function IdOf(item: Item): string
    requires item.FunctionCall?
  {
    if item.callId.Some? then item.callId.value else if item.id.Some? then item.id.value else ""
  }

  function TakeItem(json: Json<ResponsesFrame>, r: Reading, item: Item): Reading {
    if !item.FunctionCall? || IdOf(item) == "" || IdOf(item) in r.seenIds then r
    else
      var call := Call(IdOf(item), if item.name.Some? then item.name.value else "", SafeJsonParse(json, item.arguments));
      r.(seenIds := r.seenIds + {IdOf(item)}, toolCalls := r.toolCalls + [Timed(json, call)])
  }

  function TakeItems(json: Json<ResponsesFrame>, r: Reading, items: seq<Item>): Reading
    decreases items
  {
    if items == [] then r else TakeItems(json, TakeItem(json, r, items[0]), items[1..])
  }

  function TakeUsage(r: Reading, usage: Option<Usage>): Reading {
    if usage.None? then r
    else
      r.(inputTokens := if usage.value.inputTokens.Some? then usage.value.inputTokens.value else r.inputTokens,
         outputTokens := if usage.value.outputTokens.Some? then usage.value.outputTokens.value else r.outputTokens)
  }

  function Take(json: Json<ResponsesFrame>, r: Reading, f: ResponsesFrame): Reading {
    match f.body
    case OutputTextDelta(delta) => r.(text := r.text + delta)
    case OutputItemDone(item) => TakeItem(json, r, item)
    case ResponseCompleted(output, usage) => TakeItems(json, TakeUsage(r, usage), output)
    case WholeResponse(output) => TakeItems(json, r, output)
    case _ => r
  }

  function TakeAll(json: Json<ResponsesFrame>, frames: seq<ResponsesFrame>): Reading {
    if frames == [] then START else Take(json, TakeAll(json, frames[..|frames| - 1]), frames[|frames| - 1])
  }

  function Parse(json: Json<ResponsesFrame>, raw: string): Parsed {
    var r := TakeAll(json, DataFrames(json, raw));
    Parsed(r.text, r.toolCalls, r.inputTokens, r.outputTokens)
  }

  method ParseWireResponse(json: Json<ResponsesFrame>, raw: string) returns (parsed: Parsed)
    ensures parsed == Parse(json, raw)
  {
    var dataFrames := ReadFrames(json, raw);
    var r := START;
    var k := 0;
    while k < |dataFrames|
      invariant 0 <= k <= |dataFrames| && r == TakeAll(json, dataFrames[..k])
    {
      assert dataFrames[..k + 1][..k] == dataFrames[..k];
      match dataFrames[k].body {
        case OutputTextDelta(delta) => r := r.(text := r.text + delta);
        case OutputItemDone(item) => r := TakeItem(json, r, item);
        case ResponseCompleted(output, usage) => r := TakeOutput(json, TakeUsage(r, usage), output);
        case WholeResponse(output) => r := TakeOutput(json, r, output);
        case _ =>
      }
      k := k + 1;
    }
    assert dataFrames[..k] == dataFrames;
    parsed := Parsed(r.text, r.toolCalls, r.inputTokens, r.outputTokens);
  }

  /** The loop over the items of a response. */
  method TakeOutput(json: Json<ResponsesFrame>, before: Reading, output: seq<Item>) returns (r: Reading)
    ensures r == TakeItems(json, before, output)
  {
    r := before;
    var k := 0;
    assert output[0..] == output;
    while k < |output|
      invariant 0 <= k <= |output| && TakeItems(json, r, output[k..]) == TakeItems(json, before, output)
    {
      assert output[k..][1..] == output[k + 1..];
      r := TakeItem(json, r, output[k]);
      k := k + 1;
    }
  }

  // ---- what survives

  function Ids(calls: seq<Call>): set<string> {
    set k | 0 <= k < |calls| && calls[k].id != "" :: calls[k].id
  }

  /** Calls without an id and repetitions of an id are dropped. */
  function Kept(calls: seq<Call>): seq<Call> {
    if calls == [] then []
    else
      var front, last := calls[..|calls| - 1], calls[|calls| - 1];
      if last.id != "" && last.id !in Ids(front) then Kept(front) + [last] else Kept(front)
  }

  predicate DistinctIds(calls: seq<Call>) {
    && (forall k | 0 <= k < |calls| :: calls[k].id != "")
    && forall j, k | 0 <= j < k < |calls| :: calls[j].id != calls[k].id
  }

  predicate IsFirstWithItsId(calls: seq<Call>, k: nat) {
    k < |calls| && calls[k].id != "" && forall j | 0 <= j < k :: calls[j].id != calls[k].id
  }

  predicate IsFirst(calls: seq<Call>, c: Call) {
    exists k :: 0 <= k < |calls| && IsFirstWithItsId(calls, k) && calls[k] == c
  }

  lemma FirstsOfOneMore(front: seq<Call>, last: Call, c: Call)
    ensures IsFirst(front + [last], c) <==> IsFirst(front, c) || (c == last && last.id != "" && last.id !in Ids(front))
  {
    var calls := front + [last];
    assert calls[|front|] == last && forall k | 0 <= k < |front| :: front[k] == calls[k];
    assert IsFirstWithItsId(calls, |front|) <==> last.id != "" && last.id !in Ids(front);
    if k :| 0 <= k < |front| && IsFirstWithItsId(front, k) && front[k] == c { assert IsFirstWithItsId(calls, k); }
    if k :| 0 <= k < |calls| && IsFirstWithItsId(calls, k) && calls[k] == c {
      if k < |front| { assert IsFirstWithItsId(front, k); }
    }
  }

  /** Kept is the first call with each id, in order: what is kept of a part begins what is kept of the whole. */
  lemma {:induction false} KeptExactly(calls: seq<Call>)
    ensures forall c :: c in Kept(calls) <==> IsFirst(calls, c)
    ensures DistinctIds(Kept(calls))
    ensures calls != [] ==> Kept(calls[..|calls| - 1]) <= Kept(calls)
  {
    if calls != [] {
      var front, last := calls[..|calls| - 1], calls[|calls| - 1];
      KeptExactly(front);
      hide IsFirst, Ids;
      assert calls == front + [last];
      forall c ensures c in Kept(calls) <==> IsFirst(calls, c) { FirstsOfOneMore(front, last, c); }
      forall k | 0 <= k < |Kept(front)| ensures Kept(front)[k].id in Ids(front) {
        assert Kept(front)[k] in Kept(front);
        FirstHasItsId(front, Kept(front)[k]);
      }
    }
  }

  lemma FirstHasItsId(calls: seq<Call>, c: Call)
    requires IsFirst(calls, c)
    ensures c.id in Ids(calls)
  {
  }

  // ---- what any response says

  function TextIn(f: ResponsesFrame): string {
    if f.body.OutputTextDelta? then f.body.delta else ""
  }

  function InputTokensIn(f: ResponsesFrame): Option<int> {
    if f.body.ResponseCompleted? && f.body.usage.Some? then f.body.usage.value.inputTokens else None
  }

  function OutputTokensIn(f: ResponsesFrame): Option<int> {
    if f.body.ResponseCompleted? && f.body.usage.Some? then f.body.usage.value.outputTokens else None
  }

  function ItemsIn(f: ResponsesFrame): seq<Item> {
    match f.body
    case OutputItemDone(item) => [item]
    case ResponseCompleted(output, _) => output
    case WholeResponse(output) => output
    case _ => []
  }

  /** The call an item makes, under its call id or else its own. */
  function CallsBy(json: Json<ResponsesFrame>): Item -> seq<Call> {
    (item: Item) =>
      match item
      case FunctionCall(id, callId, name, arguments) =>
        [Call(if callId.Some? then callId.value else if id.Some? then id.value else "",
              if name.Some? then name.value else "", SafeJsonParse(json, arguments))]
      case _ => []
  }

  lemma {:induction false} ItemsInTurn(json: Json<ResponsesFrame>, r: Reading, calls: seq<Call>, items: seq<Item>)
    requires r.toolCalls == AllTimed(json, Kept(calls)) && r.seenIds == Ids(calls)
    ensures var after, more := TakeItems(json, r, items), calls + Gathered(items, CallsBy(json));
            after == r.(toolCalls := AllTimed(json, Kept(more)), seenIds := Ids(more))
    decreases items
  {
    hide SafeJsonParse, Ids, Kept, AllTimed, TakeItem;
    if items == [] {
      assert calls + [] == calls;
    } else {
      ItemInTurn(json, r, calls, items[0]);
      var first, others := CallsBy(json)(items[0]), Gathered(items[1..], CallsBy(json));
      ItemsInTurn(json, TakeItem(json, r, items[0]), calls + first, items[1..]);
      assert Gathered(items, CallsBy(json)) == first + others;
      hide Gathered, CallsBy;
      assert calls + first + others == calls + (first + others);
    }
  }

  lemma ItemInTurn(json: Json<ResponsesFrame>, r: Reading, calls: seq<Call>, item: Item)
    requires r.toolCalls == AllTimed(json, Kept(calls)) && r.seenIds == Ids(calls)
    ensures var after, more := TakeItem(json, r, item), calls + CallsBy(json)(item);
            after == r.(toolCalls := AllTimed(json, Kept(more)), seenIds := Ids(more))
  {
    hide SafeJsonParse;
    if item.FunctionCall? {
      var call := CallsBy(json)(item)[0];
      assert CallsBy(json)(item) == [call] && (calls + [call])[..|calls|] == calls;
      IdsOfOneMore(calls, call);
      AllTimedSnoc(json, Kept(calls), call);
    } else {
      assert calls + [] == calls;
    }
  }

  lemma IdsOfOneMore(calls: seq<Call>, call: Call)
    ensures Ids(calls + [call]) == if call.id != "" then Ids(calls) + {call.id} else Ids(calls)
  {
    var longer := calls + [call];
    assert longer[|calls|] == call && forall k | 0 <= k < |calls| :: longer[k] == calls[k];
  }

  lemma {:induction false} TakesEverything(json: Json<ResponsesFrame>, frames: seq<ResponsesFrame>)
    ensures var r, calls := TakeAll(json, frames), Gathered(Gathered(frames, ItemsIn), CallsBy(json));
            && r.text == Gathered(frames, TextIn)
            && IsLast(frames, InputTokensIn, INPUT_TOKENS, r.inputTokens) && IsLast(frames, OutputTokensIn, OUTPUT_TOKENS, r.outputTokens)
            && r.toolCalls == AllTimed(json, Kept(calls)) && r.seenIds == Ids(calls)
    decreases |frames|
  {
    hide IsLast, Gathered, TakeAll, CallsBy, Kept, Ids, AllTimed, TakeItems;
    if frames == [] {
      NothingTaken(json);
    } else {
      var front, f := frames[..|frames| - 1], frames[|frames| - 1];
      var before := TakeAll(json, front);
      TakesEverything(json, front);
      LastTaken(json, frames);
      GatheredLast(frames, TextIn);
      GatheredLast(frames, ItemsIn);
      LastSnoc(frames, InputTokensIn, INPUT_TOKENS, before.inputTokens);
      LastSnoc(frames, OutputTokensIn, OUTPUT_TOKENS, before.outputTokens);
      TakesItsParts(json, before, f);
      GatheredBoth(Gathered(front, ItemsIn), ItemsIn(f), CallsBy(json));
      ItemsInTurn(json, before, Gathered(Gathered(front, ItemsIn), CallsBy(json)), ItemsIn(f));
    }
  }

  lemma NothingTaken(json: Json<ResponsesFrame>)
    ensures TakeAll(json, []) == START && AllTimed(json, Kept([])) == [] && Ids([]) == {}
    ensures Gathered([], TextIn) == "" && Gathered([], ItemsIn) == [] && Gathered([], CallsBy(json)) == []
    ensures IsLast([], InputTokensIn, INPUT_TOKENS, INPUT_TOKENS) && IsLast([], OutputTokensIn, OUTPUT_TOKENS, OUTPUT_TOKENS)
  {
  }

  lemma LastTaken(json: Json<ResponsesFrame>, frames: seq<ResponsesFrame>)
    requires frames != []
    ensures TakeAll(json, frames) == Take(json, TakeAll(json, frames[..|frames| - 1]), frames[|frames| - 1])
  {
  }

  lemma TakesItsParts(json: Json<ResponsesFrame>, before: Reading, f: ResponsesFrame)
    ensures var r, items := Take(json, before, f), TakeItems(json, before, ItemsIn(f));
            && r.text == before.text + TextIn(f) && r.toolCalls == items.toolCalls && r.seenIds == items.seenIds
            && r.inputTokens == (if InputTokensIn(f).Some? then InputTokensIn(f).value else before.inputTokens)
            && r.outputTokens == (if OutputTokensIn(f).Some? then OutputTokensIn(f).value else before.outputTokens)
  {
    assert before.text + "" == before.text;
    if f.body.ResponseCompleted? {
      ItemsLeaveTheRest(json, before, f.body.output, TakeUsage(before, f.body.usage));
    } else if f.body.OutputItemDone? {
      assert [f.body.item][1..] == [];
    } else if f.body.WholeResponse? {
      ItemsLeaveTheRest(json, before, f.body.output, before);
    }
  }

  lemma {:induction false} ItemsLeaveTheRest(json: Json<ResponsesFrame>, r: Reading, items: seq<Item>, other: Reading)
    requires r.toolCalls == other.toolCalls && r.seenIds == other.seenIds
    ensures var a, b := TakeItems(json, r, items), TakeItems(json, other, items);
            && a.toolCalls == b.toolCalls && a.seenIds == b.seenIds
            && b.text == other.text && b.inputTokens == other.inputTokens && b.outputTokens == other.outputTokens
    decreases items
  {
    if items != [] { ItemsLeaveTheRest(json, TakeItem(json, r, items[0]), items[1..], TakeItem(json, other, items[0])); }
  }

  /** Any response is read as all its text deltas in order, the token counts its completion reports last, and of the
      calls its finished items and its output make, the first with each id. */
  lemma ReadsWhatIsSaid(json: Json<ResponsesFrame>, raw: string)
    ensures var frames := DataFrames(json, raw); var r := Parse(json, raw);
            var kept := Kept(Gathered(Gathered(frames, ItemsIn), CallsBy(json)));
            && r.text == Gathered(frames, TextIn)
            && IsLast(frames, InputTokensIn, INPUT_TOKENS, r.inputTokens) && IsLast(frames, OutputTokensIn, OUTPUT_TOKENS, r.outputTokens)
            && |r.toolCalls| == |kept|
            && forall k | 0 <= k < |kept| :: IsCall(json, r.toolCalls[k], kept[k].id, kept[k].name, kept[k].args)
  {
    TakesEverything(json, DataFrames(json, raw));
  }

  lemma {:induction false} KeptIsShorter(calls: seq<Call>)
    ensures |Kept(calls)| <= |calls| && (|Kept(calls)| == |calls| ==> Kept(calls) == calls)
  {
    if calls != [] {
      KeptIsShorter(calls[..|calls| - 1]);
      assert calls == calls[..|calls| - 1] + [calls[|calls| - 1]];
    }
  }

  /** All calls survive exactly when their ids are nonempty and distinct. */
  lemma {:induction false} AllKeptExactly(calls: seq<Call>)
    ensures Kept(calls) == calls <==> DistinctIds(calls)
  {
    if calls != [] {
      var front, last := calls[..|calls| - 1], calls[|calls| - 1];
      AllKeptExactly(front);
      KeptIsShorter(front);
      assert calls == front + [last];
      assert last.id in Ids(front) <==> last.id != "" && exists k :: 0 <= k < |front| && front[k].id == last.id;
      if DistinctIds(calls) {
        assert forall k | 0 <= k < |front| :: front[k] == calls[k];
      }
      if Kept(calls) == calls {
        assert Kept(calls)[..|front|] == Kept(front);
      }
    }
  }

  // ---- the writer

  datatype OpenMessage = OpenMessage(index: nat, text: string)

  ghost predicate ItemKnown(item: Item, seen: set<string>) {
    item.FunctionCall? ==> IdOf(item) == "" || IdOf(item) in seen
  }

  /** The order of a stream: items one at a time, each with its deltas, their whole, and the finished item; then all
      finished items in order. */
  datatype Phase =
    | Unopened | Opened
    | Between(done: seq<Item>)
    | MessageOpened(done: seq<Item>) | InMessage(done: seq<Item>, text: string)
    | TextTold(done: seq<Item>, text: string) | PartTold(done: seq<Item>, text: string)
    | InCall(done: seq<Item>, call: Item, arguments: string) | ArgumentsTold(done: seq<Item>, call: Item)
    | Over(done: seq<Item>)
    | Broken

  function Advance(phase: Phase, body: Content): Phase {
    match (phase, body)
    case (Unopened, Created) => Opened
    case (Opened, InProgress) => Between([])
    case (Between(done), OutputItemAdded(MessageItem(text))) => if text == "" then MessageOpened(done) else Broken
    case (MessageOpened(done), ContentPartAdded) => InMessage(done, "")
    case (InMessage(done, text), OutputTextDelta(delta)) => InMessage(done, text + delta)
    case (InMessage(done, text), OutputTextDone(whole)) => if whole == text then TextTold(done, text) else Broken
    case (TextTold(done, text), ContentPartDone(whole)) => if whole == text then PartTold(done, text) else Broken
    case (PartTold(done, text), OutputItemDone(item)) => if item == MessageItem(text) then Between(done + [item]) else Broken
    case (Between(done), OutputItemAdded(FunctionCall(id, callId, name, arguments))) =>
      if arguments == Given.Text("") then InCall(done, FunctionCall(id, callId, name, arguments), "") else Broken
    case (InCall(done, call, arguments), ArgumentsDelta(delta)) => InCall(done, call, arguments + delta)
    case (InCall(done, call, arguments), ArgumentsDone(whole)) =>
      if whole == arguments && call.FunctionCall? then ArgumentsTold(done, call.(arguments := Given.Text(whole))) else Broken
    case (ArgumentsTold(done, call), OutputItemDone(item)) => if item == call then Between(done + [item]) else Broken
    case (Between(done), ResponseCompleted(output, usage)) => if output == done && usage.Some? then Over(done) else Broken
    case _ => Broken
  }

  function PhaseOf(frames: seq<ResponsesFrame>): Phase {
    if frames == [] then Unopened else Advance(PhaseOf(frames[..|frames| - 1]), frames[|frames| - 1].body)
  }

  function TextBy(item: Item): string {
    if item.MessageItem? then item.text else ""
  }

  /** The finished items and the open message say the text, and the items make the calls. */
  ghost predicate ItemsTell(json: Json<ResponsesFrame>, done: seq<Item>, open: string, text: string, calls: seq<Call>) {
    Gathered(done, TextBy) + open == text && Gathered(done, CallsBy(json)) == calls
  }

  /** A frame that tells the parser nothing. */
  predicate Quiet(body: Content) {
    match body
    case OutputTextDelta(_) => false
    case ResponseCompleted(_, _) => false
    case WholeResponse(_) => false
    case OutputItemDone(item) => !item.FunctionCall?
    case _ => true
  }

  lemma QuietLeaves(json: Json<ResponsesFrame>, r: Reading, n: nat, body: Content)
    ensures Quiet(body) ==> Take(json, r, ResponsesFrame(n, body)) == r
  {
  }

  lemma Starts(json: Json<ResponsesFrame>)
    ensures TakeAll(json, Frames([])) == Reading("", AllTimed(json, Kept([])), Ids([]), INPUT_TOKENS, OUTPUT_TOKENS)
    ensures Advance(Advance(Unopened, Created), InProgress) == Between([]) && PhaseOf(Frames([])) == Unopened
    ensures ItemsTell(json, [], "", "", []) && PlainEvents<ResponsesFrame>([]) && Numbered([]) && Quiet(Created) && Quiet(InProgress)
  {
    assert Gathered([], TextBy) == "" && Gathered([], CallsBy(json)) == [];
  }

  lemma MessageOpens(json: Json<ResponsesFrame>, done: seq<Item>)
    ensures Advance(Advance(Between(done), OutputItemAdded(MessageItem(""))), ContentPartAdded) == InMessage(done, "")
  {
  }

  lemma MessageGrows(json: Json<ResponsesFrame>, done: seq<Item>, open: string, chunk: string, text: string, calls: seq<Call>)
    ensures Advance(InMessage(done, open), OutputTextDelta(chunk)) == InMessage(done, open + chunk)
    ensures forall r, n :: Take(json, r, ResponsesFrame(n, OutputTextDelta(chunk))) == r.(text := r.text + chunk)
    ensures ItemsTell(json, done, open, text, calls) ==> ItemsTell(json, done, open + chunk, text + chunk, calls)
  {
    hide Gathered;
    assert Gathered(done, TextBy) + (open + chunk) == Gathered(done, TextBy) + open + chunk;
  }

  lemma MessageCloses(json: Json<ResponsesFrame>, done: seq<Item>, open: string, text: string, calls: seq<Call>)
    ensures var item := MessageItem(open);
            && Advance(Advance(Advance(InMessage(done, open), OutputTextDone(open)), ContentPartDone(open)), OutputItemDone(item)) == Between(done + [item])
            && (ItemsTell(json, done, open, text, calls) ==> ItemsTell(json, done + [item], "", text, calls))
  {
    GatheredSnoc(done, MessageItem(open), TextBy);
    GatheredSnoc(done, MessageItem(open), CallsBy(json));
    hide Gathered;
    assert Gathered(done, CallsBy(json)) + [] == Gathered(done, CallsBy(json));
  }

  lemma ArgumentsGrow(done: seq<Item>, started: Item, soFar: string, piece: string)
    ensures Advance(InCall(done, started, soFar), ArgumentsDelta(piece)) == InCall(done, started, soFar + piece)
  {
  }

  lemma CallIsFramed(done: seq<Item>, started: Item, arguments: string)
    requires started.FunctionCall? && started.arguments == Given.Text("")
    ensures var item := started.(arguments := Given.Text(arguments));
            && Advance(Between(done), OutputItemAdded(started)) == InCall(done, started, "")
            && Advance(Advance(InCall(done, started, arguments), ArgumentsDone(arguments)), OutputItemDone(item)) == Between(done + [item])
  {
  }

  lemma CallIsTold(json: Json<ResponsesFrame>, done: seq<Item>, started: Item, arguments: string, text: string, calls: seq<Call>, call: Call)
    requires Lawful(json) && arguments == json.writeArgs(call.args)
    requires started.FunctionCall? && started.arguments == Given.Text("") && started.callId == Some(call.id) && started.name == Some(call.name)
    ensures var item := started.(arguments := Given.Text(arguments));
            && (ItemsTell(json, done, "", text, calls) ==> ItemsTell(json, done + [item], "", text, calls + [call]))
            && (forall r, n :: Take(json, r, ResponsesFrame(n, OutputItemDone(item))) == TakeItem(json, r, item))
  {
    var item := started.(arguments := Given.Text(arguments));
    GatheredSnoc(done, item, TextBy);
    GatheredSnoc(done, item, CallsBy(json));
    ArgsComeBack(json, call.args);
    hide Gathered, SafeJsonParse;
    assert Gathered(done, TextBy) + "" == Gathered(done, TextBy);
  }

  class ResponsesStream {
    const json: Json<ResponsesFrame>
    var sequence: nat
    var output: seq<Item>
    var message: Option<OpenMessage>
    var sent: seq<Sent<ResponsesFrame>>
    ghost var text: string
    ghost var calls: seq<Call>

    ghost predicate Valid()
      reads this
    {
      && Lawful(json) && PlainEvents(sent) && Numbered(sent) && sequence == |sent|
      && (message.Some? ==> message.value.index + 1 == |output|)
      && ItemsTell(json, Done(), if message.Some? then message.value.text else "", text, calls)
      && PhaseOf(Frames(sent)) == (if message.Some? then InMessage(Done(), message.value.text) else Between(output))
      && (forall k | 0 <= k < |output| :: ItemKnown(output[k], Ids(calls)))
      && TakeAll(json, Frames(sent)) == Reading(text, AllTimed(json, Kept(calls)), Ids(calls), INPUT_TOKENS, OUTPUT_TOKENS)
    }

    /** The finished items. */
    ghost function Done(): seq<Item>
      requires message.Some? ==> message.value.index <= |output|
      reads this
    {
      if message.Some? then output[..message.value.index] else output
    }

    constructor (json: Json<ResponsesFrame>)
      requires Lawful(json)
      ensures Valid() && text == "" && calls == [] && this.json == json
    {
      this.json := json;
      sequence, output, message, sent, text, calls := 0, [], None, [], "", [];
      new;
      hide TakeAll, Frames, PhaseOf, Take, Advance, ItemsTell, Kept, Ids, AllTimed, Lawful, PlainEvents, Numbered, Quiet;
      Starts(json);
      Send("response.created", Created);
      Send("response.in_progress", InProgress);
    }

    method Send(event: string, body: Content)
      requires PlainEvents(sent) && Numbered(sent) && sequence == |sent| && '\n' !in event
      modifies this`sent, this`sequence
      ensures PlainEvents(sent) && Numbered(sent) && sequence == |sent|
      ensures TakeAll(json, Frames(sent)) == Take(json, TakeAll(json, old(Frames(sent))), ResponsesFrame(old(sequence), body))
      ensures Quiet(body) ==> TakeAll(json, Frames(sent)) == TakeAll(json, old(Frames(sent)))
      ensures PhaseOf(Frames(sent)) == Advance(PhaseOf(old(Frames(sent))), body)
    {
      QuietLeaves(json, TakeAll(json, Frames(sent)), sequence, body);
      OneMore(json, sent, event, ResponsesFrame(sequence, body));
      sent := sent + [Frame(event, ResponsesFrame(sequence, body))];
      sequence := sequence + 1;
    }

    method CloseMessage()
      requires Valid()
      modifies this`sent, this`sequence, this`output, this`message
      ensures Valid() && message == None && |output| == old(|output|)
    {
      hide TakeAll, Frames, Kept, Lawful, Ids, AllTimed, Take, Advance, PhaseOf, ItemsTell, PlainEvents, Numbered;
      if message.None? { return; }
      var open := message.value;
      MessageCloses(json, Done(), open.text, text, calls);
      message := None;
      Send("response.output_text.done", OutputTextDone(open.text));
      Send("response.content_part.done", ContentPartDone(open.text));
      var item := MessageItem(open.text);
      assert output[open.index := item] == output[..open.index] + [item];
      output := output[open.index := item];
      Send("response.output_item.done", OutputItemDone(item));
    }

    method StartMessage()
      requires Valid() && message == None
      modifies this`sent, this`sequence, this`output, this`message
      ensures Valid() && message.Some?
    {
      hide TakeAll, Frames, Kept, Lawful, Ids, AllTimed, Take, Advance, PhaseOf, ItemsTell, PlainEvents, Numbered;
      MessageOpens(json, Done());
      message := Some(OpenMessage(|output|, ""));
      output := output + [NullItem];
      assert output[..|output| - 1] == old(output);
      Send("response.output_item.added", OutputItemAdded(MessageItem("")));
      Send("response.content_part.added", ContentPartAdded);
    }

    method Text(chunk: string)
      requires Valid()
      modifies this
      ensures Valid() && text == old(text) + chunk && calls == old(calls)
    {
      hide TakeAll, Frames, Kept, Lawful, Ids, AllTimed, Take, Advance, PhaseOf, ItemsTell, PlainEvents, Numbered;
      if message.None? { StartMessage(); }
      MessageGrows(json, Done(), message.value.text, chunk, text, calls);
      message := Some(message.value.(text := message.value.text + chunk));
      Send("response.output_text.delta", OutputTextDelta(chunk));
      text := text + chunk;
    }

    method SendPiece(ghost started: Item, ghost soFar: string, piece: string)
      requires PlainEvents(sent) && Numbered(sent) && sequence == |sent| && PhaseOf(Frames(sent)) == InCall(output, started, soFar)
      modifies this`sent, this`sequence
      ensures PlainEvents(sent) && Numbered(sent) && sequence == |sent| && PhaseOf(Frames(sent)) == InCall(output, started, soFar + piece)
      ensures TakeAll(json, Frames(sent)) == TakeAll(json, old(Frames(sent)))
    {
      hide TakeAll, Frames, Take, Advance, PhaseOf, PlainEvents, Numbered;
      Send("response.function_call_arguments.delta", ArgumentsDelta(piece));
      ArgumentsGrow(output, started, soFar, piece);
    }

    /** The arguments of the call just announced, in pieces and whole. */
    method SendArguments(ghost started: Item, argumentsJson: string)
      requires PlainEvents(sent) && Numbered(sent) && sequence == |sent| && PhaseOf(Frames(sent)) == InCall(output, started, "")
      modifies this`sent, this`sequence
      ensures PlainEvents(sent) && Numbered(sent) && sequence == |sent|
      ensures TakeAll(json, Frames(sent)) == TakeAll(json, old(Frames(sent)))
      ensures PhaseOf(Frames(sent)) == Advance(InCall(output, started, argumentsJson), ArgumentsDone(argumentsJson))
    {
      hide TakeAll, Frames, Halves, Join, Take, Advance, PhaseOf, PlainEvents, Numbered;
      var pieces := Halves(argumentsJson);
      HalvesJoin(argumentsJson);
      JoinStep(pieces, 0, "");
      var k := 0;
      ghost var soFar := "";
      while k < |pieces|
        invariant 0 <= k <= |pieces| && PlainEvents(sent) && Numbered(sent) && sequence == |sent|
        invariant TakeAll(json, Frames(sent)) == TakeAll(json, old(Frames(sent)))
        invariant soFar + Join(pieces[k..]) == argumentsJson && PhaseOf(Frames(sent)) == InCall(output, started, soFar)
      {
        SendPiece(started, soFar, pieces[k]);
        JoinStep(pieces, k, soFar);
        soFar := soFar + pieces[k];
        k := k + 1;
      }
      JoinStep(pieces, k, soFar);
      Send("response.function_call_arguments.done", ArgumentsDone(argumentsJson));
    }

    method ToolCall(call: Call)
      requires Valid()
      modifies this
      ensures Valid() && text == old(text) && calls == old(calls) + [call]
    {
      hide TakeAll, Frames, Kept, Lawful, SafeJsonParse, Ids, AllTimed, Take, Advance, PhaseOf, ItemsTell, PlainEvents, Numbered;
      CloseMessage();
      ghost var before := TakeAll(json, Frames(sent));
      var argumentsJson := json.writeArgs(call.args);
      var started := FunctionCall(Some("fc_xf"), Some(call.id), Some(call.name), Given.Text(""));
      Send("response.output_item.added", OutputItemAdded(started));
      CallIsFramed(output, started, argumentsJson);
      CallIsTold(json, output, started, argumentsJson, text, calls, call);
      SendArguments(started, argumentsJson);
      var item := started.(arguments := Given.Text(argumentsJson));
      output := output + [item];
      Send("response.output_item.done", OutputItemDone(item));
      KeepOne(json, calls, call, item, before);
      calls := calls + [call];
    }

    /** The stream that `end` completes is in order, ends with the items that say the whole turn, and is read back without
        the calls that carry no new id. */
    method End()
      requires Valid()
      modifies this
      ensures PlainEvents(sent) && text == old(text) && calls == old(calls)
      ensures Parse(json, Body(json, sent)) == Turn(json, text, Kept(calls))
      ensures PhaseOf(Frames(sent)) == Over(output) && Gathered(output, TextBy) == text && Gathered(output, CallsBy(json)) == calls
    {
      hide TakeAll, Frames, PhaseOf, Kept, Lawful, SafeJsonParse, Ids, DataFrames;
      CloseMessage();
      ghost var before := TakeAll(json, Frames(sent));
      Send("response.completed", ResponseCompleted(output, Some(Usage(Some(INPUT_TOKENS), Some(OUTPUT_TOKENS)))));
      NothingNew(json, before, output);
      SentFramesAreFound(json, sent);
    }
  }

  /** Every frame carries its position in the stream. */
  predicate Numbered(sent: seq<Sent<ResponsesFrame>>) {
    forall k | 0 <= k < |sent| :: sent[k].Frame? && sent[k].f.sequenceNumber == k
  }

  lemma OneMore(json: Json<ResponsesFrame>, sent: seq<Sent<ResponsesFrame>>, event: string, f: ResponsesFrame)
    ensures TakeAll(json, Frames(sent + [Frame(event, f)])) == Take(json, TakeAll(json, Frames(sent)), f)
    ensures PhaseOf(Frames(sent + [Frame(event, f)])) == Advance(PhaseOf(Frames(sent)), f.body)
  {
    FramesSnoc(sent, Frame(event, f));
    assert (Frames(sent) + [f])[..|Frames(sent)|] == Frames(sent);
  }

  lemma KeepOne(json: Json<ResponsesFrame>, calls: seq<Call>, call: Call, item: Item, before: Reading)
    requires Lawful(json) && item.FunctionCall? && item.callId == Some(call.id) && item.name == Some(call.name)
    requires item.arguments == Given.Text(json.writeArgs(call.args))
    requires before.toolCalls == AllTimed(json, Kept(calls)) && before.seenIds == Ids(calls)
    ensures TakeItem(json, before, item) == before.(toolCalls := AllTimed(json, Kept(calls + [call])), seenIds := Ids(calls + [call]))
    ensures forall other | ItemKnown(other, Ids(calls)) :: ItemKnown(other, Ids(calls + [call]))
    ensures ItemKnown(item, Ids(calls + [call]))
  {
    ArgsComeBack(json, call.args);
    var longer := calls + [call];
    assert longer[..|calls|] == calls;
    assert Ids(longer) == if call.id != "" then Ids(calls) + {call.id} else Ids(calls) by {
      assert longer[|calls|] == call && forall k | 0 <= k < |calls| :: longer[k] == calls[k];
    }
    AllTimedSnoc(json, Kept(calls), call);
  }

  /** The final response repeats only calls that are known or have no id. */
  lemma {:induction false} NothingNew(json: Json<ResponsesFrame>, r: Reading, items: seq<Item>)
    requires forall k | 0 <= k < |items| :: ItemKnown(items[k], r.seenIds)
    ensures TakeItems(json, r, items) == r
  {
    if items != [] { NothingNew(json, r, items[1..]); }
  }
}
