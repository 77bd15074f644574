/**
 Streaming refines the one-piece completion: a client that puts the emitted
 chunks together holds what the non-streaming translation returns.
 */
module StreamRefinement {
  import opened Common
  import opened Json
  import Content
  import Messages
  import opened SseTranslator

  // ---------------------------------------------------------------- a message, in one piece and cut up

  /** One content block and the fragments it streams as; only tool uses stream as OpenAI tool calls. */
  datatype Part =
    | TextPart(fragments: seq<string>)
    | ToolPart(index: nat, id: Value, name: Value, fragments: seq<string>, input: Value)
    | OtherPart(index: nat, block: Value, fragments: seq<string>)

  /** The token counts of a whole message. */
  datatype Counts = Counts(input: nat, output: nat, cacheRead: nat, thinking: Option<nat>)

  /** A message and the usage objects its first and last event carry. */
  datatype Message = Message(parts: seq<Part>, stopReason: Option<string>, usage: Counts, opening: Value, closing: Value)

  /** The block of a part in a non-streaming response. */
  function BlockOf(p: Part): Value {
    match p
    case TextPart(fragments) => Content.TextBlock(Join(fragments))
    case ToolPart(_, id, name, _, input) => Messages.ToolUse(id, name, input)
    case OtherPart(_, block, _) => block
  }

  function BlocksOf(parts: seq<Part>): seq<Value> {
    if parts == [] then [] else [BlockOf(parts[0])] + BlocksOf(parts[1..])
  }

  function WordEvents(fragments: seq<string>): seq<Event> {
    if fragments == [] then [] else [TextDelta(fragments[0])] + WordEvents(fragments[1..])
  }

  function ArgumentEvents(index: nat, fragments: seq<string>): seq<Event> {
    if fragments == [] then [] else [ArgumentsDelta(index, fragments[0])] + ArgumentEvents(index, fragments[1..])
  }

  function PartEvents(p: Part): seq<Event> {
    match p
    case TextPart(fragments) => WordEvents(fragments)
    case ToolPart(index, id, name, fragments, _) => [ToolStart(index, id, name)] + ArgumentEvents(index, fragments)
    case OtherPart(index, _, fragments) => ArgumentEvents(index, fragments)
  }

  function BodyEvents(parts: seq<Part>): seq<Event> {
    if parts == [] then [] else PartEvents(parts[0]) + BodyEvents(parts[1..])
  }

  /** The meaningful events of a message's stream, in order. */
  function EventsOf(m: Message): seq<Event> {
    [MessageStart(m.opening)] + BodyEvents(m.parts) + [MessageDelta(m.closing, m.stopReason)]
  }

  /** The events read in a stream of JSON values; pings, block boundaries and the like carry none. */
  function Meaningful(stream: seq<Value>): seq<Event> {
    if stream == [] then []
    else (if EventOf(stream[0]).Nothing? then [] else [EventOf(stream[0])]) + Meaningful(stream[1..])
  }

  /** A block that is neither a text nor a tool use; server tools, thinking and the like. */
  predicate IsOther(block: Value) {
    Get(block, "type") != Str("tool_use") && !(Get(block, "type") == Str("text") && Get(block, "text").Str?)
  }

  /** The index of a block that is no tool use is not one of an earlier tool use. */
  ghost predicate OthersApart(parts: seq<Part>) {
    forall i, j :: 0 <= i < j < |parts| && parts[i].ToolPart? && parts[j].OtherPart? ==> parts[i].index != parts[j].index
  }

  /** The counts reported last are those of the message. */
  predicate ReportsUsage(m: Message) {
    var events := EventsOf(m);
    m.usage == Counts(Or(LastReport(events, "input_tokens"), 0), Or(LastReport(events, "output_tokens"), 0),
                      Or(LastReport(events, "cache_read_input_tokens"), 0), LastThinking(events))
  }

  /** A message as the provider streams it, whatever its tool arguments. */
  ghost predicate WellFormed(m: Message) {
    (forall i :: 0 <= i < |m.parts| && m.parts[i].OtherPart? ==> IsOther(m.parts[i].block)) &&
    OthersApart(m.parts) && ReportsUsage(m)
  }

  function OpeningWire(usage: Value): Value {
    Obj(map["type" := Str("message_start"), "message" := Obj(map["usage" := usage])])
  }

  function StartWire(index: nat, block: Value): Value {
    Obj(map["type" := Str("content_block_start"), "index" := Num(index), "content_block" := block])
  }

  function TextWire(index: nat, fragment: string): Value {
    Obj(map["type" := Str("content_block_delta"), "index" := Num(index),
            "delta" := Obj(map["type" := Str("text_delta"), "text" := Str(fragment)])])
  }

  function ArgumentsWire(index: nat, fragment: string): Value {
    Obj(map["type" := Str("content_block_delta"), "index" := Num(index),
            "delta" := Obj(map["type" := Str("input_json_delta"), "partial_json" := Str(fragment)])])
  }

  function ClosingWire(stopReason: string, usage: Value): Value {
    Obj(map["type" := Str("message_delta"), "usage" := usage, "delta" := Obj(map["stop_reason" := Str(stopReason)])])
  }

  function BoundaryWire(kind: string, index: nat): Value {
    Obj(map["type" := Str(kind), "index" := Num(index)])
  }

  /** The provider's events carry what the message streams; the rest carries nothing. */
  lemma WireOpens(usage: Value, stopReason: string)
    ensures EventOf(OpeningWire(usage)) == MessageStart(usage)
    ensures EventOf(ClosingWire(stopReason, usage)) == MessageDelta(usage, Some(stopReason))
  {
    assert Get(Get(OpeningWire(usage), "message"), "usage") == usage;
    assert Get(Get(ClosingWire(stopReason, usage), "delta"), "stop_reason") == Str(stopReason);
  }

  lemma WireStarts(index: nat, id: Value, name: Value)
    requires index < 0x1_0000_0000_0000_0000
    ensures EventOf(StartWire(index, Messages.ToolUse(id, name, Obj(map[])))) == ToolStart(index, id, name)
  {
    var block := Messages.ToolUse(id, name, Obj(map[]));
    assert Get(block, "type") == Str("tool_use") && Get(block, "id") == id && Get(block, "name") == name;
    assert Get(StartWire(index, block), "index") == Num(index);
  }

  /** Without an index an event concerns block 0. */
  lemma WireWithoutIndex(id: Value, name: Value, fragment: string)
    ensures var start := Obj(map["type" := Str("content_block_start"),
                                 "content_block" := Messages.ToolUse(id, name, Obj(map[]))]);
            EventOf(start) == ToolStart(0, id, name)
    ensures var delta := Obj(map["type" := Str("input_json_delta"), "partial_json" := Str(fragment)]);
            EventOf(Obj(map["type" := Str("content_block_delta"), "delta" := delta])) == ArgumentsDelta(0, fragment)
  {
    var block := Messages.ToolUse(id, name, Obj(map[]));
    assert Get(block, "type") == Str("tool_use") && Get(block, "id") == id && Get(block, "name") == name;
    var delta := Obj(map["type" := Str("input_json_delta"), "partial_json" := Str(fragment)]);
    assert Get(delta, "type") == Str("input_json_delta") && Get(delta, "partial_json") == Str(fragment);
  }

  /** The start of any other block carries nothing. */
  lemma WireStartsNothing(index: nat, block: Value)
    requires Get(block, "type") != Str("tool_use")
    ensures EventOf(StartWire(index, block)) == Nothing
  {
    assert Get(StartWire(index, block), "content_block") == block;
  }

  lemma WireFragments(index: nat, fragment: string)
    requires index < 0x1_0000_0000_0000_0000
    ensures EventOf(TextWire(index, fragment)) == TextDelta(fragment)
    ensures EventOf(ArgumentsWire(index, fragment)) == ArgumentsDelta(index, fragment)
  {
    assert Get(ArgumentsWire(index, fragment), "index") == Num(index);
    assert Get(Get(TextWire(index, fragment), "delta"), "text") == Str(fragment);
    assert Get(Get(ArgumentsWire(index, fragment), "delta"), "partial_json") == Str(fragment);
  }

  function UsageWire(input: nat, cacheRead: nat, output: nat, thinking: nat): Value {
    Obj(map["input_tokens" := Num(input), "cache_read_input_tokens" := Num(cacheRead), "output_tokens" := Num(output),
            "output_tokens_details" := Obj(map["thinking_tokens" := Num(thinking)])])
  }

  /** A usage object tells its four counts. */
  lemma WireUsage(s: State, input: nat, cacheRead: nat, output: nat, thinking: nat)
    requires input < 0x1_0000_0000 && cacheRead < 0x1_0000_0000 && output < 0x1_0000_0000 && thinking < 0x1_0000_0000
    ensures Absorbed(s, UsageWire(input, cacheRead, output, thinking)) ==
            State(input, cacheRead, output, Some(thinking), true, s.toolIndices, s.nextToolIndex)
  {
    var usage := UsageWire(input, cacheRead, output, thinking);
    assert Get(usage, "input_tokens") == Num(input) && Get(usage, "cache_read_input_tokens") == Num(cacheRead);
    assert Get(usage, "output_tokens") == Num(output);
    assert Get(Get(usage, "output_tokens_details"), "thinking_tokens") == Num(thinking);
  }

  lemma WireBoundaries(kind: string, index: nat)
    requires kind == "ping" || kind == "content_block_stop" || kind == "message_stop"
    ensures EventOf(BoundaryWire(kind, index)) == Nothing
  {
    assert Get(BoundaryWire(kind, index), "type") == Str(kind);
  }

  // ---------------------------------------------------------------- the client

  datatype Call = Call(id: Value, name: Value, arguments: string)

  /** What a client has put together so far. */
  datatype Client = Client(text: string, calls: seq<Call>, finish: Option<string>, usage: Value)

  const IDLE := Client("", [], None, Null)

  /** A client that reads one chunk: text and arguments add up, a call starts when its index comes next. */
  function Read(c: Client, chunk: Value): Client {
    if IsChunk(chunk) then ReadChoice(c, Get(chunk, "usage"), Get(chunk, "choices").items[0]) else c
  }

  /** A chunk of the stream, with its one choice. */
  predicate IsChunk(chunk: Value) {
    var choices := Get(chunk, "choices");
    Get(chunk, "id") == Str("chatcmpl-stream") && Get(chunk, "object") == Str("chat.completion.chunk") &&
    choices.Arr? && |choices.items| == 1 && Get(choices.items[0], "index") == Num(0)
  }

  function ReadChoice(c: Client, usage: Value, choice: Value): Client {
    var delta := Get(choice, "delta");
    var calls := Get(delta, "tool_calls");
    Client(
      c.text + (if Get(delta, "content").Str? then Get(delta, "content").text else ""),
      if calls.Arr? && |calls.items| == 1 then ReadCall(c.calls, calls.items[0]) else c.calls,
      if Get(choice, "finish_reason").Str? then Some(Get(choice, "finish_reason").text) else c.finish,
      if usage != Null then usage else c.usage)
  }

  function ReadCall(calls: seq<Call>, entry: Value): seq<Call> {
    var index, f := Get(entry, "index"), Get(entry, "function");
    var more := if Get(f, "arguments").Str? then Get(f, "arguments").text else "";
    if !index.Num? then calls
    else if index.n == |calls| && Get(entry, "type") == Str("function") then calls + [Call(Get(entry, "id"), Get(f, "name"), more)]
    else if 0 <= index.n < |calls| then calls[index.n := calls[index.n].(arguments := calls[index.n].arguments + more)]
    else calls
  }

  function ReadAll(c: Client, chunks: seq<Value>): Client
    decreases |chunks|
  {
    if chunks == [] then c else ReadAll(Read(c, chunks[0]), chunks[1..])
  }

  /** The chunks that a stream of JSON events makes the translator emit. */
  function Chunks(s: State, stream: seq<Value>): seq<Value>
    decreases |stream|
  {
    if stream == [] then []
    else
      var e := EventOf(stream[0]);
      (if Emitted(s, e).Some? then [ChunkOf(Emitted(s, e).value)] else []) + Chunks(Next(s, e), stream[1..])
  }

  // ---------------------------------------------------------------- what the client makes of an emission

  function Told(c: Client, e: Emit): Client {
    match e
    case Words(text) => c.(text := c.text + text)
    case CallStart(index, id, name) =>
      if index == |c.calls| then c.(calls := c.calls + [Call(id, name, "")]) else c
    case CallArguments(index, text) =>
      if index < |c.calls| then c.(calls := c.calls[index := c.calls[index].(arguments := c.calls[index].arguments + text)])
      else c
    case Final(reason, usage) =>
      c.(finish := Some(reason), usage := if usage.Some? then UsageValue(usage.value) else c.usage)
  }

  lemma ReadsChunk(c: Client, delta: Value, reason: Value, more: map<string, Value>)
    requires more.Keys <= {"usage"}
    ensures var chunk := Chunk(delta, reason, more);
            IsChunk(chunk) &&
            Get(Get(chunk, "choices").items[0], "delta") == delta &&
            Get(Get(chunk, "choices").items[0], "finish_reason") == reason &&
            Get(chunk, "usage") == if "usage" in more then more["usage"] else Null
  {
  }

  lemma ReadsCallStart(calls: seq<Call>, index: nat, id: Value, name: Value)
    requires index == |calls|
    ensures ReadCall(calls, Obj(map["index" := Num(index), "id" := id, "type" := Str("function"),
                                    "function" := Obj(map["name" := name, "arguments" := Str("")])])) ==
            calls + [Call(id, name, "")]
  {
  }

  lemma ReadsCallArguments(calls: seq<Call>, index: nat, text: string)
    requires index < |calls|
    ensures ReadCall(calls, Obj(map["index" := Num(index), "function" := Obj(map["arguments" := Str(text)])])) ==
            calls[index := calls[index].(arguments := calls[index].arguments + text)]
  {
  }

  /** The emission concerns a call the client has, or the one it expects next. */
  predicate Expected(c: Client, e: Emit) {
    (e.CallStart? ==> e.index == |c.calls|) && (e.CallArguments? ==> e.index < |c.calls|)
  }

  lemma ReadsWords(c: Client, text: string)
    ensures Read(c, ChunkOf(Words(text))) == Told(c, Words(text))
  {
    var delta := Obj(map["content" := Str(text)]);
    ReadsChunk(c, delta, Null, map[]);
    assert Get(delta, "tool_calls") == Null;
  }

  lemma ReadsFinal(c: Client, reason: string, usage: Option<Usage>)
    ensures Read(c, ChunkOf(Final(reason, usage))) == Told(c, Final(reason, usage))
  {
    var delta := Obj(map[]);
    assert Get(delta, "tool_calls") == Null && Get(delta, "content") == Null;
    ReadsChunk(c, delta, Str(reason), if usage.Some? then map["usage" := UsageValue(usage.value)] else map[]);
  }

  /** Reading a chunk with one entry for one tool call changes the calls only. */
  lemma ReadsOneCall(c: Client, call: Value)
    ensures Read(c, Chunk(Obj(map["tool_calls" := Arr([call])]), Null, map[])) == c.(calls := ReadCall(c.calls, call))
  {
    var delta := Obj(map["tool_calls" := Arr([call])]);
    ReadsChunk(c, delta, Null, map[]);
    assert Get(delta, "content") == Null && Get(delta, "tool_calls") == Arr([call]);
  }

  /** Reading the chunk of an emission is being told the emission. */
  lemma ReadsEmission(c: Client, e: Emit)
    requires Expected(c, e)
    ensures Read(c, ChunkOf(e)) == Told(c, e)
  {
    match e {
      case Words(text) =>
        ReadsWords(c, text);
      case CallStart(index, id, name) =>
        ReadsOneCall(c, Obj(map["index" := Num(index), "id" := id, "type" := Str("function"),
                                "function" := Obj(map["name" := name, "arguments" := Str("")])]));
        ReadsCallStart(c.calls, index, id, name);
      case CallArguments(index, text) =>
        ReadsOneCall(c, Obj(map["index" := Num(index), "function" := Obj(map["arguments" := Str(text)])]));
        ReadsCallArguments(c.calls, index, text);
      case Final(reason, usage) =>
        ReadsFinal(c, reason, usage);
    }
  }

  // ---------------------------------------------------------------- translator and client together

  /** The translator's state and the client's after some events. */
  datatype Link = Link(s: State, c: Client)

  function Deliver(l: Link, e: Event): Link {
    Link(Next(l.s, e), if Emitted(l.s, e).Some? then Told(l.c, Emitted(l.s, e).value) else l.c)
  }

  function DeliverAll(l: Link, events: seq<Event>): Link
    decreases |events|
  {
    if events == [] then l else DeliverAll(Deliver(l, events[0]), events[1..])
  }

  /** The client has every call the translator announced. */
  ghost predicate InStep(l: Link) {
    l.s.nextToolIndex == |l.c.calls| && forall b <- l.s.toolIndices :: l.s.toolIndices[b] < |l.c.calls|
  }

  lemma DeliveryStaysInStep(l: Link, e: Event)
    requires InStep(l)
    ensures InStep(Deliver(l, e))
    ensures Emitted(l.s, e).Some? ==> Expected(l.c, Emitted(l.s, e).value)
  {
  }

  /** Reading what the next event emits. */
  lemma ReadsNext(l: Link, e: Event, rest: seq<Value>)
    requires InStep(l)
    ensures var now := if Emitted(l.s, e).Some? then [ChunkOf(Emitted(l.s, e).value)] else [];
            ReadAll(l.c, now + rest) == ReadAll(Deliver(l, e).c, rest)
  {
    DeliveryStaysInStep(l, e);
    if Emitted(l.s, e).Some? {
      ReadsEmission(l.c, Emitted(l.s, e).value);
      First(ChunkOf(Emitted(l.s, e).value), rest);
    } else {
      Empty(rest);
    }
  }

  /** An event without meaning delivers nothing. */
  lemma DeliversNext(l: Link, e: Event, rest: seq<Event>)
    ensures DeliverAll(l, (if e.Nothing? then [] else [e]) + rest) == DeliverAll(Deliver(l, e), rest)
  {
    if e.Nothing? {
      Empty(rest);
    } else {
      First(e, rest);
    }
  }

  /** Reading the chunks of a stream is being delivered its meaningful events. */
  lemma {:induction false} ReadingIsDelivery(l: Link, stream: seq<Value>)
    requires InStep(l)
    ensures ReadAll(l.c, Chunks(l.s, stream)) == DeliverAll(l, Meaningful(stream)).c
    decreases |stream|
  {
    if stream == [] {
      assert Chunks(l.s, stream) == [] && Meaningful(stream) == [];
    } else {
      var e, rest := EventOf(stream[0]), stream[1..];
      DeliveryStaysInStep(l, e);
      ReadingIsDelivery(Deliver(l, e), rest);
      ReadsNext(l, e, Chunks(Next(l.s, e), rest));
      DeliversNext(l, e, Meaningful(rest));
    }
  }

  lemma {:induction false} DeliverAppend(l: Link, a: seq<Event>, b: seq<Event>)
    ensures DeliverAll(l, a + b) == DeliverAll(DeliverAll(l, a), b)
    decreases |a|
  {
    if a == [] {
      assert a + b == b;
    } else {
      assert (a + b)[0] == a[0] && (a + b)[1..] == a[1..] + b;
      DeliverAppend(Deliver(l, a[0]), a[1..], b);
    }
  }

  // ---------------------------------------------------------------- delivering the parts

  function TextOf(parts: seq<Part>): string {
    if parts == [] then ""
    else (if parts[0].TextPart? then Join(parts[0].fragments) else "") + TextOf(parts[1..])
  }

  function CallsIn(parts: seq<Part>): seq<Call> {
    if parts == [] then []
    else
      (if parts[0].ToolPart? then [Call(parts[0].id, parts[0].name, Join(parts[0].fragments))] else []) +
      CallsIn(parts[1..])
  }

  lemma {:induction false} WordsArrive(l: Link, fragments: seq<string>)
    ensures DeliverAll(l, WordEvents(fragments)) == l.(c := l.c.(text := l.c.text + Join(fragments)))
    decreases |fragments|
  {
    if fragments == [] {
      Empty(l.c.text);
    } else {
      var e, rest := TextDelta(fragments[0]), fragments[1..];
      First(e, WordEvents(rest));
      WordsArrive(Deliver(l, e), rest);
      Reassociate(l.c.text, fragments[0], Join(rest));
    }
  }

  /** Fragments of the call started last add up in its arguments. */
  lemma {:induction false} ArgumentsArrive(l: Link, index: nat, fragments: seq<string>, calls: seq<Call>, call: Call)
    requires index in l.s.toolIndices && l.s.toolIndices[index] == |calls|
    requires l.c.calls == calls + [call]
    ensures DeliverAll(l, ArgumentEvents(index, fragments)) ==
            l.(c := l.c.(calls := calls + [call.(arguments := call.arguments + Join(fragments))]))
    decreases |fragments|
  {
    if fragments == [] {
      Empty(call.arguments);
    } else {
      var e, rest := ArgumentsDelta(index, fragments[0]), fragments[1..];
      First(e, ArgumentEvents(index, rest));
      var longer := call.(arguments := call.arguments + fragments[0]);
      assert (calls + [call])[|calls| := longer] == calls + [longer];
      ArgumentsArrive(Deliver(l, e), index, rest, calls, longer);
      Reassociate(call.arguments, fragments[0], Join(rest));
    }
  }

  /** Argument fragments of a block that is no tool use reach no call. */
  lemma {:induction false} OthersAreSkipped(l: Link, index: nat, fragments: seq<string>)
    requires index !in l.s.toolIndices
    ensures DeliverAll(l, ArgumentEvents(index, fragments)) == l
    decreases |fragments|
  {
    if fragments == [] {
      assert ArgumentEvents(index, fragments) == [];
    } else {
      var e, rest := ArgumentsDelta(index, fragments[0]), fragments[1..];
      First(e, ArgumentEvents(index, rest));
      OthersAreSkipped(l, index, rest);
    }
  }

  lemma ToolArrives(l: Link, p: Part)
    requires InStep(l) && p.ToolPart?
    ensures var l' := DeliverAll(l, PartEvents(p));
            l'.c == l.c.(calls := l.c.calls + [Call(p.id, p.name, Join(p.fragments))]) &&
            l'.s == Next(l.s, ToolStart(p.index, p.id, p.name))
  {
    var start := ToolStart(p.index, p.id, p.name);
    First(start, ArgumentEvents(p.index, p.fragments));
    ArgumentsArrive(Deliver(l, start), p.index, p.fragments, l.c.calls, Call(p.id, p.name, ""));
    Empty(Join(p.fragments));
  }

  /** The tool indices after a part. */
  function IndicesAfter(indices: set<nat>, p: Part): set<nat> {
    if p.ToolPart? then indices + {p.index} else indices
  }

  /** One part adds its text or its call, and nothing else. */
  lemma PartArrives(l: Link, p: Part)
    requires InStep(l) && (p.OtherPart? ==> p.index !in l.s.toolIndices)
    ensures var l' := DeliverAll(l, PartEvents(p));
            InStep(l') && l'.s.toolIndices.Keys == IndicesAfter(l.s.toolIndices.Keys, p) &&
            l'.c == l.c.(text := l.c.text + TextOf([p]), calls := l.c.calls + CallsIn([p]))
  {
    OnePart(p);
    match p {
      case TextPart(fragments) =>
        WordsArrive(l, fragments);
        Empty(l.c.calls);
      case ToolPart(index, id, name, _, _) =>
        ToolArrives(l, p);
        DeliveryStaysInStep(l, ToolStart(index, id, name));
        Empty(l.c.text);
      case OtherPart(index, _, fragments) =>
        OthersAreSkipped(l, index, fragments);
        Empty(l.c.text);
        Empty(l.c.calls);
    }
  }

  lemma OnePart(p: Part)
    ensures TextOf([p]) == if p.TextPart? then Join(p.fragments) else ""
    ensures CallsIn([p]) == if p.ToolPart? then [Call(p.id, p.name, Join(p.fragments))] else []
  {
    assert [p][1..] == [];
    Empty(if p.TextPart? then Join(p.fragments) else "");
    Empty(if p.ToolPart? then [Call(p.id, p.name, Join(p.fragments))] else []);
  }

  /** No block that is no tool use has one of the given indices. */
  ghost predicate OthersOutside(parts: seq<Part>, indices: set<nat>) {
    forall i :: 0 <= i < |parts| && parts[i].OtherPart? ==> parts[i].index !in indices
  }

  lemma OthersStayOutside(parts: seq<Part>, indices: set<nat>)
    requires parts != [] && OthersApart(parts) && OthersOutside(parts, indices)
    ensures OthersApart(parts[1..]) && OthersOutside(parts[1..], IndicesAfter(indices, parts[0]))
  {
  }

  lemma {:induction false} BodyArrives(l: Link, parts: seq<Part>)
    requires InStep(l) && OthersApart(parts) && OthersOutside(parts, l.s.toolIndices.Keys)
    ensures DeliverAll(l, BodyEvents(parts)).c ==
            l.c.(text := l.c.text + TextOf(parts), calls := l.c.calls + CallsIn(parts))
    decreases |parts|
  {
    if parts == [] {
      Empty(l.c.text);
      Empty(l.c.calls);
    } else {
      var p, rest := parts[0], parts[1..];
      var l1 := DeliverAll(l, PartEvents(p));
      DeliverAppend(l, PartEvents(p), BodyEvents(rest));
      PartArrives(l, p);
      OthersStayOutside(parts, l.s.toolIndices.Keys);
      BodyArrives(l1, rest);
      PartFirst(p, rest);
      First(p, rest);
      assert parts == [p] + rest;
      Reassociate(l.c.text, TextOf([p]), TextOf(rest));
      Reassociate(l.c.calls, CallsIn([p]), CallsIn(rest));
    }
  }

  lemma PartFirst(p: Part, rest: seq<Part>)
    ensures TextOf([p] + rest) == TextOf([p]) + TextOf(rest)
    ensures CallsIn([p] + rest) == CallsIn([p]) + CallsIn(rest)
  {
    First(p, rest);
    OnePart(p);
  }

  // ---------------------------------------------------------------- the one-piece completion

  /** The non-streaming result for a message. */
  datatype Completion = Completion(
    content: string, promptTokens: nat, completionTokens: nat, finishReason: string,
    cacheReadTokens: nat, reasoningTokens: Option<nat>, toolCalls: Option<Value>)

  function MapStopReason(reason: string): string {
    if reason == "tool_use" then "tool_calls" else reason
  }

  function Completed(t: Codec, m: Message): Completion {
    var content := Arr(BlocksOf(m.parts));
    Completion(Messages.TextFromContent(content), m.usage.input, m.usage.output,
               MapStopReason(if m.stopReason.Some? then m.stopReason.value else "end_turn"),
               m.usage.cacheRead, m.usage.thinking, Messages.ToolCallsFromContent(t, content))
  }

  /** The same call by id and name. */
  predicate SameCall(call: Call, value: Value) {
    Get(value, "id") == call.id && Get(value, "type") == Str("function") &&
    Get(Get(value, "function"), "name") == call.name
  }

  predicate SameCalls(calls: seq<Call>, values: seq<Value>) {
    |calls| == |values| && forall i :: 0 <= i < |calls| ==> SameCall(calls[i], values[i])
  }

  /** The streamed arguments read as the same JSON value as those of the one-piece result. */
  predicate AgreesWith(t: Codec, call: Call, value: Value) {
    var arguments := Get(Get(value, "function"), "arguments");
    arguments.Str? && t.read(call.arguments) == t.read(arguments.text)
  }

  predicate ArgumentsAgree(t: Codec, calls: seq<Call>, values: seq<Value>) {
    |calls| == |values| && forall i :: 0 <= i < |calls| ==> AgreesWith(t, calls[i], values[i])
  }

  /** The fragments of a tool use, put together, are a text of its input. */
  predicate Spells(t: Codec, p: Part) {
    p.ToolPart? ==> t.read(Join(p.fragments)) == Some(p.input)
  }

  lemma CallIsSame(t: Codec, p: Part)
    requires p.ToolPart?
    ensures var value := Messages.CallOf(t, BlockOf(p));
            SameCall(Call(p.id, p.name, Join(p.fragments)), value) &&
            Get(Get(value, "function"), "arguments") == Str(t.write(p.input))
  {
    var block := BlockOf(p);
    assert Get(block, "id") == p.id && Get(block, "name") == p.name && Get(block, "input") == p.input;
    var value := Messages.CallOf(t, block);
    assert Get(value, "id") == p.id && Get(value, "type") == Str("function");
    var f := Get(value, "function");
    assert Get(f, "name") == p.name && Get(f, "arguments") == Str(t.write(p.input));
  }

  lemma AgreesIffSpells(t: Codec, p: Part)
    requires RoundTrips(t) && p.ToolPart?
    ensures AgreesWith(t, Call(p.id, p.name, Join(p.fragments)), Messages.CallOf(t, BlockOf(p))) <==> Spells(t, p)
  {
    CallIsSame(t, p);
    assert t.read(t.write(p.input)) == Some(p.input);
  }

  /** What one part contributes to the one-piece result. */
  lemma BlockContributes(t: Codec, p: Part, blocks: seq<Value>)
    requires p.OtherPart? ==> IsOther(p.block)
    ensures var all := [BlockOf(p)] + blocks;
            Messages.TextBlocksOf(all) ==
              (if p.TextPart? then [Join(p.fragments)] else []) + Messages.TextBlocksOf(blocks) &&
            Messages.CallsOf(t, all) ==
              (if p.ToolPart? then [Messages.CallOf(t, BlockOf(p))] else []) + Messages.CallsOf(t, blocks)
  {
    First(BlockOf(p), blocks);
    match p {
      case TextPart(fragments) =>
        assert Get(BlockOf(p), "type") == Str("text") && Get(BlockOf(p), "text") == Str(Join(fragments));
      case ToolPart(_, _, _, _, _) =>
        assert Get(BlockOf(p), "type") == Str("tool_use");
      case OtherPart(_, _, _) =>
    }
  }

  lemma {:induction false} TextsAgree(t: Codec, parts: seq<Part>)
    requires forall i :: 0 <= i < |parts| && parts[i].OtherPart? ==> IsOther(parts[i].block)
    ensures Join(Messages.TextBlocksOf(BlocksOf(parts))) == TextOf(parts)
  {
    if parts != [] {
      var p, rest := parts[0], parts[1..];
      BlockContributes(t, p, BlocksOf(rest));
      TextsAgree(t, rest);
      var texts := Messages.TextBlocksOf(BlocksOf(rest));
      if p.TextPart? {
        First(Join(p.fragments), texts);
      } else {
        Empty(texts);
        Empty(TextOf(rest));
      }
    }
  }

  lemma {:induction false} CallsAreSame(t: Codec, parts: seq<Part>)
    requires forall i :: 0 <= i < |parts| && parts[i].OtherPart? ==> IsOther(parts[i].block)
    ensures SameCalls(CallsIn(parts), Messages.CallsOf(t, BlocksOf(parts)))
  {
    if parts == [] {
      assert CallsIn(parts) == [];
    } else {
      var p, rest := parts[0], parts[1..];
      var calls, values := CallsIn(rest), Messages.CallsOf(t, BlocksOf(rest));
      BlockContributes(t, p, BlocksOf(rest));
      CallsAreSame(t, rest);
      if p.ToolPart? {
        CallIsSame(t, p);
        OneMoreSame(Call(p.id, p.name, Join(p.fragments)), Messages.CallOf(t, BlockOf(p)), calls, values);
      } else {
        Empty(calls);
        Empty(values);
      }
    }
  }

  lemma OneMoreSame(call: Call, value: Value, calls: seq<Call>, values: seq<Value>)
    requires SameCalls(calls, values) && SameCall(call, value)
    ensures SameCalls([call] + calls, [value] + values)
  {
  }

  lemma OneMoreAgrees(t: Codec, call: Call, value: Value, calls: seq<Call>, values: seq<Value>)
    requires |calls| == |values|
    ensures ArgumentsAgree(t, [call] + calls, [value] + values) <==>
            AgreesWith(t, call, value) && ArgumentsAgree(t, calls, values)
  {
    var allCalls, allValues := [call] + calls, [value] + values;
    if ArgumentsAgree(t, allCalls, allValues) {
      assert AgreesWith(t, allCalls[0], allValues[0]);
      forall i | 0 <= i < |calls| ensures AgreesWith(t, calls[i], values[i]) {
        var k := i + 1;
        assert AgreesWith(t, allCalls[k], allValues[k]);
      }
    }
    if AgreesWith(t, call, value) && ArgumentsAgree(t, calls, values) {
      forall i | 0 <= i < |allCalls| ensures AgreesWith(t, allCalls[i], allValues[i]) {
        if i > 0 {
          var k := i - 1;
          assert AgreesWith(t, calls[k], values[k]);
        }
      }
    }
  }

  lemma AllSpellFirst(t: Codec, parts: seq<Part>)
    requires parts != []
    ensures AllSpell(t, parts) <==> Spells(t, parts[0]) && AllSpell(t, parts[1..])
  {
    assert forall i :: 1 <= i < |parts| ==> parts[i] == parts[1..][i - 1];
  }

  predicate AllSpell(t: Codec, parts: seq<Part>) {
    forall i :: 0 <= i < |parts| ==> Spells(t, parts[i])
  }

  /** The arguments agree exactly when every tool use streams a text of its input. */
  lemma {:induction false} ArgumentsAgreeIffSpelled(t: Codec, parts: seq<Part>)
    requires RoundTrips(t)
    requires forall i :: 0 <= i < |parts| && parts[i].OtherPart? ==> IsOther(parts[i].block)
    ensures ArgumentsAgree(t, CallsIn(parts), Messages.CallsOf(t, BlocksOf(parts))) <==> AllSpell(t, parts)
  {
    if parts == [] {
      assert CallsIn(parts) == [];
    } else {
      var p, rest := parts[0], parts[1..];
      var calls, values := CallsIn(rest), Messages.CallsOf(t, BlocksOf(rest));
      BlockContributes(t, p, BlocksOf(rest));
      AllSpellFirst(t, parts);
      ArgumentsAgreeIffSpelled(t, rest);
      if p.ToolPart? {
        CallsAreSame(t, rest);
        AgreesIffSpells(t, p);
        OneMoreAgrees(t, Call(p.id, p.name, Join(p.fragments)), Messages.CallOf(t, BlockOf(p)), calls, values);
      } else {
        Empty(calls);
        Empty(values);
      }
    }
  }

  /** A message's events are its opening, its body and its closing. */
  lemma EventsArrive(l: Link, m: Message)
    ensures DeliverAll(l, EventsOf(m)) ==
            Deliver(DeliverAll(Deliver(l, MessageStart(m.opening)), BodyEvents(m.parts)),
                    MessageDelta(m.closing, m.stopReason))
  {
    var opening, body, closing := MessageStart(m.opening), BodyEvents(m.parts), MessageDelta(m.closing, m.stopReason);
    Reassociate([opening], body, [closing]);
    First(opening, body + [closing]);
    DeliverAppend(Deliver(l, opening), body, [closing]);
    DeliverOne(DeliverAll(Deliver(l, opening), body), closing);
  }

  lemma DeliverOne(l: Link, e: Event)
    ensures DeliverAll(l, [e]) == Deliver(l, e)
  {
    assert [e][1..] == [];
  }

  /** What the client holds once a message is delivered. */
  function Assembled(m: Message): Client {
    var s := After(EventsOf(m));
    Client(TextOf(m.parts), CallsIn(m.parts), Some(FinishReason(m.stopReason)),
           if s.sawUsage then UsageValue(Reported(s)) else Null)
  }

  lemma BodyFills(l: Link, m: Message)
    requires l == Link(Absorbed(INITIAL, m.opening), IDLE) && OthersApart(m.parts)
    ensures DeliverAll(l, BodyEvents(m.parts)).c == Client(TextOf(m.parts), CallsIn(m.parts), None, Null)
  {
    BodyArrives(l, m.parts);
    Empty(TextOf(m.parts));
    Empty(CallsIn(m.parts));
  }

  lemma OpeningArrives(usage: Value)
    ensures Deliver(Link(INITIAL, IDLE), MessageStart(usage)) == Link(Absorbed(INITIAL, usage), IDLE)
  {
  }

  lemma ClosingArrives(l: Link, usage: Value, stopReason: Option<string>)
    ensures var l' := Deliver(l, MessageDelta(usage, stopReason));
            l'.c == l.c.(finish := Some(FinishReason(stopReason)),
                         usage := if l'.s.sawUsage then UsageValue(Reported(l'.s)) else l.c.usage)
  {
  }

  /** The translator's state does not depend on the client. */
  lemma {:induction false} DeliveredState(c: Client, events: seq<Event>)
    ensures DeliverAll(Link(INITIAL, c), events).s == After(events)
    decreases |events|
  {
    if events == [] {
      assert After(events) == INITIAL;
    } else {
      var init, last := events[..|events| - 1], events[|events| - 1];
      assert events == init + [last];
      DeliverAppend(Link(INITIAL, c), init, [last]);
      DeliverOne(DeliverAll(Link(INITIAL, c), init), last);
      DeliveredState(c, init);
    }
  }

  lemma MessageArrives(m: Message)
    requires OthersApart(m.parts)
    ensures DeliverAll(Link(INITIAL, IDLE), EventsOf(m)).c == Assembled(m)
  {
    var begun := Link(Absorbed(INITIAL, m.opening), IDLE);
    EventsArrive(Link(INITIAL, IDLE), m);
    OpeningArrives(m.opening);
    BodyFills(begun, m);
    ClosingArrives(DeliverAll(begun, BodyEvents(m.parts)), m.closing, m.stopReason);
    DeliveredState(IDLE, EventsOf(m));
  }

  /** The client's state at the end of a message's stream. */
  lemma StreamArrives(m: Message, stream: seq<Value>)
    requires OthersApart(m.parts) && Meaningful(stream) == EventsOf(m)
    ensures ReadAll(IDLE, Chunks(INITIAL, stream)) == Assembled(m)
  {
    ReadingIsDelivery(Link(INITIAL, IDLE), stream);
    MessageArrives(m);
  }

  // ---------------------------------------------------------------- both results

  function CachedIn(usage: Value): Value {
    Get(Get(usage, "prompt_tokens_details"), "cached_tokens")
  }

  function ReasoningIn(usage: Value): Value {
    Get(Get(usage, "completion_tokens_details"), "reasoning_tokens")
  }

  /** The usage object tells the token counts of the one-piece result, with the cached tokens in the prompt. */
  predicate TellsUsage(usage: Value, whole: Completion) {
    Get(usage, "completion_tokens") == Num(whole.completionTokens) &&
    Get(usage, "prompt_tokens") == Num(AsU32(whole.promptTokens + whole.cacheReadTokens)) &&
    Get(usage, "total_tokens") == Num(AsU32(whole.promptTokens + whole.cacheReadTokens + whole.completionTokens)) &&
    CachedIn(usage) == Num(whole.cacheReadTokens) &&
    ReasoningIn(usage) == if whole.reasoningTokens.Some? then Num(whole.reasoningTokens.value) else Null
  }

  /**
   The client holds the text and the calls of the one-piece result in order, and
   its usage; the arguments of the calls agree exactly when each tool use streams
   a text of its input.
   */
  ghost predicate Refines(t: Codec, m: Message, c: Client) {
    var whole := Completed(t, m);
    var values := if whole.toolCalls.Some? then whole.toolCalls.value.items else [];
    && c.text == whole.content
    && SameCalls(c.calls, values)
    && (ArgumentsAgree(t, c.calls, values) <==> AllSpell(t, m.parts))
    && (c.finish == Some("tool_calls") <==> m.stopReason == Some("tool_use"))
    && (c.usage != Null <==> m.opening.Obj? || m.closing.Obj?)
    && (c.usage != Null ==> TellsUsage(c.usage, whole))
  }

  /** Whatever the fragments and whatever carries no event in between, the reassembled stream refines the one-piece result. */
  lemma StreamingRefinesCompletion(t: Codec, m: Message, stream: seq<Value>)
    requires RoundTrips(t) && WellFormed(m) && Meaningful(stream) == EventsOf(m)
    ensures Refines(t, m, ReadAll(IDLE, Chunks(INITIAL, stream)))
  {
    StreamArrives(m, stream);
    TextsAgree(t, m.parts);
    CallsAreSame(t, m.parts);
    ArgumentsAgreeIffSpelled(t, m.parts);
    UsageArrives(t, m);
  }

  lemma UsageReads(u: Usage)
    ensures Get(UsageValue(u), "completion_tokens") == Num(u.completion)
    ensures Get(UsageValue(u), "prompt_tokens") == Num(u.prompt)
    ensures Get(UsageValue(u), "total_tokens") == Num(u.total)
    ensures CachedIn(UsageValue(u)) == Num(u.cached)
    ensures ReasoningIn(UsageValue(u)) == if u.thinking.Some? then Num(u.thinking.value) else Null
  {
    assert u.thinking.None? ==> Get(UsageValue(u), "completion_tokens_details") == Null;
  }

  /** Only the opening and the closing event carry usage. */
  lemma {:induction false} BodyHasNoUsage(parts: seq<Part>)
    ensures forall e <- BodyEvents(parts) :: UsageIn(e) == Null
  {
    if parts != [] {
      BodyHasNoUsage(parts[1..]);
      PartHasNoUsage(parts[0]);
    }
  }

  lemma PartHasNoUsage(p: Part)
    ensures forall e <- PartEvents(p) :: UsageIn(e) == Null
  {
    match p {
      case TextPart(fragments) => WordsHaveNoUsage(fragments);
      case ToolPart(index, _, _, fragments, _) => ArgumentsHaveNoUsage(index, fragments);
      case OtherPart(index, _, fragments) => ArgumentsHaveNoUsage(index, fragments);
    }
  }

  lemma {:induction false} WordsHaveNoUsage(fragments: seq<string>)
    ensures forall e <- WordEvents(fragments) :: UsageIn(e) == Null
  {
    if fragments != [] {
      WordsHaveNoUsage(fragments[1..]);
    }
  }

  lemma {:induction false} ArgumentsHaveNoUsage(index: nat, fragments: seq<string>)
    ensures forall e <- ArgumentEvents(index, fragments) :: UsageIn(e) == Null
  {
    if fragments != [] {
      ArgumentsHaveNoUsage(index, fragments[1..]);
    }
  }

  lemma UsageIsSeen(m: Message)
    ensures After(EventsOf(m)).sawUsage <==> m.opening.Obj? || m.closing.Obj?
  {
    var events := EventsOf(m);
    SawUsage(events);
    BodyHasNoUsage(m.parts);
    assert UsageIn(events[0]) == m.opening && UsageIn(events[|events| - 1]) == m.closing;
    forall k | 0 < k < |events| - 1 ensures !UsageIn(events[k]).Obj? {
      assert events[k] == BodyEvents(m.parts)[k - 1];
    }
  }

  lemma UsageTold(s: State, whole: Completion)
    requires whole.promptTokens == s.inputTokens && whole.completionTokens == s.outputTokens
    requires whole.cacheReadTokens == s.cacheReadTokens && whole.reasoningTokens == s.thinkingTokens
    ensures TellsUsage(UsageValue(Reported(s)), whole)
  {
    UsageReads(Reported(s));
    TotalWraps(s.inputTokens + s.cacheReadTokens, s.outputTokens);
  }

  /** Adding to a sum that has wrapped around is adding and wrapping around once. */
  lemma TotalWraps(a: nat, b: nat)
    ensures AsU32(AsU32(a) + b) == AsU32(a + b)
  {
    var w := 0x1_0000_0000;
    assert a == w * (a / w) + a % w;
  }

  lemma UsageArrives(t: Codec, m: Message)
    requires ReportsUsage(m)
    ensures var usage := Assembled(m).usage;
            (usage != Null <==> m.opening.Obj? || m.closing.Obj?) &&
            (usage != Null ==> TellsUsage(usage, Completed(t, m)))
  {
    UsageIsSeen(m);
    UsageIsLastReported(EventsOf(m));
    UsageTold(After(EventsOf(m)), Completed(t, m));
  }

  // ---------------------------------------------------------------- where the results differ

  /**
   A tool use without arguments whose stream spells them as nothing: the client
   holds the empty text, which is no JSON, and the one-piece result the text of
   the empty object.
   */
  lemma EmptyArgumentsDiffer(t: Codec, m: Message, stream: seq<Value>, index: nat, id: Value, name: Value, fragments: seq<string>)
    requires RoundTrips(t) && t.read("") == None && Join(fragments) == ""
    requires m.parts == [ToolPart(index, id, name, fragments, Obj(map[]))]
    requires Meaningful(stream) == EventsOf(m)
    ensures var calls, values := ReadAll(IDLE, Chunks(INITIAL, stream)).calls, Messages.CallsOf(t, BlocksOf(m.parts));
            calls == [Call(id, name, "")] && |values| == 1 &&
            Get(Get(values[0], "function"), "arguments") == Str(t.write(Obj(map[]))) &&
            t.write(Obj(map[])) != "" && !ArgumentsAgree(t, calls, values)
  {
    var p := m.parts[0];
    StreamArrives(m, stream);
    OneTool(t, p);
    assert t.read(t.write(Obj(map[]))) == Some(Obj(map[]));
    ArgumentsAgreeIffSpelled(t, m.parts);
    assert !Spells(t, m.parts[0]);
  }

  lemma OneTool(t: Codec, p: Part)
    requires p.ToolPart?
    ensures CallsIn([p]) == [Call(p.id, p.name, Join(p.fragments))]
    ensures var values := Messages.CallsOf(t, BlocksOf([p]));
            |values| == 1 && Get(Get(values[0], "function"), "arguments") == Str(t.write(p.input))
  {
    OnePart(p);
    assert [p][1..] == [];
    BlockContributes(t, p, []);
    CallIsSame(t, p);
  }

  /** Streamed and one-piece results ask for tools alike, unless the provider itself says "tool_calls". */
  lemma FinishesAgree(t: Codec, m: Message)
    ensures (FinishReason(m.stopReason) == "tool_calls" <==> Completed(t, m).finishReason == "tool_calls") <==>
            m.stopReason != Some("tool_calls")
  {
  }

  /**
   Streamed, every stop reason but "tool_use" reads "stop"; in one piece it is passed
   on, "end_turn" standing in for a missing one.  So the two are the same text
   exactly for the stop reasons "tool_use" and "stop".
   */
  lemma FinishesAreEqual(t: Codec, m: Message)
    ensures FinishReason(m.stopReason) == if m.stopReason == Some("tool_use") then "tool_calls" else "stop"
    ensures Completed(t, m).finishReason ==
            match m.stopReason
            case None => "end_turn"
            case Some(reason) => if reason == "tool_use" then "tool_calls" else reason
    ensures FinishReason(m.stopReason) == Completed(t, m).finishReason <==>
            m.stopReason == Some("tool_use") || m.stopReason == Some("stop")
  {
  }
}
