/**
 Translation of one Anthropic event stream into OpenAI chunks, line by line.

 An event matters only through what `EventOf` reads in it, and a chunk through
 the `Emit` it carries; the state steps from event to event.
 */
module SseTranslator {
  import opened Common
  import opened Json

  // ---------------------------------------------------------------- events and state

  datatype Event =
    | MessageStart(usage: Value)
    | ToolStart(block: nat, id: Value, name: Value)
    | TextDelta(text: string)
    | ArgumentsDelta(block: nat, text: string)
    | MessageDelta(usage: Value, stopReason: Option<string>)
    | Nothing

  function IndexOf(v: Value): nat {
    var index := AsU64(Get(v, "index"));
    if index.Some? then index.value else 0
  }

  /** What the translator reads in one JSON event. */
  function EventOf(v: Value): Event {
    var kind := AsStr(Get(v, "type"));
    if kind == Some("message_start") then MessageStart(Get(Get(v, "message"), "usage"))
    else if kind == Some("content_block_start") then
      var block := Get(v, "content_block");
      if Get(block, "type") == Str("tool_use") then ToolStart(IndexOf(v), Get(block, "id"), Get(block, "name"))
      else Nothing
    else if kind == Some("content_block_delta") then
      var delta := Get(v, "delta");
      if Get(delta, "type") == Str("text_delta") then
        (if Get(delta, "text").Str? then TextDelta(Get(delta, "text").text) else Nothing)
      else if Get(delta, "type") == Str("input_json_delta") && Get(delta, "partial_json").Str? then
        ArgumentsDelta(IndexOf(v), Get(delta, "partial_json").text)
      else Nothing
    else if kind == Some("message_delta") then
      MessageDelta(Get(v, "usage"), AsStr(Get(Get(v, "delta"), "stop_reason")))
    else Nothing
  }

  datatype State = State(
    inputTokens: nat,
    cacheReadTokens: nat,
    outputTokens: nat,
    thinkingTokens: Option<nat>,
    sawUsage: bool,
    toolIndices: map<nat, nat>,   // content block index to tool call index
    nextToolIndex: nat)

  const INITIAL := State(0, 0, 0, None, false, map[], 0)

  datatype Usage = Usage(prompt: nat, completion: nat, total: nat, cached: nat, thinking: Option<nat>)

  /** What one chunk tells the client. */
  datatype Emit =
    | Words(text: string)
    | CallStart(index: nat, id: Value, name: Value)
    | CallArguments(index: nat, text: string)
    | Final(reason: string, usage: Option<Usage>)

  /** A token count of a usage object, as the 32-bit field keeps it. */
  function Count(usage: Value, key: string): Option<nat> {
    var n := AsU64(Get(usage, key));
    if n.Some? then Some(AsU32(n.value)) else None
  }

  function Thinking(usage: Value): Option<nat> {
    Count(Get(usage, "output_tokens_details"), "thinking_tokens")
  }

  function Or(update: Option<nat>, current: nat): nat {
    if update.Some? then update.value else current
  }

  function Absorbed(s: State, usage: Value): State {
    if !usage.Obj? then s
    else
      s.(sawUsage := true,
         inputTokens := Or(Count(usage, "input_tokens"), s.inputTokens),
         cacheReadTokens := Or(Count(usage, "cache_read_input_tokens"), s.cacheReadTokens),
         outputTokens := Or(Count(usage, "output_tokens"), s.outputTokens),
         thinkingTokens := if Thinking(usage).Some? then Thinking(usage) else s.thinkingTokens)
  }

  /** The usage on the final chunk; sums are sums of 32-bit words. */
  function Reported(s: State): Usage {
    var prompt := AsU32(s.inputTokens + s.cacheReadTokens);
    Usage(prompt, s.outputTokens, AsU32(prompt + s.outputTokens), s.cacheReadTokens, s.thinkingTokens)
  }

  function FinishReason(stopReason: Option<string>): string {
    if stopReason == Some("tool_use") then "tool_calls" else "stop"
  }

  function Next(s: State, e: Event): State {
    match e
    case MessageStart(usage) => Absorbed(s, usage)
    case ToolStart(block, _, _) =>
      s.(toolIndices := s.toolIndices[block := s.nextToolIndex], nextToolIndex := s.nextToolIndex + 1)
    case MessageDelta(usage, _) => Absorbed(s, usage)
    case _ => s
  }

  function Emitted(s: State, e: Event): Option<Emit> {
    match e
    case ToolStart(_, id, name) => Some(CallStart(s.nextToolIndex, id, name))
    case TextDelta(text) => Some(Words(text))
    case ArgumentsDelta(block, text) =>
      if block in s.toolIndices then Some(CallArguments(s.toolIndices[block], text)) else None
    case MessageDelta(usage, stopReason) =>
      var after := Absorbed(s, usage);
      Some(Final(FinishReason(stopReason), if after.sawUsage then Some(Reported(after)) else None))
    case _ => None
  }

  // ---------------------------------------------------------------- chunks

  function Chunk(delta: Value, finishReason: Value, more: map<string, Value>): Value {
    Obj(map["id" := Str("chatcmpl-stream"),
            "object" := Str("chat.completion.chunk"),
            "choices" := Arr([Obj(map["index" := Num(0), "delta" := delta, "finish_reason" := finishReason])])] + more)
  }

  function CallDelta(call: Value): Value {
    Chunk(Obj(map["tool_calls" := Arr([call])]), Null, map[])
  }

  function UsageValue(u: Usage): Value {
    Obj(map["prompt_tokens" := Num(u.prompt),
            "completion_tokens" := Num(u.completion),
            "total_tokens" := Num(u.total),
            "prompt_tokens_details" := Obj(map["cached_tokens" := Num(u.cached)])] +
        if u.thinking.Some? then map["completion_tokens_details" := Obj(map["reasoning_tokens" := Num(u.thinking.value)])]
        else map[])
  }

  function ChunkOf(e: Emit): Value {
    match e
    case Words(text) => Chunk(Obj(map["content" := Str(text)]), Null, map[])
    case CallStart(index, id, name) =>
      CallDelta(Obj(map["index" := Num(index), "id" := id, "type" := Str("function"),
                        "function" := Obj(map["name" := name, "arguments" := Str("")])]))
    case CallArguments(index, text) =>
      CallDelta(Obj(map["index" := Num(index), "function" := Obj(map["arguments" := Str(text)])]))
    case Final(reason, usage) =>
      Chunk(Obj(map[]), Str(reason), if usage.Some? then map["usage" := UsageValue(usage.value)] else map[])
  }

  /** The bytes of an emission on the wire. */
  function Rendered(t: Codec, e: Emit): string {
    "data: " + t.write(ChunkOf(e)) + "\n\n" + (if e.Final? then "data: [DONE]\n\n" else "")
  }

  /** The event that one line carries; every line without one carries `Nothing`. */
  function LineEvent(t: Codec, line: string): Event {
    if !("data: " <= line) then Nothing
    else
      var v := t.read(line[6..]);
      if v.None? then Nothing else EventOf(v.value)
  }

  function LineOutput(t: Codec, s: State, line: string): Option<string> {
    var e := Emitted(s, LineEvent(t, line));
    if e.Some? then Some(Rendered(t, e.value)) else None
  }

  // ---------------------------------------------------------------- the translator object

  class AnthropicSseTranslator {
    const codec: Codec
    var inputTokens: nat
    var cacheReadTokens: nat
    var outputTokens: nat
    var thinkingTokens: Option<nat>
    var sawUsage: bool
    var toolIndices: map<nat, nat>
    var nextToolIndex: nat

    constructor (codec: Codec)
      ensures this.codec == codec && Current() == INITIAL
    {
      this.codec := codec;
      inputTokens, cacheReadTokens, outputTokens, thinkingTokens := 0, 0, 0, None;
      sawUsage, toolIndices, nextToolIndex := false, map[], 0;
    }

    function Current(): State
      reads this
    {
      State(inputTokens, cacheReadTokens, outputTokens, thinkingTokens, sawUsage, toolIndices, nextToolIndex)
    }

    method AbsorbUsage(usage: Value)
      modifies this
      ensures Current() == Absorbed(old(Current()), usage)
    {
      if !usage.Obj? {
        return;
      }
      sawUsage := true;
      if Count(usage, "input_tokens").Some? {
        inputTokens := Count(usage, "input_tokens").value;
      }
      if Count(usage, "cache_read_input_tokens").Some? {
        cacheReadTokens := Count(usage, "cache_read_input_tokens").value;
      }
      if Count(usage, "output_tokens").Some? {
        outputTokens := Count(usage, "output_tokens").value;
      }
      if Thinking(usage).Some? {
        thinkingTokens := Thinking(usage);
      }
    }

    method TranslateLine(line: string) returns (output: Option<string>)
      modifies this
      ensures Current() == Next(old(Current()), LineEvent(codec, line))
      ensures output == LineOutput(codec, old(Current()), line)
    {
      if !("data: " <= line) {
        return None;
      }
      var v := codec.read(line[6..]);
      if v.None? {
        return None;
      }
      var event := EventOf(v.value);
      match event {
        case MessageStart(usage) =>
          AbsorbUsage(usage);
          output := None;
        case ToolStart(block, id, name) =>
          var index := nextToolIndex;
          nextToolIndex := nextToolIndex + 1;
          toolIndices := toolIndices[block := index];
          output := Some(Rendered(codec, CallStart(index, id, name)));
        case TextDelta(fragment) =>
          output := Some(Rendered(codec, Words(fragment)));
        case ArgumentsDelta(block, fragment) =>
          if block !in toolIndices {
            return None;
          }
          output := Some(Rendered(codec, CallArguments(toolIndices[block], fragment)));
        case MessageDelta(usage, stopReason) =>
          AbsorbUsage(usage);
          var report := if sawUsage then Some(Reported(Current())) else None;
          output := Some(Rendered(codec, Final(FinishReason(stopReason), report)));
        case Nothing =>
          output := None;
      }
    }
  }

  // ---------------------------------------------------------------- over every event sequence

  function After(events: seq<Event>): State
    decreases |events|
  {
    if events == [] then INITIAL else Next(After(events[..|events| - 1]), events[|events| - 1])
  }

  /** What event `k` of a stream makes the translator emit. */
  function EmittedAt(events: seq<Event>, k: nat): Option<Emit>
    requires k < |events|
  {
    Emitted(After(events[..k]), events[k])
  }

  /** The number of tool uses started. */
  function Starts(events: seq<Event>): nat
    decreases |events|
  {
    if events == [] then 0
    else Starts(events[..|events| - 1]) + if events[|events| - 1].ToolStart? then 1 else 0
  }

  /** The rank, among all tool uses started, of the latest one of content block `block`. */
  function LatestStart(events: seq<Event>, block: nat): (rank: Option<nat>)
    ensures rank.Some? ==> rank.value < Starts(events)
    decreases |events|
  {
    if events == [] then None
    else
      var before, last := events[..|events| - 1], events[|events| - 1];
      if last.ToolStart? && last.block == block then Some(Starts(before)) else LatestStart(before, block)
  }

  /** The tool index map is the rank of each block's latest start, so it is injective and below the next index. */
  lemma {:induction false} ToolIndicesAreRanks(events: seq<Event>)
    ensures After(events).nextToolIndex == Starts(events)
    ensures forall b: nat :: (b in After(events).toolIndices <==> LatestStart(events, b).Some?) &&
              (b in After(events).toolIndices ==> After(events).toolIndices[b] == LatestStart(events, b).value)
    decreases |events|
  {
    if events != [] {
      ToolIndicesAreRanks(events[..|events| - 1]);
    }
  }

  lemma {:induction false} RanksAreInjective(events: seq<Event>, a: nat, b: nat)
    requires LatestStart(events, a).Some? && LatestStart(events, a) == LatestStart(events, b)
    ensures a == b
    decreases |events|
  {
    var before, last := events[..|events| - 1], events[|events| - 1];
    if !last.ToolStart? || (last.block != a && last.block != b) {
      RanksAreInjective(before, a, b);
    }
  }

  lemma ToolIndicesAreInjective(events: seq<Event>, a: nat, b: nat)
    requires a in After(events).toolIndices && b in After(events).toolIndices
    ensures After(events).toolIndices[a] < After(events).nextToolIndex
    ensures After(events).toolIndices[a] == After(events).toolIndices[b] ==> a == b
  {
    ToolIndicesAreRanks(events);
    if After(events).toolIndices[a] == After(events).toolIndices[b] {
      RanksAreInjective(events, a, b);
    }
  }

  /** Tool calls are announced as 0, 1, 2, ... and every fragment goes to the latest start of its own block. */
  lemma FragmentsFindTheirCall(events: seq<Event>, k: nat)
    requires k < |events|
    ensures events[k].ToolStart? ==>
              EmittedAt(events, k) == Some(CallStart(Starts(events[..k]), events[k].id, events[k].name))
    ensures events[k].ArgumentsDelta? ==>
              EmittedAt(events, k) ==
              match LatestStart(events[..k], events[k].block)
              case Some(rank) => Some(CallArguments(rank, events[k].text))
              case None => None
  {
    ToolIndicesAreRanks(events[..k]);
  }

  function UsageIn(e: Event): Value {
    if e.MessageStart? || e.MessageDelta? then e.usage else Null
  }

  /** The last count reported under `key` in a stream. */
  function LastReport(events: seq<Event>, key: string): Option<nat>
    decreases |events|
  {
    if events == [] then None
    else
      var here := Count(UsageIn(events[|events| - 1]), key);
      if here.Some? then here else LastReport(events[..|events| - 1], key)
  }

  function LastThinking(events: seq<Event>): Option<nat>
    decreases |events|
  {
    if events == [] then None
    else
      var here := Thinking(UsageIn(events[|events| - 1]));
      if here.Some? then here else LastThinking(events[..|events| - 1])
  }

  /** Every usage field holds the last value reported for it. */
  lemma {:induction false} UsageIsLastReported(events: seq<Event>)
    ensures After(events).inputTokens == Or(LastReport(events, "input_tokens"), 0)
    ensures After(events).cacheReadTokens == Or(LastReport(events, "cache_read_input_tokens"), 0)
    ensures After(events).outputTokens == Or(LastReport(events, "output_tokens"), 0)
    ensures After(events).thinkingTokens == LastThinking(events)
    ensures After(events).sawUsage <==> exists k :: 0 <= k < |events| && UsageIn(events[k]).Obj?
    decreases |events|
  {
    if events != [] {
      var before := events[..|events| - 1];
      UsageIsLastReported(before);
      SawUsage(events);
    }
  }

  lemma {:induction false} SawUsage(events: seq<Event>)
    ensures After(events).sawUsage <==> exists k :: 0 <= k < |events| && UsageIn(events[k]).Obj?
    decreases |events|
  {
    if events != [] {
      var n := |events| - 1;
      SawUsage(events[..n]);
      if k :| 0 <= k < n && UsageIn(events[..n][k]).Obj? {
        assert UsageIn(events[k]).Obj?;
      }
      if k :| 0 <= k < |events| && UsageIn(events[k]).Obj? {
        assert k < n ==> UsageIn(events[..n][k]).Obj?;
      }
    }
  }
}
