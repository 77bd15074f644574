/**
 Translation of OpenAI chat messages to Anthropic turns, and of Anthropic
 content back to an OpenAI assistant message.
 */
module Messages {
  import opened Common
  import opened Json
  import opened Content

  // ---------------------------------------------------------------- one message at a time

  function Role(m: Value): Option<string> {
    AsStr(Get(m, "role"))
  }

  predicate IsTool(m: Value) {
    Role(m) == Some("tool")
  }

  function Turn(role: string, content: Value): Value {
    Obj(map["role" := Str(role), "content" := content])
  }

  /** The message itself with string content, or with its content array translated. */
  function Carried(m: Value): Option<Value> {
    var content := Get(m, "content");
    if content.Str? then Some(m)
    else if content.Arr? then Some(With(m, "content", Arr(TranslateBlocks(content.items))))
    else None
  }

  /** The tool arguments as an object; anything unreadable is the empty object. */
  function InputOf(t: Codec, arguments: Value): (input: Value)
    ensures input.Obj?
  {
    var read := if arguments.Str? then t.read(arguments.text) else None;
    if read.Some? && read.value.Obj? then read.value else Obj(map[])
  }

  function ToolUse(id: Value, name: Value, input: Value): Value {
    Obj(map["type" := Str("tool_use"), "id" := id, "name" := name, "input" := input])
  }

  function UseOf(t: Codec, call: Value): Value {
    ToolUse(Get(call, "id"), Get(Get(call, "function"), "name"),
            InputOf(t, Get(Get(call, "function"), "arguments")))
  }

  function UsesOf(t: Codec, calls: seq<Value>): (uses: seq<Value>)
    ensures |uses| == |calls|
    ensures forall i :: 0 <= i < |calls| ==> uses[i] == UseOf(t, calls[i])
  {
    if calls == [] then [] else [UseOf(t, calls[0])] + UsesOf(t, calls[1..])
  }

  /** A text block, unless the text is empty. */
  function LeadText(text: string): seq<Value> {
    if text == "" then [] else [TextBlock(text)]
  }

  /** The blocks before the tool calls of an assistant message. */
  function LeadOf(content: Value): seq<Value> {
    if content.Str? then LeadText(content.text)
    else if content.Arr? then TranslateBlocks(content.items)
    else []
  }

  function AssistantTurn(t: Codec, m: Value): Option<Value> {
    var calls := Get(m, "tool_calls");
    if calls.Arr? && calls.items != [] then
      Some(Turn("assistant", Arr(LeadOf(Get(m, "content")) + UsesOf(t, calls.items))))
    else Carried(m)
  }

  /** The turn of a message that is not a tool result, if it has one. */
  function OwnTurn(t: Codec, m: Value): Option<Value> {
    if Role(m) == Some("user") then Carried(m)
    else if Role(m) == Some("assistant") then AssistantTurn(t, m)
    else None
  }

  /** The content of a tool result block. */
  function ResultContent(t: Codec, content: Value): Value {
    match content
    case Str(_) => content
    case Arr(items) => Arr(TranslateBlocks(items))
    case Null => Str("")
    case _ => Str(t.write(content))
  }

  function ToolResult(t: Codec, m: Value): Value {
    Obj(map["type" := Str("tool_result"), "tool_use_id" := Get(m, "tool_call_id"),
            "content" := ResultContent(t, Get(m, "content"))])
  }

  function SystemPart(m: Value): Option<string> {
    var content := Get(m, "content");
    if Role(m) != Some("system") then None
    else if content.Str? then Some(content.text)
    else if content.Arr? then
      var text := JoinWith(TextsOf(content.items), "\n");
      if text != "" then Some(text) else None
    else None
  }

  function TextsOf(blocks: seq<Value>): seq<string> {
    if blocks == [] then []
    else
      var b := blocks[0];
      (if (Get(b, "type") == Str("text") || Get(b, "type") == Str("input_text")) && Get(b, "text").Str?
       then [Get(b, "text").text] else []) + TextsOf(blocks[1..])
  }

  function SystemParts(messages: seq<Value>): seq<string> {
    if messages == [] then []
    else (if SystemPart(messages[0]).Some? then [SystemPart(messages[0]).value] else []) + SystemParts(messages[1..])
  }

  function SystemPrompt(messages: seq<Value>): Option<string> {
    if SystemParts(messages) == [] then None else Some(JoinWith(SystemParts(messages), "\n"))
  }

  // ---------------------------------------------------------------- the loop

  predicate IsResult(block: Value) {
    Get(block, "type") == Str("tool_result")
  }

  predicate AllResults(blocks: seq<Value>)
    decreases |blocks|
  {
    blocks == [] || (AllResults(blocks[..|blocks| - 1]) && IsResult(blocks[|blocks| - 1]))
  }

  /** What a message contributes: the block of a tool result, or a turn of its own. */
  datatype Item = Result(block: Value) | Own(turn: Value)

  function ItemOf(t: Codec, m: Value): (item: Option<Item>)
    ensures item.Some? && item.value.Result? ==> IsResult(item.value.block)
  {
    if IsTool(m) then Some(Result(ToolResult(t, m)))
    else if OwnTurn(t, m).Some? then Some(Own(OwnTurn(t, m).value))
    else None
  }

  /** The contributions of the messages that have one. */
  function Items(t: Codec, messages: seq<Value>): (items: seq<Item>)
    ensures WellTyped(items)
  {
    if messages == [] then []
    else (if ItemOf(t, messages[0]).Some? then [ItemOf(t, messages[0]).value] else []) + Items(t, messages[1..])
  }

  predicate WellTyped(items: seq<Item>) {
    forall i :: 0 <= i < |items| && items[i].Result? ==> IsResult(items[i].block)
  }

  /** A turn that the next tool result joins. */
  predicate TakesResults(turn: Value) {
    turn.Obj? && Get(turn, "role") == Str("user") && Get(turn, "content").Arr? &&
    AllResults(Get(turn, "content").items)
  }

  function Extended(turn: Value, block: Value): Value
    requires TakesResults(turn)
  {
    With(turn, "content", Arr(Get(turn, "content").items + [block]))
  }

  predicate LastTakesResults(turns: seq<Value>) {
    turns != [] && TakesResults(turns[|turns| - 1])
  }

  function Push(turns: seq<Value>, item: Item): seq<Value> {
    match item
    case Own(turn) => turns + [turn]
    case Result(block) =>
      if LastTakesResults(turns) then turns[..|turns| - 1] + [Extended(turns[|turns| - 1], block)]
      else turns + [Turn("user", Arr([block]))]
  }

  function PushAll(turns: seq<Value>, items: seq<Item>): seq<Value>
    decreases |items|
  {
    if items == [] then turns else PushAll(Push(turns, items[0]), items[1..])
  }

  /** The translated turns of a conversation. */
  function Translated(t: Codec, messages: seq<Value>): seq<Value> {
    PushAll([], Items(t, messages))
  }

  lemma ItemsStep(t: Codec, messages: seq<Value>, turns: seq<Value>)
    requires messages != []
    ensures var item := ItemOf(t, messages[0]);
            PushAll(turns, Items(t, messages)) ==
            PushAll(if item.Some? then Push(turns, item.value) else turns, Items(t, messages[1..]))
  {
    var item, rest := ItemOf(t, messages[0]), Items(t, messages[1..]);
    if item.Some? {
      assert Items(t, messages) == [item.value] + rest && ([item.value] + rest)[1..] == rest;
    } else {
      assert Items(t, messages) == [] + rest == rest;
    }
  }

  method TranslateMessages(t: Codec, messages: seq<Value>) returns (system: Option<string>, turns: seq<Value>)
    ensures turns == Translated(t, messages)
    ensures system == SystemPrompt(messages)
  {
    system := SystemPrompt(messages);
    turns := [];
    assert messages[0..] == messages;
    for i := 0 to |messages|
      invariant PushAll(turns, Items(t, messages[i..])) == Translated(t, messages)
    {
      var m, item := messages[i], ItemOf(t, messages[i]);
      ItemsStep(t, messages[i..], turns);
      assert messages[i..][1..] == messages[i + 1..];
      if item.Some? {
        turns := PushItem(turns, item.value);
      }
    }
    assert messages[|messages|..] == [];
  }

  method PushItem(turns: seq<Value>, item: Item) returns (pushed: seq<Value>)
    ensures pushed == Push(turns, item)
  {
    if item.Result? && LastTakesResults(turns) {
      var n := |turns| - 1;
      pushed := turns[n := Extended(turns[n], item.block)];
    } else if item.Result? {
      pushed := turns + [Turn("user", Arr([item.block]))];
    } else {
      pushed := turns + [item.turn];
    }
  }

  // ---------------------------------------------------------------- what the loop means

  /** The length of the leading run of tool results. */
  function ResultRun(items: seq<Item>): (n: nat)
    ensures n <= |items|
    ensures forall i :: 0 <= i < n ==> items[i].Result?
    ensures n < |items| ==> items[n].Own?
  {
    if items == [] || items[0].Own? then 0 else 1 + ResultRun(items[1..])
  }

  function Blocks(items: seq<Item>): (blocks: seq<Value>)
    requires forall i :: 0 <= i < |items| ==> items[i].Result?
    ensures |blocks| == |items|
    ensures forall i :: 0 <= i < |blocks| ==> blocks[i] == items[i].block
  {
    if items == [] then [] else [items[0].block] + Blocks(items[1..])
  }

  /** Every turn for itself, and one user turn for each maximal run of tool results. */
  function Grouped(items: seq<Item>): seq<Value>
    decreases |items|
  {
    if items == [] then []
    else if items[0].Own? then [items[0].turn] + Grouped(items[1..])
    else
      var n := ResultRun(items);
      [Turn("user", Arr(Blocks(items[..n])))] + Grouped(items[n..])
  }

  /** Some tool result follows a turn that is itself made of tool results. */
  ghost predicate ResultsMeet(items: seq<Item>) {
    exists i :: 0 <= i < |items| - 1 && items[i].Own? && TakesResults(items[i].turn) && items[i + 1].Result?
  }

  lemma ExtendedResults(blocks: seq<Value>, block: Value)
    requires AllResults(blocks)
    ensures TakesResults(Turn("user", Arr(blocks)))
    ensures Extended(Turn("user", Arr(blocks)), block) == Turn("user", Arr(blocks + [block]))
  {
    var turn := Turn("user", Arr(blocks));
    assert Get(turn, "role") == Str("user") && Get(turn, "content") == Arr(blocks);
    assert turn.fields["content" := Arr(blocks + [block])] == Turn("user", Arr(blocks + [block])).fields;
  }

  lemma PushJoins(turns: seq<Value>, blocks: seq<Value>, block: Value)
    requires AllResults(blocks)
    ensures Push(turns + [Turn("user", Arr(blocks))], Result(block)) == turns + [Turn("user", Arr(blocks + [block]))]
  {
    ExtendedResults(blocks, block);
    var all := turns + [Turn("user", Arr(blocks))];
    assert all[..|all| - 1] == turns;
  }

  /** A turn of results. */
  function Results(blocks: seq<Value>): Value {
    Turn("user", Arr(blocks))
  }

  lemma RunFirst(blocks: seq<Value>, items: seq<Item>)
    requires items != [] && items[0].Result?
    ensures var n, rest := ResultRun(items), items[1..];
            n == ResultRun(rest) + 1 && rest[n - 1..] == items[n..] &&
            blocks + [items[0].block] + Blocks(rest[..n - 1]) == blocks + Blocks(items[..n])
  {
    var n, rest := ResultRun(items), items[1..];
    RunSlices(items, n);
    Reassociate(blocks, [items[0].block], Blocks(rest[..n - 1]));
  }

  lemma RunSlices(items: seq<Item>, n: nat)
    requires 0 < n <= |items|
    ensures items[..n][1..] == items[1..][..n - 1] && items[..n][0] == items[0] && items[1..][n - 1..] == items[n..]
  {
  }

  lemma ResultJoins(turns: seq<Value>, blocks: seq<Value>, items: seq<Item>)
    requires AllResults(blocks) && WellTyped(items) && items != [] && items[0].Result?
    ensures AllResults(blocks + [items[0].block])
    ensures PushAll(turns + [Results(blocks)], items) == PushAll(turns + [Results(blocks + [items[0].block])], items[1..])
  {
    var block := items[0].block;
    Last(blocks, block);
    PushJoins(turns, blocks, block);
    assert items[0] == Result(block);
  }

  /** Tool results pushed after a turn of results all join it. */
  lemma {:induction false} RunJoins(turns: seq<Value>, blocks: seq<Value>, items: seq<Item>)
    requires AllResults(blocks) && WellTyped(items)
    ensures var n := ResultRun(items);
            PushAll(turns + [Results(blocks)], items) == PushAll(turns + [Results(blocks + Blocks(items[..n]))], items[n..])
    decreases |items|
  {
    if items == [] || items[0].Own? {
      assert items[..0] == [] && items[0..] == items;
      Empty(blocks);
    } else {
      ResultJoins(turns, blocks, items);
      RunJoins(turns, blocks + [items[0].block], items[1..]);
      RunFirst(blocks, items);
    }
  }

  lemma MeetLater(items: seq<Item>, n: nat)
    requires n <= |items|
    ensures ResultsMeet(items[n..]) ==> ResultsMeet(items)
  {
    var rest := items[n..];
    if i :| 0 <= i < |rest| - 1 && rest[i].Own? && TakesResults(rest[i].turn) && rest[i + 1].Result? {
      assert items[n + i] == rest[i] && items[n + i + 1] == rest[i + 1];
    }
  }

  lemma {:induction false} LoopGroups(turns: seq<Value>, items: seq<Item>)
    requires WellTyped(items) && !ResultsMeet(items)
    requires items != [] && items[0].Result? ==> !LastTakesResults(turns)
    ensures PushAll(turns, items) == turns + Grouped(items)
    decreases |items|
  {
    if items == [] {
      assert turns + [] == turns;
    } else if items[0].Own? {
      var turn, rest := items[0].turn, items[1..];
      MeetLater(items, 1);
      assert rest != [] && rest[0].Result? && TakesResults(turn) ==> ResultsMeet(items);
      LoopGroups(turns + [turn], rest);
      Reassociate(turns, [turn], Grouped(rest));
    } else {
      LoopGroupsRun(turns, items);
    }
  }

  lemma {:induction false} LoopGroupsRun(turns: seq<Value>, items: seq<Item>)
    requires WellTyped(items) && !ResultsMeet(items)
    requires items != [] && items[0].Result? && !LastTakesResults(turns)
    ensures PushAll(turns, items) == turns + Grouped(items)
    decreases |items|, 0
  {
    var n := ResultRun(items);
    var rest, first := items[n..], [items[0].block];
    var turn := Turn("user", Arr(Blocks(items[..n])));
    MeetLater(items, n);
    calc {
      PushAll(turns, items);
      PushAll(turns + [Turn("user", Arr(first))], items[1..]);
      { assert first[..0] == []; RunJoins(turns, first, items[1..]); }
      PushAll(turns + [Turn("user", Arr(first + Blocks(items[1..][..n - 1])))], items[1..][n - 1..]);
      { assert items[1..][..n - 1] == items[..n][1..] && items[1..][n - 1..] == rest; }
      PushAll(turns + [turn], rest);
      { LoopGroups(turns + [turn], rest); }
      turns + [turn] + Grouped(rest);
      { Reassociate(turns, [turn], Grouped(rest)); }
      turns + Grouped(items);
    }
  }

  /** How many turns the loop opens. */
  function Opened(joinable: bool, items: seq<Item>): nat
    decreases |items|
  {
    if items == [] then 0
    else if items[0].Result? then (if joinable then 0 else 1) + Opened(true, items[1..])
    else 1 + Opened(TakesResults(items[0].turn), items[1..])
  }

  /** How many turns the grouping has. */
  function Heads(inRun: bool, items: seq<Item>): nat
    decreases |items|
  {
    if items == [] then 0
    else if items[0].Result? then (if inRun then 0 else 1) + Heads(true, items[1..])
    else 1 + Heads(false, items[1..])
  }

  lemma PushOpens(turns: seq<Value>, item: Item)
    requires item.Result? ==> IsResult(item.block)
    ensures |Push(turns, item)| == |turns| + if item.Result? && LastTakesResults(turns) then 0 else 1
    ensures LastTakesResults(Push(turns, item)) == (item.Result? || TakesResults(item.turn))
  {
    if item.Result? {
      ExtendedResults([], item.block);
      ExtendedResults([item.block], item.block);
      if LastTakesResults(turns) {
        var last := turns[|turns| - 1];
        var longer := Extended(last, item.block);
        assert Get(longer, "content") == Arr(Get(last, "content").items + [item.block]);
        assert Get(longer, "role") == Get(last, "role");
      }
    }
  }

  lemma {:induction false} LoopLength(turns: seq<Value>, items: seq<Item>)
    requires WellTyped(items)
    ensures |PushAll(turns, items)| == |turns| + Opened(LastTakesResults(turns), items)
    decreases |items|
  {
    if items != [] {
      PushOpens(turns, items[0]);
      LoopLength(Push(turns, items[0]), items[1..]);
    }
  }

  lemma {:induction false} HeadsAfterRun(items: seq<Item>)
    ensures Heads(true, items) == Heads(false, items[ResultRun(items)..])
  {
    if items != [] && items[0].Result? {
      HeadsAfterRun(items[1..]);
      assert items[1..][ResultRun(items[1..])..] == items[ResultRun(items)..];
    } else {
      assert items[0..] == items;
    }
  }

  lemma {:induction false} GroupedLength(items: seq<Item>)
    ensures |Grouped(items)| == Heads(false, items)
    decreases |items|
  {
    if items != [] {
      var n := if items[0].Result? then ResultRun(items) else 1;
      GroupedLength(items[n..]);
      if items[0].Result? {
        HeadsAfterRun(items[1..]);
        assert items[1..][ResultRun(items[1..])..] == items[n..];
      }
    }
  }

  lemma {:induction false} MeetingOpensFewer(joinable: bool, inRun: bool, items: seq<Item>)
    requires inRun ==> joinable
    ensures Opened(joinable, items) <= Heads(inRun, items)
    ensures (joinable && !inRun && items != [] && items[0].Result?) || ResultsMeet(items) ==>
              Opened(joinable, items) < Heads(inRun, items)
    decreases |items|
  {
    if items != [] {
      var rest := items[1..];
      MeetingOpensFewer(items[0].Result? || TakesResults(items[0].turn), items[0].Result?, rest);
      if ResultsMeet(items) {
        var i :| 0 <= i < |items| - 1 && items[i].Own? && TakesResults(items[i].turn) && items[i + 1].Result?;
        if i > 0 {
          assert rest[i - 1] == items[i] && rest[i] == items[i + 1];
        } else {
          assert rest[0] == items[1];
        }
      }
    }
  }

  lemma LoopGroupsIff(items: seq<Item>)
    requires WellTyped(items)
    ensures PushAll([], items) == Grouped(items) <==> !ResultsMeet(items)
  {
    if ResultsMeet(items) {
      LoopLength([], items);
      GroupedLength(items);
      MeetingOpensFewer(false, false, items);
    } else {
      LoopGroups([], items);
    }
  }

  /** The messages that leave a trace. */
  function Kept(t: Codec, messages: seq<Value>): seq<Value> {
    if messages == [] then []
    else (if ItemOf(t, messages[0]).Some? then [messages[0]] else []) + Kept(t, messages[1..])
  }

  /** A user message made of tool results alone, or of nothing. */
  predicate CarriesResults(m: Value) {
    Role(m) == Some("user") && Get(m, "content").Arr? && AllResults(Get(m, "content").items)
  }

  lemma {:induction false} AllResultsEach(blocks: seq<Value>)
    ensures AllResults(blocks) <==> forall i :: 0 <= i < |blocks| ==> IsResult(blocks[i])
    decreases |blocks|
  {
    if blocks == [] {
      assert AllResults(blocks);
    } else {
      AllResultsEach(blocks[..|blocks| - 1]);
    }
  }

  lemma TranslationKeepsResults(parts: seq<Value>)
    ensures AllResults(TranslateBlocks(parts)) <==> AllResults(parts)
  {
    AllResultsEach(parts);
    AllResultsEach(TranslateBlocks(parts));
    forall i | 0 <= i < |parts| ensures IsResult(TranslateBlocks(parts)[i]) <==> IsResult(parts[i]) {
      TranslationKeepsResult(parts[i]);
    }
  }

  lemma TranslationKeepsResult(part: Value)
    ensures IsResult(TranslateBlock(part)) <==> IsResult(part)
  {
    if TypeOf(part) == Some("tool_result") && Get(part, "content").Arr? {
      TranslateNested(part);
    } else {
      ChangedParts(part);
    }
  }

  lemma TakesResultsIffCarries(t: Codec, m: Value)
    requires OwnTurn(t, m).Some?
    ensures TakesResults(OwnTurn(t, m).value) <==> CarriesResults(m)
  {
    if Role(m) == Some("user") && Get(m, "content").Arr? {
      var items := Get(m, "content").items;
      var blocks := TranslateBlocks(items);
      TranslationKeepsResults(items);
    }
  }

  lemma {:induction false} ItemsOfKept(t: Codec, messages: seq<Value>)
    ensures var kept, items := Kept(t, messages), Items(t, messages);
            |kept| == |items| && forall i :: 0 <= i < |kept| ==> ItemOf(t, kept[i]) == Some(items[i])
  {
    if messages != [] {
      ItemsOfKept(t, messages[1..]);
    }
  }

  /**
   The loop turns every maximal run of tool messages into exactly one user turn
   and every other kept message into its own turn, in order, exactly when no
   tool message follows a user message that is itself made of tool results.
   */
  lemma OneTurnPerToolRun(t: Codec, messages: seq<Value>)
    ensures var kept := Kept(t, messages);
            Translated(t, messages) == Grouped(Items(t, messages)) <==>
            forall i :: 0 <= i < |kept| - 1 && CarriesResults(kept[i]) ==> !IsTool(kept[i + 1])
  {
    var kept, items := Kept(t, messages), Items(t, messages);
    ItemsOfKept(t, messages);
    LoopGroupsIff(items);
    forall i | 0 <= i < |kept|
      ensures items[i].Result? <==> IsTool(kept[i])
      ensures items[i].Own? && TakesResults(items[i].turn) <==> CarriesResults(kept[i])
    {
      assert ItemOf(t, kept[i]) == Some(items[i]);
      if items[i].Own? {
        TakesResultsIffCarries(t, kept[i]);
      }
    }
  }

  // ---------------------------------------------------------------- nothing is lost

  /** One piece of content and the role that says it. */
  datatype Piece = Piece(role: Value, body: Value)

  function Labelled(role: Value, bodies: seq<Value>): (pieces: seq<Piece>)
    ensures |pieces| == |bodies|
    ensures forall i :: 0 <= i < |bodies| ==> pieces[i] == Piece(role, bodies[i])
  {
    if bodies == [] then [] else [Piece(role, bodies[0])] + Labelled(role, bodies[1..])
  }

  function PiecesOf(turn: Value): seq<Piece> {
    var content := Get(turn, "content");
    Labelled(Get(turn, "role"), if content.Arr? then content.items else [content])
  }

  function Pieces(turns: seq<Value>): seq<Piece>
    decreases |turns|
  {
    if turns == [] then [] else Pieces(turns[..|turns| - 1]) + PiecesOf(turns[|turns| - 1])
  }

  function Said(item: Item): seq<Piece> {
    match item
    case Result(block) => [Piece(Str("user"), block)]
    case Own(turn) => PiecesOf(turn)
  }

  function SaidByAll(items: seq<Item>): seq<Piece> {
    if items == [] then [] else Said(items[0]) + SaidByAll(items[1..])
  }

  lemma PushSays(turns: seq<Value>, item: Item)
    ensures Pieces(Push(turns, item)) == Pieces(turns) + Said(item)
  {
    var n, after := |turns|, Push(turns, item);
    if item.Result? && LastTakesResults(turns) {
      var last := turns[n - 1];
      Last(turns[..n - 1], after[n - 1]);
      ExtendedSays(last, item.block);
      Reassociate(Pieces(turns[..n - 1]), PiecesOf(last), Said(item));
    } else if item.Result? {
      Last(turns, after[n]);
      NewTurnSays(item.block);
    } else {
      Last(turns, after[n]);
    }
  }

  lemma ExtendedSays(turn: Value, block: Value)
    requires TakesResults(turn)
    ensures PiecesOf(Extended(turn, block)) == PiecesOf(turn) + [Piece(Str("user"), block)]
  {
    var longer := Extended(turn, block);
    assert Get(longer, "content") == Arr(Get(turn, "content").items + [block]);
    assert Get(longer, "role") == Str("user");
  }

  lemma NewTurnSays(block: Value)
    ensures PiecesOf(Turn("user", Arr([block]))) == [Piece(Str("user"), block)]
  {
    var turn := Turn("user", Arr([block]));
    assert Get(turn, "content") == Arr([block]) && Get(turn, "role") == Str("user");
  }

  /** Whatever the input, each piece of content appears exactly once, in order, under its own role. */
  lemma {:induction false} NothingIsLost(turns: seq<Value>, items: seq<Item>)
    ensures Pieces(PushAll(turns, items)) == Pieces(turns) + SaidByAll(items)
    decreases |items|
  {
    if items == [] {
      assert Pieces(turns) + [] == Pieces(turns);
    } else {
      var next, rest := Push(turns, items[0]), items[1..];
      calc {
        Pieces(PushAll(turns, items));
        Pieces(PushAll(next, rest));
        { NothingIsLost(next, rest); }
        Pieces(next) + SaidByAll(rest);
        { PushSays(turns, items[0]); }
        Pieces(turns) + Said(items[0]) + SaidByAll(rest);
        { Reassociate(Pieces(turns), Said(items[0]), SaidByAll(rest)); }
        Pieces(turns) + (Said(items[0]) + SaidByAll(rest));
      }
    }
  }

  // ---------------------------------------------------------------- and back

  function TextBlocksOf(blocks: seq<Value>): seq<string> {
    if blocks == [] then []
    else
      (if Get(blocks[0], "type") == Str("text") && Get(blocks[0], "text").Str? then [Get(blocks[0], "text").text] else []) +
      TextBlocksOf(blocks[1..])
  }

  function TextFromContent(content: Value): string {
    if content.Arr? then Join(TextBlocksOf(content.items)) else ""
  }

  function CallOf(t: Codec, block: Value): Value {
    Obj(map["id" := Get(block, "id"),
            "type" := Str("function"),
            "function" := Obj(map["name" := Get(block, "name"),
                                  "arguments" := Str(t.write(Get(block, "input")))])])
  }

  function CallsOf(t: Codec, blocks: seq<Value>): seq<Value> {
    if blocks == [] then []
    else (if Get(blocks[0], "type") == Str("tool_use") then [CallOf(t, blocks[0])] else []) + CallsOf(t, blocks[1..])
  }

  function ToolCallsFromContent(t: Codec, content: Value): Option<Value> {
    if !content.Arr? || CallsOf(t, content.items) == [] then None else Some(Arr(CallsOf(t, content.items)))
  }

  /** The OpenAI assistant message made from Anthropic content. */
  function AssistantMessage(t: Codec, content: Value): Value {
    var text, calls := Str(TextFromContent(content)), ToolCallsFromContent(t, content);
    if calls.Some? then Obj(map["role" := Str("assistant"), "content" := text, "tool_calls" := calls.value])
    else Obj(map["role" := Str("assistant"), "content" := text])
  }

  predicate IsToolUse(block: Value) {
    Get(block, "input").Obj? && block == ToolUse(Get(block, "id"), Get(block, "name"), Get(block, "input"))
  }

  predicate AreToolUses(blocks: seq<Value>) {
    forall i :: 0 <= i < |blocks| ==> IsToolUse(blocks[i])
  }

  predicate IsLead(block: Value) {
    Get(block, "text").Str? && Get(block, "text").text != "" && block == TextBlock(Get(block, "text").text)
  }

  /** At most one text block, not empty and in front, then at least one tool use with an object input. */
  predicate Replayable(blocks: seq<Value>) {
    var uses := if blocks != [] && IsLead(blocks[0]) then blocks[1..] else blocks;
    uses != [] && AreToolUses(uses)
  }

  lemma LeadsAndUses(text: string, block: Value)
    ensures IsToolUse(block) ==> !IsLead(block) && Get(block, "type") == Str("tool_use")
    ensures text != "" ==> IsLead(TextBlock(text))
    ensures Get(TextBlock(text), "type") == Str("text") && Get(TextBlock(text), "text") == Str(text)
  {
    if IsToolUse(block) {
      assert Get(ToolUse(Get(block, "id"), Get(block, "name"), Get(block, "input")), "text") == Null;
    }
  }

  lemma UseComesBack(t: Codec, block: Value)
    requires RoundTrips(t) && IsToolUse(block)
    ensures UseOf(t, CallOf(t, block)) == block && Get(block, "type") == Str("tool_use")
  {
    var call := CallOf(t, block);
    assert Get(call, "id") == Get(block, "id");
    var f := Get(call, "function");
    assert Get(f, "name") == Get(block, "name") && Get(f, "arguments") == Str(t.write(Get(block, "input")));
  }

  /** Text and calls of content that starts with a tool use, or with a text block. */
  lemma FirstBlock(t: Codec, block: Value, rest: seq<Value>)
    ensures IsToolUse(block) ==>
              CallsOf(t, [block] + rest) == [CallOf(t, block)] + CallsOf(t, rest) &&
              TextBlocksOf([block] + rest) == TextBlocksOf(rest)
    ensures IsLead(block) ==>
              CallsOf(t, [block] + rest) == CallsOf(t, rest) &&
              TextBlocksOf([block] + rest) == [Get(block, "text").text] + TextBlocksOf(rest)
  {
    LeadsAndUses("", block);
    if IsLead(block) {
      LeadsAndUses(Get(block, "text").text, block);
    }
    var all := [block] + rest;
    assert all[0] == block && all[1..] == rest;
    assert [] + CallsOf(t, rest) == CallsOf(t, rest) && [] + TextBlocksOf(rest) == TextBlocksOf(rest);
  }

  lemma UsesAppend(t: Codec, call: Value, calls: seq<Value>)
    ensures UsesOf(t, [call] + calls) == [UseOf(t, call)] + UsesOf(t, calls)
  {
    assert ([call] + calls)[1..] == calls;
  }

  lemma {:induction false} UsesComeBack(t: Codec, uses: seq<Value>)
    requires RoundTrips(t) && AreToolUses(uses)
    ensures UsesOf(t, CallsOf(t, uses)) == uses && TextBlocksOf(uses) == []
  {
    if uses != [] {
      var block, rest := uses[0], uses[1..];
      assert uses == [block] + rest;
      UsesComeBack(t, rest);
      UseComesBack(t, block);
      FirstBlock(t, block, rest);
      UsesAppend(t, CallOf(t, block), CallsOf(t, rest));
    }
  }

  /** What an assistant message made from content carries. */
  lemma AssistantParts(t: Codec, blocks: seq<Value>)
    ensures var m, calls := AssistantMessage(t, Arr(blocks)), CallsOf(t, blocks);
            Get(m, "role") == Str("assistant") && Get(m, "content") == Str(TextFromContent(Arr(blocks))) &&
            Get(m, "tool_calls") == if calls == [] then Null else Arr(calls)
  {
  }

  /** The one turn that an assistant message made from content translates to. */
  lemma ReplayShape(t: Codec, blocks: seq<Value>)
    ensures var lead, calls := LeadText(TextFromContent(Arr(blocks))), CallsOf(t, blocks);
            Translated(t, [AssistantMessage(t, Arr(blocks))]) ==
            [if calls == [] then AssistantMessage(t, Arr(blocks)) else Turn("assistant", Arr(lead + UsesOf(t, calls)))]
  {
    var m := AssistantMessage(t, Arr(blocks));
    AssistantParts(t, blocks);
    ItemsStep(t, [m], []);
    assert [m][1..] == [];
    assert ItemOf(t, m) == Some(Own(OwnTurn(t, m).value));
    assert Push([], Own(OwnTurn(t, m).value)) == [OwnTurn(t, m).value];
  }

  lemma UsesAlone(t: Codec, uses: seq<Value>)
    requires RoundTrips(t) && AreToolUses(uses) && uses != []
    ensures TextFromContent(Arr(uses)) == "" && CallsOf(t, uses) != [] && UsesOf(t, CallsOf(t, uses)) == uses
  {
    UsesComeBack(t, uses);
  }

  lemma UsesAfterLead(t: Codec, lead: Value, uses: seq<Value>)
    requires RoundTrips(t) && IsLead(lead) && AreToolUses(uses) && uses != []
    ensures var blocks, text := [lead] + uses, Get(lead, "text").text;
            TextFromContent(Arr(blocks)) == text && CallsOf(t, blocks) != [] && UsesOf(t, CallsOf(t, blocks)) == uses
  {
    UsesAlone(t, uses);
    FirstBlock(t, lead, uses);
    UsesComeBack(t, uses);
    JoinOne(Get(lead, "text").text);
  }

  /** Replayable content is its one text block, if any, and the uses that come back from its calls. */
  lemma ReplayableParts(t: Codec, blocks: seq<Value>)
    requires RoundTrips(t) && Replayable(blocks)
    ensures CallsOf(t, blocks) != [] && blocks == LeadText(TextFromContent(Arr(blocks))) + UsesOf(t, CallsOf(t, blocks))
  {
    if IsLead(blocks[0]) {
      Split(blocks);
      UsesAfterLead(t, blocks[0], blocks[1..]);
    } else {
      UsesAlone(t, blocks);
      Empty(UsesOf(t, CallsOf(t, blocks)));
    }
  }

  lemma Split<T>(s: seq<T>)
    requires s != []
    ensures s == [s[0]] + s[1..]
  {
  }

  lemma SameTurns(a: seq<Value>, b: seq<Value>)
    ensures Turn("assistant", Arr(a)) == Turn("assistant", Arr(b)) <==> a == b
  {
    assert Get(Turn("assistant", Arr(a)), "content") == Arr(a) && Get(Turn("assistant", Arr(b)), "content") == Arr(b);
  }

  /** The blocks that come back are those sent exactly when they are replayable. */
  lemma SameBlocksIffReplayable(t: Codec, blocks: seq<Value>)
    requires RoundTrips(t)
    ensures var calls := CallsOf(t, blocks);
            calls != [] && blocks == LeadText(TextFromContent(Arr(blocks))) + UsesOf(t, calls) <==> Replayable(blocks)
  {
    var text, calls := TextFromContent(Arr(blocks)), CallsOf(t, blocks);
    if Replayable(blocks) {
      ReplayableParts(t, blocks);
    } else if calls != [] && blocks == LeadText(text) + UsesOf(t, calls) {
      UsesAreToolUses(t, calls);
      ReplayableFrom(text, UsesOf(t, calls));
    }
  }

  /** Content comes back from the round through OpenAI form as the same turn exactly when it is replayable. */
  lemma AgenticRoundTrip(t: Codec, blocks: seq<Value>)
    requires RoundTrips(t)
    ensures Translated(t, [AssistantMessage(t, Arr(blocks))]) == [Turn("assistant", Arr(blocks))] <==>
            Replayable(blocks)
  {
    var calls := CallsOf(t, blocks);
    ReplayShape(t, blocks);
    SameBlocksIffReplayable(t, blocks);
    if calls == [] {
      AssistantParts(t, blocks);
      assert Get(Turn("assistant", Arr(blocks)), "content") == Arr(blocks);
    } else {
      SameTurns(LeadText(TextFromContent(Arr(blocks))) + UsesOf(t, calls), blocks);
    }
  }

  lemma UseIsToolUse(t: Codec, call: Value)
    ensures IsToolUse(UseOf(t, call))
  {
  }

  lemma UsesAreToolUses(t: Codec, calls: seq<Value>)
    ensures AreToolUses(UsesOf(t, calls))
  {
    var uses := UsesOf(t, calls);
    forall i | 0 <= i < |uses| ensures IsToolUse(uses[i]) {
      UseIsToolUse(t, calls[i]);
    }
  }

  lemma ReplayableFrom(text: string, uses: seq<Value>)
    requires uses != [] && AreToolUses(uses)
    ensures Replayable(LeadText(text) + uses)
  {
    if text == "" {
      LeadsAndUses(text, uses[0]);
      assert [] + uses == uses;
    } else {
      LeadsAndUses(text, Null);
      var blocks := [TextBlock(text)] + uses;
      assert blocks[1..] == uses && blocks[0] == TextBlock(text);
    }
  }
}
