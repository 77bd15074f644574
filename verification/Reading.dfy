/**
 What conversations say, read alike from OpenAI messages and from Anthropic turns:
 the translation says what it was given, no more and no less.
 */
module Reading {
  import opened Common
  import opened Json
  import opened Content
  import opened Messages

  /** One thing said; a tool result stands between its opening, with its own fields, and its end. */
  datatype Atom =
    | Text(text: string)
    | ImageAt(url: string)
    | ImageData(mediaType: Value, data: Value)
    | Use(id: Value, name: Value, input: Value)
    | Answer(fields: map<string, Value>)
    | End
    | Other(value: Value)

  // ---------------------------------------------------------------- parts

  /** The URL of an OpenAI image part: the flat string, or nested under `url`. */
  function UrlIn(part: Value): Option<string> {
    var image := Get(part, "image_url");
    if image.Str? then Some(image.text)
    else if Get(image, "url").Str? then Some(Get(image, "url").text)
    else None
  }

  /** The image a URL stands for; of data URLs only those that RFC 2397 calls base64 are images. */
  ghost function ImageBehind(part: Value, url: string): Atom {
    if exists m, d :: IsDataUrl(url, m, d) then
      var m, d :| IsDataUrl(url, m, d);
      ImageData(Str(m), Str(d))
    else if "data:" <= url then Other(part)
    else ImageAt(url)
  }

  function NativeImage(part: Value): Atom {
    var source := Get(part, "source");
    if Get(source, "type") == Str("url") && Get(source, "url").Str? then ImageAt(Get(source, "url").text)
    else if Get(source, "type") == Str("base64") then ImageData(Get(source, "media_type"), Get(source, "data"))
    else Other(part)
  }

  /** What a part says, in either form and in preorder. */
  ghost function Atoms(part: Value): seq<Atom> {
    var kind := Get(part, "type");
    if part.Str? then [Text(part.text)]
    else if (kind == Str("text") || kind == Str("input_text")) && Get(part, "text").Str? then [Text(Get(part, "text").text)]
    else if (kind == Str("image_url") || kind == Str("input_image")) && UrlIn(part).Some? then
      [ImageBehind(part, UrlIn(part).value)]
    else if kind == Str("image") then [NativeImage(part)]
    else if kind == Str("tool_use") then [Use(Get(part, "id"), Get(part, "name"), Get(part, "input"))]
    else if kind == Str("tool_result") then
      var content := Get(part, "content");
      [Answer(part.fields - {"content"})] +
      (if content.Arr? then AtomsOfAll(content.items) else Plain(content)) + [End]
    else [Other(part)]
  }

  ghost function AtomsOfAll(parts: seq<Value>): seq<Atom> {
    if parts == [] then [] else Atoms(parts[0]) + AtomsOfAll(parts[1..])
  }

  function Plain(content: Value): seq<Atom> {
    if content.Str? then [Text(content.text)] else [Other(content)]
  }

  lemma UrlInIsImageUrl(part: Value)
    ensures UrlIn(part) == ImageUrl(part)
  {
  }

  lemma DataUrlsAreUnique(url: string, m: string, d: string, m': string, d': string)
    requires IsDataUrl(url, m, d) && IsDataUrl(url, m', d')
    ensures m == m' && d == d'
  {
    DataOfDataUrl(url, m, d);
    DataOfDataUrl(url, m', d');
  }

  lemma ImageBehindDataUrl(part: Value, url: string, m: string, d: string)
    requires IsDataUrl(url, m, d)
    ensures ImageBehind(part, url) == ImageData(Str(m), Str(d))
  {
    var m', d' :| IsDataUrl(url, m', d') && ImageBehind(part, url) == ImageData(Str(m'), Str(d'));
    DataUrlsAreUnique(url, m, d, m', d');
  }

  lemma AtomsOfBase64(m: string, d: string)
    ensures Atoms(ImageBlock(Base64Source(m, d))) == [ImageData(Str(m), Str(d))]
  {
    SourceOfBase64(m, d);
    assert Get(ImageBlock(Base64Source(m, d)), "type") == Str("image");
  }

  lemma AtomsOfUrlImage(url: string)
    ensures Atoms(ImageBlock(UrlSource(url))) == [ImageAt(url)]
  {
    SourceOfUrl(url);
    assert Get(ImageBlock(UrlSource(url)), "type") == Str("image");
    assert Get(UrlSource(url), "url") == Str(url);
  }

  lemma ImageAtoms(part: Value, url: string)
    requires IsImagePart(part) && UrlIn(part) == Some(url)
    ensures Atoms(part) == [ImageBehind(part, url)]
  {
  }

  lemma Base64SaysTheSame(part: Value, url: string)
    requires IsImagePart(part) && UrlIn(part) == Some(url) && "data:" <= url && DataOf(url[5..]).Some?
    ensures Atoms(TranslateImagePart(part)) == Atoms(part)
  {
    var (m, d) := DataOf(url[5..]).value;
    UrlInIsImageUrl(part);
    assert TranslateImagePart(part) == ImageBlock(Base64Source(m, d));
    DataOfDataUrl(url, m, d);
    ImageAtoms(part, url);
    ImageBehindDataUrl(part, url, m, d);
    AtomsOfBase64(m, d);
  }

  lemma PlainUrlSaysTheSame(part: Value, url: string)
    requires IsImagePart(part) && UrlIn(part) == Some(url) && !("data:" <= url)
    ensures Atoms(TranslateImagePart(part)) == Atoms(part)
  {
    UrlInIsImageUrl(part);
    assert TranslateImagePart(part) == ImageBlock(UrlSource(url));
    forall m, d ensures !IsDataUrl(url, m, d) {
      DataOfDataUrl(url, m, d);
    }
    ImageAtoms(part, url);
    AtomsOfUrlImage(url);
  }

  lemma ImageSaysTheSame(part: Value)
    requires IsImagePart(part)
    ensures Atoms(TranslateBlock(part)) == Atoms(part)
  {
    UrlInIsImageUrl(part);
    if UrlIn(part).Some? {
      var url := UrlIn(part).value;
      if !("data:" <= url) {
        PlainUrlSaysTheSame(part, url);
      } else if DataOf(url[5..]).Some? {
        Base64SaysTheSame(part, url);
      }
    }
  }

  lemma TextSaysTheSame(text: string)
    ensures Atoms(TextBlock(text)) == [Text(text)]
  {
    assert Get(TextBlock(text), "type") == Str("text") && Get(TextBlock(text), "text") == Str(text);
  }

  lemma OutsideContent(fields: map<string, Value>, v: Value)
    ensures fields["content" := v] - {"content"} == fields - {"content"}
  {
  }

  lemma AtomsOfResult(part: Value)
    requires Get(part, "type") == Str("tool_result") && Get(part, "content").Arr?
    ensures Atoms(part) == [Answer(part.fields - {"content"})] + AtomsOfAll(Get(part, "content").items) + [End]
  {
  }

  /** Translating a part changes nothing of what it says. */
  lemma {:induction false} PartSaysTheSame(part: Value)
    ensures Atoms(TranslateBlock(part)) == Atoms(part)
  {
    if IsImagePart(part) {
      ImageSaysTheSame(part);
    } else if TypeOf(part) == Some("input_text") && Get(part, "text").Str? {
      TextSaysTheSame(Get(part, "text").text);
    } else if TypeOf(part) == Some("tool_result") && Get(part, "content").Arr? {
      var items := Get(part, "content").items;
      PartsSayTheSame(items);
      TranslateNested(part);
      OutsideContent(part.fields, Arr(TranslateBlocks(items)));
      AtomsOfResult(part);
      AtomsOfResult(TranslateBlock(part));
    }
  }

  lemma {:induction false} PartsSayTheSame(parts: seq<Value>)
    ensures AtomsOfAll(TranslateBlocks(parts)) == AtomsOfAll(parts)
  {
    if parts != [] {
      PartSaysTheSame(parts[0]);
      PartsSayTheSame(parts[1..]);
      First(TranslateBlock(parts[0]), TranslateBlocks(parts[1..]));
    }
  }

  // ---------------------------------------------------------------- turns and messages

  /** Who says what. */
  datatype Utterance = Utterance(role: Value, atom: Atom)

  function Spoken(role: Value, atoms: seq<Atom>): (r: seq<Utterance>)
    ensures |r| == |atoms| && forall i :: 0 <= i < |atoms| ==> r[i] == Utterance(role, atoms[i])
  {
    if atoms == [] then [] else [Utterance(role, atoms[0])] + Spoken(role, atoms[1..])
  }

  /** What pieces of Anthropic content say. */
  ghost function Heard(pieces: seq<Piece>): seq<Utterance> {
    if pieces == [] then [] else Spoken(pieces[0].role, Atoms(pieces[0].body)) + Heard(pieces[1..])
  }

  /** What Anthropic turns say. */
  ghost function TurnsSay(turns: seq<Value>): seq<Utterance> {
    Heard(Pieces(turns))
  }

  /** What the arguments of a tool call mean: an object, or the empty one when they are not to be read as one. */
  function ArgumentsOf(t: Codec, call: Value): Value {
    var arguments := Get(Get(call, "function"), "arguments");
    if arguments.Str? && t.read(arguments.text).Some? && t.read(arguments.text).value.Obj?
    then t.read(arguments.text).value else Obj(map[])
  }

  function Calls(t: Codec, calls: seq<Value>): (r: seq<Atom>)
    ensures |r| == |calls|
    ensures forall i :: 0 <= i < |r| ==>
              r[i] == Use(Get(calls[i], "id"), Get(Get(calls[i], "function"), "name"), ArgumentsOf(t, calls[i]))
  {
    if calls == [] then []
    else [Use(Get(calls[0], "id"), Get(Get(calls[0], "function"), "name"), ArgumentsOf(t, calls[0]))] + Calls(t, calls[1..])
  }

  /** What content says, if it is a text or parts. */
  ghost function ContentSays(content: Value): seq<Atom> {
    if content.Str? then [Text(content.text)]
    else if content.Arr? then AtomsOfAll(content.items)
    else []
  }

  /** What the result of a tool says; a missing one is the empty text, anything else its JSON text. */
  ghost function ResultSays(t: Codec, content: Value): seq<Atom> {
    if content.Str? || content.Arr? then ContentSays(content)
    else [Text(if content == Null then "" else t.write(content))]
  }

  /** What an OpenAI message says, system prompts apart. */
  ghost function MessageSays(t: Codec, m: Value): seq<Utterance> {
    var role, content, calls := Get(m, "role"), Get(m, "content"), Get(m, "tool_calls");
    if role == Str("tool") then
      Spoken(Str("user"),
             [Answer(map["type" := Str("tool_result"), "tool_use_id" := Get(m, "tool_call_id")])] +
             ResultSays(t, content) + [End])
    else if role == Str("assistant") && calls.Arr? && calls.items != [] then
      Spoken(role, (if content == Str("") then [] else ContentSays(content)) + Calls(t, calls.items))
    else if role == Str("user") || role == Str("assistant") then Spoken(role, ContentSays(content))
    else []
  }

  ghost function MessagesSay(t: Codec, messages: seq<Value>): seq<Utterance> {
    if messages == [] then [] else MessageSays(t, messages[0]) + MessagesSay(t, messages[1..])
  }

  lemma {:induction false} HeardAppend(a: seq<Piece>, b: seq<Piece>)
    ensures Heard(a + b) == Heard(a) + Heard(b)
  {
    if a == [] {
      Empty(b);
      Empty(Heard(b));
    } else {
      assert (a + b)[0] == a[0] && (a + b)[1..] == a[1..] + b;
      HeardAppend(a[1..], b);
      Reassociate(Spoken(a[0].role, Atoms(a[0].body)), Heard(a[1..]), Heard(b));
    }
  }

  lemma {:induction false} SpokenAppend(role: Value, a: seq<Atom>, b: seq<Atom>)
    ensures Spoken(role, a + b) == Spoken(role, a) + Spoken(role, b)
  {
    if a == [] {
      Empty(b);
      Empty(Spoken(role, b));
    } else {
      Reassociate([a[0]], a[1..], b);
      assert [a[0]] + a[1..] == a;
      First(a[0], a[1..] + b);
      SpokenAppend(role, a[1..], b);
      Reassociate([Utterance(role, a[0])], Spoken(role, a[1..]), Spoken(role, b));
    }
  }

  lemma {:induction false} HeardLabelled(role: Value, bodies: seq<Value>)
    ensures Heard(Labelled(role, bodies)) == Spoken(role, AtomsOfAll(bodies))
  {
    if bodies == [] {
      assert Labelled(role, bodies) == [];
    } else {
      HeardLabelled(role, bodies[1..]);
      First(Piece(role, bodies[0]), Labelled(role, bodies[1..]));
      SpokenAppend(role, Atoms(bodies[0]), AtomsOfAll(bodies[1..]));
    }
  }

  lemma OneAtoms(body: Value)
    ensures AtomsOfAll([body]) == Atoms(body)
  {
    assert [body][1..] == [];
    Empty(Atoms(body));
  }

  /** What one turn says. */
  lemma TurnSays(turn: Value)
    requires Get(turn, "content").Str? || Get(turn, "content").Arr?
    ensures Heard(PiecesOf(turn)) == Spoken(Get(turn, "role"), ContentSays(Get(turn, "content")))
  {
    var role, content := Get(turn, "role"), Get(turn, "content");
    if content.Arr? {
      HeardLabelled(role, content.items);
    } else {
      HeardLabelled(role, [content]);
      OneAtoms(content);
    }
  }

  // ---------------------------------------------------------------- message by message

  lemma CarriedSays(m: Value)
    ensures Carried(m).Some? <==> Get(m, "content").Str? || Get(m, "content").Arr?
    ensures Carried(m).Some? ==>
              Heard(PiecesOf(Carried(m).value)) == Spoken(Get(m, "role"), ContentSays(Get(m, "content")))
  {
    var content := Get(m, "content");
    if content.Str? {
      TurnSays(m);
    } else if content.Arr? {
      var turn := With(m, "content", Arr(TranslateBlocks(content.items)));
      TurnSays(turn);
      PartsSayTheSame(content.items);
    }
  }

  lemma UseSays(t: Codec, call: Value)
    ensures Atoms(UseOf(t, call)) == [Use(Get(call, "id"), Get(Get(call, "function"), "name"), ArgumentsOf(t, call))]
  {
    var block := UseOf(t, call);
    assert Get(block, "type") == Str("tool_use") && Get(block, "id") == Get(call, "id");
    assert Get(block, "name") == Get(Get(call, "function"), "name") && Get(block, "input") == ArgumentsOf(t, call);
  }

  lemma {:induction false} UsesSay(t: Codec, calls: seq<Value>)
    ensures AtomsOfAll(UsesOf(t, calls)) == Calls(t, calls)
  {
    if calls == [] {
      assert UsesOf(t, calls) == [];
    } else {
      UseSays(t, calls[0]);
      UsesSay(t, calls[1..]);
      First(UseOf(t, calls[0]), UsesOf(t, calls[1..]));
    }
  }

  lemma {:induction false} AtomsAppend(a: seq<Value>, b: seq<Value>)
    ensures AtomsOfAll(a + b) == AtomsOfAll(a) + AtomsOfAll(b)
  {
    if a == [] {
      Empty(b);
      Empty(AtomsOfAll(b));
    } else {
      assert (a + b)[0] == a[0] && (a + b)[1..] == a[1..] + b;
      AtomsAppend(a[1..], b);
      Reassociate(Atoms(a[0]), AtomsOfAll(a[1..]), AtomsOfAll(b));
    }
  }

  lemma LeadSays(content: Value)
    ensures AtomsOfAll(LeadOf(content)) == if content == Str("") then [] else ContentSays(content)
  {
    if content.Arr? {
      PartsSayTheSame(content.items);
    } else if content.Str? && content.text != "" {
      OneAtoms(TextBlock(content.text));
      TextSaysTheSame(content.text);
    }
  }

  /** An assistant turn with tool calls says its lead and its calls. */
  lemma CallingTurnSays(t: Codec, content: Value, calls: seq<Value>)
    ensures Heard(PiecesOf(Turn("assistant", Arr(LeadOf(content) + UsesOf(t, calls))))) ==
            Spoken(Str("assistant"), (if content == Str("") then [] else ContentSays(content)) + Calls(t, calls))
  {
    var blocks := LeadOf(content) + UsesOf(t, calls);
    var turn := Turn("assistant", Arr(blocks));
    assert Get(turn, "role") == Str("assistant") && Get(turn, "content") == Arr(blocks);
    TurnSays(turn);
    AtomsAppend(LeadOf(content), UsesOf(t, calls));
    LeadSays(content);
    UsesSay(t, calls);
  }

  lemma ResultFields(id: Value, content: Value)
    ensures var block := Obj(map["type" := Str("tool_result"), "tool_use_id" := id, "content" := content]);
            Get(block, "type") == Str("tool_result") && Get(block, "content") == content &&
            block.fields - {"content"} == map["type" := Str("tool_result"), "tool_use_id" := id]
  {
  }

  lemma ToolResultSays(t: Codec, m: Value)
    ensures Atoms(ToolResult(t, m)) ==
            [Answer(map["type" := Str("tool_result"), "tool_use_id" := Get(m, "tool_call_id")])] +
            ResultSays(t, Get(m, "content")) + [End]
  {
    var content, block := Get(m, "content"), ToolResult(t, m);
    ResultFields(Get(m, "tool_call_id"), ResultContent(t, content));
    ResultContentSays(t, content);
    AtomsOfToolResult(block);
  }

  lemma ResultContentSays(t: Codec, content: Value)
    ensures var c := ResultContent(t, content);
            (if c.Arr? then AtomsOfAll(c.items) else Plain(c)) == ResultSays(t, content)
  {
    if content.Arr? {
      PartsSayTheSame(content.items);
    }
  }

  lemma AtomsOfToolResult(block: Value)
    requires Get(block, "type") == Str("tool_result")
    ensures var content := Get(block, "content");
            Atoms(block) == [Answer(block.fields - {"content"})] +
                            (if content.Arr? then AtomsOfAll(content.items) else Plain(content)) + [End]
  {
  }

  lemma HeardOne(role: Value, body: Value)
    ensures Heard([Piece(role, body)]) == Spoken(role, Atoms(body))
  {
    assert [Piece(role, body)][1..] == [];
    Empty(Spoken(role, Atoms(body)));
  }

  lemma ToolMessageSays(t: Codec, m: Value)
    requires IsTool(m)
    ensures Heard(Said(Result(ToolResult(t, m)))) == MessageSays(t, m)
  {
    ToolResultSays(t, m);
    HeardOne(Str("user"), ToolResult(t, m));
  }

  lemma CallingMessageSays(t: Codec, m: Value)
    requires Role(m) == Some("assistant") && Get(m, "tool_calls").Arr? && Get(m, "tool_calls").items != []
    ensures OwnTurn(t, m).Some? && Heard(PiecesOf(OwnTurn(t, m).value)) == MessageSays(t, m)
  {
    CallingTurnSays(t, Get(m, "content"), Get(m, "tool_calls").items);
  }

  lemma CarriedMessageSays(t: Codec, m: Value)
    requires Role(m) == Some("user") || Role(m) == Some("assistant")
    requires Role(m) == Some("assistant") ==> !Get(m, "tool_calls").Arr? || Get(m, "tool_calls").items == []
    ensures OwnTurn(t, m) == Carried(m)
    ensures if Carried(m).Some? then Heard(PiecesOf(Carried(m).value)) == MessageSays(t, m) else MessageSays(t, m) == []
  {
    CarriedSays(m);
  }

  /** What a message contributes says what the message says; one that contributes nothing says nothing. */
  lemma ItemSays(t: Codec, m: Value)
    ensures ItemOf(t, m).Some? ==> Heard(Said(ItemOf(t, m).value)) == MessageSays(t, m)
    ensures ItemOf(t, m).None? ==> MessageSays(t, m) == []
  {
    if IsTool(m) {
      ToolMessageSays(t, m);
    } else if Role(m) == Some("assistant") && Get(m, "tool_calls").Arr? && Get(m, "tool_calls").items != [] {
      CallingMessageSays(t, m);
    } else if Role(m) == Some("user") || Role(m) == Some("assistant") {
      CarriedMessageSays(t, m);
    }
  }

  lemma {:induction false} ItemsSay(t: Codec, messages: seq<Value>)
    ensures Heard(SaidByAll(Items(t, messages))) == MessagesSay(t, messages)
  {
    if messages == [] {
      assert SaidByAll(Items(t, messages)) == [];
    } else {
      var item, rest := ItemOf(t, messages[0]), Items(t, messages[1..]);
      ItemSays(t, messages[0]);
      ItemsSay(t, messages[1..]);
      if item.Some? {
        First(item.value, rest);
        HeardAppend(Said(item.value), SaidByAll(rest));
      } else {
        Empty(rest);
        Empty(MessagesSay(t, messages[1..]));
      }
    }
  }

  /** The translated turns say exactly what the messages say, in order and under the right roles. */
  lemma TranslationSaysTheSame(t: Codec, messages: seq<Value>)
    ensures TurnsSay(Translated(t, messages)) == MessagesSay(t, messages)
  {
    NothingIsLost([], Items(t, messages));
    Empty(SaidByAll(Items(t, messages)));
    ItemsSay(t, messages);
  }

  /** Which messages leave a trace in the turns. */
  lemma KeptIff(t: Codec, m: Value)
    ensures var role, content, calls := Get(m, "role"), Get(m, "content"), Get(m, "tool_calls");
            ItemOf(t, m).Some? <==>
              role == Str("tool") ||
              ((role == Str("user") || role == Str("assistant")) && (content.Str? || content.Arr?)) ||
              (role == Str("assistant") && calls.Arr? && calls.items != [])
  {
  }

  /** Without tool calls, a user or assistant message keeps every field but its content; a text content stays, too. */
  lemma OtherFieldsStay(t: Codec, m: Value, key: string)
    requires OwnTurn(t, m).Some?
    requires Get(m, "role") == Str("assistant") ==> !Get(m, "tool_calls").Arr? || Get(m, "tool_calls").items == []
    ensures key != "content" || Get(m, "content").Str? ==> Get(OwnTurn(t, m).value, key) == Get(m, key)
  {
  }

  // ---------------------------------------------------------------- the system prompt

  /** The texts of a system message: its content, or the text parts of it. */
  ghost function SystemTexts(m: Value): seq<string> {
    var content := Get(m, "content");
    if Get(m, "role") != Str("system") then []
    else if content.Str? then [content.text]
    else if content.Arr? then PartTexts(content.items)
    else []
  }

  ghost function PartTexts(parts: seq<Value>): seq<string> {
    if parts == [] then []
    else
      (if parts[0].Obj? && |Atoms(parts[0])| == 1 && Atoms(parts[0])[0].Text? then [Atoms(parts[0])[0].text] else []) +
      PartTexts(parts[1..])
  }

  /** A system message whose parts have no text at all. */
  ghost predicate Silent(m: Value) {
    Get(m, "content").Arr? && (SystemTexts(m) == [] || SystemTexts(m) == [""])
  }

  ghost function AllSystemTexts(messages: seq<Value>): seq<string> {
    if messages == [] then []
    else (if Silent(messages[0]) then [] else SystemTexts(messages[0])) + AllSystemTexts(messages[1..])
  }

  lemma {:induction false} PartTextsAre(parts: seq<Value>)
    ensures PartTexts(parts) == TextsOf(parts)
  {
    if parts != [] {
      PartTextIs(parts[0]);
      PartTextsAre(parts[1..]);
    }
  }

  lemma PartTextIs(part: Value)
    ensures (part.Obj? && |Atoms(part)| == 1 && Atoms(part)[0].Text?) <==>
            (Get(part, "type") == Str("text") || Get(part, "type") == Str("input_text")) && Get(part, "text").Str?
    ensures part.Obj? && |Atoms(part)| == 1 && Atoms(part)[0].Text? ==> Get(part, "text") == Str(Atoms(part)[0].text)
  {
  }

  lemma {:induction false} JoinIsEmptyIff(texts: seq<string>)
    ensures JoinWith(texts, "\n") == "" <==> texts == [] || texts == [""]
  {
    if |texts| == 1 {
      assert texts == [texts[0]];
    }
  }

  lemma {:induction false} JoinAppend(a: seq<string>, b: seq<string>)
    requires a != [] && b != []
    ensures JoinWith(a + b, "\n") == JoinWith(a, "\n") + "\n" + JoinWith(b, "\n")
  {
    assert (a + b)[0] == a[0] && (a + b)[1..] == a[1..] + b;
    if |a| == 1 {
      Empty(b);
    } else {
      JoinAppend(a[1..], b);
      var head, rest, last := a[0] + "\n", JoinWith(a[1..], "\n"), JoinWith(b, "\n");
      Reassociate(head, rest + "\n", last);
      Reassociate(head, rest, "\n");
    }
  }

  lemma SystemPartIs(m: Value)
    ensures var texts := if Silent(m) then [] else SystemTexts(m);
            SystemPart(m) == if texts == [] then None else Some(JoinWith(texts, "\n"))
  {
    if Get(m, "content").Arr? {
      PartTextsAre(Get(m, "content").items);
      JoinIsEmptyIff(SystemTexts(m));
    }
  }

  lemma {:induction false} SystemPartsAre(messages: seq<Value>)
    ensures SystemParts(messages) == [] <==> AllSystemTexts(messages) == []
    ensures JoinWith(SystemParts(messages), "\n") == JoinWith(AllSystemTexts(messages), "\n")
  {
    if messages != [] {
      var m, rest := messages[0], messages[1..];
      var here := if Silent(m) then [] else SystemTexts(m);
      SystemPartIs(m);
      SystemPartsAre(rest);
      var parts, texts := SystemParts(rest), AllSystemTexts(rest);
      if here == [] {
        Empty(parts);
        Empty(texts);
      } else {
        OnePartFirst(JoinWith(here, "\n"), here, parts, texts);
      }
    }
  }

  lemma OnePartFirst(part: string, here: seq<string>, parts: seq<string>, texts: seq<string>)
    requires here != [] && part == JoinWith(here, "\n") && (parts == [] <==> texts == [])
    requires JoinWith(parts, "\n") == JoinWith(texts, "\n")
    ensures JoinWith([part] + parts, "\n") == JoinWith(here + texts, "\n")
  {
    if parts == [] {
      Empty([part]);
      Empty(here);
    } else {
      JoinAppend([part], parts);
      JoinAppend(here, texts);
    }
  }

  /** The system prompt is every text of every system message, in order, one per line; without any there is none. */
  lemma SystemPromptSaysAll(messages: seq<Value>)
    ensures SystemPrompt(messages) ==
            if AllSystemTexts(messages) == [] then None else Some(JoinWith(AllSystemTexts(messages), "\n"))
  {
    SystemPartsAre(messages);
  }
}
