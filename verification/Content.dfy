/**
 Translation of content parts: OpenAI-only parts become native blocks, at any
 depth of tool results, and everything else stays as it is.
 */
module Content {
  import opened Common
  import opened Json

  // ---------------------------------------------------------------- text helpers

  function StripPrefix(s: string, prefix: string): (r: Option<string>)
    ensures r.Some? <==> prefix <= s
    ensures r.Some? ==> s == prefix + r.value
  {
    if prefix <= s then Some(s[|prefix|..]) else None
  }

  function StripSuffix(s: string, suffix: string): (r: Option<string>)
    ensures r.Some? ==> s == r.value + suffix
  {
    if |suffix| <= |s| && s[|s| - |suffix|..] == suffix then Some(s[..|s| - |suffix|]) else None
  }

  /** The parts before and after the first comma. */
  function SplitAtComma(s: string): (r: Option<(string, string)>)
    ensures r.Some? ==> ',' !in r.value.0 && s == r.value.0 + [','] + r.value.1
    ensures r.None? <==> ',' !in s
  {
    if s == "" then None
    else if s[0] == ',' then Some(("", s[1..]))
    else
      match SplitAtComma(s[1..])
      case None => None
      case Some((head, tail)) => Some(([s[0]] + head, tail))
  }

  lemma {:induction false} SplitsAtFirstComma(head: string, tail: string)
    requires ',' !in head
    ensures SplitAtComma(head + [','] + tail) == Some((head, tail))
  {
    var s := head + [','] + tail;
    if head != "" {
      assert s[1..] == head[1..] + [','] + tail;
      SplitsAtFirstComma(head[1..], tail);
      assert [s[0]] + head[1..] == head;
    }
  }

  // ---------------------------------------------------------------- translation

  function TypeOf(part: Value): Option<string> {
    AsStr(Get(part, "type"))
  }

  function TextBlock(text: string): Value {
    Obj(map["type" := Str("text"), "text" := Str(text)])
  }

  function ImageBlock(source: Value): Value {
    Obj(map["type" := Str("image"), "source" := source])
  }

  function UrlSource(url: string): Value {
    Obj(map["type" := Str("url"), "url" := Str(url)])
  }

  function Base64Source(mediaType: string, data: string): Value {
    Obj(map["type" := Str("base64"), "media_type" := Str(mediaType), "data" := Str(data)])
  }

  /** The URL of an image part: nested under `url`, or the flat string. */
  function ImageUrl(part: Value): Option<string> {
    var image := Get(part, "image_url");
    if AsStr(Get(image, "url")).Some? then AsStr(Get(image, "url")) else AsStr(image)
  }

  /** Media type and data of a base64 data URL's remainder after `data:`. */
  function DataOf(rest: string): Option<(string, string)> {
    match SplitAtComma(rest)
    case None => None
    case Some((meta, data)) =>
      match StripSuffix(meta, ";base64")
      case None => None
      case Some(mediaType) => Some((mediaType, data))
  }

  function TranslateImagePart(part: Value): Value {
    match ImageUrl(part)
    case None => part
    case Some(url) =>
      match StripPrefix(url, "data:")
      case None => ImageBlock(UrlSource(url))
      case Some(rest) =>
        match DataOf(rest)
        case Some((mediaType, data)) => ImageBlock(Base64Source(mediaType, data))
        case None => part
  }

  function TranslateBlock(part: Value): Value {
    match TypeOf(part)
    case None => part
    case Some(kind) =>
      if kind == "image_url" || kind == "input_image" then TranslateImagePart(part)
      else if kind == "input_text" then
        match AsStr(Get(part, "text"))
        case Some(text) => TextBlock(text)
        case None => part
      else if kind == "tool_result" && Get(part, "content").Arr? then
        With(part, "content", Arr(TranslateBlocks(Get(part, "content").items)))
      else part
  }

  function TranslateBlocks(parts: seq<Value>): (blocks: seq<Value>)
    ensures |blocks| == |parts|
    ensures forall i :: 0 <= i < |parts| ==> blocks[i] == TranslateBlock(parts[i])
  {
    if parts == [] then [] else [TranslateBlock(parts[0])] + TranslateBlocks(parts[1..])
  }

  // ---------------------------------------------------------------- idempotent, and exact on native trees

  /** A part without nested content that changes becomes a text or an image block. */
  lemma ChangedParts(part: Value)
    requires !(TypeOf(part) == Some("tool_result") && Get(part, "content").Arr?)
    ensures TranslateBlock(part) == part || TypeOf(TranslateBlock(part)) in {Some("text"), Some("image")}
  {
  }

  lemma TranslateNested(part: Value)
    requires TypeOf(part) == Some("tool_result") && Get(part, "content").Arr?
    ensures TranslateBlock(part) == With(part, "content", Arr(TranslateBlocks(Get(part, "content").items)))
    ensures TypeOf(TranslateBlock(part)) == Some("tool_result")
    ensures Get(TranslateBlock(part), "content") == Arr(TranslateBlocks(Get(part, "content").items))
  {
  }

  lemma WithTwice(part: Value, v: Value)
    requires part.Obj?
    ensures With(With(part, "content", v), "content", v) == With(part, "content", v)
  {
    assert part.fields["content" := v]["content" := v] == part.fields["content" := v];
  }

  lemma {:induction false} TranslationIsIdempotent(part: Value)
    ensures TranslateBlock(TranslateBlock(part)) == TranslateBlock(part)
  {
    if TypeOf(part) == Some("tool_result") && Get(part, "content").Arr? {
      var items := Get(part, "content").items;
      TranslationsAreIdempotent(items);
      TranslateNested(part);
      TranslateNested(TranslateBlock(part));
      WithTwice(part, Arr(TranslateBlocks(items)));
    } else {
      ChangedParts(part);
    }
  }

  lemma {:induction false} TranslationsAreIdempotent(parts: seq<Value>)
    ensures TranslateBlocks(TranslateBlocks(parts)) == TranslateBlocks(parts)
  {
    if parts != [] {
      TranslationIsIdempotent(parts[0]);
      TranslationsAreIdempotent(parts[1..]);
    }
  }

  predicate IsImagePart(part: Value) {
    TypeOf(part) == Some("image_url") || TypeOf(part) == Some("input_image")
  }

  /** A base64 data URL as section 3 of RFC 2397 writes it, with its media type and data. */
  predicate IsDataUrl(url: string, mediaType: string, data: string) {
    ',' !in mediaType && url == "data:" + mediaType + ";base64," + data
  }

  /** The parts that have a native form: text parts, and images with a plain or a base64 data URL. */
  ghost predicate OpenAiOnly(part: Value) {
    || (TypeOf(part) == Some("input_text") && Get(part, "text").Str?)
    || (IsImagePart(part) && ImageUrl(part).Some? &&
        ("data:" <= ImageUrl(part).value ==> exists m, d :: IsDataUrl(ImageUrl(part).value, m, d)))
  }

  /** No part with a native form, here or in a tool result at any depth. */
  ghost predicate Native(part: Value) {
    !OpenAiOnly(part) &&
    (TypeOf(part) == Some("tool_result") && Get(part, "content").Arr? ==>
       forall x <- Get(part, "content").items :: Native(x))
  }

  lemma DataUrlIsSplit(url: string, mediaType: string, data: string)
    requires IsDataUrl(url, mediaType, data)
    ensures "data:" <= url && DataOf(url[5..]) == Some((mediaType, data))
  {
    var meta := mediaType + ";base64";
    assert url[5..] == meta + [','] + data;
    SplitsAtFirstComma(meta, data);
    assert StripSuffix(meta, ";base64").value + ";base64" == meta;
    assert mediaType == meta[..|mediaType|];
  }

  lemma SplitIsDataUrl(url: string, mediaType: string, data: string)
    requires "data:" <= url && DataOf(url[5..]) == Some((mediaType, data))
    ensures IsDataUrl(url, mediaType, data)
  {
    var (meta, tail) := SplitAtComma(url[5..]).value;
    assert url == "data:" + url[5..] && meta == mediaType + ";base64";
    assert mediaType + ";base64" + [','] + data == mediaType + ";base64," + data;
    assert forall i :: 0 <= i < |mediaType| ==> mediaType[i] == meta[i];
    assert "data:" + (mediaType + ";base64," + data) == "data:" + mediaType + ";base64," + data;
  }

  lemma DataOfDataUrl(url: string, mediaType: string, data: string)
    ensures IsDataUrl(url, mediaType, data) <==> "data:" <= url && DataOf(url[5..]) == Some((mediaType, data))
  {
    if IsDataUrl(url, mediaType, data) {
      DataUrlIsSplit(url, mediaType, data);
    }
    if "data:" <= url && DataOf(url[5..]) == Some((mediaType, data)) {
      SplitIsDataUrl(url, mediaType, data);
    }
  }

  lemma SourceOfBase64(mediaType: string, data: string)
    ensures var source := Base64Source(mediaType, data);
            Get(ImageBlock(source), "source") == source && TypeOf(ImageBlock(source)) == Some("image") &&
            TypeOf(source) == Some("base64") &&
            Get(source, "media_type") == Str(mediaType) && Get(source, "data") == Str(data)
  {
  }

  lemma SourceOfUrl(url: string)
    ensures Get(ImageBlock(UrlSource(url)), "source") == UrlSource(url) && TypeOf(UrlSource(url)) == Some("url")
  {
  }

  /** An image part becomes a base64 block with exactly the media type and data of its data URL, and only then. */
  lemma DataUrlIsRecovered(part: Value, mediaType: string, data: string)
    requires IsImagePart(part)
    ensures TranslateBlock(part) == ImageBlock(Base64Source(mediaType, data)) <==>
            ImageUrl(part).Some? && IsDataUrl(ImageUrl(part).value, mediaType, data)
  {
    SourceOfBase64(mediaType, data);
    if ImageUrl(part).Some? {
      var url := ImageUrl(part).value;
      DataOfDataUrl(url, mediaType, data);
      SourceOfUrl(url);
      if "data:" <= url && DataOf(url[5..]).Some? {
        SourceOfBase64(DataOf(url[5..]).value.0, DataOf(url[5..]).value.1);
      }
    }
  }

  /** Translation leaves a part alone exactly when its tree has nothing to translate. */
  lemma {:induction false} IdentityIffNative(part: Value)
    ensures TranslateBlock(part) == part <==> Native(part)
  {
    if IsImagePart(part) {
      assert TranslateBlock(part) == part || TypeOf(TranslateBlock(part)) == Some("image");
      if ImageUrl(part).Some? && "data:" <= ImageUrl(part).value {
        var url := ImageUrl(part).value;
        forall m, d ensures IsDataUrl(url, m, d) <==> DataOf(url[5..]) == Some((m, d)) {
          DataOfDataUrl(url, m, d);
        }
        if DataOf(url[5..]).Some? {
          var (m, d) := DataOf(url[5..]).value;
          assert IsDataUrl(url, m, d);
        }
      }
    } else if TypeOf(part) == Some("input_text") && Get(part, "text").Str? {
      assert TypeOf(TranslateBlock(part)) == Some("text");
    } else if TypeOf(part) == Some("tool_result") && Get(part, "content").Arr? {
      var items := Get(part, "content").items;
      IdentitiesIffNative(items);
      assert Get(TranslateBlock(part), "content") == Arr(TranslateBlocks(items));
      if TranslateBlocks(items) == items {
        assert part.fields["content" := Arr(items)] == part.fields;
      }
    }
  }

  lemma {:induction false} IdentitiesIffNative(parts: seq<Value>)
    ensures TranslateBlocks(parts) == parts <==> forall x <- parts :: Native(x)
  {
    if parts != [] {
      IdentityIffNative(parts[0]);
      IdentitiesIffNative(parts[1..]);
      assert parts == [parts[0]] + parts[1..];
    }
  }

  /** Translated content has nothing left to translate. */
  lemma TranslatedIsNative(part: Value)
    ensures Native(TranslateBlock(part))
  {
    TranslationIsIdempotent(part);
    IdentityIffNative(TranslateBlock(part));
  }

  // ---------------------------------------------------------------- images by URL

  predicate IsUrlImage(block: Value) {
    Get(block, "type") == Str("image") && Get(Get(block, "source"), "type") == Str("url")
  }

  function UrlOf(block: Value): string {
    var url := AsStr(Get(Get(block, "source"), "url"));
    if url.Some? then url.value else ""
  }

  function FindInBlocks(blocks: seq<Value>): Option<string> {
    if blocks == [] then None
    else
      var here := FindInBlock(blocks[0]);
      if here.Some? then here else FindInBlocks(blocks[1..])
  }

  function FindInBlock(block: Value): Option<string> {
    if IsUrlImage(block) then Some(UrlOf(block))
    else if Get(block, "content").Arr? then FindInBlocks(Get(block, "content").items)
    else None
  }

  function FindUrlImageSource(messages: seq<Value>): Option<string> {
    if messages == [] then None
    else
      var content := Get(messages[0], "content");
      var here := if content.Arr? then FindInBlocks(content.items) else None;
      if here.Some? then here else FindUrlImageSource(messages[1..])
  }

  /** Every block of a forest, each before the blocks nested in it. */
  function Preorder(blocks: seq<Value>): seq<Value> {
    if blocks == [] then [] else PreorderOf(blocks[0]) + Preorder(blocks[1..])
  }

  function PreorderOf(block: Value): seq<Value> {
    [block] + (if Get(block, "content").Arr? then Preorder(Get(block, "content").items) else [])
  }

  function PreorderOfMessages(messages: seq<Value>): seq<Value> {
    if messages == [] then []
    else
      (if Get(messages[0], "content").Arr? then Preorder(Get(messages[0], "content").items) else []) +
      PreorderOfMessages(messages[1..])
  }

  /** The URL in the source of an image; the empty text when there is none. */
  predicate HasUrl(block: Value, url: string) {
    var here := Get(Get(block, "source"), "url");
    here == Str(url) || (!here.Str? && url == "")
  }

  /** `found` is the URL of the first URL-sourced image among `nodes`, or none has one. */
  ghost predicate IsFirstUrl(nodes: seq<Value>, found: Option<string>) {
    match found
    case None => forall x <- nodes :: !IsUrlImage(x)
    case Some(url) =>
      exists i :: 0 <= i < |nodes| && IsUrlImage(nodes[i]) && HasUrl(nodes[i], url) &&
                  forall j :: 0 <= j < i ==> !IsUrlImage(nodes[j])
  }

  lemma FirstUrlOfAppend(a: seq<Value>, b: seq<Value>, inA: Option<string>, inB: Option<string>)
    requires IsFirstUrl(a, inA) && IsFirstUrl(b, inB)
    ensures IsFirstUrl(a + b, if inA.Some? then inA else inB)
  {
    var all := a + b;
    if inA.Some? {
      var i :| 0 <= i < |a| && IsUrlImage(a[i]) && HasUrl(a[i], inA.value) && forall j :: 0 <= j < i ==> !IsUrlImage(a[j]);
      assert all[i] == a[i] && forall j :: 0 <= j < i ==> all[j] == a[j];
    } else if inB.Some? {
      var i :| 0 <= i < |b| && IsUrlImage(b[i]) && HasUrl(b[i], inB.value) && forall j :: 0 <= j < i ==> !IsUrlImage(b[j]);
      assert all[|a| + i] == b[i];
      assert forall j :: 0 <= j < |a| + i ==> all[j] == if j < |a| then a[j] else b[j - |a|];
      assert forall j :: 0 <= j < |a| ==> a[j] in a;
    }
  }

  lemma {:induction false} FindsFirstInBlocks(blocks: seq<Value>)
    ensures IsFirstUrl(Preorder(blocks), FindInBlocks(blocks))
  {
    if blocks != [] {
      FindsFirstInBlock(blocks[0]);
      FindsFirstInBlocks(blocks[1..]);
      FirstUrlOfAppend(PreorderOf(blocks[0]), Preorder(blocks[1..]), FindInBlock(blocks[0]), FindInBlocks(blocks[1..]));
    }
  }

  lemma {:induction false} FindsFirstInBlock(block: Value)
    ensures IsFirstUrl(PreorderOf(block), FindInBlock(block))
  {
    var nested := if Get(block, "content").Arr? then Get(block, "content").items else [];
    if Get(block, "content").Arr? {
      FindsFirstInBlocks(Get(block, "content").items);
    }
    var here := if IsUrlImage(block) then Some(UrlOf(block)) else None;
    assert [block][0] == block;
    FirstUrlOfAppend([block], Preorder(nested), here, FindInBlocks(nested));
  }

  /** The scan returns the first URL-sourced image in preorder, and none exactly when there is none. */
  lemma {:induction false} FindsFirstUrlImage(messages: seq<Value>)
    ensures IsFirstUrl(PreorderOfMessages(messages), FindUrlImageSource(messages))
  {
    if messages != [] {
      var content := Get(messages[0], "content");
      var blocks := if content.Arr? then content.items else [];
      FindsFirstInBlocks(blocks);
      FindsFirstUrlImage(messages[1..]);
      FirstUrlOfAppend(Preorder(blocks), PreorderOfMessages(messages[1..]),
                       FindInBlocks(blocks), FindUrlImageSource(messages[1..]));
    }
  }
}
