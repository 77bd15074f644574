/**
 From the bytes of a provider's response to the message a client puts together:
 chunks cut anywhere, lines, events, text frames, and the frames read again.
 */
module Delivery {
  import opened Common
  import opened Json
  import opened SseLines
  import opened SseTranslator
  import opened EventStream
  import opened StreamRefinement

  // ---------------------------------------------------------------- the client's side

  /** Where the first line end is, or the length when there is none. */
  function LineEnd(s: string): (n: nat)
    ensures n <= |s| && '\n' !in s[..n]
    ensures n < |s| ==> s[n] == '\n'
  {
    if s == "" || s[0] == '\n' then 0 else 1 + LineEnd(s[1..])
  }

  /** The JSON value on one line; the line that ends a stream has none. */
  function DataOn(t: Codec, line: string): seq<Value> {
    var v := if "data: " <= line then t.read(line[6..]) else None;
    if v.Some? then [v.value] else []
  }

  /** The JSON values on the data lines of a text. */
  function DataIn(t: Codec, text: string): seq<Value>
    decreases |text|
  {
    var n := LineEnd(text);
    if n == |text| then [] else DataOn(t, text[..n]) + DataIn(t, text[n + 1..])
  }

  const END_MARK := "data: [DONE]"

  /** What a client reads up to the first end mark, and the text behind it; no text when there is no mark. */
  datatype Reading = Reading(values: seq<Value>, behind: Option<string>)

  /** A client that stops at the end mark. */
  function ReadText(t: Codec, text: string): Reading
    decreases |text|
  {
    var n := LineEnd(text);
    if n == |text| then Reading([], None)
    else if text[..n] == END_MARK then Reading([], Some(text[n + 1..]))
    else
      var more := ReadText(t, text[n + 1..]);
      Reading(DataOn(t, text[..n]) + more.values, more.behind)
  }

  /** JSON is written on one line, and the end mark of a stream is no JSON. */
  ghost predicate OnOneLine(t: Codec) {
    (forall v :: '\n' !in t.write(v)) && t.read("[DONE]") == None
  }

  lemma {:induction false} LineEndIs(line: string, rest: string)
    requires '\n' !in line
    ensures LineEnd(line + "\n" + rest) == |line|
  {
    var s := line + "\n" + rest;
    if line != "" {
      assert s[0] == line[0] && s[1..] == line[1..] + "\n" + rest;
      LineEndIs(line[1..], rest);
    }
  }

  lemma DataOnFirst(t: Codec, line: string, rest: string)
    requires '\n' !in line
    ensures DataIn(t, line + "\n" + rest) == DataOn(t, line) + DataIn(t, rest)
  {
    var s := line + "\n" + rest;
    LineEndIs(line, rest);
    assert s[..|line|] == line && s[|line| + 1..] == rest;
  }

  lemma DataAfterBlank(t: Codec, rest: string)
    ensures DataIn(t, "\n" + rest) == DataIn(t, rest)
  {
    DataOnFirst(t, "", rest);
    assert "" + "\n" + rest == "\n" + rest;
    Empty(DataIn(t, rest));
  }

  /** Reading one frame gives its value back. */
  lemma FrameIsRead(t: Codec, v: Value, rest: string)
    requires RoundTrips(t) && OnOneLine(t)
    ensures DataIn(t, "data: " + t.write(v) + "\n\n" + rest) == [v] + DataIn(t, rest)
  {
    var line := "data: " + t.write(v);
    assert line + "\n\n" + rest == line + "\n" + ("\n" + rest);
    assert line[6..] == t.write(v) && t.read(t.write(v)) == Some(v);
    DataOnFirst(t, line, "\n" + rest);
    DataAfterBlank(t, rest);
  }

  lemma EndMarkIsSkipped(t: Codec, rest: string)
    requires OnOneLine(t)
    ensures DataIn(t, "data: [DONE]\n\n" + rest) == DataIn(t, rest)
  {
    var line := "data: [DONE]";
    assert "data: [DONE]\n\n" + rest == line + "\n" + ("\n" + rest);
    assert line[6..] == "[DONE]";
    DataOnFirst(t, line, "\n" + rest);
    DataAfterBlank(t, rest);
    Empty(DataIn(t, rest));
  }

  lemma EmissionIsRead(t: Codec, e: Emit, rest: string)
    requires RoundTrips(t) && OnOneLine(t)
    ensures DataIn(t, Rendered(t, e) + rest) == [ChunkOf(e)] + DataIn(t, rest)
  {
    var frame, done := "data: " + t.write(ChunkOf(e)) + "\n\n", if e.Final? then "data: [DONE]\n\n" else "";
    Reassociate(frame, done, rest);
    FrameIsRead(t, ChunkOf(e), done + rest);
    if e.Final? {
      EndMarkIsSkipped(t, rest);
    } else {
      Empty(rest);
    }
  }

  /** The client reads the chunks that the translator wrote, and no others. */
  lemma {:induction false} FramesAreRead(t: Codec, s: State, stream: seq<Value>)
    requires RoundTrips(t) && OnOneLine(t)
    ensures DataIn(t, Frames(t, s, stream).1) == Chunks(s, stream)
    decreases |stream|
  {
    if stream != [] {
      var e, rest := EventOf(stream[0]), stream[1..];
      FramesAreRead(t, Next(s, e), rest);
      if Emitted(s, e).Some? {
        EmissionIsRead(t, Emitted(s, e).value, Frames(t, Next(s, e), rest).1);
      } else {
        Empty(Frames(t, Next(s, e), rest).1);
        Empty(Chunks(Next(s, e), rest));
      }
    }
  }

  // ---------------------------------------------------------------- the end mark

  lemma ReadsLine(t: Codec, line: string, rest: string)
    requires '\n' !in line
    ensures ReadText(t, line + "\n" + rest) ==
            if line == END_MARK then Reading([], Some(rest))
            else Reading(DataOn(t, line) + ReadText(t, rest).values, ReadText(t, rest).behind)
  {
    var s := line + "\n" + rest;
    LineEndIs(line, rest);
    assert s[..|line|] == line && s[|line| + 1..] == rest;
  }

  lemma ReadsBlank(t: Codec, rest: string)
    ensures ReadText(t, "\n" + rest) == ReadText(t, rest)
  {
    ReadsLine(t, "", rest);
    assert "" + "\n" + rest == "\n" + rest;
    Empty(ReadText(t, rest).values);
  }

  /** A frame is no end mark. */
  lemma ReadsFrame(t: Codec, v: Value, rest: string)
    requires RoundTrips(t) && OnOneLine(t)
    ensures var more := ReadText(t, rest);
            ReadText(t, "data: " + t.write(v) + "\n\n" + rest) == Reading([v] + more.values, more.behind)
  {
    var line := "data: " + t.write(v);
    assert line + "\n\n" + rest == line + "\n" + ("\n" + rest);
    assert line[6..] == t.write(v) && END_MARK[6..] == "[DONE]" && t.read(t.write(v)) == Some(v);
    ReadsLine(t, line, "\n" + rest);
    ReadsBlank(t, rest);
  }

  lemma ReadsMark(t: Codec, rest: string)
    ensures ReadText(t, "data: [DONE]\n\n" + rest) == Reading([], Some("\n" + rest))
  {
    assert "data: [DONE]\n\n" + rest == END_MARK + "\n" + ("\n" + rest);
    ReadsLine(t, END_MARK, "\n" + rest);
  }

  /** Only a final emission is read with an end mark behind it. */
  lemma ReadsEmissionText(t: Codec, e: Emit, rest: string)
    requires RoundTrips(t) && OnOneLine(t)
    ensures var more := ReadText(t, rest);
            ReadText(t, Rendered(t, e) + rest) ==
            if e.Final? then Reading([ChunkOf(e)], Some("\n" + rest)) else Reading([ChunkOf(e)] + more.values, more.behind)
  {
    var frame, done := "data: " + t.write(ChunkOf(e)) + "\n\n", if e.Final? then "data: [DONE]\n\n" else "";
    Reassociate(frame, done, rest);
    ReadsFrame(t, ChunkOf(e), done + rest);
    if e.Final? {
      ReadsMark(t, rest);
      Empty([ChunkOf(e)]);
    } else {
      Empty(rest);
    }
  }

  lemma {:induction false} MeaninglessIsSilent(t: Codec, s: State, stream: seq<Value>)
    requires Meaningful(stream) == []
    ensures Frames(t, s, stream).1 == "" && Chunks(s, stream) == []
    decreases |stream|
  {
    if stream != [] {
      assert EventOf(stream[0]).Nothing?;
      MeaninglessIsSilent(t, s, stream[1..]);
    }
  }

  /** What does not close the stream is read in front of the rest. */
  lemma ReadsInFront(t: Codec, here: Option<Emit>, text: string, chunks: seq<Value>)
    requires RoundTrips(t) && OnOneLine(t) && (here.Some? ==> !here.value.Final?)
    requires ReadText(t, text) == Reading(chunks, Some("\n"))
    ensures ReadText(t, (if here.Some? then Rendered(t, here.value) else "") + text) ==
            Reading((if here.Some? then [ChunkOf(here.value)] else []) + chunks, Some("\n"))
  {
    if here.Some? {
      ReadsEmissionText(t, here.value, text);
    } else {
      Empty(text);
      Empty(chunks);
    }
  }

  lemma FramesFirst(t: Codec, s: State, stream: seq<Value>)
    requires stream != []
    ensures var e, rest := EventOf(stream[0]), stream[1..];
            var here := Emitted(s, e);
            Frames(t, s, stream).1 == (if here.Some? then Rendered(t, here.value) else "") + Frames(t, Next(s, e), rest).1 &&
            Chunks(s, stream) == (if here.Some? then [ChunkOf(here.value)] else []) + Chunks(Next(s, e), rest)
  {
  }

  lemma OnlyClosingIsFinal(s: State, e: Event)
    ensures Emitted(s, e).Some? && Emitted(s, e).value.Final? ==> e.MessageDelta?
  {
  }

  lemma ReadsClosing(t: Codec, s: State, stream: seq<Value>)
    requires RoundTrips(t) && OnOneLine(t) && stream != [] && EventOf(stream[0]).MessageDelta?
    requires Meaningful(stream[1..]) == []
    ensures ReadText(t, Frames(t, s, stream).1) == Reading(Chunks(s, stream), Some("\n"))
  {
    var e := EventOf(stream[0]);
    MeaninglessIsSilent(t, Next(s, e), stream[1..]);
    ReadsEmissionText(t, Emitted(s, e).value, "");
    Empty([ChunkOf(Emitted(s, e).value)]);
    Empty("\n");
  }

  /** Until its closing event a stream has no end mark, and with it one, and nothing follows. */
  lemma {:induction false} MarkEndsStream(t: Codec, s: State, stream: seq<Value>, body: seq<Event>, closing: Event)
    requires RoundTrips(t) && OnOneLine(t)
    requires Meaningful(stream) == body + [closing] && closing.MessageDelta? && forall e <- body :: !e.MessageDelta?
    ensures ReadText(t, Frames(t, s, stream).1) == Reading(Chunks(s, stream), Some("\n"))
    decreases |stream|
  {
    NextMeaning(stream, body, closing);
    var e := EventOf(stream[0]);
    if e.MessageDelta? {
      ReadsClosing(t, s, stream);
    } else {
      MarkEndsStream(t, Next(s, e), stream[1..], if e.Nothing? then body else body[1..], closing);
      FramesFirst(t, s, stream);
      OnlyClosingIsFinal(s, e);
      ReadsInFront(t, Emitted(s, e), Frames(t, Next(s, e), stream[1..]).1, Chunks(Next(s, e), stream[1..]));
    }
  }

  /** The first event of a stream with a meaning still to come. */
  lemma NextMeaning(stream: seq<Value>, body: seq<Event>, closing: Event)
    requires Meaningful(stream) == body + [closing] && closing.MessageDelta? && forall e <- body :: !e.MessageDelta?
    ensures stream != []
    ensures var e := EventOf(stream[0]);
            if e.MessageDelta? then Meaningful(stream[1..]) == []
            else if e.Nothing? then Meaningful(stream[1..]) == body + [closing]
            else body != [] && body[0] == e && Meaningful(stream[1..]) == body[1..] + [closing]
  {
    var e, rest := EventOf(stream[0]), Meaningful(stream[1..]);
    if e.Nothing? {
      Empty(rest);
    } else {
      First(e, rest);
      assert (body + [closing])[1..] == if body == [] then [] else body[1..] + [closing];
      assert body != [] ==> body[0] in body;
    }
  }

  /** The events of a message but the last are no closing events. */
  lemma {:induction false} BodyDoesNotClose(parts: seq<Part>)
    ensures forall e <- BodyEvents(parts) :: !e.MessageDelta?
  {
    if parts != [] {
      BodyDoesNotClose(parts[1..]);
      PartDoesNotClose(parts[0]);
    }
  }

  lemma PartDoesNotClose(p: Part)
    ensures forall e <- PartEvents(p) :: !e.MessageDelta?
  {
    match p {
      case TextPart(fragments) => WordsDoNotClose(fragments);
      case ToolPart(index, _, _, fragments, _) => ArgumentsDoNotClose(index, fragments);
      case OtherPart(index, _, fragments) => ArgumentsDoNotClose(index, fragments);
    }
  }

  lemma {:induction false} WordsDoNotClose(fragments: seq<string>)
    ensures forall e <- WordEvents(fragments) :: !e.MessageDelta?
  {
    if fragments != [] {
      WordsDoNotClose(fragments[1..]);
    }
  }

  lemma {:induction false} ArgumentsDoNotClose(index: nat, fragments: seq<string>)
    ensures forall e <- ArgumentEvents(index, fragments) :: !e.MessageDelta?
  {
    if fragments != [] {
      ArgumentsDoNotClose(index, fragments[1..]);
    }
  }

  /** The text of a message's stream ends with its one end mark. */
  lemma MessageEndsWithMark(t: Codec, m: Message, s: State, stream: seq<Value>)
    requires RoundTrips(t) && OnOneLine(t) && Meaningful(stream) == EventsOf(m)
    ensures ReadText(t, Frames(t, s, stream).1) == Reading(Chunks(s, stream), Some("\n"))
  {
    var body := [MessageStart(m.opening)] + BodyEvents(m.parts);
    BodyDoesNotClose(m.parts);
    MarkEndsStream(t, s, stream, body, MessageDelta(m.closing, m.stopReason));
  }

  // ---------------------------------------------------------------- from bytes to the message

  /** The JSON events in the bytes of a response body. */
  function EventsIn(t: Codec, d: Decoder, body: Bytes): seq<Value> {
    Payloads(t, d, Lines(body))
  }

  /** All the text the client receives for the chunks of a body. */
  function TextOut(t: Codec, d: Decoder, chunks: seq<Bytes>): string {
    Received(t, d, INITIAL, [], chunks).1
  }

  lemma TextIsFrames(t: Codec, d: Decoder, chunks: seq<Bytes>)
    ensures TextOut(t, d, chunks) == Frames(t, INITIAL, EventsIn(t, d, Concat(chunks))).1
  {
    var body := Concat(chunks);
    ReceivedIsWhole(t, d, INITIAL, [], chunks);
    Empty(body);
    OutputIsFrames(t, d, INITIAL, Lines(body));
  }

  /** What a client that stops at the end mark puts together. */
  function ClientOf(t: Codec, d: Decoder, chunks: seq<Bytes>): Client {
    ReadAll(IDLE, ReadText(t, TextOut(t, d, chunks)).values)
  }

  /**
   A body that streams a well-formed message, cut into chunks anywhere: the client
   sees one end mark, with nothing but its blank line behind it, and what it read
   up to there is a refinement of the one-piece result.
   */
  lemma BytesRefineCompletion(t: Codec, d: Decoder, m: Message, chunks: seq<Bytes>)
    requires RoundTrips(t) && OnOneLine(t) && WellFormed(m)
    requires Meaningful(EventsIn(t, d, Concat(chunks))) == EventsOf(m)
    ensures ReadText(t, TextOut(t, d, chunks)).behind == Some("\n")
    ensures ClientOf(t, d, chunks) == Assembled(m) && Refines(t, m, ClientOf(t, d, chunks))
  {
    var stream := EventsIn(t, d, Concat(chunks));
    TextIsFrames(t, d, chunks);
    MessageEndsWithMark(t, m, INITIAL, stream);
    StreamArrives(m, stream);
    StreamingRefinesCompletion(t, m, stream);
  }
}
