/**
 The translated body of a streaming response: chunks to lines, lines to events,
 events to OpenAI frames.
 */
module EventStream {
  import opened Common
  import opened Json
  import opened SseLines
  import opened SseTranslator

  /** How the bytes of one line are read as text. */
  type Decoder = Bytes -> string

  /** State and output after translating the lines in order. */
  function LinesOutput(t: Codec, d: Decoder, s: State, lines: seq<Bytes>): (State, string)
    decreases |lines|
  {
    if lines == [] then (s, "")
    else
      var line := d(lines[0]);
      var here := LineOutput(t, s, line);
      var (s', rest) := LinesOutput(t, d, Next(s, LineEvent(t, line)), lines[1..]);
      (s', (if here.Some? then here.value else "") + rest)
  }

  lemma {:induction false} LinesOutputAppend(t: Codec, d: Decoder, s: State, a: seq<Bytes>, b: seq<Bytes>)
    ensures var (s1, out1) := LinesOutput(t, d, s, a);
            var (s2, out2) := LinesOutput(t, d, s1, b);
            LinesOutput(t, d, s, a + b) == (s2, out1 + out2)
    decreases |a|
  {
    if a == [] {
      assert a + b == b && "" + LinesOutput(t, d, s, b).1 == LinesOutput(t, d, s, b).1;
    } else {
      var line := d(a[0]);
      var s', here := Next(s, LineEvent(t, line)), LineOutput(t, s, line);
      assert (a + b)[0] == a[0] && (a + b)[1..] == a[1..] + b;
      LinesOutputAppend(t, d, s', a[1..], b);
      Reassociate(if here.Some? then here.value else "", LinesOutput(t, d, s', a[1..]).1,
                  LinesOutput(t, d, LinesOutput(t, d, s', a[1..]).0, b).1);
    }
  }

  /** What the next line adds. */
  lemma OneMoreLine(t: Codec, d: Decoder, s: State, lines: seq<Bytes>, i: nat)
    requires i < |lines|
    ensures var (s', out) := LinesOutput(t, d, s, lines[..i]);
            var here := LineOutput(t, s', d(lines[i]));
            LinesOutput(t, d, s, lines[..i + 1]) ==
            (Next(s', LineEvent(t, d(lines[i]))), if here.Some? then out + here.value else out)
  {
    var (s', out) := LinesOutput(t, d, s, lines[..i]);
    assert lines[..i + 1] == lines[..i] + [lines[i]];
    LinesOutputAppend(t, d, s, lines[..i], [lines[i]]);
    OneLine(t, d, s', lines[i]);
    assert out + "" == out;
  }

  lemma OneLine(t: Codec, d: Decoder, s: State, line: Bytes)
    ensures var here := LineOutput(t, s, d(line));
            LinesOutput(t, d, s, [line]) ==
            (Next(s, LineEvent(t, d(line))), if here.Some? then here.value else "")
  {
    assert [line][1..] == [];
    var here := if LineOutput(t, s, d(line)).Some? then LineOutput(t, s, d(line)).value else "";
    assert here + "" == here;
  }

  /** One streaming response: its translator and the bytes of the unfinished line. */
  class ResponseStream {
    const codec: Codec
    const decoder: Decoder
    const translator: AnthropicSseTranslator
    const buffer: SseLineBuffer

    constructor (codec: Codec, decoder: Decoder)
      ensures this.codec == codec && this.decoder == decoder
      ensures fresh(translator) && fresh(buffer) && translator.codec == codec
      ensures translator.Current() == INITIAL && buffer.pending == []
    {
      this.codec := codec;
      this.decoder := decoder;
      translator := new AnthropicSseTranslator(codec);
      buffer := new SseLineBuffer();
    }

    /** The output for one body chunk. */
    method OnChunk(chunk: Bytes) returns (output: string)
      requires translator.codec == codec && LF !in buffer.pending
      modifies translator, buffer
      ensures LF !in buffer.pending
      ensures buffer.pending == Tail(old(buffer.pending) + chunk)
      ensures (translator.Current(), output) ==
              LinesOutput(codec, decoder, old(translator.Current()), Lines(old(buffer.pending) + chunk))
    {
      ghost var start := translator.Current();
      var lines := buffer.Push(chunk);
      output := "";
      for i := 0 to |lines|
        invariant translator.codec == codec
        invariant buffer.pending == Tail(old(buffer.pending) + chunk)
        invariant (translator.Current(), output) == LinesOutput(codec, decoder, start, lines[..i])
      {
        OneMoreLine(codec, decoder, start, lines, i);
        var translated := translator.TranslateLine(decoder(lines[i]));
        if translated.Some? {
          output := output + translated.value;
        }
      }
      assert lines[..|lines|] == lines;
    }
  }

  // ---------------------------------------------------------------- the whole stream

  /** What the client receives for the chunks, and the translator's state after them. */
  function Received(t: Codec, d: Decoder, s: State, pending: Bytes, chunks: seq<Bytes>): (State, string)
    decreases |chunks|
  {
    if chunks == [] then (s, "")
    else
      var (s1, here) := LinesOutput(t, d, s, Lines(pending + chunks[0]));
      var (s2, rest) := Received(t, d, s1, Tail(pending + chunks[0]), chunks[1..]);
      (s2, here + rest)
  }

  lemma {:induction false} ReceivedIsWhole(t: Codec, d: Decoder, s: State, pending: Bytes, chunks: seq<Bytes>)
    requires LF !in pending
    ensures Received(t, d, s, pending, chunks) == LinesOutput(t, d, s, Lines(pending + Concat(chunks)))
    decreases |chunks|
  {
    if chunks == [] {
      assert pending + [] == pending;
      NoLine(pending);
    } else {
      var all, rest := pending + chunks[0], Concat(chunks[1..]);
      var s1 := LinesOutput(t, d, s, Lines(all)).0;
      Reassociate(pending, chunks[0], rest);
      ReceivedIsWhole(t, d, s1, Tail(all), chunks[1..]);
      CutAnywhere(all, rest);
      StrippedAppend(RawLines(all), RawLines(Tail(all) + rest));
      LinesOutputAppend(t, d, s, Lines(all), Lines(Tail(all) + rest));
    }
  }

  /** The translated stream is the same however the body is cut into chunks. */
  lemma TranslationIgnoresChunks(t: Codec, d: Decoder, a: seq<Bytes>, b: seq<Bytes>)
    requires Concat(a) == Concat(b)
    ensures Received(t, d, INITIAL, [], a) == Received(t, d, INITIAL, [], b)
  {
    ReceivedIsWhole(t, d, INITIAL, [], a);
    ReceivedIsWhole(t, d, INITIAL, [], b);
  }

  // ---------------------------------------------------------------- frames

  /** The JSON events on the data lines. */
  function Payloads(t: Codec, d: Decoder, lines: seq<Bytes>): seq<Value>
    decreases |lines|
  {
    if lines == [] then []
    else
      var line := d(lines[0]);
      var v := if "data: " <= line then t.read(line[6..]) else None;
      (if v.Some? then [v.value] else []) + Payloads(t, d, lines[1..])
  }

  /** The frames of the emissions of a stream of JSON events. */
  function Frames(t: Codec, s: State, stream: seq<Value>): (State, string)
    decreases |stream|
  {
    if stream == [] then (s, "")
    else
      var e := EventOf(stream[0]);
      var here := Emitted(s, e);
      var (s', rest) := Frames(t, Next(s, e), stream[1..]);
      (s', (if here.Some? then Rendered(t, here.value) else "") + rest)
  }

  /** The output is one frame for each emission of the events on the data lines; other lines add nothing. */
  lemma {:induction false} OutputIsFrames(t: Codec, d: Decoder, s: State, lines: seq<Bytes>)
    ensures LinesOutput(t, d, s, lines) == Frames(t, s, Payloads(t, d, lines))
    decreases |lines|
  {
    if lines != [] {
      var line, rest := d(lines[0]), lines[1..];
      var v := if "data: " <= line then t.read(line[6..]) else None;
      OutputIsFrames(t, d, Next(s, LineEvent(t, line)), rest);
      var more := Payloads(t, d, rest);
      if v.Some? {
        assert ([v.value] + more)[0] == v.value && ([v.value] + more)[1..] == more;
      } else {
        assert [] + more == more;
        assert "" + LinesOutput(t, d, s, rest).1 == LinesOutput(t, d, s, rest).1;
      }
    }
  }
}
