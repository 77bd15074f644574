/**
 Reassembly of SSE lines from body chunks that may be cut anywhere, also inside
 a line or a multi-byte character.
 */
module SseLines {
  import opened Common

  newtype Byte = b: int | 0 <= b < 256

  type Bytes = seq<Byte>

  const LF: Byte := 10
  const CR: Byte := 13

  // ---------------------------------------------------------------- lines of a byte string

  function StripCr(line: Bytes): (r: Bytes)
    ensures line == r || line == r + [CR]
  {
    if line != [] && line[|line| - 1] == CR then line[..|line| - 1] else line
  }

  /** Where the first line feed is, or the length when there is none. */
  function FirstLf(s: Bytes): (n: nat)
    ensures n <= |s| && LF !in s[..n]
    ensures n < |s| ==> s[n] == LF
  {
    if s == [] || s[0] == LF then 0 else 1 + FirstLf(s[1..])
  }

  /** The terminated lines of `s`, as they stand before their line feeds. */
  function RawLines(s: Bytes): seq<Bytes>
    decreases |s|
  {
    var n := FirstLf(s);
    if n == |s| then [] else [s[..n]] + RawLines(s[n + 1..])
  }

  /** What follows the last line feed. */
  function Tail(s: Bytes): (tail: Bytes)
    ensures LF !in tail && |tail| <= |s|
    decreases |s|
  {
    var n := FirstLf(s);
    if n == |s| then s else Tail(s[n + 1..])
  }

  function Stripped(raw: seq<Bytes>): (lines: seq<Bytes>)
    ensures |lines| == |raw|
    ensures forall i :: 0 <= i < |raw| ==> lines[i] == StripCr(raw[i])
  {
    if raw == [] then [] else [StripCr(raw[0])] + Stripped(raw[1..])
  }

  function Lines(s: Bytes): seq<Bytes> {
    Stripped(RawLines(s))
  }

  function Concat(chunks: seq<Bytes>): Bytes {
    if chunks == [] then [] else chunks[0] + Concat(chunks[1..])
  }

  // ---------------------------------------------------------------- cutting byte strings

  lemma {:induction false} FirstLfIs(s: Bytes, n: nat)
    requires n <= |s| && LF !in s[..n] && (n < |s| ==> s[n] == LF)
    ensures FirstLf(s) == n
  {
    if n > 0 {
      assert s[0] == s[..n][0] && s[1..][..n - 1] == s[..n][1..];
      FirstLfIs(s[1..], n - 1);
    }
  }

  /** The first line and the rest. */
  lemma NextLine(s: Bytes, n: nat)
    requires n < |s| && LF !in s[..n] && s[n] == LF
    ensures RawLines(s) == [s[..n]] + RawLines(s[n + 1..]) && Tail(s) == Tail(s[n + 1..])
    ensures Lines(s) == [StripCr(s[..n])] + Lines(s[n + 1..])
  {
    FirstLfIs(s, n);
    var raw, rest := RawLines(s), RawLines(s[n + 1..]);
    assert raw[0] == s[..n] && raw[1..] == rest;
  }

  lemma NoLine(s: Bytes)
    requires LF !in s
    ensures RawLines(s) == [] && Tail(s) == s
  {
    assert s[..|s|] == s;
    FirstLfIs(s, |s|);
  }

  lemma Around(s: Bytes, n: nat)
    requires n < |s|
    ensures s == s[..n] + [s[n]] + s[n + 1..]
  {
  }

  /** Reading `a` and then `b` is reading the tail of `a` followed by `b`. */
  lemma {:induction false} CutAnywhere(a: Bytes, b: Bytes)
    ensures RawLines(a + b) == RawLines(a) + RawLines(Tail(a) + b)
    ensures Tail(a + b) == Tail(Tail(a) + b)
    decreases |a|
  {
    var n := FirstLf(a);
    if n == |a| {
      assert [] + RawLines(a + b) == RawLines(a + b);
    } else {
      var rest := a[n + 1..];
      assert (a + b)[..n] == a[..n] && (a + b)[n + 1..] == rest + b;
      NextLine(a, n);
      NextLine(a + b, n);
      CutAnywhere(rest, b);
      Reassociate([a[..n]], RawLines(rest), RawLines(Tail(rest) + b));
    }
  }

  lemma {:induction false} StrippedAppend(a: seq<Bytes>, b: seq<Bytes>)
    ensures Stripped(a + b) == Stripped(a) + Stripped(b)
  {
    if a == [] {
      assert a + b == b;
    } else {
      assert (a + b)[0] == a[0] && (a + b)[1..] == a[1..] + b;
      StrippedAppend(a[1..], b);
    }
  }

  predicate Unterminated(s: Bytes) {
    s != [] && s[|s| - 1] != LF
  }

  /** Bytes are pending exactly when the stream does not end with a line feed. */
  lemma {:induction false} PendingIffUnterminated(s: Bytes)
    ensures Tail(s) != [] <==> Unterminated(s)
    decreases |s|
  {
    var n := FirstLf(s);
    if n == |s| {
      assert s != [] ==> s[|s| - 1] in s[..n];
    } else {
      PendingIffUnterminated(s[n + 1..]);
    }
  }

  /** What follows the last line feed stays; everything before it is complete lines. */
  lemma CutAfterLastLf(s: Bytes, complete: Bytes, rest: Bytes)
    requires s == complete + rest && !Unterminated(complete) && LF !in rest
    ensures Lines(s) == Lines(complete) && Tail(s) == rest
  {
    PendingIffUnterminated(complete);
    CutAnywhere(complete, rest);
    Empty(rest);
    NoLine(rest);
    Empty(RawLines(complete));
  }

  // ---------------------------------------------------------------- the buffer

  /** One past the last line feed; 0 when there is none. */
  method AfterLastLf(s: Bytes) returns (end: nat)
    ensures end <= |s| && (end > 0 ==> s[end - 1] == LF) && LF !in s[end..]
  {
    end := |s|;
    while end > 0 && s[end - 1] != LF
      invariant end <= |s| && LF !in s[end..]
    {
      assert s[end - 1..] == [s[end - 1]] + s[end..];
      end := end - 1;
    }
  }

  /** Up to `i`, `lines` are split off and a line that begins at `start` goes on. */
  ghost predicate SplitUpTo(s: Bytes, lines: seq<Bytes>, start: nat, i: nat) {
    start <= i <= |s| && (forall k :: start <= k < i ==> s[k] != LF) && Lines(s) == lines + Lines(s[start..])
  }

  lemma LineGoesOn(s: Bytes, lines: seq<Bytes>, start: nat, i: nat)
    requires i < |s| && SplitUpTo(s, lines, start, i) && s[i] != LF
    ensures SplitUpTo(s, lines, start, i + 1)
  {
  }

  lemma LineEnds(s: Bytes, lines: seq<Bytes>, start: nat, i: nat)
    requires i < |s| && SplitUpTo(s, lines, start, i) && s[i] == LF
    ensures SplitUpTo(s, lines + [StripCr(s[start..i])], i + 1, i + 1)
  {
    Inside(s, start, i);
    NextLine(s[start..], i - start);
    Reassociate(lines, [StripCr(s[start..i])], Lines(s[i + 1..]));
  }

  lemma Inside<T>(s: seq<T>, start: nat, i: nat)
    requires start <= i < |s|
    ensures s[start..][..i - start] == s[start..i] && s[start..][i - start] == s[i]
    ensures s[start..][i - start + 1..] == s[i + 1..]
  {
  }

  lemma NothingLeft(s: Bytes, lines: seq<Bytes>)
    ensures lines + Lines(s[|s|..]) == lines
  {
    assert s[|s|..] == [];
    NoLine([]);
    Empty(lines);
  }

  lemma DropLast<T>(s: seq<T>, x: T)
    ensures (s + [x])[..|s|] == s && s + [] == s
  {
  }

  /** All pieces that a line feed ends. */
  method SplitPieces(complete: Bytes) returns (pieces: seq<Bytes>, start: nat)
    ensures SplitUpTo(complete, pieces, start, |complete|)
  {
    pieces, start := [], 0;
    Whole(complete);
    for i := 0 to |complete|
      invariant SplitUpTo(complete, pieces, start, i)
    {
      if complete[i] == LF {
        LineEnds(complete, pieces, start, i);
        pieces, start := pieces + [StripCr(complete[start..i])], i + 1;
      } else {
        LineGoesOn(complete, pieces, start, i);
      }
    }
  }

  /** The pieces between line feeds, but for the empty one after the last. */
  method SplitLines(complete: Bytes) returns (lines: seq<Bytes>)
    requires complete != [] && complete[|complete| - 1] == LF
    ensures lines == Lines(complete)
  {
    var pieces, start := SplitPieces(complete);
    NothingLeft(complete, pieces);
    DropLast(pieces, StripCr(complete[start..]));
    lines := pieces + [StripCr(complete[start..])];
    lines := lines[..|lines| - 1];
  }

  lemma Whole(s: Bytes)
    ensures s[0..] == s && Lines([]) == [] && [] + Lines(s) == Lines(s)
  {
  }

  /** Holds the bytes of the line that is not finished yet. */
  class SseLineBuffer {
    var pending: Bytes

    constructor ()
      ensures pending == []
    {
      pending := [];
    }

    /** Append `chunk`; return every line it completed, without line feed and the carriage return before it. */
    method Push(chunk: Bytes) returns (lines: seq<Bytes>)
      requires LF !in pending
      modifies this
      ensures LF !in pending
      ensures lines == Lines(old(pending) + chunk) && pending == Tail(old(pending) + chunk)
      ensures HasPartialLine() <==> Unterminated(old(pending) + chunk)
    {
      pending := pending + chunk;
      PendingIffUnterminated(pending);
      var end := AfterLastLf(pending);
      Halves(pending, end);
      var complete, rest := pending[..end], pending[end..];
      CutAfterLastLf(pending, complete, rest);
      pending := rest;
      if end == 0 {
        NoLine(complete);
        return [];
      }
      lines := SplitLines(complete);
    }

    /** A line has begun that is not finished. */
    predicate HasPartialLine()
      reads this
    {
      pending != []
    }
  }

  // ---------------------------------------------------------------- chunks do not matter

  /** Lines and pending bytes after pushing the chunks one by one. */
  function Fed(pending: Bytes, chunks: seq<Bytes>): (seq<Bytes>, Bytes)
    decreases |chunks|
  {
    if chunks == [] then ([], pending)
    else
      var all := pending + chunks[0];
      var (lines, rest) := Fed(Tail(all), chunks[1..]);
      (Lines(all) + lines, rest)
  }

  /** However a byte stream is cut into chunks, the lines and the pending bytes are those of the whole. */
  lemma {:induction false} ChunksDoNotMatter(pending: Bytes, chunks: seq<Bytes>)
    requires LF !in pending
    ensures Fed(pending, chunks) == (Lines(pending + Concat(chunks)), Tail(pending + Concat(chunks)))
    decreases |chunks|
  {
    if chunks == [] {
      assert pending + [] == pending;
      NoLine(pending);
    } else {
      var all, rest := pending + chunks[0], Concat(chunks[1..]);
      assert pending + Concat(chunks) == all + rest;
      ChunksDoNotMatter(Tail(all), chunks[1..]);
      CutAnywhere(all, rest);
      StrippedAppend(RawLines(all), RawLines(Tail(all) + rest));
    }
  }

  function Unlines(raw: seq<Bytes>): Bytes {
    if raw == [] then [] else raw[0] + [LF] + Unlines(raw[1..])
  }

  /** Lines with their line feeds put back, followed by the pending bytes, are the stream. */
  lemma {:induction false} NoByteIsLost(s: Bytes)
    ensures Unlines(RawLines(s)) + Tail(s) == s
    decreases |s|
  {
    var n := FirstLf(s);
    if n == |s| {
      assert [] + s == s;
    } else {
      var rest := s[n + 1..];
      NextLine(s, n);
      NoByteIsLost(rest);
      assert ([s[..n]] + RawLines(rest))[1..] == RawLines(rest);
      Reassociate(s[..n] + [LF], Unlines(RawLines(rest)), Tail(rest));
      Around(s, n);
    }
  }

  /** A line handed out is the line before its line feed but for one carriage return at its end. */
  lemma OnlyOneCrGoes(s: Bytes, i: nat)
    requires i < |Lines(s)|
    ensures i < |RawLines(s)|
    ensures var raw, line := RawLines(s)[i], Lines(s)[i];
            raw == line + if raw != [] && raw[|raw| - 1] == CR then [CR] else []
  {
    Empty(RawLines(s)[i]);
  }

  /** No line holds a line feed. */
  lemma {:induction false} LinesHoldNoLf(s: Bytes, i: nat)
    requires i < |RawLines(s)|
    ensures LF !in RawLines(s)[i] && LF !in Lines(s)[i]
    decreases |s|
  {
    var n := FirstLf(s);
    NextLine(s, n);
    if i > 0 {
      LinesHoldNoLf(s[n + 1..], i - 1);
    }
  }
}

/** Well-formed UTF-8 as section 4 of RFC 3629 defines it, and why lines can be cut at the byte LF. */
module Utf8 {
  import opened SseLines

  predicate Within(s: Bytes, i: nat, low: Byte, high: Byte) {
    i < |s| && low <= s[i] <= high
  }

  predicate IsTail(s: Bytes, i: nat) {
    Within(s, i, 0x80, 0xBF)
  }

  /** The length of the character that `s` starts with; 0 when it starts with none. */
  function CharLength(s: Bytes): (n: nat)
    ensures n <= |s| && n <= 4
    ensures forall i :: 1 <= i < n ==> s[i] >= 0x80
  {
    if Within(s, 0, 0x00, 0x7F) then 1
    else if Within(s, 0, 0xC2, 0xDF) && IsTail(s, 1) then 2
    else if (|| (Within(s, 0, 0xE0, 0xE0) && Within(s, 1, 0xA0, 0xBF))
             || (Within(s, 0, 0xE1, 0xEC) && IsTail(s, 1))
             || (Within(s, 0, 0xED, 0xED) && Within(s, 1, 0x80, 0x9F))
             || (Within(s, 0, 0xEE, 0xEF) && IsTail(s, 1))) && IsTail(s, 2) then 3
    else if (|| (Within(s, 0, 0xF0, 0xF0) && Within(s, 1, 0x90, 0xBF))
             || (Within(s, 0, 0xF1, 0xF3) && IsTail(s, 1))
             || (Within(s, 0, 0xF4, 0xF4) && Within(s, 1, 0x80, 0x8F))) && IsTail(s, 2) && IsTail(s, 3) then 4
    else 0
  }

  predicate Valid(s: Bytes)
    decreases |s|
  {
    s == [] || (CharLength(s) > 0 && Valid(s[CharLength(s)..]))
  }

  /** A character depends on its own bytes only. */
  lemma CharLengthOfPrefix(s: Bytes, t: Bytes)
    ensures CharLength(s) > 0 ==> CharLength(s + t) == CharLength(s)
    ensures CharLength(s + t) <= |s| && s != [] ==> CharLength(s + t) == CharLength(s)
  {
    assert forall i :: 0 <= i < |s| ==> (s + t)[i] == s[i];
  }

  /** An ASCII byte stands between characters, never inside one. */
  lemma {:induction false} ValidAroundAscii(a: Bytes, x: Byte, b: Bytes)
    requires x < 0x80
    ensures Valid(a + [x] + b) <==> Valid(a) && Valid(b)
    decreases |a|
  {
    var all := a + [x] + b;
    if a == [] {
      assert all == [x] + b && all[1..] == b;
    } else {
      var n := CharLength(all);
      assert all == a + ([x] + b) && all[|a|] == x;
      assert n <= |a|;
      CharLengthOfPrefix(a, [x] + b);
      if n > 0 {
        assert all[n..] == a[n..] + [x] + b;
        ValidAroundAscii(a[n..], x, b);
      }
    }
  }

  predicate AllValid(lines: seq<Bytes>) {
    forall i :: 0 <= i < |lines| ==> Valid(lines[i])
  }

  lemma AllValidAppend(line: Bytes, lines: seq<Bytes>)
    ensures AllValid([line] + lines) <==> Valid(line) && AllValid(lines)
  {
    var all := [line] + lines;
    assert all[0] == line;
    assert forall i :: 0 <= i < |lines| ==> lines[i] == all[i + 1];
  }

  /** A stream is valid UTF-8 exactly when all its lines and its pending bytes are. */
  lemma {:induction false} ValidLineByLine(s: Bytes)
    ensures Valid(s) <==> AllValid(RawLines(s)) && Valid(Tail(s))
    decreases |s|
  {
    var n := FirstLf(s);
    if n < |s| {
      var line, rest := s[..n], s[n + 1..];
      NextLine(s, n);
      AllValidAppend(line, RawLines(rest));
      Around(s, n);
      ValidAroundAscii(line, LF, rest);
      ValidLineByLine(rest);
    }
  }

  /** Every line handed out of a valid stream is valid, also without its carriage return. */
  lemma LinesStayValid(s: Bytes, i: nat)
    requires Valid(s) && i < |Lines(s)|
    ensures Valid(Lines(s)[i])
  {
    ValidLineByLine(s);
    var line := RawLines(s)[i];
    if StripCr(line) != line {
      assert line == StripCr(line) + [CR] + [];
      ValidAroundAscii(StripCr(line), CR, []);
    }
  }
}
