/**
 CSV output of reports, and a reader of section 2 of RFC 4180 that undoes it.
 Records end in LF, and CR is a character like any other.
 */
module Csv {
  import opened Common

  // ---------------------------------------------------------------- the writer

  predicate NeedsQuotes(f: string) {
    ',' in f || '"' in f || '\n' in f
  }

  /** Every quote doubled. */
  function Doubled(f: string): string {
    if f == "" then "" else (if f[0] == '"' then "\"\"" else [f[0]]) + Doubled(f[1..])
  }

  function Escape(f: string): string {
    if NeedsQuotes(f) then "\"" + Doubled(f) + "\"" else f
  }

  function Escaped(fields: seq<string>): (r: seq<string>)
    ensures |r| == |fields|
  {
    if fields == [] then [] else [Escape(fields[0])] + Escaped(fields[1..])
  }

  function Record(fields: seq<string>): string {
    JoinWith(Escaped(fields), ",") + "\n"
  }

  function Records(rows: seq<seq<string>>): string
    decreases |rows|
  {
    if rows == [] then "" else Records(rows[..|rows| - 1]) + Record(rows[|rows| - 1])
  }

  /** The header line is written as it is. */
  function Csv(headers: seq<string>, rows: seq<seq<string>>): string {
    JoinWith(headers, ",") + "\n" + Records(rows)
  }

  method WriteCsv(headers: seq<string>, rows: seq<seq<string>>) returns (out: string)
    ensures out == Csv(headers, rows)
  {
    var body := "";
    for i := 0 to |rows|
      invariant body == Records(rows[..i])
    {
      assert rows[..i + 1][..i] == rows[..i];
      var escaped := EscapeAll(rows[i]);
      body := body + (JoinWith(escaped, ",") + "\n");
    }
    assert rows[..|rows|] == rows;
    out := JoinWith(headers, ",") + "\n" + body;
  }

  method EscapeAll(fields: seq<string>) returns (escaped: seq<string>)
    ensures escaped == Escaped(fields)
  {
    escaped := [];
    Empty(Escaped(fields));
    for i := 0 to |fields|
      invariant escaped + Escaped(fields[i..]) == Escaped(fields)
    {
      assert fields[i..][1..] == fields[i + 1..];
      Reassociate(escaped, [Escape(fields[i])], Escaped(fields[i + 1..]));
      escaped := escaped + [Escape(fields[i])];
    }
    Empty(escaped);
  }

  // ---------------------------------------------------------------- the reader

  /** A field and the text after it; `None` when no field can be read. */
  type Parsed = Option<(string, string)>

  /** An unquoted field ends before a comma, a line end or the end; a quote cannot stand in it. */
  function ReadPlain(s: string): (r: Parsed)
    ensures r.Some? ==> |r.value.1| <= |s|
  {
    if s == "" || s[0] == ',' || s[0] == '\n' then Some(("", s))
    else if s[0] == '"' then None
    else
      match ReadPlain(s[1..])
      case None => None
      case Some((f, rest)) => Some(([s[0]] + f, rest))
  }

  /** The rest of a quoted field: up to the quote that is not doubled. */
  function ReadQuoted(s: string): (r: Parsed)
    ensures r.Some? ==> |r.value.1| < |s|
    decreases |s|
  {
    if s == "" then None
    else if s[0] != '"' then
      match ReadQuoted(s[1..])
      case None => None
      case Some((f, rest)) => Some(([s[0]] + f, rest))
    else if |s| > 1 && s[1] == '"' then
      match ReadQuoted(s[2..])
      case None => None
      case Some((f, rest)) => Some((['"'] + f, rest))
    else Some(("", s[1..]))
  }

  function ReadField(s: string): (r: Parsed)
    ensures r.Some? ==> |r.value.1| <= |s|
  {
    if s != "" && s[0] == '"' then ReadQuoted(s[1..]) else ReadPlain(s)
  }

  /** One record and the text after its line end. */
  function ReadRecord(s: string): (r: Option<(seq<string>, string)>)
    ensures r.Some? && s != "" ==> |r.value.1| < |s|
    decreases |s|
  {
    match ReadField(s)
    case None => None
    case Some((f, rest)) =>
      if rest == "" then Some(([f], ""))
      else if rest[0] == '\n' then Some(([f], rest[1..]))
      else if rest[0] == ',' then
        match ReadRecord(rest[1..])
        case None => None
        case Some((more, rest')) => Some(([f] + more, rest'))
      else None
  }

  /** All records of a text; the last one may lack its line end. */
  function Read(s: string): Option<seq<seq<string>>>
    decreases |s|
  {
    if s == "" then Some([])
    else
      match ReadRecord(s)
      case None => None
      case Some((fields, rest)) =>
        match Read(rest)
        case None => None
        case Some(more) => Some([fields] + more)
  }

  // ---------------------------------------------------------------- reading undoes writing

  predicate EndsField(c: char) {
    c == ',' || c == '\n'
  }

  lemma {:induction false} PlainComesBack(f: string, c: char, rest: string)
    requires !NeedsQuotes(f) && EndsField(c)
    ensures ReadPlain(f + [c] + rest) == Some((f, [c] + rest))
  {
    if f == "" {
      Empty([c]);
    } else {
      var s := f + [c] + rest;
      Reassociate([f[0]], f[1..], [c]);
      assert f == [f[0]] + f[1..];
      assert s[0] == f[0] && s[1..] == f[1..] + [c] + rest;
      assert f[0] in f && forall x :: x in f[1..] ==> x in f;
      PlainComesBack(f[1..], c, rest);
    }
  }

  lemma {:induction false} QuotedComesBack(f: string, c: char, rest: string)
    requires EndsField(c)
    ensures ReadQuoted(Doubled(f) + ['"'] + [c] + rest) == Some((f, [c] + rest))
  {
    var s := Doubled(f) + ['"'] + [c] + rest;
    if f == "" {
      assert s == ['"'] + ([c] + rest);
      assert s[1..] == [c] + rest;
    } else {
      var tail := Doubled(f[1..]) + ['"'] + [c] + rest;
      QuotedComesBack(f[1..], c, rest);
      assert f == [f[0]] + f[1..];
      if f[0] == '"' {
        QuoteSplit(f, c, rest);
        assert s[2..] == tail;
      } else {
        CharSplit(f, c, rest);
        assert s[1..] == tail;
      }
    }
  }

  lemma QuoteSplit(f: string, c: char, rest: string)
    requires f != "" && f[0] == '"'
    ensures Doubled(f) + ['"'] + [c] + rest == ['"', '"'] + (Doubled(f[1..]) + ['"'] + [c] + rest)
  {
    assert Doubled(f) == ['"', '"'] + Doubled(f[1..]);
  }

  lemma CharSplit(f: string, c: char, rest: string)
    requires f != "" && f[0] != '"'
    ensures Doubled(f) + ['"'] + [c] + rest == [f[0]] + (Doubled(f[1..]) + ['"'] + [c] + rest)
  {
    assert Doubled(f) == [f[0]] + Doubled(f[1..]);
  }

  lemma QuotedFieldComesBack(f: string, c: char, rest: string)
    requires EndsField(c)
    ensures ReadField("\"" + Doubled(f) + "\"" + [c] + rest) == Some((f, [c] + rest))
  {
    var s := "\"" + Doubled(f) + "\"" + [c] + rest;
    var tail := Doubled(f) + ['"'] + [c] + rest;
    assert s == ['"'] + tail;
    assert s[1..] == tail;
    QuotedComesBack(f, c, rest);
  }

  lemma PlainFieldComesBack(f: string, c: char, rest: string)
    requires EndsField(c) && !NeedsQuotes(f)
    ensures ReadField(f + [c] + rest) == Some((f, [c] + rest))
  {
    var s := f + [c] + rest;
    PlainComesBack(f, c, rest);
    assert s[0] == if f == "" then c else f[0];
    assert f != "" ==> f[0] in f;
  }

  lemma FieldComesBack(f: string, c: char, rest: string)
    requires EndsField(c)
    ensures ReadField(Escape(f) + [c] + rest) == Some((f, [c] + rest))
  {
    if NeedsQuotes(f) {
      QuotedFieldComesBack(f, c, rest);
    } else {
      PlainFieldComesBack(f, c, rest);
    }
  }

  /** A record comes back; one without fields reads as one empty field. */
  function Seen(fields: seq<string>): seq<string> {
    if fields == [] then [""] else fields
  }

  lemma {:induction false} RecordComesBack(fields: seq<string>, rest: string)
    ensures ReadRecord(Record(fields) + rest) == Some((Seen(fields), rest))
    decreases |fields|
  {
    if fields == [] {
      assert Record(fields) + rest == Escape("") + ['\n'] + rest;
      FieldComesBack("", '\n', rest);
      assert (['\n'] + rest)[1..] == rest;
    } else if |fields| == 1 {
      assert Escaped(fields) == [Escape(fields[0])];
      assert Record(fields) + rest == Escape(fields[0]) + ['\n'] + rest;
      FieldComesBack(fields[0], '\n', rest);
      assert (['\n'] + rest)[1..] == rest && [fields[0]] == fields;
    } else {
      var tail := Record(fields[1..]) + rest;
      RecordSplit(fields, rest);
      FieldComesBack(fields[0], ',', tail);
      assert ([','] + tail)[1..] == tail;
      RecordComesBack(fields[1..], rest);
      assert [fields[0]] + fields[1..] == fields;
    }
  }

  lemma RecordSplit(fields: seq<string>, rest: string)
    requires |fields| > 1
    ensures Record(fields) + rest == Escape(fields[0]) + [','] + (Record(fields[1..]) + rest)
  {
    var more := Escaped(fields[1..]);
    assert Escaped(fields)[0] == Escape(fields[0]) && Escaped(fields)[1..] == more;
    assert JoinWith(Escaped(fields), ",") == Escape(fields[0]) + "," + JoinWith(more, ",");
  }

  function SeenAll(rows: seq<seq<string>>): (r: seq<seq<string>>)
    ensures |r| == |rows| && forall i :: 0 <= i < |rows| ==> r[i] == Seen(rows[i])
  {
    if rows == [] then [] else [Seen(rows[0])] + SeenAll(rows[1..])
  }

  lemma {:induction false} RecordsFirst(rows: seq<seq<string>>)
    requires rows != []
    ensures Records(rows) == Record(rows[0]) + Records(rows[1..])
    decreases |rows|
  {
    var n := |rows| - 1;
    if n == 0 {
      assert rows[..0] == [] && rows[1..] == [];
      Empty(Record(rows[0]));
    } else {
      RecordsFirst(rows[..n]);
      assert rows[..n][1..] == rows[1..][..n - 1];
      Reassociate(Record(rows[0]), Records(rows[1..][..n - 1]), Record(rows[n]));
    }
  }

  lemma {:induction false} RecordsComeBack(rows: seq<seq<string>>)
    ensures Read(Records(rows)) == Some(SeenAll(rows))
    decreases |rows|
  {
    if rows != [] {
      RecordsFirst(rows);
      RecordComesBack(rows[0], Records(rows[1..]));
      RecordsComeBack(rows[1..]);
      assert Record(rows[0]) != "";
    }
  }

  lemma {:induction false} PlainHeadersAreEscaped(headers: seq<string>)
    requires forall i :: 0 <= i < |headers| ==> !NeedsQuotes(headers[i])
    ensures Escaped(headers) == headers
  {
    if headers != [] {
      PlainHeadersAreEscaped(headers[1..]);
    }
  }

  lemma CsvReads(headers: seq<string>, rows: seq<seq<string>>)
    requires headers != [] && forall i :: 0 <= i < |headers| ==> !NeedsQuotes(headers[i])
    ensures Read(Csv(headers, rows)) == Some([headers] + SeenAll(rows))
  {
    PlainHeadersAreEscaped(headers);
    RecordComesBack(headers, Records(rows));
    RecordsComeBack(rows);
    assert Record(headers) != "";
  }

  lemma SeenIff(rows: seq<seq<string>>)
    ensures SeenAll(rows) == rows <==> forall i :: 0 <= i < |rows| ==> rows[i] != []
  {
    assert SeenAll(rows) == rows <==> forall i :: 0 <= i < |rows| ==> SeenAll(rows)[i] == rows[i];
  }

  // ---------------------------------------------------------------- headers that cannot come back

  /** What the writer would need for the fields and their separators. */
  function Cost(fields: seq<string>): nat {
    if fields == [] then 0 else |Escape(fields[0])| + 1 + Cost(fields[1..])
  }

  function CostOfAll(records: seq<seq<string>>): nat {
    if records == [] then 0 else Cost(records[0]) + CostOfAll(records[1..])
  }

  /** A field read without quotes needs none. */
  lemma {:induction false} PlainIsRead(s: string)
    requires ReadPlain(s).Some?
    ensures var (f, rest) := ReadPlain(s).value; s == f + rest && !NeedsQuotes(f)
  {
    if s == "" || EndsField(s[0]) {
      Empty(s);
    } else {
      PlainIsRead(s[1..]);
      var (f, rest) := ReadPlain(s[1..]).value;
      Reassociate([s[0]], f, rest);
      assert s == [s[0]] + s[1..];
    }
  }

  lemma {:induction false} QuotedIsRead(s: string)
    requires ReadQuoted(s).Some?
    ensures var (f, rest) := ReadQuoted(s).value; s == Doubled(f) + "\"" + rest
    decreases |s|
  {
    if s[0] != '"' {
      QuotedIsRead(s[1..]);
      var (f, rest) := ReadQuoted(s[1..]).value;
      DoubledFirst(s[0], f);
      assert s == [s[0]] + s[1..];
      FourJoin([s[0]], Doubled(f), "\"", rest);
    } else if |s| > 1 && s[1] == '"' {
      QuotedIsRead(s[2..]);
      var (f, rest) := ReadQuoted(s[2..]).value;
      DoubledFirst('"', f);
      assert s == "\"\"" + s[2..];
      FourJoin("\"\"", Doubled(f), "\"", rest);
    } else {
      assert s == "\"" + s[1..];
    }
  }

  lemma DoubledFirst(c: char, f: string)
    ensures Doubled([c] + f) == (if c == '"' then "\"\"" else [c]) + Doubled(f)
  {
    First(c, f);
  }

  lemma FourJoin(a: string, b: string, c: string, d: string)
    ensures a + (b + c + d) == a + b + c + d
  {
  }

  /** `rest` is what `s` ends with. */
  predicate EndsWith(s: string, rest: string) {
    |rest| <= |s| && s[|s| - |rest|..] == rest
  }

  lemma EndsWithAppend(a: string, rest: string)
    ensures EndsWith(a + rest, rest)
  {
  }

  predicate EndsLine(s: string) {
    s != "" && s[|s| - 1] == '\n'
  }

  /** Reading a field takes at least what writing it takes, and leaves something where the text ends with a line end. */
  lemma FieldCost(s: string)
    requires ReadField(s).Some?
    ensures var (f, rest) := ReadField(s).value;
            |s| >= |Escape(f)| + |rest| && EndsWith(s, rest) && (EndsLine(s) ==> EndsLine(rest))
  {
    var (f, rest) := ReadField(s).value;
    if s != "" && s[0] == '"' {
      QuotedIsRead(s[1..]);
      DoubledIsLonger(f);
      var front := "\"" + Doubled(f) + "\"";
      assert s == "\"" + s[1..];
      FourJoin("\"", Doubled(f), "\"", rest);
      EndsWithAppend(front, rest);
      assert rest == "" ==> s[|s| - 1] == front[|front| - 1];
    } else {
      PlainIsRead(s);
      EndsWithAppend(f, rest);
      assert rest == "" && s != "" ==> s[|s| - 1] == f[|f| - 1] && f[|f| - 1] in f;
    }
  }

  lemma {:induction false} DoubledIsLonger(f: string)
    ensures |Doubled(f)| >= |f|
    ensures |Escape(f)| <= |Doubled(f)| + 2
  {
    if f != "" {
      DoubledIsLonger(f[1..]);
    }
  }

  lemma {:induction false} RecordCost(s: string)
    requires EndsLine(s) && ReadRecord(s).Some?
    ensures var (fields, rest) := ReadRecord(s).value;
            fields != [] && |s| >= Cost(fields) + |rest| && (rest == "" || EndsLine(rest))
    decreases |s|
  {
    FieldCost(s);
    var (f, rest) := ReadField(s).value;
    var after := rest[1..];
    assert after != "" ==> after[|after| - 1] == rest[|rest| - 1];
    if rest[0] == ',' {
      RecordCost(after);
      var (more, _) := ReadRecord(after).value;
      First(f, more);
    } else {
      assert Cost([f]) == |Escape(f)| + 1 by {
        assert [f][1..] == [];
      }
    }
  }

  lemma {:induction false} ReadCost(s: string)
    requires (s == "" || EndsLine(s)) && Read(s).Some?
    ensures |s| >= CostOfAll(Read(s).value)
    ensures forall i :: 0 <= i < |Read(s).value| ==> Read(s).value[i] != []
    decreases |s|
  {
    if s != "" {
      RecordCost(s);
      var (fields, rest) := ReadRecord(s).value;
      ReadCost(rest);
      First(fields, Read(rest).value);
    }
  }

  lemma {:induction false} JoinedLength(texts: seq<string>)
    requires texts != []
    ensures |JoinWith(Escaped(texts), ",")| + 1 == Cost(texts)
  {
    if |texts| == 1 {
      assert Escaped(texts) == [Escape(texts[0])];
    } else {
      JoinedLength(texts[1..]);
      First(Escape(texts[0]), Escaped(texts[1..]));
    }
  }

  lemma {:induction false} RecordsLength(rows: seq<seq<string>>)
    requires forall i :: 0 <= i < |rows| ==> rows[i] != []
    ensures |Records(rows)| == CostOfAll(rows)
  {
    if rows != [] {
      RecordsFirst(rows);
      JoinedLength(rows[0]);
      RecordsLength(rows[1..]);
    }
  }

  /** Raw headers take less than the writer would need, unless they need no quotes. */
  lemma {:induction false} RawHeaders(headers: seq<string>)
    requires headers != []
    ensures |JoinWith(headers, ",")| + 1 <= Cost(headers)
    ensures |JoinWith(headers, ",")| + 1 == Cost(headers) ==> forall i :: 0 <= i < |headers| ==> !NeedsQuotes(headers[i])
  {
    DoubledIsLonger(headers[0]);
    if |headers| > 1 {
      RawHeaders(headers[1..]);
      forall i | 0 <= i < |headers| && |JoinWith(headers, ",")| + 1 == Cost(headers) ensures !NeedsQuotes(headers[i]) {
        assert i > 0 ==> headers[i] == headers[1..][i - 1];
      }
    } else {
      assert headers[1..] == [];
    }
  }

  /** A reader never finds headers that need quotes: the header line is written without them. */
  lemma QuotedHeadersAreLost(headers: seq<string>, rows: seq<seq<string>>)
    requires Read(Csv(headers, rows)) == Some([headers] + rows)
    ensures headers != [] && forall i :: 0 <= i < |headers| ==> !NeedsQuotes(headers[i])
    ensures forall i :: 0 <= i < |rows| ==> rows[i] != []
  {
    var s, all := Csv(headers, rows), [headers] + rows;
    CsvEndsLine(headers, rows);
    ReadCost(s);
    First(headers, rows);
    assert all[0] == headers && forall i :: 0 <= i < |rows| ==> rows[i] == all[i + 1];
    RecordsLength(rows);
    RawHeaders(headers);
  }

  lemma CsvEndsLine(headers: seq<string>, rows: seq<seq<string>>)
    ensures EndsLine(Csv(headers, rows))
  {
    if rows != [] {
      assert Record(rows[|rows| - 1])[|Record(rows[|rows| - 1])| - 1] == '\n';
    }
  }

  /** Fields are quoted only where they hold a comma, a quote or a line feed. */
  lemma QuotedOnlyWhenNeeded(f: string)
    ensures Escape(f) == f <==> forall c <- f :: c != ',' && c != '"' && c != '\n'
  {
    DoubledIsLonger(f);
  }

  lemma SameHead<T>(x: T, a: seq<T>, b: seq<T>)
    ensures [x] + a == [x] + b <==> a == b
  {
    assert ([x] + a)[1..] == a && ([x] + b)[1..] == b;
  }

  /**
   Reading the output gives back every header, row and field, whatever the fields
   hold, exactly when there are headers, none of which needs quotes, and every row
   has a field.
   */
  lemma CsvRoundTrip(headers: seq<string>, rows: seq<seq<string>>)
    ensures Read(Csv(headers, rows)) == Some([headers] + rows) <==>
            headers != [] && (forall i :: 0 <= i < |headers| ==> !NeedsQuotes(headers[i])) &&
            (forall i :: 0 <= i < |rows| ==> rows[i] != [])
  {
    if Read(Csv(headers, rows)) == Some([headers] + rows) {
      QuotedHeadersAreLost(headers, rows);
    }
    if headers != [] && forall i :: 0 <= i < |headers| ==> !NeedsQuotes(headers[i]) {
      CsvReads(headers, rows);
      SeenIff(rows);
      SameHead(headers, SeenAll(rows), rows);
    }
  }
}
