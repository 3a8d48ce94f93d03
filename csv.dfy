/**
 * Comma-separated values as section 2 of RFC 4180 defines them, with a line feed ending each
 * record (the report writer's separator): the writer's quoting of a data field, and a reader
 * that accepts plain and quoted fields (`""` standing for one quote inside a quoted field).
 */
module Csv {
  import opened Wrappers
  import opened Seqs
  import opened Text

  // ----- writing, as the reports do it -----

  /** A data cell as the reports write it: wrapped in quotes, an inner quote left as it is. */
  function Quote(c: string): string {
    "\"" + c + "\""
  }

  /** A data row: its cells quoted and joined on commas. */
  function QuotedLine(cells: seq<string>): string {
    Join(Map(Quote, cells), ',')
  }

  /** A cell that can stand unquoted: no comma, no line feed, no quote. */
  predicate IsPlain(c: string) {
    ',' !in c && '\n' !in c && '"' !in c
  }

  // ----- reading -----

  /** The text of a quoted field after its opening quote, up to the closing quote, and the text after that quote. */
  function QuotedBody(s: string): (r: Option<(string, string)>)
    ensures r.Some? ==> |r.value.1| < |s|
    decreases |s|
  {
    if s == [] then None
    else if s[0] == '"' then
      if |s| >= 2 && s[1] == '"' then
        match QuotedBody(s[2..])
        case None => None
        case Some((c, rest)) => Some(("\"" + c, rest))
      else Some(("", s[1..]))
    else
      match QuotedBody(s[1..])
      case None => None
      case Some((c, rest)) => Some(([s[0]] + c, rest))
  }

  /** The longest prefix free of commas, line feeds and quotes, and the text after it. */
  function PlainPrefix(s: string): (r: (string, string))
    ensures r.0 + r.1 == s
    ensures IsPlain(r.0)
    ensures r.1 == [] || r.1[0] == ',' || r.1[0] == '\n' || r.1[0] == '"'
  {
    if s == [] || s[0] == ',' || s[0] == '\n' || s[0] == '"' then ("", s)
    else
      var r := PlainPrefix(s[1..]);
      assert s == [s[0]] + s[1..];
      ([s[0]] + r.0, r.1)
  }

  /** One field at the start of `s`, quoted or plain, and the text after it; a quote inside a plain field is an error. */
  function Field(s: string): (r: Option<(string, string)>)
    ensures r.Some? ==> |r.value.1| <= |s|
  {
    if s != [] && s[0] == '"' then QuotedBody(s[1..])
    else
      var (c, rest) := PlainPrefix(s);
      if rest != [] && rest[0] == '"' then None else Some((c, rest))
  }

  /** One record at the start of `s`: fields separated by commas, up to a line feed or the end. */
  function Record(s: string): (r: Option<(seq<string>, string)>)
    ensures r.Some? ==> |r.value.0| >= 1 && |r.value.1| <= |s|
    ensures r.Some? ==> r.value.1 == [] || r.value.1[0] == '\n'
    decreases |s|
  {
    match Field(s)
    case None => None
    case Some((c, rest)) =>
      if rest != [] && rest[0] == ',' then
        match Record(rest[1..])
        case None => None
        case Some((cs, after)) => Some(([c] + cs, after))
      else if rest == [] || rest[0] == '\n' then Some(([c], rest))
      else None
  }

  /** A whole text: records separated by line feeds. */
  function Read(s: string): (r: Option<seq<seq<string>>>)
    ensures r.Some? ==> |r.value| >= 1
    decreases |s|
  {
    match Record(s)
    case None => None
    case Some((cells, rest)) =>
      if rest == [] then Some([cells])
      else
        match Read(rest[1..])
        case None => None
        case Some(more) => Some([cells] + more)
  }

  // ----- reading back what was written -----

  lemma {:induction false} QuotedBodyOf(c: string, rest: string)
    requires '"' !in c
    requires rest == [] || rest[0] != '"'
    ensures QuotedBody(c + "\"" + rest) == Some((c, rest))
  {
    if c == [] {
      assert c + "\"" + rest == "\"" + rest;
    } else {
      assert (c + "\"" + rest)[1..] == c[1..] + "\"" + rest;
      QuotedBodyOf(c[1..], rest);
      assert [c[0]] + c[1..] == c;
    }
  }

  /** A quoted cell free of quotes reads back as a field. */
  lemma QuotedFieldOf(c: string, rest: string)
    requires '"' !in c
    requires rest == [] || rest[0] != '"'
    ensures Field(Quote(c) + rest) == Some((c, rest))
  {
    assert (Quote(c) + rest)[1..] == c + "\"" + rest;
    QuotedBodyOf(c, rest);
  }

  lemma {:induction false} PlainPrefixOf(c: string, rest: string)
    requires IsPlain(c)
    requires rest == [] || rest[0] == ',' || rest[0] == '\n'
    ensures PlainPrefix(c + rest) == (c, rest)
  {
    if c == [] {
      assert c + rest == rest;
    } else {
      assert c[0] in c;
      assert (c + rest)[1..] == c[1..] + rest;
      PlainPrefixOf(c[1..], rest);
      assert [c[0]] + c[1..] == c;
    }
  }

  /** A plain cell reads back unchanged. */
  lemma PlainFieldOf(c: string, rest: string)
    requires IsPlain(c)
    requires rest == [] || rest[0] == ',' || rest[0] == '\n'
    ensures Field(c + rest) == Some((c, rest))
  {
    PlainPrefixOf(c, rest);
    if c != [] {
      assert c[0] in c;
    } else {
      assert c + rest == rest;
    }
  }

  /** A data row of quote-free cells reads back as a record. */
  lemma {:induction false} RecordOfQuotedLine(cells: seq<string>, rest: string)
    requires |cells| >= 1
    requires forall i :: 0 <= i < |cells| ==> '"' !in cells[i]
    requires rest == [] || rest[0] == '\n'
    ensures Record(QuotedLine(cells) + rest) == Some((cells, rest))
  {
    var qs := Map(Quote, cells);
    if |cells| == 1 {
      QuotedFieldOf(cells[0], rest);
      assert cells == [cells[0]];
    } else {
      assert Map(Quote, cells[1..]) == qs[1..];
      var tail := QuotedLine(cells[1..]) + rest;
      assert QuotedLine(cells) + rest == Quote(cells[0]) + ("," + tail);
      QuotedFieldOf(cells[0], "," + tail);
      assert ("," + tail)[1..] == tail;
      RecordOfQuotedLine(cells[1..], rest);
      assert [cells[0]] + cells[1..] == cells;
    }
  }

  /** A header row of plain cells reads back as a record. */
  lemma {:induction false} RecordOfPlainLine(cells: seq<string>, rest: string)
    requires |cells| >= 1
    requires forall i :: 0 <= i < |cells| ==> IsPlain(cells[i])
    requires rest == [] || rest[0] == '\n'
    ensures Record(Join(cells, ',') + rest) == Some((cells, rest))
  {
    if |cells| == 1 {
      PlainFieldOf(cells[0], rest);
      assert cells == [cells[0]];
    } else {
      var tail := Join(cells[1..], ',') + rest;
      JoinCons(cells, ',');
      assert Join(cells, ',') + rest == cells[0] + ([','] + tail);
      PlainFieldOf(cells[0], [','] + tail);
      assert ([','] + tail)[1..] == tail;
      RecordOfPlainLine(cells[1..], rest);
      assert [cells[0]] + cells[1..] == cells;
    }
  }

  /** Data rows of quote-free cells, one per line, read back as those rows. */
  lemma {:induction false} ReadQuotedLines(rows: seq<seq<string>>)
    requires |rows| >= 1
    requires forall k :: 0 <= k < |rows| ==> |rows[k]| >= 1
    requires forall k, i :: 0 <= k < |rows| && 0 <= i < |rows[k]| ==> '"' !in rows[k][i]
    ensures Read(Join(Map(QuotedLine, rows), '\n')) == Some(rows)
  {
    if |rows| == 1 {
      RecordOfQuotedLine(rows[0], "");
      assert QuotedLine(rows[0]) + "" == QuotedLine(rows[0]);
      assert rows == [rows[0]];
    } else {
      ReadQuotedLines(rows[1..]);
      ReadQuotedStep(rows);
    }
  }

  /** The first data row, then a line feed and rows that read back, reads back. */
  lemma ReadQuotedStep(rows: seq<seq<string>>)
    requires |rows| >= 2 && |rows[0]| >= 1
    requires forall i :: 0 <= i < |rows[0]| ==> '"' !in rows[0][i]
    requires Read(Join(Map(QuotedLine, rows[1..]), '\n')) == Some(rows[1..])
    ensures Read(Join(Map(QuotedLine, rows), '\n')) == Some(rows)
  {
    var ls := Map(QuotedLine, rows);
    MapCons(QuotedLine, rows);
    assert ls[1..] == Map(QuotedLine, rows[1..]);
    RecordOfQuotedLine(rows[0], ['\n'] + Join(ls[1..], '\n'));
    ReadStep(ls, rows);
  }

  /** A first line that reads as one record, then a line feed and lines that read back, reads back. */
  lemma ReadStep(lines: seq<string>, records: seq<seq<string>>)
    requires |lines| >= 2 && |records| >= 1
    requires Record(lines[0] + (['\n'] + Join(lines[1..], '\n'))) == Some((records[0], ['\n'] + Join(lines[1..], '\n')))
    requires Read(Join(lines[1..], '\n')) == Some(records[1..])
    ensures Read(Join(lines, '\n')) == Some(records)
  {
    JoinCons(lines, '\n');
    var rest := ['\n'] + Join(lines[1..], '\n');
    assert rest[1..] == Join(lines[1..], '\n');
    ReadAfterRecord(Join(lines, '\n'), records[0], rest, records[1..]);
    assert [records[0]] + records[1..] == records;
  }

  /** A record followed by a line feed and text that reads back reads back as that record first. */
  lemma ReadAfterRecord(s: string, cells: seq<string>, rest: string, more: seq<seq<string>>)
    requires Record(s) == Some((cells, rest)) && rest != []
    requires Read(rest[1..]) == Some(more)
    ensures Read(s) == Some([cells] + more)
  {
  }

  /**
   * A header line of plain cells followed by data rows of quote-free cells reads back as the
   * header and the rows.
   */
  lemma ReadTable(header: seq<string>, rows: seq<seq<string>>)
    requires |header| >= 1
    requires forall i :: 0 <= i < |header| ==> IsPlain(header[i])
    requires forall k :: 0 <= k < |rows| ==> |rows[k]| >= 1
    requires forall k, i :: 0 <= k < |rows| && 0 <= i < |rows[k]| ==> '"' !in rows[k][i]
    ensures Read(Join([Join(header, ',')] + Map(QuotedLine, rows), '\n')) == Some([header] + rows)
  {
    var ls := [Join(header, ',')] + Map(QuotedLine, rows);
    if rows == [] {
      assert ls == [Join(header, ',')];
      RecordOfPlainLine(header, "");
      assert Join(header, ',') + "" == Join(header, ',');
      assert [header] + rows == [header];
    } else {
      var tail := Join(Map(QuotedLine, rows), '\n');
      assert ls[1..] == Map(QuotedLine, rows);
      assert Join(ls, '\n') == Join(header, ',') + ("\n" + tail);
      RecordOfPlainLine(header, "\n" + tail);
      assert ("\n" + tail)[1..] == tail;
      ReadQuotedLines(rows);
    }
  }

  /**
   * A cell holding a quote is not read back: the quote is written undoubled, so the reader
   * takes it for the closing quote and finds text after it.
   */
  lemma EmbeddedQuoteIsNotReadBack()
    ensures Quote("a\"b") == "\"a\"b\""
    ensures Read(QuotedLine(["a\"b"])) == None
  {
    assert Map(Quote, ["a\"b"]) == [Quote("a\"b")];
    assert QuotedLine(["a\"b"]) == "\"a\"b\"";
    var s := "\"a\"b\"";
    assert s[1..] == "a\"b\"" && s[1..][1..] == "\"b\"";
    assert QuotedBody("\"b\"") == Some(("", "b\""));
    var t := "a\"b\"";
    assert t[0] == 'a' && t[1..] == "\"b\"";
    assert ['a'] + "" == "a";
    assert QuotedBody("a\"b\"") == Some(("a", "b\""));
    assert Field(s) == Some(("a", "b\""));
    assert Record(s) == None;
  }
}
