/** Comma-separated values as section 2 of RFC 4180 describes them: every
    field enclosed in double quotes, a double quote inside a field written
    twice, fields separated by ',' and records by a line break ('\n' here).
    `Parse` reads such a document back. */
module Csv {
  import opened Common

  const Quote: char := '"'

  /** The field body with each '"' doubled (`replaceAll('"', '""')`). */
  function Escape(v: string): (r: string)
    ensures |r| >= |v|
    ensures Quote !in v ==> r == v
  {
    if |v| == 0 then ""
    else EscapedChar(v[0]) + Escape(v[1..])
  }

  /** `"${v.replaceAll('"','""')}"`. */
  function QuoteField(v: string): (r: string)
    ensures |r| >= 2 && r[0] == Quote && r[|r| - 1] == Quote
  {
    [Quote] + Escape(v) + [Quote]
  }

  /** One record: its quoted fields joined by ','. */
  function Record(fields: seq<string>): string
  {
    Join(Map(fields, QuoteField), ",")
  }

  /** A document: its records joined by '\n'. */
  function Document(rows: seq<seq<string>>): string
  {
    Join(Map(rows, Record), "\n")
  }

  // ---------------------------------------------------------------------
  // Reading

  /** The body of a quoted field, read after its opening quote: up to the
      first '"' that is not doubled; answers the body and what follows the
      closing quote. */
  function ReadQuoted(s: string): (r: Option<(string, string)>)
    ensures r.Some? ==> |r.value.1| < |s|
  {
    if |s| == 0 then None
    else if s[0] == Quote then
      if |s| >= 2 && s[1] == Quote then
        match ReadQuoted(s[2..])
        case None => None
        case Some(p) => Some(([Quote] + p.0, p.1))
      else Some(("", s[1..]))
    else
      match ReadQuoted(s[1..])
      case None => None
      case Some(p) => Some(([s[0]] + p.0, p.1))
  }

  /** One record of quoted fields, and the text after it. */
  function ReadRecord(s: string): (r: Option<(seq<string>, string)>)
    ensures r.Some? ==> |r.value.0| >= 1 && |r.value.1| < |s|
    decreases |s|
  {
    if |s| == 0 || s[0] != Quote then None
    else
      match ReadQuoted(s[1..])
      case None => None
      case Some(p) =>
        if |p.1| > 0 && p.1[0] == ',' then
          match ReadRecord(p.1[1..])
          case None => None
          case Some(q) => Some(([p.0] + q.0, q.1))
        else Some(([p.0], p.1))
  }

  /** A whole document: records separated by '\n'; the last record may end
      with a line break of its own. */
  function Parse(s: string): (r: Option<seq<seq<string>>>)
    ensures r.Some? ==> |r.value| >= 1
    decreases |s|
  {
    match ReadRecord(s)
    case None => None
    case Some(p) =>
      if |p.1| == 0 || p.1 == "\n" then Some([p.0])
      else if p.1[0] == '\n' then
        match Parse(p.1[1..])
        case None => None
        case Some(rows) => Some([p.0] + rows)
      else None
  }

  // ---------------------------------------------------------------------
  // Round trip

  /** What may follow a closing quote: nothing, a separator or a line break. */
  predicate EndsField(t: string)
  {
    |t| == 0 || t[0] != Quote
  }

  lemma {:induction false} ReadEscaped(v: string, t: string)
    requires EndsField(t)
    ensures ReadQuoted(Escape(v) + ([Quote] + t)) == Some((v, t))
  {
    if |v| == 0 {
      assert Escape(v) + ([Quote] + t) == [Quote] + t;
      ReadClosing(t);
    } else {
      ReadEscaped(v[1..], t);
      ReadEscapedStep(v, [Quote] + t, t);
    }
  }

  /** One more character in front of a body that reads back. */
  lemma ReadEscapedStep(v: string, closed: string, t: string)
    requires |v| > 0
    requires ReadQuoted(Escape(v[1..]) + closed) == Some((v[1..], t))
    ensures ReadQuoted(Escape(v) + closed) == Some((v, t))
  {
    ReadOneMore(v[0], Escape(v[1..]) + closed);
    EscapeFirst(v, closed);
    assert [v[0]] + v[1..] == v;
  }

  /** The escaped text with whatever follows it, split after its first
      character. */
  lemma EscapeFirst(v: string, t: string)
    requires |v| > 0
    ensures Escape(v) + t == EscapedChar(v[0]) + (Escape(v[1..]) + t)
  {
  }

  /** A lone quote closes the field. */
  lemma ReadClosing(t: string)
    requires EndsField(t)
    ensures ReadQuoted([Quote] + t) == Some(("", t))
  {
    assert ([Quote] + t)[1..] == t;
  }

  /** A character as `Escape` writes it. */
  function EscapedChar(c: char): string
  {
    if c == Quote then [Quote, Quote] else [c]
  }

  /** Reading past one escaped character puts it in front of the body. */
  lemma ReadOneMore(c: char, tail: string)
    ensures ReadQuoted(EscapedChar(c) + tail) ==
      match ReadQuoted(tail)
      case None => None
      case Some(p) => Some(([c] + p.0, p.1))
  {
    var s := EscapedChar(c) + tail;
    if c == Quote {
      assert s[2..] == tail;
    } else {
      assert s[1..] == tail;
    }
  }

  lemma ReadField(v: string, t: string)
    requires EndsField(t)
    ensures ReadQuoted((QuoteField(v) + t)[1..]) == Some((v, t))
  {
    assert (QuoteField(v) + t)[1..] == Escape(v) + ([Quote] + t);
    ReadEscaped(v, t);
  }

  /** A record followed by a line break or by nothing reads back as its
      fields. */
  lemma {:induction false} ReadRecordBack(fields: seq<string>, t: string)
    requires |fields| >= 1
    requires |t| == 0 || t[0] == '\n'
    ensures ReadRecord(Record(fields) + t) == Some((fields, t))
  {
    if |fields| == 1 {
      RecordShape(fields);
      ReadLastField(fields[0], t);
      assert fields == [fields[0]];
    } else {
      ReadRecordBack(fields[1..], t);
      ReadRecordStep(fields, t);
    }
  }

  /** One more field in front of a record that reads back. */
  lemma ReadRecordStep(fields: seq<string>, t: string)
    requires |fields| > 1
    requires ReadRecord(Record(fields[1..]) + t) == Some((fields[1..], t))
    ensures ReadRecord(Record(fields) + t) == Some((fields, t))
  {
    var rest := Record(fields[1..]) + t;
    RecordShape(fields);
    assert Record(fields) + t == QuoteField(fields[0]) + ("," + rest);
    ReadFieldThenMore(fields[0], rest);
    assert [fields[0]] + fields[1..] == fields;
  }

  /** A record is its first quoted field, then ',' and the record of the
      others when there are any. */
  lemma RecordShape(fields: seq<string>)
    requires |fields| >= 1
    ensures |fields| == 1 ==> Record(fields) == QuoteField(fields[0])
    ensures |fields| > 1 ==> Record(fields) == QuoteField(fields[0]) + "," + Record(fields[1..])
  {
    var quoted := Map(fields, QuoteField);
    assert quoted[1..] == Map(fields[1..], QuoteField);
  }

  /** The last field of a record. */
  lemma ReadLastField(v: string, t: string)
    requires |t| == 0 || t[0] == '\n'
    ensures ReadRecord(QuoteField(v) + t) == Some(([v], t))
  {
    ReadField(v, t);
    assert (QuoteField(v) + t)[0] == Quote;
  }

  /** A field followed by ',' and more fields. */
  lemma ReadFieldThenMore(v: string, rest: string)
    ensures ReadRecord(QuoteField(v) + ("," + rest)) ==
      match ReadRecord(rest)
      case None => None
      case Some(q) => Some(([v] + q.0, q.1))
  {
    ReadField(v, "," + rest);
    assert (QuoteField(v) + ("," + rest))[0] == Quote;
    assert ("," + rest)[1..] == rest;
  }

  /** Parsing a document, with or without a final line break, gives back
      its records (every record non-empty; a document always holds at
      least one). */
  lemma {:induction false} ParseDocument(rows: seq<seq<string>>, end: string)
    requires |rows| >= 1
    requires forall k :: 0 <= k < |rows| ==> |rows[k]| >= 1
    requires end == "" || end == "\n"
    ensures Parse(Document(rows) + end) == Some(rows)
  {
    if |rows| == 1 {
      DocumentShape(rows, end);
      ReadRecordBack(rows[0], end);
      assert rows == [rows[0]];
    } else {
      var rest := Document(rows[1..]) + end;
      ParseDocument(rows[1..], end);
      DocumentShape(rows, end);
      ReadRecordBack(rows[0], "\n" + rest);
      DocumentStartsWithRecord(rows[1..]);
      ParseNextRecord(rows[0], rest);
      assert [rows[0]] + rows[1..] == rows;
    }
  }

  /** A document is its first record, then '\n' and the document of the
      others when there are any. */
  lemma DocumentShape(rows: seq<seq<string>>, end: string)
    requires |rows| >= 1
    ensures |rows| == 1 ==> Document(rows) + end == Record(rows[0]) + end
    ensures |rows| > 1 ==> Document(rows) + end == Record(rows[0]) + ("\n" + (Document(rows[1..]) + end))
  {
    var records := Map(rows, Record);
    assert records[1..] == Map(rows[1..], Record);
    if |rows| > 1 {
      Regroup(Record(rows[0]), "\n", Document(rows[1..]), end);
    }
  }

  lemma Regroup(a: string, b: string, c: string, d: string)
    ensures a + b + c + d == a + (b + (c + d))
  {
  }

  /** A record followed by a line break and at least two more characters. */
  lemma ParseNextRecord(fields: seq<string>, rest: string)
    requires |rest| >= 2
    requires ReadRecord(Record(fields) + ("\n" + rest)) == Some((fields, "\n" + rest))
    ensures Parse(Record(fields) + ("\n" + rest)) ==
      match Parse(rest)
      case None => None
      case Some(rows) => Some([fields] + rows)
  {
    assert ("\n" + rest)[1..] == rest;
    assert "\n" + rest != "\n";
  }

  lemma RecordStartsWithField(fields: seq<string>)
    requires |fields| >= 1
    ensures HasPrefix(Record(fields), QuoteField(fields[0]))
  {
    var quoted := Map(fields, QuoteField);
    if |fields| > 1 {
      assert Record(fields) == QuoteField(fields[0]) + ("," + Join(quoted[1..], ","));
    }
  }

  lemma DocumentStartsWithRecord(rows: seq<seq<string>>)
    requires |rows| >= 1 && |rows[0]| >= 1
    ensures |Document(rows)| >= 2
  {
    RecordStartsWithField(rows[0]);
    var records := Map(rows, Record);
    if |rows| > 1 {
      assert Document(rows) == Record(rows[0]) + ("\n" + Join(records[1..], "\n"));
    }
  }

  /** Two documents are equal only if their records are: quoting loses
      nothing. */
  lemma DocumentInjective(a: seq<seq<string>>, b: seq<seq<string>>)
    requires |a| >= 1 && |b| >= 1
    requires forall k :: 0 <= k < |a| ==> |a[k]| >= 1
    requires forall k :: 0 <= k < |b| ==> |b[k]| >= 1
    requires Document(a) == Document(b)
    ensures a == b
  {
    ParseDocument(a, "");
    ParseDocument(b, "");
    assert Document(a) + "" == Document(a) && Document(b) + "" == Document(b);
  }
}
