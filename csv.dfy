/** Comma-separated text as the warranty export writes it: records joined
    by line feeds, fields joined by commas, each field either written bare
    or wrapped in double quotes with every inner quote doubled (the quoting
    rules of section 2 of RFC 4180, items 5 to 7).  A reader for such text
    is given so that the export can be shown to be read back field for
    field. */
module Csv {
  import opened Wrappers
  import opened JsText

  /** `f.replace(/"/g, '""')`. */
  function Escape(f: string): (r: string)
    ensures |r| >= |f|
  {
    if f == [] then [] else (if f[0] == '"' then "\"\"" else [f[0]]) + Escape(f[1..])
  }

  /** `'"' + Escape(f) + '"'`. */
  function Quote(f: string): (r: string)
    ensures |r| >= 2 && r[0] == '"' && r[|r| - 1] == '"'
  {
    "\"" + Escape(f) + "\""
  }

  /** A field that can be written without quotes. */
  predicate Bare(f: string) {
    '"' !in f && ',' !in f && '\n' !in f
  }

  /** One record: its fields, and whether they are written quoted. */
  datatype Record = Record(fields: seq<string>, quoted: bool)

  predicate WellFormed(r: Record) {
    |r.fields| >= 1 && (!r.quoted ==> forall k | 0 <= k < |r.fields| :: Bare(r.fields[k]))
  }

  function Encode(fields: seq<string>, quoted: bool): (r: seq<string>)
    ensures |r| == |fields|
  {
    seq(|fields|, k requires 0 <= k < |fields| => if quoted then Quote(fields[k]) else fields[k])
  }

  /** Fields written bare are written as they are. */
  lemma EncodeBare(fields: seq<string>)
    ensures Encode(fields, false) == fields
  {
  }

  /** The text of one record: `fields.join(',')` after quoting. */
  function Line(r: Record): string {
    Join(Encode(r.fields, r.quoted), ',')
  }

  /** The text of a document: `lines.join('\n')`. */
  function Document(rs: seq<Record>): string {
    Join(seq(|rs|, k requires 0 <= k < |rs| => Line(rs[k])), '\n')
  }

  // ---- reading ------------------------------------------------------------

  /** Reads the content of a quoted field after its opening quote, up to
      the closing quote; a doubled quote stands for one quote. */
  function ReadQuoted(s: string): (r: Option<(string, string)>)
    ensures r.Some? ==> |r.value.1| < |s|
  {
    if s == [] then None
    else if s[0] == '"' then
      if |s| >= 2 && s[1] == '"' then
        match ReadQuoted(s[2..])
        case None => None
        case Some(p) => Some(("\"" + p.0, p.1))
      else Some(([], s[1..]))
    else
      match ReadQuoted(s[1..])
      case None => None
      case Some(p) => Some(([s[0]] + p.0, p.1))
  }

  /** Reads an unquoted field, up to a comma, a line feed or the end. */
  function ReadBare(s: string): (r: (string, string))
    ensures r.0 + r.1 == s
  {
    if s == [] || s[0] == ',' || s[0] == '\n' then ([], s)
    else
      var p := ReadBare(s[1..]);
      assert [s[0]] + p.0 + p.1 == [s[0]] + s[1..] == s;
      ([s[0]] + p.0, p.1)
  }

  function ReadField(s: string): (r: Option<(string, string)>)
    ensures r.Some? ==> |r.value.1| <= |s|
  {
    if s != [] && s[0] == '"' then ReadQuoted(s[1..]) else Some(ReadBare(s))
  }

  /** Reads one record: its fields, and the text after its line feed, or
      `None` when the text ends with the record. */
  function ReadRecord(s: string): (r: Option<(seq<string>, Option<string>)>)
    ensures r.Some? && r.value.1.Some? ==> |r.value.1.value| < |s|
    decreases |s|
  {
    match ReadField(s)
    case None => None
    case Some(p) =>
      var (f, rest) := p;
      if rest == [] then Some(([f], None))
      else if rest[0] == ',' then
        match ReadRecord(rest[1..])
        case None => None
        case Some(q) => Some(([f] + q.0, q.1))
      else if rest[0] == '\n' then Some(([f], Some(rest[1..])))
      else None
  }

  /** Reads every record of a text. */
  function ReadDocument(s: string): (r: Option<seq<seq<string>>>)
    decreases |s|
  {
    match ReadRecord(s)
    case None => None
    case Some(p) =>
      match p.1
      case None => Some([p.0])
      case Some(rest) =>
        match ReadDocument(rest)
        case None => None
        case Some(rs) => Some([p.0] + rs)
  }

  // ---- reading back what was written ----------------------------------------

  lemma {:induction false} ReadEscaped(f: string, rest: string)
    requires rest == [] || rest[0] != '"'
    ensures ReadQuoted(Escape(f) + "\"" + rest) == Some((f, rest))
    decreases |f|
  {
    var s := Escape(f) + "\"" + rest;
    if f == [] {
      assert s == "\"" + rest;
      assert s[1..] == rest;
    } else if f[0] == '"' {
      assert s == "\"\"" + (Escape(f[1..]) + "\"" + rest);
      assert s[2..] == Escape(f[1..]) + "\"" + rest;
      ReadEscaped(f[1..], rest);
      assert "\"" + f[1..] == f;
    } else {
      assert s == [f[0]] + (Escape(f[1..]) + "\"" + rest);
      assert s[1..] == Escape(f[1..]) + "\"" + rest;
      ReadEscaped(f[1..], rest);
      assert [f[0]] + f[1..] == f;
    }
  }

  lemma {:induction false} ReadBareField(f: string, rest: string)
    requires Bare(f)
    requires rest == [] || rest[0] == ',' || rest[0] == '\n'
    ensures ReadBare(f + rest) == (f, rest)
    decreases |f|
  {
    if f == [] {
      assert f + rest == rest;
    } else {
      assert (f + rest)[0] == f[0] && (f + rest)[1..] == f[1..] + rest;
      assert f[0] in f;
      assert Bare(f[1..]) by {
        forall c | c in f[1..] ensures c in f {}
      }
      ReadBareField(f[1..], rest);
      assert [f[0]] + f[1..] == f;
    }
  }

  /** An encoded field followed by a separator reads back as the field. */
  lemma ReadEncodedField(f: string, quoted: bool, rest: string)
    requires !quoted ==> Bare(f)
    requires rest == [] || rest[0] == ',' || rest[0] == '\n'
    ensures ReadField((if quoted then Quote(f) else f) + rest) == Some((f, rest))
  {
    if quoted {
      ReadQuotedField(f, rest);
    } else {
      ReadBareText(f, rest);
    }
  }

  lemma ReadQuotedField(f: string, rest: string)
    requires rest == [] || rest[0] == ',' || rest[0] == '\n'
    ensures ReadField(Quote(f) + rest) == Some((f, rest))
  {
    var s := Quote(f) + rest;
    assert s == "\"" + (Escape(f) + "\"" + rest);
    assert s[1..] == Escape(f) + "\"" + rest;
    ReadEscaped(f, rest);
  }

  lemma ReadBareText(f: string, rest: string)
    requires Bare(f)
    requires rest == [] || rest[0] == ',' || rest[0] == '\n'
    ensures ReadField(f + rest) == Some((f, rest))
  {
    ReadBareField(f, rest);
    if f != [] {
      assert (f + rest)[0] == f[0] && f[0] in f;
    } else {
      assert f + rest == rest;
    }
  }

  /** One written record, followed by the end of the text or a line feed,
      reads back as its fields. */
  lemma {:induction false} ReadLine(fields: seq<string>, quoted: bool, tail: string)
    requires WellFormed(Record(fields, quoted))
    requires tail == [] || tail[0] == '\n'
    ensures ReadRecord(Line(Record(fields, quoted)) + tail) ==
      Some((fields, if tail == [] then None else Some(tail[1..])))
    decreases |fields|, 1
  {
    if |fields| == 1 {
      var first := if quoted then Quote(fields[0]) else fields[0];
      assert Encode(fields, quoted) == [first];
      ReadEncodedField(fields[0], quoted, tail);
      assert fields == [fields[0]];
    } else {
      ReadLineMore(fields, quoted, tail);
    }
  }

  /** The step of `ReadLine` for a record of several fields. */
  lemma {:induction false} ReadLineMore(fields: seq<string>, quoted: bool, tail: string)
    requires WellFormed(Record(fields, quoted)) && |fields| >= 2
    requires tail == [] || tail[0] == '\n'
    ensures ReadRecord(Line(Record(fields, quoted)) + tail) ==
      Some((fields, if tail == [] then None else Some(tail[1..])))
    decreases |fields|, 0
  {
    var first := if quoted then Quote(fields[0]) else fields[0];
    var more := Line(Record(fields[1..], quoted));
    LineCons(fields, quoted);
    assert Line(Record(fields, quoted)) + tail == first + ([','] + (more + tail));
    ReadEncodedField(fields[0], quoted, [','] + (more + tail));
    ReadRecordComma(Line(Record(fields, quoted)) + tail, fields[0], more + tail);
    ReadLine(fields[1..], quoted, tail);
    assert [fields[0]] + fields[1..] == fields;
  }

  /** A record of several fields is its first field, a comma and the rest. */
  lemma LineCons(fields: seq<string>, quoted: bool)
    requires |fields| >= 2
    ensures Line(Record(fields, quoted)) ==
      (if quoted then Quote(fields[0]) else fields[0]) + [','] + Line(Record(fields[1..], quoted))
  {
    var parts := Encode(fields, quoted);
    assert parts[1..] == Encode(fields[1..], quoted);
  }

  /** A field followed by a comma starts a record of more fields. */
  lemma ReadRecordComma(s: string, f: string, r: string)
    requires ReadField(s) == Some((f, [','] + r))
    ensures ReadRecord(s) == match ReadRecord(r)
                             case None => None
                             case Some(q) => Some(([f] + q.0, q.1))
  {
    assert ([','] + r)[1..] == r;
  }

  /** A written document reads back as the fields of its records. */
  lemma {:induction false} ReadBack(rs: seq<Record>)
    requires |rs| >= 1
    requires forall k | 0 <= k < |rs| :: WellFormed(rs[k])
    ensures ReadDocument(Document(rs)) == Some(seq(|rs|, k requires 0 <= k < |rs| => rs[k].fields))
    decreases |rs|
  {
    var lines := seq(|rs|, k requires 0 <= k < |rs| => Line(rs[k]));
    var want := seq(|rs|, k requires 0 <= k < |rs| => rs[k].fields);
    if |rs| == 1 {
      assert Document(rs) == Line(rs[0]) + [];
      ReadLine(rs[0].fields, rs[0].quoted, []);
      assert want == [rs[0].fields];
    } else {
      var more := seq(|rs| - 1, k requires 0 <= k < |rs| - 1 => Line(rs[1..][k]));
      assert lines[1..] == more;
      var tail := ['\n'] + Document(rs[1..]);
      assert Document(rs) == Line(rs[0]) + tail;
      ReadLine(rs[0].fields, rs[0].quoted, tail);
      assert tail[1..] == Document(rs[1..]);
      ReadBack(rs[1..]);
      assert want == [rs[0].fields] + seq(|rs| - 1, k requires 0 <= k < |rs| - 1 => rs[1..][k].fields);
    }
  }

  /** Data rows written quoted, one line each. */
  function QuotedLines(rows: seq<seq<string>>): (ls: seq<string>)
    ensures |ls| == |rows|
  {
    seq(|rows|, i requires 0 <= i < |rows| => Line(Record(rows[i], true)))
  }

  lemma QuotedLinesStep(rows: seq<seq<string>>, row: seq<string>)
    ensures QuotedLines(rows + [row]) == QuotedLines(rows) + [Line(Record(row, true))]
  {
  }

  /** A bare header followed by quoted rows reads back as the header and the rows. */
  lemma ReadTable(header: seq<string>, rows: seq<seq<string>>)
    requires WellFormed(Record(header, false))
    requires forall i | 0 <= i < |rows| :: |rows[i]| >= 1
    ensures ReadDocument(Join([Line(Record(header, false))] + QuotedLines(rows), '\n')) == Some([header] + rows)
  {
    var rs := [Record(header, false)] + seq(|rows|, i requires 0 <= i < |rows| => Record(rows[i], true));
    assert forall k | 1 <= k < |rs| :: rs[k] == Record(rows[k - 1], true);
    assert forall k | 0 <= k < |rs| :: WellFormed(rs[k]);
    assert [Line(Record(header, false))] + QuotedLines(rows) == seq(|rs|, k requires 0 <= k < |rs| => Line(rs[k]));
    ReadBack(rs);
    assert seq(|rs|, k requires 0 <= k < |rs| => rs[k].fields) == [header] + rows;
  }
}
