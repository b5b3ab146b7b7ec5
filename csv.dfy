/**
 * The CSV text of the report export (web/pages.js): every field quoted,
 * every `"` inside it doubled, fields joined with `,` and records with LF,
 * no newline after the last record.
 *
 * Beside the writer stands a reader for the quoted fields of section 2 of
 * RFC 4180 (rules 5 to 7), records separated by LF: what the writer writes,
 * the reader reads back.
 */
module Csv {
  import opened Wrappers
  import opened JsText

  /** `s.replace(/"/g, '""')`. */
  function Escape(s: string): (r: string)
    ensures |r| >= |s|
  {
    if s == [] then []
    else (if s[0] == '"' then "\"\"" else [s[0]]) + Escape(s[1..])
  }

  /** One field as written: `"` + escaped text + `"`. */
  function Quote(s: string): string {
    "\"" + Escape(s) + "\""
  }

  function QuoteAll(fields: seq<string>): (q: seq<string>)
    ensures |q| == |fields| && forall i :: 0 <= i < |fields| ==> q[i] == Quote(fields[i])
  {
    seq(|fields|, i requires 0 <= i < |fields| => Quote(fields[i]))
  }

  function EncodeRecord(fields: seq<string>): string {
    Join(QuoteAll(fields), ',')
  }

  function EncodeRecords(records: seq<seq<string>>): (lines: seq<string>)
    ensures |lines| == |records| && forall i :: 0 <= i < |records| ==> lines[i] == EncodeRecord(records[i])
  {
    seq(|records|, i requires 0 <= i < |records| => EncodeRecord(records[i]))
  }

  /** The whole document: records joined with LF. */
  function Encode(records: seq<seq<string>>): string {
    Join(EncodeRecords(records), '\n')
  }

  // ---------------------------------------------------------------------------
  // The reader

  /**
   * The inside of a quoted field, read up to its closing quote: `""` is one
   * quote, a lone `"` ends the field. Gives the text and what follows the
   * closing quote; None when the field is not closed.
   */
  function ReadQuoted(t: string): (r: Option<(string, string)>)
    ensures r.Some? ==> |r.value.1| < |t|
  {
    if t == [] then None
    else if t[0] == '"' then
      if |t| > 1 && t[1] == '"' then
        match ReadQuoted(t[2..])
        case None => None
        case Some(p) => Some(("\"" + p.0, p.1))
      else Some(([], t[1..]))
    else
      match ReadQuoted(t[1..])
      case None => None
      case Some(p) => Some(([t[0]] + p.0, p.1))
  }

  /** One record: quoted fields separated by `,`; gives the fields and the text after the record. */
  function ReadRecord(t: string): (r: Option<(seq<string>, string)>)
    ensures r.Some? ==> |r.value.1| < |t| && |r.value.0| > 0
    decreases |t|
  {
    if t == [] || t[0] != '"' then None
    else
      match ReadQuoted(t[1..])
      case None => None
      case Some(p) =>
        var (field, rest) := p;
        if rest != [] && rest[0] == ',' then
          match ReadRecord(rest[1..])
          case None => None
          case Some(q) => Some(([field] + q.0, q.1))
        else Some(([field], rest))
  }

  /** A document: records separated by LF, up to the end of the text. */
  function ReadDocument(t: string): Option<seq<seq<string>>>
    decreases |t|
  {
    match ReadRecord(t)
    case None => None
    case Some(p) =>
      var (record, rest) := p;
      if rest == [] then Some([record])
      else if rest[0] == '\n' then
        match ReadDocument(rest[1..])
        case None => None
        case Some(more) => Some([record] + more)
      else None
  }

  // ---------------------------------------------------------------------------
  // Round trip

  /** The reader takes back an escaped field up to its closing quote. */
  lemma {:induction false} ReadEscaped(s: string, rest: string)
    requires rest == [] || rest[0] != '"'
    ensures ReadQuoted(Escape(s) + "\"" + rest) == Some((s, rest))
  {
    if s == [] {
      assert Escape(s) + "\"" + rest == "\"" + rest;
    } else {
      ReadEscaped(s[1..], rest);
      if s[0] == '"' {
        ReadEscapedQuote(s, rest);
      } else {
        ReadEscapedOther(s, rest);
      }
    }
  }

  /** A quote inside the field is written doubled and read as one. */
  lemma ReadEscapedQuote(s: string, rest: string)
    requires s != [] && s[0] == '"'
    requires ReadQuoted(Escape(s[1..]) + "\"" + rest) == Some((s[1..], rest))
    ensures ReadQuoted(Escape(s) + "\"" + rest) == Some((s, rest))
  {
    var tail := Escape(s[1..]) + "\"" + rest;
    var t := "\"\"" + tail;
    assert Escape(s) + "\"" + rest == t;
    assert t[2..] == tail;
    assert "\"" + s[1..] == s;
  }

  /** Any other character is written and read as itself. */
  lemma ReadEscapedOther(s: string, rest: string)
    requires s != [] && s[0] != '"'
    requires ReadQuoted(Escape(s[1..]) + "\"" + rest) == Some((s[1..], rest))
    ensures ReadQuoted(Escape(s) + "\"" + rest) == Some((s, rest))
  {
    var tail := Escape(s[1..]) + "\"" + rest;
    var t := [s[0]] + tail;
    assert Escape(s) + "\"" + rest == t;
    assert t[1..] == tail;
    assert [s[0]] + s[1..] == s;
  }

  /** The text of a record after its first field's opening quote. */
  lemma EncodedRecordShape(fields: seq<string>, rest: string)
    requires |fields| > 0
    ensures |fields| == 1 ==> EncodeRecord(fields) + rest == "\"" + (Escape(fields[0]) + "\"" + rest)
    ensures |fields| > 1 ==>
      EncodeRecord(fields) + rest == "\"" + (Escape(fields[0]) + "\"" + ([','] + (EncodeRecord(fields[1..]) + rest)))
  {
    var q := QuoteAll(fields);
    if |fields| > 1 {
      assert q[1..] == QuoteAll(fields[1..]);
    }
  }

  /** A record as written, followed by LF or the end, reads back as its fields. */
  lemma {:induction false} ReadEncodedRecord(fields: seq<string>, rest: string)
    requires |fields| > 0
    requires rest == [] || rest[0] == '\n'
    ensures ReadRecord(EncodeRecord(fields) + rest) == Some((fields, rest))
  {
    EncodedRecordShape(fields, rest);
    var t := EncodeRecord(fields) + rest;
    if |fields| == 1 {
      assert t[1..] == Escape(fields[0]) + "\"" + rest;
      ReadEscaped(fields[0], rest);
      assert [fields[0]] == fields;
    } else {
      var tail := EncodeRecord(fields[1..]) + rest;
      ReadEncodedRecord(fields[1..], rest);
      assert t[1..] == Escape(fields[0]) + "\"" + ([','] + tail);
      ReadEscaped(fields[0], [','] + tail);
      assert ([','] + tail)[1..] == tail;
      assert [fields[0]] + fields[1..] == fields;
    }
  }

  /** Every document the writer produces, of non-empty records, reads back as those records. */
  lemma {:induction false} ReadEncoded(records: seq<seq<string>>)
    requires |records| > 0
    requires forall i :: 0 <= i < |records| ==> |records[i]| > 0
    ensures ReadDocument(Encode(records)) == Some(records)
  {
    if |records| == 1 {
      ReadEncodedRecord(records[0], []);
      assert EncodeRecords(records) == [EncodeRecord(records[0])];
      assert Encode(records) == EncodeRecord(records[0]) + [];
      assert [records[0]] == records;
    } else {
      var tail := Encode(records[1..]);
      ReadEncoded(records[1..]);
      assert EncodeRecords(records)[1..] == EncodeRecords(records[1..]);
      assert Encode(records) == EncodeRecord(records[0]) + ['\n'] + tail;
      ReadEncodedRecord(records[0], ['\n'] + tail);
      assert EncodeRecord(records[0]) + ['\n'] + tail == EncodeRecord(records[0]) + (['\n'] + tail);
      assert (['\n'] + tail)[1..] == tail;
      assert [records[0]] + records[1..] == records;
    }
  }

  /** The writer is injective on documents of non-empty records. */
  lemma EncodeInjective(a: seq<seq<string>>, b: seq<seq<string>>)
    requires |a| > 0 && forall i :: 0 <= i < |a| ==> |a[i]| > 0
    requires |b| > 0 && forall i :: 0 <= i < |b| ==> |b[i]| > 0
    requires Encode(a) == Encode(b)
    ensures a == b
  {
    ReadEncoded(a);
    ReadEncoded(b);
  }
}
