/** Comma-separated values as section 2 of RFC 4180 describes them, with one departure the
    exporter makes: records are separated by a line feed rather than CRLF.

    The writing side is what the exporter does to a field (double every quote, enclose the
    result in quotes) and how it joins fields and lines. The reading side is a reader for the
    same format, written independently; it is the partner the round-trip lemmas relate to the
    writer. */
module Rfc4180 {
  import opened Wrappers

  const Quote: char := '"'
  const Comma: char := ','
  const LineFeed: char := '\n'

  /** The number of characters in all the parts together. */
  function TotalLength(parts: seq<string>): nat
  {
    if |parts| == 0 then 0 else |parts[0]| + TotalLength(parts[1..])
  }

  /** `parts.join(sep)`: the parts with one separator between neighbours. */
  function Join(parts: seq<string>, sep: char): string
  {
    if |parts| == 0 then ""
    else if |parts| == 1 then parts[0]
    else parts[0] + [sep] + Join(parts[1..], sep)
  }

  /** A join holds every part's characters and one separator for each gap between two
      neighbouring parts. */
  lemma {:induction false} JoinLength(parts: seq<string>, sep: char)
    requires |parts| >= 1
    ensures |Join(parts, sep)| == TotalLength(parts) + |parts| - 1
  {
    if |parts| > 1 {
      JoinLength(parts[1..], sep);
    }
  }

  /** A join of at least one part starts with the first part and ends with the last. */
  lemma {:induction false} JoinEnds(parts: seq<string>, sep: char)
    requires |parts| >= 1
    ensures parts[0] <= Join(parts, sep)
    ensures |parts[|parts| - 1]| <= |Join(parts, sep)|
    ensures Join(parts, sep)[|Join(parts, sep)| - |parts[|parts| - 1]|..] == parts[|parts| - 1]
  {
    if |parts| > 1 {
      JoinEnds(parts[1..], sep);
      var j := Join(parts[1..], sep);
      assert Join(parts, sep) == (parts[0] + [sep]) + j;
    }
  }

  /** `s.replace(/"/g, '""')`: every double quote is doubled, everything else is kept. */
  function Escape(s: string): (r: string)
    ensures |r| >= |s|
  {
    if |s| == 0 then ""
    else (if s[0] == Quote then [Quote, Quote] else [s[0]]) + Escape(s[1..])
  }

  /** Inside an enclosed field, double quotes come only in adjacent pairs (rule 7). */
  predicate QuotesPaired(t: string)
  {
    if |t| == 0 then true
    else if t[0] == Quote then |t| >= 2 && t[1] == Quote && QuotesPaired(t[2..])
    else QuotesPaired(t[1..])
  }

  lemma {:induction false} EscapePairsQuotes(s: string)
    ensures QuotesPaired(Escape(s))
  {
    if |s| > 0 {
      EscapePairsQuotes(s[1..]);
      var e := Escape(s);
      if s[0] == Quote {
        assert e[2..] == Escape(s[1..]);
      } else {
        assert e[1..] == Escape(s[1..]);
      }
    }
  }

  /** One exported field: the escaped text between two double quotes (rules 5-7). */
  function QuoteField(s: string): (r: string)
    ensures |r| >= 2 && r[0] == Quote && r[|r| - 1] == Quote
    ensures QuotesPaired(r[1..|r| - 1])
  {
    EscapePairsQuotes(s);
    var r := [Quote] + Escape(s) + [Quote];
    assert r[1..|r| - 1] == Escape(s);
    r
  }

  function QuoteAll(fields: seq<string>): (r: seq<string>)
    ensures |r| == |fields|
    ensures forall i :: 0 <= i < |r| ==> r[i] == QuoteField(fields[i])
  {
    if |fields| == 0 then [] else [QuoteField(fields[0])] + QuoteAll(fields[1..])
  }

  // ---------------------------------------------------------------------------------
  // Reading

  /** The body of an enclosed field, read after its opening quote: the unescaped text
      and what follows the closing quote. None when the closing quote is missing. */
  function ReadQuoted(t: string): (r: Option<(string, string)>)
    ensures r.Some? ==> |r.value.1| < |t|
  {
    if |t| == 0 then None
    else if t[0] == Quote then
      if |t| > 1 && t[1] == Quote then
        match ReadQuoted(t[2..])
        case None => None
        case Some((v, rest)) => Some(([Quote] + v, rest))
      else Some(("", t[1..]))
    else
      match ReadQuoted(t[1..])
      case None => None
      case Some((v, rest)) => Some(([t[0]] + v, rest))
  }

  /** A field that is not enclosed in quotes runs up to the next comma or line feed. */
  function ReadPlain(t: string): (r: (string, string))
    ensures r.0 + r.1 == t
    ensures r.1 == [] || r.1[0] == Comma || r.1[0] == LineFeed
    ensures forall i :: 0 <= i < |r.0| ==> r.0[i] != Comma && r.0[i] != LineFeed
  {
    if |t| == 0 || t[0] == Comma || t[0] == LineFeed then ("", t)
    else
      var (v, rest) := ReadPlain(t[1..]);
      ([t[0]] + v, rest)
  }

  function ReadField(t: string): (r: Option<(string, string)>)
    ensures r.Some? ==> |r.value.1| <= |t|
  {
    if |t| > 0 && t[0] == Quote then ReadQuoted(t[1..]) else Some(ReadPlain(t))
  }

  /** One record: its fields, the input after it, and whether a line feed ended it
      (so that another record follows). None when a closing quote is missing or is
      followed by something other than a separator. */
  function ReadRecord(t: string): (r: Option<(seq<string>, string, bool)>)
    ensures r.Some? ==> |r.value.0| >= 1 && |r.value.1| <= |t|
    ensures r.Some? && r.value.2 ==> |r.value.1| < |t|
    decreases |t|
  {
    match ReadField(t)
    case None => None
    case Some((f, rest)) =>
      if |rest| == 0 then Some(([f], "", false))
      else if rest[0] == LineFeed then Some(([f], rest[1..], true))
      else if rest[0] == Comma then
        match ReadRecord(rest[1..])
        case None => None
        case Some((fs, rest', more)) => Some(([f] + fs, rest', more))
      else None
  }

  /** A whole file: its records, in order. */
  function ReadCsv(t: string): (r: Option<seq<seq<string>>>)
    ensures r.Some? ==> |r.value| >= 1
    decreases |t|
  {
    match ReadRecord(t)
    case None => None
    case Some((fs, rest, more)) =>
      if more then
        match ReadCsv(rest)
        case None => None
        case Some(rows) => Some([fs] + rows)
      else Some([fs])
  }

  /** Strips the enclosing quotes of one field and collapses each doubled quote. */
  function UnquoteField(t: string): Option<string>
  {
    if |t| > 0 && t[0] == Quote then
      match ReadQuoted(t[1..])
      case None => None
      case Some((v, rest)) => if rest == "" then Some(v) else None
    else None
  }

  // ---------------------------------------------------------------------------------
  // The reader undoes the writer

  /** What may follow a closing quote without being mistaken for a doubled quote. */
  predicate NotQuoteStart(rest: string)
  {
    rest == [] || rest[0] != Quote
  }

  lemma {:induction false} ReadQuotedEscape(s: string, rest: string)
    requires NotQuoteStart(rest)
    ensures ReadQuoted(Escape(s) + [Quote] + rest) == Some((s, rest))
  {
    var t := Escape(s) + [Quote] + rest;
    if |s| == 0 {
      assert t == [Quote] + rest;
      assert t[1..] == rest;
    } else if s[0] == Quote {
      assert t == [Quote, Quote] + (Escape(s[1..]) + [Quote] + rest);
      assert t[2..] == Escape(s[1..]) + [Quote] + rest;
      ReadQuotedEscape(s[1..], rest);
      assert [Quote] + s[1..] == s;
    } else {
      assert t == [s[0]] + (Escape(s[1..]) + [Quote] + rest);
      assert t[1..] == Escape(s[1..]) + [Quote] + rest;
      ReadQuotedEscape(s[1..], rest);
      assert [s[0]] + s[1..] == s;
    }
  }

  /** Conversely, whatever the reader accepts is the escape of what it returns. */
  lemma {:induction false} ReadQuotedInverse(t: string, v: string, rest: string)
    requires ReadQuoted(t) == Some((v, rest))
    ensures t == Escape(v) + [Quote] + rest && NotQuoteStart(rest)
    decreases |t|
  {
    if t[0] == Quote && |t| > 1 && t[1] == Quote {
      var (v', rest') := ReadQuoted(t[2..]).value;
      ReadQuotedInverse(t[2..], v', rest');
      assert v == [Quote] + v' && rest == rest';
      assert t == [Quote, Quote] + t[2..];
      EscapeCons(Quote, v');
      PrefixStep([Quote, Quote], Escape(v'), rest, t, t[2..]);
    } else if t[0] == Quote {
      assert v == "" && rest == t[1..];
      assert t == [Quote] + t[1..];
    } else {
      var (v', rest') := ReadQuoted(t[1..]).value;
      ReadQuotedInverse(t[1..], v', rest');
      assert v == [t[0]] + v' && rest == rest';
      assert t == [t[0]] + t[1..];
      EscapeCons(t[0], v');
      PrefixStep([t[0]], Escape(v'), rest, t, t[1..]);
    }
  }

  lemma EscapeCons(c: char, w: string)
    ensures Escape([c] + w) == (if c == Quote then [Quote, Quote] else [c]) + Escape(w)
  {
    assert ([c] + w)[1..] == w;
  }

  lemma PrefixStep(h: string, e: string, rest: string, t: string, t': string)
    requires t == h + t' && t' == e + [Quote] + rest
    ensures t == (h + e) + [Quote] + rest
  {
  }

  lemma UnquoteQuoteField(s: string)
    ensures UnquoteField(QuoteField(s)) == Some(s)
  {
    var t := QuoteField(s);
    assert t[1..] == Escape(s) + [Quote] + "";
    ReadQuotedEscape(s, "");
  }

  /** The only text that unquotes to s is the quoted form of s. */
  lemma UnquoteFieldInverse(t: string, s: string)
    requires UnquoteField(t) == Some(s)
    ensures t == QuoteField(s)
  {
    var (v, rest) := ReadQuoted(t[1..]).value;
    ReadQuotedInverse(t[1..], v, rest);
    assert t == [Quote] + t[1..];
  }

  /** A field that can be written without quotes: no separator, and no opening quote. */
  predicate PlainField(f: string)
  {
    NoSeparator(f) && (|f| == 0 || f[0] != Quote)
  }

  /** What may follow the last field of a record: nothing, or a line feed. */
  predicate RecordEnd(tail: string)
  {
    tail == [] || tail[0] == LineFeed
  }

  function AfterRecord(tail: string): (string, bool)
    requires RecordEnd(tail)
  {
    if tail == [] then ("", false) else (tail[1..], true)
  }

  /** No comma and no line feed. */
  predicate NoSeparator(f: string)
  {
    forall i :: 0 <= i < |f| ==> f[i] != Comma && f[i] != LineFeed
  }

  lemma {:induction false} ReadPlainUpTo(f: string, rest: string)
    requires NoSeparator(f)
    requires rest == [] || rest[0] == Comma || rest[0] == LineFeed
    ensures ReadPlain(f + rest) == (f, rest)
  {
    if |f| == 0 {
      assert f + rest == rest;
    } else {
      assert (f + rest)[1..] == f[1..] + rest;
      ReadPlainUpTo(f[1..], rest);
      assert [f[0]] + f[1..] == f;
    }
  }

  lemma ReadPlainField(f: string, rest: string)
    requires PlainField(f)
    requires rest == [] || rest[0] == Comma || rest[0] == LineFeed
    ensures ReadField(f + rest) == Some((f, rest))
  {
    ReadPlainUpTo(f, rest);
  }

  lemma ReadQuotedField(f: string, rest: string)
    requires rest == [] || rest[0] == Comma || rest[0] == LineFeed
    ensures ReadField(QuoteField(f) + rest) == Some((f, rest))
  {
    var t := QuoteField(f) + rest;
    assert t[1..] == Escape(f) + [Quote] + rest;
    ReadQuotedEscape(f, rest);
  }

  /** A field followed by a comma and a readable rest reads as one record. */
  lemma ReadRecordCons(t: string, f: string, rest: string, fs: seq<string>, after: string, more: bool)
    requires ReadField(t) == Some((f, [Comma] + rest))
    requires ReadRecord(rest) == Some((fs, after, more))
    ensures ReadRecord(t) == Some(([f] + fs, after, more))
  {
    assert ([Comma] + rest)[1..] == rest;
  }

  /** A record of enclosed fields reads back as its fields. */
  lemma {:induction false} ReadQuotedRecord(fields: seq<string>, tail: string)
    requires |fields| >= 1 && RecordEnd(tail)
    ensures ReadRecord(Join(QuoteAll(fields), Comma) + tail) ==
            Some((fields, AfterRecord(tail).0, AfterRecord(tail).1))
  {
    if |fields| == 1 {
      ReadQuotedSingle(fields, tail);
    } else {
      ReadQuotedRecord(fields[1..], tail);
      ReadQuotedStep(fields, tail);
    }
  }

  lemma ReadQuotedSingle(fields: seq<string>, tail: string)
    requires |fields| == 1 && RecordEnd(tail)
    ensures ReadRecord(Join(QuoteAll(fields), Comma) + tail) ==
            Some((fields, AfterRecord(tail).0, AfterRecord(tail).1))
  {
    ReadQuotedField(fields[0], tail);
    assert Join(QuoteAll(fields), Comma) == QuoteField(fields[0]);
    assert fields == [fields[0]];
  }

  /** One more enclosed field in front of a record that reads back. */
  lemma ReadQuotedStep(fields: seq<string>, tail: string)
    requires |fields| >= 2 && RecordEnd(tail)
    requires ReadRecord(Join(QuoteAll(fields[1..]), Comma) + tail) ==
             Some((fields[1..], AfterRecord(tail).0, AfterRecord(tail).1))
    ensures ReadRecord(Join(QuoteAll(fields), Comma) + tail) ==
            Some((fields, AfterRecord(tail).0, AfterRecord(tail).1))
  {
    var rest := Join(QuoteAll(fields[1..]), Comma) + tail;
    var t := QuoteField(fields[0]) + ([Comma] + rest);
    QuoteAllJoinCons(fields, tail);
    ReadQuotedField(fields[0], [Comma] + rest);
    ReadRecordCons(t, fields[0], rest, fields[1..], AfterRecord(tail).0, AfterRecord(tail).1);
    ConsSplit(fields);
  }

  /** The written record splits after its first enclosed field and comma. */
  lemma QuoteAllJoinCons(fields: seq<string>, tail: string)
    requires |fields| >= 2
    ensures Join(QuoteAll(fields), Comma) + tail ==
            QuoteField(fields[0]) + ([Comma] + (Join(QuoteAll(fields[1..]), Comma) + tail))
  {
    var q := QuoteAll(fields);
    JoinConsTail(q, Comma, tail);
    assert q[1..] == QuoteAll(fields[1..]);
  }

  lemma JoinConsTail(parts: seq<string>, sep: char, tail: string)
    requires |parts| >= 2
    ensures Join(parts, sep) + tail == parts[0] + ([sep] + (Join(parts[1..], sep) + tail))
  {
  }

  lemma ConsSplit(fields: seq<string>)
    requires |fields| >= 1
    ensures [fields[0]] + fields[1..] == fields
  {
  }

  /** A record of plain fields reads back as its fields. */
  lemma {:induction false} ReadPlainRecord(fields: seq<string>, tail: string)
    requires |fields| >= 1 && RecordEnd(tail)
    requires forall i :: 0 <= i < |fields| ==> PlainField(fields[i])
    ensures ReadRecord(Join(fields, Comma) + tail) ==
            Some((fields, AfterRecord(tail).0, AfterRecord(tail).1))
  {
    if |fields| == 1 {
      ReadPlainField(fields[0], tail);
      assert fields == [fields[0]];
    } else {
      var rest := Join(fields[1..], Comma) + tail;
      assert Join(fields, Comma) + tail == fields[0] + ([Comma] + rest);
      ReadPlainField(fields[0], [Comma] + rest);
      assert ([Comma] + rest)[1..] == rest;
      ReadPlainRecord(fields[1..], tail);
      assert [fields[0]] + fields[1..] == fields;
    }
  }

  /** The serialisation of a table of records, every field enclosed. */
  function QuotedLines(rows: seq<seq<string>>): (r: seq<string>)
    ensures |r| == |rows|
  {
    if |rows| == 0 then [] else [Join(QuoteAll(rows[0]), Comma)] + QuotedLines(rows[1..])
  }

  /** Lines of enclosed fields joined by line feeds read back as the table they came from. */
  lemma {:induction false} ReadQuotedLines(rows: seq<seq<string>>)
    requires |rows| >= 1
    requires forall i :: 0 <= i < |rows| ==> |rows[i]| >= 1
    ensures ReadCsv(Join(QuotedLines(rows), LineFeed)) == Some(rows)
  {
    var lines := QuotedLines(rows);
    if |rows| == 1 {
      ReadQuotedRecord(rows[0], "");
      assert Join(lines, LineFeed) == Join(QuoteAll(rows[0]), Comma) + "";
      assert rows == [rows[0]];
    } else {
      assert lines[1..] == QuotedLines(rows[1..]);
      var rest := Join(lines[1..], LineFeed);
      assert Join(lines, LineFeed) == Join(QuoteAll(rows[0]), Comma) + ([LineFeed] + rest);
      assert ReadRecord(Join(QuoteAll(rows[0]), Comma) + ([LineFeed] + rest)) == Some((rows[0], rest, true)) by {
        ReadQuotedRecord(rows[0], [LineFeed] + rest);
        assert ([LineFeed] + rest)[1..] == rest;
      }
      assert ReadCsv(rest) == Some(rows[1..]) by {
        ReadQuotedLines(rows[1..]);
      }
      assert [rows[0]] + rows[1..] == rows;
    }
  }
}
