/** The CSV text `exportToExcel` builds (src/utils/exportUtils.ts). The download that
    follows (a Blob, an object URL and a hidden link that is clicked) is not modelled. */
module ExportUtils {
  import opened Wrappers
  import opened Scraping
  import opened Rfc4180

  const Headers: seq<string> := ["Title", "URL", "Description", "Keyword", "Extracted Text", "Timestamp"]

  /** `headers.join(',')`, the first line of every export: the six column names separated
      by commas, exactly as the exporter writes them out. */
  function HeaderLine(): (r: string)
    ensures r == HeaderText
  {
    JoinSix("Title", "URL", "Description", "Keyword", "Extracted Text", "Timestamp", Comma);
    HeaderPairs();
    Join(Headers, Comma)
  }

  /** The six values of one record in column order. The timestamp goes through
      `new Date(timestamp).toLocaleString()`, a locale-dependent rendering taken as a parameter. */
  function RowFields(item: ScrapingData, localeString: string -> string): (fs: seq<string>)
    ensures |fs| == |Headers|
  {
    [item.title, item.url, item.description, item.keyword, item.extractedText, localeString(item.timestamp)]
  }

  /** One data line: the six fields, each enclosed in quotes, separated by commas. The
      line opens with the first field's quote and closes with the last field's quote. */
  function Row(item: ScrapingData, localeString: string -> string): (r: string)
    ensures |r| >= 2 && r[0] == Quote && r[|r| - 1] == Quote
  {
    var q := QuoteAll(RowFields(item, localeString));
    JoinEnds(q, Comma);
    Join(q, Comma)
  }

  /** `data.map(...)`: one line per record, in the order of the records. */
  function Rows(data: seq<ScrapingData>, localeString: string -> string): (r: seq<string>)
    ensures |r| == |data|
    ensures forall i :: 0 <= i < |data| ==> r[i] == Row(data[i], localeString)
  {
    if |data| == 0 then [] else [Row(data[0], localeString)] + Rows(data[1..], localeString)
  }

  /** `csvContent`: the header line followed by the data lines, joined by line feeds. */
  function CsvContent(data: seq<ScrapingData>, localeString: string -> string): (r: string)
    ensures HeaderLine() <= r
    ensures |r| == |HeaderLine()| <==> data == []
  {
    JoinCons(HeaderLine(), Rows(data, localeString), LineFeed);
    Join([HeaderLine()] + Rows(data, localeString), LineFeed)
  }

  /** The file the browser is asked to save. */
  datatype ExportFile = ExportFile(name: string, content: string)

  function ExportToExcel(data: seq<ScrapingData>, filename: string, localeString: string -> string): (f: ExportFile)
    ensures f.name == filename + ".csv"
    ensures HeaderLine() <= f.content
  {
    HeaderIsFirstLine(data, localeString);
    ExportFile(filename + ".csv", CsvContent(data, localeString))
  }

  // ---------------------------------------------------------------------------------
  // Properties

  lemma {:induction false} JoinKeepsOutLineFeed(parts: seq<string>, sep: char)
    requires sep != LineFeed
    requires forall k :: 0 <= k < |parts| ==> NoSeparator(parts[k])
    ensures forall i :: 0 <= i < |Join(parts, sep)| ==> Join(parts, sep)[i] != LineFeed
  {
    if |parts| > 1 {
      JoinKeepsOutLineFeed(parts[1..], sep);
      assert NoSeparator(parts[0]);
    }
  }

  /** The header line as written out; split in three only to keep each literal short. */
  const HeaderText: string := "Title,URL," + "Description,Keyword," + "Extracted Text,Timestamp"

  lemma JoinSix(a: string, b: string, c: string, d: string, e: string, f: string, sep: char)
    ensures Join([a, b, c, d, e, f], sep) == (a + [sep] + b + [sep]) + (c + [sep] + d + [sep]) + (e + [sep] + f)
  {
    var parts := [a, b, c, d, e, f];
    assert parts[1..] == [b, c, d, e, f] && parts[2..] == [c, d, e, f];
    assert parts[3..] == [d, e, f] && parts[4..] == [e, f] && parts[5..] == [f];
    var back := e + [sep] + f;
    assert parts[4..][1..] == parts[5..] && parts[3..][1..] == parts[4..];
    assert Join(parts[4..], sep) == back;
    assert Join(parts[3..], sep) == d + [sep] + back;
    assert Join(parts[2..], sep) == c + [sep] + (d + [sep] + back);
    assert Join(parts[1..], sep) == b + [sep] + (c + [sep] + (d + [sep] + back));
    assert Join(parts, sep) == a + [sep] + (b + [sep] + (c + [sep] + (d + [sep] + back)));
    Regroup(a, [sep], b, [sep], c, [sep], d, [sep], back);
  }

  lemma Regroup(a: string, b: string, c: string, d: string, e: string, f: string, g: string, h: string, t: string)
    ensures a + b + (c + d + (e + f + (g + h + t))) == (a + b + c + d) + (e + f + g + h) + t
  {
  }

  lemma HeaderPairs()
    ensures "Title" + [Comma] + "URL" + [Comma] == "Title,URL,"
    ensures "Description" + [Comma] + "Keyword" + [Comma] == "Description,Keyword,"
    ensures "Extracted Text" + [Comma] + "Timestamp" == "Extracted Text,Timestamp"
  {
    assert "Title" + [Comma] == "Title,";
    assert "Description" + [Comma] == "Description,";
    assert "Extracted Text" + [Comma] == "Extracted Text,";
  }

  /** The header line is a single line. */
  lemma HeaderHasNoLineFeed()
    ensures forall i :: 0 <= i < |HeaderLine()| ==> HeaderLine()[i] != LineFeed
  {
    HeadersArePlain();
    JoinKeepsOutLineFeed(Headers, Comma);
  }

  lemma JoinCons(first: string, rest: seq<string>, sep: char)
    ensures Join([first] + rest, sep) == if rest == [] then first else first + [sep] + Join(rest, sep)
  {
    if rest != [] {
      assert ([first] + rest)[1..] == rest;
    }
  }

  /** The export starts with the header line, and the header line ends where the first line
      ends: either the content stops there (no records) or a line feed follows. */
  lemma HeaderIsFirstLine(data: seq<ScrapingData>, localeString: string -> string)
    ensures forall i :: 0 <= i < |HeaderLine()| ==> HeaderLine()[i] != LineFeed
    ensures var c := CsvContent(data, localeString);
            HeaderLine() <= c &&
            (|c| == |HeaderLine()| <==> data == []) &&
            (data != [] ==> c[|HeaderLine()|] == LineFeed)
  {
    HeaderHasNoLineFeed();
    JoinCons(HeaderLine(), Rows(data, localeString), LineFeed);
  }

  /** With no records, only the header is written. */
  lemma EmptyExportIsHeader(localeString: string -> string)
    ensures CsvContent([], localeString) == HeaderLine()
  {
    JoinCons(HeaderLine(), [], LineFeed);
  }

  lemma JoinSnoc(parts: seq<string>, last: string, sep: char)
    requires parts != []
    ensures Join(parts + [last], sep) == Join(parts, sep) + [sep] + last
  {
    if |parts| > 1 {
      assert (parts + [last])[1..] == parts[1..] + [last];
      JoinSnoc(parts[1..], last, sep);
    } else {
      assert parts + [last] == [parts[0], last];
    }
  }

  lemma RowsSnoc(data: seq<ScrapingData>, item: ScrapingData, localeString: string -> string)
    ensures Rows(data + [item], localeString) == Rows(data, localeString) + [Row(item, localeString)]
  {
  }

  /** Appending a record appends exactly one line for it after a line feed. */
  lemma {:induction false} ContentAppend(data: seq<ScrapingData>, item: ScrapingData, localeString: string -> string)
    ensures CsvContent(data + [item], localeString) ==
            CsvContent(data, localeString) + [LineFeed] + Row(item, localeString)
  {
    RowsSnoc(data, item, localeString);
    var lines := [HeaderLine()] + Rows(data, localeString);
    assert [HeaderLine()] + Rows(data + [item], localeString) == lines + [Row(item, localeString)];
    JoinSnoc(lines, Row(item, localeString), LineFeed);
  }

  /** The fields of every record, in record order: what the export holds below its header. */
  function FieldTable(data: seq<ScrapingData>, localeString: string -> string): (t: seq<seq<string>>)
    ensures |t| == |data|
    ensures forall i :: 0 <= i < |data| ==> t[i] == RowFields(data[i], localeString)
  {
    if |data| == 0 then [] else [RowFields(data[0], localeString)] + FieldTable(data[1..], localeString)
  }

  lemma {:induction false} RowsAreQuotedLines(data: seq<ScrapingData>, localeString: string -> string)
    ensures Rows(data, localeString) == QuotedLines(FieldTable(data, localeString))
  {
    if |data| > 0 {
      RowsAreQuotedLines(data[1..], localeString);
      assert FieldTable(data, localeString)[1..] == FieldTable(data[1..], localeString);
    }
  }

  lemma HeadersArePlain()
    ensures forall i :: 0 <= i < |Headers| ==> PlainField(Headers[i])
  {
    assert PlainField(Headers[0]) && PlainField(Headers[1]) && PlainField(Headers[2]);
    assert PlainField(Headers[3]) && PlainField(Headers[4]) && PlainField(Headers[5]);
  }

  /** One record followed by a line feed and more lines reads as that record and then those lines. */
  lemma ReadCsvCons(t: string, fields: seq<string>, rest: string, rows: seq<seq<string>>)
    requires ReadRecord(t) == Some((fields, rest, true))
    requires ReadCsv(rest) == Some(rows)
    ensures ReadCsv(t) == Some([fields] + rows)
  {
  }

  /** A header of plain names with no line after it reads back as that one record. */
  lemma ReadHeaderOnly(header: seq<string>)
    requires |header| >= 1
    requires forall i :: 0 <= i < |header| ==> PlainField(header[i])
    ensures ReadCsv(Join([Join(header, Comma)], LineFeed)) == Some([header])
  {
    var line := Join(header, Comma);
    assert Join([line], LineFeed) == line + "";
    ReadPlainRecord(header, "");
  }

  /** A header of plain names followed by lines of enclosed fields reads back as the
      header and then the table. */
  lemma ReadHeaderThenRows(header: seq<string>, table: seq<seq<string>>)
    requires |header| >= 1
    requires forall i :: 0 <= i < |header| ==> PlainField(header[i])
    requires |table| >= 1 && forall i :: 0 <= i < |table| ==> |table[i]| >= 1
    ensures ReadCsv(Join([Join(header, Comma)] + QuotedLines(table), LineFeed)) == Some([header] + table)
  {
    var line := Join(header, Comma);
    var rows := QuotedLines(table);
    var t := Join([line] + rows, LineFeed);
    var rest := Join(rows, LineFeed);
    assert t == line + ([LineFeed] + rest) by {
      JoinCons(line, rows, LineFeed);
    }
    assert ReadRecord(t) == Some((header, rest, true)) by {
      ReadPlainRecord(header, [LineFeed] + rest);
      assert ([LineFeed] + rest)[1..] == rest;
    }
    assert ReadCsv(rest) == Some(table) by {
      ReadQuotedLines(table);
    }
    ReadCsvCons(t, header, rest, table);
  }

  /** The round trip for any header of plain names; the export's own header is one. */
  lemma ReadBackUnderHeader(header: seq<string>, data: seq<ScrapingData>, localeString: string -> string)
    requires |header| >= 1
    requires forall i :: 0 <= i < |header| ==> PlainField(header[i])
    ensures ReadCsv(Join([Join(header, Comma)] + Rows(data, localeString), LineFeed)) ==
            Some([header] + FieldTable(data, localeString))
  {
    RowsAreQuotedLines(data, localeString);
    if data == [] {
      ReadHeaderOnly(header);
      assert [Join(header, Comma)] + Rows(data, localeString) == [Join(header, Comma)];
      assert [header] + FieldTable(data, localeString) == [header];
    } else {
      ReadHeaderThenRows(header, FieldTable(data, localeString));
    }
  }

  /** Reading the export back with an RFC 4180 reader gives the header names and then,
      record by record and in order, the six field values: every quote escaped on the way
      out is restored, and no comma or line feed inside a value splits it. */
  lemma ExportReadsBack(data: seq<ScrapingData>, localeString: string -> string)
    ensures ReadCsv(CsvContent(data, localeString)) == Some([Headers] + FieldTable(data, localeString))
  {
    HeadersArePlain();
    ReadBackUnderHeader(Headers, data, localeString);
  }

  /** Each data line holds exactly the six values of its record, in column order. */
  lemma RowReadsBack(item: ScrapingData, localeString: string -> string)
    ensures ReadRecord(Row(item, localeString)) == Some((RowFields(item, localeString), "", false))
  {
    ReadQuotedRecord(RowFields(item, localeString), "");
    assert Row(item, localeString) + "" == Row(item, localeString);
  }
}
