/** The results table (src/components/DataTable.tsx): the text-shortening rule and the
    lengths each cell is shortened to. */
module DataTable {
  import opened Scraping

  const Ellipsis: string := "..."

  /** Default `maxLength` of `truncateText`. */
  const DefaultMaxLength: nat := 100

  /** The lengths the cells are shortened to. The keyword cell is shown in full. */
  const TitleMaxLength: nat := 60
  const UrlMaxLength: nat := 25
  const DescriptionMaxLength: nat := 120
  const ExtractedTextMaxLength: nat := 100

  /** `truncateText(text, maxLength)`: a text longer than maxLength is cut to its first
      maxLength characters and marked with an ellipsis; a shorter one is shown unchanged. */
  function TruncateText(text: string, maxLength: nat): (r: string)
    ensures |text| <= maxLength ==> r == text
    ensures |text| > maxLength ==> |r| == maxLength + 3 && r[..maxLength] == text[..maxLength] && r[maxLength..] == Ellipsis
    ensures |r| <= maxLength + 3
  {
    if |text| > maxLength then text[..maxLength] + Ellipsis else text
  }

  /** Whatever the input, the result begins with as much of the text as fits. */
  lemma TruncateKeepsPrefix(text: string, maxLength: nat)
    ensures var k := if |text| <= maxLength then |text| else maxLength;
            text[..k] <= TruncateText(text, maxLength)
  {
  }

  /** Shortening twice with the same limit is shortening once. */
  lemma TruncateIdempotent(text: string, maxLength: nat)
    ensures TruncateText(TruncateText(text, maxLength), maxLength) == TruncateText(text, maxLength)
  {
    if |text| > maxLength {
      var once := TruncateText(text, maxLength);
      assert once[..maxLength] == text[..maxLength];
    }
  }

  /** The texts one table row shows. The keyword badge shows the keyword in full;
      the timestamp cell is formatted by the locale and is not modelled. */
  datatype RowCells = RowCells(title: string, url: string, description: string, keyword: string, extractedText: string)

  /** The cells of one table row, each shortened to its own limit. */
  function DisplayRow(item: ScrapingData): (c: RowCells)
    ensures |c.title| <= TitleMaxLength + 3 && |c.url| <= UrlMaxLength + 3
    ensures |c.description| <= DescriptionMaxLength + 3 && |c.extractedText| <= ExtractedTextMaxLength + 3
    ensures c.keyword == item.keyword
    ensures |item.title| <= TitleMaxLength ==> c.title == item.title
    ensures |item.url| <= UrlMaxLength ==> c.url == item.url
    ensures |item.description| <= DescriptionMaxLength ==> c.description == item.description
    ensures |item.extractedText| <= ExtractedTextMaxLength ==> c.extractedText == item.extractedText
  {
    RowCells(
      TruncateText(item.title, TitleMaxLength),
      TruncateText(item.url, UrlMaxLength),
      TruncateText(item.description, DescriptionMaxLength),
      item.keyword,
      TruncateText(item.extractedText, ExtractedTextMaxLength))
  }
}
