# web-info-explorer, modelled in Dafny

web-info-explorer is a small web application. The user enters a site URL and a keyword, and
optionally credentials. A scraping service returns records of text on that site that mention
the keyword; the page shows them in a table and can export them as a CSV file. This project
models the parts of it that compute something and proves what they promise:

- **The server adapter** (`ServerPuppeteerService`).
  - The browser is launched lazily and reused.
  - Each request goes through a fixed sequence of steps with progress checkpoints.
  - A generic login attempt tries lists of selectors in order.
  - A keyword scan runs over the page's elements.
  - The matches become records.
  - The page is closed on every path.

  The browser library itself is an interface (`PuppeteerApi`). A page's answers are fixed for
  one request: every call resolves or throws, and every lookup finds an element, finds none or
  throws. Every call that acts on the page is recorded in the page's `log`, so the model can
  state what each step did to the page.
- **The mock scraping service** the page actually calls. It reports canned progress values and
  returns the first three to five of five templated records.
- **The CSV export.** The header line is followed by one line per record. Every field is
  escaped and enclosed as section 2 of RFC 4180 describes, except that lines are separated by
  a line feed. The round trip is proved against an independent RFC 4180 reader: the reader
  recovers the header and every record's six fields.
- **The results table's `truncateText`** and the lengths it is applied with.
- **The page component's state.** It holds the records, the status and the progress. A search
  and an export change that state, and the form, the status panel and the export button show
  or hide according to it.

Files:

| file | module | models |
|---|---|---|
| `wrappers.dfy` | `Wrappers` | `Option` and `Result` |
| `scraping.dfy` | `Scraping` | the shared types, and JavaScript truthiness of optional strings |
| `js_string.dfy` | `JsString` | `substring`, `toLowerCase` (ASCII), `trim`, `includes`, number rendering, `split(c)[0]` |
| `data_table.dfy` | `DataTable` | `truncateText` and the cell limits |
| `rfc4180.dfy` | `Rfc4180` | field escaping, joining, and a reader for the same format |
| `export_utils.dfy` | `ExportUtils` | the CSV content of an export |
| `mock_service.dfy` | `MockService` | the mock service class |
| `puppeteer_api.dfy` | `PuppeteerApi` | the abstract page and browser |
| `keyword_search.dfy` | `KeywordSearch` | the keyword scan and the records built from it |
| `login_flow.dfy` | `LoginFlow` | the selector lists and the login attempt's calls |
| `server_service.dfy` | `ServerService` | the adapter class and its step sequence |
| `index_page.dfy` | `IndexPage` | the page component's state |

## Model

| member | source | states |
|---|---|---|
| JsString.Prefix | server/puppeteerService.server.ts:160 | `substring(0, n)` gives a prefix of the string, of length min(n, length) |
| JsString.Lower | server/puppeteerService.server.ts:157 | lower-casing keeps the length |
| JsString.LowerEach | server/puppeteerService.server.ts:157 | lower-casing maps each character through the ASCII rule, position by position |
| JsString.TrimStart | server/puppeteerService.server.ts:157 | the result is a suffix and no leading white space is left |
| JsString.TrimStartDropsSpace | server/puppeteerService.server.ts:157 | every character removed at the start is white space |
| JsString.TrimEnd | server/puppeteerService.server.ts:157 | the result is a prefix and no trailing white space is left |
| JsString.TrimEndDropsSpace | server/puppeteerService.server.ts:157 | every character removed at the end is white space |
| JsString.Trim | server/puppeteerService.server.ts:157 | `trim()` is no longer than the text and starts and ends with a non-space character |
| JsString.ContainsIff | server/puppeteerService.server.ts:157 | the left-to-right search finds the keyword exactly when it occurs at some position |
| JsString.Contains | server/puppeteerService.server.ts:157 | a keyword found in a text is no longer than the text |
| JsString.NatToString | server/puppeteerService.server.ts:183 | a number renders as at least one decimal digit, and as exactly one when it is below 10 |
| JsString.NatToStringInjective | server/puppeteerService.server.ts:183 | distinct numbers render differently |
| JsString.SplitHead | src/pages/Index.tsx:55 | `split('T')[0]` is the prefix before the first `T`, or the whole text when there is none |
| DataTable.TruncateText | src/components/DataTable.tsx:25-27 | a text within the limit is unchanged; a longer text becomes its first maxLength characters plus `...`, of length exactly maxLength + 3 |
| DataTable.TruncateKeepsPrefix | src/components/DataTable.tsx:26 | the result always starts with the first min(length, maxLength) characters |
| DataTable.TruncateIdempotent | src/components/DataTable.tsx:26 | truncating twice with one limit equals truncating once |
| DataTable.DisplayRow | src/components/DataTable.tsx:66-96 | the limits are title 60, url 25, description 120 and extracted text 100, each cell at most its limit + 3; short cells and the keyword are shown unchanged |
| Rfc4180.JoinLength | src/utils/exportUtils.ts:8-17 | `join` on at least one part: the result holds every part's characters plus one separator per gap between neighbours (Rfc4180.Join is the definition these two lemmas describe) |
| Rfc4180.JoinEnds | src/utils/exportUtils.ts:8-17 | `join` on at least one part starts with the first part and ends with the last |
| Rfc4180.Escape | src/utils/exportUtils.ts:10-15 | doubling quotes never shortens the text |
| Rfc4180.EscapePairsQuotes | src/utils/exportUtils.ts:10-15 | after escaping, quotes occur only in adjacent pairs |
| Rfc4180.QuoteField | src/utils/exportUtils.ts:10-15 | a written field starts and ends with a quote, and between them quotes occur only in pairs |
| Rfc4180.QuoteAll | src/utils/exportUtils.ts:9-16 | every field of a row is quoted, in order |
| Rfc4180.ReadQuotedEscape | src/utils/exportUtils.ts:10-15 | reading an escaped field and its closing quote back gives the original text and what follows |
| Rfc4180.ReadQuotedInverse | src/utils/exportUtils.ts:10-15 | whatever the reader accepts as an enclosed field is the escape of what it returns |
| Rfc4180.UnquoteQuoteField | src/utils/exportUtils.ts:10-15 | stripping the outer quotes and collapsing doubled quotes returns the original string |
| Rfc4180.UnquoteFieldInverse | src/utils/exportUtils.ts:10-15 | the only text that unquotes to s is the quoted form of s |
| Rfc4180.ReadQuotedRecord | src/utils/exportUtils.ts:9-16 | a line of quoted fields joined by commas reads back as exactly those fields |
| Rfc4180.ReadPlainRecord | src/utils/exportUtils.ts:8 | names without commas, line feeds or opening quotes, joined by commas, read back as those names |
| Rfc4180.ReadQuotedLines | src/utils/exportUtils.ts:7-17 | lines of quoted fields joined by line feeds read back as the table they came from |
| ExportUtils.RowFields | src/utils/exportUtils.ts:9-16 | a row has six fields, as many as there are headers |
| ExportUtils.Rows | src/utils/exportUtils.ts:9-16 | one line per record, in record order |
| ExportUtils.Row | src/utils/exportUtils.ts:9-16 | a data line opens with the first field's quote and closes with the last field's quote |
| ExportUtils.CsvContent | src/utils/exportUtils.ts:7-17 | the content starts with the header line and is exactly the header line when there are no records |
| ExportUtils.ExportToExcel | src/utils/exportUtils.ts:4-17 | the file is named filename + `.csv`, and its content starts with the header line |
| ExportUtils.HeaderLine | src/utils/exportUtils.ts:6-8 | `headers.join(',')` is exactly `Title,URL,Description,Keyword,Extracted Text,Timestamp` |
| ExportUtils.HeadersArePlain | src/utils/exportUtils.ts:6 | no header name holds a comma or a line feed, or starts with a quote |
| ExportUtils.HeaderHasNoLineFeed | src/utils/exportUtils.ts:6-8 | the header is a single line |
| ExportUtils.HeaderIsFirstLine | src/utils/exportUtils.ts:7-17 | the content starts with the header line; the content is the header alone exactly when there are no records, and otherwise a line feed follows the header |
| ExportUtils.EmptyExportIsHeader | src/utils/exportUtils.ts:7-9 | with no records the content is only the header |
| ExportUtils.ContentAppend | src/utils/exportUtils.ts:7-17 | one more record adds exactly one line feed and its row at the end |
| ExportUtils.ExportReadsBack | src/utils/exportUtils.ts:6-17 | the reader gives the header names and then every record's six values, in order: title, url, description, keyword, extracted text, timestamp |
| ExportUtils.RowReadsBack | src/utils/exportUtils.ts:9-16 | each data line reads back as exactly its record's six values |
| MockService.NumResults | src/services/puppeteerService.ts:92 | `Math.floor(Math.random() * 3) + 3` lies between 3 and 5 |
| MockService.BaseResults | src/services/puppeteerService.ts:43-89 | five templated records, each with the request keyword, the one clock reading, url `<url>/profile/<n>` and id `<millis>-<n>` for n = 1..5 |
| MockService.GenerateMockData | src/services/puppeteerService.ts:42-93 | 3 to 5 results, a prefix of the five base records in order; each keyword is the request's, and the i-th url is url + `/profile/` + i |
| MockService.PuppeteerService.constructor | src/services/puppeteerService.ts:7 | the browser field starts null |
| MockService.PuppeteerService.Initialize | src/services/puppeteerService.ts:9-12 | initialising always reports success |
| MockService.PuppeteerService.ScrapeWebsite | src/services/puppeteerService.ts:14-40 | progress is 10, 30, 50, 70, 90, 100, strictly increasing with 100 last; the results are the generated mock data |
| MockService.PuppeteerService.Close | src/services/puppeteerService.ts:100-103 | the browser field is null afterwards |
| PuppeteerApi.Browser.NewPage | server/puppeteerService.server.ts:35 | on a browser that is not closed, a new page has the given behaviour and an empty call log, or none when the call throws |
| PuppeteerApi.Browser.Close | server/puppeteerService.server.ts:195 | the browser is closed afterwards |
| KeywordSearch.Capture | server/puppeteerService.server.ts:158-164 | the element's position, tag and href; text is the first 200 characters; title is the title attribute, or else the first 100 characters of the text |
| KeywordSearch.Qualifies | server/puppeteerService.server.ts:157 | a qualifying element's text is longer than 10 characters and at least as long as the keyword |
| KeywordSearch.Collect | server/puppeteerService.server.ts:155-166 | the scan pushes at most one match per element |
| KeywordSearch.CollectSound | server/puppeteerService.server.ts:155-166 | every pushed match is the capture of an element that passed the test, at the position it records |
| KeywordSearch.CollectOrdered | server/puppeteerService.server.ts:155-166 | matches are in strictly increasing document order |
| KeywordSearch.CollectPrefix | server/puppeteerService.server.ts:155-166 | scanning a leading part of the document gives a leading part of the matches |
| KeywordSearch.CollectComplete | server/puppeteerService.server.ts:155-166 | every element that passes is captured, right after the matches of the elements before it |
| KeywordSearch.AllMatches | server/puppeteerService.server.ts:153-166 | the `matches` array before the cut-off holds at most one match per element |
| KeywordSearch.AllMatchesEmptyIffNone | server/puppeteerService.server.ts:153-166 | `matches` is empty exactly when no element of the document qualifies, both directions |
| KeywordSearch.CollectFirstReturned | server/puppeteerService.server.ts:155-168 | for any per-element test, element j is among the first ten matches iff fewer than ten earlier elements pass |
| KeywordSearch.KeywordMatches | server/puppeteerService.server.ts:168 | the result is the first min(10, n) of all n matches |
| KeywordSearch.ScanResult | server/puppeteerService.server.ts:148-176 | at most 10 matches, a leading part of all matches in document order, and none when evaluating the scan throws |
| KeywordSearch.AllMatchesSound | server/puppeteerService.server.ts:155-166 | every match's element text contains the keyword under lower-casing and has a trimmed length over 10; matches are in document order |
| KeywordSearch.AllMatchesComplete | server/puppeteerService.server.ts:155-166 | no qualifying element is missed |
| KeywordSearch.FirstTenReturned | server/puppeteerService.server.ts:155-168 | a qualifying element is returned if and only if fewer than ten qualifying elements come before it |
| KeywordSearch.KeywordMatchesSound | server/puppeteerService.server.ts:155-168 | the returned matches are captures of qualifying elements, in document order |
| KeywordSearch.ScanSound | server/puppeteerService.server.ts:148-176 | at most 10 matches, all sound and in document order; a failed evaluation gives an empty list rather than an error |
| KeywordSearch.MatchShape | server/puppeteerService.server.ts:157-163 | a returned match's text is the first 200 characters of its element's text and longer than 10; its title is non-empty, the element's title when it has one and otherwise the first 100 characters of its text |
| KeywordSearch.MatchUrl | server/puppeteerService.server.ts:185 | the page url when there is no href, otherwise the href resolved against it |
| KeywordSearch.Record | server/puppeteerService.server.ts:182-190 | the id is time-index; title follows match title → page title → `Untitled`; the keyword is the request's; extracted text is the match text; description is the first 150 characters plus `...` |
| KeywordSearch.RecordsFrom | server/puppeteerService.server.ts:182-190 | one record per match in order, or a failure exactly when some href cannot be resolved |
| KeywordSearch.ExtractRecords | server/puppeteerService.server.ts:182-190 | one record per match, or a failure exactly when some match's href cannot be resolved |
| KeywordSearch.RecordsFollowMatches | server/puppeteerService.server.ts:182-188 | same length and order as the matches; keyword verbatim, extractedText equal to the match text, description of at most 153 characters, title never empty, url equal to the page url when href is empty |
| KeywordSearch.RecordIdsDistinct | server/puppeteerService.server.ts:183 | the records of one scan have pairwise distinct ids |
| KeywordSearch.ScanTitlesFromMatches | server/puppeteerService.server.ts:163-184 | on a page's own scan every record title is the match title |
| LoginFlow.UsernameTest | server/puppeteerService.server.ts:99-101 | a username selector is taken iff `waitForSelector` resolves for it and it passes the password test (`$` finds an element) |
| LoginFlow.PasswordTest | server/puppeteerService.server.ts:111-112 | a selector whose `$` answers null or throws is never taken; the loop moves on |
| LoginFlow.FirstFound | server/puppeteerService.server.ts:97-116 | a selector is chosen only from the list and only if it passes the lookup |
| LoginFlow.SubmitActions | server/puppeteerService.server.ts:130-141 | the submit loop clicks at most once per candidate selector and does nothing but click |
| LoginFlow.LoginActions | server/puppeteerService.server.ts:77-146 | at most two typings and one click per submit selector: first the username into a username selector, then the password into a password selector, then only clicks |
| LoginFlow.FirstFoundIsFirst | server/puppeteerService.server.ts:97-116 | the field comes from the first selector, in list order, that is found; none is chosen exactly when no selector is found |
| LoginFlow.SubmitClicksFoundButtons | server/puppeteerService.server.ts:123-141 | only found submit buttons are clicked, and at most one submission completes: the last click |
| LoginFlow.SubmitTriesEveryFoundButton | server/puppeteerService.server.ts:130-141 | when no click completes, every found button is clicked in turn |
| LoginFlow.LoginNeedsBothFields | server/puppeteerService.server.ts:118-119 | nothing is typed unless both fields were found; when both are, the username is typed first |
| LoginFlow.LoginTypesInOrder | server/puppeteerService.server.ts:118-141 | the password is typed only after the username resolved, and the buttons are tried only after both resolved |
| ServerService.ExtractData | server/puppeteerService.server.ts:178-191 | a failed title read fails; an unresolvable href fails; otherwise the records of the matches |
| ServerService.StepActions | server/puppeteerService.server.ts:37-53 | the first call sets the user agent; the navigation follows exactly when that resolved; anything later needs a resolved navigation and both credentials |
| Scraping.Truthy | server/puppeteerService.server.ts:51 | an optional string is truthy iff it is neither undefined nor the empty string |
| Scraping.HasCredentials | server/puppeteerService.server.ts:51 | `params.username && params.password` holds iff both are present and neither is empty |
| ServerService.LoginStep | server/puppeteerService.server.ts:51-53 | without both credentials the login step makes no call |
| ServerService.Steps | server/puppeteerService.server.ts:37-74 | progress is a non-empty leading part of the checkpoints, complete exactly on success; a failed user agent or navigation ends the request with that error |
| ServerService.AfterNavigation | server/puppeteerService.server.ts:48-67 | past the navigation, progress reaches at least 80, reaches 100 exactly on success, and the only errors are the title and URL ones |
| ServerService.ServerPuppeteerService.constructor | server/puppeteerService.server.ts:12 | the browser field starts null |
| ServerService.ServerPuppeteerService.Initialize | server/puppeteerService.server.ts:14-31 | a browser is launched only when none is held, then kept and reused |
| ServerService.ServerPuppeteerService.HandleLogin | server/puppeteerService.server.ts:77-146 | the calls made on the page are exactly the login attempt's; every failure is swallowed |
| ServerService.ServerPuppeteerService.FindUsernameField | server/puppeteerService.server.ts:96-105 | the loop returns the first username selector that appears and is found, or none, as the selector search defines it |
| ServerService.ServerPuppeteerService.FindPasswordField | server/puppeteerService.server.ts:108-116 | the loop returns the first password selector that is found, or none |
| ServerService.ServerPuppeteerService.Submit | server/puppeteerService.server.ts:130-141 | the clicks made are exactly the submit loop's: found buttons in order, stopping after the first click whose navigation resolves |
| ServerService.ServerPuppeteerService.CollectElements | server/puppeteerService.server.ts:152-166 | the loop over the elements captures exactly the ones that pass the test, in document order, each with its position as id |
| ServerService.ServerPuppeteerService.RunAfterNavigation | server/puppeteerService.server.ts:48-67 | after the navigation the page only receives the login attempt (with credentials), and the outcome is the scan's records or the extraction's error with the matching progress |
| ServerService.ServerPuppeteerService.SearchForKeywords | server/puppeteerService.server.ts:148-176 | the loop's result is the first ten matches of the scan, or none when evaluation throws |
| ServerService.ServerPuppeteerService.RunSteps | server/puppeteerService.server.ts:37-68 | the step sequence's calls, progress and outcome; login only with credentials |
| ServerService.ServerPuppeteerService.ScrapeWebsite | server/puppeteerService.server.ts:33-75 | a browser is held afterwards exactly when one was held or the launch resolved, a held one is reused without a launch, so requests launch at most once; launch and newPage failures come before any page exists; otherwise the steps run and the page is closed once, last, on success and failure alike |
| ServerService.ServerPuppeteerService.Close | server/puppeteerService.server.ts:193-198 | a held browser is closed and forgotten |
| ServerService.StepsProgress | server/puppeteerService.server.ts:38-65 | progress is a non-empty leading part of 10, 20, 30, 50, 80, 100, strictly increasing; it reaches 100 exactly on success |
| ServerService.StepsRecords | server/puppeteerService.server.ts:58-67 | a success returns at most ten records with distinct ids, the request keyword, non-empty titles and short descriptions |
| ServerService.StepsNeverClose | server/puppeteerService.server.ts:72-74 | no step closes the page, so the single `finally` close is the only one |
| ServerService.NoCredentialsNoLogin | server/puppeteerService.server.ts:51-53 | without both credentials nothing is typed or clicked |
| ServerService.NavigationFailure | server/puppeteerService.server.ts:46-74 | a failed navigation fails after progress 10 and 20, and the page is still closed |
| ServerService.LoginFailureNeverEndsRequest | server/puppeteerService.server.ts:51-58 | whatever the login calls answer, a request past the navigation reports 30 and 50, reaches the scan, and can end only by a title or URL error |
| IndexPage.ExportName | src/pages/Index.tsx:55 | the file name is `web-scraping-results-` plus the ISO time up to its first `T`: a prefix of the time, containing no `T`, followed in the time by a `T` unless it is the whole time |
| IndexPage.Index.constructor | src/pages/Index.tsx:15-17 | idle, progress 0, no data; no status panel, no export button, form enabled |
| IndexPage.Index.SearchFormDisabled | src/pages/Index.tsx:82 | the form is disabled while processing (`status === 'processing'`); the status panel is then shown and the export button hidden |
| IndexPage.Index.StatusPanelVisible | src/pages/Index.tsx:85 | the status card is rendered for the processing, completed and error states, not for idle |
| IndexPage.Index.ExportVisible | src/pages/Index.tsx:97 | the export button is rendered when there are records, which happens only after a completed search |
| IndexPage.Index.Begin | src/pages/Index.tsx:21-23 | starting a search sets processing, progress 0 and empty data, and disables the form |
| IndexPage.Index.OnProgress | src/pages/Index.tsx:28-31 | the progress becomes the reported value, and nothing else changes |
| IndexPage.Index.Succeed | src/pages/Index.tsx:34-35 | the data becomes the results and the status completed |
| IndexPage.Index.Fail | src/pages/Index.tsx:42-44 | the status becomes error and the data stays empty |
| IndexPage.Index.HandleSearch | src/pages/Index.tsx:20-51 | the last reported value is the progress; success holds the results, failure holds none; the form is enabled again and the status panel shown |
| IndexPage.Index.HandleSearchWithMock | src/pages/Index.tsx:28-35 | against the mock, a search completes with progress 100 and 3 to 5 records, and the export button appears |
| IndexPage.Index.HandleExport | src/pages/Index.tsx:53-61 | a file is produced exactly when there are records (the export button's condition), with the CSV content of the records |

## Left out

- The browser library. All of `puppeteer.launch`, `newPage`, `setUserAgent`, `goto`, `waitForSelector`, `$`, `type`, `click`, `waitForNavigation`, `evaluate`, `url` and `title` appear only as a page's fixed answers: resolves or throws, found / not found / throws. Launch options, the stealth plugin, the 3000 ms wait and `networkidle2` are not modelled.
- The `:contains(...)` submit selectors. They are kept verbatim, but what a page does with them is whatever its `query` answers.
- Where the page's answers come from. They are fixed for a request. The model does not show navigation triggered by a login changing what later calls see; the url and title are read once the page has settled.
- URL resolution. `new URL(href, base)` is a parameter returning None where it throws. The model does not resolve RFC 3986 references.
- Lower-casing. It follows ASCII only; `toLowerCase` on other letters is not modelled.
- Lengths. They are counted in Dafny characters, not UTF-16 code units.
- Non-BMP characters. The characters `trim` removes are the ECMAScript list; characters outside the Basic Multilingual Plane are not considered.
- The clock, locale and randomness. `Date.now()`, `toISOString()` and `toLocaleString()` are parameters, and `Math.random()` is a real in [0, 1).
- KeywordSearch.Record: one clock reading serves every record of a request, although the source reads the clock once per record. Ids are therefore proved distinct through their index alone.
- MockService.GenerateMockData: the same single clock reading serves all five records.
- Async timing. The delays, `await` interleavings and console logging are not modelled.
- Concurrency. Concurrent requests sharing one browser are not modelled; a request is one sequential run.
- ServerService.ServerPuppeteerService.ScrapeWebsite: a `page.close()` that throws is not modelled (closing always succeeds). The library's own exception objects are replaced by an error naming the failed call.
- ServerService.ServerPuppeteerService.Close: `browser.close()` is taken to resolve.
- The file download. The Blob, the object URL, the hidden link, its click and the `link.download` check are not modelled; the export yields the file name and content.
- The UI. JSX, toasts, styling, `formatDate`, the search form and the status indicator are not modelled. The three visibility conditions of the page component are modelled as predicates of its state.
- The unused `DefaultMaxLength`. It is recorded as a constant; every cell passes its own limit.
- Build configuration. vite.config.local.ts is not part of this model.
