/** The shapes shared by the client and the server (src/types/scraping.ts). */
module Scraping {
  import opened Wrappers

  /** What the search form submits. Optional fields are None when the form left them out. */
  datatype SearchParams = SearchParams(
    url: string,
    keyword: string,
    username: Option<string>,
    password: Option<string>,
    additionalInstructions: Option<string>)

  /** One extracted record, as shown in the table and written to the CSV file. */
  datatype ScrapingData = ScrapingData(
    id: string,
    title: string,
    url: string,
    description: string,
    keyword: string,
    extractedText: string,
    timestamp: string)

  datatype ScrapingStatus = Idle | Processing | Completed | Error

  /** The two readings of the clock the code takes: `Date.now()` in milliseconds and
      `new Date().toISOString()`. Both are inputs of the model. */
  datatype Clock = Clock(millis: nat, iso: string)

  /** A progress sequence is reported with every value above the one before. */
  predicate StrictlyIncreasing(s: seq<int>)
  {
    forall i, j :: 0 <= i < j < |s| ==> s[i] < s[j]
  }

  /** JavaScript truthiness of an optional string: present and not empty. */
  predicate Truthy(s: Option<string>)
    ensures Truthy(s) <==> s != None && s != Some("")
  {
    s.Some? && s.value != ""
  }

  /** `params.username && params.password`: login is attempted only when both are truthy. */
  predicate HasCredentials(p: SearchParams)
    ensures HasCredentials(p) <==>
            p.username != None && p.username != Some("") && p.password != None && p.password != Some("")
  {
    Truthy(p.username) && Truthy(p.password)
  }
}
