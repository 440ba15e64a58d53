/** What the server adapter computes from a page (server/puppeteerService.server.ts):
    the keyword scan run inside the page (`searchForKeywords`) and the records built from
    its matches (`extractData`), as functions of the page's elements and readings. */
module KeywordSearch {
  import opened Wrappers
  import opened Scraping
  import opened JsString
  import opened PuppeteerApi

  /** At most this many matches are returned. */
  const MaxMatches: nat := 10
  /** An element qualifies only if its trimmed text is longer than this. */
  const MinTrimmedLength: nat := 10
  /** The captured text of a match is cut to this length ... */
  const CaptureLength: nat := 200
  /** ... its title, when the element has no title attribute, to this one ... */
  const TitleLength: nat := 100
  /** ... and a record's description to this one, before the ellipsis. */
  const DescriptionLength: nat := 150

  /** One entry of the scan's result; `id` is the element's position in document order. */
  datatype Match = Match(id: nat, text: string, tagName: string, href: string, title: string)

  /** The scan's test: the text contains the keyword, ignoring (ASCII) case, and its
      trimmed length is above the minimum. */
  predicate Qualifies(el: Element, keyword: string)
    ensures Qualifies(el, keyword) ==> MinTrimmedLength < |el.text| && |keyword| <= |el.text|
  {
    Contains(Lower(el.text), Lower(keyword)) && |Trim(el.text)| > MinTrimmedLength
  }

  /** The match pushed for a qualifying element at position `index`. */
  function Capture(el: Element, index: nat): (m: Match)
    ensures m.id == index && m.tagName == el.tagName && m.href == el.href
    ensures m.text <= el.text && |m.text| == if |el.text| <= CaptureLength then |el.text| else CaptureLength
    ensures el.title != "" ==> m.title == el.title
    ensures el.title == "" ==> m.title <= el.text && |m.title| == if |el.text| <= TitleLength then |el.text| else TitleLength
  {
    Match(index, Prefix(el.text, CaptureLength), el.tagName, el.href,
          if el.title != "" then el.title else Prefix(el.text, TitleLength))
  }

  /** The `forEach` over the elements in document order, pushing the capture of every
      element that passes `test`. */
  function Collect(els: seq<Element>, test: Element -> bool): (r: seq<Match>)
    ensures |r| <= |els|
  {
    if |els| == 0 then []
    else
      var last := |els| - 1;
      Collect(els[..last], test) + (if test(els[last]) then [Capture(els[last], last)] else [])
  }

  /** The scan's per-element test as a function value. */
  function KeywordTest(keyword: string): Element -> bool
  {
    el => Qualifies(el, keyword)
  }

  /** Every qualifying element captured, in document order: the scan before its cut-off.
      There is at most one match per element. */
  function AllMatches(els: seq<Element>, keyword: string): (r: seq<Match>)
    ensures |r| <= |els|
  {
    Collect(els, KeywordTest(keyword))
  }

  /** `matches.slice(0, 10)`: the first ten matches. */
  function KeywordMatches(els: seq<Element>, keyword: string): (r: seq<Match>)
    ensures r <= AllMatches(els, keyword)
    ensures |r| == if |AllMatches(els, keyword)| <= MaxMatches then |AllMatches(els, keyword)| else MaxMatches
  {
    var all := AllMatches(els, keyword);
    if |all| <= MaxMatches then all else all[..MaxMatches]
  }

  /** `searchForKeywords`: the scan's result, or no matches when evaluating it throws. */
  function ScanResult(dom: Option<seq<Element>>, keyword: string): (r: seq<Match>)
    ensures |r| <= MaxMatches
    ensures dom.None? ==> r == []
    ensures dom.Some? ==> r <= AllMatches(dom.value, keyword)
  {
    match dom
    case None => []
    case Some(els) => KeywordMatches(els, keyword)
  }

  // ---------------------------------------------------------------------------------
  // The scan, for any test; then for the keyword test

  /** Every entry of `r` is the capture of an element of `els` that passes `test`, at the
      position it records. */
  predicate CapturesOf(els: seq<Element>, test: Element -> bool, r: seq<Match>)
  {
    forall k :: 0 <= k < |r| ==>
      r[k].id < |els| && test(els[r[k].id]) && r[k] == Capture(els[r[k].id], r[k].id)
  }

  /** The entries of `r` are in strictly increasing document order. */
  predicate InDocumentOrder(r: seq<Match>)
  {
    forall a, b :: 0 <= a < b < |r| ==> r[a].id < r[b].id
  }

  lemma {:induction false} CollectSound(els: seq<Element>, test: Element -> bool)
    ensures CapturesOf(els, test, Collect(els, test))
  {
    if |els| > 0 {
      var last := |els| - 1;
      var front := Collect(els[..last], test);
      var r := Collect(els, test);
      CollectSound(els[..last], test);
      forall k | 0 <= k < |r|
        ensures r[k].id < |els| && test(els[r[k].id]) && r[k] == Capture(els[r[k].id], r[k].id)
      {
        if k < |front| {
          assert r[k] == front[k];
          assert els[..last][front[k].id] == els[front[k].id];
        } else {
          assert r[k] == Capture(els[last], last);
        }
      }
    }
  }

  lemma {:induction false} CollectOrdered(els: seq<Element>, test: Element -> bool)
    ensures InDocumentOrder(Collect(els, test))
  {
    if |els| > 0 {
      var last := |els| - 1;
      var front := Collect(els[..last], test);
      var r := Collect(els, test);
      CollectOrdered(els[..last], test);
      CollectSound(els[..last], test);
      forall a, b | 0 <= a < b < |r|
        ensures r[a].id < r[b].id
      {
        assert r[a] == front[a];
        if b < |front| {
          assert r[b] == front[b];
        } else {
          assert r[b].id == last;
        }
      }
    }
  }

  /** Scanning a leading part of the document gives a leading part of the matches. */
  lemma {:induction false} CollectPrefix(els: seq<Element>, test: Element -> bool, n: nat)
    requires n <= |els|
    ensures Collect(els[..n], test) <= Collect(els, test)
  {
    if n < |els| {
      var last := |els| - 1;
      assert els[..last][..n] == els[..n];
      CollectPrefix(els[..last], test, n);
    } else {
      assert els[..n] == els;
    }
  }

  /** The scan finds nothing exactly when no element passes the test. */
  lemma CollectEmptyIffNonePass(els: seq<Element>, test: Element -> bool)
    ensures Collect(els, test) == [] <==> forall i :: 0 <= i < |els| ==> !test(els[i])
  {
    CollectSound(els, test);
    if i :| 0 <= i < |els| && test(els[i]) {
      CollectComplete(els, test, i);
    }
  }

  lemma CollectComplete(els: seq<Element>, test: Element -> bool, j: nat)
    requires j < |els| && test(els[j])
    ensures var p := |Collect(els[..j], test)|;
            p < |Collect(els, test)| && Collect(els, test)[p] == Capture(els[j], j)
  {
    assert els[..j + 1][..j] == els[..j];
    CollectPrefix(els, test, j + 1);
  }

  /** Every match comes from a qualifying element at the position it records, and is
      that element's capture; matches are in document order, each element at most once. */
  lemma AllMatchesSound(els: seq<Element>, keyword: string)
    ensures var r := AllMatches(els, keyword);
            forall k :: 0 <= k < |r| ==>
              r[k].id < |els| && Qualifies(els[r[k].id], keyword) && r[k] == Capture(els[r[k].id], r[k].id)
    ensures InDocumentOrder(AllMatches(els, keyword))
  {
    CollectSound(els, KeywordTest(keyword));
    CollectOrdered(els, KeywordTest(keyword));
  }

  /** The scan finds nothing exactly when no element of the document qualifies. */
  lemma AllMatchesEmptyIffNone(els: seq<Element>, keyword: string)
    ensures AllMatches(els, keyword) == [] <==> forall i :: 0 <= i < |els| ==> !Qualifies(els[i], keyword)
  {
    CollectEmptyIffNonePass(els, KeywordTest(keyword));
  }

  /** No qualifying element is missed: the match of element j sits right after the
      matches of the elements before it. */
  lemma AllMatchesComplete(els: seq<Element>, keyword: string, j: nat)
    requires j < |els| && Qualifies(els[j], keyword)
    ensures var p := |AllMatches(els[..j], keyword)|;
            p < |AllMatches(els, keyword)| && AllMatches(els, keyword)[p] == Capture(els[j], j)
  {
    CollectComplete(els, KeywordTest(keyword), j);
  }

  /** The qualifying element j is returned exactly when fewer than ten elements before it
      qualify: the result is the first ten matches in document order. */
  lemma FirstTenReturned(els: seq<Element>, keyword: string, j: nat)
    requires j < |els| && Qualifies(els[j], keyword)
    ensures (exists k :: 0 <= k < |KeywordMatches(els, keyword)| && KeywordMatches(els, keyword)[k].id == j)
            <==> |AllMatches(els[..j], keyword)| < MaxMatches
  {
    var r := KeywordMatches(els, keyword);
    CollectFirstReturned(els, KeywordTest(keyword), j, r);
  }

  /** The same for any test and any leading part of the scan's result no longer than ten:
      element j is in it exactly when fewer than ten earlier elements pass. */
  lemma CollectFirstReturned(els: seq<Element>, test: Element -> bool, j: nat, r: seq<Match>)
    requires j < |els| && test(els[j])
    requires r <= Collect(els, test)
    requires |r| == if |Collect(els, test)| <= MaxMatches then |Collect(els, test)| else MaxMatches
    ensures (exists k :: 0 <= k < |r| && r[k].id == j) <==> |Collect(els[..j], test)| < MaxMatches
  {
    var all := Collect(els, test);
    var p := |Collect(els[..j], test)|;
    CollectComplete(els, test, j);
    CollectOrdered(els, test);
    if p < MaxMatches {
      assert r[p] == all[p];
      assert r[p].id == j;
    }
    if k :| 0 <= k < |r| && r[k].id == j {
      assert r[k] == all[k];
      assert all[k].id == all[p].id;
      assert k == p;
    }
  }

  /** The first ten matches keep what holds of all of them. */
  lemma KeywordMatchesSound(els: seq<Element>, keyword: string)
    ensures var r := KeywordMatches(els, keyword);
            forall k :: 0 <= k < |r| ==>
              r[k].id < |els| && Qualifies(els[r[k].id], keyword) && r[k] == Capture(els[r[k].id], r[k].id)
    ensures InDocumentOrder(KeywordMatches(els, keyword))
  {
    var r := KeywordMatches(els, keyword);
    var test := KeywordTest(keyword);
    var all := Collect(els, test);
    CollectSound(els, test);
    CollectOrdered(els, test);
    forall k | 0 <= k < |r|
      ensures r[k].id < |els| && test(els[r[k].id]) && r[k] == Capture(els[r[k].id], r[k].id)
    {
      assert r[k] == all[k];
    }
    forall a, b | 0 <= a < b < |r|
      ensures r[a].id < r[b].id
    {
      assert r[a] == all[a] && r[b] == all[b];
    }
  }

  /** Every returned match is the capture of a qualifying element; the list holds at most
      ten, in document order. */
  lemma ScanSound(dom: Option<seq<Element>>, keyword: string)
    ensures |ScanResult(dom, keyword)| <= MaxMatches
    ensures dom.None? ==> ScanResult(dom, keyword) == []
    ensures dom.Some? ==> var r := ScanResult(dom, keyword);
            forall k :: 0 <= k < |r| ==>
              r[k].id < |dom.value| && Qualifies(dom.value[r[k].id], keyword) &&
              r[k] == Capture(dom.value[r[k].id], r[k].id)
    ensures InDocumentOrder(ScanResult(dom, keyword))
  {
    if dom.Some? {
      KeywordMatchesSound(dom.value, keyword);
    }
  }

  /** Every returned match is cut from a document element: a text that is the first 200
      characters of the element's text and more than ten long, and a non-empty title that
      is the element's title or, without one, the first 100 characters of its text. */
  lemma MatchShape(dom: Option<seq<Element>>, keyword: string, k: nat)
    requires k < |ScanResult(dom, keyword)|
    ensures var m := ScanResult(dom, keyword)[k];
            dom.Some? && m.id < |dom.value| &&
            var el := dom.value[m.id];
            m.text == Prefix(el.text, CaptureLength) && |m.text| > MinTrimmedLength &&
            m.title != "" &&
            (el.title != "" ==> m.title == el.title) &&
            (el.title == "" ==> m.title == Prefix(el.text, TitleLength))
  {
    ScanSound(dom, keyword);
  }

  // ---------------------------------------------------------------------------------
  // Building the records

  /** `result.href ? new URL(result.href, currentUrl).href : currentUrl`. Resolving a
      relative reference is given as `resolve`, which answers None where `new URL` throws. */
  function MatchUrl(m: Match, currentUrl: string, resolve: (string, string) -> Option<string>): (u: Option<string>)
    ensures m.href == "" ==> u == Some(currentUrl)
    ensures m.href != "" ==> u == resolve(m.href, currentUrl)
  {
    if m.href != "" then resolve(m.href, currentUrl) else Some(currentUrl)
  }

  /** The record made from the match at `index`, given its resolved url. */
  function Record(m: Match, index: nat, url: string, keyword: string, pageTitle: string, clock: Clock): (d: ScrapingData)
    ensures d.id == NatToString(clock.millis) + "-" + NatToString(index)
    ensures d.title == if m.title != "" then m.title else if pageTitle != "" then pageTitle else "Untitled"
    ensures d.url == url && d.keyword == keyword && d.extractedText == m.text && d.timestamp == clock.iso
    ensures d.description == Prefix(m.text, DescriptionLength) + "..."
  {
    ScrapingData(
      NatToString(clock.millis) + "-" + NatToString(index),
      if m.title != "" then m.title else if pageTitle != "" then pageTitle else "Untitled",
      url,
      Prefix(m.text, DescriptionLength) + "...",
      keyword,
      m.text,
      clock.iso)
  }

  /** `results.map(...)` from position `offset` on: a record for every match, or None as
      soon as one url cannot be resolved. */
  function RecordsFrom(matches: seq<Match>, offset: nat, keyword: string, currentUrl: string, pageTitle: string,
                       resolve: (string, string) -> Option<string>, clock: Clock): (r: Option<seq<ScrapingData>>)
    ensures r.None? <==> exists i :: 0 <= i < |matches| && MatchUrl(matches[i], currentUrl, resolve).None?
    ensures r.Some? ==> |r.value| == |matches|
    ensures r.Some? ==> forall i :: 0 <= i < |matches| ==>
      r.value[i] == Record(matches[i], offset + i, MatchUrl(matches[i], currentUrl, resolve).value, keyword, pageTitle, clock)
  {
    if |matches| == 0 then Some([])
    else
      match MatchUrl(matches[0], currentUrl, resolve)
      case None => None
      case Some(u) =>
        match RecordsFrom(matches[1..], offset + 1, keyword, currentUrl, pageTitle, resolve, clock)
        case None => None
        case Some(rest) => Some([Record(matches[0], offset, u, keyword, pageTitle, clock)] + rest)
  }

  /** `extractData` once `page.title()` has resolved to `pageTitle`. */
  function ExtractRecords(matches: seq<Match>, keyword: string, currentUrl: string, pageTitle: string,
                          resolve: (string, string) -> Option<string>, clock: Clock): (r: Option<seq<ScrapingData>>)
    ensures r.None? <==> exists i :: 0 <= i < |matches| && MatchUrl(matches[i], currentUrl, resolve).None?
    ensures r.Some? ==> |r.value| == |matches|
  {
    RecordsFrom(matches, 0, keyword, currentUrl, pageTitle, resolve, clock)
  }

  /** The records of one scan: one per match, in the order of the matches, each echoing the
      keyword, carrying the match's text and a description of at most 153 characters. */
  lemma RecordsFollowMatches(matches: seq<Match>, keyword: string, currentUrl: string, pageTitle: string,
                             resolve: (string, string) -> Option<string>, clock: Clock)
    requires ExtractRecords(matches, keyword, currentUrl, pageTitle, resolve, clock).Some?
    ensures var rs := ExtractRecords(matches, keyword, currentUrl, pageTitle, resolve, clock).value;
            |rs| == |matches| &&
            forall i :: 0 <= i < |rs| ==>
              rs[i].keyword == keyword && rs[i].extractedText == matches[i].text &&
              |rs[i].description| <= DescriptionLength + 3 && rs[i].title != "" &&
              (matches[i].title != "" ==> rs[i].title == matches[i].title) &&
              (matches[i].href == "" ==> rs[i].url == currentUrl)
  {
  }

  /** The records of one scan have pairwise distinct ids. */
  lemma RecordIdsDistinct(matches: seq<Match>, keyword: string, currentUrl: string, pageTitle: string,
                          resolve: (string, string) -> Option<string>, clock: Clock, a: nat, b: nat)
    requires ExtractRecords(matches, keyword, currentUrl, pageTitle, resolve, clock).Some?
    requires a < b < |matches|
    ensures var rs := ExtractRecords(matches, keyword, currentUrl, pageTitle, resolve, clock).value;
            rs[a].id != rs[b].id
  {
    var rs := ExtractRecords(matches, keyword, currentUrl, pageTitle, resolve, clock).value;
    var stamp := NatToString(clock.millis) + "-";
    if rs[a].id == rs[b].id {
      assert rs[a].id == stamp + NatToString(a);
      assert rs[b].id == stamp + NatToString(b);
      assert NatToString(a) == rs[a].id[|stamp|..];
      NatToStringInjective(a, b);
    }
  }

  /** On a page's own scan every title comes from the match, never from the page title or
      the "Untitled" fallback, because a qualifying element always yields a non-empty title. */
  lemma ScanTitlesFromMatches(dom: Option<seq<Element>>, keyword: string, currentUrl: string, pageTitle: string,
                              resolve: (string, string) -> Option<string>, clock: Clock)
    requires ExtractRecords(ScanResult(dom, keyword), keyword, currentUrl, pageTitle, resolve, clock).Some?
    ensures var ms := ScanResult(dom, keyword);
            var rs := ExtractRecords(ms, keyword, currentUrl, pageTitle, resolve, clock).value;
            forall i :: 0 <= i < |rs| ==> rs[i].title == ms[i].title
  {
    var ms := ScanResult(dom, keyword);
    forall k | 0 <= k < |ms|
      ensures ms[k].title != ""
    {
      MatchShape(dom, keyword, k);
    }
  }
}
