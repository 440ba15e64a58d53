/** The part of the browser-automation library the server adapter uses, reduced to what
    the adapter can observe: every call resolves or throws, and an element lookup finds an
    element or not. How a page answers is fixed for one request and given as a value; the
    calls that act on the page are recorded in order, so that what the adapter did to it
    can be stated. */
module PuppeteerApi {
  import opened Wrappers

  /** An element as the keyword scan sees it: its `textContent` ("" when null), tag name,
      and `href` and `title` attributes ("" when absent: the code treats an absent attribute
      and an empty one alike). */
  datatype Element = Element(text: string, tagName: string, href: string, title: string)

  /** The outcome of `page.$(selector)`: an element, null, or an exception. */
  datatype Lookup = Found | NotFound | Throws

  /** How the page of one request answers each call. */
  datatype PageBehaviour = PageBehaviour(
    userAgentOk: bool,               // page.setUserAgent(...) resolves
    gotoOk: bool,                    // page.goto(url, { waitUntil: 'networkidle2' }) resolves
    appears: string -> bool,         // page.waitForSelector(selector, { timeout: 3000 }) resolves
    query: string -> Lookup,         // page.$(selector)
    typeOk: string -> bool,          // typing into the element found by selector resolves
    clickOk: string -> bool,         // clicking the element found by selector resolves
    navigationOk: string -> bool,    // page.waitForNavigation() after that click resolves
    dom: Option<seq<Element>>,       // document.querySelectorAll('*') in document order; None when page.evaluate throws
    currentUrl: string,              // page.url() once the page has settled
    title: Option<string>)           // page.title(); None when it throws

  /** The calls that act on a page. Lookups and reads are not recorded. */
  datatype Action =
    | SetUserAgent(agent: string)
    | Goto(url: string)
    | Type(selector: string, text: string)
    | Click(selector: string)
    | ClosePage

  class Page {
    const behaviour: PageBehaviour
    /** Every acting call made on this page, oldest first. */
    var log: seq<Action>

    constructor (behaviour: PageBehaviour)
      ensures this.behaviour == behaviour && log == []
    {
      this.behaviour := behaviour;
      log := [];
    }
  }

  class Browser {
    var closed: bool

    /** `puppeteer.launch(...)` when it resolves. */
    constructor ()
      ensures !closed
    {
      closed := false;
    }

    /** `browser.newPage()`: a fresh page, or null when the call throws. */
    method NewPage(behaviour: PageBehaviour, ok: bool) returns (page: Page?)
      requires !closed
      ensures ok <==> page != null
      ensures page != null ==> fresh(page) && page.behaviour == behaviour && page.log == []
    {
      if ok {
        page := new Page(behaviour);
      } else {
        page := null;
      }
    }

    method Close()
      modifies this
      ensures closed
    {
      closed := true;
    }
  }
}
