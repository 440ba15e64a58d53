/** The server-side adapter (server/puppeteerService.server.ts): a lazily launched
    browser shared by all requests, and per request a page that goes through fixed steps
    and is closed whatever happens. The browser library is the interface in PuppeteerApi. */
module ServerService {
  import opened Wrappers
  import opened Scraping
  import opened PuppeteerApi
  import opened LoginFlow
  import opened KeywordSearch

  const UserAgent: string := "Mozilla/5.0 (Windows NT 10.0; Win64; x64) AppleWebKit/537.36 (KHTML, like Gecko) Chrome/91.0.4472.124 Safari/537.36"

  /** Every value `scrapeWebsite` reports, in order, when no step fails. */
  const ServerCheckpoints: seq<int> := [10, 20, 30, 50, 80, 100]

  /** The call whose failure ended the request. The source rethrows the library's own
      exception; the model names the call instead. */
  datatype ScrapeError =
    | LaunchError       // puppeteer.launch
    | NewPageError      // browser.newPage
    | UserAgentError    // page.setUserAgent
    | NavigationError   // page.goto
    | TitleError        // page.title
    | UrlError          // new URL(href, currentUrl)

  /** What one request meets besides its parameters. */
  datatype Environment = Environment(
    launchOk: bool,                            // puppeteer.launch resolves, if it is called
    newPageOk: bool,                           // browser.newPage resolves
    page: PageBehaviour,                       // how the new page answers
    resolve: (string, string) -> Option<string>,  // new URL(href, base).href, None when it throws
    clock: Clock)                              // Date.now() and new Date().toISOString()

  /** What the try block ends with: its result or error, and the progress it reported. */
  datatype StepsOutcome = StepsOutcome(result: Result<seq<ScrapingData>, ScrapeError>, progress: seq<int>)

  /** `extractData`: reads the page title, then builds one record per match. */
  function ExtractData(b: PageBehaviour, matches: seq<Match>, keyword: string,
                       resolve: (string, string) -> Option<string>, clock: Clock): (r: Result<seq<ScrapingData>, ScrapeError>)
    ensures b.title.None? ==> r == Err(TitleError)
    ensures r == Err(UrlError) <==> b.title.Some? && exists i :: 0 <= i < |matches| && MatchUrl(matches[i], b.currentUrl, resolve).None?
    ensures r.Ok? ==> Some(r.value) == ExtractRecords(matches, keyword, b.currentUrl, b.title.value, resolve, clock)
  {
    match b.title
    case None => Err(TitleError)
    case Some(pageTitle) =>
      match ExtractRecords(matches, keyword, b.currentUrl, pageTitle, resolve, clock)
      case None => Err(UrlError)
      case Some(records) => Ok(records)
  }

  /** The acting calls of the try block of `scrapeWebsite`, up to the step that fails. */
  function StepActions(params: SearchParams, b: PageBehaviour): (r: seq<Action>)
    ensures |r| >= 1 && r[0] == SetUserAgent(UserAgent)
    ensures |r| >= 2 <==> b.userAgentOk
    ensures |r| >= 2 ==> r[1] == Goto(params.url)
    ensures |r| > 2 ==> b.gotoOk && HasCredentials(params)
  {
    [SetUserAgent(UserAgent)] +
    if !b.userAgentOk then []
    else [Goto(params.url)] + if !b.gotoOk then [] else LoginStep(params, b)
  }

  /** The acting calls once the navigation resolved: the login attempt, made only when
      both credentials are given. */
  function LoginStep(params: SearchParams, b: PageBehaviour): (r: seq<Action>)
    ensures !HasCredentials(params) ==> r == []
  {
    if HasCredentials(params) then LoginActions(b, params.username.value, params.password.value) else []
  }

  /** The outcome of the try block of `scrapeWebsite`: 10 is reported first; each later
      value follows the step that resolved; the first step that throws ends it with that step's error. The
      login attempt and the keyword scan never throw. */
  function Steps(params: SearchParams, b: PageBehaviour, resolve: (string, string) -> Option<string>, clock: Clock): (o: StepsOutcome)
    ensures |o.progress| >= 1 && o.progress <= ServerCheckpoints
    ensures o.result.Ok? <==> o.progress == ServerCheckpoints
    ensures !b.userAgentOk ==> o.result == Err(UserAgentError)
    ensures b.userAgentOk && !b.gotoOk ==> o.result == Err(NavigationError)
  {
    if !b.userAgentOk then StepsOutcome(Err(UserAgentError), [10])
    else if !b.gotoOk then StepsOutcome(Err(NavigationError), [10, 20])
    else AfterNavigation(params, b, resolve, clock)
  }

  /** The outcome once the navigation resolved: the scan and the extraction of its matches. */
  function AfterNavigation(params: SearchParams, b: PageBehaviour, resolve: (string, string) -> Option<string>, clock: Clock): (o: StepsOutcome)
    ensures [10, 20, 30, 50, 80] <= o.progress <= ServerCheckpoints
    ensures o.result.Ok? <==> o.progress == ServerCheckpoints
    ensures o.result.Err? ==> o.result.error == TitleError || o.result.error == UrlError
  {
    var data := ExtractData(b, ScanResult(b.dom, params.keyword), params.keyword, resolve, clock);
    if data.Err? then StepsOutcome(data, [10, 20, 30, 50, 80])
    else StepsOutcome(data, ServerCheckpoints)
  }

  class ServerPuppeteerService {
    /** The shared browser; null until the first request, and again after `Close`. */
    var browser: Browser?
    /** How many times a browser was launched. */
    ghost var launches: nat

    /** The browser held is never one that was closed. */
    ghost predicate Valid()
      reads this, browser
    {
      browser != null ==> !browser.closed
    }

    constructor ()
      ensures Valid() && browser == null && launches == 0
    {
      browser := null;
      launches := 0;
    }

    /** `initialize`: launches a browser only when none is held, and keeps it. */
    method Initialize(launchOk: bool) returns (b: Browser?)
      requires Valid()
      modifies this
      ensures Valid() && b == browser
      ensures old(browser) != null ==> browser == old(browser) && launches == old(launches)
      ensures old(browser) == null && launchOk ==> browser != null && fresh(browser) && launches == old(launches) + 1
      ensures old(browser) == null && !launchOk ==> browser == null && launches == old(launches)
    {
      if browser == null {
        if launchOk {
          browser := new Browser();
          launches := launches + 1;
        }
      }
      b := browser;
    }

    /** `handleLogin`. Every exception inside it is caught: a lookup that throws moves on to
        the next selector, and a typing call that throws ends the attempt. */
    method HandleLogin(page: Page, username: string, password: string)
      modifies page
      ensures page.log == old(page.log) + LoginActions(page.behaviour, username, password)
    {
      var b := page.behaviour;
      var usernameField := FindUsernameField(b);
      var passwordField := FindPasswordField(b);
      if usernameField.Some? && passwordField.Some? {
        ghost var start := page.log;
        var typeUser := [Type(usernameField.value, username)];
        var typePass := [Type(passwordField.value, password)];
        page.log := page.log + typeUser;
        if b.typeOk(usernameField.value) {
          page.log := page.log + typePass;
          if b.typeOk(passwordField.value) {
            Submit(page, SubmitSelectors);
            AppendRegroup(start, typeUser, typePass, SubmitActions(b, SubmitSelectors));
          }
        }
      }
    }

    /** The username loop of `handleLogin`: the first selector that appears in time and is
        then found. */
    method FindUsernameField(b: PageBehaviour) returns (field: Option<string>)
      ensures field == FirstFound(UsernameSelectors, UsernameTest(b))
    {
      field := None;
      var i := 0;
      while i < |UsernameSelectors|
        invariant 0 <= i <= |UsernameSelectors|
        invariant FirstFound(UsernameSelectors, UsernameTest(b)) == FirstFound(UsernameSelectors[i..], UsernameTest(b))
      {
        var sel := UsernameSelectors[i];
        // waitForSelector resolves, then page.$ finds the field
        if b.appears(sel) && b.query(sel) == Found {
          field := Some(sel);
          return;
        }
        assert UsernameSelectors[i..][1..] == UsernameSelectors[i + 1..];
        i := i + 1;
      }
    }

    /** The password loop of `handleLogin`: the first selector that is found. */
    method FindPasswordField(b: PageBehaviour) returns (field: Option<string>)
      ensures field == FirstFound(PasswordSelectors, PasswordTest(b))
    {
      field := None;
      var j := 0;
      while j < |PasswordSelectors|
        invariant 0 <= j <= |PasswordSelectors|
        invariant FirstFound(PasswordSelectors, PasswordTest(b)) == FirstFound(PasswordSelectors[j..], PasswordTest(b))
      {
        var sel := PasswordSelectors[j];
        if b.query(sel) == Found {
          field := Some(sel);
          return;
        }
        assert PasswordSelectors[j..][1..] == PasswordSelectors[j + 1..];
        j := j + 1;
      }
    }

    /** The submit loop of `handleLogin`, over the candidate selectors in order. */
    method Submit(page: Page, selectors: seq<string>)
      modifies page
      ensures page.log == old(page.log) + SubmitActions(page.behaviour, selectors)
    {
      var b := page.behaviour;
      ghost var target := old(page.log) + SubmitActions(b, selectors);
      var k := 0;
      while k < |selectors|
        invariant 0 <= k <= |selectors|
        invariant page.log + SubmitActions(b, selectors[k..]) == target
      {
        var sel := selectors[k];
        assert selectors[k..][1..] == selectors[k + 1..];
        if b.query(sel) == Found {
          AppendAssoc(page.log, [Click(sel)], SubmitActions(b, selectors[k + 1..]));
          page.log := page.log + [Click(sel)];
          // the click and the navigation it triggers both resolve
          if b.clickOk(sel) && b.navigationOk(sel) {
            break;
          }
        }
        k := k + 1;
      }
    }

    /** `searchForKeywords`: the scan run inside the page, or no matches when running it throws. */
    method SearchForKeywords(page: Page, keyword: string) returns (matches: seq<Match>)
      ensures matches == ScanResult(page.behaviour.dom, keyword)
    {
      match page.behaviour.dom {
        case None =>
          matches := [];
        case Some(els) =>
          var found := CollectElements(els, KeywordTest(keyword));
          matches := if |found| <= MaxMatches then found else found[..MaxMatches];
      }
    }

    /** The `forEach` inside the page: every element that passes `test` is captured, with
        its position as id. */
    method CollectElements(els: seq<Element>, test: Element -> bool) returns (found: seq<Match>)
      ensures found == Collect(els, test)
    {
      found := [];
      var i := 0;
      while i < |els|
        invariant 0 <= i <= |els|
        invariant found == Collect(els[..i], test)
      {
        assert els[..i + 1][..i] == els[..i];
        if test(els[i]) {
          found := found + [Capture(els[i], i)];
        }
        i := i + 1;
      }
      assert els[..i] == els;
    }

    /** The try block of `scrapeWebsite`. */
    method RunSteps(page: Page, params: SearchParams, resolve: (string, string) -> Option<string>, clock: Clock)
      returns (o: StepsOutcome)
      modifies page
      ensures page.log == old(page.log) + StepActions(params, page.behaviour)
      ensures o == Steps(params, page.behaviour, resolve, clock)
    {
      var b := page.behaviour;
      page.log := page.log + [SetUserAgent(UserAgent)];
      if !b.userAgentOk {
        return StepsOutcome(Err(UserAgentError), [10]);
      }
      page.log := page.log + [Goto(params.url)];
      if !b.gotoOk {
        return StepsOutcome(Err(NavigationError), [10, 20]);
      }
      o := RunAfterNavigation(page, params, resolve, clock);
      AppendRegroup(old(page.log), [SetUserAgent(UserAgent)], [Goto(params.url)], LoginStep(params, b));
    }

    /** The steps of the try block after the navigation: the login attempt, the scan and the
        extraction, having reported 10 and 20 already. */
    method RunAfterNavigation(page: Page, params: SearchParams, resolve: (string, string) -> Option<string>, clock: Clock)
      returns (o: StepsOutcome)
      modifies page
      ensures page.log == old(page.log) + LoginStep(params, page.behaviour)
      ensures o == AfterNavigation(params, page.behaviour, resolve, clock)
    {
      var b := page.behaviour;
      var progress: seq<int> := [10, 20, 30];
      if HasCredentials(params) {
        HandleLogin(page, params.username.value, params.password.value);
      }
      progress := progress + [50];
      var matches := SearchForKeywords(page, params.keyword);
      progress := progress + [80];
      var data := ExtractData(b, matches, params.keyword, resolve, clock);
      if data.Err? {
        return StepsOutcome(data, progress);
      }
      progress := progress + [100];
      o := StepsOutcome(data, progress);
    }

    /** `scrapeWebsite`: gets the browser and a new page, runs the steps, and closes the page
        whether they succeed or fail. A failure to get either comes before the try block, so
        no page is closed then. */
    method ScrapeWebsite(params: SearchParams, env: Environment) returns (o: StepsOutcome, page: Page?)
      requires Valid()
      modifies this
      ensures Valid()
      ensures old(browser) != null ==> browser == old(browser) && launches == old(launches)
      ensures old(browser) == null ==> launches == old(launches) + (if env.launchOk then 1 else 0)
      ensures browser != null <==> old(browser) != null || env.launchOk
      ensures page != null <==> (old(browser) != null || env.launchOk) && env.newPageOk
      ensures old(browser) == null && !env.launchOk ==> o == StepsOutcome(Err(LaunchError), [])
      ensures (old(browser) != null || env.launchOk) && !env.newPageOk ==> o == StepsOutcome(Err(NewPageError), [])
      ensures page != null ==> fresh(page) && page.behaviour == env.page &&
                               page.log == StepActions(params, env.page) + [ClosePage] &&
                               o == Steps(params, env.page, env.resolve, env.clock)
    {
      page := null;
      var b := Initialize(env.launchOk);
      if b == null {
        return StepsOutcome(Err(LaunchError), []), null;
      }
      page := b.NewPage(env.page, env.newPageOk);
      if page == null {
        return StepsOutcome(Err(NewPageError), []), null;
      }
      o := RunSteps(page, params, env.resolve, env.clock);
      // finally
      page.log := page.log + [ClosePage];
    }

    /** `close`: closes the browser if one is held and forgets it, so the next request
        launches a new one. */
    method Close()
      requires Valid()
      modifies this, browser
      ensures Valid() && browser == null && launches == old(launches)
      ensures old(browser) != null ==> old(browser).closed
    {
      if browser != null {
        browser.Close();
        browser := null;
      }
    }
  }

  lemma AppendAssoc(a: seq<Action>, b: seq<Action>, c: seq<Action>)
    ensures a + b + c == a + (b + c)
  {
  }

  lemma AppendRegroup(a: seq<Action>, b: seq<Action>, c: seq<Action>, d: seq<Action>)
    ensures a + b + c + d == a + (b + (c + d))
  {
  }

  // ---------------------------------------------------------------------------------
  // Properties of a request

  /** The progress reported is a leading part of 10, 20, 30, 50, 80, 100, rising strictly,
      never empty; it reaches 100 exactly when the request succeeds. */
  lemma StepsProgress(params: SearchParams, b: PageBehaviour, resolve: (string, string) -> Option<string>, clock: Clock)
    ensures var o := Steps(params, b, resolve, clock);
            |o.progress| >= 1 && o.progress <= ServerCheckpoints && StrictlyIncreasing(o.progress) &&
            (o.result.Ok? <==> o.progress == ServerCheckpoints) &&
            (o.result.Ok? <==> o.progress[|o.progress| - 1] == 100)
  {
  }

  /** A successful request returns at most ten records with pairwise distinct ids, each
      echoing the keyword, with a non-empty title and a description of at most 153 characters. */
  lemma StepsRecords(params: SearchParams, b: PageBehaviour, resolve: (string, string) -> Option<string>, clock: Clock)
    requires Steps(params, b, resolve, clock).result.Ok?
    ensures var rs := Steps(params, b, resolve, clock).result.value;
            |rs| <= MaxMatches &&
            (forall i :: 0 <= i < |rs| ==>
               rs[i].keyword == params.keyword && rs[i].title != "" && |rs[i].description| <= DescriptionLength + 3) &&
            (forall i, j :: 0 <= i < j < |rs| ==> rs[i].id != rs[j].id)
  {
    var ms := ScanResult(b.dom, params.keyword);
    var rs := Steps(params, b, resolve, clock).result.value;
    ScanSound(b.dom, params.keyword);
    RecordsFollowMatches(ms, params.keyword, b.currentUrl, b.title.value, resolve, clock);
    forall i, j | 0 <= i < j < |rs|
      ensures rs[i].id != rs[j].id
    {
      RecordIdsDistinct(ms, params.keyword, b.currentUrl, b.title.value, resolve, clock, i, j);
    }
  }

  /** The page is closed exactly once, as the last call made on it: none of the steps
      closes it. */
  lemma StepsNeverClose(params: SearchParams, b: PageBehaviour)
    ensures forall k :: 0 <= k < |StepActions(params, b)| ==> !StepActions(params, b)[k].ClosePage?
  {
    if b.userAgentOk && b.gotoOk && HasCredentials(params) {
      var login := LoginActions(b, params.username.value, params.password.value);
      if |login| > 2 {
        LoginTypesInOrder(b, params.username.value, params.password.value);
        SubmitClicksFoundButtons(b, SubmitSelectors);
        assert forall k :: 2 <= k < |login| ==> login[k] == SubmitActions(b, SubmitSelectors)[k - 2];
      }
    }
  }

  /** Without both a username and a password nothing is typed or clicked: the page only
      gets its user agent and the navigation. */
  lemma NoCredentialsNoLogin(params: SearchParams, b: PageBehaviour)
    requires !HasCredentials(params)
    ensures StepActions(params, b) <= [SetUserAgent(UserAgent), Goto(params.url)]
  {
  }

  /** A failed navigation ends the request with that error after reporting 10 and 20, and
      the page then receives nothing but the user agent, the navigation and the close. */
  lemma NavigationFailure(params: SearchParams, b: PageBehaviour, resolve: (string, string) -> Option<string>, clock: Clock)
    requires b.userAgentOk && !b.gotoOk
    ensures Steps(params, b, resolve, clock) == StepsOutcome(Err(NavigationError), [10, 20])
    ensures StepActions(params, b) + [ClosePage] == [SetUserAgent(UserAgent), Goto(params.url), ClosePage]
  {
  }

  /** A failure inside the login attempt never ends the request: whatever the page answers
      to its lookups, typing, clicks and navigation, a request whose navigation resolved
      reports 30 and 50 and then goes on to the scan, so it can only end by the title or
      URL error of the extraction. */
  lemma LoginFailureNeverEndsRequest(params: SearchParams, b: PageBehaviour, resolve: (string, string) -> Option<string>, clock: Clock)
    requires b.userAgentOk && b.gotoOk
    ensures var o := Steps(params, b, resolve, clock);
            [10, 20, 30, 50, 80] <= o.progress &&
            (o.result.Err? ==> o.result.error == TitleError || o.result.error == UrlError)
  {
  }
}
