/** The mock scraping service the page actually calls (src/services/puppeteerService.ts):
    canned progress steps and a random-length prefix of five templated records. */
module MockService {
  import opened Scraping
  import opened JsString

  /** The values passed to `onProgress`, in order. */
  const MockCheckpoints: seq<int> := [10, 30, 50, 70, 90, 100]

  /** The i-th base record (1 to 5); only the title and the texts differ between them. */
  function BaseRecord(params: SearchParams, clock: Clock, i: nat, title: string, description: string, extractedText: string): ScrapingData
  {
    ScrapingData(
      NatToString(clock.millis) + "-" + NatToString(i),
      title,
      params.url + "/profile/" + NatToString(i),
      description,
      params.keyword,
      extractedText,
      clock.iso)
  }

  // The fixed text around the keyword in each base record's title, description and extracted text.
  const Title1Before := "Results for \""
  const Title1After := "\" - Professional Profile"
  const Description1Before := "Professional profile containing information about "
  const Description1After := ". This person has extensive experience in the field and offers valuable insights."
  const Text1Before := "This is extracted text containing "
  const Text1After := " with relevant professional information, skills, and experience details."
  const Title2After := " Expert - Senior Position"
  const Description2Before := "Senior professional specializing in "
  const Description2After := " with over 10 years of experience in the industry."
  const Text2Before := "Detailed information about "
  const Text2After := " expertise, including technical skills, project management, and leadership experience."
  const Title3After := " Consultant - Industry Leader"
  const Description3Before := "Industry leader and consultant specializing in "
  const Description3After := " solutions for enterprise clients."
  const Text3Before := "Comprehensive profile showing "
  const Text3After := " consulting experience, client testimonials, and successful project implementations."
  const Title4After := " Specialist - Innovation Focus"
  const Description4Before := "Innovation-focused specialist working with cutting-edge "
  const Description4After := " technologies and methodologies."
  const Text4Before := "Advanced "
  const Text4After := " specialist with focus on innovation, research and development, and emerging technologies in the field."
  const Title5After := " Manager - Team Leadership"
  const Description5Before := "Experienced manager leading "
  const Description5After := " teams and driving strategic initiatives in large organizations."
  const Text5Before := "Leadership profile showcasing "
  const Text5After := " team management, strategic planning, and organizational development experience."

  /** `baseResults`: the five templated records, in their order in the source. */
  function BaseResults(params: SearchParams, clock: Clock): (r: seq<ScrapingData>)
    ensures |r| == 5
    ensures forall i :: 0 <= i < 5 ==>
              r[i].keyword == params.keyword && r[i].timestamp == clock.iso &&
              r[i].url == params.url + "/profile/" + NatToString(i + 1) &&
              r[i].id == NatToString(clock.millis) + "-" + NatToString(i + 1)
  {
    var k := params.keyword;
    [ BaseRecord(params, clock, 1, Title1Before + k + Title1After,
        Description1Before + k + Description1After, Text1Before + k + Text1After),
      BaseRecord(params, clock, 2, k + Title2After,
        Description2Before + k + Description2After, Text2Before + k + Text2After),
      BaseRecord(params, clock, 3, k + Title3After,
        Description3Before + k + Description3After, Text3Before + k + Text3After),
      BaseRecord(params, clock, 4, k + Title4After,
        Description4Before + k + Description4After, Text4Before + k + Text4After),
      BaseRecord(params, clock, 5, k + Title5After,
        Description5Before + k + Description5After, Text5Before + k + Text5After)
    ]
  }

  /** `Math.floor(Math.random() * 3) + 3`, for a draw in [0, 1). */
  function NumResults(random: real): (n: nat)
    requires 0.0 <= random < 1.0
    ensures 3 <= n <= 5
  {
    var f := (random * 3.0).Floor;
    assert 0 <= f < 3;
    f + 3
  }

  /** `generateMockData`: the first three, four or five base records. */
  function GenerateMockData(params: SearchParams, random: real, clock: Clock): (r: seq<ScrapingData>)
    requires 0.0 <= random < 1.0
    ensures 3 <= |r| <= 5
    ensures r == BaseResults(params, clock)[..|r|]
    ensures forall i :: 0 <= i < |r| ==> r[i].keyword == params.keyword
    ensures forall i :: 0 <= i < |r| ==> r[i].url == params.url + "/profile/" + NatToString(i + 1)
  {
    BaseResults(params, clock)[..NumResults(random)]
  }

  class PuppeteerService {
    /** Never assigned anything but null in the mock. */
    var browser: object?

    constructor ()
      ensures browser == null
    {
      browser := null;
    }

    /** `initialize`: there is nothing to start, and it always reports success. */
    method Initialize() returns (ok: bool)
      ensures ok
    {
      ok := true;
    }

    /** `scrapeWebsite`: reports the canned progress steps, then returns the mock records.
        The half-second delays between steps are not modelled. */
    method ScrapeWebsite(params: SearchParams, random: real, clock: Clock) returns (progress: seq<int>, results: seq<ScrapingData>)
      requires 0.0 <= random < 1.0
      ensures progress == MockCheckpoints
      ensures StrictlyIncreasing(progress) && progress[|progress| - 1] == 100
      ensures results == GenerateMockData(params, random, clock)
    {
      progress := [];
      progress := progress + [10];
      progress := progress + [30];
      progress := progress + [50];
      progress := progress + [70];
      progress := progress + [90];
      progress := progress + [100];
      results := GenerateMockData(params, random, clock);
    }

    /** `close`: forgets the browser. */
    method Close()
      modifies this
      ensures browser == null
    {
      browser := null;
    }
  }
}
