/** The page component (src/pages/Index.tsx): its three state fields, how a search and an
    export change them, and what the page shows for a given state. */
module IndexPage {
  import opened Wrappers
  import opened Scraping
  import opened JsString
  import MockService
  import opened ExportUtils

  /** One call of the scraping service as the page sees it: the progress values passed to
      its callback, in order, and then the records, or None when the call rejects. */
  datatype ServiceRun = ServiceRun(reports: seq<int>, outcome: Option<seq<ScrapingData>>)

  const ExportPrefix: string := "web-scraping-results-"

  /** The export's file name for the clock reading `iso` (an ISO 8601 date and time):
      the prefix and the date part, before the ".csv" the export adds. */
  function ExportName(iso: string): (name: string)
    ensures ExportPrefix <= name
    ensures forall i :: |ExportPrefix| <= i < |name| ==> name[i] != 'T'
    ensures name[|ExportPrefix|..] <= iso
    ensures |name| - |ExportPrefix| < |iso| ==> iso[|name| - |ExportPrefix|] == 'T'
  {
    ExportPrefix + SplitHead(iso, 'T')
  }

  class Index {
    var scrapingData: seq<ScrapingData>
    var status: ScrapingStatus
    var progress: int
    /** The service module the page imports: the mock. */
    const service: MockService.PuppeteerService

    /** Records are held only after a completed search. */
    ghost predicate Valid()
      reads this
    {
      status != Completed ==> scrapingData == []
    }

    /** `disabled={status === 'processing'}` on the search form. */
    predicate SearchFormDisabled()
      reads this
      ensures Valid() && SearchFormDisabled() ==> StatusPanelVisible() && !ExportVisible()
    {
      status == Processing
    }

    /** The status card is rendered when `status !== 'idle'`. */
    predicate StatusPanelVisible()
      reads this
      ensures StatusPanelVisible() <==> status == Processing || status == Completed || status == Error
    {
      status != Idle
    }

    /** The export button is rendered when `scrapingData.length > 0`. */
    predicate ExportVisible()
      reads this
      ensures Valid() && ExportVisible() ==> status == Completed
    {
      |scrapingData| > 0
    }

    constructor (service: MockService.PuppeteerService)
      ensures Valid() && scrapingData == [] && status == Idle && progress == 0 && this.service == service
      ensures !StatusPanelVisible() && !SearchFormDisabled() && !ExportVisible()
    {
      scrapingData := [];
      status := Idle;
      progress := 0;
      this.service := service;
    }

    /** The start of `handleSearch`. */
    method Begin()
      modifies this
      ensures Valid() && status == Processing && progress == 0 && scrapingData == []
      ensures SearchFormDisabled() && StatusPanelVisible() && !ExportVisible()
    {
      status := Processing;
      progress := 0;
      scrapingData := [];
    }

    /** The progress callback. */
    method OnProgress(value: int)
      requires Valid()
      modifies this
      ensures Valid() && progress == value && status == old(status) && scrapingData == old(scrapingData)
    {
      progress := value;
    }

    /** The service resolved with `results`. */
    method Succeed(results: seq<ScrapingData>)
      modifies this
      ensures Valid() && scrapingData == results && status == Completed && progress == old(progress)
      ensures ExportVisible() <==> |results| > 0
    {
      scrapingData := results;
      status := Completed;
    }

    /** The service rejected: the data cleared at the start stays empty. */
    method Fail()
      requires Valid() && status == Processing
      modifies this
      ensures Valid() && status == Error && scrapingData == [] && progress == old(progress)
      ensures !ExportVisible() && StatusPanelVisible() && !SearchFormDisabled()
    {
      status := Error;
    }

    /** `handleSearch`, given what the service call does: the state is reset, every reported
        value becomes the progress in turn, and the call's outcome decides the final state. */
    method HandleSearch(run: ServiceRun)
      requires Valid()
      modifies this
      ensures Valid() && StatusPanelVisible() && !SearchFormDisabled()
      ensures progress == if |run.reports| == 0 then 0 else run.reports[|run.reports| - 1]
      ensures run.outcome.Some? ==> status == Completed && scrapingData == run.outcome.value
      ensures run.outcome.None? ==> status == Error && scrapingData == []
    {
      Begin();
      var i := 0;
      while i < |run.reports|
        invariant 0 <= i <= |run.reports|
        invariant Valid() && status == Processing && scrapingData == []
        invariant progress == if i == 0 then 0 else run.reports[i - 1]
      {
        OnProgress(run.reports[i]);
        i := i + 1;
      }
      match run.outcome {
        case Some(results) => Succeed(results);
        case None => Fail();
      }
    }

    /** `handleSearch` against the mock service the page imports, which never rejects. */
    method HandleSearchWithMock(params: SearchParams, random: real, clock: Clock)
      requires Valid() && 0.0 <= random < 1.0
      modifies this
      ensures Valid() && status == Completed && progress == 100
      ensures scrapingData == MockService.GenerateMockData(params, random, clock)
      ensures 3 <= |scrapingData| <= 5 && ExportVisible()
    {
      var reports, results := service.ScrapeWebsite(params, random, clock);
      HandleSearch(ServiceRun(reports, Some(results)));
    }

    /** `handleExport`: the file is produced only when there are records, named after the
        date part of the clock reading `iso`; the page state is not changed. */
    method HandleExport(iso: string, localeString: string -> string) returns (file: Option<ExportFile>)
      ensures file.Some? <==> ExportVisible()
      ensures file.Some? ==> file.value.name == ExportName(iso) + ".csv" &&
                             file.value.content == CsvContent(scrapingData, localeString)
    {
      if |scrapingData| > 0 {
        file := Some(ExportToExcel(scrapingData, ExportName(iso), localeString));
      } else {
        file := None;
      }
    }
  }
}
