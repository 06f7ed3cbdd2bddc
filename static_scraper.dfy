/**
 * The requests/BeautifulSoup backend: a session whose User-Agent header is
 * rotated on every fetch attempt, a retried `fetch_page`, the shared
 * extraction engine, a next-link lookup and the paginated `scrape` loop.
 */
module StaticScraper {
  import opened Common
  import opened Dicts
  import opened Json
  import opened Events
  import opened Extraction
  import opened FetchPolicy
  import opened Pagination

  /**
   * `get_next_page_url`: the next URL is the current URL joined with the
   * `href` of the first document-wide match of a truthy `next_selector`;
   * the URL template is read but never yields a URL.
   */
  function NextPageUrl<E>(dom: Dom<E>, urljoin: (string, string) -> string,
                          nextSelector: Option<string>, nextUrlTemplate: Option<string>,
                          doc: E, current: string): (r: Outcome<Option<string>>)
    ensures r.Raised? <==>
      nextSelector.Some? && nextSelector.value != "" && dom.select(doc, nextSelector.value).Raised?
    ensures (exists u :: r == Value(Some(u))) <==>
      nextSelector.Some? && nextSelector.value != "" &&
      dom.select(doc, nextSelector.value).Value? && |dom.select(doc, nextSelector.value).value| > 0 &&
      dom.attr(dom.select(doc, nextSelector.value).value[0], "href").Some? &&
      dom.attr(dom.select(doc, nextSelector.value).value[0], "href").value != ""
    ensures r.Value? && r.value.Some? ==>
      r.value.value == urljoin(current, dom.attr(dom.select(doc, nextSelector.value).value[0], "href").value)
  {
    if nextSelector.Some? && nextSelector.value != "" then
      match dom.select(doc, nextSelector.value)
      case Raised => Raised
      case Value(es) =>
        if |es| > 0 && dom.attr(es[0], "href").Some? && dom.attr(es[0], "href").value != "" then
          Value(Some(urljoin(current, dom.attr(es[0], "href").value)))
        else Value(None)
    else Value(None)
  }

  /** The URL template has no effect on the next-page URL. */
  lemma TemplateIgnored<E>(dom: Dom<E>, urljoin: (string, string) -> string, nextSelector: Option<string>,
                           t1: Option<string>, t2: Option<string>, doc: E, current: string)
    ensures NextPageUrl(dom, urljoin, nextSelector, t1, doc, current)
         == NextPageUrl(dom, urljoin, nextSelector, t2, doc, current)
  {
  }

  class StaticScraper<E> {
    const dom: Dom<E>
    const transport: Transport<E>
    const urljoin: (string, string) -> string
    const userAgents: seq<string>
    const baseUrl: string
    const startPaths: seq<string>
    const schema: Schema
    const nextSelector: Option<string>
    const nextUrlTemplate: Option<string>
    /** The session's User-Agent header (`None`: the library default). */
    var uaHeader: Option<string>
    var trace: seq<Event>
    /** The URLs `fetch_page` was called with, in order. */
    ghost var fetched: seq<string>

    ghost predicate Valid()
      reads this
    {
      if |userAgents| > 0 then uaHeader.Some? && uaHeader.value in userAgents else uaHeader == None
    }

    /** The session starts with the first configured User-Agent; start paths default to `["/"]`. */
    constructor(dom: Dom<E>, transport: Transport<E>, urljoin: (string, string) -> string,
                userAgents: seq<string>, baseUrl: string, startPaths: Option<seq<string>>,
                schema: Schema, nextSelector: Option<string>, nextUrlTemplate: Option<string>)
      ensures Valid() && trace == [] && fetched == []
      ensures uaHeader == if |userAgents| > 0 then Some(userAgents[0]) else None
      ensures this.dom == dom && this.transport == transport && this.urljoin == urljoin
      ensures this.userAgents == userAgents && this.baseUrl == baseUrl && this.schema == schema
      ensures this.startPaths == startPaths.GetOr(["/"])
      ensures this.nextSelector == nextSelector && this.nextUrlTemplate == nextUrlTemplate
    {
      this.dom := dom;
      this.transport := transport;
      this.urljoin := urljoin;
      this.userAgents := userAgents;
      this.baseUrl := baseUrl;
      this.startPaths := startPaths.GetOr(["/"]);
      this.schema := schema;
      this.nextSelector := nextSelector;
      this.nextUrlTemplate := nextUrlTemplate;
      uaHeader := if |userAgents| > 0 then Some(userAgents[0]) else None;
      trace := [];
      fetched := [];
    }

    /** The walk this scraper performs, as oracles of the pagination module. */
    function Pages(): Pager<E, Record> {
      Pager(u => FetchOutcome(transport, u),
            d => Extract(dom, d, schema),
            (d, u) => NextPageUrl(dom, urljoin, nextSelector, nextUrlTemplate, d, u))
    }

    function StartUrls(): seq<string> {
      JoinedUrls(urljoin, baseUrl, startPaths)
    }

    /** One attempt of `fetch_page`: pick a User-Agent for the session, sleep, request. */
    method Attempt(url: string, k: nat) returns (page: Option<E>, ghost pick: Option<string>)
      requires Valid()
      modifies this`uaHeader, this`trace
      ensures Valid()
      ensures page == transport(url, k)
      ensures PicksFrom([pick], userAgents) && uaHeader == pick
      ensures trace == old(trace) + AttemptEvents(url, pick, true)
      ensures fetched == old(fetched)
    {
      if |userAgents| > 0 {
        assert userAgents[0] in userAgents;
        var ua :| ua in userAgents;
        uaHeader := Some(ua);
        trace := trace + [SetUserAgent(ua)];
      }
      pick := uaHeader;
      trace := trace + [Sleep, Get(url, uaHeader)];
      page := transport(url, k);
    }

    /** `fetch_page` under its retry decorator: `None` when all three attempts failed. */
    method FetchPage(url: string) returns (page: Option<E>, ghost picks: seq<Option<string>>, ghost waits: seq<int>)
      requires Valid()
      modifies this`uaHeader, this`trace, this`fetched
      ensures Valid()
      ensures page == FetchOutcome(transport, url)
      ensures |picks| == AttemptsUsed(transport, url) && |picks| == |waits| + 1
      ensures PicksFrom(picks, userAgents) && WaitsInBounds(waits)
      ensures trace == old(trace) + FetchEvents(url, picks, waits, true)
      ensures fetched == old(fetched) + [url]
    {
      ghost var pick;
      page, pick := Attempt(url, 0);
      picks, waits := [pick], [];
      var attempt: nat := 1;
      while page.None? && attempt < MaxAttempts
        invariant Valid()
        invariant 1 <= attempt <= MaxAttempts
        invariant |picks| == attempt && |waits| + 1 == attempt
        invariant PicksFrom(picks, userAgents) && WaitsInBounds(waits)
        invariant trace == old(trace) + FetchEvents(url, picks, waits, true)
        invariant fetched == old(fetched)
        invariant Tried(transport, url, attempt, page)
        decreases MaxAttempts - attempt
      {
        var w :| MinWait <= w <= MaxWait;
        trace := trace + [Backoff(w)];
        TriedNext(transport, url, attempt, page);
        page, pick := Attempt(url, attempt);
        RetryStep(url, userAgents, picks, waits, pick, w, true, old(trace), trace);
        picks, waits := picks + [pick], waits + [w];
        attempt := attempt + 1;
      }
      fetched := fetched + [url];
      TriedDone(transport, url, attempt, page);

    }

    /** `extract_data`: the shared extraction engine over this scraper's selectors. */
    method ExtractData(doc: E) returns (items: Outcome<seq<Record>>)
      ensures items == Extract(dom, doc, schema)
    {
      items := Extraction.ExtractData(dom, doc, schema);
    }

    /**
     * `scrape`: every start URL in order, every page of it in order, each
     * page's records appended before the next page is fetched; a page error
     * ends only the current start URL.
     */
    method Scrape(fuel: nat) returns (data: seq<Record>)
      requires Valid()
      modifies this
      ensures Valid()
      ensures data == ScrapeAll(Pages(), StartUrls(), fuel)
      ensures fetched == old(fetched) + Visits(Pages(), StartUrls(), fuel)
    {
      var p := Pages();
      var urls := StartUrls();
      data := [];
      var i := 0;
      assert Visits(p, urls[..0], fuel) == [];
      while i < |startPaths|
        invariant Valid()
        invariant 0 <= i <= |urls|
        invariant data == ScrapeAll(p, urls[..i], fuel)
        invariant fetched == old(fetched) + Visits(p, urls[..i], fuel)
      {
        var start := urljoin(baseUrl, startPaths[i]);
        var pathData, pathVisited := ScrapePath(start, fuel);
        ScrapeAllAdvance(p, urls, i, fuel, data, pathData, old(fetched), fetched);
        data := data + pathData;
        i := i + 1;
      }
      assert urls[..i] == urls;
    }

    /** The `try` block of one loop iteration: a failure anywhere in it ends the path (`break`). */
    method ScrapePage(current: string) returns (rs: seq<Record>, next: string)
      requires Valid()
      modifies this`uaHeader, this`trace, this`fetched
      ensures Valid()
      ensures (rs, next) == PageStep(Pages(), current)
      ensures fetched == old(fetched) + [current]
    {
      var page, picks, waits := FetchPage(current);
      if page.None? {
        return [], "";
      }
      var items := ExtractData(page.value);
      if items.Raised? {
        return [], "";
      }
      var nextUrl := NextPageUrl(dom, urljoin, nextSelector, nextUrlTemplate, page.value, current);
      rs, next := items.value, Follow(nextUrl);
    }

    /** The `while current_url` loop for one start URL. */
    method ScrapePath(start: string, fuel: nat) returns (pathData: seq<Record>, ghost pathVisited: seq<string>)
      requires Valid()
      modifies this
      ensures Valid()
      ensures pathData == Walk(Pages(), start, fuel)
      ensures pathVisited == Visited(Pages(), start, fuel)
      ensures fetched == old(fetched) + pathVisited
    {
      var p := Pages();
      pathData, pathVisited := [], [];
      var current := start;
      var left := fuel;
      assert pathData + Walk(p, current, left) == Walk(p, start, fuel);
      assert pathVisited + Visited(p, current, left) == Visited(p, start, fuel);
      while current != "" && left > 0
        invariant Valid()
        invariant pathData + Walk(p, current, left) == Walk(p, start, fuel)
        invariant pathVisited + Visited(p, current, left) == Visited(p, start, fuel)
        invariant fetched == old(fetched) + pathVisited
        decreases left
      {
        var rs, next := ScrapePage(current);
        var nextLeft := left - 1;
        WalkAdvance(p, start, fuel, pathData, pathVisited, current, left, rs, next, nextLeft);
        pathData := pathData + rs;
        pathVisited := pathVisited + [current];
        current, left := next, nextLeft;
      }
      WalkEmpty(p, current, left);
      assert pathData + [] == pathData && pathVisited + [] == pathVisited;
    }
  }
}
