/**
 * The aiohttp backend: an async context manager that opens one client
 * session (with an admission limit and a connector limit), a retried
 * `fetch_page` that picks a per-request User-Agent, and a `scrape` that
 * fetches every start URL once, without pagination.
 *
 * The concurrent tasks of `scrape` are modelled sequentially, in start-path
 * order, which is the order `asyncio.gather` returns their results in.
 */
module AsyncScraper {
  import opened Common
  import opened Dicts
  import opened Json
  import opened Events
  import opened Extraction
  import opened FetchPolicy
  import opened Pagination

  /** An aiohttp client session: its default User-Agent, its connector limit and whether it is still open. */
  datatype Session = Session(defaultUa: Option<string>, connectorLimit: Json, open: bool)

  /** `concurrency.get("global", 5)`. */
  function GlobalLimit(concurrency: Dict<string, Json>): (limit: Json)
    ensures "global" in Keys(concurrency) ==> Dicts.Get(concurrency, "global") == Some(limit)
    ensures "global" !in Keys(concurrency) ==> limit == JNum(5.0)
  {
    GetOr(concurrency, "global", JNum(5.0))
  }

  /** The async backend never follows a next link. */
  function NoNext<E>(d: E, u: string): Outcome<Option<string>> {
    Value(None)
  }

  /** Without a next link, any walk of at least one page is the first page alone. */
  lemma NoNextWalk<E, R>(fetch: string -> Option<E>, extract: E -> Outcome<seq<R>>, url: string, fuel: nat)
    requires url != "" && fuel > 0
    ensures Walk(Pager(fetch, extract, NoNext), url, fuel) == SinglePage(Pager(fetch, extract, NoNext), url)
    ensures Visited(Pager(fetch, extract, NoNext), url, fuel) == [url]
  {
    var p := Pager(fetch, extract, NoNext);
    assert PageStep(p, url).1 == "";
    WalkEmpty(p, "", fuel - 1);
  }

  class AsyncScraper<E> {
    const dom: Dom<E>
    const transport: Transport<E>
    const urljoin: (string, string) -> string
    const userAgents: seq<string>
    const baseUrl: string
    const startPaths: seq<string>
    const schema: Schema
    const concurrency: Dict<string, Json>
    /** The admission limit of `self.semaphore` (`None` before entry). */
    var semaphoreLimit: Option<Json>
    var session: Option<Session>
    var trace: seq<Event>
    /** The URLs `fetch_page` was called with, in order. */
    ghost var fetched: seq<string>

    /** Inside `async with`: a semaphore and an open session exist. */
    ghost predicate Open()
      reads this
    {
      semaphoreLimit.Some? && session.Some? && session.value.open
    }

    constructor(dom: Dom<E>, transport: Transport<E>, urljoin: (string, string) -> string,
                userAgents: seq<string>, baseUrl: string, startPaths: Option<seq<string>>,
                schema: Schema, concurrency: Dict<string, Json>)
      ensures semaphoreLimit == None && session == None && trace == [] && fetched == []
      ensures this.dom == dom && this.transport == transport && this.urljoin == urljoin
      ensures this.userAgents == userAgents && this.baseUrl == baseUrl && this.schema == schema
      ensures this.startPaths == startPaths.GetOr(["/"]) && this.concurrency == concurrency
    {
      this.dom := dom;
      this.transport := transport;
      this.urljoin := urljoin;
      this.userAgents := userAgents;
      this.baseUrl := baseUrl;
      this.startPaths := startPaths.GetOr(["/"]);
      this.schema := schema;
      this.concurrency := concurrency;
      semaphoreLimit := None;
      session := None;
      trace := [];
      fetched := [];
    }

    /** The pages of this scraper as oracles of the pagination module. */
    function Pages(): Pager<E, Record> {
      Pager(u => FetchOutcome(transport, u), d => Extract(dom, d, schema), NoNext)
    }

    function StartUrls(): seq<string> {
      JoinedUrls(urljoin, baseUrl, startPaths)
    }

    /**
     * `__aenter__`: both limits are `concurrency.global` (5 when absent), and
     * the session's default User-Agent is the first configured one, if any.
     */
    method Enter()
      modifies this
      ensures Open()
      ensures semaphoreLimit == Some(GlobalLimit(concurrency))
      ensures session == Some(Session(if |userAgents| > 0 then Some(userAgents[0]) else None,
                                      GlobalLimit(concurrency), true))
      ensures trace == old(trace) + [OpenSession]
      ensures fetched == old(fetched)
    {
      var globalConcurrency := GetOr(concurrency, "global", JNum(5.0));
      semaphoreLimit := Some(globalConcurrency);
      var headers: Option<string> := None;
      if |userAgents| > 0 {
        headers := Some(userAgents[0]);
      }
      session := Some(Session(headers, globalConcurrency, true));
      trace := trace + [OpenSession];
    }

    /** `__aexit__`: closes the session if there is one; nothing else changes. */
    method Exit()
      modifies this
      ensures semaphoreLimit == old(semaphoreLimit)
      ensures old(session).None? ==> session == None && trace == old(trace)
      ensures old(session).Some? ==>
        session == Some(old(session).value.(open := false)) && trace == old(trace) + [CloseSession]
      ensures fetched == old(fetched)
    {
      if session.Some? {
        session := Some(session.value.(open := false));
        trace := trace + [CloseSession];
      }
    }

    /** One attempt: a per-request User-Agent, the delay, the request. */
    method Attempt(url: string, k: nat) returns (page: Option<E>, ghost pick: Option<string>)
      requires Open()
      modifies this`trace
      ensures page == transport(url, k)
      ensures PicksFrom([pick], userAgents)
      ensures trace == old(trace) + AttemptEvents(url, pick, false)
    {
      var header: Option<string> := None;
      if |userAgents| > 0 {
        assert userAgents[0] in userAgents;
        var ua :| ua in userAgents;
        header := Some(ua);
      }
      pick := header;
      trace := trace + [Sleep, Get(url, header)];
      page := transport(url, k);
    }

    /** `fetch_page` under its retry decorator, inside `async with`. */
    method FetchPage(url: string) returns (page: Option<E>, ghost picks: seq<Option<string>>, ghost waits: seq<int>)
      requires Open()
      modifies this`trace, this`fetched
      ensures page == FetchOutcome(transport, url)
      ensures |picks| == AttemptsUsed(transport, url) && |picks| == |waits| + 1
      ensures PicksFrom(picks, userAgents) && WaitsInBounds(waits)
      ensures trace == old(trace) + FetchEvents(url, picks, waits, false)
      ensures fetched == old(fetched) + [url]
    {
      ghost var pick;
      page, pick := Attempt(url, 0);
      picks, waits := [pick], [];
      var attempt: nat := 1;
      while page.None? && attempt < MaxAttempts
        invariant 1 <= attempt <= MaxAttempts
        invariant |picks| == attempt && |waits| + 1 == attempt
        invariant PicksFrom(picks, userAgents) && WaitsInBounds(waits)
        invariant trace == old(trace) + FetchEvents(url, picks, waits, false)
        invariant fetched == old(fetched)
        invariant Tried(transport, url, attempt, page)
        decreases MaxAttempts - attempt
      {
        var w :| MinWait <= w <= MaxWait;
        trace := trace + [Backoff(w)];
        TriedNext(transport, url, attempt, page);
        page, pick := Attempt(url, attempt);
        RetryStep(url, userAgents, picks, waits, pick, w, false, old(trace), trace);
        picks, waits := picks + [pick], waits + [w];
        attempt := attempt + 1;
      }
      fetched := fetched + [url];
      TriedDone(transport, url, attempt, page);
    }

    /** `scrape_single_page`: never raises; a failed fetch or extraction gives `[]`. */
    method ScrapeSinglePage(url: string) returns (rs: seq<Record>, ghost picks: seq<Option<string>>, ghost waits: seq<int>)
      requires Open()
      modifies this`trace, this`fetched
      ensures rs == SinglePage(Pages(), url)
      ensures fetched == old(fetched) + [url]
      ensures |picks| == |waits| + 1 && trace == old(trace) + FetchEvents(url, picks, waits, false)
    {
      var page;
      page, picks, waits := FetchPage(url);
      if page.None? {
        rs := [];
        return;
      }
      var items := Extraction.ExtractData(dom, page.value, schema);
      if items.Raised? {
        rs := [];
        return;
      }
      rs := items.value;
    }

    /**
     * `scrape`: inside one session, every start URL fetched exactly once and
     * in order; the results concatenated; the session closed at the end.
     */
    method Scrape() returns (data: seq<Record>)
      modifies this
      ensures data == SinglePages(Pages(), StartUrls())
      ensures fetched == old(fetched) + StartUrls()
      ensures session.Some? && !session.value.open
      ensures |trace| >= |old(trace)| + 2 && trace[..|old(trace)|] == old(trace)
      ensures trace[|old(trace)|] == OpenSession && trace[|trace| - 1] == CloseSession
    {
      var p := Pages();
      var urls := StartUrls();
      Enter();
      ghost var entered := trace;
      data := [];
      var i := 0;
      while i < |urls|
        invariant Open()
        invariant 0 <= i <= |urls|
        invariant data == SinglePages(p, urls[..i])
        invariant fetched == old(fetched) + urls[..i]
        invariant entered <= trace
      {
        ghost var before := trace;
        var rs, picks, waits := ScrapeSinglePage(urls[i]);
        var j := i + 1;
        TakeSnoc(urls, i, j);
        assert old(fetched) + urls[..i] + [urls[i]] == old(fetched) + (urls[..i] + [urls[i]]);
        assert entered <= before + FetchEvents(urls[i], picks, waits, false);
        data := data + rs;
        i := j;
      }
      assert urls[..i] == urls;
      ghost var beforeExit := trace;
      Exit();
      assert trace[..|old(trace)|] == beforeExit[..|old(trace)|] == entered[..|old(trace)|];
    }
  }
}
