/**
 * The externally visible effects of the scrapers (header changes, sleeps,
 * requests, browser lifecycle), recorded as a trace so that their order can
 * be stated.
 */
module Events {
  import opened Common
  import opened Json

  /** A browser session: a remote WebDriver at the configured executor, or a local Chrome. */
  datatype Driver = RemoteDriver(executor: Json) | LocalDriver

  datatype Event =
    | SetUserAgent(agent: string)         // the session's User-Agent header is replaced
    | Sleep                              // the per-request rate-limit delay
    | Get(url: string, ua: Option<string>) // an HTTP GET, with the User-Agent it carries (None: library default)
    | Backoff(seconds: int)              // the retry wait between two attempts
    | OpenSession                        // an HTTP client session is created
    | CloseSession                       // and closed
    | StartDriver(driver: Driver, options: seq<string>) // a browser is started with these arguments
    | Navigate(url: string)              // the browser loads a URL
    | Screenshot                         // a diagnostic screenshot is attempted
    | Quit                               // the browser is shut down

  predicate IsRequest(e: Event) {
    e.Get? || e.Navigate?
  }

  /** Every request or navigation comes right after the rate-limit delay. */
  predicate SleepBeforeRequests(t: seq<Event>) {
    forall i :: 0 <= i < |t| && IsRequest(t[i]) ==> i > 0 && t[i - 1] == Sleep
  }

  lemma SleepBeforeRequestsAppend(a: seq<Event>, b: seq<Event>)
    requires SleepBeforeRequests(a) && SleepBeforeRequests(b)
    ensures SleepBeforeRequests(a + b)
  {
    forall i | 0 <= i < |a + b| && IsRequest((a + b)[i])
      ensures i > 0 && (a + b)[i - 1] == Sleep
    {
      if i >= |a| {
        assert (a + b)[i] == b[i - |a|];
      }
    }
  }

  /** The URLs requested or navigated to, in order. */
  function Requests(t: seq<Event>): (us: seq<string>)
    ensures |us| <= |t|
  {
    if |t| == 0 then []
    else Requests(t[..|t| - 1]) + (if IsRequest(t[|t| - 1]) then [t[|t| - 1].url] else [])
  }

  lemma {:induction false} RequestsAppend(a: seq<Event>, b: seq<Event>)
    ensures Requests(a + b) == Requests(a) + Requests(b)
    decreases |b|
  {
    if |b| == 0 {
      assert a + b == a;
    } else {
      assert (a + b)[..|a + b| - 1] == a + b[..|b| - 1];
      RequestsAppend(a, b[..|b| - 1]);
    }
  }
}
