/**
 * The fetch policy of the HTTP backends: at most three attempts, a wait
 * between consecutive attempts that lies in [4, 10] seconds, and, on every
 * attempt, a User-Agent choice and the rate-limit sleep before the request.
 *
 * The transport is an oracle: `t(url, k)` is the outcome of attempt `k`
 * (counting from 0) of fetching `url`; `None` stands for any raised error
 * (connection error, timeout, non-2xx status).
 */
module FetchPolicy {
  import opened Common
  import opened Events

  const MaxAttempts: nat := 3
  const MinWait: int := 4
  const MaxWait: int := 10

  type Transport<D> = (string, nat) -> Option<D>

  /** The first successful attempt from attempt `k` on, if any. */
  function FirstSuccess<D>(t: Transport<D>, url: string, k: nat): Option<D>
    decreases MaxAttempts - k
  {
    if k >= MaxAttempts then None
    else if t(url, k).Some? then t(url, k)
    else FirstSuccess(t, url, k + 1)
  }

  /** What a decorated `fetch_page(url)` returns (`None`: it raised after the last attempt). */
  function FetchOutcome<D>(t: Transport<D>, url: string): Option<D> {
    FirstSuccess(t, url, 0)
  }

  /** How many attempts are made from attempt `k` on. */
  function AttemptsFrom<D>(t: Transport<D>, url: string, k: nat): (n: nat)
    requires k < MaxAttempts
    ensures k < n <= MaxAttempts
    decreases MaxAttempts - k
  {
    if t(url, k).Some? || k + 1 == MaxAttempts then k + 1 else AttemptsFrom(t, url, k + 1)
  }

  function AttemptsUsed<D>(t: Transport<D>, url: string): nat {
    AttemptsFrom(t, url, 0)
  }

  /**
   * The retry contract: a transport that fails exactly `k < 3` times and then
   * succeeds yields that success after `k + 1` attempts.
   */
  lemma RetrySucceeds<D>(t: Transport<D>, url: string, k: nat, d: D)
    requires k < MaxAttempts
    requires forall j :: 0 <= j < k ==> t(url, j) == None
    requires t(url, k) == Some(d)
    ensures FetchOutcome(t, url) == Some(d)
    ensures AttemptsUsed(t, url) == k + 1
  {
  }

  /** Failing three times always yields the failure, after exactly three attempts. */
  lemma RetryExhausted<D>(t: Transport<D>, url: string)
    requires forall j :: 0 <= j < MaxAttempts ==> t(url, j) == None
    ensures FetchOutcome(t, url) == None
    ensures AttemptsUsed(t, url) == MaxAttempts
  {
    assert FirstSuccess(t, url, 2) == None;
    assert FirstSuccess(t, url, 1) == None;
  }

  /** `n` attempts were made, `page` is the last one's result, and every earlier one failed. */
  ghost predicate Tried<D>(t: Transport<D>, url: string, n: nat, page: Option<D>) {
    1 <= n && page == t(url, n - 1) && forall j :: 0 <= j < n - 1 ==> t(url, j) == None
  }

  lemma TriedNext<D>(t: Transport<D>, url: string, n: nat, page: Option<D>)
    requires Tried(t, url, n, page) && page.None?
    ensures Tried(t, url, n + 1, t(url, n))
  {
  }

  /** A retry loop that stops at a success or after the last attempt has the decorated call's outcome. */
  lemma TriedDone<D>(t: Transport<D>, url: string, n: nat, page: Option<D>)
    requires Tried(t, url, n, page) && n <= MaxAttempts && (page.Some? || n == MaxAttempts)
    ensures page == FetchOutcome(t, url) && n == AttemptsUsed(t, url)
  {
    if page.Some? {
      RetrySucceeds(t, url, n - 1, page.value);
    } else {
      RetryExhausted(t, url);
    }
  }

  /** The outcome is always that of the last attempt made. */
  lemma {:induction false} OutcomeIsLastAttempt<D>(t: Transport<D>, url: string, k: nat)
    requires k < MaxAttempts
    ensures FirstSuccess(t, url, k) == t(url, AttemptsFrom(t, url, k) - 1)
    ensures forall j :: k <= j < AttemptsFrom(t, url, k) - 1 ==> t(url, j) == None
    decreases MaxAttempts - k
  {
    if t(url, k).None? && k + 1 < MaxAttempts {
      OutcomeIsLastAttempt(t, url, k + 1);
    }
  }

  /** One attempt: the static backend first rotates the session header, then sleeps, then requests. */
  function AttemptEvents(url: string, ua: Option<string>, rotateSession: bool): seq<Event> {
    (if rotateSession && ua.Some? then [SetUserAgent(ua.value)] else []) + [Sleep, Get(url, ua)]
  }

  /** The events of a whole decorated call: attempts separated by their backoff waits. */
  function FetchEvents(url: string, uas: seq<Option<string>>, waits: seq<int>, rotateSession: bool): seq<Event>
    requires |uas| == |waits| + 1
    decreases |uas|
  {
    if |uas| == 1 then AttemptEvents(url, uas[0], rotateSession)
    else
      FetchEvents(url, uas[..|uas| - 1], waits[..|waits| - 1], rotateSession)
      + [Backoff(waits[|waits| - 1])]
      + AttemptEvents(url, uas[|uas| - 1], rotateSession)
  }

  /** One more attempt after a wait extends the events at the end. */
  lemma FetchEventsSnoc(url: string, uas: seq<Option<string>>, waits: seq<int>, ua: Option<string>, w: int, rotateSession: bool)
    requires |uas| == |waits| + 1
    ensures FetchEvents(url, uas + [ua], waits + [w], rotateSession)
      == FetchEvents(url, uas, waits, rotateSession) + [Backoff(w)] + AttemptEvents(url, ua, rotateSession)
  {
    assert (uas + [ua])[..|uas|] == uas;
    assert (waits + [w])[..|waits|] == waits;
  }

  /** The User-Agents of the attempts all come from the configured list (none configured: library default). */
  predicate PicksFrom(picks: seq<Option<string>>, agents: seq<string>) {
    forall p :: p in picks ==> if |agents| > 0 then p.Some? && p.value in agents else p == None
  }

  predicate WaitsInBounds(waits: seq<int>) {
    forall w :: w in waits ==> MinWait <= w <= MaxWait
  }

  /** One retry after a wait: the picks, the waits and the events all grow at the end. */
  lemma RetryStep(url: string, agents: seq<string>, picks: seq<Option<string>>, waits: seq<int>,
                  pick: Option<string>, w: int, rotateSession: bool, before: seq<Event>, trace: seq<Event>)
    requires |picks| == |waits| + 1
    requires PicksFrom(picks, agents) && PicksFrom([pick], agents)
    requires WaitsInBounds(waits) && MinWait <= w <= MaxWait
    requires trace == before + FetchEvents(url, picks, waits, rotateSession) + [Backoff(w)]
                      + AttemptEvents(url, pick, rotateSession)
    ensures PicksFrom(picks + [pick], agents) && WaitsInBounds(waits + [w])
    ensures trace == before + FetchEvents(url, picks + [pick], waits + [w], rotateSession)
  {
    FetchEventsSnoc(url, picks, waits, pick, w, rotateSession);
    assert pick in [pick];
  }

  /** One attempt sleeps right before its request, and requests `url` once. */
  lemma AttemptShape(url: string, ua: Option<string>, rotateSession: bool)
    ensures SleepBeforeRequests(AttemptEvents(url, ua, rotateSession))
    ensures Requests(AttemptEvents(url, ua, rotateSession)) == [url]
  {
    var tail := [Sleep, Get(url, ua)];
    assert tail[1] == Get(url, ua) && tail[0] == Sleep;
    assert SleepBeforeRequests(tail);
    assert tail[..1] == [Sleep];
    assert Requests(tail) == [url];
    if rotateSession && ua.Some? {
      var e := AttemptEvents(url, ua, rotateSession);
      var h := [SetUserAgent(ua.value)];
      assert e == h + tail;
      assert SleepBeforeRequests(h);
      SleepBeforeRequestsAppend(h, tail);
      RequestsAppend(h, tail);
    } else {
      assert AttemptEvents(url, ua, rotateSession) == tail;
    }
  }

  /**
   * Within a decorated call, every request to `url` is preceded by the sleep,
   * and `url` is requested once per attempt and nothing else is requested.
   */
  lemma {:induction false} FetchEventsShape(url: string, uas: seq<Option<string>>, waits: seq<int>, rotateSession: bool)
    requires |uas| == |waits| + 1
    ensures SleepBeforeRequests(FetchEvents(url, uas, waits, rotateSession))
    ensures Requests(FetchEvents(url, uas, waits, rotateSession)) == Repeat(url, |uas|)
    decreases |uas|
  {
    var last := AttemptEvents(url, uas[|uas| - 1], rotateSession);
    AttemptShape(url, uas[|uas| - 1], rotateSession);
    if |uas| > 1 {
      var init := FetchEvents(url, uas[..|uas| - 1], waits[..|waits| - 1], rotateSession);
      FetchEventsShape(url, uas[..|uas| - 1], waits[..|waits| - 1], rotateSession);
      BackoffBetween(url, init, waits[|waits| - 1], last, |uas| - 1);
    }
  }

  /** A backoff wait between earlier attempts and one more attempt keeps both properties. */
  lemma BackoffBetween(url: string, init: seq<Event>, w: int, last: seq<Event>, n: nat)
    requires SleepBeforeRequests(init) && Requests(init) == Repeat(url, n)
    requires SleepBeforeRequests(last) && Requests(last) == [url]
    ensures SleepBeforeRequests(init + [Backoff(w)] + last)
    ensures Requests(init + [Backoff(w)] + last) == Repeat(url, n + 1)
  {
    var b := [Backoff(w)];
    SleepBeforeRequestsAppend(init, b);
    SleepBeforeRequestsAppend(init + b, last);
    RequestsAppend(init, b);
    RequestsAppend(init + b, last);
    assert Repeat(url, n + 1) == Repeat(url, n) + [url];
  }

  /** Appending a decorated call to a trace appends one request of `url` per attempt. */
  lemma FetchRequests(before: seq<Event>, url: string, uas: seq<Option<string>>, waits: seq<int>, rotateSession: bool)
    requires |uas| == |waits| + 1
    ensures Requests(before + FetchEvents(url, uas, waits, rotateSession)) == Requests(before) + Repeat(url, |uas|)
  {
    FetchEventsShape(url, uas, waits, rotateSession);
    RequestsAppend(before, FetchEvents(url, uas, waits, rotateSession));
  }
}
