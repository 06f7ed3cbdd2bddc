/**
 * The pagination walk shared by the static and the browser backends: for
 * each start URL, fetch a page, extract its records, append them, and move
 * on to the next-page URL until that is falsy. A page error (a failed fetch,
 * a raising extraction, a raising next-page lookup) ends only that start URL.
 *
 * There is no cycle detection in the walk, so it is bounded by `fuel`, the
 * largest number of pages fetched per start URL.
 */
module Pagination {
  import opened Common

  /** The start URLs of a scrape: each start path joined to the base URL, in order. */
  function JoinedUrls(urljoin: (string, string) -> string, baseUrl: string, paths: seq<string>): (us: seq<string>)
    ensures |us| == |paths| && forall i :: 0 <= i < |us| ==> us[i] == urljoin(baseUrl, paths[i])
  {
    seq(|paths|, i requires 0 <= i < |paths| => urljoin(baseUrl, paths[i]))
  }

  /**
   * The oracles of a walk: fetching a document (`None`: the fetch raised),
   * extracting its records (`Raised`: extraction raised) and the next-page
   * lookup (`Raised`: it raised, `Value(None)`: no next page).
   */
  datatype Pager<!D, R> = Pager(
    fetch: string -> Option<D>,
    extract: D -> Outcome<seq<R>>,
    next: (D, string) -> Outcome<Option<string>>)

  /** The URL the loop reassigns: `None`, `""` and a raised lookup all end the loop. */
  function Follow(o: Outcome<Option<string>>): (u: string)
    ensures u != "" <==> o.Value? && o.value.Some? && o.value.value != ""
    ensures u != "" ==> u == o.value.value
  {
    match o
    case Raised => ""
    case Value(None) => ""
    case Value(Some(u)) => u
  }

  /** One iteration of the loop body: the records appended and the URL it continues with. */
  function PageStep<D, R>(p: Pager<D, R>, url: string): (step: (seq<R>, string))
    ensures p.fetch(url).None? ==> step == ([], "")
    ensures p.fetch(url).Some? && p.extract(p.fetch(url).value).Raised? ==> step == ([], "")
    ensures p.fetch(url).Some? && p.extract(p.fetch(url).value).Value? ==>
      var d := p.fetch(url).value;
      step == (p.extract(d).value, Follow(p.next(d, url)))
  {
    match p.fetch(url)
    case None => ([], "")
    case Some(d) =>
      match p.extract(d)
      case Raised => ([], "")
      case Value(rs) => (rs, Follow(p.next(d, url)))
  }

  /** The loop body raised on this page (so the `except` branch runs). */
  predicate PageFails<D, R>(p: Pager<D, R>, url: string) {
    p.fetch(url).None? || p.extract(p.fetch(url).value).Raised? ||
    p.next(p.fetch(url).value, url).Raised?
  }

  /** The records gathered from one start URL, in page order. */
  function Walk<D, R>(p: Pager<D, R>, url: string, fuel: nat): seq<R>
    decreases fuel
  {
    if url == "" || fuel == 0 then []
    else PageStep(p, url).0 + Walk(p, PageStep(p, url).1, fuel - 1)
  }

  /** The URLs fetched from one start URL, in order. */
  function Visited<D, R>(p: Pager<D, R>, url: string, fuel: nat): (vs: seq<string>)
    ensures |vs| <= fuel
    ensures forall i :: 0 <= i < |vs| ==> vs[i] != ""
    ensures url != "" && fuel > 0 ==> |vs| > 0 && vs[0] == url
    decreases fuel
  {
    if url == "" || fuel == 0 then []
    else [url] + Visited(p, PageStep(p, url).1, fuel - 1)
  }

  /** The walk from `url` has reached a falsy URL within `fuel` pages. */
  predicate Ends<D, R>(p: Pager<D, R>, url: string, fuel: nat)
    decreases fuel
  {
    url == "" || (fuel > 0 && Ends(p, PageStep(p, url).1, fuel - 1))
  }

  /** The records of the listed pages, concatenated in order. */
  function PagesRecords<D, R>(p: Pager<D, R>, urls: seq<string>): seq<R>
    decreases |urls|
  {
    if |urls| == 0 then [] else PageStep(p, urls[0]).0 + PagesRecords(p, urls[1..])
  }

  /** The aggregate over the start URLs, in order. */
  function ScrapeAll<D, R>(p: Pager<D, R>, urls: seq<string>, fuel: nat): seq<R>
    decreases |urls|
  {
    if |urls| == 0 then [] else ScrapeAll(p, urls[..|urls| - 1], fuel) + Walk(p, urls[|urls| - 1], fuel)
  }

  /** One turn of the loop: the page's records, then the walk from the URL it continues with. */
  lemma WalkStep<D, R>(p: Pager<D, R>, url: string, fuel: nat)
    requires url != "" && fuel > 0
    ensures Walk(p, url, fuel) == PageStep(p, url).0 + Walk(p, PageStep(p, url).1, fuel - 1)
    ensures Visited(p, url, fuel) == [url] + Visited(p, PageStep(p, url).1, fuel - 1)
  {
  }

  /**
   * The loop invariant of a walk in progress, with `gathered` appended and
   * `seen` fetched so far, after one more page whose step was `(rs, next)`.
   */
  lemma WalkAdvance<D, R>(p: Pager<D, R>, start: string, fuel: nat, gathered: seq<R>, seen: seq<string>,
                          current: string, left: nat, rs: seq<R>, next: string, nextLeft: nat)
    requires current != "" && left == nextLeft + 1
    requires gathered + Walk(p, current, left) == Walk(p, start, fuel)
    requires seen + Visited(p, current, left) == Visited(p, start, fuel)
    requires PageStep(p, current) == (rs, next)
    ensures (gathered + rs) + Walk(p, next, nextLeft) == Walk(p, start, fuel)
    ensures (seen + [current]) + Visited(p, next, nextLeft) == Visited(p, start, fuel)
  {
    WalkStep(p, current, left);
    ShiftStep(gathered, rs, Walk(p, next, nextLeft), Walk(p, current, left), Walk(p, start, fuel));
    ShiftStep(seen, [current], Visited(p, next, nextLeft), Visited(p, current, left), Visited(p, start, fuel));
  }

  /** The walk ends with the records of a page that continues with a falsy URL. */
  lemma WalkFinish<D, R>(p: Pager<D, R>, start: string, fuel: nat, gathered: seq<R>, seen: seq<string>,
                         current: string, left: nat, rs: seq<R>, nextLeft: nat)
    requires current != "" && left == nextLeft + 1
    requires gathered + Walk(p, current, left) == Walk(p, start, fuel)
    requires seen + Visited(p, current, left) == Visited(p, start, fuel)
    requires PageStep(p, current) == (rs, "")
    ensures gathered + rs == Walk(p, start, fuel)
    ensures seen + [current] == Visited(p, start, fuel)
  {
    WalkAdvance(p, start, fuel, gathered, seen, current, left, rs, "", nextLeft);
    WalkEmpty(p, "", nextLeft);
  }

  /** The walk from a falsy URL, or without fuel, fetches nothing. */
  lemma WalkEmpty<D, R>(p: Pager<D, R>, url: string, fuel: nat)
    requires url == "" || fuel == 0
    ensures Walk(p, url, fuel) == [] && Visited(p, url, fuel) == []
  {
  }

  /** The walk is exactly the records of the visited pages, in visiting order. */
  lemma {:induction false} WalkIsVisitedPages<D, R>(p: Pager<D, R>, url: string, fuel: nat)
    ensures Walk(p, url, fuel) == PagesRecords(p, Visited(p, url, fuel))
    decreases fuel
  {
    if url != "" && fuel > 0 {
      var vs := Visited(p, url, fuel);
      WalkIsVisitedPages(p, PageStep(p, url).1, fuel - 1);
      assert vs[1..] == Visited(p, PageStep(p, url).1, fuel - 1);
    }
  }

  /** A page error ends the path: nothing after the failing page is fetched or gathered. */
  lemma PageErrorEndsPath<D, R>(p: Pager<D, R>, url: string, fuel: nat)
    requires url != "" && fuel > 0
    requires p.fetch(url).None? || p.extract(p.fetch(url).value).Raised?
    ensures Walk(p, url, fuel) == []
    ensures Visited(p, url, fuel) == [url]
  {
  }

  /** Records gathered on earlier pages are kept whatever later pages do. */
  lemma {:induction false} WalkPrefix<D, R>(p: Pager<D, R>, url: string, k: nat, fuel: nat)
    requires k <= fuel
    ensures Walk(p, url, k) <= Walk(p, url, fuel)
    ensures Visited(p, url, k) <= Visited(p, url, fuel)
    decreases k
  {
    if url != "" && k > 0 {
      var (rs, nxt) := PageStep(p, url);
      WalkPrefix(p, nxt, k - 1, fuel - 1);
      var a := Walk(p, nxt, k - 1);
      var b := Walk(p, nxt, fuel - 1);
      assert b[..|a|] == a;
      assert (rs + b)[..|rs + a|] == rs + a;
    }
  }

  /** Once the walk has ended, more fuel changes nothing. */
  lemma {:induction false} FuelSuffices<D, R>(p: Pager<D, R>, url: string, fuel: nat, more: nat)
    requires Ends(p, url, fuel) && fuel <= more
    ensures Walk(p, url, fuel) == Walk(p, url, more)
    ensures Visited(p, url, fuel) == Visited(p, url, more)
    decreases fuel
  {
    if url != "" {
      FuelSuffices(p, PageStep(p, url).1, fuel - 1, more - 1);
    }
  }

  /** A walk that ends within its fuel stops exactly when the next URL is falsy. */
  lemma {:induction false} EndedWalkStopsAtFalsy<D, R>(p: Pager<D, R>, url: string, fuel: nat)
    requires Ends(p, url, fuel)
    ensures forall i :: 0 <= i < |Visited(p, url, fuel)| - 1 ==>
      PageStep(p, Visited(p, url, fuel)[i]).1 == Visited(p, url, fuel)[i + 1]
    ensures |Visited(p, url, fuel)| > 0 ==> PageStep(p, Visited(p, url, fuel)[|Visited(p, url, fuel)| - 1]).1 == ""
    decreases fuel
  {
    if url != "" {
      var nxt := PageStep(p, url).1;
      EndedWalkStopsAtFalsy(p, nxt, fuel - 1);
      var vs := Visited(p, url, fuel);
      var rest := Visited(p, nxt, fuel - 1);
      assert vs == [url] + rest;
      if |rest| == 0 {
        assert nxt == "";
      } else {
        assert rest[0] == nxt;
      }
    }
  }

  /** One more start URL appends its walk and its visits. */
  lemma ScrapeAllSnoc<D, R>(p: Pager<D, R>, urls: seq<string>, u: string, fuel: nat)
    ensures ScrapeAll(p, urls + [u], fuel) == ScrapeAll(p, urls, fuel) + Walk(p, u, fuel)
    ensures Visits(p, urls + [u], fuel) == Visits(p, urls, fuel) + Visited(p, u, fuel)
  {
    assert (urls + [u])[..|urls|] == urls;
  }

  /** The loop over start URLs, one more start URL done: both aggregates grow by its walk. */
  lemma ScrapeAllAdvance<D, R>(p: Pager<D, R>, urls: seq<string>, i: nat, fuel: nat,
                               data: seq<R>, pathData: seq<R>, base: seq<string>, seen: seq<string>)
    requires i < |urls|
    requires data == ScrapeAll(p, urls[..i], fuel) && pathData == Walk(p, urls[i], fuel)
    requires seen == base + Visits(p, urls[..i], fuel) + Visited(p, urls[i], fuel)
    ensures data + pathData == ScrapeAll(p, urls[..i + 1], fuel)
    ensures seen == base + Visits(p, urls[..i + 1], fuel)
  {
    assert urls[..i + 1] == urls[..i] + [urls[i]];
    ScrapeAllSnoc(p, urls[..i], urls[i], fuel);
    var vs := Visits(p, urls[..i], fuel);
    var v := Visited(p, urls[i], fuel);
    ShiftStep(base, vs, v, vs + v, base + (vs + v));
  }

  /** The aggregate of two runs of start URLs is the concatenation of their aggregates. */
  lemma {:induction false} ScrapeAllAppend<D, R>(p: Pager<D, R>, us1: seq<string>, us2: seq<string>, fuel: nat)
    ensures ScrapeAll(p, us1 + us2, fuel) == ScrapeAll(p, us1, fuel) + ScrapeAll(p, us2, fuel)
    decreases |us2|
  {
    if |us2| == 0 {
      assert us1 + us2 == us1;
    } else {
      var us := us1 + us2;
      assert us[..|us| - 1] == us1 + us2[..|us2| - 1];
      assert us[|us| - 1] == us2[|us2| - 1];
      ScrapeAllAppend(p, us1, us2[..|us2| - 1], fuel);
    }
  }

  /** The aggregate over one start URL is its walk. */
  lemma ScrapeOne<D, R>(p: Pager<D, R>, url: string, fuel: nat)
    ensures ScrapeAll(p, [url], fuel) == Walk(p, url, fuel)
  {
    var single := [url];
    assert single[..0] == [];
  }

  /** A start URL whose first page fails contributes nothing, and the later ones are still scraped. */
  lemma FailedPathIsolated<D, R>(p: Pager<D, R>, before: seq<string>, url: string, after: seq<string>, fuel: nat)
    requires url != "" && fuel > 0
    requires p.fetch(url).None? || p.extract(p.fetch(url).value).Raised?
    ensures ScrapeAll(p, before + [url] + after, fuel) == ScrapeAll(p, before, fuel) + ScrapeAll(p, after, fuel)
  {
    PageErrorEndsPath(p, url, fuel);
    ScrapeOne(p, url, fuel);
    ScrapeAllAppend(p, before + [url], after, fuel);
    ScrapeAllAppend(p, before, [url], fuel);
    assert ScrapeAll(p, before + [url], fuel) == ScrapeAll(p, before, fuel);
  }

  /** `scrape_single_page` of the async backend: the records of one fetch, `[]` on any failure. */
  function SinglePage<D, R>(p: Pager<D, R>, url: string): (rs: seq<R>)
    ensures p.fetch(url).None? ==> rs == []
    ensures p.fetch(url).Some? ==>
      rs == (match p.extract(p.fetch(url).value) case Raised => [] case Value(v) => v)
  {
    PageStep(p, url).0
  }

  /** One fetch per start URL, concatenated in start-URL order. */
  function SinglePages<D, R>(p: Pager<D, R>, urls: seq<string>): seq<R>
    decreases |urls|
  {
    if |urls| == 0 then [] else SinglePages(p, urls[..|urls| - 1]) + SinglePage(p, urls[|urls| - 1])
  }

  /** The async backend is the walk cut at one page: it never follows pagination. */
  lemma {:induction false} SinglePagesAreOnePageWalks<D, R>(p: Pager<D, R>, urls: seq<string>)
    requires forall i :: 0 <= i < |urls| ==> urls[i] != ""
    ensures SinglePages(p, urls) == ScrapeAll(p, urls, 1)
    decreases |urls|
  {
    if |urls| > 0 {
      SinglePagesAreOnePageWalks(p, urls[..|urls| - 1]);
      var u := urls[|urls| - 1];
      assert Walk(p, PageStep(p, u).1, 0) == [];
    }
  }

  /** The URLs fetched over all start URLs, in order. */
  function Visits<D, R>(p: Pager<D, R>, urls: seq<string>, fuel: nat): seq<string>
    decreases |urls|
  {
    if |urls| == 0 then [] else Visits(p, urls[..|urls| - 1], fuel) + Visited(p, urls[|urls| - 1], fuel)
  }
}
