/**
 * The Selenium backend: Chrome arguments, local or remote driver start-up,
 * extraction through the live DOM with a per-field error catch, a next
 * link read from a clickable element, and the paginated `scrape` loop that
 * screenshots a failing page and always quits a started browser.
 */
module JsScraper {
  import opened Common
  import opened Dicts
  import opened Json
  import opened Events
  import opened Extraction
  import opened FetchPolicy
  import opened Pagination

  /**
   * The browser as oracles: the element queries, loading a URL (`None`: the
   * load raised), the presence wait for the item selector (`Value(false)`:
   * it timed out, `Raised`: any other error), the clickable wait for the
   * next link followed by its `href` (`Value(None)`: it timed out or there
   * is no `href`), and whether a driver starts with the given arguments.
   */
  datatype Browser<!E> = Browser(
    dom: Dom<E>,
    navigate: string -> Option<E>,
    present: (E, string) -> Outcome<bool>,
    clickableHref: (E, string) -> Outcome<Option<string>>,
    starts: (Driver, seq<string>) -> bool)

  // ---------------------------------------------------------------------
  // Chrome arguments.

  const FixedArgs: seq<string> := ["--no-sandbox", "--disable-dev-shm-usage", "--disable-gpu", "--window-size=1920,1080"]

  /** `_get_chrome_options` for a headless setting and a chosen User-Agent (`None`: no agents configured). */
  function ChromeArgs(headless: bool, ua: Option<string>): seq<string> {
    (if headless then ["--headless"] else []) + FixedArgs
    + (if ua.Some? then ["user-agent=" + ua.value] else [])
  }

  predicate IsUserAgentArg(a: string) {
    |a| >= 11 && a[..11] == "user-agent="
  }

  /**
   * `--headless` is present exactly when headless is on and comes first;
   * the four fixed arguments follow in order; a `user-agent=` argument is
   * present exactly when an agent was chosen, and it is the last one.
   */
  lemma ChromeArgsMeaning(headless: bool, ua: Option<string>)
    ensures var args := ChromeArgs(headless, ua);
      var h := if headless then 1 else 0;
      && |args| == h + |FixedArgs| + (if ua.Some? then 1 else 0)
      && ("--headless" in args <==> headless)
      && (headless ==> args[0] == "--headless")
      && args[h..h + |FixedArgs|] == FixedArgs
      && ((exists a :: a in args && IsUserAgentArg(a)) <==> ua.Some?)
      && (ua.Some? ==> args[|args| - 1] == "user-agent=" + ua.value)
  {
    var args := ChromeArgs(headless, ua);
    var h := if headless then 1 else 0;
    var prefix := (if headless then ["--headless"] else []) + FixedArgs;
    assert args[h..h + |FixedArgs|] == FixedArgs by {
      assert args[..|prefix|] == prefix;
    }
    assert !IsUserAgentArg("--headless") by {
      assert "--headless"[0] == '-';
    }
    forall a | a in FixedArgs ensures !IsUserAgentArg(a) && a != "--headless" {
      assert a[0] == '-';
      assert a[2] != 'h';
    }
    if ua.Some? {
      var u := "user-agent=" + ua.value;
      assert u[0] == 'u';
      assert u[..11] == "user-agent=";
      assert args == prefix + [u];
      assert u in args;
      assert "--headless" != u;
    } else {
      assert args == prefix;
    }
  }

  /** The argument list with an agent picked from `agents`: where `--headless` and the agent argument are. */
  lemma ChosenArgs(headless: bool, ua: Option<string>, agents: seq<string>)
    requires PicksFrom([ua], agents)
    ensures "--headless" in ChromeArgs(headless, ua) <==> headless
    ensures |agents| == 0 ==> ua == None
    ensures |agents| > 0 ==> var args := ChromeArgs(headless, ua);
      IsUserAgentArg(args[|args| - 1]) && args[|args| - 1][11..] in agents
  {
    assert ua in [ua];
    ChromeArgsMeaning(headless, ua);
    if ua.Some? {
      var args := ChromeArgs(headless, ua);
      assert args[|args| - 1][11..] == ua.value;
    }
  }

  // ---------------------------------------------------------------------
  // Extraction through the browser.

  /** `get_attribute` for a dict selector: the raw value, `null` when the attribute is absent. */
  function JsAttributedValue<E>(dom: Dom<E>, es: seq<E>, attr: string): Json {
    if |es| == 0 then JStr("")
    else if attr == "text" then JStr(dom.text(es[0]))
    else match dom.attr(es[0], attr)
      case None => JNull
      case Some(v) => JStr(v)
  }

  /** A field of the browser backend: an error in its query is caught and stored as `""`. */
  function JsFieldOf<E>(dom: Dom<E>, root: E, sel: FieldSelector): (ev: FieldEval)
    ensures !ev.Failed?
    ensures ev.Skipped? <==> sel.Unsupported?
  {
    match sel
    case Unsupported => Skipped
    case Simple(css) =>
      (match dom.select(root, css)
       case Raised => Produced(JStr(""))
       case Value(es) => Produced(SimpleValue(dom, es)))
    case Attributed(s, a) =>
      (match dom.select(root, s.GetOr(""))
       case Raised => Produced(JStr(""))
       case Value(es) => Produced(JsAttributedValue(dom, es, a.GetOr("text"))))
  }

  /** The record of one root: every string or dict field gets a value. */
  function JsRecordOf<E>(dom: Dom<E>, root: E, fields: Dict<string, FieldSelector>): Record
    decreases |fields|
  {
    if |fields| == 0 then []
    else
      var r := JsRecordOf(dom, root, fields[..|fields| - 1]);
      var (name, sel) := fields[|fields| - 1];
      match JsFieldOf(dom, root, sel)
      case Produced(v) => Put(r, name, v)
      case _ => r
  }

  function JsRecords<E>(dom: Dom<E>, roots: seq<E>, fields: Dict<string, FieldSelector>): seq<Record>
    decreases |roots|
  {
    if |roots| == 0 then []
    else JsRecords(dom, roots[..|roots| - 1], fields) + [JsRecordOf(dom, roots[|roots| - 1], fields)]
  }

  /**
   * `extract_data` of the browser backend: a timed-out presence wait gives
   * no records; any other error of the wait or of the item query raises.
   */
  function JsExtract<E>(b: Browser<E>, doc: E, schema: Schema): Outcome<seq<Record>> {
    match b.present(doc, ItemSelector(schema))
    case Raised => Raised
    case Value(false) => Value([])
    case Value(true) =>
      match b.dom.select(doc, ItemSelector(schema))
      case Raised => Raised
      case Value(roots) => Value(JsRecords(b.dom, roots, schema.fields))
  }

  /** The branches of the field loop, inside its `try`. */
  method JsEvalField<E>(dom: Dom<E>, element: E, selector: FieldSelector) returns (ev: FieldEval)
    ensures ev == JsFieldOf(dom, element, selector)
  {
    match selector {
      case Simple(css) =>
        var elements := dom.select(element, css);
        if elements.Raised? {
          return Produced(JStr(""));
        }
        var es := elements.value;
        if |es| > 0 {
          if |es| > 1 {
            ev := Produced(StrList(Texts(dom, es)));
          } else {
            ev := Produced(JStr(dom.text(es[0])));
          }
        } else {
          ev := Produced(JStr(""));
        }
      case Attributed(cssSelector, attrName) =>
        var attr := attrName.GetOr("text");
        var elements := dom.select(element, cssSelector.GetOr(""));
        if elements.Raised? {
          return Produced(JStr(""));
        }
        var es := elements.value;
        if |es| > 0 {
          if attr == "text" {
            ev := Produced(JStr(dom.text(es[0])));
          } else {
            var value := dom.attr(es[0], attr);
            ev := Produced(if value.Some? then JStr(value.value) else JNull);
          }
        } else {
          ev := Produced(JStr(""));
        }
      case Unsupported =>
        ev := Skipped;
    }
  }

  /** The loops of `extract_data`: roots in order, fields in order. */
  method JsExtractData<E>(b: Browser<E>, doc: E, schema: Schema) returns (items: Outcome<seq<Record>>)
    ensures items == JsExtract(b, doc, schema)
  {
    var itemSelector := ItemSelector(schema);
    var waited := b.present(doc, itemSelector);
    if waited.Raised? {
      return Raised;
    }
    if !waited.value {
      return Value([]);
    }
    var found := b.dom.select(doc, itemSelector);
    if found.Raised? {
      return Raised;
    }
    var roots := found.value;
    var acc: seq<Record> := [];
    for i := 0 to |roots|
      invariant acc == JsRecords(b.dom, roots[..i], schema.fields)
    {
      var itemData: Record := [];
      var fields := schema.fields;
      for j := 0 to |fields|
        invariant itemData == JsRecordOf(b.dom, roots[i], fields[..j])
      {
        var (fieldName, selector) := fields[j];
        assert fields[..j + 1][..j] == fields[..j];
        var ev := JsEvalField(b.dom, roots[i], selector);
        if ev.Produced? {
          itemData := Put(itemData, fieldName, ev.value);
        }
      }
      assert fields[..|fields|] == fields;
      assert roots[..i + 1][..i] == roots[..i];
      acc := acc + [itemData];
    }
    assert roots[..|roots|] == roots;
    items := Value(acc);
  }

  /** A dict field with a non-"text" attribute that the first match does not carry. */
  predicate MissingAttribute<E>(dom: Dom<E>, root: E, sel: FieldSelector) {
    && sel.Attributed?
    && dom.select(root, sel.selector.GetOr("")).Value?
    && |dom.select(root, sel.selector.GetOr("")).value| > 0
    && sel.attr.GetOr("text") != "text"
    && dom.attr(dom.select(root, sel.selector.GetOr("")).value[0], sel.attr.GetOr("text")).None?
  }

  /**
   * A field comes out as in the HTTP backends exactly when its query does
   * not raise and it does not read an absent attribute.
   */
  lemma JsFieldAgrees<E>(dom: Dom<E>, root: E, sel: FieldSelector)
    ensures JsFieldOf(dom, root, sel) == FieldOf(dom, root, sel)
        <==> FieldOf(dom, root, sel) != Failed && !MissingAttribute(dom, root, sel)
  {
  }

  /** Where the HTTP backends drop the record, the browser backend stores `""` for the field. */
  lemma JsFieldCatches<E>(dom: Dom<E>, root: E, sel: FieldSelector)
    requires FieldOf(dom, root, sel) == Failed
    ensures JsFieldOf(dom, root, sel) == Produced(JStr(""))
  {
  }

  /** Each string or dict field yields exactly one key, in field order, whatever its query does. */
  lemma {:induction false} JsRecordKeys<E>(dom: Dom<E>, root: E, fields: Dict<string, FieldSelector>)
    requires DistinctKeys(fields)
    ensures Keys(JsRecordOf(dom, root, fields)) == Supported(fields)
    decreases |fields|
  {
    if |fields| > 0 {
      var init := fields[..|fields| - 1];
      var (name, sel) := fields[|fields| - 1];
      assert DistinctKeys(init);
      JsRecordKeys(dom, root, init);
      if !sel.Unsupported? {
        assert name !in Keys(init);
      }
    }
  }

  /** When every field agrees, the record is the one the HTTP backends build. */
  lemma {:induction false} JsRecordAgrees<E>(dom: Dom<E>, root: E, fields: Dict<string, FieldSelector>)
    requires forall k :: 0 <= k < |fields| ==> JsFieldOf(dom, root, fields[k].1) == FieldOf(dom, root, fields[k].1)
    ensures RecordOf(dom, root, fields) == Value(JsRecordOf(dom, root, fields))
    decreases |fields|
  {
    if |fields| > 0 {
      var init := fields[..|fields| - 1];
      assert forall k :: 0 <= k < |init| ==> init[k] == fields[k];
      JsRecordAgrees(dom, root, init);
      assert JsFieldOf(dom, root, fields[|fields| - 1].1) == FieldOf(dom, root, fields[|fields| - 1].1);
    }
  }

  /** One record per root, in document order, each the record of that root. */
  lemma {:induction false} JsRecordsShape<E>(dom: Dom<E>, roots: seq<E>, fields: Dict<string, FieldSelector>)
    ensures |JsRecords(dom, roots, fields)| == |roots|
    ensures forall i :: 0 <= i < |roots| ==> JsRecords(dom, roots, fields)[i] == JsRecordOf(dom, roots[i], fields)
    decreases |roots|
  {
    if |roots| > 0 {
      var init := roots[..|roots| - 1];
      JsRecordsShape(dom, init, fields);
      var rs := JsRecords(dom, roots, fields);
      var rs' := JsRecords(dom, init, fields);
      assert rs == rs' + [JsRecordOf(dom, roots[|roots| - 1], fields)];
      forall i | 0 <= i < |roots| ensures rs[i] == JsRecordOf(dom, roots[i], fields) {
        if i < |init| {
          assert rs[i] == rs'[i];
          assert init[i] == roots[i];
        }
      }
    }
  }

  /**
   * The browser extraction raises only when the wait or the item query
   * does; otherwise it gives one record per matched root.
   */
  lemma JsExtractShape<E>(b: Browser<E>, doc: E, schema: Schema)
    ensures JsExtract(b, doc, schema).Raised? <==>
      b.present(doc, ItemSelector(schema)).Raised? ||
      (b.present(doc, ItemSelector(schema)) == Value(true) && b.dom.select(doc, ItemSelector(schema)).Raised?)
    ensures b.present(doc, ItemSelector(schema)) == Value(false) ==> JsExtract(b, doc, schema) == Value([])
    ensures b.present(doc, ItemSelector(schema)) == Value(true) && JsExtract(b, doc, schema).Value? ==>
      var roots := b.dom.select(doc, ItemSelector(schema)).value;
      var rs := JsExtract(b, doc, schema).value;
      |rs| == |roots| && forall i :: 0 <= i < |roots| ==> rs[i] == JsRecordOf(b.dom, roots[i], schema.fields)
  {
    var found := b.dom.select(doc, ItemSelector(schema));
    if found.Value? {
      JsRecordsShape(b.dom, found.value, schema.fields);
    }
  }

  /**
   * On a page where the items are present, no field query raises and no
   * attribute is absent, both backends extract the same records.
   */
  lemma {:induction false} JsExtractAgrees<E>(b: Browser<E>, doc: E, schema: Schema)
    requires b.present(doc, ItemSelector(schema)) == Value(true)
    requires b.dom.select(doc, ItemSelector(schema)).Value?
    requires forall i, k :: 0 <= i < |b.dom.select(doc, ItemSelector(schema)).value| && 0 <= k < |schema.fields| ==>
      var root := b.dom.select(doc, ItemSelector(schema)).value[i];
      FieldOf(b.dom, root, schema.fields[k].1) != Failed && !MissingAttribute(b.dom, root, schema.fields[k].1)
    ensures JsExtract(b, doc, schema) == Extract(b.dom, doc, schema)
  {
    var roots := b.dom.select(doc, ItemSelector(schema)).value;
    JsRecordsAgree(b.dom, roots, schema.fields);
  }

  lemma {:induction false} JsRecordsAgree<E>(dom: Dom<E>, roots: seq<E>, fields: Dict<string, FieldSelector>)
    requires forall i, k :: 0 <= i < |roots| && 0 <= k < |fields| ==>
      FieldOf(dom, roots[i], fields[k].1) != Failed && !MissingAttribute(dom, roots[i], fields[k].1)
    ensures Records(dom, roots, fields) == Value(JsRecords(dom, roots, fields))
    decreases |roots|
  {
    if |roots| > 0 {
      var init := roots[..|roots| - 1];
      assert forall i :: 0 <= i < |init| ==> init[i] == roots[i];
      JsRecordsAgree(dom, init, fields);
      var last := roots[|roots| - 1];
      forall k | 0 <= k < |fields|
        ensures JsFieldOf(dom, last, fields[k].1) == FieldOf(dom, last, fields[k].1)
      {
        JsFieldAgrees(dom, last, fields[k].1);
      }
      JsRecordAgrees(dom, last, fields);
    }
  }

  /**
   * `get_next_page_url` of the browser backend: the raw `href` of the
   * clickable element of a truthy `next_selector`, not joined with the
   * current URL; nothing without a selector.
   */
  function JsNextPageUrl<E>(b: Browser<E>, nextSelector: Option<string>, doc: E): (r: Outcome<Option<string>>)
    ensures r.Raised? ==> nextSelector.Some? && nextSelector.value != ""
    ensures nextSelector.Some? && nextSelector.value != "" ==> r == b.clickableHref(doc, nextSelector.value)
    ensures nextSelector.None? || nextSelector.value == "" ==> r == Value(None)
  {
    if nextSelector.Some? && nextSelector.value != "" then b.clickableHref(doc, nextSelector.value)
    else Value(None)
  }

  // ---------------------------------------------------------------------
  // The browser events of a walk.

  /** One turn of the page loop: the delay, the load, and a screenshot after an error when enabled. */
  function PageEvents<D, R>(p: Pager<D, R>, url: string, shoot: bool): seq<Event> {
    [Sleep, Navigate(url)] + (if shoot && PageFails(p, url) then [Screenshot] else [])
  }

  /** The events of the page loop for one start URL. */
  function WalkEvents<D, R>(p: Pager<D, R>, url: string, fuel: nat, shoot: bool): seq<Event>
    decreases fuel
  {
    if url == "" || fuel == 0 then []
    else PageEvents(p, url, shoot) + WalkEvents(p, PageStep(p, url).1, fuel - 1, shoot)
  }

  /** The events of the loops over all start URLs. */
  function ScrapeEvents<D, R>(p: Pager<D, R>, urls: seq<string>, fuel: nat, shoot: bool): seq<Event>
    decreases |urls|
  {
    if |urls| == 0 then []
    else ScrapeEvents(p, urls[..|urls| - 1], fuel, shoot) + WalkEvents(p, urls[|urls| - 1], fuel, shoot)
  }

  /** Every load of a walk follows the delay, and the loads are the walk's pages in order. */
  lemma {:induction false} WalkEventsShape<D, R>(p: Pager<D, R>, url: string, fuel: nat, shoot: bool)
    ensures SleepBeforeRequests(WalkEvents(p, url, fuel, shoot))
    ensures Requests(WalkEvents(p, url, fuel, shoot)) == Visited(p, url, fuel)
    decreases fuel
  {
    if url != "" && fuel > 0 {
      var next := PageStep(p, url).1;
      var page := PageEvents(p, url, shoot);
      WalkEventsShape(p, next, fuel - 1, shoot);
      PageEventsShape(p, url, shoot);
      SleepBeforeRequestsAppend(page, WalkEvents(p, next, fuel - 1, shoot));
      RequestsAppend(page, WalkEvents(p, next, fuel - 1, shoot));
    }
  }

  /** One page's load follows the delay, and the page loads only its own URL. */
  lemma PageEventsShape<D, R>(p: Pager<D, R>, url: string, shoot: bool)
    ensures SleepBeforeRequests(PageEvents(p, url, shoot))
    ensures Requests(PageEvents(p, url, shoot)) == [url]
  {
    var page := PageEvents(p, url, shoot);
    assert page[0] == Sleep && page[1] == Navigate(url);
    assert SleepBeforeRequests(page) by {
      forall i | 0 <= i < |page| && IsRequest(page[i]) ensures i > 0 && page[i - 1] == Sleep {
        assert i == 1;
      }
    }
    if |page| == 3 {
      assert page == [Sleep, Navigate(url)] + [Screenshot];
      RequestsAppend([Sleep, Navigate(url)], [Screenshot]);
      assert [Screenshot][..0] == [];
    }
    assert [Sleep, Navigate(url)][..1] == [Sleep];
    assert [Sleep][..0] == [];
    assert Requests([Sleep, Navigate(url)]) == [url];
  }

  /** Over all start URLs: every load follows the delay, and the loads are the visits in order. */
  lemma {:induction false} ScrapeEventsShape<D, R>(p: Pager<D, R>, urls: seq<string>, fuel: nat, shoot: bool)
    ensures SleepBeforeRequests(ScrapeEvents(p, urls, fuel, shoot))
    ensures Requests(ScrapeEvents(p, urls, fuel, shoot)) == Visits(p, urls, fuel)
    decreases |urls|
  {
    if |urls| > 0 {
      var init := urls[..|urls| - 1];
      var u := urls[|urls| - 1];
      ScrapeEventsShape(p, init, fuel, shoot);
      WalkEventsShape(p, u, fuel, shoot);
      SleepBeforeRequestsAppend(ScrapeEvents(p, init, fuel, shoot), WalkEvents(p, u, fuel, shoot));
      RequestsAppend(ScrapeEvents(p, init, fuel, shoot), WalkEvents(p, u, fuel, shoot));
    }
  }

  /** With screenshots off, a walk takes none, whatever fails. */
  lemma {:induction false} NoScreenshotsWhenOff<D, R>(p: Pager<D, R>, url: string, fuel: nat)
    ensures Screenshot !in WalkEvents(p, url, fuel, false)
    decreases fuel
  {
    if url != "" && fuel > 0 {
      NoScreenshotsWhenOff(p, PageStep(p, url).1, fuel - 1);
      assert PageEvents(p, url, false) == [Sleep, Navigate(url)];
    }
  }

  /** A page that fails takes a screenshot when enabled and ends its start URL there. */
  lemma FailingPageEndsWalk<D, R>(p: Pager<D, R>, url: string, fuel: nat, shoot: bool)
    requires url != "" && fuel > 0 && PageFails(p, url)
    ensures WalkEvents(p, url, fuel, shoot)
      == [Sleep, Navigate(url)] + (if shoot then [Screenshot] else [])
    ensures Visited(p, url, fuel) == [url]
  {
    assert PageStep(p, url).1 == "";
    assert WalkEvents(p, "", fuel - 1, shoot) == [];
    assert Visited(p, "", fuel - 1) == [];
  }

  /** In the loop, one more page of `PageStep(p, current) == (rs, next)`. */
  lemma PathAdvance<D, R>(p: Pager<D, R>, start: string, fuel: nat, shoot: bool, target: seq<Event>,
                          gathered: seq<R>, done: seq<Event>, current: string, left: nat,
                          rs: seq<R>, next: string, nextLeft: nat)
    requires current != "" && left == nextLeft + 1
    requires gathered + Walk(p, current, left) == Walk(p, start, fuel)
    requires done + WalkEvents(p, current, left, shoot) == target
    requires PageStep(p, current) == (rs, next)
    ensures (gathered + rs) + Walk(p, next, nextLeft) == Walk(p, start, fuel)
    ensures (done + PageEvents(p, current, shoot)) + WalkEvents(p, next, nextLeft, shoot) == target
  {
    WalkStep(p, current, left);
    ShiftStep(gathered, rs, Walk(p, next, nextLeft), Walk(p, current, left), Walk(p, start, fuel));
    ShiftStep(done, PageEvents(p, current, shoot), WalkEvents(p, next, nextLeft, shoot),
              WalkEvents(p, current, left, shoot), target);
  }

  /** In the loop over the start URLs, one more start URL. */
  lemma PathsAdvance<D, R>(p: Pager<D, R>, urls: seq<string>, i: nat, fuel: nat, shoot: bool,
                           base: seq<Event>, gathered: seq<R>, done: seq<Event>)
    requires i < |urls|
    requires gathered == ScrapeAll(p, urls[..i], fuel)
    requires done == base + ScrapeEvents(p, urls[..i], fuel, shoot)
    ensures gathered + Walk(p, urls[i], fuel) == ScrapeAll(p, urls[..i + 1], fuel)
    ensures done + WalkEvents(p, urls[i], fuel, shoot) == base + ScrapeEvents(p, urls[..i + 1], fuel, shoot)
  {
    var j := i + 1;
    TakeSnoc(urls, i, j);
    ScrapeAllSnoc(p, urls[..i], urls[i], fuel);
    ScrapeEventsSnoc(p, urls[..i], urls[i], fuel, shoot);
    var es := ScrapeEvents(p, urls[..i], fuel, shoot);
    var ws := WalkEvents(p, urls[i], fuel, shoot);
    ShiftStep(base, es, ws, es + ws, base + (es + ws));
  }

  lemma ScrapeEventsSnoc<D, R>(p: Pager<D, R>, urls: seq<string>, u: string, fuel: nat, shoot: bool)
    ensures ScrapeEvents(p, urls + [u], fuel, shoot) == ScrapeEvents(p, urls, fuel, shoot) + WalkEvents(p, u, fuel, shoot)
  {
    assert (urls + [u])[..|urls|] == urls;
  }

  // ---------------------------------------------------------------------
  // The scraper.

  class JsScraper<E> {
    const browser: Browser<E>
    const urljoin: (string, string) -> string
    /** The `selenium` section of the configuration. */
    const selenium: Dict<string, Json>
    const userAgents: seq<string>
    const baseUrl: string
    const startPaths: seq<string>
    const schema: Schema
    const nextSelector: Option<string>
    /** The started browser (`None` until a start succeeds); it is not cleared on quit. */
    var driver: Option<Driver>
    var trace: seq<Event>

    /** No browser yet; start paths default to `["/"]`. */
    constructor(browser: Browser<E>, urljoin: (string, string) -> string, selenium: Dict<string, Json>,
                userAgents: seq<string>, baseUrl: string, startPaths: Option<seq<string>>,
                schema: Schema, nextSelector: Option<string>)
      ensures driver == None && trace == []
      ensures this.browser == browser && this.urljoin == urljoin && this.selenium == selenium
      ensures this.userAgents == userAgents && this.baseUrl == baseUrl && this.schema == schema
      ensures this.startPaths == startPaths.GetOr(["/"]) && this.nextSelector == nextSelector
    {
      this.browser := browser;
      this.urljoin := urljoin;
      this.selenium := selenium;
      this.userAgents := userAgents;
      this.baseUrl := baseUrl;
      this.startPaths := startPaths.GetOr(["/"]);
      this.schema := schema;
      this.nextSelector := nextSelector;
      driver := None;
      trace := [];
    }

    /** `remote_url`, absent as `null`. */
    function RemoteUrl(): Json {
      GetOr(selenium, "remote_url", JNull)
    }

    /** `headless`, on unless configured falsy. */
    predicate Headless() {
      Truthy(GetOr(selenium, "headless", JBool(true)))
    }

    /** `screenshot_on_error`, on unless configured falsy. */
    predicate ScreenshotsOn() {
      Truthy(GetOr(selenium, "screenshot_on_error", JBool(true)))
    }

    /** A truthy `remote_url` selects the remote driver at that executor, anything else a local Chrome. */
    function ChosenDriver(): (d: Driver)
      ensures d.RemoteDriver? <==> Truthy(RemoteUrl())
      ensures d.RemoteDriver? ==> d.executor == RemoteUrl()
    {
      if Truthy(RemoteUrl()) then RemoteDriver(RemoteUrl()) else LocalDriver
    }

    function Pages(): Pager<E, Record> {
      Pager(browser.navigate,
            d => JsExtract(browser, d, schema),
            (d, u) => JsNextPageUrl(browser, nextSelector, d))
    }

    function StartUrls(): seq<string> {
      JoinedUrls(urljoin, baseUrl, startPaths)
    }

    /** `_get_chrome_options`: the argument list, with an agent chosen from a non-empty list. */
    method ChromeOptions() returns (args: seq<string>, ghost ua: Option<string>)
      ensures PicksFrom([ua], userAgents)
      ensures args == ChromeArgs(Headless(), ua)
      ensures "--headless" in args <==> Headless()
      ensures |userAgents| == 0 ==> args == ChromeArgs(Headless(), None)
      ensures |userAgents| > 0 ==> IsUserAgentArg(args[|args| - 1]) && args[|args| - 1][11..] in userAgents
    {
      args := [];
      if Headless() {
        args := args + ["--headless"];
      }
      args := args + ["--no-sandbox"];
      args := args + ["--disable-dev-shm-usage"];
      args := args + ["--disable-gpu"];
      args := args + ["--window-size=1920,1080"];
      ua := None;
      if |userAgents| > 0 {
        assert userAgents[0] in userAgents;
        var userAgent :| userAgent in userAgents;
        args := args + ["user-agent=" + userAgent];
        ua := Some(userAgent);
      }
      ChosenArgs(Headless(), ua, userAgents);
    }

    /** `setup_driver`: start the chosen driver; a failure to start leaves the old one and raises. */
    method SetupDriver() returns (ok: bool, ghost ua: Option<string>)
      modifies this`driver, this`trace
      ensures PicksFrom([ua], userAgents)
      ensures ok <==> browser.starts(ChosenDriver(), ChromeArgs(Headless(), ua))
      ensures ok ==> driver == Some(ChosenDriver())
      ensures ok ==> trace == old(trace) + [StartDriver(ChosenDriver(), ChromeArgs(Headless(), ua))]
      ensures !ok ==> driver == old(driver) && trace == old(trace)
    {
      var remoteUrl := RemoteUrl();
      var d := if Truthy(remoteUrl) then RemoteDriver(remoteUrl) else LocalDriver;
      var args;
      args, ua := ChromeOptions();
      if !browser.starts(d, args) {
        return false, ua;
      }
      driver := Some(d);
      trace := trace + [StartDriver(d, args)];
      ok := true;
    }

    /** `take_screenshot`: attempted only with a browser and screenshots on; its failure is swallowed. */
    method TakeScreenshot()
      modifies this`trace
      ensures trace == old(trace) + (if driver.Some? && ScreenshotsOn() then [Screenshot] else [])
    {
      if driver.Some? && ScreenshotsOn() {
        trace := trace + [Screenshot];
      }
    }

    /** The `try` of the page loop: `(records, next URL)`, with `""` after the `except` branch. */
    method VisitPage(current: string) returns (rs: seq<Record>, next: string)
      requires driver.Some?
      modifies this`trace
      ensures (rs, next) == PageStep(Pages(), current)
      ensures trace == old(trace) + PageEvents(Pages(), current, ScreenshotsOn())
    {
      var p := Pages();
      trace := trace + [Sleep, Navigate(current)];
      var page := browser.navigate(current);
      if page.None? {
        TakeScreenshot();
        return [], "";
      }
      var data := JsExtractData(browser, page.value, schema);
      assert data == p.extract(page.value);
      if data.Raised? {
        TakeScreenshot();
        return [], "";
      }
      rs := data.value;
      var nextUrl := JsNextPageUrl(browser, nextSelector, page.value);
      assert nextUrl == p.next(page.value, current);
      if nextUrl.Raised? {
        TakeScreenshot();
        return rs, "";
      }
      next := Follow(nextUrl);
    }

    /** The `while current_url` loop for one start URL. */
    method ScrapePath(start: string, fuel: nat) returns (pathData: seq<Record>)
      requires driver.Some?
      modifies this`trace
      ensures pathData == Walk(Pages(), start, fuel)
      ensures trace == old(trace) + WalkEvents(Pages(), start, fuel, ScreenshotsOn())
    {
      var p := Pages();
      var shoot := ScreenshotsOn();
      ghost var target := old(trace) + WalkEvents(p, start, fuel, shoot);
      pathData := [];
      var current := start;
      var left := fuel;
      while current != "" && left > 0
        invariant pathData + Walk(p, current, left) == Walk(p, start, fuel)
        invariant trace + WalkEvents(p, current, left, shoot) == target
        decreases left
      {
        ghost var done := trace;
        var rs, next := VisitPage(current);
        var nextLeft := left - 1;
        PathAdvance(p, start, fuel, shoot, target, pathData, done, current, left, rs, next, nextLeft);
        pathData := pathData + rs;
        current, left := next, nextLeft;
      }
      WalkEmpty(p, current, left);
      assert WalkEvents(p, current, left, shoot) == [];
    }

    /** The `for path in start_paths` loop, with a started browser. */
    method ScrapePaths(fuel: nat) returns (allData: seq<Record>)
      requires driver.Some?
      modifies this`trace
      ensures allData == ScrapeAll(Pages(), StartUrls(), fuel)
      ensures trace == old(trace) + ScrapeEvents(Pages(), StartUrls(), fuel, ScreenshotsOn())
    {
      var p := Pages();
      var urls := StartUrls();
      var shoot := ScreenshotsOn();
      allData := [];
      for i := 0 to |urls|
        invariant allData == ScrapeAll(p, urls[..i], fuel)
        invariant trace == old(trace) + ScrapeEvents(p, urls[..i], fuel, shoot)
      {
        ghost var done := trace;
        var pathData := ScrapePath(urls[i], fuel);
        PathsAdvance(p, urls, i, fuel, shoot, old(trace), allData, done);
        allData := allData + pathData;
      }
      assert urls[..|urls|] == urls;
    }

    /**
     * `scrape`: start the browser (a failure propagates), walk every start
     * URL, and quit the browser whenever one exists.
     */
    method Scrape(fuel: nat) returns (r: Outcome<seq<Record>>, ghost ua: Option<string>)
      modifies this`driver, this`trace
      ensures PicksFrom([ua], userAgents)
      ensures r.Value? <==> browser.starts(ChosenDriver(), ChromeArgs(Headless(), ua))
      ensures r.Value? ==> r.value == ScrapeAll(Pages(), StartUrls(), fuel)
      ensures r.Value? ==> driver == Some(ChosenDriver())
      ensures r.Value? ==> trace == old(trace) + [StartDriver(ChosenDriver(), ChromeArgs(Headless(), ua))]
                                    + ScrapeEvents(Pages(), StartUrls(), fuel, ScreenshotsOn()) + [Quit]
      ensures r.Raised? ==> driver == old(driver)
      ensures r.Raised? ==> trace == old(trace) + (if old(driver).Some? then [Quit] else [])
    {
      var ok;
      ok, ua := SetupDriver();
      if !ok {
        if driver.Some? {
          trace := trace + [Quit];
        }
        return Raised, ua;
      }
      var allData := ScrapePaths(fuel);
      trace := trace + [Quit];
      r := Value(allData);
    }
  }

  /**
   * A successful scrape's trace: the browser starts first, every load
   * follows the delay, the loads are the visited pages in order, and the
   * browser quits last.
   */
  lemma SessionShape(d: Driver, args: seq<string>, events: seq<Event>)
    requires SleepBeforeRequests(events)
    ensures var t := [StartDriver(d, args)] + events + [Quit];
      SleepBeforeRequests(t) && Requests(t) == Requests(events)
      && t[0].StartDriver? && t[|t| - 1] == Quit
  {
    var head := [StartDriver(d, args)];
    SleepBeforeRequestsAppend(head, events);
    SleepBeforeRequestsAppend(head + events, [Quit]);
    RequestsAppend(head, events);
    RequestsAppend(head + events, [Quit]);
    assert head[..0] == [];
    assert [Quit][..0] == [];
  }
}
