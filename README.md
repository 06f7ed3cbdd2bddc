# HEX Web Scraper core, modelled in Dafny

This project models the core logic of the HEX Web Scraper, a configurable
scraper with three backends and a few shared services:

- **Backends.**
  - A static backend: `requests` plus BeautifulSoup.
  - An asynchronous backend: `aiohttp`, one fetch per start path.
  - A browser backend: Selenium.
- **Shared services.**
  - A JSON configuration loader.
  - Named transformation plugins.
  - Three storage sinks: CSV, JSON Lines and SQLite.
  - A resilience manager: a shutdown flag and a job-state table.

The network, the HTML parser, the browser, the file system and the JSON
codec are not modelled. Each one is an *oracle*: a datatype of total
functions that the operations take as a parameter.

- `Dom`: CSS selection, which may raise; the stripped text of an element; an element's attributes.
- `Transport`: the outcome of the k-th HTTP attempt for a URL.
- `Browser`: navigation, the item-presence wait, the clickable next link, and driver start-up.
- `Files`: whether a path exists (`os.path.exists`), and what `open` plus `json.load` of it gives. Opening a directory or reading invalid JSON both raise.
- `CsvFormat`: the CSV writer's record and cell formatting.
- `Item -> string`: `json.dumps`.

Python values are modelled as follows:

- A dict is an association list (`Dicts.Dict`), which keeps Python's insertion order.
- A JSON value is `Json.Json`, with Python's truthiness.
- A call that may raise returns an `Outcome` (`Value` or `Raised`).
- Externally visible effects are recorded in an event trace (`Events.Event`): header changes, rate-limit sleeps, requests and navigations, backoff waits, screenshots, and the driver's start and quit. The order of those effects can then be stated.

The modules follow the program:

| module | what it holds |
|---|---|
| `Extraction` | The selector-extraction engine that `extract_data` implements in all three backends. The browser backend's variant is in `JsScraper`. |
| `FetchPolicy` | The three-attempt retry of `fetch_page`: its outcome, the attempts it uses, and its events. |
| `Pagination` | The per-start-path walk of `scrape` (fetch, extract, append, follow next), and its aggregation over start paths. |
| `StaticScraper`, `AsyncScraper`, `JsScraper` | The backends. Each is a class whose methods are proved against the functions above. |
| `ConfigLoader` | `load_config` validation and defaults, `get`, and `get_nested`. |
| `Plugins` | The transformer registry, the built-in transformers, and `apply_transformations`. |
| `Storage` | `DataStorage`. The file is a sequence of records and the database table is held in memory. |
| `Resilience` | `ResilienceManager`, with the job-state table as a map. |
| `PyStr` | The parts of `str.split`, `" ".join`, `str.strip`, `str.title` and `str.replace` that the plugins use. |

Some behaviour is modelled as the code does it:

- **Missing attributes in the browser backend.** The browser backend's dict selector stores the raw `get_attribute` result. A missing attribute therefore gives `JNull`, where the HTTP backends give `""` (`JsScraper.MissingAttribute`, `JsScraper.JsFieldAgrees`).
- **SQLite rollback keeps the table.** In Python's `sqlite3` module, `CREATE TABLE` runs outside the implicit transaction. A failed SQLite save therefore rolls back its rows but keeps a table it has just created, empty (`Storage.SqliteRollback`).
- **Key-only upsert fails.** When the unique key is the only column, the upsert statement has an empty `SET` list. SQLite rejects it, so the save raises (`Storage.KeyOnlyColumnFails`).
- **A first item without keys fails.** The `CREATE TABLE` statement then ends in a comma. SQLite rejects it, so the save raises and the database is unchanged (`Storage.NoColumnsFails`).
- **List and dict values fail.** `sqlite3` cannot bind a list or a dict parameter. A string selector with several matches gives a list, so saving such a record to SQLite raises and the batch rolls back (`Storage.UnbindableValueFails`). A job state holding a list or dict is not saved either; `save_job_state` raises (`Resilience.ResilienceManager.SaveJobState`).
- **A configuration that is not an object.** The loader never checks that the JSON document is an object.
  - A number, boolean or null raises `TypeError` at the first membership test.
  - A list or string is searched for each required name, and the first name it lacks is reported (`[]` reports `name`).
  - A list or string holding all six names fails at `setdefault` (`ConfigLoader.LoadNonObject`, `ConfigLoader.EmptyListScenario`).
- **JSON Lines creates the file.** Appending to a JSON Lines file creates it even for empty data.
- **CSV rows before an error stay.** CSV rows written before an item with an unknown key stay in the file; `DictWriter` raises `ValueError` for that item.

## Model

| member | source | states |
|---|---|---|
| Json.StrList | scraper/static_scraper.py:81-84 | A list of n texts becomes a JSON list of exactly those n strings, in order. |
| Dicts.Get | scraper/config_loader.py:54-56 | A lookup finds a value iff the key is present, and the value found is paired with that key in the dict. |
| Dicts.GetOr | scraper/config_loader.py:54-56 | `dict.get(k, d)`: the stored value when the key is present, the default otherwise. |
| Dicts.Put | scraper/plugins.py:73-75 | Item assignment: the key now holds the new value and every other key keeps its value. The key order is kept, a new key goes last, and distinct keys stay distinct. |
| Dicts.SetDefault | scraper/config_loader.py:40-50 | `setdefault`: a present key leaves the dict unchanged; an absent key is appended with the default. |
| PyStr.Words | scraper/plugins.py:55 | `split()` yields only non-empty words without whitespace. |
| PyStr.WordsOfJoin | scraper/plugins.py:55 | Splitting words joined by single spaces gives back exactly those words. |
| PyStr.JoinSingleSpaced | scraper/plugins.py:55 | Words joined by `" "` have no leading, trailing or doubled whitespace, and the result is non-empty when there is a word. |
| PyStr.StripMeaning | scraper/plugins.py:46 | `strip()` returns a contiguous part of the input with no whitespace at either end. Everything removed before and after it is whitespace. |
| PyStr.TitleShape | scraper/plugins.py:55 | `title()` keeps the length and the positions of cased and whitespace characters. In the result a cased character is upper case exactly when it starts the string or follows an uncased one. |
| PyStr.TitleFromIdempotent | scraper/plugins.py:55 | Title-casing twice equals title-casing once. |
| PyStr.TitleOfJoin | scraper/plugins.py:55 | The title case of words joined by spaces is the join of each word's title case. |
| PyStr.Remove | scraper/plugins.py:32 | `replace(c, "")` leaves no `c`, and every character left comes from the input. |
| PyStr.KeepNone | scraper/plugins.py:32 | Filtering out a character set leaves only characters of the input outside the set. |
| PyStr.RemoveAfterKeep | scraper/plugins.py:32 | One more `replace(c, "")` after filtering a set equals filtering the set with `c` added. |
| PyStr.KeepEmptySet | scraper/plugins.py:32 | Filtering out no characters changes nothing. |
| PyStr.KeepUntouched | scraper/plugins.py:32 | A string containing none of the filtered characters is unchanged. |
| Extraction.Texts | scraper/static_scraper.py:82-84 | One stripped text per matched element, in match order. |
| Extraction.FieldOf | scraper/static_scraper.py:76-100 | A field is skipped iff its selector is neither a string nor a dict, and fails iff its selection query raises. A string selector gives `""` with no match, the text of a single match, and the list of all matched texts in match order when several match. A dict selector gives `""` with no match; otherwise it gives the first match's text when `attr` is `text` or absent, and otherwise that match's attribute, or `""` when the attribute is missing. |
| Extraction.EvalField | scraper/static_scraper.py:76-100 | The field branches yield the field's evaluation (`Extraction.FieldOf`). |
| Extraction.ExtractItem | scraper/static_scraper.py:73-102 | The field loop builds the item's record, and the record raises if a selection query raises. |
| Extraction.ExtractData | scraper/static_scraper.py:61-104 | The item loop computes the extraction function: a record per item element, or the exception of the first query that raises. |
| Extraction.RecordKeys | scraper/static_scraper.py:74-100 | Every string or dict selector gives exactly one key, in field order; any other selector gives none. |
| Extraction.RecordValue | scraper/static_scraper.py:76-100 | Each key holds the value its own selector produced. |
| Extraction.RecordFails | scraper/static_scraper.py:74-100 | A record raises iff one of its field queries raises. |
| Extraction.RecordsSucceed | scraper/static_scraper.py:72-102 | Extraction over the item elements succeeds iff every element's record succeeds. |
| Extraction.RecordsShape | scraper/static_scraper.py:72-104 | A successful extraction gives one record per item element, each that element's record, in document order. |
| Extraction.ExtractShape | scraper/static_scraper.py:61-104 | No item match gives `[]`. Otherwise there is exactly one record per match, in order. Extraction raises iff the item query does or one record does. |
| Extraction.SingleItemScenario | tests/test_static_scraper.py:64-84 | One `.item` whose `.title` text is "Test Title" yields exactly `[{"title": "Test Title"}]`. |
| FetchPolicy.AttemptsFrom | scraper/static_scraper.py:37-39 | A fetch makes at least one and at most three attempts. |
| FetchPolicy.RetrySucceeds | scraper/static_scraper.py:37-59 | If the first k < 3 attempts fail and the next one succeeds, the fetch returns that page after exactly k + 1 attempts. |
| FetchPolicy.RetryExhausted | scraper/static_scraper.py:37-59 | If all three attempts fail, the fetch fails after exactly three attempts. |
| FetchPolicy.OutcomeIsLastAttempt | scraper/static_scraper.py:37-59 | The fetch's outcome is that of its last attempt, and every earlier attempt failed. |
| FetchPolicy.AttemptShape | scraper/static_scraper.py:42-54 | Each attempt makes exactly one GET of the URL, and that GET comes right after the rate-limit sleep. |
| FetchPolicy.FetchEventsShape | scraper/static_scraper.py:37-59 | Over one whole fetch, every GET follows a sleep, and the URL is requested once per attempt. |
| Pagination.JoinedUrls | scraper/static_scraper.py:128-132 | One start URL per start path, in order: the path joined to the base URL (also `scraper/async_scraper.py:150` and `scraper/js_scraper.py:173-180`). |
| Pagination.Follow | scraper/static_scraper.py:134-143 | The walk continues exactly when the next-page lookup returned a non-empty URL, and then to that URL. |
| Pagination.PageStep | scraper/static_scraper.py:137-147 | A page whose fetch or extraction fails gives no records and ends the path. Otherwise it gives its records and the next URL. |
| Pagination.Visited | scraper/static_scraper.py:134-147 | The visited pages are non-empty URLs, at most the page bound, starting with the start URL. |
| Pagination.WalkStep | scraper/static_scraper.py:134-144 | A path is its first page's records followed by the path from the next URL. |
| Pagination.WalkEmpty | scraper/static_scraper.py:134 | An empty start URL visits nothing and gathers nothing. |
| Pagination.WalkIsVisitedPages | scraper/static_scraper.py:134-144 | A path's records are the concatenation of the records of its visited pages, in visit order. |
| Pagination.PageErrorEndsPath | scraper/static_scraper.py:137-147 | A start page whose fetch or extraction fails visits only itself and contributes nothing. |
| Pagination.WalkPrefix | scraper/static_scraper.py:134-147 | With a smaller page bound the records and visits are prefixes of those with a larger one. |
| Pagination.FuelSuffices | scraper/static_scraper.py:134-147 | Once a path has ended within the bound, a larger bound changes neither its records nor its visits. |
| Pagination.EndedWalkStopsAtFalsy | scraper/static_scraper.py:134-143 | In an ended path, each visited page's next URL is the following visited page, and the last page's is empty. |
| Pagination.ScrapeAllSnoc | scraper/static_scraper.py:131-147 | One more start path appends that path's records and visits after those of the earlier paths. |
| Pagination.ScrapeAllAppend | scraper/static_scraper.py:131-147 | Scraping two lists of start paths gives the concatenation of their results. |
| Pagination.ScrapeOne | scraper/static_scraper.py:131-147 | A single start path yields exactly its walk. |
| Pagination.FailedPathIsolated | scraper/static_scraper.py:137-147 | A start path whose first page fails contributes nothing, and the paths before and after it are unaffected. |
| Pagination.SinglePage | scraper/async_scraper.py:132-141 | A single-page scrape returns `[]` when the fetch or the extraction fails, and the page's records otherwise. |
| Pagination.SinglePagesAreOnePageWalks | scraper/async_scraper.py:143-161 | The asynchronous aggregate equals a one-page walk of every start URL, in start-path order. |
| StaticScraper.NextPageUrl | scraper/static_scraper.py:106-123 | A next URL exists iff a next selector is set and its first match has a non-empty `href`. It is that `href` joined to the current URL. The lookup raises iff the selection does. |
| StaticScraper.TemplateIgnored | scraper/static_scraper.py:117-123 | `next_url_template` never changes the result. |
| StaticScraper.StaticScraper.constructor | scraper/static_scraper.py:24-35 | The session header is `user_agents[0]` iff the list is non-empty. Start paths default to `["/"]`, and the trace starts empty. |
| StaticScraper.StaticScraper.Attempt | scraper/static_scraper.py:42-56 | An attempt picks the session User-Agent from `user_agents` when there are any, sleeps, then makes one GET carrying that agent. |
| StaticScraper.StaticScraper.FetchPage | scraper/static_scraper.py:37-59 | The fetch returns the retry outcome after the attempts it needs. Each attempt's agent comes from `user_agents` and each wait lies in [4, 10]. The trace grows by those attempts and backoffs, and the URL is recorded as fetched once. |
| StaticScraper.StaticScraper.ExtractData | scraper/static_scraper.py:61-104 | The backend's extraction is the shared extraction function. |
| StaticScraper.StaticScraper.ScrapePage | scraper/static_scraper.py:137-147 | One iteration of the page loop is one page step of the pagination walk. |
| StaticScraper.StaticScraper.ScrapePath | scraper/static_scraper.py:134-147 | The page loop for one start path gathers that path's walk and fetches exactly its visited pages. |
| StaticScraper.StaticScraper.Scrape | scraper/static_scraper.py:125-149 | The result is the concatenation of the walks of the start URLs, in order. The pages fetched are exactly their visited pages. |
| AsyncScraper.GlobalLimit | scraper/async_scraper.py:38 | The limit is `concurrency.global`, or 5 when absent. |
| AsyncScraper.NoNextWalk | scraper/async_scraper.py:143-161 | Without pagination, a walk of any length is the first page alone. |
| AsyncScraper.AsyncScraper.constructor | scraper/async_scraper.py:24-33 | There is no semaphore and no session; start paths default to `["/"]`. |
| AsyncScraper.AsyncScraper.Enter | scraper/async_scraper.py:35-53 | The semaphore and connector limits both equal the global limit. The session's default User-Agent is `user_agents[0]` iff the list is non-empty, and the session is open. |
| AsyncScraper.AsyncScraper.Exit | scraper/async_scraper.py:55-58 | An open session is closed. Without a session nothing happens. |
| AsyncScraper.AsyncScraper.Attempt | scraper/async_scraper.py:65-82 | An attempt sleeps, then makes one GET whose header agent, if any, is from `user_agents`. The session header is not changed. |
| AsyncScraper.AsyncScraper.FetchPage | scraper/async_scraper.py:60-85 | The fetch returns the retry outcome after the attempts it needs. Agents come from `user_agents` and waits lie in [4, 10]. The URL is fetched once. |
| AsyncScraper.AsyncScraper.ScrapeSinglePage | scraper/async_scraper.py:132-141 | The page's extracted records, or `[]` on any failure; it never raises. |
| AsyncScraper.AsyncScraper.Scrape | scraper/async_scraper.py:143-163 | One page per start URL, results concatenated in start-path order. Each URL is fetched exactly once, and the session is opened first and closed last. |
| JsScraper.ChromeArgsMeaning | scraper/js_scraper.py:66-82 | `--headless` comes first and only when headless is on. The four fixed arguments follow in order. A `user-agent=` argument appears iff an agent was chosen, and then it is last. |
| JsScraper.ChosenArgs | scraper/js_scraper.py:70-80 | With an agent picked from `user_agents`, `--headless` is present iff headless is on. The last argument is `user-agent=` naming one of the agents iff the list is non-empty. |
| JsScraper.JsFieldOf | scraper/js_scraper.py:104-133 | A browser field never fails, and it is skipped iff its selector is neither a string nor a dict. |
| JsScraper.JsEvalField | scraper/js_scraper.py:105-133 | The field branches, inside their `try`, compute the browser field function. |
| JsScraper.JsExtractData | scraper/js_scraper.py:84-137 | The browser backend's extraction method computes the browser extraction function. |
| JsScraper.JsFieldAgrees | scraper/js_scraper.py:105-133 | A browser field equals the HTTP backends' field iff its query does not raise and it does not read a missing attribute. |
| JsScraper.JsFieldCatches | scraper/js_scraper.py:131-133 | A field whose query raises is stored as `""`. |
| JsScraper.JsRecordKeys | scraper/js_scraper.py:102-135 | Every string or dict selector gives exactly one key, in field order. |
| JsScraper.JsRecordAgrees | scraper/js_scraper.py:102-135 | When every field agrees, the browser record is the HTTP backends' record. |
| JsScraper.JsRecordsAgree | scraper/js_scraper.py:102-135 | When no field query raises and no missing attribute is read, the browser records equal the HTTP backends' records. |
| JsScraper.JsRecordsShape | scraper/js_scraper.py:102-137 | One record per item element, in document order. |
| JsScraper.JsExtractShape | scraper/js_scraper.py:84-137 | Items that never appear within the wait give `[]`. Extraction raises iff the wait or the item query raises. Otherwise it gives one record per element. |
| JsScraper.JsExtractAgrees | scraper/js_scraper.py:84-137 | Once the items appear and no field query raises or reads a missing attribute, browser extraction equals the shared extraction. |
| JsScraper.JsNextPageUrl | scraper/js_scraper.py:139-154 | Without a next selector there is no next page. Otherwise the result is the clickable link's un-joined `href`. |
| JsScraper.PageEventsShape | scraper/js_scraper.py:186-204 | A page is one navigation, right after a sleep. |
| JsScraper.WalkEventsShape | scraper/js_scraper.py:182-204 | In a path every navigation follows a sleep, and exactly the visited pages are navigated to. |
| JsScraper.ScrapeEventsShape | scraper/js_scraper.py:179-204 | Over all start paths every navigation follows a sleep, and the navigations are the visited pages in order. |
| JsScraper.NoScreenshotsWhenOff | scraper/js_scraper.py:156-168 | With `screenshot_on_error` off no screenshot is ever taken. |
| JsScraper.FailingPageEndsWalk | scraper/js_scraper.py:201-204 | A failing page is navigated, takes a screenshot iff screenshots are on, and ends its path. |
| JsScraper.SessionShape | scraper/js_scraper.py:176-211 | A session starts the driver first and quits it last. It keeps every navigation right after a sleep and adds no request. |
| JsScraper.JsScraper.constructor | scraper/js_scraper.py:27-35 | There is no driver yet; start paths default to `["/"]`. |
| JsScraper.JsScraper.ChosenDriver | scraper/js_scraper.py:39-62 | The remote driver at `remote_url` iff that URL is truthy, a local Chrome otherwise. |
| JsScraper.JsScraper.ChromeOptions | scraper/js_scraper.py:66-82 | The arguments for the configured headless flag and an agent picked from `user_agents`: `--headless` is there iff headless is on, and a `user-agent=` argument iff `user_agents` is non-empty, last and naming one of them. |
| JsScraper.JsScraper.SetupDriver | scraper/js_scraper.py:37-64 | Setup succeeds iff the chosen driver starts with those arguments, and then records its start. A failure changes nothing and propagates. |
| JsScraper.JsScraper.TakeScreenshot | scraper/js_scraper.py:156-168 | A screenshot is taken iff a driver exists and screenshots are on. |
| JsScraper.JsScraper.VisitPage | scraper/js_scraper.py:185-204 | One page-loop iteration is one page step: a sleep, a navigation, and a screenshot iff the page fails with screenshots on. |
| JsScraper.JsScraper.ScrapePath | scraper/js_scraper.py:182-204 | The page loop gathers its path's walk with that path's events. |
| JsScraper.JsScraper.ScrapePaths | scraper/js_scraper.py:179-204 | The loop over start paths gathers the concatenated walks with their events. |
| JsScraper.JsScraper.Scrape | scraper/js_scraper.py:170-213 | It returns the concatenated walks iff the driver starts, and then the session ends with a quit. A setup failure propagates and quits only a driver already present. |
| ConfigLoader.FirstMissing | scraper/config_loader.py:26-37 | None iff the membership test holds for every required field. Otherwise it is the first required field, in order, for which it fails. The test is a key of an object, an element of a list, or a substring of a string. |
| ConfigLoader.FirstMissingAt | scraper/config_loader.py:35-37 | The field at the first absent position is the one reported. |
| ConfigLoader.WithDefaultsIsAppend | scraper/config_loader.py:39-50 | Defaulting appends the absent defaults after the existing entries. |
| ConfigLoader.WithDefaultsMeaning | scraper/config_loader.py:39-50 | After defaulting, all six optional keys are present. Each takes its default exactly when absent, present keys keep their values, and no other key appears. |
| ConfigLoader.SetDefaults | scraper/config_loader.py:39-50 | The six `setdefault` calls give the defaulted config. |
| ConfigLoader.Load | scraper/config_loader.py:17-52 | A missing file is reported as such. A successful load comes from a parsed object that holds every required field; the result extends that object and holds all six optional keys. |
| ConfigLoader.LoadConfig | scraper/config_loader.py:17-52 | The existence check, the parse, the required-field loop and the `setdefault` calls give the load result. The outcome is the defaulted config, or the first error in source order: missing file, unreadable file, a value `in` cannot test, a missing field, or `setdefault` on a list or string. |
| ConfigLoader.MissingFileFirst | scraper/config_loader.py:19-20 | A missing file is reported before any parsing. |
| ConfigLoader.LoadObject | scraper/config_loader.py:22-52 | A parsed object fails iff a required field is absent, and then names the first absent one. A complete object loads as the defaulted object. |
| ConfigLoader.LoadComplete | scraper/config_loader.py:17-52 | An object holding exactly the required fields loads successfully, with defaults added. |
| ConfigLoader.PathAppend | scraper/config_loader.py:58-66 | Following a key path in two parts equals following it in one. |
| ConfigLoader.PathStops | scraper/config_loader.py:61-65 | Meeting a non-object or a missing key stops the walk with `None`. |
| ConfigLoader.SampleConfigScenario | tests/test_config.py:35-50 | For the sample file: name, mode, `selectors.item` and `storage.type` are as written, `user_agents` is `[]`, and `rate_limit.delay_seconds` is 1.0. |
| ConfigLoader.SampleDefaults | tests/test_config.py:48-50 | Without `user_agents` and `rate_limit`, both take their defaults and other keys keep their values. |
| ConfigLoader.MissingModeScenario | tests/test_config.py:59-75 | A file lacking only `mode` fails, naming `mode`. |
| ConfigLoader.LoadNonObject | scraper/config_loader.py:22-50 | A parsed value that is not an object never loads. A number, boolean or null fails the first membership test. A list or string fails on a missing field iff it lacks one, and otherwise fails at `setdefault`. |
| ConfigLoader.EmptyListScenario | scraper/config_loader.py:35-37 | The file `[]` fails with the first required field, `name`. |
| ConfigLoader.ConfigLoader.constructor | scraper/config_loader.py:13-15 | The loader holds its path and the loaded config. |
| ConfigLoader.ConfigLoader.Get | scraper/config_loader.py:54-56 | The stored value when the key is present, the default otherwise. |
| ConfigLoader.ConfigLoader.GetNested | scraper/config_loader.py:58-66 | The value at the key path, or `None` where the path breaks. No keys give the whole config. |
| ConfigLoader.Open | scraper/config_loader.py:13-15 | Construction succeeds exactly when loading does, holding the loaded config. Otherwise it raises with the load error. |
| Plugins.CleanPriceMeaning | scraper/plugins.py:31-32 | The cleaned price is the input with every `$`, `€`, `£` and `,` removed and all other characters kept in order. |
| Plugins.PriceToFloat | scraper/plugins.py:25-38 | Falsy input gives 0.0, and a non-string truthy input raises. A non-empty string gives `float()` of the string with every `$`, `€`, `£` and `,` removed, or 0.0 when `float()` rejects it. |
| Plugins.DateParser | scraper/plugins.py:41-46 | The parser returns iff its input is a string. |
| Plugins.DateParserStrips | scraper/plugins.py:41-46 | The result is the input with exactly its surrounding whitespace removed. |
| Plugins.Normalize | scraper/plugins.py:55 | The empty text normalises to the empty text. |
| Plugins.NormalizeText | scraper/plugins.py:49-55 | Falsy input gives `""`, and a non-string truthy input raises. A non-empty string gives its words, each title-cased, joined by single spaces. |
| Plugins.NormalizeMeaning | scraper/plugins.py:49-55 | The result is the input's words, title-cased and single-spaced, with no leading, trailing or doubled whitespace. |
| Plugins.NormalizeIdempotent | scraper/plugins.py:49-55 | Normalising twice equals normalising once. |
| Plugins.Registry.constructor | scraper/plugins.py:12-49 | The registry holds exactly the three built-in transformers under their names. |
| Plugins.Registry.Register | scraper/plugins.py:15-22 | Registration stores the function under the name and returns it unchanged. |
| Plugins.LastRegistrationWins | scraper/plugins.py:15-22 | After several registrations, a name holds the function of its last registration. |
| Plugins.UnregisteredUnchanged | scraper/plugins.py:15-22 | Registrations under other names leave a name's entry as it was. |
| Plugins.TransformedKeys | scraper/plugins.py:64-81 | The transformed record has exactly the input's keys, in order. |
| Plugins.TransformedUntouched | scraper/plugins.py:70-75 | A field with no registered transformer configured keeps its value. |
| Plugins.TransformedField | scraper/plugins.py:70-79 | A present field with a registered transformer holds the transformer's result, or its old value if the transformer raised. |
| Plugins.TransformedAppend | scraper/plugins.py:70-79 | The transformations run one after another: later ones see earlier results, and a raising one stops nothing. |
| Plugins.PluginManager.constructor | scraper/plugins.py:61-62 | The manager uses the module registry. |
| Plugins.PluginManager.ApplyTransformations | scraper/plugins.py:64-81 | The loop over the configured transformations computes the transformed copy. |
| Storage.SettingsOf | scraper/storage.py:19-22 | The type defaults to `csv`, the path to `data/output.csv` and the unique key to `None`. Present settings are used as given. |
| Storage.SinkOf | scraper/storage.py:36-45 | The `csv`, `jsonl` and `sqlite` types select their sinks. Any other type is unsupported. |
| Storage.CsvCells | scraper/storage.py:60-68 | One cell per header column: the item's value, or `""` where the item lacks the column. |
| Storage.CsvRowsMeaning | scraper/storage.py:66-68 | The records written are those of the longest run of leading items that fit the header, in order. The batch succeeds iff all fit, and otherwise the next item does not fit. |
| Storage.CsvSave | scraper/storage.py:47-70 | Empty data changes nothing. Otherwise the file exists afterwards and keeps its old records in front, and a new file starts with the header of the first item's keys. |
| Storage.CsvSaveLayout | scraper/storage.py:47-70 | Empty data changes nothing. Otherwise the old records stay in front, a header from the first item's keys follows iff the file was new, then the records in order. |
| Storage.CsvSaveOutcome | scraper/storage.py:53-70 | A CSV save raises iff some item has a key outside the header. It has then written exactly the items before the first such item. |
| Storage.CsvFirstRowWritten | scraper/storage.py:53-68 | A save of non-empty data writes at least the first item. |
| Storage.JsonLinesMeaning | scraper/storage.py:74-76 | One `json.dumps` line per item, in order. |
| Storage.JsonlSaveMeaning | scraper/storage.py:72-78 | The file exists afterwards, keeps its old lines, and gains one line per item in order. |
| Storage.RowOf | scraper/storage.py:142 | The inserted row has exactly the header columns, with the item's value or `""` in each. |
| Storage.UpsertKey | scraper/storage.py:99 | An upsert key exists iff `unique_key` is a non-empty string among the columns. |
| Storage.InsertItem | scraper/storage.py:123-143 | A successful insert keeps the table's columns and UNIQUE column. Every inserted column is a table column and holds a bindable value (not a list or dict). A plain insert appends the item's row; only an upsert can leave the row count unchanged. |
| Storage.SqliteSave | scraper/storage.py:80-153 | Empty data changes nothing. A successful save leaves a table. A failed save leaves the database as it was, except for a table it newly created, which is empty. |
| Storage.OverwriteMeaning | scraper/storage.py:125-137 | `DO UPDATE SET` gives every non-key column the item's value and leaves the rest of the row unchanged. |
| Storage.InsertKeepsUnique | scraper/storage.py:123-143 | An insert never lets two rows share a non-NULL key value. |
| Storage.InsertsSucceed | scraper/storage.py:118-143 | Inserts into a table that has every column and the upsert key as its UNIQUE column, with a well-formed upsert and bindable values, all succeed and keep the table's schema. |
| Storage.SqliteSaveSucceeds | scraper/storage.py:80-146 | A non-empty save succeeds when all of the following hold: the first item has keys; an existing table has those columns and the same UNIQUE column; the upsert has a column to set; and every value binds. Without an upsert key, the table then holds the old rows followed by one row per item, in order. |
| Storage.SqliteSaveKeepsUnique | scraper/storage.py:80-153 | A whole save keeps key values distinct. |
| Storage.PlainInsertsAppend | scraper/storage.py:138-143 | Without an upsert key, each successful insert appends the item's row after the old rows. |
| Storage.SqlitePlainGrows | scraper/storage.py:107-143 | Without a usable unique key, a successful save grows the table by exactly one row per item. |
| Storage.UpsertOverwrites | scraper/storage.py:123-137 | An item meeting an existing key value overwrites that row's non-key columns from the item. No row is added and no other row changes. |
| Storage.UpsertAppendsNew | scraper/storage.py:123-143 | An upsert whose key value is NULL or not yet in the table appends the item's row after the existing rows, which are unchanged. |
| Storage.MissingColumnIsEmpty | scraper/storage.py:142 | A column the item lacks is stored as `""`. |
| Storage.KeyOnlyColumnFails | scraper/storage.py:125-137 | With the key as the only column the upsert is malformed, so the save raises. An existing table keeps its rows and no row is added. |
| Storage.NoColumnsFails | scraper/storage.py:94-115 | A first item without keys makes the save raise, with the database unchanged and no table created. |
| Storage.UnbindableValueFails | scraper/storage.py:142-151 | An item holding a list or dict in one of the columns makes the save raise. The rows are rolled back: the old rows, or none in a newly created table. |
| Storage.SqliteRollback | scraper/storage.py:145-153 | A failed save leaves the rows as they were. A table it newly created remains, empty; none is created when the first item has no keys. |
| Storage.DataStorage.constructor | scraper/storage.py:19-22 | The sink's settings are those of its configuration, applied to the existing file and table. |
| Storage.DataStorage.Save | scraper/storage.py:36-45 | `save` runs the configured sink and touches nothing else. An unsupported type raises and changes nothing. |
| Storage.DataStorage.SaveCsv | scraper/storage.py:47-70 | The file and the outcome are those of a CSV save. |
| Storage.DataStorage.SaveJsonl | scraper/storage.py:72-78 | The file becomes that of a JSON Lines save. |
| Storage.DataStorage.SaveSqlite | scraper/storage.py:80-153 | The table and the outcome are those of a SQLite save. Binding and statement errors raise and the batch rolls back; otherwise the save commits (`Storage.SqliteSaveSucceeds`). |
| Resilience.StateOf | scraper/resilience.py:69-75 | The saved row takes each of the four state fields, or its default: `""`, 0, 0, `"running"`. |
| Resilience.Loaded | scraper/resilience.py:81-106 | An unknown job loads as `{}`. A known job loads as exactly its four stored fields. |
| Resilience.MarkedCompleted | scraper/resilience.py:108-123 | Only the named job's status becomes `"completed"`, and no job is added. |
| Resilience.SaveThenLoad | scraper/resilience.py:58-106 | Loading a job just saved successfully returns the saved fields, defaulted. Other jobs load as before. |
| Resilience.SaveReplaces | scraper/resilience.py:63-67 | Saving twice under one name keeps only the second state. |
| Resilience.LoadAfterCompleted | scraper/resilience.py:108-123 | A completed job loads with status `"completed"` and its other fields unchanged. |
| Resilience.CompletedUnknownIsNoop | scraper/resilience.py:113-120 | Completing an unknown job changes nothing, and the job still loads as `{}`. |
| Resilience.CircuitBreaker | scraper/resilience.py:129-134 | The circuit is never open. |
| Resilience.ResilienceManager.constructor | scraper/resilience.py:19-24 | No shutdown is requested, and the table is the one in the database. |
| Resilience.ResilienceManager.SignalHandler | scraper/resilience.py:53-56 | A signal raises the shutdown flag. |
| Resilience.StorableState | scraper/resilience.py:63-76 | A state whose values are all scalars gives a row that can be saved. |
| Resilience.ResilienceManager.SaveJobState | scraper/resilience.py:58-79 | Saving raises iff a defaulted field is a list or dict, which `sqlite3` cannot bind; the table is then unchanged. Otherwise it replaces the job's whole row with the defaulted state. Other jobs and the flag are unchanged. |
| Resilience.ResilienceManager.LoadJobState | scraper/resilience.py:81-106 | Loading returns the loaded dict of the current table. |
| Resilience.ResilienceManager.MarkJobCompleted | scraper/resilience.py:108-123 | The table becomes the one with the named job completed. |
| Resilience.ShutdownMonotone | scraper/resilience.py:53-127 | Over any sequence of the manager's operations the flag ends raised iff it started raised or a signal occurred. It is never reset. |

## Left out

- Network, HTML parsing, the browser, files and SQLite I/O: they are oracles passed as parameters. Connections, timeouts and the file descriptors themselves are not modelled.
- Signal registration, `_init_db` and database connections: the manager starts from the table the database already holds.
- Concurrency: the asynchronous backend's `asyncio.gather` is modelled sequentially, in start-path order, and the semaphore only as its limit.
- Randomness: `random.choice` of a User-Agent is a nondeterministic pick from `user_agents`, returned as a ghost value.
- Jitter and wait durations:
  - Rate-limit jitter, the delay value and the `or 1.0` default are not modelled; each delay is a `Sleep` event.
  - The tenacity wait formula is not modelled either; only its bounds, 4 to 10 seconds, are kept.
- Floating point: `float()` in `price_to_float` is a parse oracle (`string -> Option<real>`). JSON integers and floats are one `JNum` kind.
- `urljoin`, CSS selector syntax and Selenium's `By`/`EC` machinery are oracles.
- `self.wait`: its timeout is folded into the browser's presence and clickable oracles.
- Selenium exceptions other than the ones the scrape loop catches are not modelled.
- `str.title`: modelled for ASCII letters only. `str.split`/`strip`: whitespace is the ASCII and Latin-1 set, not all of Unicode.
- BeautifulSoup multi-valued attributes such as `class` are treated as plain string attributes.
- CSV formatting: quoting and line endings belong to the `CsvFormat` oracle. The file is modelled as its records, not as bytes.
- `json.dumps`: an oracle.
- SQLite details not modelled:
  - type affinity;
  - validity of column names as SQL identifiers, and case-insensitive column names;
  - the `id` column and its autoincrement.
- `os.makedirs` of the storage and screenshot directories is not modelled, including the error it raises for a storage path without a directory part.
- Proxies: read by the backends but never used, so they are not modelled.
- Pagination has no cycle detection. Each walk has a page bound (`fuel`), and the model says nothing about walks longer than that bound; `Pagination.FuelSuffices` shows a larger bound changes nothing once a walk has ended.
- Config loading: the kinds of error are kept (`TypeError`, `AttributeError`, `ValueError`), not their messages. Transformer names that are not strings are not modelled.
- AsyncScraper.AsyncScraper.FetchPage: requires an open session; the source would fail on its `None` semaphore.
- StaticScraper.StaticScraper.Scrape: "every GET follows a sleep" is proved per fetch (`FetchPolicy.FetchEventsShape`), not as an invariant of the whole trace; the whole run is stated through its fetched pages.
- Resilience.ResilienceManager.CheckShutdownRequested: a plain read of the flag, with no contract of its own; its behaviour is stated by `Resilience.ShutdownMonotone`.
- `scraper/logger.py`, `scraper/metrics.py`, `scraper/notifier.py`, `scraper/scheduler.py` and `cli.py` are not part of this model.
