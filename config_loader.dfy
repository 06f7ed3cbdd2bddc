/**
 * Loading a JSON configuration file: the file must exist, parse, hold an
 * object and carry the six required fields (the first missing one is
 * reported); six optional sections are then added with `setdefault`,
 * which never merges into a section that is present.
 */
module ConfigLoader {
  import opened Common
  import opened Dicts
  import opened Json

  /**
   * The file system as oracles: `os.path.exists` of a path, and `open`
   * followed by `json.load` of it (`Raised`: the path is not a readable
   * file, such as a directory, or its contents are not JSON).
   */
  datatype Files = Files(pathExists: string -> bool, parse: string -> Outcome<Json>)

  datatype ConfigError =
    | FileNotFound(path: string)   // FileNotFoundError
    | Unreadable                   // an error from open() or json.JSONDecodeError
    | NotIterable                  // TypeError: `in` on a number, a boolean or null
    | NoSetDefault                 // AttributeError: setdefault on a list or a string
    | MissingField(field: string)  // ValueError naming the field

  const RequiredFields: seq<string> := ["name", "mode", "base_url", "start_paths", "selectors", "storage"]

  /** The optional sections and their defaults, in the order they are set. */
  const Defaults: Dict<string, Json> := [
    ("user_agents", JArr([])),
    ("rate_limit", JObj([("delay_seconds", JNum(1.0)), ("jitter", JBool(false))])),
    ("concurrency", JObj([("global", JNum(5.0)), ("per_domain", JNum(2.0))])),
    ("proxies", JObj([("enabled", JBool(false)), ("list", JArr([])), ("validate", JBool(true))])),
    ("telegram", JObj([("enabled", JBool(false)), ("bot_token", JStr("")), ("chat_id", JStr(""))])),
    ("selenium", JObj([("remote_url", JStr("")), ("headless", JBool(true)), ("screenshot_on_error", JBool(true))]))
  ]

  /** `t` occurs in `s` as a contiguous part: it starts `s` or occurs in its tail. */
  predicate Substring(t: string, s: string)
    decreases |s|
  {
    t <= s || (|s| > 0 && Substring(t, s[1..]))
  }

  /** The values `in` accepts; on a number, a boolean or null it raises `TypeError`. */
  predicate Iterable(config: Json) {
    config.JObj? || config.JArr? || config.JStr?
  }

  /** `f in config`: a key of an object, an element of a list, a substring of a string. */
  predicate Has(config: Json, f: string) {
    match config
    case JObj(m) => f in Keys(m)
    case JArr(xs) => JStr(f) in xs
    case JStr(s) => Substring(f, s)
    case _ => false
  }

  /** The first of `fields`, in order, that `config` lacks. */
  function FirstMissing(config: Json, fields: seq<string>): (r: Option<string>)
    ensures r.None? <==> forall f :: f in fields ==> Has(config, f)
    ensures r.Some? ==> exists k :: 0 <= k < |fields| && fields[k] == r.value && !Has(config, r.value)
                          && forall j :: 0 <= j < k ==> Has(config, fields[j])
    decreases |fields|
  {
    if |fields| == 0 then None
    else if !Has(config, fields[0]) then Some(fields[0])
    else
      var r := FirstMissing(config, fields[1..]);
      assert forall f :: f in fields ==> f == fields[0] || f in fields[1..];
      if r.Some? then
        var k :| 0 <= k < |fields[1..]| && fields[1..][k] == r.value && !Has(config, r.value)
                  && forall j :: 0 <= j < k ==> Has(config, fields[1..][j]);
        assert fields[k + 1] == r.value;
        assert forall j :: 1 <= j < k + 1 ==> fields[j] == fields[1..][j - 1];
        r
      else r
  }

  /** The field the check loop stops at is the one reported. */
  lemma {:induction false} FirstMissingAt(config: Json, fields: seq<string>, i: nat)
    requires i < |fields| && !Has(config, fields[i])
    requires forall j :: 0 <= j < i ==> Has(config, fields[j])
    ensures FirstMissing(config, fields) == Some(fields[i])
    decreases i
  {
    if i > 0 {
      FirstMissingAt(config, fields[1..], i - 1);
    }
  }

  /** `setdefault` of each entry of `ds`, in order. */
  function WithDefaults(m: Dict<string, Json>, ds: Dict<string, Json>): Dict<string, Json>
    decreases |ds|
  {
    if |ds| == 0 then m
    else SetDefault(WithDefaults(m, ds[..|ds| - 1]), ds[|ds| - 1].0, ds[|ds| - 1].1)
  }

  /** The entries of `ds` whose key `m` lacks, in order. */
  function Absent(m: Dict<string, Json>, ds: Dict<string, Json>): (a: Dict<string, Json>)
    ensures forall p :: p in a ==> p in ds && p.0 !in Keys(m)
    decreases |ds|
  {
    if |ds| == 0 then []
    else Absent(m, ds[..|ds| - 1]) + (if ds[|ds| - 1].0 in Keys(m) then [] else [ds[|ds| - 1]])
  }

  lemma {:induction false} AbsentHas(m: Dict<string, Json>, ds: Dict<string, Json>, i: nat)
    requires i < |ds| && ds[i].0 !in Keys(m)
    ensures ds[i] in Absent(m, ds)
    decreases |ds|
  {
    if i < |ds| - 1 {
      AbsentHas(m, ds[..|ds| - 1], i);
    }
  }

  /** With distinct default keys, defaulting appends exactly the absent entries after the existing ones. */
  lemma {:induction false} WithDefaultsIsAppend(m: Dict<string, Json>, ds: Dict<string, Json>)
    requires DistinctKeys(ds)
    ensures WithDefaults(m, ds) == m + Absent(m, ds)
    decreases |ds|
  {
    if |ds| > 0 {
      var init := ds[..|ds| - 1];
      var (k, v) := ds[|ds| - 1];
      assert DistinctKeys(init);
      WithDefaultsIsAppend(m, init);
      var a := Absent(m, init);
      KeysAppend(m, a);
      assert k !in Keys(a);
      if k !in Keys(m) {
        assert m + a + [(k, v)] == m + (a + [(k, v)]);
      }
    }
  }

  lemma DefaultsDistinct()
    ensures DistinctKeys(Defaults)
  {
  }

  /**
   * Defaulting never touches a present key, gives each absent optional
   * section its default, keeps the existing entries first and in order,
   * and adds no other key.
   */
  lemma WithDefaultsMeaning(m: Dict<string, Json>)
    ensures var c := WithDefaults(m, Defaults);
      && m <= c
      && (forall k :: k in Keys(m) ==> Get(c, k) == Get(m, k))
      && (forall i :: 0 <= i < |Defaults| ==> Defaults[i].0 in Keys(c))
      && (forall i :: 0 <= i < |Defaults| && Defaults[i].0 !in Keys(m) ==> Get(c, Defaults[i].0) == Some(Defaults[i].1))
      && (forall k :: k in Keys(c) ==> k in Keys(m) || k in Keys(Defaults))
  {
    DefaultsDistinct();
    DefaultingMeaning(m, Defaults);
  }

  lemma DefaultingMeaning(m: Dict<string, Json>, ds: Dict<string, Json>)
    requires DistinctKeys(ds)
    ensures var c := WithDefaults(m, ds);
      && m <= c
      && (forall k :: k in Keys(m) ==> Get(c, k) == Get(m, k))
      && (forall i :: 0 <= i < |ds| ==> ds[i].0 in Keys(c))
      && (forall i :: 0 <= i < |ds| && ds[i].0 !in Keys(m) ==> Get(c, ds[i].0) == Some(ds[i].1))
      && (forall k :: k in Keys(c) ==> k in Keys(m) || k in Keys(ds))
  {
    WithDefaultsIsAppend(m, ds);
    var a := Absent(m, ds);
    var c := m + a;
    KeysAppend(m, a);
    forall k | k in Keys(m) ensures Get(c, k) == Get(m, k) {
      GetAppend(m, a, k);
    }
    forall i | 0 <= i < |ds| && ds[i].0 !in Keys(m)
      ensures ds[i].0 in Keys(c) && Get(c, ds[i].0) == Some(ds[i].1)
    {
      AbsentPicks(m, ds, a, i);
    }
    AbsentKeys(m, ds, a);
  }

  lemma AbsentKeys(m: Dict<string, Json>, ds: Dict<string, Json>, a: Dict<string, Json>)
    requires a == Absent(m, ds)
    ensures forall k :: k in Keys(m + a) ==> k in Keys(m) || k in Keys(ds)
  {
    KeysAppend(m, a);
    forall k | k in Keys(m + a) ensures k in Keys(m) || k in Keys(ds) {
      if k !in Keys(m) {
        var j :| 0 <= j < |a| && a[j].0 == k;
        assert a[j] in ds;
      }
    }
  }

  lemma AbsentPicks(m: Dict<string, Json>, ds: Dict<string, Json>, a: Dict<string, Json>, i: nat)
    requires DistinctKeys(ds) && a == Absent(m, ds)
    requires i < |ds| && ds[i].0 !in Keys(m)
    ensures ds[i].0 in Keys(m + a) && Get(m + a, ds[i].0) == Some(ds[i].1)
  {
    var k := ds[i].0;
    AbsentHas(m, ds, i);
    KeysAppend(m, a);
    GetAppend(m, a, k);
    var r := Get(a, k);
    var j :| 0 <= j < |a| && a[j] == (k, r.value);
    assert a[j] in ds;
    var i' :| 0 <= i' < |ds| && ds[i'] == a[j];
  }

  /**
   * What `load_config` returns for the file at `path`: missing file first,
   * then the parse, then the required fields in order, then the defaults.
   * The parsed value is not checked to be an object: the membership test
   * raises on a value that is not iterable, and a list or string that
   * passes it fails at `setdefault`.
   */
  function Load(files: Files, path: string): (r: Result<Dict<string, Json>, ConfigError>)
    ensures !files.pathExists(path) ==> r == Err(FileNotFound(path))
    ensures r.Ok? ==> files.parse(path).Value? && files.parse(path).value.JObj?
    ensures r.Ok? ==> var m := files.parse(path).value.members;
      && (forall f :: f in RequiredFields ==> f in Keys(m))
      && m <= r.value
      && (forall i :: 0 <= i < |Defaults| ==> Defaults[i].0 in Keys(r.value))
  {
    if !files.pathExists(path) then Err(FileNotFound(path))
    else match files.parse(path)
      case Raised => Err(Unreadable)
      case Value(j) =>
        if !Iterable(j) then Err(NotIterable)
        else match FirstMissing(j, RequiredFields)
          case Some(f) => Err(MissingField(f))
          case None =>
            if j.JObj? then
              WithDefaultsMeaning(j.members);
              Ok(WithDefaults(j.members, Defaults))
            else Err(NoSetDefault)
  }

  /** The six `setdefault` calls of `load_config`, in order. */
  method SetDefaults(m: Dict<string, Json>) returns (config: Dict<string, Json>)
    ensures config == WithDefaults(m, Defaults)
  {
    config := m;
    assert Defaults[..0] == [];
    config := SetDefault(config, "user_agents", JArr([]));
    assert config == WithDefaults(m, Defaults[..1]) by {
      assert Defaults[..1][..0] == Defaults[..0];
    }
    config := SetDefault(config, "rate_limit", JObj([("delay_seconds", JNum(1.0)), ("jitter", JBool(false))]));
    assert config == WithDefaults(m, Defaults[..2]) by {
      assert Defaults[..2][..1] == Defaults[..1];
    }
    config := SetDefault(config, "concurrency", JObj([("global", JNum(5.0)), ("per_domain", JNum(2.0))]));
    assert config == WithDefaults(m, Defaults[..3]) by {
      assert Defaults[..3][..2] == Defaults[..2];
    }
    config := SetDefault(config, "proxies", JObj([("enabled", JBool(false)), ("list", JArr([])), ("validate", JBool(true))]));
    assert config == WithDefaults(m, Defaults[..4]) by {
      assert Defaults[..4][..3] == Defaults[..3];
    }
    config := SetDefault(config, "telegram", JObj([("enabled", JBool(false)), ("bot_token", JStr("")), ("chat_id", JStr(""))]));
    assert config == WithDefaults(m, Defaults[..5]) by {
      assert Defaults[..5][..4] == Defaults[..4];
    }
    config := SetDefault(config, "selenium", JObj([("remote_url", JStr("")), ("headless", JBool(true)), ("screenshot_on_error", JBool(true))]));
    assert config == WithDefaults(m, Defaults) by {
      assert Defaults[..5] == Defaults[..|Defaults| - 1];
    }
  }

  /** `load_config`: the existence check, the parse, the required-field loop and the six `setdefault` calls. */
  method LoadConfig(files: Files, path: string) returns (r: Result<Dict<string, Json>, ConfigError>)
    ensures r == Load(files, path)
  {
    if !files.pathExists(path) {
      return Err(FileNotFound(path));
    }
    var parsed := files.parse(path);
    if parsed.Raised? {
      return Err(Unreadable);
    }
    var config := parsed.value;
    for i := 0 to |RequiredFields|
      invariant i > 0 ==> Iterable(config)
      invariant forall j :: 0 <= j < i ==> Has(config, RequiredFields[j])
    {
      var field := RequiredFields[i];
      if !Iterable(config) {
        return Err(NotIterable);
      }
      if !Has(config, field) {
        FirstMissingAt(config, RequiredFields, i);
        return Err(MissingField(field));
      }
    }
    assert FirstMissing(config, RequiredFields) == None;
    if !config.JObj? {
      return Err(NoSetDefault);
    }
    var withDefaults := SetDefaults(config.members);
    r := Ok(withDefaults);
  }

  /** A missing file is reported whatever its contents would be. */
  lemma MissingFileFirst(files: Files, path: string)
    requires !files.pathExists(path)
    ensures Load(files, path) == Err(FileNotFound(path))
  {
  }

  /**
   * A parsed object is rejected exactly when it lacks a required field,
   * naming the first one it lacks; otherwise the defaults are applied.
   */
  lemma LoadObject(files: Files, path: string, m: Dict<string, Json>)
    requires files.pathExists(path) && files.parse(path) == Value(JObj(m))
    ensures Load(files, path).Err? <==> exists f :: f in RequiredFields && f !in Keys(m)
    ensures forall i ::
              (0 <= i < |RequiredFields| && RequiredFields[i] !in Keys(m)
               && (forall j :: 0 <= j < i ==> RequiredFields[j] in Keys(m)))
              ==> Load(files, path) == Err(MissingField(RequiredFields[i]))
    ensures Load(files, path).Ok? ==> Load(files, path).value == WithDefaults(m, Defaults)
  {
    forall i | 0 <= i < |RequiredFields| && RequiredFields[i] !in Keys(m)
               && (forall j :: 0 <= j < i ==> RequiredFields[j] in Keys(m))
      ensures Load(files, path) == Err(MissingField(RequiredFields[i]))
    {
      FirstMissingAt(JObj(m), RequiredFields, i);
    }
  }

  /**
   * A parsed value that is not an object never loads: a number, a boolean
   * or null fails the first membership test; a list or a string lacking a
   * required field reports the first one it lacks, and one holding them all
   * fails at `setdefault`.
   */
  lemma LoadNonObject(files: Files, path: string, j: Json)
    requires files.pathExists(path) && files.parse(path) == Value(j) && !j.JObj?
    ensures Load(files, path).Err?
    ensures Load(files, path) == Err(NotIterable) <==> !Iterable(j)
    ensures Load(files, path) == Err(NoSetDefault) <==> Iterable(j) && forall f :: f in RequiredFields ==> Has(j, f)
    ensures Load(files, path).Err? && Load(files, path).error.MissingField? <==>
              Iterable(j) && exists f :: f in RequiredFields && !Has(j, f)
  {
  }

  /** The file `[]`: no field is an element of the empty list, so the error names `name`. */
  lemma EmptyListScenario(files: Files, path: string)
    requires files.pathExists(path) && files.parse(path) == Value(JArr([]))
    ensures Load(files, path) == Err(MissingField("name"))
  {
    FirstMissingAt(JArr([]), RequiredFields, 0);
  }

  /** The value a chain of keys reaches, or `None` at the first non-object or missing key. */
  function Path(v: Json, keys: seq<string>): Option<Json>
    decreases |keys|
  {
    if |keys| == 0 then Some(v)
    else match Path(v, keys[..|keys| - 1])
      case None => None
      case Some(w) =>
        if w.JObj? && keys[|keys| - 1] in Keys(w.members) then Some(Get(w.members, keys[|keys| - 1]).value)
        else None
  }

  /** Following `a + b` is following `a`, then `b` from where `a` ends. */
  lemma {:induction false} PathAppend(v: Json, a: seq<string>, b: seq<string>)
    ensures Path(v, a + b) == match Path(v, a) case None => None case Some(w) => Path(w, b)
    decreases |b|
  {
    if |b| == 0 {
      assert a + b == a;
    } else {
      assert (a + b)[..|a + b| - 1] == a + b[..|b| - 1];
      PathAppend(v, a, b[..|b| - 1]);
    }
  }

  /** Once a step meets a non-object or a missing key, the walk is lost for every longer chain. */
  lemma PathStops(v: Json, keys: seq<string>, i: nat)
    requires i < |keys| && Path(v, keys[..i]).Some?
    requires var w := Path(v, keys[..i]).value; !w.JObj? || keys[i] !in Keys(w.members)
    ensures Path(v, keys) == None
  {
    TakeSnoc(keys, i, i + 1);
    assert keys[..i + 1][..i] == keys[..i];
    PathAppend(v, keys[..i + 1], keys[i + 1..]);
    assert keys[..i + 1] + keys[i + 1..] == keys;
    assert Path(v, keys[..i + 1]) == None;
  }

  /** The unit tests' files: a complete one, and one without `mode`. */
  function SampleConfig(withMode: bool): Dict<string, Json> {
    [("name", JStr("test_scraper"))]
    + (if withMode then [("mode", JStr("static"))] else [])
    + [("base_url", JStr("https://example.com")),
       ("start_paths", JArr([JStr("/")])),
       ("selectors", JObj(SampleSelectors)),
       ("storage", JObj(SampleStorage))]
  }

  /** A two-key path through nested objects. */
  lemma PathTwo(c: Dict<string, Json>, k1: string, k2: string, o: Dict<string, Json>, x: Json)
    requires Get(c, k1) == Some(JObj(o)) && Get(o, k2) == Some(x)
    ensures Path(JObj(c), [k1, k2]) == Some(x)
  {
    assert [k1][..0] == [];
    assert Path(JObj(c), [k1]) == Some(JObj(o));
    assert [k1, k2][..1] == [k1];
  }

  /** Loading the complete sample: its own fields, nested lookups and the defaults for absent sections. */
  lemma SampleConfigScenario(files: Files, path: string)
    requires files.pathExists(path) && files.parse(path) == Value(JObj(SampleConfig(true)))
    ensures Load(files, path).Ok?
    ensures var c := Load(files, path).value;
      && GetOr(c, "name", JNull) == JStr("test_scraper")
      && GetOr(c, "mode", JNull) == JStr("static")
      && Path(JObj(c), ["selectors", "item"]) == Some(JStr(".item"))
      && Path(JObj(c), ["storage", "type"]) == Some(JStr("csv"))
      && GetOr(c, "user_agents", JNull) == JArr([])
      && Path(JObj(c), ["rate_limit", "delay_seconds"]) == Some(JNum(1.0))
  {
    var m := SampleConfig(true);
    SampleKeys();
    LoadComplete(files, path, m);
    SampleDefaults(m);
    SampleLookups(m, WithDefaults(m, Defaults));
  }

  lemma SampleKeys()
    ensures Keys(SampleConfig(true)) == RequiredFields
  {
  }

  /** A readable object holding every required field loads to itself plus the defaults. */
  lemma LoadComplete(files: Files, path: string, m: Dict<string, Json>)
    requires files.pathExists(path) && files.parse(path) == Value(JObj(m))
    requires Keys(m) == RequiredFields
    ensures Load(files, path) == Ok(WithDefaults(m, Defaults))
  {
    assert FirstMissing(JObj(m), RequiredFields) == None;
  }

  lemma SampleDefaults(m: Dict<string, Json>)
    requires "user_agents" !in Keys(m) && "rate_limit" !in Keys(m)
    ensures var c := WithDefaults(m, Defaults);
      && (forall k :: k in Keys(m) ==> Get(c, k) == Get(m, k))
      && Get(c, "user_agents") == Some(Defaults[0].1)
      && Get(c, "rate_limit") == Some(Defaults[1].1)
  {
    WithDefaultsMeaning(m);
    assert Defaults[0].0 == "user_agents" && Defaults[1].0 == "rate_limit";
  }

  const SampleSelectors: Dict<string, Json> := [("item", JStr(".item")), ("fields", JObj([("title", JStr(".title"))]))]
  const SampleStorage: Dict<string, Json> := [("type", JStr("csv")), ("path", JStr("data/output.csv"))]

  lemma SampleOwnFields(m: Dict<string, Json>)
    requires m == SampleConfig(true)
    ensures Get(m, "name") == Some(JStr("test_scraper"))
    ensures Get(m, "mode") == Some(JStr("static"))
    ensures Get(m, "selectors") == Some(JObj(SampleSelectors))
    ensures Get(m, "storage") == Some(JObj(SampleStorage))
  {
    assert Keys(m) == ["name", "mode", "base_url", "start_paths", "selectors", "storage"];
    GetAt(m, 0);
    GetAt(m, 1);
    GetAt(m, 4);
    GetAt(m, 5);
  }

  lemma SampleLookups(m: Dict<string, Json>, c: Dict<string, Json>)
    requires m == SampleConfig(true)
    requires forall k :: k in Keys(m) ==> Get(c, k) == Get(m, k)
    requires Get(c, "user_agents") == Some(Defaults[0].1)
    requires Get(c, "rate_limit") == Some(Defaults[1].1)
    ensures GetOr(c, "name", JNull) == JStr("test_scraper")
    ensures GetOr(c, "mode", JNull) == JStr("static")
    ensures Path(JObj(c), ["selectors", "item"]) == Some(JStr(".item"))
    ensures Path(JObj(c), ["storage", "type"]) == Some(JStr("csv"))
    ensures GetOr(c, "user_agents", JNull) == JArr([])
    ensures Path(JObj(c), ["rate_limit", "delay_seconds"]) == Some(JNum(1.0))
  {
    SampleOwnFields(m);
    assert Get(c, "name") == Some(JStr("test_scraper"));
    assert Get(c, "mode") == Some(JStr("static"));
    assert Get(c, "selectors") == Some(JObj(SampleSelectors));
    assert Get(c, "storage") == Some(JObj(SampleStorage));
    NestedLookups(c);
  }

  lemma NestedLookups(c: Dict<string, Json>)
    requires Get(c, "selectors") == Some(JObj(SampleSelectors))
    requires Get(c, "storage") == Some(JObj(SampleStorage))
    requires Get(c, "rate_limit") == Some(Defaults[1].1)
    ensures Path(JObj(c), ["selectors", "item"]) == Some(JStr(".item"))
    ensures Path(JObj(c), ["storage", "type"]) == Some(JStr("csv"))
    ensures Path(JObj(c), ["rate_limit", "delay_seconds"]) == Some(JNum(1.0))
  {
    FirstEntryPath(c, "selectors", SampleSelectors);
    FirstEntryPath(c, "storage", SampleStorage);
    FirstEntryPath(c, "rate_limit", Defaults[1].1.members);
  }

  /** The path to the first member of a nested object. */
  lemma FirstEntryPath(c: Dict<string, Json>, k: string, o: Dict<string, Json>)
    requires |o| > 0 && Get(c, k) == Some(JObj(o))
    ensures Path(JObj(c), [k, o[0].0]) == Some(o[0].1)
  {
    GetAt(o, 0);
    PathTwo(c, k, o[0].0, o, o[0].1);
  }

  /** Loading the sample without `mode` reports `mode`. */
  lemma MissingModeScenario(files: Files, path: string)
    requires files.pathExists(path) && files.parse(path) == Value(JObj(SampleConfig(false)))
    ensures Load(files, path) == Err(MissingField("mode"))
  {
    var m := SampleConfig(false);
    assert Keys(m) == ["name", "base_url", "start_paths", "selectors", "storage"];
    FirstMissingAt(JObj(m), RequiredFields, 1);
  }

  /** A loaded configuration. */
  class ConfigLoader {
    const configPath: string
    const config: Dict<string, Json>

    constructor(configPath: string, config: Dict<string, Json>)
      ensures this.configPath == configPath && this.config == config
    {
      this.configPath := configPath;
      this.config := config;
    }

    /** `get(key, default)`. */
    function Get(key: string, default: Json): (r: Json)
      ensures key in Keys(config) ==> Some(r) == Dicts.Get(config, key)
      ensures key !in Keys(config) ==> r == default
    {
      GetOr(config, key, default)
    }

    /** `get_nested(*keys)`: the walk through nested objects, `None` (`null`) once it is lost. */
    method GetNested(keys: seq<string>) returns (value: Json)
      ensures value == Path(JObj(config), keys).GetOr(JNull)
    {
      value := JObj(config);
      for i := 0 to |keys|
        invariant Path(JObj(config), keys[..i]) == Some(value)
      {
        var key := keys[i];
        TakeSnoc(keys, i, i + 1);
        assert keys[..i + 1][..i] == keys[..i];
        if value.JObj? && key in Keys(value.members) {
          value := Dicts.Get(value.members, key).value;
        } else {
          PathStops(JObj(config), keys, i);
          return JNull;
        }
      }
      assert keys[..|keys|] == keys;
    }
  }

  /** `ConfigLoader(path)`: load, and raise on an error. */
  method Open(files: Files, path: string) returns (r: Result<ConfigLoader, ConfigError>)
    ensures r.Ok? <==> Load(files, path).Ok?
    ensures r.Ok? ==> fresh(r.value) && r.value.config == Load(files, path).value && r.value.configPath == path
    ensures r.Err? ==> r.error == Load(files, path).error
  {
    var loaded := LoadConfig(files, path);
    match loaded {
      case Err(e) => r := Err(e);
      case Ok(c) =>
        var loader := new ConfigLoader(path, c);
        r := Ok(loader);
    }
  }
}
