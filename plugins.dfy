/**
 * Transformation plugins: a registry from names to transformer functions,
 * the three built-in transformers, and `apply_transformations`, which runs
 * the named transformer of each configured field on a copy of a record.
 */
module Plugins {
  import opened Common
  import opened Dicts
  import opened Json
  import opened PyStr
  import opened Extraction

  /** A transformer: a value to a value, or an exception. */
  type Transformer = Json -> Outcome<Json>

  // ---------------------------------------------------------------------
  // Built-in transformers.

  /** The characters `price_to_float` removes before parsing. */
  const Currency: set<char> := {'$', '€', '£', ','}

  /** The cleaning step of `price_to_float`: the chain of `replace(c, "")`. */
  function CleanPrice(value: string): string {
    Remove(Remove(Remove(Remove(value, '$'), '€'), '£'), ',')
  }

  /**
   * The cleaned string is the input with every `$`, `€`, `£` and `,`
   * removed and every other character kept, in order.
   */
  lemma CleanPriceMeaning(value: string)
    ensures CleanPrice(value) == Keep(value, Currency)
    ensures forall c :: c in CleanPrice(value) ==> c !in Currency && c in value
    ensures (forall c :: c in value ==> c !in Currency) ==> CleanPrice(value) == value
  {
    KeepEmptySet(value);
    var r1 := Remove(value, '$');
    assert r1 == Keep(value, {'$'}) by {
      RemoveAfterKeep(value, {}, '$');
      assert {} + {'$'} == {'$'};
    }
    var r2 := Remove(r1, '€');
    assert r2 == Keep(value, {'$', '€'}) by {
      RemoveAfterKeep(value, {'$'}, '€');
      assert {'$'} + {'€'} == {'$', '€'};
    }
    var r3 := Remove(r2, '£');
    assert r3 == Keep(value, {'$', '€', '£'}) by {
      RemoveAfterKeep(value, {'$', '€'}, '£');
      assert {'$', '€'} + {'£'} == {'$', '€', '£'};
    }
    assert Remove(r3, ',') == Keep(value, Currency) by {
      RemoveAfterKeep(value, {'$', '€', '£'}, ',');
      assert {'$', '€', '£'} + {','} == Currency;
    }
    KeepNone(value, Currency);
    if forall c :: c in value ==> c !in Currency {
      KeepUntouched(value, Currency);
    }
  }

  /**
   * `price_to_float`, with `float()` given as `parse` (`None`: it raised
   * `ValueError`, which gives 0.0). A falsy value gives 0.0; a truthy value
   * that is not a string has no `replace` and raises.
   */
  function PriceToFloat(parse: string -> Option<real>, value: Json): (r: Outcome<Json>)
    ensures !Truthy(value) ==> r == Value(JNum(0.0))
    ensures r.Raised? <==> Truthy(value) && !value.JStr?
    ensures r.Value? ==> r.value.JNum?
    ensures value.JStr? && value.s != "" ==>
      r == Value(JNum(if parse(Keep(value.s, Currency)).Some? then parse(Keep(value.s, Currency)).value else 0.0))
  {
    if !Truthy(value) then Value(JNum(0.0))
    else match value
      case JStr(s) =>
        CleanPriceMeaning(s);
        Value(JNum(parse(CleanPrice(s)).GetOr(0.0)))
      case _ => Raised
  }

  /** `date_parser`: `strip()`, which only a string has. */
  function DateParser(value: Json): (r: Outcome<Json>)
    ensures r.Value? <==> value.JStr?
  {
    match value
    case JStr(s) => Value(JStr(Strip(s)))
    case _ => Raised
  }

  /** `date_parser` of a string drops exactly its surrounding whitespace. */
  lemma DateParserStrips(s: string)
    ensures DateParser(JStr(s)).Value? && DateParser(JStr(s)).value.JStr?
    ensures var r := DateParser(JStr(s)).value.s;
      && (|r| > 0 ==> !IsSpace(r[0]) && !IsSpace(r[|r| - 1]))
      && exists a, b :: 0 <= a <= b <= |s| && r == s[a..b]
           && (forall i :: 0 <= i < a ==> IsSpace(s[i]))
           && (forall i :: b <= i < |s| ==> IsSpace(s[i]))
  {
    StripMeaning(s);
  }

  /** `normalize_text` on a string: `""` stays `""`, otherwise `" ".join(value.split()).title()`. */
  function Normalize(s: string): (r: string)
    ensures s == "" ==> r == ""
  {
    if s == "" then "" else Title(Join(" ", Words(s)))
  }

  /** `normalize_text`: a falsy value gives `""`; a truthy non-string raises. */
  function NormalizeText(value: Json): (r: Outcome<Json>)
    ensures !Truthy(value) ==> r == Value(JStr(""))
    ensures r.Raised? <==> Truthy(value) && !value.JStr?
    ensures value.JStr? && value.s != "" ==> r == Value(JStr(Join(" ", TitleAll(Words(value.s)))))
  {
    if !Truthy(value) then Value(JStr(""))
    else match value
      case JStr(s) =>
        NormalizeMeaning(s);
        Value(JStr(Normalize(s)))
      case _ => Raised
  }

  lemma TitleAllWords(ws: seq<string>)
    requires forall w :: w in ws ==> |w| > 0 && NoSpace(w)
    ensures forall t :: t in TitleAll(ws) ==> |t| > 0 && NoSpace(t)
  {
    forall t | t in TitleAll(ws) ensures |t| > 0 && NoSpace(t) {
      var i :| 0 <= i < |ws| && TitleAll(ws)[i] == t;
      assert ws[i] in ws;
      TitleShape(ws[i]);
    }
  }

  /**
   * The normal form: the input's words, title-cased, joined by single
   * spaces, with no whitespace at either end and no doubled whitespace.
   */
  lemma NormalizeMeaning(s: string)
    ensures Normalize(s) == Join(" ", TitleAll(Words(s)))
    ensures Words(Normalize(s)) == TitleAll(Words(s))
    ensures SingleSpaced(Normalize(s))
    ensures Titled(Normalize(s))
  {
    var ws := Words(s);
    TitleOfJoin(ws);
    TitleShape(Join(" ", ws));
    TitleAllWords(ws);
    WordsOfJoin(TitleAll(ws));
    JoinSingleSpaced(TitleAll(ws));
    if s == "" {
      assert Join(" ", TitleAll(ws)) == "";
    }
  }

  /** Normalising twice is normalising once. */
  lemma NormalizeIdempotent(s: string)
    ensures Normalize(Normalize(s)) == Normalize(s)
  {
    var ws := Words(s);
    var n := Normalize(s);
    NormalizeMeaning(s);
    if n != "" {
      TitleAllWords(ws);
      TitleOfJoin(TitleAll(ws));
      assert TitleAll(TitleAll(ws)) == TitleAll(ws) by {
        forall i | 0 <= i < |ws| ensures Title(Title(ws[i])) == Title(ws[i]) {
          TitleFromIdempotent(ws[i], false);
        }
      }
    }
  }

  /** The registry the module builds at import time, with `price_to_float` parsing through `parse`. */
  function Builtins(parse: string -> Option<real>): map<string, Transformer> {
    map["price_to_float" := v => PriceToFloat(parse, v),
        "date_parser" := DateParser,
        "normalize_text" := NormalizeText]
  }

  // ---------------------------------------------------------------------
  // The registry.

  /** `TRANSFORMERS`, the module-level registry. */
  class Registry {
    var transformers: map<string, Transformer>

    /** The registry after the module's three decorated definitions. */
    constructor(parse: string -> Option<real>)
      ensures transformers == Builtins(parse)
    {
      var m: map<string, Transformer> := map[];
      m := m["price_to_float" := v => PriceToFloat(parse, v)];
      m := m["date_parser" := DateParser];
      m := m["normalize_text" := NormalizeText];
      transformers := m;
    }

    /** `register_transformer(name)(func)`: store under `name`, replacing any earlier one, and return `func`. */
    method Register(name: string, func: Transformer) returns (registered: Transformer)
      modifies this
      ensures registered == func
      ensures transformers == old(transformers)[name := func]
    {
      transformers := transformers[name := func];
      registered := func;
    }
  }

  /** The registry after a sequence of registrations. */
  function RegisterAll(m: map<string, Transformer>, regs: seq<(string, Transformer)>): map<string, Transformer>
    decreases |regs|
  {
    if |regs| == 0 then m
    else RegisterAll(m, regs[..|regs| - 1])[regs[|regs| - 1].0 := regs[|regs| - 1].1]
  }

  /** After several registrations, a name holds the function of its last registration. */
  lemma {:induction false} LastRegistrationWins(m: map<string, Transformer>, regs: seq<(string, Transformer)>, name: string, i: nat)
    requires i < |regs| && regs[i].0 == name
    requires forall j :: i < j < |regs| ==> regs[j].0 != name
    ensures name in RegisterAll(m, regs) && RegisterAll(m, regs)[name] == regs[i].1
    decreases |regs|
  {
    var init := regs[..|regs| - 1];
    if i < |regs| - 1 {
      forall j | i < j < |init| ensures init[j].0 != name {
        assert init[j] == regs[j];
      }
      LastRegistrationWins(m, init, name, i);
      assert init[i] == regs[i];
    }
  }

  /** A name never registered keeps what it had. */
  lemma {:induction false} UnregisteredUnchanged(m: map<string, Transformer>, regs: seq<(string, Transformer)>, name: string)
    requires forall j :: 0 <= j < |regs| ==> regs[j].0 != name
    ensures name in RegisterAll(m, regs) <==> name in m
    ensures name in m ==> RegisterAll(m, regs)[name] == m[name]
    decreases |regs|
  {
    if |regs| > 0 {
      var init := regs[..|regs| - 1];
      forall j | 0 <= j < |init| ensures init[j].0 != name {
        assert init[j] == regs[j];
      }
      UnregisteredUnchanged(m, init, name);
      assert regs[|regs| - 1].0 != name;
    }
  }

  // ---------------------------------------------------------------------
  // apply_transformations

  /** One configured field: transformed when present and its transformer is registered; kept when that raises. */
  function Step(reg: map<string, Transformer>, d: Record, field: string, name: string): Record {
    if field in Keys(d) && name in reg then
      match reg[name](Get(d, field).value)
      case Raised => d
      case Value(v) => Put(d, field, v)
    else d
  }

  /** The record after the configured transformations, in configuration order. */
  function Transformed(reg: map<string, Transformer>, data: Record, ts: Dict<string, string>): Record
    decreases |ts|
  {
    if |ts| == 0 then data
    else Step(reg, Transformed(reg, data, ts[..|ts| - 1]), ts[|ts| - 1].0, ts[|ts| - 1].1)
  }

  /** The result has exactly the keys of the input, in the same order. */
  lemma {:induction false} TransformedKeys(reg: map<string, Transformer>, data: Record, ts: Dict<string, string>)
    ensures Keys(Transformed(reg, data, ts)) == Keys(data)
    decreases |ts|
  {
    if |ts| > 0 {
      TransformedKeys(reg, data, ts[..|ts| - 1]);
    }
  }

  /** A field with no registered transformer configured keeps its value, or stays absent. */
  lemma {:induction false} TransformedUntouched(reg: map<string, Transformer>, data: Record, ts: Dict<string, string>, k: string)
    requires forall i :: 0 <= i < |ts| && ts[i].0 == k ==> ts[i].1 !in reg
    ensures Get(Transformed(reg, data, ts), k) == Get(data, k)
    decreases |ts|
  {
    if |ts| > 0 {
      var init := ts[..|ts| - 1];
      forall i | 0 <= i < |init| ensures init[i] == ts[i] {
      }
      TransformedUntouched(reg, data, init, k);
    }
  }

  /**
   * A present field whose transformer is registered ends with that
   * transformer's result, or with its old value when the transformer raises.
   */
  lemma {:induction false} TransformedField(reg: map<string, Transformer>, data: Record, ts: Dict<string, string>, i: nat)
    requires DistinctKeys(ts) && i < |ts|
    requires ts[i].0 in Keys(data) && ts[i].1 in reg
    ensures var v := Get(data, ts[i].0).value;
      Get(Transformed(reg, data, ts), ts[i].0)
        == Some(match reg[ts[i].1](v) case Raised => v case Value(w) => w)
    decreases |ts|
  {
    var k := ts[i].0;
    var init := ts[..|ts| - 1];
    forall j | 0 <= j < |init| ensures init[j] == ts[j] {
    }
    assert DistinctKeys(init);
    TransformedKeys(reg, data, init);
    if i == |ts| - 1 {
      TransformedUntouched(reg, data, init, k);
    } else {
      TransformedField(reg, data, init, i);
      assert ts[|ts| - 1].0 != k;
    }
  }

  /** The transformations run one after another: later ones start from the earlier ones' result. */
  lemma {:induction false} TransformedAppend(reg: map<string, Transformer>, data: Record, ts1: Dict<string, string>, ts2: Dict<string, string>)
    ensures Transformed(reg, data, ts1 + ts2) == Transformed(reg, Transformed(reg, data, ts1), ts2)
    decreases |ts2|
  {
    if |ts2| == 0 {
      assert ts1 + ts2 == ts1;
    } else {
      assert (ts1 + ts2)[..|ts1 + ts2| - 1] == ts1 + ts2[..|ts2| - 1];
      TransformedAppend(reg, data, ts1, ts2[..|ts2| - 1]);
    }
  }

  /** `PluginManager`: it shares the module registry, so later registrations are visible to it. */
  class PluginManager {
    const registry: Registry

    constructor(registry: Registry)
      ensures this.registry == registry
    {
      this.registry := registry;
    }

    /** `apply_transformations`: the loop over the configured fields, on a copy of `data`. */
    method ApplyTransformations(data: Record, transformations: Dict<string, string>) returns (transformed: Record)
      ensures transformed == Transformed(registry.transformers, data, transformations)
    {
      var reg := registry.transformers;
      transformed := data;
      for i := 0 to |transformations|
        invariant transformed == Transformed(reg, data, transformations[..i])
      {
        var (field, transformerName) := transformations[i];
        assert transformations[..i + 1][..i] == transformations[..i];
        if field in Keys(transformed) && transformerName in reg {
          var result := reg[transformerName](Get(transformed, field).value);
          if result.Value? {
            transformed := Put(transformed, field, result.value);
          }
        }
      }
      assert transformations[..|transformations|] == transformations;
    }
  }
}
