/**
 * The selector-extraction engine shared by the HTTP backends: an item
 * selector finds the record roots in a document, and each field selector is
 * evaluated inside one root, in field order.
 *
 * Documents are abstract: a `Dom` gives the CSS query of a backend (which
 * raises on a malformed selector), the trimmed text of an element and its
 * attribute lookup.
 */
module Extraction {
  import opened Common
  import opened Dicts
  import opened Json

  datatype Dom<!E> = Dom(
    select: (E, string) -> Outcome<seq<E>>,
    text: E -> string,
    attr: (E, string) -> Option<string>)

  /**
   * A field selector from the configuration: a CSS string, a dict with
   * optional `selector` and `attr` entries, or any other JSON value.
   */
  datatype FieldSelector =
    | Simple(css: string)
    | Attributed(selector: Option<string>, attr: Option<string>)
    | Unsupported

  /** The `selectors` section: `item` and the ordered `fields` mapping. */
  datatype Schema = Schema(item: Option<string>, fields: Dict<string, FieldSelector>)

  /** One scraped record: field name to a string or a list of strings. */
  type Record = Dict<string, Json>

  /** What evaluating one field selector does to a record. */
  datatype FieldEval = Skipped | Failed | Produced(value: Json)

  function ItemSelector(schema: Schema): string {
    schema.item.GetOr("")
  }

  function Texts<E>(dom: Dom<E>, es: seq<E>): (ts: seq<string>)
    ensures |ts| == |es| && forall i :: 0 <= i < |es| ==> ts[i] == dom.text(es[i])
  {
    seq(|es|, i requires 0 <= i < |es| => dom.text(es[i]))
  }

  /** A string selector: no match gives "", one match its text, several the list of texts. */
  function SimpleValue<E>(dom: Dom<E>, es: seq<E>): Json {
    if |es| == 0 then JStr("")
    else if |es| == 1 then JStr(dom.text(es[0]))
    else StrList(Texts(dom, es))
  }

  /** A dict selector: the first match's text (attr "text") or attribute, "" when absent. */
  function AttributedValue<E>(dom: Dom<E>, es: seq<E>, attr: string): Json {
    if |es| == 0 then JStr("")
    else if attr == "text" then JStr(dom.text(es[0]))
    else JStr(dom.attr(es[0], attr).GetOr(""))
  }

  /**
   * One field selector inside one root. Any other selector is skipped; a
   * selection query that raises fails the field. A string selector gives
   * "" without a match, the text of a single match, and the list of the
   * texts of several matches in match order. A dict selector queries its
   * `selector` ("" when absent) and gives "" without a match, else the
   * first match's text when `attr` is "text" or absent, and otherwise that
   * match's attribute, "" when the element lacks it.
   */
  function FieldOf<E>(dom: Dom<E>, root: E, sel: FieldSelector): (ev: FieldEval)
    ensures ev == Skipped <==> sel.Unsupported?
    ensures sel.Simple? ==> (ev == Failed <==> dom.select(root, sel.css).Raised?)
    ensures sel.Simple? && dom.select(root, sel.css).Value? ==>
      var es := dom.select(root, sel.css).value;
      && ev.Produced?
      && (|es| == 0 ==> ev.value == JStr(""))
      && (|es| == 1 ==> ev.value == JStr(dom.text(es[0])))
      && (|es| > 1 ==> ev.value.JArr? && |ev.value.items| == |es|
                       && forall i :: 0 <= i < |es| ==> ev.value.items[i] == JStr(dom.text(es[i])))
    ensures sel.Attributed? ==> (ev == Failed <==> dom.select(root, sel.selector.GetOr("")).Raised?)
    ensures sel.Attributed? && dom.select(root, sel.selector.GetOr("")).Value? ==>
      var es := dom.select(root, sel.selector.GetOr("")).value;
      var attr := sel.attr.GetOr("text");
      && ev.Produced?
      && (|es| == 0 ==> ev.value == JStr(""))
      && (|es| > 0 && attr == "text" ==> ev.value == JStr(dom.text(es[0])))
      && (|es| > 0 && attr != "text" ==>
            ev.value == JStr(if dom.attr(es[0], attr).Some? then dom.attr(es[0], attr).value else ""))
  {
    match sel
    case Unsupported => Skipped
    case Simple(css) =>
      (match dom.select(root, css)
       case Raised => Failed
       case Value(es) => Produced(SimpleValue(dom, es)))
    case Attributed(s, a) =>
      (match dom.select(root, s.GetOr(""))
       case Raised => Failed
       case Value(es) => Produced(AttributedValue(dom, es, a.GetOr("text"))))
  }

  /** The record of one root, fields evaluated in order; a raising query aborts it. */
  function RecordOf<E>(dom: Dom<E>, root: E, fields: Dict<string, FieldSelector>): Outcome<Record>
    decreases |fields|
  {
    if |fields| == 0 then Value([])
    else
      match RecordOf(dom, root, fields[..|fields| - 1])
      case Raised => Raised
      case Value(r) =>
        var (name, sel) := fields[|fields| - 1];
        match FieldOf(dom, root, sel)
        case Skipped => Value(r)
        case Failed => Raised
        case Produced(v) => Value(Put(r, name, v))
  }

  /** The records of the roots, in document order; a raising root aborts them all. */
  function Records<E>(dom: Dom<E>, roots: seq<E>, fields: Dict<string, FieldSelector>): Outcome<seq<Record>>
    decreases |roots|
  {
    if |roots| == 0 then Value([])
    else
      match Records(dom, roots[..|roots| - 1], fields)
      case Raised => Raised
      case Value(rs) =>
        match RecordOf(dom, roots[|roots| - 1], fields)
        case Raised => Raised
        case Value(r) => Value(rs + [r])
  }

  /** `extract_data(soup, selectors)` of the BeautifulSoup backends. */
  function Extract<E>(dom: Dom<E>, doc: E, schema: Schema): Outcome<seq<Record>> {
    match dom.select(doc, ItemSelector(schema))
    case Raised => Raised
    case Value(roots) => Records(dom, roots, schema.fields)
  }

  /** The names of the fields whose selector is a string or a dict, in order. */
  function Supported(fields: Dict<string, FieldSelector>): (ns: seq<string>)
    ensures forall n :: n in ns ==> n in Keys(fields)
    decreases |fields|
  {
    if |fields| == 0 then []
    else
      Supported(fields[..|fields| - 1])
      + (if fields[|fields| - 1].1.Unsupported? then [] else [fields[|fields| - 1].0])
  }

  lemma {:induction false} RecordRaisedExtends<E>(dom: Dom<E>, root: E, fields: Dict<string, FieldSelector>, n: nat)
    requires n <= |fields| && RecordOf(dom, root, fields[..n]) == Raised
    ensures RecordOf(dom, root, fields) == Raised
    decreases |fields| - n
  {
    if n < |fields| {
      assert fields[..n + 1][..n] == fields[..n];
      RecordRaisedExtends(dom, root, fields, n + 1);
    } else {
      assert fields[..n] == fields;
    }
  }

  lemma {:induction false} RecordsRaisedExtends<E>(dom: Dom<E>, roots: seq<E>, fields: Dict<string, FieldSelector>, n: nat)
    requires n <= |roots| && Records(dom, roots[..n], fields) == Raised
    ensures Records(dom, roots, fields) == Raised
    decreases |roots| - n
  {
    if n < |roots| {
      assert roots[..n + 1][..n] == roots[..n];
      RecordsRaisedExtends(dom, roots, fields, n + 1);
    } else {
      assert roots[..n] == roots;
    }
  }

  /**
   * The loop of `extract_data`: one pass over the item roots, and for each
   * root one pass over the fields (`ExtractItem`).
   */
  method ExtractData<E>(dom: Dom<E>, doc: E, schema: Schema) returns (items: Outcome<seq<Record>>)
    ensures items == Extract(dom, doc, schema)
  {
    var found := dom.select(doc, ItemSelector(schema));
    if found.Raised? {
      return Raised;
    }
    var roots := found.value;
    var acc: seq<Record> := [];
    var i := 0;
    while i < |roots|
      invariant 0 <= i <= |roots|
      invariant Records(dom, roots[..i], schema.fields) == Value(acc)
    {
      var itemData := ExtractItem(dom, roots[i], schema.fields);
      assert roots[..i + 1][..i] == roots[..i];
      if itemData.Raised? {
        RecordsRaisedExtends(dom, roots, schema.fields, i + 1);
        return Raised;
      }
      acc := acc + [itemData.value];
      i := i + 1;
    }
    assert roots[..|roots|] == roots;
    items := Value(acc);
  }

  /** The inner loop of `extract_data`: the fields of one item, in order. */
  method ExtractItem<E>(dom: Dom<E>, element: E, fields: Dict<string, FieldSelector>) returns (r: Outcome<Record>)
    ensures r == RecordOf(dom, element, fields)
  {
    var itemData: Record := [];
    var j := 0;
    while j < |fields|
      invariant 0 <= j <= |fields|
      invariant RecordOf(dom, element, fields[..j]) == Value(itemData)
    {
      var (fieldName, selector) := fields[j];
      assert fields[..j + 1][..j] == fields[..j];
      var ev := EvalField(dom, element, selector);
      match ev {
        case Failed =>
          RecordRaisedExtends(dom, element, fields, j + 1);
          return Raised;
        case Produced(v) =>
          itemData := Put(itemData, fieldName, v);
        case Skipped =>
      }
      j := j + 1;
    }
    assert fields[..|fields|] == fields;
    r := Value(itemData);
  }

  /** The branches of `extract_data` for one field selector. */
  method EvalField<E>(dom: Dom<E>, element: E, selector: FieldSelector) returns (ev: FieldEval)
    ensures ev == FieldOf(dom, element, selector)
  {
    match selector {
      case Simple(css) =>
        var elements := dom.select(element, css);
        if elements.Raised? {
          return Failed;
        }
        var es := elements.value;
        if |es| > 0 {
          if |es| > 1 {
            ev := Produced(StrList(Texts(dom, es)));
          } else {
            ev := Produced(JStr(dom.text(es[0])));
          }
        } else {
          ev := Produced(JStr(""));
        }
      case Attributed(cssSelector, attrName) =>
        var attr := attrName.GetOr("text");
        var elements := dom.select(element, cssSelector.GetOr(""));
        if elements.Raised? {
          return Failed;
        }
        var es := elements.value;
        if |es| > 0 {
          if attr == "text" {
            ev := Produced(JStr(dom.text(es[0])));
          } else {
            ev := Produced(JStr(dom.attr(es[0], attr).GetOr("")));
          }
        } else {
          ev := Produced(JStr(""));
        }
      case Unsupported =>
        ev := Skipped;
    }
  }

  // ---------------------------------------------------------------------
  // What the engine promises.

  /** Each string or dict field yields exactly one key, in field order; others none. */
  lemma {:induction false} RecordKeys<E>(dom: Dom<E>, root: E, fields: Dict<string, FieldSelector>, r: Record)
    requires DistinctKeys(fields)
    requires RecordOf(dom, root, fields) == Value(r)
    ensures Keys(r) == Supported(fields)
    decreases |fields|
  {
    if |fields| > 0 {
      var init := fields[..|fields| - 1];
      var (name, sel) := fields[|fields| - 1];
      assert DistinctKeys(init);
      var r' := RecordOf(dom, root, init).value;
      RecordKeys(dom, root, init, r');
      if !sel.Unsupported? {
        assert name !in Keys(init);
        assert name !in Keys(r');
      }
    }
  }

  /** The key of a string or dict field holds exactly the value its selector yields. */
  lemma {:induction false} RecordValue<E>(dom: Dom<E>, root: E, fields: Dict<string, FieldSelector>, r: Record, k: nat)
    requires DistinctKeys(fields)
    requires RecordOf(dom, root, fields) == Value(r)
    requires k < |fields| && FieldOf(dom, root, fields[k].1).Produced?
    ensures Get(r, fields[k].0) == Some(FieldOf(dom, root, fields[k].1).value)
    decreases |fields|
  {
    var init := fields[..|fields| - 1];
    var r' := RecordOf(dom, root, init).value;
    if k < |fields| - 1 {
      assert DistinctKeys(init);
      RecordValue(dom, root, init, r', k);
      assert fields[k].0 != fields[|fields| - 1].0;
    }
  }

  /** A record fails exactly when the query of one of its string or dict fields raises. */
  lemma {:induction false} RecordFails<E>(dom: Dom<E>, root: E, fields: Dict<string, FieldSelector>)
    ensures RecordOf(dom, root, fields) == Raised
        <==> exists k :: 0 <= k < |fields| && FieldOf(dom, root, fields[k].1) == Failed
    decreases |fields|
  {
    if |fields| > 0 {
      var init := fields[..|fields| - 1];
      RecordFails(dom, root, init);
      if RecordOf(dom, root, init) == Raised {
        var k :| 0 <= k < |init| && FieldOf(dom, root, init[k].1) == Failed;
        assert fields[k] == init[k];
      }
      if exists k :: 0 <= k < |fields| && FieldOf(dom, root, fields[k].1) == Failed {
        var k :| 0 <= k < |fields| && FieldOf(dom, root, fields[k].1) == Failed;
        if k < |fields| - 1 {
          assert init[k] == fields[k];
        }
      }
    }
  }

  /** The records succeed exactly when every root's record does. */
  lemma {:induction false} RecordsSucceed<E>(dom: Dom<E>, roots: seq<E>, fields: Dict<string, FieldSelector>)
    ensures Records(dom, roots, fields).Value?
        <==> forall i :: 0 <= i < |roots| ==> RecordOf(dom, roots[i], fields).Value?
    decreases |roots|
  {
    if |roots| > 0 {
      RecordsSucceed(dom, roots[..|roots| - 1], fields);
      RecordsSnocSucceeds(dom, roots, fields);
      AllRecordsSplit(dom, roots, roots[..|roots| - 1], fields);
    }
  }

  lemma RecordsSnocSucceeds<E>(dom: Dom<E>, roots: seq<E>, fields: Dict<string, FieldSelector>)
    requires |roots| > 0
    ensures Records(dom, roots, fields).Value?
        <==> Records(dom, roots[..|roots| - 1], fields).Value? && RecordOf(dom, roots[|roots| - 1], fields).Value?
  {
  }

  lemma AllRecordsSplit<E>(dom: Dom<E>, roots: seq<E>, init: seq<E>, fields: Dict<string, FieldSelector>)
    requires |roots| > 0 && init == roots[..|roots| - 1]
    ensures (forall i :: 0 <= i < |roots| ==> RecordOf(dom, roots[i], fields).Value?)
        <==> (forall i :: 0 <= i < |init| ==> RecordOf(dom, init[i], fields).Value?)
             && RecordOf(dom, roots[|roots| - 1], fields).Value?
  {
    AllSnoc(r => RecordOf(dom, r, fields).Value?, roots, init);
  }

  /** One record per root, in document order, each the record of that root. */
  lemma {:induction false} RecordsShape<E>(dom: Dom<E>, roots: seq<E>, fields: Dict<string, FieldSelector>, rs: seq<Record>)
    requires Records(dom, roots, fields) == Value(rs)
    ensures |rs| == |roots|
    ensures forall i :: 0 <= i < |roots| ==> RecordOf(dom, roots[i], fields) == Value(rs[i])
    decreases |roots|
  {
    if |roots| > 0 {
      var init := roots[..|roots| - 1];
      RecordsSnocValue(dom, roots, fields, rs);
      var rs' := rs[..|rs| - 1];
      RecordsShape(dom, init, fields, rs');
      forall i | 0 <= i < |roots| - 1 ensures RecordOf(dom, roots[i], fields) == Value(rs[i]) {
        assert init[i] == roots[i];
        assert rs[i] == rs'[i];
      }
    }
  }

  lemma RecordsSnocValue<E>(dom: Dom<E>, roots: seq<E>, fields: Dict<string, FieldSelector>, rs: seq<Record>)
    requires |roots| > 0 && Records(dom, roots, fields) == Value(rs)
    ensures |rs| > 0
    ensures Records(dom, roots[..|roots| - 1], fields) == Value(rs[..|rs| - 1])
    ensures RecordOf(dom, roots[|roots| - 1], fields) == Value(rs[|rs| - 1])
  {
    var ri := Records(dom, roots[..|roots| - 1], fields);
    var last := RecordOf(dom, roots[|roots| - 1], fields);
    assert ri.Value? && last.Value?;
    assert rs == ri.value + [last.value];
    assert rs[..|rs| - 1] == ri.value;
  }

  /**
   * `extract_data` returns one record per element the item selector matches,
   * in document order, and `[]` when nothing matches; it raises only when
   * a query raises.
   */
  lemma ExtractShape<E>(dom: Dom<E>, doc: E, schema: Schema)
    ensures dom.select(doc, ItemSelector(schema)) == Value([]) ==> Extract(dom, doc, schema) == Value([])
    ensures Extract(dom, doc, schema).Value? ==>
        var roots := dom.select(doc, ItemSelector(schema)).value;
        var rs := Extract(dom, doc, schema).value;
        |rs| == |roots| && forall i :: 0 <= i < |roots| ==> RecordOf(dom, roots[i], schema.fields) == Value(rs[i])
    ensures Extract(dom, doc, schema) == Raised <==>
        dom.select(doc, ItemSelector(schema)).Raised? ||
        exists i :: 0 <= i < |dom.select(doc, ItemSelector(schema)).value| &&
          RecordOf(dom, dom.select(doc, ItemSelector(schema)).value[i], schema.fields) == Raised
  {
    var found := dom.select(doc, ItemSelector(schema));
    if found.Value? {
      RecordsSucceed(dom, found.value, schema.fields);
      if Records(dom, found.value, schema.fields).Value? {
        RecordsShape(dom, found.value, schema.fields, Records(dom, found.value, schema.fields).value);
      }
    }
  }

  /** The unit test's page: one `.item` holding one `.title`. */
  lemma SingleItemScenario()
    ensures
      var dom := Dom(
        (e: int, css: string) =>
          if e == 0 && css == ".item" then Value([1])
          else if e == 1 && css == ".title" then Value([2])
          else Value([]),
        (e: int) => if e == 2 then "Test Title" else "",
        (e: int, a: string) => None);
      Extract(dom, 0, Schema(Some(".item"), [("title", Simple(".title"))]))
        == Value([[("title", JStr("Test Title"))]])
  {
    var dom := Dom(
        (e: int, css: string) =>
          if e == 0 && css == ".item" then Value([1])
          else if e == 1 && css == ".title" then Value([2])
          else Value([]),
        (e: int) => if e == 2 then "Test Title" else "",
        (e: int, a: string) => None);
    var fields := [("title", Simple(".title"))];
    assert fields[..0] == [];
    assert FieldOf(dom, 1, Simple(".title")) == Produced(JStr("Test Title"));
    assert Put([], "title", JStr("Test Title")) == [("title", JStr("Test Title"))];
    assert RecordOf(dom, 1, fields) == Value([("title", JStr("Test Title"))]);
    assert [1][..0] == [];
    var roots: seq<int> := [1];
    assert roots[..|roots| - 1] == [];
    assert roots[|roots| - 1] == 1;
    assert Records(dom, [], fields) == Value([]);
    var r: Record := [("title", JStr("Test Title"))];
    var none: seq<Record> := [];
    assert none + [r] == [r];
    assert Records(dom, [1], fields) == Value([[("title", JStr("Test Title"))]]);
    assert ItemSelector(Schema(Some(".item"), fields)) == ".item";
    assert dom.select(0, ".item") == Value([1]);
  }
}
