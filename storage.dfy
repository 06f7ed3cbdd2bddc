/**
 * The storage sinks of `scraper/storage.py`: a CSV file and a JSON Lines
 * file, each a sequence of records appended to in place, and a SQLite
 * database with one `scraped_data` table held in memory.  Text formats
 * (the CSV writer's quoting, `json.dumps`) are oracles; the SQL engine is
 * the small table semantics below.
 */
module Storage {
  import opened Common
  import opened Dicts
  import opened Json

  /** One scraped item, as handed to `save`. */
  type Item = Dict<string, Json>

  // ---------------------------------------------------------------------
  // Settings
  // ---------------------------------------------------------------------

  /** The three settings read from the `storage` section. */
  datatype Settings = Settings(kind: Json, path: Json, uniqueKey: Json)

  const DefaultPath := "data/output.csv"

  function SettingsOf(config: Dict<string, Json>): (s: Settings)
    ensures "type" !in Keys(config) ==> s.kind == JStr("csv")
    ensures "type" in Keys(config) ==> Get(config, "type") == Some(s.kind)
    ensures "path" !in Keys(config) ==> s.path == JStr(DefaultPath)
    ensures "path" in Keys(config) ==> Get(config, "path") == Some(s.path)
    ensures "unique_key" !in Keys(config) ==> s.uniqueKey == JNull
    ensures "unique_key" in Keys(config) ==> Get(config, "unique_key") == Some(s.uniqueKey)
  {
    Settings(GetOr(config, "type", JStr("csv")), GetOr(config, "path", JStr(DefaultPath)),
             GetOr(config, "unique_key", JNull))
  }

  /** The sink `save` dispatches to. */
  datatype Sink = CsvSink | JsonlSink | SqliteSink | UnsupportedSink

  function SinkOf(kind: Json): (k: Sink)
    ensures k == CsvSink <==> kind == JStr("csv")
    ensures k == JsonlSink <==> kind == JStr("jsonl")
    ensures k == SqliteSink <==> kind == JStr("sqlite")
  {
    if kind == JStr("csv") then CsvSink
    else if kind == JStr("jsonl") then JsonlSink
    else if kind == JStr("sqlite") then SqliteSink
    else UnsupportedSink
  }

  // ---------------------------------------------------------------------
  // CSV
  // ---------------------------------------------------------------------

  /** The CSV writer's formatting: a record from its cells, and a cell from a value. */
  datatype CsvFormat = CsvFormat(line: seq<string> -> string, cell: Json -> string)

  /** The item has no key outside the header (`DictWriter` raises `ValueError` otherwise). */
  predicate Fits(fields: seq<string>, item: Item) {
    forall k :: k in Keys(item) ==> k in fields
  }

  /** The cells `writerow` produces: the item's value per column, `""` where it has none. */
  function CsvCells(fmt: CsvFormat, fields: seq<string>, item: Item): (cells: seq<string>)
    ensures |cells| == |fields|
    ensures forall i :: 0 <= i < |fields| && fields[i] !in Keys(item) ==> cells[i] == ""
    ensures forall i :: 0 <= i < |fields| && fields[i] in Keys(item) ==>
              cells[i] == fmt.cell(Get(item, fields[i]).value)
  {
    seq(|fields|, i requires 0 <= i < |fields| =>
      if fields[i] in Keys(item) then fmt.cell(Get(item, fields[i]).value) else "")
  }

  function CsvRow(fmt: CsvFormat, fields: seq<string>, item: Item): Outcome<string> {
    if Fits(fields, item) then Value(fmt.line(CsvCells(fmt, fields, item))) else Raised
  }

  /** The records written by a run of `writerow` calls, and whether all of them succeeded. */
  datatype Written = Written(lines: seq<string>, ok: bool)

  function CsvRows(fmt: CsvFormat, fields: seq<string>, data: seq<Item>): Written
    decreases |data|
  {
    if |data| == 0 then Written([], true)
    else
      var w := CsvRows(fmt, fields, data[..|data| - 1]);
      if !w.ok then w
      else match CsvRow(fmt, fields, data[|data| - 1])
        case Raised => Written(w.lines, false)
        case Value(l) => Written(w.lines + [l], true)
  }

  /** The rows written are those of the longest prefix of items that fit; the next one raised. */
  lemma {:induction false} CsvRowsMeaning(fmt: CsvFormat, fields: seq<string>, data: seq<Item>)
    ensures var w := CsvRows(fmt, fields, data);
      && |w.lines| <= |data|
      && (forall i :: 0 <= i < |w.lines| ==>
            Fits(fields, data[i]) && w.lines[i] == fmt.line(CsvCells(fmt, fields, data[i])))
      && (w.ok <==> |w.lines| == |data|)
      && (!w.ok ==> !Fits(fields, data[|w.lines|]))
    decreases |data|
  {
    if |data| > 0 {
      var init := data[..|data| - 1];
      CsvRowsMeaning(fmt, fields, init);
      var w := CsvRows(fmt, fields, init);
      assert forall i :: 0 <= i < |init| ==> init[i] == data[i];
    }
  }

  /** The file after `_save_csv` (`None`: it does not exist), and whether the call returned. */
  function CsvSave(fmt: CsvFormat, file: Option<seq<string>>, data: seq<Item>): (res: (Option<seq<string>>, Outcome<()>))
    ensures |data| == 0 ==> res == (file, Value(()))
    ensures |data| > 0 ==> res.0.Some? && file.GetOr([]) <= res.0.value
    ensures |data| > 0 && file.None? ==> |res.0.value| > 0 && res.0.value[0] == fmt.line(Keys(data[0]))
  {
    if |data| == 0 then (file, Value(()))
    else
      var fields := Keys(data[0]);
      var header := if file.None? then [fmt.line(fields)] else [];
      var w := CsvRows(fmt, fields, data);
      (Some(file.GetOr([]) + header + w.lines), if w.ok then Value(()) else Raised)
  }

  /**
   * Where a CSV save puts its records: empty data changes nothing; otherwise
   * the old records stay in front, a header from the first item's keys follows
   * iff the file was new, then the record of each item written, in order.
   */
  lemma CsvSaveLayout(fmt: CsvFormat, file: Option<seq<string>>, data: seq<Item>)
    ensures |data| == 0 ==> CsvSave(fmt, file, data) == (file, Value(()))
    ensures |data| > 0 ==>
      var f := CsvSave(fmt, file, data).0;
      var old_ := file.GetOr([]);
      var h := if file.None? then 1 else 0;
      && f.Some?
      && |old_| + h <= |f.value| <= |old_| + h + |data|
      && f.value[..|old_|] == old_
      && (file.None? ==> f.value[|old_|] == fmt.line(Keys(data[0])))
      && (forall i :: 0 <= i < |f.value| - |old_| - h ==>
            f.value[|old_| + h + i] == fmt.line(CsvCells(fmt, Keys(data[0]), data[i])))
  {
    if |data| > 0 {
      var fields := Keys(data[0]);
      CsvRowsMeaning(fmt, fields, data);
      var w := CsvRows(fmt, fields, data);
      var header: seq<string> := if file.None? then [fmt.line(fields)] else [];
      AppendLayout(file.GetOr([]), header, w.lines);
    }
  }

  lemma AppendLayout<T>(a: seq<T>, b: seq<T>, c: seq<T>)
    ensures (a + b + c)[..|a|] == a
    ensures |b| > 0 ==> (a + b + c)[|a|] == b[0]
    ensures forall i :: 0 <= i < |c| ==> (a + b + c)[|a| + |b| + i] == c[i]
  {
  }

  /**
   * Whether a CSV save returns: it raises iff some item has a key the first
   * one lacks, and then it has written exactly the items before the first such.
   */
  lemma CsvSaveOutcome(fmt: CsvFormat, file: Option<seq<string>>, data: seq<Item>)
    requires |data| > 0
    ensures var (f, r) := CsvSave(fmt, file, data);
      var before := |file.GetOr([])| + (if file.None? then 1 else 0);
      && f.Some?
      && (r.Value? <==> forall i :: 0 <= i < |data| ==> Fits(Keys(data[0]), data[i]))
      && (r.Value? ==> |f.value| == before + |data|)
      && (r.Raised? ==> exists k :: 0 <= k < |data| && |f.value| == before + k && !Fits(Keys(data[0]), data[k])
                         && forall i :: 0 <= i < k ==> Fits(Keys(data[0]), data[i]))
  {
    var fields := Keys(data[0]);
    CsvRowsMeaning(fmt, fields, data);
    var w := CsvRows(fmt, fields, data);
    if !w.ok {
      assert !Fits(fields, data[|w.lines|]);
    }
  }

  /** The first item always fits its own keys, so a save of non-empty data writes at least one record. */
  lemma CsvFirstRowWritten(fmt: CsvFormat, fields: seq<string>, data: seq<Item>)
    requires |data| > 0 && fields == Keys(data[0])
    ensures |CsvRows(fmt, fields, data).lines| >= 1
  {
    CsvRowsMeaning(fmt, fields, data);
    assert Fits(fields, data[0]);
  }

  // ---------------------------------------------------------------------
  // JSON Lines
  // ---------------------------------------------------------------------

  /** One `json.dumps` line per item, in order. */
  function JsonLines(dumps: Item -> string, data: seq<Item>): seq<string>
    decreases |data|
  {
    if |data| == 0 then [] else JsonLines(dumps, data[..|data| - 1]) + [dumps(data[|data| - 1])]
  }

  lemma {:induction false} JsonLinesMeaning(dumps: Item -> string, data: seq<Item>)
    ensures |JsonLines(dumps, data)| == |data|
    ensures forall i :: 0 <= i < |data| ==> JsonLines(dumps, data)[i] == dumps(data[i])
    decreases |data|
  {
    if |data| > 0 {
      JsonLinesMeaning(dumps, data[..|data| - 1]);
    }
  }

  /** Opening in append mode creates the file, even for empty data. */
  function JsonlSave(dumps: Item -> string, file: Option<seq<string>>, data: seq<Item>): Option<seq<string>> {
    Some(file.GetOr([]) + JsonLines(dumps, data))
  }

  lemma JsonlSaveMeaning(dumps: Item -> string, file: Option<seq<string>>, data: seq<Item>)
    ensures var f := JsonlSave(dumps, file, data);
      && f.Some?
      && |f.value| == |file.GetOr([])| + |data|
      && f.value[..|file.GetOr([])|] == file.GetOr([])
      && forall i :: 0 <= i < |data| ==> f.value[|file.GetOr([])| + i] == dumps(data[i])
  {
    JsonLinesMeaning(dumps, data);
  }

  // ---------------------------------------------------------------------
  // SQLite
  // ---------------------------------------------------------------------

  /** A stored row: the columns the insert named, with their values. Unnamed columns read as NULL. */
  type Row = Dict<string, Json>

  /** The `scraped_data` table: its declared columns, its UNIQUE column if any, and its rows. */
  datatype Table = Table(columns: seq<string>, unique: Option<string>, rows: seq<Row>)

  function Cell(row: Row, column: string): Json {
    GetOr(row, column, JNull)
  }

  /** The row an item is inserted as: its value per column, `""` where it has none. */
  function RowOf(columns: seq<string>, item: Item): (row: Row)
    ensures Keys(row) == columns
    ensures forall c :: c in columns ==> Cell(row, c) == GetOr(item, c, JStr(""))
  {
    var row := seq(|columns|, i requires 0 <= i < |columns| => (columns[i], GetOr(item, columns[i], JStr(""))));
    assert Keys(row) == columns;
    forall c | c in columns
      ensures Cell(row, c) == GetOr(item, c, JStr(""))
    {
      var i := IndexOf(columns, c);
    }
    row
  }

  /** The upsert key: `unique_key` when it is a non-empty string among the columns. */
  function UpsertKey(uniqueKey: Json, columns: seq<string>): (key: Option<string>)
    ensures key.Some? <==> uniqueKey.JStr? && uniqueKey.s != "" && uniqueKey.s in columns
    ensures key.Some? ==> key.value == uniqueKey.s
  {
    if uniqueKey.JStr? && uniqueKey.s != "" && uniqueKey.s in columns then Some(uniqueKey.s) else None
  }

  /** `CREATE TABLE IF NOT EXISTS`: an existing table is kept as it is. */
  function Created(table: Option<Table>, columns: seq<string>, key: Option<string>): Table {
    if table.Some? then table.value else Table(columns, key, [])
  }

  /** The first row whose `column` holds `v`. */
  function FindRow(rows: seq<Row>, column: string, v: Json): (r: Option<nat>)
    ensures r.Some? ==> r.value < |rows| && Cell(rows[r.value], column) == v
    ensures r.None? ==> forall j :: 0 <= j < |rows| ==> Cell(rows[j], column) != v
    decreases |rows|
  {
    if |rows| == 0 then None
    else if Cell(rows[0], column) == v then Some(0)
    else match FindRow(rows[1..], column, v)
      case None => None
      case Some(j) => Some(j + 1)
  }

  /** `DO UPDATE SET c = excluded.c` for every column but the key. */
  function Overwrite(row: Row, columns: seq<string>, item: Item, key: string): Row
    decreases |columns|
  {
    if |columns| == 0 then row
    else
      var r := Overwrite(row, columns[..|columns| - 1], item, key);
      var c := columns[|columns| - 1];
      if c == key then r else Put(r, c, GetOr(item, c, JStr("")))
  }

  /** The overwritten row holds the item's values in the non-key columns and is unchanged elsewhere. */
  lemma {:induction false} OverwriteMeaning(row: Row, columns: seq<string>, item: Item, key: string)
    ensures var r := Overwrite(row, columns, item, key);
      forall c :: Get(r, c) == if c != key && c in columns then Some(GetOr(item, c, JStr(""))) else Get(row, c)
    decreases |columns|
  {
    if |columns| > 0 {
      var init := columns[..|columns| - 1];
      OverwriteMeaning(row, init, item, key);
      assert forall c :: c in columns <==> c in init || c == columns[|columns| - 1];
    }
  }

  /** The ON CONFLICT clause has no column to set: the key is the only column. */
  predicate EmptySetClause(columns: seq<string>, key: string) {
    forall c :: c in columns ==> c == key
  }

  /** One `INSERT`, with the errors SQLite and `sqlite3` report for it. */
  function InsertItem(t: Table, columns: seq<string>, item: Item, key: Option<string>): (r: Outcome<Table>)
    ensures r.Value? ==> r.value.columns == t.columns && r.value.unique == t.unique
    ensures r.Value? ==> forall c :: c in columns ==> c in t.columns && Bindable(GetOr(item, c, JStr("")))
    ensures r.Value? ==> r.value.rows == t.rows + [RowOf(columns, item)] || (key.Some? && |r.value.rows| == |t.rows|)
  {
    var row := RowOf(columns, item);
    if key.Some? && (EmptySetClause(columns, key.value) || t.unique != key) then Raised
    else if !(forall c :: c in columns ==> c in t.columns) then Raised
    else if !(forall c :: c in columns ==> Bindable(Cell(row, c))) then Raised
    else match t.unique
      case None => Value(t.(rows := t.rows + [row]))
      case Some(u) =>
        var v := Cell(row, u);
        if v == JNull then Value(t.(rows := t.rows + [row]))
        else match FindRow(t.rows, u, v)
          case None => Value(t.(rows := t.rows + [row]))
          case Some(j) =>
            if key == Some(u) then Value(t.(rows := t.rows[j := Overwrite(t.rows[j], columns, item, u)]))
            else Raised
  }

  /** The inserts of one save, in order, stopping at the first that raises. */
  function Inserts(t: Table, columns: seq<string>, data: seq<Item>, key: Option<string>): Outcome<Table>
    decreases |data|
  {
    if |data| == 0 then Value(t)
    else match Inserts(t, columns, data[..|data| - 1], key)
      case Raised => Raised
      case Value(t') => InsertItem(t', columns, data[|data| - 1], key)
  }

  /**
   * The table after `_save_sqlite`, and whether the call returned: a failed
   * batch is rolled back. A first item without keys makes the `CREATE TABLE`
   * statement end in a comma, which SQLite rejects before doing anything.
   */
  function SqliteSave(table: Option<Table>, data: seq<Item>, uniqueKey: Json): (res: (Option<Table>, Outcome<()>))
    ensures |data| == 0 ==> res == (table, Value(()))
    ensures |data| > 0 && res.1.Value? ==> res.0.Some?
    ensures res.1.Raised? ==> res.0 == table || (table.None? && res.0.Some? && res.0.value.rows == [])
  {
    if |data| == 0 then (table, Value(()))
    else if |Keys(data[0])| == 0 then (table, Raised)
    else
      var columns := Keys(data[0]);
      var t0 := Created(table, columns, UpsertKey(uniqueKey, columns));
      match Inserts(t0, columns, data, UpsertKey(uniqueKey, columns))
      case Raised => (Some(t0), Raised)
      case Value(t) => (Some(t), Value(()))
  }

  /** No two rows share a non-NULL value in the UNIQUE column. */
  predicate UniqueRows(t: Table) {
    t.unique.Some? ==>
      forall i, j :: 0 <= i < j < |t.rows| && Cell(t.rows[i], t.unique.value) != JNull ==>
        Cell(t.rows[i], t.unique.value) != Cell(t.rows[j], t.unique.value)
  }

  lemma InsertKeepsUnique(t: Table, columns: seq<string>, item: Item, key: Option<string>)
    requires UniqueRows(t)
    ensures InsertItem(t, columns, item, key).Value? ==> UniqueRows(InsertItem(t, columns, item, key).value)
  {
    var r := InsertItem(t, columns, item, key);
    if r.Value? && t.unique.Some? {
      var u := t.unique.value;
      var row := RowOf(columns, item);
      var v := Cell(row, u);
      if v != JNull && FindRow(t.rows, u, v).Some? {
        var j := FindRow(t.rows, u, v).value;
        OverwriteMeaning(t.rows[j], columns, item, u);
        UpdateKeepsUnique(t, j, Overwrite(t.rows[j], columns, item, u));
      } else {
        AppendKeepsUnique(t, row);
      }
    }
  }

  /** Replacing a row by one with the same key value keeps the key values distinct. */
  lemma UpdateKeepsUnique(t: Table, j: nat, row: Row)
    requires UniqueRows(t) && t.unique.Some? && j < |t.rows|
    requires Cell(row, t.unique.value) == Cell(t.rows[j], t.unique.value)
    ensures UniqueRows(t.(rows := t.rows[j := row]))
  {
    var u := t.unique.value;
    var rows' := t.rows[j := row];
    assert forall i :: 0 <= i < |rows'| ==> Cell(rows'[i], u) == Cell(t.rows[i], u);
  }

  /** Appending a row whose key value is NULL or new keeps the key values distinct. */
  lemma AppendKeepsUnique(t: Table, row: Row)
    requires UniqueRows(t) && t.unique.Some?
    requires Cell(row, t.unique.value) == JNull || FindRow(t.rows, t.unique.value, Cell(row, t.unique.value)).None?
    ensures UniqueRows(t.(rows := t.rows + [row]))
  {
    var rows' := t.rows + [row];
    assert forall i :: 0 <= i < |t.rows| ==> rows'[i] == t.rows[i];
  }

  lemma {:induction false} InsertsKeepUnique(t: Table, columns: seq<string>, data: seq<Item>, key: Option<string>)
    requires UniqueRows(t)
    ensures Inserts(t, columns, data, key).Value? ==> UniqueRows(Inserts(t, columns, data, key).value)
    decreases |data|
  {
    if |data| > 0 {
      InsertsKeepUnique(t, columns, data[..|data| - 1], key);
      var prev := Inserts(t, columns, data[..|data| - 1], key);
      if prev.Value? {
        InsertKeepsUnique(prev.value, columns, data[|data| - 1], key);
      }
    }
  }

  /** A save never lets two rows share a key value. */
  lemma SqliteSaveKeepsUnique(table: Option<Table>, data: seq<Item>, uniqueKey: Json)
    requires table.Some? ==> UniqueRows(table.value)
    ensures var (t, _) := SqliteSave(table, data, uniqueKey); t.Some? ==> UniqueRows(t.value)
  {
    if |data| > 0 {
      var columns := Keys(data[0]);
      var key := UpsertKey(uniqueKey, columns);
      var t0 := Created(table, columns, key);
      InsertsKeepUnique(t0, columns, data, key);
    }
  }

  /**
   * Inserts into a table that has every column, whose UNIQUE column is the
   * upsert key, with a well-formed upsert and bindable values, all succeed
   * and keep the table's schema.
   */
  lemma {:induction false} InsertsSucceed(t: Table, columns: seq<string>, data: seq<Item>, key: Option<string>)
    requires forall c :: c in columns ==> c in t.columns
    requires t.unique == key && (key.Some? ==> !EmptySetClause(columns, key.value))
    requires forall i, c :: 0 <= i < |data| && c in columns ==> Bindable(GetOr(data[i], c, JStr("")))
    ensures var r := Inserts(t, columns, data, key);
      r.Value? && r.value.columns == t.columns && r.value.unique == t.unique
    decreases |data|
  {
    if |data| > 0 {
      var init := data[..|data| - 1];
      assert forall i :: 0 <= i < |init| ==> init[i] == data[i];
      InsertsSucceed(t, columns, init, key);
      var item := data[|data| - 1];
      assert forall c :: c in columns ==> Cell(RowOf(columns, item), c) == GetOr(item, c, JStr(""));
    }
  }

  /**
   * A save succeeds when the first item has keys, an existing table has all
   * of them as columns and the same UNIQUE column, the upsert has a column to
   * set, and every value binds. Without an upsert key it then appends one
   * row per item, in order, after the old rows.
   */
  lemma SqliteSaveSucceeds(table: Option<Table>, data: seq<Item>, uniqueKey: Json)
    requires |data| > 0 && |Keys(data[0])| > 0
    requires table.Some? ==>
      (forall c :: c in Keys(data[0]) ==> c in table.value.columns)
      && table.value.unique == UpsertKey(uniqueKey, Keys(data[0]))
    requires UpsertKey(uniqueKey, Keys(data[0])).Some? ==>
      !EmptySetClause(Keys(data[0]), UpsertKey(uniqueKey, Keys(data[0])).value)
    requires forall i, c :: 0 <= i < |data| && c in Keys(data[0]) ==> Bindable(GetOr(data[i], c, JStr("")))
    ensures SqliteSave(table, data, uniqueKey).1 == Value(())
    ensures var t := SqliteSave(table, data, uniqueKey).0;
      var before := if table.Some? then table.value.rows else [];
      UpsertKey(uniqueKey, Keys(data[0])).None? ==>
        && t.Some?
        && |t.value.rows| == |before| + |data|
        && t.value.rows[..|before|] == before
        && forall i :: 0 <= i < |data| ==> t.value.rows[|before| + i] == RowOf(Keys(data[0]), data[i])
  {
    var columns := Keys(data[0]);
    var key := UpsertKey(uniqueKey, columns);
    var t0 := Created(table, columns, key);
    InsertsSucceed(t0, columns, data, key);
    if key.None? {
      PlainInsertsAppend(t0, columns, data);
    }
  }

  /** Without an upsert key every successful insert adds the item's row at the end. */
  lemma {:induction false} PlainInsertsAppend(t: Table, columns: seq<string>, data: seq<Item>)
    ensures var r := Inserts(t, columns, data, None);
      r.Value? ==>
        && |r.value.rows| == |t.rows| + |data|
        && r.value.rows[..|t.rows|] == t.rows
        && forall i :: 0 <= i < |data| ==> r.value.rows[|t.rows| + i] == RowOf(columns, data[i])
    decreases |data|
  {
    if |data| > 0 {
      var init := data[..|data| - 1];
      PlainInsertsAppend(t, columns, init);
      var prev := Inserts(t, columns, init, None);
      if prev.Value? {
        var r := InsertItem(prev.value, columns, data[|data| - 1], None);
        if r.Value? {
          var rows := r.value.rows;
          assert rows == prev.value.rows + [RowOf(columns, data[|data| - 1])];
          assert rows[..|t.rows|] == prev.value.rows[..|t.rows|];
          assert forall i :: 0 <= i < |init| ==> init[i] == data[i];
        }
      }
    }
  }

  /**
   * Without a usable unique key (none configured, or not among the first
   * item's columns) a successful save grows the table by exactly one row per
   * item.
   */
  lemma SqlitePlainGrows(table: Option<Table>, data: seq<Item>, uniqueKey: Json)
    requires |data| > 0 && UpsertKey(uniqueKey, Keys(data[0])).None?
    ensures var (t, r) := SqliteSave(table, data, uniqueKey);
      var before := if table.Some? then |table.value.rows| else 0;
      r.Value? ==> t.Some? && |t.value.rows| == before + |data|
  {
    var columns := Keys(data[0]);
    PlainInsertsAppend(Created(table, columns, None), columns, data);
  }

  /**
   * An upsert that meets an existing key value overwrites that row's other
   * columns with the item's values and changes no other row.
   */
  lemma UpsertOverwrites(t: Table, columns: seq<string>, item: Item, u: string, j: nat)
    requires t.unique == Some(u) && u in columns && !EmptySetClause(columns, u)
    requires forall c :: c in columns ==> c in t.columns
    requires forall c :: c in columns ==> Bindable(GetOr(item, c, JStr("")))
    requires GetOr(item, u, JStr("")) != JNull && FindRow(t.rows, u, GetOr(item, u, JStr(""))) == Some(j)
    ensures var r := InsertItem(t, columns, item, Some(u));
      && r.Value?
      && |r.value.rows| == |t.rows|
      && (forall i :: 0 <= i < |t.rows| && i != j ==> r.value.rows[i] == t.rows[i])
      && Cell(r.value.rows[j], u) == Cell(t.rows[j], u)
      && (forall c :: c in columns && c != u ==> Cell(r.value.rows[j], c) == GetOr(item, c, JStr("")))
      && (forall c :: c !in columns ==> Cell(r.value.rows[j], c) == Cell(t.rows[j], c))
  {
    InsertConflict(t, columns, item, u, j);
    OverwriteCells(t.rows[j], columns, item, u);
  }

  /**
   * An upsert whose key value is NULL or not yet in the table inserts the
   * item's row at the end, changing no existing row.
   */
  lemma UpsertAppendsNew(t: Table, columns: seq<string>, item: Item, u: string)
    requires t.unique == Some(u) && u in columns && !EmptySetClause(columns, u)
    requires forall c :: c in columns ==> c in t.columns && Bindable(GetOr(item, c, JStr("")))
    requires GetOr(item, u, JStr("")) == JNull || FindRow(t.rows, u, GetOr(item, u, JStr(""))).None?
    ensures InsertItem(t, columns, item, Some(u)) == Value(t.(rows := t.rows + [RowOf(columns, item)]))
  {
    assert Cell(RowOf(columns, item), u) == GetOr(item, u, JStr(""));
  }

  lemma InsertConflict(t: Table, columns: seq<string>, item: Item, u: string, j: nat)
    requires t.unique == Some(u) && u in columns && !EmptySetClause(columns, u)
    requires forall c :: c in columns ==> c in t.columns
    requires forall c :: c in columns ==> Bindable(GetOr(item, c, JStr("")))
    requires GetOr(item, u, JStr("")) != JNull && FindRow(t.rows, u, GetOr(item, u, JStr(""))) == Some(j)
    ensures InsertItem(t, columns, item, Some(u))
      == Value(t.(rows := t.rows[j := Overwrite(t.rows[j], columns, item, u)]))
  {
    assert Cell(RowOf(columns, item), u) == GetOr(item, u, JStr(""));
  }

  lemma OverwriteCells(row: Row, columns: seq<string>, item: Item, u: string)
    ensures var updated := Overwrite(row, columns, item, u);
      && Cell(updated, u) == Cell(row, u)
      && (forall c :: c in columns && c != u ==> Cell(updated, c) == GetOr(item, c, JStr("")))
      && (forall c :: c !in columns ==> Cell(updated, c) == Cell(row, c))
  {
    var updated := Overwrite(row, columns, item, u);
    OverwriteMeaning(row, columns, item, u);
    forall c | c in columns && c != u
      ensures Cell(updated, c) == GetOr(item, c, JStr(""))
    {
      assert Get(updated, c) == Some(GetOr(item, c, JStr("")));
    }
    forall c | c !in columns || c == u
      ensures Cell(updated, c) == Cell(row, c)
    {
      assert Get(updated, c) == Get(row, c);
    }
  }

  /** A column the item lacks is stored as the empty string. */
  lemma MissingColumnIsEmpty(columns: seq<string>, item: Item, c: string)
    requires c in columns && c !in Keys(item)
    ensures Cell(RowOf(columns, item), c) == JStr("")
  {
  }

  /** When the key is the only column the upsert statement is malformed, and the batch rolls back. */
  lemma KeyOnlyColumnFails(table: Option<Table>, data: seq<Item>, u: string)
    requires |data| > 0 && Keys(data[0]) == [u] && u != ""
    ensures SqliteSave(table, data, JStr(u)) == (Some(Created(table, [u], Some(u))), Raised)
  {
    var columns := [u];
    var t0 := Created(table, columns, Some(u));
    assert UpsertKey(JStr(u), columns) == Some(u);
    KeyOnlyInsertsFail(t0, columns, data, u);
  }

  lemma {:induction false} KeyOnlyInsertsFail(t: Table, columns: seq<string>, data: seq<Item>, u: string)
    requires |data| > 0 && EmptySetClause(columns, u)
    ensures Inserts(t, columns, data, Some(u)) == Raised
    decreases |data|
  {
    if |data| > 1 {
      KeyOnlyInsertsFail(t, columns, data[..|data| - 1], u);
    } else {
      assert data[..0] == [];
    }
  }

  /**
   * A failed save leaves the rows as they were; only a newly created table
   * remains, empty, and none is created when the first item has no keys.
   */
  lemma SqliteRollback(table: Option<Table>, data: seq<Item>, uniqueKey: Json)
    requires SqliteSave(table, data, uniqueKey).1.Raised?
    ensures var (t, _) := SqliteSave(table, data, uniqueKey);
      && (table.Some? ==> t == table)
      && (table.None? ==> (t.None? <==> |Keys(data[0])| == 0))
      && (t.Some? ==> t.value.rows == Created(table, Keys(data[0]), UpsertKey(uniqueKey, Keys(data[0]))).rows)
  {
  }

  /** A first item without keys: the save raises and leaves the database as it was. */
  lemma NoColumnsFails(table: Option<Table>, data: seq<Item>, uniqueKey: Json)
    requires |data| > 0 && Keys(data[0]) == []
    ensures SqliteSave(table, data, uniqueKey) == (table, Raised)
  {
  }

  /**
   * An item holding a list or a dict in one of the columns makes the save
   * raise (its parameter cannot be bound); the rows are rolled back.
   */
  lemma UnbindableValueFails(table: Option<Table>, data: seq<Item>, uniqueKey: Json, i: nat, c: string)
    requires i < |data| && c in Keys(data[0]) && !Bindable(GetOr(data[i], c, JStr("")))
    ensures SqliteSave(table, data, uniqueKey).1 == Raised
    ensures var t := SqliteSave(table, data, uniqueKey).0;
      t.Some? && t.value.rows == if table.Some? then table.value.rows else []
  {
    var columns := Keys(data[0]);
    var key := UpsertKey(uniqueKey, columns);
    var t0 := Created(table, columns, key);
    assert data[..i + 1][..i] == data[..i];
    assert data[..i + 1][i] == data[i];
    var prev := Inserts(t0, columns, data[..i], key);
    if prev.Value? {
      assert Cell(RowOf(columns, data[i]), c) == GetOr(data[i], c, JStr(""));
      assert InsertItem(prev.value, columns, data[i], key) == Raised;
    }
    InsertsStopAt(t0, columns, data, key, i + 1);
  }

  // ---------------------------------------------------------------------
  // The storage object
  // ---------------------------------------------------------------------

  class DataStorage {
    const settings: Settings
    const csvFormat: CsvFormat
    const dumps: Item -> string
    /** The file at the storage path, as the records it holds; `None` while it does not exist. */
    var file: Option<seq<string>>
    /** The `scraped_data` table of the database at the storage path; `None` while it does not exist. */
    var table: Option<Table>

    constructor(config: Dict<string, Json>, csvFormat: CsvFormat, dumps: Item -> string,
                file: Option<seq<string>>, table: Option<Table>)
      ensures this.settings == SettingsOf(config)
      ensures this.csvFormat == csvFormat && this.dumps == dumps
      ensures this.file == file && this.table == table
    {
      this.settings := SettingsOf(config);
      this.csvFormat := csvFormat;
      this.dumps := dumps;
      this.file := file;
      this.table := table;
    }

    /** `save`: dispatch on the storage type; any other type raises and changes nothing. */
    method Save(data: seq<Item>) returns (r: Outcome<()>)
      modifies this
      ensures SinkOf(settings.kind) == CsvSink ==>
        (file, r) == CsvSave(csvFormat, old(file), data) && table == old(table)
      ensures SinkOf(settings.kind) == JsonlSink ==>
        file == JsonlSave(dumps, old(file), data) && r == Value(()) && table == old(table)
      ensures SinkOf(settings.kind) == SqliteSink ==>
        (table, r) == SqliteSave(old(table), data, settings.uniqueKey) && file == old(file)
      ensures SinkOf(settings.kind) == UnsupportedSink ==>
        r == Raised && file == old(file) && table == old(table)
    {
      match SinkOf(settings.kind)
      case CsvSink => r := SaveCsv(data);
      case JsonlSink => SaveJsonl(data); r := Value(());
      case SqliteSink => r := SaveSqlite(data);
      case UnsupportedSink => r := Raised;
    }

    method SaveCsv(data: seq<Item>) returns (r: Outcome<()>)
      modifies this`file
      ensures (file, r) == CsvSave(csvFormat, old(file), data)
    {
      if |data| == 0 {
        return Value(());
      }
      var fields := Keys(data[0]);
      var fileExists := file.Some?;
      ghost var base := file.GetOr([]) + if fileExists then [] else [csvFormat.line(fields)];
      file := Some(file.GetOr([]));
      if !fileExists {
        file := Some(file.value + [csvFormat.line(fields)]);
      }
      assert data[..0] == [];
      assert base + [] == base;
      for i := 0 to |data|
        invariant CsvRows(csvFormat, fields, data[..i]).ok
        invariant file.Some? && file.value == base + CsvRows(csvFormat, fields, data[..i]).lines
      {
        CsvRowsSnoc(csvFormat, fields, data, i);
        var row := CsvRow(csvFormat, fields, data[i]);
        if row.Raised? {
          CsvStopsAt(csvFormat, fields, data, i + 1);
          return Raised;
        }
        ghost var lines := CsvRows(csvFormat, fields, data[..i]).lines;
        assert (base + lines) + [row.value] == base + (lines + [row.value]);
        file := Some(file.value + [row.value]);
      }
      assert data[..|data|] == data;
      r := Value(());
    }

    method SaveJsonl(data: seq<Item>)
      modifies this`file
      ensures file == JsonlSave(dumps, old(file), data)
    {
      ghost var base := file.GetOr([]);
      file := Some(file.GetOr([]));
      assert data[..0] == [];
      assert base + [] == base;
      for i := 0 to |data|
        invariant file.Some? && file.value == base + JsonLines(dumps, data[..i])
      {
        assert data[..i + 1][..i] == data[..i] && data[..i + 1][i] == data[i];
        ghost var lines := JsonLines(dumps, data[..i]);
        assert (base + lines) + [dumps(data[i])] == base + (lines + [dumps(data[i])]);
        file := Some(file.value + [dumps(data[i])]);
      }
      assert data[..|data|] == data;
    }

    method SaveSqlite(data: seq<Item>) returns (r: Outcome<()>)
      modifies this`table
      ensures (table, r) == SqliteSave(old(table), data, settings.uniqueKey)
    {
      if |data| == 0 {
        return Value(());
      }
      var columns := Keys(data[0]);
      if |columns| == 0 {
        return Raised;
      }
      var key := UpsertKey(settings.uniqueKey, columns);
      table := Some(Created(table, columns, key));
      ghost var t0 := table.value;
      var pending := table.value;
      for i := 0 to |data|
        invariant Inserts(t0, columns, data[..i], key) == Value(pending)
      {
        assert data[..i + 1][..i] == data[..i];
        var next := InsertItem(pending, columns, data[i], key);
        if next.Raised? {
          InsertsStopAt(t0, columns, data, key, i + 1);
          return Raised;
        }
        pending := next.value;
      }
      assert data[..|data|] == data;
      table := Some(pending);
      r := Value(());
    }
  }

  lemma CsvRowsSnoc(fmt: CsvFormat, fields: seq<string>, data: seq<Item>, i: nat)
    requires i < |data|
    ensures var w := CsvRows(fmt, fields, data[..i]);
      CsvRows(fmt, fields, data[..i + 1]) ==
        if !w.ok then w
        else match CsvRow(fmt, fields, data[i])
          case Raised => Written(w.lines, false)
          case Value(l) => Written(w.lines + [l], true)
  {
    assert data[..i + 1][..i] == data[..i];
    assert data[..i + 1][i] == data[i];
  }

  /** Once a prefix of the records fails, the whole batch has failed with the same records. */
  lemma {:induction false} CsvStopsAt(fmt: CsvFormat, fields: seq<string>, data: seq<Item>, n: nat)
    requires n <= |data| && !CsvRows(fmt, fields, data[..n]).ok
    ensures CsvRows(fmt, fields, data) == CsvRows(fmt, fields, data[..n])
    decreases |data| - n
  {
    if n == |data| {
      assert data[..n] == data;
    } else {
      assert data[..n + 1][..n] == data[..n];
      CsvStopsAt(fmt, fields, data, n + 1);
    }
  }

  /** Once a prefix of the inserts raises, the whole batch raises. */
  lemma {:induction false} InsertsStopAt(t: Table, columns: seq<string>, data: seq<Item>, key: Option<string>, n: nat)
    requires n <= |data| && Inserts(t, columns, data[..n], key).Raised?
    ensures Inserts(t, columns, data, key).Raised?
    decreases |data| - n
  {
    if n == |data| {
      assert data[..n] == data;
    } else {
      assert data[..n + 1][..n] == data[..n];
      InsertsStopAt(t, columns, data, key, n + 1);
    }
  }
}
