/** One tab of the spreadsheet: rows in order, the operations of the in-memory client on it, and
    the keyed table that the tab stands for. */
module SheetTab {
  import opened Basics
  import opened Decimal

  /** A dictionary: its keys in insertion order, and its values. */
  datatype Row = Row(keys: seq<string>, cells: map<string, string>)

  type Tab = seq<Row>

  datatype SheetError = KeyError

  predicate Holds(row: Row, column: string, v: string) {
    column in row.cells && row.cells[column] == v
  }

  function Cell(row: Row, column: string): string {
    if column in row.cells then row.cells[column] else ""
  }

  /** `{h: row.get(h, "") for h in headers}` */
  function Project(headers: seq<string>, row: Row): Row {
    Row(headers, CellsUnder(headers, row))
  }

  function CellsUnder(headers: seq<string>, row: Row): (cells: map<string, string>)
    ensures cells.Keys == set h | h in headers
    ensures forall h <- headers :: cells[h] == Cell(row, h)
  {
    map h | h in headers :: Cell(row, h)
  }

  /** `dict(zip(headers, values))` for distinct headers; the shorter list decides. */
  function Zip(headers: seq<string>, values: seq<string>): Row {
    if headers == [] || values == [] then Row([], map[])
    else
      var rest := Zip(headers[1..], values[1..]);
      Row([headers[0]] + rest.keys, rest.cells[headers[0] := values[0]])
  }

  /** The first row with that key, or the length of the tab. */
  function Find(tab: Tab, pk: string, v: string): (i: nat)
    ensures i <= |tab|
    ensures i < |tab| ==> Holds(tab[i], pk, v)
    ensures forall j :: 0 <= j < i ==> !Holds(tab[j], pk, v)
  {
    if tab == [] || Holds(tab[0], pk, v) then 0 else Find(tab[1..], pk, v) + 1
  }

  // ---------------------------------------------------------------------------
  // The client
  // ---------------------------------------------------------------------------

  function AppendRow(tab: Tab, row: Row): Tab {
    tab + [row]
  }

  /** With a key column given, a row whose key is in use is not appended. */
  function AppendGuarded(tab: Tab, row: Row, pk: string): Result<Tab, SheetError> {
    if pk !in row.cells then Err(KeyError)
    else if Find(tab, pk, row.cells[pk]) < |tab| then Ok(tab)
    else Ok(tab + [row])
  }

  /** The first row with the key is replaced, under the headers of the first row of all. */
  function UpdateRow(tab: Tab, pk: string, v: string, row: Row): Result<Tab, SheetError> {
    var i := Find(tab, pk, v);
    if i == |tab| then Err(KeyError) else Ok(tab[i := Project(tab[0].keys, row)])
  }

  /** An empty tab takes numbers for headers. */
  function Headers(tab: Tab, values: seq<seq<string>>): seq<string> {
    if tab != [] then tab[0].keys
    else if values == [] then []
    else seq(|values[0]|, i requires 0 <= i => Print(i))
  }

  function AppendRows(tab: Tab, values: seq<seq<string>>): Tab {
    tab + Zipped(Headers(tab, values), values)
  }

  function Zipped(headers: seq<string>, values: seq<seq<string>>): (rows: Tab)
    ensures |rows| == |values|
    ensures forall i :: 0 <= i < |rows| ==> rows[i] == Zip(headers, values[i])
  {
    seq(|values|, i requires 0 <= i < |values| => Zip(headers, values[i]))
  }

  /** The bound that a slice end stands for: a negative one counts from the end of the list. */
  function SliceEnd(i: int, n: nat): (k: nat)
    ensures k <= n
  {
    if i < 0 then (if i + n < 0 then 0 else i + n) else if i > n then n else i
  }

  /** `del rows[max(0, start - 2) : end - 1]` */
  function DeleteRows(tab: Tab, start: int, end: int): Tab {
    var lo := SliceEnd(if start < 2 then 0 else start - 2, |tab|);
    var hi := SliceEnd(end - 1, |tab|);
    if lo < hi then tab[..lo] + tab[hi..] else tab
  }

  // ---------------------------------------------------------------------------
  // The repositories' use of it
  // ---------------------------------------------------------------------------

  function Upsert(tab: Tab, row: Row, pk: string): Result<Tab, SheetError> {
    if pk !in row.cells then Err(KeyError)
    else if Find(tab, pk, row.cells[pk]) < |tab| then UpdateRow(tab, pk, row.cells[pk], row)
    else Ok(AppendRow(tab, row))
  }

  function CellsOf(row: Row, columns: seq<string>): (values: seq<string>)
    ensures |values| == |columns|
  {
    if columns == [] then [] else [Cell(row, columns[0])] + CellsOf(row, columns[1..])
  }

  function AddMany(tab: Tab, rows: seq<Row>, columns: seq<string>): Tab {
    if rows == [] then tab
    else AppendRows(tab, CellLists(rows, columns))
  }

  function CellLists(rows: seq<Row>, columns: seq<string>): (lists: seq<seq<string>>)
    ensures |lists| == |rows|
    ensures forall i :: 0 <= i < |rows| ==> lists[i] == CellsOf(rows[i], columns)
  {
    seq(|rows|, i requires 0 <= i < |rows| => CellsOf(rows[i], columns))
  }

  /** Row 1 of the sheet is the header, so that row `i` of the list is row `i + 2`. */
  function DeleteByPk(tab: Tab, pk: string, v: string): Tab {
    var i := Find(tab, pk, v);
    if i == |tab| then tab else DeleteRows(tab, i + 2, i + 2)
  }

  const FEEDBACK := "AI_Feedback"

  /** `updated[column] = v` */
  function WithCell(row: Row, column: string, v: string): Row {
    Row(if column in row.cells then row.keys else row.keys + [column], row.cells[column := v])
  }

  /** The row is taken from a listing, which may be older than the tab, and written back whole. */
  function WriteFeedback(tab: Tab, listed: Tab, pk: string, v: string, text: string): Result<Tab, SheetError> {
    var i := Find(listed, pk, v);
    if i == |listed| then Err(KeyError) else UpdateRow(tab, pk, v, WithCell(listed[i], FEEDBACK, text))
  }

  // ---------------------------------------------------------------------------
  // Row numbers
  // ---------------------------------------------------------------------------

  /** The rows whose sheet number is not between `start` and `end`; the first row has number `n`. */
  function RowsOutside<T>(rows: seq<T>, n: nat, start: int, end: int): seq<T> {
    if rows == [] then []
    else (if start <= n <= end then [] else [rows[0]]) + RowsOutside(rows[1..], n + 1, start, end)
  }

  lemma {:induction false} OutsideSplits<T>(a: seq<T>, b: seq<T>, n: nat, start: int, end: int)
    ensures RowsOutside(a + b, n, start, end)
            == RowsOutside(a, n, start, end) + RowsOutside(b, n + |a|, start, end)
  {
    if a == [] {
      assert a + b == b;
    } else {
      var head := if start <= n <= end then [] else [a[0]];
      assert (a + b)[1..] == a[1..] + b;
      calc {
        RowsOutside(a + b, n, start, end);
        head + RowsOutside(a[1..] + b, n + 1, start, end);
        { OutsideSplits(a[1..], b, n + 1, start, end); }
        head + (RowsOutside(a[1..], n + 1, start, end) + RowsOutside(b, n + |a|, start, end));
        (head + RowsOutside(a[1..], n + 1, start, end)) + RowsOutside(b, n + |a|, start, end);
      }
    }
  }

  lemma {:induction false} AllOutside<T>(a: seq<T>, n: nat, start: int, end: int)
    requires a != [] ==> start > end || n + |a| <= start || end < n
    ensures RowsOutside(a, n, start, end) == a
  {
    if a != [] {
      assert a == [a[0]] + a[1..];
      AllOutside(a[1..], n + 1, start, end);
    }
  }

  lemma {:induction false} AllInside<T>(a: seq<T>, n: nat, start: int, end: int)
    requires start <= n && n + |a| - 1 <= end
    ensures RowsOutside(a, n, start, end) == []
  {
    if a != [] {
      AllInside(a[1..], n + 1, start, end);
    }
  }

  lemma MiddleGoes<T>(a: seq<T>, b: seq<T>, c: seq<T>, start: int, end: int)
    requires start <= 2 + |a| && (a != [] ==> start == 2 + |a|)
    requires 1 + |a| + |b| <= end && (c != [] ==> end == 1 + |a| + |b|)
    ensures RowsOutside(a + (b + c), 2, start, end) == a + c
  {
    assert RowsOutside(a, 2, start, end) == a by {
      AllOutside(a, 2, start, end);
    }
    assert RowsOutside(b, 2 + |a|, start, end) == [] by {
      AllInside(b, 2 + |a|, start, end);
    }
    assert RowsOutside(c, 2 + |a| + |b|, start, end) == c by {
      AllOutside(c, 2 + |a| + |b|, start, end);
    }
    assert RowsOutside(b + c, 2 + |a|, start, end) == c by {
      OutsideSplits(b, c, 2 + |a|, start, end);
    }
    OutsideSplits(a, b + c, 2, start, end);
  }

  /** A range deletes exactly the rows with those sheet numbers if and only if it ends on the sheet,
      or is empty all the same: an end of zero or less counts from the bottom of the tab. */
  lemma DeletesRangeIff(tab: Tab, start: int, end: int)
    ensures DeleteRows(tab, start, end) == RowsOutside(tab, 2, start, end)
            <==> end >= 1 || (if start < 2 then 0 else start - 2) >= |tab| + end - 1
  {
    var lo := SliceEnd(if start < 2 then 0 else start - 2, |tab|);
    var hi := SliceEnd(end - 1, |tab|);
    if end < 1 || lo >= hi {
      AllOutside(tab, 2, start, end);
    } else {
      var a, b, c := tab[..lo], tab[lo..hi], tab[hi..];
      assert RowsOutside(a + (b + c), 2, start, end) == a + c by {
        MiddleGoes(a, b, c, start, end);
      }
      assert tab == a + (b + c);
    }
  }

  // ---------------------------------------------------------------------------
  // Full-width tabs with unique keys
  // ---------------------------------------------------------------------------

  predicate Distinct(columns: seq<string>) {
    forall i, j :: 0 <= i < j < |columns| ==> columns[i] != columns[j]
  }

  predicate FullWidth(row: Row, columns: seq<string>) {
    row.keys == columns && row.cells.Keys == set c | c in columns
  }

  /** What a tab stands for: keys in order, and a row for each. */
  datatype Table = Table(order: seq<string>, rows: map<string, Row>)

  /** The table determines the tab, and the tab the table. */
  predicate Represents(tab: Tab, t: Table, pk: string) {
    && |t.order| == |tab| && Distinct(t.order)
    && (forall k <- t.rows :: k in t.order)
    && (forall i :: 0 <= i < |tab| ==> Holds(tab[i], pk, t.order[i]))
    && (forall i :: 0 <= i < |tab| ==> t.order[i] in t.rows && t.rows[t.order[i]] == tab[i])
  }

  predicate Wide(tab: Tab, columns: seq<string>) {
    forall i :: 0 <= i < |tab| ==> FullWidth(tab[i], columns)
  }

  datatype Op = Upserting(row: Row) | Adding(row: Row) | Deleting(key: string)

  function ApplyToTab(tab: Tab, op: Op, pk: string): Tab {
    match op
    case Upserting(row) => (match Upsert(tab, row, pk) case Ok(t) => t case Err(_) => tab)
    case Adding(row) => (match AppendGuarded(tab, row, pk) case Ok(t) => t case Err(_) => tab)
    case Deleting(key) => DeleteByPk(tab, pk, key)
  }

  function Without<T(==)>(order: seq<T>, key: T): seq<T> {
    if order == [] then []
    else (if order[0] == key then [] else [order[0]]) + Without(order[1..], key)
  }

  function ApplyToTable(t: Table, op: Op, pk: string): Table {
    match op
    case Upserting(row) =>
      var k := Cell(row, pk);
      Table(if k in t.rows then t.order else t.order + [k], t.rows[k := row])
    case Adding(row) =>
      var k := Cell(row, pk);
      if k in t.rows then t else Table(t.order + [k], t.rows[k := row])
    case Deleting(key) => Table(Without(t.order, key), t.rows - {key})
  }

  predicate OpOk(op: Op, columns: seq<string>) {
    op.Deleting? || FullWidth(op.row, columns)
  }

  /** Exactly the full-width tabs in which no key occurs twice stand for a table. */
  lemma {:induction false} RepresentsSome(tab: Tab, pk: string) returns (t: Table)
    requires forall i :: 0 <= i < |tab| ==> pk in tab[i].cells
    requires forall i, j :: 0 <= i < j < |tab| ==> tab[i].cells[pk] != tab[j].cells[pk]
    ensures Represents(tab, t, pk)
  {
    if tab == [] {
      t := Table([], map[]);
    } else {
      var front, last := tab[..|tab| - 1], tab[|tab| - 1];
      var before := RepresentsSome(front, pk);
      t := Table(before.order + [last.cells[pk]], before.rows[last.cells[pk] := last]);
      assert tab == front + [last];
      AppendRefines(front, before, last, pk);
    }
  }

  lemma FindsKey(tab: Tab, t: Table, pk: string, v: string)
    requires Represents(tab, t, pk)
    ensures Find(tab, pk, v) < |tab| <==> v in t.rows
    ensures Find(tab, pk, v) < |tab| ==> t.order[Find(tab, pk, v)] == v
  {
    forall j | 0 <= j < |tab| ensures Holds(tab[j], pk, v) <==> t.order[j] == v {
      assert Holds(tab[j], pk, t.order[j]);
    }
  }

  lemma AppendRefines(tab: Tab, t: Table, row: Row, pk: string)
    requires Represents(tab, t, pk) && pk in row.cells
    requires forall i :: 0 <= i < |tab| ==> !Holds(tab[i], pk, row.cells[pk])
    ensures Represents(tab + [row], Table(t.order + [row.cells[pk]], t.rows[row.cells[pk] := row]), pk)
  {
    forall i | 0 <= i < |tab| ensures t.order[i] != row.cells[pk] {
      assert Holds(tab[i], pk, t.order[i]);
    }
  }

  lemma UpdateRefines(tab: Tab, t: Table, row: Row, i: nat, pk: string)
    requires Represents(tab, t, pk) && pk in row.cells && i < |tab| && t.order[i] == row.cells[pk]
    ensures Represents(tab[i := row], Table(t.order, t.rows[row.cells[pk] := row]), pk)
  {
  }

  function RemoveAt<T>(s: seq<T>, i: nat): (r: seq<T>)
    requires i < |s|
    ensures |r| == |s| - 1
    ensures forall j :: 0 <= j < |r| ==> r[j] == s[if j < i then j else j + 1]
    ensures forall j :: 0 <= j < |s| && j != i ==> s[j] in r
  {
    var r := s[..i] + s[i + 1..];
    assert forall j :: 0 <= j < |s| && j != i ==> s[j] == r[if j < i then j else j - 1];
    r
  }

  lemma {:induction false} WithoutOne<T>(a: seq<T>, key: T, b: seq<T>)
    requires key !in a && key !in b
    ensures Without(a + ([key] + b), key) == a + b
  {
    if a == [] {
      WithoutAbsent(b, key);
      assert a + ([key] + b) == [key] + b && a + b == b;
    } else {
      WithoutOne(a[1..], key, b);
      assert (a + ([key] + b))[1..] == a[1..] + ([key] + b);
      assert [a[0]] + (a[1..] + b) == a + b;
    }
  }

  lemma DistinctApart(order: seq<string>, i: nat)
    requires Distinct(order) && i < |order|
    ensures order[i] !in order[..i] && order[i] !in order[i + 1..]
  {
  }

  lemma CutAt<T>(s: seq<T>, i: nat)
    requires i < |s|
    ensures s == s[..i] + ([s[i]] + s[i + 1..])
  {
  }

  lemma WithoutIs<T>(order: seq<T>, a: seq<T>, key: T, b: seq<T>)
    requires order == a + ([key] + b) && key !in a && key !in b
    ensures Without(order, key) == a + b
  {
    WithoutOne(a, key, b);
  }

  lemma {:induction false} WithoutAbsent<T>(order: seq<T>, key: T)
    requires key !in order
    ensures Without(order, key) == order
  {
    if order != [] {
      WithoutAbsent(order[1..], key);
      assert order == [order[0]] + order[1..];
    }
  }

  lemma DistinctWithout(order: seq<string>, i: nat)
    requires Distinct(order) && i < |order|
    ensures Distinct(RemoveAt(order, i)) && order[i] !in RemoveAt(order, i)
  {
  }

  lemma RemoveRefines(tab: Tab, t: Table, i: nat, pk: string)
    requires Represents(tab, t, pk) && i < |tab|
    ensures Represents(RemoveAt(tab, i), Table(Without(t.order, t.order[i]), t.rows - {t.order[i]}), pk)
  {
    var rest, order, rows := RemoveAt(tab, i), RemoveAt(t.order, i), t.rows - {t.order[i]};
    DistinctApart(t.order, i);
    CutAt(t.order, i);
    WithoutIs(t.order, t.order[..i], t.order[i], t.order[i + 1..]);
    DistinctWithout(t.order, i);
    forall j | 0 <= j < |rest|
      ensures Holds(rest[j], pk, order[j]) && order[j] in rows && rows[order[j]] == rest[j]
    {
      var k := if j < i then j else j + 1;
      assert rest[j] == tab[k] && order[j] == t.order[k];
      assert Holds(tab[k], pk, t.order[k]);
    }
  }

  lemma ProjectSame(row: Row, columns: seq<string>)
    requires FullWidth(row, columns)
    ensures Project(columns, row) == row
  {
    assert CellsUnder(columns, row) == row.cells;
  }

  lemma UpsertKeepsWide(tab: Tab, row: Row, columns: seq<string>, pk: string)
    requires Wide(tab, columns) && FullWidth(row, columns) && pk in columns
    ensures Wide(ApplyToTab(tab, Upserting(row), pk), columns)
  {
    var i := Find(tab, pk, row.cells[pk]);
    if i < |tab| {
      assert FullWidth(tab[0], columns);
      ProjectSame(row, columns);
      WideUpdate(tab, i, row, columns);
    } else {
      WideAppend(tab, row, columns);
    }
  }

  lemma WideUpdate(tab: Tab, i: nat, row: Row, columns: seq<string>)
    requires Wide(tab, columns) && FullWidth(row, columns) && i < |tab|
    ensures Wide(tab[i := row], columns)
  {
  }

  lemma WideAppend(tab: Tab, row: Row, columns: seq<string>)
    requires Wide(tab, columns) && FullWidth(row, columns)
    ensures Wide(tab + [row], columns)
  {
  }

  lemma WideRemove(tab: Tab, i: nat, columns: seq<string>)
    requires Wide(tab, columns) && i < |tab|
    ensures Wide(RemoveAt(tab, i), columns)
  {
  }

  lemma WideOp(tab: Tab, op: Op, columns: seq<string>, pk: string)
    requires Wide(tab, columns) && OpOk(op, columns) && pk in columns
    ensures Wide(ApplyToTab(tab, op, pk), columns)
  {
    match op
    case Upserting(row) => UpsertKeepsWide(tab, row, columns, pk);
    case Adding(row) => WideAppend(tab, row, columns);
    case Deleting(key) =>
      var i := Find(tab, pk, key);
      if i < |tab| {
        WideRemove(tab, i, columns);
      }
  }

  lemma DeleteRefines(tab: Tab, t: Table, key: string, pk: string)
    requires Represents(tab, t, pk)
    ensures Represents(DeleteByPk(tab, pk, key), ApplyToTable(t, Deleting(key), pk), pk)
  {
    FindsKey(tab, t, pk, key);
    var i := Find(tab, pk, key);
    if i < |tab| {
      RemoveRefines(tab, t, i, pk);
    } else {
      assert key !in t.order;
      WithoutAbsent(t.order, key);
    }
  }

  /** Each operation on the tab is the operation on the keyed table: an upsert is a map update that
      keeps the place of a known key, a guarded append inserts if absent, and a delete by key removes
      that row alone and keeps the order of the rest.  Keys stay unique. */
  lemma OpRefines(tab: Tab, t: Table, op: Op, columns: seq<string>, pk: string)
    requires Represents(tab, t, pk) && Wide(tab, columns) && OpOk(op, columns) && pk in columns
    ensures Represents(ApplyToTab(tab, op, pk), ApplyToTable(t, op, pk), pk)
  {
    if op.Deleting? {
      DeleteRefines(tab, t, op.key, pk);
    } else {
      FindsKey(tab, t, pk, Cell(op.row, pk));
      var i := Find(tab, pk, Cell(op.row, pk));
      if i == |tab| {
        AppendRefines(tab, t, op.row, pk);
      } else if op.Upserting? {
        assert FullWidth(tab[0], columns);
        ProjectSame(op.row, columns);
        UpdateRefines(tab, t, op.row, i, pk);
      }
    }
  }

  function RunOnTab(tab: Tab, ops: seq<Op>, pk: string): Tab
    decreases |ops|
  {
    if ops == [] then tab else RunOnTab(ApplyToTab(tab, ops[0], pk), ops[1..], pk)
  }

  function RunOnTable(t: Table, ops: seq<Op>, pk: string): Table
    decreases |ops|
  {
    if ops == [] then t else RunOnTable(ApplyToTable(t, ops[0], pk), ops[1..], pk)
  }

  lemma {:induction false} TabRefinesTable(tab: Tab, t: Table, ops: seq<Op>, columns: seq<string>, pk: string)
    requires Represents(tab, t, pk) && Wide(tab, columns) && pk in columns
    requires forall i :: 0 <= i < |ops| ==> OpOk(ops[i], columns)
    ensures Represents(RunOnTab(tab, ops, pk), RunOnTable(t, ops, pk), pk)
    decreases |ops|
  {
    if ops != [] {
      WideOp(tab, ops[0], columns, pk);
      OpRefines(tab, t, ops[0], columns, pk);
      TabRefinesTable(ApplyToTab(tab, ops[0], pk), ApplyToTable(t, ops[0], pk), ops[1..], columns, pk);
    }
  }

  // ---------------------------------------------------------------------------
  // Feedback
  // ---------------------------------------------------------------------------

  /** The rows agree in every column but that of the feedback. */
  predicate AgreeElsewhere(a: Row, b: Row, columns: seq<string>) {
    forall c <- columns :: c != FEEDBACK ==> Cell(a, c) == Cell(b, c)
  }

  lemma SameFeedbackIff(a: Row, b: Row, columns: seq<string>, text: string)
    requires FullWidth(a, columns) && FullWidth(b, columns) && FEEDBACK in columns
    ensures WithCell(a, FEEDBACK, text) == WithCell(b, FEEDBACK, text) <==> AgreeElsewhere(a, b, columns)
  {
    var x, y := WithCell(a, FEEDBACK, text), WithCell(b, FEEDBACK, text);
    if AgreeElsewhere(a, b, columns) {
      assert x.cells == y.cells;
    } else {
      var c :| c in columns && c != FEEDBACK && Cell(a, c) != Cell(b, c);
      assert Cell(x, c) != Cell(y, c);
    }
  }

  lemma FeedbackKeepsWidth(row: Row, columns: seq<string>, text: string)
    requires FullWidth(row, columns) && FEEDBACK in columns
    ensures Project(columns, WithCell(row, FEEDBACK, text)) == WithCell(row, FEEDBACK, text)
  {
  }

  /** Writing feedback changes that cell and nothing else exactly when the listing it starts from is
      up to date in that row; otherwise it also puts back the older cells. */
  lemma FeedbackTouchesOneCellIff(tab: Tab, listed: Tab, columns: seq<string>, pk: string, v: string, text: string)
    requires Wide(tab, columns) && Wide(listed, columns) && FEEDBACK in columns
    requires Find(tab, pk, v) < |tab| && Find(listed, pk, v) < |listed|
    ensures var j := Find(tab, pk, v);
            WriteFeedback(tab, listed, pk, v, text) == Ok(tab[j := WithCell(tab[j], FEEDBACK, text)])
            <==> AgreeElsewhere(tab[j], listed[Find(listed, pk, v)], columns)
  {
    var j, given := Find(tab, pk, v), listed[Find(listed, pk, v)];
    var wanted, written := WithCell(tab[j], FEEDBACK, text), WithCell(given, FEEDBACK, text);
    FeedbackKeepsWidth(given, columns, text);
    SameFeedbackIff(tab[j], given, columns, text);
    assert tab[j := written][j] == written && tab[j := wanted][j] == wanted;
  }

  // ---------------------------------------------------------------------------
  // Bulk append
  // ---------------------------------------------------------------------------

  lemma CellsUnderMore(first: string, rest: seq<string>, row: Row)
    ensures CellsUnder([first] + rest, row) == CellsUnder(rest, row)[first := Cell(row, first)]
  {
  }

  lemma {:induction false} ZipOfCells(row: Row, columns: seq<string>)
    ensures Zip(columns, CellsOf(row, columns)) == Project(columns, row)
  {
    if columns != [] {
      var first, rest := columns[0], columns[1..];
      ZipOfCells(row, rest);
      assert columns == [first] + rest;
      CellsUnderMore(first, rest, row);
      assert CellsOf(row, columns)[1..] == CellsOf(row, rest);
    }
  }

  lemma {:induction false} ZipKeys(headers: seq<string>, values: seq<string>)
    requires |headers| == |values|
    ensures Zip(headers, values).keys == headers
  {
    if headers != [] {
      ZipKeys(headers[1..], values[1..]);
    }
  }

  /** A bulk append adds the rows under the columns exactly when the tab is not empty: on an empty
      tab the rows get numbers for headers, and so no key at all. */
  lemma AddManyAppendsIff(tab: Tab, rows: seq<Row>, columns: seq<string>)
    requires columns != [] && columns[0] != "0" && rows != []
    requires forall i :: 0 <= i < |tab| ==> FullWidth(tab[i], columns)
    ensures AddMany(tab, rows, columns) == tab + seq(|rows|, i requires 0 <= i < |rows| => Project(columns, rows[i]))
            <==> tab != []
  {
    forall i | 0 <= i < |rows|
      ensures tab != [] ==> AddMany(tab, rows, columns)[|tab| + i] == Project(columns, rows[i])
    {
      ZipOfCells(rows[i], columns);
    }
    if tab == [] {
      var headers: seq<string> := seq(|columns|, i requires 0 <= i => Print(i));
      ZipKeys(headers, CellsOf(rows[0], columns));
      assert AddMany(tab, rows, columns)[0] == Zip(headers, CellsOf(rows[0], columns));
      assert headers[0] == Print(0) == "0";
    }
  }
}
