/** What the repositories' calls do to the keyed table that their tab stands for, one call at a time and
    over runs. */
module SheetKeys {
  import opened Basics
  import opened SheetCache
  import opened SheetRepos
  import ST = SheetTab

  type Row = ST.Row

  type Table = ST.Table

  /** The repository's tab has rows of full width that stand for the keyed table. */
  predicate Stands(s: Sheets, c: Config, t: Table) {
    c.pk in c.columns && ST.Represents(TabIn(s.tabs, c.tab), t, c.pk) && ST.Wide(TabIn(s.tabs, c.tab), c.columns)
  }

  /** The row is put in the place of the one with its key, or at the end. */
  function Put(t: Table, k: string, row: Row): Table {
    ST.Table(if k in t.rows then t.order else t.order + [k], t.rows[k := row])
  }

  lemma WroteIs(s: Sheets, c: Config, rows: ST.Tab, keys: seq<string>)
    ensures TabIn(Wrote(s, c, rows, keys).tabs, c.tab) == rows
  {
  }

  lemma OpStands(s: Sheets, c: Config, t: Table, op: ST.Op)
    requires Stands(s, c, t) && ST.OpOk(op, c.columns)
    ensures ST.Represents(ST.ApplyToTab(TabIn(s.tabs, c.tab), op, c.pk), ST.ApplyToTable(t, op, c.pk), c.pk)
    ensures ST.Wide(ST.ApplyToTab(TabIn(s.tabs, c.tab), op, c.pk), c.columns)
  {
    ST.OpRefines(TabIn(s.tabs, c.tab), t, op, c.columns, c.pk);
    ST.WideOp(TabIn(s.tabs, c.tab), op, c.columns, c.pk);
  }

  // ---------------------------------------------------------------------------
  // One call
  // ---------------------------------------------------------------------------

  /** An upsert replaces the row with that key, where it stands, or adds the row at the end. */
  lemma UpsertIs(s: Sheets, c: Config, t: Table, row: Row, ttl: Time)
    requires Stands(s, c, t) && ST.FullWidth(row, c.columns)
    ensures c.pk in row.cells && Stands(CallOn(s, c, Call.Upserting(row), ttl), c, Put(t, row.cells[c.pk], row))
  {
    assert c.pk in row.cells;
    OpStands(s, c, t, ST.Op.Upserting(row));
    WroteIs(s, c, ST.ApplyToTab(TabIn(s.tabs, c.tab), ST.Op.Upserting(row), c.pk), c.keys);
  }

  /** An upsert of a key in use leaves the tab's columns as they are, whatever columns the row has. */
  lemma UpdateIs(s: Sheets, c: Config, t: Table, row: Row, ttl: Time)
    requires Stands(s, c, t) && c.pk in row.cells && row.cells[c.pk] in t.rows
    ensures Stands(CallOn(s, c, Call.Upserting(row), ttl), c, Put(t, row.cells[c.pk], ST.Project(c.columns, row)))
  {
    var before, key, placed := TabIn(s.tabs, c.tab), row.cells[c.pk], ST.Project(c.columns, row);
    ST.FindsKey(before, t, c.pk, key);
    var i := ST.Find(before, c.pk, key);
    ProjectIsWide(row, c.columns, c.pk);
    assert ST.FullWidth(before[0], c.columns);
    ST.UpdateRefines(before, t, placed, i, c.pk);
    ST.WideUpdate(before, i, placed, c.columns);
    WroteIs(s, c, before[i := placed], c.keys);
  }

  lemma ProjectIsWide(row: Row, columns: seq<string>, pk: string)
    requires pk in columns
    ensures ST.FullWidth(ST.Project(columns, row), columns)
    ensures pk in ST.Project(columns, row).cells && ST.Project(columns, row).cells[pk] == ST.Cell(row, pk)
  {
  }

  /** A shot is added, brought to the columns, unless its key is in use. */
  lemma AddShotIs(s: Sheets, c: Config, t: Table, row: Row, ttl: Time)
    requires Stands(s, c, t)
    ensures var k := ST.Cell(row, c.pk);
      Stands(CallOn(s, c, AddingShot(row), ttl), c, if k in t.rows then t else Put(t, k, ST.Project(c.columns, row)))
  {
    var placed := ST.Project(c.columns, row);
    ProjectIsWide(row, c.columns, c.pk);
    OpStands(s, c, t, ST.Op.Adding(placed));
    WroteIs(s, c, ST.ApplyToTab(TabIn(s.tabs, c.tab), ST.Op.Adding(placed), c.pk), c.keys);
  }

  /** A deletion by key takes that row out and leaves the others in order. */
  lemma DeleteIs(s: Sheets, c: Config, t: Table, key: string, ttl: Time)
    requires Stands(s, c, t)
    ensures Stands(CallOn(s, c, DeletingByPk(c.pk, key), ttl), c, ST.Table(ST.Without(t.order, key), t.rows - {key}))
  {
    OpStands(s, c, t, ST.Op.Deleting(key));
    WroteIs(s, c, ST.ApplyToTab(TabIn(s.tabs, c.tab), ST.Op.Deleting(key), c.pk), c.bulkKeys);
  }

  /** An unguarded append adds the row at the end; the tab stays keyed if and only if its key was not in use. */
  lemma AddIs(s: Sheets, c: Config, t: Table, row: Row, ttl: Time)
    requires Stands(s, c, t) && ST.FullWidth(row, c.columns)
    ensures var after := CallOn(s, c, Call.Adding(row), ttl);
      && TabIn(after.tabs, c.tab) == TabIn(s.tabs, c.tab) + [row]
      && c.pk in row.cells
      && (row.cells[c.pk] !in t.rows ==> Stands(after, c, Put(t, row.cells[c.pk], row)))
      && (row.cells[c.pk] in t.rows ==> forall u :: !ST.Represents(TabIn(after.tabs, c.tab), u, c.pk))
  {
    assert c.pk in row.cells;
    var before, key := TabIn(s.tabs, c.tab), row.cells[c.pk];
    ST.FindsKey(before, t, c.pk, key);
    WroteIs(s, c, before + [row], c.keys);
    if key !in t.rows {
      OpStands(s, c, t, ST.Op.Adding(row));
    } else {
      var i := ST.Find(before, c.pk, key);
      forall u ensures !ST.Represents(before + [row], u, c.pk) {
        assert (before + [row])[i] == before[i] && (before + [row])[|before|] == row;
      }
    }
  }

  /** The row with feedback, back in its place. */
  lemma FeedbackRow(tab: ST.Tab, t: Table, columns: seq<string>, pk: string, i: nat, text: string)
    requires ST.Represents(tab, t, pk) && ST.Wide(tab, columns) && i < |tab| && pk in columns
    requires "AI_Feedback" in columns && pk != "AI_Feedback"
    ensures var row := ST.WithCell(tab[i], "AI_Feedback", text);
      && ST.Project(tab[0].keys, row) == row
      && ST.Represents(tab[i := row], Put(t, t.order[i], row), pk) && ST.Wide(tab[i := row], columns)
  {
    var row := ST.WithCell(tab[i], "AI_Feedback", text);
    assert ST.FullWidth(tab[i], columns) && ST.FullWidth(tab[0], columns);
    ST.FeedbackKeepsWidth(tab[i], columns, text);
    assert ST.Holds(tab[i], pk, t.order[i]);
    ST.UpdateRefines(tab, t, row, i, pk);
    assert ST.FullWidth(row, columns);
    ST.WideUpdate(tab, i, row, columns);
  }

  /** Feedback, written from a list that shows the tab, changes that cell of that row and nothing else; for a
      shot that is not there it is an error. */
  lemma FeedbackIs(s: Sheets, c: Config, t: Table, shot: string, text: string, now: Time, later: Time, ttl: Time)
    requires Stands(s, c, t) && "AI_Feedback" in c.columns && c.pk != "AI_Feedback" && c.keys != []
    requires Fetched(s.tabs, s.cache, ttl, c.tab, c.keys[0], now) == TabIn(s.tabs, c.tab)
    ensures Stands(CallOn(s, c, WritingFeedback(shot, text, now, later), ttl), c,
                   if shot in t.rows then Put(t, shot, ST.WithCell(t.rows[shot], "AI_Feedback", text)) else t)
  {
    var before := TabIn(s.tabs, c.tab);
    ST.FindsKey(before, t, c.pk, shot);
    var i := ST.Find(before, c.pk, shot);
    var listed := AfterListing(s, c, c.keys[0], now, later, ttl);
    if i < |before| {
      var row := ST.WithCell(before[i], "AI_Feedback", text);
      FeedbackRow(before, t, c.columns, c.pk, i, text);
      assert FeedbackOn(s, c, shot, text, now, ttl) == Ok(before[i := row]);
      WroteIs(listed, c, before[i := row], c.keys);
    } else {
      assert FeedbackOn(s, c, shot, text, now, ttl).Err?;
    }
  }

  /** A bulk append to a tab with rows adds the rows, brought to the columns, at the end. */
  lemma AddManyIs(s: Sheets, c: Config, rows: ST.Tab, ttl: Time)
    requires ST.Wide(TabIn(s.tabs, c.tab), c.columns) && TabIn(s.tabs, c.tab) != []
    requires c.columns != [] && c.columns[0] != "0"
    ensures TabIn(CallOn(s, c, AddingMany(rows), ttl).tabs, c.tab)
            == TabIn(s.tabs, c.tab) + seq(|rows|, i requires 0 <= i < |rows| => ST.Project(c.columns, rows[i]))
  {
    if rows != [] {
      ST.AddManyAppendsIff(TabIn(s.tabs, c.tab), rows, c.columns);
    }
  }

  /** A deletion of a range of the sheet leaves the rows whose number is not in it. */
  lemma DeleteRowsIs(s: Sheets, c: Config, start: int, end: int, ttl: Time)
    requires end >= 1
    ensures TabIn(CallOn(s, c, DeletingRows(start, end), ttl).tabs, c.tab)
            == ST.RowsOutside(TabIn(s.tabs, c.tab), 2, start, end)
  {
    ST.DeletesRangeIff(TabIn(s.tabs, c.tab), start, end);
  }

  /** A list is the cached one as long as that is no older than the time to live, and the tab after that;
      it is then cached, and the tab stays as it is. */
  lemma ListIs(s: Sheets, c: Config, key: string, now: Time, later: Time, ttl: Time)
    ensures var live := key in s.cache && now - s.cache[key].fetchedAt <= ttl;
      && Fetched(s.tabs, s.cache, ttl, c.tab, key, now) == (if live then s.cache[key].rows else TabIn(s.tabs, c.tab))
      && CallOn(s, c, Listing(key, now, later), ttl).tabs == s.tabs
      && CallOn(s, c, Listing(key, now, later), ttl).cache
         == if live then s.cache else s.cache[key := Cached(TabIn(s.tabs, c.tab), later)]
  {
  }

  // ---------------------------------------------------------------------------
  // Runs
  // ---------------------------------------------------------------------------

  /** The calls that keep the tab a table: feedback needs an up-to-date list, an unguarded append a new key. */
  predicate Fits(s: Sheets, c: Config, t: Table, call: Call, ttl: Time) {
    match call
    case Listing(_, _, _) => true
    case Upserting(row) => ST.FullWidth(row, c.columns)
    case Adding(row) => ST.FullWidth(row, c.columns) && ST.Cell(row, c.pk) !in t.rows
    case AddingShot(_) => true
    case WritingFeedback(_, _, now, _) =>
      "AI_Feedback" in c.columns && c.pk != "AI_Feedback" && c.keys != []
      && Fetched(s.tabs, s.cache, ttl, c.tab, c.keys[0], now) == TabIn(s.tabs, c.tab)
    case AddingMany(rows) => rows == []
    case DeletingRows(_, _) => false
    case DeletingByPk(column, _) => column == c.pk
  }

  /** What the call does to the table. */
  function TableAfter(t: Table, columns: seq<string>, pk: string, call: Call): Table {
    match call
    case Upserting(row) => Put(t, ST.Cell(row, pk), row)
    case Adding(row) => Put(t, ST.Cell(row, pk), row)
    case AddingShot(row) =>
      if ST.Cell(row, pk) in t.rows then t else Put(t, ST.Cell(row, pk), ST.Project(columns, row))
    case WritingFeedback(shot, text, _, _) =>
      if shot in t.rows then Put(t, shot, ST.WithCell(t.rows[shot], "AI_Feedback", text)) else t
    case DeletingByPk(_, key) => ST.Table(ST.Without(t.order, key), t.rows - {key})
    case _ => t
  }

  lemma CallRefines(s: Sheets, c: Config, t: Table, call: Call, ttl: Time)
    requires Stands(s, c, t) && Fits(s, c, t, call, ttl)
    ensures Stands(CallOn(s, c, call, ttl), c, TableAfter(t, c.columns, c.pk, call))
  {
    match call
    case Listing(key, now, later) => ListIs(s, c, key, now, later, ttl);
    case Upserting(row) => UpsertIs(s, c, t, row, ttl);
    case Adding(row) => AddIs(s, c, t, row, ttl);
    case AddingShot(row) => AddShotIs(s, c, t, row, ttl);
    case WritingFeedback(shot, text, now, later) => FeedbackIs(s, c, t, shot, text, now, later, ttl);
    case AddingMany(rows) =>
    case DeletingRows(start, end) =>
    case DeletingByPk(column, key) => DeleteIs(s, c, t, key, ttl);
  }

  lemma OthersKeepTheTab(s: Sheets, c: Config, t: Table, other: Config, call: Call, ttl: Time)
    requires Stands(s, c, t) && other.tab != c.tab
    ensures Stands(CallOn(s, other, call, ttl), c, t)
  {
    assert TabIn(CallOn(s, other, call, ttl).tabs, c.tab) == TabIn(s.tabs, c.tab);
  }

  predicate AllFit(s: Sheets, c: Config, t: Table, calls: seq<(Config, Call)>, ttl: Time)
    decreases |calls|
  {
    calls == [] ||
    var after := CallOn(s, calls[0].0, calls[0].1, ttl);
    if calls[0].0 == c
    then Fits(s, c, t, calls[0].1, ttl) && AllFit(after, c, TableAfter(t, c.columns, c.pk, calls[0].1), calls[1..], ttl)
    else AllFit(after, c, t, calls[1..], ttl)
  }

  /** The repository's own calls, on the table. */
  function RunOnTable(t: Table, c: Config, pk: string, calls: seq<(Config, Call)>): Table
    decreases |calls|
  {
    if calls == [] then t
    else RunOnTable(if calls[0].0 == c then TableAfter(t, c.columns, pk, calls[0].1) else t, c, pk, calls[1..])
  }

  lemma {:induction false} RunStands(s: Sheets, c: Config, t: Table, calls: seq<(Config, Call)>, ttl: Time)
    requires Stands(s, c, t) && AllFit(s, c, t, calls, ttl)
    requires forall i :: 0 <= i < |calls| ==> calls[i].0 == c || calls[i].0.tab != c.tab
    ensures Stands(RunCalls(s, calls, ttl), c, RunOnTable(t, c, c.pk, calls))
    decreases |calls|
  {
    if calls != [] {
      var after := CallOn(s, calls[0].0, calls[0].1, ttl);
      if calls[0].0 == c {
        CallRefines(s, c, t, calls[0].1, ttl);
        RunStands(after, c, TableAfter(t, c.columns, c.pk, calls[0].1), calls[1..], ttl);
      } else {
        OthersKeepTheTab(s, c, t, calls[0].0, calls[0].1, ttl);
        RunStands(after, c, t, calls[1..], ttl);
      }
    }
  }

  /** Each repository with the name of its tab and the column that its rows are known by. */
  predicate RepoOf(c: Config, tab: string, pk: string) {
    || (c == HARDWARE && tab == "Hardware" && pk == "Hardware_ID")
    || (c == MAINTENANCE && tab == "Maintenance" && pk == "Maintenance_ID")
    || (c == CATALOG && tab == "Catalog" && pk == "Catalog_ID")
    || (c == INVENTORY && tab == "Inventory" && pk == "Bag_ID")
    || (c == BREW_LOG && tab == "Brew_Log" && pk == "Shot_ID")
  }

  lemma RepoIs(c: Config, tab: string, pk: string)
    requires RepoOf(c, tab, pk)
    ensures IsRepo(c) && c.tab == tab && c.pk == pk && c.columns != [] && c.columns[0] == pk
  {
  }

  /** Over any calls of the five repositories on one client and one cache, each repository's tab goes on
      standing for its keyed table, on which only its own calls act, as long as they fit. */
  lemma RunRefines(s: Sheets, c: Config, tab: string, pk: string, t: Table, calls: seq<(Config, Call)>, ttl: Time)
    requires RepoOf(c, tab, pk) && AllFit(s, c, t, calls, ttl)
    requires ST.Represents(TabIn(s.tabs, tab), t, pk) && ST.Wide(TabIn(s.tabs, tab), c.columns)
    requires forall i :: 0 <= i < |calls| ==> IsRepo(calls[i].0)
    ensures ST.Represents(TabIn(RunCalls(s, calls, ttl).tabs, tab), RunOnTable(t, c, pk, calls), pk)
    ensures ST.Wide(TabIn(RunCalls(s, calls, ttl).tabs, tab), c.columns)
  {
    RepoIs(c, tab, pk);
    assert c.pk in c.columns;
    forall i | 0 <= i < |calls| && calls[i].0 != c ensures calls[i].0.tab != c.tab {
      TabsDiffer(c, calls[i].0);
    }
    RunStands(s, c, t, calls, ttl);
  }

  /** Lists, upserts of whole rows, shots and deletions by key always fit. */
  predicate IsPlain(c: Config, call: Call) {
    || call.Listing? || call.AddingShot?
    || (call.Upserting? && ST.FullWidth(call.row, c.columns))
    || (call.DeletingByPk? && call.pk == c.pk)
  }

  lemma {:induction false} PlainCallsFit(s: Sheets, c: Config, t: Table, calls: seq<(Config, Call)>, ttl: Time)
    requires forall i :: 0 <= i < |calls| && calls[i].0 == c ==> IsPlain(c, calls[i].1)
    ensures AllFit(s, c, t, calls, ttl)
    decreases |calls|
  {
    if calls != [] {
      var after := CallOn(s, calls[0].0, calls[0].1, ttl);
      var next := if calls[0].0 == c then TableAfter(t, c.columns, c.pk, calls[0].1) else t;
      assert calls[0].0 == c ==> IsPlain(c, calls[0].1);
      PlainCallsFit(after, c, next, calls[1..], ttl);
    }
  }
}
