/** The repositories of the spreadsheet mode: a client that holds tabs of row objects, a cache with
    a time to live, and the copying that keeps rows handed out apart from both. */
module SheetCache {
  import opened Basics
  import opened SheetTab

  // ---------------------------------------------------------------------------
  // Values
  // ---------------------------------------------------------------------------

  type Tabs = map<string, Tab>

  datatype Cached = Cached(rows: Tab, fetchedAt: Time)

  type Cache = map<string, Cached>

  function TabIn(tabs: Tabs, tab: string): Tab {
    if tab in tabs then tabs[tab] else []
  }

  /** A tab comes into being with its first row. */
  function PutTab(tabs: Tabs, tab: string, rows: Tab): Tabs {
    if tab in tabs || rows != [] then tabs[tab := rows] else tabs
  }

  lemma PutSame(tabs: Tabs, tab: string)
    ensures PutTab(tabs, tab, TabIn(tabs, tab)) == tabs
  {
  }

  lemma PutMore(tabs: Tabs, tab: string, rows: Tab, row: Row)
    ensures TabIn(PutTab(tabs, tab, rows), tab) == rows
    ensures PutTab(PutTab(tabs, tab, rows), tab, rows + [row]) == PutTab(tabs, tab, rows + [row])
  {
  }

  /** A cached list that is no older than the time to live. */
  function Hit(cache: Cache, ttl: Time, key: string, now: Time): Option<Tab> {
    if key in cache && now - cache[key].fetchedAt <= ttl then Some(cache[key].rows) else None
  }

  /** What a list call returns. */
  function Fetched(tabs: Tabs, cache: Cache, ttl: Time, tab: string, key: string, now: Time): Tab {
    var hit := Hit(cache, ttl, key, now);
    if hit.Some? then hit.value else TabIn(tabs, tab)
  }

  /** The cache after it; `later` is the clock as the entry is made. */
  function CacheAfterFetch(tabs: Tabs, cache: Cache, ttl: Time, tab: string, key: string, now: Time, later: Time): Cache {
    if Hit(cache, ttl, key, now).Some? then cache else cache[key := Cached(TabIn(tabs, tab), later)]
  }

  // ---------------------------------------------------------------------------
  // Row objects
  // ---------------------------------------------------------------------------

  class Dict {
    var row: Row

    constructor (row: Row)
      ensures this.row == row
    {
      this.row := row;
    }

    method Put(column: string, v: string)
      modifies this
      ensures row == WithCell(old(row), column, v)
    {
      row := WithCell(row, column, v);
    }
  }

  /** The objects hold these rows. */
  predicate AreRows(data: seq<Dict>, rows: Tab)
    reads data
  {
    |data| == |rows| && forall i :: 0 <= i < |data| ==> data[i].row == rows[i]
  }

  /** `[row.copy() for row in data]` */
  method CopyAll(data: seq<Dict>, ghost rows: Tab) returns (copies: seq<Dict>)
    requires AreRows(data, rows)
    ensures AreRows(copies, rows) && forall d <- copies :: fresh(d)
  {
    copies := [];
    for i := 0 to |data|
      invariant AreRows(copies, rows[..i]) && forall d <- copies :: fresh(d)
    {
      var copy := new Dict(data[i].row);
      copies := copies + [copy];
    }
  }

  /** The index of the first row with that key, or the number of rows. */
  method FindRow(data: seq<Dict>, ghost rows: Tab, pk: string, v: string) returns (i: nat)
    requires AreRows(data, rows)
    ensures i == Find(rows, pk, v)
  {
    i := 0;
    while i < |data| && !Holds(data[i].row, pk, v)
      invariant i <= |data|
      invariant forall j :: 0 <= j < i ==> !Holds(rows[j], pk, v)
    {
      i := i + 1;
    }
  }

  // ---------------------------------------------------------------------------
  // The cache
  // ---------------------------------------------------------------------------

  datatype Entry = Entry(data: seq<Dict>, fetchedAt: Time)

  class TTLCache {
    const ttl: Time
    var store: map<string, Entry>
    ghost var value: Cache
    ghost var repr: set<Dict>

    constructor (ttl: Time)
      ensures this.ttl == ttl && value == map[] && Valid() && repr == {}
    {
      this.ttl := ttl;
      store, value, repr := map[], map[], {};
    }

    /** `value` is what the entries say, and `repr` has their row objects. */
    ghost predicate Valid()
      reads this, repr
    {
      && store.Keys == value.Keys
      && (forall k <- store, d <- store[k].data :: d in repr)
      && forall k <- store :: store[k].fetchedAt == value[k].fetchedAt && AreRows(store[k].data, value[k].rows)
    }

    method Get(key: string, now: Time) returns (rows: Option<seq<Dict>>)
      requires Valid()
      ensures rows.Some? <==> Hit(value, ttl, key, now).Some?
      ensures rows.Some? ==> AreRows(rows.value, Hit(value, ttl, key, now).value)
      ensures rows.Some? ==> forall d <- rows.value :: fresh(d)
    {
      if key !in store || now - store[key].fetchedAt > ttl {
        return None;
      }
      var copies := CopyAll(store[key].data, value[key].rows);
      return Some(copies);
    }

    method Set(key: string, data: seq<Dict>, now: Time, ghost rows: Tab)
      requires Valid() && AreRows(data, rows)
      modifies this
      ensures Valid() && fresh(repr - old(repr))
      ensures value == old(value)[key := Cached(rows, now)]
    {
      var copies := CopyAll(data, rows);
      store := store[key := Entry(copies, now)];
      value := value[key := Cached(rows, now)];
      repr := repr + set d | d in copies;
    }

    method Invalidate(key: string)
      requires Valid()
      modifies this
      ensures Valid() && repr == old(repr)
      ensures value == old(value) - {key}
    {
      store := store - {key};
      value := value - {key};
    }
  }

  // ---------------------------------------------------------------------------
  // The client
  // ---------------------------------------------------------------------------

  class FakeSheetsClient {
    var store: map<string, seq<Dict>>
    ghost var tabs: Tabs
    ghost var repr: set<Dict>

    constructor ()
      ensures tabs == map[] && Valid() && repr == {}
    {
      store, tabs, repr := map[], map[], {};
    }

    /** `tabs` is what the stored rows say, and `repr` has the row objects. */
    ghost predicate Valid()
      reads this, repr
    {
      && store.Keys == tabs.Keys
      && (forall t <- store, d <- store[t] :: d in repr)
      && forall t <- store :: AreRows(store[t], tabs[t])
    }

    method GetAllRecords(tab: string) returns (rows: seq<Dict>)
      requires Valid()
      ensures AreRows(rows, TabIn(tabs, tab)) && forall d <- rows :: fresh(d)
    {
      rows := CopyAll(Stored(tab), TabIn(tabs, tab));
    }

    function Stored(tab: string): (data: seq<Dict>)
      requires Valid()
      reads this, repr
      ensures AreRows(data, TabIn(tabs, tab)) && forall d <- data :: d in repr
    {
      if tab in store then store[tab] else []
    }

    method Put(tab: string, data: seq<Dict>, ghost rows: Tab, ghost added: set<Dict>)
      requires Valid() && AreRows(data, rows) && forall d <- data :: d in repr + added
      modifies this
      ensures Valid() && repr == old(repr) + added && tabs == old(tabs)[tab := rows]
    {
      store, tabs, repr := store[tab := data], tabs[tab := rows], repr + added;
    }

    /** `pk` is the guarded column, if any. */
    method AppendRow(tab: string, row: Dict, pk: Option<string>) returns (r: Result<(), SheetError>)
      requires Valid()
      modifies this
      ensures Valid() && fresh(repr - old(repr))
      ensures r.Ok? <==> (pk.Some? ==> pk.value in old(row.row).cells)
      ensures tabs == if r.Err? then old(tabs)
                      else if pk.None? then PutTab(old(tabs), tab, SheetTab.AppendRow(TabIn(old(tabs), tab), old(row.row)))
                      else PutTab(old(tabs), tab, AppendGuarded(TabIn(old(tabs), tab), old(row.row), pk.value).value)
    {
      var rows := Stored(tab);
      if pk.Some? {
        if pk.value !in row.row.cells {
          return Err(KeyError);
        }
        var i := FindRow(rows, TabIn(tabs, tab), pk.value, row.row.cells[pk.value]);
        if i < |rows| {
          return Ok(());
        }
      }
      AppendOne(tab, row.row);
      return Ok(());
    }

    method UpdateRow(tab: string, pk: string, v: string, row: Dict) returns (r: Result<(), SheetError>)
      requires Valid()
      modifies this
      ensures Valid() && fresh(repr - old(repr))
      ensures r.Ok? <==> SheetTab.UpdateRow(TabIn(old(tabs), tab), pk, v, old(row.row)).Ok?
      ensures tabs == if r.Err? then old(tabs)
                      else PutTab(old(tabs), tab, SheetTab.UpdateRow(TabIn(old(tabs), tab), pk, v, old(row.row)).value)
    {
      var rows := Stored(tab);
      var i := FindRow(rows, TabIn(tabs, tab), pk, v);
      if i == |rows| {
        return Err(KeyError);
      }
      var updated := Project(rows[0].row.keys, row.row);
      var copy := new Dict(updated);
      Put(tab, rows[i := copy], TabIn(tabs, tab)[i := updated], {copy});
      return Ok(());
    }

    method AppendOne(tab: string, row: Row)
      requires Valid()
      modifies this
      ensures Valid() && fresh(repr - old(repr))
      ensures tabs == PutTab(old(tabs), tab, TabIn(old(tabs), tab) + [row])
    {
      var copy := new Dict(row);
      Put(tab, Stored(tab) + [copy], TabIn(tabs, tab) + [row], {copy});
    }

    method AppendRows(tab: string, values: seq<seq<string>>)
      requires Valid()
      modifies this
      ensures Valid() && fresh(repr - old(repr))
      ensures tabs == PutTab(old(tabs), tab, SheetTab.AppendRows(TabIn(old(tabs), tab), values))
    {
      var existing := Stored(tab);
      var headers := if existing != [] then existing[0].row.keys else Headers([], values);
      ghost var before, rows := tabs, TabIn(tabs, tab);
      PutSame(tabs, tab);
      for k := 0 to |values|
        invariant Valid() && fresh(repr - old(repr))
        invariant rows == TabIn(before, tab) + Zipped(headers, values[..k])
        invariant tabs == PutTab(before, tab, rows)
      {
        PutMore(before, tab, rows, Zip(headers, values[k]));
        AppendOne(tab, Zip(headers, values[k]));
        rows := rows + [Zip(headers, values[k])];
        assert values[..k + 1] == values[..k] + [values[k]];
      }
      assert values[..|values|] == values;
    }

    method DeleteRows(tab: string, start: int, end: int)
      requires Valid()
      modifies this
      ensures Valid() && repr == old(repr)
      ensures tabs == PutTab(old(tabs), tab, SheetTab.DeleteRows(TabIn(old(tabs), tab), start, end))
    {
      var rows := Stored(tab);
      var lo := SliceEnd(if start < 2 then 0 else start - 2, |rows|);
      var hi := SliceEnd(end - 1, |rows|);
      if lo < hi {
        Put(tab, rows[..lo] + rows[hi..], SheetTab.DeleteRows(TabIn(tabs, tab), start, end), {});
      }
    }
  }
}
