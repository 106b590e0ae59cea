/** The repositories over one client and one shared cache: what each call does to the tab and the
    cache, and what a cached list can be. */
module SheetRepos {
  import opened Basics
  import opened SheetTab
  import opened SheetCache

  /** `keys` are the cache keys that a single-row write drops, and `bulkKeys` those that a bulk
      append or a row deletion drops. */
  datatype Config = Config(tab: string, pk: string, columns: seq<string>, keys: seq<string>, bulkKeys: seq<string>)

  const HARDWARE := Config("Hardware", "Hardware_ID",
                           ["Hardware_ID", "Category", "Name", "Product_URL", "Local_Image_Path"],
                           ["all_hardware"], ["all_hardware"])
  const MAINTENANCE := Config("Maintenance", "Maintenance_ID",
                              ["Maintenance_ID", "Hardware_ID", "Date", "Action_Type", "Notes"],
                              ["all_maintenance"], ["all_maintenance"])
  const CATALOG := Config("Catalog", "Catalog_ID",
                          ["Catalog_ID", "Roaster", "Bean_Name", "Roast_Level", "Product_URL", "Local_Image_Path"],
                          ["catalog:all"], [])
  const INVENTORY := Config("Inventory", "Bag_ID",
                            ["Bag_ID", "Beans", "RoastDate", "RoastLevel", "Display_Name", "Catalog_ID", "Status",
                             "Storage_Method"],
                            ["inventory:active", "inventory:all"], [])
  const BREW_LOG := Config("Brew_Log", "Shot_ID",
                           ["Shot_ID", "Date", "Bag_ID", "Machine_ID", "Grinder_ID", "Basket_ID", "Dose_In_g",
                            "Yield_Out_g", "Time_Sec", "Grind_Setting", "Shot_Eligibility", "Taste_Summary",
                            "User_Notes", "AI_Feedback", "Storage_Method"],
                           ["brew_log:recent"], [])

  function Keys(keys: seq<string>): set<string> {
    set k | k in keys
  }

  // ---------------------------------------------------------------------------
  // Calls, as what they do to the tabs and the cache
  // ---------------------------------------------------------------------------

  datatype Sheets = Sheets(tabs: Tabs, cache: Cache)

  datatype Call =
    | Listing(key: string, now: Time, later: Time)
    | Upserting(row: Row)
    | Adding(row: Row)
    | AddingShot(row: Row)
    | WritingFeedback(shot: string, text: string, now: Time, later: Time)
    | AddingMany(rows: SheetTab.Tab)
    | DeletingRows(start: int, end: int)
    | DeletingByPk(pk: string, v: string)

  /** The tab has new rows, and some keys are dropped. */
  function Wrote(s: Sheets, config: Config, rows: SheetTab.Tab, keys: seq<string>): Sheets {
    Sheets(PutTab(s.tabs, config.tab, rows), s.cache - Keys(keys))
  }

  /** The tab has new rows, unless the write was an error. */
  function TriedToWrite(s: Sheets, config: Config, rows: Result<SheetTab.Tab, SheetError>): Sheets {
    match rows
    case Ok(t) => Wrote(s, config, t, config.keys)
    case Err(_) => s
  }

  function AfterListing(s: Sheets, config: Config, key: string, now: Time, later: Time, ttl: Time): Sheets {
    s.(cache := CacheAfterFetch(s.tabs, s.cache, ttl, config.tab, key, now, later))
  }

  /** Feedback goes through the first cache key of the repository. */
  function FeedbackOn(s: Sheets, config: Config, shot: string, text: string, now: Time, ttl: Time): Result<SheetTab.Tab, SheetError>
    requires config.keys != []
  {
    WriteFeedback(TabIn(s.tabs, config.tab), Fetched(s.tabs, s.cache, ttl, config.tab, config.keys[0], now), config.pk, shot, text)
  }

  function CallOn(s: Sheets, config: Config, call: Call, ttl: Time): Sheets {
    var tab := TabIn(s.tabs, config.tab);
    match call
    case Listing(key, now, later) => AfterListing(s, config, key, now, later, ttl)
    case Upserting(row) => TriedToWrite(s, config, SheetTab.Upsert(tab, row, config.pk))
    case Adding(row) => Wrote(s, config, SheetTab.AppendRow(tab, row), config.keys)
    case AddingShot(row) => TriedToWrite(s, config, AppendGuarded(tab, Project(config.columns, row), config.pk))
    case WritingFeedback(shot, text, now, later) =>
      if config.keys == [] then s
      else TriedToWrite(AfterListing(s, config, config.keys[0], now, later, ttl), config,
                        FeedbackOn(s, config, shot, text, now, ttl))
    case AddingMany(rows) =>
      if rows == [] then s else Wrote(s, config, SheetTab.AddMany(tab, rows, config.columns), config.bulkKeys)
    case DeletingRows(start, end) => Wrote(s, config, SheetTab.DeleteRows(tab, start, end), config.bulkKeys)
    case DeletingByPk(pk, v) =>
      if Find(tab, pk, v) < |tab| then Wrote(s, config, SheetTab.DeleteByPk(tab, pk, v), config.bulkKeys) else s
  }

  lemma KeysMore(keys: seq<string>, i: nat)
    requires i < |keys|
    ensures Keys(keys[..i + 1]) == Keys(keys[..i]) + {keys[i]}
  {
    assert keys[..i + 1] == keys[..i] + [keys[i]];
  }

  class SheetRepo {
    const config: Config
    const client: FakeSheetsClient
    const cache: TTLCache

    constructor (config: Config, client: FakeSheetsClient, cache: TTLCache)
      ensures this.config == config && this.client == client && this.cache == cache
    {
      this.config, this.client, this.cache := config, client, cache;
    }

    ghost predicate Valid()
      reads client, client.repr, cache, cache.repr
    {
      client.Valid() && cache.Valid()
    }

    /** What the client and the cache hold. */
    ghost function State(): Sheets
      reads client, cache
    {
      Sheets(client.tabs, cache.value)
    }

    /** The tab of this repository. */
    ghost function Tab(): SheetTab.Tab
      reads client
    {
      TabIn(client.tabs, config.tab)
    }

    method FetchAll() returns (rows: seq<Dict>)
      requires Valid()
      ensures AreRows(rows, Tab()) && forall d <- rows :: fresh(d)
    {
      rows := client.GetAllRecords(config.tab);
    }

    /** The rows are the caller's own: no other reference to them is kept. */
    method FetchCached(key: string, now: Time, later: Time) returns (rows: seq<Dict>)
      requires Valid()
      modifies cache
      ensures Valid() && fresh(cache.repr - old(cache.repr))
      ensures AreRows(rows, Fetched(client.tabs, old(cache.value), cache.ttl, config.tab, key, now))
      ensures forall d <- rows :: fresh(d) && d !in cache.repr
      ensures State() == CallOn(old(State()), config, Listing(key, now, later), cache.ttl)
    {
      var cached := cache.Get(key, now);
      if cached.Some? {
        return cached.value;
      }
      rows := FetchAll();
      cache.Set(key, rows, later, Tab());
    }

    method Drop(keys: seq<string>)
      requires Valid()
      modifies cache
      ensures Valid() && cache.repr == old(cache.repr)
      ensures cache.value == old(cache.value) - Keys(keys)
    {
      for i := 0 to |keys|
        invariant Valid() && cache.repr == old(cache.repr)
        invariant cache.value == old(cache.value) - Keys(keys[..i])
      {
        cache.Invalidate(keys[i]);
        KeysMore(keys, i);
      }
      assert keys[..|keys|] == keys;
    }

    /** The part of an upsert that concerns the tab. */
    method Place(row: Dict)
      requires Valid() && config.pk in row.row.cells
      modifies client
      ensures client.Valid() && fresh(client.repr - old(client.repr))
      ensures client.tabs
              == PutTab(old(client.tabs), config.tab, SheetTab.Upsert(old(Tab()), old(row.row), config.pk).value)
    {
      var v := row.row.cells[config.pk];
      var existing := FetchAll();
      var i := FindRow(existing, Tab(), config.pk, v);
      if i < |existing| {
        var _ := client.UpdateRow(config.tab, config.pk, v, row);
      } else {
        var _ := client.AppendRow(config.tab, row, None);
      }
    }

    method Upsert(row: Dict) returns (r: Result<(), SheetError>)
      requires Valid()
      modifies client, cache
      ensures Valid() && fresh(client.repr - old(client.repr)) && cache.repr == old(cache.repr)
      ensures r.Ok? == SheetTab.Upsert(old(Tab()), old(row.row), config.pk).Ok?
      ensures State() == CallOn(old(State()), config, Call.Upserting(old(row.row)), cache.ttl)
    {
      if config.pk !in row.row.cells {
        return Err(KeyError);
      }
      Place(row);
      Drop(config.keys);
      return Ok(());
    }

    /** Maintenance appends without a guard. */
    method Add(row: Dict)
      requires Valid()
      modifies client, cache
      ensures Valid() && fresh(client.repr - old(client.repr)) && cache.repr == old(cache.repr)
      ensures State() == CallOn(old(State()), config, Call.Adding(old(row.row)), cache.ttl)
    {
      var _ := client.AppendRow(config.tab, row, None);
      Drop(config.keys);
    }

    /** The brew log brings a row to its columns and appends it unless its key is in use. */
    method AddShot(row: Dict)
      requires Valid() && config.pk in config.columns
      modifies client, cache
      ensures Valid() && fresh(client.repr - old(client.repr)) && cache.repr == old(cache.repr)
      ensures AppendGuarded(old(Tab()), Project(config.columns, old(row.row)), config.pk).Ok?
      ensures State() == CallOn(old(State()), config, AddingShot(old(row.row)), cache.ttl)
    {
      var normalised := new Dict(Project(config.columns, row.row));
      var _ := client.AppendRow(config.tab, normalised, Some(config.pk));
      Drop(config.keys);
    }

    /** The row comes from the cached list; `later` is the clock as that list is cached. */
    method UpdateFeedback(shot: string, text: string, now: Time, later: Time) returns (r: Result<(), SheetError>)
      requires Valid() && config.keys != []
      modifies client, cache
      ensures Valid() && fresh(client.repr - old(client.repr)) && fresh(cache.repr - old(cache.repr))
      ensures r.Ok? == FeedbackOn(old(State()), config, shot, text, now, cache.ttl).Ok?
      ensures State() == CallOn(old(State()), config, WritingFeedback(shot, text, now, later), cache.ttl)
    {
      ghost var listed := Fetched(client.tabs, cache.value, cache.ttl, config.tab, config.keys[0], now);
      var rows := FetchCached(config.keys[0], now, later);
      r := WriteBack(rows, listed, shot, text);
      if r.Ok? {
        Drop(config.keys);
      }
    }

    /** The part of it that concerns the tab. */
    method WriteBack(rows: seq<Dict>, ghost listed: SheetTab.Tab, shot: string, text: string) returns (r: Result<(), SheetError>)
      requires Valid() && AreRows(rows, listed)
      modifies client
      ensures client.Valid() && fresh(client.repr - old(client.repr))
      ensures var after := WriteFeedback(old(Tab()), listed, config.pk, shot, text);
              && r.Ok? == after.Ok?
              && client.tabs == (if r.Ok? then PutTab(old(client.tabs), config.tab, after.value) else old(client.tabs))
    {
      var i := FindRow(rows, listed, config.pk, shot);
      if i == |rows| {
        return Err(KeyError);
      }
      var updated := new Dict(WithCell(rows[i].row, FEEDBACK, text));
      r := client.UpdateRow(config.tab, config.pk, shot, updated);
    }

    method AddMany(rows: seq<Dict>, ghost values: SheetTab.Tab)
      requires Valid() && AreRows(rows, values)
      modifies client, cache
      ensures Valid() && fresh(client.repr - old(client.repr)) && cache.repr == old(cache.repr)
      ensures State() == CallOn(old(State()), config, AddingMany(values), cache.ttl)
    {
      if rows == [] {
        return;
      }
      var lists := seq(|rows|, i requires 0 <= i < |rows| reads rows => CellsOf(rows[i].row, config.columns));
      assert lists == CellLists(values, config.columns);
      client.AppendRows(config.tab, lists);
      Drop(config.bulkKeys);
    }

    method DeleteRows(start: int, end: int)
      requires Valid()
      modifies client, cache
      ensures Valid() && client.repr == old(client.repr) && cache.repr == old(cache.repr)
      ensures State() == CallOn(old(State()), config, DeletingRows(start, end), cache.ttl)
    {
      client.DeleteRows(config.tab, start, end);
      Drop(config.bulkKeys);
    }

    method DeleteByPk(pk: string, v: string)
      requires Valid()
      modifies client, cache
      ensures Valid() && client.repr == old(client.repr) && cache.repr == old(cache.repr)
      ensures State() == CallOn(old(State()), config, DeletingByPk(pk, v), cache.ttl)
    {
      var rows := FetchAll();
      var i := FindRow(rows, Tab(), pk, v);
      if i < |rows| {
        DeleteRows(i + 2, i + 2);
      }
    }
  }

  /** A caller may go on editing a row that it got back: neither the tab nor the cache sees it. */
  method EditReturnedRow(repo: SheetRepo, key: string, i: nat, column: string, v: string, now: Time, later: Time)
    requires repo.Valid()
    modifies repo.cache
    ensures repo.Valid()
    ensures repo.State() == CallOn(old(repo.State()), repo.config, Listing(key, now, later), repo.cache.ttl)
  {
    var rows := repo.FetchCached(key, now, later);
    if i < |rows| {
      var row := rows[i];
      assert row in rows;
      row.Put(column, v);
    }
  }

  /** So may a caller with a row that it handed in. */
  method EditGivenRow(repo: SheetRepo, row: Dict, column: string, v: string)
    requires repo.Valid() && row !in repo.client.repr && row !in repo.cache.repr
    requires repo.config.pk in row.row.cells
    modifies row, repo.client, repo.cache
    ensures repo.Valid() && row !in repo.client.repr && row !in repo.cache.repr
    ensures repo.State() == CallOn(old(repo.State()), repo.config, Call.Upserting(old(row.row)), repo.cache.ttl)
  {
    var _ := repo.Upsert(row);
    row.Put(column, v);
  }

  // ---------------------------------------------------------------------------
  // Runs
  // ---------------------------------------------------------------------------

  function RunCalls(s: Sheets, calls: seq<(Config, Call)>, ttl: Time): Sheets
    decreases |calls|
  {
    if calls == [] then s else RunCalls(CallOn(s, calls[0].0, calls[0].1, ttl), calls[1..], ttl)
  }

  predicate IsRepo(config: Config) {
    config == HARDWARE || config == MAINTENANCE || config == CATALOG || config == INVENTORY || config == BREW_LOG
  }

  /** Repositories list under their own keys. */
  predicate CallOk(config: Config, call: Call) {
    IsRepo(config) && (call.Listing? ==> call.key in config.keys)
  }

  /** The cached list, if there is one, is the tab as it stands. */
  predicate Coherent(s: Sheets, tab: string, key: string) {
    key in s.cache ==> s.cache[key].rows == TabIn(s.tabs, tab)
  }

  predicate Apart(own: Config, other: Config) {
    own.tab != other.tab && forall k <- own.keys :: k !in other.keys && k !in other.bulkKeys
  }

  lemma TabsDiffer(own: Config, other: Config)
    requires IsRepo(own) && IsRepo(other) && other != own
    ensures own.tab != other.tab
  {
  }

  lemma KeysDiffer(own: Config, other: Config, k: string)
    requires IsRepo(own) && IsRepo(other) && other.tab != own.tab && k in own.keys
    ensures k !in other.keys && k !in other.bulkKeys
  {
    assert k in {"all_hardware", "all_maintenance", "catalog:all", "inventory:active", "inventory:all", "brew_log:recent"};
  }

  /** No two repositories share a tab or a cache key. */
  lemma ReposAreApart(own: Config, other: Config)
    requires IsRepo(own) && IsRepo(other) && other != own
    ensures Apart(own, other)
  {
    TabsDiffer(own, other);
    forall k <- own.keys ensures k !in other.keys && k !in other.bulkKeys {
      KeysDiffer(own, other, k);
    }
  }

  lemma BulkKeysAre(own: Config)
    requires IsRepo(own)
    ensures own.bulkKeys == own.keys || own.bulkKeys == []
    ensures own == HARDWARE || own == MAINTENANCE <==> own.bulkKeys == own.keys
    ensures own.keys != []
  {
  }

  lemma OthersLeaveItAlone(s: Sheets, config: Config, call: Call, ttl: Time, tab: string, key: string)
    requires config.tab != tab && key !in config.keys && key !in config.bulkKeys
    requires call.Listing? ==> call.key in config.keys
    ensures var after := CallOn(s, config, call, ttl);
      TabIn(after.tabs, tab) == TabIn(s.tabs, tab)
      && (key in after.cache <==> key in s.cache) && (key in s.cache ==> after.cache[key] == s.cache[key])
  {
  }

  predicate IsBulk(call: Call) {
    call.AddingMany? || call.DeletingRows? || call.DeletingByPk?
  }

  /** The tab as the call leaves it. */
  function TabAfter(s: Sheets, config: Config, call: Call, ttl: Time): SheetTab.Tab {
    TabIn(CallOn(s, config, call, ttl).tabs, config.tab)
  }

  lemma ListingKeepsCurrent(s: Sheets, own: Config, call: Call, ttl: Time, key: string)
    requires call.Listing? && Coherent(s, own.tab, key)
    ensures Coherent(CallOn(s, own, call, ttl), own.tab, key)
  {
  }

  /** A write of one row drops every key of its repository, if it changes anything. */
  lemma RowWriteKeepsCurrent(s: Sheets, own: Config, call: Call, ttl: Time, key: string)
    requires own.keys != [] && key in own.keys && Coherent(s, own.tab, key)
    requires call.Upserting? || call.Adding? || call.AddingShot? || call.WritingFeedback?
    ensures Coherent(CallOn(s, own, call, ttl), own.tab, key)
  {
  }

  lemma BulkKeepsCurrentIff(s: Sheets, own: Config, call: Call, ttl: Time, key: string)
    requires IsBulk(call) && Coherent(s, own.tab, key)
    ensures Coherent(CallOn(s, own, call, ttl), own.tab, key)
            <==> key in own.bulkKeys || key !in s.cache || TabAfter(s, own, call, ttl) == TabIn(s.tabs, own.tab)
  {
    PutSame(s.tabs, own.tab);
  }

  /** A bulk append or a deletion by the catalog, the inventory or the brew log drops nothing.  A list
      made at time `now` shows what it did if and only if no entry was live, or it did nothing. */
  lemma BulkWriteIsSeenIff(s: Sheets, own: Config, key: string, call: Call, ttl: Time, now: Time)
    requires own in {CATALOG, INVENTORY, BREW_LOG} && key in own.keys && IsBulk(call) && Coherent(s, own.tab, key)
    ensures var after := CallOn(s, own, call, ttl);
      && (Coherent(after, own.tab, key) <==> key !in s.cache || TabIn(after.tabs, own.tab) == TabIn(s.tabs, own.tab))
      && (Fetched(after.tabs, after.cache, ttl, own.tab, key, now) == TabIn(after.tabs, own.tab)
          <==> Hit(s.cache, ttl, key, now).None? || TabIn(after.tabs, own.tab) == TabIn(s.tabs, own.tab))
  {
    assert own.bulkKeys == [];
    BulkKeepsCurrentIff(s, own, call, ttl, key);
  }

  /** A write by hardware or maintenance, whatever it is, leaves no cached list of that tab behind. */
  lemma EveryWriteDropsTheKey(s: Sheets, own: Config, call: Call, ttl: Time, key: string)
    requires (own == HARDWARE || own == MAINTENANCE) && key in own.keys
    ensures CallOn(s, own, call, ttl).tabs != s.tabs ==> key !in CallOn(s, own, call, ttl).cache
  {
    BulkKeysAre(own);
  }

  /** A bulk write of `own` that changes the tab under a cached list, and does not drop it. */
  predicate Unseen(s: Sheets, config: Config, call: Call, ttl: Time, own: Config, key: string) {
    && config == own && IsBulk(call) && key !in own.bulkKeys
    && key in s.cache && TabAfter(s, own, call, ttl) != TabIn(s.tabs, own.tab)
  }

  lemma CallKeepsCurrentIff(s: Sheets, config: Config, call: Call, ttl: Time, own: Config, key: string)
    requires CallOk(config, call) && IsRepo(own) && key in own.keys && Coherent(s, own.tab, key)
    ensures Coherent(CallOn(s, config, call, ttl), own.tab, key) <==> !Unseen(s, config, call, ttl, own, key)
  {
    if config != own {
      ReposAreApart(own, config);
      OthersLeaveItAlone(s, config, call, ttl, own.tab, key);
    } else if IsBulk(call) {
      BulkKeepsCurrentIff(s, own, call, ttl, key);
    } else if call.Listing? {
      ListingKeepsCurrent(s, own, call, ttl, key);
    } else {
      RowWriteKeepsCurrent(s, own, call, ttl, key);
    }
  }

  predicate NoneUnseen(s: Sheets, calls: seq<(Config, Call)>, ttl: Time, own: Config, key: string)
    decreases |calls|
  {
    calls == [] ||
    (!Unseen(s, calls[0].0, calls[0].1, ttl, own, key)
     && NoneUnseen(CallOn(s, calls[0].0, calls[0].1, ttl), calls[1..], ttl, own, key))
  }

  predicate CoherentThroughout(s: Sheets, calls: seq<(Config, Call)>, ttl: Time, own: Config, key: string)
    decreases |calls|
  {
    Coherent(s, own.tab, key)
    && (calls == [] || CoherentThroughout(CallOn(s, calls[0].0, calls[0].1, ttl), calls[1..], ttl, own, key))
  }

  /** Over any calls of the five repositories on one client and one cache: a repository's cached list
      is the tab as it stands, throughout, if and only if none of its bulk writes goes unseen. */
  lemma {:induction false} CoherentThroughoutIff(s: Sheets, calls: seq<(Config, Call)>, ttl: Time, own: Config, key: string)
    requires IsRepo(own) && key in own.keys && Coherent(s, own.tab, key)
    requires forall i :: 0 <= i < |calls| ==> CallOk(calls[i].0, calls[i].1)
    ensures CoherentThroughout(s, calls, ttl, own, key) <==> NoneUnseen(s, calls, ttl, own, key)
    ensures NoneUnseen(s, calls, ttl, own, key) ==> Coherent(RunCalls(s, calls, ttl), own.tab, key)
    decreases |calls|
  {
    if calls != [] {
      CallKeepsCurrentIff(s, calls[0].0, calls[0].1, ttl, own, key);
      if !Unseen(s, calls[0].0, calls[0].1, ttl, own, key) {
        CoherentThroughoutIff(CallOn(s, calls[0].0, calls[0].1, ttl), calls[1..], ttl, own, key);
      }
    }
  }

  /** Hardware and maintenance leave nothing unseen, and nor does a repository that makes no bulk
      write. */
  lemma {:induction false} NothingUnseen(s: Sheets, calls: seq<(Config, Call)>, ttl: Time, own: Config, key: string)
    requires IsRepo(own) && key in own.keys
    requires own == HARDWARE || own == MAINTENANCE
             || forall i :: 0 <= i < |calls| && calls[i].0 == own ==> !IsBulk(calls[i].1)
    ensures NoneUnseen(s, calls, ttl, own, key)
    decreases |calls|
  {
    BulkKeysAre(own);
    if calls != [] {
      NothingUnseen(CallOn(s, calls[0].0, calls[0].1, ttl), calls[1..], ttl, own, key);
    }
  }

  /** So a list of hardware or of maintenance is always the tab as it stands, whatever the calls and
      whatever the time, and so is one of the other three as long as they make no bulk write. */
  lemma ListsAreCurrent(s: Sheets, calls: seq<(Config, Call)>, ttl: Time, own: Config, key: string, now: Time)
    requires IsRepo(own) && key in own.keys && Coherent(s, own.tab, key)
    requires forall i :: 0 <= i < |calls| ==> CallOk(calls[i].0, calls[i].1)
    requires own == HARDWARE || own == MAINTENANCE
             || forall i :: 0 <= i < |calls| && calls[i].0 == own ==> !IsBulk(calls[i].1)
    ensures var after := RunCalls(s, calls, ttl);
      Fetched(after.tabs, after.cache, ttl, own.tab, key, now) == TabIn(after.tabs, own.tab)
  {
    NothingUnseen(s, calls, ttl, own, key);
    CoherentThroughoutIff(s, calls, ttl, own, key);
  }

  // ---------------------------------------------------------------------------
  // Runs with any writers
  // ---------------------------------------------------------------------------

  /** A list call, or a write that leaves `rows` in the tab and drops some cache keys. */
  datatype Event =
    | Listed(tab: string, key: string, now: Time, later: Time)
    | Written(tab: string, rows: SheetTab.Tab, dropped: set<string>, now: Time)

  function Apply(s: Sheets, e: Event, ttl: Time): Sheets {
    match e
    case Listed(tab, key, now, later) => s.(cache := CacheAfterFetch(s.tabs, s.cache, ttl, tab, key, now, later))
    case Written(tab, rows, dropped, _) => Sheets(PutTab(s.tabs, tab, rows), s.cache - dropped)
  }

  function After(s: Sheets, h: seq<Event>, ttl: Time): Sheets {
    if h == [] then s else Apply(After(s, h[..|h| - 1], ttl), h[|h| - 1], ttl)
  }

  /** The key caches this tab only. */
  predicate CachesOnly(h: seq<Event>, tab: string, key: string) {
    forall i :: 0 <= i < |h| && h[i].Listed? && h[i].key == key ==> h[i].tab == tab
  }

  /** Every write to the tab drops the key. */
  predicate DropsAlways(h: seq<Event>, tab: string, key: string) {
    forall i :: 0 <= i < |h| && h[i].Written? && h[i].tab == tab ==> key in h[i].dropped
  }

  /** If every write to the tab drops the key, whoever makes it, a list is always the tab as it stands. */
  lemma {:induction false} DroppingKeepsListsCurrent(s: Sheets, h: seq<Event>, ttl: Time, tab: string, key: string, now: Time)
    requires Coherent(s, tab, key) && CachesOnly(h, tab, key) && DropsAlways(h, tab, key)
    ensures Coherent(After(s, h, ttl), tab, key)
    ensures Fetched(After(s, h, ttl).tabs, After(s, h, ttl).cache, ttl, tab, key, now) == TabIn(After(s, h, ttl).tabs, tab)
  {
    if h != [] {
      DroppingKeepsListsCurrent(s, h[..|h| - 1], ttl, tab, key, now);
    }
  }

  function EndOf(e: Event): Time {
    if e.Listed? then e.later else e.now
  }

  /** The clock never goes back. */
  predicate Clocked(h: seq<Event>) {
    && (forall i :: 0 <= i < |h| && h[i].Listed? ==> h[i].now <= h[i].later)
    && forall i, j :: 0 <= i < j < |h| ==> EndOf(h[i]) <= h[j].now
  }

  /** A cached entry is the tab as it stood right after some event, at the time on the entry. */
  lemma {:induction false} EntryIsAMoment(s: Sheets, h: seq<Event>, ttl: Time, tab: string, key: string) returns (i: int)
    requires s.cache == map[] && CachesOnly(h, tab, key) && key in After(s, h, ttl).cache
    ensures 0 < i <= |h| && EndOf(h[i - 1]) == After(s, h, ttl).cache[key].fetchedAt
    ensures After(s, h, ttl).cache[key].rows == TabIn(After(s, h[..i], ttl).tabs, tab)
  {
    var front, last := h[..|h| - 1], h[|h| - 1];
    var before := After(s, front, ttl);
    if last.Listed? && last.key == key && Hit(before.cache, ttl, key, last.now).None? {
      i := |h|;
      assert h[..i] == h;
    } else {
      i := EntryIsAMoment(s, front, ttl, tab, key);
      assert front[..i] == h[..i];
    }
  }

  /** Whatever is written, through the repositories or past them, a list made at time `now` is the
      tab as it stood after some event, and that is the last one or was no longer ago than the time
      to live. */
  lemma ListsAreRecent(s: Sheets, h: seq<Event>, ttl: Time, tab: string, key: string, now: Time) returns (i: int)
    requires s.cache == map[] && CachesOnly(h, tab, key) && Clocked(h)
    requires forall j :: 0 <= j < |h| ==> EndOf(h[j]) <= now
    ensures 0 <= i <= |h|
    ensures Fetched(After(s, h, ttl).tabs, After(s, h, ttl).cache, ttl, tab, key, now) == TabIn(After(s, h[..i], ttl).tabs, tab)
    ensures i == |h| || (i > 0 && now - ttl <= EndOf(h[i - 1]) <= now)
  {
    if Hit(After(s, h, ttl).cache, ttl, key, now).Some? {
      i := EntryIsAMoment(s, h, ttl, tab, key);
    } else {
      i := |h|;
      assert h[..i] == h;
    }
  }

  // ---------------------------------------------------------------------------
  // Runs of calls are histories
  // ---------------------------------------------------------------------------

  /** What a call, made at time `at`, is as events; a list has times of its own. */
  function EventsOf(s: Sheets, config: Config, call: Call, at: Time, ttl: Time): seq<Event> {
    var after := CallOn(s, config, call, ttl);
    var written := Written(config.tab, TabIn(after.tabs, config.tab), s.cache.Keys - after.cache.Keys, at);
    match call
    case Listing(key, now, later) => [Listed(config.tab, key, now, later)]
    case WritingFeedback(shot, text, now, later) =>
      if config.keys == [] then []
      else if FeedbackOn(s, config, shot, text, now, ttl).Err? then [Listed(config.tab, config.keys[0], now, later)]
      else [Listed(config.tab, config.keys[0], now, later), Written(config.tab, TabIn(after.tabs, config.tab), Keys(config.keys), at)]
    case _ => [written]
  }

  lemma AfterOne(s: Sheets, e: Event, ttl: Time)
    ensures After(s, [e], ttl) == Apply(s, e, ttl)
  {
    assert [e][..0] == [];
  }

  lemma AfterTwo(s: Sheets, e: Event, f: Event, ttl: Time)
    ensures After(s, [e, f], ttl) == Apply(Apply(s, e, ttl), f, ttl)
  {
    assert [e, f][..1] == [e];
    AfterOne(s, e, ttl);
  }

  /** A write leaves rows in the tab and takes entries out of the cache. */
  lemma WriteIsOneEvent(s: Sheets, config: Config, call: Call, at: Time, ttl: Time)
    requires !call.Listing? && !call.WritingFeedback?
    ensures |EventsOf(s, config, call, at, ttl)| == 1
    ensures Apply(s, EventsOf(s, config, call, at, ttl)[0], ttl) == CallOn(s, config, call, ttl)
  {
    PutSame(s.tabs, config.tab);
  }

  lemma EventsAreTheCall(s: Sheets, config: Config, call: Call, at: Time, ttl: Time)
    ensures After(s, EventsOf(s, config, call, at, ttl), ttl) == CallOn(s, config, call, ttl)
  {
    var h := EventsOf(s, config, call, at, ttl);
    if |h| == 2 {
      AfterTwo(s, h[0], h[1], ttl);
    } else if |h| == 1 {
      AfterOne(s, h[0], ttl);
      if !call.Listing? && !call.WritingFeedback? {
        WriteIsOneEvent(s, config, call, at, ttl);
      }
    }
  }

  /** The events of a run of calls that are made at the given times. */
  function History(s: Sheets, calls: seq<(Config, Call)>, times: seq<Time>, ttl: Time): seq<Event>
    requires |times| == |calls|
    decreases |calls|
  {
    if calls == [] then []
    else
      EventsOf(s, calls[0].0, calls[0].1, times[0], ttl)
      + History(CallOn(s, calls[0].0, calls[0].1, ttl), calls[1..], times[1..], ttl)
  }

  lemma {:induction false} AfterAppends(s: Sheets, a: seq<Event>, b: seq<Event>, ttl: Time)
    ensures After(s, a + b, ttl) == After(After(s, a, ttl), b, ttl)
  {
    if b == [] {
      assert a + b == a;
    } else {
      AfterAppends(s, a, b[..|b| - 1], ttl);
      assert (a + b)[..|a + b| - 1] == a + b[..|b| - 1];
    }
  }

  /** A run of calls is the history of its events. */
  lemma {:induction false} RunIsHistory(s: Sheets, calls: seq<(Config, Call)>, times: seq<Time>, ttl: Time)
    requires |times| == |calls|
    ensures After(s, History(s, calls, times, ttl), ttl) == RunCalls(s, calls, ttl)
    decreases |calls|
  {
    if calls != [] {
      var next := CallOn(s, calls[0].0, calls[0].1, ttl);
      EventsAreTheCall(s, calls[0].0, calls[0].1, times[0], ttl);
      RunIsHistory(next, calls[1..], times[1..], ttl);
      AfterAppends(s, EventsOf(s, calls[0].0, calls[0].1, times[0], ttl), History(next, calls[1..], times[1..], ttl), ttl);
    }
  }

  lemma CallCachesOnly(s: Sheets, config: Config, call: Call, at: Time, ttl: Time, own: Config, key: string)
    requires CallOk(config, call) && IsRepo(own) && key in own.keys
    ensures CachesOnly(EventsOf(s, config, call, at, ttl), own.tab, key)
  {
    if config != own {
      ReposAreApart(own, config);
    }
  }

  lemma {:induction false} RunCachesOnly(s: Sheets, calls: seq<(Config, Call)>, times: seq<Time>, ttl: Time, own: Config, key: string)
    requires |times| == |calls| && IsRepo(own) && key in own.keys
    requires forall i :: 0 <= i < |calls| ==> CallOk(calls[i].0, calls[i].1)
    ensures CachesOnly(History(s, calls, times, ttl), own.tab, key)
    decreases |calls|
  {
    if calls != [] {
      CallCachesOnly(s, calls[0].0, calls[0].1, times[0], ttl, own, key);
      RunCachesOnly(CallOn(s, calls[0].0, calls[0].1, ttl), calls[1..], times[1..], ttl, own, key);
    }
  }

  /** Over any calls under a clock, a list that any repository makes at time `now` is its tab as it
      stood after some event of the run, the last one or one no longer ago than the time to live. */
  lemma ListedCallsAreRecent(s: Sheets, calls: seq<(Config, Call)>, times: seq<Time>, ttl: Time, own: Config, key: string, now: Time)
      returns (i: int)
    requires s.cache == map[] && |times| == |calls| && IsRepo(own) && key in own.keys
    requires forall j :: 0 <= j < |calls| ==> CallOk(calls[j].0, calls[j].1)
    requires var h := History(s, calls, times, ttl); Clocked(h) && forall j :: 0 <= j < |h| ==> EndOf(h[j]) <= now
    ensures var h, after := History(s, calls, times, ttl), RunCalls(s, calls, ttl);
      && 0 <= i <= |h|
      && Fetched(after.tabs, after.cache, ttl, own.tab, key, now) == TabIn(After(s, h[..i], ttl).tabs, own.tab)
      && (i == |h| || (i > 0 && now - ttl <= EndOf(h[i - 1]) <= now))
  {
    RunIsHistory(s, calls, times, ttl);
    RunCachesOnly(s, calls, times, ttl, own, key);
    i := ListsAreRecent(s, History(s, calls, times, ttl), ttl, own.tab, key, now);
  }
}
