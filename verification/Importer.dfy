/** The import wizard's normaliser: columns are renamed, dates and enumerated values brought to
    their canonical form, and values that cannot be resolved are reported for confirmation. */
module Importer {
  import opened Basics
  import opened Decimal
  import opened SheetTab

  /** Legacy columns in order, each with its canonical column or None to discard it. */
  datatype Mapping = Mapping(keys: seq<string>, targets: map<string, Option<string>>)

  type EnumMap = map<string, string>

  const ELIGIBILITY := "Shot_Eligibility"
  const TASTE := "Taste_Summary"
  const ROAST := "Roast_Level"

  /** The columns with a table of known values. */
  const ENUM_COLUMNS: set<string> := {ELIGIBILITY, TASTE, ROAST}

  function Known(column: string): EnumMap {
    if column == ELIGIBILITY then
      map["OK with Milk" := "Passable", "Passable Espresso" := "Passable", "Good" := "Good Espresso",
          "Reject" := "Reject", "Good Espresso" := "Good Espresso", "God Shot" := "God Shot"]
    else if column == TASTE then
      map["Weak and Sour" := "Weak & Sour", "Balanced and Neutral" := "Sweet & Balanced",
          "Too acidic" := "Acidic & Bright", "Too bitter" := "Harsh & Bitter"]
    else if column == ROAST then
      map["Medium-Dark" := "Medium / Dark", "Light/Medium" := "Light / Medium"]
    else map[]
  }

  function Canonical(column: string): set<string> {
    if column == ELIGIBILITY then {"Reject", "Passable", "Good Espresso", "God Shot"}
    else if column == TASTE then
      {"Weak & Sour", "Acidic & Bright", "Sweet & Balanced", "Complex & Syrupy", "Harsh & Bitter", "Strong & Muddy",
       "Salty / Channeled"}
    else if column == ROAST then {"Light", "Light / Medium", "Medium", "Medium / Dark", "Dark"}
    else {}
  }

  function Confirmed(confirmed: map<string, EnumMap>, column: string): EnumMap {
    if column in confirmed then confirmed[column] else map[]
  }

  /** A value after the table of known values and, failing that, the confirmed ones. */
  function Resolve(column: string, v: string, confirmed: map<string, EnumMap>): string {
    if v in Known(column) then Known(column)[v]
    else if v in Confirmed(confirmed, column) then Confirmed(confirmed, column)[v]
    else v
  }

  /** Which value each known value becomes, whatever is confirmed. */
  lemma KnownValues(confirmed: map<string, EnumMap>)
    ensures Resolve("Shot_Eligibility", "OK with Milk", confirmed) == "Passable"
    ensures Resolve("Shot_Eligibility", "Passable Espresso", confirmed) == "Passable"
    ensures Resolve("Shot_Eligibility", "Good", confirmed) == "Good Espresso"
    ensures forall v <- {"Reject", "Good Espresso", "God Shot"} :: Resolve("Shot_Eligibility", v, confirmed) == v
    ensures Resolve("Taste_Summary", "Weak and Sour", confirmed) == "Weak & Sour"
    ensures Resolve("Taste_Summary", "Balanced and Neutral", confirmed) == "Sweet & Balanced"
    ensures Resolve("Taste_Summary", "Too acidic", confirmed) == "Acidic & Bright"
    ensures Resolve("Taste_Summary", "Too bitter", confirmed) == "Harsh & Bitter"
    ensures Resolve("Roast_Level", "Medium-Dark", confirmed) == "Medium / Dark"
    ensures Resolve("Roast_Level", "Light/Medium", confirmed) == "Light / Medium"
  {
  }

  /** Any other value becomes what is confirmed for it, if anything. */
  lemma OtherValues(column: string, v: string, confirmed: map<string, EnumMap>)
    requires column == "Shot_Eligibility"
             ==> v !in {"OK with Milk", "Passable Espresso", "Good", "Reject", "Good Espresso", "God Shot"}
    requires column == "Taste_Summary" ==> v !in {"Weak and Sour", "Balanced and Neutral", "Too acidic", "Too bitter"}
    requires column == "Roast_Level" ==> v !in {"Medium-Dark", "Light/Medium"}
    ensures Resolve(column, v, confirmed)
            == if column in confirmed && v in confirmed[column] then confirmed[column][v] else v
  {
    assert v !in Known(column);
  }

  // ---------------------------------------------------------------------------
  // Divergences
  // ---------------------------------------------------------------------------

  predicate Diverges(column: string, v: string) {
    column in ENUM_COLUMNS && v != "" && v !in Known(column) && v !in Canonical(column)
  }

  predicate Targets(mapping: Mapping, legacy: string, column: string) {
    legacy in mapping.keys && legacy in mapping.targets && mapping.targets[legacy] == Some(column)
  }

  /** `v` stands in some row, under a legacy column that becomes `column`, and cannot be resolved. */
  predicate Reported(rows: seq<Row>, mapping: Mapping, column: string, v: string) {
    exists row, legacy :: row in rows && legacy in mapping.keys
                          && Targets(mapping, legacy, column) && Cell(row, legacy) == v && Diverges(column, v)
  }

  /** The pairs that the legacy column gives in this row. */
  function Divergence(row: Row, mapping: Mapping, legacy: string): set<(string, string)> {
    if legacy in mapping.targets && mapping.targets[legacy].Some?
       && Diverges(mapping.targets[legacy].value, Cell(row, legacy))
    then {(mapping.targets[legacy].value, Cell(row, legacy))}
    else {}
  }

  /** The first `i` rows, and the first `j` columns of the row after them, give the pair. */
  predicate Given(rows: seq<Row>, mapping: Mapping, i: nat, j: nat, p: (string, string))
    requires i <= |rows| && j <= |mapping.keys| && (j > 0 ==> i < |rows|)
  {
    || (exists a, b :: 0 <= a < i && 0 <= b < |mapping.keys| && p in Divergence(rows[a], mapping, mapping.keys[b]))
    || (exists b :: 0 <= b < j && p in Divergence(rows[i], mapping, mapping.keys[b]))
  }

  /** The report, as a set of columns with values: exactly the reported ones are in it. */
  method FindEnumDivergences(rows: seq<Row>, mapping: Mapping) returns (found: set<(string, string)>)
    ensures forall column, v :: (column, v) in found <==> Reported(rows, mapping, column, v)
  {
    found := {};
    for i := 0 to |rows|
      invariant forall p :: p in found <==> Given(rows, mapping, i, 0, p)
    {
      for j := 0 to |mapping.keys|
        invariant forall p :: p in found <==> Given(rows, mapping, i, j, p)
      {
        found := found + Divergence(rows[i], mapping, mapping.keys[j]);
      }
    }
  }

  // ---------------------------------------------------------------------------
  // Dates
  // ---------------------------------------------------------------------------

  /** `$` also matches before a final newline. */
  function BeforeNewline(s: string): string {
    if s != [] && s[|s| - 1] == '\n' then s[..|s| - 1] else s
  }

  /** YYYY-MM-DD */
  predicate IsIsoDate(s: string) {
    var t := BeforeNewline(s);
    |t| == 10 && AllDigits(t[..4]) && t[4] == '-' && AllDigits(t[5..7]) && t[7] == '-' && AllDigits(t[8..])
  }

  /** MM/DD/YYYY */
  predicate IsUsDate(s: string) {
    var t := BeforeNewline(s);
    |t| == 10 && AllDigits(t[..2]) && t[2] == '/' && AllDigits(t[3..5]) && t[5] == '/' && AllDigits(t[6..])
  }

  function FixDate(s: string): string {
    if !IsIsoDate(s) && IsUsDate(s) then s[6..10] + "-" + s[..2] + "-" + s[3..5] else s
  }

  /** A fixed date is an ISO date, or was left alone as neither; either way it stays as it is. */
  lemma FixedDateStays(s: string)
    ensures IsIsoDate(FixDate(s)) <==> IsIsoDate(s) || IsUsDate(s)
    ensures FixDate(FixDate(s)) == FixDate(s)
  {
    if !IsIsoDate(s) && IsUsDate(s) {
      var t, d := BeforeNewline(s), FixDate(s);
      assert t == s[..10];
      assert d[..4] == t[6..] && d[5..7] == t[..2] && d[8..] == t[3..5];
      assert d[9] == t[4] && IsDigit(t[3..5][1]);
    }
  }

  /** Two digits for the month and the day, and four for the year. */
  predicate IsDateParts(m: string, d: string, y: string) {
    |m| == |d| == 2 && |y| == 4 && AllDigits(m) && AllDigits(d) && AllDigits(y)
  }

  /** Month and day follow the year; a newline after the date goes. */
  lemma FixDateText(m: string, d: string, y: string)
    requires IsDateParts(m, d, y)
    ensures FixDate(m + "/" + d + "/" + y) == y + "-" + m + "-" + d
    ensures FixDate(m + "/" + d + "/" + y + "\n") == y + "-" + m + "-" + d
    ensures FixDate(y + "-" + m + "-" + d) == y + "-" + m + "-" + d
  {
    var us, line, iso := m + "/" + d + "/" + y, m + "/" + d + "/" + y + "\n", y + "-" + m + "-" + d;
    assert IsDigit(y[3]) && us[9] == y[3] && IsDigit(d[1]) && iso[9] == d[1];
    assert us[..2] == m && us[3..5] == d && us[6..10] == y && us[6..] == y;
    assert line[..10] == us && line[..2] == m && line[3..5] == d && line[6..10] == y;
    assert iso[..4] == y && iso[5..7] == m && iso[8..] == d;
    assert !IsDigit(us[2]) && us[2] == us[..4][2];
  }

  /** Nothing else is changed. */
  lemma OtherDatesStay(s: string)
    ensures FixDate(s) == s
            || exists m, d, y :: IsDateParts(m, d, y) && (s == m + "/" + d + "/" + y || s == m + "/" + d + "/" + y + "\n")
  {
    if IsUsDate(s) {
      var t := BeforeNewline(s);
      assert t == t[..2] + "/" + t[3..5] + "/" + t[6..];
      assert s == t || s == t + "\n";
      assert IsDateParts(t[..2], t[3..5], t[6..]);
    }
  }

  // ---------------------------------------------------------------------------
  // Rows
  // ---------------------------------------------------------------------------

  type Cells = map<string, string>

  function TargetOf(mapping: Mapping, legacy: string): Option<string> {
    if legacy in mapping.targets then mapping.targets[legacy] else None
  }

  /** The first `n` cells of the row under their new names; of two with one name, the later. */
  function Renamed(row: Row, mapping: Mapping, n: nat): Cells
    requires n <= |row.keys|
  {
    if n == 0 then map[]
    else
      var legacy := row.keys[n - 1];
      var out := Renamed(row, mapping, n - 1);
      if TargetOf(mapping, legacy).None? then out
      else out[TargetOf(mapping, legacy).value := Cell(row, legacy)]
  }

  function ResolveCell(out: Cells, column: string, confirmed: map<string, EnumMap>): Cells {
    if column in out then out[column := Resolve(column, out[column], confirmed)] else out
  }

  function FixDateCell(out: Cells): Cells {
    if "Date" in out then out["Date" := FixDate(out["Date"])] else out
  }

  /** `shotId` is the generated id of a row that has none. */
  function WithShotId(out: Cells, shotId: string): Cells {
    if "Shot_ID" in out && out["Shot_ID"] != "" then out else out["Shot_ID" := shotId]
  }

  function FixCells(out: Cells, confirmed: map<string, EnumMap>, shotId: string): Cells {
    WithShotId(ResolveCell(ResolveCell(FixDateCell(out), ELIGIBILITY, confirmed), TASTE, confirmed), shotId)
  }

  function BrewLogRow(row: Row, mapping: Mapping, confirmed: map<string, EnumMap>, shotId: string): Cells {
    FixCells(Renamed(row, mapping, |row.keys|), confirmed, shotId)
  }

  method NormalizeBrewLogRow(row: Row, mapping: Mapping, confirmed: map<string, EnumMap>, shotId: string) returns (out: Cells)
    ensures out == BrewLogRow(row, mapping, confirmed, shotId)
  {
    out := map[];
    for n := 0 to |row.keys|
      invariant out == Renamed(row, mapping, n)
    {
      var canonical := TargetOf(mapping, row.keys[n]);
      if canonical.Some? {
        out := out[canonical.value := Cell(row, row.keys[n])];
      }
    }
    if "Date" in out && !IsIsoDate(out["Date"]) && IsUsDate(out["Date"]) {
      var d := out["Date"];
      out := out["Date" := d[6..10] + "-" + d[..2] + "-" + d[3..5]];
    } else if "Date" in out {
      assert out["Date" := out["Date"]] == out;
    }
    var columns := [ELIGIBILITY, TASTE];
    ghost var before := out;
    for i := 0 to 2
      invariant out == if i == 0 then before
                       else if i == 1 then ResolveCell(before, ELIGIBILITY, confirmed)
                       else ResolveCell(ResolveCell(before, ELIGIBILITY, confirmed), TASTE, confirmed)
    {
      if columns[i] in out {
        var v := out[columns[i]];
        if v in Known(columns[i]) {
          out := out[columns[i] := Known(columns[i])[v]];
        } else if v in Confirmed(confirmed, columns[i]) {
          out := out[columns[i] := Confirmed(confirmed, columns[i])[v]];
        } else {
          assert out[columns[i] := v] == out;
        }
      }
    }
    if "Shot_ID" !in out || out["Shot_ID"] == "" {
      out := out["Shot_ID" := shotId];
    }
  }

  /** The first `n` mapped columns that the row has, under their new names. */
  function Picked(row: Row, mapping: Mapping, n: nat): Cells
    requires n <= |mapping.keys|
  {
    if n == 0 then map[]
    else
      var legacy := mapping.keys[n - 1];
      var out := Picked(row, mapping, n - 1);
      if TargetOf(mapping, legacy).None? || legacy !in row.cells then out
      else out[TargetOf(mapping, legacy).value := row.cells[legacy]]
  }

  function CatalogRow(row: Row, mapping: Mapping, confirmed: map<string, EnumMap>): Cells {
    ResolveCell(Picked(row, mapping, |mapping.keys|), ROAST, confirmed)
  }

  /** The inventory's column is named RoastLevel, and resolved by the table of Roast_Level. */
  function InventoryRow(row: Row, mapping: Mapping, confirmed: map<string, EnumMap>): Cells {
    var out := Picked(row, mapping, |mapping.keys|);
    if "RoastLevel" in out then out["RoastLevel" := Resolve(ROAST, out["RoastLevel"], confirmed)] else out
  }

  // ---------------------------------------------------------------------------
  // What each cell becomes
  // ---------------------------------------------------------------------------

  /** Column `i` of the row is the last that becomes `column`. */
  predicate IsSource(row: Row, mapping: Mapping, i: nat, column: string) {
    && i < |row.keys| && TargetOf(mapping, row.keys[i]) == Some(column)
    && forall j :: i < j < |row.keys| ==> TargetOf(mapping, row.keys[j]) != Some(column)
  }

  lemma {:induction false} RenamedIs(row: Row, mapping: Mapping, n: nat, i: nat, column: string)
    requires i < n <= |row.keys| && TargetOf(mapping, row.keys[i]) == Some(column)
    requires forall j :: i < j < n ==> TargetOf(mapping, row.keys[j]) != Some(column)
    ensures column in Renamed(row, mapping, n) && Renamed(row, mapping, n)[column] == Cell(row, row.keys[i])
  {
    if n - 1 > i {
      RenamedIs(row, mapping, n - 1, i, column);
    }
  }

  /** Every mapped column is kept, under its new name, with its own value but for these: a date is fixed, two
      enumerated values are resolved, and an empty shot id is replaced. */
  lemma BrewLogCellIs(row: Row, mapping: Mapping, confirmed: map<string, EnumMap>, shotId: string, i: nat, column: string)
    requires IsSource(row, mapping, i, column)
    ensures var out, v := BrewLogRow(row, mapping, confirmed, shotId), Cell(row, row.keys[i]);
      && column in out
      && out[column] == if column == "Date" then FixDate(v)
                        else if column == "Shot_Eligibility" || column == "Taste_Summary" then Resolve(column, v, confirmed)
                        else if column == "Shot_ID" && v == "" then shotId
                        else v
  {
    RenamedIs(row, mapping, |row.keys|, i, column);
    FixedCell(Renamed(row, mapping, |row.keys|), confirmed, shotId, column);
  }

  lemma FixedCell(before: Cells, confirmed: map<string, EnumMap>, shotId: string, column: string)
    requires column in before
    ensures var out, v := FixCells(before, confirmed, shotId), before[column];
      && column in out
      && out[column] == if column == "Date" then FixDate(v)
                        else if column == "Shot_Eligibility" || column == "Taste_Summary" then Resolve(column, v, confirmed)
                        else if column == "Shot_ID" && v == "" then shotId
                        else v
  {
  }

  /** There is no other column, but for a shot id. */
  lemma BrewLogColumnsAre(row: Row, mapping: Mapping, confirmed: map<string, EnumMap>, shotId: string, column: string)
    ensures column in BrewLogRow(row, mapping, confirmed, shotId)
            <==> column == "Shot_ID" || exists i :: 0 <= i < |row.keys| && TargetOf(mapping, row.keys[i]) == Some(column)
    ensures !(exists i :: 0 <= i < |row.keys| && TargetOf(mapping, row.keys[i]) == Some("Shot_ID"))
            ==> BrewLogRow(row, mapping, confirmed, shotId)["Shot_ID"] == shotId
  {
    var before := Renamed(row, mapping, |row.keys|);
    FixedCells(before, confirmed, shotId);
    RenamedIff(row, mapping, |row.keys|, column);
    RenamedIff(row, mapping, |row.keys|, "Shot_ID");
  }

  lemma {:induction false} RenamedIff(row: Row, mapping: Mapping, n: nat, column: string)
    requires n <= |row.keys|
    ensures column in Renamed(row, mapping, n)
            <==> exists i :: 0 <= i < n && TargetOf(mapping, row.keys[i]) == Some(column)
  {
    if n > 0 {
      RenamedIff(row, mapping, n - 1, column);
    }
  }

  /** A shot dated month first comes out with the date year first. */
  lemma BrewLogDateIs(row: Row, mapping: Mapping, confirmed: map<string, EnumMap>, shotId: string, i: nat,
                      m: string, d: string, y: string)
    requires IsSource(row, mapping, i, "Date") && IsDateParts(m, d, y)
    requires Cell(row, row.keys[i]) == m + "/" + d + "/" + y
    ensures var out := BrewLogRow(row, mapping, confirmed, shotId);
            "Date" in out && out["Date"] == y + "-" + m + "-" + d
  {
    BrewLogCellIs(row, mapping, confirmed, shotId, i, "Date");
    FixDateText(m, d, y);
  }

  /** Of the mapped columns that the row has, number `i` is the last that becomes `column`. */
  predicate IsPicked(row: Row, mapping: Mapping, i: nat, column: string) {
    && i < |mapping.keys| && mapping.keys[i] in row.cells && TargetOf(mapping, mapping.keys[i]) == Some(column)
    && forall j :: i < j < |mapping.keys| && mapping.keys[j] in row.cells ==> TargetOf(mapping, mapping.keys[j]) != Some(column)
  }

  lemma {:induction false} PickedIs(row: Row, mapping: Mapping, n: nat, i: nat, column: string)
    requires IsPicked(row, mapping, i, column) && i < n <= |mapping.keys|
    ensures column in Picked(row, mapping, n) && Picked(row, mapping, n)[column] == row.cells[mapping.keys[i]]
  {
    if n - 1 > i {
      PickedIs(row, mapping, n - 1, i, column);
    }
  }

  /** Catalog and inventory rows keep every mapped column with its own value, the roast level resolved. */
  lemma BeanCellIs(row: Row, mapping: Mapping, confirmed: map<string, EnumMap>, i: nat, column: string)
    requires IsPicked(row, mapping, i, column)
    ensures var out, v := CatalogRow(row, mapping, confirmed), row.cells[mapping.keys[i]];
      && column in out
      && out[column] == if column == "Roast_Level" then Resolve("Roast_Level", v, confirmed) else v
    ensures var out, v := InventoryRow(row, mapping, confirmed), row.cells[mapping.keys[i]];
      && column in out
      && out[column] == if column == "RoastLevel" then Resolve("Roast_Level", v, confirmed) else v
  {
    PickedIs(row, mapping, |mapping.keys|, i, column);
  }

  // ---------------------------------------------------------------------------
  // Enumerated cells are canonical
  // ---------------------------------------------------------------------------

  /** Only values that are not canonical are confirmed, and they are mapped to canonical ones: what
      a confirmation of reported divergences, of this section or another, looks like. */
  predicate Confirms(confirmed: map<string, EnumMap>) {
    forall column, v :: column in ENUM_COLUMNS && v in Confirmed(confirmed, column)
      ==> v != "" && v !in Canonical(column) && Confirmed(confirmed, column)[v] in Canonical(column)
  }

  /** Every reported value is confirmed. */
  ghost predicate Covers(confirmed: map<string, EnumMap>, rows: seq<Row>, mapping: Mapping) {
    forall column, v :: Reported(rows, mapping, column, v) ==> v in Confirmed(confirmed, column)
  }

  lemma KnownAreCanonical(column: string, v: string)
    requires column in ENUM_COLUMNS
    ensures v in Known(column) ==> Known(column)[v] in Canonical(column)
    ensures v in Canonical(column) && v in Known(column) ==> Known(column)[v] == v
    ensures "" !in Known(column) && "" !in Canonical(column)
  {
    if column == ELIGIBILITY {
      var known := Known(ELIGIBILITY);
      assert v in known ==> known[v] in {"Passable", "Good Espresso", "Reject", "God Shot"};
    } else if column == TASTE {
      var known := Known(TASTE);
      assert v in known ==> known[v] in {"Weak & Sour", "Sweet & Balanced", "Acidic & Bright", "Harsh & Bitter"};
    }
  }

  /** Exactly these values are canonical, and in these three columns only does a value diverge: one that is
      neither empty nor canonical nor known. */
  lemma DivergesIff(column: string, v: string)
    ensures Canonical("Shot_Eligibility") == {"Reject", "Passable", "Good Espresso", "God Shot"}
    ensures Canonical("Taste_Summary")
            == {"Weak & Sour", "Acidic & Bright", "Sweet & Balanced", "Complex & Syrupy", "Harsh & Bitter",
                "Strong & Muddy", "Salty / Channeled"}
    ensures Canonical("Roast_Level") == {"Light", "Light / Medium", "Medium", "Medium / Dark", "Dark"}
    ensures Diverges(column, v)
            <==> column in {"Shot_Eligibility", "Taste_Summary", "Roast_Level"}
                 && v != "" && v !in Canonical(column) && Resolve(column, v, map[]) == v
  {
    if column in ENUM_COLUMNS {
      KnownAreCanonical(column, v);
    }
  }

  /** Exactly the values that are not reported, and those that are confirmed, become canonical. */
  lemma ResolvesIff(column: string, v: string, confirmed: map<string, EnumMap>)
    requires column in ENUM_COLUMNS && Confirms(confirmed)
    ensures Resolve(column, v, confirmed) in Canonical(column)
            <==> v != "" && (!Diverges(column, v) || v in Confirmed(confirmed, column))
    ensures Resolve(column, "", confirmed) == ""
    ensures Resolve(column, Resolve(column, v, confirmed), confirmed) == Resolve(column, v, confirmed)
  {
    KnownAreCanonical(column, v);
    KnownAreCanonical(column, Resolve(column, v, confirmed));
  }

  lemma {:induction false} RenamedFrom(row: Row, mapping: Mapping, n: nat, column: string) returns (legacy: string)
    requires n <= |row.keys| && column in Renamed(row, mapping, n)
    ensures legacy in row.keys && TargetOf(mapping, legacy) == Some(column)
    ensures Renamed(row, mapping, n)[column] == Cell(row, legacy)
  {
    legacy := row.keys[n - 1];
    if TargetOf(mapping, legacy) != Some(column) {
      legacy := RenamedFrom(row, mapping, n - 1, column);
    }
  }

  lemma {:induction false} PickedFrom(row: Row, mapping: Mapping, n: nat, column: string) returns (legacy: string)
    requires n <= |mapping.keys| && column in Picked(row, mapping, n)
    ensures legacy in mapping.keys && TargetOf(mapping, legacy) == Some(column)
    ensures Picked(row, mapping, n)[column] == Cell(row, legacy)
  {
    legacy := mapping.keys[n - 1];
    if TargetOf(mapping, legacy) != Some(column) || legacy !in row.cells {
      legacy := PickedFrom(row, mapping, n - 1, column);
    }
  }

  predicate MappingOk(mapping: Mapping) {
    mapping.targets.Keys == set k | k in mapping.keys
  }

  lemma CoveredIsCanonical(rows: seq<Row>, row: Row, mapping: Mapping, confirmed: map<string, EnumMap>, column: string, legacy: string)
    requires row in rows && MappingOk(mapping) && Confirms(confirmed) && Covers(confirmed, rows, mapping)
    requires column in ENUM_COLUMNS && TargetOf(mapping, legacy) == Some(column)
    ensures var v := Cell(row, legacy);
            if v == "" then Resolve(column, v, confirmed) == "" else Resolve(column, v, confirmed) in Canonical(column)
  {
    var v := Cell(row, legacy);
    ResolvesIff(column, v, confirmed);
    if Diverges(column, v) {
      assert legacy in mapping.keys && Targets(mapping, legacy, column);
      assert Reported(rows, mapping, column, v);
    }
  }

  /** With every reported divergence confirmed, a normalised brew-log row has a canonical value, or
      none, in each of its enumerated columns. */
  lemma BrewLogIsCanonical(rows: seq<Row>, row: Row, mapping: Mapping, confirmed: map<string, EnumMap>, shotId: string, column: string)
    requires row in rows && MappingOk(mapping) && Confirms(confirmed) && Covers(confirmed, rows, mapping)
    requires column in {ELIGIBILITY, TASTE}
    ensures var out := BrewLogRow(row, mapping, confirmed, shotId);
            column in out && out[column] != "" ==> out[column] in Canonical(column)
  {
    if column in Renamed(row, mapping, |row.keys|) {
      var legacy := RenamedFrom(row, mapping, |row.keys|, column);
      CoveredIsCanonical(rows, row, mapping, confirmed, column, legacy);
    }
  }

  lemma CatalogIsCanonical(rows: seq<Row>, row: Row, mapping: Mapping, confirmed: map<string, EnumMap>)
    requires row in rows && MappingOk(mapping) && Confirms(confirmed) && Covers(confirmed, rows, mapping)
    ensures var out := CatalogRow(row, mapping, confirmed);
            ROAST in out && out[ROAST] != "" ==> out[ROAST] in Canonical(ROAST)
  {
    if ROAST in Picked(row, mapping, |mapping.keys|) {
      var legacy := PickedFrom(row, mapping, |mapping.keys|, ROAST);
      CoveredIsCanonical(rows, row, mapping, confirmed, ROAST, legacy);
    }
  }

  /** The inventory's column is never reported, so that its values are brought to canonical form
      only as far as they are canonical or known, or were confirmed for another section. */
  lemma InventoryIsCanonicalIff(rows: seq<Row>, row: Row, mapping: Mapping, confirmed: map<string, EnumMap>, v: string)
    requires Confirms(confirmed)
    ensures !Reported(rows, mapping, "RoastLevel", v)
    ensures var out := InventoryRow(row, mapping, confirmed);
            var before := Picked(row, mapping, |mapping.keys|);
            "RoastLevel" in before && before["RoastLevel"] != ""
            ==> (out["RoastLevel"] in Canonical(ROAST)
                 <==> before["RoastLevel"] in Canonical(ROAST) || before["RoastLevel"] in Known(ROAST)
                      || before["RoastLevel"] in Confirmed(confirmed, ROAST))
  {
    var before := Picked(row, mapping, |mapping.keys|);
    if "RoastLevel" in before {
      ResolvesIff(ROAST, before["RoastLevel"], confirmed);
    }
  }

  // ---------------------------------------------------------------------------
  // Normalising again changes nothing
  // ---------------------------------------------------------------------------

  predicate IsRowOf(row: Row, cells: Cells) {
    row.cells == cells && cells.Keys == set k | k in row.keys
  }

  predicate IsIdentity(mapping: Mapping, cells: Cells) {
    MappingOk(mapping) && mapping.targets.Keys == cells.Keys && forall k <- mapping.targets :: mapping.targets[k] == Some(k)
  }

  lemma {:induction false} RenamedByIdentity(row: Row, mapping: Mapping, n: nat)
    requires n <= |row.keys| && IsRowOf(row, row.cells) && IsIdentity(mapping, row.cells)
    ensures var out := Renamed(row, mapping, n);
            (forall k :: k in out <==> k in row.keys[..n]) && forall k <- out :: k in row.cells && out[k] == row.cells[k]
  {
    if n > 0 {
      RenamedByIdentity(row, mapping, n - 1);
      assert row.keys[..n] == row.keys[..n - 1] + [row.keys[n - 1]];
    }
  }

  lemma {:induction false} PickedByIdentity(row: Row, mapping: Mapping, n: nat)
    requires n <= |mapping.keys| && IsIdentity(mapping, row.cells)
    ensures var out := Picked(row, mapping, n);
            (forall k :: k in out <==> k in mapping.keys[..n]) && forall k <- out :: k in row.cells && out[k] == row.cells[k]
  {
    if n > 0 {
      PickedByIdentity(row, mapping, n - 1);
      assert mapping.keys[..n] == mapping.keys[..n - 1] + [mapping.keys[n - 1]];
    }
  }

  /** Cells that no step of the brew-log normaliser changes. */
  predicate Settled(out: Cells, confirmed: map<string, EnumMap>) {
    && FixDateCell(out) == out
    && ResolveCell(out, ELIGIBILITY, confirmed) == out && ResolveCell(out, TASTE, confirmed) == out
    && "Shot_ID" in out && out["Shot_ID"] != ""
  }

  lemma FixedCells(before: Cells, confirmed: map<string, EnumMap>, shotId: string)
    ensures var out := FixCells(before, confirmed, shotId);
            && out.Keys == before.Keys + {"Shot_ID"}
            && ("Date" in before ==> out["Date"] == FixDate(before["Date"]))
            && (ELIGIBILITY in before ==> out[ELIGIBILITY] == Resolve(ELIGIBILITY, before[ELIGIBILITY], confirmed))
            && (TASTE in before ==> out[TASTE] == Resolve(TASTE, before[TASTE], confirmed))
            && (shotId != "" ==> out["Shot_ID"] != "")
  {
  }

  lemma ResolveTwice(before: Cells, out: Cells, column: string, confirmed: map<string, EnumMap>)
    requires column in ENUM_COLUMNS && Confirms(confirmed)
    requires column in out ==> column in before && out[column] == Resolve(column, before[column], confirmed)
    ensures ResolveCell(out, column, confirmed) == out
  {
    if column in out {
      ResolvesIff(column, before[column], confirmed);
    }
  }

  lemma BrewLogRowIsSettled(row: Row, mapping: Mapping, confirmed: map<string, EnumMap>, shotId: string)
    requires Confirms(confirmed) && shotId != ""
    ensures Settled(BrewLogRow(row, mapping, confirmed, shotId), confirmed)
  {
    var before := Renamed(row, mapping, |row.keys|);
    var out := FixCells(before, confirmed, shotId);
    FixedCells(before, confirmed, shotId);
    if "Date" in out {
      FixedDateStays(before["Date"]);
    }
    ResolveTwice(before, out, ELIGIBILITY, confirmed);
    ResolveTwice(before, out, TASTE, confirmed);
  }

  /** A normalised row, in any order of its columns, normalises to itself under the identity. */
  lemma BrewLogIsIdempotent(row: Row, mapping: Mapping, confirmed: map<string, EnumMap>, shotId: string,
                            again: Row, identity: Mapping, otherId: string)
    requires Confirms(confirmed) && shotId != ""
    requires IsRowOf(again, BrewLogRow(row, mapping, confirmed, shotId)) && IsIdentity(identity, again.cells)
    ensures BrewLogRow(again, identity, confirmed, otherId) == BrewLogRow(row, mapping, confirmed, shotId)
  {
    BrewLogRowIsSettled(row, mapping, confirmed, shotId);
    RenamedByIdentity(again, identity, |again.keys|);
    assert again.keys[..|again.keys|] == again.keys;
    assert Renamed(again, identity, |again.keys|) == again.cells;
  }

  lemma CatalogIsIdempotent(row: Row, mapping: Mapping, confirmed: map<string, EnumMap>, again: Row, identity: Mapping)
    requires Confirms(confirmed)
    requires again.cells == CatalogRow(row, mapping, confirmed) && IsIdentity(identity, again.cells)
    ensures CatalogRow(again, identity, confirmed) == CatalogRow(row, mapping, confirmed)
  {
    var before := Picked(row, mapping, |mapping.keys|);
    if ROAST in before {
      ResolvesIff(ROAST, before[ROAST], confirmed);
    }
    PickedByIdentity(again, identity, |identity.keys|);
    assert identity.keys[..|identity.keys|] == identity.keys;
    assert Picked(again, identity, |identity.keys|) == again.cells;
  }
}
