/** Id allocation: numbered ids for shots, maintenance, hardware and catalog rows, and the
    suffixed ids of inventory bags. */
module Ids {
  import opened Basics
  import opened Decimal

  // ---------------------------------------------------------------------------
  // Numbering schemes
  // ---------------------------------------------------------------------------

  /** How the part after the prefix is read: a full match of digits; digits up to `$`, which a
      final newline may follow; or whatever `int()` accepts. */
  datatype Reader = Digits | DigitsLine | Integer

  /** Ids of one prefix; `before` is the number assumed when the prefix is not in use. */
  datatype Scheme = Scheme(prefix: string, reader: Reader, before: nat, width: nat)

  const MAINTENANCE := Scheme("MNT", Digits, 0, 3)
  const CATALOG := Scheme("CAT", Integer, 99, 3)

  /** `day` is the date printed as `%Y%m%d`. */
  function ShotScheme(day: string): Scheme {
    Scheme("SH-" + day + "-", DigitsLine, 0, 2)
  }

  function HardwareScheme(prefix: string): Scheme {
    Scheme(prefix, Integer, 0, 2)
  }

  function ReadDigits(s: string): Option<int> {
    if s != [] && AllDigits(s) then Some(Read(s)) else None
  }

  function ReadTail(reader: Reader, s: string): Option<int> {
    match reader
    case Digits => ReadDigits(s)
    case DigitsLine => ReadDigits(if s != [] && s[|s| - 1] == '\n' then s[..|s| - 1] else s)
    case Integer => ParseInt(s)
  }

  /** The number of an id, or None for an id that is malformed or of another prefix. */
  function Number(scheme: Scheme, id: string): Option<int> {
    if scheme.prefix <= id then ReadTail(scheme.reader, id[|scheme.prefix|..]) else None
  }

  function Format(scheme: Scheme, n: int): string {
    scheme.prefix + Pad(n, scheme.width)
  }

  /** The numbers of the well-formed ids, in the order of the list. */
  function Numbers(scheme: Scheme, ids: seq<string>): seq<int> {
    if ids == [] then []
    else
      var last := Number(scheme, ids[|ids| - 1]);
      Numbers(scheme, ids[..|ids| - 1]) + (if last.Some? then [last.value] else [])
  }

  function Greatest(nums: seq<int>, other: int): int {
    if nums == [] then other
    else if |nums| == 1 then nums[0]
    else
      var rest := Greatest(nums[..|nums| - 1], other);
      if nums[|nums| - 1] > rest then nums[|nums| - 1] else rest
  }

  function NextNumber(scheme: Scheme, ids: seq<string>): int {
    Greatest(Numbers(scheme, ids), scheme.before) + 1
  }

  function NextId(scheme: Scheme, ids: seq<string>): string {
    Format(scheme, NextNumber(scheme, ids))
  }

  // ---------------------------------------------------------------------------
  // The next id is new
  // ---------------------------------------------------------------------------

  /** An allocated id reads back as its own number, beyond the padded width too; negative
      numbers can only be met, and issued, where `int()` does the reading. */
  lemma NumberFormat(scheme: Scheme, n: int)
    requires scheme.reader.Integer? || n >= 0
    ensures Number(scheme, Format(scheme, n)) == Some(n)
  {
    var tail := Pad(n, scheme.width);
    assert Format(scheme, n)[|scheme.prefix|..] == tail;
    if scheme.reader.Integer? {
      ParsePad(n, scheme.width);
    } else {
      ReadPad(n, scheme.width);
      assert IsDigit(tail[|tail| - 1]);
    }
  }

  lemma {:induction false} NumbersHold(scheme: Scheme, ids: seq<string>, k: int)
    ensures k in Numbers(scheme, ids) <==> exists i :: 0 <= i < |ids| && Number(scheme, ids[i]) == Some(k)
  {
    if ids != [] {
      var front := ids[..|ids| - 1];
      NumbersHold(scheme, front, k);
      if k in Numbers(scheme, front) {
        var i :| 0 <= i < |front| && Number(scheme, front[i]) == Some(k);
        assert Number(scheme, ids[i]) == Some(k);
      }
      if i :| 0 <= i < |ids| && Number(scheme, ids[i]) == Some(k) {
        assert i < |front| ==> front[i] == ids[i];
      }
    }
  }

  lemma {:induction false} GreatestIsGreatest(nums: seq<int>, other: int)
    ensures nums != [] ==> Greatest(nums, other) in nums
    ensures forall i :: 0 <= i < |nums| ==> nums[i] <= Greatest(nums, other)
  {
    if |nums| > 1 {
      GreatestIsGreatest(nums[..|nums| - 1], other);
    }
  }

  lemma GreatestOfMore(nums: seq<int>, k: int, other: int)
    ensures Greatest(nums + [k], other)
            == if nums == [] || k > Greatest(nums, other) then k else Greatest(nums, other)
  {
    assert (nums + [k])[..|nums|] == nums;
  }

  /** The next number is one more than the greatest number in use, or the first of its scheme. */
  lemma NextNumberIs(scheme: Scheme, ids: seq<string>)
    ensures forall id :: id in ids && Number(scheme, id).Some?
                         ==> Number(scheme, id).value < NextNumber(scheme, ids)
    ensures ((exists id :: id in ids && Number(scheme, id) == Some(NextNumber(scheme, ids) - 1))
             || ((forall id :: id in ids ==> Number(scheme, id).None?)
                 && NextNumber(scheme, ids) == scheme.before + 1))
  {
    var nums := Numbers(scheme, ids);
    GreatestIsGreatest(nums, scheme.before);
    forall id | id in ids && Number(scheme, id).Some?
      ensures Number(scheme, id).value in nums
    {
      NumbersHold(scheme, ids, Number(scheme, id).value);
    }
    if nums != [] {
      NumbersHold(scheme, ids, Greatest(nums, scheme.before));
    }
  }

  lemma NextReadsBack(scheme: Scheme, ids: seq<string>)
    ensures Number(scheme, NextId(scheme, ids)) == Some(NextNumber(scheme, ids))
  {
    NextNumberIs(scheme, ids);
    NumberFormat(scheme, NextNumber(scheme, ids));
  }

  /** `id` is not `earlier`, and its number is greater than that of `earlier`, if `earlier` has one. */
  predicate Above(scheme: Scheme, id: string, earlier: string) {
    && id != earlier
    && Number(scheme, id).Some?
    && (Number(scheme, earlier).Some? ==> Number(scheme, earlier).value < Number(scheme, id).value)
  }

  /** Whatever malformed ids the list holds, the next id is not one of them, and its number is
      greater than every number in use. */
  lemma NextIdIsUnused(scheme: Scheme, ids: seq<string>)
    ensures NextId(scheme, ids) !in ids
    ensures forall id :: id in ids ==> Above(scheme, NextId(scheme, ids), id)
  {
    NextReadsBack(scheme, ids);
    NextNumberIs(scheme, ids);
  }

  // ---------------------------------------------------------------------------
  // Runs of allocations and other inserts
  // ---------------------------------------------------------------------------

  datatype Event = Allocate(scheme: Scheme) | Insert(id: string)

  function IdOf(e: Event, ids: seq<string>): string {
    match e
    case Allocate(scheme) => NextId(scheme, ids)
    case Insert(id) => id
  }

  /** Every event adds one row; nothing is deleted. */
  function RunIds(ids: seq<string>, events: seq<Event>): seq<string> {
    if events == [] then ids
    else
      var earlier := RunIds(ids, events[..|events| - 1]);
      earlier + [IdOf(events[|events| - 1], earlier)]
  }

  lemma {:induction false} RunIdsShape(ids: seq<string>, events: seq<Event>, i: nat)
    requires i <= |events|
    ensures |RunIds(ids, events)| == |ids| + |events|
    ensures RunIds(ids, events[..i]) == RunIds(ids, events)[..|ids| + i]
    ensures i < |events|
            ==> RunIds(ids, events)[|ids| + i] == IdOf(events[i], RunIds(ids, events[..i]))
  {
    var front := if events == [] then [] else events[..|events| - 1];
    if events == [] {
      assert events[..i] == events;
    } else if i == |events| {
      RunIdsShape(ids, front, |front|);
      assert events[..i] == events;
    } else {
      RunIdsShape(ids, front, i);
      assert front[..i] == events[..i];
    }
  }

  /** The id that an allocation adds differs from every id before it, and its number is greater
      than that of every earlier id of the same scheme, however those ids came about. */
  lemma AllocationsAreNew(ids: seq<string>, events: seq<Event>, i: nat, j: nat)
    requires i < j < |ids| + |events|
    requires j >= |ids| && events[j - |ids|].Allocate?
    ensures |RunIds(ids, events)| == |ids| + |events|
    ensures Above(events[j - |ids|].scheme, RunIds(ids, events)[j], RunIds(ids, events)[i])
  {
    var k := j - |ids|;
    RunIdsShape(ids, events, k);
    var earlier := RunIds(ids, events[..k]);
    assert RunIds(ids, events)[i] == earlier[i];
    NextIdIsUnused(events[k].scheme, earlier);
  }

  /** Allocation alone keeps a list without repetitions free of them. */
  lemma AllocationKeepsIdsDistinct(ids: seq<string>, events: seq<Event>)
    requires forall i, j :: 0 <= i < j < |ids| ==> ids[i] != ids[j]
    requires forall k :: 0 <= k < |events| ==> events[k].Allocate?
    ensures var all := RunIds(ids, events);
            forall i, j :: 0 <= i < j < |all| ==> all[i] != all[j]
  {
    var all := RunIds(ids, events);
    RunIdsShape(ids, events, 0);
    forall i, j | 0 <= i < j < |all| ensures all[i] != all[j] {
      if j >= |ids| {
        AllocationsAreNew(ids, events, i, j);
      } else {
        assert all[..|ids|][i] == ids[i] && all[..|ids|][j] == ids[j];
      }
    }
  }

  // ---------------------------------------------------------------------------
  // The four numbered allocators
  // ---------------------------------------------------------------------------

  type Row = map<string, string>

  function Cell(row: Row, column: string, other: string): string {
    if column in row then row[column] else other
  }

  function Column(rows: seq<Row>, column: string): (cells: seq<string>)
    ensures |cells| == |rows|
    ensures forall i :: 0 <= i < |rows| ==> cells[i] == Cell(rows[i], column, "")
  {
    seq(|rows|, i requires 0 <= i < |rows| => Cell(rows[i], column, ""))
  }

  function MakeShotId(day: string, existing: seq<string>): string {
    NextId(ShotScheme(day), existing)
  }

  method MakeMaintenanceId(existing: seq<string>) returns (id: string)
    ensures id == NextId(MAINTENANCE, existing)
  {
    var highest := 0;
    for i := 0 to |existing|
      invariant highest == Greatest(Numbers(MAINTENANCE, existing[..i]), 0) >= 0
    {
      assert existing[..i + 1][..i] == existing[..i];
      var m := Number(MAINTENANCE, existing[i]);
      if m.Some? {
        assert m.value >= 0;
        GreatestOfMore(Numbers(MAINTENANCE, existing[..i]), m.value, 0);
        highest := if m.value > highest then m.value else highest;
        assert Numbers(MAINTENANCE, existing[..i + 1]) == Numbers(MAINTENANCE, existing[..i]) + [m.value];
      } else {
        assert Numbers(MAINTENANCE, existing[..i + 1]) == Numbers(MAINTENANCE, existing[..i]);
      }
    }
    assert existing[..|existing|] == existing;
    id := "MNT" + Pad(highest + 1, 3);
  }

  method NextCatalogId(rows: seq<Row>) returns (id: string)
    ensures id == NextId(CATALOG, Column(rows, "Catalog_ID"))
  {
    var nums: seq<int> := [];
    ghost var ids := Column(rows, "Catalog_ID");
    for i := 0 to |rows|
      invariant nums == Numbers(CATALOG, ids[..i])
    {
      assert ids[..i + 1][..i] == ids[..i];
      var cid := Cell(rows[i], "Catalog_ID", "");
      if "CAT" <= cid {
        var n := ParseInt(cid[3..]);
        if n.Some? {
          nums := nums + [n.value];
        }
      }
    }
    assert ids[..|rows|] == ids;
    id := "CAT" + Pad(Greatest(nums, 99) + 1, 3);
  }

  function HardwarePrefix(category: string): Option<string> {
    if category == "Machine" then Some("M")
    else if category == "Grinder" then Some("G")
    else if category == "Basket" then Some("B")
    else if category == "Storage" then Some("S")
    else None
  }

  /** None stands for the KeyError of an unknown category. */
  method NextHardwareId(rows: seq<Row>, category: string) returns (id: Option<string>)
    ensures id.None? <==> HardwarePrefix(category).None?
    ensures id.Some? ==> id.value == NextId(HardwareScheme(HardwarePrefix(category).value),
                                            Column(rows, "Hardware_ID"))
  {
    var prefix := HardwarePrefix(category);
    if prefix.None? {
      return None;
    }
    var nums: seq<int> := [];
    ghost var ids := Column(rows, "Hardware_ID");
    for i := 0 to |rows|
      invariant nums == Numbers(HardwareScheme(prefix.value), ids[..i])
    {
      assert ids[..i + 1][..i] == ids[..i];
      var hid := Cell(rows[i], "Hardware_ID", "");
      if prefix.value <= hid {
        var n := ParseInt(hid[|prefix.value|..]);
        if n.Some? {
          nums := nums + [n.value];
        }
      }
    }
    assert ids[..|rows|] == ids;
    if nums == [] {
      PadOne();
      return Some(prefix.value + "01");
    }
    return Some(prefix.value + Pad(Greatest(nums, 0) + 1, 2));
  }

  lemma PadOne()
    ensures Pad(1, 2) == "01"
  {
    assert Print(1) == "1";
    assert Zeros(1) == Zeros(0) + ['0'];
  }

  // ---------------------------------------------------------------------------
  // What the allocated ids look like
  // ---------------------------------------------------------------------------

  /** `tail` is digits that read as `k`. */
  predicate IsNumeral(tail: string, k: int) {
    tail != [] && AllDigits(tail) && Read(tail) == k
  }

  /** The `k`th shot id of the day, with any number of leading zeros and perhaps a final newline. */
  ghost predicate IsShotId(day: string, id: string, k: int) {
    exists tail :: IsNumeral(tail, k) && (id == "SH-" + day + "-" + tail || id == "SH-" + day + "-" + tail + "\n")
  }

  lemma ShotNumberIs(day: string, id: string, k: int)
    ensures Number(ShotScheme(day), id) == Some(k) <==> IsShotId(day, id, k)
  {
    var prefix := "SH-" + day + "-";
    if Number(ShotScheme(day), id) == Some(k) {
      var text := id[|prefix|..];
      var line := text != [] && text[|text| - 1] == '\n';
      var tail := if line then text[..|text| - 1] else text;
      assert IsNumeral(tail, k) && id == prefix + text && (line ==> id == prefix + tail + "\n");
    }
    if IsShotId(day, id, k) {
      var tail :| IsNumeral(tail, k) && (id == prefix + tail || id == prefix + tail + "\n");
      var text := id[|prefix|..];
      assert id == prefix + text && (text == tail || text == tail + "\n");
      assert IsDigit(tail[|tail| - 1]);
      assert text == tail + "\n" ==> text[..|text| - 1] == tail;
    }
  }

  /** Shots of one day are numbered from one; the next is one more than the greatest in the list. */
  ghost predicate IsNextOfDay(day: string, existing: seq<string>, n: int) {
    && n >= 1
    && (forall id, k :: id in existing && IsShotId(day, id, k) ==> k < n)
    && (n == 1 || exists id :: id in existing && IsShotId(day, id, n - 1))
  }

  lemma NextOfDayIsLeast(day: string, existing: seq<string>, n: int, m: int)
    requires IsNextOfDay(day, existing, n) && IsNextOfDay(day, existing, m)
    ensures n <= m
  {
    if n != 1 {
      var id :| id in existing && IsShotId(day, id, n - 1);
      assert n - 1 < m;
    }
  }

  lemma ShotIdIs(day: string, existing: seq<string>) returns (n: int)
    ensures MakeShotId(day, existing) == "SH-" + day + "-" + Pad(n, 2)
    ensures IsNextOfDay(day, existing, n)
  {
    var scheme := ShotScheme(day);
    var next := NextNumber(scheme, existing);
    NextNumberIs(scheme, existing);
    forall id, k | id in existing && IsShotId(day, id, k) ensures k < next {
      ShotNumberIs(day, id, k);
    }
    if id :| id in existing && Number(scheme, id) == Some(next - 1) {
      ShotNumberIs(day, id, next - 1);
    }
    n := next;
  }

  lemma MaintenanceNumberIs(id: string, k: int)
    ensures Number(MAINTENANCE, id) == Some(k) <==> exists tail :: IsNumeral(tail, k) && id == "MNT" + tail
  {
    if Number(MAINTENANCE, id) == Some(k) {
      assert id == "MNT" + id[3..] && IsNumeral(id[3..], k);
    }
    if tail :| IsNumeral(tail, k) && id == "MNT" + tail {
      assert id[3..] == tail;
    }
  }

  /** So is maintenance, with three digits. */
  lemma MaintenanceIdIs(existing: seq<string>) returns (n: nat)
    ensures NextId(MAINTENANCE, existing) == "MNT" + Pad(n, 3)
    ensures forall tail, k :: IsNumeral(tail, k) && "MNT" + tail in existing ==> k < n
    ensures n == 1 || exists tail :: IsNumeral(tail, n - 1) && "MNT" + tail in existing
    ensures n >= 1
  {
    var next := NextNumber(MAINTENANCE, existing);
    NextNumberIs(MAINTENANCE, existing);
    forall tail, k | IsNumeral(tail, k) && "MNT" + tail in existing ensures k < next {
      MaintenanceNumberIs("MNT" + tail, k);
    }
    if id :| id in existing && Number(MAINTENANCE, id) == Some(next - 1) {
      MaintenanceNumberIs(id, next - 1);
    }
    n := next;
  }

  /** Where `int` does the reading: whatever it accepts after the prefix counts. */
  lemma IntegerIdIs(prefix: string, before: nat, width: nat, existing: seq<string>) returns (n: int)
    ensures NextId(Scheme(prefix, Integer, before, width), existing) == prefix + Pad(n, width)
    ensures forall tail :: prefix + tail in existing && ParseInt(tail).Some? ==> ParseInt(tail).value < n
    ensures (exists tail :: prefix + tail in existing && ParseInt(tail) == Some(n - 1))
            || (n == before + 1 && forall tail :: prefix + tail in existing ==> ParseInt(tail).None?)
  {
    var scheme := Scheme(prefix, Integer, before, width);
    n := NextNumber(scheme, existing);
    NextNumberIs(scheme, existing);
    forall tail ensures Number(scheme, prefix + tail) == ParseInt(tail) {
      assert (prefix + tail)[|prefix|..] == tail;
    }
    if id :| id in existing && Number(scheme, id) == Some(n - 1) {
      assert id == prefix + id[|prefix|..];
    }
  }

  /** Catalog rows are numbered from one hundred. */
  lemma CatalogIdIs(existing: seq<string>) returns (n: int)
    ensures NextId(CATALOG, existing) == "CAT" + Pad(n, 3)
    ensures forall tail :: "CAT" + tail in existing && ParseInt(tail).Some? ==> ParseInt(tail).value < n
    ensures (exists tail :: "CAT" + tail in existing && ParseInt(tail) == Some(n - 1))
            || (n == 100 && forall tail :: "CAT" + tail in existing ==> ParseInt(tail).None?)
  {
    n := IntegerIdIs("CAT", 99, 3, existing);
  }

  /** Hardware is numbered from one, under the first letter of its category. */
  lemma HardwareIdIs(category: string, existing: seq<string>) returns (n: int)
    requires category in {"Machine", "Grinder", "Basket", "Storage"}
    ensures HardwarePrefix(category) == Some(category[..1])
    ensures NextId(HardwareScheme(category[..1]), existing) == category[..1] + Pad(n, 2)
    ensures forall tail :: category[..1] + tail in existing && ParseInt(tail).Some? ==> ParseInt(tail).value < n
    ensures (exists tail :: category[..1] + tail in existing && ParseInt(tail) == Some(n - 1))
            || (n == 1 && forall tail :: category[..1] + tail in existing ==> ParseInt(tail).None?)
  {
    assert "Machine"[..1] == "M" && "Grinder"[..1] == "G" && "Basket"[..1] == "B" && "Storage"[..1] == "S";
    n := IntegerIdIs(category[..1], 0, 2, existing);
  }

  // ---------------------------------------------------------------------------
  // Bags
  // ---------------------------------------------------------------------------

  datatype IdError = BlankRoaster | UnknownLevel

  function Upper(c: char): (r: char)
    ensures !('a' <= r <= 'z')
    ensures 'a' <= c <= 'z' ==> r as int == c as int - 32
    ensures c < 'a' || c > 'z' ==> r == c
  {
    if 'a' <= c <= 'z' then c - 'a' + 'A' else c
  }

  predicate IsLetter(c: char) {
    'a' <= c <= 'z' || 'A' <= c <= 'Z'
  }

  /** `str.title` on at most two characters: a letter after a letter is lowered, any other raised. */
  function Title(s: string): string
    requires |s| <= 2
  {
    if |s| < 2 then seq(|s|, i requires 0 <= i < |s| => Upper(s[i]))
    else [Upper(s[0]), if IsLetter(s[0]) then LowerChar(s[1]) else Upper(s[1])]
  }

  function FirstWord(s: string): string {
    if s == [] || IsSpace(s[0]) then [] else [s[0]] + FirstWord(s[1..])
  }

  function RoasterCode(roaster: string): Result<string, IdError> {
    var name := Strip(roaster);
    if name == [] then Err(BlankRoaster)
    else
      var word := FirstWord(name);
      Ok(Title(word[..if |word| < 2 then |word| else 2]))
  }

  function LevelCode(level: string): Result<string, IdError> {
    if level == "Light" then Ok("L")
    else if level == "Light / Medium" then Ok("LM")
    else if level == "Medium" then Ok("M")
    else if level == "Medium / Dark" then Ok("MD")
    else if level == "Dark" then Ok("D")
    else Err(UnknownLevel)
  }

  function BagBase(roaster: string, day: string, level: string): Result<string, IdError> {
    var code := RoasterCode(roaster);
    if code.Err? then code
    else
      var suffix := LevelCode(level);
      if suffix.Err? then suffix else Ok(code.value + day + suffix.value)
  }

  lemma {:induction false} StripRightOfBlank(s: string)
    requires s != [] && !IsSpace(s[0])
    ensures StripRight(s) != [] && StripRight(s)[0] == s[0]
  {
    if IsSpace(s[|s| - 1]) {
      StripRightOfBlank(s[..|s| - 1]);
    }
  }

  /** A base is refused exactly for a roaster without a visible character or an unknown level;
      otherwise its code is one or two characters long. */
  lemma BagBaseIsRefusedIff(roaster: string, day: string, level: string)
    ensures BagBase(roaster, day, level).Err?
            <==> Blank(roaster) || level !in {"Light", "Light / Medium", "Medium", "Medium / Dark", "Dark"}
    ensures RoasterCode(roaster).Ok? ==> 1 <= |RoasterCode(roaster).value| <= 2
  {
    StripLeftOfBlank(roaster);
    StripLeftStart(roaster);
    if StripLeft(roaster) != [] {
      StripRightOfBlank(StripLeft(roaster));
    }
  }

  lemma {:induction false} FirstWordIs(word: string, rest: string)
    requires forall i :: 0 <= i < |word| ==> !IsSpace(word[i])
    requires rest == [] || IsSpace(rest[0])
    ensures FirstWord(word + rest) == word
  {
    if word == [] {
      assert word + rest == rest;
    } else {
      assert (word + rest)[1..] == word[1..] + rest;
      FirstWordIs(word[1..], rest);
      assert word == [word[0]] + word[1..];
    }
  }

  lemma {:induction false} StripRightKeeps(word: string, rest: string) returns (n: nat)
    requires word != [] && !IsSpace(word[|word| - 1])
    ensures n <= |rest| && StripRight(word + rest) == word + rest[..n]
  {
    var text := word + rest;
    n := |rest|;
    if rest != [] && IsSpace(rest[n - 1]) {
      assert text[..|text| - 1] == word + rest[..n - 1];
      n := StripRightKeeps(word, rest[..n - 1]);
    }
    assert rest == [] ==> text == word;
  }

  /** The first word keeps its letters when the space around the text is dropped. */
  lemma FirstWordOfText(left: string, word: string, rest: string)
    requires Blank(left) && word != [] && (forall i :: 0 <= i < |word| ==> !IsSpace(word[i]))
    requires rest == [] || IsSpace(rest[0])
    ensures Strip(left + (word + rest)) != [] && FirstWord(Strip(left + (word + rest))) == word
  {
    var text := word + rest;
    StripLeftSkips(left, text);
    var n := StripRightKeeps(word, rest);
    FirstWordIs(word, rest[..n]);
  }

  /** A bag's id is the code of the roaster, the day, and the code of the level.  The roaster's code is the
      first two characters of the first word, the first raised and a letter after a letter lowered. */
  lemma BagBaseIs(left: string, word: string, rest: string, day: string) returns (code: string)
    requires Blank(left) && word != [] && (forall i :: 0 <= i < |word| ==> !IsSpace(word[i]))
    requires rest == [] || IsSpace(rest[0])
    ensures 1 <= |code| && (|code| == 2 <==> |word| >= 2) && |code| <= 2
    ensures code[0] == Upper(word[0])
    ensures |word| >= 2 ==> code[1] == if IsLetter(word[0]) then LowerChar(word[1]) else Upper(word[1])
    ensures var roaster := left + (word + rest);
      && BagBase(roaster, day, "Light") == Ok(code + day + "L")
      && BagBase(roaster, day, "Light / Medium") == Ok(code + day + "LM")
      && BagBase(roaster, day, "Medium") == Ok(code + day + "M")
      && BagBase(roaster, day, "Medium / Dark") == Ok(code + day + "MD")
      && BagBase(roaster, day, "Dark") == Ok(code + day + "D")
  {
    FirstWordOfText(left, word, rest);
    code := Title(word[..if |word| < 2 then |word| else 2]);
  }

  lemma BagExample()
    ensures BagBase("Verve Coffee", "20250201", "Medium") == Ok("Ve20250201M")
  {
    var code := BagBaseIs("", "Verve", " Coffee", "20250201");
    assert "" + ("Verve" + " Coffee") == "Verve Coffee";
    assert code == ['V', 'e'];
    assert code + "20250201" + "M" == "Ve20250201M";
  }

  function Suffixed(base: string, n: nat): string {
    base + "-" + Print(n)
  }

  /** The base and its suffixes from 2 up to, but not with, `n`. */
  function Candidates(base: string, n: nat): set<string> {
    if n <= 2 then {base} else Candidates(base, n - 1) + {Suffixed(base, n - 1)}
  }

  lemma SuffixedIsInjective(base: string, m: nat, n: nat)
    ensures Suffixed(base, m) != base
    ensures Suffixed(base, m) == Suffixed(base, n) ==> m == n
  {
    var k := |base| + 1;
    assert Suffixed(base, m)[k..] == Print(m) && Suffixed(base, n)[k..] == Print(n);
    ReadPrint(m);
    ReadPrint(n);
  }

  lemma {:induction false} CandidatesDiffer(base: string, n: nat)
    requires n >= 2
    ensures |Candidates(base, n)| == n - 1
    ensures forall k :: k >= n ==> Suffixed(base, k) !in Candidates(base, n)
  {
    if n > 2 {
      CandidatesDiffer(base, n - 1);
    }
    forall k: nat | k >= n ensures Suffixed(base, k) !in Candidates(base, n) {
      SuffixedIsInjective(base, k, n - 1);
    }
  }

  function Distinct(ids: seq<string>): set<string> {
    set id | id in ids
  }

  /** The search ends for every list of ids, with the smallest free suffix, which is at most one
      more than the number of distinct ids. */
  method MakeInventoryId(roaster: string, day: string, level: string, existing: seq<string>)
      returns (id: Result<string, IdError>)
    ensures id.Err? <==> BagBase(roaster, day, level).Err?
    ensures id.Err? ==> id == BagBase(roaster, day, level)
    ensures id.Ok? ==> id.value !in existing
    ensures id.Ok? && BagBase(roaster, day, level).value !in existing ==> id == BagBase(roaster, day, level)
    ensures id.Ok? && BagBase(roaster, day, level).value in existing
            ==> (exists n: nat :: 2 <= n <= |Distinct(existing)| + 1
                                  && id.value == BagBase(roaster, day, level).value + "-" + Print(n)
                                  && forall k :: 2 <= k < n ==> BagBase(roaster, day, level).value + "-" + Print(k) in existing)
  {
    var made := BagBase(roaster, day, level);
    if made.Err? {
      return made;
    }
    var base := made.value;
    if base !in existing {
      return Ok(base);
    }
    var n: nat := 2;
    CandidatesFit(base, n, existing);
    while Suffixed(base, n) in existing
      invariant 2 <= n <= |Distinct(existing)| + 1
      invariant Candidates(base, n) <= Distinct(existing)
      invariant forall k :: 2 <= k < n ==> base + "-" + Print(k) in existing
      decreases |Distinct(existing)| + 1 - n
    {
      n := n + 1;
      CandidatesFit(base, n, existing);
    }
    return Ok(Suffixed(base, n));
  }

  lemma CandidatesFit(base: string, n: nat, existing: seq<string>)
    requires n >= 2 && Candidates(base, n) <= Distinct(existing)
    ensures n <= |Distinct(existing)| + 1
  {
    CandidatesDiffer(base, n);
    SubsetCardinality(Candidates(base, n), Distinct(existing));
  }
}
