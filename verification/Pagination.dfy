/** The paged brew log: a newest-first stable sort, cut into pages by number. */
module Pagination {
  import opened Basics

  /** A shot by its sort key; `rest` is everything else on the row. */
  datatype Shot = Shot(date: string, id: string, rest: string)

  type Key = (string, string)

  function KeyOf(s: Shot): Key {
    (s.date, s.id)
  }

  predicate KeyLeq(a: Key, b: Key) {
    if a.0 == b.0 then LexLeq(a.1, b.1) else LexLeq(a.0, b.0)
  }

  lemma KeyOrder(a: Key, b: Key, c: Key)
    ensures KeyLeq(a, b) || KeyLeq(b, a)
    ensures KeyLeq(a, b) && KeyLeq(b, a) ==> a == b
    ensures KeyLeq(a, b) && KeyLeq(b, c) ==> KeyLeq(a, c)
  {
    LexTotal(a.0, b.0);
    LexTotal(a.1, b.1);
    if LexLeq(a.0, b.0) && LexLeq(b.0, a.0) {
      LexAntisymmetric(a.0, b.0);
    }
    if LexLeq(a.1, b.1) && LexLeq(b.1, a.1) {
      LexAntisymmetric(a.1, b.1);
    }
    if KeyLeq(a, b) && KeyLeq(b, c) {
      KeyLeqTransitive(a, b, c);
    }
  }

  lemma KeyLeqTransitive(a: Key, b: Key, c: Key)
    requires KeyLeq(a, b) && KeyLeq(b, c)
    ensures KeyLeq(a, c)
  {
    if a.0 == b.0 == c.0 {
      LexTransitive(a.1, b.1, c.1);
    } else if a.0 != b.0 && b.0 != c.0 {
      LexTransitive(a.0, b.0, c.0);
      if a.0 == c.0 {
        LexAntisymmetric(a.0, b.0);
      }
    }
  }

  // ---------------------------------------------------------------------------
  // Newest first
  // ---------------------------------------------------------------------------

  /** Put `x` before the first shot that is not newer than it. */
  function InsertShot(x: Shot, s: seq<Shot>): seq<Shot> {
    if s == [] || KeyLeq(KeyOf(s[0]), KeyOf(x)) then [x] + s else [s[0]] + InsertShot(x, s[1..])
  }

  /** `sorted(..., reverse=True)`, which keeps the order of shots with equal keys. */
  function NewestFirst(log: seq<Shot>): seq<Shot> {
    if log == [] then [] else InsertShot(log[0], NewestFirst(log[1..]))
  }

  predicate Ordered(s: seq<Shot>) {
    forall i, j :: 0 <= i < j < |s| ==> KeyLeq(KeyOf(s[j]), KeyOf(s[i]))
  }

  function WithKey(s: seq<Shot>, k: Key): seq<Shot> {
    if s == [] then [] else (if KeyOf(s[0]) == k then [s[0]] else []) + WithKey(s[1..], k)
  }

  /** `s` and `t` hold the same shots, and those with equal keys stand in the same order. */
  ghost predicate SameByKey(s: seq<Shot>, t: seq<Shot>) {
    forall k: Key :: WithKey(s, k) == WithKey(t, k)
  }

  lemma {:induction false} InsertKeepsOrder(x: Shot, s: seq<Shot>)
    requires Ordered(s)
    ensures Ordered(InsertShot(x, s)) && multiset(InsertShot(x, s)) == multiset(s) + multiset{x}
  {
    if s == [] {
    } else if KeyLeq(KeyOf(s[0]), KeyOf(x)) {
      forall j | 0 <= j < |s| ensures KeyLeq(KeyOf(s[j]), KeyOf(x)) {
        KeyOrder(KeyOf(s[j]), KeyOf(s[0]), KeyOf(x));
      }
    } else {
      var rest := InsertShot(x, s[1..]);
      InsertKeepsOrder(x, s[1..]);
      assert s == [s[0]] + s[1..];
      KeyOrder(KeyOf(s[0]), KeyOf(x), KeyOf(x));
      forall j | 0 <= j < |rest| ensures KeyLeq(KeyOf(rest[j]), KeyOf(s[0])) {
        assert rest[j] in multiset(s[1..]) + multiset{x};
      }
    }
  }

  lemma {:induction false} InsertKeepsKeys(x: Shot, s: seq<Shot>, k: Key)
    ensures WithKey(InsertShot(x, s), k) == (if KeyOf(x) == k then [x] else []) + WithKey(s, k)
  {
    if s != [] && !KeyLeq(KeyOf(s[0]), KeyOf(x)) {
      InsertKeepsKeys(x, s[1..], k);
      KeyOrder(KeyOf(x), KeyOf(x), KeyOf(x));
    }
  }

  lemma {:induction false} NewestFirstKeepsKeys(log: seq<Shot>, k: Key)
    ensures WithKey(NewestFirst(log), k) == WithKey(log, k)
  {
    if log != [] {
      NewestFirstKeepsKeys(log[1..], k);
      InsertKeepsKeys(log[0], NewestFirst(log[1..]), k);
    }
  }

  lemma {:induction false} NewestFirstIsOrdered(log: seq<Shot>)
    ensures Ordered(NewestFirst(log)) && multiset(NewestFirst(log)) == multiset(log)
  {
    if log != [] {
      NewestFirstIsOrdered(log[1..]);
      InsertKeepsOrder(log[0], NewestFirst(log[1..]));
      assert log == [log[0]] + log[1..];
    }
  }

  lemma {:induction false} HasItsKey(s: seq<Shot>, i: nat)
    requires i < |s|
    ensures WithKey(s, KeyOf(s[i])) != []
  {
    if i > 0 {
      HasItsKey(s[1..], i - 1);
    }
  }

  lemma {:induction false} KeyIsHad(s: seq<Shot>, k: Key)
    requires WithKey(s, k) != []
    ensures exists i :: 0 <= i < |s| && KeyOf(s[i]) == k
  {
    if KeyOf(s[0]) != k {
      KeyIsHad(s[1..], k);
      var i :| 0 <= i < |s| - 1 && KeyOf(s[1..][i]) == k;
      assert KeyOf(s[i + 1]) == k;
    }
  }

  lemma FirstIsNewest(s: seq<Shot>, t: seq<Shot>)
    requires s != [] && t != [] && Ordered(s) && WithKey(s, KeyOf(t[0])) != []
    ensures KeyLeq(KeyOf(t[0]), KeyOf(s[0]))
  {
    KeyIsHad(s, KeyOf(t[0]));
    KeyOrder(KeyOf(s[0]), KeyOf(s[0]), KeyOf(s[0]));
  }

  lemma TailWithKey(s: seq<Shot>, k: Key)
    requires s != []
    ensures KeyOf(s[0]) == k ==> WithKey(s, k) != []
    ensures WithKey(s[1..], k) == if KeyOf(s[0]) == k then WithKey(s, k)[1..] else WithKey(s, k)
  {
  }

  /** Order and stability leave one possible result. */
  lemma {:induction false} OrderedIsUnique(s: seq<Shot>, t: seq<Shot>)
    requires Ordered(s) && Ordered(t) && SameByKey(s, t)
    ensures s == t
  {
    if s != [] {
      HasItsKey(s, 0);
    }
    if t != [] {
      HasItsKey(t, 0);
    }
    if s != [] && t != [] {
      FirstIsNewest(s, t);
      FirstIsNewest(t, s);
      KeyOrder(KeyOf(s[0]), KeyOf(t[0]), KeyOf(t[0]));
      assert WithKey(s, KeyOf(s[0]))[0] == s[0] && WithKey(t, KeyOf(s[0]))[0] == t[0];
      forall k: Key ensures WithKey(s[1..], k) == WithKey(t[1..], k) {
        TailWithKey(s, k);
        TailWithKey(t, k);
        assert WithKey(s, k) == WithKey(t, k);
      }
      OrderedIsUnique(s[1..], t[1..]);
      assert s == [s[0]] + s[1..] && t == [t[0]] + t[1..];
    }
  }

  /** The sort is the one list that is ordered newest first and stable. */
  lemma NewestFirstIsTheStableSort(log: seq<Shot>, s: seq<Shot>)
    ensures s == NewestFirst(log) <==> Ordered(s) && SameByKey(s, log)
  {
    NewestFirstIsOrdered(log);
    forall k: Key ensures WithKey(NewestFirst(log), k) == WithKey(log, k) {
      NewestFirstKeepsKeys(log, k);
    }
    if Ordered(s) && SameByKey(s, log) {
      OrderedIsUnique(s, NewestFirst(log));
    }
  }

  // ---------------------------------------------------------------------------
  // Pages
  // ---------------------------------------------------------------------------

  datatype PageOut = PageOut(items: seq<Shot>, page: int, perPage: int, total: nat, hasNext: bool)

  /** `rows[lo:hi]` for a start that is not negative: bounds past the end are cut. */
  function Slice(rows: seq<Shot>, lo: nat, hi: nat): seq<Shot>
    requires lo <= hi
  {
    if lo >= |rows| then [] else if hi >= |rows| then rows[lo..] else rows[lo..hi]
  }

  function ClampPage(page: int): int {
    if page < 1 then 1 else page
  }

  function ClampPerPage(perPage: int): int {
    if perPage > 100 then 100 else if perPage < 1 then 1 else perPage
  }

  lemma OffsetIsNatural(page: int, perPage: int)
    requires page >= 1 && perPage >= 1
    ensures 0 <= (page - 1) * perPage < page * perPage
    ensures page * perPage == (page - 1) * perPage + perPage
  {
  }

  /** GET /brew-log with the page and page size that the caller asked for. */
  function ListPage(log: seq<Shot>, page: int, perPage: int): PageOut {
    var p, n := ClampPage(page), ClampPerPage(perPage);
    OffsetIsNatural(p, n);
    var offset := (p - 1) * n;
    PageOut(Slice(NewestFirst(log), offset, offset + n), p, n, |log|, p * n < |log|)
  }

  /** Asked for `n` shots, up to a hundred, page `p` holds the `n` shots of the sorted log that come after the
      `before` shots of the earlier pages, or as many of them as there are. */
  lemma PageIs(log: seq<Shot>, p: int, n: int, before: int)
    requires p >= 1 && 1 <= n <= 100 && before == (p - 1) * n
    ensures var out, sorted := ListPage(log, p, n), NewestFirst(log);
      && out.page == p && out.perPage == n && out.total == |log| == |sorted|
      && |out.items| == (if before + n <= |log| then n else if before <= |log| then |log| - before else 0)
      && (forall k :: 0 <= k < |out.items| ==> 0 <= before + k < |log| && out.items[k] == sorted[before + k])
      && (out.hasNext <==> before + n < |log|)
  {
    NewestFirstIsOrdered(log);
    assert |NewestFirst(log)| == |multiset(log)|;
    OffsetIsNatural(p, n);
    assert ListPage(log, p, n).items == Slice(NewestFirst(log), before, before + n);
  }

  /** More than a hundred is a hundred, and less than one is one; so is a page before the first. */
  lemma PageIsClamped(log: seq<Shot>, p: int, n: int)
    ensures n > 100 ==> ListPage(log, p, n) == ListPage(log, p, 100)
    ensures n < 1 ==> ListPage(log, p, n) == ListPage(log, p, 1)
    ensures p < 1 ==> ListPage(log, p, n) == ListPage(log, 1, n)
  {
  }

  /** The shots met by asking for a page and then, while `hasNext` holds, for the one after it. */
  function Walk(log: seq<Shot>, page: int, perPage: int): seq<Shot>
    decreases |log| - ClampPage(page)
  {
    var out := ListPage(log, page, perPage);
    OffsetIsNatural(out.page, out.perPage);
    if out.hasNext then
      PageBelowTotal(out.page, out.perPage, |log|);
      out.items + Walk(log, out.page + 1, perPage)
    else out.items
  }

  lemma PageBelowTotal(page: int, perPage: int, total: nat)
    requires page >= 1 && perPage >= 1 && page * perPage < total
    ensures page < total
  {
    assert page * perPage >= page * 1;
  }

  /** The walk from the first page meets every shot once, newest first, whatever page size was
      asked for. */
  lemma WalkIsTheSortedLog(log: seq<Shot>, perPage: int)
    ensures Walk(log, 1, perPage) == NewestFirst(log)
  {
    NewestFirstIsOrdered(log);
    assert |NewestFirst(log)| == |multiset(log)|;
    WalkIsTheRest(log, 1, perPage);
  }

  lemma {:induction false} WalkIsTheRest(log: seq<Shot>, page: int, perPage: int)
    requires page >= 1 && |NewestFirst(log)| == |log|
    ensures (page - 1) * ClampPerPage(perPage) >= 0
    ensures var offset := (page - 1) * ClampPerPage(perPage);
            Walk(log, page, perPage) == if offset >= |log| then [] else NewestFirst(log)[offset..]
    decreases |log| - page
  {
    var out := ListPage(log, page, perPage);
    OffsetIsNatural(page, out.perPage);
    if out.hasNext {
      PageBelowTotal(page, out.perPage, |log|);
      WalkIsTheRest(log, page + 1, perPage);
      var s, lo, hi := NewestFirst(log), (page - 1) * out.perPage, page * out.perPage;
      assert s[lo..] == s[lo..hi] + s[hi..];
    }
  }

  /** `hasNext` promises a page with something on it, and its absence an empty one. */
  lemma HasNextIff(log: seq<Shot>, page: int, perPage: int)
    ensures var out := ListPage(log, page, perPage);
            out.hasNext <==> ListPage(log, out.page + 1, perPage).items != []
  {
    NewestFirstIsOrdered(log);
    assert |NewestFirst(log)| == |multiset(log)|;
    var out := ListPage(log, page, perPage);
    OffsetIsNatural(out.page, out.perPage);
    OffsetIsNatural(out.page + 1, out.perPage);
  }
}
