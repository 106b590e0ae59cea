/** The in-memory store of responses by idempotency key, with passive eviction. */
module Idempotency {
  import opened Basics

  type Response = string

  /** A sentinel is in flight and has no response yet. */
  datatype Entry = Entry(response: Option<Response>, ts: Time, inFlight: bool)

  type Cache = map<string, Entry>

  const DEFAULT_TTL: Time := 300

  function Sweep(cache: Cache, cutoff: Time): Cache {
    map k | k in cache && cache[k].ts >= cutoff :: cache[k]
  }

  /** What a check leaves behind: expired entries gone, and a sentinel if nothing is left there. */
  function Checked(cache: Cache, ttl: Time, key: string, now: Time, later: Time): Cache {
    var swept := Sweep(cache, now - ttl);
    if key in swept then swept else swept[key := Entry(None, later, true)]
  }

  function Stored(cache: Cache, key: string, response: Response, now: Time): Cache {
    cache[key := Entry(Some(response), if key in cache then cache[key].ts else now, false)]
  }

  /** What a check answers. */
  function Answer(cache: Cache, ttl: Time, key: string, now: Time): Option<Response> {
    var swept := Sweep(cache, now - ttl);
    if key in swept && !swept[key].inFlight then swept[key].response else None
  }

  class IdempotencyStore {
    var ttl: Time
    var cache: Cache

    constructor (ttl: Time)
      ensures this.ttl == ttl && cache == map[]
    {
      this.ttl := ttl;
      cache := map[];
    }

    /** Exactly the entries older than the time to live go. */
    method EvictExpired(now: Time)
      modifies this`cache
      ensures cache == Sweep(old(cache), now - ttl)
    {
      var cutoff := now - ttl;
      var expired := set k | k in cache && cache[k].ts < cutoff;
      while expired != {}
        invariant cache.Keys <= old(cache.Keys)
        invariant forall k <- cache :: cache[k] == old(cache)[k]
        invariant forall k <- old(cache) :: k !in cache ==> old(cache)[k].ts < cutoff
        invariant expired == set k | k in cache && cache[k].ts < cutoff
      {
        var k :| k in expired;
        cache := cache - {k};
        expired := expired - {k};
      }
      assert forall k <- cache :: k !in expired;
    }

    /** The clock is read for the sweep, and again, not earlier, for a new sentinel. */
    method CheckAndSetSentinel(key: string, now: Time, later: Time) returns (response: Option<Response>)
      modifies this`cache
      ensures response == Answer(old(cache), ttl, key, now)
      ensures cache == Checked(old(cache), ttl, key, now, later)
    {
      EvictExpired(now);
      if key in cache && !cache[key].inFlight {
        return cache[key].response;
      }
      if key in cache && cache[key].inFlight {
        return None;
      }
      cache := cache[key := Entry(None, later, true)];
      return None;
    }

    /** The time of an entry that is there is kept. */
    method Store(key: string, response: Response, now: Time)
      modifies this`cache
      ensures cache == Stored(old(cache), key, response, now)
    {
      var ts := now;
      if key in cache {
        ts := cache[key].ts;
      }
      cache := cache[key := Entry(Some(response), ts, false)];
    }

    method Clear()
      modifies this`cache
      ensures cache == map[]
    {
      cache := map[];
    }
  }

  // ---------------------------------------------------------------------------
  // Histories
  // ---------------------------------------------------------------------------

  datatype Event =
    | Check(key: string, now: Time, later: Time)
    | Store(key: string, response: Response, now: Time)
    | Clear(now: Time)

  function After(h: seq<Event>, ttl: Time): Cache {
    if h == [] then map[]
    else
      var before := After(h[..|h| - 1], ttl);
      match h[|h| - 1]
      case Check(key, now, later) => Checked(before, ttl, key, now, later)
      case Store(key, response, now) => Stored(before, key, response, now)
      case Clear(_) => map[]
  }

  function EndOf(e: Event): Time {
    if e.Check? then e.later else e.now
  }

  /** The clock never goes back: every event ends before the next one starts. */
  predicate Clocked(h: seq<Event>) {
    && (forall i :: 0 <= i < |h| && h[i].Check? ==> h[i].now <= h[i].later)
    && forall i, j :: 0 <= i < j < |h| ==> EndOf(h[i]) <= h[j].now
  }

  /** Event `i` is the last thing stored under `key`, and nothing was cleared since. */
  predicate LastStored(h: seq<Event>, key: string, i: int) {
    && 0 <= i < |h| && h[i].Store? && h[i].key == key
    && forall j :: i < j < |h| ==> !h[j].Clear? && !(h[j].Store? && h[j].key == key)
  }

  ghost predicate IsStored(h: seq<Event>, key: string) {
    exists i :: LastStored(h, key, i)
  }

  /** A complete entry holds the last response stored under its key, and is not younger than it. */
  lemma {:induction false} EntryIsLastStored(h: seq<Event>, ttl: Time, key: string) returns (i: int)
    requires Clocked(h) && key in After(h, ttl) && !After(h, ttl)[key].inFlight
    ensures LastStored(h, key, i)
    ensures After(h, ttl)[key].response == Some(h[i].response) && After(h, ttl)[key].ts <= h[i].now
  {
    var front, last := h[..|h| - 1], h[|h| - 1];
    if last.Store? && last.key == key {
      i := |h| - 1;
      if key in After(front, ttl) {
        EntryIsNotLater(front, ttl, key, last.now);
      }
    } else {
      i := EntryIsLastStored(front, ttl, key);
    }
  }

  lemma {:induction false} EntryIsNotLater(h: seq<Event>, ttl: Time, key: string, t: Time)
    requires Clocked(h) && key in After(h, ttl)
    requires forall i :: 0 <= i < |h| ==> EndOf(h[i]) <= t
    ensures After(h, ttl)[key].ts <= t
  {
    var front, last := h[..|h| - 1], h[|h| - 1];
    if key in After(front, ttl) {
      EntryIsNotLater(front, ttl, key, t);
    }
  }

  /** A check answers with nothing but the last response stored under its key, and that was stored
      no longer ago than the time to live; an entry in flight never answers. */
  lemma AnswerIsLatestAndRecent(h: seq<Event>, ttl: Time, key: string, now: Time) returns (i: int)
    requires Clocked(h) && (forall j :: 0 <= j < |h| ==> EndOf(h[j]) <= now)
    requires Answer(After(h, ttl), ttl, key, now).Some?
    ensures LastStored(h, key, i) && Answer(After(h, ttl), ttl, key, now) == Some(h[i].response)
    ensures now - ttl <= h[i].now <= now
  {
    i := EntryIsLastStored(h, ttl, key);
  }

  // ---------------------------------------------------------------------------
  // From when the time to live counts
  // ---------------------------------------------------------------------------

  predicate Mentions(e: Event, key: string) {
    !e.Clear? && e.key == key
  }

  /** Event `f` is the first receipt of `key`: nothing before it names the key, or clears. */
  predicate FirstReceipt(h: seq<Event>, key: string, f: int) {
    && 0 <= f < |h| && Mentions(h[f], key)
    && (forall j :: 0 <= j < f ==> !Mentions(h[j], key))
    && forall j :: f <= j < |h| ==> !h[j].Clear?
  }

  /** Some check, of whatever key, came more than the time to live after time `t`. */
  predicate SweptAfter(h: seq<Event>, ttl: Time, f: int, t: Time) {
    exists j :: 0 <= f < j < |h| && h[j].Check? && h[j].now - ttl > t
  }

  lemma {:induction false} AbsentBefore(h: seq<Event>, ttl: Time, key: string)
    requires forall j :: 0 <= j < |h| ==> !Mentions(h[j], key)
    ensures key !in After(h, ttl)
  {
    if h != [] {
      AbsentBefore(h[..|h| - 1], ttl, key);
    }
  }

  lemma SweptStep(h: seq<Event>, ttl: Time, f: int, t: Time)
    requires 0 <= f < |h| - 1
    ensures var front, last := h[..|h| - 1], h[|h| - 1];
            SweptAfter(h, ttl, f, t) == (SweptAfter(front, ttl, f, t) || (last.Check? && last.now - ttl > t))
    ensures Clocked(h) && ttl >= 0 && SweptAfter(h[..|h| - 1], ttl, f, t) ==> h[|h| - 1].now > t
  {
    var front, last := h[..|h| - 1], h[|h| - 1];
    if SweptAfter(front, ttl, f, t) {
      var j :| f < j < |front| && front[j].Check? && front[j].now - ttl > t;
      assert h[j] == front[j];
    }
    if SweptAfter(h, ttl, f, t) {
      var j :| f < j < |h| && h[j].Check? && h[j].now - ttl > t;
      assert j < |front| ==> front[j] == h[j];
    }
  }

  predicate OpenedAt(cache: Cache, key: string, t: Time) {
    key in cache && cache[key].ts == t
  }

  /** An entry bears the time of the first receipt exactly as long as no check, of this or of
      another key, came later than the time to live after it: such a check drops the sentinel. */
  lemma {:induction false} EntryTimeIsFirstReceiptIff(h: seq<Event>, ttl: Time, key: string, f: int)
    requires Clocked(h) && FirstReceipt(h, key, f) && ttl >= 0
    ensures OpenedAt(After(h, ttl), key, EndOf(h[f])) <==> !SweptAfter(h, ttl, f, EndOf(h[f]))
  {
    var front, last, t := h[..|h| - 1], h[|h| - 1], EndOf(h[f]);
    if f == |h| - 1 {
      AbsentBefore(front, ttl, key);
    } else {
      EntryTimeIsFirstReceiptIff(front, ttl, key, f);
      SweptStep(h, ttl, f, t);
    }
  }

  /** So a check that follows replays the last response if and only if one was stored and the
      first receipt is no longer ago than the time to live, unless a sweep came in between. */
  lemma AnswersWithinFirstReceiptIff(h: seq<Event>, ttl: Time, key: string, f: int, now: Time)
    requires Clocked(h) && FirstReceipt(h, key, f) && ttl >= 0
    requires !SweptAfter(h, ttl, f, EndOf(h[f]))
    ensures Answer(After(h, ttl), ttl, key, now).Some?
            <==> IsStored(h, key) && now - EndOf(h[f]) <= ttl
  {
    EntryTimeIsFirstReceiptIff(h, ttl, key, f);
    CompleteIffStored(h, ttl, key, f);
  }

  lemma {:induction false} CompleteIffStored(h: seq<Event>, ttl: Time, key: string, f: int)
    requires Clocked(h) && FirstReceipt(h, key, f) && ttl >= 0
    requires !SweptAfter(h, ttl, f, EndOf(h[f]))
    ensures key in After(h, ttl)
    ensures !After(h, ttl)[key].inFlight <==> IsStored(h, key)
    ensures After(h, ttl)[key].inFlight <==> After(h, ttl)[key].response.None?
  {
    var front, last, t := h[..|h| - 1], h[|h| - 1], EndOf(h[f]);
    EntryTimeIsFirstReceiptIff(h, ttl, key, f);
    if f == |h| - 1 {
      AbsentBefore(front, ttl, key);
      if last.Store? {
        assert LastStored(h, key, f);
      }
    } else {
      SweptStep(h, ttl, f, t);
      CompleteIffStored(front, ttl, key, f);
      EntryTimeIsFirstReceiptIff(front, ttl, key, f);
      StoredStep(h, key);
    }
  }

  lemma StoredStep(h: seq<Event>, key: string)
    requires h != [] && !h[|h| - 1].Clear?
    ensures var last := h[|h| - 1];
            IsStored(h, key) == (IsStored(h[..|h| - 1], key) || (last.Store? && last.key == key))
  {
    var front, last := h[..|h| - 1], h[|h| - 1];
    if last.Store? && last.key == key {
      assert LastStored(h, key, |h| - 1);
    } else {
      if i :| LastStored(front, key, i) {
        assert LastStored(h, key, i);
      }
      if i :| LastStored(h, key, i) {
        assert LastStored(front, key, i);
      }
    }
  }

  /** The time to live does not always count from the first receipt: after a sweep caused by
      another key, a response is replayed 500 seconds after its key was first received. */
  lemma SweepRestartsTheClock()
    ensures var h := [Check("a", 0, 0), Check("b", 301, 301), Store("a", "shot", 302)];
            && Clocked(h) && FirstReceipt(h, "a", 0) && SweptAfter(h, DEFAULT_TTL, 0, 0)
            && Answer(After(h, DEFAULT_TTL), DEFAULT_TTL, "a", 500) == Some("shot")
  {
    var h := [Check("a", 0, 0), Check("b", 301, 301), Store("a", "shot", 302)];
    var one, two := [Check("a", 0, 0)], [Check("a", 0, 0), Check("b", 301, 301)];
    assert one[..0] == [] && two[..1] == one && h[..2] == two;
    assert After(one, DEFAULT_TTL) == map["a" := Entry(None, 0, true)];
    assert After(two, DEFAULT_TTL) == map["b" := Entry(None, 301, true)];
    assert h[1].Check? && h[1].now - DEFAULT_TTL > 0;
  }
}
