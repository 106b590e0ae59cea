/** Which household a user acts in.  Three places in the program decide it on their own: the
    request resolver, the profile endpoint and the household list.  They agree, from any state. */
module ActiveHousehold {
  import opened Basics
  import opened HouseholdModel
  import opened HouseholdInvariants

  /** The stored pointer if it is a live membership, else the first live household by
      (lowercased name, id), if any. */
  function EffectiveHousehold(db: Db, u: UserId): Option<HouseholdId>
    requires u in db.users
  {
    var active := db.users[u].active;
    if active.Some? && active.value in LiveOf(db, u) then active else FirstLive(db, u)
  }

  /** The first live household is the user's live household whose lowercased name comes first, and of
      equal names the one with the smaller id. */
  lemma FirstLiveIs(db: Db, u: UserId, h: HouseholdId)
    ensures FirstLive(db, u) == Some(h)
            <==> h in db.households && !db.households[h].deleted && (h, u) in db.members
                 && forall x <- db.households :: !db.households[x].deleted && (x, u) in db.members ==>
                      var a, b := Lower(db.households[h].name), Lower(db.households[x].name);
                      if a == b then h <= x else LexLeq(a, b)
    ensures FirstLive(db, u) == None <==> forall x <- db.households :: db.households[x].deleted || (x, u) !in db.members
  {
    if LiveOf(db, u) != {} {
      var m := Least(db, LiveOf(db, u));
      assert m in LiveOf(db, u);
      if h in LiveOf(db, u) && forall x <- LiveOf(db, u) :: Before(db, h, x) {
        BeforeAntisymmetric(db, h, m);
      }
    }
    assert forall x :: x in LiveOf(db, u) <==> x in db.households && !db.households[x].deleted && (x, u) in db.members;
  }

  /** The tables once the user's pointer says so. */
  function Settle(db: Db, u: UserId): Db
    requires u in db.users
  {
    SetActive(db, u, EffectiveHousehold(db, u))
  }

  lemma PointerDoesNotMatter(db: Db, u: UserId, active: Option<HouseholdId>)
    ensures LiveOf(SetActive(db, u, active), u) == LiveOf(db, u)
    ensures FirstLive(SetActive(db, u, active), u) == FirstLive(db, u)
  {
    SameFirstLive(SetActive(db, u, active), db, u);
  }

  /** The request resolver stores the effective household and answers with it. */
  lemma ResolveSettles(db: Db, u: UserId)
    requires u in db.users
    ensures Resolve(db, u).db == Settle(db, u)
    ensures Resolve(db, u).household ==
      match EffectiveHousehold(db, u)
      case Some(h) => Ok(h)
      case None => Err(NoMemberships)
  {
    PointerDoesNotMatter(db, u, None);
  }

  /** Deciding again changes nothing: not the answer, and not the tables. */
  lemma SettleIsStable(db: Db, u: UserId)
    requires u in db.users
    ensures EffectiveHousehold(Settle(db, u), u) == EffectiveHousehold(db, u)
    ensures Settle(Settle(db, u), u) == Settle(db, u)
    ensures PointerOk(Settle(db, u), u)
  {
    PointerDoesNotMatter(db, u, EffectiveHousehold(db, u));
  }

  /** A right pointer is left alone. */
  lemma SettleIsIdleIff(db: Db, u: UserId)
    requires u in db.users
    ensures Settle(db, u) == db <==> PointerOk(db, u)
  {
    PointerDoesNotMatter(db, u, EffectiveHousehold(db, u));
    assert Settle(db, u) == db <==> db.users[u].active == EffectiveHousehold(db, u) by {
      assert Settle(db, u).users[u].active == EffectiveHousehold(db, u);
    }
  }

  /** ORDER BY lower(name), id. */
  function Sorted(db: Db, hs: set<HouseholdId>): (r: seq<HouseholdId>)
    ensures |r| == |hs|
    ensures forall i :: 0 <= i < |r| ==> r[i] in hs
  {
    if hs == {} then []
    else
      var m := Least(db, hs);
      [m] + Sorted(db, hs - {m})
  }

  ghost predicate Increasing(db: Db, hs: seq<HouseholdId>) {
    forall i, j :: 0 <= i < j < |hs| ==> Before(db, hs[i], hs[j]) && hs[i] != hs[j]
  }

  /** The listing has every household of the set ... */
  lemma {:induction false} SortedCovers(db: Db, hs: set<HouseholdId>)
    ensures forall h <- hs :: h in Sorted(db, hs)
  {
    if hs != {} {
      var m := Least(db, hs);
      SortedCovers(db, hs - {m});
      forall h <- hs ensures h in Sorted(db, hs) {
        assert h == m || h in hs - {m};
      }
    }
  }

  /** ... once, in order. */
  lemma {:induction false} SortedIncreases(db: Db, hs: set<HouseholdId>)
    ensures Increasing(db, Sorted(db, hs))
  {
    if hs != {} {
      var m := Least(db, hs);
      var tail := Sorted(db, hs - {m});
      SortedIncreases(db, hs - {m});
      forall j | 0 <= j < |tail| ensures Before(db, m, tail[j]) && m != tail[j] {
        assert tail[j] in hs - {m};
      }
      IncreasingCons(db, m, tail);
    }
  }

  lemma IncreasingCons(db: Db, m: HouseholdId, tail: seq<HouseholdId>)
    requires Increasing(db, tail)
    requires forall j :: 0 <= j < |tail| ==> Before(db, m, tail[j]) && m != tail[j]
    ensures Increasing(db, [m] + tail)
  {
  }

  /** What the two listings say about one membership. */
  datatype Listed = Listed(household: HouseholdId, name: string, role: Role, memberCount: nat, isActive: bool)

  function Entry(db: Db, u: UserId, h: HouseholdId, active: Option<HouseholdId>): Listed
    requires h in LiveOf(db, u)
  {
    Listed(h, db.households[h].name, db.members[(h, u)], |MemberKeys(db, h)|, active == Some(h))
  }

  /** The listing: every live household once, in order, with the effective one flagged. */
  function Listing(db: Db, u: UserId): (r: seq<Listed>)
    requires u in db.users
  {
    var hs := Sorted(db, LiveOf(db, u));
    seq(|hs|, i requires 0 <= i < |hs| => Entry(db, u, hs[i], EffectiveHousehold(db, u)))
  }

  /** A household is listed exactly if it is live, with its name, the user's role and its size, and flagged
      exactly if it is the effective one. */
  lemma ListingIs(db: Db, u: UserId, h: HouseholdId)
    requires u in db.users
    ensures (exists i :: 0 <= i < |Listing(db, u)| && Listing(db, u)[i].household == h)
            <==> h in db.households && !db.households[h].deleted && (h, u) in db.members
    ensures forall i :: 0 <= i < |Listing(db, u)| && Listing(db, u)[i].household == h ==>
      h in db.households && (h, u) in db.members
      && Listing(db, u)[i] == Listed(h, db.households[h].name, db.members[(h, u)],
                                     |set k | k in db.members && k.0 == h|, EffectiveHousehold(db, u) == Some(h))
  {
    var hs := Sorted(db, LiveOf(db, u));
    SortedCovers(db, LiveOf(db, u));
    assert forall i :: 0 <= i < |hs| ==> Listing(db, u)[i].household == hs[i];
    if h in LiveOf(db, u) {
      var i :| 0 <= i < |hs| && hs[i] == h;
    }
  }

  /** Exactly one membership is flagged, unless there are none. */
  lemma ExactlyOneIsActive(db: Db, u: UserId) returns (i: nat)
    requires u in db.users && LiveOf(db, u) != {}
    ensures i < |Listing(db, u)|
    ensures forall j :: 0 <= j < |Listing(db, u)| ==> (Listing(db, u)[j].isActive <==> j == i)
  {
    var hs := Sorted(db, LiveOf(db, u));
    SortedCovers(db, LiveOf(db, u));
    SortedIncreases(db, LiveOf(db, u));
    var active := EffectiveHousehold(db, u).value;
    assert active in hs;
    i :| 0 <= i < |hs| && hs[i] == active;
    forall j | 0 <= j < |hs| ensures Listing(db, u)[j].isActive <==> j == i {
      assert i < j ==> hs[i] != hs[j];
      assert j < i ==> hs[j] != hs[i];
    }
  }
}
