/** The repository methods over one database session: each updates table rows in place. */
module HouseholdRepo {
  import opened Basics
  import opened HouseholdModel
  import opened ActiveHousehold
  import HouseholdInvariants

  function Elements(ids: seq<UserId>): set<UserId> {
    set u | u in ids
  }

  lemma ElementsMore(ids: seq<UserId>, n: nat)
    requires n < |ids|
    ensures Elements(ids[..n + 1]) == Elements(ids[..n]) + {ids[n]}
  {
    assert ids[..n + 1] == ids[..n] + [ids[n]];
  }

  class Session {
    var users: map<UserId, User>
    var households: map<HouseholdId, Household>
    var members: map<(HouseholdId, UserId), Role>
    var invitations: map<InvitationId, Invitation>
    var guestTokens: map<GuestTokenId, GuestToken>
    var rows: map<RowId, Option<HouseholdId>>

    constructor ()
      ensures State() == EMPTY_DB
    {
      users, households, members, invitations, guestTokens, rows := map[], map[], map[], map[], map[], map[];
    }

    function State(): Db
      reads this
    {
      Db(users, households, members, invitations, guestTokens, rows)
    }

    /** Discard what the current transaction wrote. */
    method Rollback(saved: Db)
      modifies this
      ensures State() == saved
    {
      users, households, members := saved.users, saved.households, saved.members;
      invitations, guestTokens, rows := saved.invitations, saved.guestTokens, saved.rows;
    }

    // -------------------------------------------------------------------------
    // Users
    // -------------------------------------------------------------------------

    method SetActiveHousehold(u: UserId, h: HouseholdId)
      modifies this`users
      ensures State() == SetActive(old(State()), u, Some(h))
    {
      if u in users {
        users := users[u := users[u].(active := Some(h))];
      }
    }

    method ClearActiveHousehold(u: UserId)
      modifies this`users
      ensures State() == SetActive(old(State()), u, None)
    {
      if u in users {
        users := users[u := users[u].(active := None)];
      }
    }

    /** Repair each listed user's pointer: the first live household by name, or none. */
    method RepairActiveHouseholds(ids: seq<UserId>)
      modifies this`users
      ensures State() == Repair(old(State()), Elements(ids))
    {
      ghost var before := State();
      for n := 0 to |ids|
        invariant State() == Repair(before, Elements(ids[..n]))
      {
        ElementsMore(ids, n);
        RepairOneMore(before, Elements(ids[..n]), ids[n]);
        var fallback := FirstLive(State(), ids[n]);
        if ids[n] in users {
          users := users[ids[n] := users[ids[n]].(active := fallback)];
        }
      }
      assert ids[..|ids|] == ids;
    }

    // -------------------------------------------------------------------------
    // Households
    // -------------------------------------------------------------------------

    /** Insert the household, then its creator as admin; the identifiers are unique. */
    method CreateHousehold(name: string, createdBy: UserId, id: HouseholdId) returns (ok: bool)
      modifies this
      ensures ok <==> id !in old(households) && (id, createdBy) !in old(members)
      ensures State() == if ok then InsertHousehold(old(State()), createdBy, name, id) else old(State())
    {
      if id in households || (id, createdBy) in members {
        return false;
      }
      households := households[id := Household(name, false, false)];
      members := members[(id, createdBy) := Admin];
      return true;
    }

    /** The members of `h`, in no particular order, each once. */
    method GetMembers(h: HouseholdId) returns (ids: seq<UserId>)
      ensures Elements(ids) == MembersOf(State(), h)
      ensures |ids| == |MemberKeys(State(), h)|
    {
      ids := [];
      var keys := MemberKeys(State(), h);
      ghost var all := keys;
      while keys != {}
        invariant keys <= all
        invariant forall u :: u in ids <==> (h, u) in all - keys
        invariant |ids| == |all| - |keys|
        decreases keys
      {
        var k :| k in keys;
        ids := ids + [k.1];
        keys := keys - {k};
        assert k == (h, k.1);
      }
      assert forall k <- all :: k == (h, k.1);
      assert forall u :: u in ids ==> (h, u) in all && u in MembersOf(State(), h);
      assert forall u :: u in MembersOf(State(), h) ==> (h, u) in all;
    }

    /** Delete the household row; the foreign keys take the rest.  Then repair its members. */
    method HardDelete(h: HouseholdId) returns (reply: Reply)
      modifies this
      ensures After(State(), reply) == RepoHardDelete(old(State()), h)
    {
      var affected := GetMembers(h);
      if h !in households || households[h].deleted {
        return Refused(HouseholdNotFound);
      }
      DeleteRow(h);
      RepairActiveHouseholds(affected);
      return Done;
    }

    /** The foreign keys: whatever refers to the deleted row goes, except users, who lose the pointer. */
    method DeleteRow(h: HouseholdId)
      modifies this
      ensures State() == Cascade(old(State()), h)
    {
      users := map u | u in users :: if users[u].active == Some(h) then users[u].(active := None) else users[u];
      households := households - {h};
      members := map k | k in members && k.0 != h :: members[k];
      invitations := map i | i in invitations && invitations[i].household != h :: invitations[i];
      guestTokens := map g | g in guestTokens && guestTokens[g].household != h :: guestTokens[g];
      rows := map r | r in rows && rows[r] != Some(h) :: rows[r];
    }

    // -------------------------------------------------------------------------
    // Members
    // -------------------------------------------------------------------------

    method RemoveMember(h: HouseholdId, u: UserId) returns (reply: Reply)
      modifies this`members
      ensures After(State(), reply) == RepoRemove(old(State()), h, u)
    {
      if (h, u) !in members {
        return Done;
      }
      if members[(h, u)] == Admin {
        var adminCount := |AdminKeys(State(), h)|;
        if adminCount <= 1 {
          return Refused(SoleAdmin);
        }
      }
      members := members - {(h, u)};
      return Done;
    }

    method UpdateMemberRole(h: HouseholdId, u: UserId, role: Role) returns (reply: Reply)
      modifies this`members
      ensures After(State(), reply) == RepoSetRole(old(State()), h, u, role)
    {
      if (h, u) !in members {
        return Refused(MemberNotFound);
      }
      if members[(h, u)] == Admin && role != Admin {
        var adminCount := |AdminKeys(State(), h)|;
        if adminCount <= 1 {
          return Refused(SoleAdmin);
        }
      }
      members := members[(h, u) := role];
      return Done;
    }

    // -------------------------------------------------------------------------
    // Invitations
    // -------------------------------------------------------------------------

    method CreateInvitation(now: Time, h: HouseholdId, inviter: UserId, id: InvitationId,
                            email: Option<string>, role: Role, hash: TokenHash) returns (reply: Reply)
      modifies this`invitations
      ensures InviteRefusal(old(State()), now, inviter, h, NormaliseEmail(email)).Some? ==>
        reply == Refused(InviteRefusal(old(State()), now, inviter, h, NormaliseEmail(email)).value)
      ensures InviteRefusal(old(State()), now, inviter, h, NormaliseEmail(email)).None? ==>
        reply == if id in old(invitations) || WithHash(old(State()), hash) != {} then Refused(IntegrityViolation) else Done
      ensures State() == if reply.Refused? then old(State()) else
        old(State()).(invitations := old(invitations)[id :=
          Invitation(h, inviter, NormaliseEmail(email), role, Pending, hash, now, now + INVITE_LIFETIME, None, None)])
    {
      if |MemberKeys(State(), h)| >= MEMBER_LIMIT {
        return Refused(HouseholdFull);
      }
      if |RecentInvitations(State(), now, inviter, h)| >= INVITE_LIMIT {
        return Refused(RateLimited);
      }
      var normalised := NormaliseEmail(email);
      if normalised.Some? {
        var duplicates := LivePending(State(), now, h, normalised.value);
        if |duplicates| > 1 {
          return Refused(SeveralRows);
        }
        if duplicates != {} {
          return Refused(AlreadyInvited);
        }
        var joined := MembersWithEmail(State(), h, normalised.value);
        if |joined| > 1 {
          return Refused(SeveralRows);
        }
        if joined != {} {
          return Refused(AlreadyMember);
        }
      }
      if id in invitations || WithHash(State(), hash) != {} {
        return Refused(IntegrityViolation);
      }
      invitations := invitations[id :=
        Invitation(h, inviter, normalised, role, Pending, hash, now, now + INVITE_LIFETIME, None, None)];
      return Done;
    }

    /** The conditional update: only a pending or declined row turns accepted. */
    method AcceptInvitation(now: Time, i: InvitationId) returns (won: bool)
      modifies this`invitations
      ensures won == (i in old(invitations) &&
        (old(invitations)[i].status == Pending || old(invitations)[i].status == Declined))
      ensures State() == if won then MarkAccepted(old(State()), now, i) else old(State())
    {
      won := i in invitations && (invitations[i].status == Pending || invitations[i].status == Declined);
      if won {
        invitations := invitations[i := invitations[i].(status := Accepted, acceptedAt := Some(now))];
      }
    }

    method RevokeInvitation(now: Time, i: InvitationId) returns (reply: Reply)
      modifies this`invitations
      ensures reply ==
        if i in old(invitations) && old(invitations)[i].status == Accepted then Refused(InvitationUsed)
        else if i !in old(invitations) then Refused(InvitationNotFound)
        else Done
      ensures State() == if reply.Refused? then old(State()) else
        old(State()).(invitations := old(invitations)[i :=
          old(invitations)[i].(status := Revoked, revokedAt := Some(now))])
    {
      if i in invitations && invitations[i].status == Accepted {
        return Refused(InvitationUsed);
      }
      if i !in invitations {
        return Refused(InvitationNotFound);
      }
      invitations := invitations[i := invitations[i].(status := Revoked, revokedAt := Some(now))];
      return Done;
    }

    /** A new token, a new 72 hours, and the row is pending again. */
    method ResendInvitation(now: Time, i: InvitationId, hash: TokenHash) returns (reply: Reply)
      modifies this`invitations
      ensures reply ==
        if i !in old(invitations) then Refused(InvitationNotFound)
        else if old(invitations)[i].status == Accepted then Refused(InvitationUsed)
        else if WithHash(old(State()), hash) - {i} != {} then Refused(IntegrityViolation)
        else Done
      ensures State() == if reply.Refused? then old(State()) else
        old(State()).(invitations := old(invitations)[i := old(invitations)[i].(status := Pending, tokenHash := hash,
          expiresAt := now + INVITE_LIFETIME, acceptedAt := None, revokedAt := None)])
    {
      if i !in invitations {
        return Refused(InvitationNotFound);
      }
      if invitations[i].status == Accepted {
        return Refused(InvitationUsed);
      }
      if WithHash(State(), hash) - {i} != {} {
        return Refused(IntegrityViolation);
      }
      invitations := invitations[i := invitations[i].(expiresAt := now + INVITE_LIFETIME, status := Pending,
        tokenHash := hash, acceptedAt := None, revokedAt := None)];
      return Done;
    }

    // -------------------------------------------------------------------------
    // Guest tokens
    // -------------------------------------------------------------------------

    method RevokePreviousGuestTokens(now: Time, h: HouseholdId)
      modifies this`guestTokens
      ensures State() == RevokeGuestTokens(old(State()), now, h)
    {
      guestTokens := map g | g in guestTokens ::
        if guestTokens[g].household == h && guestTokens[g].revokedAt.None?
        then guestTokens[g].(revokedAt := Some(now)) else guestTokens[g];
    }

    /** Insert the token, then raise the flag.  The partial unique index allows one unrevoked token. */
    method CreateGuestToken(h: HouseholdId, id: GuestTokenId, hash: TokenHash) returns (ok: bool)
      modifies this`guestTokens, this`households
      ensures ok == (id !in old(guestTokens)
        && (forall g <- old(guestTokens) :: old(guestTokens)[g].tokenHash != hash)
        && (forall g <- old(guestTokens) :: !(old(guestTokens)[g].household == h && old(guestTokens)[g].revokedAt.None?)))
      ensures State() == if !ok then old(State()) else
        SetGuestFlag(old(State()).(guestTokens := old(guestTokens)[id := GuestToken(h, hash, None)]), h, true)
    {
      if id in guestTokens
        || (exists g :: g in guestTokens && guestTokens[g].tokenHash == hash)
        || (exists g :: g in guestTokens && guestTokens[g].household == h && guestTokens[g].revokedAt.None?)
      {
        return false;
      }
      guestTokens := guestTokens[id := GuestToken(h, hash, None)];
      if h in households {
        households := households[h := households[h].(guestAccessible := true)];
      }
      return true;
    }

    method RevokeAllGuestTokens(now: Time, h: HouseholdId)
      modifies this`guestTokens, this`households
      ensures State() == SetGuestFlag(RevokeGuestTokens(old(State()), now, h), h, false)
    {
      RevokePreviousGuestTokens(now, h);
      if h in households {
        households := households[h := households[h].(guestAccessible := false)];
      }
    }

    // -------------------------------------------------------------------------
    // Listings
    // -------------------------------------------------------------------------

    /** A user's live memberships ordered by (lowercased name, id). */
    method GetMemberships(u: UserId) returns (hs: seq<HouseholdId>)
      ensures hs == Sorted(State(), LiveOf(State(), u))
    {
      hs := [];
      var left := LiveOf(State(), u);
      ghost var all := left;
      while left != {}
        invariant left <= all
        invariant hs + Sorted(State(), left) == Sorted(State(), all)
        decreases left
      {
        var m := Least(State(), left);
        hs := hs + [m];
        left := left - {m};
      }
    }
  }

  lemma SameFallback(a: Db, b: Db, u: UserId)
    requires a.households == b.households && a.members == b.members
    ensures FirstLive(a, u) == FirstLive(b, u)
  {
    assert LiveOf(a, u) == LiveOf(b, u);
    HouseholdInvariants.SameFirstLive(a, b, u);
  }

  /** One round of the repair loop. */
  lemma RepairOneMore(before: Db, us: set<UserId>, u: UserId)
    ensures var mid := Repair(before, us);
      Repair(before, us + {u}) ==
        if u in mid.users then mid.(users := mid.users[u := mid.users[u].(active := FirstLive(mid, u))]) else mid
  {
    SameFallback(before, Repair(before, us), u);
  }
}
