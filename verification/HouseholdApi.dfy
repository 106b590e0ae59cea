/** The household endpoints: resolve the caller, check, write, commit -- or refuse and roll back.
    Each is proved against the request function of the same name in HouseholdModel. */
module HouseholdApi {
  import opened Basics
  import opened HouseholdModel
  import opened ActiveHousehold
  import opened HouseholdRepo

  // ---------------------------------------------------------------------------
  // Who is asking
  // ---------------------------------------------------------------------------

  /** `_resolve_membership_for_user`: every write it makes is committed at once. */
  method ResolveMembership(db: Session, u: UserId) returns (household: Result<HouseholdId, Error>)
    modifies db
    ensures Resolved(db.State(), household) == Resolve(old(db.State()), u)
  {
    if u !in db.users {
      return Err(NotAuthenticated);
    }
    var active := db.users[u].active;
    if active.Some? {
      if (active.value, u) in db.members && Live(db.State(), active.value) {
        return Ok(active.value);
      }
      db.ClearActiveHousehold(u);
    }
    var memberships := db.GetMemberships(u);
    if memberships == [] {
      return Err(NoMemberships);
    }
    SortedStartsWithFirst(db.State(), u);
    db.SetActiveHousehold(u, memberships[0]);
    return Ok(memberships[0]);
  }

  lemma SortedStartsWithFirst(db: Db, u: UserId)
    ensures var hs := Sorted(db, LiveOf(db, u));
      FirstLive(db, u) == if hs == [] then None else Some(hs[0])
  {
  }

  method RequireAdmin(db: Session, u: UserId) returns (household: Result<HouseholdId, Error>)
    modifies db
    ensures Resolved(db.State(), household) == ResolveAdmin(old(db.State()), u)
  {
    household := ResolveMembership(db, u);
    if household.Ok? && db.members[(household.value, u)] != Admin {
      return Err(AdminRequired);
    }
  }

  // ---------------------------------------------------------------------------
  // Listings
  // ---------------------------------------------------------------------------

  method ClearIfHomeless(db: Session, u: UserId, memberships: seq<HouseholdId>)
    requires u in db.users && memberships == Sorted(db.State(), LiveOf(db.State(), u))
    modifies db`users
    ensures db.State() == SetActive(old(db.State()), u, if memberships == [] then None else old(db.users)[u].active)
  {
    if memberships == [] && db.users[u].active.Some? {
      db.ClearActiveHousehold(u);
    }
  }

  /** The loop of `get_me`: list the memberships and note the active one on the way. */
  method ScanMemberships(db: Session, u: UserId, memberships: seq<HouseholdId>, stored: Option<HouseholdId>)
    returns (active: Option<HouseholdId>, listing: seq<Listed>)
    requires forall i :: 0 <= i < |memberships| ==> memberships[i] in LiveOf(db.State(), u)
    ensures active == if stored.Some? && stored.value in memberships then stored else None
    ensures |listing| == |memberships|
    ensures forall i :: 0 <= i < |listing| ==> listing[i] == Entry(db.State(), u, memberships[i], stored)
  {
    active, listing := None, [];
    for n := 0 to |memberships|
      invariant |listing| == n
      invariant forall i :: 0 <= i < n ==> listing[i] == Entry(db.State(), u, memberships[i], stored)
      invariant active == if stored.Some? && stored.value in memberships[..n] then stored else None
    {
      var h := memberships[n];
      var isActive := stored == Some(h);
      listing := listing + [Listed(h, db.households[h].name, db.members[(h, u)], |MemberKeys(db.State(), h)|, isActive)];
      if isActive {
        active := stored;
      }
      assert memberships[..n + 1] == memberships[..n] + [h];
    }
    assert memberships[..|memberships|] == memberships;
  }

  function Reflag(listing: seq<Listed>, h: HouseholdId): (r: seq<Listed>)
    ensures |r| == |listing|
    ensures forall i :: 0 <= i < |r| ==> r[i] == listing[i].(isActive := listing[i].household == h)
  {
    seq(|listing|, i requires 0 <= i < |listing| => listing[i].(isActive := listing[i].household == h))
  }

  /** Listing rows do not depend on any user's pointer. */
  lemma SameEntry(a: Db, b: Db, u: UserId, h: HouseholdId, active: Option<HouseholdId>)
    requires b == a.(users := b.users) && h in LiveOf(a, u)
    ensures h in LiveOf(b, u) && Entry(a, u, h, active) == Entry(b, u, h, active)
  {
    assert MemberKeys(a, h) == MemberKeys(b, h);
  }

  lemma IsListing(db: Db, now: Db, u: UserId, listing: seq<Listed>)
    requires u in db.users && now == db.(users := now.users)
    requires var hs := Sorted(db, LiveOf(db, u)); |listing| == |hs| && forall i :: 0 <= i < |hs| ==>
      hs[i] in LiveOf(now, u) && listing[i] == Entry(now, u, hs[i], EffectiveHousehold(db, u))
    ensures listing == Listing(db, u)
  {
    var hs, wanted := Sorted(db, LiveOf(db, u)), Listing(db, u);
    assert |listing| == |wanted|;
    forall i | 0 <= i < |hs| ensures listing[i] == wanted[i] {
      SameEntry(now, db, u, hs[i], EffectiveHousehold(db, u));
      assert wanted[i] == Entry(db, u, hs[i], EffectiveHousehold(db, u));
    }
  }

  /** The effective household, in terms of the listed memberships. */
  lemma EffectiveFromList(db: Db, u: UserId, hs: seq<HouseholdId>)
    requires u in db.users && hs == Sorted(db, LiveOf(db, u))
    ensures var active := db.users[u].active;
      EffectiveHousehold(db, u) ==
        if hs == [] then None else if active.Some? && active.value in hs then active else Some(hs[0])
    ensures forall i :: 0 <= i < |hs| ==> hs[i] in LiveOf(db, u)
  {
    SortedCovers(db, LiveOf(db, u));
  }

  /** The fallback of `get_me`, which flags the listing anew. */
  method FallBack(db: Session, u: UserId, h: HouseholdId, scanned: seq<Listed>) returns (listing: seq<Listed>)
    modifies db`users
    ensures db.State() == SetActive(old(db.State()), u, Some(h)) && |listing| == |scanned|
    ensures forall i :: 0 <= i < |listing| ==> listing[i] == scanned[i].(isActive := scanned[i].household == h)
  {
    db.SetActiveHousehold(u, h);
    listing := Reflag(scanned, h);
  }

  lemma ScannedIsListing(before: Db, u: UserId, hs: seq<HouseholdId>, stored: Option<HouseholdId>, listing: seq<Listed>)
    requires u in before.users && hs == Sorted(before, LiveOf(before, u))
    requires stored == if hs == [] then None else before.users[u].active
    requires |listing| == |hs|
    requires var cleared, active := SetActive(before, u, stored), EffectiveHousehold(before, u);
      forall i :: 0 <= i < |hs| ==> hs[i] in LiveOf(cleared, u) && listing[i] == Entry(cleared, u, hs[i], active)
    ensures listing == Listing(before, u)
  {
    IsListing(before, SetActive(before, u, stored), u, listing);
  }

  /** `get_me`: list and scan, then fall back to the first membership. */
  method GetMe(db: Session, u: UserId) returns (active: Option<HouseholdId>, listing: seq<Listed>)
    requires u in db.users
    modifies db`users
    ensures db.State() == Settle(old(db.State()), u)
    ensures active == EffectiveHousehold(old(db.State()), u)
    ensures listing == Listing(old(db.State()), u)
  {
    ghost var before := db.State();
    var memberships := db.GetMemberships(u);
    EffectiveFromList(before, u, memberships);
    ClearIfHomeless(db, u, memberships);
    var stored := db.users[u].active;
    assert db.State() == SetActive(before, u, stored);
    assert LiveOf(db.State(), u) == LiveOf(before, u);
    active, listing := ScanMemberships(db, u, memberships, stored);
    if active == None && memberships != [] {
      active := Some(memberships[0]);
      listing := FallBack(db, u, memberships[0], listing);
    }
    assert active == EffectiveHousehold(before, u);
    ScannedIsListing(before, u, memberships, stored, listing);
  }

  /** `_membership_outputs`: settle the pointer first, then list. */
  method MembershipOutputs(db: Session, u: UserId) returns (listing: seq<Listed>)
    requires u in db.users
    modifies db`users
    ensures db.State() == Settle(old(db.State()), u)
    ensures listing == Listing(old(db.State()), u)
  {
    ghost var before := db.State();
    var memberships := db.GetMemberships(u);
    EffectiveFromList(before, u, memberships);
    ClearIfHomeless(db, u, memberships);
    var active := db.users[u].active;
    if memberships != [] && forall i :: 0 <= i < |memberships| ==> Some(memberships[i]) != active {
      active := Some(memberships[0]);
      db.SetActiveHousehold(u, memberships[0]);
    }
    assert active == EffectiveHousehold(before, u);
    ghost var settled := db.State();
    assert LiveOf(settled, u) == LiveOf(before, u);
    listing := ListMemberships(db, u, memberships, active);
    IsListing(before, settled, u, listing);
  }

  /** The loop of `_membership_outputs`. */
  method ListMemberships(db: Session, u: UserId, memberships: seq<HouseholdId>, active: Option<HouseholdId>)
    returns (listing: seq<Listed>)
    requires forall i :: 0 <= i < |memberships| ==> memberships[i] in LiveOf(db.State(), u)
    ensures |listing| == |memberships|
    ensures forall i :: 0 <= i < |listing| ==> listing[i] == Entry(db.State(), u, memberships[i], active)
  {
    listing := [];
    for n := 0 to |memberships|
      invariant |listing| == n
      invariant forall i :: 0 <= i < n ==> listing[i] == Entry(db.State(), u, memberships[i], active)
    {
      var h := memberships[n];
      listing := listing + [Listed(h, db.households[h].name, db.members[(h, u)], |MemberKeys(db.State(), h)|, active == Some(h))];
    }
  }

  // ---------------------------------------------------------------------------
  // Households
  // ---------------------------------------------------------------------------

  method CreateHousehold(db: Session, u: UserId, name: string, id: HouseholdId) returns (reply: Reply)
    modifies db
    ensures After(db.State(), reply) == DoCreate(old(db.State()), u, name, id)
  {
    if u !in db.users {
      return Refused(NotAuthenticated);
    }
    if !NameOk(name) {
      return Refused(BadName);
    }
    var ok := db.CreateHousehold(Strip(name), u, id);
    if !ok {
      return Refused(IntegrityViolation);
    }
    db.SetActiveHousehold(u, id);
    return Done;
  }

  method SwitchHousehold(db: Session, u: UserId, h: HouseholdId) returns (reply: Reply)
    modifies db
    ensures After(db.State(), reply) == DoSwitch(old(db.State()), u, h)
  {
    if u !in db.users {
      return Refused(NotAuthenticated);
    }
    if (h, u) !in db.members || !Live(db.State(), h) {
      return Refused(NotAMember);
    }
    db.SetActiveHousehold(u, h);
    return Done;
  }

  method RenameHousehold(db: Session, u: UserId, h: HouseholdId, name: string) returns (reply: Reply)
    modifies db
    ensures After(db.State(), reply) == DoRename(old(db.State()), u, h, name)
  {
    var household := RequireAdmin(db, u);
    if household.Err? {
      return Refused(household.error);
    }
    if !NameOk(name) {
      return Refused(BadName);
    }
    if household.value != h {
      return Refused(NotThisHousehold);
    }
    if !Live(db.State(), h) {
      return Refused(HouseholdNotFound);
    }
    db.households := db.households[h := db.households[h].(name := Strip(name))];
    return Done;
  }

  method DeleteHousehold(db: Session, u: UserId, h: HouseholdId, confirmName: string) returns (reply: Reply)
    modifies db
    ensures After(db.State(), reply) == DoDelete(old(db.State()), u, h, confirmName)
  {
    var household := RequireAdmin(db, u);
    if household.Err? {
      return Refused(household.error);
    }
    if household.value != h {
      return Refused(NotThisHousehold);
    }
    if !Live(db.State(), h) {
      return Refused(HouseholdNotFound);
    }
    if confirmName != db.households[h].name {
      return Refused(NameMismatch);
    }
    reply := db.HardDelete(h);
  }

  // ---------------------------------------------------------------------------
  // Invitations
  // ---------------------------------------------------------------------------

  method CreateInvite(db: Session, now: Time, u: UserId, id: InvitationId, email: Option<string>, role: Role, hash: TokenHash)
    returns (reply: Reply)
    modifies db
    ensures After(db.State(), reply) == DoInvite(old(db.State()), now, u, id, email, role, hash)
  {
    var household := RequireAdmin(db, u);
    if household.Err? {
      return Refused(household.error);
    }
    reply := db.CreateInvitation(now, household.value, u, id, email, role, hash);
  }

  /** Insert the member, then win the conditional update. */
  method AcceptInvite(db: Session, now: Time, u: UserId, hash: TokenHash) returns (reply: Reply)
    modifies db
    ensures After(db.State(), reply) == DoAccept(old(db.State()), now, u, hash)
  {
    if u !in db.users {
      return Refused(NotAuthenticated);
    }
    if WithHash(db.State(), hash) == {} {
      return Refused(InvitationNotFound);
    }
    var i := LeastId(WithHash(db.State(), hash));
    var invitation := db.invitations[i];
    var h := invitation.household;
    if invitation.expiresAt < now {
      return Refused(InvitationExpired);
    }
    if invitation.status == Accepted {
      return Refused(InvitationUsed);
    }
    if invitation.status == Revoked {
      return Refused(InvitationGone);
    }
    if !Live(db.State(), h) {
      return Refused(HouseholdGone);
    }
    if (h, u) in db.members {
      return Refused(AlreadyMember);
    }
    if |MemberKeys(db.State(), h)| >= MEMBER_LIMIT {
      return Refused(HouseholdFull);
    }
    db.members := db.members[(h, u) := invitation.role];
    var won := db.AcceptInvitation(now, i);
    assert won;  // served alone, nobody else can have taken the row since it was read
    db.SetActiveHousehold(u, h);
    return Done;
  }

  method RevokeInvite(db: Session, now: Time, u: UserId, i: InvitationId) returns (reply: Reply)
    modifies db
    ensures After(db.State(), reply) == DoRevokeInvite(old(db.State()), now, u, i)
  {
    var household := RequireAdmin(db, u);
    if household.Err? {
      return Refused(household.error);
    }
    if i !in db.invitations || db.invitations[i].household != household.value {
      return Refused(InvitationNotFound);
    }
    reply := db.RevokeInvitation(now, i);
  }

  method ResendInvite(db: Session, now: Time, u: UserId, i: InvitationId, hash: TokenHash) returns (reply: Reply)
    modifies db
    ensures After(db.State(), reply) == DoResendInvite(old(db.State()), now, u, i, hash)
  {
    var household := RequireAdmin(db, u);
    if household.Err? {
      return Refused(household.error);
    }
    if i !in db.invitations || db.invitations[i].household != household.value {
      return Refused(InvitationNotFound);
    }
    reply := db.ResendInvitation(now, i, hash);
  }

  // ---------------------------------------------------------------------------
  // Members
  // ---------------------------------------------------------------------------

  method RemoveMember(db: Session, u: UserId, target: UserId) returns (reply: Reply)
    modifies db
    ensures After(db.State(), reply) == DoRemoveMember(old(db.State()), u, target)
  {
    var household := RequireAdmin(db, u);
    if household.Err? {
      return Refused(household.error);
    }
    if target == u {
      return Refused(CannotRemoveSelf);
    }
    reply := db.RemoveMember(household.value, target);
    if reply.Refused? {
      return;
    }
    db.RepairActiveHouseholds([target]);
    assert Elements([target]) == {target};
    return Done;
  }

  method UpdateMemberRole(db: Session, u: UserId, target: UserId, role: Role) returns (reply: Reply)
    modifies db
    ensures After(db.State(), reply) == DoChangeRole(old(db.State()), u, target, role)
  {
    var household := RequireAdmin(db, u);
    if household.Err? {
      return Refused(household.error);
    }
    if target == u && role != Admin {
      return Refused(NeedsAnAdmin);
    }
    reply := db.UpdateMemberRole(household.value, target, role);
  }

  // ---------------------------------------------------------------------------
  // Guest links
  // ---------------------------------------------------------------------------

  method GenerateGuestToken(db: Session, now: Time, u: UserId, h: HouseholdId, id: GuestTokenId, hash: TokenHash)
    returns (reply: Reply)
    modifies db
    ensures After(db.State(), reply) == DoGenerateGuest(old(db.State()), now, u, h, id, hash)
  {
    var household := RequireAdmin(db, u);
    if household.Err? {
      return Refused(household.error);
    }
    if household.value != h {
      return Refused(NotThisHousehold);
    }
    var saved := db.State();
    db.RevokePreviousGuestTokens(now, h);
    assert forall g <- saved.guestTokens :: db.guestTokens[g].tokenHash == saved.guestTokens[g].tokenHash;
    var ok := db.CreateGuestToken(h, id, hash);
    if !ok {
      db.Rollback(saved);
      return Refused(IntegrityViolation);
    }
    return Done;
  }

  method RevokeGuestToken(db: Session, now: Time, u: UserId, h: HouseholdId) returns (reply: Reply)
    modifies db
    ensures After(db.State(), reply) == DoRevokeGuest(old(db.State()), now, u, h)
  {
    var household := RequireAdmin(db, u);
    if household.Err? {
      return Refused(household.error);
    }
    if household.value != h {
      return Refused(NotThisHousehold);
    }
    db.RevokeAllGuestTokens(now, h);
    return Done;
  }
}
