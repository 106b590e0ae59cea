/** Who gets in, and where: guest links, the household a request leaves its caller in, invitation
    limits, and what each request can do to the household table. */
module HouseholdAccess {
  import opened Basics
  import opened HouseholdModel
  import opened HouseholdInvariants
  import opened HouseholdRuns

  // ---------------------------------------------------------------------------
  // Guest links
  // ---------------------------------------------------------------------------

  /** The link with this hash is good for the household. */
  ghost predicate Opens(db: Db, hash: TokenHash, h: HouseholdId) {
    exists g <- db.guestTokens ::
      db.guestTokens[g].tokenHash == hash && db.guestTokens[g].household == h && db.guestTokens[g].revokedAt.None?
  }

  /** After a new link is made, it is the only one that opens the household; other households'
      links stay as they were. */
  lemma OnlyTheNewLinkOpens(db: Db, now: Time, u: UserId, h: HouseholdId, id: GuestTokenId, hash: TokenHash, other: TokenHash, k: HouseholdId)
    requires DoGenerateGuest(db, now, u, h, id, hash).reply.Done?
    ensures var after := DoGenerateGuest(db, now, u, h, id, hash).db;
      Opens(after, other, k) <==> if k == h then other == hash else Opens(db, other, k)
  {
    var after := DoGenerateGuest(db, now, u, h, id, hash).db;
    assert after.guestTokens[id] == GuestToken(h, hash, None);
    forall g <- db.guestTokens
      ensures g in after.guestTokens && after.guestTokens[g] ==
        if db.guestTokens[g].household == h && db.guestTokens[g].revokedAt.None?
        then db.guestTokens[g].(revokedAt := Some(now)) else db.guestTokens[g]
    {
    }
    if k != h && Opens(db, other, k) {
      var g :| g in db.guestTokens && db.guestTokens[g].tokenHash == other && db.guestTokens[g].household == k
               && db.guestTokens[g].revokedAt.None?;
      assert g in after.guestTokens;
    }
  }

  /** After a revocation no link opens the household, and other households' links are as before. */
  lemma NoLinkOpens(db: Db, now: Time, u: UserId, h: HouseholdId, other: TokenHash, k: HouseholdId)
    requires DoRevokeGuest(db, now, u, h).reply.Done?
    ensures Opens(DoRevokeGuest(db, now, u, h).db, other, k) <==> k != h && Opens(db, other, k)
  {
    var after := DoRevokeGuest(db, now, u, h).db;
    if k != h && Opens(db, other, k) {
      var g :| g in db.guestTokens && db.guestTokens[g].tokenHash == other && db.guestTokens[g].household == k
               && db.guestTokens[g].revokedAt.None?;
      assert g in after.guestTokens;
    }
  }

  lemma InvitingLeavesLinksAlone(db: Db, now: Time, request: Request)
    requires request.Invite? || request.Accept? || request.RevokeInvite? || request.ResendInvite?
    ensures Serve(db, now, request).db.guestTokens == db.guestTokens
  {
  }

  lemma MembershipLeavesLinksAlone(db: Db, now: Time, request: Request)
    requires request.RemoveMember? || request.ChangeRole? || request.Switch?
    ensures Serve(db, now, request).db.guestTokens == db.guestTokens
  {
  }

  lemma NamingLeavesLinksAlone(db: Db, now: Time, request: Request)
    requires request.Register? || request.Create? || request.Rename?
    ensures Serve(db, now, request).db.guestTokens == db.guestTokens
  {
  }

  /** An unrevoked token is an old one as it was, or the one just generated. */
  lemma UnrevokedTokens(db: Db, now: Time, request: Request, g: GuestTokenId)
    requires var after := Serve(db, now, request).db; g in after.guestTokens && after.guestTokens[g].revokedAt.None?
    ensures var token := Serve(db, now, request).db.guestTokens[g];
      || (g in db.guestTokens && token == db.guestTokens[g])
      || (request.GenerateGuest? && token == GuestToken(request.household, request.tokenHash, None))
  {
    match request
    case GenerateGuest(u, h, id, hash) =>
    case RevokeGuest(u, h) =>
    case Delete(u, h, confirmName) =>
    case Invite(_, _, _, _, _) => InvitingLeavesLinksAlone(db, now, request);
    case Accept(_, _) => InvitingLeavesLinksAlone(db, now, request);
    case RevokeInvite(_, _) => InvitingLeavesLinksAlone(db, now, request);
    case ResendInvite(_, _, _) => InvitingLeavesLinksAlone(db, now, request);
    case RemoveMember(_, _) => MembershipLeavesLinksAlone(db, now, request);
    case ChangeRole(_, _, _) => MembershipLeavesLinksAlone(db, now, request);
    case Switch(_, _) => MembershipLeavesLinksAlone(db, now, request);
    case _ => NamingLeavesLinksAlone(db, now, request);
  }

  /** A link that opens a household was made for it by this very request, or opened it before. */
  lemma LinksAreMade(db: Db, now: Time, request: Request, hash: TokenHash, h: HouseholdId)
    requires Opens(Serve(db, now, request).db, hash, h)
    ensures Opens(db, hash, h) || (request.GenerateGuest? && request.tokenHash == hash && request.household == h)
  {
    var after := Serve(db, now, request).db;
    var g :| g in after.guestTokens && after.guestTokens[g].tokenHash == hash && after.guestTokens[g].household == h
             && after.guestTokens[g].revokedAt.None?;
    UnrevokedTokens(db, now, request, g);
  }

  /** Once a link opens nothing, it never opens anything again, whatever happens, unless the same
      random token is generated a second time. */
  lemma {:induction false} DeadLinksStayDead(db: Db, requests: seq<(Time, Request)>, hash: TokenHash, h: HouseholdId)
    requires forall k :: !Opens(db, hash, k)
    requires forall i :: 0 <= i < |requests| && requests[i].1.GenerateGuest? ==> requests[i].1.tokenHash != hash
    ensures !Opens(Run(db, requests), hash, h)
    decreases |requests|
  {
    if requests != [] {
      var after := Serve(db, requests[0].0, requests[0].1).db;
      forall k ensures !Opens(after, hash, k) {
        if Opens(after, hash, k) {
          LinksAreMade(db, requests[0].0, requests[0].1, hash, k);
        }
      }
      DeadLinksStayDead(after, requests[1..], hash, h);
    }
  }

  // ---------------------------------------------------------------------------
  // Where the caller ends up
  // ---------------------------------------------------------------------------

  function Destination(db: Db, request: Request): HouseholdId
    requires request.Create? || request.Switch? || (request.Accept? && WithHash(db, request.tokenHash) != {})
  {
    match request
    case Create(_, _, id) => id
    case Switch(_, h) => h
    case Accept(_, hash) => db.invitations[Presented(db, hash)].household
  }

  lemma PointerFollows(db: Db, now: Time, request: Request)
    requires Serve(db, now, request).reply.Done? && (request.Create? || request.Switch? || request.Accept?)
    ensures request.Accept? ==> WithHash(db, request.tokenHash) != {}
    ensures var u, after := Caller(request), Serve(db, now, request).db;
      && u in db.users
      && after.users == db.users[u := db.users[u].(active := Some(Destination(db, request)))]
  {
  }

  /** Creating, switching and accepting leave the caller acting in that household, and nobody else's
      pointer moves. */
  lemma CallerActsThere(db: Db, now: Time, request: Request)
    requires Valid(db) && Serve(db, now, request).reply.Done?
    requires request.Create? || request.Switch? || request.Accept?
    ensures request.Accept? ==> WithHash(db, request.tokenHash) != {}
    ensures var after := Serve(db, now, request).db;
      && Resolve(after, Caller(request)) == Resolved(after, Ok(Destination(db, request)))
      && forall x <- db.users :: x != Caller(request) ==> x in after.users && after.users[x] == db.users[x]
  {
    PointerFollows(db, now, request);
    ServeKeepsValid(db, now, request);
    var after := Serve(db, now, request).db;
    assert PointerOk(after, Caller(request));
  }

  // ---------------------------------------------------------------------------
  // Invitation limits
  // ---------------------------------------------------------------------------

  lemma NewRowIsRecent(db: Db, now: Time, id: InvitationId, invitation: Invitation)
    requires id !in db.invitations && invitation.invitedAt == now && invitation.status == Pending
    ensures var after := db.(invitations := db.invitations[id := invitation]);
      RecentInvitations(after, now, invitation.invitedBy, invitation.household)
      == RecentInvitations(db, now, invitation.invitedBy, invitation.household) + {id}
  {
  }

  /** An invitation goes out only from a household with room, to an address that no member has and
      that has no other live invitation, and leaves the inviter within ten in a day. */
  lemma InvitationsAreLimited(db: Db, now: Time, u: UserId, id: InvitationId, email: Option<string>, role: Role, hash: TokenHash)
    requires PointersOk(db) && DoInvite(db, now, u, id, email, role, hash).reply.Done?
    ensures var after, h := DoInvite(db, now, u, id, email, role, hash).db, ResolveAdmin(db, u).household.value;
      && after.members == db.members && |MemberKeys(db, h)| < 10
      && |RecentInvitations(after, now, u, h)| == |RecentInvitations(db, now, u, h)| + 1 <= 10
      && (NormaliseEmail(email).Some? ==>
            MembersWithEmail(db, h, NormaliseEmail(email).value) == {}
            && LivePending(after, now, h, NormaliseEmail(email).value) == {id})
  {
    ResolveIsIdle(db, u);
    var after, h := DoInvite(db, now, u, id, email, role, hash).db, ResolveAdmin(db, u).household.value;
    NewRowIsRecent(db, now, id, after.invitations[id]);
    if NormaliseEmail(email).Some? {
      LowerIdempotent(Strip(email.value));
      WriteInvitation(db, now, id, after.invitations[id], h, NormaliseEmail(email).value);
    }
  }

  // ---------------------------------------------------------------------------
  // The household table
  // ---------------------------------------------------------------------------

  /** The household table after a request that is done: a household is born bare, is renamed, opened
      or closed to guests or deleted only by one of its admins acting in it, and deleted only by its name. */
  ghost predicate HouseholdChange(db: Db, request: Request, after: map<HouseholdId, Household>) {
    var before := db.households;
    match request
    case Create(_, name, id) =>
      id !in before && 1 <= |Strip(name)| <= 64 && after == before[id := Household(Strip(name), false, false)]
    case Rename(u, h, name) =>
      Acts(db, u, h) && h in before && 1 <= |Strip(name)| <= 64 && after == before[h := before[h].(name := Strip(name))]
    case GenerateGuest(u, h, _, _) =>
      Acts(db, u, h) && h in before && after == before[h := before[h].(guestAccessible := true)]
    case RevokeGuest(u, h) =>
      Acts(db, u, h) && h in before && after == before[h := before[h].(guestAccessible := false)]
    case Delete(u, h, confirmName) =>
      Acts(db, u, h) && h in before && before[h].name == confirmName && after == before - {h}
    case _ => after == before
  }

  predicate OnHouseholds(request: Request) {
    request.Create? || request.Rename? || request.GenerateGuest? || request.RevokeGuest? || request.Delete?
  }

  lemma SettingsChangeHouseholds(db: Db, now: Time, request: Request)
    requires Resolve(db, Caller(request)).db == db && Serve(db, now, request).reply.Done? && OnHouseholds(request)
    ensures HouseholdChange(db, request, Serve(db, now, request).db.households)
  {
  }

  lemma InvitingKeepsHouseholds(db: Db, now: Time, request: Request)
    requires request.Invite? || request.Accept? || request.RevokeInvite? || request.ResendInvite?
    ensures Serve(db, now, request).db.households == db.households
  {
  }

  lemma MembershipKeepsHouseholds(db: Db, now: Time, request: Request)
    requires request.Register? || request.Switch? || request.RemoveMember? || request.ChangeRole?
    ensures Serve(db, now, request).db.households == db.households
  {
  }

  /** What each request does to the household table when it is done; refused, it does nothing. */
  lemma HouseholdTable(db: Db, now: Time, request: Request)
    requires Resolve(db, Caller(request)).db == db
    ensures var after := Serve(db, now, request);
      if after.reply.Done? then HouseholdChange(db, request, after.db.households) else after.db.households == db.households
  {
    if Serve(db, now, request).reply.Refused? {
      RefusedFromHere(db, now, request);
    } else if OnHouseholds(request) {
      SettingsChangeHouseholds(db, now, request);
    } else if request.Register? || request.Switch? || request.RemoveMember? || request.ChangeRole? {
      MembershipKeepsHouseholds(db, now, request);
    } else {
      InvitingKeepsHouseholds(db, now, request);
    }
  }

  /** The household `h` has been touched, or is gone. */
  predicate Touched(before: Db, after: Db, h: HouseholdId)
    requires h in before.households
  {
    h !in after.households || after.households[h] != before.households[h]
  }

  /** `request` is done, touches `h`, and was asked for by an admin of `h` acting in it. */
  ghost predicate TouchesAsAdmin(db: Db, now: Time, request: Request, h: HouseholdId) {
    && Serve(db, now, request).reply.Done? && Acts(db, Caller(request), h)
    && (request.Rename? || request.GenerateGuest? || request.RevokeGuest? || request.Delete?) && request.household == h
  }

  lemma TouchIsAnAdmins(db: Db, now: Time, request: Request, h: HouseholdId)
    requires PointersOk(db) && h in db.households && Touched(db, Serve(db, now, request).db, h)
    ensures TouchesAsAdmin(db, now, request, h)
  {
    ResolveIsIdle(db, Caller(request));
    HouseholdTable(db, now, request);
  }

  /** A household changes or disappears over a run only through a request that was made, at its
      moment, by somebody who was then an admin of it. */
  lemma {:induction false} OnlyItsAdminsTouchIt(db: Db, requests: seq<(Time, Request)>, h: HouseholdId) returns (n: nat)
    requires Valid(db) && h in db.households && Touched(db, Run(db, requests), h)
    ensures n < |requests| && TouchesAsAdmin(Run(db, requests[..n]), requests[n].0, requests[n].1, h)
    decreases |requests|
  {
    var now, request := requests[0].0, requests[0].1;
    var after := Serve(db, now, request).db;
    ServeKeepsValid(db, now, request);
    if Touched(db, after, h) {
      TouchIsAnAdmins(db, now, request, h);
      n := 0;
      assert requests[..0] == [];
    } else {
      var later := OnlyItsAdminsTouchIt(after, requests[1..], h);
      n := later + 1;
      assert requests[..n][1..] == requests[1..][..later];
    }
  }
}
