/** When each household request is done, in terms of the stored rows, and what becomes of the tables
    that no membership rule speaks of. */
module HouseholdAnswers {
  import opened Basics
  import opened HouseholdModel
  import opened HouseholdInvariants
  import opened HouseholdRuns

  /** The caller's stored pointer names a household of which they are an admin. */
  predicate ActsAsAdmin(db: Db, u: UserId, h: HouseholdId) {
    u in db.users && db.users[u].active == Some(h) && (h, u) in db.members && db.members[(h, u)] == Admin
  }

  lemma AdminIsResolved(db: Db, u: UserId, h: HouseholdId)
    requires PointersOk(db)
    ensures ResolveAdmin(db, u) == Resolved(db, Ok(h)) <==> ActsAsAdmin(db, u, h)
  {
    if u in db.users {
      assert PointerOk(db, u);
    }
  }

  // ---------------------------------------------------------------------------
  // Accepting an invitation
  // ---------------------------------------------------------------------------

  /** The one invitation with the presented token is accepted exactly if it has not expired and is
      still open, and the household is there, has room and does not have the user yet. */
  lemma AcceptIsDoneIff(db: Db, now: Time, u: UserId, hash: TokenHash, i: InvitationId)
    requires i in db.invitations && db.invitations[i].tokenHash == hash
    requires forall j <- db.invitations :: db.invitations[j].tokenHash == hash ==> j == i
    ensures var invitation := db.invitations[i];
      var h := invitation.household;
      DoAccept(db, now, u, hash).reply.Done?
      <==>
      u in db.users && now <= invitation.expiresAt
      && (invitation.status == Pending || invitation.status == Declined)
      && h in db.households && !db.households[h].deleted
      && (h, u) !in db.members && |set k | k in db.members && k.0 == h| < 10
  {
    OnlyPresented(db, hash, i);
  }

  lemma OnlyPresented(db: Db, hash: TokenHash, i: InvitationId)
    requires i in db.invitations && db.invitations[i].tokenHash == hash
    requires forall j <- db.invitations :: db.invitations[j].tokenHash == hash ==> j == i
    ensures WithHash(db, hash) == {i} && LeastId(WithHash(db, hash)) == i
  {
  }

  /** And otherwise the answer says why: the token before its expiry, its expiry before its status, and
      all of these before anything about the household. */
  lemma AcceptRefusalIs(db: Db, now: Time, u: UserId, hash: TokenHash, i: InvitationId)
    requires i in db.invitations && db.invitations[i].tokenHash == hash && u in db.users
    requires forall j <- db.invitations :: db.invitations[j].tokenHash == hash ==> j == i
    ensures var invitation, reply := db.invitations[i], DoAccept(db, now, u, hash).reply;
      && (reply == Refused(InvitationExpired) <==> invitation.expiresAt < now)
      && (reply == Refused(InvitationUsed) <==> invitation.expiresAt >= now && invitation.status == Accepted)
      && (reply == Refused(InvitationGone) <==> invitation.expiresAt >= now && invitation.status == Revoked)
      && (invitation.expiresAt >= now && (invitation.status == Pending || invitation.status == Declined) ==>
            var h := invitation.household;
            var there := h in db.households && !db.households[h].deleted;
            && (reply == Refused(HouseholdGone) <==> !there)
            && (reply == Refused(AlreadyMember) <==> there && (h, u) in db.members)
            && (reply == Refused(HouseholdFull)
                <==> there && (h, u) !in db.members && |set k | k in db.members && k.0 == h| >= 10))
  {
    OnlyPresented(db, hash, i);
  }

  lemma UnknownLinkIsRefused(db: Db, now: Time, u: UserId, hash: TokenHash)
    requires u in db.users && forall j <- db.invitations :: db.invitations[j].tokenHash != hash
    ensures DoAccept(db, now, u, hash) == After(db, Refused(InvitationNotFound))
  {
    assert WithHash(db, hash) == {};
  }

  // ---------------------------------------------------------------------------
  // The other requests
  // ---------------------------------------------------------------------------

  lemma RegisterIsDoneIff(db: Db, u: UserId, email: Option<string>)
    ensures DoRegister(db, u, email).reply.Done? <==> u !in db.users
    ensures u !in db.users ==> DoRegister(db, u, email).db == db.(users := db.users[u := User(None, email)])
  {
  }

  lemma CreateIsDoneIff(db: Db, u: UserId, name: string, id: HouseholdId)
    ensures DoCreate(db, u, name, id).reply.Done?
            <==> u in db.users && 1 <= |Strip(name)| <= 64 && id !in db.households && (id, u) !in db.members
    ensures u in db.users && !(1 <= |Strip(name)| <= 64) ==> DoCreate(db, u, name, id).reply == Refused(BadName)
  {
  }

  lemma SwitchIsDoneIff(db: Db, u: UserId, h: HouseholdId)
    ensures DoSwitch(db, u, h).reply.Done?
            <==> u in db.users && (h, u) in db.members && h in db.households && !db.households[h].deleted
  {
  }

  /** The invitations that count against the inviter: of this household, within a day, and pending or
      accepted. */
  function CountedInvitations(db: Db, now: Time, u: UserId, h: HouseholdId): set<InvitationId> {
    set i | i in db.invitations && db.invitations[i].household == h && db.invitations[i].invitedBy == u
            && db.invitations[i].invitedAt >= now - 86400
            && (db.invitations[i].status == Pending || db.invitations[i].status == Accepted)
  }

  /** Somebody in the household has this address. */
  predicate HasMember(db: Db, h: HouseholdId, email: string) {
    exists k <- db.members :: k.0 == h && k.1 in db.users
      && db.users[k.1].email.Some? && Lower(db.users[k.1].email.value) == email
  }

  /** An invitation of the household to this address is open and has not expired. */
  predicate HasInvitation(db: Db, now: Time, h: HouseholdId, email: string) {
    exists i <- db.invitations :: db.invitations[i].household == h
      && db.invitations[i].email.Some? && Lower(db.invitations[i].email.value) == email
      && db.invitations[i].status == Pending && now < db.invitations[i].expiresAt
  }

  lemma InviteIsDoneIff(db: Db, now: Time, u: UserId, h: HouseholdId, id: InvitationId, email: Option<string>, role: Role, hash: TokenHash)
    requires PointersOk(db) && ActsAsAdmin(db, u, h)
    ensures DoInvite(db, now, u, id, email, role, hash).reply.Done?
      <==>
      && |set k | k in db.members && k.0 == h| < 10 && |CountedInvitations(db, now, u, h)| < 10
      && (email.Some? && Lower(Strip(email.value)) != "" ==>
            !HasInvitation(db, now, h, Lower(Strip(email.value))) && !HasMember(db, h, Lower(Strip(email.value))))
      && id !in db.invitations && forall i <- db.invitations :: db.invitations[i].tokenHash != hash
  {
    AdminIsResolved(db, u, h);
    assert CountedInvitations(db, now, u, h) == RecentInvitations(db, now, u, h);
    HashIsFreshIff(db, hash);
    if NormaliseEmail(email).Some? {
      AddressIsFreeIff(db, now, h, NormaliseEmail(email).value);
    }
  }

  lemma HashIsFreshIff(db: Db, hash: TokenHash)
    ensures WithHash(db, hash) == {} <==> forall i <- db.invitations :: db.invitations[i].tokenHash != hash
  {
    if i :| i in WithHash(db, hash) {
      assert db.invitations[i].tokenHash == hash;
    }
    if i :| i in db.invitations && db.invitations[i].tokenHash == hash {
      assert i in WithHash(db, hash);
    }
  }

  lemma AddressIsFreeIff(db: Db, now: Time, h: HouseholdId, email: string)
    ensures LivePending(db, now, h, email) == {} <==> !HasInvitation(db, now, h, email)
    ensures MembersWithEmail(db, h, email) == {} <==> !HasMember(db, h, email)
  {
    if i :| i in LivePending(db, now, h, email) {
      assert HasInvitation(db, now, h, email);
    }
    if k :| k in MembersWithEmail(db, h, email) {
      assert HasMember(db, h, email);
    }
    if HasInvitation(db, now, h, email) {
      var i :| i in db.invitations && db.invitations[i].household == h
               && db.invitations[i].email.Some? && Lower(db.invitations[i].email.value) == email
               && db.invitations[i].status == Pending && now < db.invitations[i].expiresAt;
      assert i in LivePending(db, now, h, email);
    }
    if HasMember(db, h, email) {
      var k :| k in db.members && k.0 == h && k.1 in db.users
               && db.users[k.1].email.Some? && Lower(db.users[k.1].email.value) == email;
      assert k in MembersWithEmail(db, h, email);
    }
  }

  lemma RevokeInviteIsDoneIff(db: Db, now: Time, u: UserId, h: HouseholdId, i: InvitationId)
    requires PointersOk(db) && ActsAsAdmin(db, u, h)
    ensures DoRevokeInvite(db, now, u, i).reply.Done?
            <==> i in db.invitations && db.invitations[i].household == h && db.invitations[i].status != Accepted
  {
    AdminIsResolved(db, u, h);
  }

  lemma ResendInviteIsDoneIff(db: Db, now: Time, u: UserId, h: HouseholdId, i: InvitationId, hash: TokenHash)
    requires PointersOk(db) && ActsAsAdmin(db, u, h)
    ensures DoResendInvite(db, now, u, i, hash).reply.Done?
            <==> i in db.invitations && db.invitations[i].household == h && db.invitations[i].status != Accepted
                 && forall j <- db.invitations :: db.invitations[j].tokenHash == hash ==> j == i
  {
    AdminIsResolved(db, u, h);
    if j :| j in WithHash(db, hash) - {i} {
      assert db.invitations[j].tokenHash == hash && j != i;
    }
    if j :| j in db.invitations && db.invitations[j].tokenHash == hash && j != i {
      assert j in WithHash(db, hash) - {i};
    }
  }

  lemma RemoveMemberIsDoneIff(db: Db, now: Time, u: UserId, h: HouseholdId, target: UserId)
    requires PointersOk(db) && ActsAsAdmin(db, u, h)
    ensures DoRemoveMember(db, u, target).reply.Done? <==> target != u
    ensures DoRemoveMember(db, u, u).reply == Refused(CannotRemoveSelf)
  {
    AdminIsResolved(db, u, h);
    LastAdminGuardIsNeverReached(db, now, RemoveMember(u, target));
  }

  lemma ChangeRoleIsDoneIff(db: Db, now: Time, u: UserId, h: HouseholdId, target: UserId, role: Role)
    requires PointersOk(db) && ActsAsAdmin(db, u, h)
    ensures DoChangeRole(db, u, target, role).reply.Done?
            <==> (h, target) in db.members && (target == u ==> role == Admin)
    ensures DoChangeRole(db, u, u, Member).reply == Refused(NeedsAnAdmin)
  {
    AdminIsResolved(db, u, h);
    LastAdminGuardIsNeverReached(db, now, ChangeRole(u, target, role));
  }

  lemma GuestLinkIsDoneIff(db: Db, now: Time, u: UserId, h: HouseholdId, id: GuestTokenId, hash: TokenHash)
    requires PointersOk(db)
    ensures DoGenerateGuest(db, now, u, h, id, hash).reply.Done?
            <==> ActsAsAdmin(db, u, h) && id !in db.guestTokens
                 && forall g <- db.guestTokens :: db.guestTokens[g].tokenHash != hash
    ensures DoRevokeGuest(db, now, u, h).reply.Done? <==> ActsAsAdmin(db, u, h)
  {
    AdminIsResolved(db, u, h);
    ResolveIsIdle(db, u);
  }

  lemma SettingIsDoneIff(db: Db, u: UserId, h: HouseholdId, name: string)
    requires PointersOk(db)
    ensures DoRename(db, u, h, name).reply.Done? <==> ActsAsAdmin(db, u, h) && 1 <= |Strip(name)| <= 64
    ensures DoDelete(db, u, h, name).reply.Done? <==> ActsAsAdmin(db, u, h) && db.households[h].name == name
  {
    AdminIsResolved(db, u, h);
    ResolveIsIdle(db, u);
    if u in db.users {
      assert PointerOk(db, u);
    }
  }

  /** Without the admin role in the household that they act in, nobody gets any of this done. */
  lemma OnlyAdminsAreServed(db: Db, now: Time, request: Request)
    requires PointersOk(db) && Serve(db, now, request).reply.Done?
    requires !request.Register? && !request.Create? && !request.Switch? && !request.Accept?
    ensures exists h :: ActsAsAdmin(db, Caller(request), h)
  {
    var u := Caller(request);
    ResolveIsIdle(db, u);
    assert ResolveAdmin(db, u).household.Ok?;
    AdminIsResolved(db, u, ResolveAdmin(db, u).household.value);
  }

  // ---------------------------------------------------------------------------
  // Tables that membership rules do not speak of
  // ---------------------------------------------------------------------------

  /** Nobody loses an account or an address, whatever is requested, done or refused. */
  lemma UsersKeepTheirAddress(db: Db, now: Time, request: Request, x: UserId)
    requires PointersOk(db) && x in db.users
    ensures x in Serve(db, now, request).db.users && Serve(db, now, request).db.users[x].email == db.users[x].email
  {
    ResolveIsIdle(db, Caller(request));
  }

  /** A new account has the address it was registered with, and no household yet. */
  lemma OnlyRegisteringAddsUsers(db: Db, now: Time, request: Request, x: UserId)
    requires PointersOk(db) && x !in db.users && x in Serve(db, now, request).db.users
    ensures request.Register? && request.user == x && Serve(db, now, request).db.users[x] == User(None, request.email)
  {
    ResolveIsIdle(db, Caller(request));
  }

  /** Tenant rows go with their household, and no other request touches them. */
  lemma RowsStay(db: Db, now: Time, request: Request)
    requires PointersOk(db)
    ensures var after := Serve(db, now, request);
      after.db.rows == if request.Delete? && after.reply.Done?
                       then map r | r in db.rows && db.rows[r] != Some(request.household) :: db.rows[r]
                       else db.rows
  {
    ResolveIsIdle(db, Caller(request));
  }
}
