/** What the household requests promise: the facts that hold in every reachable state, and what
    each kind of request can and cannot change. */
module HouseholdRuns {
  import opened Basics
  import opened HouseholdModel
  import opened HouseholdInvariants

  // ---------------------------------------------------------------------------
  // Every reachable state
  // ---------------------------------------------------------------------------

  /** From an empty database, after any requests: a pointer is null exactly for users without a
      live membership and otherwise names one of theirs; a live household has one to ten members,
      one of them an admin; its guest flag is set exactly when it has one unrevoked token. */
  lemma ReachableStates(requests: seq<(Time, Request)>)
    ensures var db := Run(EMPTY_DB, requests);
      && Valid(db)
      && (forall u <- db.users :: db.users[u].active.None? <==> LiveOf(db, u) == {})
      && (forall u <- db.users :: db.users[u].active.Some? ==> db.users[u].active.value in LiveOf(db, u))
      && (forall h | Live(db, h) :: 1 <= |MemberKeys(db, h)| <= 10 && AdminKeys(db, h) != {})
      && (forall h <- db.households :: |Unrevoked(db, h)| <= 1)
      && (forall h <- db.households :: db.households[h].guestAccessible <==> |Unrevoked(db, h)| == 1)
  {
    RunKeepsValid(EMPTY_DB, requests);
    var db := Run(EMPTY_DB, requests);
    forall u <- db.users
      ensures db.users[u].active.None? <==> LiveOf(db, u) == {}
      ensures db.users[u].active.Some? ==> db.users[u].active.value in LiveOf(db, u)
    {
      assert PointerOk(db, u);
    }
    forall h | Live(db, h) ensures 1 <= |MemberKeys(db, h)| <= 10 && AdminKeys(db, h) != {} {
      assert SizeOk(db, h);
    }
    forall h <- db.households
      ensures |Unrevoked(db, h)| <= 1
      ensures db.households[h].guestAccessible <==> |Unrevoked(db, h)| == 1
    {
      assert GuestOk(db, h);
    }
  }

  function Caller(request: Request): UserId {
    request.user
  }

  lemma RefusedFromHere(db: Db, now: Time, request: Request)
    requires Resolve(db, Caller(request)).db == db && Serve(db, now, request).reply.Refused?
    ensures Serve(db, now, request).db == db
  {
  }

  /** A refused request leaves every table as it was. */
  lemma RefusedChangesNothing(db: Db, now: Time, request: Request)
    requires PointersOk(db) && Serve(db, now, request).reply.Refused?
    ensures Serve(db, now, request).db == db
  {
    ResolveIsIdle(db, Caller(request));
    RefusedFromHere(db, now, request);
  }

  // ---------------------------------------------------------------------------
  // Roles
  // ---------------------------------------------------------------------------

  /** Removing and re-roling go through an admin who cannot target themselves, so the
      repository's own last-admin guard never fires, from any state of the tables. */
  lemma LastAdminGuardIsNeverReached(db: Db, now: Time, request: Request)
    ensures Serve(db, now, request).reply != Refused(SoleAdmin)
  {
    var who := ResolveAdmin(db, Caller(request));
    if request.RemoveMember? || request.ChangeRole? {
      if who.household.Ok? && (who.household.value, request.target) in AdminKeys(who.db, who.household.value)
         && request.target != request.user
      {
        TwoAdmins(who.db, who.household.value, request.user, request.target);
      }
    }
  }

  /** The invitation that a request presents. */
  function Presented(db: Db, hash: TokenHash): (i: InvitationId)
    requires WithHash(db, hash) != {}
    ensures i in db.invitations && db.invitations[i].tokenHash == hash
  {
    LeastId(WithHash(db, hash))
  }

  predicate Acts(db: Db, u: UserId, h: HouseholdId) {
    ResolveAdmin(db, u).household == Ok(h) && (h, u) in AdminKeys(db, h)
  }

  /** The member table after a request that is done. */
  ghost predicate MemberChange(db: Db, request: Request, m: map<(HouseholdId, UserId), Role>) {
    var who := ResolveAdmin(db, Caller(request)).household;
    match request
    case Create(u, _, id) => id !in db.households && m == db.members[(id, u) := Admin]
    case Accept(u, hash) =>
      WithHash(db, hash) != {} &&
      var invitation := db.invitations[Presented(db, hash)];
      (invitation.household, u) !in db.members && m == db.members[(invitation.household, u) := invitation.role]
    case RemoveMember(u, target) =>
      target != u && who.Ok? && Acts(db, u, who.value) && m == db.members - {(who.value, target)}
    case ChangeRole(u, target, role) =>
      (target == u ==> role == Admin) && who.Ok? && Acts(db, u, who.value)
      && (who.value, target) in db.members && m == db.members[(who.value, target) := role]
    case Delete(u, h, _) => Acts(db, u, h) && m == map k | k in db.members && k.0 != h :: db.members[k]
    case _ => m == db.members
  }

  lemma AdminsChangeMembers(db: Db, now: Time, request: Request)
    requires Resolve(db, Caller(request)).db == db && Serve(db, now, request).reply.Done?
    requires request.RemoveMember? || request.ChangeRole? || request.Delete?
    ensures MemberChange(db, request, Serve(db, now, request).db.members)
  {
  }

  lemma NewcomersChangeMembers(db: Db, now: Time, request: Request)
    requires Serve(db, now, request).reply.Done? && (request.Create? || request.Accept?)
    ensures MemberChange(db, request, Serve(db, now, request).db.members)
  {
  }

  lemma InvitingKeepsMembers(db: Db, now: Time, request: Request)
    requires request.Invite? || request.RevokeInvite? || request.ResendInvite? || request.Register?
    ensures Serve(db, now, request).db.members == db.members
  {
  }

  lemma SettingsKeepMembers(db: Db, now: Time, request: Request)
    requires request.Switch? || request.GenerateGuest? || request.RevokeGuest? || request.Rename?
    ensures Serve(db, now, request).db.members == db.members
  {
  }

  /** What each request does to the member table when it is done; refused, it does nothing. */
  lemma MemberTable(db: Db, now: Time, request: Request)
    requires Resolve(db, Caller(request)).db == db
    ensures var after := Serve(db, now, request);
      if after.reply.Done? then MemberChange(db, request, after.db.members) else after.db.members == db.members
  {
    var after := Serve(db, now, request);
    if after.reply.Refused? {
      RefusedFromHere(db, now, request);
    } else if request.RemoveMember? || request.ChangeRole? || request.Delete? {
      AdminsChangeMembers(db, now, request);
    } else if request.Create? || request.Accept? {
      NewcomersChangeMembers(db, now, request);
    } else if request.Switch? || request.GenerateGuest? || request.RevokeGuest? || request.Rename? {
      SettingsKeepMembers(db, now, request);
    } else {
      InvitingKeepsMembers(db, now, request);
    }
  }

  /** No request makes its own caller stop being an admin, except by deleting the household. */
  lemma CallerStaysAdmin(db: Db, now: Time, request: Request, h: HouseholdId)
    requires PointersOk(db) && (h, Caller(request)) in AdminKeys(db, h)
    requires h in Serve(db, now, request).db.households
    ensures (h, Caller(request)) in AdminKeys(Serve(db, now, request).db, h)
  {
    ResolveIsIdle(db, Caller(request));
    MemberTable(db, now, request);
  }

  /** A member row appears only with a new household, for its creator, or together with an
      invitation to that household, in that role, turning from open to accepted. */
  lemma NewMembersAreInvited(db: Db, now: Time, request: Request, k: (HouseholdId, UserId))
    requires PointersOk(db)
    requires var after := Serve(db, now, request).db; k in after.members && k !in db.members
    ensures k.1 == Caller(request)
    ensures var after := Serve(db, now, request).db;
      || (k.0 !in db.households && after.members[k] == Admin)
      || exists i :: i in db.invitations && i in after.invitations
           && db.invitations[i].household == k.0 && db.invitations[i].role == after.members[k]
           && db.invitations[i].expiresAt >= now
           && (db.invitations[i].status == Pending || db.invitations[i].status == Declined)
           && after.invitations[i] == db.invitations[i].(status := Accepted, acceptedAt := Some(now))
  {
    ResolveIsIdle(db, Caller(request));
    if request.Accept? {
      var i := LeastId(WithHash(db, request.tokenHash));
      assert i in db.invitations;
    }
  }

  /** A member row disappears only by removal by an admin of that household, or with the household. */
  lemma MembersLeaveByAnAdmin(db: Db, now: Time, request: Request, k: (HouseholdId, UserId))
    requires PointersOk(db) && k in db.members && k !in Serve(db, now, request).db.members
    ensures (k.0, Caller(request)) in AdminKeys(db, k.0)
    ensures k.1 == Caller(request) ==> k.0 !in Serve(db, now, request).db.households
  {
    ResolveIsIdle(db, Caller(request));
    MemberTable(db, now, request);
  }

  // ---------------------------------------------------------------------------
  // Removing a member
  // ---------------------------------------------------------------------------

  /** A removal deletes that one row, and points the target at their first live household --
      whether or not they were a member, and wherever they pointed before. */
  lemma RemovalIsExact(db: Db, u: UserId, target: UserId)
    requires PointersOk(db) && DoRemoveMember(db, u, target).reply.Done?
    ensures var after := DoRemoveMember(db, u, target).db; var h := ResolveAdmin(db, u).household.value;
      && after == db.(members := db.members - {(h, target)}, users := after.users)
      && after.users.Keys == db.users.Keys
      && (forall x <- db.users :: x != target ==> after.users[x] == db.users[x])
      && (target in db.users ==> after.users[target] == db.users[target].(active := FirstLive(after, target)))
  {
    ResolveIsIdle(db, u);
    var after, h := DoRemoveMember(db, u, target).db, ResolveAdmin(db, u).household.value;
    var removed := RepoRemove(db, h, target).db;
    assert removed.members == db.members - {(h, target)};
    assert LiveOf(removed, target) == LiveOf(after, target);
    SameFirstLive(removed, after, target);
  }

  /** The target's pointer survives a removal exactly when it already named the first, by name, of
      their live households other than the caller's. */
  lemma RemovalKeepsPointerIff(db: Db, u: UserId, target: UserId)
    requires PointersOk(db) && target in db.users && DoRemoveMember(db, u, target).reply.Done?
    ensures var after := DoRemoveMember(db, u, target).db;
      var rest := LiveOf(db, target) - {ResolveAdmin(db, u).household.value};
      after.users[target] == db.users[target]
      <==> db.users[target].active == if rest == {} then None else Some(Least(db, rest))
  {
    RemovalIsExact(db, u, target);
    ResolveIsIdle(db, u);
    var after := DoRemoveMember(db, u, target).db;
    var rest := LiveOf(db, target) - {ResolveAdmin(db, u).household.value};
    assert LiveOf(after, target) == rest;
    if rest != {} {
      BeforeAntisymmetric(db, Least(db, rest), Least(after, rest));
    }
  }

  // User 1 runs household 7.  User 2 is not in it, runs 8 and 9, and acts in 9.
  const STRANGER_DB := Db(
    map[1 := User(Some(7), None), 2 := User(Some(9), None)],
    map[7 := Household("Home", false, false), 8 := Household("A", false, false), 9 := Household("B", false, false)],
    map[(7, 1) := Admin, (8, 2) := Admin, (9, 2) := Admin],
    map[], map[], map[])

  lemma StrangerSizes()
    ensures SizesOk(STRANGER_DB)
  {
    var db := STRANGER_DB;
    assert MemberKeys(db, 7) == {(7, 1)} && (7, 1) in AdminKeys(db, 7);
    assert MemberKeys(db, 8) == {(8, 2)} && (8, 2) in AdminKeys(db, 8);
    assert MemberKeys(db, 9) == {(9, 2)} && (9, 2) in AdminKeys(db, 9);
  }

  lemma StrangerPointers()
    ensures LiveOf(STRANGER_DB, 1) == {7} && LiveOf(STRANGER_DB, 2) == {8, 9}
    ensures PointersOk(STRANGER_DB)
  {
  }

  lemma StrangerGuests()
    ensures GuestsOk(STRANGER_DB)
  {
    assert forall h :: Unrevoked(STRANGER_DB, h) == {};
  }

  lemma StrangerCanBeRemoved()
    ensures ResolveAdmin(STRANGER_DB, 1).household == Ok(7) && DoRemoveMember(STRANGER_DB, 1, 2).reply.Done?
  {
  }

  lemma StrangersFirstIs8()
    ensures Least(STRANGER_DB, {8, 9}) == 8
  {
    var m := Least(STRANGER_DB, {8, 9});
    assert Before(STRANGER_DB, m, 8) && Before(STRANGER_DB, 8, 9);
    assert NameKey(STRANGER_DB, 8)[0] == 'a' && NameKey(STRANGER_DB, 9)[0] == 'b';
  }

  /** The request is done, to a target who is not a member of the caller's household, and moves the
      target's pointer. */
  ghost predicate MovesAStranger(db: Db, u: UserId, target: UserId) {
    && DoRemoveMember(db, u, target).reply.Done? && target in db.users && ResolveAdmin(db, u).household.Ok?
    && (ResolveAdmin(db, u).household.value, target) !in db.members
    && target in DoRemoveMember(db, u, target).db.users
    && DoRemoveMember(db, u, target).db.users[target] != db.users[target]
  }

  lemma StrangerIsMoved()
    ensures MovesAStranger(STRANGER_DB, 1, 2)
  {
    StrangerPointers();
    StrangerCanBeRemoved();
    StrangersFirstIs8();
    RemovalIsExact(STRANGER_DB, 1, 2);
    RemovalKeepsPointerIff(STRANGER_DB, 1, 2);
    assert {8, 9} - {7} == {8, 9};
  }

  /** Removing somebody who is not a member can move them to another of their households. */
  lemma RemovalMovesAStranger()
    ensures exists db, u, target :: Valid(db) && MovesAStranger(db, u, target)
  {
    StrangerSizes();
    StrangerPointers();
    StrangerGuests();
    StrangerIsMoved();
    assert Valid(STRANGER_DB);
  }

  // ---------------------------------------------------------------------------
  // Deleting a household
  // ---------------------------------------------------------------------------

  /** A deletion takes the household and everything that refers to it, and nothing else: other
      households keep all their rows, and only its members' pointers move. */
  lemma DeletionIsExact(db: Db, u: UserId, h: HouseholdId, confirmName: string)
    requires PointersOk(db) && DoDelete(db, u, h, confirmName).reply.Done?
    ensures var after := DoDelete(db, u, h, confirmName).db;
      && after.households == db.households - {h}
      && (forall k :: k in after.members <==> k in db.members && k.0 != h)
      && (forall k <- after.members :: after.members[k] == db.members[k])
      && (forall i :: i in after.invitations <==> i in db.invitations && db.invitations[i].household != h)
      && (forall i <- after.invitations :: after.invitations[i] == db.invitations[i])
      && (forall g :: g in after.guestTokens <==> g in db.guestTokens && db.guestTokens[g].household != h)
      && (forall g <- after.guestTokens :: after.guestTokens[g] == db.guestTokens[g])
      && (forall r :: r in after.rows <==> r in db.rows && db.rows[r] != Some(h))
      && (forall r <- after.rows :: after.rows[r] == db.rows[r])
      && after.users.Keys == db.users.Keys
      && (forall x <- db.users :: (h, x) !in db.members ==> after.users[x] == db.users[x])
      && (forall x <- db.users :: (h, x) in db.members ==>
            after.users[x] == db.users[x].(active := FirstLive(after, x)))
  {
    ResolveIsIdle(db, u);
    var after, gone := DoDelete(db, u, h, confirmName).db, Cascade(db, h);
    forall x <- db.users
      ensures (h, x) !in db.members ==> after.users[x] == db.users[x]
      ensures (h, x) in db.members ==> after.users[x] == db.users[x].(active := FirstLive(after, x))
    {
      assert PointerOk(db, x);
      if (h, x) in db.members {
        assert (h, x) in MemberKeys(db, h);
        assert x in MembersOf(db, h);
      }
      assert LiveOf(gone, x) == LiveOf(after, x);
      SameFirstLive(gone, after, x);
    }
  }

  // ---------------------------------------------------------------------------
  // Invitations, one request at a time
  // ---------------------------------------------------------------------------

  /** The invitation table after a request that is done. */
  ghost predicate InvitationChange(db: Db, now: Time, request: Request, after: map<InvitationId, Invitation>) {
    var before, who := db.invitations, ResolveAdmin(db, Caller(request)).household;
    match request
    case Invite(u, i, email, role, hash) =>
      i !in before && who.Ok? && Acts(db, u, who.value)
      && after == before[i := Invitation(who.value, u, NormaliseEmail(email), role, Pending, hash,
                                         now, now + 72 * 3600, None, None)]
    case Accept(_, hash) =>
      WithHash(db, hash) != {} &&
      var i := Presented(db, hash);
      (before[i].status == Pending || before[i].status == Declined) && before[i].expiresAt >= now
      && after == before[i := before[i].(status := Accepted, acceptedAt := Some(now))]
    case RevokeInvite(u, i) =>
      i in before && before[i].status != Accepted && Acts(db, u, before[i].household)
      && after == before[i := before[i].(status := Revoked, revokedAt := Some(now))]
    case ResendInvite(u, i, hash) =>
      i in before && before[i].status != Accepted && Acts(db, u, before[i].household)
      && after == before[i := before[i].(status := Pending, tokenHash := hash,
                                         expiresAt := now + 72 * 3600, acceptedAt := None, revokedAt := None)]
    case Delete(u, h, _) => Acts(db, u, h) && after == map i | i in before && before[i].household != h :: before[i]
    case _ => after == before
  }

  lemma AdminsChangeInvitations(db: Db, now: Time, request: Request)
    requires Resolve(db, Caller(request)).db == db && Serve(db, now, request).reply.Done?
    requires request.Invite? || request.RevokeInvite? || request.ResendInvite?
    ensures InvitationChange(db, now, request, Serve(db, now, request).db.invitations)
  {
  }

  lemma AcceptsAndDeletesChangeInvitations(db: Db, now: Time, request: Request)
    requires Resolve(db, Caller(request)).db == db && Serve(db, now, request).reply.Done?
    requires request.Accept? || request.Delete?
    ensures InvitationChange(db, now, request, Serve(db, now, request).db.invitations)
  {
  }

  lemma MembershipKeepsInvitations(db: Db, now: Time, request: Request)
    requires request.RemoveMember? || request.ChangeRole? || request.Register? || request.Create?
    ensures Serve(db, now, request).db.invitations == db.invitations
  {
  }

  lemma SettingsKeepInvitations(db: Db, now: Time, request: Request)
    requires request.Switch? || request.GenerateGuest? || request.RevokeGuest? || request.Rename?
    ensures Serve(db, now, request).db.invitations == db.invitations
  {
  }

  /** What each request does to the invitation table when it is done; refused, it does nothing. */
  lemma InvitationTable(db: Db, now: Time, request: Request)
    requires Resolve(db, Caller(request)).db == db
    ensures var after := Serve(db, now, request);
      if after.reply.Done? then InvitationChange(db, now, request, after.db.invitations)
      else after.db.invitations == db.invitations
  {
    var after := Serve(db, now, request);
    if after.reply.Refused? {
      RefusedFromHere(db, now, request);
    } else if request.Invite? || request.RevokeInvite? || request.ResendInvite? {
      AdminsChangeInvitations(db, now, request);
    } else if request.Accept? || request.Delete? {
      AcceptsAndDeletesChangeInvitations(db, now, request);
    } else if request.Switch? || request.GenerateGuest? || request.RevokeGuest? || request.Rename? {
      SettingsKeepInvitations(db, now, request);
    } else {
      MembershipKeepsInvitations(db, now, request);
    }
  }

  /** With requests served one at a time an accepted invitation never changes again. */
  lemma AcceptedIsFinal(db: Db, now: Time, request: Request, i: InvitationId)
    requires PointersOk(db) && i in db.invitations && db.invitations[i].status == Accepted
    requires i in Serve(db, now, request).db.invitations
    ensures Serve(db, now, request).db.invitations[i] == db.invitations[i]
  {
    ResolveIsIdle(db, Caller(request));
    InvitationTable(db, now, request);
  }

  /** Over any run it stays as it is, or goes with its household; identifiers are not used twice. */
  lemma {:induction false} AcceptedStays(db: Db, requests: seq<(Time, Request)>, i: InvitationId)
    requires Valid(db) && (i in db.invitations ==> db.invitations[i].status == Accepted)
    requires forall n :: 0 <= n < |requests| && requests[n].1.Invite? ==> requests[n].1.invitation != i
    ensures i in Run(db, requests).invitations ==> i in db.invitations && Run(db, requests).invitations[i] == db.invitations[i]
    decreases |requests|
  {
    if requests != [] {
      var now, request := requests[0].0, requests[0].1;
      ServeKeepsValid(db, now, request);
      if i in Serve(db, now, request).db.invitations {
        ResolveIsIdle(db, Caller(request));
        InvitationTable(db, now, request);
        if i in db.invitations {
          AcceptedIsFinal(db, now, request, i);
        }
      }
      AcceptedStays(Serve(db, now, request).db, requests[1..], i);
    }
  }

  /** At most one invitation per household and address is pending and unexpired. */
  ghost predicate OneLivePending(db: Db, now: Time) {
    forall h, email :: |LivePending(db, now, h, email)| <= 1
  }

  lemma LivePendingShrinks(a: Db, b: Db, now: Time, later: Time, h: HouseholdId, email: string)
    requires now <= later
    requires forall i <- b.invitations ::
      b.invitations[i].status == Pending && b.invitations[i].expiresAt > later ==>
        i in a.invitations && b.invitations[i] == a.invitations[i]
    ensures |LivePending(b, later, h, email)| <= |LivePending(a, now, h, email)|
  {
    SubsetCardinality(LivePending(b, later, h, email), LivePending(a, now, h, email));
  }

  /** Writing one invitation row decides only whether that row is live and pending. */
  lemma WriteInvitation(db: Db, now: Time, i: InvitationId, invitation: Invitation, h: HouseholdId, email: string)
    ensures var after := db.(invitations := db.invitations[i := invitation]);
      var live := invitation.household == h && EmailIs(invitation.email, email)
                  && invitation.status == Pending && invitation.expiresAt > now;
      LivePending(after, now, h, email) == LivePending(db, now, h, email) - {i} + if live then {i} else {}
  {
  }

  lemma InviteKeepsOneLivePending(db: Db, now: Time, u: UserId, id: InvitationId, email: Option<string>, role: Role, hash: TokenHash)
    requires PointersOk(db) && OneLivePending(db, now)
    ensures OneLivePending(DoInvite(db, now, u, id, email, role, hash).db, now)
  {
    ResolveIsIdle(db, u);
    var after := DoInvite(db, now, u, id, email, role, hash);
    if after.reply.Done? {
      var invitation, h := after.db.invitations[id], ResolveAdmin(db, u).household.value;
      assert InviteRefusal(db, now, u, h, NormaliseEmail(email)) == None;
      if email.Some? {
        LowerIdempotent(Strip(email.value));
      }
      NewInvitationIsOnlyOne(db, now, id, invitation);
    }
  }

  lemma NewInvitationIsOnlyOne(db: Db, now: Time, id: InvitationId, invitation: Invitation)
    requires OneLivePending(db, now)
    requires invitation.email.Some? ==>
      LivePending(db, now, invitation.household, Lower(invitation.email.value)) == {}
    ensures OneLivePending(db.(invitations := db.invitations[id := invitation]), now)
  {
    var after := db.(invitations := db.invitations[id := invitation]);
    forall g, address ensures |LivePending(after, now, g, address)| <= 1 {
      WriteInvitation(db, now, id, invitation, g, address);
      assert |LivePending(db, now, g, address)| <= 1;
      SubsetCardinality(LivePending(db, now, g, address) - {id}, LivePending(db, now, g, address));
    }
  }

  lemma {:induction false} LowerIdempotent(s: string)
    ensures Lower(Lower(s)) == Lower(s)
  {
    assert forall i :: 0 <= i < |s| ==> Lower(Lower(s))[i] == Lower(s)[i];
  }

  /** No other request makes an invitation pending or postpones its expiry. */
  lemma PendingRowsAreOld(db: Db, now: Time, request: Request, i: InvitationId)
    requires Resolve(db, Caller(request)).db == db && !request.Invite? && !request.ResendInvite?
    requires i in Serve(db, now, request).db.invitations
    requires Serve(db, now, request).db.invitations[i].status == Pending
    ensures i in db.invitations && Serve(db, now, request).db.invitations[i] == db.invitations[i]
  {
    InvitationTable(db, now, request);
  }

  lemma TimeKeepsOneLivePending(db: Db, now: Time, later: Time)
    requires OneLivePending(db, now) && now <= later
    ensures OneLivePending(db, later)
  {
    forall h, email ensures |LivePending(db, later, h, email)| <= 1 {
      LivePendingShrinks(db, db, now, later, h, email);
      assert |LivePending(db, now, h, email)| <= 1;
    }
  }

  /** Every request but a resend keeps it, and so does the passing of time. */
  lemma OthersKeepOneLivePending(db: Db, now: Time, later: Time, request: Request)
    requires PointersOk(db) && OneLivePending(db, now) && now <= later && !request.ResendInvite?
    ensures OneLivePending(Serve(db, later, request).db, later)
  {
    TimeKeepsOneLivePending(db, now, later);
    ResolveIsIdle(db, Caller(request));
    if request.Invite? {
      InviteKeepsOneLivePending(db, later, request.user, request.invitation, request.email, request.role, request.tokenHash);
    } else {
      var after := Serve(db, later, request).db;
      forall i <- after.invitations | after.invitations[i].status == Pending
        ensures i in db.invitations && after.invitations[i] == db.invitations[i]
      {
        PendingRowsAreOld(db, later, request, i);
      }
      forall h, email ensures |LivePending(after, later, h, email)| <= 1 {
        LivePendingShrinks(db, after, later, later, h, email);
        assert |LivePending(db, later, h, email)| <= 1;
      }
    }
  }

  /** A resend keeps it exactly when no other invitation to that address is live. */
  lemma ResendKeepsOneLivePendingIff(db: Db, now: Time, u: UserId, i: InvitationId, hash: TokenHash)
    requires PointersOk(db) && OneLivePending(db, now) && DoResendInvite(db, now, u, i, hash).reply.Done?
    ensures
      OneLivePending(DoResendInvite(db, now, u, i, hash).db, now)
      <==>
      (db.invitations[i].email.Some? ==>
         LivePending(db, now, db.invitations[i].household, Lower(db.invitations[i].email.value)) <= {i})
  {
    ResolveIsIdle(db, u);
    ReopenedIsOnlyOneIff(db, now, i, DoResendInvite(db, now, u, i, hash).db.invitations[i]);
  }

  /** Other addresses are not concerned. */
  lemma ReopenedElsewhere(db: Db, now: Time, i: InvitationId, invitation: Invitation, h: HouseholdId, email: string)
    requires OneLivePending(db, now) && !(invitation.household == h && EmailIs(invitation.email, email))
    ensures |LivePending(db.(invitations := db.invitations[i := invitation]), now, h, email)| <= 1
  {
    WriteInvitation(db, now, i, invitation, h, email);
    assert |LivePending(db, now, h, email)| <= 1;
    SubsetCardinality(LivePending(db, now, h, email) - {i}, LivePending(db, now, h, email));
  }

  lemma ReopenedHereIff(db: Db, now: Time, i: InvitationId, invitation: Invitation, email: string)
    requires invitation.status == Pending && invitation.expiresAt > now && EmailIs(invitation.email, email)
    ensures var h := invitation.household;
      |LivePending(db.(invitations := db.invitations[i := invitation]), now, h, email)| <= 1
      <==> LivePending(db, now, h, email) <= {i}
  {
    var before := LivePending(db, now, invitation.household, email);
    WriteInvitation(db, now, i, invitation, invitation.household, email);
    if before <= {i} {
      assert before - {i} + {i} == {i};
    } else {
      var j :| j in before && j != i;
      SubsetCardinality({i, j}, before - {i} + {i});
    }
  }

  /** A row that is made live and pending keeps its own address free of others, or does not. */
  lemma ReopenedIsOnlyOneIff(db: Db, now: Time, i: InvitationId, invitation: Invitation)
    requires OneLivePending(db, now) && invitation.status == Pending && invitation.expiresAt > now
    ensures
      OneLivePending(db.(invitations := db.invitations[i := invitation]), now)
      <==>
      (invitation.email.Some? ==> LivePending(db, now, invitation.household, Lower(invitation.email.value)) <= {i})
  {
    var after := db.(invitations := db.invitations[i := invitation]);
    forall g, email | !(g == invitation.household && EmailIs(invitation.email, email))
      ensures |LivePending(after, now, g, email)| <= 1
    {
      ReopenedElsewhere(db, now, i, invitation, g, email);
    }
    if invitation.email.Some? {
      ReopenedHereIff(db, now, i, invitation, Lower(invitation.email.value));
    }
  }

  predicate Clocked(now: Time, requests: seq<(Time, Request)>)
    decreases |requests|
  {
    requests == [] || (now <= requests[0].0 && Clocked(requests[0].0, requests[1..]))
  }

  function EndTime(now: Time, requests: seq<(Time, Request)>): Time {
    if requests == [] then now else requests[|requests| - 1].0
  }

  /** A resend that finds no other live invitation to its address, or is refused. */
  predicate Undoubling(db: Db, now: Time, request: Request) {
    request.ResendInvite? && Serve(db, now, request).reply.Done? ==>
      request.invitation in db.invitations &&
      var invitation := db.invitations[request.invitation];
      invitation.email.Some? ==>
        LivePending(db, now, invitation.household, Lower(invitation.email.value)) <= {request.invitation}
  }

  predicate NoneDoubles(db: Db, requests: seq<(Time, Request)>)
    decreases |requests|
  {
    requests == [] ||
    (Undoubling(db, requests[0].0, requests[0].1)
     && NoneDoubles(Serve(db, requests[0].0, requests[0].1).db, requests[1..]))
  }

  /** A run under a clock keeps it, if none of its resends doubles an invitation -- if it has no
      resends, for instance. */
  lemma {:induction false} RunKeepsOneLivePending(db: Db, now: Time, requests: seq<(Time, Request)>)
    requires Valid(db) && OneLivePending(db, now) && Clocked(now, requests) && NoneDoubles(db, requests)
    ensures OneLivePending(Run(db, requests), EndTime(now, requests))
    decreases |requests|
  {
    if requests != [] {
      var later, request := requests[0].0, requests[0].1;
      var after := Serve(db, later, request).db;
      ServeKeepsValid(db, later, request);
      StepKeepsOneLivePending(db, now, later, request);
      RunKeepsOneLivePending(after, later, requests[1..]);
    }
  }

  lemma StepKeepsOneLivePending(db: Db, now: Time, later: Time, request: Request)
    requires PointersOk(db) && OneLivePending(db, now) && now <= later && Undoubling(db, later, request)
    ensures OneLivePending(Serve(db, later, request).db, later)
  {
    TimeKeepsOneLivePending(db, now, later);
    if !request.ResendInvite? {
      OthersKeepOneLivePending(db, now, later, request);
    } else if Serve(db, later, request).reply.Done? {
      ResendKeepsOneLivePendingIff(db, later, request.user, request.invitation, request.tokenHash);
    } else {
      RefusedChangesNothing(db, later, request);
    }
  }

  lemma {:induction false} NoResendsNoneDoubles(db: Db, requests: seq<(Time, Request)>)
    requires forall n :: 0 <= n < |requests| ==> !requests[n].1.ResendInvite?
    ensures NoneDoubles(db, requests)
    decreases |requests|
  {
    if requests != [] {
      NoResendsNoneDoubles(Serve(db, requests[0].0, requests[0].1).db, requests[1..]);
    }
  }

  // An admin revoked invitation 1, invited the same address again as 2, and resends 1.
  const ADDRESS := "a@b"
  const REVOKED := Invitation(7, 1, Some(ADDRESS), Member, Revoked, 100, 0, 10, None, Some(5))
  const REISSUED := Invitation(7, 1, Some(ADDRESS), Member, Pending, 200, 6, 16, None, None)
  const REISSUED_DB := Db(
    map[1 := User(Some(7), None)], map[7 := Household("Home", false, false)], map[(7, 1) := Admin],
    map[1 := REVOKED, 2 := REISSUED], map[], map[])

  lemma ReissuedIsValid()
    ensures Valid(REISSUED_DB)
  {
    var db := REISSUED_DB;
    assert PointersOk(db) by {
      assert LiveOf(db, 1) == {7};
    }
    assert SizesOk(db) by {
      assert MemberKeys(db, 7) == {(7, 1)} && (7, 1) in AdminKeys(db, 7);
    }
    assert GuestsOk(db) by {
      assert Unrevoked(db, 7) == {};
    }
  }

  lemma ReissuedHasOneLivePending()
    ensures OneLivePending(REISSUED_DB, 8)
  {
    forall h, email ensures |LivePending(REISSUED_DB, 8, h, email)| <= 1 {
      SubsetCardinality(LivePending(REISSUED_DB, 8, h, email), {2});
    }
  }

  lemma ReissuedCanBeResent()
    ensures DoResendInvite(REISSUED_DB, 8, 1, 1, 300).reply.Done?
  {
    assert WithHash(REISSUED_DB, 300) == {};
  }

  /** So a resend can leave two live invitations to one address. */
  lemma ResendCanDuplicate()
    ensures exists db, now, u, i, hash ::
      Valid(db) && OneLivePending(db, now) && DoResendInvite(db, now, u, i, hash).reply.Done?
      && !OneLivePending(DoResendInvite(db, now, u, i, hash).db, now)
  {
    ReissuedIsValid();
    ReissuedHasOneLivePending();
    ReissuedCanBeResent();
    assert 2 in LivePending(REISSUED_DB, 8, 7, Lower(ADDRESS));
    ResendKeepsOneLivePendingIff(REISSUED_DB, 8, 1, 1, 300);
  }

}
