/** What every run of household requests keeps. */
module HouseholdInvariants {
  import opened Basics
  import opened HouseholdModel

  /** The foreign keys. */
  ghost predicate RefsOk(db: Db) {
    && (forall k <- db.members :: k.0 in db.households && k.1 in db.users)
    && (forall i <- db.invitations :: db.invitations[i].household in db.households)
    && (forall g <- db.guestTokens :: db.guestTokens[g].household in db.households)
    && (forall r <- db.rows :: db.rows[r].Some? ==> db.rows[r].value in db.households)
  }

  /** The stored pointer is null exactly when the user has no live membership, and is one of the
      live memberships otherwise. */
  ghost predicate PointerOk(db: Db, u: UserId)
    requires u in db.users
  {
    match db.users[u].active
    case None => LiveOf(db, u) == {}
    case Some(h) => h in LiveOf(db, u)
  }

  ghost predicate PointersOk(db: Db) {
    forall u <- db.users :: PointerOk(db, u)
  }

  ghost predicate SizeOk(db: Db, h: HouseholdId) {
    1 <= |MemberKeys(db, h)| <= MEMBER_LIMIT && AdminKeys(db, h) != {}
  }

  ghost predicate SizesOk(db: Db) {
    forall h | Live(db, h) :: SizeOk(db, h)
  }

  function Unrevoked(db: Db, h: HouseholdId): set<GuestTokenId> {
    set g | g in db.guestTokens && db.guestTokens[g].household == h && db.guestTokens[g].revokedAt.None?
  }

  /** The flag says whether there is an unrevoked token, and there are never two. */
  ghost predicate GuestOk(db: Db, h: HouseholdId)
    requires h in db.households
  {
    |Unrevoked(db, h)| == if db.households[h].guestAccessible then 1 else 0
  }

  ghost predicate GuestsOk(db: Db) {
    forall h <- db.households :: GuestOk(db, h)
  }

  /** The time stamps are set exactly in the statuses they belong to. */
  predicate StampsOk(invitation: Invitation) {
    && (invitation.acceptedAt.Some? <==> invitation.status == Accepted)
    && (invitation.revokedAt.Some? <==> invitation.status == Revoked)
  }

  ghost predicate InvitationsOk(db: Db) {
    && (forall i <- db.invitations :: StampsOk(db.invitations[i]))
    && (forall i <- db.invitations, j <- db.invitations ::
          db.invitations[i].tokenHash == db.invitations[j].tokenHash ==> i == j)
  }

  ghost predicate Valid(db: Db) {
    RefsOk(db) && PointersOk(db) && SizesOk(db) && GuestsOk(db) && InvitationsOk(db)
  }

  // ---------------------------------------------------------------------------
  // Frames
  // ---------------------------------------------------------------------------

  lemma SameFirstLive(a: Db, b: Db, u: UserId)
    requires LiveOf(a, u) == LiveOf(b, u)
    requires forall h <- LiveOf(a, u) :: NameKey(a, h) == NameKey(b, h)
    ensures FirstLive(a, u) == FirstLive(b, u)
  {
    var hs := LiveOf(a, u);
    if hs != {} {
      var x, y := Least(a, hs), Least(b, hs);
      BeforeAntisymmetric(a, x, y);
    }
  }

  lemma SizeFrame(a: Db, b: Db, h: HouseholdId)
    requires forall u :: (h, u) in a.members <==> (h, u) in b.members
    requires forall u | (h, u) in a.members :: a.members[(h, u)] == b.members[(h, u)]
    ensures SizeOk(a, h) == SizeOk(b, h)
  {
    assert MemberKeys(a, h) == MemberKeys(b, h) by {
      forall k: (HouseholdId, UserId) | k.0 == h ensures k in a.members <==> k in b.members {
        assert k == (h, k.1);
      }
    }
    assert AdminKeys(a, h) == AdminKeys(b, h) by {
      forall k: (HouseholdId, UserId) | k.0 == h && k in a.members ensures a.members[k] == b.members[k] {
        assert k == (h, k.1);
      }
    }
  }

  lemma GuestFrame(a: Db, b: Db, h: HouseholdId)
    requires h in a.households && h in b.households
    requires a.households[h].guestAccessible == b.households[h].guestAccessible
    requires Unrevoked(a, h) == Unrevoked(b, h)
    ensures GuestOk(a, h) == GuestOk(b, h)
  {
  }

  /** When pointers are right the resolver finds a live pointer, or no membership at all. */
  lemma ResolveIsIdle(db: Db, u: UserId)
    requires PointersOk(db)
    ensures Resolve(db, u).db == db
    ensures ResolveAdmin(db, u).db == db
    ensures Resolve(db, u).household.Ok? ==> db.users[u].active == Some(Resolve(db, u).household.value)
  {
    if u in db.users {
      assert PointerOk(db, u);
    }
  }

  // ---------------------------------------------------------------------------
  // Changes confined to some of the tables
  // ---------------------------------------------------------------------------

  /** Sizes depend on the members and on which households are live. */
  lemma SizesFrame(a: Db, b: Db)
    requires SizesOk(a) && b.members == a.members
    requires forall h | Live(b, h) :: Live(a, h)
    ensures SizesOk(b)
  {
    forall h | Live(b, h) ensures SizeOk(b, h) {
      SizeFrame(a, b, h);
    }
  }

  lemma GuestsFrame(a: Db, b: Db)
    requires GuestsOk(a) && b.guestTokens == a.guestTokens
    requires forall h <- b.households ::
      h in a.households && b.households[h].guestAccessible == a.households[h].guestAccessible
    ensures GuestsOk(b)
  {
    forall h <- b.households ensures GuestOk(b, h) {
      GuestFrame(a, b, h);
    }
  }

  lemma PointersFrame(a: Db, b: Db)
    requires PointersOk(a) && b.users == a.users && b.members == a.members
    requires forall h :: Live(b, h) <==> Live(a, h)
    ensures PointersOk(b)
  {
    forall u <- b.users ensures PointerOk(b, u) {
      assert PointerOk(a, u);
      forall h ensures h in LiveOf(b, u) <==> h in LiveOf(a, u) {
        assert Live(b, h) <==> Live(a, h);
      }
    }
  }

  lemma InvitationWritten(a: Db, i: InvitationId, invitation: Invitation)
    requires InvitationsOk(a) && StampsOk(invitation) && WithHash(a, invitation.tokenHash) <= {i}
    ensures InvitationsOk(a.(invitations := a.invitations[i := invitation]))
  {
    forall j <- a.invitations | a.invitations[j].tokenHash == invitation.tokenHash ensures j == i {
      assert j in WithHash(a, invitation.tokenHash);
    }
  }

  /** One invitation row is written, with a hash that no other row has. */
  lemma InvitationsChanged(a: Db, i: InvitationId, invitation: Invitation)
    requires Valid(a) && invitation.household in a.households
    requires StampsOk(invitation) && WithHash(a, invitation.tokenHash) <= {i}
    ensures Valid(a.(invitations := a.invitations[i := invitation]))
  {
    var b := a.(invitations := a.invitations[i := invitation]);
    SizesFrame(a, b);
    GuestsFrame(a, b);
    InvitationWritten(a, i, invitation);
    PointersFrame(a, b);
  }

  /** Only pointers changed, and each of them is right. */
  lemma UsersChanged(a: Db, b: Db)
    requires RefsOk(a) && SizesOk(a) && GuestsOk(a) && InvitationsOk(a)
    requires b == a.(users := b.users) && a.users.Keys <= b.users.Keys
    requires PointersOk(b)
    ensures Valid(b)
  {
    SizesFrame(a, b);
    GuestsFrame(a, b);
  }

  // ---------------------------------------------------------------------------
  // One request
  // ---------------------------------------------------------------------------

  lemma RegisterKeepsValid(db: Db, u: UserId, email: Option<string>)
    requires Valid(db)
    ensures Valid(DoRegister(db, u, email).db)
  {
    var after := DoRegister(db, u, email).db;
    forall x <- after.users ensures PointerOk(after, x) {
      assert LiveOf(after, x) == LiveOf(db, x);
      if x != u {
        assert PointerOk(db, x);
      }
    }
    UsersChanged(db, after);
  }

  lemma CreateKeepsPointers(db: Db, u: UserId, name: string, id: HouseholdId)
    requires RefsOk(db) && PointersOk(db) && u in db.users && id !in db.households
    ensures PointersOk(SetActive(InsertHousehold(db, u, name, id), u, Some(id)))
  {
    var after := SetActive(InsertHousehold(db, u, name, id), u, Some(id));
    forall x <- after.users ensures PointerOk(after, x) {
      assert PointerOk(db, x);
      assert LiveOf(after, x) == LiveOf(db, x) + if x == u then {id} else {};
    }
  }

  lemma CreateKeepsSizes(db: Db, u: UserId, name: string, id: HouseholdId)
    requires RefsOk(db) && SizesOk(db) && u in db.users && id !in db.households
    ensures SizesOk(InsertHousehold(db, u, name, id))
  {
    var after := InsertHousehold(db, u, name, id);
    forall h | Live(after, h) ensures SizeOk(after, h) {
      if h == id {
        assert MemberKeys(after, id) == {(id, u)};
        assert (id, u) in AdminKeys(after, id);
      } else {
        SizeFrame(db, after, h);
      }
    }
  }

  lemma CreateKeepsGuests(db: Db, u: UserId, name: string, id: HouseholdId)
    requires RefsOk(db) && GuestsOk(db) && id !in db.households
    ensures GuestsOk(InsertHousehold(db, u, name, id))
  {
    var after := InsertHousehold(db, u, name, id);
    forall h <- after.households ensures GuestOk(after, h) {
      assert Unrevoked(after, h) == Unrevoked(db, h);
      if h == id {
        assert Unrevoked(after, id) == {};
      } else {
        assert GuestOk(db, h);
      }
    }
  }

  lemma CreateKeepsValid(db: Db, u: UserId, name: string, id: HouseholdId)
    requires Valid(db)
    ensures Valid(DoCreate(db, u, name, id).db)
  {
    var after := DoCreate(db, u, name, id).db;
    if after != db {
      CreateKeepsPointers(db, u, Strip(name), id);
      CreateKeepsSizes(db, u, Strip(name), id);
      CreateKeepsGuests(db, u, Strip(name), id);
      UsersChanged(InsertHousehold(db, u, Strip(name), id), after);
    }
  }

  lemma SwitchKeepsValid(db: Db, u: UserId, h: HouseholdId)
    requires Valid(db)
    ensures Valid(DoSwitch(db, u, h).db)
  {
    var after := DoSwitch(db, u, h).db;
    forall x <- after.users ensures PointerOk(after, x) {
      assert PointerOk(db, x);
      assert LiveOf(after, x) == LiveOf(db, x);
    }
    UsersChanged(db, after);
  }

  lemma InviteKeepsValid(db: Db, now: Time, u: UserId, id: InvitationId, email: Option<string>, role: Role, hash: TokenHash)
    requires Valid(db)
    ensures Valid(DoInvite(db, now, u, id, email, role, hash).db)
  {
    ResolveIsIdle(db, u);
    var after := DoInvite(db, now, u, id, email, role, hash);
    if after.reply.Done? {
      InvitationsChanged(db, id, after.db.invitations[id]);
    }
  }

  /** A user joins a household that has room for one more. */
  lemma JoinKeepsPointers(db: Db, u: UserId, h: HouseholdId, role: Role)
    requires PointersOk(db) && u in db.users && Live(db, h)
    ensures PointersOk(SetActive(db.(members := db.members[(h, u) := role]), u, Some(h)))
  {
    var after := SetActive(db.(members := db.members[(h, u) := role]), u, Some(h));
    forall x <- after.users ensures PointerOk(after, x) {
      assert PointerOk(db, x);
      assert LiveOf(after, x) == LiveOf(db, x) + if x == u then {h} else {};
    }
  }

  lemma JoinKeepsSize(db: Db, u: UserId, h: HouseholdId, role: Role)
    requires SizeOk(db, h) && (h, u) !in db.members && |MemberKeys(db, h)| < MEMBER_LIMIT
    ensures SizeOk(db.(members := db.members[(h, u) := role]), h)
  {
    var after := db.(members := db.members[(h, u) := role]);
    assert MemberKeys(after, h) == MemberKeys(db, h) + {(h, u)};
    var k :| k in AdminKeys(db, h);
    assert k in AdminKeys(after, h);
  }

  lemma JoinKeepsSizes(db: Db, u: UserId, h: HouseholdId, role: Role)
    requires SizesOk(db) && Live(db, h) && (h, u) !in db.members && |MemberKeys(db, h)| < MEMBER_LIMIT
    ensures SizesOk(db.(members := db.members[(h, u) := role]))
  {
    var after := db.(members := db.members[(h, u) := role]);
    assert SizeOk(db, h);
    JoinKeepsSize(db, u, h, role);
    forall g | Live(after, g) && g != h ensures SizeOk(after, g) {
      assert SizeOk(db, g);
      SizeFrame(db, after, g);
    }
  }

  lemma JoinKeepsValid(db: Db, u: UserId, h: HouseholdId, role: Role)
    requires Valid(db) && u in db.users
    requires Live(db, h) && (h, u) !in db.members && |MemberKeys(db, h)| < MEMBER_LIMIT
    ensures Valid(SetActive(db.(members := db.members[(h, u) := role]), u, Some(h)))
  {
    var joined := db.(members := db.members[(h, u) := role]);
    JoinKeepsPointers(db, u, h, role);
    JoinKeepsSizes(db, u, h, role);
    GuestsFrame(db, joined);
    UsersChanged(joined, SetActive(joined, u, Some(h)));
  }

  lemma AcceptKeepsValid(db: Db, now: Time, u: UserId, hash: TokenHash)
    requires Valid(db)
    ensures Valid(DoAccept(db, now, u, hash).db)
  {
    var after := DoAccept(db, now, u, hash);
    if after.reply.Done? {
      var i := LeastId(WithHash(db, hash));
      var h, role := db.invitations[i].household, db.invitations[i].role;
      JoinKeepsValid(db, u, h, role);
      var joined := SetActive(db.(members := db.members[(h, u) := role]), u, Some(h));
      assert WithHash(joined, hash) == WithHash(db, hash) <= {i};
      InvitationsChanged(joined, i, after.db.invitations[i]);
    }
  }

  lemma RevokeInviteKeepsValid(db: Db, now: Time, u: UserId, i: InvitationId)
    requires Valid(db)
    ensures Valid(DoRevokeInvite(db, now, u, i).db)
  {
    ResolveIsIdle(db, u);
    var after := DoRevokeInvite(db, now, u, i);
    if after.reply.Done? {
      InvitationsChanged(db, i, after.db.invitations[i]);
    }
  }

  lemma ResendInviteKeepsValid(db: Db, now: Time, u: UserId, i: InvitationId, hash: TokenHash)
    requires Valid(db)
    ensures Valid(DoResendInvite(db, now, u, i, hash).db)
  {
    ResolveIsIdle(db, u);
    var after := DoResendInvite(db, now, u, i, hash);
    if after.reply.Done? {
      InvitationsChanged(db, i, after.db.invitations[i]);
    }
  }

  /** The caller is an admin, so whoever else is an admin is not the only one. */
  lemma TwoAdmins(db: Db, h: HouseholdId, u: UserId, target: UserId)
    requires u != target && (h, u) in AdminKeys(db, h) && (h, target) in AdminKeys(db, h)
    ensures |AdminKeys(db, h)| >= 2
  {
    SubsetCardinality({(h, u), (h, target)}, AdminKeys(db, h));
  }

  lemma LeaveKeepsPointers(db: Db, h: HouseholdId, target: UserId)
    requires PointersOk(db)
    ensures PointersOk(Repair(db.(members := db.members - {(h, target)}), {target}))
    ensures PointersOk(Repair(db, {target}))
  {
    var removed := db.(members := db.members - {(h, target)});
    var after, kept := Repair(removed, {target}), Repair(db, {target});
    forall x <- db.users ensures PointerOk(after, x) && PointerOk(kept, x) {
      assert PointerOk(db, x);
      assert LiveOf(after, x) == LiveOf(removed, x) && LiveOf(kept, x) == LiveOf(db, x);
      if x != target {
        assert LiveOf(removed, x) == LiveOf(db, x);
      }
    }
  }

  lemma LeaveKeepsSizes(db: Db, h: HouseholdId, u: UserId, target: UserId)
    requires SizesOk(db) && u != target && (h, u) in AdminKeys(db, h)
    ensures SizesOk(db.(members := db.members - {(h, target)}))
  {
    var after := db.(members := db.members - {(h, target)});
    forall g | Live(after, g) ensures SizeOk(after, g) {
      assert SizeOk(db, g);
      if g == h {
        assert (h, u) in AdminKeys(after, h);
        SubsetCardinality({(h, u)}, MemberKeys(after, h));
        SubsetCardinality(MemberKeys(after, h), MemberKeys(db, h));
      } else {
        SizeFrame(db, after, g);
      }
    }
  }

  lemma LeaveKeepsValid(db: Db, h: HouseholdId, u: UserId, target: UserId)
    requires Valid(db) && u != target && (h, u) in AdminKeys(db, h)
    ensures Valid(Repair(db.(members := db.members - {(h, target)}), {target}))
    ensures Valid(Repair(db, {target}))
  {
    var left := db.(members := db.members - {(h, target)});
    LeaveKeepsPointers(db, h, target);
    LeaveKeepsSizes(db, h, u, target);
    GuestsFrame(db, left);
    UsersChanged(left, Repair(left, {target}));
    UsersChanged(db, Repair(db, {target}));
  }

  lemma RemoveMemberKeepsValid(db: Db, u: UserId, target: UserId)
    requires Valid(db)
    ensures Valid(DoRemoveMember(db, u, target).db)
  {
    ResolveIsIdle(db, u);
    if DoRemoveMember(db, u, target).reply.Done? {
      LeaveKeepsValid(db, ResolveAdmin(db, u).household.value, u, target);
    }
  }

  lemma RoleKeepsSizes(db: Db, h: HouseholdId, u: UserId, target: UserId, role: Role)
    requires SizesOk(db) && (h, u) in AdminKeys(db, h) && (h, target) in db.members
    requires u == target ==> role == Admin
    ensures SizesOk(db.(members := db.members[(h, target) := role]))
  {
    var after := db.(members := db.members[(h, target) := role]);
    forall g | Live(after, g) ensures SizeOk(after, g) {
      assert SizeOk(db, g);
      if g == h {
        assert MemberKeys(after, h) == MemberKeys(db, h);
        assert (h, u) in AdminKeys(after, h);
      } else {
        SizeFrame(db, after, g);
      }
    }
  }

  lemma RoleKeepsPointers(db: Db, h: HouseholdId, target: UserId, role: Role)
    requires PointersOk(db) && (h, target) in db.members
    ensures PointersOk(db.(members := db.members[(h, target) := role]))
  {
    var after := db.(members := db.members[(h, target) := role]);
    forall x <- after.users ensures PointerOk(after, x) {
      assert PointerOk(db, x);
      assert LiveOf(after, x) == LiveOf(db, x);
    }
  }

  lemma ChangeRoleKeepsValid(db: Db, u: UserId, target: UserId, role: Role)
    requires Valid(db)
    ensures Valid(DoChangeRole(db, u, target, role).db)
  {
    ResolveIsIdle(db, u);
    var after := DoChangeRole(db, u, target, role);
    if after.reply.Done? {
      var h := ResolveAdmin(db, u).household.value;
      RoleKeepsPointers(db, h, target, role);
      RoleKeepsSizes(db, h, u, target, role);
      GuestsFrame(db, after.db);
    }
  }

  /** Guest-link requests touch only the tokens and the flag. */
  lemma GuestChangesKeepValid(db: Db, after: Db, h: HouseholdId)
    requires Valid(db) && h in db.households
    requires after == db.(households := after.households, guestTokens := after.guestTokens)
    requires h in after.households
    requires after.households == db.households[h := db.households[h].(guestAccessible := after.households[h].guestAccessible)]
    requires forall g <- after.guestTokens :: after.guestTokens[g].household in db.households
    requires GuestOk(after, h)
    requires forall x <- db.households :: x != h ==> Unrevoked(after, x) == Unrevoked(db, x)
    ensures Valid(after)
  {
    SizesFrame(db, after);
    PointersFrame(db, after);
    forall x <- after.households ensures GuestOk(after, x) {
      if x != h {
        GuestFrame(db, after, x);
      }
    }
  }

  lemma NewLinkKeepsValid(db: Db, now: Time, h: HouseholdId, id: GuestTokenId, hash: TokenHash)
    requires Valid(db) && h in db.households && id !in db.guestTokens
    ensures var revoked := RevokeGuestTokens(db, now, h);
      Valid(SetGuestFlag(revoked.(guestTokens := revoked.guestTokens[id := GuestToken(h, hash, None)]), h, true))
  {
    var revoked := RevokeGuestTokens(db, now, h);
    var after := SetGuestFlag(revoked.(guestTokens := revoked.guestTokens[id := GuestToken(h, hash, None)]), h, true);
    assert Unrevoked(after, h) == {id};
    forall x <- db.households | x != h ensures Unrevoked(after, x) == Unrevoked(db, x) {
    }
    GuestChangesKeepValid(db, after, h);
  }

  lemma GenerateGuestKeepsValid(db: Db, now: Time, u: UserId, h: HouseholdId, id: GuestTokenId, hash: TokenHash)
    requires Valid(db)
    ensures Valid(DoGenerateGuest(db, now, u, h, id, hash).db)
  {
    ResolveIsIdle(db, u);
    if DoGenerateGuest(db, now, u, h, id, hash).reply.Done? {
      NewLinkKeepsValid(db, now, h, id, hash);
    }
  }

  lemma RevokeGuestKeepsValid(db: Db, now: Time, u: UserId, h: HouseholdId)
    requires Valid(db)
    ensures Valid(DoRevokeGuest(db, now, u, h).db)
  {
    ResolveIsIdle(db, u);
    var after := DoRevokeGuest(db, now, u, h);
    if after.reply.Done? {
      assert Unrevoked(after.db, h) == {};
      forall x <- db.households | x != h ensures Unrevoked(after.db, x) == Unrevoked(db, x) {
      }
      GuestChangesKeepValid(db, after.db, h);
    }
  }

  lemma NameKeepsValid(db: Db, h: HouseholdId, name: string)
    requires Valid(db) && h in db.households
    ensures Valid(db.(households := db.households[h := db.households[h].(name := name)]))
  {
    var after := db.(households := db.households[h := db.households[h].(name := name)]);
    assert forall g :: Live(after, g) <==> Live(db, g);
    SizesFrame(db, after);
    GuestsFrame(db, after);
    PointersFrame(db, after);
  }

  lemma RenameKeepsValid(db: Db, u: UserId, h: HouseholdId, name: string)
    requires Valid(db)
    ensures Valid(DoRename(db, u, h, name).db)
  {
    ResolveIsIdle(db, u);
    if DoRename(db, u, h, name).reply.Done? {
      NameKeepsValid(db, h, Strip(name));
    }
  }

  lemma CascadeKeepsPointers(db: Db, h: HouseholdId)
    requires PointersOk(db)
    ensures PointersOk(Repair(Cascade(db, h), MembersOf(db, h)))
  {
    var after := Repair(Cascade(db, h), MembersOf(db, h));
    forall x <- after.users ensures PointerOk(after, x) {
      assert PointerOk(db, x);
      assert LiveOf(after, x) == LiveOf(Cascade(db, h), x) == LiveOf(db, x) - {h};
      if (h, x) in db.members {
        assert (h, x) in MemberKeys(db, h);
        assert x in MembersOf(db, h);
      }
    }
  }

  lemma CascadeKeepsSizes(db: Db, h: HouseholdId)
    requires SizesOk(db)
    ensures SizesOk(Cascade(db, h))
  {
    forall g | Live(Cascade(db, h), g) ensures SizeOk(Cascade(db, h), g) {
      assert SizeOk(db, g);
      SizeFrame(db, Cascade(db, h), g);
    }
  }

  lemma CascadeKeepsGuests(db: Db, h: HouseholdId)
    requires GuestsOk(db)
    ensures GuestsOk(Cascade(db, h))
  {
    var gone := Cascade(db, h);
    forall g <- gone.households ensures GuestOk(gone, g) {
      assert GuestOk(db, g);
      assert Unrevoked(gone, g) == Unrevoked(db, g);
    }
  }

  lemma CascadeKeepsRefs(db: Db, h: HouseholdId)
    requires RefsOk(db)
    ensures RefsOk(Cascade(db, h))
  {
  }

  lemma CascadeKeepsInvitations(db: Db, h: HouseholdId)
    requires InvitationsOk(db)
    ensures InvitationsOk(Cascade(db, h))
  {
  }

  lemma DeleteKeepsValid(db: Db, u: UserId, h: HouseholdId, confirmName: string)
    requires Valid(db)
    ensures Valid(DoDelete(db, u, h, confirmName).db)
  {
    ResolveIsIdle(db, u);
    var after := DoDelete(db, u, h, confirmName).db;
    if after != db {
      CascadeKeepsPointers(db, h);
      CascadeKeepsSizes(db, h);
      CascadeKeepsRefs(db, h);
      CascadeKeepsGuests(db, h);
      CascadeKeepsInvitations(db, h);
      UsersChanged(Cascade(db, h), after);
    }
  }

  predicate OnInvitations(request: Request) {
    request.Invite? || request.Accept? || request.RevokeInvite? || request.ResendInvite?
  }

  lemma ServeInvitationKeepsValid(db: Db, now: Time, request: Request)
    requires Valid(db) && OnInvitations(request)
    ensures Valid(Serve(db, now, request).db)
  {
    match request
    case Invite(u, i, email, role, hash) => InviteKeepsValid(db, now, u, i, email, role, hash);
    case Accept(u, hash) => AcceptKeepsValid(db, now, u, hash);
    case RevokeInvite(u, i) => RevokeInviteKeepsValid(db, now, u, i);
    case ResendInvite(u, i, hash) => ResendInviteKeepsValid(db, now, u, i, hash);
  }

  predicate OnSettings(request: Request) {
    request.GenerateGuest? || request.RevokeGuest? || request.Rename? || request.Delete?
  }

  lemma ServeSettingsKeepsValid(db: Db, now: Time, request: Request)
    requires Valid(db) && OnSettings(request)
    ensures Valid(Serve(db, now, request).db)
  {
    match request
    case GenerateGuest(u, h, id, hash) => GenerateGuestKeepsValid(db, now, u, h, id, hash);
    case RevokeGuest(u, h) => RevokeGuestKeepsValid(db, now, u, h);
    case Rename(u, h, name) => RenameKeepsValid(db, u, h, name);
    case Delete(u, h, confirmName) => DeleteKeepsValid(db, u, h, confirmName);
  }

  lemma ServeUserKeepsValid(db: Db, now: Time, request: Request)
    requires Valid(db) && !OnInvitations(request) && !OnSettings(request)
    ensures Valid(Serve(db, now, request).db)
  {
    match request
    case Register(u, email) => RegisterKeepsValid(db, u, email);
    case Create(u, name, id) => CreateKeepsValid(db, u, name, id);
    case Switch(u, h) => SwitchKeepsValid(db, u, h);
    case RemoveMember(u, target) => RemoveMemberKeepsValid(db, u, target);
    case ChangeRole(u, target, role) => ChangeRoleKeepsValid(db, u, target, role);
  }

  lemma ServeKeepsValid(db: Db, now: Time, request: Request)
    requires Valid(db)
    ensures Valid(Serve(db, now, request).db)
  {
    if OnInvitations(request) {
      ServeInvitationKeepsValid(db, now, request);
    } else if OnSettings(request) {
      ServeSettingsKeepsValid(db, now, request);
    } else {
      ServeUserKeepsValid(db, now, request);
    }
  }

  // ---------------------------------------------------------------------------
  // Whole runs
  // ---------------------------------------------------------------------------

  /** Whatever requests are served, in whatever order, the tables stay in order. */
  lemma {:induction false} RunKeepsValid(db: Db, requests: seq<(Time, Request)>)
    requires Valid(db)
    ensures Valid(Run(db, requests))
    decreases |requests|
  {
    if requests != [] {
      ServeKeepsValid(db, requests[0].0, requests[0].1);
      RunKeepsValid(Serve(db, requests[0].0, requests[0].1).db, requests[1..]);
    }
  }
}
