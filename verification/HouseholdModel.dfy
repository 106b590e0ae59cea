/** The tables behind household membership, and what each committed request does to them.

    The tables are values; every endpoint is a function from the tables before the request to
    the tables after it, together with the reply.  A request that is refused keeps whatever the
    request had already committed: the resolver commits its repair of the active pointer on its
    own, before the endpoint's own transaction starts. */
module HouseholdModel {
  import opened Basics

  type UserId = nat
  type HouseholdId = nat
  type InvitationId = nat
  type GuestTokenId = nat
  type RowId = nat
  type TokenHash = nat

  datatype Role = Admin | Member

  datatype Status = Pending | Accepted | Declined | Revoked

  datatype User = User(active: Option<HouseholdId>, email: Option<string>)

  datatype Household = Household(name: string, guestAccessible: bool, deleted: bool)

  datatype Invitation = Invitation(
    household: HouseholdId,
    invitedBy: UserId,
    email: Option<string>,
    role: Role,
    status: Status,
    tokenHash: TokenHash,
    invitedAt: Time,
    expiresAt: Time,
    acceptedAt: Option<Time>,
    revokedAt: Option<Time>)

  datatype GuestToken = GuestToken(household: HouseholdId, tokenHash: TokenHash, revokedAt: Option<Time>)

  /** `members` is keyed by (household, user), which is its unique constraint.  `rows` stands for
      the five tenant tables: each row names the household that owns it, if any. */
  datatype Db = Db(
    users: map<UserId, User>,
    households: map<HouseholdId, Household>,
    members: map<(HouseholdId, UserId), Role>,
    invitations: map<InvitationId, Invitation>,
    guestTokens: map<GuestTokenId, GuestToken>,
    rows: map<RowId, Option<HouseholdId>>)

  const EMPTY_DB := Db(map[], map[], map[], map[], map[], map[])

  const MEMBER_LIMIT := 10
  const INVITE_LIMIT := 10
  const INVITE_WINDOW: Time := 24 * 3600
  const INVITE_LIFETIME: Time := 72 * 3600

  datatype Error =
    | NotAuthenticated      // 401
    | NoMemberships         // 403
    | AdminRequired         // 403
    | NotThisHousehold      // 403
    | NotAMember            // 403
    | CannotRemoveSelf      // 403
    | MemberNotFound        // 404
    | HouseholdNotFound     // 404
    | InvitationNotFound    // 404
    | NeedsAnAdmin          // 409, the router: an admin giving up their own role
    | SoleAdmin             // 409, the repository: the last admin
    | AlreadyMember         // 409
    | AlreadyInvited        // 409
    | HouseholdFull         // 409
    | InvitationUsed        // 409
    | NameMismatch          // 409
    | InvitationExpired     // 410
    | InvitationGone        // 410
    | HouseholdGone         // 410
    | BadName               // 422
    | RateLimited           // 429
    | IntegrityViolation    // 500, a unique constraint
    | SeveralRows           // 500, at most one row was expected

  datatype Reply = Done | Refused(error: Error)

  datatype After = After(db: Db, reply: Reply)

  // ---------------------------------------------------------------------------
  // Queries
  // ---------------------------------------------------------------------------

  predicate Live(db: Db, h: HouseholdId) {
    h in db.households && !db.households[h].deleted
  }

  function MemberKeys(db: Db, h: HouseholdId): set<(HouseholdId, UserId)> {
    set k | k in db.members && k.0 == h
  }

  function AdminKeys(db: Db, h: HouseholdId): set<(HouseholdId, UserId)> {
    set k | k in db.members && k.0 == h && db.members[k] == Admin
  }

  /** The households in which `u` is a member and which are not soft-deleted. */
  function LiveOf(db: Db, u: UserId): set<HouseholdId> {
    set h | h in db.households && !db.households[h].deleted && (h, u) in db.members
  }

  function NameKey(db: Db, h: HouseholdId): string {
    if h in db.households then Lower(db.households[h].name) else ""
  }

  /** ORDER BY lower(name), id. */
  predicate Before(db: Db, a: HouseholdId, b: HouseholdId) {
    if NameKey(db, a) == NameKey(db, b) then a <= b else LexLeq(NameKey(db, a), NameKey(db, b))
  }

  predicate IsLeast(db: Db, hs: set<HouseholdId>, m: HouseholdId) {
    m in hs && forall x :: x in hs ==> Before(db, m, x)
  }

  lemma {:induction false} LeastExists(db: Db, hs: set<HouseholdId>) returns (m: HouseholdId)
    requires hs != {}
    ensures IsLeast(db, hs, m)
  {
    var h :| h in hs;
    if hs == {h} {
      m := h;
    } else {
      var rest := hs - {h};
      assert forall x :: x in hs ==> x == h || x in rest;
      m := LeastExists(db, rest);
      LexTotal(NameKey(db, h), NameKey(db, m));
      if !Before(db, m, h) {
        forall x | x in rest ensures Before(db, h, x) {
          BeforeTransitive(db, h, m, x);
        }
        m := h;
      }
    }
  }

  lemma BeforeTransitive(db: Db, a: HouseholdId, b: HouseholdId, c: HouseholdId)
    requires Before(db, a, b) && Before(db, b, c)
    ensures Before(db, a, c)
  {
    var ka, kb, kc := NameKey(db, a), NameKey(db, b), NameKey(db, c);
    if ka != kb && kb != kc {
      LexTransitive(ka, kb, kc);
      if ka == kc {
        LexAntisymmetric(ka, kb);
      }
    }
  }

  lemma BeforeAntisymmetric(db: Db, a: HouseholdId, b: HouseholdId)
    requires Before(db, a, b) && Before(db, b, a)
    ensures a == b
  {
    if NameKey(db, a) != NameKey(db, b) {
      LexAntisymmetric(NameKey(db, a), NameKey(db, b));
    }
  }

  function Least(db: Db, hs: set<HouseholdId>): (m: HouseholdId)
    requires hs != {}
    ensures IsLeast(db, hs, m)
  {
    assert exists x :: IsLeast(db, hs, x) by {
      var x := LeastExists(db, hs);
    }
    assert forall a, b :: IsLeast(db, hs, a) && IsLeast(db, hs, b) ==> a == b by {
      forall a, b | IsLeast(db, hs, a) && IsLeast(db, hs, b) ensures a == b {
        BeforeAntisymmetric(db, a, b);
      }
    }
    var x :| IsLeast(db, hs, x);
    x
  }

  function FirstLive(db: Db, u: UserId): Option<HouseholdId> {
    var hs := LiveOf(db, u);
    if hs == {} then None else Some(Least(db, hs))
  }

  function WithHash(db: Db, hash: TokenHash): set<InvitationId> {
    set i | i in db.invitations && db.invitations[i].tokenHash == hash
  }

  function RecentInvitations(db: Db, now: Time, inviter: UserId, h: HouseholdId): set<InvitationId> {
    set i | i in db.invitations
            && db.invitations[i].household == h && db.invitations[i].invitedBy == inviter
            && db.invitations[i].invitedAt >= now - INVITE_WINDOW
            && (db.invitations[i].status == Pending || db.invitations[i].status == Accepted)
  }

  predicate EmailIs(stored: Option<string>, email: string) {
    stored.Some? && Lower(stored.value) == email
  }

  /** Invitations of `h` to `email` that are pending and have not expired. */
  function LivePending(db: Db, now: Time, h: HouseholdId, email: string): set<InvitationId> {
    set i | i in db.invitations
            && db.invitations[i].household == h && EmailIs(db.invitations[i].email, email)
            && db.invitations[i].status == Pending && db.invitations[i].expiresAt > now
  }

  function MembersWithEmail(db: Db, h: HouseholdId, email: string): set<(HouseholdId, UserId)> {
    set k | k in db.members && k.0 == h && k.1 in db.users && EmailIs(db.users[k.1].email, email)
  }

  function NormaliseEmail(email: Option<string>): Option<string> {
    if email.None? then None
    else
      var e := Lower(Strip(email.value));
      if e == "" then None else Some(e)
  }

  predicate NameOk(name: string) {
    1 <= |Strip(name)| <= 64
  }

  // ---------------------------------------------------------------------------
  // Table updates
  // ---------------------------------------------------------------------------

  function SetActive(db: Db, u: UserId, active: Option<HouseholdId>): Db {
    if u in db.users then db.(users := db.users[u := db.users[u].(active := active)]) else db
  }

  /** Point each listed user at their first live household, or at none. */
  function Repair(db: Db, us: set<UserId>): Db {
    db.(users := map u | u in db.users ::
          if u in us then db.users[u].(active := FirstLive(db, u)) else db.users[u])
  }

  /** Delete a household row together with everything that refers to it. */
  function Cascade(db: Db, h: HouseholdId): Db {
    Db(
      map u | u in db.users ::
        if db.users[u].active == Some(h) then db.users[u].(active := None) else db.users[u],
      db.households - {h},
      map k | k in db.members && k.0 != h :: db.members[k],
      map i | i in db.invitations && db.invitations[i].household != h :: db.invitations[i],
      map g | g in db.guestTokens && db.guestTokens[g].household != h :: db.guestTokens[g],
      map r | r in db.rows && db.rows[r] != Some(h) :: db.rows[r])
  }

  function RevokeGuestTokens(db: Db, now: Time, h: HouseholdId): Db {
    db.(guestTokens := map g | g in db.guestTokens ::
          if db.guestTokens[g].household == h && db.guestTokens[g].revokedAt.None?
          then db.guestTokens[g].(revokedAt := Some(now)) else db.guestTokens[g])
  }

  function SetGuestFlag(db: Db, h: HouseholdId, flag: bool): Db {
    if h in db.households
    then db.(households := db.households[h := db.households[h].(guestAccessible := flag)])
    else db
  }

  // ---------------------------------------------------------------------------
  // Who is asking
  // ---------------------------------------------------------------------------

  datatype Resolved = Resolved(db: Db, household: Result<HouseholdId, Error>)

  /** The request resolver: the stored pointer when it is a live membership, else the first live
      household, which it then stores. */
  function Resolve(db: Db, u: UserId): (r: Resolved)
    ensures r.household.Ok? ==>
      u in r.db.users && (r.household.value, u) in r.db.members && Live(r.db, r.household.value)
    ensures r.db == db.(users := r.db.users) && r.db.users.Keys == db.users.Keys
    ensures forall x :: x in db.users && x != u ==> r.db.users[x] == db.users[x]
  {
    if u !in db.users then Resolved(db, Err(NotAuthenticated))
    else
      var active := db.users[u].active;
      if active.Some? && (active.value, u) in db.members && Live(db, active.value) then
        Resolved(db, Ok(active.value))
      else
        var cleared := if active.Some? then SetActive(db, u, None) else db;
        match FirstLive(cleared, u)
        case None => Resolved(cleared, Err(NoMemberships))
        case Some(h) => Resolved(SetActive(cleared, u, Some(h)), Ok(h))
  }

  function ResolveAdmin(db: Db, u: UserId): Resolved {
    var r := Resolve(db, u);
    if r.household.Ok? && r.db.members[(r.household.value, u)] != Admin
    then Resolved(r.db, Err(AdminRequired))
    else r
  }

  // ---------------------------------------------------------------------------
  // Requests
  // ---------------------------------------------------------------------------

  /** Identifiers and token hashes that the server generates travel with the request. */
  datatype Request =
    | Register(user: UserId, email: Option<string>)
    | Create(user: UserId, name: string, id: HouseholdId)
    | Switch(user: UserId, household: HouseholdId)
    | Invite(user: UserId, invitation: InvitationId, email: Option<string>, role: Role, tokenHash: TokenHash)
    | Accept(user: UserId, tokenHash: TokenHash)
    | RevokeInvite(user: UserId, invitation: InvitationId)
    | ResendInvite(user: UserId, invitation: InvitationId, tokenHash: TokenHash)
    | RemoveMember(user: UserId, target: UserId)
    | ChangeRole(user: UserId, target: UserId, role: Role)
    | GenerateGuest(user: UserId, household: HouseholdId, guestToken: GuestTokenId, tokenHash: TokenHash)
    | RevokeGuest(user: UserId, household: HouseholdId)
    | Rename(user: UserId, household: HouseholdId, name: string)
    | Delete(user: UserId, household: HouseholdId, confirmName: string)

  function DoRegister(db: Db, u: UserId, email: Option<string>): After {
    if u in db.users then After(db, Refused(IntegrityViolation))
    else After(db.(users := db.users[u := User(None, email)]), Done)
  }

  function InsertHousehold(db: Db, u: UserId, name: string, id: HouseholdId): Db {
    db.(households := db.households[id := Household(name, false, false)],
        members := db.members[(id, u) := Admin])
  }

  function DoCreate(db: Db, u: UserId, name: string, id: HouseholdId): After {
    if u !in db.users then After(db, Refused(NotAuthenticated))
    else if !NameOk(name) then After(db, Refused(BadName))
    else if id in db.households || (id, u) in db.members then After(db, Refused(IntegrityViolation))
    else After(SetActive(InsertHousehold(db, u, Strip(name), id), u, Some(id)), Done)
  }

  function DoSwitch(db: Db, u: UserId, h: HouseholdId): After {
    if u !in db.users then After(db, Refused(NotAuthenticated))
    else if (h, u) !in db.members || !Live(db, h) then After(db, Refused(NotAMember))
    else After(SetActive(db, u, Some(h)), Done)
  }

  /** The guards of `create_invitation`, in order. */
  function InviteRefusal(db: Db, now: Time, inviter: UserId, h: HouseholdId, email: Option<string>): Option<Error> {
    if |MemberKeys(db, h)| >= MEMBER_LIMIT then Some(HouseholdFull)
    else if |RecentInvitations(db, now, inviter, h)| >= INVITE_LIMIT then Some(RateLimited)
    else if email.None? then None
    else if |LivePending(db, now, h, email.value)| > 1 then Some(SeveralRows)
    else if LivePending(db, now, h, email.value) != {} then Some(AlreadyInvited)
    else if |MembersWithEmail(db, h, email.value)| > 1 then Some(SeveralRows)
    else if MembersWithEmail(db, h, email.value) != {} then Some(AlreadyMember)
    else None
  }

  function DoInvite(db: Db, now: Time, u: UserId, id: InvitationId, email: Option<string>, role: Role, hash: TokenHash): After {
    var who := ResolveAdmin(db, u);
    if who.household.Err? then After(who.db, Refused(who.household.error))
    else
      var h, e := who.household.value, NormaliseEmail(email);
      var refusal := InviteRefusal(who.db, now, u, h, e);
      if refusal.Some? then After(who.db, Refused(refusal.value))
      else if id in who.db.invitations || WithHash(who.db, hash) != {} then
        After(who.db, Refused(IntegrityViolation))
      else
        var invitation := Invitation(h, u, e, role, Pending, hash, now, now + INVITE_LIFETIME, None, None);
        After(who.db.(invitations := who.db.invitations[id := invitation]), Done)
  }

  /** The guards of `accept_invite` once the invitation row is found, in order. */
  function AcceptRefusal(db: Db, now: Time, u: UserId, invitation: Invitation): Option<Error> {
    var h := invitation.household;
    if invitation.expiresAt < now then Some(InvitationExpired)
    else if invitation.status == Accepted then Some(InvitationUsed)
    else if invitation.status == Revoked then Some(InvitationGone)
    else if !Live(db, h) then Some(HouseholdGone)
    else if (h, u) in db.members then Some(AlreadyMember)
    else if |MemberKeys(db, h)| >= MEMBER_LIMIT then Some(HouseholdFull)
    else None
  }

  predicate IsLeastId(ids: set<nat>, m: nat) {
    m in ids && forall x :: x in ids ==> m <= x
  }

  lemma {:induction false} LeastIdExists(ids: set<nat>) returns (m: nat)
    requires ids != {}
    ensures IsLeastId(ids, m)
  {
    var i :| i in ids;
    if ids == {i} {
      m := i;
    } else {
      var rest := ids - {i};
      assert forall x :: x in ids ==> x == i || x in rest;
      m := LeastIdExists(rest);
      m := if i < m then i else m;
    }
  }

  function LeastId(ids: set<nat>): (m: nat)
    requires ids != {}
    ensures IsLeastId(ids, m)
  {
    assert exists x :: IsLeastId(ids, x) by {
      var x := LeastIdExists(ids);
    }
    var x :| IsLeastId(ids, x);
    x
  }

  function MarkAccepted(db: Db, now: Time, i: InvitationId): Db
    requires i in db.invitations
  {
    db.(invitations := db.invitations[i := db.invitations[i].(status := Accepted, acceptedAt := Some(now))])
  }

  function DoAccept(db: Db, now: Time, u: UserId, hash: TokenHash): After {
    if u !in db.users then After(db, Refused(NotAuthenticated))
    else if WithHash(db, hash) == {} then After(db, Refused(InvitationNotFound))
    else
      var i := LeastId(WithHash(db, hash));
      var invitation := db.invitations[i];
      var refusal := AcceptRefusal(db, now, u, invitation);
      if refusal.Some? then After(db, Refused(refusal.value))
      else
        var joined := db.(members := db.members[(invitation.household, u) := invitation.role]);
        After(SetActive(MarkAccepted(joined, now, i), u, Some(invitation.household)), Done)
  }

  function DoRevokeInvite(db: Db, now: Time, u: UserId, i: InvitationId): After {
    var who := ResolveAdmin(db, u);
    if who.household.Err? then After(who.db, Refused(who.household.error))
    else if i !in who.db.invitations || who.db.invitations[i].household != who.household.value then
      After(who.db, Refused(InvitationNotFound))
    else if who.db.invitations[i].status == Accepted then After(who.db, Refused(InvitationUsed))
    else
      var revoked := who.db.invitations[i].(status := Revoked, revokedAt := Some(now));
      After(who.db.(invitations := who.db.invitations[i := revoked]), Done)
  }

  function DoResendInvite(db: Db, now: Time, u: UserId, i: InvitationId, hash: TokenHash): After {
    var who := ResolveAdmin(db, u);
    if who.household.Err? then After(who.db, Refused(who.household.error))
    else if i !in who.db.invitations || who.db.invitations[i].household != who.household.value then
      After(who.db, Refused(InvitationNotFound))
    else if who.db.invitations[i].status == Accepted then After(who.db, Refused(InvitationUsed))
    else if WithHash(who.db, hash) - {i} != {} then After(who.db, Refused(IntegrityViolation))
    else
      var resent := who.db.invitations[i].(status := Pending, tokenHash := hash,
        expiresAt := now + INVITE_LIFETIME, acceptedAt := None, revokedAt := None);
      After(who.db.(invitations := who.db.invitations[i := resent]), Done)
  }

  /** `HouseholdRepo.remove_member`: nothing to do for a non-member, a refusal for the last admin. */
  function RepoRemove(db: Db, h: HouseholdId, target: UserId): After {
    if (h, target) !in db.members then After(db, Done)
    else if db.members[(h, target)] == Admin && |AdminKeys(db, h)| <= 1 then After(db, Refused(SoleAdmin))
    else After(db.(members := db.members - {(h, target)}), Done)
  }

  function DoRemoveMember(db: Db, u: UserId, target: UserId): After {
    var who := ResolveAdmin(db, u);
    if who.household.Err? then After(who.db, Refused(who.household.error))
    else if target == u then After(who.db, Refused(CannotRemoveSelf))
    else
      var removed := RepoRemove(who.db, who.household.value, target);
      if removed.reply.Refused? then removed
      else After(Repair(removed.db, {target}), Done)
  }

  function RepoSetRole(db: Db, h: HouseholdId, target: UserId, role: Role): After {
    if (h, target) !in db.members then After(db, Refused(MemberNotFound))
    else if db.members[(h, target)] == Admin && role != Admin && |AdminKeys(db, h)| <= 1 then
      After(db, Refused(SoleAdmin))
    else After(db.(members := db.members[(h, target) := role]), Done)
  }

  function DoChangeRole(db: Db, u: UserId, target: UserId, role: Role): After {
    var who := ResolveAdmin(db, u);
    if who.household.Err? then After(who.db, Refused(who.household.error))
    else if target == u && role != Admin then After(who.db, Refused(NeedsAnAdmin))
    else RepoSetRole(who.db, who.household.value, target, role)
  }

  function DoGenerateGuest(db: Db, now: Time, u: UserId, h: HouseholdId, id: GuestTokenId, hash: TokenHash): After {
    var who := ResolveAdmin(db, u);
    if who.household.Err? then After(who.db, Refused(who.household.error))
    else if who.household.value != h then After(who.db, Refused(NotThisHousehold))
    else if id in who.db.guestTokens || exists g :: g in who.db.guestTokens && who.db.guestTokens[g].tokenHash == hash then
      After(who.db, Refused(IntegrityViolation))
    else
      var revoked := RevokeGuestTokens(who.db, now, h);
      After(SetGuestFlag(revoked.(guestTokens := revoked.guestTokens[id := GuestToken(h, hash, None)]), h, true), Done)
  }

  function DoRevokeGuest(db: Db, now: Time, u: UserId, h: HouseholdId): After {
    var who := ResolveAdmin(db, u);
    if who.household.Err? then After(who.db, Refused(who.household.error))
    else if who.household.value != h then After(who.db, Refused(NotThisHousehold))
    else After(SetGuestFlag(RevokeGuestTokens(who.db, now, h), h, false), Done)
  }

  function DoRename(db: Db, u: UserId, h: HouseholdId, name: string): After {
    var who := ResolveAdmin(db, u);
    if who.household.Err? then After(who.db, Refused(who.household.error))
    else if !NameOk(name) then After(who.db, Refused(BadName))
    else if who.household.value != h then After(who.db, Refused(NotThisHousehold))
    else if !Live(who.db, h) then After(who.db, Refused(HouseholdNotFound))
    else
      var renamed := who.db.households[h].(name := Strip(name));
      After(who.db.(households := who.db.households[h := renamed]), Done)
  }

  function MembersOf(db: Db, h: HouseholdId): set<UserId> {
    set k | k in MemberKeys(db, h) :: k.1
  }

  function RepoHardDelete(db: Db, h: HouseholdId): After {
    if !Live(db, h) then After(db, Refused(HouseholdNotFound))
    else After(Repair(Cascade(db, h), MembersOf(db, h)), Done)
  }

  function DoDelete(db: Db, u: UserId, h: HouseholdId, confirmName: string): After {
    var who := ResolveAdmin(db, u);
    if who.household.Err? then After(who.db, Refused(who.household.error))
    else if who.household.value != h then After(who.db, Refused(NotThisHousehold))
    else if !Live(who.db, h) then After(who.db, Refused(HouseholdNotFound))
    else if confirmName != who.db.households[h].name then After(who.db, Refused(NameMismatch))
    else RepoHardDelete(who.db, h)
  }

  function Serve(db: Db, now: Time, request: Request): After {
    match request
    case Register(u, email) => DoRegister(db, u, email)
    case Create(u, name, id) => DoCreate(db, u, name, id)
    case Switch(u, h) => DoSwitch(db, u, h)
    case Invite(u, i, email, role, hash) => DoInvite(db, now, u, i, email, role, hash)
    case Accept(u, hash) => DoAccept(db, now, u, hash)
    case RevokeInvite(u, i) => DoRevokeInvite(db, now, u, i)
    case ResendInvite(u, i, hash) => DoResendInvite(db, now, u, i, hash)
    case RemoveMember(u, target) => DoRemoveMember(db, u, target)
    case ChangeRole(u, target, role) => DoChangeRole(db, u, target, role)
    case GenerateGuest(u, h, id, hash) => DoGenerateGuest(db, now, u, h, id, hash)
    case RevokeGuest(u, h) => DoRevokeGuest(db, now, u, h)
    case Rename(u, h, name) => DoRename(db, u, h, name)
    case Delete(u, h, confirmName) => DoDelete(db, u, h, confirmName)
  }

  /** The tables after serving the requests in order. */
  function Run(db: Db, requests: seq<(Time, Request)>): Db
    decreases |requests|
  {
    if requests == [] then db
    else Run(Serve(db, requests[0].0, requests[0].1).db, requests[1..])
  }
}
