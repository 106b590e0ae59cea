# Verified model of the espresso log

This project models the stateful cores of the application in Dafny and proves properties of them.
`dafny verify dfyconfig.toml` checks all of it.

**Households** (`HouseholdModel`, `HouseholdInvariants`, `HouseholdRuns`, `HouseholdAccess`,
`HouseholdAnswers`, `ActiveHousehold`, `HouseholdRepo`, `HouseholdApi`, `InvitationRace`).  The tables
for users, households, members, invitations, guest tokens and tenant rows are one value, and each
request that commits once is a function on it.  The repository and the endpoints are methods that
update a session's tables in place and are proved equal to those functions; the invariants are proved
over every run of requests, and for each request it is proved on which stored rows it is done.
The accept/revoke/resend race is a separate state machine in which reads, inserts and conditional
updates of concurrent transactions interleave.

**Refresh tokens** (`RefreshTokens`, `RefreshChains`, `ApiClient`, `SingleFlight`).  Rotation on the
server, the login chains it forms, the module variables of the browser client, and the two together
as a message system with any number of browsers.

**Shots** (`BrewLogCreate`, `Idempotency`, `Pagination`, `Ids`, `Decimal`).  Creation under a key by
concurrent requests with two unique constraints, the in-memory response store, the paged log, and
the id allocators with the decimal printing and reading they depend on.

**Spreadsheet mode** (`SheetTab`, `SheetCache`, `SheetRepos`, `SheetKeys`).  A tab as a value and the keyed table
it stands for; then the client, the cache and the repositories with real row objects, so that the
copying is part of what is proved; then runs of lists and writes under a clock, and the keyed table
of each repository over runs of calls.

**Import** (`Importer`).  Divergence reports and row normalisation.

## Where the code does less than it may seem to

Each of these is a lemma with a concrete input or an exact condition.

- A resend does not look for another live invitation to the same address, so there can be two
  (`ResendCanDuplicate`; exactly when, `ResendKeepsOneLivePendingIff`).
- Neither the update of a revoke nor that of a resend repeats the check that the row is not accepted.
  Under concurrency one that read the row before an accept committed overwrites it: both time stamps
  can be set, and a reopened invitation can be accepted again (`RevokeCanOverwriteAnAccept`,
  `TwoAcceptsAfterOneResend`; exactly when, `StampsAreRightIff`, `AcceptedIsFinalIff`,
  `AcceptsAreCounted`).
- Removing somebody resets their active household to the first by name even if they were not a
  member or were acting elsewhere (`RemovalMovesAStranger`; exactly when, `RemovalKeepsPointerIff`).
- The single refresh promise does not keep a revoked token from the server when the response that
  would replace or clear a spent cookie is lost, when a logout is served under a pending refresh, or
  when a tab refreshes, after a 401 for instance, between the serving of a logout and its response
  (`LostResponse`, `LogoutDuringRefresh`, `RefreshDuringLogout`; no other step of the model does it,
  `HarmlessIff`).
- Shot ids are unique across households but computed from one household's shots, so a creation can
  fail with nothing running beside it (`FirstShotOfTheDayCanFail`; exactly when, `AloneSucceedsIff`,
  and beside others `FailsIff`).
- A stored response can outlive the time to live counted from the first receipt
  (`SweepRestartsTheClock`; exactly when, `EntryTimeIsFirstReceiptIff`).
- Bulk writes to the catalog, inventory and brew-log tabs drop no cache key (`BulkWriteIsSeenIff`;
  exactly when a list is stale over a run, `CoherentThroughoutIff`), and feedback written from a stale list puts back older cells (`FeedbackTouchesOneCellIff`).
- A bulk append to an empty in-memory tab names the columns by number (`AddManyAppendsIff`), and a
  row range that ends at zero or below counts from the bottom (`DeletesRangeIff`).
- The inventory's `RoastLevel` is never reported as divergent, because the table is keyed
  `Roast_Level` (`InventoryIsCanonicalIff`).

The documentation of `app/services/idempotency_store.py` says that the time to live is measured from
first receipt, and `frontend/src/api/auth.ts` that sharing one promise avoids the rotation
collision; the model follows the code.

## Model

| member | source | states |
|---|---|---|
| HouseholdModel.Resolve | app/deps.py:120-148 | an answer is always a live membership of the caller, and only the caller's own pointer can have moved |
| HouseholdModel.Least | app/repos/sql/household.py:158-167 | among any households there is one first by (lowercased name, id) |
| HouseholdInvariants.ResolveIsIdle | app/deps.py:132-136 | with correct pointers the resolver writes nothing and answers with the stored pointer |
| HouseholdInvariants.RegisterKeepsValid | app/routers/api_auth.py:147-190 | registration keeps the whole invariant |
| HouseholdInvariants.CreateKeepsValid | app/repos/sql/household.py:51-68 | creation keeps the invariant: the creator is the one admin and acts in the new household |
| HouseholdInvariants.SwitchKeepsValid | app/routers/api_auth.py:366-384 | switching keeps pointers inside live memberships |
| HouseholdInvariants.InviteKeepsValid | app/repos/sql/household.py:342-421 | inviting keeps stamps and token hashes in order |
| HouseholdInvariants.AcceptKeepsValid | app/routers/api_households.py:397-446 | accepting keeps sizes at most ten, roles, pointers and stamps |
| HouseholdInvariants.RevokeInviteKeepsValid | app/repos/sql/household.py:462-475 | revoking sets the revoked stamp with the status |
| HouseholdInvariants.ResendInviteKeepsValid | app/repos/sql/household.py:477-508 | resending clears both stamps with the status and keeps hashes unique |
| HouseholdInvariants.RemoveMemberKeepsValid | app/routers/api_households.py:508-522 | removal leaves every household with a member and an admin, and every pointer right |
| HouseholdInvariants.ChangeRoleKeepsValid | app/routers/api_households.py:525-538 | a role change leaves every household with an admin |
| HouseholdInvariants.GenerateGuestKeepsValid | app/routers/api_households.py:541-565 | a new guest link leaves exactly one unrevoked token and the flag set |
| HouseholdInvariants.RevokeGuestKeepsValid | app/routers/api_households.py:568-578 | revoking leaves no unrevoked token and the flag cleared |
| HouseholdInvariants.RenameKeepsValid | app/repos/sql/household.py:79-96 | renaming keeps the invariant although it reorders households |
| HouseholdInvariants.DeleteKeepsValid | app/repos/sql/household.py:325-340 | deletion with its cascade and repair loop keeps the invariant for everybody else |
| HouseholdInvariants.ServeKeepsValid | app/routers/api_households.py:318-578 | any request, successful or refused, keeps the invariant |
| HouseholdInvariants.RunKeepsValid | app/routers/api_households.py:318-578 | any run of requests from any valid state keeps it |
| HouseholdRuns.ReachableStates | app/repos/sql/household.py:213-338 | in every reachable state: pointer null exactly without live memberships and otherwise one of them; one to ten members with an admin; guest flag exactly with one unrevoked token |
| HouseholdRuns.RefusedChangesNothing | app/routers/api_households.py:508-535 | a refused request leaves every table as it was |
| HouseholdRuns.LastAdminGuardIsNeverReached | app/repos/sql/household.py:213-259 | from any state of the tables, the repository's sole-admin refusal is never reached through the routers |
| HouseholdRuns.MemberTable | app/routers/api_households.py:318-538 | for each request that is done, the exact new member table and the admin or invitation behind it; refused, no change |
| HouseholdRuns.CallerStaysAdmin | app/routers/api_households.py:508-538 | no request costs its own caller the admin role while the household exists |
| HouseholdRuns.NewMembersAreInvited | app/routers/api_households.py:397-446 | a member row appears only for a household's creator or together with an unexpired open invitation to it, in that role, being accepted |
| HouseholdRuns.MembersLeaveByAnAdmin | app/routers/api_households.py:508-522 | a member row disappears only by an admin of that household, and never the caller's own unless the household goes |
| HouseholdRuns.RemovalIsExact | app/routers/api_households.py:508-522 | a removal deletes that one row, repoints the target to their first live household, and changes nothing else |
| HouseholdRuns.RemovalKeepsPointerIff | app/repos/sql/household.py:283-303 | the target's pointer survives exactly if it named the first, by name, of their live households other than the caller's |
| HouseholdRuns.RemovalMovesAStranger | app/routers/api_households.py:518-520 | a valid state in which removing somebody who is not a member moves their pointer |
| HouseholdRuns.DeletionIsExact | app/repos/sql/household.py:325-340 | deletion removes exactly that household's rows from every table and moves only its members' pointers |
| HouseholdRuns.InvitationTable | app/repos/sql/household.py:440-508 | for each request that is done, the exact new invitation table, the accepted row being the one of the presented token; refused, no change |
| HouseholdRuns.AcceptedIsFinal | app/repos/sql/household.py:462-487 | with requests served one at a time an accepted invitation never changes again |
| HouseholdRuns.AcceptedStays | app/repos/sql/household.py:462-487 | over any run an accepted invitation stays as it is, or goes with its household |
| HouseholdRuns.InviteKeepsOneLivePending | app/repos/sql/household.py:377-391 | inviting keeps at most one live pending invitation per household and address |
| HouseholdRuns.OthersKeepOneLivePending | app/routers/api_households.py:342-522 | so does every other request but a resend, and so does time |
| HouseholdRuns.ResendKeepsOneLivePendingIff | app/repos/sql/household.py:477-508 | a resend keeps it if and only if no other invitation to that address is live |
| HouseholdRuns.RunKeepsOneLivePending | app/repos/sql/household.py:377-391 | a run under a clock keeps it if none of its resends meets another live invitation to the address |
| HouseholdRuns.NoResendsNoneDoubles | app/repos/sql/household.py:477-508 | which is so for every run without resends |
| HouseholdRuns.ResendCanDuplicate | app/repos/sql/household.py:477-508 | a valid state in which a resend makes two |
| HouseholdAccess.OnlyTheNewLinkOpens | app/repos/sql/household.py:525-600 | after a guest link is generated it alone opens the household, and other households' links are as before |
| HouseholdAccess.NoLinkOpens | app/repos/sql/household.py:602-609 | after a revocation no link opens the household |
| HouseholdAccess.LinksAreMade | app/repos/sql/household.py:550-560 | a link opens a household only if this request made it for that household or it did before |
| HouseholdAccess.DeadLinksStayDead | app/deps.py:196-205 | over any run, a link that opens nothing never opens anything again unless its token is generated anew |
| HouseholdAccess.CallerActsThere | app/routers/api_households.py:397-446 | create, switch and accept leave the caller resolved to that household and move no other pointer |
| HouseholdAccess.InvitationsAreLimited | app/repos/sql/household.py:352-399 | an invitation leaves the inviter within ten a day, comes from a household with room, and is the only live one to an address no member has |
| HouseholdAccess.HouseholdTable | app/routers/api_households.py:541-725 | for each request that is done, the exact new household table and the admin behind it; refused, no change |
| HouseholdAccess.OnlyItsAdminsTouchIt | app/routers/api_households.py:541-725 | if a run changes or deletes a household, one of its requests was done by somebody who was an admin of it at that moment |
| HouseholdAnswers.AcceptIsDoneIff | app/routers/api_households.py:397-446 | an invitation is accepted exactly if it has not expired, is pending or declined, and its household is there, has fewer than ten members and not the user |
| HouseholdAnswers.AcceptRefusalIs | app/routers/api_households.py:241-250 | and otherwise exactly which refusal is given, the token being judged before the household |
| HouseholdAnswers.UnknownLinkIsRefused | app/routers/api_households.py:241-250 | a token of no invitation is answered not found and changes nothing |
| HouseholdAnswers.RegisterIsDoneIff | app/routers/api_auth.py:147-190 | a new user gets a row with that address and no pointer, an existing one is refused |
| HouseholdAnswers.CreateIsDoneIff | app/routers/api_households.py:318-339 | a household is created exactly for a known user and a name of 1 to 64 characters once trimmed |
| HouseholdAnswers.SwitchIsDoneIff | app/routers/api_auth.py:366-384 | a switch is done exactly for a live membership |
| HouseholdAnswers.InviteIsDoneIff | app/repos/sql/household.py:342-421 | an admin invites exactly with fewer than ten members, fewer than ten counted invitations in a day, and no live invitation or member at the normalised address |
| HouseholdAnswers.RevokeInviteIsDoneIff | app/repos/sql/household.py:462-475 | an admin revokes exactly the household's invitations that are not accepted |
| HouseholdAnswers.ResendInviteIsDoneIff | app/repos/sql/household.py:477-508 | and resends exactly those, under a fresh token |
| HouseholdAnswers.RemoveMemberIsDoneIff | app/routers/api_households.py:508-522 | an admin removes anybody but themselves |
| HouseholdAnswers.ChangeRoleIsDoneIff | app/routers/api_households.py:525-538 | an admin sets any member's role, but cannot give up their own |
| HouseholdAnswers.GuestLinkIsDoneIff | app/routers/api_households.py:541-578 | guest links are made and revoked exactly by an admin acting in that household |
| HouseholdAnswers.SettingIsDoneIff | app/routers/api_households.py:689-725 | renaming takes an admin acting there and a good name, deletion the repeated name |
| HouseholdAnswers.OnlyAdminsAreServed | app/deps.py:166-175 | every other request is done only for an admin of the household they act in |
| HouseholdAnswers.UsersKeepTheirAddress | app/models/user.py:37 | whatever is requested, nobody loses their account or address |
| HouseholdAnswers.OnlyRegisteringAddsUsers | app/routers/api_auth.py:147-190 | accounts come from registration only, as given |
| HouseholdAnswers.RowsStay | app/models/household.py:70-74 | tenant rows go with their household and are touched by nothing else |
| ActiveHousehold.ResolveSettles | app/deps.py:120-148 | from any state the resolver stores and answers the live pointer, else the first live household |
| ActiveHousehold.FirstLiveIs | app/repos/sql/household.py:155-168 | the first live household is the one with the least lowercased name, then the least id |
| ActiveHousehold.SettleIsStable | app/deps.py:132-148 | deciding again changes neither the answer nor the tables, and leaves a correct pointer |
| ActiveHousehold.SettleIsIdleIff | app/deps.py:132-148 | nothing is written if and only if the pointer was already correct |
| ActiveHousehold.SortedCovers | app/repos/sql/household.py:155-187 | a listing misses no live membership |
| ActiveHousehold.SortedIncreases | app/repos/sql/household.py:155-187 | and has each once, in (lowercased name, id) order |
| ActiveHousehold.ListingIs | app/routers/api_households.py:298-315 | a household is listed exactly if it is live, with name, role, size and the active flag |
| ActiveHousehold.ExactlyOneIsActive | app/routers/api_households.py:298-315 | exactly one listed membership is flagged active, unless there are none |
| HouseholdRepo.Session.CreateHousehold | app/repos/sql/household.py:51-68 | inserts the household and its creator as admin, or nothing |
| HouseholdRepo.Session.GetMembers | app/repos/sql/household.py:270-274 | exactly the members, each once |
| HouseholdRepo.Session.RepairActiveHouseholds | app/repos/sql/household.py:283-303 | the loop points every listed user at their first live household, or none, and nobody else |
| HouseholdRepo.Session.HardDelete | app/repos/sql/household.py:325-340 | the cascade followed by the repair of the former members, or a refusal |
| HouseholdRepo.Session.DeleteRow | app/models/household.py:70-74 | the foreign keys: referring rows go, users' pointers become null |
| HouseholdRepo.Session.RemoveMember | app/repos/sql/household.py:213-230 | deletes that member row, does nothing for a non-member, refuses the last admin |
| HouseholdRepo.Session.UpdateMemberRole | app/repos/sql/household.py:232-259 | sets that role, or refuses a non-member and the last admin |
| HouseholdRepo.Session.CreateInvitation | app/repos/sql/household.py:342-421 | the guards in order, then one new pending row |
| HouseholdRepo.Session.AcceptInvitation | app/repos/sql/household.py:440-454 | the conditional update: won exactly on a pending or declined row |
| HouseholdRepo.Session.RevokeInvitation | app/repos/sql/household.py:462-475 | revokes any row that is not accepted |
| HouseholdRepo.Session.ResendInvitation | app/repos/sql/household.py:477-508 | a new hash and expiry, pending again, both stamps cleared |
| HouseholdRepo.Session.RevokePreviousGuestTokens | app/repos/sql/household.py:590-600 | revokes exactly the household's unrevoked tokens |
| HouseholdRepo.Session.CreateGuestToken | app/repos/sql/household.py:525-548 | inserts and raises the flag unless the unique indexes forbid it |
| HouseholdRepo.Session.RevokeAllGuestTokens | app/repos/sql/household.py:602-609 | revokes the tokens and lowers the flag |
| HouseholdRepo.Session.GetMemberships | app/repos/sql/household.py:155-187 | the live memberships in order |
| HouseholdRepo.Session.SetActiveHousehold | app/repos/sql/user.py:89-98 | moves one user's pointer |
| HouseholdRepo.Session.ClearActiveHousehold | app/repos/sql/user.py:100-102 | clears one user's pointer |
| HouseholdApi.ResolveMembership | app/deps.py:120-148 | the resolver's writes and answer, error cases included |
| HouseholdApi.RequireAdmin | app/deps.py:166-175 | the same, with a refusal for members who are not admins |
| HouseholdApi.GetMe | app/routers/api_auth.py:306-363 | from any state the same active household and stored pointer as the resolver, and the full listing |
| HouseholdApi.MembershipOutputs | app/routers/api_households.py:265-315 | the same again for the household list |
| HouseholdApi.CreateHousehold | app/routers/api_households.py:318-331 | 401, 422 for a bad name, or a household under the trimmed name with the caller as admin and acting in it |
| HouseholdApi.SwitchHousehold | app/routers/api_auth.py:366-384 | 403 unless a live membership, else only the caller's pointer moves |
| HouseholdApi.RenameHousehold | app/routers/api_households.py:689-705 | for an admin acting in it only: the trimmed name, or 422, 403, 404 |
| HouseholdApi.DeleteHousehold | app/routers/api_households.py:708-725 | for an admin acting in it who repeats its name: row, cascade and repair; otherwise 403, 404 or 409 |
| HouseholdApi.CreateInvite | app/routers/api_households.py:342-369 | for an admin: the guards' refusal, or one pending row for 72 hours |
| HouseholdApi.AcceptInvite | app/routers/api_households.py:397-446 | 404, 410 and 409 in the endpoint's order, or member row, accepted invitation and active household together |
| HouseholdApi.RevokeInvite | app/routers/api_households.py:463-475 | for an admin of the invitation's household: revoked, or 404, 409 |
| HouseholdApi.ResendInvite | app/routers/api_households.py:478-505 | for an admin of the invitation's household: a new token and expiry, or 404, 409 |
| HouseholdApi.RemoveMember | app/routers/api_households.py:508-522 | 403 for oneself, else the row gone and the target's pointer repaired |
| HouseholdApi.UpdateMemberRole | app/routers/api_households.py:525-538 | 409 for giving up one's own role, 404 for a stranger, else the role |
| HouseholdApi.GenerateGuestToken | app/routers/api_households.py:541-565 | earlier links revoked, one new token, flag raised |
| HouseholdApi.RevokeGuestToken | app/routers/api_households.py:568-578 | all links revoked, flag lowered |
| InvitationRace.ApplyKeepsInv | app/repos/sql/household.py:440-508 | every interleaved step keeps the lock, membership and stamp invariant |
| InvitationRace.AcceptsAreBounded | app/repos/sql/household.py:440-508 | committed accepts never exceed one plus the resends, and as many members joined as accepts won |
| InvitationRace.AcceptsAreCounted | app/repos/sql/household.py:440-508 | the exact number of accepts: the stamp that is left, and one for every resend that cleared a stamp |
| InvitationRace.OneAcceptPerLink | app/repos/sql/household.py:440-508 | at most one accept commits unless a resend clears an accepted stamp |
| InvitationRace.NoResends | app/repos/sql/household.py:477-508 | without resends no stamp is cleared |
| InvitationRace.StepIsGoodIff | app/repos/sql/household.py:462-504 | a step keeps stamps and accept count right if and only if it is not a revoke or resend committing over an accepted row |
| InvitationRace.StampsAreRightIff | app/repos/sql/household.py:462-504 | over any interleaving, stamps are set exactly in their statuses and at most one accept commits, throughout, if and only if no commit is stale |
| InvitationRace.AcceptedIsFinalIff | app/repos/sql/household.py:462-504 | an accepted row stays accepted throughout if and only if no commit is stale, and then no member is added |
| InvitationRace.TwoAcceptsAfterOneResend | app/repos/sql/household.py:477-508 | a run with one stale resend and two accepts, the most that the bound allows |
| InvitationRace.RevokeCanOverwriteAnAccept | app/repos/sql/household.py:462-475 | a run with one stale revoke that ends revoked with both stamps set |
| InvitationRace.AcceptAloneIff | app/repos/sql/household.py:440-454 | with nothing beside it an accept commits exactly if the row is pending or declined and there is room for a newcomer; otherwise it changes nothing |
| InvitationRace.ChangeAloneIff | app/repos/sql/household.py:462-508 | so do a revoke and a resend exactly if the row is not accepted |
| RefreshTokens.RefreshTokenRepo.Create | app/repos/sql/refresh_tokens.py:17-34 | a new valid row, unless the hash exists |
| RefreshTokens.RefreshTokenRepo.Rotate | app/repos/sql/refresh_tokens.py:42-55 | exactly an unrevoked, unexpired row is revoked, stamped and returned |
| RefreshTokens.RefreshTokenRepo.Revoke | app/repos/sql/refresh_tokens.py:57-62 | that row is revoked, nothing else |
| RefreshTokens.RefreshTokenRepo.RevokeAllForUser | app/repos/sql/refresh_tokens.py:64-74 | all of one user's rows are revoked, nobody else's |
| RefreshTokens.RefreshToken | app/routers/api_auth.py:234-284 | the whole effect and answer, grace window and replay included |
| RefreshTokens.LogIn | app/routers/api_auth.py:221-231 | one new token for the user |
| RefreshTokens.LogOut | app/routers/api_auth.py:287-303 | the presented token is revoked, nothing else |
| RefreshTokens.IssuedIff | app/routers/api_auth.py:234-284 | a refresh issues a token exactly if the presented one is stored, not revoked and not expired, and the new hash is free |
| RefreshTokens.ExchangeIs | app/repos/sql/refresh_tokens.py:42-55 | an exchange revokes that token, stamps it, and adds one for the same user for thirty days; nothing else changes |
| RefreshTokens.LoginIs | app/routers/api_auth.py:221-231 | a login adds one token for thirty days |
| RefreshTokens.ValidTokenIsRevokedIff | app/routers/api_auth.py:251-303 | a valid token is revoked exactly by its exchange, its logout, or a replay of another token of its user later than five seconds after the rotation |
| RefreshTokens.NewestIsExchangedIff | app/routers/api_auth.py:234-284 | over any run after a login or exchange, presenting its token is answered with a new one exactly if that is within thirty days and no request in between exchanged it, gave it up or was a replay for its user |
| RefreshTokens.RevocationIsFinal | app/repos/sql/refresh_tokens.py:42-74 | no request removes a token, changes its user or expiry, or makes it valid again |
| RefreshTokens.RevocationIsFinalOverRuns | app/repos/sql/refresh_tokens.py:42-74 | nor does any series of requests |
| RefreshTokens.ReplayInGraceChangesNothing | app/routers/api_auth.py:251-267 | a token rotated at most five seconds ago is refused and nothing is stored |
| RefreshTokens.ReplayRevokesAllAndOnly | app/routers/api_auth.py:251-272 | a refresh revokes another token exactly if the presented one is revoked, out of grace and of the same user |
| RefreshTokens.ReplayLeavesNone | app/routers/api_auth.py:269-272 | a replay out of grace leaves that user no valid token and others' tokens alone |
| RefreshTokens.NoneUntilLogin | app/routers/api_auth.py:234-284 | from then on no refresh for that user succeeds, in any continuation, before a login |
| RefreshChains.Chains | app/routers/api_auth.py:234-284 | over all runs: at most one valid token per login, each exchanged at most once, one user per chain |
| RefreshChains.ExchangeExtendsTheChain | app/routers/api_auth.py:250-284 | an exchange ends the presented token and continues its chain for the same user |
| RefreshChains.RunKeepsChains | app/repos/sql/refresh_tokens.py:17-74 | the same from any state that has it |
| ApiClient.Client.RefreshAccessToken | frontend/src/api/client.ts:106-119 | a request goes out exactly if no refresh is under way |
| ApiClient.Client.OnUnauthorized | frontend/src/api/client.ts:131-142 | the first 401 joins or starts the refresh, the second gives up |
| ApiClient.Client.OnRefreshResponse | frontend/src/api/client.ts:110-112 | the response settles the promise it belongs to and no other |
| ApiClient.Client.OnFinally | frontend/src/api/client.ts:113-115 | the promise is cleared and every waiter released with its outcome |
| ApiClient.Client.OnResume | frontend/src/api/client.ts:142-151 | one resend after success, failure after failure |
| ApiClient.CallHandlersKeepCalls | frontend/src/api/client.ts:121-155 | no request is sent more than twice, and waiters always have a promise to wait for |
| ApiClient.PromiseHandlersKeepCalls | frontend/src/api/client.ts:106-119 | nor do the promise's own steps strand a waiter |
| ApiClient.RetryRound | frontend/src/api/client.ts:106-155 | a request answered 401 is sent again once, with the new cookie, exactly if the refresh succeeds, and fails at a second 401 |
| ApiClient.JoinsTheRefresh | frontend/src/api/client.ts:106-119 | a request answered 401 during a refresh waits for that refresh |
| SingleFlight.SingleFlightIsSafe | frontend/src/api/client.ts:106-155 | over any run of harmless steps, at most one refresh per browser is under way, the server never sees a revoked token, only exchanged or given-up tokens are revoked, and every request is sent at most twice |
| SingleFlight.RefreshRound | frontend/src/api/client.ts:106-155 | a browser with a valid cookie whose request is answered 401 ends with a new token for thirty days, the old one revoked, and the request sent again |
| SingleFlight.LoginRound | app/routers/api_auth.py:221-231 | a login leaves the browser with a new token |
| SingleFlight.LogoutRound | app/routers/api_auth.py:287-303 | a logout leaves it with none and revokes that token alone |
| SingleFlight.ShowAgain | app/routers/api_auth.py:251-272 | what a refresh with a spent cookie does |
| SingleFlight.LostResponse | frontend/src/api/client.ts:106-119 | losing the answer that a spent cookie waits for makes the next refresh a replay, which revokes everything unless within five seconds |
| SingleFlight.LogoutDuringRefresh | app/routers/api_auth.py:287-303 | a logout served before a refresh with its cookie turns that refresh into a replay that revokes everything |
| SingleFlight.RefreshDuringLogout | frontend/src/contexts/AuthContext.tsx:339-343 | a refresh sent after a logout was served and before its response arrived is a replay, which revokes everything unless the token was exchanged within five seconds |
| SingleFlight.StrandedIsUnsafe | frontend/src/api/client.ts:106-155 | a browser with a revoked cookie that nothing under way will replace or clear can always come to show it |
| SingleFlight.HarmlessIff | frontend/src/api/client.ts:106-155 | a step is followed by a replay in some harmless continuation exactly if it loses a needed answer or logout response, serves a logout under a refresh with its cookie, or sends a refresh with a cookie that a served logout is about to clear |
| BrewLogCreate.RunKeepsInv | app/routers/api_brew_log.py:403-466 | over any interleaving the constraints hold, given answers stay true, and committed rows stay |
| BrewLogCreate.CreationIsIdempotent | app/routers/api_brew_log.py:364-466 | one row per household and key and per shot id; a request has a row exactly if it answered 201; successes under one key agree on shot id and payload |
| BrewLogCreate.OnlyCommitsAddRows | app/repos/sql/brew_log.py:82-116 | replays, conflicts and failures add nothing |
| BrewLogCreate.LookupAnswer | app/routers/api_brew_log.py:364-378 | a key in use is answered by its stored shot or by 409, according to the payload; an unused one is missed, or fails after a violation |
| BrewLogCreate.FailsIff | app/routers/api_brew_log.py:452-466 | whatever runs beside it, a request fails exactly when its insert met a committed row with its shot id and there is no row under its key to answer with |
| BrewLogCreate.FailedWasTaken | app/routers/api_brew_log.py:452-466 | over any interleaving, the shot id of a failed request is in a committed row and the request has none |
| BrewLogCreate.AloneSucceedsIff | app/routers/api_brew_log.py:420-466 | a lone creation is answered with `SH-`, the day and the next number of that day in its household, and succeeds if and only if no other household has that id; otherwise it changes nothing |
| BrewLogCreate.NextShotIs | app/services/ids.py:71-79 | that describes exactly one shot id |
| BrewLogCreate.CreatedRowIs | app/routers/api_brew_log.py:422-441 | the created row is of the requesting household, under the trimmed key, with the payload exactly if there is a key |
| BrewLogCreate.FirstShotOfTheDayCanFail | alembic/versions/0004_add_sheets_identity_and_v2_columns.py:72 | a state in which it fails |
| BrewLogCreate.NormalisedKey | app/routers/api_brew_log.py:209-213 | keys are trimmed, never empty, and normalisation is idempotent |
| Idempotency.IdempotencyStore.EvictExpired | app/services/idempotency_store.py:112-117 | the loop removes exactly the entries older than the time to live |
| Idempotency.IdempotencyStore.CheckAndSetSentinel | app/services/idempotency_store.py:60-84 | the answer and the cache after sweep and sentinel |
| Idempotency.IdempotencyStore.Store | app/services/idempotency_store.py:86-95 | the response, with the time of the entry kept |
| Idempotency.AnswerIsLatestAndRecent | app/services/idempotency_store.py:60-95 | over all histories, an answer is the last response stored under the key, stored no longer ago than the time to live |
| Idempotency.EntryTimeIsFirstReceiptIff | app/services/idempotency_store.py:86-95 | an entry bears the time of first receipt if and only if no check came later than the time to live after it |
| Idempotency.AnswersWithinFirstReceiptIff | app/services/idempotency_store.py:60-95 | then a check answers if and only if something was stored and the first receipt is recent enough |
| Idempotency.SweepRestartsTheClock | app/services/idempotency_store.py:60-95 | a history in which a response outlives its first receipt |
| Pagination.NewestFirstIsOrdered | app/deps.py:381-385 | the sort is a permutation in descending (date, id) order |
| Pagination.NewestFirstIsTheStableSort | app/deps.py:381-385 | and is the only ordered list that keeps equal keys in place |
| Pagination.WalkIsTheSortedLog | app/routers/api_brew_log.py:139-150 | asking for pages while has_next holds ends, and gives the sorted log without loss or repetition, for any requested page size |
| Pagination.HasNextIff | app/routers/api_brew_log.py:149 | has_next is true exactly when the next page is not empty |
| Pagination.PageIs | app/routers/api_brew_log.py:139-150 | asked for n shots, up to a hundred, page p holds the next n of the sorted log after the earlier pages, or what is left |
| Pagination.PageIsClamped | app/routers/api_brew_log.py:139-140 | sizes over a hundred are a hundred, and sizes and pages below one are one |
| Decimal.ReadPrint | app/services/ids.py:79 | printing a natural number and reading it back is the identity |
| Decimal.PadIsUnique | app/services/ids.py:79 | a padded number is the one text of digits that reads as it, has the width, and has no leading zero beyond the width |
| Decimal.ParsePad | app/repos/hardware.py:107-114 | `int` undoes zero-padded formatting for every integer and width |
| Ids.NumberFormat | app/services/ids.py:71-79 | an allocated id reads back as its number, beyond the padded width too |
| Ids.NextNumberIs | app/services/ids.py:72-78 | the next number is one above the greatest in use, or the first of its scheme |
| Ids.ShotIdIs | app/services/ids.py:71-79 | the shot id is `SH-`, the day, and one more than the greatest number of a shot of that day, or 01 |
| Ids.NextOfDayIsLeast | app/services/ids.py:72-78 | which is one number |
| Ids.MaintenanceIdIs | app/services/ids.py:115-132 | the maintenance id is `MNT` and one more than the greatest number in use, or 001 |
| Ids.CatalogIdIs | app/routers/api_catalog.py:49-58 | the catalog id is `CAT` and one more than the greatest that `int` reads, or 100 |
| Ids.HardwareIdIs | app/repos/hardware.py:82-114 | the hardware id is the category's first letter and one more than the greatest that `int` reads, or 01 |
| Ids.NextIdIsUnused | app/services/ids.py:59-79 | the next id is not in the list, whatever malformed ids are, and its number is above all |
| Ids.AllocationsAreNew | app/services/ids.py:59-132 | over any run of allocations and inserts, an allocated id is new and its number strictly greater than earlier ones of its scheme |
| Ids.AllocationKeepsIdsDistinct | app/services/ids.py:59-132 | a run of allocations alone keeps all ids distinct |
| Ids.MakeMaintenanceId | app/services/ids.py:118-132 | the loop finds the next id of its scheme |
| Ids.NextCatalogId | app/routers/api_catalog.py:49-58 | the loop finds the next id of its scheme |
| Ids.NextHardwareId | app/repos/hardware.py:82-114 | the loop finds the next id of the category's scheme, or the category is unknown |
| Ids.BagBaseIsRefusedIff | app/services/ids.py:25-53 | refused exactly for a blank roaster or an unknown level |
| Ids.BagBaseIs | app/services/ids.py:25-53 | a bag's id is the first two characters of the roaster's first word in title case, the day, and L, LM, M, MD or D |
| Ids.BagExample | app/services/ids.py:87-101 | the documented example comes out as documented |
| Ids.MakeInventoryId | app/services/ids.py:87-108 | the search ends for every list, with an unused id: the base, or the base with `-` and the smallest free number from 2, at most one more than the distinct ids |
| SheetTab.RepresentsSome | app/testing/fake_sheets.py:27-39 | a tab with unique keys stands for a keyed table |
| SheetTab.OpRefines | app/testing/fake_sheets.py:34-65 | upsert is map update in place, guarded append is insert if absent, delete by key removes that row and keeps the order |
| SheetTab.TabRefinesTable | app/repos/base.py:106-116 | so for every run of operations, keys staying unique |
| SheetTab.DeletesRangeIff | app/testing/fake_sheets.py:61-65 | a range deletes exactly the rows with those sheet numbers if and only if it ends on the sheet or is empty |
| SheetTab.AddManyAppendsIff | app/testing/fake_sheets.py:50-59 | a bulk append adds the rows under their columns if and only if the tab is not empty |
| SheetTab.FeedbackTouchesOneCellIff | app/repos/brew_log.py:77-89 | writing feedback changes one cell if and only if the listing it starts from agrees with the row elsewhere |
| SheetCache.TTLCache.Get | app/repos/base.py:37-42 | fresh copies of an entry that is young enough |
| SheetCache.TTLCache.Set | app/repos/base.py:44-46 | the entry holds copies of its own |
| SheetCache.TTLCache.Invalidate | app/repos/base.py:48-50 | that key goes |
| SheetCache.FakeSheetsClient.GetAllRecords | app/testing/fake_sheets.py:30-32 | fresh copies of the rows |
| SheetCache.FakeSheetsClient.AppendRow | app/testing/fake_sheets.py:34-39 | append, or nothing if the guarded key is in use, or an error if it is missing |
| SheetCache.FakeSheetsClient.UpdateRow | app/testing/fake_sheets.py:41-48 | the first row with the key is replaced under the tab's headers, or an error |
| SheetCache.FakeSheetsClient.AppendRows | app/testing/fake_sheets.py:50-59 | the loop appends the zipped rows |
| SheetCache.FakeSheetsClient.DeleteRows | app/testing/fake_sheets.py:61-65 | the slice goes, with Python's rule for negative ends |
| SheetRepos.SheetRepo.FetchCached | app/repos/base.py:93-100 | the cached or the present rows, as objects nobody else holds |
| SheetRepos.SheetRepo.Upsert | app/repos/hardware.py:54-63 | update or append, then the cache keys dropped |
| SheetRepos.SheetRepo.Add | app/repos/maintenance.py:54-57 | append, then the cache key dropped |
| SheetRepos.SheetRepo.AddShot | app/repos/brew_log.py:55-64 | a row brought to its columns, appended unless its key is in use |
| SheetRepos.SheetRepo.UpdateFeedback | app/repos/brew_log.py:77-89 | the listed row with the new text written back, or an error |
| SheetRepos.SheetRepo.AddMany | app/repos/hardware.py:65-71 | bulk append, then the bulk keys dropped |
| SheetRepos.SheetRepo.DeleteRows | app/repos/hardware.py:73-76 | row deletion, then the bulk keys dropped |
| SheetRepos.SheetRepo.DeleteByPk | app/repos/base.py:106-116 | the first row with the key goes, through the row numbers |
| SheetRepos.EditReturnedRow | app/repos/base.py:37-46 | editing a returned row changes neither tab nor cache |
| SheetRepos.EditGivenRow | app/testing/fake_sheets.py:34-48 | nor does editing a row that was handed in |
| SheetRepos.ListsAreCurrent | app/repos/hardware.py:36-76 | over any calls of the five repositories on one client and cache, a hardware or maintenance list is the tab as it stands, and so is a list of the others as long as they make no bulk write |
| SheetRepos.EveryWriteDropsTheKey | app/repos/maintenance.py:54-70 | whatever hardware or maintenance writes, a call that changes the tab leaves no cached list of it |
| SheetRepos.DroppingKeepsListsCurrent | app/repos/base.py:37-50 | the same for any writers, if every write to the tab drops the key |
| SheetRepos.ListsAreRecent | app/repos/base.py:93-100 | whatever is written, a list is the tab as it stood after some event no longer ago than the time to live |
| SheetRepos.RunIsHistory | app/repos/base.py:89-116 | a run of calls of the repositories is a history of lists and writes |
| SheetRepos.ListedCallsAreRecent | app/repos/base.py:37-50 | so over any calls under a clock a list is the tab as it stood after some event no longer ago than the time to live |
| SheetRepos.BulkWriteIsSeenIff | app/repos/catalog.py:70-79 | after a bulk call of the catalog, inventory or brew log, a list shows the tab if and only if no entry was live or the call changed nothing |
| SheetRepos.CoherentThroughoutIff | app/repos/base.py:93-116 | over any calls of the five repositories, a cached list is the tab throughout if and only if no bulk call changes it under a live entry without dropping it |
| SheetRepos.NothingUnseen | app/repos/hardware.py:54-76 | hardware and maintenance make no such call, nor does a repository without bulk writes |
| SheetKeys.UpsertIs | app/repos/hardware.py:54-63 | an upsert puts the row in the place of the one with its key, or at the end, and keeps the tab keyed |
| SheetKeys.UpdateIs | app/testing/fake_sheets.py:41-48 | a row whose key is in use takes the tab's columns, whatever columns it has |
| SheetKeys.AddShotIs | app/repos/brew_log.py:55-64 | a shot is added, brought to the columns, unless its key is in use |
| SheetKeys.DeleteIs | app/repos/base.py:106-116 | a deletion by key takes out that row and keeps the order of the rest |
| SheetKeys.AddIs | app/repos/maintenance.py:54-57 | an unguarded append keeps the tab keyed if and only if the key is new |
| SheetKeys.FeedbackIs | app/repos/brew_log.py:77-89 | feedback from an up-to-date list changes that cell of that row only |
| SheetKeys.AddManyIs | app/repos/hardware.py:65-71 | a bulk append to a tab with rows adds the rows under the columns |
| SheetKeys.DeleteRowsIs | app/repos/hardware.py:73-76 | a range deletion leaves the rows with other sheet numbers |
| SheetKeys.ListIs | app/repos/base.py:37-46 | a list is the cached one while that is no older than the time to live, and then the tab |
| SheetKeys.RunRefines | app/repos/base.py:89-116 | over any calls of the five repositories, each tab, under its named key column, stands for a keyed table on which exactly its own calls act |
| SheetKeys.PlainCallsFit | app/repos/hardware.py:54-76 | for which lists, upserts of whole rows, shots and deletions by key need no condition |
| Importer.FindEnumDivergences | app/services/importer.py:325-348 | the loops report exactly the values that cannot be resolved |
| Importer.NormalizeBrewLogRow | app/services/importer.py:351-386 | the loops compute the normalised row |
| Importer.FixedDateStays | app/services/importer.py:361-374 | a date becomes ISO exactly if it was ISO or MM/DD/YYYY, and is then left alone |
| Importer.FixDateText | app/services/importer.py:361-374 | MM/DD/YYYY becomes YYYY-MM-DD, and that stays |
| Importer.OtherDatesStay | app/services/importer.py:361-374 | any other text is left as it is |
| Importer.BrewLogCellIs | app/services/importer.py:351-386 | each kept column of a brew-log row has the value of the last legacy column that becomes it, but for the fixed date, the two resolved columns and the filled-in shot id |
| Importer.BrewLogColumnsAre | app/services/importer.py:351-386 | exactly the mapped columns and the shot id are there |
| Importer.BrewLogDateIs | app/services/importer.py:361-374 | a row dated MM/DD/YYYY is normalised to YYYY-MM-DD |
| Importer.BeanCellIs | app/services/importer.py:389-427 | each kept column of a catalog or inventory row has its own value, the roast level resolved |
| Importer.KnownValues | app/services/importer.py:32-52 | which canonical value each known value becomes |
| Importer.OtherValues | app/services/importer.py:375-383 | any other value becomes what is confirmed for it, or stays |
| Importer.DivergesIff | app/services/importer.py:54-67 | the canonical values, and that exactly values neither empty, canonical nor known diverge, in these three columns |
| Importer.ResolvesIff | app/services/importer.py:375-383 | a value becomes canonical exactly if it is not divergent or is confirmed, and resolving twice is resolving once |
| Importer.BrewLogIsCanonical | app/services/importer.py:325-386 | with all reported divergences confirmed, every enumerated brew-log cell is canonical or empty |
| Importer.CatalogIsCanonical | app/services/importer.py:389-405 | the same for the catalog |
| Importer.BrewLogIsIdempotent | app/services/importer.py:351-386 | normalising a normalised row under the identity mapping changes nothing |
| Importer.CatalogIsIdempotent | app/services/importer.py:389-405 | the same for the catalog |
| Importer.InventoryIsCanonicalIff | app/services/importer.py:408-427 | inventory levels are never reported, and become canonical exactly if canonical, known, or confirmed for another section |

## Left out

- Each household and token request is one transaction, except in `InvitationRace`, `BrewLogCreate` and `SingleFlight`; the member limit and the admin guard are not claimed when reads and writes of different requests interleave.
- Expiry and the household's other members are not part of the invitation race; it follows one invitation, and a transaction may abort at any step.
- Declining and previewing an invitation only read, and display fields such as inviter, join date and token ciphertexts decide nothing.
- `soft_delete` and `seed_default_household` are not run steps, since no router calls them; soft-deleted rows appear in the results about arbitrary states.
- Generated identifiers, tokens and hashes arrive with the request, and a hash stands for what was hashed; passwords, lockout, rate limits, JWT contents and Google sign-in are not modelled.
- Each browser has one tab, which is not reloaded: tabs that share a cookie, a reload or navigation that discards a refresh under way, and giving up on a refresh that the server still serves are not steps of `SingleFlight`, and its exact condition is about the steps it has. Access tokens and redirects are not modelled.
- Deletion and later correction of shots are not steps of `BrewLogCreate`; rendering, AI feedback after the commit and the spreadsheet branch of the endpoint are not either. The body of a replay is rendered from stored columns, and only its shot id is claimed.
- Row-level security appears as the set of rows a request reads; policy text, SQL and the Postgres sort columns (time stamp and row id) are represented by their order.
- Text is ASCII where the code lowers, strips or matches digits, and names compare by code point rather than by a database collation.
- Python's limit of 4300 digits in `int` is not modelled, and dates come printed as `%Y%m%d`.
- Lists that filter or search a fetched list (by category, status, bag or id) add nothing beyond the fetched list.
- The order of a divergence report's values and log messages are not modelled; imported cells are text.
- The remote spreadsheet client and its retries are not modelled; the in-memory client gives the meaning of each call.
- Of the import, the CSV and workbook parsers, the column-mapping prompts and their replies, the hardware rows, which are only renamed, and the grinder-calibration rows are not modelled.
