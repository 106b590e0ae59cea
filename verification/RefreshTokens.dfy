/** Refresh tokens on the server: rotation by one conditional update, a short grace window for
    replays, and revocation of all of a user's tokens on any other replay (the rotation scheme of
    section 10.4 of RFC 6749).

    A token stands for its own hash, and every request is one transaction. */
module RefreshTokens {
  import opened Basics

  type UserId = nat
  type TokenId = nat

  /** Times are in microseconds. */
  const GRACE: Time := 5_000_000
  const LIFETIME: Time := 30 * 24 * 3600 * 1_000_000

  datatype Token = Token(user: UserId, expiresAt: Time, revoked: bool, rotatedAt: Option<Time>)

  type Tokens = map<TokenId, Token>

  datatype Request =
    | Login(user: UserId, issued: TokenId)
    | Refresh(presented: Option<TokenId>, issued: TokenId)
    | Logout(presented: Option<TokenId>)

  datatype Answer =
    | Issued(user: UserId, token: TokenId)  // a new cookie
    | Rejected                              // 401
    | Conflict                              // 500: the generated token already exists
    | LoggedOut

  datatype After = After(tokens: Tokens, answer: Answer)

  function NewToken(user: UserId, now: Time): Token {
    Token(user, now + LIFETIME, false, None)
  }

  /** The WHERE clause of the rotating update. */
  predicate Rotatable(ts: Tokens, t: TokenId, now: Time) {
    t in ts && !ts[t].revoked && ts[t].expiresAt > now
  }

  function RevokeAll(ts: Tokens, user: UserId): Tokens {
    map t | t in ts :: if ts[t].user == user then ts[t].(revoked := true) else ts[t]
  }

  predicate InGrace(token: Token, now: Time) {
    token.rotatedAt.Some? && now - token.rotatedAt.value <= GRACE
  }

  function DoRefresh(ts: Tokens, now: Time, presented: Option<TokenId>, issued: TokenId): After {
    if presented.None? then After(ts, Rejected)
    else
      var t := presented.value;
      if Rotatable(ts, t, now) then
        if issued in ts then After(ts, Conflict)
        else
          var rotated := ts[t := ts[t].(revoked := true, rotatedAt := Some(now))];
          After(rotated[issued := NewToken(ts[t].user, now)], Issued(ts[t].user, issued))
      else if t in ts && ts[t].revoked && !InGrace(ts[t], now) then
        After(RevokeAll(ts, ts[t].user), Rejected)
      else After(ts, Rejected)
  }

  function DoLogin(ts: Tokens, now: Time, user: UserId, issued: TokenId): After {
    if issued in ts then After(ts, Conflict)
    else After(ts[issued := NewToken(user, now)], Issued(user, issued))
  }

  function DoLogout(ts: Tokens, presented: Option<TokenId>): After {
    if presented.Some? && presented.value in ts
    then After(ts[presented.value := ts[presented.value].(revoked := true)], LoggedOut)
    else After(ts, LoggedOut)
  }

  function Serve(ts: Tokens, now: Time, request: Request): After {
    match request
    case Login(user, issued) => DoLogin(ts, now, user, issued)
    case Refresh(presented, issued) => DoRefresh(ts, now, presented, issued)
    case Logout(presented) => DoLogout(ts, presented)
  }

  // ---------------------------------------------------------------------------
  // The table and the endpoints
  // ---------------------------------------------------------------------------

  class RefreshTokenRepo {
    var tokens: Tokens

    constructor ()
      ensures tokens == map[]
    {
      tokens := map[];
    }

    /** Insert a row; token hashes are unique. */
    method Create(user: UserId, t: TokenId, expiresAt: Time) returns (ok: bool)
      modifies this
      ensures ok == (t !in old(tokens))
      ensures tokens == if ok then old(tokens)[t := Token(user, expiresAt, false, None)] else old(tokens)
    {
      ok := t !in tokens;
      if ok {
        tokens := tokens[t := Token(user, expiresAt, false, None)];
      }
    }

    method GetByHash(t: TokenId) returns (row: Option<Token>)
      ensures row == if t in tokens then Some(tokens[t]) else None
    {
      row := if t in tokens then Some(tokens[t]) else None;
    }

    /** Revoke a still-valid token and return the revoked row, in one conditional update. */
    method Rotate(t: TokenId, now: Time) returns (row: Option<Token>)
      modifies this
      ensures row.Some? == Rotatable(old(tokens), t, now)
      ensures row.None? ==> tokens == old(tokens)
      ensures row.Some? ==>
        row.value == old(tokens)[t].(revoked := true, rotatedAt := Some(now)) && tokens == old(tokens)[t := row.value]
    {
      if t !in tokens || tokens[t].revoked || tokens[t].expiresAt <= now {
        return None;
      }
      tokens := tokens[t := tokens[t].(revoked := true, rotatedAt := Some(now))];
      return Some(tokens[t]);
    }

    method Revoke(t: TokenId)
      modifies this
      ensures tokens == if t in old(tokens) then old(tokens)[t := old(tokens)[t].(revoked := true)] else old(tokens)
    {
      if t in tokens {
        tokens := tokens[t := tokens[t].(revoked := true)];
      }
    }

    method RevokeAllForUser(user: UserId)
      modifies this
      ensures tokens == RevokeAll(old(tokens), user)
    {
      tokens := map t | t in tokens ::
        if tokens[t].user == user && !tokens[t].revoked then tokens[t].(revoked := true) else tokens[t];
    }
  }

  /** POST /auth/refresh. */
  method RefreshToken(repo: RefreshTokenRepo, now: Time, presented: Option<TokenId>, issued: TokenId)
    returns (answer: Answer)
    modifies repo
    ensures After(repo.tokens, answer) == DoRefresh(old(repo.tokens), now, presented, issued)
  {
    if presented.None? {
      return Rejected;
    }
    var saved := repo.tokens;
    var stored := repo.Rotate(presented.value, now);
    if stored.None? {
      var existing := repo.GetByHash(presented.value);
      if existing.Some? && existing.value.revoked {
        var rotatedAt := existing.value.rotatedAt;
        if rotatedAt.Some? {
          var elapsed := now - rotatedAt.value;
          if elapsed <= GRACE {
            return Rejected;
          }
        }
        repo.RevokeAllForUser(existing.value.user);
      }
      return Rejected;
    }
    var ok := repo.Create(stored.value.user, issued, now + LIFETIME);
    if !ok {
      repo.tokens := saved;
      return Conflict;
    }
    return Issued(stored.value.user, issued);
  }

  /** POST /auth/login, once the password has been checked. */
  method LogIn(repo: RefreshTokenRepo, now: Time, user: UserId, issued: TokenId) returns (answer: Answer)
    modifies repo
    ensures After(repo.tokens, answer) == DoLogin(old(repo.tokens), now, user, issued)
  {
    var ok := repo.Create(user, issued, now + LIFETIME);
    answer := if ok then Issued(user, issued) else Conflict;
  }

  /** POST /auth/logout. */
  method LogOut(repo: RefreshTokenRepo, presented: Option<TokenId>) returns (answer: Answer)
    modifies repo
    ensures After(repo.tokens, answer) == DoLogout(old(repo.tokens), presented)
  {
    if presented.Some? {
      var stored := repo.GetByHash(presented.value);
      if stored.Some? && !stored.value.revoked {
        repo.Revoke(presented.value);
      }
    }
    return LoggedOut;
  }

  // ---------------------------------------------------------------------------
  // Exchanges
  // ---------------------------------------------------------------------------

  /** A refresh is answered with a new token exactly if the presented one is known, not revoked and not
      expired; the generated one is new. */
  lemma IssuedIff(ts: Tokens, now: Time, t: TokenId, issued: TokenId)
    ensures DoRefresh(ts, now, Some(t), issued).answer.Issued?
            <==> t in ts && !ts[t].revoked && now < ts[t].expiresAt && issued !in ts
    ensures DoRefresh(ts, now, None, issued) == After(ts, Rejected)
  {
  }

  /** And then the new one is valid for 30 days, for the same user, and the old one is revoked and bears
      the time of the exchange. */
  lemma ExchangeIs(ts: Tokens, now: Time, t: TokenId, issued: TokenId)
    requires t in ts && !ts[t].revoked && now < ts[t].expiresAt && issued !in ts
    ensures var after := DoRefresh(ts, now, Some(t), issued);
      && after.answer == Issued(ts[t].user, issued)
      && after.tokens[issued] == Token(ts[t].user, now + 2_592_000_000_000, false, None)
      && after.tokens[t] == Token(ts[t].user, ts[t].expiresAt, true, Some(now))
      && after.tokens.Keys == ts.Keys + {issued}
      && forall x <- ts :: x != t ==> after.tokens[x] == ts[x]
  {
  }

  lemma LoginIs(ts: Tokens, now: Time, user: UserId, issued: TokenId)
    requires issued !in ts
    ensures DoLogin(ts, now, user, issued)
            == After(ts[issued := Token(user, now + 2_592_000_000_000, false, None)], Issued(user, issued))
  {
  }

  /** The request presents a token that was revoked and not exchanged in the last five seconds. */
  predicate Replays(ts: Tokens, now: Time, request: Request, user: UserId) {
    && request.Refresh? && request.presented.Some? && request.presented.value in ts
    && var token := ts[request.presented.value];
       token.user == user && token.revoked && !(token.rotatedAt.Some? && now - token.rotatedAt.value <= 5_000_000)
  }

  /** The request exchanges `t`, or gives it up, or is a replay for its user. */
  predicate Revokes(ts: Tokens, now: Time, request: Request, t: TokenId)
    requires t in ts
  {
    || (request.Refresh? && request.presented == Some(t) && now < ts[t].expiresAt && request.issued !in ts)
    || (request.Logout? && request.presented == Some(t))
    || Replays(ts, now, request, ts[t].user)
  }

  /** A valid token stays exactly as it is unless it is exchanged, given up, or lost to a replay. */
  lemma ValidTokenIsRevokedIff(ts: Tokens, now: Time, request: Request, t: TokenId)
    requires t in ts && !ts[t].revoked
    ensures t in Serve(ts, now, request).tokens
    ensures Serve(ts, now, request).tokens[t].revoked <==> Revokes(ts, now, request, t)
    ensures !Revokes(ts, now, request, t) ==> Serve(ts, now, request).tokens[t] == ts[t]
  {
  }

  predicate Undisturbed(ts: Tokens, requests: seq<(Time, Request)>, t: TokenId)
    decreases |requests|
  {
    t in ts &&
    (requests == [] ||
     (!Revokes(ts, requests[0].0, requests[0].1, t)
      && Undisturbed(Serve(ts, requests[0].0, requests[0].1).tokens, requests[1..], t)))
  }

  lemma {:induction false} StaysValidIff(ts: Tokens, requests: seq<(Time, Request)>, t: TokenId)
    requires t in ts && !ts[t].revoked
    ensures t in RunTokens(ts, requests)
    ensures !RunTokens(ts, requests)[t].revoked <==> Undisturbed(ts, requests, t)
    ensures Undisturbed(ts, requests, t) ==> RunTokens(ts, requests)[t] == ts[t]
    decreases |requests|
  {
    if requests != [] {
      var next := Serve(ts, requests[0].0, requests[0].1).tokens;
      ValidTokenIsRevokedIff(ts, requests[0].0, requests[0].1, t);
      if !Revokes(ts, requests[0].0, requests[0].1, t) {
        StaysValidIff(next, requests[1..], t);
      } else {
        RevocationIsFinalOverRuns(next, requests[1..], t);
      }
    }
  }

  /** After a login, or an exchange, the token that it gave is exchanged if and only if it is presented
      within 30 days and no request in between exchanged it, gave it up or was a replay. */
  lemma NewestIsExchangedIff(ts: Tokens, start: Time, begin: Request, requests: seq<(Time, Request)>, now: Time, issued: TokenId)
    requires begin.Login? || begin.Refresh?
    requires Serve(ts, start, begin).answer.Issued?
    requires issued !in RunTokens(Serve(ts, start, begin).tokens, requests)
    ensures var first := Serve(ts, start, begin);
      DoRefresh(RunTokens(first.tokens, requests), now, Some(first.answer.token), issued).answer.Issued?
      <==> now < start + 2_592_000_000_000 && Undisturbed(first.tokens, requests, first.answer.token)
  {
    var first := Serve(ts, start, begin);
    var t := first.answer.token;
    assert first.tokens[t].expiresAt == start + 2_592_000_000_000 && !first.tokens[t].revoked;
    StaysValidIff(first.tokens, requests, t);
    RevocationIsFinalOverRuns(first.tokens, requests, t);
    IssuedIff(RunTokens(first.tokens, requests), now, t, issued);
  }

  // ---------------------------------------------------------------------------
  // Replays
  // ---------------------------------------------------------------------------

  /** No request takes a token away, changes its owner or expiry, or makes it valid again. */
  lemma RevocationIsFinal(ts: Tokens, now: Time, request: Request, t: TokenId)
    requires t in ts
    ensures var after := Serve(ts, now, request).tokens;
      t in after && after[t].user == ts[t].user && after[t].expiresAt == ts[t].expiresAt
      && (ts[t].revoked ==> after[t].revoked)
  {
  }

  function RunTokens(ts: Tokens, requests: seq<(Time, Request)>): Tokens
    decreases |requests|
  {
    if requests == [] then ts else RunTokens(Serve(ts, requests[0].0, requests[0].1).tokens, requests[1..])
  }

  /** Nor does any series of requests. */
  lemma {:induction false} RevocationIsFinalOverRuns(ts: Tokens, requests: seq<(Time, Request)>, t: TokenId)
    requires t in ts
    ensures var after := RunTokens(ts, requests);
      t in after && after[t].user == ts[t].user && after[t].expiresAt == ts[t].expiresAt
      && (ts[t].revoked ==> after[t].revoked)
    decreases |requests|
  {
    if requests != [] {
      RevocationIsFinal(ts, requests[0].0, requests[0].1, t);
      RevocationIsFinalOverRuns(Serve(ts, requests[0].0, requests[0].1).tokens, requests[1..], t);
    }
  }

  /** A token that was rotated at most five seconds ago is turned away and nothing changes. */
  lemma ReplayInGraceChangesNothing(ts: Tokens, now: Time, t: TokenId, issued: TokenId)
    requires t in ts && ts[t].revoked && ts[t].rotatedAt.Some? && now - ts[t].rotatedAt.value <= 5_000_000
    ensures DoRefresh(ts, now, Some(t), issued) == After(ts, Rejected)
  {
  }

  /** A refresh revokes a token other than the one presented exactly when the presented one is
      revoked and out of grace, and then exactly the tokens of its user. */
  lemma ReplayRevokesAllAndOnly(ts: Tokens, now: Time, t: TokenId, issued: TokenId, other: TokenId)
    requires t in ts && other in ts && other != t && !ts[other].revoked
    ensures DoRefresh(ts, now, Some(t), issued).tokens[other].revoked
      <==> ts[t].revoked && !(ts[t].rotatedAt.Some? && now - ts[t].rotatedAt.value <= 5_000_000)
           && ts[other].user == ts[t].user
  {
  }

  predicate AllRevoked(ts: Tokens, user: UserId) {
    forall t <- ts :: ts[t].user == user ==> ts[t].revoked
  }

  /** A replay out of grace leaves the user without any valid token. */
  lemma ReplayLeavesNone(ts: Tokens, now: Time, t: TokenId, issued: TokenId)
    requires t in ts && ts[t].revoked && !InGrace(ts[t], now)
    ensures AllRevoked(DoRefresh(ts, now, Some(t), issued).tokens, ts[t].user)
    ensures DoRefresh(ts, now, Some(t), issued).answer == Rejected
    ensures forall x <- ts :: ts[x].user != ts[t].user ==> DoRefresh(ts, now, Some(t), issued).tokens[x] == ts[x]
  {
  }

  /** The answers to a series of requests. */
  function Answers(ts: Tokens, requests: seq<(Time, Request)>): seq<Answer>
    decreases |requests|
  {
    if requests == [] then []
    else
      var after := Serve(ts, requests[0].0, requests[0].1);
      [after.answer] + Answers(after.tokens, requests[1..])
  }

  /** From then on nobody gets a token for that user, until a login. */
  lemma {:induction false} NoneUntilLogin(ts: Tokens, user: UserId, requests: seq<(Time, Request)>)
    requires AllRevoked(ts, user)
    requires forall i :: 0 <= i < |requests| ==> requests[i].1.Login? ==> requests[i].1.user != user
    ensures |Answers(ts, requests)| == |requests|
    ensures forall i :: 0 <= i < |requests| ==> Answers(ts, requests)[i].Issued? ==> Answers(ts, requests)[i].user != user
    decreases |requests|
  {
    if requests != [] {
      var after := Serve(ts, requests[0].0, requests[0].1);
      assert AllRevoked(after.tokens, user);
      NoneUntilLogin(after.tokens, user, requests[1..]);
    }
  }
}
