/** Login families: every login starts a chain of tokens, each exchanged for the next. */
module RefreshChains {
  import opened Basics
  import opened RefreshTokens

  /** The tokens, with the number of the login each descends from, and the exchanges made so far. */
  datatype History = History(tokens: Tokens, login: map<TokenId, nat>, logins: nat, exchanged: multiset<TokenId>)

  function Next(s: History, now: Time, request: Request): History {
    var after := Serve(s.tokens, now, request);
    match request
    case Login(_, issued) =>
      if after.answer.Issued? then History(after.tokens, s.login[issued := s.logins], s.logins + 1, s.exchanged)
      else s.(tokens := after.tokens)
    case Refresh(presented, issued) =>
      if after.answer.Issued? && presented.Some? && presented.value in s.login
      then s.(tokens := after.tokens, login := s.login[issued := s.login[presented.value]],
              exchanged := s.exchanged + multiset{presented.value})
      else s.(tokens := after.tokens)
    case Logout(_) => s.(tokens := after.tokens)
  }

  function Run(s: History, requests: seq<(Time, Request)>): History
    decreases |requests|
  {
    if requests == [] then s else Run(Next(s, requests[0].0, requests[0].1), requests[1..])
  }

  const START := History(map[], map[], 0, multiset{})

  ghost predicate LoginsOk(s: History) {
    && s.login.Keys == s.tokens.Keys
    && (forall t <- s.tokens :: s.login[t] < s.logins)
    && (forall t <- s.tokens, v <- s.tokens :: s.login[t] == s.login[v] ==> s.tokens[t].user == s.tokens[v].user)
  }

  ghost predicate OneValid(s: History)
    requires LoginsOk(s)
  {
    forall t <- s.tokens, v <- s.tokens ::
      s.login[t] == s.login[v] && !s.tokens[t].revoked && !s.tokens[v].revoked ==> t == v
  }

  ghost predicate ExchangedOnce(s: History) {
    && (forall t :: s.exchanged[t] <= 1)
    && (forall t <- s.exchanged :: t in s.tokens && s.tokens[t].revoked)
  }

  /** Old tokens keep their login and user; a new one has those of the exchanged token, or a new login. */
  lemma OldAndNew(s: History, now: Time, request: Request, t: TokenId)
    requires LoginsOk(s)
    ensures var after := Next(s, now, request);
      && after.login.Keys == after.tokens.Keys && s.logins <= after.logins
      && (t in s.tokens ==> t in after.tokens && after.login[t] == s.login[t] && after.tokens[t].user == s.tokens[t].user)
      && (t in after.tokens && t !in s.tokens ==>
            (request.Login? || request.Refresh?) && t == request.issued && after.login[t] < after.logins &&
            (after.login[t] == s.logins ||
             (request.Refresh? && request.presented.Some? && request.presented.value in s.tokens
              && after.login[t] == s.login[request.presented.value]
              && after.tokens[t].user == s.tokens[request.presented.value].user)))
  {
  }

  lemma LoginsKept(s: History, now: Time, request: Request)
    requires LoginsOk(s)
    ensures LoginsOk(Next(s, now, request))
  {
    var after := Next(s, now, request);
    OldAndNew(s, now, request, 0);
    forall t <- after.tokens ensures after.login[t] < after.logins {
      OldAndNew(s, now, request, t);
    }
    forall t <- after.tokens, v <- after.tokens | after.login[t] == after.login[v]
      ensures after.tokens[t].user == after.tokens[v].user
    {
      OldAndNew(s, now, request, t);
      OldAndNew(s, now, request, v);
    }
  }

  /** A new token in a chain comes with the revocation of the one it replaces. */
  lemma OneValidKept(s: History, now: Time, request: Request, t: TokenId, v: TokenId)
    requires LoginsOk(s) && OneValid(s)
    requires var after := Next(s, now, request);
      LoginsOk(after) && t in after.tokens && v in after.tokens && after.login[t] == after.login[v]
      && !after.tokens[t].revoked && !after.tokens[v].revoked && v in s.tokens
    ensures t == v
  {
    RevocationIsFinal(s.tokens, now, request, v);
    if t in s.tokens {
      RevocationIsFinal(s.tokens, now, request, t);
    }
  }

  lemma NextKeepsChains(s: History, now: Time, request: Request)
    requires LoginsOk(s) && OneValid(s)
    ensures LoginsOk(Next(s, now, request)) && OneValid(Next(s, now, request))
  {
    LoginsKept(s, now, request);
    var after := Next(s, now, request);
    forall t <- after.tokens, v <- after.tokens
      | after.login[t] == after.login[v] && !after.tokens[t].revoked && !after.tokens[v].revoked
      ensures t == v
    {
      if v in s.tokens {
        OneValidKept(s, now, request, t, v);
      } else if t in s.tokens {
        OneValidKept(s, now, request, v, t);
      }
    }
  }

  lemma ExchangesKept(s: History, now: Time, request: Request)
    requires LoginsOk(s) && ExchangedOnce(s)
    ensures ExchangedOnce(Next(s, now, request))
  {
    var after := Next(s, now, request);
    forall t <- after.exchanged ensures t in after.tokens && after.tokens[t].revoked {
      if t in s.tokens {
        RevocationIsFinal(s.tokens, now, request, t);
      }
    }
  }

  lemma {:induction false} RunKeepsChains(s: History, requests: seq<(Time, Request)>)
    requires LoginsOk(s) && OneValid(s) && ExchangedOnce(s)
    ensures var after := Run(s, requests); LoginsOk(after) && OneValid(after) && ExchangedOnce(after)
    decreases |requests|
  {
    if requests != [] {
      NextKeepsChains(s, requests[0].0, requests[0].1);
      ExchangesKept(s, requests[0].0, requests[0].1);
      RunKeepsChains(Next(s, requests[0].0, requests[0].1), requests[1..]);
    }
  }

  /** After any requests: at most one token of a login is still valid, every token has been
      exchanged at most once, and a whole chain belongs to one user. */
  lemma Chains(requests: seq<(Time, Request)>)
    ensures var s := Run(START, requests);
      && s.login.Keys == s.tokens.Keys
      && (forall t <- s.tokens, v <- s.tokens ::
            s.login[t] == s.login[v] && !s.tokens[t].revoked && !s.tokens[v].revoked ==> t == v)
      && (forall t :: s.exchanged[t] <= 1)
      && (forall t <- s.tokens, v <- s.tokens :: s.login[t] == s.login[v] ==> s.tokens[t].user == s.tokens[v].user)
  {
    RunKeepsChains(START, requests);
  }

  /** An exchange extends the chain of the presented token, for the same user, and ends that token. */
  lemma ExchangeExtendsTheChain(s: History, now: Time, t: TokenId, issued: TokenId)
    requires LoginsOk(s) && DoRefresh(s.tokens, now, Some(t), issued).answer.Issued?
    ensures var after := Next(s, now, Refresh(Some(t), issued));
      && t in s.tokens && !s.tokens[t].revoked && s.tokens[t].expiresAt > now
      && after.exchanged == s.exchanged + multiset{t}
      && issued !in s.tokens && issued in after.tokens && issued in after.login
      && after.login[issued] == s.login[t] && after.tokens[issued].user == s.tokens[t].user
      && after.tokens[t].revoked && !after.tokens[issued].revoked
      && (forall x <- s.tokens :: x != t ==> after.tokens[x] == s.tokens[x])
  {
  }
}
