/** The server and any number of browsers, each with one tab, exchanging messages.

    A refresh travels as a message that is sent, served and received in separate steps, and so does a
    logout; a login is served and received.  Requests and responses can be lost.  `owner` records the
    browser each token was issued to, and `replays` counts how often the server was shown a revoked
    token. */
module SingleFlight {
  import opened Basics
  import opened RefreshTokens
  import opened ApiClient

  type DeviceId = nat

  /** A refresh request with the cookie it carries, and later its answer. */
  datatype Message = Message(device: DeviceId, sent: Option<TokenId>, answer: Option<Answer>)

  /** A logout request with the cookie it carries; once it is served, its response is under way. */
  datatype Leave = Leave(device: DeviceId, sent: Option<TokenId>, served: bool)

  datatype System = System(
    tokens: Tokens,
    owner: map<TokenId, DeviceId>,
    replays: nat,
    tabs: map<DeviceId, Tab>,
    net: map<MessageId, Message>,
    logins: map<TokenId, DeviceId>,  // login responses under way
    logouts: map<MessageId, Leave>,
    ended: set<TokenId>)             // tokens given up by a logout

  const START := System(map[], map[], 0, map[], map[], map[], map[], {})

  datatype Step =
    | Open(d: DeviceId)
    | Request(d: DeviceId, c: CallId)
    | Success(d: DeviceId, c: CallId)
    | Denied(d: DeviceId, c: CallId, m: MessageId)
    | RefreshNow(d: DeviceId, m: MessageId)
    | ServeRefresh(m: MessageId, now: Time, issued: TokenId)
    | ReceiveAnswer(m: MessageId)
    | RunFinally(d: DeviceId)
    | ResumeCall(d: DeviceId, c: CallId)
    | ServeLogin(d: DeviceId, user: UserId, now: Time, issued: TokenId)
    | ReceiveLogin(t: TokenId)
    | LoseRequest(m: MessageId)      // a refresh that never reaches the server
    | DropAnswer(m: MessageId)       // a refresh whose response is lost
    | SendLogout(d: DeviceId, l: MessageId)
    | ServeLogout(l: MessageId)
    | ReceiveLogout(l: MessageId)
    | LoseLogout(l: MessageId)       // a logout, or its response, that is lost

  function SetTab(s: System, d: DeviceId, tab: Tab): System {
    s.(tabs := s.tabs[d := tab])
  }

  /** The tab's next state, and the message if its promise has just come into being. */
  function Posting(s: System, d: DeviceId, m: MessageId, tab: Tab): System
    requires d in s.tabs
  {
    var posted := SetTab(s, d, tab);
    if s.tabs[d].promise == NoPromise && tab.promise == InFlight(m)
    then posted.(net := s.net[m := Message(d, tab.cookie, None)])
    else posted
  }

  predicate ShowsRevoked(ts: Tokens, presented: Option<TokenId>) {
    presented.Some? && presented.value in ts && ts[presented.value].revoked
  }

  /** A step that is not enabled changes nothing. */
  function Apply(s: System, step: Step): System {
    match step
    case Open(d) => if d in s.tabs then s else SetTab(s, d, NEW_TAB)
    case Request(d, c) => if d in s.tabs then SetTab(s, d, Send(s.tabs[d], c)) else s
    case Success(d, c) => if d in s.tabs then SetTab(s, d, Succeed(s.tabs[d], c)) else s
    case Denied(d, c, m) =>
      if d in s.tabs && m !in s.net then Posting(s, d, m, Unauthorized(s.tabs[d], c, m)) else s
    case RefreshNow(d, m) =>
      if d in s.tabs && m !in s.net then Posting(s, d, m, StartRefresh(s.tabs[d], m)) else s
    case ServeRefresh(m, now, issued) =>
      if m !in s.net || s.net[m].answer.Some? then s
      else
        var after := DoRefresh(s.tokens, now, s.net[m].sent, issued);
        s.(tokens := after.tokens,
           owner := if after.answer.Issued? then s.owner[issued := s.net[m].device] else s.owner,
           replays := s.replays + if ShowsRevoked(s.tokens, s.net[m].sent) then 1 else 0,
           net := s.net[m := s.net[m].(answer := Some(after.answer))])
    case ReceiveAnswer(m) =>
      if m !in s.net || s.net[m].answer.None? || s.net[m].device !in s.tabs then s
      else
        var d := s.net[m].device;
        SetTab(s, d, Receive(s.tabs[d], m, s.net[m].answer.value)).(net := s.net - {m})
    case RunFinally(d) => if d in s.tabs then SetTab(s, d, Finally(s.tabs[d])) else s
    case ResumeCall(d, c) => if d in s.tabs then SetTab(s, d, Resume(s.tabs[d], c)) else s
    case ServeLogin(d, user, now, issued) =>
      if d !in s.tabs || DoLogin(s.tokens, now, user, issued).answer.Conflict? then s
      else s.(tokens := DoLogin(s.tokens, now, user, issued).tokens,
              owner := s.owner[issued := d], logins := s.logins[issued := d])
    case ReceiveLogin(t) =>
      if t !in s.logins || s.logins[t] !in s.tabs then s
      else
        var d := s.logins[t];
        SetTab(s, d, s.tabs[d].(cookie := Some(t))).(logins := s.logins - {t})
    case LoseRequest(m) => if m in s.net && s.net[m].answer.None? then GiveUp(s, m) else s
    case DropAnswer(m) => if m in s.net && s.net[m].answer.Some? then GiveUp(s, m) else s
    case SendLogout(d, l) =>
      if d !in s.tabs || l in s.logouts then s
      else s.(logouts := s.logouts[l := Leave(d, s.tabs[d].cookie, false)])
    case ServeLogout(l) =>
      if l !in s.logouts || s.logouts[l].served then s
      else
        s.(tokens := DoLogout(s.tokens, s.logouts[l].sent).tokens,
           logouts := s.logouts[l := s.logouts[l].(served := true)],
           ended := s.ended + if s.logouts[l].sent.Some? then {s.logouts[l].sent.value} else {})
    case ReceiveLogout(l) =>
      if l !in s.logouts || !s.logouts[l].served || s.logouts[l].device !in s.tabs then s
      else
        var d := s.logouts[l].device;
        SetTab(s, d, s.tabs[d].(cookie := None)).(logouts := s.logouts - {l})
    case LoseLogout(l) => s.(logouts := s.logouts - {l})
  }

  /** The tab learns that no response will come. */
  function GiveUp(s: System, m: MessageId): System
    requires m in s.net
  {
    var d := s.net[m].device;
    if d !in s.tabs then s else SetTab(s, d, Lose(s.tabs[d], m)).(net := s.net - {m})
  }

  function Run(s: System, steps: seq<Step>): System
    decreases |steps|
  {
    if steps == [] then s else Run(Apply(s, steps[0]), steps[1..])
  }

  // ---------------------------------------------------------------------------
  // Invariant
  // ---------------------------------------------------------------------------

  /** A message is under way exactly for the promise that waits for it. */
  ghost predicate PromisesOk(s: System) {
    && (forall m <- s.net :: s.net[m].device in s.tabs && s.tabs[s.net[m].device].promise == InFlight(m))
    && (forall d <- s.tabs :: s.tabs[d].promise.InFlight? ==>
          s.tabs[d].promise.message in s.net && s.net[s.tabs[d].promise.message].device == d)
  }

  ghost predicate TabsOk(s: System) {
    forall d <- s.tabs :: CallsOk(s.tabs[d])
  }

  /** `t` was issued to `d` and can still be exchanged, as far as revocation goes. */
  predicate Usable(s: System, d: DeviceId, t: TokenId) {
    t in s.tokens && t in s.owner && s.owner[t] == d && !s.tokens[t].revoked
  }

  ghost predicate MessageOk(s: System, m: MessageId)
    requires m in s.net
  {
    var message := s.net[m];
    && (message.answer.None? && message.sent.Some? ==> Usable(s, message.device, message.sent.value))
    && (message.answer.Some? && message.answer.value.Issued? ==> Usable(s, message.device, message.answer.value.token))
    && (message.sent.Some? ==> message.sent.value in s.tokens && message.sent.value !in s.logins)
    && (message.answer.Some? && message.answer.value.Issued? ==> message.answer.value.token !in s.logins)
    && (message.answer.Some? && message.answer.value.Issued? ==>
          message.sent.Some? && message.sent.value in s.tokens
          && s.tokens[message.sent.value].revoked && s.tokens[message.sent.value].rotatedAt.Some?)
  }

  /** The answer that will replace the cookie is under way. */
  predicate Replaced(s: System, d: DeviceId, t: TokenId) {
    && d in s.tabs && s.tabs[d].promise.InFlight? && s.tabs[d].promise.message in s.net
    && var message := s.net[s.tabs[d].promise.message];
       message.sent == Some(t) && message.answer.Some? && message.answer.value.Issued?
  }

  /** A served logout with the browser's cookie, whose response is still to clear it. */
  predicate Dooms(s: System, l: MessageId, d: DeviceId) {
    && d in s.tabs && s.tabs[d].cookie.Some? && l in s.logouts
    && s.logouts[l].device == d && s.logouts[l].served && s.logouts[l].sent == s.tabs[d].cookie
  }

  predicate Doomed(s: System, d: DeviceId) {
    exists l <- s.logouts :: Dooms(s, l, d)
  }

  ghost predicate CookieOk(s: System, d: DeviceId)
    requires d in s.tabs
  {
    s.tabs[d].cookie.Some? ==>
      var t := s.tabs[d].cookie.value;
      && t in s.tokens && t !in s.logins && t in s.owner && s.owner[t] == d
      && (Usable(s, d, t) || Replaced(s, d, t) || Doomed(s, d))
  }

  ghost predicate LogoutOk(s: System, l: MessageId)
    requires l in s.logouts
  {
    && s.logouts[l].device in s.tabs
    && (s.logouts[l].sent.Some? ==>
          var t := s.logouts[l].sent.value;
          && t in s.tokens && t !in s.logins && t in s.owner && s.owner[t] == s.logouts[l].device
          && (s.logouts[l].served ==> s.tokens[t].revoked))
  }

  ghost predicate LogoutsOk(s: System) {
    forall l <- s.logouts :: LogoutOk(s, l)
  }

  ghost predicate CustodyOk(s: System) {
    && s.owner.Keys == s.tokens.Keys
    && (forall m <- s.net :: MessageOk(s, m))
    && (forall d <- s.tabs :: CookieOk(s, d))
    && (forall t <- s.logins :: Usable(s, s.logins[t], t))
  }

  predicate Carries(message: Message, cookie: Option<TokenId>) {
    message.answer.Some? && message.answer.value.Issued? && cookie == Some(message.answer.value.token)
  }

  /** No browser holds yet, or has given up, what is still being sent. */
  ghost predicate NotYetHeld(s: System) {
    && (forall d <- s.tabs, m <- s.net :: !Carries(s.net[m], s.tabs[d].cookie))
    && (forall l <- s.logouts, m <- s.net :: !Carries(s.net[m], s.logouts[l].sent))
  }

  /** Nothing was ever revoked except by being exchanged or given up. */
  ghost predicate OnlyRotated(s: System) {
    && s.replays == 0
    && (forall t <- s.tokens :: s.tokens[t].rotatedAt.Some? ==> s.tokens[t].revoked)
    && (forall t <- s.tokens :: s.tokens[t].revoked ==> s.tokens[t].rotatedAt.Some? || t in s.ended)
  }

  ghost predicate Inv(s: System) {
    PromisesOk(s) && TabsOk(s) && CustodyOk(s) && LogoutsOk(s) && NotYetHeld(s) && OnlyRotated(s)
  }

  /** The answer that would replace the browser's spent cookie. */
  predicate Needed(s: System, m: MessageId) {
    && m in s.net && s.net[m].device in s.tabs
    && s.net[m].answer.Some? && s.net[m].answer.value.Issued?
    && s.tabs[s.net[m].device].cookie == s.net[m].sent
  }

  /** A refresh that the server has still to see carries the cookie of the logout. */
  predicate Clashes(s: System, l: MessageId, m: MessageId) {
    && l in s.logouts && !s.logouts[l].served && s.logouts[l].sent.Some?
    && m in s.net && s.net[m].answer.None? && s.net[m].sent == s.logouts[l].sent
  }

  /** The tab, on its way to its next state, sends a refresh. */
  predicate Posts(s: System, d: DeviceId, m: MessageId, next: Tab) {
    d in s.tabs && m !in s.net && s.tabs[d].promise == NoPromise && next.promise == InFlight(m)
  }

  /** The response that would clear the browser's ended cookie, with nothing else to replace it. */
  predicate Strands(s: System, l: MessageId) {
    && l in s.logouts
    && var d := s.logouts[l].device;
       && Dooms(s, l, d) && !Replaced(s, d, s.tabs[d].cookie.value)
       && forall k <- s.logouts :: Dooms(s, k, d) ==> k == l
  }

  /** Every step but these: to lose an answer that is needed, or the response to a logout that is; to
      serve a logout while a refresh with its cookie is under way; and to send a refresh with a cookie
      that a served logout is about to clear. */
  predicate Harmless(s: System, step: Step) {
    match step
    case Denied(d, c, m) => d in s.tabs && Posts(s, d, m, Unauthorized(s.tabs[d], c, m)) ==> !Doomed(s, d)
    case RefreshNow(d, m) => d in s.tabs && Posts(s, d, m, StartRefresh(s.tabs[d], m)) ==> !Doomed(s, d)
    case DropAnswer(m) => Needed(s, m) ==> Doomed(s, s.net[m].device)
    case ServeLogout(l) => forall m <- s.net :: !Clashes(s, l, m)
    case LoseLogout(l) => !Strands(s, l)
    case _ => true
  }

  predicate AllHarmless(s: System, steps: seq<Step>)
    decreases |steps|
  {
    steps == [] || (Harmless(s, steps[0]) && AllHarmless(Apply(s, steps[0]), steps[1..]))
  }

  // What logouts and messages depend on.

  lemma LogoutsFrame(a: System, b: System)
    requires LogoutsOk(a) && b.tokens == a.tokens && b.owner == a.owner
    requires forall l <- b.logouts :: l in a.logouts && b.logouts[l] == a.logouts[l]
    requires forall d <- a.tabs :: d in b.tabs
    requires forall t <- b.logins :: t in a.logins
    ensures LogoutsOk(b)
  {
    forall l <- b.logouts ensures LogoutOk(b, l) {
      assert LogoutOk(a, l);
    }
  }

  lemma MessagesFrame(a: System, b: System)
    requires forall m <- a.net :: MessageOk(a, m)
    requires b.tokens == a.tokens && b.owner == a.owner
    requires forall m <- b.net :: m in a.net && b.net[m] == a.net[m]
    requires forall t <- b.logins :: t in a.logins
    ensures forall m <- b.net :: MessageOk(b, m)
  {
    forall m <- b.net ensures MessageOk(b, m) {
      assert MessageOk(a, m);
    }
  }

  // Steps that replace one tab and leave the tokens alone.

  lemma TabKeepsPromises(s: System, d: DeviceId, tab: Tab)
    requires PromisesOk(s)
    requires d in s.tabs && s.tabs[d].promise.InFlight? ==> tab.promise == s.tabs[d].promise
    requires d !in s.tabs || !s.tabs[d].promise.InFlight? ==> !tab.promise.InFlight?
    ensures PromisesOk(SetTab(s, d, tab))
  {
  }

  lemma TabKeepsCustody(s: System, d: DeviceId, tab: Tab)
    requires CustodyOk(s)
    requires d in s.tabs ==> tab.cookie == s.tabs[d].cookie && (s.tabs[d].promise.InFlight? ==> tab.promise == s.tabs[d].promise)
    requires d !in s.tabs ==> tab.cookie == None
    ensures CustodyOk(SetTab(s, d, tab))
  {
    var after := SetTab(s, d, tab);
    forall x <- after.net ensures MessageOk(after, x) {
      assert MessageOk(s, x);
    }
    forall e <- after.tabs ensures CookieOk(after, e) {
      if e in s.tabs {
        assert CookieOk(s, e);
      }
    }
  }

  lemma TabKeepsInv(s: System, d: DeviceId, tab: Tab)
    requires Inv(s) && CallsOk(tab)
    requires d in s.tabs ==> tab.cookie == s.tabs[d].cookie
    requires d !in s.tabs ==> tab.cookie == None
    requires d in s.tabs && s.tabs[d].promise.InFlight? ==> tab.promise == s.tabs[d].promise
    requires d !in s.tabs || !s.tabs[d].promise.InFlight? ==> !tab.promise.InFlight?
    ensures Inv(SetTab(s, d, tab))
  {
    TabKeepsPromises(s, d, tab);
    TabKeepsCustody(s, d, tab);
  }

  lemma PostingKeepsPromises(s: System, d: DeviceId, m: MessageId, tab: Tab)
    requires PromisesOk(s) && d in s.tabs && m !in s.net
    requires tab.promise == s.tabs[d].promise || (s.tabs[d].promise == NoPromise && tab.promise == InFlight(m))
    ensures PromisesOk(Posting(s, d, m, tab))
  {
  }

  lemma PostingKeepsCustody(s: System, d: DeviceId, m: MessageId, tab: Tab)
    requires PromisesOk(s) && CustodyOk(s) && d in s.tabs && m !in s.net
    requires tab.cookie == s.tabs[d].cookie && (Posts(s, d, m, tab) ==> !Doomed(s, d))
    requires tab.promise == s.tabs[d].promise || (s.tabs[d].promise == NoPromise && tab.promise == InFlight(m))
    ensures CustodyOk(Posting(s, d, m, tab))
  {
    var after := Posting(s, d, m, tab);
    assert CookieOk(s, d);
    forall x <- after.net ensures MessageOk(after, x) {
      if x in s.net {
        assert MessageOk(s, x);
      }
    }
    forall e <- after.tabs ensures CookieOk(after, e) {
      assert CookieOk(s, e);
    }
  }

  lemma PostingKeepsInv(s: System, d: DeviceId, m: MessageId, tab: Tab)
    requires Inv(s) && d in s.tabs && m !in s.net && CallsOk(tab)
    requires tab.cookie == s.tabs[d].cookie && (Posts(s, d, m, tab) ==> !Doomed(s, d))
    requires tab.promise == s.tabs[d].promise || (s.tabs[d].promise == NoPromise && tab.promise == InFlight(m))
    ensures Inv(Posting(s, d, m, tab))
  {
    PostingKeepsPromises(s, d, m, tab);
    PostingKeepsCustody(s, d, m, tab);
    PostingKeepsTabs(s, d, m, tab);
    PostingKeepsLogouts(s, d, m, tab);
    PostingKeepsNotYetHeld(s, d, m, tab);
  }

  lemma PostingKeepsTabs(s: System, d: DeviceId, m: MessageId, tab: Tab)
    requires TabsOk(s) && d in s.tabs && CallsOk(tab)
    ensures TabsOk(Posting(s, d, m, tab))
  {
  }

  lemma PostingKeepsLogouts(s: System, d: DeviceId, m: MessageId, tab: Tab)
    requires LogoutsOk(s) && d in s.tabs
    ensures LogoutsOk(Posting(s, d, m, tab))
  {
    LogoutsFrame(s, Posting(s, d, m, tab));
  }

  lemma PostingKeepsNotYetHeld(s: System, d: DeviceId, m: MessageId, tab: Tab)
    requires NotYetHeld(s) && d in s.tabs && tab.cookie == s.tabs[d].cookie
    ensures NotYetHeld(Posting(s, d, m, tab))
  {
  }

  // The server.

  /** An unserved message carries a token that is still good, so the server never revokes everything. */
  lemma ServeKeepsRotated(s: System, m: MessageId, now: Time, issued: TokenId)
    requires CustodyOk(s) && OnlyRotated(s)
    ensures OnlyRotated(Apply(s, ServeRefresh(m, now, issued)))
  {
    if m in s.net {
      assert MessageOk(s, m);
    }
  }

  /** Serving a good token changes that row and adds one, if anything. */
  lemma ServeChanges(s: System, m: MessageId, now: Time, issued: TokenId)
    requires m in s.net && MessageOk(s, m) && s.net[m].answer.None?
    ensures var after := Apply(s, ServeRefresh(m, now, issued));
      && (forall d, t :: Usable(s, d, t) && Some(t) != s.net[m].sent ==> t != issued ==> Usable(after, d, t))
      && (forall t <- s.tokens :: t in after.tokens && (s.tokens[t].revoked ==> after.tokens[t].revoked))
      && (after.tokens != s.tokens ==>
            issued !in s.tokens && Usable(after, s.net[m].device, issued) && s.net[m].sent.Some?
            && after.net[m].answer.value.Issued? && after.net[m].answer.value.token == issued
            && after.tokens[s.net[m].sent.value].revoked)
      && (after.tokens == s.tokens ==> after.owner == s.owner && !after.net[m].answer.value.Issued?)
  {
    var after := Apply(s, ServeRefresh(m, now, issued));
    if after.tokens != s.tokens {
      assert issued in after.tokens && issued !in s.tokens;
    }
  }

  lemma ServeKeepsMessages(s: System, m: MessageId, now: Time, issued: TokenId, x: MessageId)
    requires PromisesOk(s) && CustodyOk(s) && m in s.net && s.net[m].answer.None? && x in s.net
    ensures MessageOk(Apply(s, ServeRefresh(m, now, issued)), x)
  {
    assert MessageOk(s, m) && MessageOk(s, x);
    if x == m {
      ServedIsOk(s, m, now, issued);
    } else {
      ServeKeepsOthers(s, m, now, issued, x);
    }
  }

  lemma ServedIsOk(s: System, m: MessageId, now: Time, issued: TokenId)
    requires m in s.net && MessageOk(s, m) && s.net[m].answer.None?
    requires s.owner.Keys == s.tokens.Keys && forall t <- s.logins :: t in s.tokens
    ensures MessageOk(Apply(s, ServeRefresh(m, now, issued)), m)
  {
  }

  lemma ServeKeepsOthers(s: System, m: MessageId, now: Time, issued: TokenId, x: MessageId)
    requires m in s.net && MessageOk(s, m) && s.net[m].answer.None?
    requires x in s.net && MessageOk(s, x) && s.net[x].device != s.net[m].device
    ensures MessageOk(Apply(s, ServeRefresh(m, now, issued)), x)
  {
    ServeChanges(s, m, now, issued);
  }

  lemma ServeKeepsCookies(s: System, m: MessageId, now: Time, issued: TokenId, d: DeviceId)
    requires PromisesOk(s) && CustodyOk(s) && m in s.net && s.net[m].answer.None? && d in s.tabs
    ensures CookieOk(Apply(s, ServeRefresh(m, now, issued)), d)
  {
    assert MessageOk(s, m) && CookieOk(s, d);
    ServeChanges(s, m, now, issued);
  }

  lemma ServeKeepsCustody(s: System, m: MessageId, now: Time, issued: TokenId)
    requires PromisesOk(s) && CustodyOk(s) && m in s.net && s.net[m].answer.None?
    ensures CustodyOk(Apply(s, ServeRefresh(m, now, issued)))
  {
    var after := Apply(s, ServeRefresh(m, now, issued));
    forall x <- after.net ensures MessageOk(after, x) {
      ServeKeepsMessages(s, m, now, issued, x);
    }
    forall d <- after.tabs ensures CookieOk(after, d) {
      ServeKeepsCookies(s, m, now, issued, d);
    }
    forall t <- s.logins ensures Usable(after, s.logins[t], t) {
      ServeKeepsLogin(s, m, now, issued, t);
    }
  }

  lemma ServeKeepsLogin(s: System, m: MessageId, now: Time, issued: TokenId, t: TokenId)
    requires CustodyOk(s) && m in s.net && s.net[m].answer.None? && t in s.logins
    ensures Usable(Apply(s, ServeRefresh(m, now, issued)), s.logins[t], t)
  {
    assert MessageOk(s, m);
    ServeChanges(s, m, now, issued);
  }

  lemma ServeKeepsLogouts(s: System, m: MessageId, now: Time, issued: TokenId)
    requires CustodyOk(s) && LogoutsOk(s) && m in s.net && s.net[m].answer.None?
    ensures LogoutsOk(Apply(s, ServeRefresh(m, now, issued)))
  {
    assert MessageOk(s, m);
    ServeChanges(s, m, now, issued);
    var after := Apply(s, ServeRefresh(m, now, issued));
    forall l <- after.logouts ensures LogoutOk(after, l) {
      assert LogoutOk(s, l);
    }
  }

  lemma ServeKeepsNotYetHeld(s: System, m: MessageId, now: Time, issued: TokenId)
    requires CustodyOk(s) && LogoutsOk(s) && NotYetHeld(s) && m in s.net && s.net[m].answer.None?
    ensures NotYetHeld(Apply(s, ServeRefresh(m, now, issued)))
  {
    forall d <- s.tabs ensures issued !in s.tokens ==> s.tabs[d].cookie != Some(issued) {
      assert CookieOk(s, d);
    }
    forall l <- s.logouts ensures issued !in s.tokens ==> s.logouts[l].sent != Some(issued) {
      assert LogoutOk(s, l);
    }
  }

  lemma ServeKeepsTabs(s: System, m: MessageId, now: Time, issued: TokenId)
    requires PromisesOk(s) && TabsOk(s)
    ensures PromisesOk(Apply(s, ServeRefresh(m, now, issued))) && TabsOk(Apply(s, ServeRefresh(m, now, issued)))
  {
  }

  lemma ServeKeepsInv(s: System, m: MessageId, now: Time, issued: TokenId)
    requires Inv(s)
    ensures Inv(Apply(s, ServeRefresh(m, now, issued)))
  {
    ServeKeepsRotated(s, m, now, issued);
    ServeKeepsTabs(s, m, now, issued);
    if m in s.net && s.net[m].answer.None? {
      ServeKeepsCustody(s, m, now, issued);
      ServeKeepsLogouts(s, m, now, issued);
      ServeKeepsNotYetHeld(s, m, now, issued);
    }
  }

  lemma LoginKeepsCustody(s: System, d: DeviceId, user: UserId, now: Time, issued: TokenId)
    requires PromisesOk(s) && CustodyOk(s)
    ensures CustodyOk(Apply(s, ServeLogin(d, user, now, issued)))
  {
    var after := Apply(s, ServeLogin(d, user, now, issued));
    if after != s {
      forall x <- after.net ensures MessageOk(after, x) {
        assert MessageOk(s, x);
      }
      forall e <- after.tabs ensures CookieOk(after, e) {
        assert CookieOk(s, e);
      }
    }
  }

  lemma LoginKeepsLogouts(s: System, d: DeviceId, user: UserId, now: Time, issued: TokenId)
    requires s.owner.Keys == s.tokens.Keys && LogoutsOk(s)
    ensures LogoutsOk(Apply(s, ServeLogin(d, user, now, issued)))
  {
    var after := Apply(s, ServeLogin(d, user, now, issued));
    forall l <- after.logouts ensures LogoutOk(after, l) {
      assert LogoutOk(s, l);
    }
  }

  lemma LoginKeepsRotated(s: System, d: DeviceId, user: UserId, now: Time, issued: TokenId)
    requires OnlyRotated(s)
    ensures OnlyRotated(Apply(s, ServeLogin(d, user, now, issued)))
  {
  }

  lemma LoginKeepsInv(s: System, d: DeviceId, user: UserId, now: Time, issued: TokenId)
    requires Inv(s)
    ensures Inv(Apply(s, ServeLogin(d, user, now, issued)))
  {
    LoginKeepsCustody(s, d, user, now, issued);
    LoginKeepsLogouts(s, d, user, now, issued);
    LoginKeepsRotated(s, d, user, now, issued);
  }

  // Deliveries.

  lemma ReceiveKeepsPromises(s: System, m: MessageId)
    requires PromisesOk(s)
    ensures PromisesOk(Apply(s, ReceiveAnswer(m)))
  {
  }

  lemma ReceiveKeepsCustody(s: System, m: MessageId)
    requires PromisesOk(s) && CustodyOk(s)
    ensures CustodyOk(Apply(s, ReceiveAnswer(m)))
  {
    var after := Apply(s, ReceiveAnswer(m));
    if after != s {
      assert MessageOk(s, m);
      forall x <- after.net ensures MessageOk(after, x) {
        assert MessageOk(s, x);
      }
      forall e <- after.tabs ensures CookieOk(after, e) {
        assert CookieOk(s, e);
      }
    }
  }

  /** The token that has arrived was under way once. */
  lemma ReceiveKeepsNotYetHeld(s: System, m: MessageId)
    requires PromisesOk(s) && CustodyOk(s) && NotYetHeld(s)
    ensures NotYetHeld(Apply(s, ReceiveAnswer(m)))
  {
    var after := Apply(s, ReceiveAnswer(m));
    if after != s {
      forall x <- after.net ensures MessageOk(s, x) {
      }
    }
  }

  lemma ReceiveKeepsTabs(s: System, m: MessageId)
    requires TabsOk(s)
    ensures TabsOk(Apply(s, ReceiveAnswer(m)))
  {
    if m in s.net && s.net[m].answer.Some? && s.net[m].device in s.tabs {
      PromiseHandlersKeepCalls(s.tabs[s.net[m].device], m, s.net[m].answer.value);
    }
  }

  lemma ReceiveKeepsInv(s: System, m: MessageId)
    requires Inv(s)
    ensures Inv(Apply(s, ReceiveAnswer(m)))
  {
    ReceiveKeepsPromises(s, m);
    ReceiveKeepsCustody(s, m);
    ReceiveKeepsNotYetHeld(s, m);
    ReceiveKeepsTabs(s, m);
    LogoutsFrame(s, Apply(s, ReceiveAnswer(m)));
  }

  lemma ReceiveLoginKeepsCustody(s: System, t: TokenId)
    requires CustodyOk(s)
    ensures CustodyOk(Apply(s, ReceiveLogin(t)))
  {
    var after := Apply(s, ReceiveLogin(t));
    if after != s {
      forall x <- after.net ensures MessageOk(after, x) {
        assert MessageOk(s, x);
      }
      forall e <- after.tabs ensures CookieOk(after, e) {
        assert CookieOk(s, e);
      }
    }
  }

  lemma ReceiveLoginKeepsNotYetHeld(s: System, t: TokenId)
    requires CustodyOk(s) && NotYetHeld(s)
    ensures NotYetHeld(Apply(s, ReceiveLogin(t)))
  {
    forall m <- s.net ensures t in s.logins ==> !Carries(s.net[m], Some(t)) {
      assert MessageOk(s, m);
    }
  }

  lemma ReceiveLoginKeepsInv(s: System, t: TokenId)
    requires Inv(s)
    ensures Inv(Apply(s, ReceiveLogin(t)))
  {
    ReceiveLoginKeepsCustody(s, t);
    ReceiveLoginKeepsNotYetHeld(s, t);
    LogoutsFrame(s, Apply(s, ReceiveLogin(t)));
    if t in s.logins && s.logins[t] in s.tabs {
      TabKeepsPromises(s, s.logins[t], s.tabs[s.logins[t]].(cookie := Some(t)));
    }
  }

  lemma GiveUpKeepsCustody(s: System, m: MessageId)
    requires PromisesOk(s) && CustodyOk(s) && m in s.net && (Needed(s, m) ==> Doomed(s, s.net[m].device))
    ensures CustodyOk(GiveUp(s, m))
  {
    var after := GiveUp(s, m);
    forall x <- after.net ensures MessageOk(after, x) {
      assert MessageOk(s, x);
    }
    forall e <- after.tabs ensures CookieOk(after, e) {
      GiveUpKeepsCookie(s, m, e);
    }
  }

  lemma GiveUpKeepsCookie(s: System, m: MessageId, e: DeviceId)
    requires PromisesOk(s) && m in s.net && (Needed(s, m) ==> Doomed(s, s.net[m].device))
    requires e in s.tabs && CookieOk(s, e)
    ensures CookieOk(GiveUp(s, m), e)
  {
    var after := GiveUp(s, m);
    assert forall l <- s.logouts :: Dooms(s, l, e) ==> Dooms(after, l, e);
  }

  lemma GiveUpKeepsTabs(s: System, m: MessageId)
    requires PromisesOk(s) && TabsOk(s) && m in s.net
    ensures PromisesOk(GiveUp(s, m)) && TabsOk(GiveUp(s, m))
  {
  }

  lemma GiveUpKeepsInv(s: System, m: MessageId)
    requires Inv(s) && m in s.net && (Needed(s, m) ==> Doomed(s, s.net[m].device))
    ensures Inv(GiveUp(s, m))
  {
    GiveUpKeepsCustody(s, m);
    GiveUpKeepsTabs(s, m);
  }

  // Logouts.

  lemma SendLogoutKeepsCustody(s: System, d: DeviceId, l: MessageId)
    requires CustodyOk(s)
    ensures CustodyOk(Apply(s, SendLogout(d, l)))
  {
    var after := Apply(s, SendLogout(d, l));
    MessagesFrame(s, after);
    forall e <- after.tabs ensures CookieOk(after, e) {
      assert CookieOk(s, e);
      assert forall k <- s.logouts :: Dooms(s, k, e) ==> Dooms(after, k, e);
    }
  }

  lemma SendLogoutKeepsLogouts(s: System, d: DeviceId, l: MessageId)
    requires CustodyOk(s) && LogoutsOk(s)
    ensures LogoutsOk(Apply(s, SendLogout(d, l)))
  {
    var after := Apply(s, SendLogout(d, l));
    forall k <- after.logouts ensures LogoutOk(after, k) {
      if k in s.logouts {
        assert LogoutOk(s, k);
      } else {
        assert CookieOk(s, d);
      }
    }
  }

  lemma SendLogoutKeepsInv(s: System, d: DeviceId, l: MessageId)
    requires Inv(s)
    ensures Inv(Apply(s, SendLogout(d, l)))
  {
    SendLogoutKeepsCustody(s, d, l);
    SendLogoutKeepsLogouts(s, d, l);
  }

  lemma LogoutKeepsUsable(s: System, l: MessageId, e: DeviceId, t: TokenId)
    requires Usable(s, e, t) && l in s.logouts && s.logouts[l].sent != Some(t)
    ensures Usable(Apply(s, ServeLogout(l)), e, t)
  {
  }

  lemma LogoutKeepsMessages(s: System, l: MessageId, m: MessageId)
    requires CustodyOk(s) && NotYetHeld(s) && l in s.logouts && m in s.net && Harmless(s, ServeLogout(l))
    ensures MessageOk(Apply(s, ServeLogout(l)), m)
  {
    var message := s.net[m];
    assert MessageOk(s, m);
    assert !Carries(message, s.logouts[l].sent);
    if !s.logouts[l].served && message.answer.None? && message.sent.Some? {
      assert !Clashes(s, l, m);
      LogoutKeepsUsable(s, l, message.device, message.sent.value);
    }
    if message.answer.Some? && message.answer.value.Issued? {
      LogoutKeepsUsable(s, l, message.device, message.answer.value.token);
    }
  }

  /** The cookie of the logout is doomed now, and others stay as good as they were. */
  lemma LogoutKeepsCookies(s: System, l: MessageId, e: DeviceId)
    requires CustodyOk(s) && LogoutsOk(s) && l in s.logouts && !s.logouts[l].served && e in s.tabs
    ensures CookieOk(Apply(s, ServeLogout(l)), e)
  {
    var after := Apply(s, ServeLogout(l));
    assert CookieOk(s, e) && LogoutOk(s, l);
    assert forall k <- s.logouts :: Dooms(s, k, e) ==> Dooms(after, k, e);
    if s.tabs[e].cookie.Some? {
      var t := s.tabs[e].cookie.value;
      if s.logouts[l].sent == Some(t) {
        assert Dooms(after, l, e);
      } else if Usable(s, e, t) {
        LogoutKeepsUsable(s, l, e, t);
      }
    }
  }

  lemma LogoutKeepsCustody(s: System, l: MessageId)
    requires CustodyOk(s) && LogoutsOk(s) && NotYetHeld(s) && Harmless(s, ServeLogout(l))
    ensures CustodyOk(Apply(s, ServeLogout(l)))
  {
    var after := Apply(s, ServeLogout(l));
    if after != s {
      forall m <- after.net ensures MessageOk(after, m) {
        LogoutKeepsMessages(s, l, m);
      }
      forall e <- after.tabs ensures CookieOk(after, e) {
        LogoutKeepsCookies(s, l, e);
      }
      forall t <- s.logins ensures Usable(after, s.logins[t], t) {
        assert LogoutOk(s, l);
        LogoutKeepsUsable(s, l, s.logins[t], t);
      }
    }
  }

  lemma LogoutKeepsLogouts(s: System, l: MessageId)
    requires LogoutsOk(s)
    ensures LogoutsOk(Apply(s, ServeLogout(l)))
  {
    var after := Apply(s, ServeLogout(l));
    forall k <- after.logouts ensures LogoutOk(after, k) {
      assert LogoutOk(s, k);
    }
  }

  lemma LogoutKeepsRotated(s: System, l: MessageId)
    requires OnlyRotated(s)
    ensures OnlyRotated(Apply(s, ServeLogout(l)))
  {
  }

  lemma LogoutKeepsInv(s: System, l: MessageId)
    requires Inv(s) && Harmless(s, ServeLogout(l))
    ensures Inv(Apply(s, ServeLogout(l)))
  {
    LogoutKeepsCustody(s, l);
    LogoutKeepsLogouts(s, l);
    LogoutKeepsRotated(s, l);
  }

  lemma ReceiveLogoutKeepsCookies(s: System, l: MessageId, e: DeviceId)
    requires CustodyOk(s) && e in s.tabs
    ensures CookieOk(Apply(s, ReceiveLogout(l)), e)
  {
    var after := Apply(s, ReceiveLogout(l));
    assert CookieOk(s, e);
    if l in s.logouts && e != s.logouts[l].device {
      assert forall k <- s.logouts :: Dooms(s, k, e) ==> Dooms(after, k, e);
    }
  }

  lemma ReceiveLogoutKeepsCustody(s: System, l: MessageId)
    requires CustodyOk(s)
    ensures CustodyOk(Apply(s, ReceiveLogout(l)))
  {
    var after := Apply(s, ReceiveLogout(l));
    MessagesFrame(s, after);
    forall e <- after.tabs ensures CookieOk(after, e) {
      ReceiveLogoutKeepsCookies(s, l, e);
    }
  }

  lemma ReceiveLogoutKeepsTabs(s: System, l: MessageId)
    requires PromisesOk(s) && TabsOk(s)
    ensures PromisesOk(Apply(s, ReceiveLogout(l))) && TabsOk(Apply(s, ReceiveLogout(l)))
  {
  }

  lemma ReceiveLogoutKeepsNotYetHeld(s: System, l: MessageId)
    requires NotYetHeld(s)
    ensures NotYetHeld(Apply(s, ReceiveLogout(l)))
  {
  }

  lemma ReceiveLogoutKeepsInv(s: System, l: MessageId)
    requires Inv(s)
    ensures Inv(Apply(s, ReceiveLogout(l)))
  {
    ReceiveLogoutKeepsCustody(s, l);
    ReceiveLogoutKeepsTabs(s, l);
    ReceiveLogoutKeepsNotYetHeld(s, l);
    LogoutsFrame(s, Apply(s, ReceiveLogout(l)));
  }

  lemma LoseLogoutKeepsCookies(s: System, l: MessageId, e: DeviceId)
    requires CustodyOk(s) && Harmless(s, LoseLogout(l)) && e in s.tabs
    ensures CookieOk(Apply(s, LoseLogout(l)), e)
  {
    var after := Apply(s, LoseLogout(l));
    assert CookieOk(s, e);
    if Doomed(s, e) {
      if k :| k in s.logouts && Dooms(s, k, e) && k != l {
        assert Dooms(after, k, e);
      }
    }
  }

  lemma LoseLogoutKeepsInv(s: System, l: MessageId)
    requires Inv(s) && Harmless(s, LoseLogout(l))
    ensures Inv(Apply(s, LoseLogout(l)))
  {
    var after := Apply(s, LoseLogout(l));
    MessagesFrame(s, after);
    LogoutsFrame(s, after);
    forall e <- after.tabs ensures CookieOk(after, e) {
      LoseLogoutKeepsCookies(s, l, e);
    }
  }

  /** The steps that concern one tab and send nothing. */
  predicate StaysInTab(step: Step) {
    step.Open? || step.Request? || step.Success? || step.ResumeCall? || step.RunFinally?
  }

  lemma TabStepKeepsInv(s: System, step: Step)
    requires Inv(s) && StaysInTab(step)
    ensures Inv(Apply(s, step))
  {
    var d := step.d;
    if step.Open? {
      if d !in s.tabs {
        TabKeepsInv(s, d, NEW_TAB);
      }
    } else if d in s.tabs {
      if step.RunFinally? {
        PromiseHandlersKeepCalls(s.tabs[d], 0, Rejected);
      } else {
        CallHandlersKeepCalls(s.tabs[d], step.c, 0);
      }
      TabKeepsInv(s, d, Apply(s, step).tabs[d]);
    }
  }

  lemma PostKeepsInv(s: System, step: Step)
    requires Inv(s) && Harmless(s, step) && (step.Denied? || step.RefreshNow?)
    ensures Inv(Apply(s, step))
  {
    var d, m := step.d, step.m;
    if d in s.tabs && m !in s.net {
      if step.Denied? {
        CallHandlersKeepCalls(s.tabs[d], step.c, m);
        PostingKeepsInv(s, d, m, Unauthorized(s.tabs[d], step.c, m));
      } else {
        PromiseHandlersKeepCalls(s.tabs[d], m, Rejected);
        PostingKeepsInv(s, d, m, StartRefresh(s.tabs[d], m));
      }
    }
  }

  lemma LossKeepsInv(s: System, step: Step)
    requires Inv(s) && Harmless(s, step) && (step.LoseRequest? || step.DropAnswer?)
    ensures Inv(Apply(s, step))
  {
    if Apply(s, step) != s {
      GiveUpKeepsInv(s, step.m);
    }
  }

  lemma ApplyKeepsInv(s: System, step: Step)
    requires Inv(s) && Harmless(s, step)
    ensures Inv(Apply(s, step))
  {
    match step
    case ServeRefresh(m, now, issued) => ServeKeepsInv(s, m, now, issued);
    case ReceiveAnswer(m) => ReceiveKeepsInv(s, m);
    case ServeLogin(d, user, now, issued) => LoginKeepsInv(s, d, user, now, issued);
    case ReceiveLogin(t) => ReceiveLoginKeepsInv(s, t);
    case Denied(_, _, _) => PostKeepsInv(s, step);
    case RefreshNow(_, _) => PostKeepsInv(s, step);
    case LoseRequest(_) => LossKeepsInv(s, step);
    case DropAnswer(_) => LossKeepsInv(s, step);
    case SendLogout(d, l) => SendLogoutKeepsInv(s, d, l);
    case ServeLogout(l) => LogoutKeepsInv(s, l);
    case ReceiveLogout(l) => ReceiveLogoutKeepsInv(s, l);
    case LoseLogout(l) => LoseLogoutKeepsInv(s, l);
    case _ => TabStepKeepsInv(s, step);
  }

  lemma {:induction false} RunKeepsInv(s: System, steps: seq<Step>)
    requires Inv(s) && AllHarmless(s, steps)
    ensures Inv(Run(s, steps))
    decreases |steps|
  {
    if steps != [] {
      ApplyKeepsInv(s, steps[0]);
      RunKeepsInv(Apply(s, steps[0]), steps[1..]);
    }
  }

  // ---------------------------------------------------------------------------
  // Results
  // ---------------------------------------------------------------------------

  /** Over harmless steps, a browser has at most one refresh under way, the server is never shown a
      revoked token, so it revokes no token that was not exchanged or given up; and every API request
      is sent at most twice. */
  lemma SingleFlightIsSafe(steps: seq<Step>)
    requires AllHarmless(START, steps)
    ensures var s := Run(START, steps);
      && s.replays == 0
      && (forall m <- s.net, n <- s.net :: s.net[m].device == s.net[n].device ==> m == n)
      && (forall t <- s.tokens :: s.tokens[t].revoked ==> s.tokens[t].rotatedAt.Some? || t in s.ended)
      && (forall d <- s.tabs, c <- s.tabs[d].calls :: s.tabs[d].calls[c].sends <= 2)
  {
    RunKeepsInv(START, steps);
    var s := Run(START, steps);
    forall d <- s.tabs, c <- s.tabs[d].calls ensures s.tabs[d].calls[c].sends <= 2 {
      assert CallsOk(s.tabs[d]);
    }
  }

  /** The refresh that a 401 sends, and what the server makes of it. */
  lemma RefreshIsServed(s: System, d: DeviceId, c: CallId, m: MessageId, now: Time, issued: TokenId)
    requires d in s.tabs && s.tabs[d].promise == NoPromise && m !in s.net && issued !in s.tokens
    requires c in s.tabs[d].calls && s.tabs[d].calls[c] == Call(Sent, false, 1)
    requires s.tabs[d].cookie.Some? && s.tabs[d].cookie.value in s.tokens
    requires !s.tokens[s.tabs[d].cookie.value].revoked && now < s.tokens[s.tabs[d].cookie.value].expiresAt
    ensures var served, t := Apply(Apply(s, Denied(d, c, m)), ServeRefresh(m, now, issued)), s.tabs[d].cookie.value;
      && served.tokens == DoRefresh(s.tokens, now, Some(t), issued).tokens && served.replays == s.replays
      && m in served.net && served.net[m] == Message(d, Some(t), Some(Issued(s.tokens[t].user, issued)))
      && served.tabs == s.tabs[d := Unauthorized(s.tabs[d], c, m)]
  {
    var t := s.tabs[d].cookie.value;
    var posted := Apply(s, Denied(d, c, m));
    assert posted.net[m] == Message(d, Some(t), None) && posted.tokens == s.tokens;
    ExchangeIs(s.tokens, now, t, issued);
  }

  /** What the browser makes of the answer. */
  lemma AnswerIsUsed(s: System, d: DeviceId, c: CallId, m: MessageId)
    requires d in s.tabs && m in s.net && s.net[m].device == d && s.net[m].answer.Some?
    ensures var after := Apply(Apply(Apply(s, ReceiveAnswer(m)), RunFinally(d)), ResumeCall(d, c));
      && after.tokens == s.tokens && after.replays == s.replays && m !in after.net && d in after.tabs
      && after.tabs[d] == Resume(Finally(Receive(s.tabs[d], m, s.net[m].answer.value)), c)
  {
    var received := Apply(s, ReceiveAnswer(m));
    assert received.tabs[d] == Receive(s.tabs[d], m, s.net[m].answer.value) && m !in received.net;
    var cleared := Apply(received, RunFinally(d));
    assert cleared.tabs[d] == Finally(received.tabs[d]) && cleared.net == received.net;
  }

  /** What all this is for: a browser with a valid cookie whose request is answered 401 gets a new token,
      good for thirty days, and sends the request again. */
  lemma RefreshRound(s: System, d: DeviceId, c: CallId, m: MessageId, now: Time, issued: TokenId)
    requires d in s.tabs && s.tabs[d].promise == NoPromise && m !in s.net && issued !in s.tokens
    requires c in s.tabs[d].calls && s.tabs[d].calls[c] == Call(Sent, false, 1)
    requires s.tabs[d].cookie.Some? && s.tabs[d].cookie.value in s.tokens
    requires !s.tokens[s.tabs[d].cookie.value].revoked && now < s.tokens[s.tabs[d].cookie.value].expiresAt
    ensures var t := s.tabs[d].cookie.value;
      var served := Apply(Apply(s, Denied(d, c, m)), ServeRefresh(m, now, issued));
      var after := Apply(Apply(Apply(served, ReceiveAnswer(m)), RunFinally(d)), ResumeCall(d, c));
      && d in after.tabs && after.tabs[d].cookie == Some(issued) && after.tabs[d].promise == NoPromise
      && c in after.tabs[d].calls && after.tabs[d].calls[c] == Call(Sent, true, 2)
      && m !in after.net && after.replays == s.replays
      && t in after.tokens && after.tokens[t].revoked && issued in after.tokens
      && after.tokens[issued] == Token(s.tokens[t].user, now + 2_592_000_000_000, false, None)
  {
    var t := s.tabs[d].cookie.value;
    var served := Apply(Apply(s, Denied(d, c, m)), ServeRefresh(m, now, issued));
    RefreshIsServed(s, d, c, m, now, issued);
    AnswerIsUsed(served, d, c, m);
    ExchangeIs(s.tokens, now, t, issued);
    RetryRound(s.tabs[d], c, m, Issued(s.tokens[t].user, issued), m);
  }

  /** A login leaves the browser with a new token, good for thirty days. */
  lemma LoginRound(s: System, d: DeviceId, user: UserId, now: Time, issued: TokenId)
    requires d in s.tabs && issued !in s.tokens
    ensures var served := Apply(s, ServeLogin(d, user, now, issued));
      var after := Apply(served, ReceiveLogin(issued));
      && after.tokens == s.tokens[issued := Token(user, now + 2_592_000_000_000, false, None)]
      && d in after.tabs && after.tabs[d] == s.tabs[d].(cookie := Some(issued))
  {
    LoginIs(s.tokens, now, user, issued);
  }

  /** A logout leaves it with none, and the token revoked. */
  lemma LogoutRound(s: System, d: DeviceId, l: MessageId)
    requires d in s.tabs && l !in s.logouts
    ensures var after := Apply(Apply(Apply(s, SendLogout(d, l)), ServeLogout(l)), ReceiveLogout(l));
      && d in after.tabs && after.tabs[d] == s.tabs[d].(cookie := None)
      && after.tokens.Keys == s.tokens.Keys
      && forall t <- s.tokens :: after.tokens[t] == if s.tabs[d].cookie == Some(t) then s.tokens[t].(revoked := true) else s.tokens[t]
  {
    var sent := Apply(s, SendLogout(d, l));
    assert sent.logouts[l] == Leave(d, s.tabs[d].cookie, false);
    var served := Apply(sent, ServeLogout(l));
    assert served.logouts[l] == Leave(d, s.tabs[d].cookie, true) && served.tabs == s.tabs;
  }

  /** A tab without a refresh under way shows the server an exchanged token. */
  lemma ShowAgain(s: System, d: DeviceId, next: MessageId, now: Time, issued: TokenId)
    requires d in s.tabs && s.tabs[d].promise == NoPromise && next !in s.net
    requires ShowsRevoked(s.tokens, s.tabs[d].cookie)
    ensures var t := s.tabs[d].cookie.value;
      var after := Apply(Apply(s, RefreshNow(d, next)), ServeRefresh(next, now, issued));
      && after.replays == s.replays + 1
      && after.tokens == if InGrace(s.tokens[t], now) then s.tokens else RevokeAll(s.tokens, s.tokens[t].user)
  {
    var again := Apply(s, RefreshNow(d, next));
    assert again.net[next] == Message(d, s.tabs[d].cookie, None);
  }

  /** One needed response lost is enough to break this.  The tab still holds the exchanged token; when its
      next refresh is served, all of the user's tokens go, unless the exchange was at most five
      seconds ago. */
  lemma LostResponse(s: System, m: MessageId, next: MessageId, now: Time, issued: TokenId)
    requires Inv(s) && Needed(s, m) && next !in s.net
    ensures var d, t := s.net[m].device, s.net[m].sent.value;
      var lost := Apply(Apply(s, DropAnswer(m)), RunFinally(d));
      var after := Apply(Apply(lost, RefreshNow(d, next)), ServeRefresh(next, now, issued));
      && after.replays == 1
      && t in s.tokens && s.tokens[t].rotatedAt.Some?
      && after.tokens ==
           if now - s.tokens[t].rotatedAt.value <= GRACE then s.tokens else RevokeAll(s.tokens, s.tokens[t].user)
  {
    assert MessageOk(s, m);
    var d := s.net[m].device;
    var dropped := Apply(s, DropAnswer(m));
    assert dropped.tabs[d].promise == Settling(false);
    ShowAgain(Apply(dropped, RunFinally(d)), d, next, now, issued);
  }

  /** So is a logout while a refresh with its cookie is under way: the refresh then shows the server a
      token that was revoked but never exchanged, and whenever it is served all of the user's tokens go. */
  lemma LogoutDuringRefresh(s: System, l: MessageId, m: MessageId, now: Time, issued: TokenId)
    requires Inv(s) && Clashes(s, l, m)
    ensures var t := s.logouts[l].sent.value;
      var after := Apply(Apply(s, ServeLogout(l)), ServeRefresh(m, now, issued));
      && after.replays == 1
      && t in s.tokens && AllRevoked(after.tokens, s.tokens[t].user)
  {
    assert MessageOk(s, m);
    var t := s.logouts[l].sent.value;
    var out := Apply(s, ServeLogout(l));
    assert out.tokens[t] == s.tokens[t].(revoked := true) && out.net == s.net;
  }

  /** And so is the other order: a logout has been served and its response is under way, and the tab,
      after a 401 or on its own, sends a refresh.  Unless the token was exchanged at most five seconds
      ago, everything goes. */
  lemma RefreshDuringLogout(s: System, d: DeviceId, m: MessageId, now: Time, issued: TokenId)
    requires Inv(s) && Doomed(s, d) && s.tabs[d].promise == NoPromise && m !in s.net
    ensures var t := s.tabs[d].cookie.value;
      var after := Apply(Apply(s, RefreshNow(d, m)), ServeRefresh(m, now, issued));
      && after.replays == 1 && t in s.tokens
      && after.tokens == if InGrace(s.tokens[t], now) then s.tokens else RevokeAll(s.tokens, s.tokens[t].user)
  {
    DoomedIsRevoked(s, d);
    ShowAgain(s, d, m, now, issued);
  }

  lemma DoomedIsRevoked(s: System, d: DeviceId)
    requires LogoutsOk(s) && Doomed(s, d)
    ensures ShowsRevoked(s.tokens, s.tabs[d].cookie)
  {
    var l :| l in s.logouts && Dooms(s, l, d);
    assert LogoutOk(s, l);
  }

  // ---------------------------------------------------------------------------
  // Exactly the harmless steps are safe
  // ---------------------------------------------------------------------------

  /** Whatever harmless steps follow, the server is never shown a revoked token. */
  ghost predicate Safe(s: System) {
    forall steps: seq<Step> :: AllHarmless(s, steps) ==> Run(s, steps).replays == 0
  }

  lemma InvIsSafe(s: System)
    requires Inv(s)
    ensures Safe(s)
  {
    forall steps: seq<Step> | AllHarmless(s, steps) ensures Run(s, steps).replays == 0 {
      RunKeepsInv(s, steps);
    }
  }

  lemma ReplayIsUnsafe(s: System)
    requires s.replays != 0
    ensures !Safe(s)
  {
    assert AllHarmless(s, []) && Run(s, []) == s;
  }

  lemma UnsafeBefore(s: System, step: Step)
    requires Harmless(s, step) && !Safe(Apply(s, step))
    ensures !Safe(s)
  {
    var rest: seq<Step> :| AllHarmless(Apply(s, step), rest) && Run(Apply(s, step), rest).replays != 0;
    var steps := [step] + rest;
    assert steps[1..] == rest;
    assert AllHarmless(s, steps) && Run(s, steps).replays != 0;
  }

  /** A refresh with a revoked token, once sent, can be served. */
  lemma RevokedUnderWayIsUnsafe(s: System, m: MessageId)
    requires m in s.net && s.net[m].answer.None? && ShowsRevoked(s.tokens, s.net[m].sent)
    ensures !Safe(s)
  {
    ReplayIsUnsafe(Apply(s, ServeRefresh(m, 0, 0)));
    UnsafeBefore(s, ServeRefresh(m, 0, 0));
  }

  /** The browser holds a revoked cookie, and nothing under way will replace or clear it. */
  predicate Stranded(s: System, d: DeviceId) {
    && d in s.tabs && ShowsRevoked(s.tokens, s.tabs[d].cookie)
    && !Replaced(s, d, s.tabs[d].cookie.value) && !Doomed(s, d)
  }

  lemma IdleIsUnsafe(s: System, d: DeviceId)
    requires Stranded(s, d) && s.tabs[d].promise == NoPromise
    ensures !Safe(s)
  {
    var m := FreshMessage(s.net);
    var posted := Apply(s, RefreshNow(d, m));
    assert posted.net[m] == Message(d, s.tabs[d].cookie, None);
    RevokedUnderWayIsUnsafe(posted, m);
    UnsafeBefore(s, RefreshNow(d, m));
  }

  lemma SettlingIsUnsafe(s: System, d: DeviceId)
    requires Stranded(s, d) && s.tabs[d].promise.Settling?
    ensures !Safe(s)
  {
    var after := Apply(s, RunFinally(d));
    assert forall l <- s.logouts :: Dooms(after, l, d) ==> Dooms(s, l, d);
    IdleIsUnsafe(after, d);
    UnsafeBefore(s, RunFinally(d));
  }

  lemma GivenUpIsUnsafe(s: System, d: DeviceId, m: MessageId)
    requires Stranded(s, d) && s.tabs[d].promise == InFlight(m) && m in s.net && s.net[m].device == d
    ensures !Safe(GiveUp(s, m))
  {
    var after := GiveUp(s, m);
    assert forall l <- s.logouts :: Dooms(after, l, d) ==> Dooms(s, l, d);
    SettlingIsUnsafe(after, d);
  }

  lemma StrandedIsUnsafe(s: System, d: DeviceId)
    requires PromisesOk(s) && Stranded(s, d)
    ensures !Safe(s)
  {
    if s.tabs[d].promise == NoPromise {
      IdleIsUnsafe(s, d);
    } else if s.tabs[d].promise.Settling? {
      SettlingIsUnsafe(s, d);
    } else {
      var m := s.tabs[d].promise.message;
      GivenUpIsUnsafe(s, d, m);
      if s.net[m].answer.None? {
        UnsafeBefore(s, LoseRequest(m));
      } else {
        UnsafeBefore(s, DropAnswer(m));
      }
    }
  }

  lemma FreshMessage(net: map<MessageId, Message>) returns (m: MessageId)
    ensures m !in net
  {
    m := AboveAll(net.Keys);
  }

  lemma {:induction false} AboveAll(ids: set<MessageId>) returns (m: MessageId)
    ensures forall x <- ids :: x < m
    decreases ids
  {
    m := 0;
    if ids != {} {
      var x :| x in ids;
      var rest := AboveAll(ids - {x});
      m := if x < rest then rest else x + 1;
      assert forall y <- ids :: y == x || y in ids - {x};
    }
  }

  lemma LosingAnswerIsUnsafe(s: System, m: MessageId)
    requires Inv(s) && !Harmless(s, DropAnswer(m))
    ensures !Safe(Apply(s, DropAnswer(m)))
  {
    assert MessageOk(s, m);
    var d, after := s.net[m].device, Apply(s, DropAnswer(m));
    assert forall l <- s.logouts :: Dooms(after, l, d) ==> Dooms(s, l, d);
    SettlingIsUnsafe(after, d);
  }

  lemma LosingLogoutIsUnsafe(s: System, l: MessageId)
    requires Inv(s) && !Harmless(s, LoseLogout(l))
    ensures !Safe(Apply(s, LoseLogout(l)))
  {
    var d, after := s.logouts[l].device, Apply(s, LoseLogout(l));
    DoomedIsRevoked(s, d);
    assert forall k <- after.logouts :: Dooms(after, k, d) ==> Dooms(s, k, d);
    StrandedIsUnsafe(after, d);
  }

  lemma ServingLogoutIsUnsafe(s: System, l: MessageId)
    requires Inv(s) && !Harmless(s, ServeLogout(l))
    ensures !Safe(Apply(s, ServeLogout(l)))
  {
    var m :| m in s.net && Clashes(s, l, m);
    assert MessageOk(s, m);
    RevokedUnderWayIsUnsafe(Apply(s, ServeLogout(l)), m);
  }

  lemma PostingIsUnsafe(s: System, d: DeviceId, m: MessageId, tab: Tab)
    requires Inv(s) && Posts(s, d, m, tab) && Doomed(s, d) && tab.cookie == s.tabs[d].cookie
    ensures !Safe(Posting(s, d, m, tab))
  {
    DoomedIsRevoked(s, d);
    RevokedUnderWayIsUnsafe(Posting(s, d, m, tab), m);
  }

  /** The steps left out are exactly the ones that cost safety: after any other step no harmless
      continuation shows the server a revoked token, and after one of them some does. */
  lemma HarmlessIff(s: System, step: Step)
    requires Inv(s)
    ensures Safe(Apply(s, step)) <==> Harmless(s, step)
  {
    if Harmless(s, step) {
      ApplyKeepsInv(s, step);
      InvIsSafe(Apply(s, step));
    } else {
      match step
      case Denied(d, c, m) => PostingIsUnsafe(s, d, m, Unauthorized(s.tabs[d], c, m));
      case RefreshNow(d, m) => PostingIsUnsafe(s, d, m, StartRefresh(s.tabs[d], m));
      case DropAnswer(m) => LosingAnswerIsUnsafe(s, m);
      case ServeLogout(l) => ServingLogoutIsUnsafe(s, l);
      case LoseLogout(l) => LosingLogoutIsUnsafe(s, l);
    }
  }
}
