/** The browser side of token refresh: one shared promise per tab, and one retry per request. */
module ApiClient {
  import opened Basics
  import opened RefreshTokens

  type CallId = nat
  type MessageId = nat

  /** Where an API request stands.  `Sent` is waiting for the server, `Refreshing` for the shared
      promise, `Settled` for its turn after the promise settled. */
  datatype Phase = Sent | Refreshing | Settled(ok: bool) | Finished(ok: bool)

  datatype Call = Call(phase: Phase, retried: bool, sends: nat)

  /** `refreshPromise`: null, a request under way, or settled with its `finally` still to run. */
  datatype Promise = NoPromise | InFlight(message: MessageId) | Settling(ok: bool)

  /** One tab: the cookie the browser holds for it, the promise, and its requests. */
  datatype Tab = Tab(cookie: Option<TokenId>, promise: Promise, calls: map<CallId, Call>)

  const NEW_TAB := Tab(None, NoPromise, map[])

  function StartRefresh(tab: Tab, message: MessageId): Tab {
    if tab.promise == NoPromise then tab.(promise := InFlight(message)) else tab
  }

  function Send(tab: Tab, c: CallId): Tab {
    if c in tab.calls then tab else tab.(calls := tab.calls[c := Call(Sent, false, 1)])
  }

  function Succeed(tab: Tab, c: CallId): Tab {
    if c in tab.calls && tab.calls[c].phase == Sent
    then tab.(calls := tab.calls[c := tab.calls[c].(phase := Finished(true))]) else tab
  }

  /** A 401: the first time join or start the refresh, the second time give up. */
  function Unauthorized(tab: Tab, c: CallId, message: MessageId): Tab {
    if c !in tab.calls || tab.calls[c].phase != Sent then tab
    else if tab.calls[c].retried then tab.(calls := tab.calls[c := tab.calls[c].(phase := Finished(false))])
    else StartRefresh(tab.(calls := tab.calls[c := tab.calls[c].(phase := Refreshing, retried := true)]), message)
  }

  /** The response to a refresh: the browser stores the cookie, then the promise settles. */
  function Receive(tab: Tab, message: MessageId, answer: Answer): Tab {
    if tab.promise != InFlight(message) then tab
    else tab.(cookie := if answer.Issued? then Some(answer.token) else tab.cookie, promise := Settling(answer.Issued?))
  }

  /** No response will come: the promise settles without one. */
  function Lose(tab: Tab, message: MessageId): Tab {
    if tab.promise != InFlight(message) then tab else tab.(promise := Settling(false))
  }

  /** The promise's `finally`, after which everyone who awaited it may go on. */
  function Finally(tab: Tab): Tab {
    if !tab.promise.Settling? then tab
    else tab.(promise := NoPromise, calls := map c | c in tab.calls ::
      if tab.calls[c].phase == Refreshing then tab.calls[c].(phase := Settled(tab.promise.ok)) else tab.calls[c])
  }

  /** Send the request again with the new token, or give up with the refresh. */
  function Resume(tab: Tab, c: CallId): Tab {
    if c !in tab.calls || !tab.calls[c].phase.Settled? then tab
    else if tab.calls[c].phase.ok then
      tab.(calls := tab.calls[c := tab.calls[c].(phase := Sent, sends := tab.calls[c].sends + 1)])
    else tab.(calls := tab.calls[c := tab.calls[c].(phase := Finished(false))])
  }

  /** A request is sent at most twice, the second time only after its one retry; whoever waits for
      a refresh has a promise that is still to settle. */
  predicate CallOk(call: Call, promise: Promise) {
    && 1 <= call.sends <= (if call.retried then 2 else 1)
    && (call.phase.Refreshing? || call.phase.Settled? ==> call.retried && call.sends == 1)
    && (call.phase.Refreshing? ==> promise != NoPromise)
  }

  ghost predicate CallsOk(tab: Tab) {
    forall c <- tab.calls :: CallOk(tab.calls[c], tab.promise)
  }

  lemma CallHandlersKeepCalls(tab: Tab, c: CallId, m: MessageId)
    requires CallsOk(tab)
    ensures CallsOk(Send(tab, c)) && CallsOk(Succeed(tab, c)) && CallsOk(Resume(tab, c))
    ensures CallsOk(Unauthorized(tab, c, m))
  {
    assert c in tab.calls ==> CallOk(tab.calls[c], tab.promise);
  }

  lemma PromiseHandlersKeepCalls(tab: Tab, m: MessageId, answer: Answer)
    requires CallsOk(tab)
    ensures CallsOk(StartRefresh(tab, m)) && CallsOk(Receive(tab, m, answer)) && CallsOk(Finally(tab))
  {
    forall c <- tab.calls ensures CallOk(Finally(tab).calls[c], Finally(tab).promise) {
      assert CallOk(tab.calls[c], tab.promise);
    }
  }

  /** A request that is answered 401, and then comes back from a refresh.  It is sent again, once, with
      the cookie replaced; a second 401 is its end, and so is a refresh that is rejected. */
  lemma RetryRound(tab: Tab, c: CallId, m: MessageId, answer: Answer, n: MessageId)
    requires c in tab.calls && tab.calls[c] == Call(Sent, false, 1) && tab.promise == NoPromise
    ensures var waiting := Unauthorized(tab, c, m);
      && waiting.promise == InFlight(m) && waiting.calls[c].phase == Refreshing && waiting.cookie == tab.cookie
      && var back := Resume(Finally(Receive(waiting, m, answer)), c);
         && back.promise == NoPromise
         && (answer.Issued? ==>
               back.cookie == Some(answer.token) && back.calls[c] == Call(Sent, true, 2)
               && Unauthorized(back, c, n).calls[c].phase == Finished(false) && Unauthorized(back, c, n).promise == NoPromise
               && Succeed(back, c).calls[c].phase == Finished(true))
         && (!answer.Issued? ==> back.cookie == tab.cookie && back.calls[c] == Call(Finished(false), true, 1))
  {
  }

  /** A request answered 401 while a refresh is under way waits for that one. */
  lemma JoinsTheRefresh(tab: Tab, c: CallId, m: MessageId, n: MessageId)
    requires c in tab.calls && tab.calls[c] == Call(Sent, false, 1) && tab.promise == InFlight(m)
    ensures Unauthorized(tab, c, n).promise == InFlight(m) && Unauthorized(tab, c, n).calls[c] == Call(Refreshing, true, 1)
  {
  }

  // ---------------------------------------------------------------------------
  // The module variables and their handlers
  // ---------------------------------------------------------------------------

  class Client {
    var cookie: Option<TokenId>
    var refreshPromise: Promise
    var calls: map<CallId, Call>

    constructor ()
      ensures State() == NEW_TAB
    {
      cookie, refreshPromise, calls := None, NoPromise, map[];
    }

    function State(): Tab
      reads this
    {
      Tab(cookie, refreshPromise, calls)
    }

    /** Start a refresh unless one is under way; says whether a request goes out, and with what cookie. */
    method RefreshAccessToken(message: MessageId) returns (posted: bool, sent: Option<TokenId>)
      modifies this
      ensures State() == StartRefresh(old(State()), message)
      ensures posted == (old(refreshPromise) == NoPromise)
      ensures sent == cookie == old(cookie)
    {
      posted, sent := refreshPromise == NoPromise, cookie;
      if posted {
        refreshPromise := InFlight(message);
      }
    }

    method OnUnauthorized(c: CallId, message: MessageId) returns (posted: bool)
      modifies this
      ensures State() == Unauthorized(old(State()), c, message)
      ensures posted ==> old(refreshPromise) == NoPromise && refreshPromise == InFlight(message)
      ensures !posted ==> refreshPromise == old(refreshPromise)
    {
      posted := false;
      if c !in calls || calls[c].phase != Sent {
        return;
      }
      if calls[c].retried {
        calls := calls[c := calls[c].(phase := Finished(false))];
        return;
      }
      calls := calls[c := calls[c].(retried := true)];
      calls := calls[c := calls[c].(phase := Refreshing)];
      var sent: Option<TokenId>;
      posted, sent := RefreshAccessToken(message);
    }

    method OnRefreshResponse(message: MessageId, answer: Answer)
      modifies this
      ensures State() == Receive(old(State()), message, answer)
    {
      if refreshPromise == InFlight(message) {
        if answer.Issued? {
          cookie := Some(answer.token);
        }
        refreshPromise := Settling(answer.Issued?);
      }
    }

    method OnFinally()
      modifies this
      ensures State() == Finally(old(State()))
    {
      if refreshPromise.Settling? {
        var ok := refreshPromise.ok;
        refreshPromise := NoPromise;
        calls := map c | c in calls :: if calls[c].phase == Refreshing then calls[c].(phase := Settled(ok)) else calls[c];
      }
    }

    method OnResume(c: CallId)
      modifies this
      ensures State() == Resume(old(State()), c)
    {
      if c !in calls || !calls[c].phase.Settled? {
        return;
      }
      if calls[c].phase.ok {
        calls := calls[c := calls[c].(phase := Sent, sends := calls[c].sends + 1)];
      } else {
        calls := calls[c := calls[c].(phase := Finished(false))];
      }
    }
  }
}
