/** One invitation under concurrent accepts, revokes and resends.

    Each request is a transaction: it reads the committed row, later writes, and commits or fails.
    A write to the row takes its lock and is judged against the row as last committed; an insert of
    a member waits for any other transaction that is inserting the same member.  Nothing a
    transaction wrote is seen before it commits, and all of it is seen at once. */
module InvitationRace {
  import opened HouseholdModel

  type TxId = nat

  /** The stored row, as far as its status goes; `accepted` and `revoked` say which stamps are set. */
  datatype Row = Row(status: Status, accepted: bool, revoked: bool)

  datatype Tx =
    | AcceptRead(user: UserId)      // saw an open invitation, room, and no membership
    | AcceptInserted(user: UserId)  // inserted the member row
    | AcceptWon(user: UserId)       // the conditional update matched; the row is locked
    | RevokeRead                    // saw a row that was not accepted
    | RevokeWritten                 // row locked
    | ResendRead
    | ResendWritten                 // row locked
    | Committed
    | Failed

  datatype State = State(row: Row, members: set<UserId>, txs: map<TxId, Tx>, accepts: nat, resends: nat)

  datatype Step =
    | BeginAccept(t: TxId, user: UserId)
    | BeginRevoke(t: TxId)
    | BeginResend(t: TxId)
    | Insert(t: TxId)
    | Update(t: TxId)
    | Commit(t: TxId)
    | Abort(t: TxId)

  predicate Open(row: Row) {
    row.status == Pending || row.status == Declined
  }

  predicate HoldsLock(tx: Tx) {
    tx.AcceptWon? || tx.RevokeWritten? || tx.ResendWritten?
  }

  predicate Inserting(tx: Tx) {
    tx.AcceptInserted? || tx.AcceptWon?
  }

  predicate RowFree(s: State) {
    forall t <- s.txs :: !HoldsLock(s.txs[t])
  }

  predicate InsertFree(s: State, u: UserId) {
    forall t <- s.txs :: Inserting(s.txs[t]) ==> s.txs[t].user != u
  }

  function Move(s: State, t: TxId, tx: Tx): State {
    s.(txs := s.txs[t := tx])
  }

  /** A step that is not enabled, such as a write that has to wait, changes nothing. */
  function Apply(s: State, step: Step): State {
    match step
    case BeginAccept(t, u) =>
      if t in s.txs then s
      else if Open(s.row) && u !in s.members && |s.members| < MEMBER_LIMIT then Move(s, t, AcceptRead(u))
      else Move(s, t, Failed)
    case BeginRevoke(t) =>
      if t in s.txs then s else Move(s, t, if s.row.status == Accepted then Failed else RevokeRead)
    case BeginResend(t) =>
      if t in s.txs then s else Move(s, t, if s.row.status == Accepted then Failed else ResendRead)
    case Insert(t) =>
      if t !in s.txs || !s.txs[t].AcceptRead? || !InsertFree(s, s.txs[t].user) then s
      else if s.txs[t].user in s.members then Move(s, t, Failed)
      else Move(s, t, AcceptInserted(s.txs[t].user))
    case Update(t) =>
      if t !in s.txs || !RowFree(s) then s
      else match s.txs[t] {
        case AcceptInserted(u) => Move(s, t, if Open(s.row) then AcceptWon(u) else Failed)
        case RevokeRead => Move(s, t, RevokeWritten)
        case ResendRead => Move(s, t, ResendWritten)
        case _ => s
      }
    case Commit(t) =>
      if t !in s.txs then s
      else match s.txs[t] {
        case AcceptWon(u) =>
          Move(s, t, Committed).(row := s.row.(status := Accepted, accepted := true),
                                 members := s.members + {u}, accepts := s.accepts + 1)
        case RevokeWritten => Move(s, t, Committed).(row := s.row.(status := Revoked, revoked := true))
        case ResendWritten =>
          Move(s, t, Committed).(row := Row(Pending, false, false), resends := s.resends + 1)
        case _ => s
      }
    case Abort(t) =>
      if t !in s.txs || s.txs[t].Committed? then s else Move(s, t, Failed)
  }

  function Run(s: State, steps: seq<Step>): State
    decreases |steps|
  {
    if steps == [] then s else Run(Apply(s, steps[0]), steps[1..])
  }

  function Start(members: set<UserId>): State {
    State(Row(Pending, false, false), members, map[], 0, 0)
  }

  // ---------------------------------------------------------------------------
  // Invariant
  // ---------------------------------------------------------------------------

  ghost predicate Inv(s: State, initial: set<UserId>) {
    // each closing of the row by an accept is paid for by the first issue or by a resend
    && s.accepts <= s.resends + (if Open(s.row) then 0 else 1)
    // exactly the winners joined
    && initial <= s.members && |s.members| == |initial| + s.accepts
    // one writer at a time, and an accept wins only an open row, which then stays as it is
    && (forall t <- s.txs, v <- s.txs :: HoldsLock(s.txs[t]) && HoldsLock(s.txs[v]) ==> t == v)
    && (forall t <- s.txs :: s.txs[t].AcceptWon? ==> Open(s.row))
    // pending member rows are distinct from each other and from the committed ones
    && (forall t <- s.txs, v <- s.txs ::
          Inserting(s.txs[t]) && Inserting(s.txs[v]) && s.txs[t].user == s.txs[v].user ==> t == v)
    && (forall t <- s.txs :: Inserting(s.txs[t]) ==> s.txs[t].user !in s.members)
    // time stamps
    && (s.row.revoked <==> s.row.status == Revoked)
    && (s.row.status == Accepted ==> s.row.accepted)
    && (s.row.accepted ==> s.row.status == Accepted || s.row.status == Revoked)
  }

  lemma MoveKeepsInv(s: State, t: TxId, tx: Tx, initial: set<UserId>)
    requires Inv(s, initial)
    requires HoldsLock(tx) ==> RowFree(s)
    requires tx.AcceptWon? ==> Open(s.row)
    requires Inserting(tx) ==> tx.user !in s.members
    requires Inserting(tx) ==> InsertFree(s, tx.user) || (t in s.txs && s.txs[t] == AcceptInserted(tx.user))
    ensures Inv(Move(s, t, tx), initial)
  {
  }

  lemma CommitKeepsInv(s: State, t: TxId, initial: set<UserId>)
    requires Inv(s, initial)
    ensures Inv(Apply(s, Commit(t)), initial)
  {
    if t in s.txs && HoldsLock(s.txs[t]) {
      MoveKeepsInv(s, t, Committed, initial);
    }
  }

  lemma ApplyKeepsInv(s: State, step: Step, initial: set<UserId>)
    requires Inv(s, initial)
    ensures Inv(Apply(s, step), initial)
  {
    var after := Apply(s, step);
    if step.Commit? {
      CommitKeepsInv(s, step.t, initial);
    } else if after != s {
      assert after == Move(s, step.t, after.txs[step.t]);
      MoveKeepsInv(s, step.t, after.txs[step.t], initial);
    }
  }

  lemma {:induction false} RunKeepsInv(s: State, steps: seq<Step>, initial: set<UserId>)
    requires Inv(s, initial)
    ensures Inv(Run(s, steps), initial)
    decreases |steps|
  {
    if steps != [] {
      ApplyKeepsInv(s, steps[0], initial);
      RunKeepsInv(Apply(s, steps[0]), steps[1..], initial);
    }
  }

  // ---------------------------------------------------------------------------
  // Results
  // ---------------------------------------------------------------------------

  /** However the steps interleave: committed accepts never exceed one plus the resends, and the
      members are the initial ones plus exactly one per committed accept. */
  lemma AcceptsAreBounded(members: set<UserId>, steps: seq<Step>)
    ensures var s := Run(Start(members), steps);
      s.accepts <= 1 + s.resends && members <= s.members && |s.members| == |members| + s.accepts
  {
    RunKeepsInv(Start(members), steps, members);
  }

  /** The commit of a resend that finds the accepted stamp, and clears it. */
  predicate Reopens(s: State, step: Step) {
    step.Commit? && step.t in s.txs && s.txs[step.t].ResendWritten? && s.row.accepted
  }

  function Reopenings(s: State, steps: seq<Step>): nat
    decreases |steps|
  {
    if steps == [] then 0
    else (if Reopens(s, steps[0]) then 1 else 0) + Reopenings(Apply(s, steps[0]), steps[1..])
  }

  function Stamp(row: Row): nat {
    if row.accepted then 1 else 0
  }

  lemma StepCounts(s: State, step: Step, initial: set<UserId>)
    requires Inv(s, initial)
    ensures Apply(s, step).accepts + Stamp(s.row)
            == s.accepts + (if Reopens(s, step) then 1 else 0) + Stamp(Apply(s, step).row)
  {
  }

  lemma {:induction false} RunCounts(s: State, steps: seq<Step>, initial: set<UserId>)
    requires Inv(s, initial)
    ensures Run(s, steps).accepts + Stamp(s.row) == s.accepts + Reopenings(s, steps) + Stamp(Run(s, steps).row)
    decreases |steps|
  {
    if steps != [] {
      StepCounts(s, steps[0], initial);
      ApplyKeepsInv(s, steps[0], initial);
      RunCounts(Apply(s, steps[0]), steps[1..], initial);
    }
  }

  /** The exact number of accepts: the one that the row still shows, and one for every resend that
      cleared an accepted stamp. */
  lemma AcceptsAreCounted(members: set<UserId>, steps: seq<Step>)
    ensures var s := Run(Start(members), steps);
      s.accepts == Reopenings(Start(members), steps) + Stamp(s.row)
  {
    RunCounts(Start(members), steps, members);
  }

  /** So the link lets in one person at most unless a resend clears an accepted stamp. */
  lemma OneAcceptPerLink(members: set<UserId>, steps: seq<Step>)
    ensures Reopenings(Start(members), steps) == 0 ==> Run(Start(members), steps).accepts <= 1
  {
    AcceptsAreCounted(members, steps);
  }

  /** Without a resend there is nothing to clear the stamp. */
  lemma {:induction false} NoResends(s: State, steps: seq<Step>)
    requires forall i :: 0 <= i < |steps| ==> !steps[i].BeginResend?
    requires s.resends == 0 && forall t <- s.txs :: !s.txs[t].ResendRead? && !s.txs[t].ResendWritten?
    ensures Run(s, steps).resends == 0 && Reopenings(s, steps) == 0
    decreases |steps|
  {
    if steps != [] {
      NoResends(Apply(s, steps[0]), steps[1..]);
    }
  }

  // ---------------------------------------------------------------------------
  // Stale commits
  // ---------------------------------------------------------------------------

  /** A revoke or a resend commits over a row that has been accepted since it was read: the guard
      that neither of their updates repeats. */
  predicate Stale(s: State, step: Step) {
    && step.Commit? && step.t in s.txs && s.row.status == Accepted
    && (s.txs[step.t].RevokeWritten? || s.txs[step.t].ResendWritten?)
  }

  predicate StaleFree(s: State, steps: seq<Step>)
    decreases |steps|
  {
    steps == [] || (!Stale(s, steps[0]) && StaleFree(Apply(s, steps[0]), steps[1..]))
  }

  /** The accepted stamp is set exactly in the accepted status, which is the result of one accept. */
  predicate Good(s: State) {
    && (s.row.accepted <==> s.row.status == Accepted)
    && s.accepts == if s.row.status == Accepted then 1 else 0
  }

  /** From the first state on to the last. */
  predicate GoodThroughout(s: State, steps: seq<Step>)
    decreases |steps|
  {
    Good(s) && (steps == [] || GoodThroughout(Apply(s, steps[0]), steps[1..]))
  }

  lemma StepIsGoodIff(s: State, step: Step, initial: set<UserId>)
    requires Inv(s, initial) && Good(s)
    ensures Good(Apply(s, step)) <==> !Stale(s, step)
  {
  }

  lemma {:induction false} GoodThroughoutIff(s: State, steps: seq<Step>, initial: set<UserId>)
    requires Inv(s, initial) && Good(s)
    ensures GoodThroughout(s, steps) <==> StaleFree(s, steps)
    ensures StaleFree(s, steps) ==> Good(Run(s, steps))
    decreases |steps|
  {
    if steps != [] {
      StepIsGoodIff(s, steps[0], initial);
      ApplyKeepsInv(s, steps[0], initial);
      if !Stale(s, steps[0]) {
        GoodThroughoutIff(Apply(s, steps[0]), steps[1..], initial);
      }
    }
  }

  /** Over any run, the stamps are set exactly in their statuses and one accept at most has
      committed, at every moment, if and only if no commit is stale. */
  lemma StampsAreRightIff(members: set<UserId>, steps: seq<Step>)
    ensures GoodThroughout(Start(members), steps) <==> StaleFree(Start(members), steps)
    ensures StaleFree(Start(members), steps)
            ==> var s := Run(Start(members), steps);
                && (s.row.accepted <==> s.row.status == Accepted) && (s.row.revoked <==> s.row.status == Revoked)
                && s.accepts <= 1
  {
    GoodThroughoutIff(Start(members), steps, members);
    RunKeepsInv(Start(members), steps, members);
  }

  predicate AcceptedThroughout(s: State, steps: seq<Step>)
    decreases |steps|
  {
    s.row.status == Accepted && (steps == [] || AcceptedThroughout(Apply(s, steps[0]), steps[1..]))
  }

  /** An accepted row stays accepted if and only if no commit is stale, and then nobody else gets in. */
  lemma {:induction false} AcceptedIsFinalIff(s: State, steps: seq<Step>, initial: set<UserId>)
    requires Inv(s, initial) && s.row.status == Accepted
    ensures AcceptedThroughout(s, steps) <==> StaleFree(s, steps)
    ensures StaleFree(s, steps) ==> Run(s, steps).row == s.row && Run(s, steps).members == s.members
    decreases |steps|
  {
    if steps != [] {
      ApplyKeepsInv(s, steps[0], initial);
      if !Stale(s, steps[0]) {
        AcceptedIsFinalIff(Apply(s, steps[0]), steps[1..], initial);
      }
    }
  }

  // ---------------------------------------------------------------------------
  // Stale commits happen
  // ---------------------------------------------------------------------------

  /** Transaction 0 has read the open row; then transaction 1 accepts for user 2. */
  function AcceptedMeanwhile(read: Tx): State {
    State(Row(Accepted, true, false), {1, 2}, map[0 := read, 1 := Committed], 1, 0)
  }

  lemma ReadThenAccept(begin: Step, read: Tx)
    requires (begin == BeginRevoke(0) && read == RevokeRead) || (begin == BeginResend(0) && read == ResendRead)
    ensures Run(Start({1}), [begin] + AcceptSteps(1, 2)) == AcceptedMeanwhile(read)
  {
    var s := Apply(Start({1}), begin);
    assert s == State(Row(Pending, false, false), {1}, map[0 := read], 0, 0);
    AcceptAlone(s, 1, 2);
    RunOne(Start({1}), begin);
    RunAppend(Start({1}), [begin], AcceptSteps(1, 2));
    assert map[0 := read][1 := Committed] == map[0 := read, 1 := Committed];
    assert {1} + {2} == {1, 2};
  }

  lemma ReopenThenAccept()
    ensures Run(AcceptedMeanwhile(ResendRead), [Update(0), Commit(0)] + AcceptSteps(2, 3)) ==
      State(Row(Accepted, true, false), {1, 2, 3}, map[0 := Committed, 1 := Committed, 2 := Committed], 2, 1)
  {
    var written := Apply(AcceptedMeanwhile(ResendRead), Update(0));
    var reopened := Apply(written, Commit(0));
    assert reopened == State(Row(Pending, false, false), {1, 2}, map[0 := Committed, 1 := Committed], 1, 1);
    RunTwo(AcceptedMeanwhile(ResendRead), Update(0), Commit(0), AcceptSteps(2, 3));
    AcceptAlone(reopened, 2, 3);
    assert {1, 2} + {3} == {1, 2, 3};
    assert map[0 := Committed, 1 := Committed][2 := Committed] == map[0 := Committed, 1 := Committed, 2 := Committed];
  }

  /** The bound is reached: a resend that read the row before an accept committed reopens it. */
  lemma TwoAcceptsAfterOneResend()
    ensures exists steps :: Run(Start({1}), steps).accepts == 2 && Run(Start({1}), steps).resends == 1
  {
    ReadThenAccept(BeginResend(0), ResendRead);
    ReopenThenAccept();
    RunAppend(Start({1}), [BeginResend(0)] + AcceptSteps(1, 2), [Update(0), Commit(0)] + AcceptSteps(2, 3));
  }

  function AcceptSteps(t: TxId, u: UserId): seq<Step> {
    [BeginAccept(t, u), Insert(t), Update(t), Commit(t)]
  }

  lemma RunOne(s: State, a: Step)
    ensures Run(s, [a]) == Apply(s, a)
  {
    assert [a][1..] == [];
  }

  lemma RunTwo(s: State, a: Step, b: Step, rest: seq<Step>)
    ensures Run(s, [a, b] + rest) == Run(Apply(Apply(s, a), b), rest)
  {
    assert ([a, b] + rest)[1..] == [b] + rest;
    assert ([b] + rest)[1..] == rest;
  }

  lemma RunFour(s: State, a: Step, b: Step, c: Step, d: Step)
    ensures Run(s, [a, b, c, d]) == Apply(Apply(Apply(Apply(s, a), b), c), d)
  {
    RunTwo(s, a, b, [c, d]);
    RunTwo(Apply(Apply(s, a), b), c, d, []);
    assert [a, b, c, d] == [a, b] + [c, d];
    assert [c, d] == [c, d] + [];
  }

  /** A newcomer who accepts while nobody holds the row or inserts them gets in. */
  lemma AcceptAlone(s: State, t: TxId, u: UserId)
    requires t !in s.txs && u !in s.members && |s.members| < MEMBER_LIMIT
    requires Open(s.row) && RowFree(s) && InsertFree(s, u)
    ensures Run(s, AcceptSteps(t, u)) ==
      s.(row := s.row.(status := Accepted, accepted := true), members := s.members + {u},
         txs := s.txs[t := Committed], accepts := s.accepts + 1)
  {
    var s1 := Apply(s, BeginAccept(t, u));
    var s2 := Apply(s1, Insert(t));
    assert s2 == Move(s, t, AcceptInserted(u));
    var s3 := Apply(s2, Update(t));
    assert s3 == Move(s, t, AcceptWon(u));
    assert Apply(s3, Commit(t)).txs == s.txs[t := Committed];
    RunFour(s, BeginAccept(t, u), Insert(t), Update(t), Commit(t));
  }

  /** With nothing beside it, an accept commits exactly if the row is pending or declined and the household has
      room and not the user; otherwise it changes nothing. */
  lemma AcceptAloneIff(s: State, t: TxId, u: UserId)
    requires t !in s.txs && RowFree(s) && InsertFree(s, u)
    ensures var open := (s.row.status == Pending || s.row.status == Declined) && u !in s.members && |s.members| < 10;
      Run(s, AcceptSteps(t, u)) ==
        if open then
          s.(row := s.row.(status := Accepted, accepted := true), members := s.members + {u},
             txs := s.txs[t := Committed], accepts := s.accepts + 1)
        else s.(txs := s.txs[t := Failed])
  {
    if Open(s.row) && u !in s.members && |s.members| < MEMBER_LIMIT {
      AcceptAlone(s, t, u);
    } else {
      assert Apply(s, BeginAccept(t, u)) == Move(s, t, Failed);
      RunFour(s, BeginAccept(t, u), Insert(t), Update(t), Commit(t));
    }
  }

  /** So do a revoke and a resend, exactly if the row is not accepted. */
  lemma ChangeAloneIff(s: State, t: TxId, begin: Step)
    requires t !in s.txs && RowFree(s) && (begin == BeginRevoke(t) || begin == BeginResend(t))
    ensures Run(s, [begin, Update(t), Commit(t)]) ==
      if s.row.status == Accepted then s.(txs := s.txs[t := Failed])
      else if begin.BeginRevoke? then s.(txs := s.txs[t := Committed], row := s.row.(status := Revoked, revoked := true))
      else s.(txs := s.txs[t := Committed], row := Row(Pending, false, false), resends := s.resends + 1)
  {
    var s1 := Apply(s, begin);
    var s2 := Apply(s1, Update(t));
    if s.row.status != Accepted {
      assert s1 == Move(s, t, if begin.BeginRevoke? then RevokeRead else ResendRead);
      assert s2 == Move(s, t, if begin.BeginRevoke? then RevokeWritten else ResendWritten);
      assert Apply(s2, Commit(t)).txs == s.txs[t := Committed];
    }
    RunTwo(s, begin, Update(t), [Commit(t)]);
    RunOne(s2, Commit(t));
    assert [begin, Update(t), Commit(t)] == [begin, Update(t)] + [Commit(t)];
  }

  lemma {:induction false} RunAppend(s: State, a: seq<Step>, b: seq<Step>)
    ensures Run(s, a + b) == Run(Run(s, a), b)
    decreases |a|
  {
    if a == [] {
      assert a + b == b;
    } else {
      RunAppend(Apply(s, a[0]), a[1..], b);
      assert (a + b)[1..] == a[1..] + b;
    }
  }

  lemma RevokeAfterAccept()
    ensures Run(AcceptedMeanwhile(RevokeRead), [Update(0), Commit(0)]).row == Row(Revoked, true, true)
  {
    var s := AcceptedMeanwhile(RevokeRead);
    assert Apply(s, Update(0)) == Move(s, 0, RevokeWritten);
    RunTwo(s, Update(0), Commit(0), []);
    assert [Update(0), Commit(0)] + [] == [Update(0), Commit(0)];
  }

  /** Both stamps can end up set: a revoke that read the row before an accept committed. */
  lemma RevokeCanOverwriteAnAccept()
    ensures exists steps :: Run(Start({1}), steps).row == Row(Revoked, true, true)
  {
    var before, after := [BeginRevoke(0)] + AcceptSteps(1, 2), [Update(0), Commit(0)];
    assert Run(Start({1}), before) == AcceptedMeanwhile(RevokeRead) by {
      ReadThenAccept(BeginRevoke(0), RevokeRead);
    }
    RevokeAfterAccept();
    RunAppend(Start({1}), before, after);
  }
}
