/** Concurrent creation of shots in Postgres mode.

    Every request looks its key up, reads the shot ids that its household can see, inserts one row
    under two unique constraints, and commits; after a violation it rolls back and looks the key up
    again.  The steps of any number of requests interleave.  A request reads committed rows; an
    insert waits while another transaction holds an uncommitted row that it would clash with. */
module BrewLogCreate {
  import opened Basics
  import Decimal
  import Ids

  type HouseholdId = nat
  type RowId = nat

  /** `payload` is what the request hash stands for; `day` is the shot date. */
  datatype Input = Input(household: HouseholdId, rawKey: Option<string>, payload: string, day: string)

  datatype Row = Row(household: HouseholdId, key: Option<string>, payload: Option<string>, shot: string)

  datatype Outcome =
    | Created(shot: string)   // 201
    | Replayed(shot: string)  // 200
    | Conflict                // 409
    | Failed(shot: string)    // 500: the violated constraint stands, with no row to answer with
    | Aborted                 // any other exception left the endpoint

  datatype Stage =
    | Started
    | Missed                  // no key, or nothing under the key
    | Chosen(shot: string)    // ids read, shot id computed
    | Inserted(shot: string)  // flushed, not committed
    | RolledBack(shot: string)  // a constraint was violated
    | Done(outcome: Outcome)

  datatype Tx = Tx(input: Input, stage: Stage)

  /** The row that request `r` commits is row `r`; other rows of the table have other ids. */
  datatype State = State(rows: map<RowId, Row>, txs: map<RowId, Tx>)

  datatype Step =
    | Begin(r: RowId, input: Input)
    | Lookup(r: RowId, found: Option<RowId>)
    | ReadIds(r: RowId, ids: seq<string>)
    | Insert(r: RowId)
    | Commit(r: RowId)
    | LookAgain(r: RowId, found: Option<RowId>)
    | Abort(r: RowId)

  /** Surrounding space is dropped, and an empty key is no key. */
  function NormaliseKey(raw: Option<string>): Option<string> {
    if raw.None? || Strip(raw.value) == "" then None else Some(Strip(raw.value))
  }

  function Key(input: Input): Option<string> {
    NormaliseKey(input.rawKey)
  }

  function RowFor(input: Input, shot: string): Row {
    Row(input.household, Key(input), if Key(input).Some? then Some(input.payload) else None, shot)
  }

  predicate SameKey(a: Row, b: Row) {
    a.household == b.household && a.key.Some? && a.key == b.key
  }

  /** The two unique constraints. */
  predicate Clash(a: Row, b: Row) {
    SameKey(a, b) || a.shot == b.shot
  }

  predicate HasKey(rows: map<RowId, Row>, household: HouseholdId, key: Option<string>, id: RowId) {
    id in rows && rows[id].household == household && rows[id].key == key
  }

  /** `found` is what a lookup by key returns; without a key there is no lookup. */
  ghost predicate Finds(rows: map<RowId, Row>, input: Input, found: Option<RowId>) {
    match found
    case Some(id) => Key(input).Some? && HasKey(rows, input.household, Key(input), id)
    case None => Key(input).Some? ==> forall id: RowId :: !HasKey(rows, input.household, Key(input), id)
  }

  function Answer(row: Row, input: Input): Outcome {
    if row.payload == Some(input.payload) then Replayed(row.shot) else Conflict
  }

  /** Row-level security shows a request the rows of its own household. */
  ghost predicate Sees(rows: map<RowId, Row>, household: HouseholdId, ids: seq<string>) {
    forall shot :: shot in ids <==> exists id :: id in rows && rows[id].household == household && rows[id].shot == shot
  }

  function PendingRow(tx: Tx): Row
    requires tx.stage.Inserted?
  {
    RowFor(tx.input, tx.stage.shot)
  }

  /** No other transaction holds an uncommitted row that clashes with `row`. */
  predicate InsertFree(s: State, row: Row) {
    forall t <- s.txs :: s.txs[t].stage.Inserted? ==> !Clash(PendingRow(s.txs[t]), row)
  }

  predicate InsertClashes(rows: map<RowId, Row>, row: Row) {
    exists id <- rows :: Clash(rows[id], row)
  }

  predicate ShotTaken(rows: map<RowId, Row>, shot: string) {
    exists id <- rows :: rows[id].shot == shot
  }

  ghost predicate KeyTaken(rows: map<RowId, Row>, input: Input) {
    exists id <- rows :: SameKey(rows[id], RowFor(input, ""))
  }

  lemma ClashIs(rows: map<RowId, Row>, input: Input, shot: string)
    ensures InsertClashes(rows, RowFor(input, shot)) <==> ShotTaken(rows, shot) || KeyTaken(rows, input)
  {
    if ShotTaken(rows, shot) {
      var id :| id in rows && rows[id].shot == shot;
      assert Clash(rows[id], RowFor(input, shot));
    }
    if KeyTaken(rows, input) {
      var id :| id in rows && SameKey(rows[id], RowFor(input, ""));
      assert Clash(rows[id], RowFor(input, shot));
    }
  }

  lemma FoundIffTaken(rows: map<RowId, Row>, input: Input, found: Option<RowId>)
    requires Key(input).Some? && Finds(rows, input, found)
    ensures found.Some? <==> KeyTaken(rows, input)
  {
    if found.Some? {
      assert SameKey(rows[found.value], RowFor(input, ""));
    } else if KeyTaken(rows, input) {
      var id :| id in rows && SameKey(rows[id], RowFor(input, ""));
      assert HasKey(rows, input.household, Key(input), id);
    }
  }

  function Move(s: State, r: RowId, stage: Stage): State
    requires r in s.txs
  {
    s.(txs := s.txs[r := s.txs[r].(stage := stage)])
  }

  ghost predicate Enabled(s: State, step: Step) {
    match step
    case Begin(r, input) => r !in s.txs && r !in s.rows
    case Lookup(r, found) => r in s.txs && s.txs[r].stage.Started? && Finds(s.rows, s.txs[r].input, found)
    case ReadIds(r, ids) => r in s.txs && s.txs[r].stage.Missed? && Sees(s.rows, s.txs[r].input.household, ids)
    case Insert(r) =>
      r in s.txs && s.txs[r].stage.Chosen? && InsertFree(s, RowFor(s.txs[r].input, s.txs[r].stage.shot))
    case Commit(r) => r in s.txs && s.txs[r].stage.Inserted?
    case LookAgain(r, found) => r in s.txs && s.txs[r].stage.RolledBack? && Finds(s.rows, s.txs[r].input, found)
    case Abort(r) => r in s.txs && !s.txs[r].stage.Done?
  }

  ghost function Apply(s: State, step: Step): State
    requires Enabled(s, step)
  {
    match step
    case Begin(r, input) => s.(txs := s.txs[r := Tx(input, Started)])
    case Lookup(r, found) =>
      Move(s, r, if found.Some? then Done(Answer(s.rows[found.value], s.txs[r].input)) else Missed)
    case ReadIds(r, ids) => Move(s, r, Chosen(Ids.MakeShotId(s.txs[r].input.day, ids)))
    case Insert(r) =>
      var row := RowFor(s.txs[r].input, s.txs[r].stage.shot);
      Move(s, r, if !InsertClashes(s.rows, row) then Inserted(row.shot)
                 else if row.key.Some? then RolledBack(row.shot) else Done(Failed(row.shot)))
    case Commit(r) =>
      var row := PendingRow(s.txs[r]);
      Move(s, r, Done(Created(row.shot))).(rows := s.rows[r := row])
    case LookAgain(r, found) =>
      Move(s, r, Done(if found.Some? then Answer(s.rows[found.value], s.txs[r].input)
                      else Failed(s.txs[r].stage.shot)))
    case Abort(r) => Move(s, r, Done(Aborted))
  }

  /** A step that is not enabled, such as an insert that has to wait, changes nothing. */
  ghost function Next(s: State, step: Step): State {
    if Enabled(s, step) then Apply(s, step) else s
  }

  ghost function Run(s: State, steps: seq<Step>): State
    decreases |steps|
  {
    if steps == [] then s else Run(Next(s, steps[0]), steps[1..])
  }

  // ---------------------------------------------------------------------------
  // Invariant
  // ---------------------------------------------------------------------------

  ghost predicate NoClashes(rows: map<RowId, Row>) {
    forall a <- rows, b <- rows :: a != b ==> !Clash(rows[a], rows[b])
  }

  ghost predicate PendingOk(s: State) {
    && (forall t <- s.txs :: s.txs[t].stage.Inserted? ==> !InsertClashes(s.rows, PendingRow(s.txs[t])))
    && (forall t <- s.txs, u <- s.txs ::
          s.txs[t].stage.Inserted? && s.txs[u].stage.Inserted? && t != u
          ==> !Clash(PendingRow(s.txs[t]), PendingRow(s.txs[u])))
  }

  /** What a request that is over may have answered, given the table. */
  ghost predicate AnswerOk(rows: map<RowId, Row>, r: RowId, tx: Tx) {
    match tx.stage
    case Done(Created(shot)) => r in rows && rows[r] == RowFor(tx.input, shot)
    case Done(Replayed(shot)) =>
      && r !in rows && Key(tx.input).Some?
      && exists id <- rows :: rows[id] == RowFor(tx.input, shot)
    case Done(Conflict) =>
      && r !in rows && Key(tx.input).Some?
      && exists id <- rows :: SameKey(rows[id], RowFor(tx.input, "")) && rows[id].payload != Some(tx.input.payload)
    case RolledBack(shot) => r !in rows && Key(tx.input).Some? && InsertClashes(rows, RowFor(tx.input, shot))
    case Done(Failed(shot)) => r !in rows && ShotTaken(rows, shot)
    case _ => r !in rows
  }

  ghost predicate AnswersOk(s: State) {
    forall t <- s.txs :: AnswerOk(s.rows, t, s.txs[t])
  }

  ghost predicate Inv(s: State) {
    NoClashes(s.rows) && PendingOk(s) && AnswersOk(s)
  }

  predicate Grows(before: map<RowId, Row>, after: map<RowId, Row>) {
    forall id <- before :: id in after && after[id] == before[id]
  }

  lemma AnswersLast(before: map<RowId, Row>, after: map<RowId, Row>, r: RowId, tx: Tx)
    requires AnswerOk(before, r, tx) && Grows(before, after)
    requires r in after ==> r in before
    ensures AnswerOk(after, r, tx)
  {
    if tx.stage.Done? && tx.stage.outcome.Replayed? {
      var id :| id in before && before[id] == RowFor(tx.input, tx.stage.outcome.shot);
      assert id in after;
    } else if tx.stage.Done? && tx.stage.outcome.Conflict? {
      var id :| id in before && SameKey(before[id], RowFor(tx.input, "")) && before[id].payload != Some(tx.input.payload);
      assert id in after;
    } else if tx.stage.RolledBack? {
      var id :| id in before && Clash(before[id], RowFor(tx.input, tx.stage.shot));
      assert id in after && Clash(after[id], RowFor(tx.input, tx.stage.shot));
    } else if tx.stage.Done? && tx.stage.outcome.Failed? {
      var id :| id in before && before[id].shot == tx.stage.outcome.shot;
      assert id in after;
    }
  }

  lemma CommitKeepsInv(s: State, r: RowId)
    requires Inv(s) && Enabled(s, Commit(r))
    ensures Inv(Apply(s, Commit(r)))
  {
    var next := Apply(s, Commit(r));
    assert AnswerOk(s.rows, r, s.txs[r]);
    forall t | t in next.txs ensures AnswerOk(next.rows, t, next.txs[t]) {
      if t != r {
        AnswersLast(s.rows, next.rows, t, s.txs[t]);
      }
    }
  }

  lemma MoveKeepsInv(s: State, r: RowId, stage: Stage)
    requires Inv(s) && r in s.txs
    requires stage.Inserted? ==> InsertFree(s, RowFor(s.txs[r].input, stage.shot))
                                 && !InsertClashes(s.rows, RowFor(s.txs[r].input, stage.shot))
    requires AnswerOk(s.rows, r, s.txs[r].(stage := stage))
    ensures Inv(Move(s, r, stage))
  {
  }

  lemma AnswerIsOk(s: State, r: RowId, found: RowId)
    requires Inv(s) && r in s.txs && r !in s.rows && Finds(s.rows, s.txs[r].input, Some(found))
    ensures AnswerOk(s.rows, r, s.txs[r].(stage := Done(Answer(s.rows[found], s.txs[r].input))))
  {
  }

  /** A lookup, the first or the second. */
  lemma LookKeepsInv(s: State, r: RowId, found: Option<RowId>)
    requires Inv(s)
    ensures Enabled(s, Lookup(r, found)) ==> Inv(Apply(s, Lookup(r, found)))
    ensures Enabled(s, LookAgain(r, found)) ==> Inv(Apply(s, LookAgain(r, found)))
  {
    if r in s.txs && (s.txs[r].stage.Started? || s.txs[r].stage.RolledBack?) && Finds(s.rows, s.txs[r].input, found) {
      assert AnswerOk(s.rows, r, s.txs[r]);
      if found.Some? {
        AnswerIsOk(s, r, found.value);
        MoveKeepsInv(s, r, Done(Answer(s.rows[found.value], s.txs[r].input)));
      } else if s.txs[r].stage.Started? {
        MoveKeepsInv(s, r, Missed);
      } else {
        ClashIs(s.rows, s.txs[r].input, s.txs[r].stage.shot);
        FoundIffTaken(s.rows, s.txs[r].input, found);
        MoveKeepsInv(s, r, Done(Failed(s.txs[r].stage.shot)));
      }
    }
  }

  lemma InsertKeepsInv(s: State, r: RowId)
    requires Inv(s) && Enabled(s, Insert(r))
    ensures Inv(Apply(s, Insert(r)))
  {
    assert AnswerOk(s.rows, r, s.txs[r]);
    ClashIs(s.rows, s.txs[r].input, s.txs[r].stage.shot);
    MoveKeepsInv(s, r, Apply(s, Insert(r)).txs[r].stage);
  }

  lemma NextKeepsInv(s: State, step: Step)
    requires Inv(s)
    ensures Inv(Next(s, step))
    ensures Grows(s.rows, Next(s, step).rows)
  {
    if Enabled(s, step) {
      match step
      case Begin(r, input) =>
      case Lookup(r, found) => LookKeepsInv(s, r, found);
      case LookAgain(r, found) => LookKeepsInv(s, r, found);
      case ReadIds(r, ids) =>
        assert AnswerOk(s.rows, r, s.txs[r]);
        MoveKeepsInv(s, r, Apply(s, step).txs[r].stage);
      case Insert(r) => InsertKeepsInv(s, r);
      case Commit(r) =>
        assert AnswerOk(s.rows, r, s.txs[r]);
        CommitKeepsInv(s, r);
      case Abort(r) =>
        assert AnswerOk(s.rows, r, s.txs[r]);
        MoveKeepsInv(s, r, Done(Aborted));
    }
  }

  /** From a table without clashes and no request under way, whatever happens the constraints and
      the answers given stay true, and committed rows stay as they are. */
  lemma {:induction false} RunKeepsInv(s: State, steps: seq<Step>)
    requires Inv(s)
    ensures Inv(Run(s, steps))
    ensures Grows(s.rows, Run(s, steps).rows)
    decreases |steps|
  {
    if steps != [] {
      NextKeepsInv(s, steps[0]);
      RunKeepsInv(Next(s, steps[0]), steps[1..]);
    }
  }

  predicate Succeeded(tx: Tx) {
    tx.stage.Done? && (tx.stage.outcome.Created? || tx.stage.outcome.Replayed?)
  }

  /** In every reachable state: one row per key and household, one per shot id; a request has a
      row of its own exactly if it answered 201, and that row is the one it described; and requests
      that succeed under one key agree on the payload and on the shot id. */
  lemma CreationIsIdempotent(rows: map<RowId, Row>, steps: seq<Step>, a: RowId, b: RowId)
    requires NoClashes(rows)
    ensures var s := Run(State(rows, map[]), steps);
            && NoClashes(s.rows) && Grows(rows, s.rows)
            && (a in s.txs ==> (a in s.rows <==> s.txs[a].stage.Done? && s.txs[a].stage.outcome.Created?))
            && (a in s.txs && a in s.rows ==> s.rows[a] == RowFor(s.txs[a].input, s.txs[a].stage.outcome.shot))
            && (a in s.txs && b in s.txs && Succeeded(s.txs[a]) && Succeeded(s.txs[b])
                && SameKey(RowFor(s.txs[a].input, ""), RowFor(s.txs[b].input, ""))
                ==> s.txs[a].stage.outcome.shot == s.txs[b].stage.outcome.shot
                    && s.txs[a].input.payload == s.txs[b].input.payload)
  {
    var start := State(rows, map[]);
    RunKeepsInv(start, steps);
    var s := Run(start, steps);
    if a in s.txs {
      assert AnswerOk(s.rows, a, s.txs[a]);
    }
    if a in s.txs && b in s.txs && Succeeded(s.txs[a]) && Succeeded(s.txs[b]) {
      var i := SuccessHasARow(s, a);
      var j := SuccessHasARow(s, b);
      assert i != j ==> !Clash(s.rows[i], s.rows[j]);
    }
  }

  lemma SuccessHasARow(s: State, r: RowId) returns (id: RowId)
    requires Inv(s) && r in s.txs && Succeeded(s.txs[r])
    ensures id in s.rows && s.rows[id] == RowFor(s.txs[r].input, s.txs[r].stage.outcome.shot)
  {
    assert AnswerOk(s.rows, r, s.txs[r]);
    if s.txs[r].stage.outcome.Created? {
      id := r;
    } else {
      id :| id in s.rows && s.rows[id] == RowFor(s.txs[r].input, s.txs[r].stage.outcome.shot);
    }
  }

  /** The table changes in one way: the commit of a request that inserted adds that one row. */
  lemma OnlyCommitsAddRows(s: State, step: Step)
    requires Inv(s) && Next(s, step).rows != s.rows
    ensures step.Commit? && step.r in s.txs && s.txs[step.r].stage.Inserted?
    ensures step.r !in s.rows && Next(s, step).rows == s.rows[step.r := PendingRow(s.txs[step.r])]
  {
    assert AnswerOk(s.rows, step.r, s.txs[step.r]);
  }

  /** A first lookup answers if and only if the key is in use, and then by the payload: a retry
      of the same request replays the stored shot and anything else is refused.  A lookup after a
      violated constraint answers alike, but fails where there is no row to answer with. */
  lemma LookupAnswer(s: State, r: RowId, found: Option<RowId>, id: RowId)
    requires Inv(s) && r in s.txs && Finds(s.rows, s.txs[r].input, found)
    requires s.txs[r].stage.Started? || s.txs[r].stage.RolledBack?
    ensures var step := if s.txs[r].stage.Started? then Lookup(r, found) else LookAgain(r, found);
            var stage := Next(s, step).txs[r].stage;
            && (id in s.rows && SameKey(s.rows[id], RowFor(s.txs[r].input, ""))
                ==> stage == Done(if s.rows[id].payload == Some(s.txs[r].input.payload)
                                  then Replayed(s.rows[id].shot) else Conflict))
            && ((forall i <- s.rows :: !SameKey(s.rows[i], RowFor(s.txs[r].input, "")))
                ==> stage == if s.txs[r].stage.Started? then Missed else Done(Failed(s.txs[r].stage.shot)))
  {
    if id in s.rows && SameKey(s.rows[id], RowFor(s.txs[r].input, "")) {
      assert HasKey(s.rows, s.txs[r].input.household, Key(s.txs[r].input), id);
      assert found.Some? && (found.value != id ==> !Clash(s.rows[found.value], s.rows[id]));
    } else if found.Some? {
      assert SameKey(s.rows[found.value], RowFor(s.txs[r].input, ""));
    }
  }

  // ---------------------------------------------------------------------------
  // When a creation fails
  // ---------------------------------------------------------------------------

  /** The step is the last that the request takes before it fails: the insert of a request without
      a key that meets a committed row with its shot id, or the second lookup of one whose insert
      met such a row, when there is none under its key. */
  ghost predicate Fails(s: State, step: Step, r: RowId)
    requires r in s.txs
  {
    match step
    case Insert(q) => q == r && Key(s.txs[r].input).None? && s.txs[r].stage.Chosen? && ShotTaken(s.rows, s.txs[r].stage.shot)
    case LookAgain(q, _) =>
      q == r && s.txs[r].stage.RolledBack? && ShotTaken(s.rows, s.txs[r].stage.shot) && !KeyTaken(s.rows, s.txs[r].input)
    case _ => false
  }

  /** Whatever runs beside it, a request fails at exactly these steps. */
  lemma FailsIff(s: State, step: Step, r: RowId)
    requires Inv(s) && Enabled(s, step) && r in s.txs && !s.txs[r].stage.Done?
    ensures r in Next(s, step).txs
    ensures Next(s, step).txs[r].stage.Done? && Next(s, step).txs[r].stage.outcome.Failed? <==> Fails(s, step, r)
  {
    var tx := s.txs[r];
    assert AnswerOk(s.rows, r, tx);
    if step.Insert? && step.r == r {
      ClashIs(s.rows, tx.input, tx.stage.shot);
    } else if step.LookAgain? && step.r == r {
      ClashIs(s.rows, tx.input, tx.stage.shot);
      FoundIffTaken(s.rows, tx.input, step.found);
    }
  }

  /** In every reachable state, the shot id of a request that failed is that of a committed row,
      and the request has no row of its own. */
  lemma FailedWasTaken(rows: map<RowId, Row>, steps: seq<Step>, r: RowId)
    requires NoClashes(rows)
    ensures var s := Run(State(rows, map[]), steps);
      r in s.txs && s.txs[r].stage.Done? && s.txs[r].stage.outcome.Failed?
      ==> r !in s.rows && ShotTaken(s.rows, s.txs[r].stage.outcome.shot)
  {
    RunKeepsInv(State(rows, map[]), steps);
    var s := Run(State(rows, map[]), steps);
    if r in s.txs {
      assert AnswerOk(s.rows, r, s.txs[r]);
    }
  }

  predicate Quiet(s: State) {
    forall t <- s.txs :: !s.txs[t].stage.Inserted?
  }

  /** A request that runs alone, under no key or an unused one, and reads `ids`. */
  ghost function Alone(s: State, r: RowId, input: Input, ids: seq<string>): State {
    Next(Next(Next(AloneReads(s, r, input, ids), Insert(r)), Commit(r)), LookAgain(r, None))
  }

  ghost function AloneReads(s: State, r: RowId, input: Input, ids: seq<string>): State {
    Next(Next(Next(s, Begin(r, input)), Lookup(r, None)), ReadIds(r, ids))
  }

  lemma AloneChooses(s: State, r: RowId, input: Input, ids: seq<string>)
    requires r !in s.txs && r !in s.rows
    requires Finds(s.rows, input, None) && Sees(s.rows, input.household, ids)
    ensures AloneReads(s, r, input, ids)
            == State(s.rows, s.txs[r := Tx(input, Chosen(Ids.MakeShotId(input.day, ids)))])
  {
    var begun := Next(s, Begin(r, input));
    assert begun == State(s.rows, s.txs[r := Tx(input, Started)]);
    var missed := Next(begun, Lookup(r, None));
    assert missed.txs == s.txs[r := Tx(input, Missed)];
    assert Next(missed, ReadIds(r, ids)).txs == s.txs[r := Tx(input, Chosen(Ids.MakeShotId(input.day, ids)))];
  }

  ghost predicate TakenElsewhere(rows: map<RowId, Row>, household: HouseholdId, shot: string) {
    exists id <- rows :: rows[id].household != household && rows[id].shot == shot
  }

  /** What the allocator computes is in no row that it sees. */
  lemma ClashesElsewhere(rows: map<RowId, Row>, input: Input, ids: seq<string>)
    requires Finds(rows, input, None) && Sees(rows, input.household, ids)
    ensures var shot := Ids.MakeShotId(input.day, ids);
      InsertClashes(rows, RowFor(input, shot)) <==> TakenElsewhere(rows, input.household, shot)
  {
    var shot := Ids.MakeShotId(input.day, ids);
    Ids.NextIdIsUnused(Ids.ShotScheme(input.day), ids);
    ClashIs(rows, input, shot);
    if Key(input).Some? {
      FoundIffTaken(rows, input, None);
    }
  }

  /** The day, and the next number of that day among `ids`. */
  ghost predicate IsNextShot(day: string, ids: seq<string>, shot: string) {
    exists n :: Ids.IsNextOfDay(day, ids, n) && shot == "SH-" + day + "-" + Decimal.Pad(n, 2)
  }

  /** That leaves one possible shot id. */
  lemma NextShotIs(day: string, ids: seq<string>, shot: string)
    ensures IsNextShot(day, ids, shot) <==> shot == Ids.MakeShotId(day, ids)
  {
    var n := Ids.ShotIdIs(day, ids);
    if IsNextShot(day, ids, shot) {
      var m :| Ids.IsNextOfDay(day, ids, m) && shot == "SH-" + day + "-" + Decimal.Pad(m, 2);
      Ids.NextOfDayIsLeast(day, ids, n, m);
      Ids.NextOfDayIsLeast(day, ids, m, n);
    }
  }

  /** Shot ids are unique across households, but the allocator sees those of one.  So a creation
      with nothing running beside it does not always succeed: it does if and only if the id that
      it computes from its own household's shots is in no other household. */
  lemma AloneSucceedsIff(s: State, r: RowId, input: Input, ids: seq<string>) returns (shot: string)
    requires Inv(s) && Quiet(s) && r !in s.txs && r !in s.rows
    requires Finds(s.rows, input, None) && Sees(s.rows, input.household, ids)
    ensures IsNextShot(input.day, ids, shot)
    ensures r in Alone(s, r, input, ids).txs
    ensures var taken := exists id <- s.rows :: s.rows[id].household != input.household && s.rows[id].shot == shot;
            && Alone(s, r, input, ids).txs[r].stage == Done(if taken then Failed(shot) else Created(shot))
            && Alone(s, r, input, ids).rows == if taken then s.rows else s.rows[r := RowFor(input, shot)]
  {
    shot := Ids.MakeShotId(input.day, ids);
    NextShotIs(input.day, ids, shot);
    AloneChooses(s, r, input, ids);
    ClashesElsewhere(s.rows, input, ids);
  }

  /** The row belongs to the household of the request; it has the key and, with a key only, the payload. */
  lemma CreatedRowIs(input: Input, shot: string)
    ensures RowFor(input, shot).household == input.household && RowFor(input, shot).shot == shot
    ensures input.rawKey.None? || Blank(input.rawKey.value)
            ==> RowFor(input, shot).key == None && RowFor(input, shot).payload == None
    ensures forall left, key, right ::
      Blank(left) && key != "" && Tight(key) && Blank(right) && input.rawKey == Some(left + (key + right))
      ==> RowFor(input, shot).key == Some(key) && RowFor(input, shot).payload == Some(input.payload)
  {
    if input.rawKey.Some? && Blank(input.rawKey.value) {
      assert input.rawKey.value == input.rawKey.value + ("" + "");
      StripIs(input.rawKey.value, "", "");
    }
    forall left, key, right
      | Blank(left) && key != "" && Tight(key) && Blank(right) && input.rawKey == Some(left + (key + right))
      ensures RowFor(input, shot).key == Some(key)
    {
      StripIs(left, key, right);
    }
  }

  /** Nothing else is going on, the request has no key or an unused one, and yet it fails and leaves
      everything else as it was. */
  ghost predicate FailsAlone(s: State, r: RowId, input: Input, ids: seq<string>) {
    && Inv(s) && Quiet(s) && r !in s.txs && r !in s.rows
    && Finds(s.rows, input, None) && Sees(s.rows, input.household, ids)
    && Alone(s, r, input, ids) == s.(txs := s.txs[r := Tx(input, Done(Failed(Ids.MakeShotId(input.day, ids))))])
  }

  /** Two households that log their first shot of a day: the second gets an error, and finds the table
      as it was, so that trying again ends the same way. */
  lemma FirstShotOfTheDayCanFail()
    ensures exists s, r, input :: FailsAlone(s, r, input, [])
  {
    var day := "20250201";
    var shot := Ids.MakeShotId(day, []);
    var s := State(map[0 := Row(1, None, None, shot)], map[]);
    var input := Input(2, None, "", day);
    var made := AloneSucceedsIff(s, 1, input, []);
    NextShotIs(day, [], made);
    assert s.rows[0].household != input.household && s.rows[0].shot == shot;
    assert Alone(s, 1, input, []).txs == s.txs[1 := Tx(input, Done(Failed(shot)))];
    assert FailsAlone(s, 1, input, []);
  }

  // ---------------------------------------------------------------------------
  // Keys
  // ---------------------------------------------------------------------------

  /** A key has no surrounding space and is not empty, and a key that is used as it stands is
      normalised to itself: two spellings are one key exactly if they differ in such space. */
  lemma NormalisedKey(raw: Option<string>)
    ensures NormaliseKey(raw).Some? ==> Tight(NormaliseKey(raw).value) && NormaliseKey(raw).value != ""
    ensures NormaliseKey(raw) == raw <==> raw.None? || (raw.value != "" && Tight(raw.value))
    ensures NormaliseKey(NormaliseKey(raw)) == NormaliseKey(raw)
  {
    if raw.Some? {
      StripIsTight(raw.value);
      StripIsTight(Strip(raw.value));
    }
  }
}
