/**
 * The transactional writer: six linked rows per run, retried on transient faults, over caller or pooled connections.
 */
module PipelineWriter {
  import opened Common

  /** A row of one of the six stage tables, with its generated id and its foreign keys. */
  datatype Row =
    | SnapshotRow(id: nat)
    | RunRow(id: nat, snapshot: nat, finalDecision: Option<nat>)
    | PerceptionRow(id: nat, snapshot: nat, run: nat)
    | ReasoningRow(id: nat, perception: nat, run: nat)
    | EvaluationRow(id: nat, reasoning: nat, perception: nat, run: nat)
    | DecisionRow(id: nat, evaluation: nat, run: nat)

  datatype Ids = Ids(snapshot: nat, run: nat, perception: nat, reasoning: nat, evaluation: nat, decision: nat)

  /** OperationalError/InterfaceError, any other driver error, or an error from outside the driver. */
  datatype ErrorKind = Transient | Driver | Foreign

  /** A commit is applied, refused with nothing applied, or applied while its acknowledgement is lost. */
  datatype Commit = Applied | Refused(kind: ErrorKind) | AckLost(kind: ErrorKind)

  /** Borrowing works, the pool refuses, or it lends a connection that cannot be switched out of autocommit. */
  datatype Borrow = Lent | Denied(kind: ErrorKind) | Unusable(kind: ErrorKind)

  /** What goes wrong in one attempt: borrowing, one of the 7 statements, the commit, the rollback, giving back. */
  datatype Fault = Fault(borrow: Borrow, statement: Option<(nat, ErrorKind)>, commit: Commit, rollbackFails: bool,
                         giveBack: Option<ErrorKind>)

  datatype Outcome =
    | Returned(ids: Ids)
    | InvalidInput        // ValidationError
    | WriteFailed         // DatabaseError
    | DriverEscaped       // a driver error no handler wrapped
    | ForeignEscaped

  const NO_FAULT := Fault(Lent, None, Applied, false, None)
  const STATEMENTS := 7
  const MAX_ATTEMPTS := 3

  function FaultAt(faults: seq<Fault>, i: nat): Fault {
    if i < |faults| then faults[i] else NO_FAULT
  }

  /** Each commit makes one batch of rows durable; `callerPending` is what the caller's connection holds uncommitted. */
  datatype World = World(commits: seq<seq<Row>>, nextId: nat, callerPending: seq<Row>,
                         borrowed: nat, returned: nat, callerUses: nat, attempts: nat)

  // ---------------------------------------------------------------- one transaction

  function IdsFrom(base: nat): Ids {
    Ids(base, base + 1, base + 2, base + 3, base + 4, base + 5)
  }

  /** The first n of the seven statements applied to an empty transaction, ids counted from base. */
  function AfterStatements(base: nat, n: nat): seq<Row> {
    var s, r, p, q, v, d := base, base + 1, base + 2, base + 3, base + 4, base + 5;
    (if n >= 1 then [SnapshotRow(s)] else [])
    + (if n >= 2 then [RunRow(r, s, if n >= 7 then Some(d) else None)] else [])
    + (if n >= 3 then [PerceptionRow(p, s, r)] else [])
    + (if n >= 4 then [ReasoningRow(q, p, r)] else [])
    + (if n >= 5 then [EvaluationRow(v, q, p, r)] else [])
    + (if n >= 6 then [DecisionRow(d, v, r)] else [])
  }

  /** The row the k-th insert adds. */
  function InsertedRow(k: nat, id: nat, ids: Ids): Row {
    match k
    case 0 => SnapshotRow(id)
    case 1 => RunRow(id, ids.snapshot, None)
    case 2 => PerceptionRow(id, ids.snapshot, ids.run)
    case 3 => ReasoningRow(id, ids.perception, ids.run)
    case 4 => EvaluationRow(id, ids.reasoning, ids.perception, ids.run)
    case _ => DecisionRow(id, ids.evaluation, ids.run)
  }

  lemma NextStatement(base: nat, k: nat)
    requires k < STATEMENTS
    ensures var rows, ids := AfterStatements(base, k), IdsFrom(base);
            && |rows| == InsertsOf(k)
            && AfterStatements(base, k + 1)
               == if k < 6 then rows + [InsertedRow(k, base + k, ids)]
                  else rows[1 := RunRow(ids.run, ids.snapshot, Some(ids.decision))]
  {
  }

  /** The same on a connection that held rows before the transaction. */
  lemma NextPending(before: seq<Row>, base: nat, k: nat)
    requires k < STATEMENTS
    ensures var rows, ids := before + AfterStatements(base, k), IdsFrom(base);
            && |rows| == |before| + InsertsOf(k)
            && before + AfterStatements(base, k + 1)
               == if k < 6 then rows + [InsertedRow(k, base + k, ids)]
                  else rows[|before| + 1 := RunRow(ids.run, ids.snapshot, Some(ids.decision))]
  {
    var rows, next, ids := AfterStatements(base, k), AfterStatements(base, k + 1), IdsFrom(base);
    NextStatement(base, k);
    NextBehind(before, rows, next, InsertedRow(k, base + k, ids), RunRow(ids.run, ids.snapshot, Some(ids.decision)));
  }

  lemma NextBehind(before: seq<Row>, rows: seq<Row>, next: seq<Row>, added: Row, updated: Row)
    ensures next == rows + [added] ==> before + next == before + rows + [added]
    ensures |rows| > 1 && next == rows[1 := updated] ==> before + next == (before + rows)[|before| + 1 := updated]
  {
  }

  /** Six rows, one per stage table, whose keys point at each other and whose run names its decision. */
  ghost predicate LinkedRun(rows: seq<Row>, ids: Ids) {
    rows == [SnapshotRow(ids.snapshot), RunRow(ids.run, ids.snapshot, Some(ids.decision)),
                PerceptionRow(ids.perception, ids.snapshot, ids.run),
                ReasoningRow(ids.reasoning, ids.perception, ids.run),
                EvaluationRow(ids.evaluation, ids.reasoning, ids.perception, ids.run),
                DecisionRow(ids.decision, ids.evaluation, ids.run)]
  }

  /** How many statements take effect before a fault stops the transaction. */
  function StatementsDone(f: Fault): nat {
    if f.statement.Some? && f.statement.value.0 < STATEMENTS then f.statement.value.0 else STATEMENTS
  }

  function InsertsOf(statements: nat): nat {
    if statements < 6 then statements else 6
  }

  /** The error a transaction raises, if any. */
  function TransactionError(f: Fault): Option<ErrorKind> {
    if f.statement.Some? && f.statement.value.0 < STATEMENTS then Some(f.statement.value.1)
    else match f.commit
         case Applied => None
         case Refused(kind) => Some(kind)
         case AckLost(kind) => Some(kind)
  }

  predicate CommitTakesEffect(f: Fault) {
    StatementsDone(f) == STATEMENTS && !f.commit.Refused?
  }

  // ---------------------------------------------------------------- one attempt

  predicate UsesCaller(attempt: nat, hasCaller: bool) {
    attempt == 1 && hasCaller
  }

  function Transact(w: World, caller: bool, f: Fault): World {
    var base := w.nextId;
    var before := if caller then w.callerPending else [];
    var pending := before + AfterStatements(base, StatementsDone(f));
    var w1 := w.(nextId := base + InsertsOf(StatementsDone(f)));
    if CommitTakesEffect(f) then
      w1.(commits := w.commits + [pending], callerPending := if caller then [] else w.callerPending)
    else if caller then w1.(callerPending := if f.rollbackFails then pending else [])
    else w1
  }

  /** The transaction runs: on the caller's connection, or on one the pool lent in working order. */
  predicate Runs(f: Fault, caller: bool) {
    caller || f.borrow.Lent?
  }

  /** The error an attempt ends with: giving back comes last, and its error replaces any other. */
  function AttemptError(f: Fault, caller: bool): Option<ErrorKind> {
    if caller then TransactionError(f)
    else if f.borrow.Denied? then Some(f.borrow.kind)
    else if f.giveBack.Some? then f.giveBack
    else if f.borrow.Unusable? then Some(f.borrow.kind)
    else TransactionError(f)
  }

  /** The error, if there is one, comes from borrowing or giving back, outside the handlers around the transaction. */
  predicate Outside(f: Fault, caller: bool) {
    !caller && (!f.borrow.Lent? || f.giveBack.Some?)
  }

  /** One attempt: the world afterwards, and the error it ends with. */
  function Attempt(w: World, hasCaller: bool, f: Fault): (World, Option<ErrorKind>) {
    var w1 := w.(attempts := w.attempts + 1);
    var caller := UsesCaller(w1.attempts, hasCaller);
    var w2 :=
      if caller then Transact(w1.(callerUses := w.callerUses + 1), true, f)
      else if f.borrow.Denied? then w1
      else
        var w2 := w1.(borrowed := w.borrowed + 1, returned := w.returned + (if f.giveBack.None? then 1 else 0));
        if f.borrow.Lent? then Transact(w2, false, f) else w2;
    (w2, AttemptError(f, caller))
  }

  /**
   * How an attempt's error leaves the retry loop when it is not retried: the transaction's driver errors are wrapped.
   */
  function Escape(kind: ErrorKind, outside: bool): Outcome {
    match kind
    case Transient => WriteFailed
    case Driver => if outside then DriverEscaped else WriteFailed
    case Foreign => ForeignEscaped
  }

  function Retry(w: World, hasCaller: bool, left: nat, faults: seq<Fault>): (World, Outcome)
    requires left > 0
    decreases left
  {
    var f := FaultAt(faults, w.attempts);
    var (w', error) := Attempt(w, hasCaller, f);
    if error.None? then (w', Returned(IdsFrom(w.nextId)))
    else if error.value.Transient? && left > 1 then Retry(w', hasCaller, left - 1, faults)
    else (w', Escape(error.value, Outside(f, UsesCaller(w'.attempts, hasCaller))))
  }

  // ---------------------------------------------------------------- the writer

  class Writer {
    var commits: seq<seq<Row>>
    var nextId: nat
    var callerPending: seq<Row>
    var borrowed: nat
    var returned: nat
    var callerUses: nat
    var attempts: nat
    var pending: seq<Row>   // uncommitted rows on the connection in use

    constructor (callerPending: seq<Row>)
      ensures State() == World([], 0, callerPending, 0, 0, 0, 0)
    {
      commits, nextId, pending := [], 0, [];
      this.callerPending := callerPending;
      borrowed, returned, callerUses, attempts := 0, 0, 0, 0;
    }

    function State(): World
      reads this
    {
      World(commits, nextId, callerPending, borrowed, returned, callerUses, attempts)
    }

    /** One of the seven statements: six inserts with fresh ids, then the update naming the decision. */
    method ExecuteStatement(k: nat, ids: Ids, runAt: nat)
      requires k < STATEMENTS && (k == 6 ==> runAt < |pending|)
      modifies this`nextId, this`pending
      ensures nextId == old(nextId) + (if k < 6 then 1 else 0)
      ensures k < 6 ==> pending == old(pending) + [InsertedRow(k, old(nextId), ids)]
      ensures k == 6 ==> pending == old(pending)[runAt := RunRow(ids.run, ids.snapshot, Some(ids.decision))]
    {
      if k == 0 {
        pending := pending + [SnapshotRow(nextId)];
      } else if k == 1 {
        pending := pending + [RunRow(nextId, ids.snapshot, None)];
      } else if k == 2 {
        pending := pending + [PerceptionRow(nextId, ids.snapshot, ids.run)];
      } else if k == 3 {
        pending := pending + [ReasoningRow(nextId, ids.perception, ids.run)];
      } else if k == 4 {
        pending := pending + [EvaluationRow(nextId, ids.reasoning, ids.perception, ids.run)];
      } else if k == 5 {
        pending := pending + [DecisionRow(nextId, ids.evaluation, ids.run)];
      } else {
        pending := pending[runAt := RunRow(ids.run, ids.snapshot, Some(ids.decision))];
      }
      if k < 6 {
        nextId := nextId + 1;
      }
    }

    /** The seven statements in order, up to the first that raises. */
    method ExecuteStatements(f: Fault, ids: Ids) returns (error: Option<ErrorKind>)
      requires ids == IdsFrom(nextId)
      modifies this`nextId, this`pending
      ensures pending == old(pending) + AfterStatements(old(nextId), StatementsDone(f))
      ensures nextId == old(nextId) + InsertsOf(StatementsDone(f))
      ensures error == if StatementsDone(f) < STATEMENTS then TransactionError(f) else None
    {
      var base := nextId;
      ghost var before := pending;
      var runAt := |pending| + 1;
      var done := 0;
      while done < STATEMENTS
        invariant 0 <= done <= StatementsDone(f)
        invariant pending == before + AfterStatements(base, done)
        invariant nextId == base + InsertsOf(done)
      {
        if f.statement.Some? && f.statement.value.0 == done {
          return Some(f.statement.value.1);
        }
        ExecuteStatement(done, ids, runAt);
        NextPending(before, base, done);
        done := done + 1;
      }
      error := None;
    }

    /** Executes the statements in order on the pending rows, then commits; stops at the first fault. */
    method RunTransaction(f: Fault) returns (ids: Ids, error: Option<ErrorKind>)
      modifies this`commits, this`nextId, this`pending
      ensures error == TransactionError(f)
      ensures error.None? ==> ids == IdsFrom(old(nextId))
      ensures nextId == old(nextId) + InsertsOf(StatementsDone(f))
      ensures commits
           == if CommitTakesEffect(f) then old(commits) + [old(pending) + AfterStatements(old(nextId), 7)]
             else old(commits)
      ensures pending
           == if CommitTakesEffect(f) then [] else old(pending) + AfterStatements(old(nextId), StatementsDone(f))
    {
      ids := IdsFrom(nextId);
      error := ExecuteStatements(f, ids);
      if error.Some? {
        return ids, error;
      }
      if f.commit.Refused? {
        return ids, Some(f.commit.kind);
      }
      commits := commits + [pending];
      pending := [];
      error := if f.commit.AckLost? then Some(f.commit.kind) else None;
    }

    /** Rolls back the connection in use; a failing rollback is swallowed and leaves its rows pending. */
    method SafeRollback(fails: bool)
      modifies this`pending
      ensures pending == if fails then old(pending) else []
    {
      if !fails {
        pending := [];
      }
    }

    /** One attempt on the caller's connection when it is the first and one was given, else on a pooled one. */
    method RunAttempt(hasCaller: bool, f: Fault) returns (ids: Ids, error: Option<ErrorKind>, wrapped: bool)
      modifies this
      ensures (State(), error) == Attempt(old(State()), hasCaller, f)
      ensures error.None? ==> ids == IdsFrom(old(nextId))
      ensures wrapped <==> !Outside(f, UsesCaller(attempts, hasCaller))
    {
      attempts := attempts + 1;
      if attempts == 1 && hasCaller {
        callerUses := callerUses + 1;
        pending := callerPending;
        ids, error := RunTransaction(f);
        if error.Some? {
          SafeRollback(f.rollbackFails);
        }
        callerPending := pending;
        wrapped := true;
      } else {
        ids, error, wrapped := RunPooled(f);
      }
    }

    /** Borrows, runs the transaction, and gives the connection back whatever happened. */
    method RunPooled(f: Fault) returns (ids: Ids, error: Option<ErrorKind>, wrapped: bool)
      modifies this`commits, this`nextId, this`pending, this`borrowed, this`returned
      ensures error == AttemptError(f, false)
      ensures error.None? ==> ids == IdsFrom(old(nextId))
      ensures wrapped <==> !Outside(f, false)
      ensures borrowed == old(borrowed) + (if f.borrow.Denied? then 0 else 1)
      ensures returned == old(returned) + (if f.borrow.Denied? || f.giveBack.Some? then 0 else 1)
      ensures (commits, nextId)
           == if f.borrow.Lent? then (Transact(old(State()), false, f).commits, Transact(old(State()), false, f).nextId)
              else old((commits, nextId))
    {
      ids := IdsFrom(0);
      if f.borrow.Denied? {
        return ids, Some(f.borrow.kind), false;
      }
      borrowed := borrowed + 1;
      pending := [];
      if f.borrow.Unusable? {
        error, wrapped := Some(f.borrow.kind), false;
      } else {
        ids, error := RunTransaction(f);
        if error.Some? {
          SafeRollback(f.rollbackFails);
        }
        wrapped := true;
      }
      pending := [];
      if f.giveBack.Some? {
        error, wrapped := f.giveBack, false;
      } else {
        returned := returned + 1;
      }
    }

    /** Validates the payloads, then retries the six-row transaction on transient errors. */
    method ExecutePipeline(valid: bool, hasCaller: bool, faults: seq<Fault>) returns (out: Outcome)
      modifies this
      ensures !valid ==> out == InvalidInput && State() == old(State())
      ensures valid ==> (State(), out) == Retry(old(State()).(attempts := 0), hasCaller, MAX_ATTEMPTS, faults)
    {
      if !valid {
        return InvalidInput;
      }
      attempts := 0;
      out := WithRetry(hasCaller, MAX_ATTEMPTS, faults);
    }

    /** Calls one attempt after another until one succeeds, fails for good, or none is left. */
    method WithRetry(hasCaller: bool, maxAttempts: int, faults: seq<Fault>) returns (out: Outcome)
      modifies this
      ensures maxAttempts < 1 ==> out == InvalidInput && State() == old(State())
      ensures maxAttempts >= 1 ==> (State(), out) == Retry(old(State()), hasCaller, maxAttempts, faults)
    {
      if maxAttempts < 1 {
        return InvalidInput;
      }
      for attempt := 0 to maxAttempts
        invariant Retry(old(State()), hasCaller, maxAttempts, faults)
               == if attempt < maxAttempts then Retry(State(), hasCaller, maxAttempts - attempt, faults)
                 else (State(), WriteFailed)
      {
        var f := FaultAt(faults, attempts);
        var ids, error, wrapped := RunAttempt(hasCaller, f);
        if error.None? {
          return Returned(ids);
        }
        if !error.value.Transient? {
          return if error.value.Foreign? then ForeignEscaped else if wrapped then WriteFailed else DriverEscaped;
        }
        if attempt + 1 >= maxAttempts {
          break;
        }
      }
      out := WriteFailed;
    }
  }

  // ---------------------------------------------------------------- what every schedule of faults keeps

  lemma SevenStatementsLink(base: nat)
    ensures LinkedRun(AfterStatements(base, STATEMENTS), IdsFrom(base))
  {
  }

  /** The error of the i-th attempt (from 0) under a schedule. */
  function ErrorAt(faults: seq<Fault>, i: nat, hasCaller: bool): Option<ErrorKind> {
    AttemptError(FaultAt(faults, i), UsesCaller(i + 1, hasCaller))
  }

  predicate OutsideAt(faults: seq<Fault>, i: nat, hasCaller: bool) {
    Outside(FaultAt(faults, i), UsesCaller(i + 1, hasCaller))
  }

  /** The i-th attempt commits its rows. */
  predicate CommitsAt(faults: seq<Fault>, i: nat, hasCaller: bool) {
    Runs(FaultAt(faults, i), UsesCaller(i + 1, hasCaller)) && CommitTakesEffect(FaultAt(faults, i))
  }

  /** It commits them and still ends in an error: its acknowledgement is lost, or giving the connection back raises. */
  predicate CommitsUnseen(faults: seq<Fault>, i: nat, hasCaller: bool) {
    && CommitsAt(faults, i, hasCaller)
    && (FaultAt(faults, i).commit.AckLost? || (!UsesCaller(i + 1, hasCaller) && FaultAt(faults, i).giveBack.Some?))
  }

  function UnseenCommits(faults: seq<Fault>, lo: nat, hi: nat, hasCaller: bool): nat
    requires lo <= hi
    decreases hi - lo
  {
    if lo == hi then 0
    else (if CommitsUnseen(faults, lo, hasCaller) then 1 else 0) + UnseenCommits(faults, lo + 1, hi, hasCaller)
  }

  /** The i-th attempt borrows a connection and fails to give it back. */
  predicate KeepsAt(faults: seq<Fault>, i: nat, hasCaller: bool) {
    !UsesCaller(i + 1, hasCaller) && !FaultAt(faults, i).borrow.Denied? && FaultAt(faults, i).giveBack.Some?
  }

  function Kept(faults: seq<Fault>, lo: nat, hi: nat, hasCaller: bool): nat
    requires lo <= hi
    decreases hi - lo
  {
    if lo == hi then 0
    else (if KeepsAt(faults, lo, hasCaller) then 1 else 0) + Kept(faults, lo + 1, hi, hasCaller)
  }

  /** A batch is all of a run or nothing: six linked rows, after whatever the caller's connection held before. */
  ghost predicate WholeRun(batch: seq<Row>, callerPending: seq<Row>, ids: Ids) {
    && |batch| >= 6
    && (batch[..|batch| - 6] == [] || batch[..|batch| - 6] == callerPending)
    && LinkedRun(batch[|batch| - 6..], ids)
  }

  lemma BatchIsWholeRun(before: seq<Row>, base: nat, callerPending: seq<Row>)
    requires before == [] || before == callerPending
    ensures WholeRun(before + AfterStatements(base, STATEMENTS), callerPending, IdsFrom(base))
  {
    var rows := AfterStatements(base, STATEMENTS);
    SevenStatementsLink(base);
    assert (before + rows)[..|before|] == before && (before + rows)[|before|..] == rows;
  }

  /** One attempt commits one whole run or nothing, and gives back what it borrows unless giving back raises. */
  lemma AttemptSound(w: World, hasCaller: bool, f: Fault)
    ensures var (w', error) := Attempt(w, hasCaller, f);
            var caller := UsesCaller(w.attempts + 1, hasCaller);
            && w'.attempts == w.attempts + 1
            && w'.borrowed == w.borrowed + (if caller || f.borrow.Denied? then 0 else 1)
            && w'.returned == w.returned + (if caller || f.borrow.Denied? || f.giveBack.Some? then 0 else 1)
            && w'.callerUses == w.callerUses + (if caller then 1 else 0)
            && (!caller ==> w'.callerPending == w.callerPending)
            && (if Runs(f, caller) && CommitTakesEffect(f) then
                  w'.commits == w.commits
                    + [(if caller then w.callerPending else []) + AfterStatements(w.nextId, STATEMENTS)]
                else w'.commits == w.commits)
            && (error.None? ==> Runs(f, caller) && CommitTakesEffect(f) && f.commit.Applied?)
  {
  }

  /**
   * For every schedule of faults, from a world with `left` tries: the number of commits made is one for a returned run
   * plus one for each commit that went unseen; every attempt but the last failed transiently; a try is left unused only
   * when the last attempt was final; borrowed connections are all returned but those whose return raised.
   */
  lemma {:induction false} RetrySound(w: World, hasCaller: bool, left: nat, faults: seq<Fault>)
    requires left > 0
    ensures var (w', out) := Retry(w, hasCaller, left, faults);
            && 1 <= w'.attempts - w.attempts <= left
            && |w'.commits| == |w.commits| + UnseenCommits(faults, w.attempts, w'.attempts, hasCaller)
                               + (if out.Returned? then 1 else 0)
            && w.commits <= w'.commits
            && (forall i | w.attempts <= i < w'.attempts - 1 :: ErrorAt(faults, i, hasCaller) == Some(Transient))
            && (w'.attempts - w.attempts < left ==> ErrorAt(faults, w'.attempts - 1, hasCaller) != Some(Transient))
            && w'.borrowed - w.borrowed == w'.returned - w.returned + Kept(faults, w.attempts, w'.attempts, hasCaller)
            && w'.callerUses == w.callerUses + (if hasCaller && w.attempts == 0 then 1 else 0)
    decreases left
  {
    var f := FaultAt(faults, w.attempts);
    var (w1, error) := Attempt(w, hasCaller, f);
    AttemptSound(w, hasCaller, f);
    assert error == ErrorAt(faults, w.attempts, hasCaller);
    if error == Some(Transient) && left > 1 {
      RetrySound(w1, hasCaller, left - 1, faults);
      assert w.commits <= w1.commits;
    } else {
      assert UnseenCommits(faults, w.attempts + 1, w.attempts + 1, hasCaller) == 0;
      assert Kept(faults, w.attempts + 1, w.attempts + 1, hasCaller) == 0;
    }
  }

  /** How the loop ends, from the last attempt's error alone. */
  lemma {:induction false} RetryOutcome(w: World, hasCaller: bool, left: nat, faults: seq<Fault>)
    requires left > 0
    ensures var (w', out) := Retry(w, hasCaller, left, faults);
            && w'.attempts > 0
            && var last := w'.attempts - 1;
               out.Returned? == ErrorAt(faults, last, hasCaller).None?
               && (!out.Returned? ==>
                     out == Escape(ErrorAt(faults, last, hasCaller).value, OutsideAt(faults, last, hasCaller)))
    decreases left
  {
    var f := FaultAt(faults, w.attempts);
    var (w1, error) := Attempt(w, hasCaller, f);
    AttemptSound(w, hasCaller, f);
    if error == Some(Transient) && left > 1 {
      RetryOutcome(w1, hasCaller, left - 1, faults);
    }
  }

  ghost predicate Whole(batch: seq<Row>, held: seq<Row>) {
    exists ids :: WholeRun(batch, held, ids)
  }

  /** Every batch from the lo-th on is one linked run, after at most the rows `held`. */
  ghost predicate AllWhole(commits: seq<seq<Row>>, lo: nat, held: seq<Row>) {
    forall i | lo <= i < |commits| :: Whole(commits[i], held)
  }

  /** From commits c0 on, only whole runs were added, and a returned run is the last of them. */
  ghost predicate OnlyWholeRunsAdded(c0: seq<seq<Row>>, c: seq<seq<Row>>, held: seq<Row>, out: Outcome) {
    && |c0| <= |c| && c[..|c0|] == c0 && AllWhole(c, |c0|, held)
    && (out.Returned? ==> |c| > |c0| && WholeRun(c[|c| - 1], held, out.ids))
  }

  ghost predicate OneStep(c0: seq<seq<Row>>, c1: seq<seq<Row>>, held: seq<Row>, ids: Ids, failed: bool) {
    || (c1 == c0 && failed)
    || (|c1| == |c0| + 1 && c1[..|c0|] == c0 && WholeRun(c1[|c0|], held, ids))
  }

  lemma OneStepThenMore(c0: seq<seq<Row>>, c1: seq<seq<Row>>, c: seq<seq<Row>>, held: seq<Row>, ids: Ids, failed: bool,
                        out: Outcome)
    requires OneStep(c0, c1, held, ids, failed) && OnlyWholeRunsAdded(c1, c, held, out)
    ensures OnlyWholeRunsAdded(c0, c, held, out)
  {
    assert c[..|c0|] == c[..|c1|][..|c0|];
    if |c1| > |c0| {
      assert c[|c0|] == c[..|c1|][|c0|] == c1[|c0|];
      assert Whole(c[|c0|], held);
    }
  }

  lemma OneStepEnds(c0: seq<seq<Row>>, c1: seq<seq<Row>>, held: seq<Row>, ids: Ids, failed: bool, out: Outcome)
    requires OneStep(c0, c1, held, ids, failed) && out.Returned? == !failed && (out.Returned? ==> out.ids == ids)
    ensures OnlyWholeRunsAdded(c0, c1, held, out)
  {
    if |c1| > |c0| { assert Whole(c1[|c0|], held); }
  }

  /** One attempt adds nothing, and then it failed, or adds one whole run. */
  lemma AttemptIsWhole(w: World, hasCaller: bool, f: Fault, held: seq<Row>)
    requires w.attempts == 0 ==> w.callerPending == held
    ensures var (w', error) := Attempt(w, hasCaller, f);
            OneStep(w.commits, w'.commits, held, IdsFrom(w.nextId), error.Some?)
  {
    var caller := UsesCaller(w.attempts + 1, hasCaller);
    AttemptSound(w, hasCaller, f);
    if Runs(f, caller) && CommitTakesEffect(f) {
      var before := if caller then w.callerPending else [];
      BatchIsWholeRun(before, w.nextId, held);
      assert Attempt(w, hasCaller, f).0.commits == w.commits + [before + AfterStatements(w.nextId, STATEMENTS)];
    }
  }

  /**
   * Whatever is committed is whole: each batch is one linked run, after at most the rows the caller's connection
   * already held, and a returned run is the last of them.
   */
  lemma {:induction false} CommitsAreWholeRuns(w: World, hasCaller: bool, left: nat, faults: seq<Fault>, held: seq<Row>)
    requires left > 0
    requires w.attempts == 0 ==> w.callerPending == held
    ensures var (w', out) := Retry(w, hasCaller, left, faults);
            OnlyWholeRunsAdded(w.commits, w'.commits, held, out)
    decreases left
  {
    var f := FaultAt(faults, w.attempts);
    var (w1, error) := Attempt(w, hasCaller, f);
    AttemptIsWhole(w, hasCaller, f, held);
    var (w', out) := Retry(w, hasCaller, left, faults);
    if error == Some(Transient) && left > 1 {
      assert w1.attempts > 0;
      CommitsAreWholeRuns(w1, hasCaller, left - 1, faults, held);
      OneStepThenMore(w.commits, w1.commits, w'.commits, held, IdsFrom(w.nextId), error.Some?, out);
    } else {
      OneStepEnds(w.commits, w1.commits, held, IdsFrom(w.nextId), error.Some?, out);
    }
  }

  /** The attempt (from 0) a call ends with: the first that does not fail transiently, or the last allowed. */
  function LastAttempt(faults: seq<Fault>, hasCaller: bool): (i: nat)
    ensures i < MAX_ATTEMPTS
  {
    if ErrorAt(faults, 0, hasCaller) != Some(Transient) then 0
    else if ErrorAt(faults, 1, hasCaller) != Some(Transient) then 1
    else 2
  }

  /** The loop goes on after transient errors only, and uses every try they leave. */
  lemma RetryStops(w: World, hasCaller: bool, left: nat, faults: seq<Fault>)
    requires left > 0
    ensures var n := Retry(w, hasCaller, left, faults).0.attempts - w.attempts;
            n == if left == 1 || ErrorAt(faults, w.attempts, hasCaller) != Some(Transient) then 1
                 else 1 + Retry(Attempt(w, hasCaller, FaultAt(faults, w.attempts)).0, hasCaller, left - 1,
                                faults).0.attempts
                      - (w.attempts + 1)
  {
    AttemptSound(w, hasCaller, FaultAt(faults, w.attempts));
  }

  lemma LastAttemptIsLast(w: World, hasCaller: bool, faults: seq<Fault>)
    requires w.attempts == 0
    ensures Retry(w, hasCaller, MAX_ATTEMPTS, faults).0.attempts == LastAttempt(faults, hasCaller) + 1
  {
    var w1 := Attempt(w, hasCaller, FaultAt(faults, 0)).0;
    var w2 := Attempt(w1, hasCaller, FaultAt(faults, 1)).0;
    AttemptSound(w, hasCaller, FaultAt(faults, 0));
    AttemptSound(w1, hasCaller, FaultAt(faults, 1));
    RetryStops(w, hasCaller, 3, faults);
    RetryStops(w1, hasCaller, 2, faults);
    RetryStops(w2, hasCaller, 1, faults);
  }

  /**
   * Exactly-once writing: a returned run is the only thing committed and an exception leaves nothing committed, exactly
   * when no attempt up to the last commits and still ends in an error.
   */
  lemma ExactlyOnceIff(w: World, hasCaller: bool, faults: seq<Fault>)
    requires w.attempts == 0
    ensures var (w', out) := Retry(w, hasCaller, MAX_ATTEMPTS, faults);
            (|w'.commits| - |w.commits| == (if out.Returned? then 1 else 0))
              <==> (forall i: nat | i <= LastAttempt(faults, hasCaller) :: !CommitsUnseen(faults, i, hasCaller))
  {
    LastAttemptIsLast(w, hasCaller, faults);
    RetrySound(w, hasCaller, MAX_ATTEMPTS, faults);
    NoUnseenCommits(faults, 0, LastAttempt(faults, hasCaller) + 1, hasCaller);
  }

  lemma {:induction false} NoUnseenCommits(faults: seq<Fault>, lo: nat, hi: nat, hasCaller: bool)
    requires lo <= hi
    ensures (UnseenCommits(faults, lo, hi, hasCaller) == 0)
       <==> (forall i: nat | lo <= i < hi :: !CommitsUnseen(faults, i, hasCaller))
    decreases hi - lo
  {
    if lo < hi { NoUnseenCommits(faults, lo + 1, hi, hasCaller); }
  }

  /** Every borrowed connection is given back exactly when no attempt up to the last raises while giving one back. */
  lemma AllGivenBackIff(w: World, hasCaller: bool, faults: seq<Fault>)
    requires w.attempts == 0
    ensures var w' := Retry(w, hasCaller, MAX_ATTEMPTS, faults).0;
            (w'.borrowed - w.borrowed == w'.returned - w.returned)
              <==> (forall i: nat | i <= LastAttempt(faults, hasCaller) :: !KeepsAt(faults, i, hasCaller))
  {
    LastAttemptIsLast(w, hasCaller, faults);
    RetrySound(w, hasCaller, MAX_ATTEMPTS, faults);
    NoneKept(faults, 0, LastAttempt(faults, hasCaller) + 1, hasCaller);
  }

  lemma {:induction false} NoneKept(faults: seq<Fault>, lo: nat, hi: nat, hasCaller: bool)
    requires lo <= hi
    ensures (Kept(faults, lo, hi, hasCaller) == 0) <==> (forall i: nat | lo <= i < hi :: !KeepsAt(faults, i, hasCaller))
    decreases hi - lo
  {
    if lo < hi { NoneKept(faults, lo + 1, hi, hasCaller); }
  }

  /** The last attempt's pool raises a driver error that is not transient, at lending, set-up or giving back. */
  predicate PoolRaisesDriver(f: Fault) {
    || f.borrow == Denied(Driver)
    || (!f.borrow.Denied? && f.giveBack == Some(Driver))
    || (f.borrow == Unusable(Driver) && f.giveBack.None?)
  }

  /**
   * A driver error leaves unwrapped exactly when the last attempt is on a pooled connection and the pool raises it:
   * lending, set-up and giving back stand outside the handler that wraps driver errors.
   */
  lemma DriverEscapesIff(w: World, hasCaller: bool, faults: seq<Fault>)
    requires w.attempts == 0
    ensures var last := LastAttempt(faults, hasCaller);
            (Retry(w, hasCaller, MAX_ATTEMPTS, faults).1.DriverEscaped?)
              <==> (!UsesCaller(last + 1, hasCaller) && PoolRaisesDriver(FaultAt(faults, last)))
  {
    LastAttemptIsLast(w, hasCaller, faults);
    RetryOutcome(w, hasCaller, MAX_ATTEMPTS, faults);
  }

  /**
   * The pool was closed meanwhile: the run is committed, giving back raises, and the caller sees a raw driver error.
   */
  lemma RaisingGiveBackHidesCommit(w: World, faults: seq<Fault>)
    requires w.attempts == 0 && faults == [NO_FAULT.(giveBack := Some(Driver))]
    ensures var (w', out) := Retry(w, false, MAX_ATTEMPTS, faults);
            out.DriverEscaped? && |w'.commits| == |w.commits| + 1
  {
    assert FaultAt(faults, 0).giveBack == Some(Driver);
    AttemptSound(w, false, FaultAt(faults, 0));
  }

  /**
   * A transient error there is retried, and a lost acknowledgement is too: the call returns with two runs committed.
   */
  lemma UnseenCommitIsRepeated(w: World, faults: seq<Fault>)
    requires w.attempts == 0
    requires faults == [NO_FAULT.(giveBack := Some(Transient))] || faults == [NO_FAULT.(commit := AckLost(Transient))]
    ensures var (w', out) := Retry(w, false, MAX_ATTEMPTS, faults); out.Returned? && |w'.commits| == |w.commits| + 2
  {
    AttemptSound(w, false, faults[0]);
    var w1 := Attempt(w, false, faults[0]).0;
    assert FaultAt(faults, 1) == NO_FAULT;
    AttemptSound(w1, false, NO_FAULT);
    assert Retry(w1, false, 2, faults) == (Attempt(w1, false, NO_FAULT).0, Returned(IdsFrom(w1.nextId)));
  }

  // ---------------------------------------------------------------- the attempts, told by what goes wrong

  /** One of the seven statements raises. */
  ghost predicate StatementRaises(f: Fault) {
    f.statement.Some? && f.statement.value.0 < 7
  }

  /**
   * An attempt's rows become durable exactly when its transaction runs on the caller's or a lent connection, none of
   * its seven statements raises and the commit is not refused; then they are its six linked rows, after the rows the
   * caller's connection already held.
   */
  lemma CommitTold(w: World, hasCaller: bool, f: Fault)
    ensures var w', onCaller := Attempt(w, hasCaller, f).0, hasCaller && w.attempts == 0;
            var committed := (onCaller || f.borrow.Lent?) && !StatementRaises(f) && !f.commit.Refused?;
            w'.commits == w.commits
              + if committed then [(if onCaller then w.callerPending else []) + AfterStatements(w.nextId, 7)] else []
  {
  }

  /** The ids an attempt consumes: one for each insert reached, six at most, none when no connection could be used. */
  lemma IdsTold(w: World, hasCaller: bool, f: Fault)
    ensures var used := Attempt(w, hasCaller, f).0.nextId - w.nextId;
            && ((hasCaller && w.attempts == 0) || f.borrow.Lent? ==>
                  used == if StatementRaises(f) && f.statement.value.0 < 6 then f.statement.value.0 else 6)
            && (!(hasCaller && w.attempts == 0) && !f.borrow.Lent? ==> used == 0)
  {
  }

  /** The error an attempt ends with: one of its transaction, unless the pool raises, giving back last of all. */
  lemma ErrorTold(w: World, hasCaller: bool, f: Fault, kind: ErrorKind)
    ensures var error, onCaller := Attempt(w, hasCaller, f).1, hasCaller && w.attempts == 0;
            && (onCaller || (f.borrow.Lent? && f.giveBack.None?) ==>
                  && (error == None <==> !StatementRaises(f) && f.commit == Applied)
                  && (StatementRaises(f) ==> error == Some(f.statement.value.1))
                  && (!StatementRaises(f) && (f.commit == Refused(kind) || f.commit == AckLost(kind)) ==>
                        error == Some(kind)))
            && (!onCaller && f.borrow == Denied(kind) ==> error == Some(kind))
            && (!onCaller && !f.borrow.Denied? && f.giveBack == Some(kind) ==> error == Some(kind))
            && (!onCaller && f.borrow == Unusable(kind) && f.giveBack == None ==> error == Some(kind))
  {
  }

  /**
   * What the caller's connection holds after a call: untouched without one; empty once the first attempt committed or
   * was rolled back; and, when the rollback raised, what it held before and the first attempt's rows.
   */
  lemma {:induction false} CallerTold(w: World, hasCaller: bool, left: nat, faults: seq<Fault>)
    requires left > 0
    ensures var held, f := Retry(w, hasCaller, left, faults).0.callerPending, FaultAt(faults, w.attempts);
            if !hasCaller || w.attempts > 0 then held == w.callerPending
            else if (!StatementRaises(f) && !f.commit.Refused?) || !f.rollbackFails then held == []
            else w.callerPending <= held && |held| <= |w.callerPending| + 6
    decreases left
  {
    var f := FaultAt(faults, w.attempts);
    var (w1, error) := Attempt(w, hasCaller, f);
    AttemptSound(w, hasCaller, f);
    if error == Some(Transient) && left > 1 { CallerTold(w1, hasCaller, left - 1, faults); }
  }

  /** A call makes one to three attempts; fewer than three only when the last one's error was none or not transient. */
  lemma AttemptsTold(w: World, hasCaller: bool, faults: seq<Fault>)
    requires w.attempts == 0
    ensures var n := Retry(w, hasCaller, MAX_ATTEMPTS, faults).0.attempts;
            && 1 <= n <= 3 && (n < 3 ==> ErrorAt(faults, n - 1, hasCaller) != Some(Transient))
            && (forall i | 0 <= i < n - 1 :: ErrorAt(faults, i, hasCaller) == Some(Transient))
  {
    RetrySound(w, hasCaller, MAX_ATTEMPTS, faults);
  }

  /** A call returns, fails as a database error or lets the error through according to its last attempt's error. */
  lemma OutcomeTold(w: World, hasCaller: bool, faults: seq<Fault>)
    requires w.attempts == 0
    ensures var out, error := Retry(w, hasCaller, MAX_ATTEMPTS, faults).1,
                              ErrorAt(faults, LastAttempt(faults, hasCaller), hasCaller);
            && (out.Returned? <==> error == None) && (out == ForeignEscaped <==> error == Some(Foreign))
            && (error == Some(Transient) ==> out == WriteFailed)
            && (error == Some(Driver) ==> out == WriteFailed || out == DriverEscaped) && out != InvalidInput
  {
    LastAttemptIsLast(w, hasCaller, faults);
    RetryOutcome(w, hasCaller, MAX_ATTEMPTS, faults);
  }
}
