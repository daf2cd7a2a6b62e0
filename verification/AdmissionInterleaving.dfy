/**
 Creator admission with its transactions interleaved statement by statement, under read committed. A transaction
 is the first replay check, its locks, the second replay check, and the commit of its writes, which it computes from the
 row it read when it took the row's lock. A draft save takes the applicant's advisory lock, checks again, and
 only then locks the row; a submission and a review lock the row first and check again under that lock. Any transaction
 may be dropped before its commit; it is rolled back then.
 */
module AdmissionInterleaving {
  import opened Common
  import opened CreatorAdmission
  import opened AdmissionHistory

  datatype Stage =
    | Opened
    | Checked
    | Guarded
    | Cleared
    | Holding(row: Option<Application>)
    | Ready(row: Option<Application>)
    | Finished(outcome: Outcome)

  datatype Transaction = Transaction(request: Request, stage: Stage)

  /**
   `committed` lists the requests whose writes were committed, in that order, and `authors` their transactions; nothing
   reads them.
   */
  datatype System = System(
    db: Db,
    transactions: map<Uuid, Transaction>,
    applicantLocks: map<Uuid, Uuid>,
    rowLocks: map<Uuid, Uuid>,
    committed: seq<Request>,
    authors: seq<Uuid>)

  const IDLE := System(EMPTY_DB, map[], map[], map[], [], [])

  datatype Move = Begin(t: Uuid, request: Request) | Advance(t: Uuid) | Drop(t: Uuid)

  /** The lock named `name` is free or already held by `t`. */
  predicate Available(locks: map<Uuid, Uuid>, name: Uuid, t: Uuid) {
    name in locks ==> locks[name] == t
  }

  function WithoutHolder(locks: map<Uuid, Uuid>, t: Uuid): map<Uuid, Uuid> {
    map name | name in locks && locks[name] != t :: locks[name]
  }

  function AtStage(s: System, t: Uuid, stage: Stage): System
    requires t in s.transactions
  {
    s.(transactions := s.transactions[t := s.transactions[t].(stage := stage)])
  }

  /** The end of a transaction releases all its locks. */
  function Finish(s: System, t: Uuid, outcome: Outcome): System
    requires t in s.transactions
  {
    AtStage(s, t, Finished(outcome)).(
      applicantLocks := WithoutHolder(s.applicantLocks, t),
      rowLocks := WithoutHolder(s.rowLocks, t))
  }

  /** A replay check. Answering a repeated request reads its application under the row's lock, so it may have to wait. */
  function Check(s: System, t: Uuid, target: Option<Uuid>, next: Stage): System
    requires t in s.transactions
  {
    match Replay(s.db, s.transactions[t].request.context, target)
    case None => AtStage(s, t, next)
    case Some(outcome) =>
      if outcome.Replayed? && !Available(s.rowLocks, outcome.application.id, t) then s
      else Finish(s, t, outcome)
  }

  function LockRow(s: System, t: Uuid): System
    requires t in s.transactions
  {
    match RowFor(s.db, s.transactions[t].request)
    case None =>
      if s.transactions[t].request.SaveDraftRequest? then AtStage(s, t, Holding(None)) else Finish(s, t, NotFound)
    case Some(row) =>
      if !Available(s.rowLocks, row.id, t) then s
      else AtStage(s, t, Holding(Some(row))).(rowLocks := s.rowLocks[row.id := t])
  }

  function Commit(s: System, t: Uuid, row: Option<Application>): System
    requires t in s.transactions
  {
    var request := s.transactions[t].request;
    var (db, outcome) := Write(s.db, request, row);
    if outcome.Changed?
    then Finish(s, t, outcome).(db := db, committed := s.committed + [request], authors := s.authors + [t])
    else Finish(s, t, outcome)
  }

  /** The target of the second check: a submission now knows its application. */
  function SecondTarget(request: Request, row: Option<Application>): Option<Uuid> {
    if request.SaveDraftRequest? || row.None? then None else Some(row.value.id)
  }

  function Advanced(s: System, t: Uuid): System
    requires t in s.transactions
  {
    var request := s.transactions[t].request;
    match s.transactions[t].stage
    case Opened => Check(s, t, ReplayTarget(request), Checked)
    case Checked =>
      if !request.SaveDraftRequest? then LockRow(s, t)
      else if !Available(s.applicantLocks, request.context.actor, t) then s
      else AtStage(s, t, Guarded).(applicantLocks := s.applicantLocks[request.context.actor := t])
    case Guarded => Check(s, t, None, Cleared)
    case Cleared => LockRow(s, t)
    case Holding(row) =>
      if request.SaveDraftRequest? then Commit(s, t, row) else Check(s, t, SecondTarget(request, row), Ready(row))
    case Ready(row) => Commit(s, t, row)
    case Finished(_) => s
  }

  function Step(s: System, a: Move): System {
    match a
    case Begin(t, request) =>
      if t in s.transactions || !WellFormed(request) then s
      else s.(transactions := s.transactions[t := Transaction(request, Opened)])
    case Advance(t) => if t in s.transactions then Advanced(s, t) else s
    case Drop(t) => if t in s.transactions && !s.transactions[t].stage.Finished? then Finish(s, t, Dropped) else s
  }

  function Schedule(s: System, moves: seq<Move>): System
    decreases |moves|
  {
    if moves == [] then s else Step(Schedule(s, moves[..|moves| - 1]), moves[|moves| - 1])
  }

  /** A statement belongs to one transaction; the others stay where they are. */
  ghost predicate TouchesOnly(s: System, s': System, t: Uuid)
    requires t in s.transactions
  {
    && s'.transactions.Keys == s.transactions.Keys
    && s'.transactions[t].request == s.transactions[t].request
    && forall x | x in s.transactions && x != t :: s'.transactions[x] == s.transactions[x]
  }

  lemma FinishTouchesOne(s: System, t: Uuid, outcome: Outcome)
    requires t in s.transactions
    ensures TouchesOnly(s, Finish(s, t, outcome), t)
  {
    hide WithoutHolder;
  }

  lemma CheckTouchesOne(s: System, t: Uuid, target: Option<Uuid>, next: Stage)
    requires t in s.transactions
    ensures TouchesOnly(s, Check(s, t, target, next), t)
  {
    hide Replay, Finish, Available;
    var answer := Replay(s.db, s.transactions[t].request.context, target);
    if answer.Some? {
      FinishTouchesOne(s, t, answer.value);
    }
  }

  lemma LockRowTouchesOne(s: System, t: Uuid)
    requires t in s.transactions
    ensures TouchesOnly(s, LockRow(s, t), t)
  {
    hide RowFor, Finish, Available;
    FinishTouchesOne(s, t, NotFound);
  }

  lemma CommitTouchesOne(s: System, t: Uuid, row: Option<Application>)
    requires t in s.transactions
    ensures TouchesOnly(s, Commit(s, t, row), t)
  {
    hide Write, Finish;
    FinishTouchesOne(s, t, Write(s.db, s.transactions[t].request, row).1);
  }

  lemma AdvanceTouchesOne(s: System, t: Uuid)
    requires t in s.transactions
    ensures TouchesOnly(s, Advanced(s, t), t)
  {
    var request := s.transactions[t].request;
    hide Check, LockRow, Commit, Available, ReplayTarget, SecondTarget;
    match s.transactions[t].stage {
      case Opened => CheckTouchesOne(s, t, ReplayTarget(request), Checked);
      case Checked => LockRowTouchesOne(s, t);
      case Guarded => CheckTouchesOne(s, t, None, Cleared);
      case Cleared => LockRowTouchesOne(s, t);
      case Holding(row) =>
        CommitTouchesOne(s, t, row);
        CheckTouchesOne(s, t, SecondTarget(request, row), Ready(row));
      case Ready(row) => CommitTouchesOne(s, t, row);
      case Finished(_) =>
    }
  }

  /** A step leaves every request, and every transaction but the one that moves. */
  lemma StepTouchesOne(s: System, a: Move)
    ensures forall x | x in s.transactions ::
              x in Step(s, a).transactions && Step(s, a).transactions[x].request == s.transactions[x].request
    ensures forall x | x != a.t :: x in Step(s, a).transactions ==> x in s.transactions
    ensures forall x | x != a.t && x in s.transactions :: Step(s, a).transactions[x] == s.transactions[x]
  {
    if a.t in s.transactions {
      AdvanceTouchesOne(s, a.t);
      FinishTouchesOne(s, a.t, Dropped);
    }
    hide Advanced, Finish;
  }

  // ----- What the locks protect -----

  ghost predicate TransactionOk(s: System, t: Uuid)
    requires t in s.transactions
  {
    var request := s.transactions[t].request;
    && WellFormed(request)
    && match s.transactions[t].stage
       case Opened => true
       case Checked => true
       case Guarded =>
         request.SaveDraftRequest? && HasLock(s.applicantLocks, request.context.actor, t)
       case Cleared =>
         request.SaveDraftRequest? && HasLock(s.applicantLocks, request.context.actor, t)
       case Holding(row) =>
         && (request.SaveDraftRequest? ==> HasLock(s.applicantLocks, request.context.actor, t))
         && (!request.SaveDraftRequest? ==> row.Some?)
         && RowFor(s.db, request) == row
         && (row.Some? ==> HasLock(s.rowLocks, row.value.id, t))
       case Ready(row) =>
         && !request.SaveDraftRequest?
         && row.Some? && RowFor(s.db, request) == row
         && HasLock(s.rowLocks, row.value.id, t)
       case Finished(_) => true
  }

  predicate HasLock(locks: map<Uuid, Uuid>, name: Uuid, t: Uuid) {
    name in locks && locks[name] == t
  }

  ghost predicate LocksOk(s: System) {
    && (forall t | t in s.transactions :: TransactionOk(s, t))
    && (forall a | a in s.applicantLocks :: s.applicantLocks[a] in s.transactions)
    && (forall a | a in s.rowLocks :: s.rowLocks[a] in s.transactions)
  }

  /** What a write does to the applications and their index. */
  lemma WriteEffect(db: Db, r: Request, row: Option<Application>)
    requires WellFormed(r)
    ensures var (db', outcome) := Write(db, r, row);
            if outcome.Changed? then
              var saved := outcome.application;
              && db'.applications == db.applications[saved.id := saved]
              && db'.byApplicant == (if row.None? then db.byApplicant[saved.applicant := saved.id] else db.byApplicant)
              && (row.None? ==> r.SaveDraftRequest? && saved.applicant == r.context.actor && saved.id !in db.applications)
              && (row.Some? ==> saved.id == row.value.id && saved.applicant == row.value.applicant)
            else db' == db
  {
    hide Latest, SnapshotsOf, FindKey;
  }

  /** A write to one row leaves the row of a request that works on another, or has none while its applicant stays without. */
  lemma WriteKeepsOtherRow(db: Db, r: Request, row: Option<Application>, other: Request)
    requires WellFormed(r) && Indexed(db) && RowFor(db, r) == row
    requires RowFor(db, other).Some? && row.Some? ==> RowFor(db, other).value.id != row.value.id
    requires RowFor(db, other).None? ==>
               other.SaveDraftRequest? && (r.SaveDraftRequest? ==> other.context.actor != r.context.actor)
    ensures RowFor(Write(db, r, row).0, other) == RowFor(db, other)
  {
    WriteEffect(db, r, row);
    hide Write;
  }

  /** A commit leaves the row of every other transaction that holds its lock, or the applicant's lock, as it was. */
  lemma CommitKeepsOtherRows(s: System, t: Uuid, row: Option<Application>, other: Uuid)
    requires LocksOk(s) && Indexed(s.db)
    requires t in s.transactions && other in s.transactions && other != t
    requires s.transactions[t].stage == Holding(row) || s.transactions[t].stage == Ready(row)
    requires s.transactions[other].stage.Holding? || s.transactions[other].stage.Ready?
    ensures RowFor(Commit(s, t, row).db, s.transactions[other].request) == RowFor(s.db, s.transactions[other].request)
  {
    assert TransactionOk(s, t) && TransactionOk(s, other);
    hide RowFor, Write, Indexed, LocksOk;
    WriteKeepsOtherRow(s.db, s.transactions[t].request, row, s.transactions[other].request);
  }

  /**
   A step that changes neither the tables, nor other transactions, nor the locks they hold, is checked on its own
   transaction alone.
   */
  lemma OwnStepKeepsLocks(s: System, s': System, t: Uuid)
    requires LocksOk(s) && s'.db == s.db && s'.transactions.Keys == s.transactions.Keys && t in s.transactions
    requires forall x | x in s.transactions && x != t :: s'.transactions[x] == s.transactions[x]
    requires forall n, x | x in s.transactions && x != t && HasLock(s.applicantLocks, n, x) :: HasLock(s'.applicantLocks, n, x)
    requires forall n, x | x in s.transactions && x != t && HasLock(s.rowLocks, n, x) :: HasLock(s'.rowLocks, n, x)
    requires forall n | n in s'.applicantLocks :: s'.applicantLocks[n] in s.transactions
    requires forall n | n in s'.rowLocks :: s'.rowLocks[n] in s.transactions
    requires TransactionOk(s', t)
    ensures LocksOk(s')
  {
    hide RowFor;
    forall x | x in s'.transactions
      ensures TransactionOk(s', x)
    {
      assert TransactionOk(s, x);
    }
  }

  lemma StaysOk(s: System, s': System, x: Uuid)
    requires x in s.transactions && TransactionOk(s, x) && x in s'.transactions && s'.transactions[x] == s.transactions[x]
    requires forall n :: HasLock(s.applicantLocks, n, x) ==> HasLock(s'.applicantLocks, n, x)
    requires forall n :: HasLock(s.rowLocks, n, x) ==> HasLock(s'.rowLocks, n, x)
    requires s.transactions[x].stage.Holding? || s.transactions[x].stage.Ready? ==>
               RowFor(s'.db, s.transactions[x].request) == RowFor(s.db, s.transactions[x].request)
    ensures TransactionOk(s', x)
  {
    hide RowFor, HasLock;
  }

  lemma CommitReleasesOwn(s: System, t: Uuid, row: Option<Application>, other: Uuid)
    requires t in s.transactions && other in s.transactions && other != t
    ensures var s' := Commit(s, t, row);
            && other in s'.transactions && s'.transactions[other] == s.transactions[other]
            && (forall n :: HasLock(s.applicantLocks, n, other) ==> HasLock(s'.applicantLocks, n, other))
            && (forall n :: HasLock(s.rowLocks, n, other) ==> HasLock(s'.rowLocks, n, other))
  {
    hide Write;
  }

  /** Another transaction's locks and row survive, so what it stands on does. */
  lemma CommitKeepsOther(s: System, t: Uuid, row: Option<Application>, other: Uuid)
    requires LocksOk(s) && Indexed(s.db) && t in s.transactions && other in s.transactions && other != t
    requires s.transactions[t].stage == Holding(row) || s.transactions[t].stage == Ready(row)
    ensures other in Commit(s, t, row).transactions && TransactionOk(Commit(s, t, row), other)
  {
    assert TransactionOk(s, other);
    hide *;
    if s.transactions[other].stage.Holding? || s.transactions[other].stage.Ready? {
      CommitKeepsOtherRows(s, t, row, other);
    }
    CommitReleasesOwn(s, t, row, other);
    StaysOk(s, Commit(s, t, row), other);
  }

  lemma CommitKeepsLocks(s: System, t: Uuid, row: Option<Application>)
    requires LocksOk(s) && Indexed(s.db) && t in s.transactions
    requires s.transactions[t].stage == Holding(row) || s.transactions[t].stage == Ready(row)
    ensures LocksOk(Commit(s, t, row))
  {
    var s' := Commit(s, t, row);
    assert TransactionOk(s, t);
    forall other | other in s'.transactions && other != t
      ensures TransactionOk(s', other)
    {
      CommitKeepsOther(s, t, row, other);
    }
    hide Write, RowFor, Indexed;
    assert TransactionOk(s', t);
  }

  lemma CheckKeepsLocks(s: System, t: Uuid, target: Option<Uuid>, next: Stage)
    requires LocksOk(s) && t in s.transactions && TransactionOk(AtStage(s, t, next), t)
    ensures LocksOk(Check(s, t, target, next))
  {
    hide Replay, RowFor;
    FinishKeepsLocks(s, t, Conflict);
    if Replay(s.db, s.transactions[t].request.context, target).Some? {
      FinishKeepsLocks(s, t, Replay(s.db, s.transactions[t].request.context, target).value);
    }
    OwnStepKeepsLocks(s, AtStage(s, t, next), t);
  }

  lemma FinishKeepsLocks(s: System, t: Uuid, outcome: Outcome)
    requires LocksOk(s) && t in s.transactions
    ensures LocksOk(Finish(s, t, outcome))
  {
    hide RowFor;
    assert TransactionOk(s, t);
    OwnStepKeepsLocks(s, Finish(s, t, outcome), t);
  }

  lemma RowTakenKeepsLocks(s: System, t: Uuid, row: Option<Application>)
    requires LocksOk(s) && t in s.transactions && RowFor(s.db, s.transactions[t].request) == row
    requires s.transactions[t].stage == if s.transactions[t].request.SaveDraftRequest? then Cleared else Checked
    requires s.transactions[t].request.SaveDraftRequest? || row.Some?
    requires row.Some? ==> Available(s.rowLocks, row.value.id, t)
    ensures LocksOk(AtStage(s, t, Holding(row)).(rowLocks := if row.Some? then s.rowLocks[row.value.id := t] else s.rowLocks))
  {
    assert TransactionOk(s, t);
    hide RowFor;
    var locks := if row.Some? then s.rowLocks[row.value.id := t] else s.rowLocks;
    OwnStepKeepsLocks(s, AtStage(s, t, Holding(row)).(rowLocks := locks), t);
  }

  lemma LockRowKeepsLocks(s: System, t: Uuid)
    requires LocksOk(s) && t in s.transactions
    requires s.transactions[t].stage == if s.transactions[t].request.SaveDraftRequest? then Cleared else Checked
    ensures LocksOk(LockRow(s, t))
  {
    FinishKeepsLocks(s, t, NotFound);
    hide RowFor, LocksOk, Finish;
    var row := RowFor(s.db, s.transactions[t].request);
    if row.Some? && Available(s.rowLocks, row.value.id, t) {
      RowTakenKeepsLocks(s, t, row);
    } else if row.None? && s.transactions[t].request.SaveDraftRequest? {
      RowTakenKeepsLocks(s, t, row);
    }
    assert AtStage(s, t, Holding(None)).(rowLocks := s.rowLocks) == AtStage(s, t, Holding(None));
  }

  lemma AdvanceKeepsLocks(s: System, t: Uuid)
    requires LocksOk(s) && Indexed(s.db) && t in s.transactions
    ensures LocksOk(Advanced(s, t))
  {
    assert TransactionOk(s, t);
    var request, stage := s.transactions[t].request, s.transactions[t].stage;
    hide LocksOk, RowFor, Replay, Write, Indexed, Check, LockRow, Commit;
    match stage {
      case Opened => CheckKeepsLocks(s, t, ReplayTarget(request), Checked);
      case Checked =>
        if !request.SaveDraftRequest? {
          LockRowKeepsLocks(s, t);
        } else if Available(s.applicantLocks, request.context.actor, t) {
          AdvisoryKeepsLocks(s, t);
        }
      case Guarded => CheckKeepsLocks(s, t, None, Cleared);
      case Cleared => LockRowKeepsLocks(s, t);
      case Holding(row) =>
        if request.SaveDraftRequest? {
          CommitKeepsLocks(s, t, row);
        } else {
          CheckKeepsLocks(s, t, SecondTarget(request, row), Ready(row));
        }
      case Ready(row) => CommitKeepsLocks(s, t, row);
      case Finished(_) =>
    }
  }

  lemma AdvisoryKeepsLocks(s: System, t: Uuid)
    requires LocksOk(s) && t in s.transactions && s.transactions[t].request.SaveDraftRequest?
    requires s.transactions[t].stage == Checked && Available(s.applicantLocks, s.transactions[t].request.context.actor, t)
    ensures LocksOk(Advanced(s, t))
  {
    hide RowFor;
    assert TransactionOk(s, t);
    OwnStepKeepsLocks(s, Advanced(s, t), t);
  }

  // ----- Serializability -----

  /** A committed transaction did what it would have done alone at the moment of its commit. */
  lemma CommitIsApply(s: System, t: Uuid, row: Option<Application>)
    requires LocksOk(s) && t in s.transactions
    requires s.transactions[t].stage == Holding(row) || s.transactions[t].stage == Ready(row)
    requires Write(s.db, s.transactions[t].request, row).1.Changed?
    ensures Apply(s.db, s.transactions[t].request) == Write(s.db, s.transactions[t].request, row)
  {
    assert TransactionOk(s, t);
    hide Latest, SnapshotsOf, FindKey, RowFor;
  }

  ghost predicate Serialized(s: System) {
    LocksOk(s) && s.db == Run(EMPTY_DB, s.committed)
  }

  lemma StepKeepsSerialized(s: System, a: Move)
    requires Serialized(s)
    ensures Serialized(Step(s, a))
  {
    HistoryOfEveryRun(s.committed);
    match a {
      case Begin(t, request) =>
        var s' := Step(s, a);
        forall other | other in s'.transactions
          ensures TransactionOk(s', other)
        {
          if other in s.transactions {
            assert TransactionOk(s, other);
          }
        }
      case Advance(t) =>
        if t in s.transactions {
          AdvanceKeepsLocks(s, t);
          AdvanceKeepsRun(s, t);
        }
      case Drop(t) =>
        if t in s.transactions {
          FinishKeepsLocks(s, t, Dropped);
        }
    }
  }

  lemma CommitKeepsRun(s: System, t: Uuid, row: Option<Application>)
    requires LocksOk(s) && t in s.transactions && s.db == Run(EMPTY_DB, s.committed)
    requires s.transactions[t].stage == Holding(row) || s.transactions[t].stage == Ready(row)
    ensures Commit(s, t, row).db == Run(EMPTY_DB, Commit(s, t, row).committed)
  {
    var request := s.transactions[t].request;
    if Write(s.db, request, row).1.Changed? {
      CommitIsApply(s, t, row);
      assert (s.committed + [request])[..|s.committed|] == s.committed;
    }
    hide Write, Apply, LocksOk;
  }

  lemma OtherStatementsKeepTables(s: System, t: Uuid)
    requires t in s.transactions && !s.transactions[t].stage.Ready?
    requires !(s.transactions[t].stage.Holding? && s.transactions[t].request.SaveDraftRequest?)
    ensures Advanced(s, t).db == s.db && Advanced(s, t).committed == s.committed && Advanced(s, t).authors == s.authors
  {
    hide Replay, RowFor;
  }

  lemma AdvanceKeepsRun(s: System, t: Uuid)
    requires LocksOk(s) && t in s.transactions && s.db == Run(EMPTY_DB, s.committed)
    ensures Advanced(s, t).db == Run(EMPTY_DB, Advanced(s, t).committed)
  {
    hide Check, LockRow, Commit, Run, LocksOk;
    var request, stage := s.transactions[t].request, s.transactions[t].stage;
    if stage.Ready? || (stage.Holding? && request.SaveDraftRequest?) {
      CommitKeepsRun(s, t, stage.row);
    } else {
      OtherStatementsKeepTables(s, t);
    }
  }

  /**
   Every schedule of any number of transactions ends in the tables that its committed requests give when they
   run one after another in commit order. So the history of `HistoryOfEveryRun` holds under every interleaving.
   */
  lemma {:induction false} EveryScheduleIsSerial(moves: seq<Move>)
    ensures var s := Schedule(IDLE, moves); Serialized(s) && History(s.db)
  {
    hide Serialized, Step, History;
    if moves == [] {
      IdleIsSerialized();
    } else {
      EveryScheduleIsSerial(moves[..|moves| - 1]);
      StepKeepsSerialized(Schedule(IDLE, moves[..|moves| - 1]), moves[|moves| - 1]);
    }
    SerializedHasHistory(Schedule(IDLE, moves));
  }

  lemma IdleIsSerialized()
    ensures Serialized(IDLE)
  {
  }

  lemma SerializedHasHistory(s: System)
    requires Serialized(s)
    ensures History(s.db)
  {
    HistoryOfEveryRun(s.committed);
  }
}
