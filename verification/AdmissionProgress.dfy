/** The locks of creator admission never deadlock: while a transaction is unfinished, some transaction can move. */
module AdmissionProgress {
  import opened Common
  import opened CreatorAdmission
  import opened AdmissionHistory
  import opened AdmissionInterleaving

  /** A row's lock is held by a transaction that works on that row, and an applicant's by a draft save of that applicant. */
  ghost predicate HoldersOk(s: System) {
    && (forall a | a in s.rowLocks ::
          && s.rowLocks[a] in s.transactions
          && var stage := s.transactions[s.rowLocks[a]].stage;
          && (stage.Holding? || stage.Ready?) && stage.row.Some? && stage.row.value.id == a)
    && (forall u | u in s.applicantLocks ::
          && s.applicantLocks[u] in s.transactions
          && s.transactions[s.applicantLocks[u]].request.SaveDraftRequest?
          && s.transactions[s.applicantLocks[u]].request.context.actor == u
          && var stage := s.transactions[s.applicantLocks[u]].stage;
          && (stage.Guarded? || stage.Cleared? || stage.Holding?))
  }

  lemma FinishKeepsHolders(s: System, t: Uuid, outcome: Outcome)
    requires HoldersOk(s) && t in s.transactions
    ensures HoldersOk(Finish(s, t, outcome))
  {
  }

  lemma CheckKeepsHolders(s: System, t: Uuid, target: Option<Uuid>, next: Stage)
    requires HoldersOk(s) && t in s.transactions
    requires s.transactions[t].stage.Opened? ||
             (s.transactions[t].stage.Guarded? && next.Cleared?) ||
             (s.transactions[t].stage.Holding? && next == Ready(s.transactions[t].stage.row) &&
              !s.transactions[t].request.SaveDraftRequest?)
    ensures HoldersOk(Check(s, t, target, next))
  {
    hide Replay;
    if Replay(s.db, s.transactions[t].request.context, target).Some? {
      FinishKeepsHolders(s, t, Replay(s.db, s.transactions[t].request.context, target).value);
    }
  }

  lemma LockRowKeepsHolders(s: System, t: Uuid)
    requires HoldersOk(s) && t in s.transactions
    requires s.transactions[t].stage.Checked? || s.transactions[t].stage.Cleared?
    ensures HoldersOk(LockRow(s, t))
  {
    hide RowFor;
    FinishKeepsHolders(s, t, NotFound);
  }

  lemma AdvanceKeepsHolders(s: System, t: Uuid)
    requires HoldersOk(s) && t in s.transactions
    ensures HoldersOk(Advanced(s, t))
  {
    var request, stage := s.transactions[t].request, s.transactions[t].stage;
    hide Write, Check, LockRow, Finish;
    match stage {
      case Opened => CheckKeepsHolders(s, t, ReplayTarget(request), Checked);
      case Checked =>
        if !request.SaveDraftRequest? {
          LockRowKeepsHolders(s, t);
        }
      case Guarded => CheckKeepsHolders(s, t, None, Cleared);
      case Cleared => LockRowKeepsHolders(s, t);
      case Holding(row) =>
        if request.SaveDraftRequest? {
          FinishKeepsHolders(s, t, Write(s.db, request, row).1);
        } else {
          CheckKeepsHolders(s, t, SecondTarget(request, row), Ready(row));
        }
      case Ready(row) => FinishKeepsHolders(s, t, Write(s.db, request, row).1);
      case Finished(_) =>
    }
  }

  lemma {:induction false} EveryScheduleHasHolders(moves: seq<Move>)
    ensures HoldersOk(Schedule(IDLE, moves))
  {
    hide HoldersOk, Advanced, Finish;
    if moves == [] {
      NobodyHolds();
    } else {
      var front, last := moves[..|moves| - 1], moves[|moves| - 1];
      var s := Schedule(IDLE, front);
      EveryScheduleHasHolders(front);
      match last {
        case Begin(t, r) => BeginKeepsHolders(s, t, r);
        case Advance(t) =>
          if t in s.transactions {
            AdvanceKeepsHolders(s, t);
          }
        case Drop(t) =>
          if t in s.transactions {
            FinishKeepsHolders(s, t, Dropped);
          }
      }
    }
  }

  lemma NobodyHolds()
    ensures HoldersOk(IDLE)
  {
  }

  lemma BeginKeepsHolders(s: System, t: Uuid, r: Request)
    requires HoldersOk(s)
    ensures HoldersOk(Step(s, Begin(t, r)))
  {
  }

  // ----- Progress -----

  /** The statements a transaction still has before it, at most. */
  function Rank(stage: Stage): nat {
    match stage
    case Opened => 6
    case Checked => 5
    case Guarded => 4
    case Cleared => 3
    case Holding(_) => 2
    case Ready(_) => 1
    case Finished(_) => 0
  }

  /** A statement leaves its transaction's stage, or the whole system, as it was, or brings it to one of these ends. */
  lemma CheckEnds(s: System, t: Uuid, target: Option<Uuid>, next: Stage)
    requires t in s.transactions
    ensures var s' := Check(s, t, target, next);
            s' == s || (t in s'.transactions && (s'.transactions[t].stage == next || s'.transactions[t].stage.Finished?))
  {
    hide Replay;
  }

  lemma LockRowEnds(s: System, t: Uuid)
    requires t in s.transactions
    ensures var s' := LockRow(s, t);
            s' == s || (t in s'.transactions && (s'.transactions[t].stage.Holding? || s'.transactions[t].stage.Finished?))
  {
    hide RowFor;
  }

  lemma CommitEnds(s: System, t: Uuid, row: Option<Application>)
    requires t in s.transactions
    ensures t in Commit(s, t, row).transactions && Commit(s, t, row).transactions[t].stage.Finished?
  {
    hide Write;
  }

  /** A statement is run to its end or has to wait; run to its end, it brings its transaction nearer to its own. */
  lemma MovingOnLowersRank(s: System, t: Uuid)
    requires t in s.transactions && LocksOk(s)
    ensures t in Advanced(s, t).transactions
    ensures Advanced(s, t) == s || Rank(Advanced(s, t).transactions[t].stage) < Rank(s.transactions[t].stage)
    ensures TouchesOnly(s, Advanced(s, t), t)
  {
    AdvanceTouchesOne(s, t);
    assert TransactionOk(s, t);
    var request := s.transactions[t].request;
    hide Check, LockRow, Commit, LocksOk, RowFor, TouchesOnly, HasLock, Available, ReplayTarget, SecondTarget;
    match s.transactions[t].stage {
      case Opened => CheckEnds(s, t, ReplayTarget(request), Checked);
      case Checked => LockRowEnds(s, t);
      case Guarded => CheckEnds(s, t, None, Cleared);
      case Cleared => LockRowEnds(s, t);
      case Holding(row) =>
        CommitEnds(s, t, row);
        CheckEnds(s, t, SecondTarget(request, row), Ready(row));
      case Ready(row) => CommitEnds(s, t, row);
      case Finished(_) =>
    }
  }

  predicate CanMove(s: System, t: Uuid) {
    t in s.transactions && Advanced(s, t) != s
  }

  lemma RowHolderMoves(s: System, a: Uuid)
    requires LocksOk(s) && HoldersOk(s) && Indexed(s.db) && a in s.rowLocks
    ensures CanMove(s, s.rowLocks[a])
  {
    var t := s.rowLocks[a];
    var request, stage := s.transactions[t].request, s.transactions[t].stage;
    assert TransactionOk(s, t);
    hide Write, FindKey;
    if stage.Holding? && !request.SaveDraftRequest? {
      HolderNeverWaits(s, t, stage.row);
    }
  }

  /** The second check of a submission or review answers about the row it holds, or conflicts. */
  lemma HolderNeverWaits(s: System, t: Uuid, row: Option<Application>)
    requires t in s.transactions && s.transactions[t].stage == Holding(row) && row.Some?
    requires !s.transactions[t].request.SaveDraftRequest? && HasLock(s.rowLocks, row.value.id, t) && Indexed(s.db)
    ensures Check(s, t, SecondTarget(s.transactions[t].request, row), Ready(row)).transactions[t].stage != Holding(row)
  {
    hide FindKey;
    FindKeyFinds(s.db.events, s.transactions[t].request.context.key);
  }

  lemma MovesWhenNoRowIsHeld(s: System, t: Uuid)
    requires t in s.transactions && s.rowLocks == map[] && !s.transactions[t].stage.Finished?
    requires s.transactions[t].stage.Checked? && s.transactions[t].request.SaveDraftRequest? ==>
               s.transactions[t].request.context.actor !in s.applicantLocks
    ensures CanMove(s, t)
  {
    assert Advanced(s, t).transactions[t].stage != s.transactions[t].stage by {
      hide Replay, RowFor, Write;
    }
  }

  /**
   While some transaction of a schedule is unfinished, one of them can run its next statement: the locks cannot
   deadlock.
   */
  lemma SomeTransactionMoves(moves: seq<Move>, t: Uuid)
    requires t in Schedule(IDLE, moves).transactions && !Schedule(IDLE, moves).transactions[t].stage.Finished?
    ensures exists x :: CanMove(Schedule(IDLE, moves), x)
  {
    var s := Schedule(IDLE, moves);
    EveryScheduleIsSerial(moves);
    EveryScheduleHasHolders(moves);
    hide Schedule, CanMove, EventsOf, SnapshotsOf, TransactionOk;
    if a :| a in s.rowLocks {
      RowHolderMoves(s, a);
    } else {
      var r := s.transactions[t].request;
      if s.transactions[t].stage.Checked? && r.SaveDraftRequest? && r.context.actor in s.applicantLocks {
        MovesWhenNoRowIsHeld(s, s.applicantLocks[r.context.actor]);
      } else {
        MovesWhenNoRowIsHeld(s, t);
      }
    }
  }
}
