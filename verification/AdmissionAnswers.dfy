/**
 What each transaction answers under interleaving, when several share an idempotency key and one of them has taken effect.
 Every answer is given by the statement that finishes its transaction, so the theorems look at the moment before it.
 */
module AdmissionAnswers {
  import opened Common
  import opened CreatorAdmission
  import opened AdmissionHistory
  import opened AdmissionInterleaving
  import opened AdmissionIdempotency

  // ----- The log tells who took effect -----

  /** The event that a changed transaction left, and the application it changed, whose applicant stays. */
  ghost predicate Recorded(db: Db, e: Event, r: Request, changed: Application) {
    && e.key == r.context.key && e.actor == r.context.actor && e.fingerprint == r.context.fingerprint
    && e.application == changed.id
    && changed.id in db.applications && db.applications[changed.id].applicant == changed.applicant
  }

  /** Every changed transaction has its event in the log. */
  ghost predicate WinnersOk(s: System) {
    forall t | HasChanged(s, t) ::
      exists e :: e in s.db.events && Recorded(s.db, e, s.transactions[t].request, s.transactions[t].stage.outcome.application)
  }

  /**
   The key of a submission or review that passed its second check has not been used since, unless for another
   application.
   */
  ghost predicate ReadyOk(s: System) {
    forall t | t in s.transactions && s.transactions[t].stage.Ready? ::
      var row, found := s.transactions[t].stage.row, FindKey(s.db.events, s.transactions[t].request.context.key);
      row.Some? && (found.Some? ==> found.value.application != row.value.id)
  }

  lemma WriteRecords(db: Db, r: Request, row: Option<Application>)
    requires WellFormed(r) && Indexed(db)
    requires row.Some? ==> row.value.id in db.applications && db.applications[row.value.id] == row.value
    ensures var (db', outcome) := Write(db, r, row);
            outcome.Changed? ==>
              && |db'.events| == |db.events| + 1 && db'.events[..|db.events|] == db.events
              && Recorded(db', db'.events[|db.events|], r, outcome.application)
              && (row.Some? ==> outcome.application.id == row.value.id)
              && (row.None? ==> outcome.application.id !in db.applications)
              && forall a | a in db.applications ::
                   a in db'.applications && db'.applications[a].applicant == db.applications[a].applicant
  {
    hide Latest, SnapshotsOf, FindKey;
  }

  lemma RowIsFound(db: Db, r: Request)
    requires Indexed(db) && RowFor(db, r).Some?
    ensures var row := RowFor(db, r).value; row.id in db.applications && db.applications[row.id] == row
  {
  }

  lemma CommitKeepsWinners(s: System, t: Uuid, row: Option<Application>)
    requires WinnersOk(s) && LocksOk(s) && Indexed(s.db) && t in s.transactions && !s.transactions[t].stage.Finished?
    requires s.transactions[t].stage == Holding(row) || s.transactions[t].stage == Ready(row)
    ensures WinnersOk(Commit(s, t, row))
  {
    var s', r := Commit(s, t, row), s.transactions[t].request;
    assert TransactionOk(s, t);
    if row.Some? {
      RowIsFound(s.db, r);
    }
    WriteRecords(s.db, r, row);
    hide Write, RowFor, LocksOk, TransactionOk, Indexed;
    var (db', outcome) := Write(s.db, r, row);
    forall x | HasChanged(s', x)
      ensures exists e :: e in s'.db.events && Recorded(s'.db, e, s'.transactions[x].request,
                                                        s'.transactions[x].stage.outcome.application)
    {
      if x == t {
        assert db'.events[|s.db.events|] in s'.db.events;
      } else {
        assert HasChanged(s, x) && s'.transactions[x] == s.transactions[x];
        var e :| e in s.db.events && Recorded(s.db, e, s.transactions[x].request, s.transactions[x].stage.outcome.application);
        if outcome.Changed? {
          assert e in db'.events[..|s.db.events|];
        }
        assert e in s'.db.events;
        WriteFailsQuietly(s.db, r, row);
      }
    }
  }

  lemma WriteFailsQuietly(db: Db, r: Request, row: Option<Application>)
    ensures !Write(db, r, row).1.Changed? ==> Write(db, r, row).0 == db
  {
    hide Latest, SnapshotsOf, FindKey;
  }

  lemma UnchangedKeepsWinners(s: System, s': System, t: Uuid)
    requires WinnersOk(s) && s'.db == s.db && !HasChanged(s', t)
    requires forall x | HasChanged(s', x) && x != t :: x in s.transactions && s'.transactions[x] == s.transactions[x]
    ensures WinnersOk(s')
  {
    hide Recorded;
    forall x | HasChanged(s', x)
      ensures exists e :: e in s'.db.events && Recorded(s'.db, e, s'.transactions[x].request,
                                                        s'.transactions[x].stage.outcome.application)
    {
      assert HasChanged(s, x);
    }
  }

  predicate ReadyOkFor(s: System, t: Uuid)
    requires t in s.transactions
  {
    var stage, found := s.transactions[t].stage, FindKey(s.db.events, s.transactions[t].request.context.key);
    stage.Ready? ==> stage.row.Some? && (found.Some? ==> found.value.application != stage.row.value.id)
  }

  lemma FindKeyLast(events: seq<Event>, e: Event)
    ensures FindKey(events + [e], e.key) == Some(e)
  {
    assert (events + [e])[|events|] == e;
  }

  /** A new event is about another application, or has another key. */
  lemma ReadyAfterEvent(events: seq<Event>, e: Event, key: string, application: Uuid)
    requires e.application != application
    requires FindKey(events, key).Some? ==> FindKey(events, key).value.application != application
    ensures FindKey(events + [e], key).Some? ==> FindKey(events + [e], key).value.application != application
  {
    if e.key == key {
      FindKeyLast(events, e);
    } else {
      FindKeySnoc(events, e, key);
    }
  }

  /** Another transaction's commit is about a row whose lock this one does not hold. */
  lemma CommitIsElsewhere(s: System, t: Uuid, row: Option<Application>, x: Uuid)
    requires LocksOk(s) && Indexed(s.db) && t in s.transactions && x in s.transactions && x != t
    requires s.transactions[t].stage == Holding(row) || s.transactions[t].stage == Ready(row)
    requires s.transactions[x].stage.Ready? && Write(s.db, s.transactions[t].request, row).1.Changed?
    ensures var events := Write(s.db, s.transactions[t].request, row).0.events;
            && s.transactions[x].stage.row.Some?
            && |events| == |s.db.events| + 1 && events == s.db.events + [events[|s.db.events|]]
            && events[|s.db.events|].application != s.transactions[x].stage.row.value.id
  {
    var r, rx := s.transactions[t].request, s.transactions[x].request;
    assert TransactionOk(s, t) && TransactionOk(s, x);
    hide LocksOk, Write;
    if row.Some? {
      RowIsFound(s.db, r);
    }
    RowIsFound(s.db, rx);
    WriteRecords(s.db, r, row);
    hide RowFor, Indexed;
  }

  lemma CommitKeepsReady(s: System, t: Uuid, row: Option<Application>, x: Uuid)
    requires ReadyOk(s) && LocksOk(s) && Indexed(s.db) && t in s.transactions && x in s.transactions && x != t
    requires s.transactions[t].stage == Holding(row) || s.transactions[t].stage == Ready(row)
    ensures ReadyOkFor(Commit(s, t, row), x)
  {
    var r, rx := s.transactions[t].request, s.transactions[x].request;
    hide LocksOk, Indexed, Write, FindKey;
    if s.transactions[x].stage.Ready? && Write(s.db, r, row).1.Changed? {
      CommitIsElsewhere(s, t, row, x);
      var events := Write(s.db, r, row).0.events;
      ReadyAfterEvent(s.db.events, events[|s.db.events|], rx.context.key, s.transactions[x].stage.row.value.id);
    }
  }

  lemma CommitKeepsAllReady(s: System, t: Uuid, row: Option<Application>)
    requires ReadyOk(s) && LocksOk(s) && Indexed(s.db) && t in s.transactions
    requires s.transactions[t].stage == Holding(row) || s.transactions[t].stage == Ready(row)
    ensures ReadyOk(Commit(s, t, row))
  {
    var s' := Commit(s, t, row);
    forall x | x in s'.transactions
      ensures ReadyOkFor(s', x)
    {
      if x != t {
        CommitKeepsReady(s, t, row, x);
      }
    }
    hide Write, RowFor, FindKey;
  }

  /**
   A step other than a commit: the tables and all other transactions stay, and its own becomes ready only with an
   unused key.
   */
  lemma OwnStepKeepsReady(s: System, s': System, t: Uuid)
    requires ReadyOk(s) && s'.db == s.db && s'.transactions.Keys <= s.transactions.Keys + {t}
    requires forall x | x in s'.transactions && x != t :: x in s.transactions && s'.transactions[x] == s.transactions[x]
    requires t in s'.transactions ==> ReadyOkFor(s', t)
    ensures ReadyOk(s')
  {
    hide FindKey;
  }

  lemma CheckIsReadyOk(s: System, t: Uuid, target: Option<Uuid>, next: Stage)
    requires t in s.transactions && (next.Ready? ==> next.row.Some?) && !next.Finished?
    requires !s.transactions[t].stage.Ready? && !HasChanged(s, t)
    ensures var s' := Check(s, t, target, next);
            t in s'.transactions && s'.db == s.db && !HasChanged(s', t) && ReadyOkFor(s', t)
  {
    ReplayNeverChanges(s.db, s.transactions[t].request.context);
    FreeKeyPasses(s.db, s.transactions[t].request.context, target);
    hide FindKey, Replay;
  }

  lemma FreeKeyPasses(db: Db, context: Context, target: Option<Uuid>)
    ensures Replay(db, context, target).None? <==> FindKey(db.events, context.key).None?
  {
    hide FindKey;
  }

  lemma LockRowIsReadyOk(s: System, t: Uuid)
    requires t in s.transactions && !s.transactions[t].stage.Ready? && !HasChanged(s, t)
    ensures var s' := LockRow(s, t); t in s'.transactions && s'.db == s.db && !HasChanged(s', t) && ReadyOkFor(s', t)
  {
    hide FindKey, RowFor;
  }

  /** The statements other than a commit. */
  lemma OtherStatementEffect(s: System, t: Uuid)
    requires LocksOk(s) && t in s.transactions && !CommitIsNext(s.transactions[t]) && !s.transactions[t].stage.Finished?
    ensures var s' := Advanced(s, t);
            && s'.db == s.db && s'.transactions.Keys == s.transactions.Keys && !HasChanged(s', t) && ReadyOkFor(s', t)
            && forall x | x in s.transactions && x != t :: s'.transactions[x] == s.transactions[x]
  {
    AdvanceTouchesOne(s, t);
    assert TransactionOk(s, t);
    var request := s.transactions[t].request;
    hide Check, LockRow, Commit, FindKey, RowFor, LocksOk;
    match s.transactions[t].stage {
      case Opened => CheckIsReadyOk(s, t, ReplayTarget(request), Checked);
      case Checked => LockRowIsReadyOk(s, t);
      case Guarded => CheckIsReadyOk(s, t, None, Cleared);
      case Cleared => LockRowIsReadyOk(s, t);
      case Holding(row) => CheckIsReadyOk(s, t, SecondTarget(request, row), Ready(row));
      case _ =>
    }
  }

  lemma StepKeepsAnswers(s: System, a: Move)
    requires Serialized(s) && History(s.db) && WinnersOk(s) && ReadyOk(s)
    ensures WinnersOk(Step(s, a)) && ReadyOk(Step(s, a))
  {
    var s' := Step(s, a);
    hide Serialized, WinnersOk, ReadyOk, Write, RowFor, Replay, FindKey, EventsOf, SnapshotsOf, LocksOk,
         DossierOk, KeysUnique, Indexed;
    SerializedHasLocks(s);
    if s' != s {
      if a.Begin? || a.Drop? {
        UnchangedKeepsWinners(s, s', a.t);
        OwnStepKeepsReady(s, s', a.t);
      } else if CommitIsNext(s.transactions[a.t]) {
        CommitKeepsWinners(s, a.t, s.transactions[a.t].stage.row);
        CommitKeepsAllReady(s, a.t, s.transactions[a.t].stage.row);
      } else {
        OtherStatementEffect(s, a.t);
        UnchangedKeepsWinners(s, s', a.t);
        OwnStepKeepsReady(s, s', a.t);
      }
    }
  }

  predicate CommitIsNext(x: Transaction) {
    x.stage.Ready? || (x.stage.Holding? && x.request.SaveDraftRequest?)
  }

  lemma SerializedHasLocks(s: System)
    requires Serialized(s)
    ensures LocksOk(s)
  {
  }

  lemma {:induction false} EveryScheduleAnswers(moves: seq<Move>)
    ensures var s := Schedule(IDLE, moves); Serialized(s) && History(s.db) && WinnersOk(s) && ReadyOk(s)
  {
    hide Serialized, History, WinnersOk, ReadyOk, Step;
    EveryScheduleIsSerial(moves);
    if moves == [] {
      NobodyAnswered();
    } else {
      EveryScheduleAnswers(moves[..|moves| - 1]);
      StepKeepsAnswers(Schedule(IDLE, moves[..|moves| - 1]), moves[|moves| - 1]);
    }
  }

  lemma NobodyAnswered()
    ensures WinnersOk(IDLE) && ReadyOk(IDLE)
  {
  }

  // ----- Past the second check -----

  /**
   Only a draft save between its second check and its commit, and a submission or review between its check and its
   commit.
   */
  predicate PastCheck(s: System, t: Uuid) {
    && t in s.transactions
    && (s.transactions[t].stage.Cleared? || s.transactions[t].stage.Ready? ||
        (s.transactions[t].stage.Holding? && s.transactions[t].request.SaveDraftRequest?))
  }

  predicate Unfinished(s: System, t: Uuid) {
    t in s.transactions && !s.transactions[t].stage.Finished?
  }

  predicate KeyTaken(s: System, key: string) {
    FindKey(s.db.events, key).Some?
  }

  lemma TakenKeyIsAnswered(s: System, t: Uuid, target: Option<Uuid>, next: Stage)
    requires t in s.transactions && KeyTaken(s, s.transactions[t].request.context.key)
    ensures var s' := Check(s, t, target, next); s' == s || s'.transactions[t].stage.Finished?
  {
    hide FindKey;
  }

  lemma OwnStepKeepsPastCheck(s: System, t: Uuid)
    requires LocksOk(s) && Unfinished(s, t) && KeyTaken(s, s.transactions[t].request.context.key)
    ensures var s' := Advanced(s, t); Unfinished(s', t) ==> (PastCheck(s', t) <==> PastCheck(s, t))
  {
    assert TransactionOk(s, t);
    var r, stage := s.transactions[t].request, s.transactions[t].stage;
    hide Write, RowFor, FindKey, Check, KeyTaken, LocksOk;
    match stage {
      case Opened => TakenKeyIsAnswered(s, t, ReplayTarget(r), Checked);
      case Guarded => TakenKeyIsAnswered(s, t, None, Cleared);
      case Holding(row) => TakenKeyIsAnswered(s, t, SecondTarget(r, row), Ready(row));
      case _ =>
    }
  }

  /** Once its key is taken, a transaction that is not past its second check never gets there. */
  lemma StepKeepsPastCheck(s: System, a: Move, t: Uuid)
    requires LocksOk(s) && Unfinished(Step(s, a), t) && KeyTaken(s, Step(s, a).transactions[t].request.context.key)
    ensures PastCheck(Step(s, a), t) <==> PastCheck(s, t)
    ensures t in s.transactions ==> Unfinished(s, t) && Step(s, a).transactions[t].request == s.transactions[t].request
  {
    StepTouchesOne(s, a);
    assert a.Advance? && a.t in s.transactions && s.transactions[a.t].stage.Finished? ==> Step(s, a) == s;
    hide Advanced, LocksOk, KeyTaken;
    if a.t == t && a.Advance? && Unfinished(s, t) {
      OwnStepKeepsPastCheck(s, t);
    }
  }

  lemma StepKeepsKeyTaken(s: System, a: Move, key: string)
    requires KeyTaken(s, key)
    ensures KeyTaken(Step(s, a), key)
  {
    OnlyChangedTouchesTables(s, a);
    if Step(s, a).db != s.db {
      var x := s.transactions[a.t];
      assert CommitIsNext(x);
      WriteLogs(s.db, x.request, x.stage.row);
      FindKeyFinds(s.db.events, key);
      FindKeyFinds(Step(s, a).db.events, key);
      hide Write, FindKey;
      var i :| 0 <= i < |s.db.events| && s.db.events[i].key == key;
      assert Step(s, a).db.events[i] == s.db.events[i];
    }
  }

  lemma {:induction false} PastCheckSince(moves: seq<Move>, n: nat, t: Uuid)
    requires n <= |moves|
    requires Unfinished(Schedule(IDLE, moves), t)
    requires KeyTaken(Schedule(IDLE, moves[..n]), Schedule(IDLE, moves).transactions[t].request.context.key)
    ensures PastCheck(Schedule(IDLE, moves), t) <==> PastCheck(Schedule(IDLE, moves[..n]), t)
    ensures KeyTaken(Schedule(IDLE, moves), Schedule(IDLE, moves).transactions[t].request.context.key)
    decreases |moves|
  {
    if n == |moves| {
      assert moves[..n] == moves;
    } else {
      var front, last := moves[..|moves| - 1], moves[|moves| - 1];
      var s := Schedule(IDLE, front);
      assert front[..n] == moves[..n];
      var key := Schedule(IDLE, moves).transactions[t].request.context.key;
      KeyTakenSince(front, n, key);
      StepKeepsKeyTaken(s, last, key);
      EveryScheduleAnswers(front);
      SerializedHasLocks(s);
      StepKeepsPastCheck(s, last, t);
      hide PastCheck, KeyTaken, Step, LocksOk;
      if t in s.transactions {
        PastCheckSince(front, n, t);
      } else {
        NotBegunIsNotPast(moves[..n], front, n, t);
      }
    }
  }

  lemma {:induction false} KeyTakenSince(moves: seq<Move>, n: nat, key: string)
    requires n <= |moves| && KeyTaken(Schedule(IDLE, moves[..n]), key)
    ensures KeyTaken(Schedule(IDLE, moves), key)
    decreases |moves|
  {
    hide KeyTaken, Step;
    if n == |moves| {
      assert moves[..n] == moves;
    } else {
      var front := moves[..|moves| - 1];
      assert front[..n] == moves[..n];
      KeyTakenSince(front, n, key);
      StepKeepsKeyTaken(Schedule(IDLE, front), moves[|moves| - 1], key);
    }
  }

  lemma {:induction false} NotBegunIsNotPast(earlier: seq<Move>, moves: seq<Move>, n: nat, t: Uuid)
    requires n <= |moves| && earlier == moves[..n] && t !in Schedule(IDLE, moves).transactions
    ensures t !in Schedule(IDLE, earlier).transactions && !PastCheck(Schedule(IDLE, earlier), t)
    ensures !PastCheck(Schedule(IDLE, moves), t)
    decreases |moves|
  {
    hide Step;
    if n == |moves| {
      assert earlier == moves;
    } else {
      var front := moves[..|moves| - 1];
      assert front[..n] == earlier;
      StepTouchesOne(Schedule(IDLE, front), moves[|moves| - 1]);
      NotBegunIsNotPast(earlier, front, n, t);
    }
  }

  // ----- What a loser answers -----

  /** A request about this application: a review names it, and a draft save or submission comes from its applicant. */
  predicate About(r: Request, application: Application) {
    if r.ReviewRequest? then r.applicationId == application.id else r.context.actor == application.applicant
  }

  /** This statement finishes its transaction. */
  predicate Finishes(s: System, t: Uuid) {
    Unfinished(s, t) && t in Advanced(s, t).transactions && Advanced(s, t).transactions[t].stage.Finished?
  }

  function Answer(s: System, t: Uuid): Outcome
    requires Finishes(s, t)
  {
    Advanced(s, t).transactions[t].stage.outcome
  }

  /** The row of a request about an application is that application. */
  lemma RowOfAbout(db: Db, r: Request, application: Application)
    requires Indexed(db) && About(r, application)
    requires application.id in db.applications && db.applications[application.id].applicant == application.applicant
    ensures RowFor(db, r) == Some(db.applications[application.id])
  {
  }

  /** The answer once the key's event is in the log, by where the transaction stands. */
  lemma AnswerWithKeyTaken(s: System, t: Uuid, e: Event, r: Request, changed: Application)
    requires LocksOk(s) && Indexed(s.db) && ReadyOk(s) && Finishes(s, t) && Recorded(s.db, e, r, changed)
    requires FindKey(s.db.events, s.transactions[t].request.context.key) == Some(e)
    requires About(s.transactions[t].request, changed)
    ensures Advanced(s, t).db == s.db
    ensures var mine, now := s.transactions[t].request, s.db.applications[changed.id];
            if PastCheck(s, t)
            then mine.SaveDraftRequest? && Answer(s, t) == if Editable(now.state) then DuplicateKey else Conflict
            else Answer(s, t) == if mine.context == r.context then Replayed(now) else Conflict
  {
    var mine, stage := s.transactions[t].request, s.transactions[t].stage;
    assert TransactionOk(s, t);
    RowOfAbout(s.db, mine, changed);
    FindKeyFinds(s.db.events, mine.context.key);
    assert s.db.applications[changed.id].id == changed.id;
    hide FindKey, RowFor, LocksOk, Indexed;
  }

  lemma WinnersEvent(s: System, one: Uuid)
    requires WinnersOk(s) && History(s.db) && HasChanged(s, one)
    ensures var winner := s.transactions[one];
            var found := FindKey(s.db.events, winner.request.context.key);
            found.Some? && Recorded(s.db, found.value, winner.request, winner.stage.outcome.application)
  {
    var winner := s.transactions[one];
    var e :| e in s.db.events && Recorded(s.db, e, winner.request, winner.stage.outcome.application);
    var i :| 0 <= i < |s.db.events| && s.db.events[i] == e;
    hide DossierOk, Indexed, FindKey;
    FoundKeyIsTheOne(s.db.events, i);
  }

  lemma {:induction false} ChangedStays(moves: seq<Move>, n: nat, one: Uuid)
    requires n <= |moves| && HasChanged(Schedule(IDLE, moves[..n]), one)
    ensures HasChanged(Schedule(IDLE, moves), one)
    ensures Schedule(IDLE, moves).transactions[one] == Schedule(IDLE, moves[..n]).transactions[one]
    decreases |moves|
  {
    if n == |moves| {
      assert moves[..n] == moves;
    } else {
      var front := moves[..|moves| - 1];
      assert front[..n] == moves[..n];
      ChangedStays(front, n, one);
      StepTouchesOne(Schedule(IDLE, front), moves[|moves| - 1]);
    }
  }

  /**
   Of the requests about one application that share a key, one has taken effect by `moves[..n]`. Whichever finishes after
   that changes nothing. It answers with the application as it now stands if it has the winner's context, and with a
   conflict otherwise; only a draft save that was already past its second check can answer otherwise, and it meets the
   unique index exactly if the application is editable when it commits.
   */
  lemma LosersAnswer(moves: seq<Move>, n: nat, one: Uuid, t: Uuid)
    requires n <= |moves| && HasChanged(Schedule(IDLE, moves[..n]), one) && Finishes(Schedule(IDLE, moves), t)
    requires var (winner, s) := (Schedule(IDLE, moves[..n]).transactions[one], Schedule(IDLE, moves));
             && s.transactions[t].request.context.key == winner.request.context.key
             && About(s.transactions[t].request, winner.stage.outcome.application)
    ensures var (s0, s) := (Schedule(IDLE, moves[..n]), Schedule(IDLE, moves));
            var (mine, winner) := (s.transactions[t].request, s0.transactions[one]);
            && Advanced(s, t).db == s.db
            && winner.stage.outcome.application.id in s.db.applications
            && var now := s.db.applications[winner.stage.outcome.application.id];
            if PastCheck(s0, t)
            then mine.SaveDraftRequest? && Answer(s, t) == if Editable(now.state) then DuplicateKey else Conflict
            else Answer(s, t) == if mine.context == winner.request.context then Replayed(now) else Conflict
  {
    var s0, s := Schedule(IDLE, moves[..n]), Schedule(IDLE, moves);
    EveryScheduleAnswers(moves[..n]);
    EveryScheduleAnswers(moves);
    ChangedStays(moves, n, one);
    WinnersEvent(s0, one);
    WinnersEvent(s, one);
    PastCheckSince(moves, n, t);
    SerializedHasLocks(s);
    var winner := s.transactions[one];
    hide Schedule, Advanced, PastCheck, Finishes, FindKey, LocksOk, Serialized, WinnersOk, ReadyOk, DossierOk, Indexed;
    var e := FindKey(s.db.events, winner.request.context.key).value;
    AnswerWithKeyTaken(s, t, e, winner.request, winner.stage.outcome.application);
  }

  /**
   The same over a whole schedule: what a loser answers that was unfinished, or had not begun, when the winner took
   effect.
   */
  lemma {:induction false} LosersAreTurnedAway(moves: seq<Move>, n: nat, one: Uuid, t: Uuid)
    requires n <= |moves|
    requires var (s0, s) := (Schedule(IDLE, moves[..n]), Schedule(IDLE, moves));
             && HasChanged(s0, one)
             && t in s.transactions && s.transactions[t].stage.Finished?
             && (t in s0.transactions ==> Unfinished(s0, t))
             && s.transactions[t].request.context.key == s0.transactions[one].request.context.key
             && About(s.transactions[t].request, s0.transactions[one].stage.outcome.application)
    ensures var (s0, s) := (Schedule(IDLE, moves[..n]), Schedule(IDLE, moves));
            var (outcome, agrees) :=
              (s.transactions[t].stage.outcome, s.transactions[t].request.context == s0.transactions[one].request.context);
            && (outcome.Conflict? || outcome.DuplicateKey? || outcome.Dropped? || outcome.Replayed?)
            && (outcome.Replayed? ==> agrees && !PastCheck(s0, t)
                                      && outcome.application.id == s0.transactions[one].stage.outcome.application.id)
            && (outcome == DuplicateKey ==> PastCheck(s0, t) && s.transactions[t].request.SaveDraftRequest?)
            && (outcome == Conflict ==> PastCheck(s0, t) || !agrees)
    decreases |moves|
  {
    assert moves[..|moves|] == moves;
    if n < |moves| {
      var front, last := moves[..|moves| - 1], moves[|moves| - 1];
      var s := Schedule(IDLE, front);
      assert front[..n] == moves[..n];
      StepTouchesOne(s, last);
      hide Advanced, PastCheck;
      if t in s.transactions && s.transactions[t].stage.Finished? {
        LosersAreTurnedAway(front, n, one, t);
      } else if last.Advance? {
        LosersAnswer(front, n, one, t);
        ApplicationsKeepIds(front);
      }
    }
  }

  lemma ApplicationsKeepIds(moves: seq<Move>)
    ensures var db := Schedule(IDLE, moves).db; forall a | a in db.applications :: db.applications[a].id == a
  {
    EveryScheduleIsSerial(moves);
    hide Schedule, DossierOk, KeysUnique;
  }

  /** While its key is unused a transaction answers for itself: it does what the whole request would do there and then. */
  lemma FirstComersAnswerForThemselves(moves: seq<Move>, t: Uuid)
    requires var s := Schedule(IDLE, moves); Finishes(s, t) && !KeyTaken(s, s.transactions[t].request.context.key)
    ensures var s := Schedule(IDLE, moves);
            Apply(s.db, s.transactions[t].request) == (Advanced(s, t).db, Answer(s, t))
  {
    var s := Schedule(IDLE, moves);
    EveryScheduleAnswers(moves);
    SerializedHasLocks(s);
    assert TransactionOk(s, t);
    hide Schedule, FindKey, RowFor, Indexed, DossierOk, Serialized, WinnersOk, ReadyOk, LocksOk;
    FreeKeyAnswer(s, t);
  }

  lemma FreeKeyAnswer(s: System, t: Uuid)
    requires t in s.transactions && TransactionOk(s, t) && Finishes(s, t)
    requires !KeyTaken(s, s.transactions[t].request.context.key)
    ensures Apply(s.db, s.transactions[t].request) == (Advanced(s, t).db, Answer(s, t))
  {
    var r := s.transactions[t].request;
    hide FindKey, RowFor, Latest, SnapshotsOf;
    if CommitIsNext(s.transactions[t]) {
      WriteFailsQuietly(s.db, r, s.transactions[t].stage.row);
    }
  }

  /** The answers that a repeated request is promised, with the answer of one that takes effect. */
  predicate Promised(outcome: Outcome) {
    outcome.Changed? || outcome.Replayed? || outcome.Conflict? || outcome.NotFound?
  }

  /**
   Exactly when a request answers as promised: with its key in the log for its application, unless it is a draft save past
   its second check and the application is editable; with its key unused, if the whole request would answer so by itself.
   */
  lemma AnswersAsPromisedIff(moves: seq<Move>, t: Uuid)
    requires var s := Schedule(IDLE, moves);
             && Finishes(s, t)
             && var found := FindKey(s.db.events, s.transactions[t].request.context.key);
             && (found.Some? ==>
                   && found.value.application in s.db.applications
                   && About(s.transactions[t].request, s.db.applications[found.value.application]))
    ensures var s := Schedule(IDLE, moves);
            var r := s.transactions[t].request;
            Promised(Answer(s, t)) <==>
            match FindKey(s.db.events, r.context.key)
            case None => Promised(Apply(s.db, r).1)
            case Some(e) => PastCheck(s, t) ==> !Editable(s.db.applications[e.application].state)
  {
    var s := Schedule(IDLE, moves);
    var r := s.transactions[t].request;
    EveryScheduleAnswers(moves);
    SerializedHasLocks(s);
    FindKeyFinds(s.db.events, r.context.key);
    ApplicationsKeepIds(moves);
    hide Schedule, Advanced, PastCheck, Finishes, FindKey, LocksOk, Serialized, WinnersOk, ReadyOk, DossierOk, Indexed, Apply;
    match FindKey(s.db.events, r.context.key) {
      case None => FirstComersAnswerForThemselves(moves, t);
      case Some(e) =>
        var its := SubmitRequest(Context(e.actor, e.key, e.fingerprint), None, 0);
        AnswerWithKeyTaken(s, t, e, its, s.db.applications[e.application]);
    }
  }
}
