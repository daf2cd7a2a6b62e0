/** How often a request with one idempotency key takes effect under interleaving, and when its key collides. */
module AdmissionIdempotency {
  import opened Common
  import opened CreatorAdmission
  import opened AdmissionHistory
  import opened AdmissionInterleaving

  // ----- At most once -----

  predicate HasChanged(s: System, t: Uuid) {
    t in s.transactions && s.transactions[t].stage.Finished? && s.transactions[t].stage.outcome.Changed?
  }

  /** The log has one event for each committed transaction, in the order of their commits. */
  ghost predicate LogMatches(s: System) {
    && |s.db.events| == |s.committed| == |s.authors|
    && (forall i | 0 <= i < |s.authors| ::
          && HasChanged(s, s.authors[i])
          && s.transactions[s.authors[i]].request == s.committed[i]
          && s.db.events[i].key == s.committed[i].context.key)
    && (forall t | HasChanged(s, t) :: t in s.authors)
  }

  lemma WriteLogs(db: Db, r: Request, row: Option<Application>)
    ensures var (db', outcome) := Write(db, r, row);
            if outcome.Changed? then
              && |db'.events| == |db.events| + 1
              && db'.events == db.events + [db'.events[|db.events|]]
              && db'.events[|db.events|].key == r.context.key
              && FindKey(db.events, r.context.key).None?
            else db'.events == db.events
  {
    hide Latest, SnapshotsOf, FindKey;
  }

  lemma LogMatchesOneMore(s: System, s': System, t: Uuid)
    requires LogMatches(s) && t in s.transactions && !HasChanged(s, t) && HasChanged(s', t)
    requires s'.transactions.Keys == s.transactions.Keys && s'.transactions[t].request == s.transactions[t].request
    requires forall x | x in s.transactions && x != t :: s'.transactions[x] == s.transactions[x]
    requires s'.committed == s.committed + [s.transactions[t].request] && s'.authors == s.authors + [t]
    requires |s'.db.events| == |s.db.events| + 1 && s'.db.events[..|s.db.events|] == s.db.events
    requires s'.db.events[|s.db.events|].key == s.transactions[t].request.context.key
    ensures LogMatches(s')
  {
    forall x | HasChanged(s', x)
      ensures x in s'.authors
    {
      if x == t {
        assert s'.authors[|s.authors|] == t;
      } else {
        assert HasChanged(s, x);
      }
    }
    forall i | 0 <= i < |s'.authors|
      ensures HasChanged(s', s'.authors[i]) && s'.transactions[s'.authors[i]].request == s'.committed[i]
      ensures s'.db.events[i].key == s'.committed[i].context.key
    {
      if i < |s.authors| {
        assert HasChanged(s, s.authors[i]);
        assert s'.db.events[i] == s'.db.events[..|s.db.events|][i];
      }
    }
  }

  lemma CommitKeepsLogMatches(s: System, t: Uuid, row: Option<Application>)
    requires LogMatches(s) && t in s.transactions && !s.transactions[t].stage.Finished?
    ensures LogMatches(Commit(s, t, row))
  {
    WriteLogs(s.db, s.transactions[t].request, row);
    CommitTouchesOne(s, t, row);
    CommitFinishes(s, t, row);
    hide Write, LogMatches, Commit;
    if Write(s.db, s.transactions[t].request, row).1.Changed? {
      LogMatchesOneMore(s, Commit(s, t, row), t);
    } else {
      OtherStepKeepsLogMatches(s, Commit(s, t, row), t);
    }
  }

  /** A commit ends its transaction with the outcome of its write, which it keeps if anything changed. */
  lemma CommitFinishes(s: System, t: Uuid, row: Option<Application>)
    requires t in s.transactions
    ensures var s' := Commit(s, t, row);
            var (db, outcome) := Write(s.db, s.transactions[t].request, row);
            && t in s'.transactions && s'.transactions[t].stage == Finished(outcome)
            && s'.db == (if outcome.Changed? then db else s.db)
            && s'.committed == (if outcome.Changed? then s.committed + [s.transactions[t].request] else s.committed)
            && s'.authors == (if outcome.Changed? then s.authors + [t] else s.authors)
  {
    hide Write;
  }

  /** Any other step either finishes its transaction unchanged or moves it on. */
  lemma OtherStepKeepsLogMatches(s: System, s': System, t: Uuid)
    requires LogMatches(s) && t in s.transactions && !HasChanged(s, t) && !HasChanged(s', t)
    requires s'.db == s.db && s'.committed == s.committed && s'.authors == s.authors
    requires s'.transactions.Keys == s.transactions.Keys
    requires forall x | x in s.transactions && x != t :: s'.transactions[x] == s.transactions[x]
    ensures LogMatches(s')
  {
    forall x | HasChanged(s', x)
      ensures x in s'.authors
    {
      assert HasChanged(s, x);
    }
    forall i | 0 <= i < |s'.authors|
      ensures HasChanged(s', s'.authors[i]) && s'.transactions[s'.authors[i]].request == s'.committed[i]
    {
      assert HasChanged(s, s.authors[i]);
    }
  }

  /** The statements other than a commit change nothing in the tables. */
  lemma OtherStatementsChangeNothing(s: System, t: Uuid)
    requires t in s.transactions && !s.transactions[t].stage.Finished? && !s.transactions[t].stage.Ready?
    requires !(s.transactions[t].stage.Holding? && s.transactions[t].request.SaveDraftRequest?)
    ensures !HasChanged(Advanced(s, t), t)
  {
    ReplayNeverChanges(s.db, s.transactions[t].request.context);
    hide Replay, RowFor, Available, WithoutHolder;
  }

  lemma StepKeepsLogMatches(s: System, a: Move)
    requires LogMatches(s)
    ensures LogMatches(Step(s, a))
  {
    hide LogMatches, Advanced, Finish, Commit;
    if a.Advance? && a.t in s.transactions {
      AdvanceKeepsLogMatches(s, a.t);
    } else if a.Begin? && a.t !in s.transactions && WellFormed(a.request) {
      BeginKeepsLogMatches(s, a.t, a.request);
    } else if a.Drop? && a.t in s.transactions && !s.transactions[a.t].stage.Finished? {
      DropKeepsLogMatches(s, a.t);
    }
  }

  lemma AdvanceKeepsLogMatches(s: System, t: Uuid)
    requires LogMatches(s) && t in s.transactions
    ensures LogMatches(Advanced(s, t))
  {
    hide LogMatches, Check, LockRow, Commit;
    var request, stage := s.transactions[t].request, s.transactions[t].stage;
    if stage.Ready? || (stage.Holding? && request.SaveDraftRequest?) {
      CommitKeepsLogMatches(s, t, stage.row);
    } else if !stage.Finished? {
      OtherStatementsKeepTables(s, t);
      AdvanceTouchesOne(s, t);
      OtherStatementsChangeNothing(s, t);
      hide Advanced;
      OtherStepKeepsLogMatches(s, Advanced(s, t), t);
    }
  }

  lemma DropKeepsLogMatches(s: System, t: Uuid)
    requires LogMatches(s) && t in s.transactions && !s.transactions[t].stage.Finished?
    ensures LogMatches(Finish(s, t, Dropped))
  {
    FinishTouchesOne(s, t, Dropped);
    hide LogMatches, WithoutHolder;
    OtherStepKeepsLogMatches(s, Finish(s, t, Dropped), t);
  }

  lemma BeginKeepsLogMatches(s: System, t: Uuid, r: Request)
    requires LogMatches(s) && t !in s.transactions && WellFormed(r)
    ensures LogMatches(Step(s, Begin(t, r)))
  {
    forall x | HasChanged(Step(s, Begin(t, r)), x)
      ensures x in s.authors
    {
      assert HasChanged(s, x);
    }
  }

  lemma ReplayNeverChanges(db: Db, context: Context)
    ensures forall target :: Replay(db, context, target).Some? ==>
              Replay(db, context, target).value.Conflict? || Replay(db, context, target).value.Replayed?
  {
  }

  lemma {:induction false} EveryScheduleMatchesLog(moves: seq<Move>)
    ensures LogMatches(Schedule(IDLE, moves))
  {
    hide LogMatches, Step;
    if moves == [] {
      IdleMatchesLog();
    } else {
      EveryScheduleMatchesLog(moves[..|moves| - 1]);
      StepKeepsLogMatches(Schedule(IDLE, moves[..|moves| - 1]), moves[|moves| - 1]);
    }
  }

  lemma IdleMatchesLog()
    ensures LogMatches(IDLE)
  {
  }

  lemma AuthorsEvent(s: System, t: Uuid) returns (i: nat)
    requires LogMatches(s) && HasChanged(s, t)
    ensures i < |s.authors| && s.authors[i] == t && i < |s.db.events|
    ensures s.db.events[i].key == s.transactions[t].request.context.key
  {
    hide HasChanged;
    i :| 0 <= i < |s.authors| && s.authors[i] == t;
  }

  lemma KeysAreUnique(s: System)
    requires Serialized(s)
    ensures KeysUnique(s.db.events)
  {
    SerializedHasHistory(s);
    hide KeysUnique, Indexed, DossierOk, Serialized;
  }

  /** Under every interleaving, of all transactions that carry one idempotency key at most one takes effect. */
  lemma AppliesAtMostOnce(moves: seq<Move>, one: Uuid, other: Uuid)
    requires var s := Schedule(IDLE, moves); HasChanged(s, one) && HasChanged(s, other) && one != other
    ensures var s := Schedule(IDLE, moves);
            s.transactions[one].request.context.key != s.transactions[other].request.context.key
  {
    var s := Schedule(IDLE, moves);
    hide Schedule, LogMatches, Serialized, History, HasChanged;
    EveryScheduleMatchesLog(moves);
    EveryScheduleIsSerial(moves);
    KeysAreUnique(s);
    var i := AuthorsEvent(s, one);
    var j := AuthorsEvent(s, other);
  }

  /** A step changes the tables only when it is the commit that finishes its own transaction as changed. */
  lemma OnlyChangedTouchesTables(s: System, a: Move)
    ensures Step(s, a).db == s.db || (a.Advance? && !HasChanged(s, a.t) && HasChanged(Step(s, a), a.t))
  {
    hide Write, RowFor, Replay;
  }

  /**
   A replay check that finds its key answers at once, or waits for the row: with the application if actor, fingerprint
   and bound application are those of the logged event, with a conflict otherwise. Nothing else ends a transaction there.
   */
  lemma CheckAnswersRepeats(s: System, t: Uuid, target: Option<Uuid>, next: Stage)
    requires t in s.transactions && Serialized(s)
    ensures var context := s.transactions[t].request.context;
            var found := FindKey(s.db.events, context.key);
            var s' := Check(s, t, target, next);
            if found.None? then s' == AtStage(s, t, next)
            else if found.value.actor == context.actor && found.value.fingerprint == context.fingerprint &&
                    (target.Some? ==> found.value.application == target.value) then
              && found.value.application in s.db.applications
              && s' == (if Available(s.rowLocks, found.value.application, t)
                        then Finish(s, t, Replayed(s.db.applications[found.value.application])) else s)
            else s' == Finish(s, t, Conflict)
  {
    hide Serialized, History, Replay, Finish, AtStage, Available, FindKey;
    SerializedHasHistory(s);
    ReplayAnswers(s.db, s.transactions[t].request.context, target);
  }

  lemma ReplayAnswers(db: Db, context: Context, target: Option<Uuid>)
    requires History(db)
    ensures var found := FindKey(db.events, context.key);
            if found.None? then Replay(db, context, target) == None
            else if found.value.actor == context.actor && found.value.fingerprint == context.fingerprint &&
                    (target.Some? ==> found.value.application == target.value) then
              && found.value.application in db.applications
              && db.applications[found.value.application].id == found.value.application
              && Replay(db, context, target) == Some(Replayed(db.applications[found.value.application]))
            else Replay(db, context, target) == Some(Conflict)
  {
    LoggedApplicationExists(db, context.key);
    hide History, FindKey;
  }

  lemma LoggedApplicationExists(db: Db, key: string)
    requires History(db)
    ensures var found := FindKey(db.events, key);
            found.Some? ==>
              && found.value.key == key
              && found.value.application in db.applications
              && db.applications[found.value.application].id == found.value.application
  {
    FindKeyFinds(db.events, key);
    hide FindKey, DossierOk, KeysUnique;
  }

  // ----- When no key ever collides -----

  /** Every state this action can lead to is closed. */
  ghost predicate LeadsToClosed(action: Action) {
    forall state :: Resolve(state, action).Some? ==> Closed(Resolve(state, action).value)
  }

  lemma LeadsToClosedIff(action: Action)
    ensures LeadsToClosed(action) <==>
            action == Approve || action == Reject || action == Suspend || action == Reinstate || action == Revoke
  {
    assert Resolve(Draft, SaveDraft) == Some(Draft);
    assert Resolve(Draft, Submit) == Some(Submitted);
    assert Resolve(ChangesRequested, Resubmit) == Some(Submitted);
    assert Resolve(Submitted, StartReview) == Some(UnderReview);
    assert Resolve(UnderReview, RequestChanges) == Some(ChangesRequested);
  }

  /** No action leads out of the closed states. */
  lemma ClosedIsFinal(state: State, action: Action)
    requires Closed(state) && Resolve(state, action).Some?
    ensures Closed(Resolve(state, action).value)
  {
  }

  /** The applicant a request is about; `owner` says for whom each application id was drawn. */
  function Subject(owner: Uuid -> Uuid, r: Request): Uuid {
    if r.ReviewRequest? then owner(r.applicationId) else r.context.actor
  }

  /**
   What may share a key without colliding: requests about one applicant; and a draft save shares only with
   other draft saves and with decisions that close the application.
   */
  ghost predicate MayShare(owner: Uuid -> Uuid, r: Request, other: Request) {
    && Subject(owner, r) == Subject(owner, other)
    && (r.SaveDraftRequest? ==> other.SaveDraftRequest? || (other.ReviewRequest? && LeadsToClosed(other.action)))
  }

  ghost predicate Disciplined(owner: Uuid -> Uuid, s: System) {
    && (forall t, x | t in s.transactions && x in s.transactions &&
                      s.transactions[t].request.context.key == s.transactions[x].request.context.key ::
          MayShare(owner, s.transactions[t].request, s.transactions[x].request))
    && (forall t | t in s.transactions && s.transactions[t].request.SaveDraftRequest? ::
          owner(s.transactions[t].request.applicationId) == s.transactions[t].request.context.actor)
  }

  predicate KeyFree(db: Db, r: Request) {
    FindKey(db.events, r.context.key).None?
  }

  predicate ClosedFor(db: Db, applicant: Uuid) {
    ApplicationOf(db, applicant).Some? && Closed(ApplicationOf(db, applicant).value.state)
  }

  ghost predicate CollisionFree(s: System, t: Uuid)
    requires t in s.transactions
  {
    var r := s.transactions[t].request;
    match s.transactions[t].stage
    case Cleared => KeyFree(s.db, r) || ClosedFor(s.db, r.context.actor)
    case Holding(row) => r.SaveDraftRequest? ==> KeyFree(s.db, r) || (row.Some? && Closed(row.value.state))
    case Ready(_) => KeyFree(s.db, r)
    case Finished(outcome) => outcome != DuplicateKey
    case _ => true
  }

  ghost predicate Calm(owner: Uuid -> Uuid, s: System) {
    && (forall t | t in s.transactions :: CollisionFree(s, t))
    && (forall a | a in s.db.applications :: owner(a) == s.db.applications[a].applicant)
  }

  lemma FindKeySnoc(events: seq<Event>, e: Event, key: string)
    requires e.key != key
    ensures FindKey(events + [e], key) == FindKey(events, key)
  {
    assert (events + [e])[..|events|] == events;
  }

  /** Commits never reopen a closed application, and a closing decision closes the one it is about. */
  lemma WriteKeepsClosed(db: Db, r: Request, applicant: Uuid)
    requires Indexed(db) && WellFormed(r) && Write(db, r, RowFor(db, r)).1.Changed?
    ensures ClosedFor(db, applicant) ==> ClosedFor(Write(db, r, RowFor(db, r)).0, applicant)
    ensures r.ReviewRequest? && LeadsToClosed(r.action) && RowFor(db, r).Some? && RowFor(db, r).value.applicant == applicant ==>
              ClosedFor(Write(db, r, RowFor(db, r)).0, applicant)
  {
    hide Latest, SnapshotsOf, FindKey;
  }

  /** A commit with another key, or one that closes the application for good, leaves a transaction free of collisions. */
  lemma OtherKeyKeepsFree(db: Db, db': Db, key: string, other: string)
    requires |db'.events| == |db.events| + 1 && db'.events == db.events + [db'.events[|db.events|]]
    requires db'.events[|db.events|].key == key && key != other
    ensures FindKey(db'.events, other) == FindKey(db.events, other)
  {
    FindKeySnoc(db.events, db'.events[|db.events|], other);
  }

  lemma FreedomKept(s: System, s': System, x: Uuid)
    requires x in s.transactions && x in s'.transactions && s'.transactions[x] == s.transactions[x] && CollisionFree(s, x)
    requires var r := s.transactions[x].request;
             && (KeyFree(s.db, r) ==> KeyFree(s'.db, r))
             && (ClosedFor(s.db, r.context.actor) ==> ClosedFor(s'.db, r.context.actor))
    ensures CollisionFree(s', x)
  {
    hide KeyFree, ClosedFor;
  }

  lemma FreeBesideItsKey(s: System, x: Uuid)
    requires x in s.transactions && !s.transactions[x].stage.Ready?
    requires s.transactions[x].stage.Holding? ==> !s.transactions[x].request.SaveDraftRequest?
    requires s.transactions[x].stage.Cleared? ==> ClosedFor(s.db, s.transactions[x].request.context.actor)
    requires s.transactions[x].stage != Finished(DuplicateKey)
    ensures CollisionFree(s, x)
  {
    hide KeyFree, ClosedFor;
  }

  lemma FreeMeansNotCollided(s: System, x: Uuid)
    requires x in s.transactions && CollisionFree(s, x)
    ensures s.transactions[x].stage != Finished(DuplicateKey)
  {
    hide KeyFree, ClosedFor;
  }

  lemma DisciplineOfTwo(owner: Uuid -> Uuid, s: System, x: Uuid, t: Uuid)
    requires Disciplined(owner, s) && t in s.transactions && x in s.transactions
    requires s.transactions[x].request.context.key == s.transactions[t].request.context.key
    ensures MayShare(owner, s.transactions[x].request, s.transactions[t].request)
  {
    hide MayShare;
  }

  lemma RowsRequest(s: System, t: Uuid, row: Option<Application>)
    requires LocksOk(s) && t in s.transactions
    requires s.transactions[t].stage == Holding(row) || s.transactions[t].stage == Ready(row)
    ensures WellFormed(s.transactions[t].request) && RowFor(s.db, s.transactions[t].request) == row
  {
    assert TransactionOk(s, t);
  }

  lemma ClosingDecision(owner: Uuid -> Uuid, x: Request, r: Request)
    requires MayShare(owner, x, r) && x.SaveDraftRequest? && r.ReviewRequest?
    ensures LeadsToClosed(r.action)
  {
  }

  lemma OnlyDraftsAreCleared(s: System, x: Uuid)
    requires LocksOk(s) && x in s.transactions && s.transactions[x].stage.Cleared?
    ensures s.transactions[x].request.SaveDraftRequest?
  {
    assert TransactionOk(s, x);
  }

  lemma ChangeKeepsOthersCollisionFree(owner: Uuid -> Uuid, s: System, t: Uuid, row: Option<Application>, x: Uuid)
    requires LocksOk(s) && Indexed(s.db) && Disciplined(owner, s) && Calm(owner, s)
    requires t in s.transactions && x in s.transactions && x != t
    requires s.transactions[t].stage == Holding(row) || s.transactions[t].stage == Ready(row)
    requires s.transactions[t].stage.Ready? || s.transactions[t].request.SaveDraftRequest?
    requires Write(s.db, s.transactions[t].request, row).1.Changed?
    ensures CollisionFree(Commit(s, t, row), x)
  {
    hide *;
    var s', r, rx := Commit(s, t, row), s.transactions[t].request, s.transactions[x].request;
    CalmIsFree(owner, s, x);
    RowsRequest(s, t, row);
    CommitTouchesOne(s, t, row);
    OnlyItMoved(s, s', t, x);
    CommitFinishes(s, t, row);
    WriteKeepsClosed(s.db, r, rx.context.actor);
    if rx.context.key != r.context.key {
      WriteLogs(s.db, r, row);
      OtherKeyKeepsFree(s.db, s'.db, r.context.key, rx.context.key);
      SameSearchSameFreedom(s.db, s'.db, rx);
      FreedomKept(s, s', x);
    } else {
      DisciplineOfTwo(owner, s, x, t);
      OwnersAgree(owner, s);
      SharedKeysMeetLocks(owner, s, t, row, x);
      FreeMeansNotCollided(s, x);
      if s.transactions[x].stage.Cleared? {
        OnlyDraftsAreCleared(s, x);
        ClosingDecision(owner, rx, r);
      }
      FreeBesideItsKey(s', x);
    }
  }

  lemma SameSearchSameFreedom(db: Db, db': Db, r: Request)
    requires FindKey(db'.events, r.context.key) == FindKey(db.events, r.context.key)
    ensures KeyFree(db', r) <==> KeyFree(db, r)
  {
    hide FindKey;
  }

  lemma OwnersAgree(owner: Uuid -> Uuid, s: System)
    requires Calm(owner, s)
    ensures forall a | a in s.db.applications :: owner(a) == s.db.applications[a].applicant
  {
    hide CollisionFree;
  }

  lemma CommitKeepsOthersCollisionFree(owner: Uuid -> Uuid, s: System, t: Uuid, row: Option<Application>, x: Uuid)
    requires LocksOk(s) && Indexed(s.db) && Disciplined(owner, s) && Calm(owner, s)
    requires t in s.transactions && x in s.transactions && x != t
    requires s.transactions[t].stage == Holding(row) || s.transactions[t].stage == Ready(row)
    requires s.transactions[t].stage.Ready? || s.transactions[t].request.SaveDraftRequest?
    ensures CollisionFree(Commit(s, t, row), x)
  {
    hide *;
    if Write(s.db, s.transactions[t].request, row).1.Changed? {
      ChangeKeepsOthersCollisionFree(owner, s, t, row, x);
    } else {
      CalmIsFree(owner, s, x);
      CommitTouchesOne(s, t, row);
      OnlyItMoved(s, Commit(s, t, row), t, x);
      CommitFinishes(s, t, row);
      SameTablesSameFreedom(s, Commit(s, t, row), x);
    }
  }

  lemma CalmIsFree(owner: Uuid -> Uuid, s: System, x: Uuid)
    requires Calm(owner, s) && x in s.transactions
    ensures CollisionFree(s, x)
  {
    hide CollisionFree;
  }

  lemma OnlyItMoved(s: System, s': System, t: Uuid, x: Uuid)
    requires t in s.transactions && x in s.transactions && x != t && TouchesOnly(s, s', t)
    ensures x in s'.transactions && s'.transactions[x] == s.transactions[x]
  {
  }

  lemma SameTablesSameFreedom(s: System, s': System, x: Uuid)
    requires x in s.transactions && x in s'.transactions && s'.transactions[x] == s.transactions[x] && s'.db == s.db
    requires CollisionFree(s, x)
    ensures CollisionFree(s', x)
  {
    hide FindKey, ClosedFor;
  }

  /**
   A transaction that holds a row, or a cleared draft save, cannot see another with its key commit, except a closing
   decision.
   */
  lemma SharedKeysMeetLocks(owner: Uuid -> Uuid, s: System, t: Uuid, row: Option<Application>, x: Uuid)
    requires LocksOk(s) && Indexed(s.db)
    requires forall a | a in s.db.applications :: owner(a) == s.db.applications[a].applicant
    requires t in s.transactions && x in s.transactions && x != t
    requires s.transactions[t].stage == Holding(row) || s.transactions[t].stage == Ready(row)
    requires MayShare(owner, s.transactions[x].request, s.transactions[t].request)
    requires s.transactions[t].stage.Ready? || s.transactions[t].request.SaveDraftRequest?
    ensures !s.transactions[x].stage.Ready?
    ensures s.transactions[x].stage.Holding? ==> !s.transactions[x].request.SaveDraftRequest?
    ensures s.transactions[x].stage.Cleared? ==>
              s.transactions[t].request.ReviewRequest? && row.Some? &&
              row.value.applicant == s.transactions[x].request.context.actor
  {
    assert TransactionOk(s, t) && TransactionOk(s, x);
  }

  lemma CommitKeepsOwners(owner: Uuid -> Uuid, s: System, t: Uuid, row: Option<Application>)
    requires LocksOk(s) && Disciplined(owner, s) && t in s.transactions
    requires forall a | a in s.db.applications :: owner(a) == s.db.applications[a].applicant
    requires row.Some? ==> row.value.id in s.db.applications && s.db.applications[row.value.id] == row.value
    ensures var db' := Commit(s, t, row).db; forall a | a in db'.applications :: owner(a) == db'.applications[a].applicant
  {
    var r := s.transactions[t].request;
    assert TransactionOk(s, t);
    WriteEffect(s.db, r, row);
    CommitFinishes(s, t, row);
    NewApplicationsId(s.db, r, row);
    hide Write, Commit, LocksOk;
  }

  lemma NewApplicationsId(db: Db, r: Request, row: Option<Application>)
    ensures row.None? && r.SaveDraftRequest? && Write(db, r, row).1.Changed? ==>
              Write(db, r, row).1.application.id == r.applicationId
  {
    hide FindKey;
  }

  lemma CommitLeavesItselfFree(s: System, t: Uuid, row: Option<Application>)
    requires t in s.transactions && CollisionFree(s, t)
    requires s.transactions[t].stage == Holding(row) || s.transactions[t].stage == Ready(row)
    requires s.transactions[t].stage.Ready? || s.transactions[t].request.SaveDraftRequest?
    ensures t in Commit(s, t, row).transactions && CollisionFree(Commit(s, t, row), t)
  {
    OwnCommitDoesNotCollide(s.db, s.transactions[t].request, row);
    CommitFinishes(s, t, row);
    hide Commit, Write, FindKey;
  }

  lemma CommitKeepsCalm(owner: Uuid -> Uuid, s: System, t: Uuid, row: Option<Application>)
    requires LocksOk(s) && Indexed(s.db) && Disciplined(owner, s) && Calm(owner, s) && t in s.transactions
    requires s.transactions[t].stage == Holding(row) || s.transactions[t].stage == Ready(row)
    requires s.transactions[t].stage.Ready? || s.transactions[t].request.SaveDraftRequest?
    ensures Calm(owner, Commit(s, t, row))
  {
    hide LocksOk, Indexed, Disciplined, Commit, CollisionFree, TouchesOnly;
    var s' := Commit(s, t, row);
    CommitLeavesItselfFree(s, t, row);
    CommitHasSameTransactions(s, t, row);
    HeldRowIsCurrent(s, t, row);
    CommitKeepsOwners(owner, s, t, row);
    forall x | x in s'.transactions
      ensures CollisionFree(s', x)
    {
      if x != t {
        CommitKeepsOthersCollisionFree(owner, s, t, row, x);
      }
    }
  }

  lemma CommitHasSameTransactions(s: System, t: Uuid, row: Option<Application>)
    requires t in s.transactions
    ensures Commit(s, t, row).transactions.Keys == s.transactions.Keys
  {
    CommitTouchesOne(s, t, row);
    hide Commit;
  }

  lemma HeldRowIsCurrent(s: System, t: Uuid, row: Option<Application>)
    requires LocksOk(s) && Indexed(s.db) && t in s.transactions
    requires s.transactions[t].stage == Holding(row) || s.transactions[t].stage == Ready(row)
    ensures row.Some? ==> row.value.id in s.db.applications && s.db.applications[row.value.id] == row.value
  {
    assert TransactionOk(s, t);
  }

  lemma OwnCommitDoesNotCollide(db: Db, r: Request, row: Option<Application>)
    requires KeyFree(db, r) || (r.SaveDraftRequest? && row.Some? && Closed(row.value.state))
    ensures Write(db, r, row).1 != DuplicateKey
  {
    hide Latest, SnapshotsOf, FindKey;
  }

  lemma CheckIsFree(s: System, t: Uuid, target: Option<Uuid>, next: Stage)
    requires t in s.transactions && CollisionFree(s, t) && !next.Finished?
    requires next.Holding? ==> !s.transactions[t].request.SaveDraftRequest?
    ensures t in Check(s, t, target, next).transactions && CollisionFree(Check(s, t, target, next), t)
  {
    ReplayNeverChanges(s.db, s.transactions[t].request.context);
    hide FindKey;
  }

  lemma LockRowIsFree(s: System, t: Uuid)
    requires t in s.transactions && CollisionFree(s, t)
    requires s.transactions[t].stage == if s.transactions[t].request.SaveDraftRequest? then Cleared else Checked
    ensures t in LockRow(s, t).transactions && CollisionFree(LockRow(s, t), t)
  {
    hide FindKey;
  }

  /** A statement that does not commit leaves its own transaction free of collisions. */
  lemma OwnStepIsCollisionFree(s: System, t: Uuid)
    requires LocksOk(s) && t in s.transactions && CollisionFree(s, t)
    requires !s.transactions[t].stage.Ready? && !(s.transactions[t].stage.Holding? && s.transactions[t].request.SaveDraftRequest?)
    ensures t in Advanced(s, t).transactions && CollisionFree(Advanced(s, t), t)
  {
    var request := s.transactions[t].request;
    assert TransactionOk(s, t);
    hide Check, LockRow, Commit, LocksOk, RowFor, FindKey;
    match s.transactions[t].stage {
      case Opened => CheckIsFree(s, t, ReplayTarget(request), Checked);
      case Checked =>
        if !request.SaveDraftRequest? {
          LockRowIsFree(s, t);
        }
      case Guarded => CheckIsFree(s, t, None, Cleared);
      case Cleared => LockRowIsFree(s, t);
      case Holding(row) => CheckIsFree(s, t, SecondTarget(request, row), Ready(row));
      case _ =>
    }
  }

  lemma AdvanceKeepsCalm(owner: Uuid -> Uuid, s: System, t: Uuid)
    requires LocksOk(s) && Indexed(s.db) && Disciplined(owner, s) && Calm(owner, s) && t in s.transactions
    ensures Calm(owner, Advanced(s, t))
  {
    var r, stage := s.transactions[t].request, s.transactions[t].stage;
    if stage.Ready? || (stage.Holding? && r.SaveDraftRequest?) {
      CommitKeepsCalm(owner, s, t, stage.row);
    } else {
      hide Advanced, CollisionFree, LocksOk, Disciplined;
      OwnStepIsCollisionFree(s, t);
      OtherStatementsKeepTables(s, t);
      AdvanceTouchesOne(s, t);
      forall x | x in Advanced(s, t).transactions && x != t
        ensures CollisionFree(Advanced(s, t), x)
      {
        SameTablesSameFreedom(s, Advanced(s, t), x);
      }
    }
  }

  lemma DisciplineOfPrefix(owner: Uuid -> Uuid, s: System, a: Move)
    requires Disciplined(owner, Step(s, a))
    ensures Disciplined(owner, s)
  {
    hide Step, MayShare;
    var s' := Step(s, a);
    StepTouchesOne(s, a);
    forall t, x | t in s.transactions && x in s.transactions &&
                  s.transactions[t].request.context.key == s.transactions[x].request.context.key
      ensures MayShare(owner, s.transactions[t].request, s.transactions[x].request)
    {
      assert t in s'.transactions && x in s'.transactions;
    }
  }

  lemma {:induction false} DisciplinedSchedulesAreCalm(owner: Uuid -> Uuid, moves: seq<Move>)
    requires Disciplined(owner, Schedule(IDLE, moves))
    ensures Calm(owner, Schedule(IDLE, moves))
  {
    if moves != [] {
      var front, last := moves[..|moves| - 1], moves[|moves| - 1];
      var s := Schedule(IDLE, front);
      DisciplineOfPrefix(owner, s, last);
      DisciplinedSchedulesAreCalm(owner, front);
      EveryScheduleIsSerial(front);
      hide Schedule, Advanced, Calm, Disciplined;
      match last {
        case Begin(t, request) => BeginKeepsCalm(owner, s, t, request);
        case Advance(t) =>
          if t in s.transactions {
            AdvanceKeepsCalm(owner, s, t);
          }
        case Drop(t) => DropKeepsCalm(owner, s, t);
      }
    }
  }

  lemma DropKeepsCalm(owner: Uuid -> Uuid, s: System, t: Uuid)
    requires Calm(owner, s)
    ensures Calm(owner, Step(s, Drop(t)))
  {
    hide FindKey;
    var s' := Step(s, Drop(t));
    forall x | x in s'.transactions
      ensures CollisionFree(s', x)
    {
      assert CollisionFree(s, x);
    }
  }

  lemma BeginKeepsCalm(owner: Uuid -> Uuid, s: System, t: Uuid, r: Request)
    requires Calm(owner, s)
    ensures Calm(owner, Step(s, Begin(t, r)))
  {
    hide FindKey;
    var s' := Step(s, Begin(t, r));
    forall x | x in s'.transactions
      ensures CollisionFree(s', x)
    {
      if x in s.transactions {
        assert CollisionFree(s, x);
      }
    }
  }

  /**
   If requests share a key only as `MayShare` allows, no schedule ever runs a transaction into the unique index over
   idempotency keys.
   */
  lemma DisciplinedKeysNeverCollide(owner: Uuid -> Uuid, moves: seq<Move>, t: Uuid)
    requires Disciplined(owner, Schedule(IDLE, moves)) && t in Schedule(IDLE, moves).transactions
    ensures Schedule(IDLE, moves).transactions[t].stage != Finished(DuplicateKey)
  {
    hide Schedule;
    DisciplinedSchedulesAreCalm(owner, moves);
    assert CollisionFree(Schedule(IDLE, moves), t);
  }
}
