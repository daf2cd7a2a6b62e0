/**
 Scenes for the collisions of admission: reachable states in which two applications stand where one likes, built request by
 request, and a transaction that waits between its second check and its commit.
 */
module AdmissionScenes {
  import opened Common
  import opened CreatorAdmission
  import opened AdmissionHistory
  import opened AdmissionInterleaving
  import opened AdmissionIdempotency
  import opened AdmissionAnswers

  // ----- Reaching a state -----

  ghost predicate Reachable(s: System) {
    exists moves :: s == Schedule(IDLE, moves)
  }

  lemma Onward(s: System, a: Move)
    requires Reachable(s)
    ensures Reachable(Step(s, a))
  {
    var moves :| s == Schedule(IDLE, moves);
    assert (moves + [a])[..|moves|] == moves;
    assert Schedule(IDLE, moves + [a]) == Step(s, a);
  }

  lemma ReachableIsSerial(s: System)
    requires Reachable(s)
    ensures LocksOk(s) && History(s.db)
  {
    var moves :| s == Schedule(IDLE, moves);
    EveryScheduleIsSerial(moves);
    hide LocksOk, History;
  }

  /** Nothing that `r` needs is held by anyone. */
  ghost predicate Unhindered(s: System, t: Uuid, r: Request) {
    && t !in s.transactions
    && (forall n | n in s.applicantLocks :: s.applicantLocks[n] != t)
    && (forall n | n in s.rowLocks :: s.rowLocks[n] != t)
    && (r.SaveDraftRequest? ==> r.context.actor !in s.applicantLocks)
    && (RowFor(s.db, r).Some? ==> RowFor(s.db, r).value.id !in s.rowLocks)
  }

  /** The transaction has passed its second check, and waits. */
  function Waiting(s: System, t: Uuid, r: Request): System
    requires !r.SaveDraftRequest? ==> RowFor(s.db, r).Some?
  {
    if r.SaveDraftRequest?
    then s.(transactions := s.transactions[t := Transaction(r, Cleared)],
            applicantLocks := s.applicantLocks[r.context.actor := t])
    else s.(transactions := s.transactions[t := Transaction(r, Ready(RowFor(s.db, r)))],
            rowLocks := s.rowLocks[RowFor(s.db, r).value.id := t])
  }

  function AfterFirstCheck(s: System, t: Uuid, r: Request): System {
    s.(transactions := s.transactions[t := Transaction(r, Checked)])
  }

  lemma ReachesFirstCheck(s: System, t: Uuid, r: Request)
    requires Reachable(s) && t !in s.transactions && WellFormed(r) && KeyFree(s.db, r)
    ensures Reachable(AfterFirstCheck(s, t, r))
  {
    hide FindKey, Reachable;
    var s1 := s.(transactions := s.transactions[t := Transaction(r, Opened)]);
    assert Step(s, Begin(t, r)) == s1;
    Onward(s, Begin(t, r));
    assert Step(s1, Advance(t)) == AfterFirstCheck(s, t, r);
    Onward(s1, Advance(t));
  }

  lemma DraftReachesWaiting(s: System, t: Uuid, r: Request)
    requires Reachable(s) && Unhindered(s, t, r) && r.SaveDraftRequest? && KeyFree(s.db, r)
    ensures Reachable(Waiting(s, t, r))
  {
    hide FindKey, Write, RowFor, Reachable;
    var s2 := AfterFirstCheck(s, t, r);
    var s3 := s.(transactions := s.transactions[t := Transaction(r, Guarded)],
                 applicantLocks := s.applicantLocks[r.context.actor := t]);
    ReachesFirstCheck(s, t, r);
    assert Step(s2, Advance(t)) == s3;
    Onward(s2, Advance(t));
    assert Step(s3, Advance(t)) == Waiting(s, t, r);
    Onward(s3, Advance(t));
  }

  lemma OtherReachesWaiting(s: System, t: Uuid, r: Request)
    requires Reachable(s) && Unhindered(s, t, r) && !r.SaveDraftRequest? && WellFormed(r) && KeyFree(s.db, r)
    requires RowFor(s.db, r).Some?
    ensures Reachable(Waiting(s, t, r))
  {
    hide FindKey, Write, RowFor, Reachable;
    var row := RowFor(s.db, r);
    var s2 := AfterFirstCheck(s, t, r);
    var s3 := s.(transactions := s.transactions[t := Transaction(r, Holding(row))], rowLocks := s.rowLocks[row.value.id := t]);
    ReachesFirstCheck(s, t, r);
    assert Step(s2, Advance(t)) == s3;
    Onward(s2, Advance(t));
    assert Step(s3, Advance(t)) == Waiting(s, t, r);
    Onward(s3, Advance(t));
  }

  lemma ReachesWaiting(s: System, t: Uuid, r: Request)
    requires Reachable(s) && Unhindered(s, t, r) && WellFormed(r) && KeyFree(s.db, r)
    requires !r.SaveDraftRequest? ==> RowFor(s.db, r).Some?
    ensures Reachable(Waiting(s, t, r))
  {
    hide Reachable, Unhindered, RowFor, KeyFree, Waiting;
    if r.SaveDraftRequest? {
      DraftReachesWaiting(s, t, r);
    } else {
      OtherReachesWaiting(s, t, r);
    }
  }

  /** A row lock taken just before the commit makes no difference to what the commit leaves. */
  lemma CommitAfterLock(s: System, t: Uuid, row: Option<Application>)
    requires t in s.transactions && (row.Some? ==> row.value.id !in s.rowLocks)
    ensures Commit(Locked(s, t, row), t, row) == Commit(s, t, row)
  {
    hide Write;
    assert WithoutHolder(Locked(s, t, row).rowLocks, t) == WithoutHolder(s.rowLocks, t);
    assert AtStage(Locked(s, t, row), t, Finished(Dropped)).transactions == AtStage(s, t, Finished(Dropped)).transactions;
  }

  function Locked(s: System, t: Uuid, row: Option<Application>): System
    requires t in s.transactions
  {
    AtStage(s, t, Holding(row)).(rowLocks := if row.Some? then s.rowLocks[row.value.id := t] else s.rowLocks)
  }

  /** From there it commits on whatever row it finds or holds. */
  lemma DraftReachesCommit(s: System, t: Uuid)
    requires Reachable(s) && t in s.transactions
    requires s.transactions[t].stage.Cleared? && s.transactions[t].request.SaveDraftRequest?
    requires var row := RowFor(s.db, s.transactions[t].request); row.Some? ==> row.value.id !in s.rowLocks
    ensures Reachable(Commit(s, t, RowFor(s.db, s.transactions[t].request)))
  {
    var row := RowFor(s.db, s.transactions[t].request);
    var s1 := Locked(s, t, row);
    CommitAfterLock(s, t, row);
    hide RowFor, Write, Reachable, Commit;
    assert Step(s, Advance(t)) == s1;
    Onward(s, Advance(t));
    assert Step(s1, Advance(t)) == Commit(s1, t, row);
    Onward(s1, Advance(t));
  }

  lemma ReachesCommit(s: System, t: Uuid)
    requires Reachable(s) && PastCheck(s, t)
    requires var r := s.transactions[t].request;
             r.SaveDraftRequest? ==>
               s.transactions[t].stage.Cleared? && (RowFor(s.db, r).Some? ==> RowFor(s.db, r).value.id !in s.rowLocks)
    ensures Reachable(Commit(s, t, RowFor(s.db, s.transactions[t].request)))
  {
    if s.transactions[t].request.SaveDraftRequest? {
      DraftReachesCommit(s, t);
    } else {
      ReachableIsSerial(s);
      assert TransactionOk(s, t);
      hide LocksOk, History, RowFor, Commit, Reachable;
      assert Step(s, Advance(t)) == Commit(s, t, s.transactions[t].stage.row);
      Onward(s, Advance(t));
    }
  }

  /** A request that takes effect with nobody in between. */
  function AfterSolo(s: System, t: Uuid, r: Request): System {
    s.(db := Apply(s.db, r).0,
       transactions := s.transactions[t := Transaction(r, Finished(Apply(s.db, r).1))],
       committed := s.committed + [r],
       authors := s.authors + [t])
  }

  lemma LockIsReturned(locks: map<Uuid, Uuid>, n: Uuid, t: Uuid)
    requires n !in locks && forall m | m in locks :: locks[m] != t
    ensures WithoutHolder(locks[n := t], t) == locks == WithoutHolder(locks, t)
  {
  }

  lemma NoLockToReturn(locks: map<Uuid, Uuid>, t: Uuid)
    requires forall m | m in locks :: locks[m] != t
    ensures WithoutHolder(locks, t) == locks
  {
  }

  lemma ChangedMeansWritten(db: Db, r: Request)
    requires Apply(db, r).1.Changed?
    ensures WellFormed(r) && KeyFree(db, r) && Apply(db, r) == Write(db, r, RowFor(db, r))
    ensures !r.SaveDraftRequest? ==> RowFor(db, r).Some?
  {
    hide Latest, SnapshotsOf;
  }

  lemma SoloCommit(s: System, t: Uuid, r: Request)
    requires Unhindered(s, t, r) && (!r.SaveDraftRequest? ==> RowFor(s.db, r).Some?)
    requires Apply(s.db, r).1.Changed? && Apply(s.db, r) == Write(s.db, r, RowFor(s.db, r))
    ensures Commit(Waiting(s, t, r), t, RowFor(s.db, r)) == AfterSolo(s, t, r)
  {
    hide RowFor, Write, Apply, WithoutHolder;
    NoLockToReturn(s.applicantLocks, t);
    NoLockToReturn(s.rowLocks, t);
    if r.SaveDraftRequest? {
      LockIsReturned(s.applicantLocks, r.context.actor, t);
    } else {
      LockIsReturned(s.rowLocks, RowFor(s.db, r).value.id, t);
    }
  }

  lemma WaitingIsPastCheck(s: System, t: Uuid, r: Request)
    requires Unhindered(s, t, r) && (!r.SaveDraftRequest? ==> RowFor(s.db, r).Some?)
    ensures var w := Waiting(s, t, r);
            && PastCheck(w, t) && w.transactions[t].request == r && w.db == s.db
            && (r.SaveDraftRequest? ==>
                  && w.transactions[t].stage.Cleared?
                  && (RowFor(s.db, r).Some? ==> RowFor(s.db, r).value.id !in w.rowLocks))
  {
    hide RowFor;
  }

  lemma ReachesSolo(s: System, t: Uuid, r: Request)
    requires Reachable(s) && Unhindered(s, t, r) && Apply(s.db, r).1.Changed?
    ensures Reachable(AfterSolo(s, t, r))
  {
    hide *;
    ChangedMeansWritten(s.db, r);
    ReachesWaiting(s, t, r);
    WaitingIsPastCheck(s, t, r);
    ReachesCommit(Waiting(s, t, r), t);
    SoloCommit(s, t, r);
  }

  // ----- Two applicants and what they ask -----

  datatype Kind = Saving | Submitting | Deciding(action: Action)

  function KindOf(r: Request): Kind {
    match r
    case SaveDraftRequest(_, _, _) => Saving
    case SubmitRequest(_, _, _) => Submitting
    case ReviewRequest(_, _, action, _, _, _) => Deciding(action)
  }

  predicate Askable(kind: Kind) {
    kind.Deciding? ==> IsReviewAction(kind.action)
  }

  datatype Party = Party(applicant: Uuid, application: Uuid)

  const HOME := Party(1, 10)
  const AWAY := Party(3, 30)
  const REVIEWER: Uuid := 2
  const CONTENT := Content("a launch", true, true, true, true)
  const ROLES := {"reviewer"}
  const IDENTITY := Some(Identity("creator@example.com", true))

  function Ask(p: Party, kind: Kind, key: string): Request {
    match kind
    case Saving => SaveDraftRequest(Context(p.applicant, key, "save"), p.application, CONTENT)
    case Submitting => SubmitRequest(Context(p.applicant, key, "submit"), IDENTITY, 20)
    case Deciding(action) => ReviewRequest(Context(REVIEWER, key, "review"), p.application, action, ROLES, ROLES, IDENTITY)
  }

  /** The state a request leads to; `None` before is no application yet, after it that the request is refused. */
  function Moved(state: Option<State>, kind: Kind): Option<State> {
    match kind
    case Saving => if state.None? then Some(Draft) else if Editable(state.value) then state else None
    case Submitting =>
      if state.None? then None else Resolve(state.value, if state.value == Draft then Submit else Resubmit)
    case Deciding(action) => if state.None? then None else Resolve(state.value, action)
  }

  ghost predicate Stands(db: Db, p: Party, state: Option<State>) {
    match state
    case None => p.applicant !in db.byApplicant && p.application !in db.applications
    case Some(st) =>
      && p.applicant in db.byApplicant && db.byApplicant[p.applicant] == p.application
      && p.application in db.applications
      && var a := db.applications[p.application];
      && a.id == p.application && a.applicant == p.applicant && a.state == st && a.draft == CONTENT
      && (st != Draft ==> Latest(SnapshotsOf(db.snapshots, p.application)).Some?)
  }

  ghost predicate KeyIn(db: Db, key: string) {
    FindKey(db.events, key).Some?
  }

  lemma AskedRow(db: Db, p: Party, state: Option<State>, kind: Kind, key: string)
    requires Stands(db, p, state) && (state.Some? || kind == Saving)
    ensures var row := RowFor(db, Ask(p, kind, key));
            && (row.Some? ==> row.value.id == p.application && row.value == db.applications[p.application])
            && (row.Some? <==> state.Some?)
  {
    hide Latest, SnapshotsOf;
  }

  /** What is asked with an unused key takes effect. */
  lemma AskApplies(db: Db, p: Party, state: Option<State>, kind: Kind, key: string)
    requires Stands(db, p, state) && Moved(state, kind).Some? && Askable(kind) && p.applicant != REVIEWER && !KeyIn(db, key)
    ensures var (db', outcome) := Apply(db, Ask(p, kind, key));
            && outcome.Changed?
            && outcome.application.id == p.application && outcome.application.state == Moved(state, kind).value
            && outcome.application.applicant == p.applicant && outcome.application.draft == CONTENT
            && db'.applications == db.applications[p.application := outcome.application]
            && db'.byApplicant == (if state.None? then db.byApplicant[p.applicant := p.application] else db.byApplicant)
            && (db'.snapshots == db.snapshots ||
                exists s: Snapshot :: s.application == p.application && db'.snapshots == db.snapshots + [s])
            && (kind == Submitting ==> db'.snapshots != db.snapshots)
            && (exists e: Event :: e.key == key && db'.events == db.events + [e])
  {
    hide FindKey, SnapshotsOf, Latest;
    assert "reviewer" in ROLES * ROLES;
  }

  lemma AskMoves(db: Db, p: Party, state: Option<State>, kind: Kind, key: string)
    requires Stands(db, p, state) && Moved(state, kind).Some? && Askable(kind) && p.applicant != REVIEWER && !KeyIn(db, key)
    ensures Apply(db, Ask(p, kind, key)).1.Changed?
    ensures Stands(Apply(db, Ask(p, kind, key)).0, p, Moved(state, kind))
  {
    AskApplies(db, p, state, kind, key);
    var db' := Apply(db, Ask(p, kind, key)).0;
    hide Apply, SnapshotsOf, FindKey;
    if db'.snapshots != db.snapshots {
      var s: Snapshot :| s.application == p.application && db'.snapshots == db.snapshots + [s];
      SnapshotsOfSnoc(db.snapshots, s, p.application);
      LatestOfMore(SnapshotsOf(db.snapshots, p.application), s);
    }
  }

  lemma LatestOfMore(snapshots: seq<Snapshot>, s: Snapshot)
    ensures Latest(snapshots + [s]).Some?
  {
    assert (snapshots + [s])[..|snapshots|] == snapshots;
  }

  lemma AskLeavesOthers(db: Db, p: Party, state: Option<State>, kind: Kind, key: string, q: Party, other: Option<State>)
    requires Stands(db, p, state) && Moved(state, kind).Some? && Askable(kind) && p.applicant != REVIEWER && !KeyIn(db, key)
    requires q.applicant != p.applicant && q.application != p.application && Stands(db, q, other)
    ensures Stands(Apply(db, Ask(p, kind, key)).0, q, other)
  {
    AskApplies(db, p, state, kind, key);
    var db' := Apply(db, Ask(p, kind, key)).0;
    hide Apply, SnapshotsOf, Latest, FindKey;
    if db'.snapshots != db.snapshots {
      var s: Snapshot :| s.application == p.application && db'.snapshots == db.snapshots + [s];
      SnapshotsOfSnoc(db.snapshots, s, q.application);
    }
  }

  lemma AskTakesKey(db: Db, p: Party, state: Option<State>, kind: Kind, key: string)
    requires Stands(db, p, state) && Moved(state, kind).Some? && Askable(kind) && p.applicant != REVIEWER && !KeyIn(db, key)
    ensures forall k :: KeyIn(Apply(db, Ask(p, kind, key)).0, k) <==> KeyIn(db, k) || k == key
  {
    AskApplies(db, p, state, kind, key);
    var db' := Apply(db, Ask(p, kind, key)).0;
    hide Apply, SnapshotsOf, Latest, FindKey, Stands;
    var e: Event :| e.key == key && db'.events == db.events + [e];
    FindKeyLast(db.events, e);
    forall k | k != key
      ensures KeyIn(db', k) <==> KeyIn(db, k)
    {
      FindKeySnoc(db.events, e, k);
    }
  }

  /** Past its check, the same request meets the index if its key has been taken since. */
  lemma LateAskCollides(db: Db, p: Party, state: Option<State>, kind: Kind, key: string)
    requires Stands(db, p, state) && Moved(state, kind).Some? && Askable(kind) && p.applicant != REVIEWER && KeyIn(db, key)
    ensures Write(db, Ask(p, kind, key), RowFor(db, Ask(p, kind, key))).1 == DuplicateKey
  {
    hide FindKey, SnapshotsOf, Latest;
    assert "reviewer" in ROLES * ROLES;
  }

  // ----- Scenes: two applications on their way, and one transaction waiting -----

  /** Path transactions are numbered from two and have keys of their own; transactions zero and one share the empty key. */
  function KeyOf(t: Uuid): string {
    if t <= 1 then "" else seq(t, _ => 'k')
  }

  const OWNER: Uuid -> Uuid := (id: Uuid) => if id == AWAY.application then AWAY.applicant else HOME.applicant

  predicate WellOwned(r: Request) {
    r.SaveDraftRequest? ==> OWNER(r.applicationId) == r.context.actor
  }

  /** The transactions so far are numbered below `n` and have their own keys. */
  ghost predicate NumberedBelow(transactions: map<Uuid, Transaction>, n: Uuid) {
    forall t | t in transactions :: t < n && transactions[t].request.context.key == KeyOf(t) && WellOwned(transactions[t].request)
  }

  /** Nobody holds a lock but transaction zero, and that only at home. */
  ghost predicate HeldAtHome(s: System) {
    && (forall a | a in s.rowLocks :: a == HOME.application && s.rowLocks[a] == 0)
    && (forall u | u in s.applicantLocks :: u == HOME.applicant && s.applicantLocks[u] == 0)
  }

  ghost predicate KeysAhead(db: Db, n: Uuid) {
    forall t: Uuid | t >= n :: !KeyIn(db, KeyOf(t))
  }

  ghost predicate Scene(s: System, n: Uuid, home: Option<State>, away: Option<State>) {
    && n >= 2 && Reachable(s)
    && Stands(s.db, HOME, home) && Stands(s.db, AWAY, away)
    && NumberedBelow(s.transactions, n) && KeysAhead(s.db, n) && HeldAtHome(s)
  }

  function StateOf(p: Party, home: Option<State>, away: Option<State>): Option<State> {
    if p == HOME then home else away
  }

  function OtherParty(p: Party): Party {
    if p == HOME then AWAY else HOME
  }

  lemma AskInScene(db: Db, p: Party, state: Option<State>, other: Option<State>, kind: Kind, key: string)
    requires (p == HOME || p == AWAY) && Stands(db, p, state) && Stands(db, OtherParty(p), other)
    requires Moved(state, kind).Some? && Askable(kind) && !KeyIn(db, key)
    ensures var (db', outcome) := Apply(db, Ask(p, kind, key));
            && outcome.Changed? && outcome.application.id == p.application
            && Stands(db', p, Moved(state, kind)) && Stands(db', OtherParty(p), other)
            && forall k :: KeyIn(db', k) <==> KeyIn(db, k) || k == key
  {
    AskApplies(db, p, state, kind, key);
    AskMoves(db, p, state, kind, key);
    AskTakesKey(db, p, state, kind, key);
    AskLeavesOthers(db, p, state, kind, key, OtherParty(p), other);
    hide Apply, Stands, KeyIn, Moved;
  }

  lemma AskIsUnhindered(s: System, p: Party, state: Option<State>, kind: Kind, t: Uuid, key: string)
    requires Stands(s.db, p, state) && Moved(state, kind).Some? && (p == HOME || p == AWAY)
    requires t !in s.transactions && t != 0 && HeldAtHome(s)
    requires p == HOME ==> s.rowLocks == map[] && (kind == Saving ==> s.applicantLocks == map[])
    ensures Unhindered(s, t, Ask(p, kind, key))
  {
    AskedRow(s.db, p, state, kind, key);
    hide RowFor, Stands, Moved;
  }

  /** What transaction `t` did it did beside the others and their locks. */
  ghost predicate Alongside(s: System, s': System, t: Uuid) {
    && s'.rowLocks == s.rowLocks && s'.applicantLocks == s.applicantLocks
    && forall x | x != t :: (x in s'.transactions <==> x in s.transactions) &&
                            (x in s.transactions ==> s'.transactions[x] == s.transactions[x])
  }

  /** One party asks with transaction `t` and its key, and the scene goes on. */
  lemma Follow(s: System, n: Uuid, home: Option<State>, away: Option<State>, p: Party, kind: Kind, t: Uuid, n': Uuid)
    requires Scene(s, n, home, away) && (p == HOME || p == AWAY)
    requires Moved(StateOf(p, home, away), kind).Some? && Askable(kind)
    requires (t == 1 && n' == n && 1 !in s.transactions && !KeyIn(s.db, "")) || (t == n && n' == n + 1)
    requires p == HOME ==> s.rowLocks == map[] && (kind == Saving ==> s.applicantLocks == map[])
    ensures var r := Ask(p, kind, KeyOf(t));
            var moved := Moved(StateOf(p, home, away), kind);
            && Apply(s.db, r).1.Changed? && Apply(s.db, r).1.application.id == p.application
            && Scene(AfterSolo(s, t, r), n', if p == HOME then moved else home, if p == HOME then away else moved)
            && Alongside(s, AfterSolo(s, t, r), t)
            && forall k :: KeyIn(AfterSolo(s, t, r).db, k) <==> KeyIn(s.db, k) || k == KeyOf(t)
  {
    hide Apply, Stands, KeyIn, Reachable, Moved, Ask, Alongside, WellOwned, KeyOf, AfterSolo, Unhindered, Askable, NumberedBelow, HeldAtHome,
         KeysAhead;
    var r, state := Ask(p, kind, KeyOf(t)), StateOf(p, home, away);
    TransactionIsNew(s, n, t);
    KeysAreApart(s, n, t, n');
    AskInScene(s.db, p, state, if p == HOME then away else home, kind, KeyOf(t));
    AskIsUnhindered(s, p, state, kind, t, KeyOf(t));
    AskIsOwn(p, kind, KeyOf(t));
    ReachesSolo(s, t, r);
    SoloKeepsRest(s, n, t, n', r);
  }

  lemma TransactionIsNew(s: System, n: Uuid, t: Uuid)
    requires NumberedBelow(s.transactions, n) && (t == n || t !in s.transactions)
    ensures t !in s.transactions
  {
  }

  lemma SoloKeepsRest(s: System, n: Uuid, t: Uuid, n': Uuid, r: Request)
    requires NumberedBelow(s.transactions, n) && HeldAtHome(s) && t < n' && n <= n' && r.context.key == KeyOf(t) && WellOwned(r)
    requires KeysAhead(s.db, n) && forall m: Uuid | m >= n' :: KeyOf(m) != KeyOf(t)
    requires forall k :: KeyIn(Apply(s.db, r).0, k) <==> KeyIn(s.db, k) || k == KeyOf(t)
    ensures var s' := AfterSolo(s, t, r);
            && s'.db == Apply(s.db, r).0 && NumberedBelow(s'.transactions, n') && HeldAtHome(s') && KeysAhead(s'.db, n')
            && Alongside(s, s', t)
  {
    hide Apply, KeyIn, KeyOf, WellOwned;
  }

  lemma KeysAreApart(s: System, n: Uuid, t: Uuid, n': Uuid)
    requires n >= 2 && KeysAhead(s.db, n)
    requires (t == 1 && n' == n && !KeyIn(s.db, "")) || (t == n && n' == n + 1)
    ensures !KeyIn(s.db, KeyOf(t)) && forall m: Uuid | m >= n' :: KeyOf(m) != KeyOf(t)
  {
    hide KeyIn;
    forall m: Uuid | m >= n'
      ensures KeyOf(m) != KeyOf(t)
    {
      KeysDiffer(t, m);
    }
  }

  lemma AskIsOwn(p: Party, kind: Kind, key: string)
    requires p == HOME || p == AWAY
    ensures WellOwned(Ask(p, kind, key)) && Ask(p, kind, key).context.key == key && KindOf(Ask(p, kind, key)) == kind
    ensures WellFormed(Ask(p, kind, key)) <==> Askable(kind)
    ensures Subject(OWNER, Ask(p, kind, key)) == p.applicant
  {
  }

  lemma KeysDiffer(t: Uuid, m: Uuid)
    requires m >= 2 && t < m
    ensures KeyOf(t) != KeyOf(m)
  {
    assert |KeyOf(m)| == m;
    assert |KeyOf(t)| < m;
  }

  /** The states passed through when the kinds are asked one after another. */
  function Arrived(state: Option<State>, way: seq<Kind>): Option<State> {
    if way == [] then state else Moved(Arrived(state, way[..|way| - 1]), way[|way| - 1])
  }

  predicate Passable(state: Option<State>, way: seq<Kind>) {
    forall i | 0 <= i < |way| :: Askable(way[i]) && Moved(Arrived(state, way[..i]), way[i]).Some?
  }

  /** The same for all transactions from `n` on. */
  ghost predicate AlongsideFrom(s: System, s': System, n: Uuid) {
    && s'.rowLocks == s.rowLocks && s'.applicantLocks == s.applicantLocks
    && forall x | x < n :: (x in s'.transactions <==> x in s.transactions) &&
                           (x in s.transactions ==> s'.transactions[x] == s.transactions[x])
  }

  lemma StillAlongside(s: System, s1: System, s2: System, n: Uuid, t: Uuid)
    requires AlongsideFrom(s, s1, n) && Alongside(s1, s2, t) && n <= t
    ensures AlongsideFrom(s, s2, n)
  {
  }

  function HomeState(p: Party, state: Option<State>, home: Option<State>): Option<State> {
    if p == HOME then state else home
  }

  function AwayState(p: Party, state: Option<State>, away: Option<State>): Option<State> {
    if p == HOME then away else state
  }

  lemma PassableFront(state: Option<State>, way: seq<Kind>)
    requires way != [] && Passable(state, way)
    ensures var (front, kind) := (way[..|way| - 1], way[|way| - 1]);
            && Passable(state, front) && Askable(kind) && kind in way && Moved(Arrived(state, front), kind).Some?
            && Arrived(state, way) == Moved(Arrived(state, front), kind)
  {
    hide Moved, Askable, Arrived;
    var front := way[..|way| - 1];
    assert forall i | 0 <= i < |front| :: front[..i] == way[..i] && front[i] == way[i];
    ArrivedUnfolds(state, way);
  }

  lemma ArrivedUnfolds(state: Option<State>, way: seq<Kind>)
    requires way != []
    ensures Arrived(state, way) == Moved(Arrived(state, way[..|way| - 1]), way[|way| - 1])
  {
  }

  lemma {:induction false} Walk(s: System, n: Uuid, home: Option<State>, away: Option<State>, p: Party, way: seq<Kind>)
    returns (s': System)
    requires Scene(s, n, home, away) && (p == HOME || p == AWAY) && Passable(StateOf(p, home, away), way)
    requires s.rowLocks == map[] && (s.applicantLocks == map[] || Saving !in way)
    ensures var arrived := Arrived(StateOf(p, home, away), way);
            Scene(s', n + |way|, HomeState(p, arrived, home), AwayState(p, arrived, away))
    ensures AlongsideFrom(s, s', n)
    ensures KeyIn(s'.db, "") <==> KeyIn(s.db, "")
    decreases |way|
  {
    hide *;
    if way == [] {
      s' := s;
      NothingWalked(s, n, home, away, p);
    } else {
      PassableFront(StateOf(p, home, away), way);
      SceneCounts(s, n, home, away);
      var front, kind, t := way[..|way| - 1], way[|way| - 1], n + |way| - 1;
      var s1 := Walk(s, n, home, away, p, front);
      var arrived := Arrived(StateOf(p, home, away), front);
      PlacedState(p, arrived, home, away);
      PlacedStateAgain(p, arrived, Moved(arrived, kind), home, away);
      LocksAlongside(s, s1, n);
      Follow(s1, t, HomeState(p, arrived, home), AwayState(p, arrived, away), p, kind, t, t + 1);
      s' := AfterSolo(s1, t, Ask(p, kind, KeyOf(t)));
      StillAlongside(s, s1, s', n, t);
      KeyIsNotEmpty(t);
    }
  }

  lemma NothingWalked(s: System, n: Uuid, home: Option<State>, away: Option<State>, p: Party)
    requires p == HOME || p == AWAY
    ensures var arrived := Arrived(StateOf(p, home, away), []);
            HomeState(p, arrived, home) == home && AwayState(p, arrived, away) == away
    ensures AlongsideFrom(s, s, n)
  {
  }

  lemma PlacedState(p: Party, state: Option<State>, home: Option<State>, away: Option<State>)
    requires p == HOME || p == AWAY
    ensures StateOf(p, HomeState(p, state, home), AwayState(p, state, away)) == state
  {
  }

  lemma PlacedStateAgain(p: Party, state: Option<State>, next: Option<State>, home: Option<State>, away: Option<State>)
    ensures (if p == HOME then next else HomeState(p, state, home)) == HomeState(p, next, home)
    ensures (if p == HOME then AwayState(p, state, away) else next) == AwayState(p, next, away)
  {
  }

  lemma LocksAlongside(s: System, s': System, n: Uuid)
    requires AlongsideFrom(s, s', n)
    ensures s'.rowLocks == s.rowLocks && s'.applicantLocks == s.applicantLocks
  {
  }

  lemma KeyIsNotEmpty(t: Uuid)
    requires t >= 2
    ensures KeyOf(t) != ""
  {
    assert |KeyOf(t)| == t;
  }

  lemma SceneCounts(s: System, n: Uuid, home: Option<State>, away: Option<State>)
    requires Scene(s, n, home, away)
    ensures n >= 2
  {
  }

  /** The kind asked just before, on a way from no application to where this one can be asked. */
  function Before(kind: Kind): Option<Kind> {
    match kind
    case Saving => None
    case Submitting => Some(Saving)
    case Deciding(StartReview) => Some(Submitting)
    case Deciding(Suspend) => Some(Deciding(Approve))
    case Deciding(Revoke) => Some(Deciding(Approve))
    case Deciding(Reinstate) => Some(Deciding(Suspend))
    case Deciding(_) => Some(Deciding(StartReview))
  }

  function Distance(kind: Kind): nat {
    match kind
    case Saving => 0
    case Submitting => 1
    case Deciding(StartReview) => 2
    case Deciding(Suspend) => 4
    case Deciding(Revoke) => 4
    case Deciding(Reinstate) => 5
    case Deciding(_) => 3
  }

  function Way(kind: Kind): seq<Kind>
    decreases Distance(kind)
  {
    if Before(kind).None? then [] else Way(Before(kind).value) + [Before(kind).value]
  }

  function Start(kind: Kind): Option<State> {
    match kind
    case Saving => None
    case Submitting => Some(Draft)
    case Deciding(StartReview) => Some(Submitted)
    case Deciding(Suspend) => Some(Approved)
    case Deciding(Revoke) => Some(Approved)
    case Deciding(Reinstate) => Some(Suspended)
    case Deciding(_) => Some(UnderReview)
  }

  lemma ArrivedSnoc(state: Option<State>, way: seq<Kind>, kind: Kind)
    requires Passable(state, way) && Askable(kind) && Moved(Arrived(state, way), kind).Some?
    ensures Passable(state, way + [kind]) && Arrived(state, way + [kind]) == Moved(Arrived(state, way), kind)
  {
    var more := way + [kind];
    assert more[..|way|] == way;
    assert forall i | 0 <= i < |way| :: more[..i] == way[..i] && more[i] == way[i];
  }

  lemma StartMoves(kind: Kind)
    requires Askable(kind)
    ensures Moved(Start(kind), kind).Some?
    ensures match Before(kind)
            case None => Start(kind) == None
            case Some(k) => Askable(k) && Moved(Start(k), k) == Start(kind) && Distance(k) < Distance(kind)
  {
  }

  lemma {:induction false} WayLeads(kind: Kind)
    requires Askable(kind)
    ensures Passable(None, Way(kind)) && Arrived(None, Way(kind)) == Start(kind) && Moved(Start(kind), kind).Some?
    decreases Distance(kind)
  {
    StartMoves(kind);
    if Before(kind).Some? {
      var k := Before(kind).value;
      WayUnfolds(kind);
      StartMoves(k);
      hide Passable, Arrived, Way, Before, Start, Moved, Distance, Askable;
      WayLeads(k);
      ArrivedSnoc(None, Way(k), k);
    }
  }

  lemma WayUnfolds(kind: Kind)
    requires Before(kind).Some?
    ensures Way(kind) == Way(Before(kind).value) + [Before(kind).value]
  {
  }

  lemma OpeningScene()
    ensures Scene(IDLE, 2, None, None) && IDLE.rowLocks == map[] && IDLE.applicantLocks == map[] && !KeyIn(IDLE.db, "")
    ensures IDLE.transactions == map[]
  {
    assert Schedule(IDLE, []) == IDLE;
  }
}
