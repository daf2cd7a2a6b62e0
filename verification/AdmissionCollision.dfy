/**
 When transactions that share an idempotency key run into the unique index over keys. The second replay check of a draft
 save comes before its row lock, and requests about two applicants share no lock at all; so some kinds of request can meet
 at the index, and this module determines which.
 */
module AdmissionCollision {
  import opened Common
  import opened CreatorAdmission
  import opened AdmissionHistory
  import opened AdmissionInterleaving
  import opened AdmissionIdempotency
  import opened AdmissionAnswers
  import opened AdmissionScenes

  // ----- Collisions -----

  /** Transaction zero saved or asked at home and met the index on the key with which transaction one took effect. */
  ghost predicate Collided(s: System, n: Uuid, one: Kind, p: Party, other: Kind) {
    && Reachable(s) && NumberedBelow(s.transactions, n)
    && 0 in s.transactions && s.transactions[0] == Transaction(Ask(HOME, one, ""), Finished(DuplicateKey))
    && HasChanged(s, 1) && s.transactions[1].request == Ask(p, other, "")
  }

  predicate WaitsAtHome(s: System, kind: Kind) {
    && 0 in s.transactions && s.transactions[0].request == Ask(HOME, kind, "")
    && if kind == Saving then s.transactions[0].stage.Cleared? else s.transactions[0].stage.Ready?
  }

  /** A waiting transaction zero fits into the scene. */
  lemma WaitingFits(s: System, n: Uuid, r: Request)
    requires n >= 2 && NumberedBelow(s.transactions, n) && 0 !in s.transactions
    requires s.rowLocks == map[] && s.applicantLocks == map[]
    requires r.context.key == "" && WellOwned(r) && (r.SaveDraftRequest? ==> r.context.actor == HOME.applicant)
    requires !r.SaveDraftRequest? ==> RowFor(s.db, r).Some? && RowFor(s.db, r).value.id == HOME.application
    ensures var s' := Waiting(s, 0, r);
            && NumberedBelow(s'.transactions, n) && HeldAtHome(s') && s'.db == s.db
            && (1 in s'.transactions <==> 1 in s.transactions)
            && 0 in s'.transactions && s'.transactions[0].request == r
            && (if r.SaveDraftRequest? then s'.transactions[0].stage.Cleared? && s'.rowLocks == map[]
                else s'.transactions[0].stage.Ready?)
  {
    hide RowFor, WellOwned;
    assert KeyOf(0) == "";
  }

  lemma NobodyHinders(s: System, t: Uuid, r: Request)
    requires s.rowLocks == map[] && s.applicantLocks == map[] && t !in s.transactions
    ensures Unhindered(s, t, r)
  {
    hide RowFor;
  }

  lemma AskAtHome(db: Db, home: Option<State>, kind: Kind)
    requires Stands(db, HOME, home) && (home.Some? || kind == Saving)
    ensures var r := Ask(HOME, kind, "");
            && (r.SaveDraftRequest? <==> kind == Saving)
            && (r.SaveDraftRequest? ==> r.context.actor == HOME.applicant)
            && (!r.SaveDraftRequest? ==> RowFor(db, r).Some? && RowFor(db, r).value.id == HOME.application)
  {
    AskedRow(db, HOME, home, kind, "");
    hide RowFor, Stands;
  }

  lemma HomeWaits(s: System, n: Uuid, home: Option<State>, away: Option<State>, kind: Kind)
    requires Scene(s, n, home, away) && s.rowLocks == map[] && s.applicantLocks == map[]
    requires 0 !in s.transactions && !KeyIn(s.db, "") && (home.Some? || kind == Saving) && Askable(kind)
    ensures var r := Ask(HOME, kind, "");
            && (!r.SaveDraftRequest? ==> RowFor(s.db, r).Some?)
            && var s' := Waiting(s, 0, r);
            && Scene(s', n, home, away) && s'.db == s.db
            && (1 in s'.transactions <==> 1 in s.transactions)
            && WaitsAtHome(s', kind)
            && (kind == Saving ==> s'.rowLocks == map[])
  {
    hide Stands, Moved, KeyIn, RowFor, Reachable, NumberedBelow, HeldAtHome, KeysAhead, Askable, Ask, Unhindered,
         Waiting, WellOwned;
    var r := Ask(HOME, kind, "");
    AskAtHome(s.db, home, kind);
    AskIsOwn(HOME, kind, "");
    WaitingFits(s, n, r);
    NobodyHinders(s, 0, r);
    KeyIsFree(s.db, r);
    ReachesWaiting(s, 0, r);
  }

  lemma KeyIsFree(db: Db, r: Request)
    requires !KeyIn(db, r.context.key)
    ensures KeyFree(db, r)
  {
  }

  lemma HomeCollides(s: System, n: Uuid, home: Option<State>, away: Option<State>, kind: Kind)
    requires Scene(s, n, home, away) && Moved(home, kind).Some? && Askable(kind) && KeyIn(s.db, "")
    requires WaitsAtHome(s, kind)
    requires kind == Saving ==> s.rowLocks == map[]
    ensures exists s' ::
              && Reachable(s')
              && s'.transactions == s.transactions[0 := Transaction(Ask(HOME, kind, ""), Finished(DuplicateKey))]
  {
    var r := Ask(HOME, kind, "");
    AskIsOwn(HOME, kind, "");
    LateAskCollides(s.db, HOME, home, kind, "");
    hide Stands, Moved, KeyIn, RowFor, Reachable, Write, NumberedBelow, KeysAhead, HeldAtHome;
    ReachesCommit(s, 0);
    assert Commit(s, 0, RowFor(s.db, r)).transactions ==
           s.transactions[0 := Transaction(r, Finished(DuplicateKey))];
  }

  /** The kinds that can leave an application editable after a draft save has found its key unused. */
  predicate Reopens(kind: Kind) {
    kind == Submitting || kind == Deciding(StartReview) || kind == Deciding(RequestChanges)
  }

  /** From where such a kind leads, on to a state that can be edited. */
  function WayBack(kind: Kind): seq<Kind> {
    match kind
    case Submitting => [Deciding(StartReview), Deciding(RequestChanges)]
    case Deciding(StartReview) => [Deciding(RequestChanges)]
    case _ => []
  }

  lemma WayBackLeads(kind: Kind)
    requires Reopens(kind)
    ensures Start(kind).Some?
    ensures Passable(Moved(Start(kind), kind), WayBack(kind)) && Saving !in WayBack(kind)
    ensures Arrived(Moved(Start(kind), kind), WayBack(kind)) == Some(ChangesRequested)
  {
    var review, changes := Deciding(StartReview), Deciding(RequestChanges);
    assert Moved(Some(Submitted), review) == Some(UnderReview) && Moved(Some(UnderReview), changes) == Some(ChangesRequested);
    assert Askable(review) && Askable(changes);
    WayOfNone(Some(Submitted));
    WayOfNone(Some(UnderReview));
    WayOfNone(Some(ChangesRequested));
    ArrivedSnoc(Some(Submitted), [], review);
    ArrivedSnoc(Some(Submitted), [] + [review], changes);
    ArrivedSnoc(Some(UnderReview), [], changes);
    assert [] + [review] + [changes] == [review, changes] && [] + [changes] == [changes];
    assert Saving != review && Saving != changes;
    hide Passable, Arrived, Askable;
  }

  lemma WayOfNone(state: Option<State>)
    ensures Passable(state, []) && Arrived(state, []) == state
  {
  }

  /** At the end of a scene, with the key taken, the transaction that waited at home meets the index. */
  lemma SceneCollides(s: System, n: Uuid, home: Option<State>, away: Option<State>, one: Kind, p: Party, other: Kind)
    requires Scene(s, n, home, away) && Moved(home, one).Some? && Askable(one) && KeyIn(s.db, "")
    requires WaitsAtHome(s, one) && (one == Saving ==> s.rowLocks == map[])
    requires HasChanged(s, 1) && s.transactions[1].request == Ask(p, other, "")
    ensures exists s' :: Collided(s', n, one, p, other)
  {
    HomeCollides(s, n, home, away, one);
    var s' :| Reachable(s')
              && s'.transactions == s.transactions[0 := Transaction(Ask(HOME, one, ""), Finished(DuplicateKey))];
    SceneIsNumbered(s, n, home, away);
    AskIsOwn(HOME, one, "");
    CollisionStands(s, s', n, one, p, other);
  }

  lemma SceneIsNumbered(s: System, n: Uuid, home: Option<State>, away: Option<State>)
    requires Scene(s, n, home, away)
    ensures NumberedBelow(s.transactions, n)
  {
  }

  lemma CollisionStands(s: System, s': System, n: Uuid, one: Kind, p: Party, other: Kind)
    requires NumberedBelow(s.transactions, n) && WaitsAtHome(s, one)
    requires HasChanged(s, 1) && s.transactions[1].request == Ask(p, other, "")
    requires Reachable(s') && s'.transactions == s.transactions[0 := Transaction(Ask(HOME, one, ""), Finished(DuplicateKey))]
    ensures Collided(s', n, one, p, other)
  {
    hide Ask, Reachable, WellOwned, KeyOf;
  }

  /** One request takes effect with the shared key while another waits at home. */
  lemma OneAsks(s: System, n: Uuid, home: Option<State>, away: Option<State>, p: Party, kind: Kind) returns (s': System)
    requires Scene(s, n, home, away) && (p == HOME || p == AWAY) && 1 !in s.transactions && !KeyIn(s.db, "")
    requires Moved(StateOf(p, home, away), kind).Some? && Askable(kind)
    requires p == HOME ==> s.rowLocks == map[] && (kind == Saving ==> s.applicantLocks == map[])
    ensures var moved := Moved(StateOf(p, home, away), kind);
            Scene(s', n, HomeState(p, moved, home), AwayState(p, moved, away))
    ensures Alongside(s, s', 1) && KeyIn(s'.db, "") && HasChanged(s', 1) && s'.transactions[1].request == Ask(p, kind, "")
    ensures s'.transactions[1].stage.outcome.application.id == p.application
  {
    assert KeyOf(1) == "";
    Follow(s, n, home, away, p, kind, 1, n);
    s' := AfterSolo(s, 1, Ask(p, kind, ""));
    hide Apply, Scene, Moved, KeyIn, Alongside, Ask;
  }

  lemma HomeWalks(s: System, n: Uuid, home: Option<State>, away: Option<State>, way: seq<Kind>) returns (s': System)
    requires Scene(s, n, home, away) && Passable(home, way)
    requires s.rowLocks == map[] && (s.applicantLocks == map[] || Saving !in way)
    ensures Scene(s', n + |way|, Arrived(home, way), away)
    ensures AlongsideFrom(s, s', n) && (KeyIn(s'.db, "") <==> KeyIn(s.db, ""))
    ensures s'.rowLocks == s.rowLocks && s'.applicantLocks == s.applicantLocks
  {
    hide Scene, Passable, Arrived, KeyIn;
    s' := Walk(s, n, home, away, HOME, way);
  }

  lemma AwayWalks(s: System, n: Uuid, home: Option<State>, away: Option<State>, way: seq<Kind>) returns (s': System)
    requires Scene(s, n, home, away) && Passable(away, way) && s.rowLocks == map[] && s.applicantLocks == map[]
    ensures Scene(s', n + |way|, home, Arrived(away, way))
    ensures AlongsideFrom(s, s', n) && (KeyIn(s'.db, "") <==> KeyIn(s.db, ""))
    ensures s'.rowLocks == s.rowLocks && s'.applicantLocks == s.applicantLocks
  {
    hide Scene, Passable, Arrived, KeyIn;
    s' := Walk(s, n, home, away, AWAY, way);
  }

  lemma HomeAsks(s: System, n: Uuid, home: Option<State>, away: Option<State>, kind: Kind) returns (s': System)
    requires Scene(s, n, home, away) && 1 !in s.transactions && !KeyIn(s.db, "") && s.rowLocks == map[] && kind != Saving
    requires Moved(home, kind).Some? && Askable(kind)
    ensures Scene(s', n, Moved(home, kind), away) && Alongside(s, s', 1) && KeyIn(s'.db, "")
    ensures HasChanged(s', 1) && s'.transactions[1].request == Ask(HOME, kind, "")
    ensures s'.transactions[1].stage.outcome.application.id == HOME.application
    ensures s'.rowLocks == s.rowLocks
  {
    hide Scene, Moved, KeyIn, Ask, Askable, HasChanged;
    s' := OneAsks(s, n, home, away, HOME, kind);
  }

  lemma AwayAsks(s: System, n: Uuid, home: Option<State>, away: Option<State>, kind: Kind) returns (s': System)
    requires Scene(s, n, home, away) && 1 !in s.transactions && !KeyIn(s.db, "")
    requires Moved(away, kind).Some? && Askable(kind)
    ensures Scene(s', n, home, Moved(away, kind)) && Alongside(s, s', 1) && KeyIn(s'.db, "")
    ensures HasChanged(s', 1) && s'.transactions[1].request == Ask(AWAY, kind, "")
    ensures s'.rowLocks == s.rowLocks
  {
    hide Scene, Moved, KeyIn, Ask, Askable, HasChanged;
    s' := OneAsks(s, n, home, away, AWAY, kind);
  }

  /** What waiting at home leaves as it is. */
  lemma HomeIsWaiting(s: System, n: Uuid, home: Option<State>, away: Option<State>, kind: Kind) returns (s': System)
    requires Scene(s, n, home, away) && s.rowLocks == map[] && s.applicantLocks == map[]
    requires 0 !in s.transactions && 1 !in s.transactions && !KeyIn(s.db, "")
    requires (home.Some? || kind == Saving) && Askable(kind)
    ensures Scene(s', n, home, away) && !KeyIn(s'.db, "") && 1 !in s'.transactions && WaitsAtHome(s', kind)
    ensures kind == Saving ==> s'.rowLocks == map[]
  {
    HomeWaits(s, n, home, away, kind);
    hide Scene, Askable, KeyIn, RowFor, WaitsAtHome;
    s' := Waiting(s, 0, Ask(HOME, kind, ""));
  }

  /** Two applicants share no lock, so whatever the two ask can collide on one key. */
  lemma StrangersCollide(one: Kind, other: Kind)
    requires Askable(one) && Askable(other)
    ensures exists s, n :: Collided(s, n, one, AWAY, other)
  {
    hide *;
    OpeningScene();
    WayLeads(one);
    WayLeads(other);
    NothingBefore(one);
    var s1 := HomeWalks(IDLE, 2, None, None, Way(one));
    var n1 := 2 + |Way(one)|;
    var s2 := AwayWalks(s1, n1, Start(one), None, Way(other));
    var n2 := n1 + |Way(other)|;
    NobodyBefore(IDLE, s1, s2, 2, n1);
    var s3 := HomeIsWaiting(s2, n2, Start(one), Start(other), one);
    var s4 := AwayAsks(s3, n2, Start(one), Start(other), other);
    StillWaits(s3, s4, one);
    SceneCollides(s4, n2, Start(one), Moved(Start(other), other), one, AWAY, other);
    var s5 :| Collided(s5, n2, one, AWAY, other);
  }

  lemma NothingBefore(kind: Kind)
    ensures Start(kind).Some? || kind == Saving
  {
  }

  lemma NobodyBefore(s: System, s1: System, s2: System, n: Uuid, n1: Uuid)
    requires s.transactions == map[] && 2 <= n <= n1 && AlongsideFrom(s, s1, n) && AlongsideFrom(s1, s2, n1)
    ensures 0 !in s1.transactions && 1 !in s1.transactions && 0 !in s2.transactions && 1 !in s2.transactions
  {
  }

  lemma StillWaits(s: System, s': System, kind: Kind)
    requires WaitsAtHome(s, kind) && Alongside(s, s', 1)
    ensures WaitsAtHome(s', kind) && s'.rowLocks == s.rowLocks
  {
  }

  /** A draft save has found its key unused and waits; then a request with its key has come between. */
  lemma BetweenCheckAndCommit(kind: Kind) returns (s: System, n: Uuid)
    requires Reopens(kind)
    ensures Scene(s, n, Moved(Start(kind), kind), None) && s.rowLocks == map[] && KeyIn(s.db, "")
    ensures WaitsAtHome(s, Saving) && HasChanged(s, 1) && s.transactions[1].request == Ask(HOME, kind, "")
  {
    hide *;
    ReopeningIsAskable(kind);
    WayLeads(kind);
    WayBackLeads(kind);
    OpeningScene();
    n := 2 + |Way(kind)|;
    var s1 := HomeWalks(IDLE, 2, None, None, Way(kind));
    AlongsideItself(s1, 2);
    NobodyBefore(IDLE, s1, s1, 2, 2);
    var s2 := HomeIsWaiting(s1, n, Start(kind), None, Saving);
    s := HomeAsks(s2, n, Start(kind), None, kind);
    StillWaits(s2, s, Saving);
  }

  /**
   A draft save that found its key unused meets the index if a request with its key comes between and reopens the
   application.
   */
  lemma ReopeningCollides(kind: Kind)
    requires Reopens(kind)
    ensures exists s, n :: Collided(s, n, Saving, HOME, kind)
  {
    hide *;
    ReopeningIsAskable(kind);
    WayBackLeads(kind);
    var s, n := BetweenCheckAndCommit(kind);
    SceneCounts(s, n, Moved(Start(kind), kind), None);
    var s' := HomeWalks(s, n, Moved(Start(kind), kind), None, WayBack(kind));
    SinceThen(s, s', n, Ask(HOME, kind, ""));
    SceneCollides(s', n + |WayBack(kind)|, Some(ChangesRequested), None, Saving, HOME, kind);
    var s'' :| Collided(s'', n + |WayBack(kind)|, Saving, HOME, kind);
  }

  lemma AlongsideItself(s: System, n: Uuid)
    ensures AlongsideFrom(s, s, n)
  {
  }

  lemma ReopeningIsAskable(kind: Kind)
    requires Reopens(kind)
    ensures Askable(kind) && Askable(Saving) && kind != Saving && Moved(Some(ChangesRequested), Saving).Some?
  {
  }

  lemma SinceThen(s: System, s': System, n: Uuid, r: Request)
    requires AlongsideFrom(s, s', n) && n >= 2 && WaitsAtHome(s, Saving)
    requires HasChanged(s, 1) && s.transactions[1].request == r
    ensures WaitsAtHome(s', Saving) && HasChanged(s', 1) && s'.transactions[1].request == r && s'.rowLocks == s.rowLocks
  {
  }

  // ----- Exactly when sharing is safe -----

  function RequestsOf(s: System): map<Uuid, Request> {
    map t | t in s.transactions :: s.transactions[t].request
  }

  /** Which kinds may share a key, about one applicant or about two. */
  type Sharing = (Kind, Kind, bool) -> bool

  /** Two requests share a key only if their kinds may. Draft saves come with their own applicant's application id. */
  ghost predicate SharesAs(owner: Uuid -> Uuid, requests: map<Uuid, Request>, allowed: Sharing) {
    && (forall t, x | t in requests && x in requests && t != x && requests[t].context.key == requests[x].context.key ::
          allowed(KindOf(requests[t]), KindOf(requests[x]), Subject(owner, requests[t]) == Subject(owner, requests[x])))
    && (forall t | t in requests && requests[t].SaveDraftRequest? ::
          owner(requests[t].applicationId) == requests[t].context.actor)
  }

  /** No schedule of such requests reaches the unique index over keys. */
  ghost predicate NeverCollides(allowed: Sharing) {
    forall owner: Uuid -> Uuid, moves, t ::
      SharesAs(owner, RequestsOf(Schedule(IDLE, moves)), allowed) && t in Schedule(IDLE, moves).transactions ==>
        Schedule(IDLE, moves).transactions[t].stage != Finished(DuplicateKey)
  }

  /** A draft save must not meet a kind that reopens the application. */
  predicate Compatible(one: Kind, other: Kind) {
    && (one == Saving ==> !Reopens(other))
    && (other == Saving ==> !Reopens(one))
  }

  ghost predicate OnlyCompatible(allowed: Sharing) {
    forall one, other, same | Askable(one) && Askable(other) && allowed(one, other, same) && allowed(other, one, same) ::
      same && Compatible(one, other)
  }

  lemma ReopensIff(kind: Kind)
    requires Askable(kind)
    ensures Reopens(kind) <==> kind != Saving && !(kind.Deciding? && LeadsToClosed(kind.action))
  {
    if kind.Deciding? {
      LeadsToClosedIff(kind.action);
    }
  }

  lemma CompatibleIsDisciplined(owner: Uuid -> Uuid, s: System, allowed: Sharing)
    requires LocksOk(s) && SharesAs(owner, RequestsOf(s), allowed) && OnlyCompatible(allowed)
    ensures Disciplined(owner, s)
  {
    var requests := RequestsOf(s);
    hide LeadsToClosed, Reopens;
    forall t, x | t in s.transactions && x in s.transactions &&
                  s.transactions[t].request.context.key == s.transactions[x].request.context.key
      ensures MayShare(owner, s.transactions[t].request, s.transactions[x].request)
    {
      assert TransactionOk(s, t) && TransactionOk(s, x);
      assert requests[t] == s.transactions[t].request && requests[x] == s.transactions[x].request;
      if t != x {
        ReopensIff(KindOf(requests[x]));
      }
    }
    forall t | t in s.transactions && s.transactions[t].request.SaveDraftRequest?
      ensures owner(s.transactions[t].request.applicationId) == s.transactions[t].request.context.actor
    {
      assert requests[t] == s.transactions[t].request;
    }
  }

  /** In a collision only the two share a key. */
  lemma OnlyTwoShare(transactions: map<Uuid, Transaction>, n: Uuid, t: Uuid, x: Uuid)
    requires NumberedBelow(transactions, n) && t in transactions && x in transactions && t != x
    requires transactions[t].request.context.key == transactions[x].request.context.key
    ensures t <= 1 && x <= 1
  {
    hide KeyOf, WellOwned;
    if t > 1 || x > 1 {
      KeysDiffer(if t < x then t else x, if t < x then x else t);
    }
  }

  lemma PairSharesAs(transactions: map<Uuid, Transaction>, n: Uuid, one: Request, other: Request, allowed: Sharing)
    requires NumberedBelow(transactions, n) && 0 in transactions && 1 in transactions
    requires transactions[0].request == one && transactions[1].request == other
    requires allowed(KindOf(one), KindOf(other), Subject(OWNER, one) == Subject(OWNER, other))
    requires allowed(KindOf(other), KindOf(one), Subject(OWNER, one) == Subject(OWNER, other))
    ensures SharesAs(OWNER, map t | t in transactions :: transactions[t].request, allowed)
  {
    hide KeyOf, KindOf, Subject;
    forall t, x | t in transactions && x in transactions && t != x &&
                  transactions[t].request.context.key == transactions[x].request.context.key
      ensures (t == 0 && x == 1) || (t == 1 && x == 0)
    {
      OnlyTwoShare(transactions, n, t, x);
    }
  }

  lemma CollisionShares(s: System, n: Uuid, one: Kind, p: Party, other: Kind, allowed: Sharing)
    requires Collided(s, n, one, p, other) && (p == HOME || p == AWAY)
    requires allowed(one, other, p == HOME) && allowed(other, one, p == HOME)
    ensures !NeverCollides(allowed)
  {
    AskIsOwn(HOME, one, "");
    AskIsOwn(p, other, "");
    hide Ask, Reachable, KindOf, Subject, NumberedBelow, SharesAs, NeverCollides;
    PairSharesAs(s.transactions, n, Ask(HOME, one, ""), Ask(p, other, ""), allowed);
    CollisionIsScheduled(s, OWNER, allowed);
  }

  lemma CollisionIsScheduled(s: System, owner: Uuid -> Uuid, allowed: Sharing)
    requires Reachable(s) && SharesAs(owner, RequestsOf(s), allowed)
    requires 0 in s.transactions && s.transactions[0].stage == Finished(DuplicateKey)
    ensures !NeverCollides(allowed)
  {
    hide SharesAs, RequestsOf;
    var moves :| s == Schedule(IDLE, moves);
  }

  /**
   Exactly when requests can share keys without any schedule reaching the unique index: if only requests about one applicant
   share a key, and no draft save shares one with a submission, a start of a review or a request for changes.
   */
  lemma SharingIsSafeIff(allowed: Sharing)
    ensures NeverCollides(allowed) <==> OnlyCompatible(allowed)
  {
    if OnlyCompatible(allowed) {
      hide SharesAs, Schedule, RequestsOf, Disciplined, OnlyCompatible;
      forall owner: Uuid -> Uuid, moves, t |
        SharesAs(owner, RequestsOf(Schedule(IDLE, moves)), allowed) && t in Schedule(IDLE, moves).transactions
        ensures Schedule(IDLE, moves).transactions[t].stage != Finished(DuplicateKey)
      {
        EveryScheduleIsSerial(moves);
        CompatibleIsDisciplined(owner, Schedule(IDLE, moves), allowed);
        DisciplinedKeysNeverCollide(owner, moves, t);
      }
    } else {
      hide NeverCollides, Collided;
      var one, other, same :| Askable(one) && Askable(other) && allowed(one, other, same) && allowed(other, one, same) &&
                              !(same && Compatible(one, other));
      if !same {
        StrangersCollide(one, other);
        var s, n :| Collided(s, n, one, AWAY, other);
        CollisionShares(s, n, one, AWAY, other, allowed);
      } else {
        var kind := if one == Saving then other else one;
        ReopeningCollides(kind);
        var s, n :| Collided(s, n, Saving, HOME, kind);
        CollisionShares(s, n, Saving, HOME, kind, allowed);
      }
    }
  }

  // ----- Losers that end before the winner -----

  function Intruder(key: string): Request {
    ReviewRequest(Context(4, key, "review"), HOME.application, StartReview, ROLES, {}, IDENTITY)
  }

  lemma IntruderIsForbidden(db: Db, home: Option<State>)
    requires Stands(db, HOME, home) && home.Some? && !KeyIn(db, "")
    ensures RowFor(db, Intruder("")).Some? && RowFor(db, Intruder("")).value.id == HOME.application
    ensures Write(db, Intruder(""), RowFor(db, Intruder(""))) == (db, Forbidden)
  {
    hide FindKey, Latest, SnapshotsOf;
  }

  /**
   A request that ends before the winner's commit answers for itself: a review by somebody without the role is answered
   `Forbidden`, and then a good review with the same key about the same application takes effect.
   */
  lemma EarlyLosersAnswerForThemselves()
    ensures exists s :: && Reachable(s) && HasChanged(s, 1)
                        && 0 in s.transactions && s.transactions[0] == Transaction(Intruder(""), Finished(Forbidden))
                        && s.transactions[1].request == Ask(HOME, Deciding(StartReview), "")
                        && About(Intruder(""), s.transactions[1].stage.outcome.application)
  {
    var s, n := AfterTheIntruder();
    ReopeningIsAskable(Deciding(StartReview));
    hide Scene, Moved, KeyIn, Askable, Reachable, HasChanged, Alongside, Ask;
    assert Moved(Some(Submitted), Deciding(StartReview)).Some? by {
      StartMoves(Deciding(StartReview));
    }
    var s' := HomeAsks(s, n, Some(Submitted), None, Deciding(StartReview));
    ReachedBeside(s, s', n, Moved(Some(Submitted), Deciding(StartReview)), None);
  }

  lemma AfterTheIntruder() returns (s: System, n: Uuid)
    ensures Scene(s, n, Some(Submitted), None) && s.rowLocks == map[] && 1 !in s.transactions && !KeyIn(s.db, "")
    ensures 0 in s.transactions && s.transactions[0] == Transaction(Intruder(""), Finished(Forbidden))
  {
    var kind := Deciding(StartReview);
    assert Askable(kind) && Start(kind) == Some(Submitted);
    hide *;
    OpeningScene();
    WayLeads(kind);
    n := 2 + |Way(kind)|;
    var s1 := HomeWalks(IDLE, 2, None, None, Way(kind));
    AlongsideItself(s1, 2);
    NobodyBefore(IDLE, s1, s1, 2, 2);
    IntruderGoes(s1, n, Some(Submitted), None);
    s := AfterIntruder(s1);
    IntruderAnswered(s1);
  }

  function AfterIntruder(s: System): System {
    s.(transactions := s.transactions[0 := Transaction(Intruder(""), Finished(Forbidden))])
  }

  lemma IntruderAnswered(s: System)
    ensures var s' := AfterIntruder(s);
            && s'.db == s.db && s'.rowLocks == s.rowLocks && (1 in s'.transactions <==> 1 in s.transactions)
            && 0 in s'.transactions && s'.transactions[0] == Transaction(Intruder(""), Finished(Forbidden))
  {
  }

  lemma ReachedBeside(s: System, s': System, n: Uuid, home: Option<State>, away: Option<State>)
    requires Scene(s', n, home, away) && Alongside(s, s', 1) && 0 in s.transactions
    ensures Reachable(s') && 0 in s'.transactions && s'.transactions[0] == s.transactions[0]
  {
  }

  lemma IntruderCommits(s: System)
    requires s.rowLocks == map[] && s.applicantLocks == map[] && 0 !in s.transactions
    requires RowFor(s.db, Intruder("")).Some?
    requires Write(s.db, Intruder(""), RowFor(s.db, Intruder(""))) == (s.db, Forbidden)
    ensures Commit(Waiting(s, 0, Intruder("")), 0, RowFor(s.db, Intruder(""))) == AfterIntruder(s)
  {
    hide RowFor, Write;
    LockIsReturned(map[], RowFor(s.db, Intruder("")).value.id, 0);
    NoLockToReturn(map[], 0);
  }

  lemma IntruderGoes(s: System, n: Uuid, home: Option<State>, away: Option<State>)
    requires Scene(s, n, home, away) && s.rowLocks == map[] && s.applicantLocks == map[] && home.Some?
    requires 0 !in s.transactions && !KeyIn(s.db, "")
    ensures Scene(AfterIntruder(s), n, home, away)
  {
    var r := Intruder("");
    IntruderIsForbidden(s.db, home);
    assert KeyOf(0) == "" && WellFormed(r) && !r.SaveDraftRequest? && r.context.key == "";
    hide Stands, KeyIn, RowFor, Reachable, Write, Waiting, Unhindered, Commit, KeyOf;
    NobodyHinders(s, 0, r);
    KeyIsFree(s.db, r);
    ReachesWaiting(s, 0, r);
    WaitingIsPastCheck(s, 0, r);
    ReachesCommit(Waiting(s, 0, r), 0);
    IntruderCommits(s);
  }
}
