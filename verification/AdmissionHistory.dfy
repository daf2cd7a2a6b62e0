/** What the admission tables agree on in every reachable state. */
module AdmissionHistory {
  import opened Common
  import opened CreatorAdmission

  // ----- An application and its log -----

  /** The state that a log of events leads to from `Draft`, if each event continues the one before it and obeys the table. */
  function Trace(events: seq<Event>): Option<State> {
    if events == [] then Some(Draft)
    else
      var front, last := events[..|events| - 1], events[|events| - 1];
      if Trace(front) == Some(last.previousState) && Resolve(last.previousState, last.action) == Some(last.nextState)
      then Some(last.nextState) else None
  }

  function Saves(events: seq<Event>): nat {
    if events == [] then 0
    else Saves(events[..|events| - 1]) + if events[|events| - 1].action == SaveDraft then 1 else 0
  }

  function Submissions(events: seq<Event>): nat {
    if events == [] then 0
    else Submissions(events[..|events| - 1]) +
         if events[|events| - 1].action == Submit || events[|events| - 1].action == Resubmit then 1 else 0
  }

  ghost predicate Numbered(snapshots: seq<Snapshot>) {
    forall i | 0 <= i < |snapshots| :: snapshots[i].sequence == i + 1
  }

  ghost predicate Consistent(application: Application, events: seq<Event>, snapshots: seq<Snapshot>) {
    && Trace(events) == Some(application.state)
    && application.revision == Saves(events) >= 1
    && |snapshots| == Submissions(events)
    && Numbered(snapshots)
    && (application.state != Draft ==> snapshots != [])
    && (!Editable(application.state) ==> snapshots[|snapshots| - 1].payload == application.draft)
  }

  ghost predicate Indexed(db: Db) {
    && (forall u | u in db.byApplicant ::
          db.byApplicant[u] in db.applications && db.applications[db.byApplicant[u]].applicant == u)
    && (forall a | a in db.applications ::
          && db.applications[a].id == a
          && db.applications[a].applicant in db.byApplicant
          && db.byApplicant[db.applications[a].applicant] == a)
    && (forall i | 0 <= i < |db.events| :: db.events[i].application in db.applications)
    && (forall i | 0 <= i < |db.snapshots| :: db.snapshots[i].application in db.applications)
  }

  ghost predicate KeysUnique(events: seq<Event>) {
    forall i, j | 0 <= i < j < |events| :: events[i].key != events[j].key
  }

  ghost predicate DossierOk(db: Db, a: Uuid)
    requires a in db.applications
  {
    Consistent(db.applications[a], EventsOf(db.events, a), SnapshotsOf(db.snapshots, a))
  }

  ghost predicate History(db: Db) {
    && Indexed(db)
    && KeysUnique(db.events)
    && forall a | a in db.applications :: DossierOk(db, a)
  }

  // ----- Lemmas about the queries -----

  lemma {:induction false} FindKeyFinds(events: seq<Event>, key: string)
    ensures FindKey(events, key).Some? <==> exists i | 0 <= i < |events| :: events[i].key == key
    ensures FindKey(events, key).Some? ==> FindKey(events, key).value in events && FindKey(events, key).value.key == key
  {
    if events != [] {
      var n := |events| - 1;
      assert events == events[..n] + [events[n]];
      FindKeyFinds(events[..n], key);
      if i :| 0 <= i < |events| && events[i].key == key {
        assert i == n || events[..n][i].key == key;
      }
    }
  }

  lemma EventsOfSnoc(events: seq<Event>, e: Event, a: Uuid)
    ensures EventsOf(events + [e], a) == if e.application == a then EventsOf(events, a) + [e] else EventsOf(events, a)
  {
    assert (events + [e])[..|events|] == events;
  }

  lemma SnapshotsOfSnoc(snapshots: seq<Snapshot>, s: Snapshot, a: Uuid)
    ensures SnapshotsOf(snapshots + [s], a) ==
            if s.application == a then SnapshotsOf(snapshots, a) + [s] else SnapshotsOf(snapshots, a)
  {
    assert (snapshots + [s])[..|snapshots|] == snapshots;
  }

  lemma {:induction false} NothingOfUnknown(events: seq<Event>, snapshots: seq<Snapshot>, a: Uuid)
    requires forall i | 0 <= i < |events| :: events[i].application != a
    requires forall i | 0 <= i < |snapshots| :: snapshots[i].application != a
    ensures EventsOf(events, a) == [] && SnapshotsOf(snapshots, a) == []
    decreases |events| + |snapshots|
  {
    if events != [] {
      NothingOfUnknown(events[..|events| - 1], snapshots, a);
    } else if snapshots != [] {
      NothingOfUnknown(events, snapshots[..|snapshots| - 1], a);
    }
  }

  lemma {:induction false} LatestIsLast(snapshots: seq<Snapshot>)
    requires Numbered(snapshots)
    ensures snapshots != [] ==> Latest(snapshots) == Some(snapshots[|snapshots| - 1])
  {
    if snapshots != [] {
      LatestIsLast(snapshots[..|snapshots| - 1]);
    }
  }

  lemma TraceSnoc(events: seq<Event>, e: Event)
    requires Trace(events) == Some(e.previousState) && Resolve(e.previousState, e.action) == Some(e.nextState)
    ensures Trace(events + [e]) == Some(e.nextState)
    ensures Saves(events + [e]) == Saves(events) + if e.action == SaveDraft then 1 else 0
    ensures Submissions(events + [e]) == Submissions(events) + if e.action == Submit || e.action == Resubmit then 1 else 0
  {
    assert (events + [e])[..|events|] == events;
  }

  // ----- Every write keeps the history -----

  /** One event for one application, and at most one snapshot of it, leave every other dossier as it was. */
  lemma OthersKeepDossiers(db: Db, db': Db, a: Uuid, e: Event)
    requires History(db) && e.application == a
    requires db'.events == db.events + [e]
    requires db'.snapshots == db.snapshots ||
             (exists s: Snapshot :: s.application == a && db'.snapshots == db.snapshots + [s])
    requires forall x | x in db'.applications && x != a :: x in db.applications && db'.applications[x] == db.applications[x]
    ensures forall x | x in db'.applications && x != a :: DossierOk(db', x)
  {
    forall x | x in db'.applications && x != a
      ensures DossierOk(db', x)
    {
      assert DossierOk(db, x);
      EventsOfSnoc(db.events, e, x);
      if db'.snapshots != db.snapshots {
        var s: Snapshot :| s.application == a && db'.snapshots == db.snapshots + [s];
        SnapshotsOfSnoc(db.snapshots, s, x);
      }
    }
  }

  lemma KeysStayUnique(events: seq<Event>, e: Event)
    requires KeysUnique(events) && FindKey(events, e.key).None?
    ensures KeysUnique(events + [e])
  {
    FindKeyFinds(events, e.key);
  }

  /** One application is new or changed, with one event, and at most one snapshot, to tell of it. */
  ghost predicate Grown(db: Db, db': Db, changed: Application, e: Event) {
    && db'.applications == db.applications[changed.id := changed]
    && db'.events == db.events + [e] && e.application == changed.id && FindKey(db.events, e.key).None?
    && (db'.snapshots == db.snapshots ||
        exists s: Snapshot :: s.application == changed.id && db'.snapshots == db.snapshots + [s])
    && if changed.id in db.applications
       then changed.applicant == db.applications[changed.id].applicant && db'.byApplicant == db.byApplicant
       else changed.applicant !in db.byApplicant && db'.byApplicant == db.byApplicant[changed.applicant := changed.id]
  }

  lemma GrownKeepsIndex(db: Db, db': Db, changed: Application, e: Event)
    requires Indexed(db) && Grown(db, db', changed, e)
    ensures Indexed(db')
  {
    hide FindKey;
  }

  lemma GrownKeepsKeys(db: Db, db': Db, changed: Application, e: Event)
    requires KeysUnique(db.events) && Grown(db, db', changed, e)
    ensures KeysUnique(db'.events)
  {
    KeysStayUnique(db.events, e);
  }

  lemma GrownKeepsDossiers(db: Db, db': Db, changed: Application, e: Event)
    requires History(db) && Grown(db, db', changed, e)
    requires Consistent(changed, EventsOf(db'.events, changed.id), SnapshotsOf(db'.snapshots, changed.id))
    ensures forall x | x in db'.applications :: DossierOk(db', x)
  {
    hide EventsOf, SnapshotsOf, FindKey, Consistent, History, Indexed, KeysUnique;
    OthersKeepDossiers(db, db', changed.id, e);
  }

  lemma GrownKeepsHistory(db: Db, db': Db, changed: Application, e: Event)
    requires History(db) && Grown(db, db', changed, e)
    requires Consistent(changed, EventsOf(db'.events, changed.id), SnapshotsOf(db'.snapshots, changed.id))
    ensures History(db')
  {
    hide Grown, EventsOf, SnapshotsOf, Consistent, Indexed, KeysUnique, DossierOk;
    GrownKeepsIndex(db, db', changed, e);
    GrownKeepsKeys(db, db', changed, e);
    GrownKeepsDossiers(db, db', changed, e);
  }

  lemma SaveDraftGrows(db: Db, r: Request, row: Option<Application>)
    requires Indexed(db) && r.SaveDraftRequest? && row == ApplicationOf(db, r.context.actor)
    ensures var (db', outcome) := SaveDraftWrite(db, r, row);
            if outcome.Changed? then
              var (changed, e) := (outcome.application, db'.events[|db.events|]);
              && |db'.events| > |db.events| && Grown(db, db', changed, e) && db'.snapshots == db.snapshots
              && changed.draft == r.draft && e.action == SaveDraft && e.previousState == e.nextState == changed.state
              && match row
                 case None => changed.id !in db.applications && changed.state == Draft && changed.revision == 1
                 case Some(application) =>
                   && changed.id == application.id && db.applications[changed.id] == application
                   && changed.state == application.state && Editable(changed.state)
                   && changed.revision == application.revision + 1
            else db' == db
  {
    hide FindKey;
  }

  lemma ConsistentAfterSave(changed: Application, application: Option<Application>, events: seq<Event>, snapshots: seq<Snapshot>,
                            e: Event)
    requires match application
             case None => events == [] && snapshots == [] && changed.state == Draft && changed.revision == 1
             case Some(a) => Consistent(a, events, snapshots) && changed.state == a.state && changed.revision == a.revision + 1
    requires e.action == SaveDraft && e.previousState == e.nextState == changed.state && Editable(changed.state)
    ensures Consistent(changed, events + [e], snapshots)
  {
    EmptyLog();
    hide Trace, Saves, Submissions;
    TraceSnoc(events, e);
  }

  lemma ConsistentAfterSubmission(changed: Application, application: Application, events: seq<Event>, snapshots: seq<Snapshot>,
                                  e: Event, s: Snapshot)
    requires Consistent(application, events, snapshots) && changed == application.(state := e.nextState)
    requires e.previousState == application.state && (e.action == Submit || e.action == Resubmit)
    requires Resolve(e.previousState, e.action) == Some(e.nextState) && s.payload == application.draft
    requires var latest := Latest(snapshots); s.sequence == (if latest.Some? then latest.value.sequence else 0) + 1
    ensures Consistent(changed, events + [e], snapshots + [s])
  {
    LatestIsLast(snapshots);
    LatestOfNone();
    hide Trace, Saves, Submissions, Latest;
    TraceSnoc(events, e);
    assert forall i | 0 <= i < |snapshots| :: (snapshots + [s])[i] == snapshots[i];
  }

  lemma ConsistentAfterReview(changed: Application, application: Application, events: seq<Event>, snapshots: seq<Snapshot>,
                              e: Event)
    requires Consistent(application, events, snapshots) && changed == application.(state := e.nextState)
    requires e.previousState == application.state && IsReviewAction(e.action)
    requires Resolve(e.previousState, e.action) == Some(e.nextState)
    ensures Consistent(changed, events + [e], snapshots)
  {
    hide Trace, Saves, Submissions, Numbered;
    TraceSnoc(events, e);
  }

  lemma HeldDossier(db: Db, a: Uuid)
    requires History(db) && a in db.applications
    ensures Consistent(db.applications[a], EventsOf(db.events, a), SnapshotsOf(db.snapshots, a))
  {
    assert DossierOk(db, a);
    hide Indexed, KeysUnique, Consistent;
  }

  lemma NoDossier(db: Db, a: Uuid)
    requires History(db) && a !in db.applications
    ensures EventsOf(db.events, a) == [] && SnapshotsOf(db.snapshots, a) == []
  {
    hide DossierOk, KeysUnique;
    NothingOfUnknown(db.events, db.snapshots, a);
  }

  lemma SavedIsConsistent(db: Db, db': Db, changed: Application, e: Event)
    requires History(db) && Grown(db, db', changed, e) && db'.snapshots == db.snapshots
    requires e.action == SaveDraft && e.previousState == e.nextState == changed.state && Editable(changed.state)
    requires if changed.id in db.applications
             then changed.state == db.applications[changed.id].state && changed.revision == db.applications[changed.id].revision + 1
             else changed.state == Draft && changed.revision == 1
    ensures Consistent(changed, EventsOf(db'.events, changed.id), SnapshotsOf(db'.snapshots, changed.id))
  {
    hide *;
    GrownEvents(db, db', changed, e);
    if changed.id in db.applications {
      HeldDossier(db, changed.id);
      ConsistentAfterSave(changed, Some(db.applications[changed.id]), EventsOf(db.events, changed.id),
                          SnapshotsOf(db.snapshots, changed.id), e);
    } else {
      NoDossier(db, changed.id);
      ConsistentAfterSave(changed, None, EventsOf(db.events, changed.id), SnapshotsOf(db.snapshots, changed.id), e);
    }
  }

  lemma SaveDraftKeepsHistory(db: Db, r: Request, row: Option<Application>)
    requires History(db) && r.SaveDraftRequest? && row == ApplicationOf(db, r.context.actor)
    ensures History(SaveDraftWrite(db, r, row).0)
  {
    SaveDraftGrows(db, r, row);
    var (db', outcome) := SaveDraftWrite(db, r, row);
    hide SaveDraftWrite, Grown, History, Consistent, EventsOf, SnapshotsOf, ApplicationOf;
    if outcome.Changed? {
      var changed, e := outcome.application, db'.events[|db.events|];
      SavedIsConsistent(db, db', changed, e);
      GrownKeepsHistory(db, db', changed, e);
    }
  }

  lemma GrownEvents(db: Db, db': Db, changed: Application, e: Event)
    requires Grown(db, db', changed, e)
    ensures EventsOf(db'.events, changed.id) == EventsOf(db.events, changed.id) + [e]
  {
    EventsOfSnoc(db.events, e, changed.id);
  }

  lemma EmptyLog()
    ensures Trace([]) == Some(Draft) && Saves([]) == 0 == Submissions([])
  {
  }

  lemma SubmitGrows(db: Db, r: Request, application: Application)
    requires r.SubmitRequest? && application.id in db.applications && db.applications[application.id] == application
    ensures var (db', outcome) := SubmitWrite(db, r, application);
            if outcome.Changed? then
              && |db'.events| > |db.events| && |db'.snapshots| > |db.snapshots|
              && var (changed, e, s) := (outcome.application, db'.events[|db.events|], db'.snapshots[|db.snapshots|]);
              && Grown(db, db', changed, e) && db'.snapshots == db.snapshots + [s] && s.application == application.id
              && changed == application.(state := e.nextState) && e.previousState == application.state
              && (e.action == Submit || e.action == Resubmit)
              && Resolve(e.previousState, e.action) == Some(e.nextState)
              && s.payload == application.draft
              && var latest := Latest(SnapshotsOf(db.snapshots, application.id));
              && s.sequence == (if latest.Some? then latest.value.sequence else 0) + 1
            else db' == db
  {
    hide FindKey, SnapshotsOf, Latest;
  }

  lemma SubmittedIsConsistent(db: Db, db': Db, changed: Application, e: Event, s: Snapshot)
    requires History(db) && Grown(db, db', changed, e) && changed.id in db.applications
    requires db'.snapshots == db.snapshots + [s] && s.application == changed.id && s.payload == changed.draft
    requires changed == db.applications[changed.id].(state := e.nextState)
    requires e.previousState == db.applications[changed.id].state && (e.action == Submit || e.action == Resubmit)
    requires Resolve(e.previousState, e.action) == Some(e.nextState)
    requires var latest := Latest(SnapshotsOf(db.snapshots, changed.id));
             s.sequence == (if latest.Some? then latest.value.sequence else 0) + 1
    ensures Consistent(changed, EventsOf(db'.events, changed.id), SnapshotsOf(db'.snapshots, changed.id))
  {
    hide *;
    HeldDossier(db, changed.id);
    GrownEvents(db, db', changed, e);
    SnapshotsOfSnoc(db.snapshots, s, changed.id);
    ConsistentAfterSubmission(changed, db.applications[changed.id], EventsOf(db.events, changed.id),
                              SnapshotsOf(db.snapshots, changed.id), e, s);
  }

  lemma SubmitKeepsHistory(db: Db, r: Request, application: Application)
    requires History(db) && r.SubmitRequest?
    requires application.id in db.applications && db.applications[application.id] == application
    ensures History(SubmitWrite(db, r, application).0)
  {
    SubmitGrows(db, r, application);
    var (db', outcome) := SubmitWrite(db, r, application);
    hide SubmitWrite, Grown, History, Consistent, EventsOf, SnapshotsOf, Resolve, Latest;
    if outcome.Changed? {
      var e := db'.events[|db.events|];
      SubmittedIsConsistent(db, db', outcome.application, e, db'.snapshots[|db.snapshots|]);
      GrownKeepsHistory(db, db', outcome.application, e);
    }
  }

  lemma LatestOfNone()
    ensures Latest([]) == None
  {
  }

  lemma ReviewGrows(db: Db, r: Request, application: Application)
    requires r.ReviewRequest? && WellFormed(r)
    requires application.id in db.applications && db.applications[application.id] == application
    ensures var (db', outcome) := ReviewWrite(db, r, application);
            if outcome.Changed? then
              && |db'.events| > |db.events|
              && var (changed, e) := (outcome.application, db'.events[|db.events|]);
              && Grown(db, db', changed, e) && db'.snapshots == db.snapshots
              && changed == application.(state := e.nextState) && e.previousState == application.state
              && IsReviewAction(e.action) && Resolve(e.previousState, e.action) == Some(e.nextState)
            else db' == db
  {
    hide FindKey, SnapshotsOf, Latest;
  }

  lemma ReviewedIsConsistent(db: Db, db': Db, changed: Application, e: Event)
    requires History(db) && Grown(db, db', changed, e) && changed.id in db.applications && db'.snapshots == db.snapshots
    requires changed == db.applications[changed.id].(state := e.nextState)
    requires e.previousState == db.applications[changed.id].state && IsReviewAction(e.action)
    requires Resolve(e.previousState, e.action) == Some(e.nextState)
    ensures Consistent(changed, EventsOf(db'.events, changed.id), SnapshotsOf(db'.snapshots, changed.id))
  {
    hide *;
    HeldDossier(db, changed.id);
    GrownEvents(db, db', changed, e);
    ConsistentAfterReview(changed, db.applications[changed.id], EventsOf(db.events, changed.id),
                          SnapshotsOf(db.snapshots, changed.id), e);
  }

  lemma ReviewKeepsHistory(db: Db, r: Request, application: Application)
    requires History(db) && r.ReviewRequest? && WellFormed(r)
    requires application.id in db.applications && db.applications[application.id] == application
    ensures History(ReviewWrite(db, r, application).0)
  {
    ReviewGrows(db, r, application);
    var (db', outcome) := ReviewWrite(db, r, application);
    hide ReviewWrite, Grown, History, Consistent, EventsOf, SnapshotsOf, Resolve;
    if outcome.Changed? {
      var e := db'.events[|db.events|];
      ReviewedIsConsistent(db, db', outcome.application, e);
      GrownKeepsHistory(db, db', outcome.application, e);
    }
  }

  lemma WriteKeepsHistory(db: Db, r: Request)
    requires History(db) && WellFormed(r)
    ensures History(Write(db, r, RowFor(db, r)).0)
  {
    hide History, SaveDraftWrite, SubmitWrite, ReviewWrite;
    var row := RowFor(db, r);
    match r {
      case SaveDraftRequest(_, _, _) => SaveDraftKeepsHistory(db, r, row);
      case SubmitRequest(_, _, _) =>
        if row.Some? {
          RowIsCurrent(db, r);
          SubmitKeepsHistory(db, r, row.value);
        }
      case ReviewRequest(_, _, _, _, _, _) =>
        if row.Some? {
          RowIsCurrent(db, r);
          ReviewKeepsHistory(db, r, row.value);
        }
    }
  }

  lemma RowIsCurrent(db: Db, r: Request)
    requires History(db) && RowFor(db, r).Some?
    ensures var row := RowFor(db, r).value; row.id in db.applications && db.applications[row.id] == row
  {
  }

  lemma ApplyKeepsHistory(db: Db, r: Request)
    requires History(db)
    ensures History(Apply(db, r).0)
  {
    hide History, Write;
    if WellFormed(r) {
      WriteKeepsHistory(db, r);
    }
  }

  lemma EmptyHistory()
    ensures History(EMPTY_DB)
  {
  }

  /**
   In every reachable state, for every application: its log leads from `Draft` to its state, event after event, by the
   transition table; its revision counts its saved drafts; its snapshots are numbered from one, one for each submission;
   and while it cannot be edited its draft is what was last submitted. No idempotency key is in the log twice.
   */
  lemma {:induction false} HistoryOfEveryRun(requests: seq<Request>)
    ensures History(Run(EMPTY_DB, requests))
  {
    hide History, Apply;
    if requests == [] {
      EmptyHistory();
    } else {
      HistoryOfEveryRun(requests[..|requests| - 1]);
      ApplyKeepsHistory(Run(EMPTY_DB, requests[..|requests| - 1]), requests[|requests| - 1]);
    }
  }

  /** What `Trace` says of a log: it starts from `Draft`, each event obeys the table and starts where the one before ended. */
  lemma {:induction false} TraceIsChain(events: seq<Event>)
    requires Trace(events).Some?
    ensures events != [] ==>
              events[0].previousState == Draft && events[|events| - 1].nextState == Trace(events).value
    ensures forall i | 0 <= i < |events| ::
              Resolve(events[i].previousState, events[i].action) == Some(events[i].nextState)
    ensures forall i | 0 <= i < |events| - 1 :: events[i].nextState == events[i + 1].previousState
  {
    if events != [] {
      TraceIsChain(events[..|events| - 1]);
    }
  }

  // ----- Repeated requests, one after another -----

  lemma ApplyGrowsLogs(db: Db, r: Request)
    ensures db.events <= Apply(db, r).0.events && db.snapshots <= Apply(db, r).0.snapshots
  {
    hide FindKey, SnapshotsOf, Latest;
  }

  /** Rows of the log and snapshots, once written, stay as they are. */
  lemma {:induction false} LogsOnlyGrow(db: Db, requests: seq<Request>)
    ensures db.events <= Run(db, requests).events && db.snapshots <= Run(db, requests).snapshots
  {
    hide Apply;
    if requests != [] {
      LogsOnlyGrow(db, requests[..|requests| - 1]);
      ApplyGrowsLogs(Run(db, requests[..|requests| - 1]), requests[|requests| - 1]);
    }
  }

  lemma {:induction false} RunKeepsHistory(db: Db, requests: seq<Request>)
    requires History(db)
    ensures History(Run(db, requests))
  {
    hide History, Apply;
    if requests != [] {
      RunKeepsHistory(db, requests[..|requests| - 1]);
      ApplyKeepsHistory(Run(db, requests[..|requests| - 1]), requests[|requests| - 1]);
    }
  }

  lemma FoundKeyIsTheOne(events: seq<Event>, i: nat)
    requires KeysUnique(events) && i < |events|
    ensures FindKey(events, events[i].key) == Some(events[i])
  {
    FindKeyFinds(events, events[i].key);
    var found := FindKey(events, events[i].key).value;
    var j :| 0 <= j < |events| && events[j] == found;
    assert j == i;
  }

  /**
   After a request has been applied, a request with its key never applies again, however much happens in between: it
   changes nothing, and is answered with the application as it now stands if actor, fingerprint and reviewed application
   are the same, and refused otherwise.
   */
  lemma RepeatedRequest(db: Db, first: Request, between: seq<Request>, again: Request)
    requires History(db) && Apply(db, first).1.Changed?
    requires again.context.key == first.context.key && WellFormed(again)
    ensures var a := Apply(db, first).1.application.id;
            var now := Run(Apply(db, first).0, between);
            && a in now.applications
            && Apply(now, again) ==
               (now,
                if again.context == first.context && (again.ReviewRequest? ==> again.applicationId == a)
                then Replayed(now.applications[a]) else Conflict)
  {
    hide Run, FindKey, EventsOf, SnapshotsOf, DossierOk;
    ApplyKeepsHistory(db, first);
    var db1 := Apply(db, first).0;
    var now := Run(db1, between);
    RunKeepsHistory(db1, between);
    LogsOnlyGrow(db1, between);
    var i := |db.events|;
    AppliedIsLogged(db, first);
    assert now.events[i] == db1.events[i];
    FoundKeyIsTheOne(now.events, i);
  }

  lemma AppliedIsLogged(db: Db, r: Request)
    requires Apply(db, r).1.Changed?
    ensures var (db', outcome) := Apply(db, r);
            && |db'.events| == |db.events| + 1
            && db'.events[..|db.events|] == db.events
            && db'.events[|db.events|].application == outcome.application.id
            && db'.events[|db.events|].actor == r.context.actor
            && db'.events[|db.events|].key == r.context.key
            && db'.events[|db.events|].fingerprint == r.context.fingerprint
            && FindKey(db.events, r.context.key).None?
  {
  }
}
