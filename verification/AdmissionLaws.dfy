/**
 What the log of an application says by itself: which decision follows which, the state it tells, and the request that
 warrants each of its events. The transition table is not mentioned in what is stated here.
 */
module AdmissionLaws {
  import opened Common
  import opened CreatorAdmission
  import opened AdmissionHistory

  /** The last action other than a draft save. */
  function LastDecision(events: seq<Event>): Option<Action> {
    if events == [] then None
    else if events[|events| - 1].action != SaveDraft then Some(events[|events| - 1].action)
    else LastDecision(events[..|events| - 1])
  }

  /** Which action may follow which decision. */
  predicate MayFollow(before: Option<Action>, action: Action) {
    match action
    case SaveDraft => before == None || before == Some(RequestChanges)
    case Submit => before == None
    case Resubmit => before == Some(RequestChanges)
    case StartReview => before == Some(Submit) || before == Some(Resubmit)
    case Approve => before == Some(StartReview)
    case Reject => before == Some(StartReview)
    case RequestChanges => before == Some(StartReview)
    case Suspend => before == Some(Approve) || before == Some(Reinstate)
    case Reinstate => before == Some(Suspend)
    case Revoke => before == Some(Approve) || before == Some(Reinstate) || before == Some(Suspend)
  }

  /** The state that the last decision leaves an application in. */
  ghost predicate Tells(before: Option<Action>, state: State) {
    && (state == Draft <==> before == None)
    && (state == Submitted <==> before == Some(Submit) || before == Some(Resubmit))
    && (state == UnderReview <==> before == Some(StartReview))
    && (state == Approved <==> before == Some(Approve) || before == Some(Reinstate))
    && (state == ChangesRequested <==> before == Some(RequestChanges))
    && (state == Rejected <==> before == Some(Reject))
    && (state == Suspended <==> before == Some(Suspend))
    && (state == Revoked <==> before == Some(Revoke))
  }

  lemma ResolvesIff(before: Option<Action>, state: State, action: Action)
    requires Tells(before, state)
    ensures Resolve(state, action).Some? <==> MayFollow(before, action)
    ensures Resolve(state, action).Some? ==>
              Tells(if action == SaveDraft then before else Some(action), Resolve(state, action).value)
  {
  }

  lemma {:induction false} TraceTells(events: seq<Event>)
    requires Trace(events).Some?
    ensures Tells(LastDecision(events), Trace(events).value)
  {
    if events != [] {
      var front, last := events[..|events| - 1], events[|events| - 1];
      TraceTells(front);
      hide Resolve, Tells;
      ResolvesIff(LastDecision(front), last.previousState, last.action);
    }
  }

  lemma {:induction false} TraceAllows(events: seq<Event>, i: nat)
    requires Trace(events).Some? && i < |events|
    ensures MayFollow(LastDecision(events[..i]), events[i].action)
  {
    var front, last := events[..|events| - 1], events[|events| - 1];
    if i == |events| - 1 {
      TraceTells(front);
      hide Resolve, MayFollow, Tells;
      ResolvesIff(LastDecision(front), last.previousState, last.action);
    } else {
      TraceAllows(front, i);
      assert front[..i] == events[..i];
    }
  }

  /** Outside the editable states the last event is the decision itself. */
  lemma DecisionIsLast(events: seq<Event>)
    requires Trace(events).Some? && LastDecision(events).Some? && LastDecision(events) != Some(RequestChanges)
    ensures events[|events| - 1].action == LastDecision(events).value
  {
    TraceAllows(events, |events| - 1);
  }

  /**
   Over all runs, for every application: its state is the one its last decision tells, that decision is its last event unless
   changes were requested, and every event followed a decision it may follow.
   */
  lemma LogTellsTheState(requests: seq<Request>, a: Uuid)
    requires a in Run(EMPTY_DB, requests).applications
    ensures var db := Run(EMPTY_DB, requests);
            var events := EventsOf(db.events, a);
            && events != []
            && Tells(LastDecision(events), db.applications[a].state)
            && (LastDecision(events).Some? && LastDecision(events) != Some(RequestChanges) ==>
                  events[|events| - 1].action == LastDecision(events).value)
            && forall i | 0 <= i < |events| :: MayFollow(LastDecision(events[..i]), events[i].action)
  {
    HistoryOfEveryRun(requests);
    var db := Run(EMPTY_DB, requests);
    var events := EventsOf(db.events, a);
    HeldDossier(db, a);
    hide Run, EventsOf, History, MayFollow, Tells, Numbered;
    TraceTells(events);
    if LastDecision(events).Some? && LastDecision(events) != Some(RequestChanges) {
      DecisionIsLast(events);
    }
    forall i | 0 <= i < |events|
      ensures MayFollow(LastDecision(events[..i]), events[i].action)
    {
      TraceAllows(events, i);
    }
  }

  // ----- When a request takes effect -----

  predicate KeyLogged(db: Db, key: string) {
    exists i :: 0 <= i < |db.events| && db.events[i].key == key
  }

  ghost function DecisionOn(db: Db, a: Uuid): Option<Action> {
    LastDecision(EventsOf(db.events, a))
  }

  lemma DecisionTells(db: Db, a: Uuid)
    requires History(db) && a in db.applications
    ensures Tells(DecisionOn(db, a), db.applications[a].state) && db.applications[a].id == a
    ensures DecisionOn(db, a).Some? ==> Latest(SnapshotsOf(db.snapshots, a)).Some?
  {
    HeldDossier(db, a);
    TraceTells(EventsOf(db.events, a));
    LatestIsLast(SnapshotsOf(db.snapshots, a));
    hide EventsOf, SnapshotsOf, Trace, Latest, LastDecision, DossierOk, KeysUnique;
  }

  lemma KeyLoggedIff(db: Db, key: string)
    ensures KeyLogged(db, key) <==> FindKey(db.events, key).Some?
  {
    FindKeyFinds(db.events, key);
  }

  predicate IsDecision(action: Action) {
    || action == StartReview || action == Approve || action == RequestChanges || action == Reject
    || action == Suspend || action == Reinstate || action == Revoke
  }

  predicate Verified(identity: Option<Identity>) {
    identity.Some? && identity.value.emailVerified
  }

  /** Some role is in both. */
  ghost predicate Share(one: set<string>, other: set<string>) {
    exists role: string :: role in one && role in other
  }

  /** Exactly when a review takes effect. */
  lemma ReviewAppliesIff(db: Db, r: Request)
    requires History(db) && r.ReviewRequest?
    ensures Apply(db, r).1.Changed? <==>
            && IsDecision(r.action) && !KeyLogged(db, r.context.key)
            && r.applicationId in db.applications && db.applications[r.applicationId].applicant != r.context.actor
            && Share(r.allowedRoles, r.activeRoles)
            && MayFollow(DecisionOn(db, r.applicationId), r.action)
            && (r.action == Approve ==> Verified(r.identity))
  {
    hide *;
    KeyLoggedIff(db, r.context.key);
    AppliedReview(db, r);
    if IsDecision(r.action) && FindKey(db.events, r.context.key).None? && r.applicationId in db.applications {
      EntitledReview(db, r);
    }
  }

  lemma EntitledReview(db: Db, r: Request)
    requires History(db) && r.ReviewRequest? && IsDecision(r.action) && FindKey(db.events, r.context.key).None?
    requires r.applicationId in db.applications
    ensures ReviewWrite(db, r, db.applications[r.applicationId]).1.Changed? <==>
            && db.applications[r.applicationId].applicant != r.context.actor
            && Share(r.allowedRoles, r.activeRoles)
            && MayFollow(DecisionOn(db, r.applicationId), r.action)
            && (r.action == Approve ==> Verified(r.identity))
  {
    hide *;
    var application := db.applications[r.applicationId];
    RolesMeet(r.allowedRoles, r.activeRoles);
    DecisionTells(db, r.applicationId);
    ResolvesIff(DecisionOn(db, r.applicationId), application.state, r.action);
    if MayFollow(DecisionOn(db, r.applicationId), r.action) {
      ReviewsFollowSnapshots(DecisionOn(db, r.applicationId), r.action);
    }
    WrittenReview(db, r, application);
  }

  predicate Entitled(db: Db, r: Request)
    requires r.ReviewRequest?
  {
    r.applicationId in db.applications && db.applications[r.applicationId].applicant != r.context.actor
  }

  /** How a review with a new key is answered, whatever it is: by the first of these that is wrong. */
  lemma ReviewAnswers(db: Db, r: Request)
    requires History(db) && r.ReviewRequest? && !KeyLogged(db, r.context.key)
    ensures var answer := Apply(db, r).1;
            var known := r.applicationId in db.applications;
            && (answer == InvalidInput <==> !IsDecision(r.action))
            && (answer == NotFound <==> IsDecision(r.action) && !known)
            && (answer == Forbidden <==>
                  IsDecision(r.action) && known && !(Entitled(db, r) && Share(r.allowedRoles, r.activeRoles)))
            && var entitled := IsDecision(r.action) && Entitled(db, r) && Share(r.allowedRoles, r.activeRoles);
            && (answer == Conflict <==> entitled && !MayFollow(DecisionOn(db, r.applicationId), r.action))
            && (answer == ContactUnverified <==>
                  && entitled && MayFollow(DecisionOn(db, r.applicationId), r.action)
                  && r.action == Approve && !Verified(r.identity))
  {
    hide *;
    KeyLoggedIff(db, r.context.key);
    RefusedReview(db, r);
    RolesMeet(r.allowedRoles, r.activeRoles);
    if r.applicationId in db.applications {
      var application := db.applications[r.applicationId];
      DecisionTells(db, r.applicationId);
      ResolvesIff(DecisionOn(db, r.applicationId), application.state, r.action);
      EntitledIff(db, r);
      if IsDecision(r.action) && MayFollow(DecisionOn(db, r.applicationId), r.action) {
        ReviewsFollowSnapshots(DecisionOn(db, r.applicationId), r.action);
      }
    } else {
      EntitledIff(db, r);
    }
  }

  lemma EntitledIff(db: Db, r: Request)
    requires r.ReviewRequest?
    ensures Entitled(db, r) <==>
            r.applicationId in db.applications && db.applications[r.applicationId].applicant != r.context.actor
  {
  }

  lemma RefusedReview(db: Db, r: Request)
    requires r.ReviewRequest? && FindKey(db.events, r.context.key).None?
    ensures var answer := Apply(db, r).1;
            && (answer == InvalidInput <==> !IsDecision(r.action))
            && (answer == NotFound <==> IsDecision(r.action) && r.applicationId !in db.applications)
            && (IsDecision(r.action) && r.applicationId in db.applications ==>
                  var application := db.applications[r.applicationId];
                  var entitled := application.applicant != r.context.actor
                                  && r.allowedRoles * r.activeRoles != {} && r.allowedRoles != {};
                  var next := Resolve(application.state, r.action);
                  var taken := Latest(SnapshotsOf(db.snapshots, application.id)).Some?;
                  && (answer == Forbidden <==> !entitled)
                  && (answer == Conflict <==> entitled && (next == None || !taken))
                  && (answer == ContactUnverified <==>
                        entitled && next.Some? && taken && r.action == Approve && !Verified(r.identity)))
            && (answer == Forbidden || answer == Conflict || answer == ContactUnverified ==>
                  IsDecision(r.action) && r.applicationId in db.applications)
  {
    hide FindKey, Latest, SnapshotsOf, Resolve;
  }

  /** It changes the state, to the one that its own action tells, and nothing else. */
  lemma ReviewEffect(db: Db, r: Request)
    requires History(db) && r.ReviewRequest? && Apply(db, r).1.Changed?
    ensures var (db', changed) := (Apply(db, r).0, Apply(db, r).1.application);
            && r.applicationId in db.applications
            && changed == db.applications[r.applicationId].(state := changed.state)
            && Tells(Some(r.action), changed.state)
            && db' == db.(applications := db.applications[r.applicationId := changed], events := db'.events)
  {
    hide *;
    AppliedReview(db, r);
    var application := db.applications[r.applicationId];
    DecisionTells(db, r.applicationId);
    ResolvesIff(DecisionOn(db, r.applicationId), application.state, r.action);
    DecisionsAreNotSaves(r.action);
    WrittenReview(db, r, application);
  }

  lemma DecisionsAreNotSaves(action: Action)
    requires IsDecision(action)
    ensures action != SaveDraft
  {
  }

  lemma ReviewsFollowSnapshots(before: Option<Action>, action: Action)
    requires IsDecision(action) && MayFollow(before, action)
    ensures before.Some?
  {
  }

  lemma AppliedReview(db: Db, r: Request)
    requires r.ReviewRequest?
    ensures IsDecision(r.action) && FindKey(db.events, r.context.key).None? && r.applicationId in db.applications ==>
              Apply(db, r) == ReviewWrite(db, r, db.applications[r.applicationId])
    ensures !(IsDecision(r.action) && FindKey(db.events, r.context.key).None? && r.applicationId in db.applications) ==>
              !Apply(db, r).1.Changed?
  {
    hide FindKey, ReviewWrite;
  }

  lemma WrittenReview(db: Db, r: Request, application: Application)
    requires r.ReviewRequest?
    ensures var (db', outcome) := ReviewWrite(db, r, application);
            var next := Resolve(application.state, r.action);
            && (outcome.Changed? <==>
                  && application.applicant != r.context.actor && r.allowedRoles * r.activeRoles != {} && r.allowedRoles != {}
                  && next.Some? && Latest(SnapshotsOf(db.snapshots, application.id)).Some?
                  && (r.action == Approve ==> Verified(r.identity))
                  && FindKey(db.events, r.context.key).None?)
            && (outcome.Changed? ==>
                  && outcome.application == application.(state := next.value)
                  && db' == db.(applications := db.applications[application.id := outcome.application], events := db'.events))
  {
    hide FindKey, Latest, SnapshotsOf, Resolve;
  }

  lemma RolesMeet(allowed: set<string>, active: set<string>)
    ensures Share(allowed, active) <==> allowed * active != {} && allowed != {}
  {
    if Share(allowed, active) {
      var role: string :| role in allowed && role in active;
      assert role in allowed * active;
    }
    if allowed * active != {} {
      var role :| role in allowed * active;
    }
  }

  predicate DeclaredInFull(draft: Content) {
    && draft.contentDeclarationAccepted && draft.jurisdictionAcknowledged
    && draft.provenanceDeclarationAccepted && draft.rightsDeclarationAccepted
  }

  lemma AppliedSubmission(db: Db, r: Request, application: Application)
    requires r.SubmitRequest? && ApplicationOf(db, r.context.actor) == Some(application)
    ensures FindKey(db.events, r.context.key).None? ==> Apply(db, r) == SubmitWrite(db, r, application)
    ensures FindKey(db.events, r.context.key).Some? ==> !Apply(db, r).1.Changed?
  {
    hide FindKey, SubmitWrite, ApplicationOf;
  }

  lemma WrittenSubmission(db: Db, r: Request, application: Application)
    requires r.SubmitRequest?
    ensures var (db', outcome) := SubmitWrite(db, r, application);
            var next := Resolve(application.state, if application.state == Draft then Submit else Resubmit);
            && (outcome.Changed? <==>
                  && DeclaredInFull(application.draft) && next.Some? && Verified(r.identity)
                  && FindKey(db.events, r.context.key).None?)
            && (outcome.Changed? ==>
                  && db'.applications == db.applications[application.id := application.(state := next.value)]
                  && |db'.snapshots| == |db.snapshots| + 1
                  && var s := db'.snapshots[|db.snapshots|];
                  && db'.snapshots == db.snapshots + [s]
                  && s.id == r.snapshotId && s.application == application.id && s.payload == application.draft
                  && s.contactEmail == r.identity.value.email
                  && db' == db.(applications := db'.applications, events := db'.events, snapshots := db'.snapshots))
  {
    hide FindKey, Latest, SnapshotsOf, Resolve;
  }

  lemma SubmitsIff(before: Option<Action>, state: State)
    requires Tells(before, state)
    ensures var action := if state == Draft then Submit else Resubmit;
            && (Resolve(state, action).Some? <==> before == None || before == Some(RequestChanges))
            && (Resolve(state, action).Some? ==> Resolve(state, action).value == Submitted)
  {
  }

  /** Exactly when a submission takes effect: it was declared in full, may follow, and its contact is verified. */
  lemma SubmissionAppliesIff(db: Db, r: Request, a: Uuid)
    requires History(db) && r.SubmitRequest?
    requires a in db.applications && db.applications[a].applicant == r.context.actor
    ensures Apply(db, r).1.Changed? <==>
            && !KeyLogged(db, r.context.key)
            && DeclaredInFull(db.applications[a].draft)
            && (DecisionOn(db, a) == None || DecisionOn(db, a) == Some(RequestChanges))
            && Verified(r.identity)
    ensures Apply(db, r).1.Changed? ==>
              var db' := Apply(db, r).0;
              && db'.applications == db.applications[a := db.applications[a].(state := Submitted)]
              && |db'.snapshots| == |db.snapshots| + 1
              && var s := db'.snapshots[|db.snapshots|];
              && db'.snapshots == db.snapshots + [s]
              && s.id == r.snapshotId && s.application == a && s.payload == db.applications[a].draft
              && s.contactEmail == r.identity.value.email
              && db' == db.(applications := db'.applications, events := db'.events, snapshots := db'.snapshots)
  {
    hide *;
    KeyLoggedIff(db, r.context.key);
    DecisionTells(db, a);
    RowOfApplicant(db, r.context.actor, a);
    SubmitsIff(DecisionOn(db, a), db.applications[a].state);
    AppliedSubmission(db, r, db.applications[a]);
    WrittenSubmission(db, r, db.applications[a]);
  }

  /** How a submission with a new key is answered: by the first of these that is wrong. */
  lemma SubmissionAnswers(db: Db, r: Request)
    requires History(db) && r.SubmitRequest? && !KeyLogged(db, r.context.key)
    ensures Apply(db, r).1 == NotFound <==>
            forall a | a in db.applications :: db.applications[a].applicant != r.context.actor
    ensures forall a | a in db.applications && db.applications[a].applicant == r.context.actor ::
              var answer := Apply(db, r).1;
              var declared := DeclaredInFull(db.applications[a].draft);
              var due := DecisionOn(db, a) == None || DecisionOn(db, a) == Some(RequestChanges);
              && (answer == InvalidInput <==> !declared)
              && (answer == Conflict <==> declared && !due)
              && (answer == ContactUnverified <==> declared && due && !Verified(r.identity))
  {
    hide *;
    KeyLoggedIff(db, r.context.key);
    ApplicantsRow(db, r.context.actor);
    UnknownSubmitter(db, r);
    forall a | a in db.applications && db.applications[a].applicant == r.context.actor
      ensures Apply(db, r).1 != NotFound
      ensures var answer := Apply(db, r).1;
              var declared := DeclaredInFull(db.applications[a].draft);
              var due := DecisionOn(db, a) == None || DecisionOn(db, a) == Some(RequestChanges);
              && (answer == InvalidInput <==> !declared)
              && (answer == Conflict <==> declared && !due)
              && (answer == ContactUnverified <==> declared && due && !Verified(r.identity))
    {
      DecisionTells(db, a);
      RowOfApplicant(db, r.context.actor, a);
      SubmitsIff(DecisionOn(db, a), db.applications[a].state);
      AppliedSubmission(db, r, db.applications[a]);
      RefusedSubmission(db, r, db.applications[a]);
    }
  }

  lemma UnknownSubmitter(db: Db, r: Request)
    requires r.SubmitRequest? && FindKey(db.events, r.context.key).None?
    ensures ApplicationOf(db, r.context.actor).None? ==> Apply(db, r).1 == NotFound
  {
    hide FindKey, SubmitWrite;
  }

  lemma RefusedSubmission(db: Db, r: Request, application: Application)
    requires r.SubmitRequest?
    ensures var answer := SubmitWrite(db, r, application).1;
            var next := Resolve(application.state, if application.state == Draft then Submit else Resubmit);
            && answer != NotFound
            && (answer == InvalidInput <==> !DeclaredInFull(application.draft))
            && (answer == Conflict <==> DeclaredInFull(application.draft) && next == None)
            && (answer == ContactUnverified <==>
                  DeclaredInFull(application.draft) && next.Some? && !Verified(r.identity))
  {
    hide FindKey, Latest, SnapshotsOf, Resolve;
  }

  /** How a draft save with a new key is refused: its application is not editable, or it is new and its id is taken. */
  lemma SaveAnswers(db: Db, r: Request)
    requires History(db) && r.SaveDraftRequest? && !KeyLogged(db, r.context.key)
    ensures var answer := Apply(db, r).1;
            && (answer == Conflict <==>
                  exists a :: a in db.applications && db.applications[a].applicant == r.context.actor &&
                              DecisionOn(db, a) != None && DecisionOn(db, a) != Some(RequestChanges))
            && (answer == DuplicateId <==>
                  r.applicationId in db.applications &&
                  forall a | a in db.applications :: db.applications[a].applicant != r.context.actor)
            && (answer.Changed? || answer == Conflict || answer == DuplicateId)
  {
    KeyLoggedIff(db, r.context.key);
    ApplicantsRow(db, r.context.actor);
    var found := ApplicationOf(db, r.context.actor);
    if found.Some? {
      DecisionTells(db, found.value.id);
    }
    hide History, FindKey, DecisionOn, KeyLogged, ApplicationOf;
    if found.Some? {
      assert db.applications[found.value.id].applicant == r.context.actor;
    }
  }

  lemma RowOfApplicant(db: Db, applicant: Uuid, a: Uuid)
    requires History(db) && a in db.applications && db.applications[a].applicant == applicant
    ensures ApplicationOf(db, applicant) == Some(db.applications[a])
  {
    hide DossierOk, KeysUnique;
  }

  /** Exactly when a draft save takes effect: no application yet, or an editable one; the draft is then the one sent. */
  lemma SaveAppliesIff(db: Db, r: Request)
    requires History(db) && r.SaveDraftRequest?
    ensures Apply(db, r).1.Changed? <==>
            && !KeyLogged(db, r.context.key)
            && if exists a :: a in db.applications && db.applications[a].applicant == r.context.actor
               then exists a :: a in db.applications && db.applications[a].applicant == r.context.actor &&
                                (DecisionOn(db, a) == None || DecisionOn(db, a) == Some(RequestChanges))
               else r.applicationId !in db.applications
    ensures Apply(db, r).1.Changed? ==>
              var (db', changed) := (Apply(db, r).0, Apply(db, r).1.application);
              && changed.draft == r.draft && changed.applicant == r.context.actor
              && db'.applications == db.applications[changed.id := changed] && db'.snapshots == db.snapshots
              && (changed.id in db.applications ==>
                    && changed == db.applications[changed.id].(draft := r.draft, revision := changed.revision)
                    && changed.revision == db.applications[changed.id].revision + 1)
              && (changed.id !in db.applications ==>
                    changed == Application(r.applicationId, r.context.actor, Draft, r.draft, 1))
  {
    KeyLoggedIff(db, r.context.key);
    var found := ApplicationOf(db, r.context.actor);
    ApplicantsRow(db, r.context.actor);
    if found.Some? {
      DecisionTells(db, found.value.id);
    }
    hide History, FindKey, DecisionOn, KeyLogged, ApplicationOf;
    if found.Some? {
      assert db.applications[found.value.id].applicant == r.context.actor;
    }
  }

  lemma ApplicantsRow(db: Db, applicant: Uuid)
    requires History(db)
    ensures var found := ApplicationOf(db, applicant);
            && (found.Some? ==>
                  && found.value.id in db.applications && db.applications[found.value.id] == found.value
                  && found.value.applicant == applicant)
            && forall a | a in db.applications && db.applications[a].applicant == applicant ::
                 found.Some? && found.value.id == a
  {
    hide DossierOk, KeysUnique;
  }

  // ----- Every event has its warrant -----

  /** The request that an event came from, and what entitled it. */
  ghost predicate Warrants(db: Db, r: Request, e: Event) {
    && r.context == Context(e.actor, e.key, e.fingerprint)
    && e.application in db.applications
    && var applicant := db.applications[e.application].applicant;
    match r
    case SaveDraftRequest(_, _, _) => e.action == SaveDraft && e.actor == applicant
    case SubmitRequest(_, identity, _) => (e.action == Submit || e.action == Resubmit) && e.actor == applicant && Verified(identity)
    case ReviewRequest(_, id, action, allowed, active, identity) =>
      && e.action == action && IsDecision(action) && e.application == id && e.actor != applicant && Share(allowed, active)
      && (action == Approve ==> Verified(identity))
  }

  /** The event that a write appends. */
  ghost predicate Appended(db: Db, db': Db, r: Request, application: Uuid) {
    && |db'.events| == |db.events| + 1 && db'.events[..|db.events|] == db.events
    && var e := db'.events[|db.events|];
    e.actor == r.context.actor && e.key == r.context.key && e.fingerprint == r.context.fingerprint && e.application == application
  }

  lemma SubmissionEvent(db: Db, r: Request, application: Application)
    requires r.SubmitRequest? && SubmitWrite(db, r, application).1.Changed?
    ensures var db' := SubmitWrite(db, r, application).0;
            && Appended(db, db', r, application.id)
            && (db'.events[|db.events|].action == Submit || db'.events[|db.events|].action == Resubmit)
            && db'.events[|db.events|].snapshotId == Some(r.snapshotId)
  {
    hide FindKey, Latest, SnapshotsOf, Resolve;
  }

  lemma ReviewEvent(db: Db, r: Request, application: Application)
    requires r.ReviewRequest? && ReviewWrite(db, r, application).1.Changed?
    ensures var db' := ReviewWrite(db, r, application).0;
            && Appended(db, db', r, application.id) && db'.events[|db.events|].action == r.action
            && var latest := Latest(SnapshotsOf(db.snapshots, application.id));
            latest.Some? && db'.events[|db.events|].snapshotId == Some(latest.value.id)
  {
    hide FindKey, Latest, SnapshotsOf, Resolve;
  }

  lemma SaveEvent(db: Db, r: Request)
    requires r.SaveDraftRequest? && Apply(db, r).1.Changed?
    ensures var (db', changed) := (Apply(db, r).0, Apply(db, r).1.application);
            && Appended(db, db', r, changed.id)
            && db'.events[|db.events|].action == SaveDraft && db'.events[|db.events|].snapshotId == None
  {
    hide FindKey;
  }

  /** A draft save refers to no snapshot, a submission to the one it makes, a decision to the application's last. */
  lemma EventNamesItsSnapshot(db: Db, r: Request)
    requires History(db) && Apply(db, r).1.Changed?
    ensures var db' := Apply(db, r).0;
            && |db'.events| > |db.events|
            && var e := db'.events[|db.events|];
            match r
            case SaveDraftRequest(_, _, _) => e.snapshotId == None
            case SubmitRequest(_, _, snapshotId) => e.snapshotId == Some(snapshotId)
            case ReviewRequest(_, id, _, _, _, _) =>
              var taken := SnapshotsOf(db.snapshots, id);
              taken != [] && e.snapshotId == Some(taken[|taken| - 1].id)
  {
    match r {
      case SaveDraftRequest(_, _, _) => SaveEvent(db, r);
      case SubmitRequest(_, _, _) => SubmissionNamesItsSnapshot(db, r);
      case ReviewRequest(_, _, _, _, _, _) => ReviewNamesTheLast(db, r);
    }
    hide Apply, History, SnapshotsOf;
  }

  lemma SubmissionNamesItsSnapshot(db: Db, r: Request)
    requires History(db) && r.SubmitRequest? && Apply(db, r).1.Changed?
    ensures |Apply(db, r).0.events| > |db.events| && Apply(db, r).0.events[|db.events|].snapshotId == Some(r.snapshotId)
  {
    hide History, Apply, SubmitWrite, FindKey, ApplicationOf;
    SubmitterHasApplication(db, r);
    AppliedSubmission(db, r, ApplicationOf(db, r.context.actor).value);
    SubmissionEvent(db, r, ApplicationOf(db, r.context.actor).value);
  }

  lemma ReviewNamesTheLast(db: Db, r: Request)
    requires History(db) && r.ReviewRequest? && Apply(db, r).1.Changed?
    ensures var (db', taken) := (Apply(db, r).0, SnapshotsOf(db.snapshots, r.applicationId));
            && |db'.events| > |db.events| && taken != []
            && db'.events[|db.events|].snapshotId == Some(taken[|taken| - 1].id)
  {
    AppliedReview(db, r);
    HeldDossier(db, r.applicationId);
    OwnId(db, r.applicationId);
    LatestIsLast(SnapshotsOf(db.snapshots, r.applicationId));
    LatestOfNone();
    hide Apply, ReviewWrite, History, FindKey, Latest, SnapshotsOf, Consistent;
    ReviewEvent(db, r, db.applications[r.applicationId]);
  }

  lemma OwnId(db: Db, a: Uuid)
    requires History(db) && a in db.applications
    ensures db.applications[a].id == a
  {
    hide DossierOk, KeysUnique;
  }

  ghost predicate ApplicantsStay(db: Db, db': Db) {
    forall a | a in db.applications :: a in db'.applications && db'.applications[a].applicant == db.applications[a].applicant
  }

  lemma NewEventIsWarranted(db: Db, r: Request)
    requires History(db) && Apply(db, r).1.Changed?
    ensures var db' := Apply(db, r).0;
            && |db'.events| == |db.events| + 1 && db'.events[..|db.events|] == db.events
            && Warrants(db', r, db'.events[|db.events|])
            && ApplicantsStay(db, db')
  {
    match r {
      case SaveDraftRequest(_, _, _) => SavedEvent(db, r);
      case SubmitRequest(_, _, _) => SubmittedEvent(db, r);
      case ReviewRequest(_, _, _, _, _, _) => ReviewedEvent(db, r);
    }
  }

  lemma OneChanged(db: Db, db': Db, changed: Application)
    requires db'.applications == db.applications[changed.id := changed]
    requires changed.id in db.applications ==> db.applications[changed.id].applicant == changed.applicant
    ensures ApplicantsStay(db, db') && changed.id in db'.applications && db'.applications[changed.id] == changed
  {
  }

  lemma OwnWarrant(db: Db, db': Db, r: Request, changed: Application)
    requires Appended(db, db', r, changed.id) && changed.id in db'.applications && db'.applications[changed.id] == changed
    requires changed.applicant == r.context.actor
    requires var action := db'.events[|db.events|].action;
             match r
             case SaveDraftRequest(_, _, _) => action == SaveDraft
             case SubmitRequest(_, identity, _) => (action == Submit || action == Resubmit) && Verified(identity)
             case _ => false
    ensures |db'.events| == |db.events| + 1 && db'.events[..|db.events|] == db.events
    ensures Warrants(db', r, db'.events[|db.events|])
  {
    hide Verified;
  }

  lemma SavedEvent(db: Db, r: Request)
    requires History(db) && r.SaveDraftRequest? && Apply(db, r).1.Changed?
    ensures var db' := Apply(db, r).0;
            && |db'.events| == |db.events| + 1 && db'.events[..|db.events|] == db.events
            && Warrants(db', r, db'.events[|db.events|]) && ApplicantsStay(db, db')
  {
    hide *;
    var (db', changed) := (Apply(db, r).0, Apply(db, r).1.application);
    SaveAppliesIff(db, r);
    SaveEvent(db, r);
    OneChanged(db, db', changed);
    OwnWarrant(db, db', r, changed);
  }

  lemma SubmitterHasApplication(db: Db, r: Request)
    requires r.SubmitRequest? && Apply(db, r).1.Changed?
    ensures ApplicationOf(db, r.context.actor).Some? && FindKey(db.events, r.context.key).None?
  {
    hide FindKey, SubmitWrite, ApplicationOf;
  }

  lemma SubmittedEvent(db: Db, r: Request)
    requires History(db) && r.SubmitRequest? && Apply(db, r).1.Changed?
    ensures var db' := Apply(db, r).0;
            && |db'.events| == |db.events| + 1 && db'.events[..|db.events|] == db.events
            && Warrants(db', r, db'.events[|db.events|]) && ApplicantsStay(db, db')
  {
    hide *;
    SubmitterHasApplication(db, r);
    ApplicantsRow(db, r.context.actor);
    var application := ApplicationOf(db, r.context.actor).value;
    AppliedSubmission(db, r, application);
    SubmissionEvent(db, r, application);
    SubmissionAppliesIff(db, r, application.id);
    OneChanged(db, Apply(db, r).0, application.(state := Submitted));
    OwnWarrant(db, Apply(db, r).0, r, application.(state := Submitted));
  }

  lemma ReviewedEvent(db: Db, r: Request)
    requires History(db) && r.ReviewRequest? && Apply(db, r).1.Changed?
    ensures var db' := Apply(db, r).0;
            && |db'.events| == |db.events| + 1 && db'.events[..|db.events|] == db.events
            && Warrants(db', r, db'.events[|db.events|]) && ApplicantsStay(db, db')
  {
    hide History, Apply, ReviewWrite, FindKey, DecisionOn, KeyLogged, Share, MayFollow, Tells;
    ReviewAppliesIff(db, r);
    ReviewEffect(db, r);
    AppliedReview(db, r);
    KeyLoggedIff(db, r.context.key);
    DecisionTells(db, r.applicationId);
    ReviewEvent(db, r, db.applications[r.applicationId]);
  }

  lemma WarrantLasts(db: Db, db': Db, r: Request, e: Event)
    requires Warrants(db, r, e)
    requires ApplicantsStay(db, db')
    ensures Warrants(db', r, e)
  {
    hide Share;
  }

  lemma SameApplicants(db: Db)
    ensures ApplicantsStay(db, db)
  {
  }

  lemma UnchangedTables(db: Db, r: Request)
    requires !Apply(db, r).1.Changed?
    ensures Apply(db, r).0 == db
  {
    hide FindKey, Latest, SnapshotsOf;
  }

  /**
   Over all runs: every event in the log came from a request of its actor, key and fingerprint, and was entitled. Draft saves
   and submissions are the applicant's own, submissions and approvals had a verified contact, and no decision is by the
   applicant or by somebody without a role that allows it.
   */
  lemma {:induction false} EveryEventIsWarranted(requests: seq<Request>, k: nat)
    requires k < |Run(EMPTY_DB, requests).events|
    ensures var db := Run(EMPTY_DB, requests); exists i :: 0 <= i < |requests| && Warrants(db, requests[i], db.events[k])
    decreases |requests|
  {
    hide Warrants, Apply, History, ApplicantsStay;
    if requests != [] {
      var front, last := requests[..|requests| - 1], requests[|requests| - 1];
      var db := Run(EMPTY_DB, front);
      HistoryOfEveryRun(front);
      if Apply(db, last).1.Changed? {
        NewEventIsWarranted(db, last);
      } else {
        UnchangedTables(db, last);
        SameApplicants(db);
      }
      if k < |db.events| {
        EveryEventIsWarranted(front, k);
        var i :| 0 <= i < |front| && Warrants(db, front[i], db.events[k]);
        WarrantLasts(db, Apply(db, last).0, front[i], db.events[k]);
        assert requests[i] == front[i] && Apply(db, last).0.events[k] == db.events[k];
      } else {
        assert Warrants(Apply(db, last).0, requests[|requests| - 1], Apply(db, last).0.events[k]);
      }
    }
  }

  /** Over all runs: whatever was submitted had all four declarations. */
  lemma {:induction false} SnapshotsAreDeclared(requests: seq<Request>, k: nat)
    requires k < |Run(EMPTY_DB, requests).snapshots|
    ensures DeclaredInFull(Run(EMPTY_DB, requests).snapshots[k].payload)
  {
    if requests != [] {
      var front, last := requests[..|requests| - 1], requests[|requests| - 1];
      SnapshotsGrowDeclared(Run(EMPTY_DB, front), last);
      hide Apply, DeclaredInFull;
      if k < |Run(EMPTY_DB, front).snapshots| {
        SnapshotsAreDeclared(front, k);
      }
    }
  }

  lemma SnapshotsGrowDeclared(db: Db, r: Request)
    ensures var db' := Apply(db, r).0;
            db'.snapshots == db.snapshots ||
            (|db'.snapshots| == |db.snapshots| + 1 && db'.snapshots[..|db.snapshots|] == db.snapshots &&
             DeclaredInFull(db'.snapshots[|db.snapshots|].payload))
  {
    hide FindKey, Latest, SnapshotsOf;
  }
}
