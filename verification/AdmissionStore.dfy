/** The admission repository: the three mutations as they run against the tables. */
module AdmissionStore {
  import opened Common
  import opened CreatorAdmission

  class Repository {
    var applications: map<Uuid, Application>
    var byApplicant: map<Uuid, Uuid>
    var snapshots: seq<Snapshot>
    var events: seq<Event>

    ghost function Tables(): Db
      reads this
    {
      Db(applications, byApplicant, snapshots, events)
    }

    constructor ()
      ensures Tables() == EMPTY_DB
    {
      applications, byApplicant, snapshots, events := map[], map[], [], [];
    }

    method ReplayMutation(context: Context, target: Option<Uuid>) returns (r: Option<Outcome>)
      ensures r == Replay(Tables(), context, target)
    {
      var found := FindKey(events, context.key);
      if found.None? {
        return None;
      }
      var event := found.value;
      if event.actor != context.actor || event.fingerprint != context.fingerprint ||
         (target.Some? && event.application != target.value) {
        return Some(Conflict);
      }
      if event.application !in applications {
        return Some(Conflict);
      }
      return Some(Replayed(applications[event.application]));
    }

    method FindForApplicant(applicant: Uuid) returns (r: Option<Application>)
      ensures r == ApplicationOf(Tables(), applicant)
    {
      if applicant !in byApplicant || byApplicant[applicant] !in applications {
        return None;
      }
      return Some(applications[byApplicant[applicant]]);
    }

    method LatestSnapshot(application: Uuid) returns (r: Option<Snapshot>)
      ensures r == Latest(SnapshotsOf(snapshots, application))
    {
      r := Latest(SnapshotsOf(snapshots, application));
    }

    /** Fails on the unique index over idempotency keys. */
    method InsertAdmissionEvent(event: Event) returns (inserted: bool)
      modifies this`events
      ensures inserted <==> FindKey(old(events), event.key).None?
      ensures events == if inserted then old(events) + [event] else old(events)
    {
      if FindKey(events, event.key).Some? {
        return false;
      }
      events := events + [event];
      return true;
    }

    method SaveDraft(context: Context, applicationId: Uuid, draft: Content) returns (outcome: Outcome)
      modifies this
      ensures (Tables(), outcome) == Apply(old(Tables()), SaveDraftRequest(context, applicationId, draft))
    {
      var repeated := ReplayMutation(context, None);
      if repeated.Some? {
        return repeated.value;
      }
      var existing := FindForApplicant(context.actor);
      if existing.Some? && !Editable(existing.value.state) {
        return Conflict;
      }
      var previousState := if existing.Some? then existing.value.state else State.Draft;
      var nextRevision := if existing.Some? then existing.value.revision + 1 else 1;
      if existing.None? && applicationId in applications {
        return DuplicateId;
      }
      var saved := if existing.Some?
                   then existing.value.(draft := draft, revision := nextRevision)
                   else Application(applicationId, context.actor, State.Draft, draft, nextRevision);
      var inserted := InsertAdmissionEvent(Event(saved.id, None, context.actor, Action.SaveDraft, previousState,
                                                 saved.state, context.key, context.fingerprint));
      assert inserted;
      applications := applications[saved.id := saved];
      if existing.None? {
        byApplicant := byApplicant[context.actor := saved.id];
      }
      return Changed(saved);
    }

    method Submit(context: Context, identity: Option<Identity>, snapshotId: Uuid) returns (outcome: Outcome)
      modifies this
      ensures (Tables(), outcome) == Apply(old(Tables()), SubmitRequest(context, identity, snapshotId))
    {
      var repeated := ReplayMutation(context, None);
      if repeated.Some? {
        return repeated.value;
      }
      var found := FindForApplicant(context.actor);
      if found.None? {
        return NotFound;
      }
      var application := found.value;
      if !Submittable(application.draft) {
        return InvalidInput;
      }
      var action := if application.state == State.Draft then Action.Submit else Resubmit;
      var nextState := Resolve(application.state, action);
      if nextState.None? {
        return Conflict;
      }
      if identity.None? || !identity.value.emailVerified {
        return ContactUnverified;
      }
      var latest := LatestSnapshot(application.id);
      var sequence := (if latest.Some? then latest.value.sequence else 0) + 1;
      snapshots := snapshots + [Snapshot(snapshotId, application.id, sequence, application.draft, identity.value.email)];
      var saved := application.(state := nextState.value);
      var inserted := InsertAdmissionEvent(Event(saved.id, Some(snapshotId), context.actor, action, application.state,
                                                 saved.state, context.key, context.fingerprint));
      assert inserted;
      applications := applications[saved.id := saved];
      return Changed(saved);
    }

    method Review(context: Context, applicationId: Uuid, action: Action, allowedRoles: set<string>,
                  activeRoles: set<string>, identity: Option<Identity>)
      returns (outcome: Outcome)
      modifies this
      ensures (Tables(), outcome) ==
              Apply(old(Tables()), ReviewRequest(context, applicationId, action, allowedRoles, activeRoles, identity))
    {
      if !IsReviewAction(action) {
        return InvalidInput;
      }
      var repeated := ReplayMutation(context, Some(applicationId));
      if repeated.Some? {
        return repeated.value;
      }
      if applicationId !in applications {
        return NotFound;
      }
      var application := applications[applicationId];
      if application.applicant == context.actor || allowedRoles == {} || allowedRoles * activeRoles == {} {
        return Forbidden;
      }
      var nextState := Resolve(application.state, action);
      if nextState.None? {
        return Conflict;
      }
      var latest := LatestSnapshot(application.id);
      if latest.None? {
        return Conflict;
      }
      if action == Approve && (identity.None? || !identity.value.emailVerified) {
        return ContactUnverified;
      }
      var saved := application.(state := nextState.value);
      var inserted := InsertAdmissionEvent(Event(application.id, Some(latest.value.id), context.actor, action,
                                                 application.state, saved.state, context.key, context.fingerprint));
      assert inserted;
      applications := applications[saved.id := saved];
      return Changed(saved);
    }
  }
}
