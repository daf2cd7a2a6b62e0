/** Creator admission with every transaction run on its own: the tables, the three mutations, and the history they keep. */
module CreatorAdmission {
  import opened Common

  datatype State = Draft | Submitted | UnderReview | Approved | ChangesRequested | Rejected | Suspended | Revoked

  datatype Action =
    | SaveDraft | Submit | StartReview | Approve | RequestChanges
    | Reject | Resubmit | Suspend | Reinstate | Revoke

  /** The transition table. */
  function Resolve(state: State, action: Action): Option<State> {
    match (state, action)
    case (Approved, Revoke) => Some(Revoked)
    case (Approved, Suspend) => Some(Suspended)
    case (ChangesRequested, SaveDraft) => Some(ChangesRequested)
    case (ChangesRequested, Resubmit) => Some(Submitted)
    case (Draft, SaveDraft) => Some(Draft)
    case (Draft, Submit) => Some(Submitted)
    case (Submitted, StartReview) => Some(UnderReview)
    case (Suspended, Reinstate) => Some(Approved)
    case (Suspended, Revoke) => Some(Revoked)
    case (UnderReview, Approve) => Some(Approved)
    case (UnderReview, Reject) => Some(Rejected)
    case (UnderReview, RequestChanges) => Some(ChangesRequested)
    case _ => None
  }

  predicate Editable(state: State) {
    state == Draft || state == ChangesRequested
  }

  /** The states from which no sequence of actions leads back to an editable one. */
  predicate Closed(state: State) {
    state == Approved || state == Rejected || state == Suspended || state == Revoked
  }

  /** The seven actions that a review decision may name. */
  predicate IsReviewAction(action: Action) {
    action != SaveDraft && action != Submit && action != Resubmit
  }

  datatype Content = Content(
    text: string,
    contentDeclarationAccepted: bool,
    jurisdictionAcknowledged: bool,
    provenanceDeclarationAccepted: bool,
    rightsDeclarationAccepted: bool)

  /** The submission schema: every declaration is accepted. */
  predicate Submittable(draft: Content) {
    && draft.contentDeclarationAccepted
    && draft.jurisdictionAcknowledged
    && draft.provenanceDeclarationAccepted
    && draft.rightsDeclarationAccepted
  }

  datatype Application = Application(id: Uuid, applicant: Uuid, state: State, draft: Content, revision: nat)

  datatype Snapshot = Snapshot(id: Uuid, application: Uuid, sequence: int, payload: Content, contactEmail: string)

  datatype Event = Event(
    application: Uuid,
    snapshotId: Option<Uuid>,
    actor: Uuid,
    action: Action,
    previousState: State,
    nextState: State,
    key: string,
    fingerprint: string)

  /** The three tables; `byApplicant` is the unique index on the applicant column. */
  datatype Db = Db(
    applications: map<Uuid, Application>,
    byApplicant: map<Uuid, Uuid>,
    snapshots: seq<Snapshot>,
    events: seq<Event>)

  const EMPTY_DB := Db(map[], map[], [], [])

  datatype Context = Context(actor: Uuid, key: string, fingerprint: string)

  datatype Identity = Identity(email: string, emailVerified: bool)

  /**
   `InvalidInput` and the two violations are thrown; a thrown transaction is rolled back, as is one that is dropped with
   its connection.
   */
  datatype Outcome =
    | Changed(application: Application)
    | Replayed(application: Application)
    | Conflict
    | ContactUnverified
    | Forbidden
    | NotFound
    | InvalidInput
    | DuplicateId
    | DuplicateKey
    | Dropped

  /** A request, with what its transaction reads from tables that are not its own. */
  datatype Request =
    | SaveDraftRequest(context: Context, applicationId: Uuid, draft: Content)
    | SubmitRequest(context: Context, identity: Option<Identity>, snapshotId: Uuid)
    | ReviewRequest(context: Context, applicationId: Uuid, action: Action, allowedRoles: set<string>,
                    activeRoles: set<string>, identity: Option<Identity>)

  // ----- Queries -----

  function FindKey(events: seq<Event>, key: string): Option<Event> {
    if events == [] then None
    else if events[|events| - 1].key == key then Some(events[|events| - 1])
    else FindKey(events[..|events| - 1], key)
  }

  function SnapshotsOf(snapshots: seq<Snapshot>, application: Uuid): seq<Snapshot> {
    if snapshots == [] then []
    else
      var front, last := snapshots[..|snapshots| - 1], snapshots[|snapshots| - 1];
      SnapshotsOf(front, application) + if last.application == application then [last] else []
  }

  function EventsOf(events: seq<Event>, application: Uuid): seq<Event> {
    if events == [] then []
    else
      var front, last := events[..|events| - 1], events[|events| - 1];
      EventsOf(front, application) + if last.application == application then [last] else []
  }

  /** The snapshot with the highest sequence number. */
  function Latest(snapshots: seq<Snapshot>): Option<Snapshot> {
    if snapshots == [] then None
    else
      var front, last := snapshots[..|snapshots| - 1], snapshots[|snapshots| - 1];
      match Latest(front)
      case Some(s) => if s.sequence > last.sequence then Some(s) else Some(last)
      case None => Some(last)
  }

  function ApplicationOf(db: Db, applicant: Uuid): Option<Application> {
    if applicant in db.byApplicant && db.byApplicant[applicant] in db.applications
    then Some(db.applications[db.byApplicant[applicant]]) else None
  }

  function ApplicationById(db: Db, id: Uuid): Option<Application> {
    if id in db.applications then Some(db.applications[id]) else None
  }

  /** The replay check: nothing for an unused key, otherwise how a repeated request ends. */
  function Replay(db: Db, context: Context, target: Option<Uuid>): Option<Outcome> {
    match FindKey(db.events, context.key)
    case None => None
    case Some(event) =>
      if event.actor != context.actor || event.fingerprint != context.fingerprint ||
         (target.Some? && event.application != target.value) then Some(Conflict)
      else match ApplicationById(db, event.application)
        case None => Some(Conflict)
        case Some(application) => Some(Replayed(application))
  }

  // ----- The writing half of each transaction, on the row it holds -----

  function Logged(db: Db, context: Context, application: Application, previousState: State, action: Action,
                  snapshotId: Option<Uuid>): (Db, Outcome)
  {
    if FindKey(db.events, context.key).Some? then (db, DuplicateKey)
    else (db.(applications := db.applications[application.id := application],
              events := db.events + [Event(application.id, snapshotId, context.actor, action, previousState,
                                           application.state, context.key, context.fingerprint)]),
          Changed(application))
  }

  function SaveDraftWrite(db: Db, r: Request, existing: Option<Application>): (Db, Outcome)
    requires r.SaveDraftRequest?
  {
    match existing
    case Some(application) =>
      if !Editable(application.state) then (db, Conflict)
      else Logged(db, r.context, application.(draft := r.draft, revision := application.revision + 1),
                  application.state, SaveDraft, None)
    case None =>
      if r.applicationId in db.applications then (db, DuplicateId)
      else
        var (saved, outcome) := Logged(db, r.context, Application(r.applicationId, r.context.actor, Draft, r.draft, 1),
                                       Draft, SaveDraft, None);
        (if outcome.Changed? then saved.(byApplicant := saved.byApplicant[r.context.actor := r.applicationId]) else db,
         outcome)
  }

  function SubmitWrite(db: Db, r: Request, application: Application): (Db, Outcome)
    requires r.SubmitRequest?
  {
    if !Submittable(application.draft) then (db, InvalidInput)
    else
      var action := if application.state == Draft then Submit else Resubmit;
      match Resolve(application.state, action)
      case None => (db, Conflict)
      case Some(nextState) =>
        if r.identity.None? || !r.identity.value.emailVerified then (db, ContactUnverified)
        else
          var latest := Latest(SnapshotsOf(db.snapshots, application.id));
          var sequence := (match latest case Some(s) => s.sequence case None => 0) + 1;
          var snapshot := Snapshot(r.snapshotId, application.id, sequence, application.draft, r.identity.value.email);
          var (saved, outcome) := Logged(db, r.context, application.(state := nextState), application.state, action,
                                         Some(r.snapshotId));
          (if outcome.Changed? then saved.(snapshots := saved.snapshots + [snapshot]) else db, outcome)
  }

  function ReviewWrite(db: Db, r: Request, application: Application): (Db, Outcome)
    requires r.ReviewRequest?
  {
    if application.applicant == r.context.actor then (db, Forbidden)
    else if r.allowedRoles == {} then (db, Forbidden)
    else if r.allowedRoles * r.activeRoles == {} then (db, Forbidden)
    else match Resolve(application.state, r.action)
      case None => (db, Conflict)
      case Some(nextState) =>
        match Latest(SnapshotsOf(db.snapshots, application.id))
        case None => (db, Conflict)
        case Some(latest) =>
          if r.action == Approve && (r.identity.None? || !r.identity.value.emailVerified) then (db, ContactUnverified)
          else Logged(db, r.context, application.(state := nextState), application.state, r.action, Some(latest.id))
  }

  // ----- Whole transactions -----

  /** The row a request works on. */
  function RowFor(db: Db, r: Request): Option<Application> {
    if r.ReviewRequest? then ApplicationById(db, r.applicationId) else ApplicationOf(db, r.context.actor)
  }

  function Write(db: Db, r: Request, row: Option<Application>): (Db, Outcome) {
    match r
    case SaveDraftRequest(_, _, _) => SaveDraftWrite(db, r, row)
    case SubmitRequest(_, _, _) => if row.None? then (db, NotFound) else SubmitWrite(db, r, row.value)
    case ReviewRequest(_, _, _, _, _, _) => if row.None? then (db, NotFound) else ReviewWrite(db, r, row.value)
  }

  /** The application a first replay check is bound to. */
  function ReplayTarget(r: Request): Option<Uuid> {
    if r.ReviewRequest? then Some(r.applicationId) else None
  }

  predicate WellFormed(r: Request) {
    r.ReviewRequest? ==> IsReviewAction(r.action)
  }

  /** One transaction from start to commit with no other in between. */
  function Apply(db: Db, r: Request): (Db, Outcome) {
    if !WellFormed(r) then (db, InvalidInput)
    else match Replay(db, r.context, ReplayTarget(r))
      case Some(outcome) => (db, outcome)
      case None => Write(db, r, RowFor(db, r))
  }

  function Run(db: Db, requests: seq<Request>): Db
    decreases |requests|
  {
    if requests == [] then db else Apply(Run(db, requests[..|requests| - 1]), requests[|requests| - 1]).0
  }
}
