/** Upload intents, assets and processing events: the repository's transactions and the service calls around them. */
module UploadIntents {
  import opened Common

  datatype IntentState = Reserved | Completed | Cancelled | Failed

  datatype Intent = Intent(
    id: Uuid,
    userId: Uuid,
    byteLength: int,
    contentType: string,
    storageProviderId: string,
    objectKey: string,
    idempotencyKey: string,
    fingerprint: string,
    expiresAt: Instant,
    state: IntentState)

  datatype Asset = Asset(id: Uuid, intentId: Uuid, userId: Uuid, storageProviderId: string, objectKey: string,
                         observedByteLength: int)

  /** The outbox row that asks for processing; its payload names the asset and the intent. */
  datatype ProcessingEvent = ProcessingEvent(eventId: Uuid, assetId: Uuid, intentId: Uuid)

  /** `assets` is keyed by its unique index on the intent. */
  datatype Tables = Tables(intents: map<Uuid, Intent>, assets: map<Uuid, Asset>, outbox: seq<ProcessingEvent>)

  const NO_ROWS := Tables(map[], map[], [])

  // ----- reserve -----

  datatype Reservation = Reservation(intent: Intent, createdAt: Instant)

  datatype ReserveResult =
    | ReservedNow(intent: Intent)
    | ReservedBefore(intent: Intent)
    | ReserveConflict
    | QuotaExceeded
    | ReserveFailed

  function Active(t: Tables, user: Uuid, at: Instant): set<Uuid> {
    set i | i in t.intents && t.intents[i].userId == user && t.intents[i].state == Reserved && t.intents[i].expiresAt > at
  }

  predicate IsFor(intent: Intent, user: Uuid, key: string) {
    intent.userId == user && intent.idempotencyKey == key
  }

  /** The intent of a user's idempotency key; the unique index allows one. */
  ghost function IntentOfKey(t: Tables, user: Uuid, key: string): Option<Uuid> {
    if i :| i in t.intents && IsFor(t.intents[i], user, key) then Some(i) else None
  }

  /** A row with this id, or another with this object key, makes the insert fail. */
  predicate InsertFails(t: Tables, intent: Intent) {
    intent.id in t.intents || exists i | i in t.intents :: t.intents[i].objectKey == intent.objectKey
  }

  function Revived(existing: Intent, wanted: Intent): Intent {
    existing.(expiresAt := wanted.expiresAt, state := Reserved)
  }

  ghost function Reserve(t: Tables, r: Reservation, limit: nat): (Tables, ReserveResult) {
    match IntentOfKey(t, r.intent.userId, r.intent.idempotencyKey)
    case Some(i) =>
      var existing := t.intents[i];
      if existing.fingerprint != r.intent.fingerprint then (t, ReserveConflict)
      else if existing.state == Reserved && existing.expiresAt > r.createdAt then (t, ReservedBefore(existing))
      else if existing.state != Failed then (t, ReserveConflict)
      else (t.(intents := t.intents[i := Revived(existing, r.intent)]), ReservedNow(Revived(existing, r.intent)))
    case None =>
      if |Active(t, r.intent.userId, r.createdAt)| >= limit then (t, QuotaExceeded)
      else if InsertFails(t, r.intent) then (t, ReserveFailed)
      else
        var inserted := r.intent.(state := Reserved);
        (t.(intents := t.intents[inserted.id := inserted]), ReservedNow(inserted))
  }

  // ----- markSigningFailed -----

  function MarkSigningFailed(t: Tables, intentId: Uuid, user: Uuid): Tables {
    if intentId in t.intents && t.intents[intentId].userId == user && t.intents[intentId].state == Reserved
    then t.(intents := t.intents[intentId := t.intents[intentId].(state := Failed)]) else t
  }

  // ----- complete -----

  datatype StoredObject = StoredObject(contentLength: int, contentType: string, entityTag: string, providerId: string)

  datatype Completion = Completion(intentId: Uuid, user: Uuid, assetId: Uuid, completedAt: Instant, stored: StoredObject,
                                   event: ProcessingEvent)

  datatype CompleteResult =
    | CompletedNow(assetId: Uuid)
    | CompletedBefore(assetId: Uuid)
    | Unavailable
    | MissingObject
    | InvalidObject
    | CompleteFailed

  predicate IdsTaken(t: Tables, c: Completion) {
    || (exists i | i in t.assets :: t.assets[i].id == c.assetId)
    || (exists k | 0 <= k < |t.outbox| :: t.outbox[k].eventId == c.event.eventId)
  }

  function AssetOf(intent: Intent, c: Completion): Asset {
    Asset(c.assetId, intent.id, intent.userId, c.stored.providerId, intent.objectKey, c.stored.contentLength)
  }

  function Complete(t: Tables, c: Completion): (Tables, CompleteResult) {
    if c.event.assetId != c.assetId || c.event.intentId != c.intentId then (t, CompleteFailed)
    else if c.intentId !in t.intents || t.intents[c.intentId].userId != c.user then (t, Unavailable)
    else if c.intentId in t.assets then (t, CompletedBefore(t.assets[c.intentId].id))
    else
      var intent := t.intents[c.intentId];
      if intent.state != Reserved || intent.expiresAt <= c.completedAt || intent.storageProviderId != c.stored.providerId
      then (t, Unavailable)
      else if IdsTaken(t, c) then (t, CompleteFailed)
      else
        (Tables(t.intents[c.intentId := intent.(state := Completed)],
                t.assets[c.intentId := AssetOf(intent, c)],
                t.outbox + [c.event]),
         CompletedNow(c.assetId))
  }
}
