/** Every answer of the upload transactions and of a completion call, told by the tables, and what each leaves in them. */
module UploadLaws {
  import opened Common
  import opened UploadIntents
  import opened UploadProtocol

  // ----- Reservations -----

  predicate HasKey(t: Tables, i: Uuid, r: Reservation) {
    && i in t.intents && t.intents[i].userId == r.intent.userId
    && t.intents[i].idempotencyKey == r.intent.idempotencyKey
  }

  /** The user's reserved intents that are still in time count against the limit. */
  predicate Counts(t: Tables, i: Uuid, r: Reservation) {
    && i in t.intents && t.intents[i].userId == r.intent.userId && t.intents[i].state == Reserved
    && r.createdAt < t.intents[i].expiresAt
  }

  /** The id or the object key is in use. */
  ghost predicate Taken(t: Tables, r: Reservation) {
    r.intent.id in t.intents || exists i | i in t.intents :: t.intents[i].objectKey == r.intent.objectKey
  }

  /** What a reservation of a key already used is answered, and that only a failed intent of the same request is changed. */
  lemma ReserveWithKey(t: Tables, r: Reservation, limit: nat, i: Uuid)
    requires TablesOk(t) && HasKey(t, i, r)
    ensures var ((t', answer), kept) := (Reserve(t, r, limit), t.intents[i]);
            && (answer == ReserveConflict <==>
                  kept.fingerprint != r.intent.fingerprint || kept.state == Completed || kept.state == Cancelled
                  || (kept.state == Reserved && kept.expiresAt <= r.createdAt))
            && (answer == ReservedBefore(kept) <==>
                  kept.fingerprint == r.intent.fingerprint && kept.state == Reserved && r.createdAt < kept.expiresAt)
            && (kept.fingerprint == r.intent.fingerprint && kept.state == Failed ==>
                  && answer.ReservedNow? && t' == t.(intents := t.intents[i := answer.intent])
                  && answer.intent == kept.(state := Reserved, expiresAt := r.intent.expiresAt))
            && (answer.ReservedNow? ==> kept.fingerprint == r.intent.fingerprint && kept.state == Failed)
            && (answer.ReservedNow? || answer.ReservedBefore? || answer.ReserveConflict?)
            && (!answer.ReservedNow? ==> t' == t)
  {
    FindsIntent(t, i);
    hide TablesOk, Active, InsertFails, IntentOfKey;
  }

  /** What a reservation of a new key is answered: the limit first, then the unique indexes; and what it inserts. */
  lemma ReserveWithoutKey(t: Tables, r: Reservation, limit: nat)
    requires forall i :: !HasKey(t, i, r)
    ensures var (t', answer) := Reserve(t, r, limit);
            var counted := |set i | i in t.intents && Counts(t, i, r)|;
            && (answer == QuotaExceeded <==> limit <= counted)
            && (answer == ReserveFailed <==> counted < limit && Taken(t, r))
            && (answer.ReservedNow? <==> counted < limit && !Taken(t, r))
            && (answer.ReservedNow? ==>
                  && answer.intent == r.intent.(state := Reserved)
                  && t' == t.(intents := t.intents[r.intent.id := answer.intent]))
            && (!answer.ReservedNow? ==> t' == t)
  {
    assert (set i | i in t.intents && Counts(t, i, r)) == Active(t, r.intent.userId, r.createdAt);
    assert forall i | i in t.intents && IsFor(t.intents[i], r.intent.userId, r.intent.idempotencyKey) :: HasKey(t, i, r);
    hide Active, Counts;
  }

  /**
   The quota is what refuses a reservation exactly when the user has no intent of the key and as many reserved intents in
   time as the limit allows, or more.
   */
  lemma QuotaExceededIff(t: Tables, r: Reservation, limit: nat)
    requires TablesOk(t)
    ensures Reserve(t, r, limit).1 == QuotaExceeded <==>
            && (forall i :: !HasKey(t, i, r))
            && limit <= |set i | i in t.intents && Counts(t, i, r)|
  {
    hide TablesOk, HasKey, Counts, Reserve;
    if i :| HasKey(t, i, r) {
      ReserveWithKey(t, r, limit, i);
    } else {
      ReserveWithoutKey(t, r, limit);
    }
  }

  // ----- Failed signings -----

  /** The user's own intent, if still reserved, is failed; nothing else changes. */
  lemma SigningFailure(t: Tables, intentId: Uuid, user: Uuid)
    ensures var t' := MarkSigningFailed(t, intentId, user);
            && t' == t.(intents := t'.intents) && t'.intents.Keys == t.intents.Keys
            && forall i | i in t.intents ::
                 t'.intents[i] == if i == intentId && t.intents[i].userId == user && t.intents[i].state == Reserved
                                  then t.intents[i].(state := Failed) else t.intents[i]
  {
  }

  // ----- Completions -----

  /** The new asset and the new event have ids of their own. */
  ghost predicate FreshIds(t: Tables, c: Completion) {
    && (forall i | i in t.assets :: t.assets[i].id != c.assetId)
    && (forall k | 0 <= k < |t.outbox| :: t.outbox[k].eventId != c.event.eventId)
  }

  /** The intent is the user's, waits in time for its object, and is kept where the object is. */
  predicate Awaits(t: Tables, c: Completion) {
    && c.intentId in t.intents && t.intents[c.intentId].userId == c.user && c.intentId !in t.assets
    && t.intents[c.intentId].state == Reserved && c.completedAt < t.intents[c.intentId].expiresAt
    && t.intents[c.intentId].storageProviderId == c.stored.providerId
  }

  predicate WasCompleted(t: Tables, c: Completion) {
    c.intentId in t.intents && t.intents[c.intentId].userId == c.user && c.intentId in t.assets
  }

  /** Every answer to a completion whose event matches it. Only `CompletedNow` changes anything. */
  lemma CompleteAnswers(t: Tables, c: Completion)
    requires c.event.assetId == c.assetId && c.event.intentId == c.intentId
    ensures var (t', answer) := Complete(t, c);
            && (answer == CompletedNow(c.assetId) <==> Awaits(t, c) && FreshIds(t, c))
            && (answer == CompleteFailed <==> Awaits(t, c) && !FreshIds(t, c))
            && (answer.CompletedBefore? <==> WasCompleted(t, c))
            && (answer.CompletedBefore? ==> answer.assetId == t.assets[c.intentId].id)
            && (answer == Unavailable <==> !Awaits(t, c) && !WasCompleted(t, c))
            && (answer != CompletedNow(c.assetId) ==> t' == t)
  {
  }

  /** An event about another asset or intent is refused first of all. */
  lemma MismatchedEventFails(t: Tables, c: Completion)
    requires c.event.assetId != c.assetId || c.event.intentId != c.intentId
    ensures Complete(t, c) == (t, CompleteFailed)
  {
  }

  /** What a completion leaves: the intent completed, the asset as it was found in the storage, and one event. */
  lemma CompleteEffect(t: Tables, c: Completion)
    requires Complete(t, c).1.CompletedNow?
    ensures var t' := Complete(t, c).0;
            && c.intentId in t.intents
            && t'.intents == t.intents[c.intentId := t.intents[c.intentId].(state := Completed)]
            && t'.assets.Keys == t.assets.Keys + {c.intentId}
            && (forall i | i in t.assets && i != c.intentId :: t'.assets[i] == t.assets[i])
            && t'.assets[c.intentId].id == c.assetId && t'.assets[c.intentId].intentId == t.intents[c.intentId].id
            && t'.assets[c.intentId].objectKey == t.intents[c.intentId].objectKey
            && t'.assets[c.intentId].userId == t.intents[c.intentId].userId
            && t'.assets[c.intentId].observedByteLength == c.stored.contentLength
            && t'.assets[c.intentId].storageProviderId == c.stored.providerId
            && |t'.outbox| == |t.outbox| + 1 && t'.outbox[..|t.outbox|] == t.outbox
            && t'.outbox[|t.outbox|].eventId == c.event.eventId
            && t'.outbox[|t.outbox|].assetId == c.assetId && t'.outbox[|t.outbox|].intentId == c.intentId
  {
    hide IdsTaken;
  }

  // ----- Completion calls -----

  /** A call reads the intent if it is its user's, and ends otherwise. */
  lemma StartAnswers(s: System, call: Uuid, intentId: Uuid, user: Uuid, now: Instant, limit: nat, provider: string)
    requires call !in s.calls
    ensures var s' := Step(s, StartCompletion(call, intentId, user, now), limit, provider);
            && s'.tables == s.tables && call in s'.calls
            && s'.calls[call] == if intentId in s.tables.intents && s.tables.intents[intentId].userId == user
                                 then IntentRead(user, now, s.tables.intents[intentId]) else Ended(intentId, Unavailable)
  {
  }

  /** The second read: an asset ends the call with it; an intent no longer open, or kept elsewhere, ends it without. */
  lemma ReadAnswers(s: System, call: Uuid, limit: nat, provider: string)
    requires call in s.calls && s.calls[call].IntentRead?
    ensures var (s', c) := (Step(s, ReadAsset(call), limit, provider), s.calls[call]);
            var open := && c.intent.state == Reserved && c.completedAt < c.intent.expiresAt
                        && c.intent.storageProviderId == provider;
            && s'.tables == s.tables && call in s'.calls
            && (c.intent.id in s.tables.assets ==>
                  s'.calls[call] == Ended(c.intent.id, CompletedBefore(s.tables.assets[c.intent.id].id)))
            && (c.intent.id !in s.tables.assets && !open ==> s'.calls[call] == Ended(c.intent.id, Unavailable))
            && (c.intent.id !in s.tables.assets && open ==> s'.calls[call] == Prepared(c.user, c.completedAt, c.intent))
  {
  }

  /** A stored object fits exactly if it has the length reserved, from 1 byte up to what is exact, and neither text blank. */
  predicate Fits(intent: Intent, stored: StoredObject) {
    && stored.contentLength == intent.byteLength
    && stored.contentLength >= 1 && stored.contentLength <= 9_007_199_254_740_991
    && (exists ch :: ch in stored.contentType && !IsWhiteSpace(ch))
    && (exists ch :: ch in stored.entityTag && !IsWhiteSpace(ch))
  }

  /** The last part of a call: no object, an object that does not fit, or the transaction with what the call has read. */
  lemma FinishAnswers(s: System, call: Uuid, head: Option<StoredObject>, assetId: Uuid, eventId: Uuid, limit: nat,
                      provider: string)
    requires call in s.calls && s.calls[call].Prepared?
    ensures var (s', c) := (Step(s, Finish(call, head, assetId, eventId), limit, provider), s.calls[call]);
            && call in s'.calls && s'.calls[call].Ended? && s'.calls[call].intentId == c.intent.id
            && (s'.calls[call].result == MissingObject <==> head == None)
            && (s'.calls[call].result == InvalidObject <==> head.Some? && !Fits(c.intent, head.value))
            && (head.Some? && Fits(c.intent, head.value) ==>
                  (s'.tables, s'.calls[call].result) ==
                  Complete(s.tables, Completion(c.intent.id, c.user, assetId, c.completedAt,
                                                head.value.(providerId := provider),
                                                ProcessingEvent(eventId, assetId, c.intent.id))))
            && (head == None || !Fits(c.intent, head.value) ==> s'.tables == s.tables)
  {
    if head.Some? {
      FitsIffAcceptable(s.calls[call].intent, head.value);
    }
    hide Fits, AcceptableObject;
  }

  lemma FitsIffAcceptable(intent: Intent, stored: StoredObject)
    ensures Fits(intent, stored) <==> AcceptableObject(intent, stored)
  {
  }
}
