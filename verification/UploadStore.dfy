/** The upload repository, which keeps what `UploadProtocol` proves of every run. */
module UploadStore {
  import opened Common
  import opened UploadIntents
  import UploadProtocol

  lemma FindsIntents(t: Tables, user: Uuid, key: string)
    requires UploadProtocol.TablesOk(t)
    ensures forall i | i in t.intents && IsFor(t.intents[i], user, key) :: IntentOfKey(t, user, key) == Some(i)
    ensures (forall i | i in t.intents :: !IsFor(t.intents[i], user, key)) ==> IntentOfKey(t, user, key) == None
  {
    hide UploadProtocol.IntentOk;
  }

  class UploadRepository {
    var intents: map<Uuid, Intent>
    var assets: map<Uuid, Asset>
    var outbox: seq<ProcessingEvent>

    ghost function State(): Tables
      reads this
    {
      Tables(intents, assets, outbox)
    }

    ghost predicate Valid()
      reads this
    {
      UploadProtocol.TablesOk(State())
    }

    constructor ()
      ensures State() == NO_ROWS && Valid()
    {
      intents, assets, outbox := map[], map[], [];
    }

    method ReserveIntent(r: Reservation, limit: nat) returns (result: ReserveResult)
      requires Valid()
      modifies this
      ensures (State(), result) == Reserve(old(State()), r, limit)
      ensures Valid()
    {
      UploadProtocol.ReserveKeepsTables(State(), r, limit);
      FindsIntents(State(), r.intent.userId, r.intent.idempotencyKey);
      hide UploadProtocol.TablesOk, UploadProtocol.Extends, IntentOfKey, IsFor, InsertFails, Active;
      var user, key := r.intent.userId, r.intent.idempotencyKey;
      if i :| i in intents && IsFor(intents[i], user, key) {
        var existing := intents[i];
        if existing.fingerprint != r.intent.fingerprint {
          return ReserveConflict;
        }
        if existing.state == Reserved && existing.expiresAt > r.createdAt {
          return ReservedBefore(existing);
        }
        if existing.state != Failed {
          return ReserveConflict;
        }
        var retried := existing.(expiresAt := r.intent.expiresAt, state := Reserved);
        intents := intents[i := retried];
        return ReservedNow(retried);
      }
      var active := Active(Tables(intents, assets, outbox), user, r.createdAt);
      if |active| >= limit {
        return QuotaExceeded;
      }
      if InsertFails(Tables(intents, assets, outbox), r.intent) {
        return ReserveFailed;
      }
      var inserted := r.intent.(state := Reserved);
      intents := intents[inserted.id := inserted];
      return ReservedNow(inserted);
    }

    method MarkFailed(intentId: Uuid, user: Uuid)
      requires Valid()
      modifies this
      ensures State() == MarkSigningFailed(old(State()), intentId, user)
      ensures Valid()
    {
      UploadProtocol.MarkKeepsTables(State(), intentId, user);
      hide UploadProtocol.TablesOk, UploadProtocol.Extends;
      if intentId in intents && intents[intentId].userId == user && intents[intentId].state == Reserved {
        intents := intents[intentId := intents[intentId].(state := Failed)];
      }
    }

    /** What the service checks of the stored object before it completes the intent. */
    predicate FitsIntent(c: Completion)
      reads this
    {
      c.intentId in intents ==> c.stored.contentLength == intents[c.intentId].byteLength
    }

    method CompleteIntent(c: Completion) returns (result: CompleteResult)
      requires Valid()
      modifies this
      ensures (State(), result) == Complete(old(State()), c)
      ensures old(FitsIntent(c)) ==> Valid()
    {
      if FitsIntent(c) {
        UploadProtocol.CompleteKeepsTables(State(), c);
      }
      hide UploadProtocol.TablesOk, UploadProtocol.Extends;
      if c.event.assetId != c.assetId || c.event.intentId != c.intentId {
        return CompleteFailed;
      }
      if c.intentId !in intents || intents[c.intentId].userId != c.user {
        return Unavailable;
      }
      var intent := intents[c.intentId];
      if c.intentId in assets {
        return CompletedBefore(assets[c.intentId].id);
      }
      if intent.state != Reserved || intent.expiresAt <= c.completedAt || intent.storageProviderId != c.stored.providerId {
        return Unavailable;
      }
      if IdsTaken(Tables(intents, assets, outbox), c) {
        return CompleteFailed;
      }
      assets := assets[c.intentId := Asset(c.assetId, intent.id, intent.userId, c.stored.providerId, intent.objectKey,
                                           c.stored.contentLength)];
      intents := intents[c.intentId := intent.(state := Completed)];
      outbox := outbox + [c.event];
      return CompletedNow(c.assetId);
    }
  }
}
