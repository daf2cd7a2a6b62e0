/**
 Uploads under interleaving: reservations, failed signings, revivals, and any number of completion calls, each of
 which reads the intent, then the asset, then asks the storage for the object, and only then runs its transaction.
 A run is any list of moves; a move that is not possible where it stands changes nothing.
 */
module UploadProtocol {
  import opened Common
  import opened UploadIntents

  /** Where a completion call stands: what it has read so far, or how it ended. */
  datatype Call =
    | IntentRead(user: Uuid, completedAt: Instant, intent: Intent)
    | Prepared(user: Uuid, completedAt: Instant, intent: Intent)
    | Ended(intentId: Uuid, result: CompleteResult)

  /** `revived` holds the intents ever revived and `latest` the latest clock reading of a reservation; nothing reads them. */
  datatype System = System(tables: Tables, calls: map<Uuid, Call>, revived: set<Uuid>, latest: Option<Instant>)

  const NOTHING := System(NO_ROWS, map[], {}, None)

  datatype Move =
    | Create(reservation: Reservation)
    | SigningFailed(intentId: Uuid, user: Uuid)
    | StartCompletion(call: Uuid, intentId: Uuid, user: Uuid, now: Instant)
    | ReadAsset(call: Uuid)
    | Finish(call: Uuid, head: Option<StoredObject>, assetId: Uuid, eventId: Uuid)

  function Later(latest: Option<Instant>, at: Instant): Option<Instant> {
    if latest.Some? && latest.value > at then latest else Some(at)
  }

  ghost function IsRevival(t: Tables, r: Reservation): bool {
    var found := IntentOfKey(t, r.intent.userId, r.intent.idempotencyKey);
    && found.Some?
    && t.intents[found.value].fingerprint == r.intent.fingerprint
    && t.intents[found.value].state == Failed
  }

  ghost function AfterCreate(s: System, r: Reservation, limit: nat): System {
    s.(tables := Reserve(s.tables, r, limit).0,
       revived := if IsRevival(s.tables, r)
                  then s.revived + {IntentOfKey(s.tables, r.intent.userId, r.intent.idempotencyKey).value} else s.revived,
       latest := Later(s.latest, r.createdAt))
  }

  /** The second read of `findForCompletion`: an asset, or the state the intent had at the first. */
  function AfterReadAsset(s: System, call: Uuid, provider: string): System
    requires call in s.calls && s.calls[call].IntentRead?
  {
    var c := s.calls[call];
    var next :=
      if c.intent.id in s.tables.assets then Ended(c.intent.id, CompletedBefore(s.tables.assets[c.intent.id].id))
      else if c.intent.state != Reserved || c.intent.expiresAt <= c.completedAt then Ended(c.intent.id, Unavailable)
      else if c.intent.storageProviderId != provider then Ended(c.intent.id, Unavailable)
      else Prepared(c.user, c.completedAt, c.intent);
    s.(calls := s.calls[call := next])
  }

  predicate AcceptableObject(intent: Intent, stored: StoredObject) {
    && stored.contentLength == intent.byteLength
    && 1 <= stored.contentLength <= MAX_SAFE_INTEGER
    && !IsBlank(stored.contentType)
    && !IsBlank(stored.entityTag)
  }

  function CompletionOf(c: Call, stored: StoredObject, assetId: Uuid, eventId: Uuid, provider: string): Completion
    requires c.Prepared?
  {
    Completion(c.intent.id, c.user, assetId, c.completedAt, stored.(providerId := provider),
               ProcessingEvent(eventId, assetId, c.intent.id))
  }

  function AfterFinish(s: System, call: Uuid, head: Option<StoredObject>, assetId: Uuid, eventId: Uuid, provider: string): System
    requires call in s.calls && s.calls[call].Prepared?
  {
    var c := s.calls[call];
    if head.None? then s.(calls := s.calls[call := Ended(c.intent.id, MissingObject)])
    else if !AcceptableObject(c.intent, head.value) then s.(calls := s.calls[call := Ended(c.intent.id, InvalidObject)])
    else
      var (tables, result) := Complete(s.tables, CompletionOf(c, head.value, assetId, eventId, provider));
      s.(tables := tables, calls := s.calls[call := Ended(c.intent.id, result)])
  }

  ghost function Step(s: System, m: Move, limit: nat, provider: string): System {
    match m
    case Create(r) => AfterCreate(s, r, limit)
    case SigningFailed(intentId, user) => s.(tables := MarkSigningFailed(s.tables, intentId, user))
    case StartCompletion(call, intentId, user, now) =>
      if call in s.calls then s
      else if intentId !in s.tables.intents || s.tables.intents[intentId].userId != user
      then s.(calls := s.calls[call := Ended(intentId, Unavailable)])
      else s.(calls := s.calls[call := IntentRead(user, now, s.tables.intents[intentId])])
    case ReadAsset(call) =>
      if call in s.calls && s.calls[call].IntentRead? then AfterReadAsset(s, call, provider) else s
    case Finish(call, head, assetId, eventId) =>
      if call in s.calls && s.calls[call].Prepared? then AfterFinish(s, call, head, assetId, eventId, provider) else s
  }

  ghost function Run(moves: seq<Move>, limit: nat, provider: string): System {
    if moves == [] then NOTHING
    else Step(Run(moves[..|moves| - 1], limit, provider), moves[|moves| - 1], limit, provider)
  }

  // ----- Exactly once -----

  function EventsFor(outbox: seq<ProcessingEvent>, intentId: Uuid): seq<ProcessingEvent> {
    if outbox == [] then []
    else
      var front, last := outbox[..|outbox| - 1], outbox[|outbox| - 1];
      EventsFor(front, intentId) + if last.intentId == intentId then [last] else []
  }

  lemma EventsForSnoc(outbox: seq<ProcessingEvent>, e: ProcessingEvent, intentId: Uuid)
    ensures EventsFor(outbox + [e], intentId) ==
            if e.intentId == intentId then EventsFor(outbox, intentId) + [e] else EventsFor(outbox, intentId)
  {
    assert (outbox + [e])[..|outbox|] == outbox;
  }

  /** An intent is completed, has its asset and has its one processing event all together, or none of these. */
  ghost predicate IntentOk(t: Tables, i: Uuid)
    requires i in t.intents
  {
    var intent := t.intents[i];
    && intent.id == i
    && (intent.state == Completed <==> i in t.assets)
    && (i in t.assets ==>
          && t.assets[i].intentId == i
          && t.assets[i].objectKey == intent.objectKey
          && t.assets[i].userId == intent.userId
          && t.assets[i].storageProviderId == intent.storageProviderId
          && t.assets[i].observedByteLength == intent.byteLength
          && |EventsFor(t.outbox, i)| == 1
          && EventsFor(t.outbox, i)[0].assetId == t.assets[i].id)
    && (i !in t.assets ==> EventsFor(t.outbox, i) == [])
  }

  /** No user has two intents of one idempotency key. */
  ghost predicate KeysOwn(t: Tables) {
    forall i, j | i in t.intents && j in t.intents &&
                  IsFor(t.intents[j], t.intents[i].userId, t.intents[i].idempotencyKey) :: i == j
  }

  ghost predicate TablesOk(t: Tables) {
    && t.assets.Keys <= t.intents.Keys
    && (forall k | 0 <= k < |t.outbox| :: t.outbox[k].intentId in t.intents)
    && (forall i | i in t.intents :: IntentOk(t, i))
    && KeysOwn(t)
  }

  /** The parts of an intent that no operation changes. */
  predicate SameIntent(one: Intent, other: Intent) {
    && one.id == other.id && one.userId == other.userId && one.byteLength == other.byteLength
    && one.contentType == other.contentType && one.storageProviderId == other.storageProviderId
    && one.objectKey == other.objectKey && one.idempotencyKey == other.idempotencyKey && one.fingerprint == other.fingerprint
  }

  ghost predicate CallOk(t: Tables, c: Call) {
    match c
    case IntentRead(_, _, intent) => intent.id in t.intents && SameIntent(intent, t.intents[intent.id])
    case Prepared(_, _, intent) => intent.id in t.intents && SameIntent(intent, t.intents[intent.id])
    case Ended(i, CompletedNow(a)) => i in t.assets && t.assets[i].id == a
    case Ended(i, CompletedBefore(a)) => i in t.assets && t.assets[i].id == a
    case Ended(_, _) => true
  }

  /** What later tables keep of earlier ones. */
  ghost predicate Extends(t: Tables, t': Tables) {
    && (forall i | i in t.intents :: i in t'.intents && SameIntent(t.intents[i], t'.intents[i]))
    && (forall i | i in t.assets :: i in t'.assets && t'.assets[i] == t.assets[i])
  }

  ghost predicate Inv(s: System) {
    && TablesOk(s.tables)
    && forall c | c in s.calls :: CallOk(s.tables, s.calls[c])
  }

  lemma {:induction false} NoEventsFor(outbox: seq<ProcessingEvent>, intentId: Uuid)
    requires forall k | 0 <= k < |outbox| :: outbox[k].intentId != intentId
    ensures EventsFor(outbox, intentId) == []
  {
    if outbox != [] {
      NoEventsFor(outbox[..|outbox| - 1], intentId);
    }
  }

  lemma ReserveKeepsIntent(t: Tables, r: Reservation, limit: nat, i: Uuid)
    requires TablesOk(t) && i in Reserve(t, r, limit).0.intents
    ensures IntentOk(Reserve(t, r, limit).0, i)
  {
    hide EventsFor, Active;
    if i in t.intents {
      assert IntentOk(t, i);
    } else {
      NoEventsFor(t.outbox, i);
    }
  }

  /**
   What any change of one intent keeps: it stays what it was but for state and expiry, or it is new with a key of its
   own.
   */
  ghost predicate OneIntentChanged(t: Tables, t': Tables, i: Uuid) {
    && t'.intents.Keys == t.intents.Keys + {i}
    && (forall j | j in t.intents && j != i :: t'.intents[j] == t.intents[j])
    && (i in t.intents ==> SameIntent(t.intents[i], t'.intents[i]))
    && (i !in t.intents ==>
          forall j | j in t.intents :: !IsFor(t.intents[j], t'.intents[i].userId, t'.intents[i].idempotencyKey))
  }

  lemma ChangeKeepsKeys(t: Tables, t': Tables, i: Uuid)
    requires KeysOwn(t) && OneIntentChanged(t, t', i)
    ensures KeysOwn(t')
  {
    forall a, b | a in t'.intents && b in t'.intents && IsFor(t'.intents[b], t'.intents[a].userId, t'.intents[a].idempotencyKey)
      ensures a == b
    {
      if a in t.intents && b in t.intents {
        assert SameIntent(t.intents[a], t'.intents[a]) && SameIntent(t.intents[b], t'.intents[b]);
      }
    }
  }

  lemma ChangeExtends(t: Tables, t': Tables, i: Uuid)
    requires OneIntentChanged(t, t', i) && forall a | a in t.assets :: a in t'.assets && t'.assets[a] == t.assets[a]
    ensures Extends(t, t')
  {
  }

  lemma ReserveChangesOne(t: Tables, r: Reservation, limit: nat)
    ensures var t' := Reserve(t, r, limit).0;
            && t'.assets == t.assets && t'.outbox == t.outbox
            && (t' == t || exists i :: OneIntentChanged(t, t', i))
  {
    var t' := Reserve(t, r, limit).0;
    hide Active;
    if t' != t {
      match IntentOfKey(t, r.intent.userId, r.intent.idempotencyKey) {
        case Some(i) => assert OneIntentChanged(t, t', i);
        case None => assert OneIntentChanged(t, t', r.intent.id);
      }
    }
  }

  lemma ReserveKeepsKeys(t: Tables, r: Reservation, limit: nat)
    requires KeysOwn(t)
    ensures Extends(t, Reserve(t, r, limit).0) && KeysOwn(Reserve(t, r, limit).0)
    ensures Reserve(t, r, limit).0.assets == t.assets && Reserve(t, r, limit).0.outbox == t.outbox
  {
    ReserveChangesOne(t, r, limit);
    hide *;
    var t' := Reserve(t, r, limit).0;
    SelfExtends(t);
    if t' != t {
      var i :| OneIntentChanged(t, t', i);
      ChangeKeepsKeys(t, t', i);
      ChangeExtends(t, t', i);
    }
  }

  lemma ReserveKeepsTables(t: Tables, r: Reservation, limit: nat)
    requires TablesOk(t)
    ensures TablesOk(Reserve(t, r, limit).0) && Extends(t, Reserve(t, r, limit).0)
  {
    forall i | i in Reserve(t, r, limit).0.intents
      ensures IntentOk(Reserve(t, r, limit).0, i)
    {
      ReserveKeepsIntent(t, r, limit, i);
    }
    hide IntentOk, Reserve;
    ReserveKeepsKeys(t, r, limit);
  }

  lemma MarkChangesOne(t: Tables, intentId: Uuid, user: Uuid)
    ensures var t' := MarkSigningFailed(t, intentId, user);
            && t'.assets == t.assets && t'.outbox == t.outbox
            && (t' == t ||
                (OneIntentChanged(t, t', intentId) && intentId in t.intents && t.intents[intentId].state == Reserved &&
                 t'.intents[intentId] == t.intents[intentId].(state := Failed)))
  {
  }

  lemma MarkKeepsIntent(t: Tables, intentId: Uuid, user: Uuid, i: Uuid)
    requires TablesOk(t) && i in MarkSigningFailed(t, intentId, user).intents
    ensures i in t.intents && IntentOk(MarkSigningFailed(t, intentId, user), i)
  {
    hide EventsFor;
    assert IntentOk(t, i);
  }

  lemma MarkKeepsTables(t: Tables, intentId: Uuid, user: Uuid)
    requires TablesOk(t)
    ensures TablesOk(MarkSigningFailed(t, intentId, user)) && Extends(t, MarkSigningFailed(t, intentId, user))
  {
    var t' := MarkSigningFailed(t, intentId, user);
    SelfExtends(t);
    MarkChangesOne(t, intentId, user);
    hide IntentOk, MarkSigningFailed, OneIntentChanged, Extends;
    if t' != t {
      ChangeKeepsKeys(t, t', intentId);
      ChangeExtends(t, t', intentId);
      SameKeys(t, t', intentId);
      forall i | i in t'.intents
        ensures IntentOk(t', i)
      {
        MarkKeepsIntent(t, intentId, user, i);
      }
    }
  }

  lemma SameKeys(t: Tables, t': Tables, i: Uuid)
    requires OneIntentChanged(t, t', i) && i in t.intents
    ensures t'.intents.Keys == t.intents.Keys
  {
  }

  lemma CompleteKeepsIntent(t: Tables, c: Completion, i: Uuid)
    requires TablesOk(t) && i in Complete(t, c).0.intents
    requires c.intentId in t.intents ==> c.stored.contentLength == t.intents[c.intentId].byteLength
    ensures IntentOk(Complete(t, c).0, i)
  {
    hide EventsFor, IdsTaken;
    assert IntentOk(t, i);
    EventsForSnoc(t.outbox, c.event, i);
  }

  lemma CompleteChangesOne(t: Tables, c: Completion)
    ensures var t' := Complete(t, c).0;
            && (forall a | a in t.assets :: a in t'.assets && t'.assets[a] == t.assets[a])
            && (t' == t || (c.intentId in t.intents && OneIntentChanged(t, t', c.intentId)))
            && (t' != t ==> t'.assets.Keys == t.assets.Keys + {c.intentId} && t'.outbox == t.outbox + [c.event]
                            && c.event.intentId == c.intentId)
  {
    hide IdsTaken;
  }

  lemma CompleteKeepsReferences(t: Tables, c: Completion)
    requires t.assets.Keys <= t.intents.Keys && forall k | 0 <= k < |t.outbox| :: t.outbox[k].intentId in t.intents
    ensures var t' := Complete(t, c).0;
            t'.assets.Keys <= t'.intents.Keys && forall k | 0 <= k < |t'.outbox| :: t'.outbox[k].intentId in t'.intents
  {
    CompleteChangesOne(t, c);
    hide Complete;
    if Complete(t, c).0 != t {
      SameKeys(t, Complete(t, c).0, c.intentId);
    }
  }

  lemma CompleteKeepsKeys(t: Tables, c: Completion)
    requires TablesOk(t)
    ensures Extends(t, Complete(t, c).0)
    ensures var t' := Complete(t, c).0;
            && t'.assets.Keys <= t'.intents.Keys
            && (forall k | 0 <= k < |t'.outbox| :: t'.outbox[k].intentId in t'.intents)
            && KeysOwn(t')
  {
    CompleteChangesOne(t, c);
    CompleteKeepsReferences(t, c);
    SelfExtends(t);
    hide IntentOk, Complete, OneIntentChanged, Extends;
    if Complete(t, c).0 != t {
      ChangeKeepsKeys(t, Complete(t, c).0, c.intentId);
      ChangeExtends(t, Complete(t, c).0, c.intentId);
    }
  }

  lemma CompleteKeepsTables(t: Tables, c: Completion)
    requires TablesOk(t)
    requires c.intentId in t.intents ==> c.stored.contentLength == t.intents[c.intentId].byteLength
    ensures TablesOk(Complete(t, c).0) && Extends(t, Complete(t, c).0)
  {
    CompleteKeepsKeys(t, c);
    forall i | i in Complete(t, c).0.intents
      ensures IntentOk(Complete(t, c).0, i)
    {
      CompleteKeepsIntent(t, c, i);
    }
    hide IntentOk, Complete;
  }

  lemma ExtensionKeepsCall(t: Tables, t': Tables, c: Call)
    requires Extends(t, t') && CallOk(t, c)
    ensures CallOk(t', c)
  {
  }

  lemma FinishKeepsTables(s: System, call: Uuid, head: Option<StoredObject>, assetId: Uuid, eventId: Uuid, provider: string)
    requires Inv(s) && call in s.calls && s.calls[call].Prepared?
    ensures var t' := AfterFinish(s, call, head, assetId, eventId, provider).tables; TablesOk(t') && Extends(s.tables, t')
  {
    SelfExtends(s.tables);
    assert CallOk(s.tables, s.calls[call]);
    hide TablesOk, Complete, Extends;
    if head.Some? && AcceptableObject(s.calls[call].intent, head.value) {
      AcceptedLength(s.calls[call].intent, head.value);
      CompleteKeepsTables(s.tables, CompletionOf(s.calls[call], head.value, assetId, eventId, provider));
    }
  }

  lemma StepKeepsTables(s: System, m: Move, limit: nat, provider: string)
    requires Inv(s)
    ensures var t' := Step(s, m, limit, provider).tables; TablesOk(t') && Extends(s.tables, t')
  {
    SelfExtends(s.tables);
    hide TablesOk, CallOk, Reserve, MarkSigningFailed, AfterFinish, Extends;
    match m {
      case Create(r) => ReserveKeepsTables(s.tables, r, limit);
      case SigningFailed(intentId, user) => MarkKeepsTables(s.tables, intentId, user);
      case Finish(call, head, assetId, eventId) =>
        if call in s.calls && s.calls[call].Prepared? {
          FinishKeepsTables(s, call, head, assetId, eventId, provider);
        }
      case _ =>
    }
  }

  lemma AcceptedLength(intent: Intent, stored: StoredObject)
    requires AcceptableObject(intent, stored)
    ensures stored.contentLength == intent.byteLength
  {
  }

  ghost predicate OnlyItsCall(s: System, s': System, call: Uuid) {
    forall c | c != call :: (c in s'.calls <==> c in s.calls) && (c in s.calls ==> s'.calls[c] == s.calls[c])
  }

  lemma StartedIsOk(s: System, call: Uuid, intentId: Uuid, user: Uuid, now: Instant, limit: nat, provider: string)
    requires Inv(s) && call !in s.calls
    ensures var s' := Step(s, StartCompletion(call, intentId, user, now), limit, provider);
            call in s'.calls && CallOk(s'.tables, s'.calls[call])
  {
    if intentId in s.tables.intents {
      assert IntentOk(s.tables, intentId);
    }
    hide TablesOk, IntentOk;
  }

  lemma ReadIsOk(s: System, call: Uuid, provider: string)
    requires Inv(s) && call in s.calls && s.calls[call].IntentRead?
    ensures var s' := AfterReadAsset(s, call, provider);
            call in s'.calls && CallOk(s'.tables, s'.calls[call]) && OnlyItsCall(s, s', call)
  {
    assert CallOk(s.tables, s.calls[call]);
    hide TablesOk;
  }

  lemma CompletedAssetIs(t: Tables, c: Completion)
    ensures var (t', result) := Complete(t, c);
            result.CompletedNow? || result.CompletedBefore? ==>
              c.intentId in t'.assets && t'.assets[c.intentId].id == result.assetId
  {
    hide IdsTaken;
  }

  lemma FinishedIsOk(s: System, call: Uuid, head: Option<StoredObject>, assetId: Uuid, eventId: Uuid, provider: string)
    requires call in s.calls && s.calls[call].Prepared?
    ensures var s' := AfterFinish(s, call, head, assetId, eventId, provider);
            call in s'.calls && CallOk(s'.tables, s'.calls[call]) && OnlyItsCall(s, s', call)
  {
    hide Complete, AcceptableObject;
    if head.Some? {
      CompletedAssetIs(s.tables, CompletionOf(s.calls[call], head.value, assetId, eventId, provider));
    }
  }

  /** The one call that a move advances reads or returns what the tables hold. */
  lemma StepKeepsOwnCall(s: System, m: Move, limit: nat, provider: string, c: Uuid)
    requires Inv(s) && c in Step(s, m, limit, provider).calls
    requires c !in s.calls || Step(s, m, limit, provider).calls[c] != s.calls[c]
    ensures var s' := Step(s, m, limit, provider); CallOk(s'.tables, s'.calls[c])
  {
    hide Inv, Reserve, MarkSigningFailed, CallOk, AfterReadAsset, AfterFinish;
    match m {
      case StartCompletion(call, intentId, user, now) =>
        if call !in s.calls {
          StartedIsOk(s, call, intentId, user, now, limit, provider);
        }
      case ReadAsset(call) =>
        if call in s.calls && s.calls[call].IntentRead? {
          ReadIsOk(s, call, provider);
        }
      case Finish(call, head, assetId, eventId) =>
        if call in s.calls && s.calls[call].Prepared? {
          FinishedIsOk(s, call, head, assetId, eventId, provider);
        }
      case _ =>
    }
  }

  lemma StepKeepsInv(s: System, m: Move, limit: nat, provider: string)
    requires Inv(s)
    ensures Inv(Step(s, m, limit, provider)) && Extends(s.tables, Step(s, m, limit, provider).tables)
  {
    var s' := Step(s, m, limit, provider);
    StepKeepsTables(s, m, limit, provider);
    hide TablesOk, Step, Extends, CallOk;
    forall c | c in s'.calls
      ensures CallOk(s'.tables, s'.calls[c])
    {
      if c in s.calls && s'.calls[c] == s.calls[c] {
        ExtensionKeepsCall(s.tables, s'.tables, s.calls[c]);
      } else {
        StepKeepsOwnCall(s, m, limit, provider, c);
      }
    }
  }

  lemma {:induction false} RunKeepsInv(moves: seq<Move>, limit: nat, provider: string)
    ensures Inv(Run(moves, limit, provider))
  {
    hide Inv, Step;
    if moves == [] {
      NothingIsOk();
    } else {
      RunKeepsInv(moves[..|moves| - 1], limit, provider);
      StepKeepsInv(Run(moves[..|moves| - 1], limit, provider), moves[|moves| - 1], limit, provider);
    }
  }

  lemma NothingIsOk()
    ensures Inv(NOTHING)
  {
  }

  /**
   In every run, for every intent: it is completed exactly when it has an asset, exactly when one processing event names it
   and no more; the asset has the intent's object, user, provider and length, and is the asset the event names.
   */
  lemma CompletionIsExactlyOnce(moves: seq<Move>, limit: nat, provider: string, i: Uuid)
    requires i in Run(moves, limit, provider).tables.intents
    ensures var t := Run(moves, limit, provider).tables;
            var events := EventsFor(t.outbox, i);
            && (t.intents[i].state == Completed <==> i in t.assets)
            && (i in t.assets <==> |events| == 1) && |events| <= 1
            && (i in t.assets ==>
                  && events[0].assetId == t.assets[i].id
                  && t.assets[i].objectKey == t.intents[i].objectKey
                  && t.assets[i].userId == t.intents[i].userId
                  && t.assets[i].storageProviderId == t.intents[i].storageProviderId
                  && t.assets[i].observedByteLength == t.intents[i].byteLength)
  {
    RunKeepsInv(moves, limit, provider);
    assert IntentOk(Run(moves, limit, provider).tables, i);
  }

  function CompletedAsset(c: Call): Option<Uuid> {
    match c
    case Ended(_, CompletedNow(a)) => Some(a)
    case Ended(_, CompletedBefore(a)) => Some(a)
    case _ => None
  }

  /** All completion calls of one intent that succeed, in whatever order they overlap, return the same asset. */
  lemma SuccessfulCallsAgree(moves: seq<Move>, limit: nat, provider: string, one: Uuid, other: Uuid)
    requires var s := Run(moves, limit, provider);
             && one in s.calls && other in s.calls
             && CompletedAsset(s.calls[one]).Some? && CompletedAsset(s.calls[other]).Some?
             && s.calls[one].intentId == s.calls[other].intentId
    ensures var s := Run(moves, limit, provider); CompletedAsset(s.calls[one]) == CompletedAsset(s.calls[other])
  {
    RunKeepsInv(moves, limit, provider);
    var s := Run(moves, limit, provider);
    hide Run;
    assert CallOk(s.tables, s.calls[one]) && CallOk(s.tables, s.calls[other]);
  }

  /** Assets are never changed or removed, and intents keep everything but their state and expiry. */
  lemma {:induction false} TablesOnlyExtend(moves: seq<Move>, n: nat, limit: nat, provider: string)
    requires n <= |moves|
    ensures Extends(Run(moves[..n], limit, provider).tables, Run(moves, limit, provider).tables)
    decreases |moves|
  {
    if n == |moves| {
      assert moves[..n] == moves;
      SelfExtends(Run(moves, limit, provider).tables);
    } else {
      var front := moves[..|moves| - 1];
      assert front[..n] == moves[..n];
      TablesOnlyExtend(front, n, limit, provider);
      RunKeepsInv(front, limit, provider);
      StepKeepsInv(Run(front, limit, provider), moves[|moves| - 1], limit, provider);
    }
  }

  lemma SelfExtends(t: Tables)
    ensures Extends(t, t)
  {
  }

  /**
   A reservation repeated while its intent is open changes nothing: it is answered with that intent if it asks for the same,
   and refused otherwise.
   */
  lemma RepeatedReservation(t: Tables, first: Reservation, again: Reservation, limit: nat, other: nat)
    requires TablesOk(t) && Reserve(t, first, limit).1.ReservedNow?
    requires IsFor(again.intent, first.intent.userId, first.intent.idempotencyKey)
    requires again.createdAt < first.intent.expiresAt
    ensures var (t', result) := Reserve(t, first, limit);
            Reserve(t', again, other) ==
            (t', if again.intent.fingerprint == first.intent.fingerprint then ReservedBefore(result.intent) else ReserveConflict)
  {
    ReserveKeepsTables(t, first, limit);
    var (t', result) := Reserve(t, first, limit);
    hide TablesOk, Active, InsertFails;
    FindsIntent(t', result.intent.id);
  }

  lemma FindsIntent(t: Tables, i: Uuid)
    requires TablesOk(t) && i in t.intents
    ensures IntentOfKey(t, t.intents[i].userId, t.intents[i].idempotencyKey) == Some(i)
  {
    hide IntentOk;
    assert IsFor(t.intents[i], t.intents[i].userId, t.intents[i].idempotencyKey);
  }

  /**
   A completion takes effect exactly on an open intent of its user and provider; that no asset is there yet need not be
   asked.
   */
  lemma CompletesIffOpen(t: Tables, c: Completion)
    requires TablesOk(t)
    ensures Complete(t, c).1.CompletedNow? <==>
            && c.event.assetId == c.assetId && c.event.intentId == c.intentId && !IdsTaken(t, c)
            && c.intentId in t.intents
            && var intent := t.intents[c.intentId];
            && intent.userId == c.user && intent.state == Reserved && c.completedAt < intent.expiresAt
            && intent.storageProviderId == c.stored.providerId
  {
    hide EventsFor, IdsTaken;
    if c.intentId in t.intents {
      assert IntentOk(t, c.intentId);
    }
  }

  // ----- The quota -----

  /** A user's unexpired reserved intents that were never revived stay within the limit. */
  ghost predicate QuotaOk(s: System, limit: nat) {
    s.latest.Some? ==> forall user: Uuid :: |Active(s.tables, user, s.latest.value) - s.revived| <= limit
  }

  lemma FewerActive(t: Tables, t': Tables, user: Uuid, at: Instant, later: Instant, revived: set<Uuid>, revived': set<Uuid>)
    requires at <= later && revived <= revived'
    requires forall i | i in Active(t', user, later) - revived' :: i in Active(t, user, at)
    ensures |Active(t', user, later) - revived'| <= |Active(t, user, at) - revived|
  {
    SubsetSize(Active(t', user, later) - revived', Active(t, user, at) - revived);
  }

  /** An insertion for a user takes one of the free places. */
  lemma InsertionKeepsQuota(s: System, r: Reservation, limit: nat)
    requires IntentOfKey(s.tables, r.intent.userId, r.intent.idempotencyKey).None?
    requires Reserve(s.tables, r, limit).1.ReservedNow?
    ensures var s' := AfterCreate(s, r, limit);
            s'.latest.Some? && |Active(s'.tables, r.intent.userId, s'.latest.value) - s'.revived| <= limit
  {
    var s' := AfterCreate(s, r, limit);
    var counted := Active(s.tables, r.intent.userId, r.createdAt);
    var after := Active(s'.tables, r.intent.userId, s'.latest.value) - s'.revived;
    assert |counted| < limit;
    assert after <= counted + {r.intent.id};
    SubsetSize(after, counted + {r.intent.id});
  }

  lemma CreateAddsOnlyRevived(s: System, r: Reservation, limit: nat, user: Uuid)
    requires !(user == r.intent.userId && IntentOfKey(s.tables, r.intent.userId, r.intent.idempotencyKey).None?
               && Reserve(s.tables, r, limit).1.ReservedNow?)
    ensures var s' := AfterCreate(s, r, limit);
            forall i | i in s'.tables.intents && s'.tables.intents[i].userId == user && s'.tables.intents[i].state == Reserved
                       && i !in s'.revived ::
              i in s.tables.intents && s.tables.intents[i] == s'.tables.intents[i] && i !in s.revived
  {
    hide Active, InsertFails;
  }

  lemma ClockGoesOn(s: System, r: Reservation, limit: nat)
    ensures var s' := AfterCreate(s, r, limit);
            && s'.latest.Some? && s.revived <= s'.revived && (s.latest.Some? ==> s.latest.value <= s'.latest.value)
  {
    hide Reserve;
  }

  lemma CreateKeepsQuota(s: System, r: Reservation, limit: nat)
    requires QuotaOk(s, limit) && (s.latest.None? ==> s.tables == NO_ROWS)
    ensures QuotaOk(AfterCreate(s, r, limit), limit)
  {
    var s' := AfterCreate(s, r, limit);
    ClockGoesOn(s, r, limit);
    hide AfterCreate, Reserve, IntentOfKey;
    forall user: Uuid
      ensures |Active(s'.tables, user, s'.latest.value) - s'.revived| <= limit
    {
      if user == r.intent.userId && IntentOfKey(s.tables, user, r.intent.idempotencyKey).None? &&
         Reserve(s.tables, r, limit).1.ReservedNow? {
        InsertionKeepsQuota(s, r, limit);
      } else {
        CreateAddsOnlyRevived(s, r, limit, user);
        StillWithin(s, s', user, limit);
      }
    }
  }

  /** A user's intents that count were there before, and counted. */
  lemma StillWithin(s: System, s': System, user: Uuid, limit: nat)
    requires QuotaOk(s, limit) && (s.latest.None? ==> s.tables == NO_ROWS)
    requires s'.latest.Some? && s.revived <= s'.revived && (s.latest.Some? ==> s.latest.value <= s'.latest.value)
    requires forall i | i in s'.tables.intents && s'.tables.intents[i].userId == user &&
                        s'.tables.intents[i].state == Reserved && i !in s'.revived ::
               i in s.tables.intents && s.tables.intents[i] == s'.tables.intents[i]
    ensures |Active(s'.tables, user, s'.latest.value) - s'.revived| <= limit
  {
    if s.latest.Some? {
      FewerActive(s.tables, s'.tables, user, s.latest.value, s'.latest.value, s.revived, s'.revived);
    } else {
      assert Active(s'.tables, user, s'.latest.value) - s'.revived == {};
    }
  }

  /** Completing and failing only take intents out of the count. */
  lemma OtherStepsKeepQuota(s: System, s': System, limit: nat)
    requires QuotaOk(s, limit) && s'.latest == s.latest && s'.revived == s.revived
    requires forall i | i in s'.tables.intents && s'.tables.intents[i].state == Reserved ::
               i in s.tables.intents && s.tables.intents[i] == s'.tables.intents[i]
    ensures QuotaOk(s', limit)
  {
    if s.latest.Some? {
      forall user: Uuid
        ensures |Active(s'.tables, user, s'.latest.value) - s'.revived| <= limit
      {
        FewerActive(s.tables, s'.tables, user, s.latest.value, s'.latest.value, s.revived, s'.revived);
      }
    }
  }

  ghost predicate Clocked(s: System) {
    s.latest.None? ==> s.tables == NO_ROWS
  }

  lemma StepKeepsQuota(s: System, m: Move, limit: nat, provider: string)
    requires QuotaOk(s, limit) && Clocked(s)
    ensures QuotaOk(Step(s, m, limit, provider), limit) && Clocked(Step(s, m, limit, provider))
  {
    hide Active, AcceptableObject, IdsTaken;
    if m.Create? {
      CreateKeepsQuota(s, m.reservation, limit);
    } else {
      OtherStepsKeepQuota(s, Step(s, m, limit, provider), limit);
    }
  }

  lemma {:induction false} RunKeepsQuota(moves: seq<Move>, limit: nat, provider: string)
    ensures QuotaOk(Run(moves, limit, provider), limit) && Clocked(Run(moves, limit, provider))
  {
    hide QuotaOk, Clocked, Step;
    if moves == [] {
      NothingWithinQuota(limit);
    } else {
      RunKeepsQuota(moves[..|moves| - 1], limit, provider);
      StepKeepsQuota(Run(moves[..|moves| - 1], limit, provider), moves[|moves| - 1], limit, provider);
    }
  }

  lemma NothingWithinQuota(limit: nat)
    ensures QuotaOk(NOTHING, limit) && Clocked(NOTHING)
  {
  }

  /**
   The quota that holds: at any time not before the latest reservation, and whatever order the clocks of the
   reservations came in, a user's unexpired reserved intents number at most the limit plus those that were revived; with
   no revivals, at most the limit.
   */
  lemma QuotaOfEveryRun(moves: seq<Move>, limit: nat, provider: string, user: Uuid, now: Instant)
    requires var s := Run(moves, limit, provider); s.latest.Some? ==> s.latest.value <= now
    ensures var s := Run(moves, limit, provider);
            var active := Active(s.tables, user, now);
            && |active| <= limit + |active * s.revived|
            && (s.revived == {} ==> |active| <= limit)
  {
    RunKeepsQuota(moves, limit, provider);
    var s := Run(moves, limit, provider);
    hide Run;
    var active := Active(s.tables, user, now);
    assert active == (active - s.revived) + (active * s.revived);
    if s.latest.Some? {
      FewerActive(s.tables, s.tables, user, s.latest.value, now, s.revived, s.revived);
    } else {
      assert active == {};
    }
  }

  /** A revival does not count. It passes the limit exactly when the limit was already reached without the revived intent. */
  lemma RevivalPassesLimitIff(s: System, r: Reservation, limit: nat)
    requires IsRevival(s.tables, r) && r.intent.expiresAt > r.createdAt
    ensures var user := r.intent.userId;
            |Active(Step(s, Create(r), limit, "").tables, user, r.createdAt)| > limit <==>
            |Active(s.tables, user, r.createdAt)| >= limit
  {
    var user := r.intent.userId;
    var i := IntentOfKey(s.tables, user, r.intent.idempotencyKey).value;
    assert Active(Step(s, Create(r), limit, "").tables, user, r.createdAt) == Active(s.tables, user, r.createdAt) + {i};
    assert i !in Active(s.tables, user, r.createdAt);
  }

  function Wanted(id: Uuid, key: string): Reservation {
    Reservation(Intent(id, 1, 10, "image/png", "store", key, key, key, 100, Reserved), 0)
  }

  const REVIVAL := [Create(Wanted(5, "a")), SigningFailed(5, 1), Create(Wanted(6, "b")), Create(Wanted(5, "a"))]

  const ONE_RESERVED := Tables(map[5 := Wanted(5, "a").intent], map[], [])
  const ONE_FAILED := Tables(map[5 := Wanted(5, "a").intent.(state := Failed)], map[], [])
  const ONE_FAILED_ONE_RESERVED :=
    Tables(map[5 := Wanted(5, "a").intent.(state := Failed), 6 := Wanted(6, "b").intent], map[], [])

  lemma FirstIsReserved()
    ensures Reserve(NO_ROWS, Wanted(5, "a"), 1).0 == ONE_RESERVED
  {
    assert Active(NO_ROWS, 1, 0) == {};
  }

  lemma SecondIsReserved()
    ensures Reserve(ONE_FAILED, Wanted(6, "b"), 1).0 == ONE_FAILED_ONE_RESERVED
  {
    assert ONE_FAILED.intents[5].idempotencyKey != "b";
    assert IntentOfKey(ONE_FAILED, 1, "b").None?;
    assert Active(ONE_FAILED, 1, 0) == {};
    assert ONE_FAILED.intents[5].objectKey != "b";
  }

  lemma FirstCanBeRevived()
    ensures IsRevival(ONE_FAILED_ONE_RESERVED, Wanted(5, "a")) && Active(ONE_FAILED_ONE_RESERVED, 1, 0) == {6}
  {
    var t := ONE_FAILED_ONE_RESERVED;
    assert IsFor(t.intents[5], 1, "a");
    assert t.intents[6].idempotencyKey != "a";
    assert IntentOfKey(t, 1, "a") == Some(5);
  }

  /**
   The plain quota does not hold: with a limit of one, reserve, fail, reserve another and revive the first leaves two
   active.
   */
  lemma PlainQuotaFails()
    ensures var s := Run(REVIVAL, 1, "store"); s.latest == Some(0) && |Active(s.tables, 1, 0)| > 1
  {
    hide Active, IntentOfKey, Reserve, IsRevival;
    var s1 := Step(NOTHING, REVIVAL[0], 1, "store");
    FirstIsReserved();
    var s2 := Step(s1, REVIVAL[1], 1, "store");
    assert s2.tables == ONE_FAILED;
    var s3 := Step(s2, REVIVAL[2], 1, "store");
    SecondIsReserved();
    FirstCanBeRevived();
    RevivalPassesLimitIff(s3, Wanted(5, "a"), 1);
    assert Step(s3, REVIVAL[3], 1, "store").tables == Step(s3, REVIVAL[3], 1, "").tables;
    RunOfFour(REVIVAL, 1, "store");
  }

  lemma RunOfFour(moves: seq<Move>, limit: nat, provider: string)
    requires |moves| == 4
    ensures Run(moves, limit, provider) ==
            Step(Step(Step(Step(NOTHING, moves[0], limit, provider), moves[1], limit, provider), moves[2], limit, provider),
                 moves[3], limit, provider)
  {
    hide Step;
    assert Run(moves[..3], limit, provider) == Step(Run(moves[..3][..2], limit, provider), moves[2], limit, provider);
    assert moves[..3][..2] == moves[..2] && moves[..2][..1] == moves[..1] && moves[..1][..0] == [];
    assert Run(moves[..2], limit, provider) == Step(Run(moves[..1], limit, provider), moves[1], limit, provider);
    assert Run(moves[..1], limit, provider) == Step(NOTHING, moves[0], limit, provider);
  }
}
