/**
 The outbox as many relay workers see it: any interleaving of enqueues, claims, publications,
 settlements and crashes. A run is any list of actions; an action that is not possible where it
 stands leaves the system as it is, so a theorem about all lists is a theorem about all runs.
 No clock is assumed: each worker's readings are arbitrary.
 */
module OutboxProtocol {
  import opened Common
  import opened OutboxStore
  import opened OutboxRelay

  /** Where a worker stands with the event at the head of its batch. */
  datatype Phase = Ready | Published(outcome: PublishOutcome)

  datatype Worker = Worker(queue: seq<ClaimedEvent>, phase: Phase)

  datatype Publication = Publication(lease: Uuid, outcome: PublishOutcome)

  /** What has happened to one event; nothing in the program reads it. `leasedUntil` is what the latest claim asked for. */
  datatype History = History(
    claims: seq<Uuid>,
    leasedUntil: Instant,
    publications: seq<Publication>,
    deliveredUnder: Option<Uuid>,
    reclaims: nat)

  datatype System = System(
    rows: Rows,
    workers: map<Uuid, Worker>,
    usedLeases: set<Uuid>,
    history: map<Uuid, History>)

  datatype Action =
    | Enqueue(event: Uuid, envelope: Envelope, availableAt: Instant)
    | Claim(lease: Uuid, now: Instant, picked: seq<Uuid>)
    | Publish(lease: Uuid, outcome: PublishOutcome)
    | Settle(lease: Uuid, at: Instant, jitter: real)
    | Crash(lease: Uuid)

  const EMPTY := System(map[], map[], {}, map[])

  /**
   A claim may take any distinct claimable rows. `OutboxTable.Claim` takes such rows whatever the
   batch size and whatever other transactions hold locked, so every claim it makes is covered
   (`OutboxTheorems.BatchChoiceCanBeClaimed`).
   */
  predicate CanClaim(s: System, lease: Uuid, now: Instant, picked: seq<Uuid>) {
    && lease !in s.usedLeases
    && picked != []
    && NoDuplicates(picked)
    && forall e | e in picked :: e in s.rows && Claimable(s.rows[e], now)
  }

  function Taken(s: System, lease: Uuid, picked: seq<Uuid>): seq<ClaimedEvent>
    requires forall e | e in picked :: e in s.rows
  {
    seq(|picked|, i requires 0 <= i < |picked| => ClaimedEvent(picked[i], s.rows[picked[i]].attempts + 1, lease))
  }

  function ClaimNoted(h: History, lease: Uuid, until: Instant, reclaimed: bool): History {
    h.(claims := h.claims + [lease], leasedUntil := until, reclaims := h.reclaims + if reclaimed then 1 else 0)
  }

  function AfterClaim(p: Policy, s: System, lease: Uuid, now: Instant, picked: seq<Uuid>): System
    requires CanClaim(s, lease, now, picked) && s.history.Keys == s.rows.Keys
  {
    s.(rows := ClaimedRows(s.rows, Elements(picked), lease, now + p.leaseDurationMs),
       workers := s.workers[lease := Worker(Taken(s, lease, picked), Ready)],
       usedLeases := s.usedLeases + {lease},
       history := map e | e in s.history ::
         if e in picked then ClaimNoted(s.history[e], lease, now + p.leaseDurationMs, s.rows[e].status == Delivering)
         else s.history[e])
  }

  predicate Working(s: System, lease: Uuid) {
    lease in s.workers && s.workers[lease].queue != []
  }

  predicate CanPublish(s: System, lease: Uuid) {
    Working(s, lease) && s.workers[lease].phase == Ready && s.workers[lease].queue[0].event in s.history
  }

  function AfterPublish(s: System, lease: Uuid, outcome: PublishOutcome): System
    requires CanPublish(s, lease)
  {
    var w := s.workers[lease];
    var e := w.queue[0].event;
    s.(workers := s.workers[lease := w.(phase := Published(outcome))],
       history := s.history[e := s.history[e].(
         publications := s.history[e].publications + [Publication(lease, outcome)])])
  }

  predicate CanSettle(s: System, lease: Uuid) {
    Working(s, lease) && s.workers[lease].phase.Published?
  }

  /** A lease conflict throws: the worker stops and the row stays. Otherwise the worker moves to its next event. */
  function AfterSettle(p: Policy, s: System, lease: Uuid, at: Instant, jitter: real): System
    requires ValidPolicy(p) && CanSettle(s, lease) && s.history.Keys == s.rows.Keys
  {
    var w := s.workers[lease];
    var claimed := w.queue[0];
    var e := claimed.event;
    if !Holds(s.rows, e, lease) then
      s.(workers := s.workers - {lease})
    else
      var outcome := w.phase.outcome;
      s.(rows := s.rows[e := SettledRow(p, s.rows[e], claimed.attempts, outcome, at, jitter)],
         workers := s.workers[lease := Worker(w.queue[1..], Ready)],
         history := if outcome == Accepted
                    then s.history[e := s.history[e].(deliveredUnder := Some(lease))]
                    else s.history)
  }

  function Step(p: Policy, s: System, a: Action): System
    requires ValidPolicy(p)
  {
    if s.history.Keys != s.rows.Keys then s
    else match a
      case Enqueue(e, envelope, availableAt) =>
        if e in s.rows then s
        else s.(rows := s.rows[e := Enqueued(envelope, availableAt)],
                history := s.history[e := History([], 0, [], None, 0)])
      case Claim(lease, now, picked) =>
        if CanClaim(s, lease, now, picked) then AfterClaim(p, s, lease, now, picked) else s
      case Publish(lease, outcome) =>
        if CanPublish(s, lease) then AfterPublish(s, lease, outcome) else s
      case Settle(lease, at, jitter) =>
        if CanSettle(s, lease) then AfterSettle(p, s, lease, at, jitter) else s
      case Crash(lease) =>
        s.(workers := s.workers - {lease})
  }

  function Run(p: Policy, s: System, actions: seq<Action>): System
    requires ValidPolicy(p)
    decreases |actions|
  {
    if actions == [] then s else Run(p, Step(p, s, actions[0]), actions[1..])
  }

  // ----- The invariant -----

  predicate PublishedUnder(h: History, lease: Uuid) {
    exists i | 0 <= i < |h.publications| :: h.publications[i].lease == lease
  }

  ghost predicate EventOk(p: Policy, used: set<Uuid>, row: Row, h: History) {
    && RowConstraints(row)
    // one claim per attempt, each under its own lease
    && |h.claims| == row.attempts
    && NoDuplicates(h.claims)
    && (forall l | l in h.claims :: l in used)
    && (row.status == Delivering ==>
          h.claims != [] && row.leaseId == Some(h.claims[|h.claims| - 1]) && row.leaseExpiresAt == Some(h.leasedUntil))
    // each lease publishes at most once, and only what it claimed
    && (forall i | 0 <= i < |h.publications| :: h.publications[i].lease in h.claims)
    && (forall i, j | 0 <= i < j < |h.publications| :: h.publications[i].lease != h.publications[j].lease)
    // delivery is settled by the lease that published
    && (row.status == Delivered <==> h.deliveredUnder.Some?)
    && (h.deliveredUnder.Some? ==> Publication(h.deliveredUnder.value, Accepted) in h.publications)
    // attempts
    && (row.status == Pending ==> row.attempts < p.maxAttempts)
    && row.attempts <= p.maxAttempts + h.reclaims
  }

  ghost predicate TaskOk(s: System, lease: Uuid, w: Worker, i: nat)
    requires i < |w.queue| && s.history.Keys == s.rows.Keys
  {
    var t := w.queue[i];
    && t.event in s.rows
    && t.leaseId == lease
    && lease in s.history[t.event].claims
    && (Holds(s.rows, t.event, lease) ==> t.attempts == s.rows[t.event].attempts)
    && (if i == 0 && w.phase.Published?
        then Publication(lease, w.phase.outcome) in s.history[t.event].publications
        else !PublishedUnder(s.history[t.event], lease))
  }

  ghost predicate WorkerOk(s: System, lease: Uuid, w: Worker)
    requires s.history.Keys == s.rows.Keys
  {
    && lease in s.usedLeases
    && (forall i, j | 0 <= i < j < |w.queue| :: w.queue[i].event != w.queue[j].event)
    && (forall i | 0 <= i < |w.queue| :: TaskOk(s, lease, w, i))
  }

  ghost predicate Inv(p: Policy, s: System) {
    && s.history.Keys == s.rows.Keys
    && (forall e | e in s.rows :: EventOk(p, s.usedLeases, s.rows[e], s.history[e]))
    && (forall l | l in s.workers :: WorkerOk(s, l, s.workers[l]))
  }

  // ----- Every step keeps the invariant -----

  lemma EnqueueKeepsInv(p: Policy, s: System, e: Uuid, envelope: Envelope, availableAt: Instant)
    requires ValidPolicy(p) && Inv(p, s)
    ensures Inv(p, Step(p, s, Enqueue(e, envelope, availableAt)))
  {
    var s' := Step(p, s, Enqueue(e, envelope, availableAt));
    forall l | l in s'.workers
      ensures WorkerOk(s', l, s'.workers[l])
    {
      assert WorkerOk(s, l, s.workers[l]);
      forall i | 0 <= i < |s'.workers[l].queue|
        ensures TaskOk(s', l, s'.workers[l], i)
      {
        assert TaskOk(s, l, s.workers[l], i);
      }
    }
  }

  lemma ClaimKeepsEvent(p: Policy, used: set<Uuid>, row: Row, h: History, lease: Uuid, now: Instant)
    requires ValidPolicy(p) && EventOk(p, used, row, h) && lease !in used && Claimable(row, now)
    ensures EventOk(p, used + {lease}, Leased(row, lease, now + p.leaseDurationMs),
                    ClaimNoted(h, lease, now + p.leaseDurationMs, row.status == Delivering))
  {
  }

  lemma ClaimKeepsTask(p: Policy, s: System, lease: Uuid, now: Instant, picked: seq<Uuid>, l: Uuid, i: nat)
    requires ValidPolicy(p) && Inv(p, s) && CanClaim(s, lease, now, picked)
    requires l in s.workers && i < |s.workers[l].queue|
    ensures TaskOk(AfterClaim(p, s, lease, now, picked), l, s.workers[l], i)
  {
    assert WorkerOk(s, l, s.workers[l]) && TaskOk(s, l, s.workers[l], i);
  }

  lemma ClaimedEffect(p: Policy, s: System, lease: Uuid, now: Instant, picked: seq<Uuid>, e: Uuid)
    requires CanClaim(s, lease, now, picked) && s.history.Keys == s.rows.Keys && e in s.rows
    ensures var s' := AfterClaim(p, s, lease, now, picked);
            && e in s'.rows && e in s'.history && s'.usedLeases == s.usedLeases + {lease}
            && (e in picked ==>
                  && s'.rows[e] == Leased(s.rows[e], lease, now + p.leaseDurationMs)
                  && s'.history[e] == ClaimNoted(s.history[e], lease, now + p.leaseDurationMs, s.rows[e].status == Delivering))
            && (e !in picked ==> s'.rows[e] == s.rows[e] && s'.history[e] == s.history[e])
  {
    hide Leased, ClaimNoted, Claimable, Taken;
  }

  lemma ClaimKeepsEvents(p: Policy, s: System, lease: Uuid, now: Instant, picked: seq<Uuid>, e: Uuid)
    requires ValidPolicy(p) && Inv(p, s) && CanClaim(s, lease, now, picked) && e in s.rows
    ensures var s' := AfterClaim(p, s, lease, now, picked);
            e in s'.rows && e in s'.history && EventOk(p, s'.usedLeases, s'.rows[e], s'.history[e])
  {
    assert EventOk(p, s.usedLeases, s.rows[e], s.history[e]) && lease !in s.usedLeases;
    assert e in picked ==> Claimable(s.rows[e], now);
    hide *;
    ClaimedEffect(p, s, lease, now, picked, e);
    if e in picked {
      ClaimKeepsEvent(p, s.usedLeases, s.rows[e], s.history[e], lease, now);
    } else {
      MoreLeasesKeepEvent(p, s.usedLeases, s.rows[e], s.history[e], lease);
    }
  }

  lemma MoreLeasesKeepEvent(p: Policy, used: set<Uuid>, row: Row, h: History, lease: Uuid)
    requires EventOk(p, used, row, h)
    ensures EventOk(p, used + {lease}, row, h)
  {
    hide RowConstraints, NoDuplicates;
  }

  /** The tasks a claim has just taken. */
  lemma NewTaskOk(p: Policy, s: System, lease: Uuid, now: Instant, picked: seq<Uuid>, i: nat)
    requires ValidPolicy(p) && Inv(p, s) && CanClaim(s, lease, now, picked) && i < |picked|
    ensures var s' := AfterClaim(p, s, lease, now, picked);
            lease in s'.workers && i < |s'.workers[lease].queue| && TaskOk(s', lease, s'.workers[lease], i)
  {
    var s', e := AfterClaim(p, s, lease, now, picked), picked[i];
    assert e in picked && EventOk(p, s.usedLeases, s.rows[e], s.history[e]);
    assert s'.history[e].claims[|s.history[e].claims|] == lease;
  }

  lemma NewWorkerOk(p: Policy, s: System, lease: Uuid, now: Instant, picked: seq<Uuid>)
    requires ValidPolicy(p) && Inv(p, s) && CanClaim(s, lease, now, picked)
    ensures var s' := AfterClaim(p, s, lease, now, picked);
            lease in s'.workers && WorkerOk(s', lease, s'.workers[lease])
  {
    var s' := AfterClaim(p, s, lease, now, picked);
    hide Inv, TaskOk, ClaimNoted;
    forall i | 0 <= i < |picked|
      ensures TaskOk(s', lease, s'.workers[lease], i)
    {
      NewTaskOk(p, s, lease, now, picked, i);
    }
  }

  lemma OldWorkerOk(p: Policy, s: System, lease: Uuid, now: Instant, picked: seq<Uuid>, l: Uuid)
    requires ValidPolicy(p) && Inv(p, s) && CanClaim(s, lease, now, picked) && l in s.workers && l != lease
    ensures var s' := AfterClaim(p, s, lease, now, picked);
            l in s'.workers && s'.workers[l] == s.workers[l] && WorkerOk(s', l, s'.workers[l])
  {
    assert WorkerOk(s, l, s.workers[l]);
    hide Inv, TaskOk, ClaimNoted;
    forall i | 0 <= i < |s.workers[l].queue|
      ensures TaskOk(AfterClaim(p, s, lease, now, picked), l, s.workers[l], i)
    {
      ClaimKeepsTask(p, s, lease, now, picked, l, i);
    }
  }

  lemma ClaimKeepsInv(p: Policy, s: System, lease: Uuid, now: Instant, picked: seq<Uuid>)
    requires ValidPolicy(p) && Inv(p, s) && CanClaim(s, lease, now, picked)
    ensures Inv(p, AfterClaim(p, s, lease, now, picked))
  {
    hide EventOk, WorkerOk, ClaimNoted, Leased, Taken;
    var s' := AfterClaim(p, s, lease, now, picked);
    forall e | e in s'.rows
      ensures EventOk(p, s'.usedLeases, s'.rows[e], s'.history[e])
    {
      ClaimKeepsEvents(p, s, lease, now, picked, e);
    }
    forall l | l in s'.workers
      ensures WorkerOk(s', l, s'.workers[l])
    {
      if l == lease {
        NewWorkerOk(p, s, lease, now, picked);
      } else {
        OldWorkerOk(p, s, lease, now, picked, l);
      }
    }
  }

  lemma PublishKeepsEvent(p: Policy, used: set<Uuid>, row: Row, h: History, lease: Uuid, outcome: PublishOutcome)
    requires EventOk(p, used, row, h) && lease in h.claims && !PublishedUnder(h, lease)
    ensures EventOk(p, used, row, h.(publications := h.publications + [Publication(lease, outcome)]))
  {
  }

  lemma PublishKeepsTask(s: System, lease: Uuid, outcome: PublishOutcome, l: Uuid, i: nat)
    requires s.history.Keys == s.rows.Keys && CanPublish(s, lease)
    requires l in s.workers && WorkerOk(s, l, s.workers[l]) && i < |s.workers[l].queue|
    ensures var s' := AfterPublish(s, lease, outcome); TaskOk(s', l, s'.workers[l], i)
  {
    assert TaskOk(s, l, s.workers[l], i);
    var e := s.workers[lease].queue[0].event;
    var h, h' := s.history[e], AfterPublish(s, lease, outcome).history[e];
    assert h'.publications[|h.publications|] == Publication(lease, outcome);
    if l != lease {
      assert PublishedUnder(h', l) ==> PublishedUnder(h, l);
    }
  }

  lemma PublishKeepsInv(p: Policy, s: System, lease: Uuid, outcome: PublishOutcome)
    requires ValidPolicy(p) && Inv(p, s) && CanPublish(s, lease)
    ensures Inv(p, AfterPublish(s, lease, outcome))
  {
    hide EventOk, TaskOk;
    var s' := AfterPublish(s, lease, outcome);
    HeadIsUnpublished(s, lease);
    var e := s.workers[lease].queue[0].event;
    PublishKeepsEvent(p, s.usedLeases, s.rows[e], s.history[e], lease, outcome);
    forall l | l in s'.workers
      ensures WorkerOk(s', l, s'.workers[l])
    {
      assert WorkerOk(s, l, s.workers[l]);
      forall i | 0 <= i < |s'.workers[l].queue|
        ensures TaskOk(s', l, s'.workers[l], i)
      {
        PublishKeepsTask(s, lease, outcome, l, i);
      }
    }
  }

  lemma HeadIsUnpublished(s: System, lease: Uuid)
    requires s.history.Keys == s.rows.Keys && CanPublish(s, lease) && WorkerOk(s, lease, s.workers[lease])
    ensures var h := s.history[s.workers[lease].queue[0].event]; lease in h.claims && !PublishedUnder(h, lease)
  {
    assert TaskOk(s, lease, s.workers[lease], 0);
  }

  lemma SettleKeepsEvent(p: Policy, used: set<Uuid>, row: Row, h: History, lease: Uuid, outcome: PublishOutcome,
                         at: Instant, jitter: real)
    requires ValidPolicy(p) && EventOk(p, used, row, h)
    requires row.status == Delivering && row.leaseId == Some(lease)
    requires Publication(lease, outcome) in h.publications
    ensures EventOk(p, used, SettledRow(p, row, row.attempts, outcome, at, jitter),
                    if outcome == Accepted then h.(deliveredUnder := Some(lease)) else h)
  {
    hide RetryDelay;
    ReasonsAreNotBlank();
  }

  lemma SettleKeepsTask(p: Policy, s: System, lease: Uuid, at: Instant, jitter: real, l: Uuid, i: nat)
    requires ValidPolicy(p) && s.history.Keys == s.rows.Keys && CanSettle(s, lease)
    requires Holds(s.rows, s.workers[lease].queue[0].event, lease)
    requires l in s.workers && WorkerOk(s, l, s.workers[l])
    requires i < |AfterSettle(p, s, lease, at, jitter).workers[l].queue|
    ensures var s' := AfterSettle(p, s, lease, at, jitter); TaskOk(s', l, s'.workers[l], i)
  {
    hide RetryDelay;
    if l == lease {
      assert TaskOk(s, lease, s.workers[lease], i + 1);
    } else {
      assert TaskOk(s, l, s.workers[l], i);
    }
  }

  lemma SettleKeepsInv(p: Policy, s: System, lease: Uuid, at: Instant, jitter: real)
    requires ValidPolicy(p) && Inv(p, s) && CanSettle(s, lease)
    ensures Inv(p, AfterSettle(p, s, lease, at, jitter))
  {
    hide EventOk, SettledRow;
    var s' := AfterSettle(p, s, lease, at, jitter);
    var w := s.workers[lease];
    var e := w.queue[0].event;
    assert WorkerOk(s, lease, w) && TaskOk(s, lease, w, 0);
    hide TaskOk;
    if !Holds(s.rows, e, lease) {
      CrashKeepsInv(p, s, lease);
      return;
    }
    SettleKeepsEvent(p, s.usedLeases, s.rows[e], s.history[e], lease, w.phase.outcome, at, jitter);
    forall l | l in s'.workers
      ensures WorkerOk(s', l, s'.workers[l])
    {
      assert WorkerOk(s, l, s.workers[l]);
      forall i | 0 <= i < |s'.workers[l].queue|
        ensures TaskOk(s', l, s'.workers[l], i)
      {
        SettleKeepsTask(p, s, lease, at, jitter, l, i);
      }
    }
  }

  lemma CrashKeepsInv(p: Policy, s: System, lease: Uuid)
    requires Inv(p, s)
    ensures Inv(p, s.(workers := s.workers - {lease}))
  {
    var s' := s.(workers := s.workers - {lease});
    forall l | l in s'.workers
      ensures WorkerOk(s', l, s'.workers[l])
    {
      assert WorkerOk(s, l, s.workers[l]);
      forall i | 0 <= i < |s'.workers[l].queue|
        ensures TaskOk(s', l, s'.workers[l], i)
      {
        assert TaskOk(s, l, s.workers[l], i);
      }
    }
  }

  lemma StepKeepsInv(p: Policy, s: System, a: Action)
    requires ValidPolicy(p) && Inv(p, s)
    ensures Inv(p, Step(p, s, a))
  {
    hide Inv;
    match a {
      case Enqueue(e, envelope, availableAt) => EnqueueKeepsInv(p, s, e, envelope, availableAt);
      case Claim(lease, now, picked) =>
        if CanClaim(s, lease, now, picked) && s.history.Keys == s.rows.Keys {
          ClaimKeepsInv(p, s, lease, now, picked);
        }
      case Publish(lease, outcome) =>
        if CanPublish(s, lease) {
          PublishKeepsInv(p, s, lease, outcome);
        }
      case Settle(lease, at, jitter) =>
        if CanSettle(s, lease) && s.history.Keys == s.rows.Keys {
          SettleKeepsInv(p, s, lease, at, jitter);
        }
      case Crash(lease) => CrashKeepsInv(p, s, lease);
    }
  }

  lemma {:induction false} RunKeepsInv(p: Policy, s: System, actions: seq<Action>)
    requires ValidPolicy(p) && Inv(p, s)
    ensures Inv(p, Run(p, s, actions))
    decreases |actions|
  {
    hide Inv;
    if actions != [] {
      StepKeepsInv(p, s, actions[0]);
      RunKeepsInv(p, Step(p, s, actions[0]), actions[1..]);
    }
  }
}
