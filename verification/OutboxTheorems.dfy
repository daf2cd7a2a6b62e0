/** What every run of the outbox guarantees, and what it does not. */
module OutboxTheorems {
  import opened Common
  import opened OutboxStore
  import opened OutboxRelay
  import opened OutboxProtocol

  lemma EmptyIsInvariant(p: Policy)
    requires ValidPolicy(p)
    ensures Inv(p, EMPTY)
  {
  }

  // ----- Publications, deliveries and attempts, in every run -----

  lemma {:induction false} PublicationsWithinClaims(h: History)
    requires forall i | 0 <= i < |h.publications| :: h.publications[i].lease in h.claims
    requires forall i, j | 0 <= i < j < |h.publications| :: h.publications[i].lease != h.publications[j].lease
    ensures |h.publications| <= |h.claims|
  {
    var leases := seq(|h.publications|, i requires 0 <= i < |h.publications| => h.publications[i].lease);
    DistinctDrawnFrom(leases, h.claims);
  }

  /**
   The safety of every run: an event is published at most once per attempt, a delivered row was accepted by the
   publisher under the very lease that settled it, a pending row can still be tried, and attempts pass the policy's
   maximum only by reclaims of expired leases.
   */
  lemma RunSafety(p: Policy, actions: seq<Action>, e: Uuid)
    requires ValidPolicy(p) && e in Run(p, EMPTY, actions).rows
    ensures var s := Run(p, EMPTY, actions);
            && e in s.history
            && var row, h := s.rows[e], s.history[e];
               && RowConstraints(row)
               && |h.publications| <= row.attempts == |h.claims|
               && (row.status == Delivered <==> h.deliveredUnder.Some?)
               && (row.status == Delivered ==> Publication(h.deliveredUnder.value, Accepted) in h.publications)
               && (row.status == Pending ==> row.attempts < p.maxAttempts)
               && row.attempts <= p.maxAttempts + h.reclaims
  {
    EmptyIsInvariant(p);
    RunKeepsInv(p, EMPTY, actions);
    var s := Run(p, EMPTY, actions);
    assert EventOk(p, s.usedLeases, s.rows[e], s.history[e]);
    PublicationsWithinClaims(s.history[e]);
  }

  /** While a worker holds an event it made the latest claim of it, and knows the row's number of attempts. */
  lemma HeldClaimsAreCurrent(p: Policy, actions: seq<Action>, lease: Uuid, i: nat)
    requires ValidPolicy(p)
    requires var s := Run(p, EMPTY, actions);
             lease in s.workers && i < |s.workers[lease].queue| && Holds(s.rows, s.workers[lease].queue[i].event, lease)
    ensures var s := Run(p, EMPTY, actions);
            var task := s.workers[lease].queue[i];
            && task.event in s.rows && task.event in s.history
            && task.leaseId == lease
            && task.attempts == s.rows[task.event].attempts
            && s.history[task.event].claims != []
            && s.history[task.event].claims[|s.history[task.event].claims| - 1] == lease
  {
    EmptyIsInvariant(p);
    RunKeepsInv(p, EMPTY, actions);
    var s := Run(p, EMPTY, actions);
    hide Run;
    assert TaskOk(s, lease, s.workers[lease], i);
    var e := s.workers[lease].queue[i].event;
    assert EventOk(p, s.usedLeases, s.rows[e], s.history[e]);
  }

  ghost function PublicationCount(s: System): nat {
    Sum(s.history.Keys, (e: Uuid) => if e in s.history then |s.history[e].publications| else 0)
  }

  ghost function ReclaimCount(s: System): nat {
    Sum(s.history.Keys, (e: Uuid) => if e in s.history then s.history[e].reclaims else 0)
  }

  lemma {:induction false} SumOfConstant(keys: set<Uuid>, each: nat)
    ensures Sum(keys, (e: Uuid) => each) == |keys| * each
  {
    if keys != {} {
      var k :| k in keys;
      SumSplit(keys, (e: Uuid) => each, k);
      SumOfConstant(keys - {k}, each);
      assert |keys| == |keys - {k}| + 1;
    }
  }

  lemma {:induction false} SumPlus(keys: set<Uuid>, left: Uuid -> nat, right: Uuid -> nat, other: Uuid -> nat)
    requires forall k | k in keys :: left(k) <= right(k) + other(k)
    ensures Sum(keys, left) <= Sum(keys, right) + Sum(keys, other)
  {
    if keys != {} {
      var k :| k in keys;
      SumSplit(keys, left, k);
      SumSplit(keys, right, k);
      SumSplit(keys, other, k);
      SumPlus(keys - {k}, left, right, other);
    }
  }

  /**
   However many workers run, crash or lose their leases, N events cost at most N * maxAttempts publish calls plus one
   per reclaim.
   */
  lemma PublicationsAreBounded(p: Policy, actions: seq<Action>)
    requires ValidPolicy(p)
    ensures var s := Run(p, EMPTY, actions); PublicationCount(s) <= |s.rows| * p.maxAttempts + ReclaimCount(s)
  {
    hide Run, EventOk, WorkerOk, RowConstraints, Sum;
    EmptyIsInvariant(p);
    RunKeepsInv(p, EMPTY, actions);
    var s := Run(p, EMPTY, actions);
    assert s.history.Keys == s.rows.Keys && |s.rows.Keys| == |s.rows|;
    var left := (e: Uuid) => if e in s.history then |s.history[e].publications| else 0;
    var right := (e: Uuid) => if e in s.history then s.history[e].reclaims else 0;
    forall e | e in s.history
      ensures left(e) <= p.maxAttempts + right(e)
    {
      RunSafety(p, actions, e);
    }
    var most := p.maxAttempts;
    SumPlus(s.history.Keys, left, (e: Uuid) => most, right);
    SumOfConstant(s.history.Keys, most);
  }

  // ----- What never changes again -----

  lemma StepKeepsEvents(p: Policy, s: System, a: Action, e: Uuid)
    requires ValidPolicy(p) && e in s.rows
    ensures var s' := Step(p, s, a);
            && e in s'.rows
            && s'.rows[e].envelope == s.rows[e].envelope
            && s.rows[e].attempts <= s'.rows[e].attempts
            && (Terminal(s.rows[e]) ==> s'.rows[e] == s.rows[e])
  {
    hide RetryDelay;
  }

  /** Delivered and failed rows are final, and no row ever loses its event or the envelope enqueued with it. */
  lemma {:induction false} EventsEndure(p: Policy, s: System, actions: seq<Action>, e: Uuid)
    requires ValidPolicy(p) && e in s.rows
    ensures var s' := Run(p, s, actions);
            && e in s'.rows
            && s'.rows[e].envelope == s.rows[e].envelope
            && s.rows[e].attempts <= s'.rows[e].attempts
            && (Terminal(s.rows[e]) ==> s'.rows[e] == s.rows[e])
    decreases |actions|
  {
    hide Step;
    if actions != [] {
      StepKeepsEvents(p, s, actions[0], e);
      EventsEndure(p, Step(p, s, actions[0]), actions[1..], e);
    }
  }

  // ----- Fencing -----

  lemma StepKeepsFenced(p: Policy, s: System, a: Action, e: Uuid, lease: Uuid)
    requires ValidPolicy(p) && lease in s.usedLeases && !Holds(s.rows, e, lease)
    ensures var s' := Step(p, s, a); lease in s'.usedLeases && !Holds(s'.rows, e, lease)
  {
    hide RetryDelay;
  }

  /** A worker that has lost an event never holds it again, whatever runs next. */
  lemma {:induction false} FencedForever(p: Policy, s: System, actions: seq<Action>, e: Uuid, lease: Uuid)
    requires ValidPolicy(p) && lease in s.usedLeases && !Holds(s.rows, e, lease)
    ensures !Holds(Run(p, s, actions).rows, e, lease)
    decreases |actions|
  {
    hide Step;
    if actions != [] {
      StepKeepsFenced(p, s, actions[0], e, lease);
      FencedForever(p, Step(p, s, actions[0]), actions[1..], e, lease);
    }
  }

  /**
   A settlement takes effect exactly when its lease still holds the event; whether the lease has expired does not
   matter. Without it the table and the histories stay as they are and the worker stops.
   */
  lemma SettlementTakesEffectIffHeld(p: Policy, s: System, lease: Uuid, at: Instant, jitter: real)
    requires ValidPolicy(p) && Inv(p, s) && CanSettle(s, lease)
    ensures var s' := Step(p, s, Settle(lease, at, jitter));
            var e := s.workers[lease].queue[0].event;
            && (Holds(s.rows, e, lease) <==> s'.rows != s.rows)
            && (!Holds(s.rows, e, lease) ==>
                  s'.rows == s.rows && s'.history == s.history && s'.workers == s.workers - {lease})
  {
    hide RetryDelay;
    var e := s.workers[lease].queue[0].event;
    var s' := Step(p, s, Settle(lease, at, jitter));
    if Holds(s.rows, e, lease) {
      assert s'.rows[e].status != Delivering;
    }
  }

  // ----- The attempt bound, and where the plain one fails -----

  /**
   In any reachable state a claim takes a row past the maximum exactly when it reclaims an expired lease that was
   already at it.
   */
  lemma ClaimOverrunsIff(p: Policy, s: System, lease: Uuid, now: Instant, picked: seq<Uuid>, e: Uuid)
    requires ValidPolicy(p) && Inv(p, s) && CanClaim(s, lease, now, picked) && e in picked
    ensures var s' := Step(p, s, Claim(lease, now, picked));
            s'.rows[e].attempts > p.maxAttempts <==>
            s.rows[e].status == Delivering && s.rows[e].attempts >= p.maxAttempts
  {
    assert EventOk(p, s.usedLeases, s.rows[e], s.history[e]);
  }

  const ONE_ATTEMPT := Policy(1, 10, 1, 1, 1)

  const ENVELOPE := Envelope("launch.created.v1", 1, "")
  const OVERRUN := [Enqueue(7, ENVELOPE, 0), Claim(100, 0, [7]), Crash(100), Claim(101, 10, [7])]

  lemma OnlyEventIsClaimed(s: System, lease: Uuid, now: Instant)
    requires s.rows.Keys == {7} == s.history.Keys && lease !in s.usedLeases && Claimable(s.rows[7], now)
    ensures var s' := Step(ONE_ATTEMPT, s, Claim(lease, now, [7]));
            && s'.rows.Keys == {7} == s'.history.Keys && s'.usedLeases == s.usedLeases + {lease}
            && s'.rows[7] == Leased(s.rows[7], lease, now + 10)
  {
    assert 7 in [7] && forall e | e in [7] :: e == 7;
    assert CanClaim(s, lease, now, [7]);
    hide Leased, Claimable, ClaimNoted;
  }

  /** `attempts <= maxAttempts` does not hold: one claim, a crash and a reclaim pass a maximum of one. */
  lemma AttemptsCanPassTheMaximum()
    ensures ValidPolicy(ONE_ATTEMPT)
    ensures var s := Run(ONE_ATTEMPT, EMPTY, OVERRUN); 7 in s.rows && s.rows[7].attempts > ONE_ATTEMPT.maxAttempts
  {
    RunOfFour(ONE_ATTEMPT, EMPTY, OVERRUN);
    hide Run, AfterClaim;
    var s1 := Step(ONE_ATTEMPT, EMPTY, OVERRUN[0]);
    assert s1.rows == map[7 := Enqueued(ENVELOPE, 0)] && s1.history.Keys == {7} && s1.usedLeases == {};
    OnlyEventIsClaimed(s1, 100, 0);
    var s2 := Step(ONE_ATTEMPT, s1, OVERRUN[1]);
    var s3 := Step(ONE_ATTEMPT, s2, OVERRUN[2]);
    OnlyEventIsClaimed(s3, 101, 10);
  }

  lemma RunOfFour(p: Policy, s: System, actions: seq<Action>)
    requires ValidPolicy(p) && |actions| == 4
    ensures Run(p, s, actions) == Step(p, Step(p, Step(p, Step(p, s, actions[0]), actions[1]), actions[2]), actions[3])
  {
    hide Step;
    var s1 := Step(p, s, actions[0]);
    var s2 := Step(p, s1, actions[1]);
    var s3 := Step(p, s2, actions[2]);
    var rest1, rest2, rest3 := actions[1..], actions[2..], actions[3..];
    assert rest1[0] == actions[1] && rest1[1..] == rest2;
    assert rest2[0] == actions[2] && rest2[1..] == rest3;
    assert rest3[0] == actions[3] && rest3[1..] == [];
    assert Run(p, s3, rest3) == Run(p, Step(p, s3, actions[3]), []) == Step(p, s3, actions[3]);
    assert Run(p, s2, rest2) == Run(p, s3, rest3);
    assert Run(p, s1, rest1) == Run(p, s2, rest2);
  }

  // ----- One worker's undisturbed batch is a run of the protocol -----

  function SettleActions(b: Batch, events: seq<ClaimedEvent>): seq<Action> {
    if events == [] then []
    else
      var e := events[0].event;
      [Publish(b.leaseId, b.outcome(e)), Settle(b.leaseId, b.settledAt(e), b.jitter(e))] + SettleActions(b, events[1..])
  }

  lemma PublishThenSettle(p: Policy, s: System, b: Batch, events: seq<ClaimedEvent>)
    requires ValidPolicy(p) && s.history.Keys == s.rows.Keys && events != []
    requires b.leaseId in s.workers && s.workers[b.leaseId] == Worker(events, Ready)
    requires Holds(s.rows, events[0].event, b.leaseId)
    ensures var e := events[0].event;
            var s' := Step(p, Step(p, s, Publish(b.leaseId, b.outcome(e))), Settle(b.leaseId, b.settledAt(e), b.jitter(e)));
            && s'.history.Keys == s'.rows.Keys
            && s'.rows == s.rows[e := SettledRow(p, s.rows[e], events[0].attempts, b.outcome(e), b.settledAt(e), b.jitter(e))]
            && b.leaseId in s'.workers && s'.workers[b.leaseId] == Worker(events[1..], Ready)
  {
    hide SettledRow;
  }

  lemma {:induction false} RestOfBatch(p: Policy, s: System, b: Batch, rows: Rows, chosen: set<Uuid>, done: set<Uuid>,
                                       events: seq<ClaimedEvent>)
    requires ValidPolicy(p) && s.history.Keys == s.rows.Keys
    requires b.leaseId in s.workers && s.workers[b.leaseId] == Worker(events, Ready)
    requires s.rows == MidBatchRows(p, rows, chosen, done, b)
    requires forall i, j | 0 <= i < j < |events| :: events[i].event != events[j].event
    requires forall i | 0 <= i < |events| ::
               && events[i].event in rows && events[i].event in chosen && events[i].event !in done
               && events[i].attempts == rows[events[i].event].attempts + 1
    ensures Run(p, s, SettleActions(b, events)).rows == MidBatchRows(p, rows, chosen, done + ClaimedIds(events), b)
    decreases |events|
  {
    hide Step, SettledRow, MidBatchRows;
    if events == [] {
      assert done + ClaimedIds(events) == done;
    } else {
      var e := events[0].event;
      MidBatchStep(p, rows, chosen, done, b, e);
      PublishThenSettle(p, s, b, events);
      RunOfTurn(p, s, b, events);
      var s2 := Step(p, Step(p, s, Publish(b.leaseId, b.outcome(e))), Settle(b.leaseId, b.settledAt(e), b.jitter(e)));
      ClaimedIdsOfMore(events, done);
      hide Run, SettleActions, ClaimedIds;
      RestOfBatch(p, s2, b, rows, chosen, done + {e}, events[1..]);
    }
  }

  lemma ClaimedIdsOfMore(events: seq<ClaimedEvent>, done: set<Uuid>)
    requires events != []
    ensures done + ClaimedIds(events) == done + {events[0].event} + ClaimedIds(events[1..])
  {
    assert events == [events[0]] + events[1..];
  }

  lemma RunOfTurn(p: Policy, s: System, b: Batch, events: seq<ClaimedEvent>)
    requires ValidPolicy(p) && events != []
    ensures var e := events[0].event;
            Run(p, s, SettleActions(b, events)) ==
            Run(p, Step(p, Step(p, s, Publish(b.leaseId, b.outcome(e))), Settle(b.leaseId, b.settledAt(e), b.jitter(e))),
                SettleActions(b, events[1..]))
  {
    hide Step;
    var e, actions := events[0].event, SettleActions(b, events);
    var s1 := Step(p, s, Publish(b.leaseId, b.outcome(e)));
    assert actions[1..][1..] == SettleActions(b, events[1..]);
    assert Run(p, s, actions) == Run(p, s1, actions[1..]);
  }

  /**
   The batch of `RelayOutboxBatch` is the protocol run that claims, then publishes and settles row by row, with nobody
   in between.
   */
  lemma BatchIsARun(p: Policy, s: System, b: Batch, picked: seq<Uuid>)
    requires ValidPolicy(p) && s.history.Keys == s.rows.Keys && CanClaim(s, b.leaseId, b.now, picked)
    ensures var actions := [Claim(b.leaseId, b.now, picked)] + SettleActions(b, Taken(s, b.leaseId, picked));
            Run(p, s, actions).rows == BatchRows(p, s.rows, Elements(picked), b)
  {
    hide SettledRow, BatchRow;
    var chosen, events := Elements(picked), Taken(s, b.leaseId, picked);
    var s1 := Step(p, s, Claim(b.leaseId, b.now, picked));
    MidBatchEnds(p, s.rows, chosen, b);
    forall i | 0 <= i < |events|
      ensures events[i].event in chosen && events[i].attempts == s.rows[events[i].event].attempts + 1
    {
      assert picked[i] in picked;
    }
    RestOfBatch(p, s1, b, s.rows, chosen, {}, events);
    assert {} + ClaimedIds(events) == chosen by {
      forall e | e in chosen
        ensures e in ClaimedIds(events)
      {
        var i :| 0 <= i < |picked| && picked[i] == e;
        assert events[i] in events;
      }
    }
    var actions := [Claim(b.leaseId, b.now, picked)] + SettleActions(b, events);
    assert actions[1..] == SettleActions(b, events);
  }

  lemma {:induction false} Enumerated(items: set<Uuid>) returns (listed: seq<Uuid>)
    ensures NoDuplicates(listed) && Elements(listed) == items
  {
    if items == {} {
      listed := [];
    } else {
      var x :| x in items;
      var rest := Enumerated(items - {x});
      assert x !in Elements(rest);
      listed := rest + [x];
      assert Elements(listed) == Elements(rest) + {x};
    }
  }

  /** The relay's own choice can always be claimed. */
  lemma BatchChoiceCanBeClaimed(p: Policy, s: System, b: Batch, locked: set<Uuid>, picked: seq<Uuid>)
    requires ValidPolicy(p) && b.leaseId !in s.usedLeases
    requires picked != [] && NoDuplicates(picked) && Elements(picked) == BatchChoice(p, s.rows, b.now, locked)
    ensures CanClaim(s, b.leaseId, b.now, picked)
  {
    forall e | e in picked
      ensures e in s.rows && Claimable(s.rows[e], b.now)
    {
      assert e in Elements(picked);
    }
  }

  /** The actions of one worker's batch; a batch that finds nothing does nothing. */
  function BatchActions(s: System, b: Batch, picked: seq<Uuid>): seq<Action>
    requires forall e | e in picked :: e in s.rows
  {
    if picked == [] then [] else [Claim(b.leaseId, b.now, picked)] + SettleActions(b, Taken(s, b.leaseId, picked))
  }

  lemma {:induction false} SettleActionsOnlySettle(b: Batch, events: seq<ClaimedEvent>)
    ensures forall a | a in SettleActions(b, events) :: a.Publish? || a.Settle?
  {
    if events != [] {
      SettleActionsOnlySettle(b, events[1..]);
    }
  }

  lemma StepKeepsLeases(p: Policy, s: System, a: Action)
    requires ValidPolicy(p) && s.history.Keys == s.rows.Keys
    ensures var s' := Step(p, s, a);
            && s'.history.Keys == s'.rows.Keys
            && s'.usedLeases <= s.usedLeases + if a.Claim? then {a.lease} else {}
  {
    hide SettledRow, ClaimNoted;
  }

  lemma {:induction false} RunKeepsLeases(p: Policy, s: System, actions: seq<Action>, lease: Uuid)
    requires ValidPolicy(p) && s.history.Keys == s.rows.Keys
    requires forall a | a in actions :: a.Claim? ==> a.lease == lease
    ensures var s' := Run(p, s, actions); s'.history.Keys == s'.rows.Keys && s'.usedLeases <= s.usedLeases + {lease}
    decreases |actions|
  {
    hide Step;
    if actions != [] {
      StepKeepsLeases(p, s, actions[0]);
      RunKeepsLeases(p, Step(p, s, actions[0]), actions[1..], lease);
    }
  }

  /**
   What the relay does to the table in one batch, the worker does in the protocol, without a crash and under its one
   lease.
   */
  lemma RelayBatchIsARun(p: Policy, s: System, b: Batch, locked: set<Uuid>) returns (actions: seq<Action>)
    requires ValidPolicy(p) && s.history.Keys == s.rows.Keys && b.leaseId !in s.usedLeases
    ensures forall a | a in actions :: !a.Crash? && (a.Claim? ==> a.lease == b.leaseId)
    ensures Run(p, s, actions).rows == BatchRows(p, s.rows, BatchChoice(p, s.rows, b.now, locked), b)
    ensures Run(p, s, actions).history.Keys == Run(p, s, actions).rows.Keys
    ensures Run(p, s, actions).usedLeases <= s.usedLeases + {b.leaseId}
  {
    var chosen := BatchChoice(p, s.rows, b.now, locked);
    var picked := Enumerated(chosen);
    if picked == [] {
      actions := [];
      NothingChosen(p, s.rows, b);
    } else {
      BatchChoiceCanBeClaimed(p, s, b, locked, picked);
      actions := BatchActions(s, b, picked);
      SettleActionsOnlySettle(b, Taken(s, b.leaseId, picked));
      hide SettleActions, BatchRows, CanClaim, BatchChoice;
      BatchIsARun(p, s, b, picked);
    }
    RunKeepsLeases(p, s, actions, b.leaseId);
  }

  lemma NothingChosen(p: Policy, rows: Rows, b: Batch)
    requires ValidPolicy(p)
    ensures BatchRows(p, rows, {}, b) == rows
  {
  }

  lemma {:induction false} RunTwice(p: Policy, s: System, one: seq<Action>, two: seq<Action>)
    requires ValidPolicy(p)
    ensures Run(p, s, one + two) == Run(p, Run(p, s, one), two)
    decreases |one|
  {
    hide Step;
    if one == [] {
      assert one + two == two;
    } else {
      assert (one + two)[1..] == one[1..] + two;
      RunTwice(p, Step(p, s, one[0]), one[1..], two);
    }
  }
}
