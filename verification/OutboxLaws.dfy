/** What claims and settlements do to a row, column by column, and what follows for workers and batches. */
module OutboxLaws {
  import opened Common
  import opened OutboxStore
  import opened OutboxRelay
  import opened OutboxProtocol
  import opened OutboxTheorems

  /** A policy is valid if each of its numbers lies between 1 and 2^53 - 1, and the base is no more than the maximum. */
  lemma ValidPolicyIff(p: Policy)
    ensures ValidPolicy(p) <==>
            && (forall n | n in [p.batchSize, p.leaseDurationMs, p.maxAttempts, p.retryBaseMs, p.retryMaxMs] ::
                  0 < n && n < 9_007_199_254_740_992)
            && p.retryMaxMs >= p.retryBaseMs
  {
    var all := [p.batchSize, p.leaseDurationMs, p.maxAttempts, p.retryBaseMs, p.retryMaxMs];
    assert all[0] in all && all[1] in all && all[2] in all && all[3] in all && all[4] in all;
  }

  // ----- What the histories record -----

  /** A claim is recorded for each event it takes, as a reclaim if the event was still being delivered. */
  lemma ClaimIsRecorded(p: Policy, s: System, lease: Uuid, now: Instant, picked: seq<Uuid>, e: Uuid)
    requires ValidPolicy(p) && s.history.Keys == s.rows.Keys && CanClaim(s, lease, now, picked) && e in s.rows
    ensures var (h, s') := (s.history[e], Step(p, s, Claim(lease, now, picked)));
            && e in s'.history
            && (e !in picked ==> s'.history[e] == h)
            && (e in picked ==>
                  && s'.history[e].claims == h.claims + [lease]
                  && s'.history[e].reclaims == h.reclaims + (if s.rows[e].status == Delivering then 1 else 0)
                  && s'.history[e].publications == h.publications && s'.history[e].deliveredUnder == h.deliveredUnder)
  {
  }

  /** A publication is recorded for its event, with its lease and the publisher's answer; a new event has no record. */
  lemma PublicationIsRecorded(p: Policy, s: System, a: Action, e: Uuid)
    requires ValidPolicy(p) && s.history.Keys == s.rows.Keys
    requires a.Publish? || a.Enqueue?
    ensures var s' := Step(p, s, a);
            && s.history.Keys <= s'.history.Keys
            && (a.Publish? && CanPublish(s, a.lease) && e == s.workers[a.lease].queue[0].event ==>
                  var h := s.history[e];
                  s'.history[e] == h.(publications := h.publications + [Publication(a.lease, a.outcome)]))
            && (a.Enqueue? && a.event !in s.rows ==>
                  && a.event in s'.history && s'.history[a.event].claims == [] && s'.history[a.event].publications == []
                  && s'.history[a.event].deliveredUnder == None && s'.history[a.event].reclaims == 0)
            && forall x | x in s.history ::
                 || s'.history[x] == s.history[x]
                 || (a.Publish? && CanPublish(s, a.lease) && x == s.workers[a.lease].queue[0].event)
  {
  }

  // ----- Enqueue and claim -----

  /** A new row carries its envelope, was never tried, and can be claimed exactly from its time on. */
  lemma EnqueuedRowIsDue(envelope: Envelope, at: Instant, locked: set<Uuid>, e: Uuid, now: Instant)
    ensures Enqueued(envelope, at).envelope == envelope && Enqueued(envelope, at).attempts == 0
    ensures e in Candidates(map[e := Enqueued(envelope, at)], now, locked) <==> e !in locked && at <= now
  {
  }

  /** The columns a claim writes, and those it leaves. */
  lemma ClaimedColumns(rows: Rows, chosen: set<Uuid>, lease: Uuid, until: Instant, e: Uuid)
    requires e in rows
    ensures var rows' := ClaimedRows(rows, chosen, lease, until);
            && rows'.Keys == rows.Keys
            && (e !in chosen ==> rows'[e] == rows[e])
            && (e in chosen ==>
                  && rows'[e].status == Delivering && rows'[e].leaseId == Some(lease)
                  && rows'[e].leaseExpiresAt == Some(until) && rows'[e].attempts == rows[e].attempts + 1
                  && rows'[e].envelope == rows[e].envelope && rows'[e].availableAt == rows[e].availableAt)
  {
  }

  /** A claimed row is out of reach of every claim until its lease has run out, and in reach from then on. */
  lemma ClaimedRowIsLeased(rows: Rows, chosen: set<Uuid>, lease: Uuid, until: Instant, e: Uuid, locked: set<Uuid>, t: Instant)
    requires e in rows && e in chosen
    ensures e in Candidates(ClaimedRows(rows, chosen, lease, until), t, locked) <==>
            e !in locked && rows[e].availableAt <= t && until <= t
  {
  }

  /** The rows a claim takes are due, unlocked, and pending or with their lease run out; as many as fit, the earliest first. */
  lemma ClaimTakesTheEarliest(rows: Rows, now: Instant, locked: set<Uuid>, limit: nat, chosen: set<Uuid>)
    requires chosen == Oldest(rows, Candidates(rows, now, locked), limit)
    ensures forall e | e in chosen ::
              && e in rows && e !in locked && rows[e].availableAt <= now
              && (rows[e].status == Pending ||
                  (rows[e].status == Delivering && rows[e].leaseExpiresAt.Some? && rows[e].leaseExpiresAt.value <= now))
    ensures |chosen| <= limit
    ensures forall e | e in rows && e !in chosen && e !in locked && rows[e].availableAt <= now && rows[e].status == Pending ::
              && |chosen| == limit
              && forall c | c in chosen ::
                   rows[c].availableAt < rows[e].availableAt || (rows[c].availableAt == rows[e].availableAt && c < e)
  {
    var pool := Candidates(rows, now, locked);
    assert chosen <= pool;
    forall e | e in rows && e !in chosen && e !in locked && rows[e].availableAt <= now && rows[e].status == Pending
      ensures |chosen| == limit
      ensures forall c | c in chosen ::
                rows[c].availableAt < rows[e].availableAt || (rows[c].availableAt == rows[e].availableAt && c < e)
    {
      assert e in pool - chosen;
      assert pool == chosen + (pool - chosen);
    }
  }

  /**
   Over runs: when a claim takes an event away from a worker that has not settled it, the clock has reached what that
   worker's own claim asked for.
   */
  lemma ReclaimsWaitForTheLease(p: Policy, actions: seq<Action>, lease: Uuid, now: Instant, picked: seq<Uuid>, e: Uuid)
    requires ValidPolicy(p) && CanClaim(Run(p, EMPTY, actions), lease, now, picked) && e in picked
    requires Run(p, EMPTY, actions).rows[e].status == Delivering
    ensures var s := Run(p, EMPTY, actions);
            && e in s.history && s.history[e].claims != []
            && s.rows[e].leaseId == Some(s.history[e].claims[|s.history[e].claims| - 1])
            && s.history[e].leasedUntil <= now
  {
    EmptyIsInvariant(p);
    RunKeepsInv(p, EMPTY, actions);
    var s := Run(p, EMPTY, actions);
    hide Run;
    assert EventOk(p, s.usedLeases, s.rows[e], s.history[e]);
  }

  /** What a claim asks for is its own clock reading and the policy's lease duration. */
  lemma ClaimsAskForTheDuration(p: Policy, s: System, lease: Uuid, now: Instant, picked: seq<Uuid>, e: Uuid)
    requires ValidPolicy(p) && s.history.Keys == s.rows.Keys && CanClaim(s, lease, now, picked) && e in picked
    ensures var s' := Step(p, s, Claim(lease, now, picked));
            && e in s'.history && s'.history[e].leasedUntil == now + p.leaseDurationMs
            && e in s'.rows && s'.rows[e].leaseExpiresAt == Some(now + p.leaseDurationMs)
  {
  }

  // ----- Settlement -----

  /** In the protocol: a settlement under a held lease. A terminal failure is final at the first attempt as at the last. */
  lemma SettlementFollowsTheAnswer(p: Policy, s: System, lease: Uuid, at: Instant, jitter: real)
    requires ValidPolicy(p) && s.history.Keys == s.rows.Keys && CanSettle(s, lease)
    requires Holds(s.rows, s.workers[lease].queue[0].event, lease)
    ensures var (s', w) := (Step(p, s, Settle(lease, at, jitter)), s.workers[lease]);
            var e := w.queue[0].event;
            && s'.rows.Keys == s.rows.Keys
            && SettledAs(p, s.rows[e], s'.rows[e], w.queue[0].attempts, w.phase.outcome, at, jitter)
            && forall x | x in s.rows && x != e :: s'.rows[x] == s.rows[x]
  {
    var w := s.workers[lease];
    SettledColumns(p, s.rows[w.queue[0].event], w.queue[0].attempts, w.phase.outcome, at, jitter);
    hide SettledAs, SettledRow;
  }

  // ----- Back-off -----

  /** The first retry waits for the base, and every further one twice as long as the one before, up to the maximum. */
  lemma BackoffDoubles(p: Policy, attempts: int)
    requires ValidPolicy(p)
    ensures attempts <= 1 ==> CappedBackoff(p, attempts) == p.retryBaseMs
    ensures attempts >= 1 ==>
              CappedBackoff(p, attempts + 1) ==
              if 2 * CappedBackoff(p, attempts) <= p.retryMaxMs then 2 * CappedBackoff(p, attempts) else p.retryMaxMs
  {
    if attempts >= 1 {
      TwiceTheProduct(p.retryBaseMs, Power2(attempts - 1));
      PositiveProduct(p.retryBaseMs, Power2(attempts - 1));
    }
  }

  lemma TwiceTheProduct(a: int, b: int)
    ensures a * (2 * b) == 2 * (a * b)
  {
  }

  /** Without jitter half the back-off is waited for, with full jitter all of it; more jitter never shortens the wait. */
  lemma JitterLengthensTheDelay(p: Policy, attempts: int, less: real, more: real)
    requires ValidPolicy(p) && less <= more
    ensures RetryDelay(p, attempts, less) <= RetryDelay(p, attempts, more)
    ensures more >= 1.0 ==> RetryDelay(p, attempts, more) == CappedBackoff(p, attempts)
    ensures less <= 0.0 ==> RetryDelay(p, attempts, less) == (CappedBackoff(p, attempts) + 1) / 2
  {
    var capped := CappedBackoff(p, attempts);
    hide CappedBackoff;
    JitterOrder(capped, less, more);
    WholeDelay(capped);
    HalfDelay(capped);
  }

  lemma JitterOrder(capped: int, less: real, more: real)
    requires 0 <= capped && less <= more
    ensures Delay(capped, less) <= Delay(capped, more)
  {
    var low, high := 0.5 + BoundedJitter(less) / 2.0, 0.5 + BoundedJitter(more) / 2.0;
    assert 0.0 <= low <= high;
    hide BoundedJitter, Round;
    RealProductOrder(capped as real, capped as real, low, high);
    RoundMonotone(capped as real * low, capped as real * high);
  }

  lemma WholeDelay(capped: int)
    ensures forall jitter: real | jitter >= 1.0 :: Delay(capped, jitter) == capped
  {
    assert (capped as real + 0.5).Floor == capped;
  }

  lemma HalfDelay(capped: int)
    ensures forall jitter: real | jitter <= 0.0 :: Delay(capped, jitter) == (capped + 1) / 2
  {
    var half := (capped + 1) / 2;
    assert 2 * half == capped || 2 * half == capped + 1;
    assert capped as real * 0.5 + 0.5 == (capped + 1) as real / 2.0;
    assert ((capped + 1) as real / 2.0).Floor == half;
  }
}
