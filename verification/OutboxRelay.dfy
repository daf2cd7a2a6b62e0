/** The relay: its policy, its back-off, and one batch. */
module OutboxRelay {
  import opened Common
  import opened OutboxStore

  datatype Policy = Policy(
    batchSize: int,
    leaseDurationMs: int,
    maxAttempts: int,
    retryBaseMs: int,
    retryMaxMs: int)

  predicate ValidPolicy(p: Policy) {
    && 1 <= p.batchSize <= MAX_SAFE_INTEGER
    && 1 <= p.leaseDurationMs <= MAX_SAFE_INTEGER
    && 1 <= p.maxAttempts <= MAX_SAFE_INTEGER
    && 1 <= p.retryBaseMs <= p.retryMaxMs <= MAX_SAFE_INTEGER
  }

  // ----- Back-off -----

  function Power2(n: nat): (r: nat)
    ensures r >= 1
  {
    if n == 0 then 1 else 2 * Power2(n - 1)
  }

  /** min(retryMaxMs, retryBaseMs * 2 ** max(0, attempts - 1)) */
  function CappedBackoff(p: Policy, attempts: int): (capped: int)
    requires ValidPolicy(p)
    ensures 1 <= capped <= p.retryMaxMs
  {
    var exponential := p.retryBaseMs * Power2(if attempts >= 1 then attempts - 1 else 0);
    PositiveProduct(p.retryBaseMs, Power2(if attempts >= 1 then attempts - 1 else 0));
    if p.retryMaxMs <= exponential then p.retryMaxMs else exponential
  }

  lemma PositiveProduct(a: int, b: int)
    requires a >= 1 && b >= 1
    ensures a * b >= a
  {
    assert a * b - a == a * (b - 1);
    assert a * (b - 1) >= 0;
  }

  /** `Math.round`: the nearest integer, halves towards positive infinity. */
  function Round(x: real): int {
    (x + 0.5).Floor
  }

  function BoundedJitter(jitter: real): real {
    if jitter < 0.0 then 0.0 else if jitter > 1.0 then 1.0 else jitter
  }

  /** Half of the capped back-off, and the other half by jitter. */
  function Delay(capped: int, jitter: real): int {
    Round(capped as real * (0.5 + BoundedJitter(jitter) / 2.0))
  }

  function RetryDelay(p: Policy, attempts: int, jitter: real): int
    requires ValidPolicy(p)
  {
    Delay(CappedBackoff(p, attempts), jitter)
  }

  lemma RealProductOrder(a: real, b: real, x: real, y: real)
    requires 0.0 <= a <= b && 0.0 <= x <= y
    ensures a * x <= b * y
  {
    assert a * x <= a * y;
    assert a * y <= b * y;
  }

  lemma RoundBetween(capped: int, x: real)
    requires capped as real * 0.5 <= x <= capped as real
    ensures Round(x) <= capped <= 2 * Round(x)
  {
    var r := Round(x);
    assert r as real <= x + 0.5 < r as real + 1.0;
    assert (2 * r) as real > (capped - 1) as real;
  }

  lemma DelayBetween(capped: int, jitter: real)
    requires 1 <= capped
    ensures Delay(capped, jitter) <= capped <= 2 * Delay(capped, jitter)
  {
    var factor := 0.5 + BoundedJitter(jitter) / 2.0;
    assert 0.5 <= factor <= 1.0;
    hide Round, BoundedJitter;
    RealProductOrder(capped as real, capped as real, 0.5, factor);
    RealProductOrder(capped as real, capped as real, factor, 1.0);
    RoundBetween(capped, capped as real * factor);
  }

  lemma RoundMonotone(x: real, y: real)
    requires x <= y
    ensures Round(x) <= Round(y)
  {
  }

  /** The delay is a positive number of milliseconds, at least half the capped back-off and never more than the cap. */
  lemma RetryDelayBounds(p: Policy, attempts: int, jitter: real)
    requires ValidPolicy(p)
    ensures 1 <= RetryDelay(p, attempts, jitter) <= p.retryMaxMs
    ensures CappedBackoff(p, attempts) <= 2 * RetryDelay(p, attempts, jitter) <= 2 * CappedBackoff(p, attempts)
  {
    hide Delay;
    DelayBetween(CappedBackoff(p, attempts), jitter);
    hide CappedBackoff;
  }

  lemma {:induction false} Power2Monotone(m: nat, n: nat)
    requires m <= n
    ensures Power2(m) <= Power2(n)
  {
    if m < n {
      Power2Monotone(m, n - 1);
    }
  }

  lemma IntProductOrder(a: int, x: int, y: int)
    requires a >= 0 && x <= y
    ensures a * x <= a * y
  {
    assert a * (y - x) >= 0;
    assert a * y == a * x + a * (y - x);
  }

  lemma DelayMonotone(low: int, high: int, jitter: real)
    requires 0 <= low <= high
    ensures Delay(low, jitter) <= Delay(high, jitter)
  {
    var factor := 0.5 + BoundedJitter(jitter) / 2.0;
    assert 0.5 <= factor;
    hide Round, BoundedJitter;
    RealProductOrder(low as real, high as real, factor, factor);
    RoundMonotone(low as real * factor, high as real * factor);
  }

  lemma CappedBackoffMonotone(p: Policy, fewer: int, more: int)
    requires ValidPolicy(p) && fewer <= more
    ensures CappedBackoff(p, fewer) <= CappedBackoff(p, more)
  {
    var m := if fewer >= 1 then fewer - 1 else 0;
    var n := if more >= 1 then more - 1 else 0;
    Power2Monotone(m, n);
    IntProductOrder(p.retryBaseMs, Power2(m), Power2(n));
  }

  /** More attempts never shorten the wait, and nothing changes once the cap is reached. */
  lemma RetryDelayMonotone(p: Policy, fewer: int, more: int, jitter: real)
    requires ValidPolicy(p) && fewer <= more
    ensures RetryDelay(p, fewer, jitter) <= RetryDelay(p, more, jitter)
    ensures CappedBackoff(p, fewer) == p.retryMaxMs ==> RetryDelay(p, more, jitter) == RetryDelay(p, fewer, jitter)
  {
    hide Delay, CappedBackoff;
    CappedBackoffMonotone(p, fewer, more);
    DelayMonotone(CappedBackoff(p, fewer), CappedBackoff(p, more), jitter);
  }

  // ----- Settlement -----

  datatype PublishOutcome = Accepted | Unavailable | TerminalFailure

  const TERMINAL_REASON := "terminal workflow delivery failure"
  const UNAVAILABLE_REASON := "workflow provider unavailable"

  lemma ReasonsAreNotBlank()
    ensures !IsBlank(TERMINAL_REASON) && !IsBlank(UNAVAILABLE_REASON)
  {
    assert TERMINAL_REASON[0] == 't' && 't' in TERMINAL_REASON && !IsWhiteSpace('t');
    assert UNAVAILABLE_REASON[0] == 'w' && 'w' in UNAVAILABLE_REASON && !IsWhiteSpace('w');
  }

  /** How the relay settles a row that it claimed with `attempts` and published with `outcome`, at clock reading `at`. */
  function SettledRow(p: Policy, row: Row, attempts: nat, outcome: PublishOutcome, at: Instant, jitter: real): Row
    requires ValidPolicy(p)
  {
    match outcome
    case Accepted => MarkedDelivered(row, at)
    case TerminalFailure => MarkedFailed(row, TERMINAL_REASON)
    case Unavailable =>
      if attempts >= p.maxAttempts then MarkedFailed(row, UNAVAILABLE_REASON)
      else MarkedRetried(row, at + RetryDelay(p, attempts, jitter), UNAVAILABLE_REASON)
  }

  /** How each answer of the publisher leaves a row, column by column. */
  ghost predicate SettledAs(p: Policy, row: Row, row': Row, attempts: nat, outcome: PublishOutcome, at: Instant, jitter: real)
    requires ValidPolicy(p)
  {
    && row'.envelope == row.envelope && row'.attempts == row.attempts
    && row'.leaseId == None && row'.leaseExpiresAt == None
    && match outcome
       case Accepted =>
         row'.status == Delivered && row'.deliveredAt == Some(at) && row'.failureReason == None
       case TerminalFailure =>
         row'.status == Failed && row'.failureReason == Some("terminal workflow delivery failure")
       case Unavailable =>
         && row'.failureReason == Some("workflow provider unavailable")
         && (attempts >= p.maxAttempts ==> row'.status == Failed)
         && (attempts < p.maxAttempts ==>
               row'.status == Pending && row'.availableAt == at + RetryDelay(p, attempts, jitter))
  }

  lemma SettledColumns(p: Policy, row: Row, attempts: nat, outcome: PublishOutcome, at: Instant, jitter: real)
    requires ValidPolicy(p)
    ensures SettledAs(p, row, SettledRow(p, row, attempts, outcome, at, jitter), attempts, outcome, at, jitter)
  {
    hide RetryDelay;
  }

  /** A retried row cannot be claimed at or before the moment its publication failed. */
  lemma RetriedRowWaits(p: Policy, row: Row, attempts: nat, at: Instant, jitter: real, now: Instant)
    requires ValidPolicy(p) && attempts < p.maxAttempts
    ensures var next := SettledRow(p, row, attempts, Unavailable, at, jitter);
            && next.status == Pending
            && (Claimable(next, now) <==> at + RetryDelay(p, attempts, jitter) <= now)
            && (Claimable(next, now) ==> at < now)
            && (at + p.retryMaxMs <= now ==> Claimable(next, now))
  {
    RetryDelayBounds(p, attempts, jitter);
  }

  // ----- One batch -----

  /** Everything one batch reads from outside the table: clock, lease, publisher and jitter, the last three per event. */
  datatype Batch = Batch(
    now: Instant,
    leaseId: Uuid,
    outcome: Uuid -> PublishOutcome,
    settledAt: Uuid -> Instant,
    jitter: Uuid -> real)

  datatype RelayResult = RelayResult(claimed: nat, delivered: nat, failed: nat, retried: nat)

  datatype RelayError = InvalidPolicy | LeaseLost

  ghost function BatchChoice(p: Policy, rows: Rows, now: Instant, locked: set<Uuid>): set<Uuid>
    requires ValidPolicy(p)
  {
    Oldest(rows, Candidates(rows, now, locked), p.batchSize)
  }

  /** A row that a batch has taken: claimed, then settled by its own outcome. */
  function BatchRow(p: Policy, row: Row, b: Batch, e: Uuid): Row
    requires ValidPolicy(p)
  {
    SettledRow(p, Leased(row, b.leaseId, b.now + p.leaseDurationMs), row.attempts + 1,
               b.outcome(e), b.settledAt(e), b.jitter(e))
  }

  /** The table after a batch: the chosen rows are claimed and settled, the others are untouched. */
  function BatchRows(p: Policy, rows: Rows, chosen: set<Uuid>, b: Batch): Rows
    requires ValidPolicy(p)
  {
    map e | e in rows :: if e in chosen then BatchRow(p, rows[e], b, e) else rows[e]
  }

  /** The table while a batch runs: every chosen row is claimed, those in `done` are settled too. */
  ghost function MidBatchRows(p: Policy, rows: Rows, chosen: set<Uuid>, done: set<Uuid>, b: Batch): Rows
    requires ValidPolicy(p)
  {
    map e | e in rows ::
      if e in done then BatchRow(p, rows[e], b, e)
      else if e in chosen then Leased(rows[e], b.leaseId, b.now + p.leaseDurationMs)
      else rows[e]
  }

  lemma MidBatchStep(p: Policy, rows: Rows, chosen: set<Uuid>, done: set<Uuid>, b: Batch, e: Uuid)
    requires ValidPolicy(p) && e in rows && e in chosen && e !in done
    ensures var now := MidBatchRows(p, rows, chosen, done, b);
            && Holds(now, e, b.leaseId)
            && MidBatchRows(p, rows, chosen, done + {e}, b) ==
               now[e := SettledRow(p, now[e], rows[e].attempts + 1, b.outcome(e), b.settledAt(e), b.jitter(e))]
  {
    hide SettledRow;
  }

  lemma MidBatchEnds(p: Policy, rows: Rows, chosen: set<Uuid>, b: Batch)
    requires ValidPolicy(p)
    ensures MidBatchRows(p, rows, chosen, {}, b) == ClaimedRows(rows, chosen, b.leaseId, b.now + p.leaseDurationMs)
    ensures MidBatchRows(p, rows, chosen, chosen, b) == BatchRows(p, rows, chosen, b)
    ensures DeliveredOf(b, {}) == {} == RetriedOf(p, rows, b, {})
  {
    hide SettledRow;
  }

  predicate IsRetried(p: Policy, rows: Rows, b: Batch, e: Uuid) {
    e in rows && b.outcome(e) == Unavailable && rows[e].attempts + 1 < p.maxAttempts
  }

  ghost function DeliveredOf(b: Batch, events: set<Uuid>): set<Uuid> {
    Where(events, (e: Uuid) => b.outcome(e) == Accepted)
  }

  ghost function RetriedOf(p: Policy, rows: Rows, b: Batch, events: set<Uuid>): set<Uuid> {
    Where(events, (e: Uuid) => IsRetried(p, rows, b, e))
  }

  lemma CountOneMore(p: Policy, rows: Rows, b: Batch, events: set<Uuid>, e: Uuid)
    requires e !in events
    ensures |DeliveredOf(b, events + {e})| == |DeliveredOf(b, events)| + (if b.outcome(e) == Accepted then 1 else 0)
    ensures |RetriedOf(p, rows, b, events + {e})| ==
            |RetriedOf(p, rows, b, events)| + (if IsRetried(p, rows, b, e) then 1 else 0)
  {
    WhereGrows(events, (e: Uuid) => b.outcome(e) == Accepted, e);
    WhereGrows(events, (e: Uuid) => IsRetried(p, rows, b, e), e);
  }

  /** The states of the chosen rows after a batch that was left alone. */
  lemma BatchStates(p: Policy, rows: Rows, chosen: set<Uuid>, b: Batch, e: Uuid)
    requires ValidPolicy(p) && e in rows
    ensures var rows' := BatchRows(p, rows, chosen, b);
            && rows'.Keys == rows.Keys
            && (e !in chosen ==> rows'[e] == rows[e])
            && (e in chosen ==>
                  && rows'[e].attempts == rows[e].attempts + 1
                  && (rows'[e].status == Delivered <==> b.outcome(e) == Accepted)
                  && (rows'[e].status == Pending <==> b.outcome(e) == Unavailable && rows[e].attempts + 1 < p.maxAttempts)
                  && (rows'[e].status == Failed <==>
                        b.outcome(e) == TerminalFailure ||
                        (b.outcome(e) == Unavailable && rows[e].attempts + 1 >= p.maxAttempts)))
  {
    if e in chosen {
      SettledColumns(p, Leased(rows[e], b.leaseId, b.now + p.leaseDurationMs), rows[e].attempts + 1, b.outcome(e),
                     b.settledAt(e), b.jitter(e));
    }
    hide SettledRow;
  }

  ghost function InStatus(rows: Rows, events: set<Uuid>, status: Status): set<Uuid> {
    set e | e in events && e in rows && rows[e].status == status
  }

  lemma StatesAddUp(rows: Rows, events: set<Uuid>)
    requires forall e | e in events :: e in rows && rows[e].status != Delivering
    ensures |events| == |InStatus(rows, events, Delivered)| + |InStatus(rows, events, Pending)| + |InStatus(rows, events, Failed)|
  {
    var delivered, pending, failed :=
      InStatus(rows, events, Delivered), InStatus(rows, events, Pending), InStatus(rows, events, Failed);
    assert events == delivered + pending + failed;
    assert |delivered + pending| == |delivered| + |pending|;
  }

  lemma StatesByOutcome(p: Policy, rows: Rows, chosen: set<Uuid>, b: Batch)
    requires ValidPolicy(p) && chosen <= rows.Keys
    ensures var rows' := BatchRows(p, rows, chosen, b);
            && InStatus(rows', chosen, Delivered) == DeliveredOf(b, chosen)
            && InStatus(rows', chosen, Pending) == RetriedOf(p, rows, b, chosen)
            && forall e | e in chosen :: e in rows' && rows'[e].status != Delivering
  {
    hide BatchRows;
    forall e | e in chosen
      ensures var rows' := BatchRows(p, rows, chosen, b);
              && e in rows' && (rows'[e].status == Delivered <==> b.outcome(e) == Accepted)
              && (rows'[e].status == Pending <==> IsRetried(p, rows, b, e)) && rows'[e].status != Delivering
    {
      BatchStates(p, rows, chosen, b, e);
    }
  }

  /** The relay's counters are the numbers of rows it left delivered, pending and failed. */
  lemma CountersAreStates(p: Policy, rows: Rows, chosen: set<Uuid>, b: Batch, r: RelayResult)
    requires ValidPolicy(p) && chosen <= rows.Keys
    requires r.claimed == |chosen| && r.delivered == |DeliveredOf(b, chosen)| && r.retried == |RetriedOf(p, rows, b, chosen)|
    requires r.delivered + r.failed + r.retried == r.claimed
    ensures var rows' := BatchRows(p, rows, chosen, b);
            && r.delivered == |InStatus(rows', chosen, Delivered)|
            && r.retried == |InStatus(rows', chosen, Pending)|
            && r.failed == |InStatus(rows', chosen, Failed)|
  {
    hide BatchRows, InStatus, DeliveredOf, RetriedOf;
    StatesByOutcome(p, rows, chosen, b);
    StatesAddUp(BatchRows(p, rows, chosen, b), chosen);
  }

  lemma ChosenAreRows(p: Policy, rows: Rows, now: Instant, locked: set<Uuid>)
    requires ValidPolicy(p)
    ensures BatchChoice(p, rows, now, locked) <= rows.Keys
  {
  }

  datatype Counter = CountDelivered | CountFailed | CountRetried

  /** The body of the relay's loop: publish one claimed event and settle it. */
  method SettleClaimed(table: OutboxTable, p: Policy, b: Batch, claimed: ClaimedEvent)
    returns (settled: Result<(), StoreError>, counter: Counter)
    requires ValidPolicy(p)
    modifies table
    ensures !Holds(old(table.rows), claimed.event, claimed.leaseId) ==> settled == Err(StateConflict) && table.rows == old(table.rows)
    ensures Holds(old(table.rows), claimed.event, claimed.leaseId) ==>
              && settled == Ok(())
              && table.rows == old(table.rows)[claimed.event :=
                   SettledRow(p, old(table.rows)[claimed.event], claimed.attempts, b.outcome(claimed.event),
                              b.settledAt(claimed.event), b.jitter(claimed.event))]
              && SettledAs(p, old(table.rows)[claimed.event], table.rows[claimed.event], claimed.attempts,
                           b.outcome(claimed.event), b.settledAt(claimed.event), b.jitter(claimed.event))
    ensures counter == CountDelivered <==> b.outcome(claimed.event) == Accepted
    ensures counter == CountRetried <==> b.outcome(claimed.event) == Unavailable && claimed.attempts < p.maxAttempts
  {
    ReasonsAreNotBlank();
    var e := claimed.event;
    if Holds(table.rows, e, claimed.leaseId) {
      SettledColumns(p, table.rows[e], claimed.attempts, b.outcome(e), b.settledAt(e), b.jitter(e));
    }
    hide SettledAs, RetryDelay;
    match b.outcome(e) {
      case Accepted =>
        settled := table.MarkDelivered(b.settledAt(e), e, claimed.leaseId);
        counter := CountDelivered;
      case TerminalFailure =>
        settled := table.Fail(e, TERMINAL_REASON, claimed.leaseId);
        counter := CountFailed;
      case Unavailable =>
        if claimed.attempts >= p.maxAttempts {
          settled := table.Fail(e, UNAVAILABLE_REASON, claimed.leaseId);
          counter := CountFailed;
        } else {
          var delay := RetryDelay(p, claimed.attempts, b.jitter(e));
          settled := table.Retry(b.settledAt(e) + delay, e, UNAVAILABLE_REASON, claimed.leaseId);
          counter := CountRetried;
        }
    }
  }

  function ClaimedIds(events: seq<ClaimedEvent>): set<Uuid> {
    set c | c in events :: c.event
  }

  lemma ClaimedIdsExtend(events: seq<ClaimedEvent>, i: nat)
    requires i < |events|
    ensures ClaimedIds(events[..i + 1]) == ClaimedIds(events[..i]) + {events[i].event}
  {
    assert events[..i + 1] == events[..i] + [events[i]];
  }

  lemma {:induction false} ClaimedIdsCount(events: seq<ClaimedEvent>)
    requires forall i, j | 0 <= i < j < |events| :: events[i].event != events[j].event
    ensures |ClaimedIds(events)| == |events|
  {
    if events == [] {
      assert ClaimedIds(events) == {};
    } else {
      var n := |events| - 1;
      ClaimedIdsCount(events[..n]);
      ClaimedIdsExtend(events, n);
      assert events[..n + 1] == events;
      assert events[n].event !in ClaimedIds(events[..n]);
    }
  }

  /** What other workers make of the table before the worker's i-th settlement. */
  type Others = (nat, Rows) -> Rows

  /** The table after the remaining turns of a batch, and the turn at which the worker finds its lease gone, if it does. */
  function Turns(p: Policy, rows: Rows, b: Batch, events: seq<ClaimedEvent>, i: nat, others: Others): (Rows, Option<nat>)
    requires ValidPolicy(p)
    decreases |events| - i
  {
    if i >= |events| then (rows, None)
    else
      var found, claimed := others(i, rows), events[i];
      var e := claimed.event;
      if !Holds(found, e, claimed.leaseId) then (found, Some(i))
      else Turns(p, found[e := SettledRow(p, found[e], claimed.attempts, b.outcome(e), b.settledAt(e), b.jitter(e))], b, events,
                 i + 1, others)
  }

  lemma OneTurn(p: Policy, rows: Rows, b: Batch, events: seq<ClaimedEvent>, i: nat, others: Others)
    requires ValidPolicy(p) && i < |events|
    ensures var (found, claimed) := (others(i, rows), events[i]);
            var e := claimed.event;
            Turns(p, rows, b, events, i, others) ==
            if Holds(found, e, claimed.leaseId)
            then Turns(p, found[e := SettledRow(p, found[e], claimed.attempts, b.outcome(e), b.settledAt(e), b.jitter(e))], b,
                       events, i + 1, others)
            else (found, Some(i))
  {
  }

  lemma NoTurnLeft(p: Policy, rows: Rows, b: Batch, events: seq<ClaimedEvent>, others: Others)
    requires ValidPolicy(p)
    ensures Turns(p, rows, b, events, |events|, others) == (rows, None)
  {
  }

  ghost predicate Idle(others: Others) {
    forall i, rows :: others(i, rows) == rows
  }

  /** Left alone, a batch never loses its lease, and settles exactly what it claimed. */
  lemma {:induction false} UndisturbedTurns(p: Policy, rows: Rows, chosen: set<Uuid>, b: Batch, events: seq<ClaimedEvent>, i: nat,
                                            others: Others)
    requires ValidPolicy(p) && Idle(others) && i <= |events| && ClaimsExactly(rows, events, chosen, b.leaseId)
    ensures Turns(p, MidBatchRows(p, rows, chosen, ClaimedIds(events[..i]), b), b, events, i, others) ==
            (BatchRows(p, rows, chosen, b), None)
    decreases |events| - i
  {
    hide SettledRow, MidBatchRows, BatchRows;
    if i == |events| {
      assert events[..i] == events && ClaimedIds(events) == chosen;
      MidBatchEnds(p, rows, chosen, b);
    } else {
      var e := events[i].event;
      assert events[i] in events && e in chosen;
      ClaimedIdsExtend(events, i);
      assert e !in ClaimedIds(events[..i]);
      MidBatchStep(p, rows, chosen, ClaimedIds(events[..i]), b, e);
      UndisturbedTurns(p, rows, chosen, b, events, i + 1, others);
    }
  }

  /** Each turn is for another of the chosen rows. */
  lemma NextIsNew(rows: Rows, events: seq<ClaimedEvent>, chosen: set<Uuid>, lease: Uuid, i: nat)
    requires ClaimsExactly(rows, events, chosen, lease) && i < |events|
    ensures var c := events[i];
            && c.event in chosen && c.event !in ClaimedIds(events[..i])
            && c.event in rows && c.leaseId == lease && c.attempts == rows[c.event].attempts + 1
    ensures ClaimedIds(events[..i + 1]) == ClaimedIds(events[..i]) + {events[i].event}
  {
    assert events[i] in events;
    ClaimedIdsExtend(events, i);
  }

  lemma AllAreChosen(rows: Rows, events: seq<ClaimedEvent>, chosen: set<Uuid>, lease: Uuid)
    requires ClaimsExactly(rows, events, chosen, lease)
    ensures events[..|events|] == events && ClaimedIds(events) == chosen && |chosen| == |events|
    ensures ClaimedIds(events[..0]) == {}
  {
    ClaimedIdsCount(events);
  }

  /**
   The batch among other workers. It goes through what it claimed turn by turn; the first conflict over a lost lease ends it
   with the remaining events unsettled. If it comes to its end every claimed row is in exactly one counter, and so it is for
   a worker that is left alone.
   */
  method RelayOutboxBatch(table: OutboxTable, p: Policy, b: Batch, locked: set<Uuid>, others: Others)
    returns (r: Result<RelayResult, RelayError>, events: seq<ClaimedEvent>)
    modifies table
    ensures !ValidPolicy(p) ==> r == Err(InvalidPolicy) && table.rows == old(table.rows)
    ensures ValidPolicy(p) ==>
              var chosen := BatchChoice(p, old(table.rows), b.now, locked);
              var claimed := ClaimedRows(old(table.rows), chosen, b.leaseId, b.now + p.leaseDurationMs);
              && ClaimsExactly(old(table.rows), events, chosen, b.leaseId)
              && table.rows == Turns(p, claimed, b, events, 0, others).0
              && (r == Err(LeaseLost) <==> Turns(p, claimed, b, events, 0, others).1.Some?)
              && (r.Ok? <==> Turns(p, claimed, b, events, 0, others).1.None?)
              && (r.Ok? ==>
                    && r.value.claimed == |chosen|
                    && r.value.delivered == |DeliveredOf(b, chosen)|
                    && r.value.retried == |RetriedOf(p, old(table.rows), b, chosen)|
                    && r.value.delivered + r.value.failed + r.value.retried == r.value.claimed)
              && (Idle(others) ==>
                    && r.Ok?
                    && table.rows == BatchRows(p, old(table.rows), chosen, b)
                    && r.value.delivered == |InStatus(table.rows, chosen, Delivered)|
                    && r.value.retried == |InStatus(table.rows, chosen, Pending)|
                    && r.value.failed == |InStatus(table.rows, chosen, Failed)|)
  {
    hide SettledRow, BatchRow, BatchRows, MidBatchRows, ClaimedRows, DeliveredOf, RetriedOf, IsOldest, Candidates, Idle, ClaimsExactly,
         ClaimedIds, Turns, InStatus;
    events := [];
    if !ValidPolicy(p) {
      return Err(InvalidPolicy), [];
    }
    ghost var before := table.rows;
    ghost var chosen := BatchChoice(p, before, b.now, locked);
    var claim := table.Claim(p.batchSize, b.now + p.leaseDurationMs, b.leaseId, b.now, locked);
    events := claim.value;
    ghost var claimed := table.rows;
    MidBatchEnds(p, before, chosen, b);
    AllAreChosen(before, events, chosen, b.leaseId);
    ChosenAreRows(p, before, b.now, locked);
    if Idle(others) {
      UndisturbedTurns(p, before, chosen, b, events, 0, others);
    }
    var delivered, failed, retried := 0, 0, 0;
    for i := 0 to |events|
      invariant Turns(p, claimed, b, events, 0, others) == Turns(p, table.rows, b, events, i, others)
      invariant delivered == |DeliveredOf(b, ClaimedIds(events[..i]))|
      invariant retried == |RetriedOf(p, before, b, ClaimedIds(events[..i]))|
      invariant delivered + failed + retried == i
    {
      NextIsNew(before, events, chosen, b.leaseId, i);
      CountOneMore(p, before, b, ClaimedIds(events[..i]), events[i].event);
      OneTurn(p, table.rows, b, events, i, others);
      table.rows := others(i, table.rows);
      var settled, counter := SettleClaimed(table, p, b, events[i]);
      if settled.Err? {
        return Err(LeaseLost), events;
      }
      match counter {
        case CountDelivered => delivered := delivered + 1;
        case CountFailed => failed := failed + 1;
        case CountRetried => retried := retried + 1;
      }
    }
    NoTurnLeft(p, table.rows, b, events, others);
    r := Ok(RelayResult(|events|, delivered, failed, retried));
    CountersAreStates(p, before, chosen, b, r.value);
  }
}
