/** The outbox table and the five operations that change it. */
module OutboxStore {
  import opened Common

  datatype Status = Pending | Delivering | Delivered | Failed

  /** What the publisher is handed: written once, at enqueue. */
  datatype Envelope = Envelope(name: string, schemaVersion: int, payload: string)

  datatype Row = Row(
    envelope: Envelope,
    attempts: nat,
    availableAt: Instant,
    deliveredAt: Option<Instant>,
    failureReason: Option<string>,
    leaseExpiresAt: Option<Instant>,
    leaseId: Option<Uuid>,
    status: Status)

  type Rows = map<Uuid, Row>

  datatype ClaimedEvent = ClaimedEvent(event: Uuid, attempts: nat, leaseId: Uuid)

  datatype StoreError =
    | DuplicateEvent
    | InvalidBatchSize
    | InvalidLeaseExpiry
    | BlankReason
    | StateConflict

  /** The table's check constraints. */
  ghost predicate RowConstraints(row: Row) {
    && (row.status == Delivering <==> row.leaseId.Some? && row.leaseExpiresAt.Some?)
    && (row.status == Delivered <==> row.deliveredAt.Some?)
    && (row.status == Failed ==> row.failureReason.Some? && !IsBlank(row.failureReason.value))
  }

  predicate Terminal(row: Row) {
    row.status == Delivered || row.status == Failed
  }

  predicate Claimable(row: Row, now: Instant) {
    && row.availableAt <= now
    && (row.status == Pending ||
        (row.status == Delivering && row.leaseExpiresAt.Some? && row.leaseExpiresAt.value <= now))
  }

  function Enqueued(envelope: Envelope, availableAt: Instant): Row {
    Row(envelope, 0, availableAt, None, None, None, None, Pending)
  }

  function Leased(row: Row, leaseId: Uuid, leaseExpiresAt: Instant): Row {
    row.(attempts := row.attempts + 1,
         leaseExpiresAt := Some(leaseExpiresAt),
         leaseId := Some(leaseId),
         status := Delivering)
  }

  function MarkedDelivered(row: Row, deliveredAt: Instant): Row {
    row.(deliveredAt := Some(deliveredAt), failureReason := None,
         leaseExpiresAt := None, leaseId := None, status := Delivered)
  }

  function MarkedRetried(row: Row, availableAt: Instant, reason: string): Row {
    row.(availableAt := availableAt, failureReason := Some(reason),
         leaseExpiresAt := None, leaseId := None, status := Pending)
  }

  function MarkedFailed(row: Row, reason: string): Row {
    row.(failureReason := Some(reason), leaseExpiresAt := None, leaseId := None, status := Failed)
  }

  /** Does `lease` hold `event`? The expiry plays no part: fencing begins when another worker reclaims the row. */
  predicate Holds(rows: Rows, event: Uuid, lease: Uuid) {
    event in rows && rows[event].status == Delivering && rows[event].leaseId == Some(lease)
  }

  function ClaimedRows(rows: Rows, chosen: set<Uuid>, leaseId: Uuid, leaseExpiresAt: Instant): Rows {
    map e | e in rows :: if e in chosen then Leased(rows[e], leaseId, leaseExpiresAt) else rows[e]
  }

  // ----- Which rows a claim takes -----

  predicate Before(rows: Rows, a: Uuid, b: Uuid)
    requires a in rows && b in rows
  {
    rows[a].availableAt < rows[b].availableAt || (rows[a].availableAt == rows[b].availableAt && a < b)
  }

  lemma BeforeIsAsymmetric(rows: Rows, a: Uuid, b: Uuid)
    requires a in rows && b in rows
    ensures !(Before(rows, a, b) && Before(rows, b, a))
  {
  }

  /** Rows another transaction has locked are skipped. */
  function Candidates(rows: Rows, now: Instant, locked: set<Uuid>): set<Uuid> {
    set e | e in rows && e !in locked && Claimable(rows[e], now)
  }

  /** The first `limit` rows of `pool` by availability and then identity. */
  ghost predicate IsOldest(rows: Rows, pool: set<Uuid>, limit: nat, chosen: set<Uuid>)
    requires pool <= rows.Keys
  {
    && chosen <= pool
    && |chosen| == (if limit <= |pool| then limit else |pool|)
    && forall a, b | a in chosen && b in pool - chosen :: Before(rows, a, b)
  }

  /** Ordering and limit leave the database no choice of rows. */
  lemma OldestIsUnique(rows: Rows, pool: set<Uuid>, limit: nat, one: set<Uuid>, other: set<Uuid>)
    requires pool <= rows.Keys
    requires IsOldest(rows, pool, limit, one) && IsOldest(rows, pool, limit, other)
    ensures one == other
  {
    assert one == (one * other) + (one - other) && other == (one * other) + (other - one);
    assert |one - other| == |other - one|;
    if a :| a in one - other {
      // Equal sizes: each set holds a row the other lacks, and each of the two would come before the other.
      var b :| b in other - one;
      BeforeIsAsymmetric(rows, a, b);
    }
    assert other - one == {};
  }

  lemma {:induction false} EarliestExists(rows: Rows, pool: set<Uuid>)
    requires pool != {} && pool <= rows.Keys
    ensures exists m :: m in pool && forall x | x in pool - {m} :: Before(rows, m, x)
  {
    var x :| x in pool;
    if pool == {x} {
      assert pool - {x} == {};
    } else {
      EarliestExists(rows, pool - {x});
      var m :| m in pool - {x} && forall y | y in pool - {x} - {m} :: Before(rows, m, y);
      var least := if Before(rows, m, x) then m else x;
      forall y | y in pool - {least}
        ensures Before(rows, least, y)
      {
        if y != x && y != m {
          assert Before(rows, m, y);
        }
      }
    }
  }

  /** `ORDER BY available_at, event_id LIMIT n` over the candidate rows. */
  method SelectOldest(rows: Rows, pool: set<Uuid>, limit: nat) returns (picked: seq<Uuid>)
    requires pool <= rows.Keys
    ensures NoDuplicates(picked) && IsOldest(rows, pool, limit, Elements(picked))
  {
    picked := [];
    var rest := pool;
    while rest != {} && |picked| < limit
      invariant rest <= pool && |picked| <= limit
      invariant NoDuplicates(picked) && Elements(picked) == pool - rest
      invariant forall a, b | a in pool - rest && b in rest :: Before(rows, a, b)
      decreases |rest|
    {
      EarliestExists(rows, rest);
      var next :| next in rest && forall x | x in rest - {next} :: Before(rows, next, x);
      assert next !in Elements(picked);
      assert Elements(picked + [next]) == Elements(picked) + {next};
      picked := picked + [next];
      rest := rest - {next};
    }
    ElementsOfDistinct(picked);
    assert pool - (pool - rest) == rest;
    SubsetSize(Elements(picked), pool);
    assert rest == {} ==> Elements(picked) == pool;
  }

  lemma OldestExists(rows: Rows, pool: set<Uuid>, limit: nat)
    requires pool <= rows.Keys
    ensures exists chosen :: IsOldest(rows, pool, limit, chosen)
    decreases |pool|
  {
    if |pool| <= limit {
      assert IsOldest(rows, pool, limit, pool);
    } else if limit == 0 {
      assert IsOldest(rows, pool, limit, {});
    } else {
      EarliestExists(rows, pool);
      var first :| first in pool && forall x | x in pool - {first} :: Before(rows, first, x);
      OldestExists(rows, pool - {first}, limit - 1);
      var chosen :| IsOldest(rows, pool - {first}, limit - 1, chosen);
      assert pool - (chosen + {first}) == pool - {first} - chosen;
      assert IsOldest(rows, pool, limit, chosen + {first});
    }
  }

  /** The set of rows a claim takes. */
  ghost function Oldest(rows: Rows, pool: set<Uuid>, limit: nat): (chosen: set<Uuid>)
    requires pool <= rows.Keys
    ensures IsOldest(rows, pool, limit, chosen)
  {
    OldestExists(rows, pool, limit);
    var chosen :| IsOldest(rows, pool, limit, chosen);
    chosen
  }

  lemma AllCandidates(rows: Rows, pool: set<Uuid>, limit: nat, picked: seq<Uuid>)
    requires pool <= rows.Keys && IsOldest(rows, pool, limit, Elements(picked))
    ensures forall e | e in picked :: e in rows
  {
    forall e | e in picked
      ensures e in rows
    {
      assert e in Elements(picked);
    }
  }

  lemma ListingIsExact(before: Rows, picked: seq<Uuid>, claimed: seq<ClaimedEvent>, lease: Uuid)
    requires NoDuplicates(picked) && |claimed| == |picked| && forall e | e in picked :: e in before
    requires forall i | 0 <= i < |picked| :: claimed[i] == ClaimedEvent(picked[i], before[picked[i]].attempts + 1, lease)
    ensures ClaimsExactly(before, claimed, Elements(picked), lease)
  {
    forall e | e in Elements(picked)
      ensures e in set c | c in claimed :: c.event
    {
      var i :| 0 <= i < |picked| && picked[i] == e;
      assert claimed[i] in claimed;
    }
    forall c | c in claimed
      ensures c.event in picked && c.leaseId == lease && c.attempts == before[c.event].attempts + 1
    {
      var i :| 0 <= i < |claimed| && claimed[i] == c;
    }
  }

  /** No operation leaves the table's constraints. */
  lemma OperationsKeepConstraints(row: Row, lease: Uuid, at: Instant, envelope: Envelope, reason: string)
    ensures RowConstraints(Enqueued(envelope, at))
    ensures RowConstraints(row) && !Terminal(row) ==> RowConstraints(Leased(row, lease, at))
    ensures RowConstraints(row) && !Terminal(row) ==> RowConstraints(MarkedDelivered(row, at))
    ensures RowConstraints(row) && !Terminal(row) ==> RowConstraints(MarkedRetried(row, at, reason))
    ensures RowConstraints(row) && !Terminal(row) && !IsBlank(reason) ==> RowConstraints(MarkedFailed(row, reason))
  {
  }

  class OutboxTable {
    var rows: Rows

    constructor ()
      ensures rows == map[]
    {
      rows := map[];
    }

    method Enqueue(event: Uuid, envelope: Envelope, availableAt: Instant) returns (r: Result<(), StoreError>)
      modifies this
      ensures event in old(rows) ==> r == Err(DuplicateEvent) && rows == old(rows)
      ensures event !in old(rows) ==> r == Ok(()) && rows == old(rows)[event := Enqueued(envelope, availableAt)]
    {
      if event in rows {
        return Err(DuplicateEvent);
      }
      rows := rows[event := Enqueued(envelope, availableAt)];
      return Ok(());
    }

    method Claim(batchSize: int, leaseExpiresAt: Instant, leaseId: Uuid, now: Instant, locked: set<Uuid>)
      returns (r: Result<seq<ClaimedEvent>, StoreError>)
      modifies this
      ensures !(1 <= batchSize <= MAX_SAFE_INTEGER) ==> r == Err(InvalidBatchSize) && rows == old(rows)
      ensures 1 <= batchSize <= MAX_SAFE_INTEGER && leaseExpiresAt <= now ==>
                r == Err(InvalidLeaseExpiry) && rows == old(rows)
      ensures 1 <= batchSize <= MAX_SAFE_INTEGER && now < leaseExpiresAt ==>
                r.Ok? && ClaimsExactly(old(rows), r.value, Oldest(old(rows), Candidates(old(rows), now, locked), batchSize), leaseId)
      ensures r.Ok? ==>
                rows == ClaimedRows(old(rows), Oldest(old(rows), Candidates(old(rows), now, locked), batchSize), leaseId, leaseExpiresAt)
    {
      if batchSize < 1 || batchSize > MAX_SAFE_INTEGER {
        return Err(InvalidBatchSize);
      }
      if leaseExpiresAt <= now {
        return Err(InvalidLeaseExpiry);
      }
      var pool := Candidates(rows, now, locked);
      hide IsOldest, Candidates, ClaimsExactly, NoDuplicates;
      var picked := SelectOldest(rows, pool, batchSize);
      OldestIsUnique(rows, pool, batchSize, Elements(picked), Oldest(rows, pool, batchSize));
      AllCandidates(rows, pool, batchSize, picked);
      ghost var before := rows;
      rows := map e | e in rows :: if e in picked then Leased(rows[e], leaseId, leaseExpiresAt) else rows[e];
      assert forall e | e in picked :: e in Elements(picked);
      var claimed := seq(|picked|, i requires 0 <= i < |picked| && picked[i] in rows reads this =>
                           ClaimedEvent(picked[i], rows[picked[i]].attempts, leaseId));
      ListingIsExact(before, picked, claimed, leaseId);
      return Ok(claimed);
    }

    /** The one conditional update behind all three settlements. */
    method UpdateLeasedEvent(event: Uuid, lease: Uuid, values: Row -> Row) returns (r: Result<(), StoreError>)
      modifies this
      ensures Holds(old(rows), event, lease) ==> r == Ok(()) && rows == old(rows)[event := values(old(rows)[event])]
      ensures !Holds(old(rows), event, lease) ==> r == Err(StateConflict) && rows == old(rows)
    {
      if event !in rows || rows[event].leaseId != Some(lease) || rows[event].status != Delivering {
        return Err(StateConflict);
      }
      rows := rows[event := values(rows[event])];
      return Ok(());
    }

    method MarkDelivered(deliveredAt: Instant, event: Uuid, lease: Uuid) returns (r: Result<(), StoreError>)
      modifies this
      ensures Holds(old(rows), event, lease) ==>
                r == Ok(()) && rows == old(rows)[event := MarkedDelivered(old(rows)[event], deliveredAt)]
      ensures !Holds(old(rows), event, lease) ==> r == Err(StateConflict) && rows == old(rows)
    {
      r := UpdateLeasedEvent(event, lease, row => MarkedDelivered(row, deliveredAt));
    }

    method Retry(availableAt: Instant, event: Uuid, reason: string, lease: Uuid) returns (r: Result<(), StoreError>)
      modifies this
      ensures IsBlank(reason) ==> r == Err(BlankReason) && rows == old(rows)
      ensures !IsBlank(reason) && Holds(old(rows), event, lease) ==>
                r == Ok(()) && rows == old(rows)[event := MarkedRetried(old(rows)[event], availableAt, reason)]
      ensures !IsBlank(reason) && !Holds(old(rows), event, lease) ==> r == Err(StateConflict) && rows == old(rows)
    {
      if IsBlank(reason) {
        return Err(BlankReason);
      }
      r := UpdateLeasedEvent(event, lease, row => MarkedRetried(row, availableAt, reason));
    }

    method Fail(event: Uuid, reason: string, lease: Uuid) returns (r: Result<(), StoreError>)
      modifies this
      ensures IsBlank(reason) ==> r == Err(BlankReason) && rows == old(rows)
      ensures !IsBlank(reason) && Holds(old(rows), event, lease) ==>
                r == Ok(()) && rows == old(rows)[event := MarkedFailed(old(rows)[event], reason)]
      ensures !IsBlank(reason) && !Holds(old(rows), event, lease) ==> r == Err(StateConflict) && rows == old(rows)
    {
      if IsBlank(reason) {
        return Err(BlankReason);
      }
      r := UpdateLeasedEvent(event, lease, row => MarkedFailed(row, reason));
    }
  }

  /** A claim returns each chosen row once, with the attempt count it has just been given. */
  ghost predicate ClaimsExactly(before: Rows, claimed: seq<ClaimedEvent>, chosen: set<Uuid>, lease: Uuid) {
    && (forall i, j | 0 <= i < j < |claimed| :: claimed[i].event != claimed[j].event)
    && (set c | c in claimed :: c.event) == chosen
    && forall c | c in claimed ::
         c.event in before && c.leaseId == lease && c.attempts == before[c.event].attempts + 1
  }
}
