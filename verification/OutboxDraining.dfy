/** Sequential batches with no crash between claim and settlement: how much work they can do, and when it is done. */
module OutboxDraining {
  import opened Common
  import opened OutboxStore
  import opened OutboxRelay
  import opened OutboxProtocol
  import opened OutboxTheorems

  /** Between batches nothing is in flight, and every pending row may still be tried. */
  ghost predicate Quiet(p: Policy, rows: Rows) {
    forall e | e in rows :: rows[e].status != Delivering && (rows[e].status == Pending ==> rows[e].attempts < p.maxAttempts)
  }

  function TriesLeft(p: Policy, row: Row): nat {
    if row.status == Pending && row.attempts < p.maxAttempts then p.maxAttempts - row.attempts else 0
  }

  /** The draining measure: the attempts that the policy still allows, over all rows. */
  ghost function WorkLeft(p: Policy, rows: Rows): nat {
    Sum(rows.Keys, (e: Uuid) => if e in rows then TriesLeft(p, rows[e]) else 0)
  }

  ghost function Chosen(p: Policy, rows: Rows, b: Batch): set<Uuid>
    requires ValidPolicy(p)
  {
    BatchChoice(p, rows, b.now, {})
  }

  ghost function AfterBatches(p: Policy, rows: Rows, batches: seq<Batch>): Rows
    requires ValidPolicy(p)
    decreases |batches|
  {
    if batches == [] then rows
    else AfterBatches(p, BatchRows(p, rows, Chosen(p, rows, batches[0]), batches[0]), batches[1..])
  }

  /** A batch publishes each event it claims once. */
  ghost function PublishCalls(p: Policy, rows: Rows, batches: seq<Batch>): nat
    requires ValidPolicy(p)
    decreases |batches|
  {
    if batches == [] then 0
    else
      var chosen := Chosen(p, rows, batches[0]);
      |chosen| + PublishCalls(p, BatchRows(p, rows, chosen, batches[0]), batches[1..])
  }

  /** Batches under leases of their own are a run of the protocol in which nobody crashes. */
  lemma {:induction false} BatchesAreARun(p: Policy, s: System, batches: seq<Batch>) returns (actions: seq<Action>)
    requires ValidPolicy(p) && s.history.Keys == s.rows.Keys
    requires forall i | 0 <= i < |batches| :: batches[i].leaseId !in s.usedLeases
    requires forall i, j | 0 <= i < j < |batches| :: batches[i].leaseId != batches[j].leaseId
    ensures forall a | a in actions :: !a.Crash?
    ensures Run(p, s, actions).rows == AfterBatches(p, s.rows, batches)
    decreases |batches|
  {
    if batches == [] {
      actions := [];
    } else {
      hide BatchRows, BatchChoice, Step, Run;
      var first := RelayBatchIsARun(p, s, batches[0], {});
      var s' := Run(p, s, first);
      var rest := BatchesAreARun(p, s', batches[1..]);
      RunTwice(p, s, first, rest);
      actions := first + rest;
    }
  }

  lemma BatchRowProgress(p: Policy, row: Row, b: Batch, e: Uuid)
    requires ValidPolicy(p) && row.status == Pending && row.attempts < p.maxAttempts
    ensures var row' := BatchRow(p, row, b, e);
            && (Terminal(row') || (row'.status == Pending && row'.attempts == row.attempts + 1 < p.maxAttempts))
            && TriesLeft(p, row') < TriesLeft(p, row)
            && (row'.status == Pending ==> row'.availableAt <= b.settledAt(e) + p.retryMaxMs)
  {
    RetryDelayBounds(p, row.attempts + 1, b.jitter(e));
    hide RetryDelay;
  }

  lemma ChosenArePending(p: Policy, rows: Rows, b: Batch)
    requires ValidPolicy(p) && Quiet(p, rows)
    ensures forall e | e in Chosen(p, rows, b) ::
              e in rows && rows[e].status == Pending && rows[e].attempts < p.maxAttempts
  {
  }

  /** The measure falls by at least the number of rows a batch claims. */
  lemma BatchProgress(p: Policy, rows: Rows, b: Batch)
    requires ValidPolicy(p) && Quiet(p, rows)
    ensures var chosen := Chosen(p, rows, b);
            var rows' := BatchRows(p, rows, chosen, b);
            Quiet(p, rows') && WorkLeft(p, rows') + |chosen| <= WorkLeft(p, rows)
  {
    hide BatchRow, IsOldest, Candidates, Sum;
    var chosen := Chosen(p, rows, b);
    var rows' := BatchRows(p, rows, chosen, b);
    ChosenArePending(p, rows, b);
    forall e | e in chosen
      ensures TriesLeft(p, rows'[e]) < TriesLeft(p, rows[e])
      ensures rows'[e].status != Delivering && (rows'[e].status == Pending ==> rows'[e].attempts < p.maxAttempts)
    {
      BatchRowProgress(p, rows[e], b, e);
    }
    assert rows'.Keys == rows.Keys;
    SumLess(rows.Keys,
            (e: Uuid) => if e in rows then TriesLeft(p, rows[e]) else 0,
            (e: Uuid) => if e in rows' then TriesLeft(p, rows'[e]) else 0,
            chosen);
  }

  lemma WorkLeftBound(p: Policy, rows: Rows)
    requires ValidPolicy(p)
    ensures WorkLeft(p, rows) <= |rows| * p.maxAttempts
  {
    hide Sum;
    var most := p.maxAttempts;
    SumPlus(rows.Keys, (e: Uuid) => if e in rows then TriesLeft(p, rows[e]) else 0, (e: Uuid) => most, (e: Uuid) => 0);
    SumOfConstant(rows.Keys, most);
    SumOfConstant(rows.Keys, 0);
    assert |rows.Keys| == |rows|;
  }

  lemma {:induction false} CallsUseUpWork(p: Policy, rows: Rows, batches: seq<Batch>)
    requires ValidPolicy(p) && Quiet(p, rows)
    ensures PublishCalls(p, rows, batches) + WorkLeft(p, AfterBatches(p, rows, batches)) <= WorkLeft(p, rows)
    decreases |batches|
  {
    hide WorkLeft, Quiet, BatchRows, Chosen;
    if batches != [] {
      BatchProgress(p, rows, batches[0]);
      CallsUseUpWork(p, BatchRows(p, rows, Chosen(p, rows, batches[0]), batches[0]), batches[1..]);
    }
  }

  /** N rows cost at most N * maxAttempts publish calls, however many batches run and whatever the publisher answers. */
  lemma CallsAreBounded(p: Policy, rows: Rows, batches: seq<Batch>)
    requires ValidPolicy(p) && Quiet(p, rows)
    ensures PublishCalls(p, rows, batches) <= |rows| * p.maxAttempts
  {
    CallsUseUpWork(p, rows, batches);
    WorkLeftBound(p, rows);
  }

  // ----- Completion -----

  /** Each batch settles between its claim and `finished[i]`, and the next starts at least `retryMaxMs` after that. */
  ghost predicate Spaced(p: Policy, batches: seq<Batch>, finished: seq<Instant>) {
    && |finished| == |batches|
    && (forall i, e: Uuid | 0 <= i < |batches| :: batches[i].now <= batches[i].settledAt(e) <= finished[i])
    && (forall i | 0 <= i < |batches| - 1 :: finished[i] + p.retryMaxMs <= batches[i + 1].now)
  }

  /** Rows that are finished or may be claimed at `now`. */
  ghost predicate Due(rows: Rows, due: set<Uuid>, now: Instant) {
    forall e | e in due :: e in rows && (rows[e].status == Pending ==> rows[e].availableAt <= now)
  }

  ghost predicate Done(rows: Rows, due: set<Uuid>) {
    forall e | e in due :: e in rows && Terminal(rows[e])
  }

  lemma BatchKeepsDue(p: Policy, rows: Rows, due: set<Uuid>, b: Batch, finished: Instant, next: Instant)
    requires ValidPolicy(p) && Quiet(p, rows) && Due(rows, due, b.now)
    requires forall e: Uuid :: b.now <= b.settledAt(e) <= finished
    requires finished + p.retryMaxMs <= next
    ensures Due(BatchRows(p, rows, Chosen(p, rows, b), b), due, next)
  {
    hide BatchRow, IsOldest, Candidates;
    ChosenArePending(p, rows, b);
    forall e | e in due && e in Chosen(p, rows, b)
      ensures BatchRow(p, rows[e], b, e).status == Pending ==> BatchRow(p, rows[e], b, e).availableAt <= next
    {
      BatchRowProgress(p, rows[e], b, e);
      assert b.settledAt(e) <= finished;
    }
    assert b.now <= b.settledAt(0) <= finished;
  }

  lemma DueWorkIsClaimed(p: Policy, rows: Rows, due: set<Uuid>, b: Batch)
    requires ValidPolicy(p) && Quiet(p, rows) && Due(rows, due, b.now) && !Done(rows, due)
    ensures |Chosen(p, rows, b)| >= 1
  {
    var e :| e in due && !Terminal(rows[e]);
    assert e in Candidates(rows, b.now, {});
    assert Candidates(rows, b.now, {}) == {e} + (Candidates(rows, b.now, {}) - {e});
  }

  lemma DoneStaysDone(p: Policy, rows: Rows, due: set<Uuid>, b: Batch)
    requires ValidPolicy(p) && Quiet(p, rows) && Done(rows, due)
    ensures Done(BatchRows(p, rows, Chosen(p, rows, b), b), due)
  {
    hide BatchRow;
    ChosenArePending(p, rows, b);
  }

  lemma {:induction false} DrainsOrDone(p: Policy, rows: Rows, due: set<Uuid>, batches: seq<Batch>, finished: seq<Instant>)
    requires ValidPolicy(p) && Quiet(p, rows) && Spaced(p, batches, finished)
    requires Done(rows, due) || (WorkLeft(p, rows) <= |batches| && (batches != [] ==> Due(rows, due, batches[0].now)))
    requires batches == [] && WorkLeft(p, rows) == 0 ==> Done(rows, due)
    ensures Done(AfterBatches(p, rows, batches), due)
    decreases |batches|
  {
    hide WorkLeft, Quiet, BatchRows, Chosen, Done, Due;
    if batches != [] {
      var b, rest := batches[0], batches[1..];
      var rows' := BatchRows(p, rows, Chosen(p, rows, b), b);
      BatchProgress(p, rows, b);
      assert forall i, e: Uuid | 0 <= i < |rest| :: rest[i].now == batches[i + 1].now && rest[i].settledAt(e) == batches[i + 1].settledAt(e);
      assert Spaced(p, rest, finished[1..]);
      if Done(rows, due) {
        DoneStaysDone(p, rows, due, b);
      } else {
        DueWorkIsClaimed(p, rows, due, b);
        BatchKeepsDue(p, rows, due, b, finished[0], finished[0] + p.retryMaxMs);
        if rest == [] || WorkLeft(p, rows') == 0 {
          NothingLeftIsDone(p, rows', due, finished[0] + p.retryMaxMs);
        } else {
          BatchKeepsDue(p, rows, due, b, finished[0], rest[0].now);
        }
      }
      DrainsOrDone(p, rows', due, rest, finished[1..]);
    }
  }

  lemma NothingLeftIsDone(p: Policy, rows: Rows, due: set<Uuid>, now: Instant)
    requires ValidPolicy(p) && Quiet(p, rows) && Due(rows, due, now) && WorkLeft(p, rows) == 0
    ensures Done(rows, due)
  {
    forall e | e in due
      ensures Terminal(rows[e])
    {
      SumSplit(rows.Keys, (x: Uuid) => if x in rows then TriesLeft(p, rows[x]) else 0, e);
    }
  }

  /**
   Spaced batches, as many as there are attempts left, finish every row that was available at the first of them:
   delivered or failed, whatever the publisher answered and however small the batches.
   */
  lemma DueRowsFinish(p: Policy, rows: Rows, due: set<Uuid>, batches: seq<Batch>, finished: seq<Instant>)
    requires ValidPolicy(p) && Quiet(p, rows) && Spaced(p, batches, finished)
    requires batches != [] && Due(rows, due, batches[0].now)
    requires |rows| * p.maxAttempts <= |batches|
    ensures Done(AfterBatches(p, rows, batches), due)
  {
    WorkLeftBound(p, rows);
    DrainsOrDone(p, rows, due, batches, finished);
  }
}
