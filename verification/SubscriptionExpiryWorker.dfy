/**
 The worker that drains lapsed subscriptions: at most eight turns a run, then one round of retries.
 Source: apps/api/src/assignments/subscription-expiry.worker.ts.
*/
module SubscriptionExpiryWorkers {
  import opened Arithmetic
  import opened Wrappers
  import opened AssignmentTables
  import opened AssignmentBatches
  import opened ExpiryDrain
  import opened AssignmentsServices
  import CashierSelection

  const ASSIGNMENT_BATCH_SIZE := 25
  const PENDING_BATCH_SIZE := 50
  const MAX_EXPIRY_TRANSACTIONS_PER_RUN := 8

  /** The retries that end a run: which requests, selected and tried when, with which choices. */
  datatype Retries = Retries(rows: seq<Id>, selectedAt: Instant, now: Instant, choices: seq<Option<Id>>)

  /** One run: turns until eight are done or nothing is lapsed any more, then the fifty oldest due retries. */
  ghost predicate WorkerRun(states: seq<Db>, turns: seq<Turn>, stoppedAt: Instant, q: Retries, d: Db) {
    && Turns(states, turns) && |turns| <= MAX_EXPIRY_TRANSACTIONS_PER_RUN
    && states[|turns|].clock <= stoppedAt <= q.selectedAt <= q.now
    && FirstBy(DueRequests(states[|turns|], q.selectedAt), 50, q.rows)
    && (|turns| < MAX_EXPIRY_TRANSACTIONS_PER_RUN ==> Waiting(states[|turns|], stoppedAt) == {})
    && RetriesAllowed(states[|turns|], q.rows, q.now, q.choices)
    && d == RunRetries(states[|turns|], q.rows, q.now, q.choices)
  }

  ghost predicate Turns(states: seq<Db>, turns: seq<Turn>) {
    && |states| == |turns| + 1
    && forall i | 0 <= i < |turns| :: TakesTurn(states[i], states[i + 1], ASSIGNMENT_BATCH_SIZE, turns[i], turns[i].completedAt)
  }

  lemma TurnsAppend(states: seq<Db>, turns: seq<Turn>, t: Turn, d: Db)
    requires Turns(states, turns) && TakesTurn(states[|turns|], d, ASSIGNMENT_BATCH_SIZE, t, t.completedAt)
    ensures Turns(states + [d], turns + [t])
  {
    var s, u := states + [d], turns + [t];
    forall i | 0 <= i < |u| ensures TakesTurn(s[i], s[i + 1], ASSIGNMENT_BATCH_SIZE, u[i], u[i].completedAt) {
      if i < |turns| {
        assert TakesTurn(states[i], states[i + 1], ASSIGNMENT_BATCH_SIZE, turns[i], turns[i].completedAt);
      }
    }
  }

  class SubscriptionExpiryWorker {
    const assignments: AssignmentsService

    constructor (assignments: AssignmentsService)
      ensures this.assignments == assignments
    {
      this.assignments := assignments;
    }

    /** `clock` is what the database clock answers, reading by reading. */
    method ReconcileBatch(clock: nat -> Instant)
      returns (r: Result<Retries, ServiceError>, turns: seq<Turn>, ghost states: seq<Db>, ghost stoppedAt: Instant)
      requires assignments.Valid() && forall i: nat, j: nat | i <= j :: assignments.db.clock <= clock(i) <= clock(j)
      modifies assignments
      ensures assignments.Valid()
      ensures Turns(states, turns) && states[0] == old(assignments.db)
      ensures r.Ok? ==> WorkerRun(states, turns, stoppedAt, r.value, assignments.db)
      ensures r.Err? ==> assignments.db == states[|turns|] && r.error.COUNT?
    {
      states, turns, stoppedAt := [assignments.db], [], clock(0);
      var reading: nat := 0;
      var index := 0;
      while index < MAX_EXPIRY_TRANSACTIONS_PER_RUN
        invariant index == |turns| <= MAX_EXPIRY_TRANSACTIONS_PER_RUN
        invariant assignments.Valid() && assignments.db.clock <= clock(reading) && stoppedAt <= clock(reading)
        invariant Turns(states, turns) && states[0] == old(assignments.db) && states[index] == assignments.db
        decreases MAX_EXPIRY_TRANSACTIONS_PER_RUN - index
      {
        stoppedAt := clock(reading);
        var result := assignments.ReconcileNextExpiredSubscription(ASSIGNMENT_BATCH_SIZE,
                        clock(reading), clock(reading + 1), clock(reading + 2));
        if result.Err? { return Err(result.error), turns, states, stoppedAt; }
        if result.value == None { break; }
        TurnsAppend(states, turns, result.value.value, assignments.db);
        TurnSetsClock(states[index], result.value.value);
        states, turns := states + [assignments.db], turns + [result.value.value];
        reading, index := reading + 2, index + 1;
      }
      if |turns| == MAX_EXPIRY_TRANSACTIONS_PER_RUN { stoppedAt := clock(reading); }
      var pending := assignments.ReconcilePendingReassignments(PENDING_BATCH_SIZE, clock(reading), clock(reading + 1));
      if pending.Err? { return Err(pending.error), turns, states, stoppedAt; }
      return Ok(Retries(pending.value.0, clock(reading), clock(reading + 1), pending.value.1)), turns, states, stoppedAt;
    }
  }

  lemma TurnSetsClock(db: Db, t: Turn)
    requires TurnAllowed(db, ASSIGNMENT_BATCH_SIZE, t)
    ensures AfterTurn(db, ASSIGNMENT_BATCH_SIZE, t).clock == t.completedAt
  {
    BatchFrame(db, t.rows, ExpiryBatch(t.now), t.choices);
  }

  // ---------------------------------------------------------------- how many runs a drain takes

  /** A run over a stretch in which nothing new lapses. */
  ghost predicate QuietRun(db: Db, d: Db, since: Instant, until: Instant) {
    exists states, turns, stoppedAt, q ::
      && WorkerRun(states, turns, stoppedAt, q, d) && states[0] == db && q.now <= until
      && Drain(states, turns, ASSIGNMENT_BATCH_SIZE, since, until)
  }

  lemma RetriesOweTheSame(db: Db, q: Retries, since: Instant, until: Instant)
    requires Ready(db, ASSIGNMENT_BATCH_SIZE, since, until) && db.clock <= q.now <= until
    requires RetriesAllowed(db, q.rows, q.now, q.choices)
    ensures var d := RunRetries(db, q.rows, q.now, q.choices);
            TurnsOwed(d, ASSIGNMENT_BATCH_SIZE, since) == TurnsOwed(db, ASSIGNMENT_BATCH_SIZE, since)
  {
    var d := RunRetries(db, q.rows, q.now, q.choices);
    RetriesSpare(db, q.rows, q.now, q.choices, 0);
    QuietKeepsWaiting(db, since, until, q.now);
    forall s ensures TurnsLeft(d, s, ASSIGNMENT_BATCH_SIZE, since) == TurnsLeft(db, s, ASSIGNMENT_BATCH_SIZE, since) {
      if s in Waiting(db, since) {
        LapsedHasNoneInForce(db, s, q.now);
        RetriesSpare(db, q.rows, q.now, q.choices, db.subscriptions[s].cashier);
      }
    }
    assert TurnsOwed(d, ASSIGNMENT_BATCH_SIZE, since) == TurnsOwed(db, ASSIGNMENT_BATCH_SIZE, since);
  }

  /** One run does eight of the turns still owed, or all of them. */
  lemma RunPaysEight(db: Db, d: Db, since: Instant, until: Instant)
    requires QuietRun(db, d, since, until)
    ensures |TurnsOwed(d, 25, since)| == Minus(|TurnsOwed(db, 25, since)|, 8)
  {
    var states, turns, stoppedAt, q :|
      && WorkerRun(states, turns, stoppedAt, q, d) && states[0] == db && q.now <= until
      && Drain(states, turns, ASSIGNMENT_BATCH_SIZE, since, until);
    var n := |turns|;
    DrainFacts(states, turns, ASSIGNMENT_BATCH_SIZE, since, until, n);
    TotalTurns(states, turns, ASSIGNMENT_BATCH_SIZE, since, until, n);
    QuietKeepsWaiting(states[n], since, until, stoppedAt);
    NothingOwed(states[n], ASSIGNMENT_BATCH_SIZE, since);
    RetriesOweTheSame(states[n], q, since, until);
  }

  ghost predicate QuietRuns(dbs: seq<Db>, since: Instant, until: Instant) {
    forall i | 0 <= i < |dbs| - 1 :: QuietRun(dbs[i], dbs[i + 1], since, until)
  }

  lemma RunAt(dbs: seq<Db>, i: nat, since: Instant, until: Instant)
    requires QuietRuns(dbs, since, until) && i + 1 < |dbs|
    ensures |TurnsOwed(dbs[i + 1], ASSIGNMENT_BATCH_SIZE, since)| == Minus(|TurnsOwed(dbs[i], ASSIGNMENT_BATCH_SIZE, since)|, 8)
  {
    assert QuietRun(dbs[i], dbs[i + 1], since, until);
    RunPaysEight(dbs[i], dbs[i + 1], since, until);
  }

  lemma {:induction false} RunsPay(dbs: seq<Db>, k: nat, since: Instant, until: Instant)
    requires k < |dbs| && QuietRuns(dbs, since, until)
    ensures |TurnsOwed(dbs[k], ASSIGNMENT_BATCH_SIZE, since)| == Minus(|TurnsOwed(dbs[0], ASSIGNMENT_BATCH_SIZE, since)|, 8 * k)
  {
    if k > 0 {
      RunsPay(dbs, k - 1, since, until);
      RunAt(dbs, k - 1, since, until);
    }
  }

  /** Lapsed subscriptions that owe T turns in all are finished by exactly ceil(T / 8) runs. */
  lemma RunsNeeded(dbs: seq<Db>, k: nat, since: Instant, until: Instant)
    requires k < |dbs| && QuietRuns(dbs, since, until)
    ensures Waiting(dbs[k], since) == {}
            <==> k >= CashierSelection.CeilDiv(|TurnsOwed(dbs[0], 25, since)|, 8)
  {
    RunsPay(dbs, k, since, until);
    NothingOwed(dbs[k], ASSIGNMENT_BATCH_SIZE, since);
  }
}
