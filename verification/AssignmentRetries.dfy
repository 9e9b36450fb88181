/** How often a waiting request is tried, and how far apart the worker's attempts are. */
module AssignmentRetries {
  import opened Arithmetic
  import opened Wrappers
  import opened AssignmentTables
  import opened AssignmentInvariants
  import opened AssignmentRuns
  import opened AssignmentEffects
  import AssignmentsServices

  function PowerOfTwo(k: nat): nat { if k == 0 then 1 else 2 * PowerOfTwo(k - 1) }

  lemma {:induction false} PowersGrow(j: nat, k: nat)
    requires j <= k
    ensures PowerOfTwo(j) <= PowerOfTwo(k)
    decreases k
  {
    if j < k { PowersGrow(j, k - 1); }
  }

  lemma PowersUpToSix(k: nat)
    requires k <= 6
    ensures PowerOfTwo(k) == [1, 2, 4, 8, 16, 32, 64][k]
  {
    assert PowerOfTwo(1) == 2 && PowerOfTwo(2) == 4 && PowerOfTwo(3) == 8;
    assert PowerOfTwo(4) == 16 && PowerOfTwo(5) == 32 && PowerOfTwo(6) == 64;
  }

  /** Five seconds, doubled by each attempt up to the sixth, and never more than five minutes. */
  function Wait(attempts: nat): Instant { Min(300000, 5000 * PowerOfTwo(Min(attempts, 6))) }

  lemma WaitsGrow(a: nat, b: nat)
    requires a <= b
    ensures Wait(a) <= Wait(b)
  {
    PowersGrow(Min(a, 6), Min(b, 6));
  }

  /** The worker selects from exactly the pending requests of active clients that were never tried, or whose
      waiting time since the last attempt is over, by the instant they were requested. */
  lemma SelectedFrom(db: Db, at: Instant, r: Id)
    ensures r in AssignmentsServices.DueRequests(db, at) <==>
              && r in db.requests && db.requests[r].status == PENDING
              && db.requests[r].client in db.clients && db.clients[db.requests[r].client] == ACTIVE
              && (db.requests[r].lastAttemptAt == None
                  || db.requests[r].lastAttemptAt.value + Wait(db.requests[r].attemptCount) <= at)
    ensures r in AssignmentsServices.DueRequests(db, at) ==>
              AssignmentsServices.DueRequests(db, at)[r] == db.requests[r].requestedAt
  {
    if r in db.requests { PowersUpToSix(Min(db.requests[r].attemptCount, 6)); }
  }

  /** A retry that is not the worker's may take any pending request of an active client. */
  lemma RetriedFrom(db: Db, r: Id)
    ensures r in AssignmentsServices.RetryableRequests(db) <==>
              && r in db.requests && db.requests[r].status == PENDING
              && db.requests[r].client in db.clients && db.clients[db.requests[r].client] == ACTIVE
    ensures r in AssignmentsServices.RetryableRequests(db) ==>
              AssignmentsServices.RetryableRequests(db)[r] == db.requests[r].requestedAt
  {
  }

  // ---------------------------------------------------------------- attempts over a run

  /** The step tries this request: a retry of it, or the move that opens it, of a client that is active. */
  predicate Tries(db: Db, step: Step, r: Id)
    requires Enabled(db, step)
  {
    match step
    case Complete(q, _, _) => q == r && ClientIsActive(db, db.requests[r].client)
    case Begin(a, _, _, _, _) => r == db.nextId && ClientIsActive(db, db.assignments[a].client)
    case Report(a, _, _) => r == db.nextId + 1 && ClientIsActive(db, db.assignments[a].client)
    case BlockByCashier(a, _, _) =>
      r == db.nextId + 1 && r in Apply(db, step).requests && ClientIsActive(db, db.assignments[a].client)
    case _ => false
  }

  function Attempts(requests: Requests, r: Id): nat { if r in requests then requests[r].attemptCount else 0 }

  function LastAttempt(requests: Requests, r: Id): Option<Instant> {
    if r in requests then requests[r].lastAttemptAt else None
  }

  lemma CompleteCounts(db: Db, d: Db, q: Id, now: Instant, choice: Option<Id>, r: Id)
    requires q in db.requests && Tried(db, d, q, now, choice)
    ensures var counts := r == q && ClientIsActive(db, db.requests[q].client);
            && Attempts(d.requests, r) == Attempts(db.requests, r) + (if counts then 1 else 0)
            && LastAttempt(d.requests, r) == if counts then Some(now) else LastAttempt(db.requests, r)
  {
  }

  lemma MoveCounts(db: Db, step: Step, r: Id)
    requires Enabled(db, step) && KeysBelow(db.requests, db.nextId) && (step.Begin? || step.Report? || step.BlockByCashier?)
    ensures Attempts(Apply(db, step).requests, r) == Attempts(db.requests, r) + (if Tries(db, step, r) then 1 else 0)
    ensures LastAttempt(Apply(db, step).requests, r) == if Tries(db, step, r) then Some(step.now) else LastAttempt(db.requests, r)
  {
    match step
    case Begin(a, reason, endReason, now, choice) =>
      BeginLeaves(db, step);
      CompleteCounts(Left(db, a, reason, endReason, now), Apply(db, step), db.nextId, now, choice, r);
    case Report(a, now, choice) =>
      ReportLeaves(db, step);
      CompleteCounts(Left(WithBlock(db, a, BY_CLIENT, now), a, CLIENT_REPORTED_CASHIER, ENDED_BY_REPORT, now),
                     Apply(db, step), db.nextId + 1, now, choice, r);
    case BlockByCashier(a, now, choice) => BlockCounts(db, step, r);
  }

  lemma BlockCounts(db: Db, step: Step, r: Id)
    requires Enabled(db, step) && KeysBelow(db.requests, db.nextId) && step.BlockByCashier?
    ensures Attempts(Apply(db, step).requests, r) == Attempts(db.requests, r) + (if Tries(db, step, r) then 1 else 0)
    ensures LastAttempt(Apply(db, step).requests, r) == if Tries(db, step, r) then Some(step.now) else LastAttempt(db.requests, r)
  {
    BlockLeaves(db, step);
    var left := Left(WithBlock(db, step.a, BY_CASHIER, step.now), step.a, CASHIER_BLOCKED_CLIENT, ENDED_BY_BLOCK, step.now);
    if Apply(db, step).requests == db.requests {
    } else {
      CompleteCounts(left, Apply(db, step), db.nextId + 1, step.now, step.choice, r);
    }
  }

  lemma OtherStepsDoNotCount(db: Db, step: Step, r: Id)
    requires Enabled(db, step) && ConversationsMatch(db.assignments, db.conversations)
    requires AccountStep(step) || step.RemoveClient? || step.Register?
    ensures Attempts(Apply(db, step).requests, r) == Attempts(db.requests, r) && !Tries(db, step, r)
    ensures LastAttempt(Apply(db, step).requests, r) == LastAttempt(db.requests, r)
  {
    if AccountStep(step) { AccountStepFrame(db, step); }
    if step.RemoveClient? { RemovalEnds(db, step); }
  }

  /** Each step that tries a request adds one attempt at its own instant; no other step touches either. */
  lemma StepCounts(db: Db, cur: map<Id, Holder>, step: Step, r: Id)
    requires Inv(db, cur) && Enabled(db, step)
    ensures Attempts(Apply(db, step).requests, r) == Attempts(db.requests, r) + (if Tries(db, step, r) then 1 else 0)
    ensures LastAttempt(Apply(db, step).requests, r) == if Tries(db, step, r) then Some(step.now) else LastAttempt(db.requests, r)
  {
    match step
    case Complete(q, now, choice) =>
      CompleteTries(db, q, now, choice);
      CompleteCounts(db, Apply(db, step), q, now, choice, r);
    case Begin(_, _, _, _, _) => MoveCounts(db, step, r);
    case Report(_, _, _) => MoveCounts(db, step, r);
    case BlockByCashier(_, _, _) => MoveCounts(db, step, r);
    case _ => OtherStepsDoNotCount(db, step, r);
  }

  /** Step `k` of the run tries the request. */
  ghost predicate TriedAt(states: seq<Db>, steps: seq<Step>, k: nat, r: Id) {
    k < |steps| && k < |states| && Enabled(states[k], steps[k]) && Tries(states[k], steps[k], r)
  }

  lemma RunCounts(states: seq<Db>, steps: seq<Step>, k: nat, r: Id)
    requires Run(states, steps) && k < |steps|
    ensures var (before, after, tried) := (states[k].requests, states[k + 1].requests, TriedAt(states, steps, k, r));
            && Attempts(after, r) == Attempts(before, r) + (if tried then 1 else 0)
            && LastAttempt(after, r) == if tried then Some(steps[k].now) else LastAttempt(before, r)
    ensures states[k].clock <= steps[k].now == states[k + 1].clock
  {
    var cur := RunKeeps(states, steps, k);
    StepCounts(states[k], cur, steps[k], r);
    ClockOfStep(states[k], steps[k]);
  }

  lemma ClockOfStep(db: Db, step: Step)
    requires Enabled(db, step)
    ensures Apply(db, step).clock == step.now && db.clock <= step.now
  {
  }

  /** How many of the first `i` steps tried the request. */
  ghost function TriesBefore(states: seq<Db>, steps: seq<Step>, i: nat, r: Id): nat {
    if i == 0 then 0 else TriesBefore(states, steps, i - 1, r) + (if TriedAt(states, steps, i - 1, r) then 1 else 0)
  }

  /** The stored number of attempts is the number of steps of the run that tried the request. */
  lemma {:induction false} AttemptsAreCounted(states: seq<Db>, steps: seq<Step>, i: nat, r: Id)
    requires Run(states, steps) && i <= |steps|
    ensures Attempts(states[i].requests, r) == TriesBefore(states, steps, i, r)
  {
    if i > 0 {
      AttemptsAreCounted(states, steps, i - 1, r);
      RunCounts(states, steps, i - 1, r);
    }
  }

  /** Over step `k` the count does not fall, and the last attempt stays or becomes the instant of the step. */
  ghost predicate CountMoves(states: seq<Db>, steps: seq<Step>, k: nat, r: Id)
    requires k < |steps| && k + 1 < |states|
  {
    && Attempts(states[k].requests, r) <= Attempts(states[k + 1].requests, r)
    && LastAttempt(states[k + 1].requests, r) in {LastAttempt(states[k].requests, r), Some(steps[k].now)}
    && states[k].clock <= steps[k].now == states[k + 1].clock
  }

  /** From a try on, the last attempt is no earlier than it and the count is no smaller. */
  lemma {:induction false} AfterTheTry(states: seq<Db>, steps: seq<Step>, i: nat, c: nat, r: Id)
    requires |states| == |steps| + 1 && i < c <= |steps|
    requires forall k | 0 <= k < |steps| :: CountMoves(states, steps, k, r)
    requires LastAttempt(states[i + 1].requests, r) == Some(steps[i].now)
    ensures Attempts(states[c].requests, r) >= Attempts(states[i + 1].requests, r)
    ensures LastAttempt(states[c].requests, r).Some? && steps[i].now <= LastAttempt(states[c].requests, r).value
    ensures steps[i].now <= states[c].clock
    decreases c
  {
    assert CountMoves(states, steps, c - 1, r);
    if i + 1 < c { AfterTheTry(states, steps, i, c - 1, r); }
  }

  /** The worker waits: once a request has been tried for the n-th time, by whatever step, no selection of the
      worker takes it before the n-th waiting time has passed, and so no attempt of the worker follows sooner. */
  lemma WorkerWaits(states: seq<Db>, steps: seq<Step>, i: nat, c: nat, j: nat, r: Id, selectedAt: Instant)
    requires Run(states, steps) && i < c <= j < |steps| && TriedAt(states, steps, i, r)
    requires r in AssignmentsServices.DueRequests(states[c], selectedAt) && selectedAt <= steps[j].now
    ensures steps[i].now + Wait(TriesBefore(states, steps, i, r) + 1) <= steps[j].now
  {
    forall k | 0 <= k < |steps| ensures CountMoves(states, steps, k, r) { RunCounts(states, steps, k, r); }
    RunCounts(states, steps, i, r);
    AttemptsAreCounted(states, steps, i, r);
    AfterTheTry(states, steps, i, c, r);
    SelectedFrom(states[c], selectedAt, r);
    WaitsGrow(Attempts(states[i].requests, r) + 1, Attempts(states[c].requests, r));
  }
}
