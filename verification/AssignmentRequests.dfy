/** Reassignments and the requests that led to them, over whole runs. */
module AssignmentRequests {
  import opened Wrappers
  import opened AssignmentTables
  import opened AssignmentInvariants
  import opened AssignmentRuns

  /** A completed request names the assignment that answers it, made at its last attempt: it follows the
      request's own assignment, for the same client and reason, with another cashier. */
  ghost predicate Answered(rows: Assignments, q: Request, clock: Instant) {
    && q.requestedAt <= clock
    && (q.attemptCount == 0 <==> q.lastAttemptAt == None)
    && (q.lastAttemptAt.Some? ==> q.requestedAt <= q.lastAttemptAt.value <= clock)
    && match q.status
       case PENDING => q.completedAt == None
       case CANCELED => q.completedAt.Some? && q.requestedAt <= q.completedAt.value <= clock
       case COMPLETED(a) =>
         && a in rows && rows[a].previous == Some(q.previousAssignment) && rows[a].client == q.client
         && rows[a].cashier != q.excludedCashier && rows[a].startReason == FOLLOWING(q.reason)
         && q.completedAt == q.lastAttemptAt == Some(rows[a].startedAt)
  }

  ghost predicate AllAnswered(rows: Assignments, requests: Requests, clock: Instant) {
    forall r | r in requests :: Answered(rows, requests[r], clock)
  }

  ghost predicate AnswersUnique(requests: Requests) {
    forall r, s | r in requests && s in requests && requests[r].status.COMPLETED?
                  && requests[r].status == requests[s].status :: r == s
  }

  ghost predicate Answers(requests: Requests, r: Id, a: Id) { r in requests && requests[r].status == COMPLETED(a) }

  ghost predicate EveryReassignmentAnswers(rows: Assignments, requests: Requests) {
    forall a | a in rows && rows[a].previous.Some? :: exists r :: Answers(requests, r, a)
  }

  ghost predicate Matched(rows: Assignments, requests: Requests, clock: Instant) {
    AllAnswered(rows, requests, clock) && AnswersUnique(requests) && EveryReassignmentAnswers(rows, requests)
  }

  // ---------------------------------------------------------------- single changes

  lemma EndKeepsMatched(rows: Assignments, requests: Requests, a: Id, now: Instant, reason: EndReason, clock: Instant)
    requires Matched(rows, requests, clock) && a in rows && clock <= now
    ensures Matched(Ended(rows, a, now, reason), requests, now)
  {
    var after := Ended(rows, a, now, reason);
    forall r | r in requests ensures Answered(after, requests[r], now) { assert Answered(rows, requests[r], clock); }
    forall x | x in after && after[x].previous.Some? ensures exists r :: Answers(requests, r, x) {
      assert rows[x].previous == after[x].previous;
    }
  }

  /** Changing a request that answers nothing into another one that answers nothing. */
  lemma SetKeepsMatched(rows: Assignments, requests: Requests, r: Id, q: Request, clock: Instant)
    requires Matched(rows, requests, clock) && Answered(rows, q, clock) && !q.status.COMPLETED?
    requires r in requests ==> !requests[r].status.COMPLETED?
    ensures Matched(rows, requests[r := q], clock)
  {
    var after := requests[r := q];
    forall x | x in after ensures Answered(rows, after[x], clock) {
      if x != r { assert Answered(rows, requests[x], clock); }
    }
    forall a | a in rows && rows[a].previous.Some? ensures exists s :: Answers(after, s, a) {
      var s :| Answers(requests, s, a);
      assert Answers(after, s, a);
    }
  }

  lemma AddKeepsMatched(rows: Assignments, requests: Requests, a: Id, x: Assignment, clock: Instant)
    requires Matched(rows, requests, clock) && a !in rows && x.previous == None
    ensures Matched(rows[a := x], requests, clock)
  {
    var after := rows[a := x];
    forall r | r in requests ensures Answered(after, requests[r], clock) { assert Answered(rows, requests[r], clock); }
    forall b | b in after && after[b].previous.Some? ensures exists r :: Answers(requests, r, b) {
      assert rows[b].previous == after[b].previous;
    }
  }

  /** The new assignment and the request it answers, together. */
  lemma PlaceKeepsMatched(rows: Assignments, requests: Requests, a: Id, x: Assignment, r: Id, q: Request, clock: Instant)
    requires Matched(rows, requests, clock) && a !in rows && r in requests && requests[r].status == PENDING
    requires q.status == COMPLETED(a) && Answered(rows[a := x], q, clock)
    ensures Matched(rows[a := x], requests[r := q], clock)
  {
    var after, answers := rows[a := x], requests[r := q];
    forall s | s in answers ensures Answered(after, answers[s], clock) {
      if s != r { assert Answered(rows, requests[s], clock); }
    }
    forall s | s in requests && s != r ensures answers[s].status != COMPLETED(a) {
      assert Answered(rows, requests[s], clock);
    }
    forall b | b in after && after[b].previous.Some? ensures exists s :: Answers(answers, s, b) {
      if b == a {
        assert Answers(answers, r, a);
      } else {
        var s :| Answers(requests, s, b);
        assert Answers(answers, s, b);
      }
    }
  }

  lemma MatchedLater(rows: Assignments, requests: Requests, clock: Instant, later: Instant)
    requires Matched(rows, requests, clock) && clock <= later
    ensures Matched(rows, requests, later)
  {
    forall r | r in requests ensures Answered(rows, requests[r], later) { assert Answered(rows, requests[r], clock); }
  }

  // ---------------------------------------------------------------- steps

  lemma CompleteKeepsMatched(db: Db, r: Id, now: Instant, choice: Option<Id>)
    requires Matched(db.assignments, db.requests, db.clock) && IsPending(db, r) && db.clock <= now
    requires db.nextId !in db.assignments
    requires ChoiceAllowed(db, db.requests[r].client, db.requests[r].excludedCashier, now, choice)
    ensures var d := CompletePending(db, r, now, choice); Matched(d.assignments, d.requests, now)
  {
    var q := db.requests[r];
    var d := CompletePending(db, r, now, choice);
    assert Answered(db.assignments, q, db.clock);
    MatchedLater(db.assignments, db.requests, db.clock, now);
    if ClientIsActive(db, q.client) {
      match choice
      case None => SetKeepsMatched(db.assignments, db.requests, r, d.requests[r], now);
      case Some(cashier) =>
        assert Eligible(db, q.client, q.excludedCashier, cashier, now);
        PlaceKeepsMatched(db.assignments, db.requests, db.nextId, d.assignments[db.nextId], r, d.requests[r], now);
    }
  }

  lemma OpenKeepsMatched(db: Db, a: Id, reason: Reason, endReason: EndReason, now: Instant)
    requires Matched(db.assignments, db.requests, db.clock) && OpenRow(db, a) && db.clock <= now
    requires KeysBelow(db.requests, db.nextId)
    ensures var d := OpenRequest(db, a, reason, endReason, now); Matched(d.assignments, d.requests, now)
  {
    EndKeepsMatched(db.assignments, db.requests, a, now, endReason, db.clock);
    SetKeepsMatched(Ended(db.assignments, a, now, endReason), db.requests, db.nextId, NewRequest(db, a, reason, now), now);
  }

  lemma BeginKeepsMatched(db: Db, a: Id, reason: Reason, endReason: EndReason, now: Instant, choice: Option<Id>)
    requires Matched(db.assignments, db.requests, db.clock) && OpenRow(db, a) && db.clock <= now && RowsInThePast(db)
    requires BeginChoiceAllowed(db, a, reason, endReason, now, choice)
    ensures var d := BeginReassignment(db, a, reason, endReason, now, choice); Matched(d.assignments, d.requests, now)
  {
    OpenKeepsMatched(db, a, reason, endReason, now);
    CompleteKeepsMatched(OpenRequest(db, a, reason, endReason, now), db.nextId, now, choice);
  }

  lemma ModerationKeepsMatched(db: Db, step: Step)
    requires Matched(db.assignments, db.requests, db.clock) && RowsInThePast(db) && Enabled(db, step)
    requires step.Report? || step.BlockByCashier?
    ensures var d := Apply(db, step); Matched(d.assignments, d.requests, step.now)
  {
    var row := db.assignments[step.a];
    var blocked := AddBlock(db, row.client, row.cashier, if step.Report? then BY_CLIENT else BY_CASHIER, step.now);
    MatchedLater(db.assignments, db.requests, db.clock, step.now);
    AddBlockKeepsDates(db, row.client, row.cashier, if step.Report? then BY_CLIENT else BY_CASHIER, step.now);
    if step.Report? {
      BeginKeepsMatched(blocked, step.a, CLIENT_REPORTED_CASHIER, ENDED_BY_REPORT, step.now, step.choice);
    } else if UnderReview(blocked.blocks, row.client) {
      EndKeepsMatched(db.assignments, db.requests, step.a, step.now, ENDED_BY_BLOCK, step.now);
    } else {
      BeginKeepsMatched(blocked, step.a, CASHIER_BLOCKED_CLIENT, ENDED_BY_BLOCK, step.now, step.choice);
    }
  }

  lemma AddBlockKeepsDates(db: Db, client: Id, cashier: Id, initiatedBy: Initiator, now: Instant)
    requires RowsInThePast(db) && db.clock <= now
    ensures RowsInThePast(AddBlock(db, client, cashier, initiatedBy, now))
  {
  }

  lemma DeleteKeepsMatched(db: Db, cur: map<Id, Holder>, client: Id, now: Instant)
    requires Matched(db.assignments, db.requests, db.clock) && db.clock <= now
    requires Linked(db, cur) && ConversationsMatch(db.assignments, db.conversations)
    ensures var d := DeleteClient(db, client, now); Matched(d.assignments, d.requests, now)
  {
    DeleteEndsOne(db, cur, client, now);
    MatchedLater(db.assignments, db.requests, db.clock, now);
    if client in cur && cur[client].OnAssignment? {
      EndKeepsMatched(db.assignments, db.requests, cur[client].a, now, ENDED_ACCOUNT_DELETED, now);
    } else if client in cur {
      var r := cur[client].r;
      assert Answered(db.assignments, db.requests[r], now);
      SetKeepsMatched(db.assignments, db.requests, r,
                      db.requests[r].(status := CANCELED, completedAt := Some(now)), now);
    }
  }

  lemma StepKeepsMatched(db: Db, cur: map<Id, Holder>, step: Step)
    requires Inv(db, cur) && Enabled(db, step) && Matched(db.assignments, db.requests, db.clock)
    ensures var d := Apply(db, step); Matched(d.assignments, d.requests, d.clock)
  {
    StepClock(db, step);
    match step
    case Register(client, cashier, now) =>
      AddKeepsMatched(db.assignments, db.requests, db.nextId, Assignment(client, cashier, None, INVITATION, now, None), db.clock);
      MatchedLater(Apply(db, step).assignments, db.requests, db.clock, now);
    case Begin(a, reason, endReason, now, choice) => BeginKeepsMatched(db, a, reason, endReason, now, choice);
    case Complete(r, now, choice) => CompleteKeepsMatched(db, r, now, choice);
    case Report(_, _, _) => ModerationKeepsMatched(db, step);
    case BlockByCashier(_, _, _) => ModerationKeepsMatched(db, step);
    case RemoveClient(client, now) => DeleteKeepsMatched(db, cur, client, now);
    case _ =>
      AccountStepFrame(db, step);
      MatchedLater(db.assignments, db.requests, db.clock, step.now);
  }

  lemma CompleteClock(db: Db, r: Id, now: Instant, choice: Option<Id>)
    requires r in db.requests
    ensures CompletePending(db, r, now, choice).clock == now
  {
  }

  lemma BeginClock(db: Db, a: Id, reason: Reason, endReason: EndReason, now: Instant, choice: Option<Id>)
    requires a in db.assignments && a in db.conversations
    ensures BeginReassignment(db, a, reason, endReason, now, choice).clock == now
  {
    CompleteClock(OpenRequest(db, a, reason, endReason, now), db.nextId, now, choice);
  }

  lemma StepClock(db: Db, step: Step)
    requires Enabled(db, step)
    ensures Apply(db, step).clock == step.now
  {
    match step
    case Begin(a, reason, endReason, now, choice) => BeginClock(db, a, reason, endReason, now, choice);
    case Complete(r, now, choice) => CompleteClock(db, r, now, choice);
    case Report(a, now, choice) =>
      var x := db.assignments[a];
      BeginClock(AddBlock(db, x.client, x.cashier, BY_CLIENT, now), a, CLIENT_REPORTED_CASHIER, ENDED_BY_REPORT, now, choice);
    case BlockByCashier(a, now, choice) =>
      var x := db.assignments[a];
      BeginClock(AddBlock(db, x.client, x.cashier, BY_CASHIER, now), a, CASHIER_BLOCKED_CLIENT, ENDED_BY_BLOCK, now, choice);
    case _ =>
  }

  lemma {:induction false} RunMatches(states: seq<Db>, steps: seq<Step>, i: nat)
    requires Run(states, steps) && i < |states|
    ensures Matched(states[i].assignments, states[i].requests, states[i].clock)
  {
    if i > 0 {
      var cur := RunKeeps(states, steps, i - 1);
      RunMatches(states, steps, i - 1);
      StepKeepsMatched(states[i - 1], cur, steps[i - 1]);
    }
  }

  /** In every run the reassignments correspond one to one to the completed requests. */
  lemma ReassignmentsAnswerRequests(states: seq<Db>, steps: seq<Step>, i: nat, a: Id)
    requires Run(states, steps) && i < |states| && a in states[i].assignments
    ensures var db := states[i];
            && (db.assignments[a].previous.Some? <==> exists r :: Answers(db.requests, r, a))
            && (forall r, s | Answers(db.requests, r, a) && Answers(db.requests, s, a) :: r == s)
            && (forall r | Answers(db.requests, r, a) ::
                  && db.assignments[a].previous == Some(db.requests[r].previousAssignment)
                  && db.assignments[a].client == db.requests[r].client
                  && db.requests[r].requestedAt <= db.assignments[a].startedAt
                  && db.requests[r].attemptCount > 0)
  {
    RunMatches(states, steps, i);
    var db := states[i];
    forall r | Answers(db.requests, r, a) ensures Answered(db.assignments, db.requests[r], db.clock) {}
  }
}
