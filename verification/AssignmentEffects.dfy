/** What each step of the scheduler leaves in the rows, and whom the least-loaded choice may pick. */
module AssignmentEffects {
  import opened Wrappers
  import opened AssignmentTables
  import opened AssignmentInvariants
  import opened AssignmentRuns

  // ---------------------------------------------------------------- the choice

  /** The tables as they would be with the client assigned to the cashier. */
  function WithAssignment(db: Db, client: Id, cashier: Id, now: Instant): Db {
    db.(assignments := db.assignments[db.nextId := Assignment(client, cashier, None, INVITATION, now, None)],
        conversations := db.conversations[db.nextId := Conversation(true, now, None)])
  }

  /** Not the cashier that the client leaves, no block between the two, and messages would pass. */
  ghost predicate CouldTakeOver(db: Db, client: Id, excluded: Id, cashier: Id, now: Instant) {
    && cashier != excluded
    && (forall b | b in db.blocks :: db.blocks[b].client != client || db.blocks[b].cashier != cashier)
    && EligibilityRows(WithAssignment(db, client, cashier, now), db.nextId, now) != {}
  }

  function OpenCount(db: Db, cashier: Id): nat {
    |set a | a in db.assignments && db.assignments[a].ended == None && db.assignments[a].cashier == cashier|
  }

  /** The candidates of the scheduler's query are exactly the cashiers whose messages the separately written
      eligibility query would let pass, without a block and without the cashier that is left. */
  lemma CandidatesCouldWrite(db: Db, client: Id, excluded: Id, cashier: Id, now: Instant)
    requires ClientIsActive(db, client)
    ensures cashier in Candidates(db, client, excluded, now) <==> CouldTakeOver(db, client, excluded, cashier, now)
  {
    var given := WithAssignment(db, client, cashier, now);
    if HasCurrentSubscription(db, cashier, now) && Eligible(db, client, excluded, cashier, now) {
      var s :| s in db.subscriptions && db.subscriptions[s].cashier == cashier && InForce(db.subscriptions[s], now);
      assert s in EligibilityRows(given, db.nextId, now);
    }
    if s :| s in EligibilityRows(given, db.nextId, now) {
      assert InForce(db.subscriptions[s], now);
    }
  }

  /** A choice for an active client is allowed exactly when it is nobody because nobody could take over, or
      a cashier that could and has the fewest open assignments of all that could. */
  lemma ChoiceIsLeastLoaded(db: Db, client: Id, excluded: Id, now: Instant, choice: Option<Id>)
    requires ClientIsActive(db, client)
    ensures ChoiceAllowed(db, client, excluded, now, choice) <==>
              match choice
              case None => forall c :: !CouldTakeOver(db, client, excluded, c, now)
              case Some(c) =>
                && CouldTakeOver(db, client, excluded, c, now)
                && forall d | CouldTakeOver(db, client, excluded, d, now) :: OpenCount(db, c) <= OpenCount(db, d)
  {
    forall c ensures c in Candidates(db, client, excluded, now) <==> CouldTakeOver(db, client, excluded, c, now) {
      CandidatesCouldWrite(db, client, excluded, c, now);
    }
    forall c ensures Load(db, c) == OpenCount(db, c) {
      assert OpenOfCashier(db, c) == set a | a in db.assignments && db.assignments[a].ended == None && db.assignments[a].cashier == c;
    }
  }

  // ---------------------------------------------------------------- trying a request

  /** One try of a request: nothing for a client that is not active, otherwise one attempt more and, with a
      choice, the new assignment that follows the request's own. */
  ghost predicate Tried(db: Db, d: Db, r: Id, now: Instant, choice: Option<Id>)
    requires r in db.requests
  {
    var q := db.requests[r];
    if q.client !in db.clients || db.clients[q.client] != ACTIVE
    then d == db.(clock := now)
    else match choice
      case None =>
        d == db.(requests := db.requests[r := q.(attemptCount := q.attemptCount + 1, lastAttemptAt := Some(now))], clock := now)
      case Some(cashier) =>
        && d.assignments
           == db.assignments[db.nextId := Assignment(q.client, cashier, Some(q.previousAssignment), FOLLOWING(q.reason), now, None)]
        && d.conversations == db.conversations[db.nextId := Conversation(true, now, None)]
        && d.requests
           == db.requests[r := Request(q.client, q.previousAssignment, q.excludedCashier, q.reason, COMPLETED(db.nextId),
                                       q.attemptCount + 1, q.requestedAt, Some(now), Some(now))]
        && d == db.(assignments := d.assignments, conversations := d.conversations, requests := d.requests,
                    nextId := db.nextId + 1, clock := now)
  }

  lemma CompleteTries(db: Db, r: Id, now: Instant, choice: Option<Id>)
    requires r in db.requests
    ensures Tried(db, CompletePending(db, r, now, choice), r, now, choice)
  {
  }

  // ---------------------------------------------------------------- leaving a cashier

  /** The assignment ended, its conversation closed, and a request for its client opened under the next id. */
  function Left(db: Db, a: Id, reason: Reason, endReason: EndReason, now: Instant): Db
    requires OpenRow(db, a)
  {
    var row := db.assignments[a];
    db.(assignments := db.assignments[a := row.(ended := Some((now, endReason)))],
        conversations := db.conversations[a := db.conversations[a].(active := false, closedAt := Some(now))],
        requests := db.requests[db.nextId := Request(row.client, a, row.cashier, reason, PENDING, 0, now, None, None)],
        nextId := db.nextId + 1, clock := now)
  }

  function WithBlock(db: Db, a: Id, initiatedBy: Initiator, now: Instant): Db
    requires OpenRow(db, a)
  {
    db.(blocks := db.blocks[db.nextId := Block(db.assignments[a].client, db.assignments[a].cashier, initiatedBy, now)],
        nextId := db.nextId + 1, clock := now)
  }

  /** A move ends the assignment with the caller's reason and tries the request it opens at once. */
  lemma BeginLeaves(db: Db, step: Step)
    requires Enabled(db, step) && step.Begin?
    ensures OpenRow(db, step.a)
    ensures Tried(Left(db, step.a, step.reason, step.endReason, step.now), Apply(db, step), db.nextId, step.now, step.choice)
  {
    CompleteTries(OpenRequest(db, step.a, step.reason, step.endReason, step.now), db.nextId, step.now, step.choice);
  }

  /** A report blocks the client's own cashier in the client's name and moves the client for that reason. */
  lemma ReportLeaves(db: Db, step: Step)
    requires Enabled(db, step) && step.Report?
    ensures OpenRow(db, step.a)
    ensures var left := Left(WithBlock(db, step.a, BY_CLIENT, step.now), step.a, CLIENT_REPORTED_CASHIER, ENDED_BY_REPORT, step.now);
            Tried(left, Apply(db, step), db.nextId + 1, step.now, step.choice)
  {
    var x := db.assignments[step.a];
    var blocked := AddBlock(db, x.client, x.cashier, BY_CLIENT, step.now);
    CompleteTries(OpenRequest(blocked, step.a, CLIENT_REPORTED_CASHIER, ENDED_BY_REPORT, step.now),
                  blocked.nextId, step.now, step.choice);
  }

  /** A cashier's block moves the client as well, unless it is the fifth: then the client is suspended, its
      assignment ends and no request is opened. */
  lemma BlockLeaves(db: Db, step: Step)
    requires Enabled(db, step) && step.BlockByCashier?
    ensures OpenRow(db, step.a)
    ensures var (blocked, client) := (WithBlock(db, step.a, BY_CASHIER, step.now), db.assignments[step.a].client);
            var left := Left(blocked, step.a, CASHIER_BLOCKED_CLIENT, ENDED_BY_BLOCK, step.now);
            var fifth := |set b | b in blocked.blocks && blocked.blocks[b].client == client
                                  && blocked.blocks[b].initiatedBy == BY_CASHIER :: blocked.blocks[b].cashier| >= 5;
            if fifth
            then Apply(db, step) == blocked.(assignments := left.assignments, conversations := left.conversations,
                                             clients := db.clients[client := SUSPENDED])
            else Tried(left, Apply(db, step), db.nextId + 1, step.now, step.choice)
  {
    var x := db.assignments[step.a];
    var blocked := AddBlock(db, x.client, x.cashier, BY_CASHIER, step.now);
    assert blocked == WithBlock(db, step.a, BY_CASHIER, step.now);
    assert Blockers(blocked.blocks, x.client)
           == set b | b in blocked.blocks && blocked.blocks[b].client == x.client
                      && blocked.blocks[b].initiatedBy == BY_CASHIER :: blocked.blocks[b].cashier;
    if !UnderReview(blocked.blocks, x.client) {
      CompleteTries(OpenRequest(blocked, step.a, CASHIER_BLOCKED_CLIENT, ENDED_BY_BLOCK, step.now),
                    blocked.nextId, step.now, step.choice);
    }
  }

  // ---------------------------------------------------------------- accounts and periods

  /** A new client is active and talks to the cashier that invited it. */
  lemma RegistrationAdds(db: Db, step: Step)
    requires Enabled(db, step) && step.Register?
    ensures step.client !in db.clients
    ensures Apply(db, step) == db.(
              clients := db.clients[step.client := ACTIVE],
              assignments := db.assignments[db.nextId := Assignment(step.client, step.cashier, None, INVITATION, step.now, None)],
              conversations := db.conversations[db.nextId := Conversation(true, step.now, None)],
              nextId := db.nextId + 1, clock := step.now)
  {
  }

  /** A deleted client's open assignment ends with its conversation, its pending request is cancelled, and no
      row of another client changes. */
  lemma RemovalEnds(db: Db, step: Step)
    requires Enabled(db, step) && step.RemoveClient? && ConversationsMatch(db.assignments, db.conversations)
    ensures var (d, c, now) := (Apply(db, step), step.client, step.now);
            && d.clients == db.clients[c := DELETED] && d.blocks == db.blocks && d.subscriptions == db.subscriptions
            && d.assignments.Keys == db.assignments.Keys && d.requests.Keys == db.requests.Keys
            && d.conversations.Keys == db.conversations.Keys
            && (forall a | a in db.assignments ::
                  var was := db.assignments[a].client == c && db.assignments[a].ended == None;
                  && d.assignments[a] == (if was then db.assignments[a].(ended := Some((now, ENDED_ACCOUNT_DELETED))) else db.assignments[a])
                  && d.conversations[a] == (if was then db.conversations[a].(active := false, closedAt := Some(now)) else db.conversations[a]))
            && (forall r | r in db.requests ::
                  d.requests[r] == if db.requests[r].client == c && db.requests[r].status == PENDING
                                   then db.requests[r].(status := CANCELED, completedAt := Some(now)) else db.requests[r])
  {
  }

  /** One new period from now on, in use until its end, for a cashier that has none. */
  lemma ActivationOpens(db: Db, step: Step)
    requires Enabled(db, step) && step.Activate?
    ensures Apply(db, step)
            == db.(subscriptions := db.subscriptions[db.nextId := Subscription(step.cashier, SUBSCRIBED, step.now, step.endsAt, step.now)],
                   nextId := db.nextId + 1, clock := step.now)
    ensures step.endsAt.Some? ==> step.now < step.endsAt.value
    ensures forall s | s in db.subscriptions && db.subscriptions[s].status == SUBSCRIBED :: db.subscriptions[s].cashier != step.cashier
  {
    forall s | s in db.subscriptions && db.subscriptions[s].status == SUBSCRIBED
      ensures db.subscriptions[s].cashier != step.cashier
    {
      assert s !in ActiveSubscriptions(db, step.cashier);
    }
  }

  /** The cashier has an active row with this property. */
  ghost predicate HasActive(db: Db, cashier: Id, property: Subscription -> bool) {
    exists s | s in db.subscriptions ::
      db.subscriptions[s].cashier == cashier && db.subscriptions[s].status == SUBSCRIBED && property(db.subscriptions[s])
  }

  /** Why an activation is refused: a past end, or a period of the cashier that is in force, over or to come. */
  lemma ActivationIsRefused(db: Db, cashier: Id, endsAt: Option<Instant>, now: Instant)
    ensures var (refusal, past) := (ActivationRefusal(db, cashier, endsAt, now), endsAt.Some? && endsAt.value <= now);
            var inForce := HasActive(db, cashier, (s: Subscription) => s.startsAt <= now && (s.endsAt == None || now < s.endsAt.value));
            var over := HasActive(db, cashier, (s: Subscription) => s.endsAt.Some? && s.endsAt.value <= now);
            && (refusal == Some(ENDS_IN_THE_PAST) <==> past)
            && (refusal == Some(ALREADY_ACTIVE) <==> !past && inForce)
            && (refusal == Some(AWAITING_RECONCILIATION) <==> !past && !inForce && over)
            && (refusal == Some(ALREADY_SCHEDULED)
                <==> !past && !inForce && !over && HasActive(db, cashier, (s: Subscription) => true))
  {
    forall s ensures s in ActiveSubscriptions(db, cashier)
                     <==> s in db.subscriptions && db.subscriptions[s].cashier == cashier && db.subscriptions[s].status == SUBSCRIBED {}
  }

  /** Deactivating or cancelling ends one period: now, but no earlier than a millisecond after its start; only
      deactivation keeps an end that has passed. No other row changes. */
  lemma PeriodEnds(db: Db, step: Step)
    requires Enabled(db, step) && (step.Deactivate? || step.Cancel?)
    ensures step.s in db.subscriptions
    ensures var row := db.subscriptions[step.s];
            var asked := if step.Deactivate? && row.endsAt.Some? && row.endsAt.value <= step.now then row.endsAt.value else step.now;
            Apply(db, step) == db.(subscriptions := db.subscriptions[step.s := Subscription(
              row.cashier, if step.Deactivate? then INACTIVE else CANCELLED, row.startsAt,
              Some(if row.startsAt < asked then asked else row.startsAt + 1), step.now)], clock := step.now)
  {
  }
}
