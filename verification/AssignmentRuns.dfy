/**
 Whole runs of the assignment scheduler. A transaction that treats several rows (a cashier's clients,
 a batch of retries) is several steps here, so what holds after every step holds at every commit.
*/
module AssignmentRuns {
  import opened Wrappers
  import opened AssignmentTables
  import opened AssignmentInvariants

  datatype Step =
    | Register(client: Id, cashier: Id, now: Instant)
    | Begin(a: Id, reason: Reason, endReason: EndReason, now: Instant, choice: Option<Id>)
    | Complete(r: Id, now: Instant, choice: Option<Id>)
    | Report(a: Id, now: Instant, choice: Option<Id>)
    | BlockByCashier(a: Id, now: Instant, choice: Option<Id>)
    | RemoveClient(client: Id, now: Instant)
    | SetClientStatus(client: Id, status: AccountStatus, now: Instant)
    | SetCashier(cashier: Id, row: Cashier, now: Instant)
    | Activate(cashier: Id, endsAt: Option<Instant>, now: Instant)
    | Deactivate(s: Id, now: Instant)
    | Cancel(s: Id, now: Instant)
    | Expire(s: Id, now: Instant)
    | Rotate(s: Id, now: Instant)

  const START := Db(map[], map[], map[], map[], map[], map[], map[], 0, 0)

  predicate OpenRow(db: Db, a: Id) { IsOpen(db, a) && a in db.conversations }

  predicate Enabled(db: Db, step: Step) {
    db.clock <= step.now &&
    match step
    case Register(client, _, _) => client !in db.clients
    case Begin(a, reason, endReason, now, choice) =>
      OpenRow(db, a) && BeginChoiceAllowed(db, a, reason, endReason, now, choice)
    case Complete(r, now, choice) =>
      IsPending(db, r) && ChoiceAllowed(db, db.requests[r].client, db.requests[r].excludedCashier, now, choice)
    case Report(a, now, choice) =>
      && OpenRow(db, a)
      && var x := db.assignments[a];
         && !BlockExists(db, x.client, x.cashier, BY_CLIENT)
         && BeginChoiceAllowed(AddBlock(db, x.client, x.cashier, BY_CLIENT, now), a,
                               CLIENT_REPORTED_CASHIER, ENDED_BY_REPORT, now, choice)
    case BlockByCashier(a, now, choice) =>
      && OpenRow(db, a)
      && var x := db.assignments[a];
         var blocked := AddBlock(db, x.client, x.cashier, BY_CASHIER, now);
         && !BlockExists(db, x.client, x.cashier, BY_CASHIER)
         && (!UnderReview(blocked.blocks, x.client) ==>
               BeginChoiceAllowed(blocked, a, CASHIER_BLOCKED_CLIENT, ENDED_BY_BLOCK, now, choice))
    case RemoveClient(client, _) => client in db.clients && db.clients[client] != DELETED
    case SetClientStatus(client, status, _) =>
      client in db.clients && db.clients[client] != DELETED && status != DELETED
    case SetCashier(_, _, _) => true
    case Activate(cashier, endsAt, now) => ActivationRefusal(db, cashier, endsAt, now) == None
    case Deactivate(s, _) => s in db.subscriptions && db.subscriptions[s].status == SUBSCRIBED
    case Cancel(s, _) => s in db.subscriptions && db.subscriptions[s].status == SUBSCRIBED
    case Expire(s, now) => s in db.subscriptions && Lapsed(db.subscriptions[s], now)
    case Rotate(s, now) => s in db.subscriptions && Lapsed(db.subscriptions[s], now)
  }

  function Apply(db: Db, step: Step): Db
    requires Enabled(db, step)
  {
    match step
    case Register(client, cashier, now) => RegisterClient(db, client, cashier, now)
    case Begin(a, reason, endReason, now, choice) => BeginReassignment(db, a, reason, endReason, now, choice)
    case Complete(r, now, choice) => CompletePending(db, r, now, choice)
    case Report(a, now, choice) => ReportCashier(db, a, now, choice)
    case BlockByCashier(a, now, choice) => BlockClient(db, a, now, choice)
    case RemoveClient(client, now) => DeleteClient(db, client, now)
    case SetClientStatus(client, status, now) => db.(clients := db.clients[client := status], clock := now)
    case SetCashier(cashier, row, now) => db.(cashiers := db.cashiers[cashier := row], clock := now)
    case Activate(cashier, endsAt, now) => AddSubscription(db, cashier, endsAt, now)
    case Deactivate(s, now) => SetSubscription(db, s, DeactivatedRow(db.subscriptions[s], now)).(clock := now)
    case Cancel(s, now) => SetSubscription(db, s, CancelledRow(db.subscriptions[s], now)).(clock := now)
    case Expire(s, now) => SetSubscription(db, s, db.subscriptions[s].(status := EXPIRED, updatedAt := now)).(clock := now)
    case Rotate(s, now) => SetSubscription(db, s, db.subscriptions[s].(updatedAt := now)).(clock := now)
  }

  ghost predicate Inv(db: Db, cur: map<Id, Holder>) {
    Linked(db, cur) && Covers(db.clients, db.blocks, cur.Keys) && History(db)
  }

  // ---------------------------------------------------------------- steps

  lemma BeginKeepsHistory(db: Db, cur: map<Id, Holder>, a: Id, reason: Reason, endReason: EndReason,
                          now: Instant, choice: Option<Id>)
    requires Linked(db, cur) && History(db) && IsOpen(db, a) && db.clock <= now
    requires BeginChoiceAllowed(db, a, reason, endReason, now, choice)
    ensures History(BeginReassignment(db, a, reason, endReason, now, choice))
  {
    OpenRequestKeepsHistory(db, a, reason, endReason, now);
    OpenRequestKeepsLinks(db, cur, a, reason, endReason, now);
    CompleteKeepsHistory(OpenRequest(db, a, reason, endReason, now),
                         cur[db.assignments[a].client := OnRequest(db.nextId)], db.nextId, now, choice);
  }

  lemma BeginKeepsLinks(db: Db, cur: map<Id, Holder>, a: Id, reason: Reason, endReason: EndReason,
                        now: Instant, choice: Option<Id>) returns (after: map<Id, Holder>)
    requires Linked(db, cur) && RowsInThePast(db) && IsOpen(db, a) && a in db.conversations && db.clock <= now
    ensures Linked(BeginReassignment(db, a, reason, endReason, now, choice), after)
    ensures after.Keys == cur.Keys
  {
    var posted := OpenRequest(db, a, reason, endReason, now);
    var waiting := cur[db.assignments[a].client := OnRequest(db.nextId)];
    OpenRequestKeepsLinks(db, cur, a, reason, endReason, now);
    assert KeysBelow(posted.requests, posted.nextId);
    CompleteKeepsLinks(posted, waiting, db.nextId, now, choice);
    after := Completed(posted, waiting, db.nextId, choice);
    assert db.assignments[a].client in cur;
    assert waiting.Keys == cur.Keys;
  }

  lemma BeginKeeps(db: Db, cur: map<Id, Holder>, a: Id, reason: Reason, endReason: EndReason,
                   now: Instant, choice: Option<Id>) returns (after: map<Id, Holder>)
    requires Inv(db, cur) && IsOpen(db, a) && db.clock <= now
    requires BeginChoiceAllowed(db, a, reason, endReason, now, choice)
    ensures Inv(BeginReassignment(db, a, reason, endReason, now, choice), after) && after.Keys == cur.Keys
  {
    BeginKeepsHistory(db, cur, a, reason, endReason, now, choice);
    after := BeginKeepsLinks(db, cur, a, reason, endReason, now, choice);
  }

  lemma CompleteKeeps(db: Db, cur: map<Id, Holder>, r: Id, now: Instant, choice: Option<Id>)
    returns (after: map<Id, Holder>)
    requires Inv(db, cur) && IsPending(db, r) && db.clock <= now
    requires ChoiceAllowed(db, db.requests[r].client, db.requests[r].excludedCashier, now, choice)
    ensures Inv(CompletePending(db, r, now, choice), after)
  {
    CompleteKeepsLinks(db, cur, r, now, choice);
    CompleteKeepsHistory(db, cur, r, now, choice);
    after := Completed(db, cur, r, choice);
    assert after.Keys == cur.Keys;
  }

  lemma AddBlockKeepsHistory(db: Db, a: Id, initiatedBy: Initiator, now: Instant)
    requires History(db) && IsOpen(db, a) && db.clock <= now
    ensures History(AddBlock(db, db.assignments[a].client, db.assignments[a].cashier, initiatedBy, now))
  {
    var d := AddBlock(db, db.assignments[a].client, db.assignments[a].cashier, initiatedBy, now);
    assert BlocksComeLater(d.assignments, d.blocks);
  }

  lemma BlockersGrow(blocks: map<Id, Block>, b: Id, row: Block, c: Id)
    requires b !in blocks
    ensures Blockers(blocks[b := row], c)
            == if c == row.client && row.initiatedBy == BY_CASHIER then Blockers(blocks, c) + {row.cashier}
               else Blockers(blocks, c)
  {
    var after := blocks[b := row];
    assert after[b] == row;
    assert forall x | x in blocks :: after[x] == blocks[x];
  }

  /** A new block changes who is covered only for its own client, and only at the fifth cashier. */
  lemma BlockKeepsCovers(clients: map<Id, AccountStatus>, blocks: map<Id, Block>, covered: set<Id>, b: Id, row: Block)
    requires Covers(clients, blocks, covered) && b !in blocks && row.client in covered
    ensures row.initiatedBy == BY_CLIENT ==> !UnderReview(blocks[b := row], row.client)
    ensures !UnderReview(blocks[b := row], row.client) ==> Covers(clients, blocks[b := row], covered)
    ensures UnderReview(blocks[b := row], row.client) ==>
              Covers(clients[row.client := SUSPENDED], blocks[b := row], covered - {row.client})
  {
    forall c | c in clients ensures c != row.client ==> UnderReview(blocks[b := row], c) == UnderReview(blocks, c) {
      BlockersGrow(blocks, b, row, c);
    }
    BlockersGrow(blocks, b, row, row.client);
  }

  /** A client's report is never what takes the client out of the scheduler. */
  lemma ReportKeeps(db: Db, cur: map<Id, Holder>, a: Id, now: Instant, choice: Option<Id>)
    returns (after: map<Id, Holder>)
    requires Inv(db, cur) && Enabled(db, Report(a, now, choice))
    ensures Inv(ReportCashier(db, a, now, choice), after)
  {
    var x := db.assignments[a];
    AddBlockKeepsHistory(db, a, BY_CLIENT, now);
    BlockKeepsCovers(db.clients, db.blocks, cur.Keys, db.nextId, Block(x.client, x.cashier, BY_CLIENT, now));
    after := BeginKeeps(AddBlock(db, x.client, x.cashier, BY_CLIENT, now), cur, a,
                        CLIENT_REPORTED_CASHIER, ENDED_BY_REPORT, now, choice);
  }

  /** Below the threshold the client is reassigned; at the fifth cashier it leaves the scheduler. */
  lemma BlockKeeps(db: Db, cur: map<Id, Holder>, a: Id, now: Instant, choice: Option<Id>)
    returns (after: map<Id, Holder>)
    requires Inv(db, cur) && Enabled(db, BlockByCashier(a, now, choice))
    ensures Inv(BlockClient(db, a, now, choice), after)
  {
    var x := db.assignments[a];
    var blocked := AddBlock(db, x.client, x.cashier, BY_CASHIER, now);
    AddBlockKeepsHistory(db, a, BY_CASHIER, now);
    BlockKeepsCovers(db.clients, db.blocks, cur.Keys, db.nextId, Block(x.client, x.cashier, BY_CASHIER, now));
    if UnderReview(blocked.blocks, x.client) {
      after := ReviewKeeps(blocked, cur, a, now);
    } else {
      after := BeginKeeps(blocked, cur, a, CASHIER_BLOCKED_CLIENT, ENDED_BY_BLOCK, now, choice);
    }
  }

  lemma ReviewKeeps(blocked: Db, cur: map<Id, Holder>, a: Id, now: Instant) returns (after: map<Id, Holder>)
    requires Linked(blocked, cur) && History(blocked) && IsOpen(blocked, a) && blocked.clock <= now
    ensures Linked(EndAssignment(blocked, a, ENDED_BY_BLOCK, now), after)
    ensures History(EndAssignment(blocked, a, ENDED_BY_BLOCK, now))
    ensures after.Keys == cur.Keys - {blocked.assignments[a].client}
  {
    EndKeepsHistory(blocked, a, ENDED_BY_BLOCK, now);
    after := Unlinked(blocked, cur, a, now, ENDED_BY_BLOCK);
  }

  lemma Unlinked(db: Db, cur: map<Id, Holder>, a: Id, now: Instant, reason: EndReason) returns (after: map<Id, Holder>)
    requires Linked(db, cur) && IsOpen(db, a) && a in db.conversations
    ensures Linked(EndAssignment(db, a, reason, now), after)
    ensures after.Keys == cur.Keys - {db.assignments[a].client}
  {
    after := cur - {db.assignments[a].client};
    EndUnlinks(db.assignments, cur, a, now, reason, OnRequest(0));
  }

  lemma RegisterKeepsCovers(clients: map<Id, AccountStatus>, blocks: map<Id, Block>, covered: set<Id>, client: Id)
    requires Covers(clients, blocks, covered) && client !in clients
    ensures Covers(clients[client := ACTIVE], blocks, covered + {client})
  {
    assert Blockers(blocks, client) == {};
  }

  lemma RegisterKeepsLinks(db: Db, cur: map<Id, Holder>, client: Id, cashier: Id, now: Instant)
    returns (after: map<Id, Holder>)
    requires Linked(db, cur) && client !in cur && db.nextId !in db.assignments
    ensures Linked(RegisterClient(db, client, cashier, now), after) && after.Keys == cur.Keys + {client}
  {
    after := cur[client := OnAssignment(db.nextId)];
    AssignmentLinks(db.assignments, cur, db.nextId, Assignment(client, cashier, None, INVITATION, now, None));
    assert PendingLinked(db.requests, after);
  }

  lemma RegisterKeepsHistory(db: Db, client: Id, cashier: Id, now: Instant)
    requires History(db) && db.clock <= now
    ensures History(RegisterClient(db, client, cashier, now))
  {
    RegisterKeepsLineage(db, Assignment(client, cashier, None, INVITATION, now, None));
  }

  lemma RegisterKeeps(db: Db, cur: map<Id, Holder>, client: Id, cashier: Id, now: Instant)
    returns (after: map<Id, Holder>)
    requires Inv(db, cur) && client !in db.clients && db.clock <= now
    ensures Inv(RegisterClient(db, client, cashier, now), after)
  {
    RegisterKeepsCovers(db.clients, db.blocks, cur.Keys, client);
    RegisterKeepsHistory(db, client, cashier, now);
    after := RegisterKeepsLinks(db, cur, client, cashier, now);
  }

  lemma RegisterKeepsLineage(db: Db, x: Assignment)
    requires History(db) && x.previous == None && x.startReason == INVITATION && x.ended == None && db.clock <= x.startedAt
    ensures var rows := db.assignments[db.nextId := x];
            && AncestrySound(rows) && SuccessorsUnique(rows) && PendingSound(rows, db.requests)
            && BlocksComeLater(rows, db.blocks)
  {
    var rows := db.assignments[db.nextId := x];
    forall a | a in db.assignments && db.assignments[a].previous.Some?
      ensures Follows(rows, a, db.assignments[a].previous.value)
    {
      assert Follows(db.assignments, a, db.assignments[a].previous.value);
    }
    forall r | r in db.requests && db.requests[r].status == PENDING ensures RequestSound(rows, db.requests[r]) {
      assert RequestSound(db.assignments, db.requests[r]);
    }
  }

  lemma DeleteEndsOne(db: Db, cur: map<Id, Holder>, client: Id, now: Instant)
    requires Linked(db, cur) && ConversationsMatch(db.assignments, db.conversations)
    ensures client in cur && cur[client].OnAssignment? ==>
              var a := cur[client].a;
              && OpenOfClient(db, client) == {a}
              && DeleteClient(db, client, now).assignments == Ended(db.assignments, a, now, ENDED_ACCOUNT_DELETED)
              && DeleteClient(db, client, now).conversations
                   == db.conversations[a := db.conversations[a].(active := false, closedAt := Some(now))]
              && DeleteClient(db, client, now).requests == db.requests
    ensures client in cur && cur[client].OnRequest? ==>
              var r := cur[client].r;
              && DeleteClient(db, client, now).assignments == db.assignments
              && DeleteClient(db, client, now).conversations == db.conversations
              && DeleteClient(db, client, now).requests
                   == db.requests[r := db.requests[r].(status := CANCELED, completedAt := Some(now))]
    ensures client !in cur ==>
              && DeleteClient(db, client, now).assignments == db.assignments
              && DeleteClient(db, client, now).conversations == db.conversations
              && DeleteClient(db, client, now).requests == db.requests
  {
    if client in cur && cur[client].OnAssignment? {
      assert OpenOfClient(db, client) == {cur[client].a};
    } else {
      assert OpenOfClient(db, client) == {};
    }
  }

  lemma DeleteKeepsCovers(clients: map<Id, AccountStatus>, blocks: map<Id, Block>, covered: set<Id>, client: Id)
    requires Covers(clients, blocks, covered) && client in clients
    ensures Covers(clients[client := DELETED], blocks, covered - {client})
  {
  }

  lemma DeleteKeepsLinks(db: Db, cur: map<Id, Holder>, client: Id, now: Instant) returns (after: map<Id, Holder>)
    requires Linked(db, cur) && ConversationsMatch(db.assignments, db.conversations)
    ensures Linked(DeleteClient(db, client, now), after) && after.Keys == cur.Keys - {client}
  {
    DeleteEndsOne(db, cur, client, now);
    after := cur - {client};
    if client in cur && cur[client].OnAssignment? {
      EndUnlinks(db.assignments, cur, cur[client].a, now, ENDED_ACCOUNT_DELETED, OnRequest(0));
    } else if client in cur {
      var r := cur[client].r;
      CancelUnlinks(db.assignments, db.requests, cur, r,
                    db.requests[r].(status := CANCELED, completedAt := Some(now)));
    } else {
      assert cur - {client} == cur;
    }
  }

  lemma DeleteKeepsHistory(db: Db, cur: map<Id, Holder>, client: Id, now: Instant)
    requires Linked(db, cur) && History(db) && db.clock <= now
    ensures History(DeleteClient(db, client, now))
  {
    DeleteEndsOne(db, cur, client, now);
    var d := DeleteClient(db, client, now);
    if client in cur && cur[client].OnAssignment? {
      EndKeepsHistory(db, cur[client].a, ENDED_ACCOUNT_DELETED, now);
      HistoryLater(EndAssignment(db, cur[client].a, ENDED_ACCOUNT_DELETED, now), d);
    } else if client in cur {
      var r := cur[client].r;
      CancelKeepsPending(db.assignments, db.requests, r,
                         db.requests[r].(status := CANCELED, completedAt := Some(now)));
      HistoryLater(db.(requests := d.requests), d);
    } else {
      HistoryLater(db, d);
    }
  }

  lemma DeleteKeeps(db: Db, cur: map<Id, Holder>, client: Id, now: Instant) returns (after: map<Id, Holder>)
    requires Inv(db, cur) && client in db.clients && db.clock <= now
    ensures Inv(DeleteClient(db, client, now), after)
  {
    DeleteKeepsCovers(db.clients, db.blocks, cur.Keys, client);
    DeleteKeepsHistory(db, cur, client, now);
    after := DeleteKeepsLinks(db, cur, client, now);
  }

  lemma CancelUnlinks(rows: Assignments, requests: Requests, cur: map<Id, Holder>, r: Id, q: Request)
    requires OpenLinked(rows, cur) && PendingLinked(requests, cur)
    requires r in requests && requests[r].status == PENDING && q.status != PENDING && q.client == requests[r].client
    ensures OpenLinked(rows, cur - {q.client}) && PendingLinked(requests[r := q], cur - {q.client})
  {
  }

  lemma CancelKeepsPending(rows: Assignments, requests: Requests, r: Id, q: Request)
    requires PendingSound(rows, requests) && q.status != PENDING
    ensures PendingSound(rows, requests[r := q])
  {
    var after := requests[r := q];
    forall x | x in after && after[x].status == PENDING ensures RequestSound(rows, after[x]) {
      assert x != r;
    }
  }

  lemma SubscriptionKeeps(db: Db, s: Id, row: Subscription)
    requires SubscriptionsSound(db.subscriptions) && s in db.subscriptions && db.subscriptions[s].status == SUBSCRIBED
    requires row.cashier == db.subscriptions[s].cashier && PeriodValid(row)
    ensures SubscriptionsSound(db.subscriptions[s := row])
  {
  }

  lemma ActivateKeeps(db: Db, cashier: Id, endsAt: Option<Instant>, now: Instant)
    requires SubscriptionsSound(db.subscriptions) && db.nextId !in db.subscriptions
    requires ActivationRefusal(db, cashier, endsAt, now) == None
    ensures SubscriptionsSound(AddSubscription(db, cashier, endsAt, now).subscriptions)
  {
    forall s | s in db.subscriptions && db.subscriptions[s].status == SUBSCRIBED
      ensures db.subscriptions[s].cashier != cashier
    {
      assert s !in ActiveSubscriptions(db, cashier);
    }
  }

  lemma StepKeeps(db: Db, cur: map<Id, Holder>, step: Step) returns (after: map<Id, Holder>)
    requires Inv(db, cur) && Enabled(db, step)
    ensures Inv(Apply(db, step), after)
  {
    after := cur;
    match step
    case Register(client, cashier, now) =>
      after := RegisterKeeps(db, cur, client, cashier, now);
    case Begin(a, reason, endReason, now, choice) =>
      after := BeginKeeps(db, cur, a, reason, endReason, now, choice);
    case Complete(r, now, choice) => after := CompleteKeeps(db, cur, r, now, choice);
    case Report(a, now, choice) => after := ReportKeeps(db, cur, a, now, choice);
    case BlockByCashier(a, now, choice) => after := BlockKeeps(db, cur, a, now, choice);
    case RemoveClient(client, now) =>
      after := DeleteKeeps(db, cur, client, now);
    case _ => AccountStepKeeps(db, cur, step);
  }

  predicate AccountStep(step: Step) {
    step.SetClientStatus? || step.SetCashier? || step.Activate? || step.Deactivate? || step.Cancel?
    || step.Expire? || step.Rotate?
  }

  /** Nothing about assignments changed, time went on, and the subscriptions are sound by themselves. */
  lemma HistoryLater(db: Db, d: Db)
    requires History(db) && d.assignments == db.assignments && d.conversations == db.conversations
    requires d.requests == db.requests && d.blocks == db.blocks && db.nextId <= d.nextId && db.clock <= d.clock
    requires SubscriptionsSound(d.subscriptions) && KeysBelow(d.subscriptions, d.nextId)
    ensures History(d)
  {
  }

  function NewSubscriptionRow(db: Db, step: Step): Subscription
    requires Enabled(db, step) && (step.Deactivate? || step.Cancel? || step.Expire? || step.Rotate?)
  {
    match step
    case Deactivate(s, now) => DeactivatedRow(db.subscriptions[s], now)
    case Cancel(s, now) => CancelledRow(db.subscriptions[s], now)
    case Expire(s, now) => db.subscriptions[s].(status := EXPIRED, updatedAt := now)
    case Rotate(s, now) => db.subscriptions[s].(updatedAt := now)
  }

  lemma AccountStepKeepsSubscriptions(db: Db, step: Step)
    requires SubscriptionsSound(db.subscriptions) && KeysBelow(db.subscriptions, db.nextId)
    requires Enabled(db, step) && AccountStep(step)
    ensures SubscriptionsSound(Apply(db, step).subscriptions)
    ensures KeysBelow(Apply(db, step).subscriptions, Apply(db, step).nextId)
  {
    match step
    case Activate(cashier, endsAt, now) => ActivateKeeps(db, cashier, endsAt, now);
    case SetClientStatus(_, _, _) =>
    case SetCashier(_, _, _) =>
    case Deactivate(s, _) => SubscriptionKeeps(db, s, NewSubscriptionRow(db, step));
    case Cancel(s, _) => SubscriptionKeeps(db, s, NewSubscriptionRow(db, step));
    case Expire(s, _) => SubscriptionKeeps(db, s, NewSubscriptionRow(db, step));
    case Rotate(s, _) => SubscriptionKeeps(db, s, NewSubscriptionRow(db, step));
  }

  lemma AccountStepKeepsCovers(db: Db, covered: set<Id>, step: Step)
    requires Covers(db.clients, db.blocks, covered) && Enabled(db, step) && AccountStep(step)
    ensures Covers(Apply(db, step).clients, Apply(db, step).blocks, covered)
  {
  }

  lemma AccountStepKeeps(db: Db, cur: map<Id, Holder>, step: Step)
    requires Inv(db, cur) && Enabled(db, step) && AccountStep(step)
    ensures Inv(Apply(db, step), cur)
  {
    AccountStepKeepsSubscriptions(db, step);
    AccountStepKeepsCovers(db, cur.Keys, step);
    AccountStepFrame(db, step);
    HistoryLater(db, Apply(db, step));
  }

  lemma AccountStepFrame(db: Db, step: Step)
    requires Enabled(db, step) && AccountStep(step)
    ensures var d := Apply(db, step);
            && d.assignments == db.assignments && d.conversations == db.conversations && d.requests == db.requests
            && d.blocks == db.blocks && db.nextId <= d.nextId && db.clock <= d.clock
  {
  }

  // ---------------------------------------------------------------- theorems over whole runs

  ghost predicate Run(states: seq<Db>, steps: seq<Step>) {
    && |states| == |steps| + 1
    && states[0] == START
    && forall i | 0 <= i < |steps| :: Enabled(states[i], steps[i]) && states[i + 1] == Apply(states[i], steps[i])
  }

  lemma {:induction false} RunKeeps(states: seq<Db>, steps: seq<Step>, i: nat) returns (cur: map<Id, Holder>)
    requires Run(states, steps) && i < |states|
    ensures Inv(states[i], cur)
  {
    if i == 0 {
      cur := map[];
    } else {
      var before := RunKeeps(states, steps, i - 1);
      cur := StepKeeps(states[i - 1], before, steps[i - 1]);
    }
  }

  /** A client that is not deleted has exactly one open assignment or pending request if and only if
      fewer than five distinct cashiers have blocked it; otherwise, and once deleted, it has neither. */
  lemma OneAssignmentOrOneRequest(states: seq<Db>, steps: seq<Step>, i: nat, client: Id)
    requires Run(states, steps) && i < |states| && client in states[i].clients
    ensures var db := states[i];
            |OpenOfClient(db, client)| + |PendingOfClient(db, client)|
            == if db.clients[client] != DELETED && |Blockers(db.blocks, client)| < 5 then 1 else 0
  {
    var db := states[i];
    var cur := RunKeeps(states, steps, i);
    if client in cur {
      match cur[client]
      case OnAssignment(a) =>
        assert OpenOfClient(db, client) == {a};
        assert PendingOfClient(db, client) == {};
      case OnRequest(r) =>
        assert OpenOfClient(db, client) == {};
        assert PendingOfClient(db, client) == {r};
    } else {
      assert OpenOfClient(db, client) == {};
      assert PendingOfClient(db, client) == {};
    }
  }

  /** The fifth distinct cashier to block a client leaves it suspended with neither, and reactivating
      the account does not bring it back. */
  lemma FifthBlockLeavesNeither(db: Db, cur: map<Id, Holder>, a: Id, now: Instant, choice: Option<Id>)
    requires Inv(db, cur) && Enabled(db, BlockByCashier(a, now, choice))
    requires |Blockers(db.blocks, db.assignments[a].client)| == 4
    ensures var client, d := db.assignments[a].client, BlockClient(db, a, now, choice);
            && d.clients[client] == SUSPENDED && Enabled(d, SetClientStatus(client, ACTIVE, now))
            && var back := Apply(d, SetClientStatus(client, ACTIVE, now));
               && OpenOfClient(d, client) == {} == PendingOfClient(d, client)
               && back.clients[client] == ACTIVE && OpenOfClient(back, client) == {} == PendingOfClient(back, client)
  {
    var x := db.assignments[a];
    BlockersGrow(db.blocks, db.nextId, Block(x.client, x.cashier, BY_CASHIER, now), x.client);
    assert x.cashier !in Blockers(db.blocks, x.client);
    var d := BlockClient(db, a, now, choice);
    var after := BlockKeeps(db, cur, a, now, choice);
    var back := Apply(d, SetClientStatus(x.client, ACTIVE, now));
    AccountStepKeeps(d, after, SetClientStatus(x.client, ACTIVE, now));
    assert x.client !in after;
  }

  lemma FifthBlockEnabled(db: Db, a: Id, now: Instant)
    requires OpenRow(db, a) && db.clock <= now && KeysBelow(db.blocks, db.nextId)
    requires var x := db.assignments[a];
             |Blockers(db.blocks, x.client)| == 4 && x.cashier !in Blockers(db.blocks, x.client)
    ensures Enabled(db, BlockByCashier(a, now, None))
  {
    var x := db.assignments[a];
    BlockersGrow(db.blocks, db.nextId, Block(x.client, x.cashier, BY_CASHIER, now), x.client);
  }

  // ---------------------------------------------------------------- a run in which five cashiers block one client

  const READY := Cashier(ACTIVE, false, true, true, true)

  /** Client 100 is invited by cashier 1; in round n cashier n + 1 becomes available and cashier n blocks. */
  function Rounds(n: nat): seq<Step> {
    if n == 0 then [SetCashier(1, READY, 0), Activate(1, None, 0), Register(100, 1, 0)]
    else Rounds(n - 1) + Round(n - 1)
  }

  function Round(n: nat): seq<Step> {
    [SetCashier(n + 2, READY, 0), Activate(n + 2, None, 0), BlockByCashier(4 * n + 1, 0, Some(n + 2))]
  }

  /** After n rounds the client is with cashier n + 1, and exactly the cashiers 1 to n have blocked it. */
  ghost predicate Stage(db: Db, n: nat) {
    && db.clock == 0 && db.nextId == 4 * n + 2 && db.clients == map[100 := ACTIVE]
    && OpenRow(db, 4 * n + 1) && db.assignments[4 * n + 1].client == 100 && db.assignments[4 * n + 1].cashier == n + 1
    && (forall c | c in db.cashiers :: 0 < c <= n + 1)
    && (forall s | s in db.subscriptions :: db.subscriptions[s].cashier <= n + 1)
    && BlockedInTurn(db.blocks, db.nextId, n)
  }

  ghost predicate BlockedInTurn(blocks: map<Id, Block>, nextId: Id, n: nat) {
    && KeysBelow(blocks, nextId) && |Blockers(blocks, 100)| == n
    && (forall c | c in Blockers(blocks, 100) :: c <= n)
    && (forall c: nat | 0 < c <= n :: c in Blockers(blocks, 100))
    && forall b | b in blocks :: blocks[b].cashier <= n
  }

  lemma BlockInTurn(blocks: map<Id, Block>, nextId: Id, n: nat)
    requires BlockedInTurn(blocks, nextId, n)
    ensures BlockedInTurn(blocks[nextId := Block(100, n + 1, BY_CASHIER, 0)], nextId + 1, n + 1)
  {
    BlockersGrow(blocks, nextId, Block(100, n + 1, BY_CASHIER, 0), 100);
    assert n + 1 !in Blockers(blocks, 100);
  }

  /** The new cashier is the only one left: the others have blocked the client or are the one it leaves. */
  lemma OnlyTheNewCashier(db: Db, top: Id, n: nat)
    requires BlockedInTurn(db.blocks, top, n + 1) && (forall c | c in db.cashiers :: 0 < c <= n + 2)
    requires n + 2 in db.cashiers && db.cashiers[n + 2] == READY && HasCurrentSubscription(db, n + 2, 0)
    ensures Candidates(db, 100, n + 1, 0) == {n + 2}
  {
    forall c | c in db.cashiers ensures Eligible(db, 100, n + 1, c, 0) <==> c == n + 2 {
      if c <= n + 1 { assert c in Blockers(db.blocks, 100); }
    }
  }

  /** Between two blocks: cashier n + 2 is ready to take the client over from cashier n + 1. */
  ghost predicate Staged(db: Db, n: nat) {
    && db.clock == 0 && db.nextId == 4 * n + 3 && db.clients == map[100 := ACTIVE]
    && OpenRow(db, 4 * n + 1) && db.assignments[4 * n + 1].client == 100 && db.assignments[4 * n + 1].cashier == n + 1
    && (forall c | c in db.cashiers :: 0 < c <= n + 2)
    && (forall s | s in db.subscriptions :: db.subscriptions[s].cashier <= n + 2)
    && BlockedInTurn(db.blocks, db.nextId, n)
    && n + 2 in db.cashiers && db.cashiers[n + 2] == READY && HasCurrentSubscription(db, n + 2, 0)
  }

  lemma CashierArrives(db: Db, n: nat)
    requires Stage(db, n)
    ensures Staged(AddSubscription(db.(cashiers := db.cashiers[n + 2 := READY]), n + 2, None, 0), n)
  {
    var d := AddSubscription(db.(cashiers := db.cashiers[n + 2 := READY]), n + 2, None, 0);
    assert InForce(d.subscriptions[db.nextId], 0);
    assert HasCurrentSubscription(d, n + 2, 0);
  }

  lemma ArrivalEnabled(db: Db, n: nat)
    requires Stage(db, n)
    ensures Enabled(db, SetCashier(n + 2, READY, 0))
    ensures var d1 := Apply(db, SetCashier(n + 2, READY, 0));
            && Enabled(d1, Activate(n + 2, None, 0))
            && Apply(d1, Activate(n + 2, None, 0))
               == AddSubscription(db.(cashiers := db.cashiers[n + 2 := READY]), n + 2, None, 0)
  {
    assert ActiveSubscriptions(Apply(db, SetCashier(n + 2, READY, 0)), n + 2) == {};
  }

  lemma MovesToTheNewCashier(db: Db, top: Id, n: nat)
    requires OpenRow(db, 4 * n + 1) && db.assignments[4 * n + 1].client == 100
    requires db.assignments[4 * n + 1].cashier == n + 1
    requires BlockedInTurn(db.blocks, top, n + 1) && (forall c | c in db.cashiers :: 0 < c <= n + 2)
    requires n + 2 in db.cashiers && db.cashiers[n + 2] == READY && HasCurrentSubscription(db, n + 2, 0)
    ensures BeginChoiceAllowed(db, 4 * n + 1, CASHIER_BLOCKED_CLIENT, ENDED_BY_BLOCK, 0, Some(n + 2))
  {
    var posted := OpenRequest(db, 4 * n + 1, CASHIER_BLOCKED_CLIENT, ENDED_BY_BLOCK, 0);
    assert HasCurrentSubscription(posted, n + 2, 0) by {
      var s :| s in db.subscriptions && db.subscriptions[s].cashier == n + 2 && InForce(db.subscriptions[s], 0);
      assert s in posted.subscriptions;
    }
    OnlyTheNewCashier(posted, top, n);
  }

  lemma NextBlockEnabled(db: Db, n: nat)
    requires Staged(db, n) && n < 4
    ensures Enabled(db, BlockByCashier(4 * n + 1, 0, Some(n + 2)))
    ensures var blocks := AddBlock(db, 100, n + 1, BY_CASHIER, 0).blocks;
            BlockedInTurn(blocks, db.nextId + 1, n + 1) && !UnderReview(blocks, 100)
  {
    BlockInTurn(db.blocks, db.nextId, n);
    assert n + 1 !in Blockers(db.blocks, 100);
    MovesToTheNewCashier(AddBlock(db, 100, n + 1, BY_CASHIER, 0), db.nextId + 1, n);
  }

  lemma NextBlock(db: Db, n: nat)
    requires Staged(db, n) && n < 4
    ensures Enabled(db, BlockByCashier(4 * n + 1, 0, Some(n + 2)))
    ensures Stage(Apply(db, BlockByCashier(4 * n + 1, 0, Some(n + 2))), n + 1)
  {
    NextBlockEnabled(db, n);
  }

  lemma RoundEnabled(db: Db, n: nat)
    requires Stage(db, n) && n < 4
    ensures Enabled(db, Round(n)[0])
    ensures var d1 := Apply(db, Round(n)[0]);
            && Enabled(d1, Round(n)[1])
            && var d2 := Apply(d1, Round(n)[1]);
               Enabled(d2, Round(n)[2]) && Stage(Apply(d2, Round(n)[2]), n + 1)
  {
    ArrivalEnabled(db, n);
    CashierArrives(db, n);
    NextBlock(AddSubscription(db.(cashiers := db.cashiers[n + 2 := READY]), n + 2, None, 0), n);
  }

  lemma Continue(states: seq<Db>, steps: seq<Step>, step: Step) returns (longer: seq<Db>)
    requires Run(states, steps) && Enabled(states[|steps|], step)
    ensures Run(longer, steps + [step]) && longer[|steps| + 1] == Apply(states[|steps|], step)
  {
    longer := states + [Apply(states[|steps|], step)];
    forall i | 0 <= i < |steps + [step]|
      ensures Enabled(longer[i], (steps + [step])[i]) && longer[i + 1] == Apply(longer[i], (steps + [step])[i])
    {
      if i < |steps| { assert longer[i] == states[i] && longer[i + 1] == states[i + 1]; }
    }
  }

  /** Some run of the scheduler ends here. */
  ghost predicate Reachable(db: Db) {
    exists states, steps :: Run(states, steps) && states[|steps|] == db
  }

  lemma StartIsReachable()
    ensures Reachable(START)
  {
    assert Run([START], []);
  }

  lemma NextIsReachable(db: Db, step: Step)
    requires Reachable(db) && Enabled(db, step)
    ensures Reachable(Apply(db, step))
  {
    var states, steps :| Run(states, steps) && states[|steps|] == db;
    var longer := Continue(states, steps, step);
    var more := steps + [step];
    assert |more| == |steps| + 1;
    assert Run(longer, more) && longer[|more|] == Apply(db, step);
  }

  lemma ThreeMore(states: seq<Db>, steps: seq<Step>, more: seq<Step>) returns (longer: seq<Db>)
    requires Run(states, steps) && |more| == 3 && Enabled(states[|steps|], more[0])
    requires var d1 := Apply(states[|steps|], more[0]);
             Enabled(d1, more[1]) && Enabled(Apply(d1, more[1]), more[2])
    ensures Run(longer, steps + more)
    ensures longer[|steps| + 3] == Apply(Apply(Apply(states[|steps|], more[0]), more[1]), more[2])
  {
    longer := Continue(states, steps, more[0]);
    longer := Continue(longer, steps + [more[0]], more[1]);
    longer := Continue(longer, steps + [more[0]] + [more[1]], more[2]);
    assert steps + [more[0]] + [more[1]] + [more[2]] == steps + more;
  }

  lemma Invitation() returns (states: seq<Db>)
    ensures Run(states, Rounds(0)) && |Rounds(0)| == 3 && Stage(states[3], 0)
  {
    assert Run([START], []);
    var d1 := Apply(START, SetCashier(1, READY, 0));
    assert ActiveSubscriptions(d1, 1) == {};
    states := ThreeMore([START], [], Rounds(0));
    assert [] + Rounds(0) == Rounds(0);
    assert Blockers(states[3].blocks, 100) == {};
  }

  lemma {:induction false} RoundsRun(n: nat) returns (states: seq<Db>)
    requires n <= 4
    ensures Run(states, Rounds(n)) && Stage(states[|Rounds(n)|], n)
  {
    if n == 0 {
      states := Invitation();
    } else {
      states := RoundsRun(n - 1);
      RoundEnabled(states[|Rounds(n - 1)|], n - 1);
      states := ThreeMore(states, Rounds(n - 1), Round(n - 1));
    }
  }

  lemma LastRound(db: Db, cur: map<Id, Holder>)
    requires Inv(db, cur) && Stage(db, 4)
    ensures Enabled(db, BlockByCashier(17, 0, None))
    ensures var d := Apply(db, BlockByCashier(17, 0, None));
            && Enabled(d, SetClientStatus(100, ACTIVE, 0))
            && var back := Apply(d, SetClientStatus(100, ACTIVE, 0));
               && 100 in back.clients && back.clients[100] == ACTIVE
               && OpenOfClient(back, 100) == {} == PendingOfClient(back, 100)
  {
    assert 5 !in Blockers(db.blocks, 100);
    FifthBlockEnabled(db, 17, 0);
    FifthBlockLeavesNeither(db, cur, 17, 0, None);
  }

  /** A run of the scheduler at whose end a client whose account is active stands nowhere: five cashiers
      have blocked it in turn, and an administrator has reactivated it. */
  lemma FifthBlockExample() returns (states: seq<Db>, steps: seq<Step>)
    ensures steps == Rounds(4) + [BlockByCashier(17, 0, None)] + [SetClientStatus(100, ACTIVE, 0)] && Run(states, steps)
    ensures var d := states[|steps|];
            && 100 in d.clients && d.clients[100] == ACTIVE
            && OpenOfClient(d, 100) == {} == PendingOfClient(d, 100)
  {
    var rounds := Rounds(4);
    states := RoundsRun(4);
    var cur := RunKeeps(states, rounds, |rounds|);
    LastRound(states[|rounds|], cur);
    states := Continue(states, rounds, BlockByCashier(17, 0, None));
    steps := rounds + [BlockByCashier(17, 0, None)];
    states := Continue(states, steps, SetClientStatus(100, ACTIVE, 0));
    steps := steps + [SetClientStatus(100, ACTIVE, 0)];
  }

  lemma ConversationActiveExactlyWhileOpen(states: seq<Db>, steps: seq<Step>, i: nat, a: Id)
    requires Run(states, steps) && i < |states|
    ensures a in states[i].assignments <==> a in states[i].conversations
    ensures a in states[i].assignments ==>
              (states[i].conversations[a].active <==> states[i].assignments[a].ended == None)
  {
    var cur := RunKeeps(states, steps, i);
  }

  /** Following `previous` from an assignment: the chain, newest first. */
  ghost function Chain(rows: Assignments, a: Id): seq<Id>
    requires AncestrySound(rows) && a in rows
    decreases a
  {
    match rows[a].previous
    case None => [a]
    case Some(p) =>
      assert Follows(rows, a, p);
      [a] + Chain(rows, p)
  }

  /** Consecutive assignments of one client, each ended before the next one, by another cashier. */
  ghost predicate ChainSound(rows: Assignments, chain: seq<Id>) {
    && |chain| > 0 && (forall k | 0 <= k < |chain| :: chain[k] in rows)
    && (forall k | 0 <= k < |chain| - 1 ::
          rows[chain[k]].previous == Some(chain[k + 1]) && Follows(rows, chain[k], chain[k + 1]))
    && rows[chain[|chain| - 1]].startReason == INVITATION
  }

  lemma {:induction false} ChainEndsAtInvitation(rows: Assignments, a: Id)
    requires AncestrySound(rows) && a in rows
    ensures ChainSound(rows, Chain(rows, a)) && Chain(rows, a)[0] == a
    decreases a
  {
    match rows[a].previous
    case None =>
    case Some(p) =>
      assert Follows(rows, a, p);
      ChainEndsAtInvitation(rows, p);
  }

  /** Lineage: chains are acyclic, end at an invitation, never fork, and never go back to a blocked pair. */
  lemma LineageHolds(states: seq<Db>, steps: seq<Step>, i: nat, a: Id)
    requires Run(states, steps) && i < |states| && a in states[i].assignments
    ensures AncestrySound(states[i].assignments) && SuccessorsUnique(states[i].assignments)
    ensures ChainSound(states[i].assignments, Chain(states[i].assignments, a))
    ensures forall b | b in states[i].blocks && states[i].assignments[a].previous.Some?
                       && states[i].blocks[b].client == states[i].assignments[a].client
                       && states[i].blocks[b].cashier == states[i].assignments[a].cashier :: a < b
  {
    var cur := RunKeeps(states, steps, i);
    ChainEndsAtInvitation(states[i].assignments, a);
  }

  // ---------------------------------------------------------------- eligibility

  /** The rows of the conversation-eligibility join, one per active subscription of the cashier. */
  function EligibilityRows(db: Db, a: Id, now: Instant): set<Id> {
    set s | s in db.subscriptions
      && a in db.assignments && a in db.conversations
      && db.conversations[a].active && db.assignments[a].ended == None
      && db.subscriptions[s].cashier == db.assignments[a].cashier
      && db.subscriptions[s].status == SUBSCRIBED
      && db.assignments[a].cashier in db.cashiers
      && db.cashiers[db.assignments[a].cashier].approved
      && db.cashiers[db.assignments[a].cashier].emailVerified
      && db.cashiers[db.assignments[a].cashier].phoneVerified
      && db.cashiers[db.assignments[a].cashier].status == ACTIVE
      && !db.cashiers[db.assignments[a].cashier].passwordResetRequired
      && ClientIsActive(db, db.assignments[a].client)
      && db.subscriptions[s].startsAt <= now
      && (db.subscriptions[s].endsAt == None || db.subscriptions[s].endsAt.value > now)
  }

  /** The error for more than one active eligibility cannot be reached. */
  lemma EligibilityIsUnique(states: seq<Db>, steps: seq<Step>, i: nat, a: Id, now: Instant)
    requires Run(states, steps) && i < |states|
    ensures |EligibilityRows(states[i], a, now)| <= 1
  {
    var cur := RunKeeps(states, steps, i);
    var rows := EligibilityRows(states[i], a, now);
    if rows != {} {
      var s :| s in rows;
      assert rows == {s};
    }
  }

  /** completePending puts a client where its messages pass, also inside the transaction that opened the request. */
  lemma PlacedIsEligible(db: Db, r: Id, now: Instant, cashier: Id)
    requires SubscriptionsSound(db.subscriptions) && r in db.requests && ClientIsActive(db, db.requests[r].client)
    requires ChoiceAllowed(db, db.requests[r].client, db.requests[r].excludedCashier, now, Some(cashier))
    ensures |EligibilityRows(CompletePending(db, r, now, Some(cashier)), db.nextId, now)| == 1
  {
    var d := CompletePending(db, r, now, Some(cashier));
    assert Eligible(db, db.requests[r].client, db.requests[r].excludedCashier, cashier, now);
    var s :| s in db.subscriptions && db.subscriptions[s].cashier == cashier && InForce(db.subscriptions[s], now);
    assert s in EligibilityRows(d, db.nextId, now);
    assert EligibilityRows(d, db.nextId, now) == {s};
  }

  lemma CompleteMakesEligible(db: Db, r: Id, now: Instant, choice: Option<Id>, a: Id)
    requires SubscriptionsSound(db.subscriptions) && r in db.requests
    requires ChoiceAllowed(db, db.requests[r].client, db.requests[r].excludedCashier, now, choice)
    requires a !in db.assignments && a in CompletePending(db, r, now, choice).assignments
    ensures a == db.nextId && |EligibilityRows(CompletePending(db, r, now, choice), a, now)| == 1
  {
    PlacedIsEligible(db, r, now, choice.value);
  }

  lemma BeginMakesEligible(db: Db, x: Id, reason: Reason, endReason: EndReason, now: Instant, choice: Option<Id>, a: Id)
    requires SubscriptionsSound(db.subscriptions) && x in db.assignments && x in db.conversations
    requires BeginChoiceAllowed(db, x, reason, endReason, now, choice)
    requires a !in db.assignments && a in BeginReassignment(db, x, reason, endReason, now, choice).assignments
    ensures |EligibilityRows(BeginReassignment(db, x, reason, endReason, now, choice), a, now)| == 1
  {
    CompleteMakesEligible(OpenRequest(db, x, reason, endReason, now), db.nextId, now, choice, a);
  }

  /** Account and subscription changes and deletions make no assignment. */
  lemma OthersAddNone(db: Db, step: Step)
    requires Enabled(db, step) && (AccountStep(step) || step.RemoveClient?)
    ensures Apply(db, step).assignments.Keys == db.assignments.Keys
  {
  }

  /** Every assignment that a run adds, apart from an invitation's, passes the eligibility query at the
      instant it is made: moves, retries, reports and blocks all hand a client to a cashier it can write to. */
  lemma NewAssignmentIsEligible(states: seq<Db>, steps: seq<Step>, i: nat, a: Id)
    requires Run(states, steps) && i < |steps| && !steps[i].Register?
    requires a !in states[i].assignments && a in states[i + 1].assignments
    ensures |EligibilityRows(states[i + 1], a, steps[i].now)| == 1
  {
    var db := states[i];
    var cur := RunKeeps(states, steps, i);
    if AccountStep(steps[i]) || steps[i].RemoveClient? { OthersAddNone(db, steps[i]); }
    match steps[i]
    case Begin(x, reason, endReason, now, choice) =>
      BeginMakesEligible(db, x, reason, endReason, now, choice, a);
    case Complete(r, now, choice) =>
      CompleteMakesEligible(db, r, now, choice, a);
    case Report(x, now, choice) =>
      BeginMakesEligible(AddBlock(db, db.assignments[x].client, db.assignments[x].cashier, BY_CLIENT, now), x,
                         CLIENT_REPORTED_CASHIER, ENDED_BY_REPORT, now, choice, a);
    case BlockByCashier(x, now, choice) =>
      BeginMakesEligible(AddBlock(db, db.assignments[x].client, db.assignments[x].cashier, BY_CASHIER, now), x,
                         CASHIER_BLOCKED_CLIENT, ENDED_BY_BLOCK, now, choice, a);
    case _ =>
  }
}
