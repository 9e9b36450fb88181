/** What every row-level operation keeps. Each predicate reads only the tables it is about. */
module AssignmentInvariants {
  import opened Wrappers
  import opened AssignmentTables

  type Assignments = map<Id, Assignment>
  type Requests = map<Id, Request>

  /** Where a client currently stands. */
  datatype Holder = OnAssignment(a: Id) | OnRequest(r: Id)

  /** Open assignments are exactly the ones `cur` names. */
  ghost predicate OpenLinked(rows: Assignments, cur: map<Id, Holder>) {
    && (forall a | a in rows && rows[a].ended == None ::
          rows[a].client in cur && cur[rows[a].client] == OnAssignment(a))
    && (forall c | c in cur && cur[c].OnAssignment? ::
          cur[c].a in rows && rows[cur[c].a].ended == None && rows[cur[c].a].client == c)
  }

  /** Pending requests are exactly the ones `cur` names. */
  ghost predicate PendingLinked(rows: Requests, cur: map<Id, Holder>) {
    && (forall r | r in rows && rows[r].status == PENDING ::
          rows[r].client in cur && cur[rows[r].client] == OnRequest(r))
    && (forall c | c in cur && cur[c].OnRequest? ::
          cur[c].r in rows && rows[cur[c].r].status == PENDING && rows[cur[c].r].client == c)
  }

  ghost predicate Linked(db: Db, cur: map<Id, Holder>) {
    OpenLinked(db.assignments, cur) && PendingLinked(db.requests, cur)
  }

  /** Exactly the clients that are neither deleted nor blocked by five cashiers stand somewhere. */
  ghost predicate Covers(clients: map<Id, AccountStatus>, blocks: map<Id, Block>, covered: set<Id>) {
    && covered <= clients.Keys
    && (forall b | b in blocks :: blocks[b].client in clients)
    && forall c | c in clients :: c in covered <==> clients[c] != DELETED && !UnderReview(blocks, c)
  }

  /** Each assignment has its conversation, active exactly while the assignment is open. */
  ghost predicate ConversationsMatch(rows: Assignments, conversations: map<Id, Conversation>) {
    && conversations.Keys == rows.Keys
    && forall a | a in rows ::
         && conversations[a].createdAt == rows[a].startedAt
         && match rows[a].ended
            case None => conversations[a].active && conversations[a].closedAt == None
            case Some(e) => !conversations[a].active && conversations[a].closedAt == Some(e.0)
  }

  ghost predicate AssignmentsDated(rows: Assignments, nextId: Id, clock: Instant) {
    forall a | a in rows ::
      && a < nextId && rows[a].startedAt <= clock
      && (rows[a].ended.Some? ==> rows[a].startedAt <= rows[a].ended.value.0 <= clock)
  }

  ghost predicate KeysBelow<V>(rows: map<Id, V>, nextId: Id) {
    forall k | k in rows :: k < nextId
  }

  ghost predicate RowsInThePast(db: Db) {
    && AssignmentsDated(db.assignments, db.nextId, db.clock)
    && KeysBelow(db.requests, db.nextId) && KeysBelow(db.subscriptions, db.nextId) && KeysBelow(db.blocks, db.nextId)
  }

  ghost predicate Follows(rows: Assignments, a: Id, p: Id)
    requires a in rows
  {
    && p < a && p in rows
    && rows[p].ended.Some? && rows[p].ended.value.0 <= rows[a].startedAt
    && rows[p].client == rows[a].client && rows[p].cashier != rows[a].cashier
  }

  /** A reassignment follows an ended assignment of the same client, with another cashier. */
  ghost predicate AncestrySound(rows: Assignments) {
    forall a | a in rows ::
      match rows[a].previous
      case None => rows[a].startReason == INVITATION
      case Some(p) => rows[a].startReason.FOLLOWING? && Follows(rows, a, p)
  }

  ghost predicate SuccessorsUnique(rows: Assignments) {
    forall a, b | a in rows && b in rows && rows[a].previous.Some? && rows[a].previous == rows[b].previous :: a == b
  }

  ghost predicate NoSuccessor(rows: Assignments, p: Id) {
    forall a | a in rows :: rows[a].previous != Some(p)
  }

  /** A pending request refers to an ended assignment of its client that nothing follows yet. */
  ghost predicate RequestSound(rows: Assignments, q: Request) {
    && q.previousAssignment in rows
    && rows[q.previousAssignment].ended.Some?
    && rows[q.previousAssignment].client == q.client
    && rows[q.previousAssignment].cashier == q.excludedCashier
    && NoSuccessor(rows, q.previousAssignment)
  }

  ghost predicate PendingSound(rows: Assignments, requests: Requests) {
    forall r | r in requests && requests[r].status == PENDING :: RequestSound(rows, requests[r])
  }

  /** Any block between the two parties of a reassignment was created after it. */
  ghost predicate BlocksComeLater(rows: Assignments, blocks: map<Id, Block>) {
    forall a, b | a in rows && b in blocks && rows[a].previous.Some?
                  && blocks[b].client == rows[a].client && blocks[b].cashier == rows[a].cashier :: a < b
  }

  ghost predicate PeriodValid(s: Subscription) {
    && (s.endsAt.Some? ==> s.startsAt < s.endsAt.value)
    && (s.status != SUBSCRIBED ==> s.endsAt.Some?)
  }

  /** No cashier has two active subscriptions, and every closed or bounded period has a length. */
  ghost predicate SubscriptionsSound(rows: map<Id, Subscription>) {
    && (forall s | s in rows :: PeriodValid(rows[s]))
    && (forall s, t | s in rows && t in rows && rows[s].status == SUBSCRIBED && rows[t].status == SUBSCRIBED
                      && rows[s].cashier == rows[t].cashier :: s == t)
  }

  ghost predicate History(db: Db) {
    && ConversationsMatch(db.assignments, db.conversations)
    && RowsInThePast(db)
    && AncestrySound(db.assignments)
    && SuccessorsUnique(db.assignments)
    && PendingSound(db.assignments, db.requests)
    && BlocksComeLater(db.assignments, db.blocks)
    && SubscriptionsSound(db.subscriptions)
  }

  // ---------------------------------------------------------------- ending an assignment

  function Ended(rows: Assignments, a: Id, now: Instant, reason: EndReason): Assignments
    requires a in rows
  {
    rows[a := rows[a].(ended := Some((now, reason)))]
  }

  lemma OpenHasNoSuccessor(rows: Assignments, a: Id)
    requires AncestrySound(rows) && a in rows && rows[a].ended == None
    ensures NoSuccessor(rows, a)
  {
  }

  lemma EndKeepsAncestry(rows: Assignments, a: Id, now: Instant, reason: EndReason)
    requires AncestrySound(rows) && SuccessorsUnique(rows) && a in rows && rows[a].ended == None
    ensures AncestrySound(Ended(rows, a, now, reason)) && SuccessorsUnique(Ended(rows, a, now, reason))
  {
    var after := Ended(rows, a, now, reason);
    forall x | x in after && after[x].previous.Some? ensures Follows(after, x, after[x].previous.value) {
      assert Follows(rows, x, rows[x].previous.value);
    }
  }

  lemma EndKeepsPending(rows: Assignments, requests: Requests, a: Id, now: Instant, reason: EndReason)
    requires PendingSound(rows, requests) && a in rows && rows[a].ended == None
    ensures PendingSound(Ended(rows, a, now, reason), requests)
  {
    var after := Ended(rows, a, now, reason);
    forall r | r in requests && requests[r].status == PENDING ensures RequestSound(after, requests[r]) {
      assert RequestSound(rows, requests[r]);
      assert forall x | x in after :: after[x].previous == rows[x].previous;
    }
  }

  lemma EndKeepsHistory(db: Db, a: Id, endReason: EndReason, now: Instant)
    requires History(db) && IsOpen(db, a) && db.clock <= now
    ensures History(EndAssignment(db, a, endReason, now))
    ensures NoSuccessor(EndAssignment(db, a, endReason, now).assignments, a)
  {
    EndKeepsAncestry(db.assignments, a, now, endReason);
    EndKeepsPending(db.assignments, db.requests, a, now, endReason);
    OpenHasNoSuccessor(db.assignments, a);
    assert BlocksComeLater(Ended(db.assignments, a, now, endReason), db.blocks);
  }

  // ---------------------------------------------------------------- opening a request

  lemma AddRequestKeepsPending(rows: Assignments, requests: Requests, r: Id, q: Request)
    requires PendingSound(rows, requests) && RequestSound(rows, q)
    ensures PendingSound(rows, requests[r := q])
  {
    var after := requests[r := q];
    forall x | x in after && after[x].status == PENDING ensures RequestSound(rows, after[x]) {
      if x != r { assert RequestSound(rows, requests[x]); }
    }
  }

  lemma OpenRequestKeepsHistory(db: Db, a: Id, reason: Reason, endReason: EndReason, now: Instant)
    requires History(db) && IsOpen(db, a) && db.clock <= now
    ensures History(OpenRequest(db, a, reason, endReason, now))
    ensures IsPending(OpenRequest(db, a, reason, endReason, now), db.nextId)
  {
    EndKeepsHistory(db, a, endReason, now);
    var ended := EndAssignment(db, a, endReason, now);
    AddRequestKeepsPending(ended.assignments, ended.requests, db.nextId, NewRequest(db, a, reason, now));
  }

  lemma OpenRequestKeepsLinks(db: Db, cur: map<Id, Holder>, a: Id, reason: Reason, endReason: EndReason, now: Instant)
    requires Linked(db, cur) && IsOpen(db, a) && a in db.conversations && KeysBelow(db.requests, db.nextId)
    ensures Linked(OpenRequest(db, a, reason, endReason, now), cur[db.assignments[a].client := OnRequest(db.nextId)])
  {
    var after := cur[db.assignments[a].client := OnRequest(db.nextId)];
    EndUnlinks(db.assignments, cur, a, now, endReason, OnRequest(db.nextId));
    RequestLinks(db.requests, cur, db.nextId, NewRequest(db, a, reason, now));
  }

  lemma EndUnlinks(rows: Assignments, cur: map<Id, Holder>, a: Id, now: Instant, reason: EndReason, h: Holder)
    requires OpenLinked(rows, cur) && a in rows && rows[a].ended == None && h.OnRequest?
    ensures OpenLinked(Ended(rows, a, now, reason), cur[rows[a].client := h])
    ensures OpenLinked(Ended(rows, a, now, reason), cur - {rows[a].client})
  {
  }

  lemma RequestLinks(rows: Requests, cur: map<Id, Holder>, r: Id, q: Request)
    requires PendingLinked(rows, cur) && r !in rows && q.status == PENDING
    requires q.client in cur && cur[q.client].OnAssignment?
    ensures PendingLinked(rows[r := q], cur[q.client := OnRequest(r)])
  {
  }

  // ---------------------------------------------------------------- completing a request

  function Completed(db: Db, cur: map<Id, Holder>, r: Id, choice: Option<Id>): (after: map<Id, Holder>)
    requires r in db.requests
    ensures db.requests[r].client in cur ==> after.Keys == cur.Keys
  {
    var client := db.requests[r].client;
    if ClientIsActive(db, client) && choice.Some? then cur[client := OnAssignment(db.nextId)] else cur
  }

  lemma AssignmentLinks(rows: Assignments, cur: map<Id, Holder>, a: Id, x: Assignment)
    requires OpenLinked(rows, cur) && a !in rows && x.ended == None
    requires x.client in cur ==> cur[x.client].OnRequest?
    ensures OpenLinked(rows[a := x], cur[x.client := OnAssignment(a)])
  {
  }

  lemma RequestUnlinks(rows: Requests, cur: map<Id, Holder>, r: Id, q: Request, h: Holder)
    requires PendingLinked(rows, cur) && r in rows && rows[r].status == PENDING
    requires q.status != PENDING && h.OnAssignment?
    ensures PendingLinked(rows[r := q], cur[rows[r].client := h])
  {
  }

  lemma CompleteKeepsLinks(db: Db, cur: map<Id, Holder>, r: Id, now: Instant, choice: Option<Id>)
    requires Linked(db, cur) && IsPending(db, r) && RowsInThePast(db)
    ensures Linked(CompletePending(db, r, now, choice), Completed(db, cur, r, choice))
  {
    var q := db.requests[r];
    if ClientIsActive(db, q.client) {
      match choice
      case None =>
      case Some(cashier) =>
        var d := CompletePending(db, r, now, choice);
        AssignmentLinks(db.assignments, cur, db.nextId, d.assignments[db.nextId]);
        RequestUnlinks(db.requests, cur, r, d.requests[r], OnAssignment(db.nextId));
    }
  }

  lemma PlaceKeepsAncestry(rows: Assignments, n: Id, q: Request, cashier: Id, now: Instant, clock: Instant)
    requires AncestrySound(rows) && SuccessorsUnique(rows) && RequestSound(rows, q)
    requires AssignmentsDated(rows, n, clock) && clock <= now && cashier != q.excludedCashier
    ensures var x := Assignment(q.client, cashier, Some(q.previousAssignment), FOLLOWING(q.reason), now, None);
            AncestrySound(rows[n := x]) && SuccessorsUnique(rows[n := x])
  {
    var x := Assignment(q.client, cashier, Some(q.previousAssignment), FOLLOWING(q.reason), now, None);
    var after := rows[n := x];
    assert Follows(after, n, q.previousAssignment);
    forall a | a in rows && rows[a].previous.Some? ensures Follows(after, a, rows[a].previous.value) {
      assert Follows(rows, a, rows[a].previous.value);
    }
  }

  lemma PlaceKeepsPending(db: Db, cur: map<Id, Holder>, r: Id, x: Assignment, q: Request)
    requires PendingSound(db.assignments, db.requests) && IsPending(db, r) && PendingLinked(db.requests, cur)
    requires db.nextId !in db.assignments && x.previous == Some(db.requests[r].previousAssignment)
    requires q.status != PENDING
    ensures PendingSound(db.assignments[db.nextId := x], db.requests[r := q])
  {
    var rows, requests := db.assignments[db.nextId := x], db.requests[r := q];
    forall p | p in requests && requests[p].status == PENDING ensures RequestSound(rows, requests[p]) {
      assert RequestSound(db.assignments, db.requests[p]) && RequestSound(db.assignments, db.requests[r]);
      assert db.requests[p].client != db.requests[r].client;
    }
  }

  lemma PlaceKeepsBlocks(db: Db, client: Id, cashier: Id, x: Assignment)
    requires BlocksComeLater(db.assignments, db.blocks) && db.nextId !in db.assignments
    requires x.client == client && x.cashier == cashier && !Blocked(db, client, cashier)
    ensures BlocksComeLater(db.assignments[db.nextId := x], db.blocks)
  {
  }

  lemma CompleteKeepsHistory(db: Db, cur: map<Id, Holder>, r: Id, now: Instant, choice: Option<Id>)
    requires History(db) && IsPending(db, r) && db.clock <= now && PendingLinked(db.requests, cur)
    requires ChoiceAllowed(db, db.requests[r].client, db.requests[r].excludedCashier, now, choice)
    ensures History(CompletePending(db, r, now, choice))
  {
    var q := db.requests[r];
    var d := CompletePending(db, r, now, choice);
    assert RequestSound(db.assignments, q);
    if ClientIsActive(db, q.client) {
      match choice
      case None => AddRequestKeepsPending(db.assignments, db.requests, r, d.requests[r]);
      case Some(cashier) =>
        assert Eligible(db, q.client, q.excludedCashier, cashier, now);
        PlaceKeepsAncestry(db.assignments, db.nextId, q, cashier, now, db.clock);
        PlaceKeepsPending(db, cur, r, d.assignments[db.nextId], d.requests[r]);
        PlaceKeepsBlocks(db, q.client, cashier, d.assignments[db.nextId]);
    }
  }
}
