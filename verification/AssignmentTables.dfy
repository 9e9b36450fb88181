/**
 The rows that the assignment service reads and writes, and each of its row-level operations.
 A transaction reads one database clock, so an operation takes the instant it runs at.
 Sources: apps/api/src/assignments/assignments.service.ts, apps/api/src/moderation/moderation.service.ts,
 apps/api/src/admin/admin-users.service.ts, apps/api/src/assignments/conversation-eligibility.service.ts.
*/
module AssignmentTables {
  import opened Wrappers

  type Id = nat // a UUID: only equality, freshness and the tie-break order matter
  type Instant = int

  datatype AccountStatus = PENDING_APPROVAL | ACTIVE | SUSPENDED | DELETED

  datatype Cashier = Cashier(
    status: AccountStatus,
    passwordResetRequired: bool,
    approved: bool,
    emailVerified: bool,
    phoneVerified: bool)

  datatype SubscriptionStatus = SUBSCRIBED | INACTIVE | EXPIRED | CANCELLED

  datatype Subscription = Subscription(
    cashier: Id,
    status: SubscriptionStatus,
    startsAt: Instant,
    endsAt: Option<Instant>,
    updatedAt: Instant)

  datatype Reason =
    | CLIENT_BLOCKED_CASHIER
    | CLIENT_REPORTED_CASHIER
    | CASHIER_BLOCKED_CLIENT
    | CASHIER_UNAVAILABLE
    | ADMINISTRATIVE

  datatype StartReason = INVITATION | FOLLOWING(reason: Reason)

  datatype EndReason =
    | ENDED_BY_REPORT
    | ENDED_BY_BLOCK
    | ENDED_CASHIER_UNAVAILABLE
    | ENDED_CASHIER_SUSPENDED
    | ENDED_ACCOUNT_DELETED
    | ENDED_ADMINISTRATIVE

  datatype Assignment = Assignment(
    client: Id,
    cashier: Id,
    previous: Option<Id>,
    startReason: StartReason,
    startedAt: Instant,
    ended: Option<(Instant, EndReason)>)

  datatype Conversation = Conversation(active: bool, createdAt: Instant, closedAt: Option<Instant>)

  datatype RequestStatus = PENDING | COMPLETED(resulting: Id) | CANCELED

  datatype Request = Request(
    client: Id,
    previousAssignment: Id,
    excludedCashier: Id,
    reason: Reason,
    status: RequestStatus,
    attemptCount: nat,
    requestedAt: Instant,
    lastAttemptAt: Option<Instant>,
    completedAt: Option<Instant>)

  datatype Initiator = BY_CLIENT | BY_CASHIER

  datatype Block = Block(client: Id, cashier: Id, initiatedBy: Initiator, createdAt: Instant)

  /** `conversations` is keyed by its unique assignment id; new rows take the next id. */
  datatype Db = Db(
    clients: map<Id, AccountStatus>,
    cashiers: map<Id, Cashier>,
    subscriptions: map<Id, Subscription>,
    assignments: map<Id, Assignment>,
    conversations: map<Id, Conversation>,
    requests: map<Id, Request>,
    blocks: map<Id, Block>,
    nextId: Id,
    clock: Instant)

  // ---------------------------------------------------------------- queries

  predicate IsOpen(db: Db, a: Id) { a in db.assignments && db.assignments[a].ended == None }

  predicate IsPending(db: Db, r: Id) { r in db.requests && db.requests[r].status == PENDING }

  function OpenOfCashier(db: Db, cashier: Id): set<Id> {
    set a | a in db.assignments && IsOpen(db, a) && db.assignments[a].cashier == cashier
  }

  function OpenOfClient(db: Db, client: Id): set<Id> {
    set a | a in db.assignments && IsOpen(db, a) && db.assignments[a].client == client
  }

  function PendingOfClient(db: Db, client: Id): set<Id> {
    set r | r in db.requests && IsPending(db, r) && db.requests[r].client == client
  }

  function Load(db: Db, cashier: Id): nat { |OpenOfCashier(db, cashier)| }

  predicate InForce(s: Subscription, now: Instant) {
    s.status == SUBSCRIBED && s.startsAt <= now && (s.endsAt == None || s.endsAt.value > now)
  }

  predicate HasCurrentSubscription(db: Db, cashier: Id, now: Instant) {
    exists s | s in db.subscriptions :: db.subscriptions[s].cashier == cashier && InForce(db.subscriptions[s], now)
  }

  predicate Blocked(db: Db, client: Id, cashier: Id) {
    exists b | b in db.blocks :: db.blocks[b].client == client && db.blocks[b].cashier == cashier
  }

  predicate Available(db: Db, cashier: Id, now: Instant) {
    && cashier in db.cashiers
    && db.cashiers[cashier].approved && db.cashiers[cashier].emailVerified && db.cashiers[cashier].phoneVerified
    && db.cashiers[cashier].status == ACTIVE && !db.cashiers[cashier].passwordResetRequired
    && HasCurrentSubscription(db, cashier, now)
  }

  /** The `where` of findEligibleCandidates. */
  predicate Eligible(db: Db, client: Id, excluded: Id, cashier: Id, now: Instant) {
    cashier != excluded && Available(db, cashier, now) && !Blocked(db, client, cashier)
  }

  function Candidates(db: Db, client: Id, excluded: Id, now: Instant): set<Id> {
    set c | c in db.cashiers && Eligible(db, client, excluded, c, now)
  }

  predicate ClientIsActive(db: Db, client: Id) { client in db.clients && db.clients[client] == ACTIVE }

  /** What the least-loaded choice may answer for a request: nobody, or any least-loaded candidate. */
  predicate ChoiceAllowed(db: Db, client: Id, excluded: Id, now: Instant, choice: Option<Id>) {
    ClientIsActive(db, client) ==>
      match choice
      case None => Candidates(db, client, excluded, now) == {}
      case Some(c) =>
        && c in Candidates(db, client, excluded, now)
        && forall d | d in Candidates(db, client, excluded, now) :: Load(db, c) <= Load(db, d)
  }

  /** The cashiers that have blocked the client. */
  function Blockers(blocks: map<Id, Block>, client: Id): set<Id> {
    set b | b in blocks && blocks[b].client == client && blocks[b].initiatedBy == BY_CASHIER :: blocks[b].cashier
  }

  const CASHIER_BLOCK_REVIEW_THRESHOLD := 5

  predicate UnderReview(blocks: map<Id, Block>, client: Id) { |Blockers(blocks, client)| >= CASHIER_BLOCK_REVIEW_THRESHOLD }

  // ---------------------------------------------------------------- row changes

  function EndAssignment(db: Db, a: Id, reason: EndReason, now: Instant): Db
    requires a in db.assignments && a in db.conversations
  {
    db.(assignments := db.assignments[a := db.assignments[a].(ended := Some((now, reason)))],
        conversations := db.conversations[a := db.conversations[a].(active := false, closedAt := Some(now))],
        clock := now)
  }

  function AddAssignment(db: Db, row: Assignment): Db {
    db.(assignments := db.assignments[db.nextId := row],
        conversations := db.conversations[db.nextId := Conversation(true, row.startedAt, None)],
        nextId := db.nextId + 1,
        clock := row.startedAt)
  }

  function AddRequest(db: Db, row: Request): Db {
    db.(requests := db.requests[db.nextId := row], nextId := db.nextId + 1)
  }

  function SetRequest(db: Db, r: Id, row: Request): Db {
    db.(requests := db.requests[r := row])
  }

  function NewRequest(db: Db, a: Id, reason: Reason, now: Instant): Request
    requires a in db.assignments
  {
    Request(db.assignments[a].client, a, db.assignments[a].cashier, reason, PENDING, 0, now, None, None)
  }

  /** completePending, once the least-loaded choice has been made. */
  function CompletePending(db: Db, r: Id, now: Instant, choice: Option<Id>): Db
    requires r in db.requests
  {
    var request := db.requests[r];
    if !ClientIsActive(db, request.client) then db.(clock := now)
    else match choice
      case None =>
        SetRequest(db, r, request.(lastAttemptAt := Some(now), attemptCount := request.attemptCount + 1)).(clock := now)
      case Some(cashier) =>
        var row := Assignment(request.client, cashier, Some(request.previousAssignment),
                              FOLLOWING(request.reason), now, None);
        SetRequest(AddAssignment(db, row), r,
                   request.(status := COMPLETED(db.nextId), lastAttemptAt := Some(now),
                            attemptCount := request.attemptCount + 1, completedAt := Some(now)))
  }

  /** The state in which beginReassignment reaches completePending; the new request is `db.nextId`. */
  function OpenRequest(db: Db, a: Id, reason: Reason, endReason: EndReason, now: Instant): Db
    requires a in db.assignments && a in db.conversations
  {
    AddRequest(EndAssignment(db, a, endReason, now), NewRequest(db, a, reason, now))
  }

  function BeginReassignment(db: Db, a: Id, reason: Reason, endReason: EndReason, now: Instant, choice: Option<Id>): Db
    requires a in db.assignments && a in db.conversations
  {
    CompletePending(OpenRequest(db, a, reason, endReason, now), db.nextId, now, choice)
  }

  /** The choice that beginReassignment may make for the assignment it ends. */
  predicate BeginChoiceAllowed(db: Db, a: Id, reason: Reason, endReason: EndReason, now: Instant, choice: Option<Id>)
    requires a in db.assignments && a in db.conversations
  {
    ChoiceAllowed(OpenRequest(db, a, reason, endReason, now),
                  db.assignments[a].client, db.assignments[a].cashier, now, choice)
  }

  /** registerClient's last statements: the account and its invitation assignment. */
  function RegisterClient(db: Db, client: Id, cashier: Id, now: Instant): Db {
    AddAssignment(db.(clients := db.clients[client := ACTIVE]),
                  Assignment(client, cashier, None, INVITATION, now, None))
  }

  function AddBlock(db: Db, client: Id, cashier: Id, initiatedBy: Initiator, now: Instant): Db {
    db.(blocks := db.blocks[db.nextId := Block(client, cashier, initiatedBy, now)], nextId := db.nextId + 1, clock := now)
  }

  /** blocks_pair_initiator_key */
  predicate BlockExists(db: Db, client: Id, cashier: Id, initiatedBy: Initiator) {
    exists b | b in db.blocks ::
      db.blocks[b].client == client && db.blocks[b].cashier == cashier && db.blocks[b].initiatedBy == initiatedBy
  }

  /** A client's report: block its own cashier, then move to another. */
  function ReportCashier(db: Db, a: Id, now: Instant, choice: Option<Id>): Db
    requires a in db.assignments && a in db.conversations
  {
    var row := db.assignments[a];
    BeginReassignment(AddBlock(db, row.client, row.cashier, BY_CLIENT, now), a,
                      CLIENT_REPORTED_CASHIER, ENDED_BY_REPORT, now, choice)
  }

  /** A cashier's block: at the fifth distinct cashier the client is suspended and nothing is requested. */
  function BlockClient(db: Db, a: Id, now: Instant, choice: Option<Id>): Db
    requires a in db.assignments && a in db.conversations
  {
    var row := db.assignments[a];
    var blocked := AddBlock(db, row.client, row.cashier, BY_CASHIER, now);
    if UnderReview(blocked.blocks, row.client)
    then EndAssignment(blocked, a, ENDED_BY_BLOCK, now).(clients := db.clients[row.client := SUSPENDED])
    else BeginReassignment(blocked, a, CASHIER_BLOCKED_CLIENT, ENDED_BY_BLOCK, now, choice)
  }

  function CloseConversations(rows: map<Id, Conversation>, ids: set<Id>, now: Instant): map<Id, Conversation> {
    map a | a in rows :: if a in ids && rows[a].active then rows[a].(active := false, closedAt := Some(now)) else rows[a]
  }

  function EndForDeletion(rows: map<Id, Assignment>, ids: set<Id>, now: Instant): map<Id, Assignment> {
    map a | a in rows :: if a in ids then rows[a].(ended := Some((now, ENDED_ACCOUNT_DELETED))) else rows[a]
  }

  function CancelRequests(rows: map<Id, Request>, ids: set<Id>, now: Instant): map<Id, Request> {
    map r | r in rows :: if r in ids then rows[r].(status := CANCELED, completedAt := Some(now)) else rows[r]
  }

  /** endClientRelationshipsForDeletionInTransaction, then the account itself. */
  function DeleteClient(db: Db, client: Id, now: Instant): Db {
    db.(conversations := CloseConversations(db.conversations, OpenOfClient(db, client), now),
        assignments := EndForDeletion(db.assignments, OpenOfClient(db, client), now),
        requests := CancelRequests(db.requests, PendingOfClient(db, client), now),
        clients := db.clients[client := DELETED],
        clock := now)
  }

  // ---------------------------------------------------------------- subscriptions

  /** A period may not end at or before its start: then it ends one millisecond later. */
  function ValidEnd(startsAt: Instant, proposed: Instant): (end: Instant)
    ensures startsAt < end && proposed <= end
  {
    if proposed > startsAt then proposed else startsAt + 1
  }

  function SetSubscription(db: Db, s: Id, row: Subscription): Db {
    db.(subscriptions := db.subscriptions[s := row])
  }

  function ActiveSubscriptions(db: Db, cashier: Id): set<Id> {
    set s | s in db.subscriptions && db.subscriptions[s].cashier == cashier && db.subscriptions[s].status == SUBSCRIBED
  }

  datatype ActivationError = ENDS_IN_THE_PAST | ALREADY_ACTIVE | AWAITING_RECONCILIATION | ALREADY_SCHEDULED

  function ActivationRefusal(db: Db, cashier: Id, endsAt: Option<Instant>, now: Instant): Option<ActivationError> {
    var active := ActiveSubscriptions(db, cashier);
    if endsAt.Some? && endsAt.value <= now then Some(ENDS_IN_THE_PAST)
    else if exists s | s in active :: InForce(db.subscriptions[s], now) then Some(ALREADY_ACTIVE)
    else if exists s | s in active :: db.subscriptions[s].endsAt.Some? && db.subscriptions[s].endsAt.value <= now
    then Some(AWAITING_RECONCILIATION)
    else if active != {} then Some(ALREADY_SCHEDULED)
    else None
  }

  /** The new period starts now, in a row of its own. */
  function AddSubscription(db: Db, cashier: Id, endsAt: Option<Instant>, now: Instant): Db {
    db.(subscriptions := db.subscriptions[db.nextId := Subscription(cashier, SUBSCRIBED, now, endsAt, now)],
        nextId := db.nextId + 1, clock := now)
  }

  /** deactivateSubscription keeps an end that has already passed. */
  function DeactivatedRow(s: Subscription, now: Instant): Subscription {
    var proposed := if s.endsAt.Some? && s.endsAt.value <= now then s.endsAt.value else now;
    s.(status := INACTIVE, endsAt := Some(ValidEnd(s.startsAt, proposed)), updatedAt := now)
  }

  function CancelledRow(s: Subscription, now: Instant): Subscription {
    s.(status := CANCELLED, endsAt := Some(ValidEnd(s.startsAt, now)), updatedAt := now)
  }

  function Lapsed(s: Subscription, now: Instant): bool {
    s.status == SUBSCRIBED && s.endsAt.Some? && s.endsAt.value <= now
  }
}
