/**
 Administrative changes to accounts and subscriptions, each one transaction over the assignment tables.
 Source: apps/api/src/admin/admin-users.service.ts.
*/
module AdminUsers {
  import opened Wrappers
  import opened AssignmentTables
  import opened AssignmentInvariants
  import opened AssignmentRuns
  import opened AssignmentBatches
  import opened ExpiryDrain
  import opened AssignmentsServices
  import CashierSelection

  const RETRY_LIMIT := 100

  datatype AdminError =
    | USER_MISSING | ALREADY_SUSPENDED | ALREADY_DELETED | NOT_SUSPENDED
    | NO_ACTIVE_SUBSCRIPTION | REFUSED(why: ActivationError) | FAILED(error: CashierSelection.RangeError)

  // ---------------------------------------------------------------- what a subscription row means

  datatype EffectiveStatus = IN_FORCE | SCHEDULED | EXPIRED_PENDING | STORED(status: SubscriptionStatus)

  function EffectiveSubscriptionStatus(s: Subscription, now: Instant): EffectiveStatus {
    if s.status == SUBSCRIBED then
      if s.startsAt > now then SCHEDULED
      else if s.endsAt.Some? && s.endsAt.value <= now then EXPIRED_PENDING
      else IN_FORCE
    else STORED(s.status)
  }

  /** What the administrator is shown agrees with what the scheduler and the expiry worker act on. */
  lemma EffectiveStatusAgrees(states: seq<Db>, steps: seq<Step>, i: nat, s: Id, now: Instant)
    requires Run(states, steps) && i < |states| && s in states[i].subscriptions
    ensures var row := states[i].subscriptions[s];
            && (EffectiveSubscriptionStatus(row, now) == IN_FORCE <==> InForce(row, now))
            && (EffectiveSubscriptionStatus(row, now) == EXPIRED_PENDING <==> Lapsed(row, now))
            && (EffectiveSubscriptionStatus(row, now) == SCHEDULED <==> row.status == SUBSCRIBED && now < row.startsAt)
            && (EffectiveSubscriptionStatus(row, now).STORED? <==> row.status != SUBSCRIBED)
            && (EffectiveSubscriptionStatus(row, now).STORED? ==> EffectiveSubscriptionStatus(row, now).status == row.status)
  {
    var cur := RunKeeps(states, steps, i);
    assert PeriodValid(states[i].subscriptions[s]);
  }

  // ---------------------------------------------------------------- emptying a cashier

  /** Every open client of the cashier was moved or left waiting, oldest first; none stays. */
  ghost predicate Emptied(before: Db, after: Db, cashier: Id, endReason: EndReason, now: Instant) {
    exists rows, choices ::
      && FirstOpen(before, cashier, Load(before, cashier), rows)
      && BatchAllowed(before, rows, Batch(CASHIER_UNAVAILABLE, endReason, now), choices)
      && after == RunBatch(before, rows, Batch(CASHIER_UNAVAILABLE, endReason, now), choices)
      && Load(after, cashier) == 0
  }

  /** At most a hundred pending requests of active clients were tried again, oldest first. */
  ghost predicate RetriedPending(before: Db, after: Db, now: Instant) {
    exists rows, choices ::
      && FirstBy(RetryableRequests(before), 100, rows)
      && RetriesAllowed(before, rows, now, choices) && after == RunRetries(before, rows, now, choices)
  }

  method EmptyIn(tx: Db, ghost cur: map<Id, Holder>, cashier: Id, endReason: EndReason, now: Instant)
    returns (r: Result<Db, AdminError>, ghost after: map<Id, Holder>)
    requires Inv(tx, cur) && |tx.cashiers| < 0x1_0000_0000 && tx.clock <= now
    ensures r.Ok? ==> Emptied(tx, r.value, cashier, endReason, now) && Inv(r.value, after)
    ensures r.Ok? ==> r.value.cashiers == tx.cashiers && r.value.subscriptions == tx.subscriptions && r.value.clock <= now
    ensures r.Err? ==> r.error.FAILED? && |tx.assignments| + Load(tx, cashier) > CashierSelection.MAX_SAFE_INTEGER
  {
    after := cur;
    var moved := ReassignCashierClientsIn(tx, cashier, endReason, now);
    if moved.Err? { return Err(FAILED(moved.error)), after; }
    var (d, rows, choices) := moved.value;
    var b := Batch(CASHIER_UNAVAILABLE, endReason, now);
    after := BatchKeeps(tx, cur, rows, b, choices);
    BatchFrame(tx, rows, b, choices);
    BatchKeepsCashiers(tx, rows, b, choices);
    return Ok(d), after;
  }

  method RetryIn(tx: Db, ghost cur: map<Id, Holder>, now: Instant)
    returns (r: Result<Db, AdminError>, ghost after: map<Id, Holder>)
    requires Inv(tx, cur) && |tx.cashiers| < 0x1_0000_0000 && tx.clock <= now
    ensures r.Ok? ==> RetriedPending(tx, r.value, now) && Inv(r.value, after) && r.value.cashiers == tx.cashiers
    ensures r.Err? ==> r.error.FAILED? && |tx.assignments| + RETRY_LIMIT > CashierSelection.MAX_SAFE_INTEGER
  {
    after := cur;
    var retried := RetryPendingIn(tx, RETRY_LIMIT, now);
    if retried.Err? { return Err(FAILED(retried.error)), after; }
    var (d, rows, choices) := retried.value;
    after := RetriesKeep(tx, cur, rows, now, choices);
    RetriesKeepCashiers(tx, rows, now, choices);
    return Ok(d), after;
  }

  // ---------------------------------------------------------------- the operations on a cashier

  function WithCashier(db: Db, cashier: Id, row: Cashier, now: Instant): Db {
    db.(cashiers := db.cashiers[cashier := row], clock := now)
  }

  lemma CashierFits(db: Db, cashier: Id, row: Cashier)
    requires cashier in db.cashiers
    ensures |db.cashiers[cashier := row]| == |db.cashiers|
  {
    assert db.cashiers[cashier := row].Keys == db.cashiers.Keys;
  }

  lemma WithCashierKeeps(db: Db, cur: map<Id, Holder>, cashier: Id, row: Cashier, now: Instant) returns (after: map<Id, Holder>)
    requires Inv(db, cur) && cashier in db.cashiers && db.clock <= now
    ensures Inv(WithCashier(db, cashier, row, now), after)
    ensures |WithCashier(db, cashier, row, now).cashiers| == |db.cashiers|
  {
    after := StepKeeps(db, cur, SetCashier(cashier, row, now));
    CashierFits(db, cashier, row);
  }

  lemma ActiveAgainKeeps(db: Db, cur: map<Id, Holder>, client: Id, now: Instant) returns (after: map<Id, Holder>)
    requires Inv(db, cur) && client in db.clients && db.clients[client] == SUSPENDED && db.clock <= now
    ensures Inv(db.(clients := db.clients[client := ACTIVE], clock := now), after)
  {
    after := StepKeeps(db, cur, SetClientStatus(client, ACTIVE, now));
  }

  class AdminUsersService {
    const assignments: AssignmentsService

    constructor (assignments: AssignmentsService)
      ensures this.assignments == assignments
    {
      this.assignments := assignments;
    }

    /** The part of suspend for a cashier: first the account, then its clients. */
    method SuspendCashier(cashier: Id, now: Instant) returns (r: Result<(), AdminError>)
      requires assignments.Valid() && assignments.db.clock <= now
      modifies assignments
      ensures assignments.Valid()
      ensures r.Err? ==> assignments.db == old(assignments.db)
      ensures r == Err(USER_MISSING) <==> cashier !in old(assignments.db).cashiers
      ensures r == Err(ALREADY_SUSPENDED)
              <==> cashier in old(assignments.db).cashiers && old(assignments.db).cashiers[cashier].status == SUSPENDED
      ensures r == Err(ALREADY_DELETED)
              <==> cashier in old(assignments.db).cashiers && old(assignments.db).cashiers[cashier].status == DELETED
      ensures r.Ok? ==>
                var was := old(assignments.db);
                && Emptied(WithCashier(was, cashier, was.cashiers[cashier].(status := SUSPENDED), now),
                        assignments.db, cashier, ENDED_CASHIER_SUSPENDED, now)
                && assignments.db.cashiers == was.cashiers[cashier := was.cashiers[cashier].(status := SUSPENDED)]
                && OpenOfCashier(assignments.db, cashier) == {}
    {
      var tx := assignments.db;
      if cashier !in tx.cashiers { return Err(USER_MISSING); }
      if tx.cashiers[cashier].status == SUSPENDED { return Err(ALREADY_SUSPENDED); }
      if tx.cashiers[cashier].status == DELETED { return Err(ALREADY_DELETED); }
      ghost var cur :| Inv(tx, cur);
      var row := tx.cashiers[cashier].(status := SUSPENDED);
      cur := WithCashierKeeps(tx, cur, cashier, row, now);
      var emptied, after := EmptyIn(WithCashier(tx, cashier, row, now), cur, cashier, ENDED_CASHIER_SUSPENDED, now);
      if emptied.Err? { return Err(emptied.error); }
      assignments.db := emptied.value;
      return Ok(());
    }

    /** The part of reactivate for a cashier: an approved one is active again and receives waiting clients. */
    method ReactivateCashier(cashier: Id, now: Instant) returns (r: Result<AccountStatus, AdminError>)
      requires assignments.Valid() && assignments.db.clock <= now
      modifies assignments
      ensures assignments.Valid()
      ensures r.Err? ==> assignments.db == old(assignments.db)
      ensures r == Err(USER_MISSING) <==> cashier !in old(assignments.db).cashiers
      ensures r == Err(NOT_SUSPENDED)
              <==> cashier in old(assignments.db).cashiers && old(assignments.db).cashiers[cashier].status != SUSPENDED
      ensures r.Ok? ==>
                var was := old(assignments.db);
                var restored := WithCashier(was, cashier, was.cashiers[cashier].(status := r.value), now);
                && r.value == (if was.cashiers[cashier].approved then ACTIVE else PENDING_APPROVAL)
                && assignments.db.cashiers == was.cashiers[cashier := was.cashiers[cashier].(status := r.value)]
                && if r.value == ACTIVE then RetriedPending(restored, assignments.db, now) else assignments.db == restored
    {
      var tx := assignments.db;
      if cashier !in tx.cashiers { return Err(USER_MISSING); }
      if tx.cashiers[cashier].status != SUSPENDED { return Err(NOT_SUSPENDED); }
      var restored := if tx.cashiers[cashier].approved then ACTIVE else PENDING_APPROVAL;
      var row := tx.cashiers[cashier].(status := restored);
      ghost var cur :| Inv(tx, cur);
      cur := WithCashierKeeps(tx, cur, cashier, row, now);
      tx := WithCashier(tx, cashier, row, now);
      if restored == ACTIVE {
        var retried, after := RetryIn(tx, cur, now);
        if retried.Err? { return Err(retried.error); }
        tx := retried.value;
      }
      assignments.db := tx;
      return Ok(restored);
    }

    /** The part of reactivate for a client: its pending request is tried once, if it has one. */
    method ReactivateClient(client: Id, now: Instant) returns (r: Result<Option<Outcome>, AdminError>)
      requires assignments.Valid() && assignments.db.clock <= now
      modifies assignments
      ensures assignments.Valid()
      ensures r.Err? ==> assignments.db == old(assignments.db)
      ensures r == Err(USER_MISSING) <==> client !in old(assignments.db).clients
      ensures r == Err(NOT_SUSPENDED)
              <==> client in old(assignments.db).clients && old(assignments.db).clients[client] != SUSPENDED
      ensures r.Ok? ==>
                var was := old(assignments.db);
                var active := was.(clients := was.clients[client := ACTIVE], clock := now);
                match r.value
                case None => PendingOfClient(active, client) == {} && assignments.db == active
                case Some(o) => PendingOfClient(active, client) == {o.request} && Retried(active, assignments.db, now, o)
    {
      var tx := assignments.db;
      if client !in tx.clients { return Err(USER_MISSING); }
      if tx.clients[client] != SUSPENDED { return Err(NOT_SUSPENDED); }
      ghost var cur :| Inv(tx, cur);
      cur := ActiveAgainKeeps(tx, cur, client, now);
      tx := tx.(clients := tx.clients[client := ACTIVE], clock := now);
      var retried, after := RetryClientIn(tx, cur, client, now);
      if retried.Err? { return Err(FAILED(retried.error)); }
      if retried.value == None {
        assignments.db := tx;
        return Ok(None);
      }
      assignments.db := retried.value.value.0;
      return Ok(Some(retried.value.value.1));
    }

    /** A new period starts exactly when the cashier has no active row of any kind; then clients may come. */
    method ActivateSubscription(cashier: Id, endsAt: Option<Instant>, now: Instant) returns (r: Result<Id, AdminError>)
      requires assignments.Valid() && assignments.db.clock <= now
      modifies assignments
      ensures assignments.Valid()
      ensures r.Err? ==> assignments.db == old(assignments.db)
      ensures r == Err(USER_MISSING)
              <==> cashier !in old(assignments.db).cashiers || old(assignments.db).cashiers[cashier].status == DELETED
      ensures r.Err? && r.error.REFUSED?
              <==> cashier in old(assignments.db).cashiers && old(assignments.db).cashiers[cashier].status != DELETED
                   && (ActiveSubscriptions(old(assignments.db), cashier) != {} || (endsAt.Some? && endsAt.value <= now))
      ensures r.Ok? ==>
                && r.value == old(assignments.db).nextId
                && RetriedPending(AddSubscription(old(assignments.db), cashier, endsAt, now), assignments.db, now)
    {
      var tx := assignments.db;
      if !Manageable(tx, cashier) { return Err(USER_MISSING); }
      RefusedExactly(tx, cashier, endsAt, now);
      var refusal := ActivationRefusal(tx, cashier, endsAt, now);
      if refusal.Some? { return Err(REFUSED(refusal.value)); }
      ghost var cur :| Inv(tx, cur);
      cur := StepKeeps(tx, cur, Activate(cashier, endsAt, now));
      var retried, after := RetryIn(AddSubscription(tx, cashier, endsAt, now), cur, now);
      if retried.Err? { return Err(retried.error); }
      assignments.db := retried.value;
      return Ok(tx.nextId);
    }

    /** The active period ends now, or keeps an end already past, and the cashier's clients are moved. */
    method DeactivateSubscription(cashier: Id, now: Instant) returns (r: Result<Id, AdminError>)
      requires assignments.Valid() && assignments.db.clock <= now
      modifies assignments
      ensures assignments.Valid()
      ensures r.Err? ==> assignments.db == old(assignments.db)
      ensures r == Err(USER_MISSING)
              <==> cashier !in old(assignments.db).cashiers || old(assignments.db).cashiers[cashier].status == DELETED
      ensures r == Err(NO_ACTIVE_SUBSCRIPTION)
              <==> cashier in old(assignments.db).cashiers && old(assignments.db).cashiers[cashier].status != DELETED
                   && ActiveSubscriptions(old(assignments.db), cashier) == {}
      ensures r.Ok? ==>
                var was := old(assignments.db);
                && ActiveSubscriptions(was, cashier) == {r.value}
                && Emptied(SetSubscription(was, r.value, DeactivatedRow(was.subscriptions[r.value], now)).(clock := now),
                           assignments.db, cashier, ENDED_CASHIER_UNAVAILABLE, now)
    {
      var tx := assignments.db;
      if !Manageable(tx, cashier) { return Err(USER_MISSING); }
      var active := ActiveSubscriptions(tx, cashier);
      if active == {} { return Err(NO_ACTIVE_SUBSCRIPTION); }
      ghost var cur :| Inv(tx, cur);
      var s :| s in active;
      assert active == {s}; // so the loop over the active rows has one iteration
      cur := StepKeeps(tx, cur, Deactivate(s, now));
      tx := SetSubscription(tx, s, DeactivatedRow(tx.subscriptions[s], now)).(clock := now);
      var emptied, after := EmptyIn(tx, cur, cashier, ENDED_CASHIER_UNAVAILABLE, now);
      if emptied.Err? { return Err(emptied.error); }
      assignments.db := emptied.value;
      return Ok(s);
    }

    /** The part of deleteUser for a client. */
    method DeleteClientAccount(client: Id, now: Instant)
      returns (r: Result<(nat, nat), AdminError>)
      requires assignments.Valid() && assignments.db.clock <= now
      modifies assignments
      ensures assignments.Valid()
      ensures r.Err? ==> assignments.db == old(assignments.db)
      ensures r == Err(USER_MISSING) <==> client !in old(assignments.db).clients
      ensures r == Err(ALREADY_DELETED)
              <==> client in old(assignments.db).clients && old(assignments.db).clients[client] == DELETED
      ensures r.Ok? ==>
                && assignments.db == DeleteClient(old(assignments.db), client, now)
                && r.value == (|OpenOfClient(old(assignments.db), client)|, |PendingOfClient(old(assignments.db), client)|)
                && OpenOfClient(assignments.db, client) == {} == PendingOfClient(assignments.db, client)
    {
      var tx := assignments.db;
      if client !in tx.clients { return Err(USER_MISSING); }
      if tx.clients[client] == DELETED { return Err(ALREADY_DELETED); }
      ghost var cur :| Inv(tx, cur);
      var d, open, pending := EndClientRelationshipsIn(tx, client, now);
      cur := DeleteKeeps(tx, cur, client, now);
      WhereClientStands(d, cur, client);
      DeletedIsNowhere(d, cur, client);
      assignments.db := d;
      return Ok((open, pending));
    }

    /** The part of deleteUser for a cashier: its clients leave first, then its subscription is cancelled. */
    method DeleteCashierAccount(cashier: Id, now: Instant) returns (r: Result<Option<Id>, AdminError>)
      requires assignments.Valid() && assignments.db.clock <= now
      modifies assignments
      ensures assignments.Valid()
      ensures r.Err? ==> assignments.db == old(assignments.db)
      ensures r == Err(USER_MISSING) <==> cashier !in old(assignments.db).cashiers
      ensures r == Err(ALREADY_DELETED)
              <==> cashier in old(assignments.db).cashiers && old(assignments.db).cashiers[cashier].status == DELETED
      ensures r.Ok? ==>
                && ActiveSubscriptions(old(assignments.db), cashier) == (if r.value.Some? then {r.value.value} else {})
                && Load(assignments.db, cashier) == 0 && ActiveSubscriptions(assignments.db, cashier) == {}
                && CashierRemoved(old(assignments.db), assignments.db, cashier, r.value, now)
                && assignments.db.cashiers
                   == old(assignments.db).cashiers[cashier := old(assignments.db).cashiers[cashier].(status := DELETED, approved := false)]
    {
      var tx := assignments.db;
      if cashier !in tx.cashiers { return Err(USER_MISSING); }
      if tx.cashiers[cashier].status == DELETED { return Err(ALREADY_DELETED); }
      ghost var cur :| Inv(tx, cur);
      var emptied, after := EmptyIn(tx, cur, cashier, ENDED_ACCOUNT_DELETED, now);
      if emptied.Err? { return Err(emptied.error); }
      var cancelled := CancelIn(emptied.value, after, cashier, now);
      assignments.db := CashierDeleted(emptied.value, cashier, cancelled, now);
      return Ok(cancelled);
    }
  }

  /** endClientRelationshipsForDeletionInTransaction and the account: three bulk updates and one row. */
  method EndClientRelationshipsIn(start: Db, client: Id, now: Instant) returns (tx: Db, open: nat, pending: nat)
    ensures tx == DeleteClient(start, client, now)
    ensures open == |OpenOfClient(start, client)| && pending == |PendingOfClient(start, client)|
  {
    var assignmentIds := OpenOfClient(start, client);
    var requestIds := PendingOfClient(start, client);
    tx := start;
    if |assignmentIds| > 0 {
      tx := tx.(conversations := CloseConversations(tx.conversations, assignmentIds, now));
      tx := tx.(assignments := EndForDeletion(tx.assignments, assignmentIds, now));
    } else {
      assert CloseConversations(tx.conversations, {}, now) == tx.conversations;
      assert EndForDeletion(tx.assignments, {}, now) == tx.assignments;
    }
    tx := tx.(requests := CancelRequests(tx.requests, requestIds, now));
    tx := tx.(clients := tx.clients[client := DELETED], clock := now);
    return tx, |assignmentIds|, |requestIds|;
  }

  lemma DeletedIsNowhere(db: Db, cur: map<Id, Holder>, client: Id)
    requires Inv(db, cur) && client in db.clients && db.clients[client] == DELETED
    ensures client !in cur
  {
  }

  lemma RefusedExactly(db: Db, cashier: Id, endsAt: Option<Instant>, now: Instant)
    ensures ActivationRefusal(db, cashier, endsAt, now) == None
            <==> ActiveSubscriptions(db, cashier) == {} && (endsAt == None || endsAt.value > now)
  {
  }

  predicate Manageable(db: Db, cashier: Id) { cashier in db.cashiers && db.cashiers[cashier].status != DELETED }

  ghost predicate CashierRemoved(before: Db, after: Db, cashier: Id, cancelled: Option<Id>, now: Instant) {
    exists moved ::
      && Emptied(before, moved, cashier, ENDED_ACCOUNT_DELETED, now)
      && cashier in moved.cashiers && (cancelled.Some? ==> cancelled.value in moved.subscriptions)
      && after == CashierDeleted(moved, cashier, cancelled, now)
  }

  function CashierDeleted(db: Db, cashier: Id, subscription: Option<Id>, now: Instant): Db
    requires cashier in db.cashiers && (subscription.Some? ==> subscription.value in db.subscriptions)
  {
    var cancelled := match subscription
                     case None => db
                     case Some(s) => SetSubscription(db, s, CancelledRow(db.subscriptions[s], now));
    WithCashier(cancelled, cashier, db.cashiers[cashier].(status := DELETED, approved := false), now)
  }

  method CancelIn(tx: Db, ghost cur: map<Id, Holder>, cashier: Id, now: Instant) returns (cancelled: Option<Id>)
    requires Inv(tx, cur) && tx.clock <= now && cashier in tx.cashiers
    ensures ActiveSubscriptions(tx, cashier) == if cancelled.Some? then {cancelled.value} else {}
    ensures var d := CashierDeleted(tx, cashier, cancelled, now);
            && (exists after :: Inv(d, after)) && |d.cashiers| == |tx.cashiers|
            && Load(d, cashier) == Load(tx, cashier) && ActiveSubscriptions(d, cashier) == {}
  {
    var active := ActiveSubscriptions(tx, cashier);
    cancelled := None;
    if active != {} {
      var s :| s in active;
      assert active == {s};
      cancelled := Some(s);
    }
    CashierDeletedKeeps(tx, cur, cashier, cancelled, now);
  }

  lemma CashierDeletedKeeps(db: Db, cur: map<Id, Holder>, cashier: Id, cancelled: Option<Id>, now: Instant)
    requires Inv(db, cur) && db.clock <= now && cashier in db.cashiers
    requires ActiveSubscriptions(db, cashier) == if cancelled.Some? then {cancelled.value} else {}
    ensures cancelled.Some? ==> cancelled.value in db.subscriptions
    ensures var d := CashierDeleted(db, cashier, cancelled, now);
            && (exists after :: Inv(d, after)) && |d.cashiers| == |db.cashiers|
            && Load(d, cashier) == Load(db, cashier) && ActiveSubscriptions(d, cashier) == {}
  {
    var row := db.cashiers[cashier].(status := DELETED, approved := false);
    CashierFits(db, cashier, row);
    var d, after := db, cur;
    if cancelled.Some? {
      assert cancelled.value in ActiveSubscriptions(db, cashier);
      after := StepKeeps(db, cur, Cancel(cancelled.value, now));
      d := Apply(db, Cancel(cancelled.value, now));
    }
    after := StepKeeps(d, after, SetCashier(cashier, row, now));
    CashierDeletedFrame(db, cashier, cancelled, now);
  }

  lemma CashierDeletedFrame(db: Db, cashier: Id, cancelled: Option<Id>, now: Instant)
    requires cashier in db.cashiers && (cancelled.Some? ==> cancelled.value in db.subscriptions)
    requires ActiveSubscriptions(db, cashier) == if cancelled.Some? then {cancelled.value} else {}
    ensures var d := CashierDeleted(db, cashier, cancelled, now);
            Load(d, cashier) == Load(db, cashier) && ActiveSubscriptions(d, cashier) == {}
  {
    var d := CashierDeleted(db, cashier, cancelled, now);
    assert OpenOfCashier(d, cashier) == OpenOfCashier(db, cashier);
    assert forall s | s in d.subscriptions && Some(s) != cancelled :: d.subscriptions[s] == db.subscriptions[s];
    assert forall s | s in db.subscriptions && Some(s) != cancelled :: s !in ActiveSubscriptions(db, cashier);
  }
}
