/**
 The assignment service over its tables. A transaction works on a copy of the tables and commits it at
 its end; an error leaves the tables as they were. Random tie-breaking is an arbitrary draw.
 Source: apps/api/src/assignments/assignments.service.ts.
*/
module AssignmentsServices {
  import opened Wrappers
  import opened AssignmentTables
  import opened AssignmentInvariants
  import opened AssignmentRuns
  import opened AssignmentBatches
  import opened ExpiryDrain
  import opened CashierSelection

  // ---------------------------------------------------------------- one request, one batch

  method RandomInt() returns (randomIndex: nat -> int)
    ensures forall n: nat | n > 0 :: 0 <= randomIndex(n) < n
  {
    var draw: nat := *;
    randomIndex := (n: nat) => if n > 0 then draw % n else 0;
  }

  ghost predicate Lists(loads: seq<CashierLoad<Id>>, db: Db, cashiers: set<Id>) {
    && |loads| == |cashiers|
    && (forall k | 0 <= k < |loads| ::
          loads[k].userId in cashiers && loads[k].activeClientCount == Load(db, loads[k].userId))
    && forall c | c in cashiers :: CashierLoad(c, Load(db, c)) in loads
  }

  lemma ListsOneMore(loads: seq<CashierLoad<Id>>, db: Db, cashiers: set<Id>, c: Id)
    requires Lists(loads, db, cashiers) && c !in cashiers
    ensures Lists(loads + [CashierLoad(c, Load(db, c))], db, cashiers + {c})
  {
  }

  method FindEligibleCandidates(tx: Db, client: Id, excluded: Id, now: Instant) returns (loads: seq<CashierLoad<Id>>)
    ensures Lists(loads, tx, Candidates(tx, client, excluded, now))
  {
    loads := [];
    var rest := tx.cashiers.Keys;
    ghost var seen: set<Id> := {};
    while rest != {}
      invariant rest <= tx.cashiers.Keys && Lists(loads, tx, seen)
      invariant forall c :: c in seen <==> c in tx.cashiers && c !in rest && Eligible(tx, client, excluded, c, now)
      decreases |rest|
    {
      var c :| c in rest;
      if Eligible(tx, client, excluded, c, now) {
        ListsOneMore(loads, tx, seen, c);
        seen := seen + {c};
        loads := loads + [CashierLoad(c, Load(tx, c))];
      }
      rest := rest - {c};
    }
    assert seen == Candidates(tx, client, excluded, now);
  }

  lemma LoadIsBounded(db: Db, cashier: Id)
    ensures Load(db, cashier) <= |db.assignments|
  {
    Within(OpenOfCashier(db, cashier), db.assignments.Keys);
  }

  lemma Within<T>(a: set<T>, b: set<T>)
    requires a <= b
    ensures |a| <= |b|
  {
    assert b == a + (b - a);
  }

  /** A choice the specification allows; the only error is a count beyond the safe integers. */
  method ChooseCashier(tx: Db, client: Id, excluded: Id, now: Instant)
    returns (r: Result<Option<Id>, RangeError>)
    requires |tx.cashiers| < 0x1_0000_0000
    ensures r.Ok? ==> ChoiceAllowed(tx, client, excluded, now, r.value)
    ensures r.Err? ==> |tx.assignments| > MAX_SAFE_INTEGER
  {
    var loads := FindEligibleCandidates(tx, client, excluded, now);
    Within(Candidates(tx, client, excluded, now), tx.cashiers.Keys);
    var randomIndex := RandomInt();
    var selected := SelectLeastLoadedCashier(loads, randomIndex);
    var candidates := Candidates(tx, client, excluded, now);
    if selected.Err? {
      TieIsNonempty(loads);
      assert !CountsValid(loads);
      var k :| 0 <= k < |loads| && loads[k].activeClientCount > MAX_SAFE_INTEGER;
      LoadIsBounded(tx, loads[k].userId);
      return Err(selected.error);
    }
    if selected.value == None {
      return Ok(None);
    }
    var c := selected.value.value.userId;
    forall d | d in candidates ensures Load(tx, c) <= Load(tx, d) {
      assert CashierLoad(d, Load(tx, d)) in loads;
    }
    return Ok(Some(c));
  }

  method CompletePendingIn(tx: Db, r: Id, now: Instant) returns (result: Result<(Db, Option<Id>), RangeError>)
    requires IsPending(tx, r) && |tx.cashiers| < 0x1_0000_0000
    ensures result.Ok? ==>
              && ChoiceAllowed(tx, tx.requests[r].client, tx.requests[r].excludedCashier, now, result.value.1)
              && result.value.0 == CompletePending(tx, r, now, result.value.1)
    ensures result.Err? ==> |tx.assignments| > MAX_SAFE_INTEGER
  {
    var request := tx.requests[r];
    if !ClientIsActive(tx, request.client) { return Ok((tx.(clock := now), None)); }
    var choice := ChooseCashier(tx, request.client, request.excludedCashier, now);
    if choice.Err? { return Err(choice.error); }
    if choice.value == None {
      var missed := request.(lastAttemptAt := Some(now), attemptCount := request.attemptCount + 1);
      return Ok((tx.(requests := tx.requests[r := missed], clock := now), None));
    }
    var row := Assignment(request.client, choice.value.value, Some(request.previousAssignment),
                          FOLLOWING(request.reason), now, None);
    var done := request.(status := COMPLETED(tx.nextId), lastAttemptAt := Some(now),
                         attemptCount := request.attemptCount + 1, completedAt := Some(now));
    return Ok((SetRequest(AddAssignment(tx, row), r, done), choice.value));
  }

  method BeginReassignmentIn(tx: Db, a: Id, b: Batch) returns (result: Result<(Db, Option<Id>), RangeError>)
    requires OpenRow(tx, a) && |tx.cashiers| < 0x1_0000_0000
    ensures result.Ok? ==> MayBegin(tx, a, b, result.value.1) && result.value.0 == BeginOne(tx, a, b, result.value.1)
    ensures result.Err? ==> |tx.assignments| > MAX_SAFE_INTEGER
  {
    var row := tx.assignments[a];
    var posted := tx.(assignments := tx.assignments[a := row.(ended := Some((b.now, b.endReason)))]);
    posted := posted.(conversations := posted.conversations[a := posted.conversations[a].(active := false, closedAt := Some(b.now))]);
    var request := Request(row.client, a, row.cashier, b.reason, PENDING, 0, b.now, None, None);
    posted := posted.(requests := posted.requests[tx.nextId := request], nextId := tx.nextId + 1, clock := b.now);
    assert posted == OpenRequest(tx, a, b.reason, b.endReason, b.now);
    assert posted.assignments.Keys == tx.assignments.Keys;
    result := CompletePendingIn(posted, tx.nextId, b.now);
  }

  // ---------------------------------------------------------------- batches

  lemma {:induction false} BatchAppend(db: Db, rows: seq<Id>, b: Batch, choices: seq<Option<Id>>, a: Id, choice: Option<Id>)
    requires BatchAllowed(db, rows, b, choices) && MayBegin(RunBatch(db, rows, b, choices), a, b, choice)
    ensures BatchAllowed(db, rows + [a], b, choices + [choice])
    ensures RunBatch(db, rows + [a], b, choices + [choice]) == BeginOne(RunBatch(db, rows, b, choices), a, b, choice)
    decreases |rows|
  {
    if rows == [] {
      assert ([a])[1..] == [] && ([choice])[1..] == [];
      assert BatchAllowed(BeginOne(db, a, b, choice), [], b, []);
    } else {
      BatchAppend(BeginOne(db, rows[0], b, choices[0]), rows[1..], b, choices[1..], a, choice);
      assert (rows + [a])[1..] == rows[1..] + [a] && (choices + [choice])[1..] == choices[1..] + [choice];
    }
  }

  lemma BeginKeepsOpen(db: Db, a: Id, b: Batch, choice: Option<Id>, x: Id)
    requires OpenRow(db, a) && OpenRow(db, x) && x != a && AssignmentsDated(db.assignments, db.nextId, db.clock)
    ensures OpenRow(BeginOne(db, a, b, choice), x)
  {
  }

  lemma BeginAddsAtMostOne(db: Db, a: Id, b: Batch, choice: Option<Id>)
    requires a in db.assignments && a in db.conversations
    ensures |BeginOne(db, a, b, choice).assignments| <= |db.assignments| + 1
  {
    Within(BeginOne(db, a, b, choice).assignments.Keys, db.assignments.Keys + {db.nextId + 1});
  }

  ghost predicate StillOpen(db: Db, rows: seq<Id>, from: nat) {
    forall k | from <= k < |rows| :: OpenRow(db, rows[k])
  }

  lemma BeginKeepsStillOpen(db: Db, rows: seq<Id>, from: nat, b: Batch, choice: Option<Id>)
    requires from < |rows| && Distinct(rows) && StillOpen(db, rows, from)
    requires AssignmentsDated(db.assignments, db.nextId, db.clock)
    ensures StillOpen(BeginOne(db, rows[from], b, choice), rows, from + 1)
  {
    forall k | from + 1 <= k < |rows| ensures OpenRow(BeginOne(db, rows[from], b, choice), rows[k]) {
      BeginKeepsOpen(db, rows[from], b, choice, rows[k]);
    }
  }

  /** The loop of reassignCashierClientsInTransaction and of the expiry turn. */
  method BeginEach(start: Db, rows: seq<Id>, b: Batch) returns (result: Result<(Db, seq<Option<Id>>), RangeError>)
    requires |start.cashiers| < 0x1_0000_0000 && start.clock <= b.now
    requires AssignmentsDated(start.assignments, start.nextId, start.clock)
    requires Distinct(rows) && StillOpen(start, rows, 0)
    ensures result.Ok? ==> BatchAllowed(start, rows, b, result.value.1)
                           && result.value.0 == RunBatch(start, rows, b, result.value.1)
    ensures result.Err? ==> |start.assignments| + |rows| > MAX_SAFE_INTEGER
  {
    var tx := start;
    var outcomes: seq<Option<Id>> := [];
    var i := 0;
    assert rows[..0] == [];
    while i < |rows|
      invariant i <= |rows| && StillOpen(tx, rows, i)
      invariant AssignmentsDated(tx.assignments, tx.nextId, tx.clock) && tx.clock <= b.now
      invariant tx.cashiers == start.cashiers && |tx.assignments| <= |start.assignments| + i
      invariant BatchAllowed(start, rows[..i], b, outcomes) && tx == RunBatch(start, rows[..i], b, outcomes)
    {
      var one := BeginReassignmentIn(tx, rows[i], b);
      if one.Err? { return Err(one.error); }
      BatchAppend(start, rows[..i], b, outcomes, rows[i], one.value.1);
      assert rows[..i] + [rows[i]] == rows[..i + 1];
      BeginKeepsStillOpen(tx, rows, i, b, one.value.1);
      BeginKeepsDated(tx, rows[i], b, one.value.1);
      BeginFrame(tx, rows[i], b, one.value.1);
      BeginAddsAtMostOne(tx, rows[i], b, one.value.1);
      tx, outcomes := one.value.0, outcomes + [one.value.1];
      i := i + 1;
    }
    assert rows[..i] == rows;
    return Ok((tx, outcomes));
  }

  // ---------------------------------------------------------------- ordered selection

  method Earliest(keys: map<Id, Instant>, among: set<Id>) returns (a: Id)
    requires among != {} && among <= keys.Keys
    ensures a in among && forall c | c in among && c != a :: Earlier(keys, a, c)
  {
    a :| a in among;
    var rest := among - {a};
    while rest != {}
      invariant a in among && a !in rest && rest <= among
      invariant forall c | c in among && c !in rest && c != a :: Earlier(keys, a, c)
      decreases |rest|
    {
      var c :| c in rest;
      rest := rest - {c};
      if Earlier(keys, c, a) { a := c; }
    }
  }

  method OrderBy(keys: map<Id, Instant>, limit: nat) returns (rows: seq<Id>)
    ensures FirstBy(keys, limit, rows)
  {
    rows := [];
    var rest := keys.Keys;
    while rest != {} && |rows| < limit
      invariant rest <= keys.Keys && |rows| + |rest| == |keys| && |rows| <= limit
      invariant forall k | 0 <= k < |rows| :: rows[k] in keys && rows[k] !in rest
      invariant forall i, j | 0 <= i < j < |rows| :: Earlier(keys, rows[i], rows[j])
      invariant forall a | a in keys :: a in rows || a in rest
      invariant forall a, k | a in rest && 0 <= k < |rows| :: Earlier(keys, rows[k], a)
      decreases |rest|
    {
      var a := Earliest(keys, rest);
      rows := rows + [a];
      rest := rest - {a};
    }
  }

  /** reassignCashierClientsInTransaction: every open client of the cashier, oldest first. */
  method ReassignCashierClientsIn(tx: Db, cashier: Id, endReason: EndReason, now: Instant)
    returns (result: Result<(Db, seq<Id>, seq<Option<Id>>), RangeError>)
    requires |tx.cashiers| < 0x1_0000_0000 && tx.clock <= now
    requires AssignmentsDated(tx.assignments, tx.nextId, tx.clock) && ConversationsMatch(tx.assignments, tx.conversations)
    ensures result.Ok? ==>
              var (after, rows, choices) := result.value;
              var b := Batch(CASHIER_UNAVAILABLE, endReason, now);
              && FirstOpen(tx, cashier, Load(tx, cashier), rows)
              && BatchAllowed(tx, rows, b, choices) && after == RunBatch(tx, rows, b, choices)
              && Load(after, cashier) == 0
    ensures result.Err? ==> |tx.assignments| + Load(tx, cashier) > MAX_SAFE_INTEGER
  {
    var b := Batch(CASHIER_UNAVAILABLE, endReason, now);
    var rows := OrderBy(Starts(tx, cashier), Load(tx, cashier));
    FirstOpenRows(tx, cashier, Load(tx, cashier), rows);
    var each := BeginEach(tx, rows, b);
    if each.Err? { return Err(each.error); }
    BatchEmpties(tx, rows, b, each.value.1, cashier);
    return Ok((each.value.0, rows, each.value.1));
  }

  // ---------------------------------------------------------------- retries

  lemma {:induction false} RetriesAppend(db: Db, rows: seq<Id>, now: Instant, choices: seq<Option<Id>>, r: Id, choice: Option<Id>)
    requires RetriesAllowed(db, rows, now, choices) && IsPending(RunRetries(db, rows, now, choices), r)
    requires var d := RunRetries(db, rows, now, choices);
             ChoiceAllowed(d, d.requests[r].client, d.requests[r].excludedCashier, now, choice)
    ensures RetriesAllowed(db, rows + [r], now, choices + [choice])
    ensures RunRetries(db, rows + [r], now, choices + [choice])
            == CompletePending(RunRetries(db, rows, now, choices), r, now, choice)
    decreases |rows|
  {
    if rows == [] {
      assert ([r])[1..] == [] && ([choice])[1..] == [];
      assert RetriesAllowed(CompletePending(db, r, now, choice), [], now, []);
    } else {
      RetriesAppend(CompletePending(db, rows[0], now, choices[0]), rows[1..], now, choices[1..], r, choice);
      assert (rows + [r])[1..] == rows[1..] + [r] && (choices + [choice])[1..] == choices[1..] + [choice];
    }
  }

  ghost predicate StillPending(db: Db, rows: seq<Id>, from: nat) {
    forall k | from <= k < |rows| :: IsPending(db, rows[k])
  }

  lemma RetryKeepsOther(db: Db, r: Id, now: Instant, choice: Option<Id>, x: Id)
    requires IsPending(db, r) && IsPending(db, x) && x != r
    ensures IsPending(CompletePending(db, r, now, choice), x)
  {
  }

  lemma RetryAddsAtMostOne(db: Db, r: Id, now: Instant, choice: Option<Id>)
    requires IsPending(db, r)
    ensures var d := CompletePending(db, r, now, choice);
            d.cashiers == db.cashiers && |d.assignments| <= |db.assignments| + 1
  {
    var d := CompletePending(db, r, now, choice);
    assert d.assignments.Keys <= db.assignments.Keys + {db.nextId};
    Within(d.assignments.Keys, db.assignments.Keys + {db.nextId});
    assert |db.assignments.Keys + {db.nextId}| <= |db.assignments.Keys| + 1;
  }

  lemma RetryKeepsOthers(db: Db, rows: seq<Id>, from: nat, now: Instant, choice: Option<Id>)
    requires from < |rows| && Distinct(rows) && StillPending(db, rows, from)
    ensures StillPending(CompletePending(db, rows[from], now, choice), rows, from + 1)
  {
    forall k | from + 1 <= k < |rows| ensures IsPending(CompletePending(db, rows[from], now, choice), rows[k]) {
      RetryKeepsOther(db, rows[from], now, choice, rows[k]);
    }
  }

  method RetryEach(start: Db, rows: seq<Id>, now: Instant) returns (result: Result<(Db, seq<Option<Id>>), RangeError>)
    requires |start.cashiers| < 0x1_0000_0000 && Distinct(rows) && StillPending(start, rows, 0)
    ensures result.Ok? ==> RetriesAllowed(start, rows, now, result.value.1)
                           && result.value.0 == RunRetries(start, rows, now, result.value.1)
    ensures result.Err? ==> |start.assignments| + |rows| > MAX_SAFE_INTEGER
  {
    var tx := start;
    var outcomes: seq<Option<Id>> := [];
    var i := 0;
    assert rows[..0] == [];
    while i < |rows|
      invariant i <= |rows| && StillPending(tx, rows, i)
      invariant tx.cashiers == start.cashiers && |tx.assignments| <= |start.assignments| + i
      invariant RetriesAllowed(start, rows[..i], now, outcomes) && tx == RunRetries(start, rows[..i], now, outcomes)
    {
      var one := CompletePendingIn(tx, rows[i], now);
      if one.Err? { return Err(one.error); }
      RetriesAppend(start, rows[..i], now, outcomes, rows[i], one.value.1);
      assert rows[..i] + [rows[i]] == rows[..i + 1];
      RetryKeepsOthers(tx, rows, i, now, one.value.1);
      RetryAddsAtMostOne(tx, rows[i], now, one.value.1);
      tx, outcomes := one.value.0, outcomes + [one.value.1];
      i := i + 1;
    }
    assert rows[..i] == rows;
    return Ok((tx, outcomes));
  }

  const SECOND := 1000

  /** LEAST(300, 5 * 2 ^ LEAST(attempts, 6)) seconds. */
  function Backoff(attempts: nat): (wait: Instant)
    ensures 5 * SECOND <= wait <= 300 * SECOND
  {
    match attempts
    case 0 => 5 * SECOND
    case 1 => 10 * SECOND
    case 2 => 20 * SECOND
    case 3 => 40 * SECOND
    case 4 => 80 * SECOND
    case 5 => 160 * SECOND
    case _ => 300 * SECOND
  }

  predicate Due(db: Db, r: Id, at: Instant) {
    && IsPending(db, r) && ClientIsActive(db, db.requests[r].client)
    && (db.requests[r].lastAttemptAt == None
        || db.requests[r].lastAttemptAt.value <= at - Backoff(db.requests[r].attemptCount))
  }

  function DueRequests(db: Db, at: Instant): map<Id, Instant> {
    map r | r in db.requests && Due(db, r, at) :: db.requests[r].requestedAt
  }

  /** What retryPendingInTransaction takes: no waiting time between attempts. */
  function RetryableRequests(db: Db): map<Id, Instant> {
    map r | r in db.requests && IsPending(db, r) && ClientIsActive(db, db.requests[r].client) :: db.requests[r].requestedAt
  }

  lemma PendingRows(db: Db, keys: map<Id, Instant>, limit: nat, rows: seq<Id>)
    requires FirstBy(keys, limit, rows) && forall r | r in keys :: IsPending(db, r)
    ensures Distinct(rows) && StillPending(db, rows, 0) && |rows| <= limit
  {
    assert forall i, j | 0 <= i < j < |rows| :: Earlier(keys, rows[i], rows[j]);
  }

  method RetryPendingIn(tx: Db, limit: nat, now: Instant)
    returns (result: Result<(Db, seq<Id>, seq<Option<Id>>), RangeError>)
    requires |tx.cashiers| < 0x1_0000_0000
    ensures result.Ok? ==>
              var (after, rows, choices) := result.value;
              && FirstBy(RetryableRequests(tx), limit, rows)
              && RetriesAllowed(tx, rows, now, choices) && after == RunRetries(tx, rows, now, choices)
    ensures result.Err? ==> |tx.assignments| + limit > MAX_SAFE_INTEGER
  {
    var rows := OrderBy(RetryableRequests(tx), limit);
    PendingRows(tx, RetryableRequests(tx), limit, rows);
    var each := RetryEach(tx, rows, now);
    if each.Err? { return Err(each.error); }
    return Ok((each.value.0, rows, each.value.1));
  }

  // ---------------------------------------------------------------- the service

  datatype ServiceError = LIMIT_INVALID | NOT_FOUND | CONFLICT | COUNT(error: RangeError)

  /** The outcome of one reassignment: the request, and the new assignment's cashier if there is one. */
  datatype Outcome = Outcome(request: Id, cashier: Option<Id>)

  class AssignmentsService {
    var db: Db

    ghost predicate Valid()
      reads this
    {
      |db.cashiers| < 0x1_0000_0000 && exists cur :: Inv(db, cur)
    }

    constructor ()
      ensures Valid() && db == START
    {
      db := START;
      new;
      assert Inv(START, map[]);
    }

    method NextExpired(selectedAt: Instant) returns (next: Option<Id>)
      ensures next == None <==> Waiting(db, selectedAt) == {}
      ensures next.Some? ==> Next(db, next.value, selectedAt)
    {
      var among := Waiting(db, selectedAt);
      if among == {} { return None; }
      var s :| s in among;
      var rest := among - {s};
      while rest != {}
        invariant s in among && s !in rest && rest <= among
        invariant forall t | t in among && t !in rest && t != s :: Before(db.subscriptions, s, t)
        decreases |rest|
      {
        var t :| t in rest;
        rest := rest - {t};
        if Before(db.subscriptions, t, s) { s := t; }
      }
      return Some(s);
    }

    /** One serializable transaction with its three clock readings. The guards of its last update always
        hold, so its two consistency errors cannot occur here. */
    method ReconcileNextExpiredSubscription(limit: int, selectedAt: Instant, now: Instant, completedAt: Instant)
      returns (r: Result<Option<Turn>, ServiceError>)
      requires Valid() && db.clock <= selectedAt <= now <= completedAt
      modifies this
      ensures Valid()
      ensures r == Err(LIMIT_INVALID) <==> !(1 <= limit <= 100)
      ensures r.Err? ==> db == old(db) && (r.error == LIMIT_INVALID || (r.error.COUNT? && |db.assignments| + limit > MAX_SAFE_INTEGER))
      ensures r == Ok(None) ==> db == old(db) && Waiting(db, selectedAt) == {}
      ensures r.Ok? && r.value.Some? ==>
                && r.value.value.selectedAt == selectedAt && r.value.value.completedAt == completedAt
                && TurnAllowed(old(db), limit, r.value.value) && db == AfterTurn(old(db), limit, r.value.value)
    {
      if limit < 1 || limit > 100 { return Err(LIMIT_INVALID); }
      var next := NextExpired(selectedAt);
      if next == None { return Ok(None); }
      ghost var cur :| Inv(db, cur);
      var served := ServeTurn(db, next.value, limit, selectedAt, now, completedAt);
      if served.Err? { return Err(COUNT(served.error)); }
      cur := TurnKeeps(db, cur, limit, served.value.1);
      db := served.value.0;
      return Ok(Some(served.value.1));
    }

    method ReconcilePendingReassignments(limit: int, selectedAt: Instant, now: Instant)
      returns (r: Result<(seq<Id>, seq<Option<Id>>), ServiceError>)
      requires Valid() && db.clock <= selectedAt <= now
      modifies this
      ensures Valid()
      ensures r == Err(LIMIT_INVALID) <==> !(1 <= limit <= 100)
      ensures r.Err? ==> db == old(db) && (r.error == LIMIT_INVALID || (r.error.COUNT? && |db.assignments| + limit > MAX_SAFE_INTEGER))
      ensures r.Ok? ==>
                && FirstBy(DueRequests(old(db), selectedAt), limit, r.value.0)
                && RetriesAllowed(old(db), r.value.0, now, r.value.1)
                && db == RunRetries(old(db), r.value.0, now, r.value.1)
    {
      if limit < 1 || limit > 100 { return Err(LIMIT_INVALID); }
      var rows := OrderBy(DueRequests(db, selectedAt), limit);
      PendingRows(db, DueRequests(db, selectedAt), limit, rows);
      var each := RetryEach(db, rows, now);
      if each.Err? { return Err(COUNT(each.error)); }
      ghost var cur :| Inv(db, cur);
      cur := RetriesKeep(db, cur, rows, now, each.value.1);
      RetriesKeepCashiers(db, rows, now, each.value.1);
      db := each.value.0;
      return Ok((rows, each.value.1));
    }

    /** An administrator moves an active client, or retries its pending request. A client that is not active
        is not found; the only active clients in conflict are those that five cashiers have blocked. */
    method ReassignAdministrative(client: Id, now: Instant) returns (r: Result<Outcome, ServiceError>)
      requires Valid() && db.clock <= now
      modifies this
      ensures Valid()
      ensures r.Err? ==> db == old(db)
      ensures r == Err(NOT_FOUND) <==> !ClientIsActive(old(db), client)
      ensures r == Err(CONFLICT) <==> ClientIsActive(old(db), client) && UnderReview(old(db).blocks, client)
      ensures r.Err? && r.error.COUNT? ==> |db.assignments| > MAX_SAFE_INTEGER
      ensures r.Ok? ==> Reassigned(old(db), db, client, now, r.value)
    {
      if !ClientIsActive(db, client) { return Err(NOT_FOUND); }
      ghost var cur :| Inv(db, cur);
      var moved, after := ReassignClientIn(db, cur, client, now);
      if moved.Err? { return Err(moved.error); }
      db := moved.value.0;
      return Ok(moved.value.1);
    }
  }

  lemma WhereClientStands(db: Db, cur: map<Id, Holder>, client: Id)
    requires Inv(db, cur)
    ensures OpenOfClient(db, client) == if client in cur && cur[client].OnAssignment? then {cur[client].a} else {}
    ensures PendingOfClient(db, client) == if client in cur && cur[client].OnRequest? then {cur[client].r} else {}
    ensures ClientIsActive(db, client) ==> (client in cur <==> !UnderReview(db.blocks, client))
  {
  }

  /** retryClientPendingInTransaction: the client's pending request is tried once more, if it has one. */
  method RetryClientIn(tx: Db, ghost cur: map<Id, Holder>, client: Id, now: Instant)
    returns (r: Result<Option<(Db, Outcome)>, RangeError>, ghost after: map<Id, Holder>)
    requires Inv(tx, cur) && |tx.cashiers| < 0x1_0000_0000 && tx.clock <= now
    ensures r.Err? ==> |tx.assignments| > MAX_SAFE_INTEGER
    ensures r == Ok(None) <==> PendingOfClient(tx, client) == {}
    ensures r.Ok? && r.value.Some? ==>
              && PendingOfClient(tx, client) == {r.value.value.1.request}
              && Retried(tx, r.value.value.0, now, r.value.value.1)
              && Inv(r.value.value.0, after) && r.value.value.0.cashiers == tx.cashiers
  {
    after := cur;
    WhereClientStands(tx, cur, client);
    var pending := PendingOfClient(tx, client);
    if pending == {} { return Ok(None), after; }
    var q :| q in pending;
    var done := CompletePendingIn(tx, q, now);
    if done.Err? { return Err(done.error), after; }
    after := CompleteKeeps(tx, cur, q, now, done.value.1);
    RetryAddsAtMostOne(tx, q, now, done.value.1);
    return Ok(Some((done.value.0, Outcome(q, done.value.1)))), after;
  }

  ghost predicate Retried(before: Db, after: Db, now: Instant, o: Outcome) {
    && IsPending(before, o.request)
    && ChoiceAllowed(before, before.requests[o.request].client, before.requests[o.request].excludedCashier, now, o.cashier)
    && after == CompletePending(before, o.request, now, o.cashier)
  }

  ghost predicate Moved(before: Db, after: Db, a: Id, now: Instant, o: Outcome) {
    && o.request == before.nextId
    && MayBegin(before, a, Batch(ADMINISTRATIVE, ENDED_ADMINISTRATIVE, now), o.cashier)
    && after == BeginOne(before, a, Batch(ADMINISTRATIVE, ENDED_ADMINISTRATIVE, now), o.cashier)
  }

  /** reassignAssignmentAdministrative, once the open assignment has been found. */
  method MoveIn(tx: Db, ghost cur: map<Id, Holder>, a: Id, now: Instant)
    returns (r: Result<(Db, Outcome), RangeError>, ghost after: map<Id, Holder>)
    requires Inv(tx, cur) && |tx.cashiers| < 0x1_0000_0000 && tx.clock <= now && IsOpen(tx, a)
    ensures r.Err? ==> |tx.assignments| > MAX_SAFE_INTEGER
    ensures r.Ok? ==> Moved(tx, r.value.0, a, now, r.value.1) && Inv(r.value.0, after) && r.value.0.cashiers == tx.cashiers
  {
    after := cur;
    var b := Batch(ADMINISTRATIVE, ENDED_ADMINISTRATIVE, now);
    var done := BeginReassignmentIn(tx, a, b);
    if done.Err? { return Err(done.error), after; }
    after := BeginKeeps(tx, cur, a, ADMINISTRATIVE, ENDED_ADMINISTRATIVE, now, done.value.1);
    BeginFrame(tx, a, b, done.value.1);
    return Ok((done.value.0, Outcome(tx.nextId, done.value.1))), after;
  }

  method ReassignClientIn(tx: Db, ghost cur: map<Id, Holder>, client: Id, now: Instant)
    returns (r: Result<(Db, Outcome), ServiceError>, ghost after: map<Id, Holder>)
    requires Inv(tx, cur) && |tx.cashiers| < 0x1_0000_0000 && tx.clock <= now && ClientIsActive(tx, client)
    ensures r.Err? ==> r.error == CONFLICT || (r.error.COUNT? && |tx.assignments| > MAX_SAFE_INTEGER)
    ensures r == Err(CONFLICT) <==> UnderReview(tx.blocks, client)
    ensures r.Ok? ==>
              && Reassigned(tx, r.value.0, client, now, r.value.1)
              && Inv(r.value.0, after) && r.value.0.cashiers == tx.cashiers
  {
    WhereClientStands(tx, cur, client);
    var retried, kept := RetryClientIn(tx, cur, client, now);
    after := kept;
    if retried.Err? { return Err(COUNT(retried.error)), after; }
    if retried.value.Some? { return Ok(retried.value.value), after; }
    var open := OpenOfClient(tx, client);
    if open == {} { return Err(CONFLICT), after; }
    var a :| a in open;
    var moved, kept' := MoveIn(tx, cur, a, now);
    if moved.Err? { return Err(COUNT(moved.error)), after; }
    return Ok(moved.value), kept';
  }

  /** The client's pending request was retried, or its open assignment ended and a new request tried. */
  ghost predicate Reassigned(before: Db, after: Db, client: Id, now: Instant, o: Outcome) {
    if PendingOfClient(before, client) != {}
    then PendingOfClient(before, client) == {o.request} && Retried(before, after, now, o)
    else OpenOfClient(before, client) != {}
         && forall a | a in OpenOfClient(before, client) :: Moved(before, after, a, now, o)
  }

  lemma {:induction false} RetriesKeepCashiers(db: Db, rows: seq<Id>, now: Instant, choices: seq<Option<Id>>)
    requires RetriesAllowed(db, rows, now, choices)
    ensures RunRetries(db, rows, now, choices).cashiers == db.cashiers
    ensures RunRetries(db, rows, now, choices).clients == db.clients
    decreases |rows|
  {
    if rows != [] {
      RetriesKeepCashiers(CompletePending(db, rows[0], now, choices[0]), rows[1..], now, choices[1..]);
    }
  }

  method ServeTurn(start: Db, s: Id, limit: nat, selectedAt: Instant, now: Instant, completedAt: Instant)
    returns (r: Result<(Db, Turn), RangeError>)
    requires start.clock <= selectedAt <= now <= completedAt && Next(start, s, selectedAt)
    requires |start.cashiers| < 0x1_0000_0000 && AssignmentsDated(start.assignments, start.nextId, start.clock)
    requires ConversationsMatch(start.assignments, start.conversations)
    ensures r.Ok? ==>
              var (after, turn) := r.value;
              && turn == Turn(s, turn.rows, turn.choices, selectedAt, now, completedAt)
              && TurnAllowed(start, limit, turn) && after == AfterTurn(start, limit, turn)
              && after.cashiers == start.cashiers
    ensures r.Err? ==> |start.assignments| + limit > MAX_SAFE_INTEGER
  {
    var cashier := start.subscriptions[s].cashier;
    var rows := OrderBy(Starts(start, cashier), limit);
    FirstOpenRows(start, cashier, limit, rows);
    var each := BeginEach(start, rows, ExpiryBatch(now));
    if each.Err? { return Err(each.error); }
    BatchFrame(start, rows, ExpiryBatch(now), each.value.1);
    BatchKeepsCashiers(start, rows, ExpiryBatch(now), each.value.1);
    var tx := each.value.0;
    var remaining := Load(tx, cashier);
    var row := tx.subscriptions[s];
    if remaining == 0 {
      row := row.(status := EXPIRED, updatedAt := completedAt);
    } else {
      row := row.(updatedAt := completedAt);
    }
    tx := tx.(subscriptions := tx.subscriptions[s := row], clock := completedAt);
    return Ok((tx, Turn(s, rows, each.value.1, selectedAt, now, completedAt)));
  }

  lemma {:induction false} BatchKeepsCashiers(db: Db, rows: seq<Id>, b: Batch, choices: seq<Option<Id>>)
    requires BatchAllowed(db, rows, b, choices)
    ensures RunBatch(db, rows, b, choices).cashiers == db.cashiers
    ensures RunBatch(db, rows, b, choices).clients == db.clients
    decreases |rows|
  {
    if rows != [] {
      BeginFrame(db, rows[0], b, choices[0]);
      BatchKeepsCashiers(BeginOne(db, rows[0], b, choices[0]), rows[1..], b, choices[1..]);
    }
  }
}
