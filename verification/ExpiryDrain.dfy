/**
 Draining the clients of lapsed subscriptions in bounded turns, served round-robin.
 Sources: apps/api/src/assignments/assignments.service.ts (reconcileNextExpiredSubscription),
 apps/api/src/assignments/subscription-expiry.worker.ts.
*/
module ExpiryDrain {
  import opened Arithmetic
  import opened Wrappers
  import opened AssignmentTables
  import opened AssignmentInvariants
  import opened AssignmentRuns
  import opened AssignmentBatches
  import CashierSelection

  // ---------------------------------------------------------------- one turn

  function Waiting(db: Db, at: Instant): set<Id> {
    set s | s in db.subscriptions && Lapsed(db.subscriptions[s], at)
  }

  /** ORDER BY updated_at, ends_at, id; the update instant is the cursor of the round-robin. */
  predicate Before(rows: map<Id, Subscription>, s: Id, t: Id)
    requires s in rows && t in rows && rows[s].endsAt.Some? && rows[t].endsAt.Some?
  {
    rows[s].updatedAt < rows[t].updatedAt
    || (rows[s].updatedAt == rows[t].updatedAt
        && (rows[s].endsAt.value < rows[t].endsAt.value
            || (rows[s].endsAt.value == rows[t].endsAt.value && s < t)))
  }

  predicate Next(db: Db, s: Id, at: Instant) {
    s in Waiting(db, at) && forall t | t in Waiting(db, at) && t != s :: Before(db.subscriptions, s, t)
  }

  /** The subscription served next has lapsed, and no other lapsed one has an older stamp, or at the same stamp
      an earlier end, or at the same end a smaller id. */
  lemma NextIsOldest(db: Db, s: Id, at: Instant)
    requires Next(db, s, at)
    ensures s in db.subscriptions && db.subscriptions[s].status == SUBSCRIBED
    ensures db.subscriptions[s].endsAt.Some? && db.subscriptions[s].endsAt.value <= at
    ensures forall o | o in db.subscriptions && o != s && db.subscriptions[o].status == SUBSCRIBED
                       && db.subscriptions[o].endsAt.Some? && db.subscriptions[o].endsAt.value <= at ::
              var (x, y) := (db.subscriptions[s], db.subscriptions[o]);
              x.updatedAt < y.updatedAt
              || (x.updatedAt == y.updatedAt
                  && (x.endsAt.value < y.endsAt.value || (x.endsAt.value == y.endsAt.value && s < o)))
  {
    forall o | o in db.subscriptions && o != s && Lapsed(db.subscriptions[o], at) ensures Before(db.subscriptions, s, o) {
      assert o in Waiting(db, at);
    }
  }

  predicate Earlier(keys: map<Id, Instant>, a: Id, c: Id)
    requires a in keys && c in keys
  {
    keys[a] < keys[c] || (keys[a] == keys[c] && a < c)
  }

  /** ORDER BY key, id LIMIT limit. */
  predicate FirstBy(keys: map<Id, Instant>, limit: nat, rows: seq<Id>) {
    && |rows| == Min(limit, |keys|)
    && (forall k | 0 <= k < |rows| :: rows[k] in keys)
    && (forall i, j | 0 <= i < j < |rows| :: Earlier(keys, rows[i], rows[j]))
    && forall a, k | a in keys && a !in rows && 0 <= k < |rows| :: Earlier(keys, rows[k], a)
  }

  /** The rows are in ascending order of key and id, there are as many as the limit and the table allow, and
      nothing that was left out comes before any of them. */
  lemma FirstRows(keys: map<Id, Instant>, limit: nat, rows: seq<Id>)
    requires FirstBy(keys, limit, rows)
    ensures |rows| == if limit < |keys| then limit else |keys|
    ensures forall k | 0 <= k < |rows| :: rows[k] in keys
    ensures forall i, j | 0 <= i < j < |rows| ::
              keys[rows[i]] < keys[rows[j]] || (keys[rows[i]] == keys[rows[j]] && rows[i] < rows[j])
    ensures forall a, k | a in keys && a !in rows && 0 <= k < |rows| ::
              keys[rows[k]] < keys[a] || (keys[rows[k]] == keys[a] && rows[k] < a)
  {
  }

  function Starts(db: Db, cashier: Id): map<Id, Instant> {
    map a | a in OpenOfCashier(db, cashier) :: db.assignments[a].startedAt
  }

  /** The first `limit` open assignments of a cashier by start and id. */
  predicate FirstOpen(db: Db, cashier: Id, limit: nat, rows: seq<Id>) {
    FirstBy(Starts(db, cashier), limit, rows)
  }

  lemma FirstOpenRows(db: Db, cashier: Id, limit: nat, rows: seq<Id>)
    requires FirstOpen(db, cashier, limit, rows)
    ensures |rows| == Min(limit, Load(db, cashier)) && AllOf(db, rows, cashier) && Distinct(rows)
    ensures forall k | 0 <= k < |rows| :: IsOpen(db, rows[k])
  {
    assert Starts(db, cashier).Keys == OpenOfCashier(db, cashier);
    assert forall i, j | 0 <= i < j < |rows| :: Earlier(Starts(db, cashier), rows[i], rows[j]);
  }

  /** One transaction: which subscription it serves and what its three clock readings and choices are. */
  datatype Turn = Turn(
    s: Id,
    rows: seq<Id>,
    choices: seq<Option<Id>>,
    selectedAt: Instant,
    now: Instant,
    completedAt: Instant)

  function ExpiryBatch(now: Instant): Batch { Batch(CASHIER_UNAVAILABLE, ENDED_CASHIER_UNAVAILABLE, now) }

  predicate TurnAllowed(db: Db, limit: nat, t: Turn) {
    && db.clock <= t.selectedAt <= t.now <= t.completedAt
    && Next(db, t.s, t.selectedAt)
    && FirstOpen(db, db.subscriptions[t.s].cashier, limit, t.rows)
    && BatchAllowed(db, t.rows, ExpiryBatch(t.now), t.choices)
  }

  function AfterBatch(db: Db, limit: nat, t: Turn): Db
    requires TurnAllowed(db, limit, t)
  {
    RunBatch(db, t.rows, ExpiryBatch(t.now), t.choices)
  }

  /** The last statement of the turn: expire the subscription, or send it to the back. */
  function Settle(db: Db, s: Id, completedAt: Instant): Db
    requires s in db.subscriptions
  {
    var row := db.subscriptions[s];
    SetSubscription(db, s, if Load(db, row.cashier) == 0 then row.(status := EXPIRED, updatedAt := completedAt)
                           else row.(updatedAt := completedAt)).(clock := completedAt)
  }

  function AfterTurn(db: Db, limit: nat, t: Turn): Db
    requires TurnAllowed(db, limit, t)
  {
    BatchFrame(db, t.rows, ExpiryBatch(t.now), t.choices);
    Settle(AfterBatch(db, limit, t), t.s, t.completedAt)
  }

  lemma {:induction false} BatchFrame(db: Db, rows: seq<Id>, b: Batch, choices: seq<Option<Id>>)
    requires BatchAllowed(db, rows, b, choices)
    ensures RunBatch(db, rows, b, choices).subscriptions == db.subscriptions
    ensures RunBatch(db, rows, b, choices).clock == if rows == [] then db.clock else b.now
    decreases |rows|
  {
    if rows != [] {
      BeginFrame(db, rows[0], b, choices[0]);
      BatchFrame(BeginOne(db, rows[0], b, choices[0]), rows[1..], b, choices[1..]);
    }
  }

  ghost predicate AllOf(db: Db, rows: seq<Id>, cashier: Id) {
    forall k | 0 <= k < |rows| :: rows[k] in db.assignments && db.assignments[rows[k]].cashier == cashier
  }

  lemma AllOfKept(db: Db, rows: seq<Id>, b: Batch, choice: Option<Id>, cashier: Id)
    requires rows != [] && AllOf(db, rows, cashier) && rows[0] in db.conversations
    requires AssignmentsDated(db.assignments, db.nextId, db.clock)
    ensures AllOf(BeginOne(db, rows[0], b, choice), rows[1..], cashier)
  {
    forall k | 0 <= k < |rows[1..]|
      ensures var d := BeginOne(db, rows[0], b, choice);
              rows[1..][k] in d.assignments && d.assignments[rows[1..][k]].cashier == cashier
    {
      BeginKeepsRow(db, rows[0], b, choice, rows[k + 1]);
    }
  }

  /** The cashier that is being left, and any cashier without a subscription in force, is never chosen. */
  lemma NotChosen(db: Db, a: Id, b: Batch, choice: Option<Id>, cashier: Id)
    requires MayBegin(db, a, b, choice) && ClientIsActive(db, db.assignments[a].client)
    requires db.assignments[a].cashier == cashier || !HasCurrentSubscription(db, cashier, b.now)
    ensures choice != Some(cashier)
  {
    var posted := OpenRequest(db, a, b.reason, b.endReason, b.now);
    CandidatesFrame(db, posted, db.assignments[a].client, db.assignments[a].cashier, b.now);
    assert !Eligible(db, db.assignments[a].client, db.assignments[a].cashier, cashier, b.now);
  }

  lemma {:induction false} BatchEmpties(db: Db, rows: seq<Id>, b: Batch, choices: seq<Option<Id>>, leaving: Id)
    requires BatchAllowed(db, rows, b, choices) && AllOf(db, rows, leaving) && db.clock <= b.now
    requires AssignmentsDated(db.assignments, db.nextId, db.clock)
    ensures Load(RunBatch(db, rows, b, choices), leaving) == Load(db, leaving) - |rows|
    decreases |rows|
  {
    if rows != [] {
      var d := BeginOne(db, rows[0], b, choices[0]);
      BeginMoves(db, rows[0], b, choices[0], leaving);
      if ClientIsActive(db, db.assignments[rows[0]].client) { NotChosen(db, rows[0], b, choices[0], leaving); }
      assert OpenOfCashier(d, leaving) == OpenOfCashier(db, leaving) - {rows[0]};
      BeginKeepsDated(db, rows[0], b, choices[0]);
      AllOfKept(db, rows, b, choices[0], leaving);
      BatchEmpties(d, rows[1..], b, choices[1..], leaving);
    }
  }

  lemma {:induction false} BatchSpares(db: Db, rows: seq<Id>, b: Batch, choices: seq<Option<Id>>,
                                       leaving: Id, other: Id)
    requires BatchAllowed(db, rows, b, choices) && AllOf(db, rows, leaving) && db.clock <= b.now
    requires AssignmentsDated(db.assignments, db.nextId, db.clock)
    requires other != leaving && !HasCurrentSubscription(db, other, b.now)
    ensures Load(RunBatch(db, rows, b, choices), other) == Load(db, other)
    decreases |rows|
  {
    if rows != [] {
      var d := BeginOne(db, rows[0], b, choices[0]);
      BeginMoves(db, rows[0], b, choices[0], other);
      if ClientIsActive(db, db.assignments[rows[0]].client) { NotChosen(db, rows[0], b, choices[0], other); }
      assert OpenOfCashier(d, other) == OpenOfCashier(db, other);
      BeginKeepsDated(db, rows[0], b, choices[0]);
      BeginFrame(db, rows[0], b, choices[0]);
      AllOfKept(db, rows, b, choices[0], leaving);
      assert !HasCurrentSubscription(d, other, b.now);
      BatchSpares(d, rows[1..], b, choices[1..], leaving, other);
    }
  }

  /** A lapsed subscription is its cashier's only active one, so its cashier takes no client. */
  lemma LapsedHasNoneInForce(db: Db, s: Id, now: Instant)
    requires SubscriptionsSound(db.subscriptions) && s in Waiting(db, now)
    ensures !HasCurrentSubscription(db, db.subscriptions[s].cashier, now)
    ensures forall t | t in Waiting(db, now) && t != s :: db.subscriptions[t].cashier != db.subscriptions[s].cashier
  {
  }

  /** What one turn does: at most `limit` clients leave the served cashier, it expires exactly when none is
      left, and every other lapsed subscription keeps its row and its cashier's clients. */
  lemma TurnEffect(db: Db, limit: nat, t: Turn)
    requires RowsInThePast(db) && SubscriptionsSound(db.subscriptions) && TurnAllowed(db, limit, t)
    ensures var d, row := AfterTurn(db, limit, t), db.subscriptions[t.s];
            var n := Load(db, row.cashier);
            && d.subscriptions == db.subscriptions[t.s := row.(status := if n <= limit then EXPIRED else SUBSCRIBED,
                                                               updatedAt := t.completedAt)]
            && Load(d, row.cashier) == (if n <= limit then 0 else n - limit)
            && d.clock == t.completedAt
  {
    var row := db.subscriptions[t.s];
    FirstOpenRows(db, row.cashier, limit, t.rows);
    BatchFrame(db, t.rows, ExpiryBatch(t.now), t.choices);
    BatchEmpties(db, t.rows, ExpiryBatch(t.now), t.choices, row.cashier);
    SettleKeepsLoad(AfterBatch(db, limit, t), t.s, t.completedAt, row.cashier);
  }

  lemma SettleKeepsLoad(db: Db, s: Id, completedAt: Instant, cashier: Id)
    requires s in db.subscriptions
    ensures Load(Settle(db, s, completedAt), cashier) == Load(db, cashier)
  {
    assert OpenOfCashier(Settle(db, s, completedAt), cashier) == OpenOfCashier(db, cashier);
  }

  lemma TurnSparesOthers(db: Db, limit: nat, t: Turn, other: Id)
    requires RowsInThePast(db) && SubscriptionsSound(db.subscriptions) && TurnAllowed(db, limit, t)
    requires other in Waiting(db, t.now) && other != t.s
    ensures var d := AfterTurn(db, limit, t);
            other in d.subscriptions && d.subscriptions[other] == db.subscriptions[other]
    ensures Load(AfterTurn(db, limit, t), db.subscriptions[other].cashier) == Load(db, db.subscriptions[other].cashier)
  {
    var c := db.subscriptions[other].cashier;
    BatchFrame(db, t.rows, ExpiryBatch(t.now), t.choices);
    LapsedHasNoneInForce(db, other, t.now);
    assert t.s in Waiting(db, t.now);
    FirstOpenRows(db, db.subscriptions[t.s].cashier, limit, t.rows);
    BatchSpares(db, t.rows, ExpiryBatch(t.now), t.choices, db.subscriptions[t.s].cashier, c);
    SettleKeepsLoad(AfterBatch(db, limit, t), t.s, t.completedAt, c);
  }

  /** Every assignment that a turn makes passes the eligibility query at the turn's instant: expiring or
      rotating the served subscription concerns only the cashier that was left. */
  lemma TurnMakesEligible(db: Db, limit: nat, t: Turn, a: Id)
    requires RowsInThePast(db) && SubscriptionsSound(db.subscriptions) && TurnAllowed(db, limit, t)
    requires a !in db.assignments && a in AfterTurn(db, limit, t).assignments
    ensures |EligibilityRows(AfterTurn(db, limit, t), a, t.now)| == 1
  {
    BatchFrame(db, t.rows, ExpiryBatch(t.now), t.choices);
    FirstOpenRows(db, db.subscriptions[t.s].cashier, limit, t.rows);
    BatchLeavesNewOpen(db, t.rows, ExpiryBatch(t.now), t.choices, a);
    BatchMakesEligible(db, t.rows, ExpiryBatch(t.now), t.choices, a);
    SettleKeepsEligible(AfterBatch(db, limit, t), t.s, t.now, t.completedAt, a);
  }

  lemma SettleKeepsEligible(db: Db, s: Id, now: Instant, completedAt: Instant, a: Id)
    requires s in Waiting(db, now)
    ensures EligibilityRows(Settle(db, s, completedAt), a, now) == EligibilityRows(db, a, now)
  {
    var d := Settle(db, s, completedAt);
    assert s !in EligibilityRows(d, a, now) && s !in EligibilityRows(db, a, now);
    assert forall t | t in db.subscriptions && t != s :: d.subscriptions[t] == db.subscriptions[t];
    assert EligibilityRows(d, a, now) == EligibilityRows(db, a, now);
  }

  lemma TurnKeeps(db: Db, cur: map<Id, Holder>, limit: nat, t: Turn) returns (after: map<Id, Holder>)
    requires Inv(db, cur) && TurnAllowed(db, limit, t)
    ensures Inv(AfterTurn(db, limit, t), after)
  {
    after := BatchKeeps(db, cur, t.rows, ExpiryBatch(t.now), t.choices);
    BatchFrame(db, t.rows, ExpiryBatch(t.now), t.choices);
    after := SettleKeeps(AfterBatch(db, limit, t), after, t.s, t.completedAt);
  }

  lemma SettleKeeps(db: Db, cur: map<Id, Holder>, s: Id, completedAt: Instant) returns (after: map<Id, Holder>)
    requires Inv(db, cur) && db.clock <= completedAt && s in Waiting(db, completedAt)
    ensures Inv(Settle(db, s, completedAt), after)
  {
    after := StepKeeps(db, cur, if Load(db, db.subscriptions[s].cashier) == 0
                                then Expire(s, completedAt) else Rotate(s, completedAt));
  }

  // ---------------------------------------------------------------- whole drains

  /** The turns a lapsed subscription still needs: max(1, ceil(n / limit)). */
  function TurnsLeft(db: Db, s: Id, limit: nat, at: Instant): nat
    requires limit > 0
  {
    if s in Waiting(db, at)
    then Max(1, CashierSelection.CeilDiv(Load(db, db.subscriptions[s].cashier), limit))
    else 0
  }

  /** One element for each turn that is still needed. */
  function TurnsOwed(db: Db, limit: nat, at: Instant): set<(Id, nat)>
    requires limit > 0
  {
    set s, k | s in Waiting(db, at) && 0 <= k < TurnsLeft(db, s, limit, at) :: (s, k)
  }

  /** No bounded subscription ends between the two instants: nothing new lapses. */
  ghost predicate Quiet(rows: map<Id, Subscription>, since: Instant, until: Instant) {
    forall s | s in rows && rows[s].status == SUBSCRIBED && rows[s].endsAt.Some? ::
      rows[s].endsAt.value <= since || until < rows[s].endsAt.value
  }

  ghost predicate TakesTurn(db: Db, d: Db, limit: nat, t: Turn, until: Instant) {
    TurnAllowed(db, limit, t) && t.completedAt <= until && d == AfterTurn(db, limit, t)
  }

  ghost predicate Ready(db: Db, limit: nat, since: Instant, until: Instant) {
    && 0 < limit && RowsInThePast(db) && SubscriptionsSound(db.subscriptions)
    && since <= db.clock && Quiet(db.subscriptions, since, until)
  }

  /** A serial drain: nothing but turns, over a stretch in which nothing new lapses. */
  ghost predicate Drain(states: seq<Db>, turns: seq<Turn>, limit: nat, since: Instant, until: Instant) {
    && limit > 0 && |states| == |turns| + 1
    && (exists cur :: Inv(states[0], cur))
    && since <= states[0].clock && Quiet(states[0].subscriptions, since, until)
    && forall i | 0 <= i < |turns| :: TakesTurn(states[i], states[i + 1], limit, turns[i], until)
  }

  lemma QuietKeepsWaiting(db: Db, since: Instant, until: Instant, at: Instant)
    requires Quiet(db.subscriptions, since, until) && since <= at <= until
    ensures Waiting(db, at) == Waiting(db, since)
  {
  }

  lemma FewerLeft(n: nat, limit: nat)
    requires 0 < limit < n
    ensures CashierSelection.CeilDiv(n, limit) == CashierSelection.CeilDiv(n - limit, limit) + 1
    ensures CashierSelection.CeilDiv(n - limit, limit) >= 1
  {
    var q := CashierSelection.CeilDiv(n - limit, limit);
    CashierSelection.CeilDivLeast(n - limit, limit, q);
    CashierSelection.CeilDivLeast(n - limit, limit, 0);
    assert limit * (q + 1) == limit * q + limit;
    CashierSelection.CeilDivLeast(n, limit, q + 1);
    if CashierSelection.CeilDiv(n, limit) <= q {
      CashierSelection.CeilDivLeast(n, limit, q);
      assert limit * (q - 1) == limit * q - limit;
      CashierSelection.CeilDivLeast(n - limit, limit, q - 1);
      assert false;
    }
  }

  lemma LastLeft(n: nat, limit: nat)
    requires 0 < limit && n <= limit
    ensures Max(1, CashierSelection.CeilDiv(n, limit)) == 1
  {
    CashierSelection.CeilDivLeast(n, limit, 1);
  }

  /** One turn is one turn less for the subscription served, and no change for any other. */
  lemma TurnPays(db: Db, d: Db, limit: nat, t: Turn, since: Instant, until: Instant)
    requires Ready(db, limit, since, until) && TakesTurn(db, d, limit, t, until)
    ensures t.s in Waiting(db, since) && Quiet(d.subscriptions, since, until)
    ensures t.s in Waiting(d, since) <==> Load(db, db.subscriptions[t.s].cashier) > limit
    ensures TurnsLeft(d, t.s, limit, since) == TurnsLeft(db, t.s, limit, since) - 1
    ensures Waiting(d, since) <= Waiting(db, since) <= Waiting(d, since) + {t.s}
  {
    TurnEffect(db, limit, t);
    QuietKeepsWaiting(db, since, until, t.selectedAt);
    var n := Load(db, db.subscriptions[t.s].cashier);
    if n <= limit { LastLeft(n, limit); } else { FewerLeft(n, limit); }
  }

  lemma TurnPaysOnlyOne(db: Db, d: Db, limit: nat, t: Turn, since: Instant, until: Instant, other: Id)
    requires Ready(db, limit, since, until) && TakesTurn(db, d, limit, t, until)
    requires other != t.s
    ensures TurnsLeft(d, other, limit, since) == TurnsLeft(db, other, limit, since)
  {
    TurnPays(db, d, limit, t, since, until);
    if other in Waiting(db, since) {
      QuietKeepsWaiting(db, since, until, t.now);
      TurnSparesOthers(db, limit, t, other);
    }
  }

  lemma TurnPaysServed(db: Db, d: Db, limit: nat, t: Turn, since: Instant, until: Instant, s: Id)
    requires Ready(db, limit, since, until) && TakesTurn(db, d, limit, t, until)
    ensures TurnsLeft(d, s, limit, since)
            == TurnsLeft(db, s, limit, since) - (if t.s == s then 1 else 0)
  {
    if t.s == s { TurnPays(db, d, limit, t, since, until); } else { TurnPaysOnlyOne(db, d, limit, t, since, until, s); }
  }

  lemma TurnShrinksTotal(db: Db, d: Db, limit: nat, t: Turn, since: Instant, until: Instant)
    requires Ready(db, limit, since, until) && TakesTurn(db, d, limit, t, until)
    ensures |TurnsOwed(d, limit, since)| == |TurnsOwed(db, limit, since)| - 1
  {
    TurnPays(db, d, limit, t, since, until);
    forall o | o != t.s
      ensures TurnsLeft(d, o, limit, since) == TurnsLeft(db, o, limit, since)
    {
      TurnPaysOnlyOne(db, d, limit, t, since, until, o);
    }
    OwedShrinks(db, d, t.s, limit, since);
  }

  lemma OwedShrinks(db: Db, d: Db, s: Id, limit: nat, at: Instant)
    requires 0 < limit && TurnsLeft(d, s, limit, at) == TurnsLeft(db, s, limit, at) - 1
    requires forall o | o != s :: TurnsLeft(d, o, limit, at) == TurnsLeft(db, o, limit, at)
    ensures |TurnsOwed(d, limit, at)| == |TurnsOwed(db, limit, at)| - 1
  {
    forall o: Id, k: nat ensures (o, k) in TurnsOwed(d, limit, at) <==> k < TurnsLeft(d, o, limit, at) {}
    forall o: Id, k: nat ensures (o, k) in TurnsOwed(db, limit, at) <==> k < TurnsLeft(db, o, limit, at) {}
    assert TurnsOwed(d, limit, at) == TurnsOwed(db, limit, at) - {(s, TurnsLeft(d, s, limit, at))};
  }

  // ---------------------------------------------------------------- theorems over a drain

  lemma DrainStep(db: Db, d: Db, cur: map<Id, Holder>, limit: nat, t: Turn, since: Instant, until: Instant)
    returns (after: map<Id, Holder>)
    requires 0 < limit && Inv(db, cur) && TakesTurn(db, d, limit, t, until)
    requires since <= db.clock && Quiet(db.subscriptions, since, until)
    ensures Inv(d, after) && since <= d.clock && Quiet(d.subscriptions, since, until)
  {
    TurnPays(db, d, limit, t, since, until);
    TurnEffect(db, limit, t);
    after := TurnKeeps(db, cur, limit, t);
  }

  lemma {:induction false} DrainKeeps(states: seq<Db>, turns: seq<Turn>, limit: nat, since: Instant, until: Instant, i: nat)
    returns (cur: map<Id, Holder>)
    requires Drain(states, turns, limit, since, until) && i < |states|
    ensures Inv(states[i], cur) && since <= states[i].clock && Quiet(states[i].subscriptions, since, until)
  {
    if i == 0 {
      cur :| Inv(states[0], cur);
    } else {
      var before := DrainKeeps(states, turns, limit, since, until, i - 1);
      assert TakesTurn(states[i - 1], states[i - 1 + 1], limit, turns[i - 1], until);
      cur := DrainStep(states[i - 1], states[i], before, limit, turns[i - 1], since, until);
    }
  }

  lemma DrainFacts(states: seq<Db>, turns: seq<Turn>, limit: nat, since: Instant, until: Instant, i: nat)
    requires Drain(states, turns, limit, since, until) && i < |states|
    ensures Ready(states[i], limit, since, until)
    ensures i < |turns| ==> TakesTurn(states[i], states[i + 1], limit, turns[i], until)
  {
    var cur := DrainKeeps(states, turns, limit, since, until, i);
  }

  /** The turns among the first `i` that served `s`. */
  function Served(turns: seq<Turn>, i: nat, s: Id): nat
    requires i <= |turns|
  {
    if i == 0 then 0 else Served(turns, i - 1, s) + (if turns[i - 1].s == s then 1 else 0)
  }

  lemma OneTurnPaid(states: seq<Db>, turns: seq<Turn>, limit: nat, since: Instant, until: Instant, i: nat, s: Id)
    requires Drain(states, turns, limit, since, until) && i < |turns|
    ensures TurnsLeft(states[i + 1], s, limit, since)
            == TurnsLeft(states[i], s, limit, since) - (if turns[i].s == s then 1 else 0)
  {
    DrainFacts(states, turns, limit, since, until, i);
    TurnPaysServed(states[i], states[i + 1], limit, turns[i], since, until, s);
  }

  lemma {:induction false} TurnsArePaid(states: seq<Db>, turns: seq<Turn>, limit: nat, since: Instant, until: Instant,
                                        i: nat, s: Id)
    requires Drain(states, turns, limit, since, until) && i < |states|
    ensures Served(turns, i, s) + TurnsLeft(states[i], s, limit, since) == TurnsLeft(states[0], s, limit, since)
  {
    if i > 0 {
      TurnsArePaid(states, turns, limit, since, until, i - 1, s);
      OneTurnPaid(states, turns, limit, since, until, i - 1, s);
    }
  }

  lemma WaitsWhileTurnsAreLeft(db: Db, s: Id, limit: nat, at: Instant)
    requires limit > 0
    ensures s in Waiting(db, at) <==> TurnsLeft(db, s, limit, at) > 0
  {
  }

  /** A lapsed cashier with n open clients expires after exactly max(1, ceil(n / limit)) of its own turns:
      before that it is still waiting, and from then on it is not. */
  lemma OwnTurns(states: seq<Db>, turns: seq<Turn>, limit: nat, since: Instant, until: Instant, i: nat, s: Id)
    requires Drain(states, turns, limit, since, until) && i < |states|
    ensures s in Waiting(states[i], since) <==> Served(turns, i, s) < TurnsLeft(states[0], s, limit, since)
  {
    TurnsArePaid(states, turns, limit, since, until, i, s);
    WaitsWhileTurnsAreLeft(states[i], s, limit, since);
  }

  lemma OneTurnFewer(states: seq<Db>, turns: seq<Turn>, limit: nat, since: Instant, until: Instant, i: nat)
    requires Drain(states, turns, limit, since, until) && i < |turns|
    ensures |TurnsOwed(states[i + 1], limit, since)| == |TurnsOwed(states[i], limit, since)| - 1
  {
    DrainFacts(states, turns, limit, since, until, i);
    TurnShrinksTotal(states[i], states[i + 1], limit, turns[i], since, until);
  }

  /** A drain of i turns leaves i turns fewer to do. */
  lemma {:induction false} TotalTurns(states: seq<Db>, turns: seq<Turn>, limit: nat, since: Instant, until: Instant, i: nat)
    requires Drain(states, turns, limit, since, until) && i < |states|
    ensures |TurnsOwed(states[i], limit, since)| + i == |TurnsOwed(states[0], limit, since)|
  {
    if i > 0 {
      TotalTurns(states, turns, limit, since, until, i - 1);
      OneTurnFewer(states, turns, limit, since, until, i - 1);
    }
  }

  /** Nothing waits any more after exactly the total, and not before. */
  lemma DrainEnds(states: seq<Db>, turns: seq<Turn>, limit: nat, since: Instant, until: Instant, i: nat)
    requires Drain(states, turns, limit, since, until) && i < |states|
    ensures i == |TurnsOwed(states[0], limit, since)| <==> Waiting(states[i], since) == {}
  {
    TotalTurns(states, turns, limit, since, until, i);
    NothingOwed(states[i], limit, since);
  }

  lemma NothingOwed(db: Db, limit: nat, at: Instant)
    requires limit > 0
    ensures |TurnsOwed(db, limit, at)| == 0 <==> Waiting(db, at) == {}
  {
    if s :| s in Waiting(db, at) {
      assert (s, 0) in TurnsOwed(db, limit, at);
    }
  }

  /** At the moment a subscription expires its cashier has no open client. */
  lemma ExpiresEmpty(states: seq<Db>, turns: seq<Turn>, limit: nat, since: Instant, until: Instant, i: nat)
    requires Drain(states, turns, limit, since, until) && i < |turns|
    ensures var s := turns[i].s;
            && s in states[i + 1].subscriptions
            && (states[i + 1].subscriptions[s].status == EXPIRED
                <==> OpenOfCashier(states[i + 1], states[i + 1].subscriptions[s].cashier) == {})
  {
    DrainFacts(states, turns, limit, since, until, i);
    TurnEffect(states[i], limit, turns[i]);
  }

  // ---------------------------------------------------------------- the round-robin

  /** The waiting subscriptions that are served before `s`. */
  function Ahead(db: Db, s: Id, at: Instant): set<Id>
    requires s in Waiting(db, at)
  {
    set t | t in Waiting(db, at) && t != s && Before(db.subscriptions, t, s)
  }

  /** The stored stamp of `o` is older than the completion of a turn, or ties with it and loses the tie. */
  predicate StampPassed(rows: map<Id, Subscription>, o: Id, s: Id, completedAt: Instant)
    requires o in rows && s in rows && rows[o].endsAt.Some? && rows[s].endsAt.Some?
  {
    rows[o].updatedAt < completedAt
    || (rows[o].updatedAt == completedAt
        && (rows[o].endsAt.value < rows[s].endsAt.value || (rows[o].endsAt.value == rows[s].endsAt.value && o < s)))
  }

  /** The turn takes the served subscription out of the way of `s`: either it expires, or it goes behind `s`. */
  predicate LetsBy(db: Db, limit: nat, t: Turn, s: Id, at: Instant) {
    s in Waiting(db, at) && t.s in Waiting(db, at) && Load(db, db.subscriptions[t.s].cashier) > limit ==>
      StampPassed(db.subscriptions, s, t.s, t.completedAt)
  }

  /** A turn serves the subscription that nobody is ahead of. Each other one moves up by one if the turn lets
      it by, and keeps its place otherwise. */
  lemma TurnMovesUp(db: Db, d: Db, limit: nat, t: Turn, since: Instant, until: Instant, s: Id)
    requires Ready(db, limit, since, until) && TakesTurn(db, d, limit, t, until) && s in Waiting(db, since)
    ensures t.s == s <==> |Ahead(db, s, since)| == 0
    ensures t.s != s ==>
              && s in Waiting(d, since)
              && |Ahead(d, s, since)| == |Ahead(db, s, since)| - (if LetsBy(db, limit, t, s, since) then 1 else 0)
  {
    TurnEffect(db, limit, t);
    TurnPays(db, d, limit, t, since, until);
    QuietKeepsWaiting(db, since, until, t.selectedAt);
    if t.s == s {
      assert Ahead(db, s, since) == {};
    } else {
      QueueMovesUp(db, d, t.s, s, since);
    }
  }

  lemma QueueMovesUp(db: Db, d: Db, served: Id, s: Id, at: Instant)
    requires served in Waiting(db, at) && s in Waiting(db, at) && s != served && served in d.subscriptions
    requires d.subscriptions == db.subscriptions[served := d.subscriptions[served]]
    requires d.subscriptions[served].endsAt == db.subscriptions[served].endsAt
    requires Before(db.subscriptions, served, s)
    ensures s in Waiting(d, at) && |Ahead(db, s, at)| > 0
    ensures |Ahead(d, s, at)|
            == |Ahead(db, s, at)|
               - (if served in Waiting(d, at) ==> StampPassed(db.subscriptions, s, served, d.subscriptions[served].updatedAt)
                  then 1 else 0)
  {
    assert served in Ahead(db, s, at);
    forall o | o != served ensures o in Ahead(d, s, at) <==> o in Ahead(db, s, at) {}
    if served in Ahead(d, s, at) {
      assert Ahead(d, s, at) == Ahead(db, s, at);
    } else {
      assert Ahead(d, s, at) == Ahead(db, s, at) - {served};
    }
  }

  /** Round-robin, exactly: with k others ahead, a waiting subscription is served by none of the next k turns,
      and by the one after them if and only if each of them let it by. At most m - 1 are ahead when m wait, so
      m turns that let everyone by serve all m. */
  lemma {:induction false} RoundRobin(states: seq<Db>, turns: seq<Turn>, limit: nat, since: Instant, until: Instant,
                                      i: nat, j: nat, s: Id)
    requires Drain(states, turns, limit, since, until)
    requires i <= j < |turns| && s in Waiting(states[i], since) && j - i <= |Ahead(states[i], s, since)|
    ensures turns[j].s == s
            <==> j - i == |Ahead(states[i], s, since)|
                 && forall m | i <= m < j :: LetsBy(states[m], limit, turns[m], s, since)
    ensures |Ahead(states[i], s, since)| < |Waiting(states[i], since)|
    decreases j - i
  {
    DrainFacts(states, turns, limit, since, until, i);
    TurnMovesUp(states[i], states[i + 1], limit, turns[i], since, until, s);
    AheadIsFewer(states[i], s, since);
    if i < j {
      RoundRobin(states, turns, limit, since, until, i + 1, j, s);
    }
  }

  ghost predicate StampsBefore(rows: map<Id, Subscription>, at: Instant) {
    forall s | s in rows :: rows[s].updatedAt < at
  }

  /** A clock that has passed every stored stamp lets everyone by. */
  lemma AdvancingClockLetsBy(db: Db, limit: nat, t: Turn, s: Id, at: Instant)
    requires StampsBefore(db.subscriptions, t.completedAt)
    ensures LetsBy(db, limit, t, s, at)
  {
  }

  lemma AheadIsFewer(db: Db, s: Id, at: Instant)
    requires s in Waiting(db, at)
    ensures |Ahead(db, s, at)| < |Waiting(db, at)|
  {
    StrictlyFewer(Ahead(db, s, at), Waiting(db, at), s);
  }

  lemma StrictlyFewer<T>(a: set<T>, b: set<T>, x: T)
    requires a <= b && x in b && x !in a
    ensures |a| < |b|
  {
    assert b == a + (b - a) && x in b - a;
  }

  /** After its turn a subscription that still waits is last in the queue exactly when the turn passed the
      stamp of every other one that waits; a clock past all stamps does so. */
  lemma ServedGoesLast(db: Db, d: Db, limit: nat, t: Turn, since: Instant, until: Instant)
    requires Ready(db, limit, since, until) && TakesTurn(db, d, limit, t, until)
    requires Load(db, db.subscriptions[t.s].cashier) > limit
    ensures t.s in Waiting(d, since) && Waiting(d, since) == Waiting(db, since)
    ensures Ahead(d, t.s, since) == Waiting(d, since) - {t.s}
            <==> forall o | o in Waiting(db, since) && o != t.s :: StampPassed(db.subscriptions, o, t.s, t.completedAt)
    ensures StampsBefore(db.subscriptions, t.completedAt) ==> Ahead(d, t.s, since) == Waiting(d, since) - {t.s}
  {
    TurnEffect(db, limit, t);
    TurnPays(db, d, limit, t, since, until);
    assert Waiting(d, since) == Waiting(db, since);
    forall o | o in Waiting(db, since) && o != t.s
      ensures o in Ahead(d, t.s, since) <==> StampPassed(db.subscriptions, o, t.s, t.completedAt)
    {
      assert d.subscriptions[o] == db.subscriptions[o];
    }
  }

  /** Without a strictly advancing clock the order can stand still: a subscription whose update instant is
      already the completion instant keeps its place, and is the next one again. */
  lemma StalledClockRepeats(db: Db, d: Db, limit: nat, t: Turn, since: Instant, until: Instant)
    requires Ready(db, limit, since, until) && TakesTurn(db, d, limit, t, until)
    requires db.subscriptions[t.s].updatedAt == t.completedAt && Load(db, db.subscriptions[t.s].cashier) > limit
    ensures Next(d, t.s, t.completedAt)
  {
    TurnEffect(db, limit, t);
    QuietKeepsWaiting(db, since, until, t.completedAt);
    QuietKeepsWaiting(db, since, until, t.selectedAt);
    TurnPays(db, d, limit, t, since, until);
    QuietKeepsWaiting(d, since, until, t.completedAt);
  }

  // ---------------------------------------------------------------- a run whose clock stands still

  /** Cashiers 20 and 21, each with a subscription from 0 to 5. */
  const SUBSCRIBED_PAIR := Db(
    map[], map[20 := READY, 21 := READY],
    map[0 := Subscription(20, SUBSCRIBED, 0, Some(5), 0), 1 := Subscription(21, SUBSCRIBED, 0, Some(5), 0)],
    map[], map[], map[], map[], 2, 0)

  function Invited(client: Id, cashier: Id): Assignment { Assignment(client, cashier, None, INVITATION, 1, None) }

  const TALKING := Conversation(true, 1, None)

  /** Three clients of cashier 20 and two of cashier 21, invited at 1. */
  const FIVE_CLIENTS := SUBSCRIBED_PAIR.(
    clients := map[10 := ACTIVE, 11 := ACTIVE, 12 := ACTIVE, 13 := ACTIVE, 14 := ACTIVE],
    assignments := map[2 := Invited(10, 20), 3 := Invited(11, 20), 4 := Invited(12, 20),
                       5 := Invited(13, 21), 6 := Invited(14, 21)],
    conversations := map[2 := TALKING, 3 := TALKING, 4 := TALKING, 5 := TALKING, 6 := TALKING],
    nextId := 7, clock := 1)

  /** One turn moves the first client off the cashier of `s`, to nobody, and sends `s` to the back, all at 9. */
  function Moved(db: Db, s: Id, a: Id): Db
    requires s in db.subscriptions && a in db.assignments && a in db.conversations
  {
    var d := BeginOne(db, a, ExpiryBatch(9), None);
    SetSubscription(d, s, db.subscriptions[s].(updatedAt := 9)).(clock := 9)
  }

  lemma PairIsReachable()
    ensures Reachable(SUBSCRIBED_PAIR)
  {
    StartIsReachable();
    NextIsReachable(START, SetCashier(20, READY, 0));
    var d1 := Apply(START, SetCashier(20, READY, 0));
    NextIsReachable(d1, SetCashier(21, READY, 0));
    var d2 := Apply(d1, SetCashier(21, READY, 0));
    assert ActiveSubscriptions(d2, 20) == {};
    NextIsReachable(d2, Activate(20, Some(5), 0));
    var d3 := Apply(d2, Activate(20, Some(5), 0));
    assert ActiveSubscriptions(d3, 21) == {};
    NextIsReachable(d3, Activate(21, Some(5), 0));
    assert Apply(d3, Activate(21, Some(5), 0)) == SUBSCRIBED_PAIR;
  }

  lemma Joins(db: Db, client: Id, cashier: Id) returns (d: Db)
    requires Reachable(db) && db.clock <= 1 && client !in db.clients
    ensures Reachable(d) && d == RegisterClient(db, client, cashier, 1)
  {
    NextIsReachable(db, Register(client, cashier, 1));
    d := RegisterClient(db, client, cashier, 1);
  }

  lemma FirstClientsJoin() returns (d: Db)
    ensures Reachable(d)
    ensures d == SUBSCRIBED_PAIR.(
              clients := map[10 := ACTIVE, 11 := ACTIVE, 12 := ACTIVE],
              assignments := map[2 := Invited(10, 20), 3 := Invited(11, 20), 4 := Invited(12, 20)],
              conversations := map[2 := TALKING, 3 := TALKING, 4 := TALKING], nextId := 5, clock := 1)
  {
    PairIsReachable();
    d := Joins(SUBSCRIBED_PAIR, 10, 20);
    d := Joins(d, 11, 20);
    d := Joins(d, 12, 20);
  }

  lemma ClientsAreReachable()
    ensures Reachable(FIVE_CLIENTS)
  {
    var d := FirstClientsJoin();
    d := Joins(d, 13, 21);
    d := Joins(d, 14, 21);
    assert d == FIVE_CLIENTS;
  }

  ghost predicate AllLapsed(db: Db, at: Instant) {
    forall s | s in db.subscriptions :: Lapsed(db.subscriptions[s], at)
  }

  lemma NobodyCanTakeOver(db: Db, a: Id)
    requires AllLapsed(db, 9) && OpenRow(db, a)
    ensures MayBegin(db, a, ExpiryBatch(9), None)
  {
    var posted := OpenRequest(db, a, CASHIER_UNAVAILABLE, ENDED_CASHIER_UNAVAILABLE, 9);
    forall c ensures !HasCurrentSubscription(posted, c, 9) {}
    assert Candidates(posted, db.assignments[a].client, db.assignments[a].cashier, 9) == {};
  }

  lemma MovedIsReachable(db: Db, s: Id, a: Id)
    requires Reachable(db) && db.clock <= 9 && AllLapsed(db, 9) && s in db.subscriptions && OpenRow(db, a)
    ensures Reachable(Moved(db, s, a)) && AllLapsed(Moved(db, s, a), 9)
  {
    NobodyCanTakeOver(db, a);
    var begin := Begin(a, CASHIER_UNAVAILABLE, ENDED_CASHIER_UNAVAILABLE, 9, None);
    NextIsReachable(db, begin);
    BeginFrame(db, a, ExpiryBatch(9), None);
    NextIsReachable(Apply(db, begin), Rotate(s, 9));
  }

  /** Each of the two lapsed subscriptions has had a turn of one client, and both turns completed at 9. */
  const STALLED := Moved(Moved(FIVE_CLIENTS, 0, 2), 1, 5)

  const STALLED_TURN := Turn(0, [3], [None], 9, 9, 9)

  lemma StalledIsReachable()
    ensures Reachable(STALLED) && AllLapsed(STALLED, 9)
  {
    ClientsAreReachable();
    MovedIsReachable(FIVE_CLIENTS, 0, 2);
    MovedIsReachable(Moved(FIVE_CLIENTS, 0, 2), 1, 5);
  }

  lemma MovedFacts(db: Db, s: Id, a: Id, cashier: Id)
    requires s in db.subscriptions && OpenRow(db, a)
    ensures var d := Moved(db, s, a);
            && d.clock == 9 && d.subscriptions == db.subscriptions[s := db.subscriptions[s].(updatedAt := 9)]
            && OpenOfCashier(d, cashier) == OpenOfCashier(db, cashier) - {a}
            && forall x | OpenRow(db, x) && x != a :: OpenRow(d, x) && d.assignments[x] == db.assignments[x]
  {
  }

  /** Subscriptions 0 and 1, both from 0 to 5 and last updated at `stamp`, and no others. */
  predicate Pair(rows: map<Id, Subscription>, stamp: Instant) {
    && rows.Keys == {0, 1}
    && rows[0] == Subscription(20, SUBSCRIBED, 0, Some(5), stamp)
    && rows[1] == Subscription(21, SUBSCRIBED, 0, Some(5), stamp)
  }

  ghost predicate BeforeTheTurns(db: Db) {
    && Pair(db.subscriptions, 0) && OpenOfCashier(db, 20) == {2, 3, 4}
    && OpenRow(db, 2) && OpenRow(db, 3) && OpenRow(db, 4) && OpenRow(db, 5)
    && db.assignments[3].startedAt == 1 && db.assignments[4].startedAt == 1
  }

  ghost predicate AfterTheTurns(db: Db) {
    && db.clock == 9 && Pair(db.subscriptions, 9) && OpenOfCashier(db, 20) == {3, 4}
    && OpenRow(db, 3) && db.assignments[3].startedAt == 1 && db.assignments[4].startedAt == 1
  }

  lemma FiveClients()
    ensures BeforeTheTurns(FIVE_CLIENTS)
  {
    assert OpenOfCashier(FIVE_CLIENTS, 20) == {2, 3, 4};
  }

  lemma TwoMoves(five: Db)
    requires BeforeTheTurns(five)
    ensures AfterTheTurns(Moved(Moved(five, 0, 2), 1, 5))
  {
    MovedFacts(five, 0, 2, 20);
    MovedFacts(Moved(five, 0, 2), 1, 5, 20);
    assert {2, 3, 4} - {2} - {5} == {3, 4};
  }

  lemma StalledQueue(db: Db)
    requires AfterTheTurns(db)
    ensures Waiting(db, 9) == {0, 1} && Next(db, 0, 9)
  {
    assert Waiting(db, 9) == {0, 1};
  }

  lemma StalledStarts(db: Db)
    requires AfterTheTurns(db)
    ensures Starts(db, 20) == map[3 := 1, 4 := 1] && Load(db, 20) == 2
  {
  }

  lemma FirstOfTwo(keys: map<Id, Instant>)
    requires keys == map[3 := 1, 4 := 1]
    ensures FirstBy(keys, 1, [3])
  {
    assert keys.Keys == {3, 4};
    assert |keys| == 2;
  }

  lemma OneMoveIsABatch(db: Db, a: Id)
    requires AllLapsed(db, 9) && OpenRow(db, a)
    ensures BatchAllowed(db, [a], ExpiryBatch(9), [None])
  {
    NobodyCanTakeOver(db, a);
    var rows: seq<Id>, choices: seq<Option<Id>> := [a], [None];
    assert rows[1..] == [] && choices[1..] == [];
    assert BatchAllowed(BeginOne(db, a, ExpiryBatch(9), None), [], ExpiryBatch(9), []);
  }

  lemma StalledTurnAllowed(db: Db)
    requires AfterTheTurns(db) && AllLapsed(db, 9)
    ensures TurnAllowed(db, 1, STALLED_TURN)
  {
    StalledQueue(db);
    StalledStarts(db);
    FirstOfTwo(Starts(db, 20));
    OneMoveIsABatch(db, 3);
  }

  lemma StalledTurnRepeats(db: Db, cur: map<Id, Holder>)
    requires AfterTheTurns(db) && AllLapsed(db, 9) && Inv(db, cur)
    ensures TurnAllowed(db, 1, STALLED_TURN) && !LetsBy(db, 1, STALLED_TURN, 1, 9)
    ensures var d := AfterTurn(db, 1, STALLED_TURN); Next(d, 0, 9) && 1 in Waiting(d, 9)
  {
    StalledTurnAllowed(db);
    StalledQueue(db);
    StalledStarts(db);
    StalledClockRepeats(db, AfterTurn(db, 1, STALLED_TURN), 1, STALLED_TURN, 9, 9);
    TurnSparesOthers(db, 1, STALLED_TURN, 1);
  }

  /** A state of a run in which a turn that completes at 9 serves subscription 0 although subscription 1 has
      the same stamp, and 0 is the next one again: two turns need not serve the two that wait. */
  lemma StalledClockExample()
    ensures Reachable(STALLED) && (exists cur :: Inv(STALLED, cur))
    ensures TurnAllowed(STALLED, 1, STALLED_TURN) && !LetsBy(STALLED, 1, STALLED_TURN, 1, 9)
    ensures var d := AfterTurn(STALLED, 1, STALLED_TURN); Next(d, 0, 9) && 1 in Waiting(d, 9)
  {
    FiveClients();
    TwoMoves(FIVE_CLIENTS);
    StalledIsReachable();
    var states, steps :| Run(states, steps) && states[|steps|] == STALLED;
    var cur := RunKeeps(states, steps, |steps|);
    StalledTurnRepeats(STALLED, cur);
  }
}
