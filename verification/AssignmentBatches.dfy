/** Reassigning many clients in one transaction, and what the least-loaded choice makes of it. */
module AssignmentBatches {
  import opened Wrappers
  import opened AssignmentTables
  import opened AssignmentInvariants
  import opened AssignmentRuns
  import CashierSelection

  /** The common arguments of one batch of beginReassignment calls. */
  datatype Batch = Batch(reason: Reason, endReason: EndReason, now: Instant)

  predicate MayBegin(db: Db, a: Id, b: Batch, choice: Option<Id>) {
    OpenRow(db, a) && BeginChoiceAllowed(db, a, b.reason, b.endReason, b.now, choice)
  }

  function BeginOne(db: Db, a: Id, b: Batch, choice: Option<Id>): Db
    requires a in db.assignments && a in db.conversations
  {
    BeginReassignment(db, a, b.reason, b.endReason, b.now, choice)
  }

  /** Each assignment is still open when its turn comes, and each choice is allowed then. */
  predicate BatchAllowed(db: Db, rows: seq<Id>, b: Batch, choices: seq<Option<Id>>)
    decreases |rows|
  {
    && |choices| == |rows|
    && (rows == [] ||
        (MayBegin(db, rows[0], b, choices[0])
         && BatchAllowed(BeginOne(db, rows[0], b, choices[0]), rows[1..], b, choices[1..])))
  }

  function RunBatch(db: Db, rows: seq<Id>, b: Batch, choices: seq<Option<Id>>): Db
    requires BatchAllowed(db, rows, b, choices)
    decreases |rows|
  {
    if rows == [] then db
    else RunBatch(BeginOne(db, rows[0], b, choices[0]), rows[1..], b, choices[1..])
  }

  lemma {:induction false} BatchKeeps(db: Db, cur: map<Id, Holder>, rows: seq<Id>, b: Batch, choices: seq<Option<Id>>)
    returns (after: map<Id, Holder>)
    requires Inv(db, cur) && BatchAllowed(db, rows, b, choices) && db.clock <= b.now
    ensures Inv(RunBatch(db, rows, b, choices), after)
    decreases |rows|
  {
    after := cur;
    if rows != [] {
      after := BeginKeeps(db, cur, rows[0], b.reason, b.endReason, b.now, choices[0]);
      BeginFrame(db, rows[0], b, choices[0]);
      after := BatchKeeps(BeginOne(db, rows[0], b, choices[0]), after, rows[1..], b, choices[1..]);
    }
  }

  /** Retrying several pending requests in one transaction. */
  predicate RetriesAllowed(db: Db, rows: seq<Id>, now: Instant, choices: seq<Option<Id>>)
    decreases |rows|
  {
    && |choices| == |rows|
    && (rows == [] ||
        (&& IsPending(db, rows[0])
         && ChoiceAllowed(db, db.requests[rows[0]].client, db.requests[rows[0]].excludedCashier, now, choices[0])
         && RetriesAllowed(CompletePending(db, rows[0], now, choices[0]), rows[1..], now, choices[1..])))
  }

  function RunRetries(db: Db, rows: seq<Id>, now: Instant, choices: seq<Option<Id>>): Db
    requires RetriesAllowed(db, rows, now, choices)
    decreases |rows|
  {
    if rows == [] then db
    else RunRetries(CompletePending(db, rows[0], now, choices[0]), rows[1..], now, choices[1..])
  }

  lemma {:induction false} RetriesKeep(db: Db, cur: map<Id, Holder>, rows: seq<Id>, now: Instant, choices: seq<Option<Id>>)
    returns (after: map<Id, Holder>)
    requires Inv(db, cur) && RetriesAllowed(db, rows, now, choices) && db.clock <= now
    ensures Inv(RunRetries(db, rows, now, choices), after)
    decreases |rows|
  {
    after := cur;
    if rows != [] {
      after := CompleteKeeps(db, cur, rows[0], now, choices[0]);
      after := RetriesKeep(CompletePending(db, rows[0], now, choices[0]), after, rows[1..], now, choices[1..]);
    }
  }

  /** What a retry does not touch, and who it gives no client. */
  lemma RetryFrame(db: Db, r: Id, now: Instant, choice: Option<Id>, cashier: Id)
    requires AssignmentsDated(db.assignments, db.nextId, db.clock) && IsPending(db, r)
    requires ChoiceAllowed(db, db.requests[r].client, db.requests[r].excludedCashier, now, choice)
    ensures var d := CompletePending(db, r, now, choice);
            && d.clients == db.clients && d.cashiers == db.cashiers && d.subscriptions == db.subscriptions
            && d.blocks == db.blocks && d.clock == now
    ensures db.clock <= now ==>
              var d := CompletePending(db, r, now, choice); AssignmentsDated(d.assignments, d.nextId, d.clock)
    ensures !HasCurrentSubscription(db, cashier, now) ==>
              OpenOfCashier(CompletePending(db, r, now, choice), cashier) == OpenOfCashier(db, cashier)
  {
    if ClientIsActive(db, db.requests[r].client) && choice.Some? && !HasCurrentSubscription(db, cashier, now) {
      assert choice.value in Candidates(db, db.requests[r].client, db.requests[r].excludedCashier, now);
    }
  }

  lemma {:induction false} RetriesSpare(db: Db, rows: seq<Id>, now: Instant, choices: seq<Option<Id>>, cashier: Id)
    requires AssignmentsDated(db.assignments, db.nextId, db.clock) && db.clock <= now
    requires RetriesAllowed(db, rows, now, choices)
    ensures RunRetries(db, rows, now, choices).subscriptions == db.subscriptions
    ensures db.clock <= RunRetries(db, rows, now, choices).clock <= now
    ensures !HasCurrentSubscription(db, cashier, now) ==>
              OpenOfCashier(RunRetries(db, rows, now, choices), cashier) == OpenOfCashier(db, cashier)
    decreases |rows|
  {
    if rows != [] {
      var d := CompletePending(db, rows[0], now, choices[0]);
      RetryFrame(db, rows[0], now, choices[0], cashier);
      assert HasCurrentSubscription(d, cashier, now) == HasCurrentSubscription(db, cashier, now);
      RetriesSpare(d, rows[1..], now, choices[1..], cashier);
    }
  }

  // ---------------------------------------------------------------- the effect of one reassignment

  /** What a reassignment does not touch. */
  lemma BeginFrame(db: Db, a: Id, b: Batch, choice: Option<Id>)
    requires a in db.assignments && a in db.conversations
    ensures var d := BeginOne(db, a, b, choice);
            && d.clients == db.clients && d.cashiers == db.cashiers && d.subscriptions == db.subscriptions
            && d.blocks == db.blocks && d.clock == b.now && db.nextId < d.nextId
  {
  }

  /** The client that moves leaves its cashier and joins the chosen one; nobody else's clients change. */
  lemma BeginMoves(db: Db, a: Id, b: Batch, choice: Option<Id>, cashier: Id)
    requires MayBegin(db, a, b, choice) && AssignmentsDated(db.assignments, db.nextId, db.clock)
    ensures var d := BeginOne(db, a, b, choice);
            OpenOfCashier(d, cashier)
            == (OpenOfCashier(db, cashier) - {a})
               + (if ClientIsActive(db, db.assignments[a].client) && choice == Some(cashier) then {db.nextId + 1} else {})
  {
  }

  lemma BeginChangesLoad(db: Db, a: Id, b: Batch, choice: Option<Id>, cashier: Id)
    requires MayBegin(db, a, b, choice) && AssignmentsDated(db.assignments, db.nextId, db.clock)
    requires ClientIsActive(db, db.assignments[a].client)
    ensures Load(BeginOne(db, a, b, choice), cashier)
            == Load(db, cashier) - (if db.assignments[a].cashier == cashier then 1 else 0)
                                 + (if choice == Some(cashier) then 1 else 0)
  {
    BeginMoves(db, a, b, choice, cashier);
    assert db.nextId + 1 !in OpenOfCashier(db, cashier);
  }

  lemma CandidatesFrame(db: Db, d: Db, client: Id, excluded: Id, now: Instant)
    requires d.cashiers == db.cashiers && d.subscriptions == db.subscriptions && d.blocks == db.blocks
    ensures Candidates(d, client, excluded, now) == Candidates(db, client, excluded, now)
  {
    forall c ensures Eligible(d, client, excluded, c, now) == Eligible(db, client, excluded, c, now) {
      assert Blocked(d, client, c) == Blocked(db, client, c);
      assert HasCurrentSubscription(d, c, now) == HasCurrentSubscription(db, c, now);
    }
  }

  // ---------------------------------------------------------------- eligibility after a whole batch

  /** Whether messages pass depends on the account tables and on the assignment's own two rows. */
  lemma EligibilityFrame(db: Db, d: Db, a: Id, now: Instant)
    requires d.clients == db.clients && d.cashiers == db.cashiers && d.subscriptions == db.subscriptions
    requires a in db.assignments && a in d.assignments && d.assignments[a] == db.assignments[a]
    requires a in db.conversations && a in d.conversations && d.conversations[a] == db.conversations[a]
    ensures EligibilityRows(d, a, now) == EligibilityRows(db, a, now)
  {
  }

  /** A later move in the batch leaves the other open assignments alone. */
  lemma BeginKeepsOthers(db: Db, x: Id, b: Batch, choice: Option<Id>, a: Id)
    requires MayBegin(db, x, b, choice) && AssignmentsDated(db.assignments, db.nextId, db.clock)
    requires OpenRow(db, a)
    ensures var d := BeginOne(db, x, b, choice);
            && a in d.assignments && a in d.conversations
            && (a != x ==> d.assignments[a] == db.assignments[a] && d.conversations[a] == db.conversations[a])
            && (a == x ==> d.assignments[a].ended.Some?)
  {
  }

  /** Ended assignments stay ended in a batch. */
  lemma {:induction false} BatchKeepsEnded(db: Db, rows: seq<Id>, b: Batch, choices: seq<Option<Id>>, a: Id)
    requires BatchAllowed(db, rows, b, choices) && db.clock <= b.now
    requires AssignmentsDated(db.assignments, db.nextId, db.clock)
    requires a in db.assignments && db.assignments[a].ended.Some?
    ensures a in RunBatch(db, rows, b, choices).assignments && RunBatch(db, rows, b, choices).assignments[a].ended.Some?
    decreases |rows|
  {
    if rows != [] {
      BeginKeepsDated(db, rows[0], b, choices[0]);
      BatchKeepsEnded(BeginOne(db, rows[0], b, choices[0]), rows[1..], b, choices[1..], a);
    }
  }

  /** An eligible assignment that is open at the end of the batch has been left alone and is still eligible. */
  lemma {:induction false} BatchKeepsEligible(db: Db, rows: seq<Id>, b: Batch, choices: seq<Option<Id>>, a: Id)
    requires BatchAllowed(db, rows, b, choices) && db.clock <= b.now
    requires AssignmentsDated(db.assignments, db.nextId, db.clock)
    requires OpenRow(db, a) && IsOpen(RunBatch(db, rows, b, choices), a)
    ensures |EligibilityRows(RunBatch(db, rows, b, choices), a, b.now)| == |EligibilityRows(db, a, b.now)|
    decreases |rows|
  {
    if rows != [] {
      var d := BeginOne(db, rows[0], b, choices[0]);
      BeginKeepsDated(db, rows[0], b, choices[0]);
      BeginKeepsOthers(db, rows[0], b, choices[0], a);
      if a == rows[0] { BatchKeepsEnded(d, rows[1..], b, choices[1..], a); }
      BeginFrame(db, rows[0], b, choices[0]);
      EligibilityFrame(db, d, a, b.now);
      BatchKeepsEligible(d, rows[1..], b, choices[1..], a);
    }
  }

  /** Every assignment that a batch makes and leaves open passes the eligibility query when it commits. */
  lemma {:induction false} BatchMakesEligible(db: Db, rows: seq<Id>, b: Batch, choices: seq<Option<Id>>, a: Id)
    requires BatchAllowed(db, rows, b, choices) && db.clock <= b.now
    requires AssignmentsDated(db.assignments, db.nextId, db.clock) && SubscriptionsSound(db.subscriptions)
    requires a !in db.assignments && IsOpen(RunBatch(db, rows, b, choices), a)
    ensures |EligibilityRows(RunBatch(db, rows, b, choices), a, b.now)| == 1
    decreases |rows|
  {
    if rows != [] {
      var d := BeginOne(db, rows[0], b, choices[0]);
      BeginKeepsDated(db, rows[0], b, choices[0]);
      BeginFrame(db, rows[0], b, choices[0]);
      if a in d.assignments {
        BeginMakesEligible(db, rows[0], b.reason, b.endReason, b.now, choices[0], a);
        BatchKeepsEligible(d, rows[1..], b, choices[1..], a);
      } else {
        BatchMakesEligible(d, rows[1..], b, choices[1..], a);
      }
    }
  }

  /** A batch ends no assignment but those it was given. */
  lemma {:induction false} BatchLeavesOpen(db: Db, rows: seq<Id>, b: Batch, choices: seq<Option<Id>>, a: Id)
    requires BatchAllowed(db, rows, b, choices) && db.clock <= b.now
    requires AssignmentsDated(db.assignments, db.nextId, db.clock)
    requires OpenRow(db, a) && a !in rows
    ensures IsOpen(RunBatch(db, rows, b, choices), a)
    decreases |rows|
  {
    if rows != [] {
      BeginKeepsDated(db, rows[0], b, choices[0]);
      BeginKeepsOthers(db, rows[0], b, choices[0], a);
      BatchLeavesOpen(BeginOne(db, rows[0], b, choices[0]), rows[1..], b, choices[1..], a);
    }
  }

  /** So whatever a batch of assignments that were there before it makes is open when it commits. */
  lemma {:induction false} BatchLeavesNewOpen(db: Db, rows: seq<Id>, b: Batch, choices: seq<Option<Id>>, a: Id)
    requires BatchAllowed(db, rows, b, choices) && db.clock <= b.now
    requires AssignmentsDated(db.assignments, db.nextId, db.clock)
    requires a !in db.assignments && a !in rows && a in RunBatch(db, rows, b, choices).assignments
    ensures IsOpen(RunBatch(db, rows, b, choices), a)
    decreases |rows|
  {
    if rows != [] {
      var d := BeginOne(db, rows[0], b, choices[0]);
      BeginKeepsDated(db, rows[0], b, choices[0]);
      if a in d.assignments {
        BatchLeavesOpen(d, rows[1..], b, choices[1..], a);
      } else {
        BatchLeavesNewOpen(d, rows[1..], b, choices[1..], a);
      }
    }
  }

  /** The same for a batch of retries, which ends no assignment. */
  lemma {:induction false} RetriesMakeEligible(db: Db, rows: seq<Id>, now: Instant, choices: seq<Option<Id>>, a: Id)
    requires RetriesAllowed(db, rows, now, choices) && db.clock <= now && SubscriptionsSound(db.subscriptions)
    requires AssignmentsDated(db.assignments, db.nextId, db.clock)
    requires a !in db.assignments && a in RunRetries(db, rows, now, choices).assignments
    ensures |EligibilityRows(RunRetries(db, rows, now, choices), a, now)| == 1
    decreases |rows|
  {
    if rows != [] {
      var d := CompletePending(db, rows[0], now, choices[0]);
      RetryFrame(db, rows[0], now, choices[0], 0);
      if a in d.assignments {
        CompleteMakesEligible(db, rows[0], now, choices[0], a);
        RetriesKeepEligible(d, rows[1..], now, choices[1..], a);
      } else {
        RetriesMakeEligible(d, rows[1..], now, choices[1..], a);
      }
    }
  }

  lemma {:induction false} RetriesKeepEligible(db: Db, rows: seq<Id>, now: Instant, choices: seq<Option<Id>>, a: Id)
    requires RetriesAllowed(db, rows, now, choices) && db.clock <= now
    requires AssignmentsDated(db.assignments, db.nextId, db.clock)
    requires a in db.assignments && a in db.conversations
    ensures EligibilityRows(RunRetries(db, rows, now, choices), a, now) == EligibilityRows(db, a, now)
    decreases |rows|
  {
    if rows != [] {
      var d := CompletePending(db, rows[0], now, choices[0]);
      RetryFrame(db, rows[0], now, choices[0], 0);
      EligibilityFrame(db, d, a, now);
      RetriesKeepEligible(d, rows[1..], now, choices[1..], a);
    }
  }

  // ---------------------------------------------------------------- balance

  predicate Distinct(ids: seq<Id>) {
    forall i, j | 0 <= i < j < |ids| :: ids[i] != ids[j]
  }

  function Loads(db: Db, cashiers: seq<Id>): (loads: seq<nat>)
    ensures |loads| == |cashiers|
  {
    seq(|cashiers|, i requires 0 <= i < |cashiers| => Load(db, cashiers[i]))
  }

  /** Clients of one leaving cashier, all active, none of them with blocks of its own: every one of them
      may go to exactly the same cashiers. */
  ghost predicate SameChoices(db: Db, rows: seq<Id>, leaving: Id, cashiers: seq<Id>, now: Instant) {
    forall k | 0 <= k < |rows| ::
      && rows[k] in db.assignments && db.assignments[rows[k]].cashier == leaving
      && ClientIsActive(db, db.assignments[rows[k]].client)
      && Candidates(db, db.assignments[rows[k]].client, leaving, now) == set c | c in cashiers
  }

  lemma BeginKeepsRow(db: Db, a: Id, b: Batch, choice: Option<Id>, x: Id)
    requires a in db.assignments && a in db.conversations && x in db.assignments
    requires AssignmentsDated(db.assignments, db.nextId, db.clock)
    ensures var d := BeginOne(db, a, b, choice);
            && x in d.assignments && d.assignments[x].client == db.assignments[x].client
            && d.assignments[x].cashier == db.assignments[x].cashier
  {
  }

  lemma SameChoicesKept(db: Db, rows: seq<Id>, leaving: Id, cashiers: seq<Id>, b: Batch, choice: Option<Id>)
    requires rows != [] && SameChoices(db, rows, leaving, cashiers, b.now)
    requires AssignmentsDated(db.assignments, db.nextId, db.clock)
    requires MayBegin(db, rows[0], b, choice)
    ensures SameChoices(BeginOne(db, rows[0], b, choice), rows[1..], leaving, cashiers, b.now)
  {
    var d := BeginOne(db, rows[0], b, choice);
    BeginFrame(db, rows[0], b, choice);
    forall k | 0 <= k < |rows[1..]|
      ensures var x := rows[1..][k];
              && x in d.assignments && d.assignments[x].cashier == leaving
              && ClientIsActive(d, d.assignments[x].client)
              && Candidates(d, d.assignments[x].client, leaving, b.now) == set c | c in cashiers
    {
      var x := rows[k + 1];
      BeginKeepsRow(db, rows[0], b, choice, x);
      CandidatesFrame(db, d, db.assignments[x].client, leaving, b.now);
    }
  }

  /** One move is one greedy placement on the loads of the receiving cashiers. */
  lemma MoveIsGreedy(db: Db, a: Id, b: Batch, choice: Option<Id>, leaving: Id, cashiers: seq<Id>) returns (p: nat)
    requires MayBegin(db, a, b, choice) && AssignmentsDated(db.assignments, db.nextId, db.clock)
    requires cashiers != [] && Distinct(cashiers) && leaving !in cashiers
    requires db.assignments[a].cashier == leaving && ClientIsActive(db, db.assignments[a].client)
    requires Candidates(db, db.assignments[a].client, leaving, b.now) == set c | c in cashiers
    ensures p < |cashiers| && choice == Some(cashiers[p])
    ensures forall j | 0 <= j < |cashiers| :: Load(db, cashiers[p]) <= Load(db, cashiers[j])
    ensures Loads(BeginOne(db, a, b, choice), cashiers) == Loads(db, cashiers)[p := Load(db, cashiers[p]) + 1]
  {
    var posted := OpenRequest(db, a, b.reason, b.endReason, b.now);
    var client := db.assignments[a].client;
    CandidatesFrame(db, posted, client, leaving, b.now);
    assert cashiers[0] in Candidates(posted, client, leaving, b.now);
    p :| 0 <= p < |cashiers| && cashiers[p] == choice.value;
    forall j | 0 <= j < |cashiers|
      ensures Load(db, cashiers[p]) <= Load(db, cashiers[j])
    {
      OpenRequestKeepsLoad(db, a, b, cashiers[p]);
      OpenRequestKeepsLoad(db, a, b, cashiers[j]);
      assert cashiers[j] in Candidates(posted, client, leaving, b.now);
    }
    forall j | 0 <= j < |cashiers|
      ensures Load(BeginOne(db, a, b, choice), cashiers[j]) == Load(db, cashiers[j]) + (if j == p then 1 else 0)
    {
      BeginChangesLoad(db, a, b, choice, cashiers[j]);
    }
    assert Loads(BeginOne(db, a, b, choice), cashiers) == Loads(db, cashiers)[p := Load(db, cashiers[p]) + 1];
  }

  lemma OpenRequestKeepsLoad(db: Db, a: Id, b: Batch, cashier: Id)
    requires OpenRow(db, a) && db.assignments[a].cashier != cashier
    ensures Load(OpenRequest(db, a, b.reason, b.endReason, b.now), cashier) == Load(db, cashier)
  {
    assert OpenOfCashier(OpenRequest(db, a, b.reason, b.endReason, b.now), cashier) == OpenOfCashier(db, cashier);
  }

  /** The row ids and dates a batch leaves behind. */
  lemma BeginKeepsDated(db: Db, a: Id, b: Batch, choice: Option<Id>)
    requires a in db.assignments && a in db.conversations && db.clock <= b.now
    requires AssignmentsDated(db.assignments, db.nextId, db.clock)
    ensures var d := BeginOne(db, a, b, choice); AssignmentsDated(d.assignments, d.nextId, d.clock) && d.clock == b.now
  {
  }

  lemma {:induction false} BatchIsGreedy(db: Db, rows: seq<Id>, b: Batch, choices: seq<Option<Id>>,
                                         leaving: Id, cashiers: seq<Id>)
    returns (picks: seq<nat>)
    requires AssignmentsDated(db.assignments, db.nextId, db.clock) && db.clock <= b.now
    requires BatchAllowed(db, rows, b, choices)
    requires cashiers != [] && Distinct(cashiers) && leaving !in cashiers
    requires SameChoices(db, rows, leaving, cashiers, b.now)
    ensures |picks| == |rows| && CashierSelection.Greedy(Loads(db, cashiers), picks)
    ensures Loads(RunBatch(db, rows, b, choices), cashiers) == CashierSelection.Place(Loads(db, cashiers), picks)
    decreases |rows|
  {
    picks := [];
    if rows != [] {
      var p := MoveIsGreedy(db, rows[0], b, choices[0], leaving, cashiers);
      BeginKeepsDated(db, rows[0], b, choices[0]);
      SameChoicesKept(db, rows, leaving, cashiers, b, choices[0]);
      var d := BeginOne(db, rows[0], b, choices[0]);
      var rest := BatchIsGreedy(d, rows[1..], b, choices[1..], leaving, cashiers);
      picks := [p] + rest;
      assert picks[1..] == rest;
    }
  }

  /** Redistributing a cashier's clients reaches the smallest possible maximum load, whatever the ties. */
  lemma RedistributionIsBalanced(db: Db, rows: seq<Id>, b: Batch, choices: seq<Option<Id>>,
                                 leaving: Id, cashiers: seq<Id>)
    requires RowsInThePast(db) && BatchAllowed(db, rows, b, choices) && db.clock <= b.now
    requires cashiers != [] && Distinct(cashiers) && leaving !in cashiers
    requires SameChoices(db, rows, leaving, cashiers, b.now)
    ensures var before, after := Loads(db, cashiers), Loads(RunBatch(db, rows, b, choices), cashiers);
            && CashierSelection.Spreads(before, after, |rows|)
            && CashierSelection.MaxOf(after) == CashierSelection.LeastMaximum(before, |rows|)
            && forall other | CashierSelection.Spreads(before, other, |rows|) ::
                 CashierSelection.MaxOf(after) <= CashierSelection.MaxOf(other)
  {
    var picks := BatchIsGreedy(db, rows, b, choices, leaving, cashiers);
    CashierSelection.GreedyIsOptimal(Loads(db, cashiers), picks);
  }
}
