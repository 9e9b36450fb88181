/** What holds whichever service moves a candidate, in whatever order. */
module DeviceQuarantineRuns {
  import opened Arithmetic
  import opened Wrappers
  import opened DeviceQuarantine

  type Candidates = map<Id, Candidate>
  type Flows = map<Id, Flow>

  /** `Environment` stands for every other writer: logins, revocations, subscriptions, device keys. */
  datatype Step =
    | Reserves(p: Principal, id: Id, document: Document, t: Times)
    | Visits(p: Principal, id: Id, cancel: bool, t: Times)
    | Reviews(p: Principal, which: Option<Id>, reject: bool, t: Times)
    | Opens(p: Principal, id: Id, request: FlowRequest, t: Times)
    | Polls(p: Principal, id: Id, t: Times)
    | Environment(accounts: Accounts, t: Times)

  predicate Enabled(db: Db, step: Step) { db.clock <= step.t.t0 && step.t.InOrder() }

  /** An error rolls the transaction back. */
  function Kept<T>(db: Db, r: Result<(Db, T), QuarantineError>): Db {
    match r case Ok(v) => v.0 case Err(_) => db
  }

  function Apply(db: Db, step: Step): Db {
    match step
    case Reserves(p, id, document, t) => Kept(db, Reserve(db, p, id, document, t))
    case Visits(p, id, cancel, t) => Kept(db, Visit(db, p, id, cancel, t))
    case Reviews(p, which, reject, t) => Kept(db, ReviewAny(db, p, which, reject, t))
    case Opens(p, id, request, t) => Kept(db, OpenFlow(db, p, id, request, t))
    case Polls(p, id, t) => Kept(db, Poll(db, p, id, t))
    case Environment(accounts, t) => db.(accounts := accounts, clock := t.t4)
  }

  const START := Db(map[], map[], Accounts(map[], map[], {}, {}), 0)

  ghost predicate Run(states: seq<Db>, steps: seq<Step>) {
    && |states| == |steps| + 1 && states[0] == START
    && forall i | 0 <= i < |steps| :: Enabled(states[i], steps[i]) && states[i + 1] == Apply(states[i], steps[i])
  }

  // ---------------------------------------------------------------- invariants

  /** A status agrees with the clock at which it was reached, whoever reached it. */
  predicate Resolved(status: Status, createdAt: Instant, expiresAt: Instant, resolvedAt: Option<Instant>, clock: Instant) {
    match resolvedAt
    case None => status == PENDING
    case Some(at) => status != PENDING && createdAt <= at <= clock && (status == EXPIRED <==> at >= expiresAt)
  }

  predicate CandidateSound(c: Candidate, clock: Instant) {
    && c.createdAt <= clock && c.createdAt < c.expiresAt <= c.createdAt + TEN_MINUTES
    && Resolved(c.status, c.createdAt, c.expiresAt, c.resolvedAt, clock)
  }

  predicate FlowSound(f: Flow, c: Candidate, clock: Instant) {
    && f.user == c.user && c.createdAt <= f.createdAt <= clock && f.createdAt < f.expiresAt <= c.expiresAt
    && Resolved(f.status, f.createdAt, f.expiresAt, f.resolvedAt, clock)
    && (f.status == PENDING ==> c.status == PENDING)
  }

  ghost predicate CandidatesSound(rows: Candidates, clock: Instant) {
    && (forall c | c in rows :: CandidateSound(rows[c], clock))
    && (forall c, d | c in rows && d in rows && rows[c].status == PENDING && rows[d].status == PENDING
                      && rows[c].user == rows[d].user :: c == d)
  }

  ghost predicate FlowsSound(flows: Flows, rows: Candidates, clock: Instant) {
    forall f | f in flows :: f in rows && FlowSound(flows[f], rows[f], clock)
  }

  ghost predicate FlowIdsUnique(flows: Flows) {
    forall f, g | f in flows && g in flows && flows[f].request.flowId == flows[g].request.flowId :: f == g
  }

  ghost predicate Sound(rows: Candidates, flows: Flows, clock: Instant) {
    CandidatesSound(rows, clock) && FlowsSound(flows, rows, clock) && FlowIdsUnique(flows)
  }

  /** The later table has every row of the earlier one, changed at most by becoming terminal. */
  ghost predicate CandidatesLater(a: Candidates, b: Candidates) {
    forall c | c in a ::
      && c in b && b[c].(status := a[c].status, resolvedAt := a[c].resolvedAt) == a[c]
      && (a[c].status != PENDING ==> b[c] == a[c])
  }

  ghost predicate FlowsLater(a: Flows, b: Flows) {
    forall f | f in a ::
      && f in b && b[f].(status := a[f].status, resolvedAt := a[f].resolvedAt) == a[f]
      && (a[f].status != PENDING ==> b[f] == a[f])
  }

  /** No flow ends, or changes at all, while its candidate is still pending. */
  ghost predicate FlowsEndWithCandidates(a: Db, b: Db) {
    forall f | f in a.candidates && f in a.flows && f in b.candidates && b.candidates[f].status == PENDING ::
      f in b.flows && b.flows[f] == a.flows[f]
  }

  ghost predicate Later(a: Db, b: Db) {
    CandidatesLater(a.candidates, b.candidates) && FlowsLater(a.flows, b.flows) && FlowsEndWithCandidates(a, b)
  }

  /** The two tables of `b` are sound by `clock` and come after those of `a`. */
  ghost predicate Follows(a: Db, b: Db, clock: Instant) {
    Sound(b.candidates, b.flows, clock) && Later(a, b)
  }

  lemma SoundLater(rows: Candidates, flows: Flows, clock: Instant, later: Instant)
    requires Sound(rows, flows, clock) && clock <= later
    ensures Sound(rows, flows, later)
  {
  }

  lemma LaterTransitive(a: Db, b: Db, c: Db)
    requires Later(a, b) && Later(b, c)
    ensures Later(a, c)
  {
  }

  lemma EndCandidate(rows: Candidates, id: Id, at: Instant, clock: Instant)
    requires CandidatesSound(rows, at) && id in rows && rows[id].status == PENDING && at <= clock
    ensures var row := rows[id].(status := if rows[id].expiresAt <= at then EXPIRED else CANCELLED, resolvedAt := Some(at));
            CandidatesSound(rows[id := row], clock) && CandidatesLater(rows, rows[id := row])
  {
  }

  lemma EndFlow(flows: Flows, id: Id, checkedAt: Instant)
    ensures FlowsLater(flows, Invalidate(flows, id, checkedAt))
    ensures FlowIdsUnique(flows) ==> FlowIdsUnique(Invalidate(flows, id, checkedAt))
    ensures Invalidate(flows, id, checkedAt).Keys == flows.Keys
  {
  }

  /** The flow ends with its candidate, so no pending flow is left behind. */
  lemma TerminateKeepsFlows(db: Db, id: Id, at: Instant, checkedAt: Instant, clock: Instant)
    requires FlowsSound(db.flows, db.candidates, at) && id in db.candidates && at <= checkedAt <= clock
    ensures var d := Terminate(db, id, at, checkedAt); FlowsSound(d.flows, d.candidates, clock)
  {
    var d := Terminate(db, id, at, checkedAt);
    forall f | f in d.flows ensures f in d.candidates && FlowSound(d.flows[f], d.candidates[f], clock) {
      assert FlowSound(db.flows[f], db.candidates[f], at);
    }
  }

  lemma TerminateFollows(db: Db, id: Id, at: Instant, checkedAt: Instant, clock: Instant)
    requires Sound(db.candidates, db.flows, at) && id in db.candidates && db.candidates[id].status == PENDING
    requires at <= checkedAt <= clock
    ensures Follows(db, Terminate(db, id, at, checkedAt), clock)
  {
    EndCandidate(db.candidates, id, at, clock);
    EndFlow(db.flows, id, checkedAt);
    TerminateKeepsFlows(db, id, at, checkedAt, clock);
  }

  /** At most one row is overdue, so the sweep is nothing or one termination. */
  lemma SweepIsOneTermination(db: Db, user: Id, at: Instant, checkedAt: Instant)
    requires Sound(db.candidates, db.flows, at)
    ensures ExpireOverdue(db, user, at, checkedAt) == db
            || exists id | id in Overdue(db.candidates, user, at) ::
                 ExpireOverdue(db, user, at, checkedAt) == Terminate(db, id, at, checkedAt)
  {
    var overdue := Overdue(db.candidates, user, at);
    var d := ExpireOverdue(db, user, at, checkedAt);
    if overdue == {} {
      assert d.candidates == db.candidates && d.flows == db.flows;
    } else {
      var id :| id in overdue;
      assert overdue == {id};
      EndFlow(db.flows, id, checkedAt);
      assert d.candidates == Terminate(db, id, at, checkedAt).candidates;
      assert d.flows == Terminate(db, id, at, checkedAt).flows;
    }
  }

  lemma SweepFollows(db: Db, user: Id, at: Instant, checkedAt: Instant, clock: Instant)
    requires Sound(db.candidates, db.flows, at) && at <= checkedAt <= clock
    ensures Follows(db, ExpireOverdue(db, user, at, checkedAt), clock)
  {
    SweepIsOneTermination(db, user, at, checkedAt);
    SoundLater(db.candidates, db.flows, at, clock);
    if ExpireOverdue(db, user, at, checkedAt) != db {
      var id :| id in Overdue(db.candidates, user, at)
                && ExpireOverdue(db, user, at, checkedAt) == Terminate(db, id, at, checkedAt);
      TerminateFollows(db, id, at, checkedAt, clock);
    }
  }

  lemma ConcludeFollows(db: Db, p: Principal, id: Id, mustBeLive: bool, t: Times)
    requires Sound(db.candidates, db.flows, t.t2) && t.InOrder() && id in db.candidates
    requires Conclude(db, p, id, mustBeLive, t).Ok?
    ensures Follows(db, Conclude(db, p, id, mustBeLive, t).value.0, t.t4)
  {
    SoundLater(db.candidates, db.flows, t.t2, t.t4);
    if db.candidates[id].status == PENDING && db.candidates[id].expiresAt <= t.t2 {
      TerminateFollows(db, id, t.t2, t.t3, t.t4);
    }
  }

  /** A new row starts pending, with a deadline after its creation and within ten minutes of it. */
  lemma NewCandidateFollows(db: Db, id: Id, row: Candidate, clock: Instant)
    requires Sound(db.candidates, db.flows, clock) && id !in db.candidates
    requires CandidateSound(row, clock) && PendingOf(db.candidates, row.user) == {}
    ensures Follows(db, db.(candidates := db.candidates[id := row]), clock)
  {
    forall c | c in db.candidates && db.candidates[c].status == PENDING ensures db.candidates[c].user != row.user {
      assert c !in PendingOf(db.candidates, row.user);
    }
  }

  lemma ReservesFollows(db: Db, step: Step)
    requires Sound(db.candidates, db.flows, db.clock) && Enabled(db, step) && step.Reserves?
    requires Reserve(db, step.p, step.id, step.document, step.t).Ok?
    ensures Follows(db, Reserve(db, step.p, step.id, step.document, step.t).value.0, step.t.t4)
  {
    var p, id, t := step.p, step.id, step.t;
    var identity := Authority(db.accounts, p).value;
    SoundLater(db.candidates, db.flows, db.clock, t.t2);
    if id in db.candidates {
      ConcludeFollows(db, p, id, true, t);
    } else {
      SoundLater(db.candidates, db.flows, db.clock, t.t0);
      SweepFollows(db, p.user, t.t0, t.t1, t.t2);
      var swept := ExpireOverdue(db, p.user, t.t0, t.t1);
      var row := NewCandidate(db.accounts, p, identity, step.document, t.t0);
      NewCandidateFollows(swept, id, row, t.t2);
      var posted := swept.(candidates := swept.candidates[id := row]);
      LaterTransitive(db, swept, posted);
      ConcludeFollows(posted, p, id, true, t);
      LaterTransitive(db, posted, Conclude(posted, p, id, true, t).value.0);
    }
  }

  lemma VisitsFollows(db: Db, step: Step)
    requires Sound(db.candidates, db.flows, db.clock) && Enabled(db, step) && step.Visits?
    requires Visit(db, step.p, step.id, step.cancel, step.t).Ok?
    ensures Follows(db, Visit(db, step.p, step.id, step.cancel, step.t).value.0, step.t.t4)
  {
    var p, id, t := step.p, step.id, step.t;
    SoundLater(db.candidates, db.flows, db.clock, t.t0);
    SoundLater(db.candidates, db.flows, db.clock, t.t2);
    var d := db;
    if step.cancel && db.candidates[id].status == PENDING {
      TerminateFollows(db, id, t.t0, t.t1, t.t2);
      d := Terminate(db, id, t.t0, t.t1);
    }
    ConcludeFollows(d, p, id, false, t);
    LaterTransitive(db, d, Conclude(d, p, id, false, t).value.0);
  }

  lemma ReviewsFollows(db: Db, step: Step)
    requires Sound(db.candidates, db.flows, db.clock) && Enabled(db, step) && step.Reviews?
    requires ReviewAny(db, step.p, step.which, step.reject, step.t).Ok?
    ensures Follows(db, ReviewAny(db, step.p, step.which, step.reject, step.t).value.0, step.t.t4)
  {
    var t := step.t;
    SoundLater(db.candidates, db.flows, db.clock, t.t1);
    SoundLater(db.candidates, db.flows, db.clock, t.t4);
    var ids := Reviewable(db, step.p, step.which);
    if |ids| == 1 {
      var id := TheOnly(ids);
      if db.candidates[id].status == PENDING { TerminateFollows(db.(clock := t.t4), id, t.t1, t.t2, t.t4); }
    }
  }

  lemma OpensFollows(db: Db, step: Step)
    requires Sound(db.candidates, db.flows, db.clock) && Enabled(db, step) && step.Opens?
    requires OpenFlow(db, step.p, step.id, step.request, step.t).Ok?
    ensures Follows(db, OpenFlow(db, step.p, step.id, step.request, step.t).value.0, step.t.t4)
  {
    var id, t := step.id, step.t;
    SoundLater(db.candidates, db.flows, db.clock, t.t1);
    SoundLater(db.candidates, db.flows, db.clock, t.t4);
    var d := OpenFlow(db, step.p, id, step.request, t).value.0;
    if db.candidates[id].status == PENDING && NeedsExpiration(db, id, t.t1) {
      TerminateFollows(db.(clock := t.t4), id, t.t1, t.t2, t.t4);
    } else if d.flows != db.flows {
      NewFlowFollows(db, id, NewFlow(db, step.p, id, step.request, t.t1), t.t4);
    }
  }

  lemma NewFlowFollows(db: Db, id: Id, f: Flow, clock: Instant)
    requires Sound(db.candidates, db.flows, clock) && id in db.candidates && id !in db.flows
    requires FlowSound(f, db.candidates[id], clock) && !FlowIdsTaken(db, f.request)
    ensures Follows(db, db.(flows := db.flows[id := f]), clock)
  {
  }

  /** A poll ends the candidate at the first or the second check, or changes no row. */
  lemma PollChanges(db: Db, p: Principal, id: Id, t: Times)
    requires Poll(db, p, id, t).Ok?
    ensures id in db.candidates
    ensures var (d, done) := (Poll(db, p, id, t).value.0, db.(clock := t.t4));
            || d == done
            || (db.candidates[id].status == PENDING
                && (d == Terminate(done, id, t.t1, t.t2) || d == Terminate(done, id, t.t2, t.t3)))
  {
  }

  lemma PollsFollows(db: Db, step: Step)
    requires Sound(db.candidates, db.flows, db.clock) && Enabled(db, step) && step.Polls?
    requires Poll(db, step.p, step.id, step.t).Ok?
    ensures Follows(db, Poll(db, step.p, step.id, step.t).value.0, step.t.t4)
  {
    var t := step.t;
    PollChanges(db, step.p, step.id, t);
    SoundLater(db.candidates, db.flows, db.clock, t.t1);
    SoundLater(db.candidates, db.flows, db.clock, t.t2);
    SoundLater(db.candidates, db.flows, db.clock, t.t4);
    if db.candidates[step.id].status == PENDING {
      TerminateFollows(db.(clock := t.t4), step.id, t.t1, t.t2, t.t4);
      TerminateFollows(db.(clock := t.t4), step.id, t.t2, t.t3, t.t4);
    }
  }

  predicate Succeeds(db: Db, step: Step) {
    match step
    case Reserves(p, id, document, t) => Reserve(db, p, id, document, t).Ok?
    case Visits(p, id, cancel, t) => Visit(db, p, id, cancel, t).Ok?
    case Reviews(p, which, reject, t) => ReviewAny(db, p, which, reject, t).Ok?
    case Opens(p, id, request, t) => OpenFlow(db, p, id, request, t).Ok?
    case Polls(p, id, t) => Poll(db, p, id, t).Ok?
    case Environment(_, _) => true
  }

  lemma ReservesStep(db: Db, step: Step)
    requires Sound(db.candidates, db.flows, db.clock) && Enabled(db, step) && step.Reserves? && Succeeds(db, step)
    ensures Follows(db, Apply(db, step), step.t.t4) && Apply(db, step).clock == step.t.t4
  {
    ReservesFollows(db, step);
  }

  lemma VisitsStep(db: Db, step: Step)
    requires Sound(db.candidates, db.flows, db.clock) && Enabled(db, step) && step.Visits? && Succeeds(db, step)
    ensures Follows(db, Apply(db, step), step.t.t4) && Apply(db, step).clock == step.t.t4
  {
    VisitsFollows(db, step);
  }

  lemma ReviewsStep(db: Db, step: Step)
    requires Sound(db.candidates, db.flows, db.clock) && Enabled(db, step) && step.Reviews? && Succeeds(db, step)
    ensures Follows(db, Apply(db, step), step.t.t4) && Apply(db, step).clock == step.t.t4
  {
    ReviewsFollows(db, step);
  }

  lemma FlowsStep(db: Db, step: Step)
    requires Sound(db.candidates, db.flows, db.clock) && Enabled(db, step) && (step.Opens? || step.Polls?) && Succeeds(db, step)
    ensures Follows(db, Apply(db, step), step.t.t4) && Apply(db, step).clock == step.t.t4
  {
    if step.Opens? { OpensFollows(db, step); } else { PollsFollows(db, step); }
  }

  lemma EnvironmentStep(db: Db, step: Step)
    requires Sound(db.candidates, db.flows, db.clock) && Enabled(db, step) && step.Environment?
    ensures Follows(db, Apply(db, step), step.t.t4) && Apply(db, step).clock == step.t.t4
  {
    SoundLater(db.candidates, db.flows, db.clock, step.t.t4);
  }

  lemma FailedStep(db: Db, step: Step)
    requires !Succeeds(db, step)
    ensures Apply(db, step) == db
  {
  }

  lemma StepFollows(db: Db, step: Step)
    requires Sound(db.candidates, db.flows, db.clock) && Enabled(db, step)
    ensures Follows(db, Apply(db, step), Apply(db, step).clock)
  {
    if !Succeeds(db, step) { FailedStep(db, step); }
    else if step.Reserves? { ReservesStep(db, step); }
    else if step.Visits? { VisitsStep(db, step); }
    else if step.Reviews? { ReviewsStep(db, step); }
    else if step.Environment? { EnvironmentStep(db, step); }
    else { FlowsStep(db, step); }
  }

  lemma {:induction false} RunKeeps(states: seq<Db>, steps: seq<Step>, i: nat)
    requires Run(states, steps) && i < |states|
    ensures Sound(states[i].candidates, states[i].flows, states[i].clock)
  {
    if i > 0 {
      RunKeeps(states, steps, i - 1);
      StepFollows(states[i - 1], steps[i - 1]);
    }
  }

  lemma {:induction false} RunLater(states: seq<Db>, steps: seq<Step>, i: nat, j: nat)
    requires Run(states, steps) && i <= j < |states|
    ensures Later(states[i], states[j])
  {
    if i < j {
      RunLater(states, steps, i, j - 1);
      RunKeeps(states, steps, j - 1);
      StepFollows(states[j - 1], steps[j - 1]);
      LaterTransitive(states[i], states[j - 1], states[j]);
    }
  }

  // ---------------------------------------------------------------- theorems over whole runs

  lemma OnePendingPerUser(states: seq<Db>, steps: seq<Step>, i: nat, user: Id)
    requires Run(states, steps) && i < |states|
    ensures |PendingOf(states[i].candidates, user)| <= 1
  {
    RunKeeps(states, steps, i);
    var pending := PendingOf(states[i].candidates, user);
    if pending != {} {
      var c :| c in pending;
      assert pending == {c};
    }
  }

  /** The deadline never moves and lies within ten minutes; a terminal row never changes again; it is expired
      exactly when it was resolved at or after its deadline; and its flow ends with it and not before. */
  lemma CandidateOverTime(states: seq<Db>, steps: seq<Step>, i: nat, j: nat, c: Id)
    requires Run(states, steps) && i <= j < |states| && c in states[i].candidates
    ensures c in states[j].candidates
    ensures var (a, b) := (states[i].candidates[c], states[j].candidates[c]);
            && b.createdAt == a.createdAt && b.expiresAt == a.expiresAt
            && a.createdAt < a.expiresAt <= a.createdAt + 600000
            && (a.status != PENDING ==> b == a)
            && (a.status != PENDING ==> a.resolvedAt.Some? && (a.status == EXPIRED <==> a.resolvedAt.value >= a.expiresAt))
            && (a.status != PENDING && c in states[i].flows ==> states[i].flows[c].status != PENDING)
            && (b.status == PENDING && c in states[i].flows ==>
                  c in states[j].flows && states[j].flows[c] == states[i].flows[c])
  {
    RunKeeps(states, steps, i);
    RunLater(states, steps, i, j);
  }

  /** A new reservation ends within ten minutes and no later than the session and the subscription allow. */
  lemma ReservationIsBounded(db: Db, p: Principal, id: Id, document: Document, t: Times)
    requires t.InOrder() && id !in db.candidates && Reserve(db, p, id, document, t).Ok?
    ensures var (d, answer) := Reserve(db, p, id, document, t).value;
            && id in d.candidates && d.candidates[id].status == PENDING == answer.state
            && d.candidates[id].document == document && d.candidates[id].user == p.user
            && d.candidates[id].createdAt == t.t0 == answer.createdAt
            && t.t2 < d.candidates[id].expiresAt == answer.expiresAt
            && answer.expiresAt <= t.t0 + TEN_MINUTES
            && answer.expiresAt <= db.accounts.sessions[p.session].expiresAt
            && (db.accounts.users[p.user].subscriptionEnd.Some? ==>
                  answer.expiresAt <= db.accounts.users[p.user].subscriptionEnd.value)
            && d.candidates.Keys == db.candidates.Keys + {id}
  {
  }

  /** Repeating a reservation exactly returns the same row, with the deadline it was given, and adds none. */
  lemma ExactRepeatReturnsTheRow(states: seq<Db>, steps: seq<Step>, i: nat, j: nat, p: Principal, id: Id,
                                 document: Document, first: Times, again: Times)
    requires Run(states, steps) && i < j < |states|
    requires i < |steps| && steps[i] == Reserves(p, id, document, first) && Succeeds(states[i], steps[i])
    requires Enabled(states[j], Reserves(p, id, document, again)) && Succeeds(states[j], Reserves(p, id, document, again))
    ensures var (d, answer) := Reserve(states[j], p, id, document, again).value;
            && answer.createdAt == Reserve(states[i], p, id, document, first).value.1.createdAt
            && answer.expiresAt == Reserve(states[i], p, id, document, first).value.1.expiresAt
            && d.candidates.Keys == states[j].candidates.Keys
            && (states[j].candidates[id].status != PENDING ==> d.candidates == states[j].candidates)
  {
    ReservedRow(states[i], p, id, document, first);
    RunLater(states, steps, i + 1, j);
    ReservedRow(states[j], p, id, document, again);
  }

  lemma ReservedRow(db: Db, p: Principal, id: Id, document: Document, t: Times)
    requires Reserve(db, p, id, document, t).Ok?
    ensures var (d, answer) := Reserve(db, p, id, document, t).value;
            && id in d.candidates && answer.createdAt == d.candidates[id].createdAt
            && answer.expiresAt == d.candidates[id].expiresAt && answer.state == d.candidates[id].status
            && (id in db.candidates ==> d.candidates.Keys == db.candidates.Keys)
            && (id in db.candidates && db.candidates[id].status != PENDING ==> d.candidates == db.candidates)
            && (id in db.candidates ==> d.candidates[id].createdAt == db.candidates[id].createdAt
                                        && d.candidates[id].expiresAt == db.candidates[id].expiresAt)
  {
  }

  /** An identifier that was reserved for anything else is never taken over. */
  lemma OtherReservationIsRefused(states: seq<Db>, steps: seq<Step>, i: nat, j: nat, p: Principal, id: Id,
                                  document: Document, t: Times)
    requires Run(states, steps) && i <= j < |states| && id in states[i].candidates
    requires var row := states[i].candidates[id];
             row.user != p.user || row.session != p.session || row.document != document
    ensures Reserve(states[j], p, id, document, t).Err?
  {
    RunLater(states, steps, i, j);
  }

  function VisitAnswer(db: Db, step: Step): Answer
    requires step.Visits? && Succeeds(db, step)
  {
    Visit(db, step.p, step.id, step.cancel, step.t).value.1
  }

  /** What status and cancel answer is what they leave stored, and it agrees with the clock of the answer. */
  lemma AnswersAreStored(db: Db, step: Step)
    requires Sound(db.candidates, db.flows, db.clock) && Enabled(db, step) && step.Visits? && Succeeds(db, step)
    ensures var (d, answer) := (Apply(db, step), VisitAnswer(db, step));
            && step.id in db.candidates && step.id in d.candidates
            && answer == Answer(d.candidates[step.id].status, d.candidates[step.id].createdAt, d.candidates[step.id].expiresAt)
            && (answer.state == PENDING ==> !step.cancel && step.t.t2 < answer.expiresAt && d.candidates == db.candidates)
            && (answer.state == EXPIRED ==> answer.expiresAt <= step.t.t2)
  {
    assert CandidateSound(db.candidates[step.id], db.clock);
  }

  /** What the requester is told over time: the deadline stays, a terminal answer is repeated by every later
      visit, and nobody is told pending at or after the deadline or expired before it. */
  lemma VisitsAgree(states: seq<Db>, steps: seq<Step>, i: nat, j: nat)
    requires Run(states, steps) && i < j < |steps| && steps[i].Visits? && steps[j].Visits?
    requires steps[i].id == steps[j].id && Succeeds(states[i], steps[i]) && Succeeds(states[j], steps[j])
    ensures var (a, b) := (VisitAnswer(states[i], steps[i]), VisitAnswer(states[j], steps[j]));
            && b.createdAt == a.createdAt && b.expiresAt == a.expiresAt
            && (a.state != PENDING ==> b == a)
            && (b.state == PENDING ==> a.state == PENDING && !steps[i].cancel && !steps[j].cancel && steps[j].t.t2 < b.expiresAt)
            && (a.state == EXPIRED ==> a.expiresAt <= steps[i].t.t2)
  {
    RunKeeps(states, steps, i);
    RunKeeps(states, steps, j);
    AnswersAreStored(states[i], steps[i]);
    AnswersAreStored(states[j], steps[j]);
    RunLater(states, steps, i + 1, j + 1);
  }

  /** A poll delivers only while candidate and flow are pending and before both deadlines, and it always
      delivers the request that opened the flow; once the candidate is terminal nothing is delivered. */
  lemma DeliveryIsRepeatableUntilTerminal(states: seq<Db>, steps: seq<Step>, i: nat, j: nat, p: Principal, id: Id, t: Times)
    requires Run(states, steps) && i <= j < |states| && id in states[i].candidates && Enabled(states[j], Polls(p, id, t))
    requires Poll(states[j], p, id, t).Ok? && Poll(states[j], p, id, t).value.1.Some?
    ensures var f := Poll(states[j], p, id, t).value.1.value;
            && states[j].candidates[id].status == PENDING == f.status && t.t2 < f.expiresAt <= states[j].candidates[id].expiresAt
            && states[i].candidates[id].status == PENDING
            && (id in states[i].flows ==> f == states[i].flows[id])
            && states[j].candidates[id].session == p.session != f.reviewerSession
  {
    RunKeeps(states, steps, i);
    RunKeeps(states, steps, j);
    RunLater(states, steps, i, j);
  }

  /** A reviewer sees a candidate only while it is pending and before its deadline. */
  lemma ShownWhilePending(db: Db, p: Principal, which: Option<Id>, reject: bool, t: Times)
    requires ReviewAny(db, p, which, reject, t).Ok? && ReviewAny(db, p, which, reject, t).value.1.Shown?
    ensures var (d, shown) := ReviewAny(db, p, which, reject, t).value;
            && shown.candidate in db.candidates && db.candidates[shown.candidate].status == PENDING
            && t.t1 < db.candidates[shown.candidate].expiresAt && d.candidates == db.candidates
            && !reject && (which.Some? ==> shown.candidate == which.value)
            && db.candidates[shown.candidate].user == p.user
  {
  }

  /** A rejection always leaves the candidate terminal, whoever asked for it first. */
  lemma RejectionIsTerminal(db: Db, p: Principal, id: Id, t: Times)
    requires ReviewAny(db, p, Some(id), true, t).Ok? && id in Reviewable(db, p, Some(id))
    ensures var (d, rejected) := ReviewAny(db, p, Some(id), true, t).value;
            && id in d.candidates && d.candidates[id].status != PENDING && rejected == Rejected(d.candidates[id].status)
  {
    assert Reviewable(db, p, Some(id)) == {id};
  }

  // ---------------------------------------------------------------- an undisturbed ceremony succeeds

  /** A pending row past its deadline does not stand in the way of the next reservation. */
  lemma NextReservationSucceeds(db: Db, p: Principal, id: Id, document: Document, t: Times)
    requires t.InOrder() && p.device == None && Authority(db.accounts, p).Ok? && Current(db.accounts, p, t.t4)
    requires id !in db.candidates && id !in db.accounts.takenIds
    requires !KeysReused(db.accounts, Authority(db.accounts, p).value, document) && t.t2 < t.t0 + TEN_MINUTES
    requires forall c | c in PendingOf(db.candidates, p.user) :: db.candidates[c].expiresAt <= t.t0
    ensures Reserve(db, p, id, document, t).Ok? && Reserve(db, p, id, document, t).value.1.state == PENDING
  {
    var swept := ExpireOverdue(db, p.user, t.t0, t.t1);
    assert PendingOf(swept.candidates, p.user) == {};
  }

  /** What one trusted session opens, the candidate's session is given. */
  lemma OpenedFlowIsDelivered(db: Db, reviewer: Principal, p: Principal, id: Id, request: FlowRequest, t: Times, u: Times)
    requires t.InOrder() && u.InOrder() && t.t4 <= u.t0
    requires OpenFlow(db, reviewer, id, request, t).Ok? && OpenFlow(db, reviewer, id, request, t).value.1.Some?
    requires id in db.candidates && p == Principal(db.candidates[id].user, db.candidates[id].session, None)
    requires Current(db.accounts, p, u.t4) && Current(db.accounts, reviewer, u.t2) && db.candidates[id].createdAt <= u.t2
    requires var f := OpenFlow(db, reviewer, id, request, t).value.1.value;
             f.createdAt <= u.t2 < f.expiresAt <= Min(db.candidates[id].expiresAt, request.timestamp + TEN_MINUTES)
             && request.timestamp <= u.t2 + FIVE_MINUTES
    ensures Poll(OpenFlow(db, reviewer, id, request, t).value.0, p, id, u).Ok?
    ensures Poll(OpenFlow(db, reviewer, id, request, t).value.0, p, id, u).value.1
            == OpenFlow(db, reviewer, id, request, t).value.1
  {
  }
}
