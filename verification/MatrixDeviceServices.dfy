/**
 The four services over one set of tables. A transaction works on a copy that it commits at its end; the
 clock readings of each transaction are given in order. Parsing and signature checks are not part of this model.
 Sources: apps/api/src/e2ee/matrix-device-candidates.service.ts, matrix-device-candidate-review.service.ts,
 matrix-device-verification.service.ts, matrix-device-verification-inbox.service.ts.
*/
module MatrixDeviceServices {
  import opened Wrappers
  import opened DeviceQuarantine
  import opened DeviceQuarantineRuns

  class QuarantineStore {
    var db: Db

    ghost predicate Valid()
      reads this
    {
      Sound(db.candidates, db.flows, db.clock)
    }

    constructor ()
      ensures Valid() && db == START
    {
      db := START;
    }
  }

  /** The transaction did what the specification says, or failed as it says and changed nothing. */
  ghost predicate Transacted<T>(spec: Result<(Db, T), QuarantineError>, before: Db, after: Db, r: Result<T, QuarantineError>) {
    match spec
    case Ok(v) => r == Ok(v.1) && after == v.0
    case Err(e) => r == Err(e) && after == before
  }

  /** An update of a candidate's status, with the trigger that the update fires. Candidate and flow end
      together, each one expired or cancelled by its own deadline and clock, and no other row changes. */
  method UpdateStatus(tx: Db, id: Id, at: Instant, checkedAt: Instant) returns (d: Db)
    requires id in tx.candidates
    ensures d.candidates.Keys == tx.candidates.Keys && d.flows.Keys == tx.flows.Keys
    ensures d.candidates[id].status == (if at < tx.candidates[id].expiresAt then CANCELLED else EXPIRED)
    ensures d.candidates[id].resolvedAt == Some(at)
    ensures id in tx.flows ==> d.flows[id].status != PENDING
    ensures id in tx.flows && tx.flows[id].status == PENDING ==>
              d.flows[id].status == (if checkedAt < tx.flows[id].expiresAt then CANCELLED else EXPIRED)
    ensures forall c | c in tx.candidates && c != id :: d.candidates[c] == tx.candidates[c]
    ensures forall f | f in tx.flows && (f != id || tx.flows[f].status != PENDING) :: d.flows[f] == tx.flows[f]
    ensures d == Terminate(tx, id, at, checkedAt)
  {
    var row := tx.candidates[id];
    row := row.(status := if row.expiresAt <= at then EXPIRED else CANCELLED, resolvedAt := Some(at));
    d := tx.(candidates := tx.candidates[id := row]);
    if id in d.flows && d.flows[id].status == PENDING {
      var flow := d.flows[id];
      if flow.expiresAt <= checkedAt {
        flow := flow.(status := EXPIRED);
      } else {
        flow := flow.(status := CANCELLED);
      }
      d := d.(flows := d.flows[id := flow.(resolvedAt := Some(checkedAt))]);
    }
  }

  class MatrixDeviceCandidatesService {
    const store: QuarantineStore

    constructor (store: QuarantineStore)
      ensures this.store == store
    {
      this.store := store;
    }

    /** The part of withContext after the operation: `tx` is not committed yet. The answer is the row as it is
        committed, pending only before the deadline; a live result that lapsed meanwhile is an error instead. */
    method Finish(tx: Db, p: Principal, id: Id, requireLiveResult: bool, t: Times)
      returns (r: Result<(Db, Answer), QuarantineError>)
      requires id in tx.candidates
      ensures r.Ok? ==>
                var (d, answer) := r.value;
                && Current(tx.accounts, p, t.t2) && d.candidates.Keys == tx.candidates.Keys
                && answer == Answer(d.candidates[id].status, tx.candidates[id].createdAt, tx.candidates[id].expiresAt)
                && (answer.state == PENDING ==> t.t2 < answer.expiresAt)
                && (tx.candidates[id].status != PENDING || t.t2 < answer.expiresAt ==> d.candidates == tx.candidates)
                && (requireLiveResult && answer.state != tx.candidates[id].status ==> answer.expiresAt <= t.t0)
      ensures r == Conclude(tx, p, id, requireLiveResult, t)
    {
      var result := tx.candidates[id];
      if !Current(tx.accounts, p, t.t2) { return Err(UNAUTHORIZED); }
      if requireLiveResult && result.status == PENDING && result.expiresAt > t.t0 && result.expiresAt <= t.t2 {
        return Err(EXPIRED_DURING_OPERATION);
      }
      var d := tx;
      if result.status == PENDING && result.expiresAt <= t.t2 {
        d := UpdateStatus(tx, id, t.t2, t.t3);
        result := d.candidates[id];
        if !Current(tx.accounts, p, t.t4) { return Err(UNAUTHORIZED); }
      }
      return Ok((d.(clock := t.t4), Describe(result, t.t2)));
    }

    method ReserveDevice(p: Principal, id: Id, document: Document, t: Times) returns (r: Result<Answer, QuarantineError>)
      requires store.Valid() && store.db.clock <= t.t0 && t.InOrder()
      modifies store
      ensures store.Valid() && Transacted(Reserve(old(store.db), p, id, document, t), old(store.db), store.db, r)
    {
      StepFollows(store.db, Reserves(p, id, document, t));
      if p.device.Some? { return Err(FORBIDDEN); }
      var tx := store.db;
      var authority := Authority(tx.accounts, p);
      if authority.Err? { return Err(authority.error); }
      var identity := authority.value;
      if !Current(tx.accounts, p, t.t0) { return Err(UNAUTHORIZED); }
      if id in tx.candidates {
        if !SameReservation(tx.candidates[id], p, tx.accounts.users[p.user].version, identity, document) {
          return Err(REPLAY_MISMATCH);
        }
      } else {
        if id in tx.accounts.takenIds { return Err(ID_UNAVAILABLE); }
        if KeysReused(tx.accounts, identity, document) { return Err(KEY_REUSED); }
        tx := Sweep(tx, p.user, t.t0, t.t1);
        if PendingOf(tx.candidates, p.user) != {} { return Err(ALREADY_PENDING); }
        tx := tx.(candidates := tx.candidates[id := NewCandidate(tx.accounts, p, identity, document, t.t0)]);
      }
      var finished := Finish(tx, p, id, true, t);
      if finished.Err? { return Err(finished.error); }
      store.db := finished.value.0;
      return Ok(finished.value.1);
    }

    /** status, and with `cancelling` cancel. */
    method VisitDevice(p: Principal, id: Id, cancelling: bool, t: Times) returns (r: Result<Answer, QuarantineError>)
      requires store.Valid() && store.db.clock <= t.t0 && t.InOrder()
      modifies store
      ensures store.Valid() && Transacted(Visit(old(store.db), p, id, cancelling, t), old(store.db), store.db, r)
    {
      StepFollows(store.db, Visits(p, id, cancelling, t));
      if p.device.Some? { return Err(FORBIDDEN); }
      var tx := store.db;
      var authority := Authority(tx.accounts, p);
      if authority.Err? { return Err(authority.error); }
      if !Current(tx.accounts, p, t.t0) { return Err(UNAUTHORIZED); }
      var refusal := OwnRefusal(tx, p, id, authority.value);
      if refusal.Some? { return Err(refusal.value); }
      if cancelling && tx.candidates[id].status == PENDING {
        tx := UpdateStatus(tx, id, t.t0, t.t1);
      }
      var finished := Finish(tx, p, id, false, t);
      if finished.Err? { return Err(finished.error); }
      store.db := finished.value.0;
      return Ok(finished.value.1);
    }
  }

  /** The bulk update of overdue rows: the partial unique index leaves at most one to update. */
  method Sweep(tx: Db, user: Id, at: Instant, checkedAt: Instant) returns (d: Db)
    requires Sound(tx.candidates, tx.flows, tx.clock) && tx.clock <= at
    ensures d == ExpireOverdue(tx, user, at, checkedAt)
  {
    SoundLater(tx.candidates, tx.flows, tx.clock, at);
    SweepIsOneTermination(tx, user, at, checkedAt);
    d := tx;
    var overdue := Overdue(tx.candidates, user, at);
    if overdue != {} {
      var id :| id in overdue;
      assert overdue == {id};
      OverdueIsSwept(tx, user, at, checkedAt, id);
      d := UpdateStatus(tx, id, at, checkedAt);
    }
  }

  lemma OverdueIsSwept(db: Db, user: Id, at: Instant, checkedAt: Instant, id: Id)
    requires Overdue(db.candidates, user, at) == {id}
    ensures ExpireOverdue(db, user, at, checkedAt) == Terminate(db, id, at, checkedAt)
  {
    EndFlow(db.flows, id, checkedAt);
    var d := ExpireOverdue(db, user, at, checkedAt);
    assert d.candidates == Terminate(db, id, at, checkedAt).candidates;
    assert d.flows == Terminate(db, id, at, checkedAt).flows;
  }

  class MatrixDeviceReviewer {
    const store: QuarantineStore

    constructor (store: QuarantineStore)
      ensures this.store == store
    {
      this.store := store;
    }

    /** pending and detail, and with `reject` the rejection. */
    method ReviewCandidate(p: Principal, which: Option<Id>, reject: bool, t: Times)
      returns (r: Result<Review, QuarantineError>)
      requires store.Valid() && store.db.clock <= t.t0 && t.InOrder()
      modifies store
      ensures store.Valid() && Transacted(ReviewAny(old(store.db), p, which, reject, t), old(store.db), store.db, r)
    {
      StepFollows(store.db, Reviews(p, which, reject, t));
      var tx := store.db;
      var refusal := ReviewRefusal(tx.accounts, p, FORBIDDEN, t);
      if refusal.Some? { return Err(refusal.value); }
      var ids := Reviewable(tx, p, which);
      if |ids| != 1 {
        if !Current(tx.accounts, p, t.t1) { return Err(UNAUTHORIZED); }
        store.db := tx.(clock := t.t4);
        return Ok(Nothing);
      }
      var reviewed := ReviewRow(tx, p, TheOnly(ids), reject, t);
      if reviewed.Err? { return Err(reviewed.error); }
      store.db := reviewed.value.0;
      return Ok(reviewed.value.1);
    }

    method ReviewRow(tx: Db, p: Principal, id: Id, reject: bool, t: Times)
      returns (r: Result<(Db, Review), QuarantineError>)
      requires id in tx.candidates && p.user in tx.accounts.users && tx.accounts.users[p.user].identity.Some?
      ensures r == ReviewOne(tx, p, id, reject, t)
    {
      var row := tx.candidates[id];
      if row.bootstrap != tx.accounts.users[p.user].identity.value.bootstrap { return Err(CONTEXT_CHANGED); }
      var d := tx.(clock := t.t4);
      if reject {
        if !Current(tx.accounts, p, t.t1) { return Err(UNAUTHORIZED); }
        if row.status == PENDING { d := UpdateStatus(d, id, t.t1, t.t2); }
        if !Current(tx.accounts, p, t.t3) { return Err(UNAUTHORIZED); }
        return Ok((d, Rejected(d.candidates[id].status)));
      }
      if row.status != PENDING {
        if !Current(tx.accounts, p, t.t1) { return Err(UNAUTHORIZED); }
        return Ok((d, Nothing));
      }
      var requesterValid := RequesterValid(tx.accounts, row);
      if !Current(tx.accounts, p, t.t1) { return Err(UNAUTHORIZED); }
      if row.expiresAt <= t.t1 {
        d := UpdateStatus(d, id, t.t1, t.t2);
        if !Current(tx.accounts, p, t.t3) { return Err(UNAUTHORIZED); }
        return Ok((d, Nothing));
      }
      if !requesterValid || tx.accounts.sessions[row.session].expiresAt <= t.t1 { return Ok((d, Nothing)); }
      return Ok((d, Shown(id)));
    }
  }

  class MatrixDeviceVerificationInbox {
    const store: QuarantineStore

    constructor (store: QuarantineStore)
      ensures this.store == store
    {
      this.store := store;
    }

    method PollRequest(p: Principal, id: Id, t: Times) returns (r: Result<Option<Flow>, QuarantineError>)
      requires store.Valid() && store.db.clock <= t.t0 && t.InOrder()
      modifies store
      ensures store.Valid() && Transacted(Poll(old(store.db), p, id, t), old(store.db), store.db, r)
    {
      StepFollows(store.db, Polls(p, id, t));
      var polled := PollIn(store.db, p, id, t);
      if polled.Err? { return Err(polled.error); }
      store.db := polled.value.0;
      return Ok(polled.value.1);
    }

    method PollIn(tx: Db, p: Principal, id: Id, t: Times) returns (r: Result<(Db, Option<Flow>), QuarantineError>)
      ensures r == Poll(tx, p, id, t)
    {
      if p.device.Some? { return Err(FORBIDDEN); }
      var a := tx.accounts;
      if p.user !in a.users || !a.users[p.user].operational { return Err(UNAUTHORIZED); }
      if id !in tx.candidates { return Err(NOT_FOUND); }
      var candidate := tx.candidates[id];
      if candidate.user != p.user || candidate.session != p.session { return Err(NOT_FOUND); }
      if !Current(a, p, t.t0) { return Err(UNAUTHORIZED); }
      if !Current(a, p, t.t1) { return Err(UNAUTHORIZED); }
      if candidate.sessionVersion != a.users[p.user].version { return Err(CONTEXT_CHANGED); }
      var d := tx.(clock := t.t4);
      if NeedsExpiration(tx, id, t.t1) {
        d := UpdateStatus(d, id, t.t1, t.t2);
        if !Current(a, p, t.t3) { return Err(UNAUTHORIZED); }
        return Ok((d, None));
      }
      if candidate.status != PENDING || id !in tx.flows { return Ok((d, None)); }
      var flow := tx.flows[id];
      if flow.status != PENDING { return Ok((d, None)); }
      if !FlowMatches(a, p, candidate, flow) { return Err(CONTEXT_CHANGED); }
      if !a.users[p.user].identity.value.deviceActive || !PeerValid(a, candidate, flow, t.t1) { return Ok((d, None)); }
      if !Current(a, p, t.t2) { return Err(UNAUTHORIZED); }
      if NeedsExpiration(tx, id, t.t2) {
        d := UpdateStatus(d, id, t.t2, t.t3);
        if !Current(a, p, t.t4) { return Err(UNAUTHORIZED); }
        return Ok((d, None));
      }
      if a.sessions[flow.reviewerSession].expiresAt <= t.t2 { return Ok((d, None)); }
      if !InWindow(candidate, flow, t.t2) { return Ok((d, None)); }
      return Ok((d, Some(flow)));
    }
  }
}
