/**
 The quarantine of a device that asks to join an account: one row per candidate and at most one verification
 flow per row, written by four services. Each operation is one transaction that reads the database clock
 several times; a hash stands for the document it is computed from.
 Sources: apps/api/src/e2ee/matrix-device-candidates.service.ts, matrix-device-candidate-review.service.ts,
 matrix-device-verification-inbox.service.ts, matrix-device-verification.service.ts, and the trigger of
 apps/api/prisma/migrations/20260913000000_matrix_device_verification_flow/migration.sql.
*/
module DeviceQuarantine {
  import opened Arithmetic
  import opened Wrappers

  type Id = nat
  type Instant = int

  datatype Status = PENDING | CANCELLED | EXPIRED

  /** The public keys a candidate submits, with everything else its canonical hash covers. */
  datatype Document = Document(ed25519Key: string, curve25519Key: string, rest: string)

  datatype Candidate = Candidate(
    user: Id,
    session: Id,
    sessionVersion: nat,
    trustedDevice: Id,
    bootstrap: string,
    document: Document,
    status: Status,
    createdAt: Instant,
    expiresAt: Instant,
    resolvedAt: Option<Instant>)

  /** The request a reviewer opens a flow with. */
  datatype FlowRequest = FlowRequest(flowId: string, transaction: string, content: string, timestamp: Instant)

  datatype Flow = Flow(
    user: Id,
    reviewerSession: Id,
    reviewerVersion: nat,
    request: FlowRequest,
    status: Status,
    createdAt: Instant,
    expiresAt: Instant,
    resolvedAt: Option<Instant>)

  datatype Session = Session(user: Id, device: Option<Id>, revoked: bool, expiresAt: Instant, version: nat)

  datatype Identity = Identity(bootstrapDevice: Id, bootstrap: string, keys: set<string>, deviceActive: bool)

  /** `operational`: active, with no password reset pending, and for a cashier with a subscription. */
  datatype User = User(operational: bool, version: nat, subscriptionEnd: Option<Instant>, identity: Option<Identity>)

  datatype Accounts = Accounts(
    users: map<Id, User>,
    sessions: map<Id, Session>,
    takenIds: set<Id>,
    takenKeys: set<string>)

  /** `flows` is keyed by the candidate's id. */
  datatype Db = Db(candidates: map<Id, Candidate>, flows: map<Id, Flow>, accounts: Accounts, clock: Instant)

  datatype Principal = Principal(user: Id, session: Id, device: Option<Id>)

  /** The clock readings of one transaction, in order. */
  datatype Times = Times(t0: Instant, t1: Instant, t2: Instant, t3: Instant, t4: Instant) {
    predicate InOrder() { t0 <= t1 <= t2 <= t3 <= t4 }
  }

  datatype QuarantineError =
    | FORBIDDEN | UNAUTHORIZED | IDENTITY_REQUIRED | REPLAY_MISMATCH | ID_UNAVAILABLE | KEY_REUSED
    | ALREADY_PENDING | EXPIRED_DURING_OPERATION | NOT_FOUND | CONTEXT_CHANGED | TIMESTAMP_STALE

  const TEN_MINUTES := 600000
  const FIVE_MINUTES := 300000

  // ---------------------------------------------------------------- authority

  predicate Current(a: Accounts, p: Principal, at: Instant) {
    && p.user in a.users && p.session in a.sessions
    && var (u, s) := (a.users[p.user], a.sessions[p.session]);
       && s.user == p.user && s.device == p.device && !s.revoked && s.expiresAt > at && s.version == u.version
       && u.operational && (u.subscriptionEnd == None || u.subscriptionEnd.value > at)
  }

  function Within(limit: Instant, end: Option<Instant>): Instant {
    match end case None => limit case Some(e) => Min(limit, e)
  }

  /** What withContext checks before the first reading of the session. */
  function Authority(a: Accounts, p: Principal): Result<Identity, QuarantineError> {
    if p.user !in a.users || !a.users[p.user].operational then Err(UNAUTHORIZED)
    else if a.users[p.user].identity == None then Err(IDENTITY_REQUIRED)
    else if !a.users[p.user].identity.value.deviceActive then Err(UNAUTHORIZED)
    else Ok(a.users[p.user].identity.value)
  }

  // ---------------------------------------------------------------- terminal transitions

  function PendingOf(rows: map<Id, Candidate>, user: Id): set<Id> {
    set c | c in rows && rows[c].user == user && rows[c].status == PENDING
  }

  /** The trigger on the candidate's status: a pending flow ends with it, by a clock of its own. */
  function Invalidate(flows: map<Id, Flow>, id: Id, checkedAt: Instant): map<Id, Flow> {
    if id in flows && flows[id].status == PENDING
    then flows[id := flows[id].(status := if flows[id].expiresAt <= checkedAt then EXPIRED else CANCELLED,
                                resolvedAt := Some(checkedAt))]
    else flows
  }

  /** Expired beats cancelled. */
  function Terminate(db: Db, id: Id, at: Instant, checkedAt: Instant): Db
    requires id in db.candidates
  {
    var row := db.candidates[id];
    db.(candidates := db.candidates[id := row.(status := if row.expiresAt <= at then EXPIRED else CANCELLED,
                                               resolvedAt := Some(at))],
        flows := Invalidate(db.flows, id, checkedAt))
  }

  // ---------------------------------------------------------------- the requester's service

  /** What a requester is told about its candidate. */
  datatype Answer = Answer(state: Status, createdAt: Instant, expiresAt: Instant)

  function Describe(row: Candidate, at: Instant): Answer {
    Answer(if row.status == PENDING && row.expiresAt <= at then EXPIRED else row.status, row.createdAt, row.expiresAt)
  }

  /** The end of withContext: an expiry that was observed is kept, even by a status poll. */
  function Conclude(db: Db, p: Principal, id: Id, mustBeLive: bool, t: Times): Result<(Db, Answer), QuarantineError>
    requires id in db.candidates
  {
    var row := db.candidates[id];
    if !Current(db.accounts, p, t.t2) then Err(UNAUTHORIZED)
    else if mustBeLive && row.status == PENDING && t.t0 < row.expiresAt <= t.t2 then Err(EXPIRED_DURING_OPERATION)
    else if row.status == PENDING && row.expiresAt <= t.t2 then
      var latched := Terminate(db, id, t.t2, t.t3);
      if !Current(db.accounts, p, t.t4) then Err(UNAUTHORIZED)
      else Ok((latched.(clock := t.t4), Describe(latched.candidates[id], t.t2)))
    else Ok((db.(clock := t.t4), Describe(row, t.t2)))
  }

  predicate SameReservation(row: Candidate, p: Principal, version: nat, identity: Identity, document: Document) {
    && row.user == p.user && row.session == p.session && row.sessionVersion == version && row.document == document
    && row.bootstrap == identity.bootstrap && row.trustedDevice == identity.bootstrapDevice
  }

  predicate KeysReused(a: Accounts, identity: Identity, document: Document) {
    var keys := {document.ed25519Key, document.curve25519Key};
    document.ed25519Key == document.curve25519Key || keys * identity.keys != {} || keys * a.takenKeys != {}
  }

  /** Pending rows of the user whose deadline has passed; the invariants leave at most one. */
  function Overdue(rows: map<Id, Candidate>, user: Id, at: Instant): set<Id> {
    set c | c in PendingOf(rows, user) && rows[c].expiresAt <= at
  }

  function ExpireOverdue(db: Db, user: Id, at: Instant, checkedAt: Instant): Db {
    var overdue := Overdue(db.candidates, user, at);
    db.(candidates := map c | c in db.candidates ::
                        if c in overdue then db.candidates[c].(status := EXPIRED, resolvedAt := Some(at)) else db.candidates[c],
        flows := map c | c in db.flows ::
                   if c in overdue then Invalidate(db.flows, c, checkedAt)[c] else db.flows[c])
  }

  function NewCandidate(a: Accounts, p: Principal, identity: Identity, document: Document, at: Instant): Candidate
    requires Current(a, p, at)
  {
    Candidate(p.user, p.session, a.users[p.user].version, identity.bootstrapDevice, identity.bootstrap, document,
              PENDING, at,
              Within(Min(at + TEN_MINUTES, a.sessions[p.session].expiresAt), a.users[p.user].subscriptionEnd), None)
  }

  function Reserve(db: Db, p: Principal, id: Id, document: Document, t: Times): Result<(Db, Answer), QuarantineError> {
    if p.device.Some? then Err(FORBIDDEN)
    else match Authority(db.accounts, p)
      case Err(e) => Err(e)
      case Ok(identity) =>
        if !Current(db.accounts, p, t.t0) then Err(UNAUTHORIZED)
        else if id in db.candidates then
          if SameReservation(db.candidates[id], p, db.accounts.users[p.user].version, identity, document)
          then Conclude(db, p, id, true, t) else Err(REPLAY_MISMATCH)
        else if id in db.accounts.takenIds then Err(ID_UNAVAILABLE)
        else if KeysReused(db.accounts, identity, document) then Err(KEY_REUSED)
        else
          var swept := ExpireOverdue(db, p.user, t.t0, t.t1);
          if PendingOf(swept.candidates, p.user) != {} then Err(ALREADY_PENDING)
          else
            var row := NewCandidate(db.accounts, p, identity, document, t.t0);
            Conclude(swept.(candidates := swept.candidates[id := row]), p, id, true, t)
  }

  /** ownCandidate */
  function OwnRefusal(db: Db, p: Principal, id: Id, identity: Identity): Option<QuarantineError>
    requires p.user in db.accounts.users
  {
    if id !in db.candidates || db.candidates[id].user != p.user || db.candidates[id].session != p.session
    then Some(NOT_FOUND)
    else if db.candidates[id].sessionVersion != db.accounts.users[p.user].version
            || db.candidates[id].bootstrap != identity.bootstrap
            || db.candidates[id].trustedDevice != identity.bootstrapDevice
    then Some(CONTEXT_CHANGED)
    else None
  }

  /** status and cancel differ only in what they do with a pending row. */
  function Visit(db: Db, p: Principal, id: Id, cancel: bool, t: Times): Result<(Db, Answer), QuarantineError> {
    if p.device.Some? then Err(FORBIDDEN)
    else match Authority(db.accounts, p)
      case Err(e) => Err(e)
      case Ok(identity) =>
        if !Current(db.accounts, p, t.t0) then Err(UNAUTHORIZED)
        else match OwnRefusal(db, p, id, identity)
          case Some(e) => Err(e)
          case None =>
            var d := if cancel && db.candidates[id].status == PENDING then Terminate(db, id, t.t0, t.t1) else db;
            Conclude(d, p, id, false, t)
  }

  // ---------------------------------------------------------------- the reviewer's service

  datatype Review = Nothing | Shown(candidate: Id) | Rejected(state: Status)

  function Reviewable(db: Db, p: Principal, which: Option<Id>): set<Id> {
    set c | c in db.candidates && db.candidates[c].user == p.user && Some(db.candidates[c].trustedDevice) == p.device
            && (if which.Some? then c == which.value else db.candidates[c].status == PENDING)
  }

  /** The candidate's own session is still the one it asked from. */
  predicate RequesterValid(a: Accounts, row: Candidate) {
    && row.session in a.sessions && row.user in a.users
    && var s := a.sessions[row.session];
       s.user == row.user && s.device == None && !s.revoked && s.version == row.sessionVersion == a.users[row.user].version
  }

  /** The reviewer's session must belong to the account's trusted device. */
  function ReviewRefusal(a: Accounts, p: Principal, untrusted: QuarantineError, t: Times): Option<QuarantineError> {
    if p.device == None then Some(FORBIDDEN)
    else if p.user !in a.users || !a.users[p.user].operational then Some(UNAUTHORIZED)
    else if a.users[p.user].identity == None || Some(a.users[p.user].identity.value.bootstrapDevice) != p.device
    then Some(untrusted)
    else if !a.users[p.user].identity.value.deviceActive || !Current(a, p, t.t0) then Some(UNAUTHORIZED)
    else None
  }

  function ReviewOne(db: Db, p: Principal, id: Id, reject: bool, t: Times): Result<(Db, Review), QuarantineError>
    requires id in db.candidates && p.user in db.accounts.users && db.accounts.users[p.user].identity.Some?
  {
    var row := db.candidates[id];
    var done := db.(clock := t.t4);
    if row.bootstrap != db.accounts.users[p.user].identity.value.bootstrap then Err(CONTEXT_CHANGED)
    else if !Current(db.accounts, p, t.t1) then Err(UNAUTHORIZED)
    else if reject then
      var d := if row.status == PENDING then Terminate(done, id, t.t1, t.t2) else done;
      if !Current(db.accounts, p, t.t3) then Err(UNAUTHORIZED) else Ok((d, Rejected(d.candidates[id].status)))
    else if row.status != PENDING then Ok((done, Nothing))
    else if row.expiresAt <= t.t1 then
      if !Current(db.accounts, p, t.t3) then Err(UNAUTHORIZED) else Ok((Terminate(done, id, t.t1, t.t2), Nothing))
    else
      Ok((done, if RequesterValid(db.accounts, row) && db.accounts.sessions[row.session].expiresAt > t.t1
                then Shown(id) else Nothing))
  }

  function ReviewAny(db: Db, p: Principal, which: Option<Id>, reject: bool, t: Times): Result<(Db, Review), QuarantineError> {
    match ReviewRefusal(db.accounts, p, FORBIDDEN, t)
    case Some(e) => Err(e)
    case None =>
      var ids := Reviewable(db, p, which);
      if |ids| != 1 then
        if !Current(db.accounts, p, t.t1) then Err(UNAUTHORIZED) else Ok((db.(clock := t.t4), Nothing))
      else
        ReviewOne(db, p, TheOnly(ids), reject, t)
  }

  function TheOnly(ids: set<Id>): (id: Id)
    requires |ids| == 1
    ensures ids == {id}
  {
    OnlyOne(ids);
    var id :| id in ids;
    id
  }

  lemma OnlyOne(ids: set<Id>)
    requires |ids| == 1
    ensures forall x, y | x in ids && y in ids :: x == y
    ensures exists x :: x in ids && ids == {x}
  {
    var x :| x in ids;
    assert |ids - {x}| == 0;
    assert ids == {x};
  }

  // ---------------------------------------------------------------- opening and delivering a flow

  predicate FlowIdsTaken(db: Db, request: FlowRequest) {
    exists c | c in db.flows ::
      db.flows[c].request.flowId == request.flowId || db.flows[c].request.transaction == request.transaction
  }

  predicate NeedsExpiration(db: Db, id: Id, at: Instant)
    requires id in db.candidates
  {
    && db.candidates[id].status == PENDING
    && (db.candidates[id].expiresAt <= at
        || (id in db.flows && db.flows[id].status == PENDING && db.flows[id].expiresAt <= at))
  }

  function NewFlow(db: Db, p: Principal, id: Id, request: FlowRequest, at: Instant): Flow
    requires id in db.candidates && db.candidates[id].session in db.accounts.sessions && Current(db.accounts, p, at)
  {
    Flow(p.user, p.session, db.accounts.users[p.user].version, request, PENDING, at,
         Within(Min(Min(db.candidates[id].expiresAt, db.accounts.sessions[db.candidates[id].session].expiresAt),
                    Min(db.accounts.sessions[p.session].expiresAt, Min(at, request.timestamp) + TEN_MINUTES)),
                db.accounts.users[p.user].subscriptionEnd),
         None)
  }

  /** None is the conflict that is thrown after the transaction has committed. */
  function OpenFlow(db: Db, p: Principal, id: Id, request: FlowRequest, t: Times): Result<(Db, Option<Flow>), QuarantineError> {
    match ReviewRefusal(db.accounts, p, NOT_FOUND, t)
    case Some(e) => Err(e)
    case None =>
      if id !in Reviewable(db, p, Some(id)) then Err(NOT_FOUND)
      else
        var row := db.candidates[id];
        var done := db.(clock := t.t4);
        if row.bootstrap != db.accounts.users[p.user].identity.value.bootstrap then Err(CONTEXT_CHANGED)
        else if row.session == p.session || row.session !in db.accounts.sessions
                || db.accounts.sessions[row.session].user != p.user
        then Err(NOT_FOUND)
        else if !Current(db.accounts, p, t.t1) then Err(UNAUTHORIZED)
        else if !RequesterValid(db.accounts, row) || db.accounts.sessions[row.session].expiresAt <= t.t1 then Err(NOT_FOUND)
        else if row.status != PENDING then Ok((done, None))
        else if NeedsExpiration(db, id, t.t1) then
          if !Current(db.accounts, p, t.t3) then Err(UNAUTHORIZED) else Ok((Terminate(done, id, t.t1, t.t2), None))
        else if id in db.flows then
          var f := db.flows[id];
          if f.status == PENDING && f.user == p.user && f.request == request && f.reviewerSession == p.session
             && f.reviewerVersion == db.accounts.users[p.user].version
          then Ok((done, Some(f))) else Err(CONTEXT_CHANGED)
        else if request.timestamp < t.t1 - TEN_MINUTES || request.timestamp > t.t1 + FIVE_MINUTES then Err(TIMESTAMP_STALE)
        else
          var f := NewFlow(db, p, id, request, t.t1);
          if f.expiresAt <= t.t1 || FlowIdsTaken(db, request) then Err(CONTEXT_CHANGED)
          else if !Current(db.accounts, p, t.t2) then Err(UNAUTHORIZED)
          else if f.expiresAt <= t.t2 || db.accounts.sessions[row.session].expiresAt <= t.t2 then Err(CONTEXT_CHANGED)
          else Ok((done.(flows := db.flows[id := f]), Some(f)))
  }

  predicate PeerValid(a: Accounts, row: Candidate, f: Flow, at: Instant) {
    && f.reviewerSession in a.sessions
    && var s := a.sessions[f.reviewerSession];
       && s.user == row.user && s.device == Some(row.trustedDevice) && !s.revoked && s.version == f.reviewerVersion
       && s.expiresAt > at
  }

  predicate FlowMatches(a: Accounts, p: Principal, row: Candidate, f: Flow)
    requires p.user in a.users
  {
    && f.user == p.user && f.reviewerSession != p.session && f.reviewerVersion == a.users[p.user].version
    && a.users[p.user].identity.Some?
    && a.users[p.user].identity.value.bootstrapDevice == row.trustedDevice
    && a.users[p.user].identity.value.bootstrap == row.bootstrap
  }

  /** Delivery never goes ahead of a stored date and never beyond the request's ten minutes. */
  predicate InWindow(row: Candidate, f: Flow, at: Instant) {
    && row.createdAt <= at && f.createdAt <= at
    && f.request.timestamp <= at + FIVE_MINUTES && at < f.request.timestamp + TEN_MINUTES
  }

  function Poll(db: Db, p: Principal, id: Id, t: Times): Result<(Db, Option<Flow>), QuarantineError> {
    if p.device.Some? then Err(FORBIDDEN)
    else if p.user !in db.accounts.users || !db.accounts.users[p.user].operational then Err(UNAUTHORIZED)
    else if id !in db.candidates || db.candidates[id].user != p.user || db.candidates[id].session != p.session then Err(NOT_FOUND)
    else if !Current(db.accounts, p, t.t0) || !Current(db.accounts, p, t.t1) then Err(UNAUTHORIZED)
    else
      var row := db.candidates[id];
      var done := db.(clock := t.t4);
      if row.sessionVersion != db.accounts.users[p.user].version then Err(CONTEXT_CHANGED)
      else if NeedsExpiration(db, id, t.t1) then
        if !Current(db.accounts, p, t.t3) then Err(UNAUTHORIZED) else Ok((Terminate(done, id, t.t1, t.t2), None))
      else if row.status != PENDING || id !in db.flows || db.flows[id].status != PENDING then Ok((done, None))
      else
        var f := db.flows[id];
        if !FlowMatches(db.accounts, p, row, f) then Err(CONTEXT_CHANGED)
        else if !db.accounts.users[p.user].identity.value.deviceActive || !PeerValid(db.accounts, row, f, t.t1)
        then Ok((done, None))
        else if !Current(db.accounts, p, t.t2) then Err(UNAUTHORIZED)
        else if NeedsExpiration(db, id, t.t2) then
          if !Current(db.accounts, p, t.t4) then Err(UNAUTHORIZED) else Ok((Terminate(done, id, t.t2, t.t3), None))
        else if !PeerValid(db.accounts, row, f, t.t2) || !InWindow(row, f, t.t2) then Ok((done, None))
        else Ok((done, Some(f)))
  }
}
