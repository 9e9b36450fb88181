/** What each operation on a candidate answers, read off the user, session, candidate and flow rows alone. */
module DeviceQuarantineAnswers {
  import opened Wrappers
  import opened DeviceQuarantine
  import opened DeviceQuarantineRuns

  // ---------------------------------------------------------------- in terms of rows

  /** The session is in use at `at`, by this user, from this device, and as old as this version. */
  predicate SessionInUse(a: Accounts, id: Id, user: Id, device: Option<Id>, version: nat, at: Instant) {
    && id in a.sessions
    && var s := a.sessions[id];
       s.user == user && s.device == device && !s.revoked && s.version == version && at < s.expiresAt
  }

  /** The account works and its session is in use. */
  predicate MayAct(a: Accounts, p: Principal, at: Instant) {
    && p.user in a.users && a.users[p.user].operational
    && (a.users[p.user].subscriptionEnd == None || at < a.users[p.user].subscriptionEnd.value)
    && SessionInUse(a, p.session, p.user, p.device, a.users[p.user].version, at)
  }

  /** The account's identity, once it has one and its first device is active. */
  predicate HasIdentity(a: Accounts, user: Id) {
    user in a.users && a.users[user].operational && a.users[user].identity.Some? && a.users[user].identity.value.deviceActive
  }

  /** A session on the account's first device. */
  predicate Trusted(a: Accounts, p: Principal) {
    HasIdentity(a, p.user) && p.device == Some(a.users[p.user].identity.value.bootstrapDevice)
  }

  /** The row ended at `at`, its flow with it at `checkedAt`, each cancelled before its deadline and expired after. */
  ghost predicate EndedAt(db: Db, d: Db, id: Id, at: Instant, checkedAt: Instant)
    requires id in db.candidates
  {
    var (row, flows) := (db.candidates[id], db.flows);
    && d.candidates == db.candidates[id := row.(status := if at < row.expiresAt then CANCELLED else EXPIRED, resolvedAt := Some(at))]
    && d.flows == if id in flows && flows[id].status == PENDING
                  then flows[id := flows[id].(status := if checkedAt < flows[id].expiresAt then CANCELLED else EXPIRED,
                                              resolvedAt := Some(checkedAt))]
                  else flows
  }

  ghost predicate Unchanged(db: Db, d: Db) { d.candidates == db.candidates && d.flows == db.flows }

  /** The transaction committed at `t4` without touching the accounts. */
  ghost predicate Committed(db: Db, d: Db, t: Times) { d.accounts == db.accounts && d.clock == t.t4 }

  // ---------------------------------------------------------------- review

  /** The only row that a review with this device is about. */
  ghost predicate UnderReview(db: Db, p: Principal, which: Option<Id>, c: Id) {
    MayReview(db, p, which, c) && forall other | MayReview(db, p, which, other) :: other == c
  }

  predicate MayReview(db: Db, p: Principal, which: Option<Id>, c: Id) {
    && c in db.candidates && db.candidates[c].user == p.user && p.device == Some(db.candidates[c].trustedDevice)
    && match which case Some(id) => c == id case None => db.candidates[c].status == PENDING
  }

  lemma TheOnlyReviewable(db: Db, p: Principal, which: Option<Id>)
    ensures |Reviewable(db, p, which)| == 1 ==> UnderReview(db, p, which, TheOnly(Reviewable(db, p, which)))
    ensures |Reviewable(db, p, which)| != 1 ==> forall c :: !UnderReview(db, p, which, c)
  {
    var ids := Reviewable(db, p, which);
    forall c: Id ensures c in ids <==> MayReview(db, p, which, c) {}
    forall c: Id | UnderReview(db, p, which, c) ensures ids == {c} {}
    if |ids| == 1 { assert MayReview(db, p, which, TheOnly(ids)); }
  }

  /** A pending candidate before its deadline, still asked for by its own session, which is on no device. */
  predicate StillAsked(db: Db, c: Id, at: Instant) {
    && c in db.candidates && db.candidates[c].user in db.accounts.users
    && var row := db.candidates[c];
       && row.status == PENDING && at < row.expiresAt && row.sessionVersion == db.accounts.users[row.user].version
       && SessionInUse(db.accounts, row.session, row.user, None, row.sessionVersion, at)
  }

  /** A review without rejection shows a candidate exactly when it is the only one to review and is still
      asked for; an overdue one ends, and nothing else changes. */
  lemma ReviewShows(db: Db, p: Principal, which: Option<Id>, t: Times)
    requires ReviewAny(db, p, which, false, t).Ok?
    ensures var (d, answer) := ReviewAny(db, p, which, false, t).value;
            && Committed(db, d, t) && !answer.Rejected?
            && (forall c :: answer == Shown(c) <==> UnderReview(db, p, which, c) && StillAsked(db, c, t.t1))
            && (forall c | UnderReview(db, p, which, c) ::
                  if db.candidates[c].status == PENDING && db.candidates[c].expiresAt <= t.t1
                  then EndedAt(db, d, c, t.t1, t.t2) else Unchanged(db, d))
            && ((forall c :: !UnderReview(db, p, which, c)) ==> Unchanged(db, d))
  {
    TheOnlyReviewable(db, p, which);
  }

  /** A rejection ends the only candidate under review if it is pending, and answers how it stands. */
  lemma ReviewRejects(db: Db, p: Principal, which: Option<Id>, t: Times)
    requires ReviewAny(db, p, which, true, t).Ok?
    ensures var (d, answer) := ReviewAny(db, p, which, true, t).value;
            && Committed(db, d, t)
            && (forall c | UnderReview(db, p, which, c) ::
                  && c in d.candidates && answer == Rejected(d.candidates[c].status)
                  && if db.candidates[c].status == PENDING then EndedAt(db, d, c, t.t1, t.t2) else Unchanged(db, d))
            && ((forall c :: !UnderReview(db, p, which, c)) ==> answer == Nothing && Unchanged(db, d))
  {
    TheOnlyReviewable(db, p, which);
  }

  /** Who may review: a session of the account's first device that is in use throughout. */
  lemma ReviewIsRefused(db: Db, p: Principal, which: Option<Id>, reject: bool, t: Times)
    ensures ReviewAny(db, p, which, reject, t).Ok? <==>
              && Trusted(db.accounts, p) && MayAct(db.accounts, p, t.t0) && MayAct(db.accounts, p, t.t1)
              && forall c | UnderReview(db, p, which, c) ::
                   && db.candidates[c].bootstrap == db.accounts.users[p.user].identity.value.bootstrap
                   && (reject || (db.candidates[c].status == PENDING && db.candidates[c].expiresAt <= t.t1)
                       ==> MayAct(db.accounts, p, t.t3))
    ensures ReviewAny(db, p, which, reject, t) == Err(CONTEXT_CHANGED) ==>
              exists c :: UnderReview(db, p, which, c)
                          && db.candidates[c].bootstrap != db.accounts.users[p.user].identity.value.bootstrap
    ensures ReviewAny(db, p, which, reject, t) == Err(FORBIDDEN) <==>
              p.device == None
              || (p.user in db.accounts.users && db.accounts.users[p.user].operational
                  && (db.accounts.users[p.user].identity == None
                      || Some(db.accounts.users[p.user].identity.value.bootstrapDevice) != p.device))
    ensures ReviewAny(db, p, which, reject, t).Err? ==>
              ReviewAny(db, p, which, reject, t).error in {FORBIDDEN, UNAUTHORIZED, CONTEXT_CHANGED}
  {
    TheOnlyReviewable(db, p, which);
  }

  // ---------------------------------------------------------------- poll

  /** The rows that make a flow deliverable to the candidate's session at the two readings of the clock. */
  ghost predicate Deliverable(db: Db, p: Principal, id: Id, t: Times) {
    && id in db.candidates && id in db.flows && HasIdentity(db.accounts, p.user)
    && var (row, f, identity) := (db.candidates[id], db.flows[id], db.accounts.users[p.user].identity.value);
       && row.status == PENDING == f.status
       && t.t1 < row.expiresAt && t.t2 < row.expiresAt && t.t1 < f.expiresAt && t.t2 < f.expiresAt
       && f.user == p.user && f.reviewerSession != p.session && f.reviewerVersion == db.accounts.users[p.user].version
       && identity.bootstrapDevice == row.trustedDevice && identity.bootstrap == row.bootstrap
       && SessionInUse(db.accounts, f.reviewerSession, p.user, Some(row.trustedDevice), f.reviewerVersion, t.t1)
       && SessionInUse(db.accounts, f.reviewerSession, p.user, Some(row.trustedDevice), f.reviewerVersion, t.t2)
       && row.createdAt <= t.t2 && f.createdAt <= t.t2
       && f.request.timestamp - 300000 <= t.t2 < f.request.timestamp + 600000
  }

  ghost predicate Asks(db: Db, p: Principal, id: Id, t: Times) {
    && p.device == None && id in db.candidates && db.candidates[id].user == p.user && db.candidates[id].session == p.session
    && MayAct(db.accounts, p, t.t0) && MayAct(db.accounts, p, t.t1)
    && db.candidates[id].sessionVersion == db.accounts.users[p.user].version
  }

  /** A poll that succeeds delivers the stored flow exactly when it is deliverable, and otherwise nothing. */
  lemma PollDelivers(db: Db, p: Principal, id: Id, t: Times)
    requires t.InOrder() && Poll(db, p, id, t).Ok?
    ensures var (d, delivered) := Poll(db, p, id, t).value;
            && Asks(db, p, id, t) && Committed(db, d, t)
            && (delivered.Some? <==> Deliverable(db, p, id, t))
            && (delivered.Some? ==> delivered.value == db.flows[id] && Unchanged(db, d))
            && (Unchanged(db, d) || EndedAt(db, d, id, t.t1, t.t2) || EndedAt(db, d, id, t.t2, t.t3))
  {
  }

  /** A poll ends its candidate exactly when the candidate or its pending flow is over at a reading it gets to. */
  lemma PollEnds(db: Db, p: Principal, id: Id, t: Times)
    requires t.InOrder() && Poll(db, p, id, t).Ok? && db.candidates[id].status == PENDING
    ensures var over := (at: Instant) =>
              db.candidates[id].expiresAt <= at || (id in db.flows && db.flows[id].status == PENDING && db.flows[id].expiresAt <= at);
            var d := Poll(db, p, id, t).value.0;
            && (over(t.t1) ==> EndedAt(db, d, id, t.t1, t.t2))
            && (!over(t.t2) ==> Unchanged(db, d))
            && (!over(t.t1) && !Unchanged(db, d) ==> EndedAt(db, d, id, t.t2, t.t3))
  {
  }

  /** Polling is refused to a session on a device, to an account or session out of use, for a candidate of
      another session, and when the account's version or identity has changed. */
  lemma PollIsRefused(db: Db, p: Principal, id: Id, t: Times)
    requires t.InOrder()
    ensures Poll(db, p, id, t) == Err(FORBIDDEN) <==> p.device.Some?
    ensures Poll(db, p, id, t) == Err(NOT_FOUND)
            <==> p.device == None && p.user in db.accounts.users && db.accounts.users[p.user].operational
                 && (id in db.candidates ==> db.candidates[id].user != p.user || db.candidates[id].session != p.session)
    ensures Asks(db, p, id, t) && MayAct(db.accounts, p, t.t4) && (Deliverable(db, p, id, t) || id !in db.flows)
            ==> Poll(db, p, id, t).Ok?
    ensures Poll(db, p, id, t).Err? ==> Poll(db, p, id, t).error in {FORBIDDEN, NOT_FOUND, UNAUTHORIZED, CONTEXT_CHANGED}
    ensures Poll(db, p, id, t) == Err(CONTEXT_CHANGED) <==>
              && p.device == None && id in db.candidates && db.candidates[id].user == p.user
              && db.candidates[id].session == p.session && MayAct(db.accounts, p, t.t0) && MayAct(db.accounts, p, t.t1)
              && var (row, a) := (db.candidates[id], db.accounts);
                 || row.sessionVersion != a.users[p.user].version
                 || (id in db.flows && row.status == PENDING == db.flows[id].status
                     && t.t1 < row.expiresAt && t.t1 < db.flows[id].expiresAt
                     && var (f, identity) := (db.flows[id], a.users[p.user].identity);
                        || f.user != p.user || f.reviewerSession == p.session || f.reviewerVersion != a.users[p.user].version
                        || identity == None || identity.value.bootstrapDevice != row.trustedDevice
                        || identity.value.bootstrap != row.bootstrap)
  {
  }

  // ---------------------------------------------------------------- opening a flow

  /** The earliest of several instants. */
  ghost predicate Earliest(m: Instant, of: set<Instant>) { m in of && forall x | x in of :: m <= x }

  function Bounds(db: Db, p: Principal, id: Id, request: FlowRequest, at: Instant): set<Instant>
    requires id in db.candidates && db.candidates[id].session in db.accounts.sessions
    requires p.session in db.accounts.sessions && p.user in db.accounts.users
  {
    {db.candidates[id].expiresAt, db.accounts.sessions[db.candidates[id].session].expiresAt,
     db.accounts.sessions[p.session].expiresAt, at + 600000, request.timestamp + 600000}
    + match db.accounts.users[p.user].subscriptionEnd case None => {} case Some(end) => {end}
  }

  /** Opening answers the stored flow to an exact repeat. Otherwise it makes one for a candidate that is still
      asked for, by another session of the account's first device, from a request within ten minutes back and
      five ahead, with new identifiers; and the flow ends at the earliest of the deadlines that bound it. */
  lemma OpenedFlow(db: Db, p: Principal, id: Id, request: FlowRequest, t: Times)
    requires t.InOrder() && OpenFlow(db, p, id, request, t).Ok? && OpenFlow(db, p, id, request, t).value.1.Some?
    ensures var (d, f) := (OpenFlow(db, p, id, request, t).value.0, OpenFlow(db, p, id, request, t).value.1.value);
            && Trusted(db.accounts, p) && MayAct(db.accounts, p, t.t0) && MayAct(db.accounts, p, t.t1)
            && MayReview(db, p, Some(id), id) && StillAsked(db, id, t.t1)
            && db.candidates[id].bootstrap == db.accounts.users[p.user].identity.value.bootstrap
            && db.candidates[id].session != p.session
            && Committed(db, d, t) && d.candidates == db.candidates && d.flows == db.flows[id := f]
            && f.user == p.user && f.reviewerSession == p.session && f.reviewerVersion == db.accounts.users[p.user].version
            && f.request == request && f.status == PENDING && t.t1 < f.expiresAt
            && (id in db.flows ==> f == db.flows[id])
            && (id !in db.flows ==>
                  && f.createdAt == t.t1 && f.resolvedAt == None && t.t2 < f.expiresAt
                  && Earliest(f.expiresAt, Bounds(db, p, id, request, t.t1))
                  && t.t1 - 600000 <= request.timestamp <= t.t1 + 300000
                  && forall c | c in db.flows ::
                       db.flows[c].request.flowId != request.flowId && db.flows[c].request.transaction != request.transaction)
  {
  }

  /** And whenever all of that is so, and the sessions stay in use, opening succeeds. */
  lemma OpeningSucceeds(db: Db, p: Principal, id: Id, request: FlowRequest, t: Times)
    requires t.InOrder() && Trusted(db.accounts, p) && MayAct(db.accounts, p, t.t0) && MayAct(db.accounts, p, t.t2)
    requires MayAct(db.accounts, p, t.t1) && MayReview(db, p, Some(id), id) && StillAsked(db, id, t.t1)
    requires db.candidates[id].bootstrap == db.accounts.users[p.user].identity.value.bootstrap
    requires db.candidates[id].session != p.session
    requires id in db.flows ==>
               var f := db.flows[id];
               && f.status == PENDING && f.user == p.user && f.request == request && f.reviewerSession == p.session
               && f.reviewerVersion == db.accounts.users[p.user].version && t.t1 < f.expiresAt
    requires id !in db.flows ==>
               && (forall x | x in Bounds(db, p, id, request, t.t1) :: t.t2 < x)
               && t.t1 - 600000 <= request.timestamp <= t.t1 + 300000
               && forall c | c in db.flows ::
                    db.flows[c].request.flowId != request.flowId && db.flows[c].request.transaction != request.transaction
    ensures OpenFlow(db, p, id, request, t).Ok? && OpenFlow(db, p, id, request, t).value.1.Some?
  {
    if id !in db.flows {
      var f := NewFlow(db, p, id, request, t.t1);
      assert f.expiresAt in Bounds(db, p, id, request, t.t1);
    }
  }

  /** The conflict that is thrown after the commit: the candidate was over already, or it is over now and ends. */
  lemma OpeningFindsItOver(db: Db, p: Principal, id: Id, request: FlowRequest, t: Times)
    requires t.InOrder() && OpenFlow(db, p, id, request, t).Ok? && OpenFlow(db, p, id, request, t).value.1 == None
    ensures MayReview(db, p, Some(id), id)
    ensures var (d, row) := (OpenFlow(db, p, id, request, t).value.0, db.candidates[id]);
            && Committed(db, d, t)
            && if row.status != PENDING then Unchanged(db, d)
               else EndedAt(db, d, id, t.t1, t.t2)
                    && (row.expiresAt <= t.t1 || (id in db.flows && db.flows[id].status == PENDING && db.flows[id].expiresAt <= t.t1))
  {
  }

  // ---------------------------------------------------------------- the requester

  /** The two keys are different, and neither is a key of the identity or of any device. */
  predicate NewKeys(a: Accounts, user: Id, document: Document)
    requires HasIdentity(a, user)
  {
    && document.ed25519Key != document.curve25519Key
    && forall key | key in [document.ed25519Key, document.curve25519Key] ::
         key !in a.users[user].identity.value.keys && key !in a.takenKeys
  }

  lemma KeysAreNew(a: Accounts, user: Id, document: Document)
    requires HasIdentity(a, user)
    ensures KeysReused(a, a.users[user].identity.value, document) <==> !NewKeys(a, user, document)
  {
    var keys := {document.ed25519Key, document.curve25519Key};
    var own := a.users[user].identity.value.keys;
    if key :| key in keys * own { assert key in keys && key in own; }
    if key :| key in keys * a.takenKeys { assert key in keys && key in a.takenKeys; }
    forall key | key in keys && (key in own || key in a.takenKeys) ensures key in keys * own + keys * a.takenKeys {}
  }

  /** A new reservation carries two new keys and a new id, the account's identity and version as they are,
      and the earliest of the three deadlines; only overdue rows of the user end with it. */
  lemma ReservedRow(db: Db, p: Principal, id: Id, document: Document, t: Times)
    requires t.InOrder() && id !in db.candidates && Reserve(db, p, id, document, t).Ok?
    ensures p.device == None && HasIdentity(db.accounts, p.user)
    ensures MayAct(db.accounts, p, t.t0) && MayAct(db.accounts, p, t.t2)
    ensures id !in db.accounts.takenIds && NewKeys(db.accounts, p.user, document)
    ensures var (d, answer) := Reserve(db, p, id, document, t).value;
            var (identity, user) := (db.accounts.users[p.user].identity.value, db.accounts.users[p.user]);
            && Committed(db, d, t) && d.candidates.Keys == db.candidates.Keys + {id}
            && d.candidates[id] == Candidate(p.user, p.session, user.version, identity.bootstrapDevice, identity.bootstrap,
                                             document, PENDING, t.t0, answer.expiresAt, None)
            && answer.state == PENDING && answer.createdAt == t.t0
            && Earliest(answer.expiresAt, {t.t0 + 600000, db.accounts.sessions[p.session].expiresAt}
                                          + match user.subscriptionEnd case None => {} case Some(end) => {end})
            && forall c | c in db.candidates ::
                 d.candidates[c] == if db.candidates[c].user == p.user && db.candidates[c].status == PENDING
                                    then db.candidates[c].(status := EXPIRED, resolvedAt := Some(t.t0)) else db.candidates[c]
  {
    KeysAreNew(db.accounts, p.user, document);
    var swept := ExpireOverdue(db, p.user, t.t0, t.t1);
    assert PendingOf(swept.candidates, p.user) == {};
    forall c | c in db.candidates && db.candidates[c].user == p.user && db.candidates[c].status == PENDING
      ensures db.candidates[c].expiresAt <= t.t0 || c in PendingOf(swept.candidates, p.user)
    {
    }
  }

  /** Why a new reservation is refused, in the order of the checks. */
  lemma ReservationIsRefused(db: Db, p: Principal, id: Id, document: Document, t: Times)
    requires p.device == None && HasIdentity(db.accounts, p.user) && MayAct(db.accounts, p, t.t0) && id !in db.candidates
    ensures var (r, taken, unused) := (Reserve(db, p, id, document, t), id in db.accounts.takenIds, NewKeys(db.accounts, p.user, document));
            var another := exists c | c in db.candidates ::
                             db.candidates[c].user == p.user && db.candidates[c].status == PENDING && t.t0 < db.candidates[c].expiresAt;
            && (r == Err(ID_UNAVAILABLE) <==> taken)
            && (r == Err(KEY_REUSED) <==> !taken && !unused)
            && (r == Err(ALREADY_PENDING) <==> !taken && unused && another)
  {
    KeysAreNew(db.accounts, p.user, document);
    var swept := ExpireOverdue(db, p.user, t.t0, t.t1);
    forall c: Id ensures c in PendingOf(swept.candidates, p.user)
                         <==> c in db.candidates && db.candidates[c].user == p.user && db.candidates[c].status == PENDING
                              && t.t0 < db.candidates[c].expiresAt {}
  }

  /** A reservation under a known id is an exact repeat by the same session under the same identity, or it is
      refused as a mismatch. */
  lemma RepeatIsExact(db: Db, p: Principal, id: Id, document: Document, t: Times)
    requires p.device == None && HasIdentity(db.accounts, p.user) && MayAct(db.accounts, p, t.t0) && id in db.candidates
    ensures var (row, user) := (db.candidates[id], db.accounts.users[p.user]);
            Reserve(db, p, id, document, t) == Err(REPLAY_MISMATCH) <==>
              row.user != p.user || row.session != p.session || row.sessionVersion != user.version || row.document != document
              || row.bootstrap != user.identity.value.bootstrap || row.trustedDevice != user.identity.value.bootstrapDevice
  {
  }

  /** An exact repeat answers the row as it stands; it is an error only when the deadline passes meanwhile. */
  lemma RepeatAnswers(db: Db, p: Principal, id: Id, document: Document, t: Times)
    requires t.InOrder() && p.device == None && HasIdentity(db.accounts, p.user) && id in db.candidates
    requires MayAct(db.accounts, p, t.t0) && MayAct(db.accounts, p, t.t4)
    requires Reserve(db, p, id, document, t) != Err(REPLAY_MISMATCH)
    ensures var (row, r) := (db.candidates[id], Reserve(db, p, id, document, t));
            match r
            case Err(e) => e == EXPIRED_DURING_OPERATION && row.status == PENDING && t.t0 < row.expiresAt <= t.t2
            case Ok(v) =>
              var (d, answer) := v;
              && !(row.status == PENDING && t.t0 < row.expiresAt <= t.t2) && Committed(db, d, t) && id in d.candidates
              && answer == Answer(d.candidates[id].status, row.createdAt, row.expiresAt)
              && if row.status == PENDING && row.expiresAt <= t.t0 then EndedAt(db, d, id, t.t2, t.t3) else Unchanged(db, d)
  {
  }

  /** status and cancel: which rows they concern, what they change, and what they answer. */
  lemma VisitAnswers(db: Db, p: Principal, id: Id, cancel: bool, t: Times)
    requires t.InOrder() && Visit(db, p, id, cancel, t).Ok?
    ensures var (d, answer) := Visit(db, p, id, cancel, t).value;
            && p.device == None && HasIdentity(db.accounts, p.user)
            && MayAct(db.accounts, p, t.t0) && MayAct(db.accounts, p, t.t2) && Committed(db, d, t)
            && id in db.candidates && id in d.candidates
            && var (row, user) := (db.candidates[id], db.accounts.users[p.user]);
               && row.user == p.user && row.session == p.session && row.sessionVersion == user.version
               && row.bootstrap == user.identity.value.bootstrap && row.trustedDevice == user.identity.value.bootstrapDevice
               && answer == Answer(d.candidates[id].status, row.createdAt, row.expiresAt)
               && (if row.status == PENDING && cancel then EndedAt(db, d, id, t.t0, t.t1)
                   else if row.status == PENDING && row.expiresAt <= t.t2 then EndedAt(db, d, id, t.t2, t.t3)
                   else Unchanged(db, d))
  {
  }

  /** And whom they refuse. */
  lemma VisitIsRefused(db: Db, p: Principal, id: Id, cancel: bool, t: Times)
    ensures Visit(db, p, id, cancel, t) == Err(FORBIDDEN) <==> p.device.Some?
    ensures HasIdentity(db.accounts, p.user) && p.device == None && MayAct(db.accounts, p, t.t0) ==>
              var (user, own) := (db.accounts.users[p.user],
                                  id in db.candidates && db.candidates[id].user == p.user && db.candidates[id].session == p.session);
              && (Visit(db, p, id, cancel, t) == Err(NOT_FOUND) <==> !own)
              && (Visit(db, p, id, cancel, t) == Err(CONTEXT_CHANGED) <==>
                    own && (db.candidates[id].sessionVersion != user.version
                            || db.candidates[id].bootstrap != user.identity.value.bootstrap
                            || db.candidates[id].trustedDevice != user.identity.value.bootstrapDevice))
    ensures Visit(db, p, id, cancel, t) == Err(IDENTITY_REQUIRED) <==>
              p.device == None && p.user in db.accounts.users && db.accounts.users[p.user].operational
              && db.accounts.users[p.user].identity == None
  {
  }
}
