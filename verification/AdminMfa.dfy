/**
 Passkey ceremonies of one administrator: every row they touch carries that administrator's id. Options,
 reads and commits are separate steps, and a step may carry a principal captured at any earlier time.
 A hash stands for the value it is computed from.
 Source: apps/api/src/auth/admin-mfa.service.ts.
*/
module AdminMfa {
  import opened Wrappers

  type Id = nat
  type Instant = int

  datatype Purpose = REGISTRATION | AUTHENTICATION

  datatype Credential = Credential(
    credentialId: string,
    counter: nat,
    createdAt: Instant,
    lastUsedAt: Option<Instant>,
    revokedAt: Option<Instant>)

  datatype Challenge = Challenge(
    session: Id,
    purpose: Purpose,
    hash: string,
    createdAt: Instant,
    expiresAt: Instant,
    consumedAt: Option<Instant>)

  datatype RecoveryCode = RecoveryCode(
    hash: string,
    createdAt: Instant,
    usedAt: Option<Instant>,
    revokedAt: Option<Instant>)

  datatype Session = Session(expiresAt: Instant, revokedAt: Option<Instant>, mfaVerifiedAt: Option<Instant>)

  /** `otherCredentialIds` are those of other administrators: the column is unique over all of them. */
  datatype Db = Db(
    credentials: map<Id, Credential>,
    challenges: map<Id, Challenge>,
    codes: map<Id, RecoveryCode>,
    sessions: map<Id, Session>,
    otherCredentialIds: set<string>,
    nextId: Id,
    clock: Instant)

  /** What a request believes about its session; it may be out of date in every respect. */
  datatype Principal = Principal(session: Id, mfaVerified: bool, mfaVerifiedAt: Option<Instant>)

  datatype MfaError =
    | MFA_REQUIRED | LIMIT_REACHED | STEP_UP_REQUIRED | INVALID_RESPONSE | UNAUTHORIZED | CONFLICT
    | NOT_FOUND | LAST_REQUIRED | RECOVERY_INVALID | ALREADY_VERIFIED | ENROLLMENT_REQUIRED

  const MAX_ADMIN_PASSKEYS := 10
  const RECOVERY_CODE_COUNT := 10
  const CHALLENGE_TTL := 5 * 60000
  const STEP_UP_TTL := 5 * 60000
  const MAX_SAFE_INTEGER := 9007199254740991

  // ---------------------------------------------------------------- queries and bulk updates

  function Active(rows: map<Id, Credential>): set<Id> { set c | c in rows && rows[c].revokedAt == None }

  function Live(rows: map<Id, RecoveryCode>): set<Id> {
    set c | c in rows && rows[c].usedAt == None && rows[c].revokedAt == None
  }

  predicate SessionLive(rows: map<Id, Session>, s: Id, now: Instant) {
    s in rows && rows[s].revokedAt == None && rows[s].expiresAt > now
  }

  predicate Claimable(rows: map<Id, Challenge>, p: Principal, id: Id, purpose: Purpose, hash: string, now: Instant) {
    && id in rows && rows[id].session == p.session && rows[id].purpose == purpose && rows[id].hash == hash
    && rows[id].consumedAt == None && rows[id].expiresAt > now
  }

  function Consume(rows: map<Id, Challenge>, ids: set<Id>, now: Instant): map<Id, Challenge> {
    map c | c in rows :: if c in ids then rows[c].(consumedAt := Some(now)) else rows[c]
  }

  function OpenOf(rows: map<Id, Challenge>, session: Id, purpose: Purpose): set<Id> {
    set c | c in rows && rows[c].session == session && rows[c].purpose == purpose && rows[c].consumedAt == None
  }

  function AllOpen(rows: map<Id, Challenge>): set<Id> { set c | c in rows && rows[c].consumedAt == None }

  function RevokeCodes(rows: map<Id, RecoveryCode>, ids: set<Id>, now: Instant): map<Id, RecoveryCode> {
    map c | c in rows :: if c in ids then rows[c].(revokedAt := Some(now)) else rows[c]
  }

  function RevokeCredentials(rows: map<Id, Credential>, ids: set<Id>, now: Instant): map<Id, Credential> {
    map c | c in rows :: if c in ids then rows[c].(revokedAt := Some(now)) else rows[c]
  }

  function RevokeSessions(rows: map<Id, Session>, keep: Id, now: Instant): map<Id, Session> {
    map s | s in rows :: if s != keep && rows[s].revokedAt == None then rows[s].(revokedAt := Some(now)) else rows[s]
  }

  function AddCodes(rows: map<Id, RecoveryCode>, first: Id, hashes: seq<string>, now: Instant): map<Id, RecoveryCode>
    decreases |hashes|
  {
    if hashes == [] then rows
    else AddCodes(rows[first := RecoveryCode(hashes[0], now, None, None)], first + 1, hashes[1..], now)
  }

  predicate RecentlyVerified(p: Principal, now: Instant) {
    && p.mfaVerified && p.mfaVerifiedAt.Some?
    && now - STEP_UP_TTL < p.mfaVerifiedAt.value <= now
  }

  // ---------------------------------------------------------------- transactions

  /** persistChallenge: one open challenge per session and purpose, for five minutes. */
  function OpenChallenge(db: Db, p: Principal, purpose: Purpose, hash: string, now: Instant): Result<Db, MfaError> {
    if p.session !in db.sessions || exists c | c in db.challenges :: db.challenges[c].hash == hash then Err(CONFLICT)
    else
      var consumed := Consume(db.challenges, OpenOf(db.challenges, p.session, purpose), now);
      Ok(db.(challenges := consumed[db.nextId := Challenge(p.session, purpose, hash, now, now + CHALLENGE_TTL, None)],
             nextId := db.nextId + 1, clock := now))
  }

  predicate CredentialTaken(db: Db, credentialId: string) {
    credentialId in db.otherCredentialIds || exists c | c in db.credentials :: db.credentials[c].credentialId == credentialId
  }

  predicate CodesTaken(db: Db, hashes: seq<string>) {
    exists c | c in db.codes :: db.codes[c].hash in hashes
  }

  /** The refusals of the commit of verifyRegistration, in the order they are reached. */
  function RegisterRefusal(db: Db, p: Principal, id: Id, hash: string, credentialId: string, hashes: seq<string>,
                           now: Instant): Option<MfaError>
  {
    var active := Active(db.credentials);
    if |active| > 0 && !p.mfaVerified then Some(MFA_REQUIRED)
    else if |active| >= MAX_ADMIN_PASSKEYS then Some(LIMIT_REACHED)
    else if |active| > 0 && !RecentlyVerified(p, now) then Some(STEP_UP_REQUIRED)
    else if !Claimable(db.challenges, p, id, REGISTRATION, hash, now) then Some(INVALID_RESPONSE)
    else if CredentialTaken(db, credentialId) then Some(CONFLICT)
    else if !SessionLive(db.sessions, p.session, now) then Some(UNAUTHORIZED)
    else if |active| == 0 && CodesTaken(db, hashes) then Some(CONFLICT)
    else None
  }

  function Register(db: Db, p: Principal, id: Id, hash: string, credentialId: string, counter: nat,
                    hashes: seq<string>, now: Instant): Result<Db, MfaError>
  {
    var refusal := RegisterRefusal(db, p, id, hash, credentialId, hashes, now);
    if refusal.Some? then Err(refusal.value)
    else
      var first := Active(db.credentials) == {};
      Ok(db.(challenges := Consume(db.challenges, {id}, now),
             credentials := db.credentials[db.nextId := Credential(credentialId, counter, now, None, None)],
             sessions := db.sessions[p.session := db.sessions[p.session].(mfaVerifiedAt := Some(now))],
             codes := if first then AddCodes(RevokeCodes(db.codes, Live(db.codes), now), db.nextId + 1, hashes, now)
                      else db.codes,
             nextId := db.nextId + 1 + |hashes|, clock := now))
  }

  /** section 6.1.1 of W3C Web Authentication Level 2, as the verification library enforces it. */
  predicate CounterAccepted(stored: nat, received: nat) {
    (stored == 0 && received == 0) || received > stored
  }

  /** The commit of verifyAuthentication: `stored` and `captured` were read when the ceremony began. */
  function Authenticate(db: Db, p: Principal, id: Id, hash: string, stored: Id, responseId: string, captured: nat,
                        received: nat, now: Instant): Result<Db, MfaError>
  {
    if !Claimable(db.challenges, p, id, AUTHENTICATION, hash, now) then Err(INVALID_RESPONSE)
    else if !(stored in db.credentials && db.credentials[stored].credentialId == responseId
              && db.credentials[stored].counter == captured && db.credentials[stored].revokedAt == None)
            || !SessionLive(db.sessions, p.session, now)
    then Err(INVALID_RESPONSE)
    else
      Ok(db.(challenges := Consume(db.challenges, {id}, now),
             credentials := db.credentials[stored := db.credentials[stored].(counter := received, lastUsedAt := Some(now))],
             sessions := db.sessions[p.session := db.sessions[p.session].(mfaVerifiedAt := Some(now))],
             clock := now))
  }

  function Revoke(db: Db, credential: Id, now: Instant): Result<Db, MfaError> {
    var active := Active(db.credentials);
    if credential !in active then Err(NOT_FOUND)
    else if |active| <= 1 then Err(LAST_REQUIRED)
    else Ok(db.(credentials := RevokeCredentials(db.credentials, {credential}, now), clock := now))
  }

  /** recover: one live code revokes every passkey, code, open challenge and other session. */
  function Recover(db: Db, p: Principal, hash: string, now: Instant): Result<Db, MfaError> {
    if p.mfaVerified then Err(ALREADY_VERIFIED)
    else if !exists c | c in Live(db.codes) :: db.codes[c].hash == hash then Err(RECOVERY_INVALID)
    else if !SessionLive(db.sessions, p.session, now) then Err(UNAUTHORIZED)
    else
      Ok(db.(credentials := RevokeCredentials(db.credentials, Active(db.credentials), now),
             codes := SpendCodes(db.codes, hash, now),
             challenges := Consume(db.challenges, AllOpen(db.challenges), now),
             sessions := RevokeSessions(db.sessions, p.session, now)
                           [p.session := db.sessions[p.session].(mfaVerifiedAt := None)],
             clock := now))
  }

  /** The presented code is used, every other live one is revoked. */
  function SpendCodes(rows: map<Id, RecoveryCode>, hash: string, now: Instant): map<Id, RecoveryCode> {
    map c | c in rows ::
      if c !in Live(rows) then rows[c]
      else if rows[c].hash == hash then rows[c].(usedAt := Some(now))
      else rows[c].(revokedAt := Some(now))
  }

  // ---------------------------------------------------------------- steps

  datatype Step =
    | Opens(p: Principal, purpose: Purpose, hash: string, now: Instant)
    | Registers(p: Principal, id: Id, hash: string, credentialId: string, counter: nat, hashes: seq<string>, now: Instant)
    | Authenticates(p: Principal, id: Id, hash: string, stored: Id, responseId: string, captured: nat, received: nat, now: Instant)
    | Revokes(credential: Id, now: Instant)
    | Recovers(p: Principal, hash: string, now: Instant)
    | SessionBegins(expiresAt: Instant, now: Instant)
    | SessionEnds(session: Id, now: Instant)
    | OthersRegister(credentialId: string, now: Instant)

  predicate Distinct(hashes: seq<string>) {
    forall i, j | 0 <= i < j < |hashes| :: hashes[i] != hashes[j]
  }

  /** The clock does not go back; ten distinct codes are drawn; the library has accepted the counter. */
  predicate Enabled(db: Db, step: Step) {
    && db.clock <= step.now
    && (step.Registers? ==> |step.hashes| == RECOVERY_CODE_COUNT && Distinct(step.hashes))
    && (step.Authenticates? ==> CounterAccepted(step.captured, step.received))
    && (step.SessionEnds? ==> step.session in db.sessions)
  }

  function Attempt(db: Db, step: Step): Result<Db, MfaError> {
    match step
    case Opens(p, purpose, hash, now) => OpenChallenge(db, p, purpose, hash, now)
    case Registers(p, id, hash, credentialId, counter, hashes, now) =>
      Register(db, p, id, hash, credentialId, counter, hashes, now)
    case Authenticates(p, id, hash, stored, responseId, captured, received, now) =>
      Authenticate(db, p, id, hash, stored, responseId, captured, received, now)
    case Revokes(credential, now) => Revoke(db, credential, now)
    case Recovers(p, hash, now) => Recover(db, p, hash, now)
    case SessionBegins(expiresAt, now) =>
      Ok(db.(sessions := db.sessions[db.nextId := Session(expiresAt, None, None)], nextId := db.nextId + 1, clock := now))
    case SessionEnds(session, now) =>
      if session in db.sessions && db.sessions[session].revokedAt == None
      then Ok(db.(sessions := db.sessions[session := db.sessions[session].(revokedAt := Some(now))], clock := now))
      else Ok(db.(clock := now))
    case OthersRegister(credentialId, now) =>
      Ok(db.(otherCredentialIds := db.otherCredentialIds + {credentialId}, clock := now))
  }

  /** An error rolls the transaction back. */
  function Apply(db: Db, step: Step): Db {
    match Attempt(db, step)
    case Ok(d) => d
    case Err(_) => db
  }

  const START := Db(map[], map[], map[], map[], {}, 0, 0)

  ghost predicate Run(states: seq<Db>, steps: seq<Step>) {
    && |states| == |steps| + 1 && states[0] == START
    && forall i | 0 <= i < |steps| :: Enabled(states[i], steps[i]) && states[i + 1] == Apply(states[i], steps[i])
  }

  // ---------------------------------------------------------------- invariants

  ghost predicate KeysBelow<V>(rows: map<Id, V>, nextId: Id) { forall k | k in rows :: k < nextId }

  ghost predicate PasskeysAndCodes(credentials: map<Id, Credential>, codes: map<Id, RecoveryCode>) {
    && |Active(credentials)| <= MAX_ADMIN_PASSKEYS
    && |Live(codes)| == if Active(credentials) == {} then 0 else RECOVERY_CODE_COUNT
  }

  /** A session counts as verified only while some passkey is active. */
  ghost predicate VerifiedNeedsPasskey(sessions: map<Id, Session>, credentials: map<Id, Credential>) {
    (exists s | s in sessions :: sessions[s].revokedAt == None && sessions[s].mfaVerifiedAt.Some?)
    ==> Active(credentials) != {}
  }

  ghost predicate OneOpen(rows: map<Id, Challenge>) {
    forall c, d | c in rows && d in rows && rows[c].consumedAt == None && rows[d].consumedAt == None
                  && rows[c].session == rows[d].session && rows[c].purpose == rows[d].purpose :: c == d
  }

  ghost predicate CodesDistinct(rows: map<Id, RecoveryCode>) {
    forall c, d | c in rows && d in rows && rows[c].hash == rows[d].hash :: c == d
  }

  ghost predicate Inv(db: Db) {
    && KeysBelow(db.credentials, db.nextId) && KeysBelow(db.challenges, db.nextId)
    && KeysBelow(db.codes, db.nextId) && KeysBelow(db.sessions, db.nextId)
    && PasskeysAndCodes(db.credentials, db.codes)
    && VerifiedNeedsPasskey(db.sessions, db.credentials)
    && OneOpen(db.challenges) && CodesDistinct(db.codes)
  }

  lemma OpensKeeps(db: Db, p: Principal, purpose: Purpose, hash: string, now: Instant)
    requires Inv(db) && OpenChallenge(db, p, purpose, hash, now).Ok?
    ensures Inv(OpenChallenge(db, p, purpose, hash, now).value)
  {
  }

  lemma AddCode(rows: map<Id, RecoveryCode>, c: Id, row: RecoveryCode)
    requires KeysBelow(rows, c) && row.usedAt == None && row.revokedAt == None
    ensures |Live(rows[c := row])| == |Live(rows)| + 1
  {
    var after := rows[c := row];
    assert Live(after) == Live(rows) + {c};
  }

  lemma {:induction false} NewCodes(rows: map<Id, RecoveryCode>, first: Id, hashes: seq<string>, now: Instant)
    requires KeysBelow(rows, first) && CodesDistinct(rows) && Distinct(hashes)
    requires forall c | c in rows :: rows[c].hash !in hashes
    ensures var after := AddCodes(rows, first, hashes, now);
            && |Live(after)| == |Live(rows)| + |hashes| && KeysBelow(after, first + |hashes|) && CodesDistinct(after)
    decreases |hashes|
  {
    if hashes != [] {
      var row := RecoveryCode(hashes[0], now, None, None);
      AddCode(rows, first, row);
      assert hashes[0] in hashes;
      var after := rows[first := row];
      forall c | c in after ensures after[c].hash !in hashes[1..] {}
      NewCodes(after, first + 1, hashes[1..], now);
    }
  }

  lemma AddCredential(rows: map<Id, Credential>, c: Id, row: Credential)
    requires c !in rows && row.revokedAt == None
    ensures Active(rows[c := row]) == Active(rows) + {c}
  {
  }

  lemma FirstCodes(rows: map<Id, RecoveryCode>, first: Id, hashes: seq<string>, now: Instant)
    requires KeysBelow(rows, first) && CodesDistinct(rows) && |Live(rows)| == 0
    requires |hashes| == RECOVERY_CODE_COUNT && Distinct(hashes) && forall c | c in rows :: rows[c].hash !in hashes
    ensures var after := AddCodes(RevokeCodes(rows, Live(rows), now), first, hashes, now);
            && |Live(after)| == RECOVERY_CODE_COUNT && KeysBelow(after, first + |hashes|) && CodesDistinct(after)
  {
    assert RevokeCodes(rows, Live(rows), now) == rows;
    NewCodes(rows, first, hashes, now);
  }

  lemma RegistersKeeps(db: Db, step: Step)
    requires Inv(db) && Enabled(db, step) && step.Registers? && Attempt(db, step).Ok?
    ensures Inv(Attempt(db, step).value)
  {
    var d := Attempt(db, step).value;
    AddCredential(db.credentials, db.nextId, d.credentials[db.nextId]);
    if Active(db.credentials) == {} {
      FirstCodes(db.codes, db.nextId + 1, step.hashes, step.now);
    }
    assert OneOpen(d.challenges);
  }

  lemma AuthenticatesKeeps(db: Db, step: Step)
    requires Inv(db) && step.Authenticates? && Attempt(db, step).Ok?
    ensures Inv(Attempt(db, step).value)
  {
    var d := Attempt(db, step).value;
    assert Active(d.credentials) == Active(db.credentials);
    assert step.stored in Active(db.credentials);
  }

  lemma RevokesKeeps(db: Db, credential: Id, now: Instant)
    requires Inv(db) && Revoke(db, credential, now).Ok?
    ensures Inv(Revoke(db, credential, now).value)
  {
    var d := Revoke(db, credential, now).value;
    assert Active(d.credentials) == Active(db.credentials) - {credential};
  }

  lemma RecoversKeeps(db: Db, p: Principal, hash: string, now: Instant)
    requires Inv(db) && Recover(db, p, hash, now).Ok?
    ensures Inv(Recover(db, p, hash, now).value)
    ensures var d := Recover(db, p, hash, now).value;
            Active(d.credentials) == {} && Live(d.codes) == {} && AllOpen(d.challenges) == {}
  {
    var d := Recover(db, p, hash, now).value;
    assert Active(d.credentials) == {} && Live(d.codes) == {} && AllOpen(d.challenges) == {};
  }

  lemma StepKeeps(db: Db, step: Step)
    requires Inv(db) && Enabled(db, step)
    ensures Inv(Apply(db, step))
  {
    if Attempt(db, step).Ok? {
      match step
      case Opens(p, purpose, hash, now) => OpensKeeps(db, p, purpose, hash, now);
      case Registers(_, _, _, _, _, _, _) => RegistersKeeps(db, step);
      case Authenticates(_, _, _, _, _, _, _, _) => AuthenticatesKeeps(db, step);
      case Revokes(credential, now) => RevokesKeeps(db, credential, now);
      case Recovers(p, hash, now) => RecoversKeeps(db, p, hash, now);
      case SessionBegins(_, _) =>
      case SessionEnds(_, _) =>
      case OthersRegister(_, _) =>
    }
  }
}
