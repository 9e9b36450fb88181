/**
 The passkey service over its tables: each transaction works on a copy that it commits at its end.
 Parsing responses and the cryptographic verification are not part of this model.
 Source: apps/api/src/auth/admin-mfa.service.ts.
*/
module AdminMfaServices {
  import opened Wrappers
  import opened AdminMfa

  /** The transaction did what the specification says, or failed as it says and changed nothing. */
  ghost predicate Transacted<T>(spec: Result<Db, MfaError>, before: Db, after: Db, r: Result<T, MfaError>) {
    match spec
    case Ok(d) => r.Ok? && after == d
    case Err(e) => r == Err(e) && after == before
  }

  /** The checks of registrationOptions. */
  function OptionsRefusal(db: Db, p: Principal, now: Instant): Option<MfaError> {
    var active := Active(db.credentials);
    if |active| > 0 && !p.mfaVerified then Some(MFA_REQUIRED)
    else if |active| >= MAX_ADMIN_PASSKEYS then Some(LIMIT_REACHED)
    else if |active| > 0 && !RecentlyVerified(p, now) then Some(STEP_UP_REQUIRED)
    else None
  }

  /** A principal that is refused the options would be refused the commit, for the same reason; one that gets
      them is refused the commit for none of these reasons. */
  lemma OptionsRefuseWhatTheCommitRefuses(db: Db, p: Principal, id: Id, hash: string, credentialId: string,
                                          counter: nat, hashes: seq<string>, now: Instant)
    ensures var (options, commit) := (OptionsRefusal(db, p, now), Register(db, p, id, hash, credentialId, counter, hashes, now));
            && (options.Some? ==> commit == Err(options.value))
            && (commit.Err? && commit.error in {MFA_REQUIRED, LIMIT_REACHED, STEP_UP_REQUIRED} ==> options == Some(commit.error))
  {
  }

  class AdminMfaService {
    var db: Db

    ghost predicate Valid()
      reads this
    {
      Inv(db)
    }

    constructor ()
      ensures Valid() && db == START
    {
      db := START;
    }

    /** Opens a challenge for five minutes and closes the session's previous one for the same purpose. */
    method PersistChallenge(p: Principal, purpose: Purpose, hash: string, now: Instant) returns (r: Result<Id, MfaError>)
      requires Valid() && db.clock <= now
      modifies this
      ensures Valid() && Transacted(OpenChallenge(old(db), p, purpose, hash, now), old(db), db, r)
      ensures r.Ok? ==> Claimable(db.challenges, p, r.value, purpose, hash, now)
    {
      var tx := db;
      if p.session !in tx.sessions { return Err(CONFLICT); }
      if exists c | c in tx.challenges :: tx.challenges[c].hash == hash { return Err(CONFLICT); } // the unique column
      tx := tx.(challenges := Consume(tx.challenges, OpenOf(tx.challenges, p.session, purpose), now));
      var created := tx.nextId;
      tx := tx.(challenges := tx.challenges[created := Challenge(p.session, purpose, hash, now, now + CHALLENGE_TTL, None)],
                nextId := created + 1, clock := now);
      OpensKeeps(db, p, purpose, hash, now);
      db := tx;
      return Ok(created);
    }

    /** Before the verification: the hash that the commit will have to find again. */
    method ReadChallenge(p: Principal, id: Id, purpose: Purpose, supplied: string, now: Instant)
      returns (r: Result<string, MfaError>)
      ensures r == if Claimable(db.challenges, p, id, purpose, supplied, now) then Ok(supplied) else Err(INVALID_RESPONSE)
    {
      var stored := if id in db.challenges then Some(db.challenges[id]) else None;
      if stored == None || stored.value.session != p.session || stored.value.purpose != purpose
         || stored.value.consumedAt.Some? || stored.value.expiresAt <= now {
        return Err(INVALID_RESPONSE);
      }
      if stored.value.hash != supplied { return Err(INVALID_RESPONSE); }
      return Ok(stored.value.hash);
    }

    /** The passkey a response names, with the counter that the commit will have to find again. */
    method ReadCredential(responseId: string) returns (r: Result<(Id, nat), MfaError>)
      ensures r.Ok? ==> var (c, counter) := r.value;
                        && c in Active(db.credentials) && db.credentials[c].credentialId == responseId
                        && counter == db.credentials[c].counter <= MAX_SAFE_INTEGER
      ensures r.Err? ==> r.error == INVALID_RESPONSE
      ensures r.Err? ==> forall c | c in Active(db.credentials) && db.credentials[c].credentialId == responseId ::
                           exists d | d in Active(db.credentials) :: db.credentials[d].credentialId == responseId
                                                                     && db.credentials[d].counter > MAX_SAFE_INTEGER
    {
      if !exists c | c in Active(db.credentials) :: db.credentials[c].credentialId == responseId {
        return Err(INVALID_RESPONSE);
      }
      var stored :| stored in Active(db.credentials) && db.credentials[stored].credentialId == responseId;
      if db.credentials[stored].counter > MAX_SAFE_INTEGER { return Err(INVALID_RESPONSE); }
      return Ok((stored, db.credentials[stored].counter));
    }

    /** The transaction of verifyRegistration; the result holds the codes to show, if any. */
    method CommitRegistration(p: Principal, id: Id, hash: string, credentialId: string, counter: nat,
                              hashes: seq<string>, now: Instant)
      returns (r: Result<seq<string>, MfaError>)
      requires Valid() && Enabled(db, Registers(p, id, hash, credentialId, counter, hashes, now))
      modifies this
      ensures Valid()
      ensures Transacted(Register(old(db), p, id, hash, credentialId, counter, hashes, now), old(db), db, r)
      ensures r.Ok? ==> r.value == if Active(old(db).credentials) == {} then hashes else []
    {
      var tx := db;
      var activeCount := |Active(tx.credentials)|;
      if activeCount > 0 && !p.mfaVerified { return Err(MFA_REQUIRED); }
      if activeCount >= MAX_ADMIN_PASSKEYS { return Err(LIMIT_REACHED); }
      if activeCount > 0 && !RecentlyVerified(p, now) { return Err(STEP_UP_REQUIRED); }
      if !Claimable(tx.challenges, p, id, REGISTRATION, hash, now) { return Err(INVALID_RESPONSE); }
      tx := tx.(challenges := Consume(tx.challenges, {id}, now));
      if CredentialTaken(tx, credentialId) { return Err(CONFLICT); }
      tx := tx.(credentials := tx.credentials[tx.nextId := Credential(credentialId, counter, now, None, None)]);
      if !SessionLive(tx.sessions, p.session, now) { return Err(UNAUTHORIZED); }
      tx := tx.(sessions := tx.sessions[p.session := tx.sessions[p.session].(mfaVerifiedAt := Some(now))]);
      var toReturn: seq<string> := [];
      if activeCount == 0 {
        if CodesTaken(tx, hashes) { return Err(CONFLICT); }
        var codes := CreateCodes(RevokeCodes(tx.codes, Live(tx.codes), now), tx.nextId + 1, hashes, now);
        tx := tx.(codes := codes);
        toReturn := hashes;
      }
      tx := tx.(nextId := tx.nextId + 1 + |hashes|, clock := now);
      RegistersKeeps(db, Registers(p, id, hash, credentialId, counter, hashes, now));
      db := tx;
      return Ok(toReturn);
    }

    /** The transaction of verifyAuthentication. */
    method CommitAuthentication(p: Principal, id: Id, hash: string, stored: Id, responseId: string, captured: nat,
                                received: nat, now: Instant)
      returns (r: Result<(), MfaError>)
      requires Valid() && Enabled(db, Authenticates(p, id, hash, stored, responseId, captured, received, now))
      modifies this
      ensures Valid()
      ensures Transacted(Authenticate(old(db), p, id, hash, stored, responseId, captured, received, now), old(db), db, r)
    {
      var tx := db;
      if !Claimable(tx.challenges, p, id, AUTHENTICATION, hash, now) { return Err(INVALID_RESPONSE); }
      tx := tx.(challenges := Consume(tx.challenges, {id}, now));
      var updatedCredential, updatedSession := 0, 0;
      if stored in tx.credentials {
        var row := tx.credentials[stored];
        if row.credentialId == responseId && row.counter == captured && row.revokedAt == None {
          tx := tx.(credentials := tx.credentials[stored := row.(counter := received, lastUsedAt := Some(now))]);
          updatedCredential := 1;
        }
      }
      if SessionLive(tx.sessions, p.session, now) {
        tx := tx.(sessions := tx.sessions[p.session := tx.sessions[p.session].(mfaVerifiedAt := Some(now))]);
        updatedSession := 1;
      }
      if updatedCredential != 1 || updatedSession != 1 { return Err(INVALID_RESPONSE); }
      AuthenticatesKeeps(db, Authenticates(p, id, hash, stored, responseId, captured, received, now));
      db := tx.(clock := now);
      return Ok(());
    }

    method RevokePasskey(credential: Id, now: Instant) returns (r: Result<(), MfaError>)
      requires Valid() && db.clock <= now
      modifies this
      ensures Valid() && Transacted(Revoke(old(db), credential, now), old(db), db, r)
      ensures Active(old(db).credentials) != {} ==> Active(db.credentials) != {}
    {
      var tx := db;
      var active := Active(tx.credentials);
      if credential !in active { return Err(NOT_FOUND); }
      if |active| <= 1 { return Err(LAST_REQUIRED); }
      tx := tx.(credentials := RevokeCredentials(tx.credentials, {credential}, now), clock := now);
      RevokesKeeps(db, credential, now);
      assert Active(tx.credentials) == active - {credential};
      db := tx;
      return Ok(());
    }

    /** The transaction of recover; the result counts the passkeys it revoked. */
    method RecoverWithCode(p: Principal, hash: string, now: Instant) returns (r: Result<nat, MfaError>)
      requires Valid() && db.clock <= now
      modifies this
      ensures Valid() && Transacted(Recover(old(db), p, hash, now), old(db), db, r)
      ensures r.Ok? ==> r.value == |Active(old(db).credentials)| && 1 <= r.value <= MAX_ADMIN_PASSKEYS
    {
      if p.mfaVerified { return Err(ALREADY_VERIFIED); }
      var tx := db;
      if !exists c | c in Live(tx.codes) :: tx.codes[c].hash == hash { return Err(RECOVERY_INVALID); }
      var codes := SpendCode(tx.codes, hash, now);
      var revoked := |Active(tx.credentials)|;
      tx := tx.(credentials := RevokeCredentials(tx.credentials, Active(tx.credentials), now), codes := codes);
      tx := tx.(challenges := Consume(tx.challenges, AllOpen(tx.challenges), now));
      tx := tx.(sessions := RevokeSessions(tx.sessions, p.session, now));
      if !SessionLive(tx.sessions, p.session, now) { return Err(UNAUTHORIZED); }
      tx := tx.(sessions := tx.sessions[p.session := tx.sessions[p.session].(mfaVerifiedAt := None)], clock := now);
      RecoversKeeps(db, p, hash, now);
      db := tx;
      return Ok(revoked);
    }
  }

  /** The presented code is used; every other live code is revoked. */
  method SpendCode(rows: map<Id, RecoveryCode>, hash: string, now: Instant) returns (spent: map<Id, RecoveryCode>)
    requires CodesDistinct(rows) && exists c | c in Live(rows) :: rows[c].hash == hash
    ensures spent == SpendCodes(rows, hash, now)
  {
    var code :| code in Live(rows) && rows[code].hash == hash;
    var others := Live(rows) - {code};
    spent := rows[code := rows[code].(usedAt := Some(now))];
    spent := RevokeCodes(spent, others, now);
  }

  /** createMany over the issued codes. */
  method CreateCodes(start: map<Id, RecoveryCode>, first: Id, hashes: seq<string>, now: Instant)
    returns (rows: map<Id, RecoveryCode>)
    ensures rows == AddCodes(start, first, hashes, now)
  {
    rows := start;
    var i := 0;
    while i < |hashes|
      invariant i <= |hashes|
      invariant AddCodes(rows, first + i, hashes[i..], now) == AddCodes(start, first, hashes, now)
    {
      rows := rows[first + i := RecoveryCode(hashes[i], now, None, None)];
      i := i + 1;
    }
  }
}
