/** When each ceremony commits, what it leaves in the rows, and how two commits of a run relate. */
module AdminMfaCommits {
  import opened Wrappers
  import opened AdminMfa
  import opened AdminMfaRuns

  // ---------------------------------------------------------------- challenges

  /** Step `k` opened this challenge: for this session, purpose and hash, for five minutes. */
  ghost predicate OpenedAt(states: seq<Db>, steps: seq<Step>, k: nat, id: Id, row: Challenge) {
    && k < |steps| && k < |states| && steps[k].Opens? && Attempt(states[k], steps[k]).Ok? && states[k].nextId == id
    && row.session == steps[k].p.session && row.purpose == steps[k].purpose && row.hash == steps[k].hash
    && row.createdAt == steps[k].now && row.expiresAt == steps[k].now + 300000
  }

  lemma {:induction false} ChallengeHasACause(states: seq<Db>, steps: seq<Step>, i: nat, id: Id) returns (k: nat)
    requires Run(states, steps) && i < |states| && id in states[i].challenges
    ensures k < i && OpenedAt(states, steps, k, id, states[i].challenges[id])
  {
    k := i - 1;
    if id in states[i - 1].challenges {
      RunKeeps(states, steps, i - 1);
      ChallengeRowStays(states[i - 1], steps[i - 1], id);
      k := ChallengeHasACause(states, steps, i - 1, id);
    } else {
      ChallengeIsNew(states[i - 1], steps[i - 1], id);
    }
  }

  lemma ChallengeRowStays(db: Db, step: Step, id: Id)
    requires Inv(db) && id in db.challenges
    ensures id in Apply(db, step).challenges
    ensures Apply(db, step).challenges[id].(consumedAt := None) == db.challenges[id].(consumedAt := None)
  {
  }

  lemma ChallengeIsNew(db: Db, step: Step, id: Id)
    requires id !in db.challenges && id in Apply(db, step).challenges
    ensures step.Opens? && Attempt(db, step).Ok? && db.nextId == id
    ensures Apply(db, step).challenges[id]
            == Challenge(step.p.session, step.purpose, step.hash, step.now, step.now + 300000, None)
  {
  }

  /** A commit presents the session and the hash of an earlier options request for the same ceremony, less
      than five minutes after it. */
  lemma CommitAnswersOptions(states: seq<Db>, steps: seq<Step>, j: nat, id: Id) returns (k: nat)
    requires Run(states, steps) && j < |steps| && Commits(states[j], steps[j], id)
    ensures k < j && steps[k].Opens? && states[k].nextId == id
    ensures steps[k].p.session == steps[j].p.session && steps[k].hash == steps[j].hash
    ensures steps[k].purpose == (if steps[j].Registers? then REGISTRATION else AUTHENTICATION)
    ensures steps[k].now <= steps[j].now < steps[k].now + 300000
  {
    k := ChallengeHasACause(states, steps, j, id);
    CommitConsumes(states[j], steps[j], id);
    StepClock(states[k], steps[k]);
    ClockAdvances(states, steps, k + 1, j);
  }

  lemma {:induction false} ClockAdvances(states: seq<Db>, steps: seq<Step>, i: nat, j: nat)
    requires Run(states, steps) && i <= j < |states|
    ensures states[i].clock <= states[j].clock
    decreases j - i
  {
    if i < j {
      ClockAdvances(states, steps, i, j - 1);
      StepClock(states[j - 1], steps[j - 1]);
    }
  }

  lemma StepClock(db: Db, step: Step)
    requires Enabled(db, step)
    ensures Apply(db, step).clock == if Attempt(db, step).Ok? then step.now else db.clock
  {
  }

  // ---------------------------------------------------------------- authentications

  predicate Authenticated(db: Db, step: Step) { step.Authenticates? && Attempt(db, step).Ok? }

  /** The passkey keeps the received counter and the instant, the session is verified, the challenge is
      consumed, and no other row changes. */
  lemma AuthenticationStores(db: Db, step: Step)
    requires Authenticated(db, step)
    ensures var (d, c, s) := (Apply(db, step), step.stored, step.p.session);
            && c in db.credentials && s in db.sessions && step.id in db.challenges
            && d.credentials == db.credentials[c := db.credentials[c].(counter := step.received, lastUsedAt := Some(step.now))]
            && d.sessions == db.sessions[s := db.sessions[s].(mfaVerifiedAt := Some(step.now))]
            && d.challenges == db.challenges[step.id := db.challenges[step.id].(consumedAt := Some(step.now))]
            && d.codes == db.codes && d.otherCredentialIds == db.otherCredentialIds
  {
  }

  /** It commits exactly for an open challenge of its session and hash before its end, a passkey that is not
      revoked and still has the id and the counter it was read with, and a session in use; it has one error. */
  lemma AuthenticationCommits(db: Db, step: Step)
    requires step.Authenticates?
    ensures Authenticated(db, step) <==>
              && step.id in db.challenges && step.stored in db.credentials && step.p.session in db.sessions
              && var (h, c, s) := (db.challenges[step.id], db.credentials[step.stored], db.sessions[step.p.session]);
                 && h.session == step.p.session && h.purpose == AUTHENTICATION && h.hash == step.hash
                 && h.consumedAt == None && step.now < h.expiresAt
                 && c.credentialId == step.responseId && c.counter == step.captured && c.revokedAt == None
                 && s.revokedAt == None && step.now < s.expiresAt
    ensures !Authenticated(db, step) ==> Attempt(db, step) == Err(INVALID_RESPONSE) && Apply(db, step) == db
  {
  }

  /** No counter of a passkey is accepted twice, except by authenticators that do not count at all. */
  lemma NoCounterTwice(states: seq<Db>, steps: seq<Step>, i: nat, j: nat)
    requires Run(states, steps) && i < j < |steps|
    requires Authenticated(states[i], steps[i]) && Authenticated(states[j], steps[j]) && steps[i].stored == steps[j].stored
    ensures steps[i].received < steps[j].received || steps[i].received == 0 == steps[j].received
  {
    AuthenticationStores(states[i], steps[i]);
    AuthenticationCommits(states[j], steps[j]);
    CountersNeverGoBack(states, steps, i + 1, j, steps[i].stored);
  }

  // ---------------------------------------------------------------- registrations

  predicate Registered(db: Db, step: Step) { step.Registers? && Attempt(db, step).Ok? }

  /** One passkey more, as the response gave it; the session is verified and the challenge consumed. With the
      first passkey the codes in use are exactly the ones shown, otherwise the codes do not change. */
  lemma RegistrationStores(db: Db, step: Step)
    requires Inv(db) && Enabled(db, step) && Registered(db, step)
    ensures var (d, s) := (Apply(db, step), step.p.session);
            && s in db.sessions && step.id in db.challenges
            && d.credentials == db.credentials[db.nextId := Credential(step.credentialId, step.counter, step.now, None, None)]
            && d.sessions == db.sessions[s := db.sessions[s].(mfaVerifiedAt := Some(step.now))]
            && d.challenges == db.challenges[step.id := db.challenges[step.id].(consumedAt := Some(step.now))]
            && (if Active(db.credentials) == {}
                then HashesInUse(d.codes) == set h | h in step.hashes
                else d.codes == db.codes)
  {
    if Active(db.credentials) == {} {
      assert Live(db.codes) == {};
      assert RevokeCodes(db.codes, Live(db.codes), step.now) == db.codes;
      AddedHashes(db.codes, db.nextId + 1, step.hashes, step.now);
      assert HashesInUse(db.codes) == {};
    }
  }

  function HashesInUse(rows: map<Id, RecoveryCode>): set<string> {
    set c | c in rows && rows[c].usedAt == None && rows[c].revokedAt == None :: rows[c].hash
  }

  lemma {:induction false} AddedHashes(rows: map<Id, RecoveryCode>, first: Id, hashes: seq<string>, now: Instant)
    requires KeysBelow(rows, first)
    ensures HashesInUse(AddCodes(rows, first, hashes, now)) == HashesInUse(rows) + set h | h in hashes
    decreases |hashes|
  {
    if hashes != [] {
      var after := rows[first := RecoveryCode(hashes[0], now, None, None)];
      OneMoreHash(rows, first, hashes[0], now);
      AddedHashes(after, first + 1, hashes[1..], now);
      assert hashes == [hashes[0]] + hashes[1..];
    }
  }

  lemma OneMoreHash(rows: map<Id, RecoveryCode>, first: Id, hash: string, now: Instant)
    requires first !in rows
    ensures HashesInUse(rows[first := RecoveryCode(hash, now, None, None)]) == HashesInUse(rows) + {hash}
  {
    var after := rows[first := RecoveryCode(hash, now, None, None)];
    forall h ensures h in HashesInUse(after) <==> h in HashesInUse(rows) + {hash} {
      if h in HashesInUse(rows) {
        var c :| c in rows && rows[c].usedAt == None && rows[c].revokedAt == None && rows[c].hash == h;
        assert after[c] == rows[c];
      }
      if h == hash { assert after[first].hash == h; }
    }
  }

  /** Which registrations are refused, and why: with a passkey in use a verified session, fewer than ten
      passkeys and a verification less than five minutes old, then an open challenge, a new credential id, a
      session in use, and for the first passkey ten new codes. */
  lemma RegistrationCommits(db: Db, step: Step)
    requires step.Registers?
    ensures var (p, now, n) := (step.p, step.now, |set c | c in db.credentials && db.credentials[c].revokedAt == None|);
            var recent := p.mfaVerified && p.mfaVerifiedAt.Some? && now - 300000 < p.mfaVerifiedAt.value <= now;
            var open := step.id in db.challenges && db.challenges[step.id].session == p.session
                        && db.challenges[step.id].purpose == REGISTRATION && db.challenges[step.id].hash == step.hash
                        && db.challenges[step.id].consumedAt == None && now < db.challenges[step.id].expiresAt;
            var taken := step.credentialId in db.otherCredentialIds
                         || exists c | c in db.credentials :: db.credentials[c].credentialId == step.credentialId;
            var inUse := p.session in db.sessions && db.sessions[p.session].revokedAt == None
                         && now < db.sessions[p.session].expiresAt;
            var repeated := n == 0 && exists c | c in db.codes :: db.codes[c].hash in step.hashes;
            match Attempt(db, step)
            case Ok(_) => (n == 0 || (n < 10 && recent)) && open && !taken && inUse && !repeated
            case Err(e) =>
              && Apply(db, step) == db
              && (e == MFA_REQUIRED <==> n > 0 && !p.mfaVerified)
              && (e == LIMIT_REACHED <==> n >= 10 && p.mfaVerified)
              && (e == STEP_UP_REQUIRED <==> 0 < n < 10 && p.mfaVerified && !recent)
              && (e == INVALID_RESPONSE <==> (n == 0 || (n < 10 && recent)) && !open)
              && (e == CONFLICT ==> (n == 0 || (n < 10 && recent)) && open && (taken || (inUse && repeated)))
              && (e == UNAUTHORIZED ==> (n == 0 || (n < 10 && recent)) && open && !taken && !inUse)
              && e in {MFA_REQUIRED, LIMIT_REACHED, STEP_UP_REQUIRED, INVALID_RESPONSE, CONFLICT, UNAUTHORIZED}
  {
    assert Active(db.credentials) == set c | c in db.credentials && db.credentials[c].revokedAt == None;
  }

  // ---------------------------------------------------------------- revocations and recoveries

  predicate InUse(db: Db, c: Id) { c in db.credentials && db.credentials[c].revokedAt == None }

  lemma AnotherInUse(db: Db, c: Id)
    requires InUse(db, c)
    ensures |Active(db.credentials)| > 1 <==> exists other :: other != c && InUse(db, other)
  {
    var others := Active(db.credentials) - {c};
    assert Active(db.credentials) == others + {c};
    if other :| other in others { assert InUse(db, other); }
    if other :| other != c && InUse(db, other) { assert other in others; }
  }

  /** Only one of several passkeys can be revoked, and only that one changes. */
  lemma RevocationCommits(db: Db, step: Step)
    requires step.Revokes?
    ensures var (c, another) := (step.credential, exists other :: other != step.credential && InUse(db, other));
            match Attempt(db, step)
            case Ok(d) =>
              && InUse(db, c) && another
              && d == db.(credentials := db.credentials[c := db.credentials[c].(revokedAt := Some(step.now))], clock := step.now)
            case Err(e) =>
              && Apply(db, step) == db && (e == NOT_FOUND <==> !InUse(db, c))
              && (e == LAST_REQUIRED <==> InUse(db, c) && !another)
  {
    var c := step.credential;
    if InUse(db, c) {
      AnotherInUse(db, c);
      assert RevokeCredentials(db.credentials, {c}, step.now)
             == db.credentials[c := db.credentials[c].(revokedAt := Some(step.now))];
    }
  }

  /** What a recovery leaves: the code presented is used, the others and all passkeys and open challenges end,
      and of the sessions only its own stays, no longer verified. */
  lemma RecoveryStores(db: Db, step: Step)
    requires Inv(db) && Recovered(db, step)
    ensures var (d, now) := (Apply(db, step), Some(step.now));
            && d.credentials.Keys == db.credentials.Keys && d.codes.Keys == db.codes.Keys
            && d.challenges.Keys == db.challenges.Keys && d.sessions.Keys == db.sessions.Keys
            && (forall c | c in db.credentials :: d.credentials[c]
                  == if db.credentials[c].revokedAt == None then db.credentials[c].(revokedAt := now) else db.credentials[c])
            && (forall c | c in db.challenges :: d.challenges[c]
                  == if db.challenges[c].consumedAt == None then db.challenges[c].(consumedAt := now) else db.challenges[c])
            && (forall s | s in db.sessions :: d.sessions[s]
                  == if s == step.p.session then db.sessions[s].(mfaVerifiedAt := None)
                     else if db.sessions[s].revokedAt == None then db.sessions[s].(revokedAt := now) else db.sessions[s])
            && (forall c | c in db.codes :: d.codes[c]
                  == if db.codes[c].usedAt.Some? || db.codes[c].revokedAt.Some? then db.codes[c]
                     else if db.codes[c].hash == step.hash then db.codes[c].(usedAt := now)
                     else db.codes[c].(revokedAt := now))
  {
  }

  /** A recovery commits exactly for a session in use that is not verified yet and a code in use. */
  lemma RecoveryCommits(db: Db, step: Step)
    requires step.Recovers?
    ensures var s := step.p.session;
            var inUse := s in db.sessions && db.sessions[s].revokedAt == None && step.now < db.sessions[s].expiresAt;
            match Attempt(db, step)
            case Ok(_) => !step.p.mfaVerified && step.hash in HashesInUse(db.codes) && inUse
            case Err(e) =>
              && Apply(db, step) == db && (e == ALREADY_VERIFIED <==> step.p.mfaVerified)
              && (e == RECOVERY_INVALID <==> !step.p.mfaVerified && step.hash !in HashesInUse(db.codes))
              && (e == UNAUTHORIZED <==> !step.p.mfaVerified && step.hash in HashesInUse(db.codes) && !inUse)
              && e in {ALREADY_VERIFIED, RECOVERY_INVALID, UNAUTHORIZED}
  {
    assert (exists c | c in Live(db.codes) :: db.codes[c].hash == step.hash) <==> step.hash in HashesInUse(db.codes);
  }

  /** Only a recovery takes a code out of use. */
  lemma CodeStays(db: Db, step: Step, hash: string)
    requires Inv(db) && Enabled(db, step) && !Recovered(db, step) && hash in HashesInUse(db.codes)
    ensures hash in HashesInUse(Apply(db, step).codes)
  {
    var c :| c in Live(db.codes) && db.codes[c].hash == hash;
    if Registered(db, step) { RegistrationStores(db, step); }
  }

  lemma {:induction false} CodeStaysUntilRecovery(states: seq<Db>, steps: seq<Step>, i: nat, j: nat, hash: string)
    requires Run(states, steps) && i <= j < |states| && hash in HashesInUse(states[i].codes)
    requires forall k | i <= k < j :: !Recovered(states[k], steps[k])
    ensures hash in HashesInUse(states[j].codes)
    decreases j - i
  {
    if i < j {
      CodeStaysUntilRecovery(states, steps, i, j - 1, hash);
      RunKeeps(states, steps, j - 1);
      CodeStays(states[j - 1], steps[j - 1], hash);
    }
  }

  /** Each code shown with the first passkey recovers the account, from any session in use that is not
      verified, at any time before the first recovery. */
  lemma ShownCodeRecovers(states: seq<Db>, steps: seq<Step>, i: nat, j: nat)
    requires Run(states, steps) && i < j < |steps| && Registered(states[i], steps[i]) && Active(states[i].credentials) == {}
    requires steps[j].Recovers? && steps[j].hash in steps[i].hashes
    requires forall k | i < k < j :: !Recovered(states[k], steps[k])
    requires !steps[j].p.mfaVerified && steps[j].p.session in states[j].sessions
    requires var s := states[j].sessions[steps[j].p.session]; s.revokedAt == None && steps[j].now < s.expiresAt
    ensures Recovered(states[j], steps[j])
  {
    RunKeeps(states, steps, i);
    RegistrationStores(states[i], steps[i]);
    CodeStaysUntilRecovery(states, steps, i + 1, j, steps[j].hash);
    RecoveryCommits(states[j], steps[j]);
  }

  /** Options open a challenge exactly for a session and a new hash, and end the previous one of the ceremony. */
  lemma OptionsOpen(db: Db, step: Step)
    requires step.Opens? && Inv(db)
    ensures Attempt(db, step) == Err(CONFLICT)
            <==> step.p.session !in db.sessions || exists c | c in db.challenges :: db.challenges[c].hash == step.hash
    ensures match Attempt(db, step)
            case Err(e) => e == CONFLICT && Apply(db, step) == db
            case Ok(d) =>
              && d.challenges.Keys == db.challenges.Keys + {db.nextId}
              && d.challenges[db.nextId] == Challenge(step.p.session, step.purpose, step.hash, step.now, step.now + 300000, None)
              && (forall c | c in db.challenges :: d.challenges[c]
                    == if db.challenges[c].session == step.p.session && db.challenges[c].purpose == step.purpose
                          && db.challenges[c].consumedAt == None
                       then db.challenges[c].(consumedAt := Some(step.now)) else db.challenges[c])
              && d.credentials == db.credentials && d.codes == db.codes && d.sessions == db.sessions
  {
  }

  /** Logging in begins a session that is not verified, and logging out or an administrator ends one. */
  lemma SessionSteps(db: Db, step: Step)
    requires Enabled(db, step) && (step.SessionBegins? || step.SessionEnds?)
    ensures Apply(db, step).credentials == db.credentials && Apply(db, step).codes == db.codes
    ensures Apply(db, step).challenges == db.challenges
    ensures step.SessionBegins? ==> Apply(db, step).sessions == db.sessions[db.nextId := Session(step.expiresAt, None, None)]
    ensures step.SessionEnds? ==>
              step.session in db.sessions
              && Apply(db, step).sessions == if db.sessions[step.session].revokedAt.Some? then db.sessions
                                             else db.sessions[step.session := db.sessions[step.session].(revokedAt := Some(step.now))]
  {
  }
}
