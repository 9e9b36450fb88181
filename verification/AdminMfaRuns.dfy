/** What holds over every interleaving of passkey ceremonies, however stale their principals are. */
module AdminMfaRuns {
  import opened Wrappers
  import opened AdminMfa

  lemma {:induction false} RunKeeps(states: seq<Db>, steps: seq<Step>, i: nat)
    requires Run(states, steps) && i < |states|
    ensures Inv(states[i])
  {
    if i == 0 {
    } else {
      RunKeeps(states, steps, i - 1);
      StepKeeps(states[i - 1], steps[i - 1]);
    }
  }

  /** At most ten passkeys; some passkey exactly with ten live codes, none exactly with no live code; a
      session in use counts as verified only while there is a passkey. */
  lemma PasskeysCodesAndSessions(states: seq<Db>, steps: seq<Step>, i: nat, s: Id)
    requires Run(states, steps) && i < |states|
    ensures |Active(states[i].credentials)| <= 10
    ensures Active(states[i].credentials) != {} <==> |Live(states[i].codes)| == 10
    ensures Active(states[i].credentials) == {} <==> Live(states[i].codes) == {}
    ensures s in states[i].sessions && states[i].sessions[s].revokedAt == None && states[i].sessions[s].mfaVerifiedAt.Some?
            ==> Active(states[i].credentials) != {}
  {
    RunKeeps(states, steps, i);
  }

  lemma OneOpenChallenge(states: seq<Db>, steps: seq<Step>, i: nat, session: Id, purpose: Purpose)
    requires Run(states, steps) && i < |states|
    ensures |OpenOf(states[i].challenges, session, purpose)| <= 1
  {
    RunKeeps(states, steps, i);
    var open := OpenOf(states[i].challenges, session, purpose);
    if open != {} {
      var c :| c in open;
      assert open == {c};
    }
  }

  // ---------------------------------------------------------------- what never comes back

  ghost predicate ChallengesLater(a: map<Id, Challenge>, b: map<Id, Challenge>) {
    forall c | c in a :: c in b && (a[c].consumedAt.Some? ==> b[c] == a[c])
  }

  ghost predicate SessionsLater(a: map<Id, Session>, b: map<Id, Session>) {
    forall s | s in a :: s in b && b[s].expiresAt == a[s].expiresAt && (a[s].revokedAt.Some? ==> b[s].revokedAt == a[s].revokedAt)
  }

  ghost predicate CredentialsLater(a: map<Id, Credential>, b: map<Id, Credential>) {
    forall c | c in a ::
      && c in b && b[c].credentialId == a[c].credentialId && a[c].counter <= b[c].counter
      && (a[c].revokedAt.Some? ==> b[c] == a[c])
  }

  ghost predicate CodesLater(a: map<Id, RecoveryCode>, b: map<Id, RecoveryCode>) {
    forall c | c in a ::
      && c in b && b[c].hash == a[c].hash
      && (a[c].usedAt.Some? || a[c].revokedAt.Some? ==> b[c] == a[c])
  }

  ghost predicate Later(a: Db, b: Db) {
    && ChallengesLater(a.challenges, b.challenges) && SessionsLater(a.sessions, b.sessions)
    && CredentialsLater(a.credentials, b.credentials) && CodesLater(a.codes, b.codes)
  }

  lemma {:induction false} AddCodesLater(rows: map<Id, RecoveryCode>, first: Id, hashes: seq<string>, now: Instant)
    requires KeysBelow(rows, first)
    ensures CodesLater(rows, AddCodes(rows, first, hashes, now))
    decreases |hashes|
  {
    if hashes != [] {
      AddCodesLater(rows[first := RecoveryCode(hashes[0], now, None, None)], first + 1, hashes[1..], now);
    }
  }

  lemma FirstCodesLater(rows: map<Id, RecoveryCode>, first: Id, hashes: seq<string>, now: Instant)
    requires KeysBelow(rows, first)
    ensures CodesLater(rows, AddCodes(RevokeCodes(rows, Live(rows), now), first, hashes, now))
  {
    AddCodesLater(RevokeCodes(rows, Live(rows), now), first, hashes, now);
  }

  lemma RegistersLater(db: Db, step: Step)
    requires Inv(db) && step.Registers? && Attempt(db, step).Ok?
    ensures Later(db, Attempt(db, step).value)
  {
    var d := Attempt(db, step).value;
    FirstCodesLater(db.codes, db.nextId + 1, step.hashes, step.now);
    assert CredentialsLater(db.credentials, d.credentials);
    assert SessionsLater(db.sessions, d.sessions);
    assert ChallengesLater(db.challenges, d.challenges);
  }

  lemma OpensLater(db: Db, step: Step)
    requires Inv(db) && step.Opens? && Attempt(db, step).Ok?
    ensures Later(db, Attempt(db, step).value)
  {
  }

  lemma AuthenticatesLater(db: Db, step: Step)
    requires Enabled(db, step) && step.Authenticates? && Attempt(db, step).Ok?
    ensures Later(db, Attempt(db, step).value)
  {
  }

  lemma RecoversLater(db: Db, step: Step)
    requires step.Recovers? && Attempt(db, step).Ok?
    ensures Later(db, Attempt(db, step).value)
  {
  }

  lemma StepLater(db: Db, step: Step)
    requires Inv(db) && Enabled(db, step)
    ensures Later(db, Apply(db, step))
  {
    if Attempt(db, step).Ok? {
      match step
      case Registers(_, _, _, _, _, _, _) => RegistersLater(db, step);
      case Recovers(_, _, _) => RecoversLater(db, step);
      case Opens(_, _, _, _) => OpensLater(db, step);
      case Authenticates(_, _, _, _, _, _, _, _) => AuthenticatesLater(db, step);
      case Revokes(_, _) =>
      case SessionBegins(_, _) =>
      case SessionEnds(_, _) =>
      case OthersRegister(_, _) =>
    }
  }

  lemma LaterTransitive(a: Db, b: Db, c: Db)
    requires Later(a, b) && Later(b, c)
    ensures Later(a, c)
  {
  }

  lemma {:induction false} RunLater(states: seq<Db>, steps: seq<Step>, i: nat, j: nat)
    requires Run(states, steps) && i <= j < |states|
    ensures Later(states[i], states[j])
  {
    if i < j {
      RunLater(states, steps, i, j - 1);
      RunKeeps(states, steps, j - 1);
      StepLater(states[j - 1], steps[j - 1]);
      LaterTransitive(states[i], states[j - 1], states[j]);
    }
  }

  /** A counter never goes back and a revoked passkey never changes again. */
  lemma CountersNeverGoBack(states: seq<Db>, steps: seq<Step>, i: nat, j: nat, c: Id)
    requires Run(states, steps) && i <= j < |states| && c in states[i].credentials
    ensures c in states[j].credentials && states[i].credentials[c].counter <= states[j].credentials[c].counter
    ensures states[i].credentials[c].revokedAt.Some? ==> states[j].credentials[c] == states[i].credentials[c]
  {
    RunLater(states, steps, i, j);
  }

  // ---------------------------------------------------------------- commits

  /** A commit that consumed challenge `id` for a session. */
  predicate Commits(db: Db, step: Step, id: Id) {
    (step.Registers? || step.Authenticates?) && step.id == id && Attempt(db, step).Ok?
  }

  lemma CommitConsumes(db: Db, step: Step, id: Id)
    requires Commits(db, step, id)
    ensures id in db.challenges && db.challenges[id].consumedAt == None && db.challenges[id].session == step.p.session
    ensures step.now < db.challenges[id].expiresAt && SessionLive(db.sessions, step.p.session, step.now)
    ensures id in Apply(db, step).challenges && Apply(db, step).challenges[id].consumedAt == Some(step.now)
  {
  }

  /** Each challenge is consumed by at most one commit. */
  lemma ConsumedOnce(states: seq<Db>, steps: seq<Step>, i: nat, j: nat, id: Id)
    requires Run(states, steps) && i < j < |steps| && Commits(states[i], steps[i], id)
    ensures !Commits(states[j], steps[j], id)
  {
    CommitConsumes(states[i], steps[i], id);
    RunLater(states, steps, i + 1, j);
    if Commits(states[j], steps[j], id) {
      CommitConsumes(states[j], steps[j], id);
      assert false;
    }
  }

  predicate Recovered(db: Db, step: Step) { step.Recovers? && Attempt(db, step).Ok? }

  /** Recovery is a cut: after it no challenge opened before it commits, and no session begun before it
      commits except the one that recovered. */
  lemma RecoveryIsACut(states: seq<Db>, steps: seq<Step>, r: nat, j: nat, id: Id)
    requires Run(states, steps) && r < j < |steps| && Recovered(states[r], steps[r]) && Commits(states[j], steps[j], id)
    ensures id !in states[r].challenges
    ensures steps[j].p.session in states[r].sessions ==> steps[j].p.session == steps[r].p.session
  {
    RunKeeps(states, steps, r);
    RecoversKeeps(states[r], steps[r].p, steps[r].hash, steps[r].now);
    RunLater(states, steps, r + 1, j);
    CommitConsumes(states[j], steps[j], id);
  }

  /** A recovery code recovers at most once. */
  lemma CodeWorksOnce(states: seq<Db>, steps: seq<Step>, i: nat, j: nat)
    requires Run(states, steps) && i < j < |steps| && Recovered(states[i], steps[i]) && Recovered(states[j], steps[j])
    ensures steps[i].hash != steps[j].hash
  {
    RunKeeps(states, steps, j);
    RunLater(states, steps, i + 1, j);
    var used :| used in Live(states[i].codes) && states[i].codes[used].hash == steps[i].hash;
    var c :| c in Live(states[j].codes) && states[j].codes[c].hash == steps[j].hash;
    assert used in states[i + 1].codes && states[i + 1].codes[used].usedAt.Some?;
  }

  // ---------------------------------------------------------------- where a verification comes from

  /** Some earlier commit of this session set its verification time. */
  ghost predicate Caused(states: seq<Db>, steps: seq<Step>, before: nat, session: Id, at: Instant) {
    exists k: nat, id | k < before && k < |steps| && k < |states| ::
      Commits(states[k], steps[k], id) && steps[k].p.session == session && steps[k].now == at
  }

  lemma {:induction false} VerificationHasACause(states: seq<Db>, steps: seq<Step>, i: nat, s: Id)
    requires Run(states, steps) && i < |states|
    requires s in states[i].sessions && states[i].sessions[s].mfaVerifiedAt.Some?
    ensures Caused(states, steps, i, s, states[i].sessions[s].mfaVerifiedAt.value)
  {
    if i > 0 {
      var db, step := states[i - 1], steps[i - 1];
      RunKeeps(states, steps, i - 1);
      if (step.Registers? || step.Authenticates?) && Attempt(db, step).Ok? && step.p.session == s {
        assert Commits(states[i - 1], steps[i - 1], step.id);
      } else {
        VerificationUnchanged(db, step, s);
        VerificationHasACause(states, steps, i - 1, s);
        var k: nat, id :| k < i - 1 && Commits(states[k], steps[k], id) && steps[k].p.session == s
                          && steps[k].now == states[i - 1].sessions[s].mfaVerifiedAt.value;
        assert Commits(states[k], steps[k], id);
      }
    }
  }

  lemma VerificationUnchanged(db: Db, step: Step, s: Id)
    requires Inv(db) && s in Apply(db, step).sessions && Apply(db, step).sessions[s].mfaVerifiedAt.Some?
    requires (step.Registers? || step.Authenticates?) && Attempt(db, step).Ok? ==> step.p.session != s
    ensures s in db.sessions && db.sessions[s].mfaVerifiedAt == Apply(db, step).sessions[s].mfaVerifiedAt
  {
  }

  /** A further passkey is only added within five minutes after the session itself was verified, as long as
      the principal was read from the session at some earlier state `c`. */
  lemma FurtherPasskeyNeedsStepUp(states: seq<Db>, steps: seq<Step>, c: nat, j: nat)
    requires Run(states, steps) && c <= j < |steps|
    requires steps[j].Registers? && Attempt(states[j], steps[j]).Ok? && Active(states[j].credentials) != {}
    requires var p := steps[j].p;
             p.session in states[c].sessions && p.mfaVerifiedAt == states[c].sessions[p.session].mfaVerifiedAt
    ensures exists at | steps[j].now - 5 * 60000 < at <= steps[j].now :: Caused(states, steps, c, steps[j].p.session, at)
  {
    VerificationHasACause(states, steps, c, steps[j].p.session);
    assert Caused(states, steps, c, steps[j].p.session, steps[j].p.mfaVerifiedAt.value);
  }

  // ---------------------------------------------------------------- an undisturbed ceremony succeeds

  lemma FirstEnrollmentSucceeds(db: Db, p: Principal, hash: string, credentialId: string, counter: nat,
                                hashes: seq<string>, openedAt: Instant, now: Instant)
    requires Inv(db) && Active(db.credentials) == {} && SessionLive(db.sessions, p.session, now)
    requires (forall c | c in db.challenges :: db.challenges[c].hash != hash)
    requires !CredentialTaken(db, credentialId) && !CodesTaken(db, hashes)
    requires openedAt <= now < openedAt + 5 * 60000
    ensures var open := OpenChallenge(db, p, REGISTRATION, hash, openedAt);
            && open.Ok? && Register(open.value, p, db.nextId, hash, credentialId, counter, hashes, now).Ok?
  {
    var d := OpenChallenge(db, p, REGISTRATION, hash, openedAt).value;
    assert Claimable(d.challenges, p, db.nextId, REGISTRATION, hash, now);
  }

  lemma AuthenticationSucceeds(db: Db, p: Principal, hash: string, stored: Id, received: nat, openedAt: Instant, now: Instant)
    requires Inv(db) && stored in Active(db.credentials) && SessionLive(db.sessions, p.session, now)
    requires (forall c | c in db.challenges :: db.challenges[c].hash != hash)
    requires openedAt <= now < openedAt + 5 * 60000
    ensures var open := OpenChallenge(db, p, AUTHENTICATION, hash, openedAt);
            && open.Ok?
            && Authenticate(open.value, p, db.nextId, hash, stored, db.credentials[stored].credentialId,
                            db.credentials[stored].counter, received, now).Ok?
  {
    var d := OpenChallenge(db, p, AUTHENTICATION, hash, openedAt).value;
    assert Claimable(d.challenges, p, db.nextId, AUTHENTICATION, hash, now);
  }
}
