/**
 The counter of failed logins and the lock it leads to.
 Source: apps/api/src/auth/auth.service.ts (login, recordFailedLoginAttempt).
*/
module LoginLockout {
  import opened Wrappers

  type Instant = int

  const MAX_FAILED_LOGINS := 5
  const LOCK := 15 * 60000

  datatype Account = Account(
    available: bool,
    passwordResetRequired: bool,
    failedAttempts: nat,
    lockedUntil: Option<Instant>,
    lastLoginAt: Option<Instant>)

  predicate Locked(a: Account, now: Instant) { a.lockedUntil.Some? && a.lockedUntil.value > now }

  /** The single update statement of recordFailedLoginAttempt. */
  function RecordFailed(a: Account, now: Instant): Account {
    if Locked(a, now) then a
    else if a.failedAttempts + 1 >= MAX_FAILED_LOGINS then a.(failedAttempts := 0, lockedUntil := Some(now + LOCK))
    else a.(failedAttempts := a.failedAttempts + 1, lockedUntil := None)
  }

  datatype LoginResult = INVALID_CREDENTIALS | UNAVAILABLE | PASSWORD_CHANGE_REQUIRED | LOGGED_IN

  /** A login has read `user` at `readAt` and writes to the row as it is then; whether the password is right
      is the caller's secret. The update of a success repeats the conditions on the current row. */
  function Respond(user: Account, current: Account, correct: bool, readAt: Instant, recordedAt: Instant): (Account, LoginResult) {
    if Locked(user, readAt) then (current, INVALID_CREDENTIALS)
    else if !correct then (RecordFailed(current, recordedAt), INVALID_CREDENTIALS)
    else if !user.available then (current, UNAVAILABLE)
    else if user.passwordResetRequired then (current, PASSWORD_CHANGE_REQUIRED)
    else if Locked(current, readAt) || current.passwordResetRequired || !current.available then (current, INVALID_CREDENTIALS)
    else (LogIn(current, readAt), LOGGED_IN)
  }

  /** A login with nothing in between its statements. */
  function Attempt(a: Account, correct: bool, readAt: Instant, recordedAt: Instant): (Account, LoginResult) {
    Respond(a, a, correct, readAt, recordedAt)
  }

  function LogIn(a: Account, now: Instant): Account {
    a.(failedAttempts := 0, lockedUntil := None, lastLoginAt := Some(now))
  }

  /** At most four attempts are counted, and none while a lock is recorded. */
  predicate Sound(a: Account) {
    a.failedAttempts < MAX_FAILED_LOGINS && (a.lockedUntil.Some? ==> a.failedAttempts == 0)
  }

  /** No lock in force, neither suspended nor deleted, and no reset pending. */
  predicate MayLogIn(a: Account, at: Instant) {
    (a.lockedUntil == None || a.lockedUntil.value <= at) && a.available && !a.passwordResetRequired
  }

  class LoginAccount {
    var account: Account

    constructor ()
      ensures Sound(account)
    {
      account := Account(true, false, 0, None, None);
    }

    /** One login with nothing in between its statements. */
    method Login(correct: bool, readAt: Instant, recordedAt: Instant) returns (r: LoginResult)
      requires Sound(account) && readAt <= recordedAt
      modifies this
      ensures Sound(account)
      ensures (account, r) == Attempt(old(account), correct, readAt, recordedAt)
      ensures r == LOGGED_IN <==> correct && MayLogIn(old(account), readAt)
      ensures r == LOGGED_IN ==> account == old(account).(failedAttempts := 0, lockedUntil := None, lastLoginAt := Some(readAt))
      ensures !correct ==> r == INVALID_CREDENTIALS
    {
      r := AnswerLogin(account, correct, readAt, recordedAt);
    }

    /** The part of login after the account was read; the row may have changed since. */
    method AnswerLogin(user: Account, correct: bool, readAt: Instant, recordedAt: Instant) returns (r: LoginResult)
      requires Sound(account) && readAt <= recordedAt
      modifies this
      ensures Sound(account)
      ensures (account, r) == Respond(user, old(account), correct, readAt, recordedAt)
    {
      if user.lockedUntil.Some? && user.lockedUntil.value > readAt { return INVALID_CREDENTIALS; }
      if !correct {
        RecordFailedLoginAttempt(recordedAt);
        return INVALID_CREDENTIALS;
      }
      if !user.available { return UNAVAILABLE; }
      if user.passwordResetRequired { return PASSWORD_CHANGE_REQUIRED; }
      var updated := 0;
      if (account.lockedUntil == None || account.lockedUntil.value <= readAt)
         && !account.passwordResetRequired && account.available {
        account := account.(failedAttempts := 0, lockedUntil := None, lastLoginAt := Some(readAt));
        updated := 1;
      }
      if updated != 1 { return INVALID_CREDENTIALS; }
      return LOGGED_IN;
    }

    method RecordFailedLoginAttempt(now: Instant)
      requires Sound(account)
      modifies this
      ensures Sound(account) && account == RecordFailed(old(account), now)
    {
      var attempts, lockedUntil := account.failedAttempts, account.lockedUntil;
      if lockedUntil.Some? && lockedUntil.value > now {
      } else if attempts + 1 >= MAX_FAILED_LOGINS {
        attempts, lockedUntil := 0, Some(now + LOCK);
      } else {
        attempts, lockedUntil := attempts + 1, None;
      }
      account := account.(failedAttempts := attempts, lockedUntil := lockedUntil);
    }
  }

  // ---------------------------------------------------------------- every interleaving

  /** The writes of concurrent logins and of an administrative reset, in the order the database applies them. */
  datatype Write =
    | Failed(now: Instant)
    | Succeeded(readAt: Instant)
    | Reset
    | Changed(available: bool, passwordResetRequired: bool)

  function Apply(a: Account, w: Write): Account {
    match w
    case Failed(now) => RecordFailed(a, now)
    case Succeeded(readAt) =>
      if !Locked(a, readAt) && !a.passwordResetRequired && a.available then LogIn(a, readAt) else a
    case Reset => a.(failedAttempts := 0, lockedUntil := None)
    case Changed(available, required) => a.(available := available, passwordResetRequired := required)
  }

  function Replay(a: Account, writes: seq<Write>): Account
    decreases |writes|
  {
    if writes == [] then a else Replay(Apply(a, writes[0]), writes[1..])
  }

  /** Whatever the order of the writes, the counter stays in 0..4 and is 0 while a lock is in force. */
  lemma {:induction false} CounterStaysSound(a: Account, writes: seq<Write>, now: Instant)
    requires Sound(a)
    ensures var b := Replay(a, writes);
            0 <= b.failedAttempts <= 4 && (Locked(b, now) ==> b.failedAttempts == 0)
    decreases |writes|
  {
    if writes != [] {
      CounterStaysSound(Apply(a, writes[0]), writes[1..], now);
    }
  }

  /** What a login answers, whatever other writes came between its read and its own: it logs in exactly with
      the right password on an account that was open when it was read and still is, and its effect on the
      row is one of the writes above, a success exactly when it logs in. */
  lemma LoginAmongWrites(a: Account, between: seq<Write>, correct: bool, readAt: Instant, recordedAt: Instant)
    ensures var (current, unlocked) := (Replay(a, between), a.lockedUntil == None || a.lockedUntil.value <= readAt);
            var (after, r) := Respond(a, current, correct, readAt, recordedAt);
            && (r == LOGGED_IN <==> correct && MayLogIn(a, readAt) && MayLogIn(current, readAt))
            && (r == UNAVAILABLE <==> correct && unlocked && !a.available)
            && (r == PASSWORD_CHANGE_REQUIRED <==> correct && unlocked && a.available && a.passwordResetRequired)
            && after == Replay(a, between + (if r == LOGGED_IN then [Succeeded(readAt)]
                                             else if unlocked && !correct then [Failed(recordedAt)] else []))
            && (r == LOGGED_IN ==>
                  after == current.(failedAttempts := 0, lockedUntil := None, lastLoginAt := Some(readAt)))
  {
    ReplayOneMore(a, between, Succeeded(readAt));
    ReplayOneMore(a, between, Failed(recordedAt));
    assert between + [] == between;
  }

  lemma {:induction false} ReplayOneMore(a: Account, writes: seq<Write>, w: Write)
    ensures Replay(a, writes + [w]) == Apply(Replay(a, writes), w)
    decreases |writes|
  {
    if writes == [] {
      assert [w][1..] == [] && [] + [w] == [w];
    } else {
      assert (writes + [w])[1..] == writes[1..] + [w];
      ReplayOneMore(Apply(a, writes[0]), writes[1..], w);
    }
  }

  /** Failures that are recorded under a lock, by logins that began before it, neither count nor prolong it. */
  lemma {:induction false} LockStands(a: Account, writes: seq<Write>)
    requires a.lockedUntil.Some? && forall w | w in writes :: w.Failed? && w.now < a.lockedUntil.value
    ensures Replay(a, writes) == a
    decreases |writes|
  {
    if writes != [] {
      assert Apply(a, writes[0]) == a;
      LockStands(a, writes[1..]);
    }
  }

  /** A reset opens the account again, unless it is suspended, deleted or still has to change its password. */
  lemma ResetUnlocks(a: Account, at: Instant)
    ensures Apply(a, Reset) == a.(failedAttempts := 0, lockedUntil := None)
    ensures MayLogIn(Apply(a, Reset), at) <==> a.available && !a.passwordResetRequired
  {
  }

  // ---------------------------------------------------------------- guesses in a window of time

  /** One login with a wrong password. */
  datatype Guess = Guess(readAt: Instant, recordedAt: Instant)

  /** One after the other, from `clock` on. */
  predicate Sequential(guesses: seq<Guess>, clock: Instant)
    decreases |guesses|
  {
    guesses == []
    || (clock <= guesses[0].readAt <= guesses[0].recordedAt && Sequential(guesses[1..], guesses[0].recordedAt))
  }

  function AfterGuess(a: Account, g: Guess): Account { Attempt(a, false, g.readAt, g.recordedAt).0 }

  /** How many of the guesses are compared with the password at a time in [from, to]. */
  function Evaluated(a: Account, guesses: seq<Guess>, from: Instant, to: Instant): nat
    decreases |guesses|
  {
    if guesses == [] then 0
    else (if !Locked(a, guesses[0].readAt) && from <= guesses[0].readAt <= to then 1 else 0)
         + Evaluated(AfterGuess(a, guesses[0]), guesses[1..], from, to)
  }

  /** No guess is evaluated before this instant. */
  function NextOpen(a: Account, clock: Instant): (at: Instant)
    ensures clock <= at && !Locked(a, at)
    ensures forall t | clock <= t && !Locked(a, t) :: at <= t
  {
    if Locked(a, clock) then a.lockedUntil.value else clock
  }

  /** `counted` failures so far, the ones the counter holds at the start included, have cost a lock each five. */
  lemma {:induction false} WindowBudget(a: Account, guesses: seq<Guess>, clock: Instant, from: Instant, length: nat,
                                        counted: nat)
    requires Sound(a) && Sequential(guesses, clock) && from <= clock
    requires a.failedAttempts == counted % 5 && NextOpen(a, clock) >= from + LOCK * (counted / 5)
    ensures var n := Evaluated(a, guesses, from, from + length);
            n == 0 || counted + n <= 5 * (length / LOCK + 1)
    decreases |guesses|
  {
    if guesses != [] {
      var g := guesses[0];
      var next := AfterGuess(a, g);
      if Locked(a, g.readAt) {
        WindowBudget(a, guesses[1..], g.recordedAt, from, length, counted);
      } else {
        assert (counted + 1) / 5 == counted / 5 + (if counted % 5 == 4 then 1 else 0);
        assert NextOpen(next, g.recordedAt) >= from + LOCK * ((counted + 1) / 5);
        WindowBudget(next, guesses[1..], g.recordedAt, from, length, counted + 1);
        if g.readAt <= from + length {
          assert LOCK * (counted / 5) <= length;
          assert counted / 5 <= length / LOCK;
        } else {
          NoneLater(next, guesses[1..], g.recordedAt, from, from + length);
        }
      }
    }
  }

  lemma {:induction false} NoneLater(a: Account, guesses: seq<Guess>, clock: Instant, from: Instant, to: Instant)
    requires Sequential(guesses, clock) && to < clock
    ensures Evaluated(a, guesses, from, to) == 0
    decreases |guesses|
  {
    if guesses != [] {
      NoneLater(AfterGuess(a, guesses[0]), guesses[1..], guesses[0].recordedAt, from, to);
    }
  }

  /** Of any sequence of wrong logins, any window of `length` milliseconds evaluates at most
      5 * (floor(length / 15 minutes) + 1), whatever came before the window. */
  lemma {:induction false} GuessesAreBounded(a: Account, guesses: seq<Guess>, clock: Instant, from: Instant, length: nat)
    requires Sound(a) && Sequential(guesses, clock)
    ensures Evaluated(a, guesses, from, from + length) <= 5 * (length / 900000 + 1)
    decreases |guesses|
  {
    if guesses != [] {
      if guesses[0].readAt < from {
        GuessesAreBounded(AfterGuess(a, guesses[0]), guesses[1..], guesses[0].recordedAt, from, length);
      } else {
        WindowBudget(a, guesses, guesses[0].readAt, from, length, a.failedAttempts);
      }
    }
  }

  // ---------------------------------------------------------------- the bound is reached

  /** Five guesses at once, then five more at the end of each lock. */
  function Burst(at: Instant): seq<Guess> {
    var g := Guess(at, at);
    [g, g, g, g, g]
  }

  function Bursts(at: Instant, k: nat): seq<Guess>
    decreases k
  {
    if k == 0 then Burst(at) else Burst(at) + Bursts(at + LOCK, k - 1)
  }

  lemma BurstLocks(a: Account, at: Instant, rest: seq<Guess>, from: Instant, to: Instant)
    requires a.failedAttempts == 0 && !Locked(a, at) && from <= at <= to
    ensures var b := a.(failedAttempts := 0, lockedUntil := Some(at + LOCK));
            Evaluated(a, Burst(at) + rest, from, to) == 5 + Evaluated(b, rest, from, to)
  {
    var g := Guess(at, at);
    var a1 := AfterGuess(a, g);
    var a2 := AfterGuess(a1, g);
    var a3 := AfterGuess(a2, g);
    var a4 := AfterGuess(a3, g);
    assert (Burst(at) + rest)[1..] == [g, g, g, g] + rest;
    assert ([g, g, g, g] + rest)[1..] == [g, g, g] + rest;
    assert ([g, g, g] + rest)[1..] == [g, g] + rest;
    assert ([g, g] + rest)[1..] == [g] + rest;
    assert ([g] + rest)[1..] == rest;
    assert Evaluated(a4, [g] + rest, from, to) == 1 + Evaluated(AfterGuess(a4, g), rest, from, to);
    assert Evaluated(a3, [g, g] + rest, from, to) == 1 + Evaluated(a4, [g] + rest, from, to);
    assert Evaluated(a2, [g, g, g] + rest, from, to) == 1 + Evaluated(a3, [g, g] + rest, from, to);
    assert Evaluated(a1, [g, g, g, g] + rest, from, to) == 1 + Evaluated(a2, [g, g, g] + rest, from, to);
  }

  lemma OneMoreGuess(g: Guess, rest: seq<Guess>, clock: Instant)
    requires clock <= g.readAt <= g.recordedAt && Sequential(rest, g.recordedAt)
    ensures Sequential([g] + rest, clock)
  {
    assert ([g] + rest)[1..] == rest;
  }

  lemma {:induction false} BurstsAreSequential(at: Instant, k: nat, clock: Instant)
    requires clock <= at
    ensures Sequential(Bursts(at, k), clock)
    decreases k
  {
    var g := Guess(at, at);
    var rest := if k == 0 then [] else Bursts(at + LOCK, k - 1);
    if k > 0 { BurstsAreSequential(at + LOCK, k - 1, at); }
    OneMoreGuess(g, rest, at);
    OneMoreGuess(g, [g] + rest, at);
    OneMoreGuess(g, [g] + ([g] + rest), at);
    OneMoreGuess(g, [g] + ([g] + ([g] + rest)), at);
    OneMoreGuess(g, [g] + ([g] + ([g] + ([g] + rest))), clock);
    assert Bursts(at, k) == [g] + ([g] + ([g] + ([g] + ([g] + rest))));
  }

  /** So no smaller bound holds for windows of whole lock periods. */
  lemma {:induction false} BoundIsReached(a: Account, at: Instant, k: nat, from: Instant, to: Instant)
    requires a.failedAttempts == 0 && !Locked(a, at) && from <= at && at + 900000 * k <= to
    ensures Evaluated(a, Bursts(at, k), from, to) == 5 * (k + 1)
    decreases k
  {
    if k == 0 {
      BurstLocks(a, at, [], from, to);
      assert Burst(at) + [] == Burst(at);
    } else {
      BurstLocks(a, at, Bursts(at + LOCK, k - 1), from, to);
      BoundIsReached(a.(failedAttempts := 0, lockedUntil := Some(at + LOCK)), at + LOCK, k - 1, from, to);
    }
  }
}
