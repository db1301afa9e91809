/**
 * Properties of the lockout policy that relate several operations: runs of
 * consecutive failures, the terminal banned state, the admin escape, and the
 * lockout invariant over arbitrary sequences of account operations.
 */
module LockoutProperties {
  import opened Wrappers
  import opened Accounts
  import opened Lockout

  /** `k` consecutive sign-ins with a rejected password. */
  function FailedLogins(users: Users, email: string, k: nat): (r: Users)
    decreases k
  {
    if k == 0 then users else FailedLogins(Login(users, email, false, None).users, email, k - 1)
  }

  /** Once banned, further failed sign-ins change nothing. */
  lemma {:induction false} FailedLoginsWhileBanned(users: Users, email: string, k: nat)
    requires email in users && users[email].banned
    ensures FailedLogins(users, email, k) == users
    decreases k
  {
    if k > 0 {
      FailedLoginsWhileBanned(Login(users, email, false, None).users, email, k - 1);
    }
  }

  /**
   * From an unbanned record with counter `n`, `k` consecutive failures give
   * counter `n + k` and no ban while `n + k` stays below the threshold, and a ban
   * as soon as it reaches it; nothing but that record changes.
   */
  lemma {:induction false} ConsecutiveFailures(users: Users, email: string, k: nat)
    requires email in users && !users[email].banned
    ensures var r := FailedLogins(users, email, k);
            && r.Keys == users.Keys
            && r == users[email := r[email]]
            && SameProfile(r[email], users[email])
            && r[email].fcmToken == users[email].fcmToken
            && (Attempts(users[email]) + k < MaxFailedAttempts ==>
                  !r[email].banned && Attempts(r[email]) == Attempts(users[email]) + k)
            && (k >= 1 && Attempts(users[email]) + k >= MaxFailedAttempts ==> r[email].banned)
    decreases k
  {
    if k > 0 {
      var next := Login(users, email, false, None).users;
      if next[email].banned {
        FailedLoginsWhileBanned(next, email, k - 1);
      } else {
        ConsecutiveFailures(next, email, k - 1);
      }
    }
  }

  /**
   * The scenario of a fresh account: four wrong passwords leave it unbanned with
   * four failures, the fifth bans it with five, and after that even the correct
   * password yields no session.
   */
  lemma FreshAccountLockout(users: Users, email: string, token: Option<string>)
    requires email in users && !users[email].banned && Attempts(users[email]) == 0
    ensures var four := FailedLogins(users, email, 4);
            !four[email].banned && Attempts(four[email]) == 4
    ensures var five := FailedLogins(users, email, 5);
            && five[email].banned && Attempts(five[email]) == 5
            && Login(five, email, true, token).signedIn == None
            && Login(five, email, true, token).users == five
  {
    ConsecutiveFailures(users, email, 4);
    ConsecutiveFailures(users, email, 5);
    FailedLoginsFirst(users, email, 4);
  }

  /** Peeling the last failure off a run: `k + 1` failures are `k` failures and one more. */
  lemma {:induction false} FailedLoginsFirst(users: Users, email: string, k: nat)
    ensures FailedLogins(users, email, k + 1) == Login(FailedLogins(users, email, k), email, false, None).users
    decreases k
  {
    if k > 0 {
      FailedLoginsFirst(Login(users, email, false, None).users, email, k - 1);
    }
  }

  /** Unbanning twice is unbanning once. */
  lemma UnbanIdempotent(users: Users, email: string)
    ensures Unban(Unban(users, email), email) == Unban(users, email)
  {
  }

  /** Banning twice is banning once. */
  lemma BanIdempotent(users: Users, email: string)
    ensures Ban(Ban(users, email), email) == Ban(users, email)
  {
  }

  /** The admin escape: after an unban, a correct password signs in and a wrong one counts from one again. */
  lemma UnbanReopensAccount(users: Users, email: string, token: Option<string>)
    requires email in users
    ensures Login(Unban(users, email), email, true, token).signedIn.Some?
    ensures var r := Login(Unban(users, email), email, false, token).users;
            Attempts(r[email]) == 1 && !r[email].banned
  {
  }

  /** Creating an account twice with the same email keeps the first record. */
  lemma CreateTwiceKeepsFirst(users: Users, email: string,
                              f1: string, p1: string, ph1: string, a1: string, d1: string, ok1: bool,
                              f2: string, p2: string, ph2: string, a2: string, d2: string, ok2: bool)
    ensures var once := Create(users, f1, email, p1, ph1, a1, d1, ok1);
            email in once ==> Create(once, f2, email, p2, ph2, a2, d2, ok2) == once
  {
  }

  /** An operation on the collection, with the identity service's answers it receives. */
  datatype Op =
    | CreateOp(fullname: string, email: string, password: string, phone: string,
               address: string, department: string, createOk: bool)
    | LoginOp(email: string, authOk: bool, token: Option<string>)
    | BanOp(email: string)
    | UnbanOp(email: string)
    | DeleteOp(email: string, authOk: bool)

  function Step(users: Users, op: Op): (r: Users) {
    match op
    case CreateOp(f, e, p, ph, a, d, ok) => Create(users, f, e, p, ph, a, d, ok)
    case LoginOp(e, ok, t) => Login(users, e, ok, t).users
    case BanOp(e) => Ban(users, e)
    case UnbanOp(e) => Unban(users, e)
    case DeleteOp(e, ok) => Delete(users, e, ok)
  }

  function Run(users: Users, ops: seq<Op>): (r: Users)
    decreases |ops|
  {
    if ops == [] then users else Run(Step(users, ops[0]), ops[1..])
  }

  /** Every operation sequence keeps the lockout invariant of every record. */
  lemma {:induction false} RunPreservesConsistency(users: Users, ops: seq<Op>)
    requires AllConsistent(users)
    ensures AllConsistent(Run(users, ops))
    decreases |ops|
  {
    if ops != [] {
      RunPreservesConsistency(Step(users, ops[0]), ops[1..]);
    }
  }

  /** The operations that can end a ban on `email`: unbanning it, or deleting the record. */
  predicate Releases(op: Op, email: string) {
    (op.UnbanOp? && op.email == email) || (op.DeleteOp? && op.email == email && op.authOk)
  }

  /**
   * A banned account stays banned, and no sign-in attempt on it yields a session,
   * until an admin unbans it or the record is deleted.
   */
  lemma {:induction false} BannedUntilReleased(users: Users, email: string, ops: seq<Op>)
    requires email in users && users[email].banned
    requires forall i :: 0 <= i < |ops| ==> !Releases(ops[i], email)
    ensures email in Run(users, ops) && Run(users, ops)[email].banned
    ensures forall i :: 0 <= i < |ops| && ops[i].LoginOp? && ops[i].email == email ==>
              Login(Run(users, ops[..i]), email, ops[i].authOk, ops[i].token).signedIn == None
    decreases |ops|
  {
    if ops != [] {
      var next := Step(users, ops[0]);
      assert !Releases(ops[0], email);
      assert email in next && next[email].banned;
      BannedUntilReleased(next, email, ops[1..]);
      forall i | 0 <= i < |ops| && ops[i].LoginOp? && ops[i].email == email
        ensures Login(Run(users, ops[..i]), email, ops[i].authOk, ops[i].token).signedIn == None
      {
        if i > 0 {
          assert ops[..i][0] == ops[0] && ops[..i][1..] == ops[1..][..i - 1];
          assert ops[i] == ops[1..][i - 1];
        }
      }
    }
  }
}
