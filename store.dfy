/**
 * The module's exported operations as methods on one object that holds the
 * state they change: the `USERS` collection, the identity service's accounts,
 * the session store's state and the persisted `userLogin` slot.
 */
module Store {
  import opened Wrappers
  import opened Accounts
  import opened SessionStore
  import opened Lockout

  class App<S> {
    /** The `USERS` document collection, keyed by email. */
    var users: Users
    /** The emails that hold a credential at the identity service. */
    var credentials: set<string>
    /** The session store's current state (`controller`). */
    var controller: State<S>
    /** The persisted `userLogin` key of device storage. */
    var storage: Option<Account>

    /** The session is mirrored one to one into device storage. */
    ghost predicate Mirrored()
      reads this
    {
      controller.userLogin == storage
    }

    /** Mounting the provider: the initial state, hydrated from what storage holds. */
    constructor (users: Users, credentials: set<string>, storage: Option<Account>)
      ensures this.users == users && this.credentials == credentials && this.storage == storage
      ensures controller == Hydrate(InitialState(), storage)
      ensures Mirrored()
    {
      this.users := users;
      this.credentials := credentials;
      this.storage := storage;
      controller := InitialState();
      new;
      LoadUserData();
    }

    /** The start-up effect: a persisted session is dispatched as `USER_LOGIN`. */
    method LoadUserData()
      modifies this`controller
      ensures controller == Hydrate(old(controller), storage)
      ensures storage.Some? || old(Mirrored()) ==> Mirrored()
    {
      if storage.Some? {
        var next := Reduce(controller, UserLogin(storage.value));
        controller := next.value;
      }
    }

    /**
     * A process restart: the store starts over and is hydrated from storage, so
     * the session survives exactly as it was mirrored; the services list does not.
     */
    method Remount()
      modifies this`controller
      ensures controller == Hydrate(InitialState(), storage)
      ensures Mirrored()
      ensures old(Mirrored()) ==> controller.userLogin == old(controller.userLogin)
      ensures controller.services == []
    {
      controller := InitialState();
      LoadUserData();
    }

    /**
     * Signup. A duplicate email is refused before the identity service is asked;
     * `createOk` is the identity service's answer to the new credential.
     */
    method CreateAccount(fullname: string, email: string, password: string,
                         phone: string, address: string, department: string,
                         createOk: bool) returns (created: bool)
      modifies this`users, this`credentials
      ensures users == Create(old(users), fullname, email, password, phone, address, department, createOk)
      ensures created <==> email !in old(users) && createOk
      ensures credentials == if created then old(credentials) + {email} else old(credentials)
    {
      if email in users {
        return false;
      }
      if !createOk {
        return false;
      }
      credentials := credentials + {email};
      users := users[email := NewAccount(fullname, email, password, phone, address, department)];
      created := true;
    }

    /**
     * Sign-in with the lockout policy. `authOk` is the identity service's verdict
     * on the password, `token` the push token obtained for an admin (None when
     * fetching or storing it failed).
     */
    method Login(email: string, authOk: bool, token: Option<string>) returns (outcome: LoginOutcome)
      modifies this`users, this`controller, this`storage
      ensures var r := Lockout.Login(old(users), email, authOk, token);
              && users == r.users && outcome == r.outcome
              && (r.signedIn.Some? ==> controller == old(controller).(userLogin := r.signedIn) && storage == r.signedIn)
              && (r.signedIn.None? ==> controller == old(controller) && storage == old(storage))
      ensures old(Mirrored()) ==> Mirrored()
    {
      if email !in users {
        return NoAccount;
      }
      var userData := users[email];
      if userData.banned {
        return AccountBanned;
      }
      if authOk {
        users := users[email := users[email].(failedAttempts := Some(0))];
        if IsAdmin(userData) && token.Some? {
          users := users[email := users[email].(fcmToken := token, stamps := users[email].stamps + {LastLoginAt})];
          userData := userData.(fcmToken := token);
        }
        var next := Reduce(controller, UserLogin(userData));
        controller := next.value;
        storage := Some(userData);
        outcome := SignedIn;
      } else {
        var currentFailedAttempts := Attempts(userData) + 1;
        if currentFailedAttempts >= MaxFailedAttempts {
          users := users[email := users[email].(failedAttempts := Some(currentFailedAttempts), banned := true,
                                                stamps := users[email].stamps + {BannedAt})];
          outcome := LockedOut;
        } else {
          users := users[email := users[email].(failedAttempts := Some(currentFailedAttempts))];
          outcome := WrongPassword(currentFailedAttempts);
        }
      }
    }

    /** Sign-out; `signOutOk` is the identity service's answer. Only on success is the session cleared. */
    method Logout(signOutOk: bool)
      modifies this`controller, this`storage
      ensures signOutOk ==> controller == Reduce(old(controller), SessionStore.Logout()).value && storage == None
      ensures signOutOk ==> controller.userLogin == None && controller.services == old(controller.services)
      ensures !signOutOk ==> controller == old(controller) && storage == old(storage)
      ensures old(Mirrored()) ==> Mirrored()
    {
      if signOutOk {
        var next := Reduce(controller, SessionStore.Logout());
        controller := next.value;
        storage := None;
      }
    }

    /** The admin ban; `ok` is false when the record is missing and the update fails. */
    method BanUser(email: string) returns (ok: bool)
      modifies this`users
      ensures users == Ban(old(users), email)
      ensures ok <==> email in old(users)
    {
      if email !in users {
        return false;
      }
      users := users[email := users[email].(banned := true, stamps := users[email].stamps + {BannedAt})];
      ok := true;
    }

    /** The admin unban; `ok` is false when the record is missing and the update fails. */
    method UnbanUser(email: string) returns (ok: bool)
      modifies this`users
      ensures users == Unban(old(users), email)
      ensures ok <==> email in old(users)
    {
      if email !in users {
        return false;
      }
      users := users[email := users[email].(banned := false, failedAttempts := Some(0),
                                            stamps := users[email].stamps + {UnbannedAt})];
      ok := true;
    }

    /**
     * Account deletion after re-authentication: the credential, then the record.
     * `ok` is false when the identity service rejects the password (the source rethrows).
     */
    method DeleteUserAccount(email: string, authOk: bool) returns (ok: bool)
      modifies this`users, this`credentials
      ensures users == Delete(old(users), email, authOk)
      ensures credentials == if authOk then old(credentials) - {email} else old(credentials)
      ensures ok == authOk
    {
      if !authOk {
        return false;
      }
      credentials := credentials - {email};
      users := users - {email};
      ok := true;
    }
  }

  /**
   * A client of the object: five wrong passwords on a fresh account ban it with
   * five failures, and touch neither the session, storage, the credentials nor
   * any other record.
   */
  method FiveWrongPasswords<S>(app: App<S>, email: string)
    requires email in app.users && !app.users[email].banned && Attempts(app.users[email]) == 0
    modifies app
    ensures email in app.users && app.users[email].banned && Attempts(app.users[email]) == MaxFailedAttempts
    ensures app.users.Keys == old(app.users).Keys
    ensures forall e :: e in old(app.users) && e != email ==> app.users[e] == old(app.users)[e]
    ensures app.controller == old(app.controller) && app.storage == old(app.storage)
    ensures app.credentials == old(app.credentials)
  {
    var outcome := app.Login(email, false, None);
    assert outcome == WrongPassword(1);
    outcome := app.Login(email, false, None);
    assert outcome == WrongPassword(2);
    outcome := app.Login(email, false, None);
    assert outcome == WrongPassword(3);
    outcome := app.Login(email, false, None);
    assert outcome == WrongPassword(4);
    outcome := app.Login(email, false, None);
    assert outcome == LockedOut;
  }

  /**
   * After the lockout, the correct password is refused as banned and changes
   * nothing at all.
   */
  method LockoutThenCorrectPassword<S>(app: App<S>, email: string, token: Option<string>)
    requires email in app.users && !app.users[email].banned && Attempts(app.users[email]) == 0
    modifies app
    ensures email in app.users && app.users[email].banned && Attempts(app.users[email]) == MaxFailedAttempts
    ensures app.users.Keys == old(app.users).Keys
    ensures forall e :: e in old(app.users) && e != email ==> app.users[e] == old(app.users)[e]
    ensures app.controller == old(app.controller) && app.storage == old(app.storage)
    ensures app.credentials == old(app.credentials)
  {
    FiveWrongPasswords(app, email);
    ghost var locked := app.users;
    var outcome := app.Login(email, true, token);
    assert outcome == AccountBanned && app.users == locked;
  }
}
