/**
 * The account-record operations on the `USERS` collection, as pure transitions:
 * sign-in with the failed-attempt lockout, account creation, ban, unban and
 * deletion. The identity service's answers are inputs.
 */
module Lockout {
  import opened Wrappers
  import opened Accounts

  /** The `USERS` collection: email to record. */
  type Users = map<string, Account>

  /** Every record of the collection satisfies the lockout invariant. */
  predicate AllConsistent(users: Users) {
    forall e :: e in users ==> LockoutConsistent(users[e])
  }

  /** Which message the sign-in shows the user. */
  datatype LoginOutcome =
    | NoAccount              // no record under that email
    | AccountBanned          // the record is banned; the identity service is not asked
    | SignedIn               // the identity service accepted the password
    | WrongPassword(attempt: nat)  // rejected; `attempt` is the new failure count
    | LockedOut              // rejected, and this failure banned the account

  /** The collection after a sign-in, and the record handed to the session, if any. */
  datatype LoginResult = LoginResult(users: Users, signedIn: Option<Account>, outcome: LoginOutcome)

  /**
   * A sign-in attempt. `authOk` is the identity service's verdict on the
   * password; `token` is the push token fetched and stored for an admin (None
   * when fetching or storing it failed, which the sign-in ignores).
   */
  function Login(users: Users, email: string, authOk: bool, token: Option<string>): (r: LoginResult)
    // the collection keeps its keys and only the signing-in record can change
    ensures r.users.Keys == users.Keys
    ensures email in users ==> r.users == users[email := r.users[email]]
    ensures email !in users ==> r.users == users && r.signedIn == None && r.outcome == NoAccount
    // a banned record short-circuits before authentication, whatever the password
    ensures email in users && users[email].banned ==>
              r.users == users && r.signedIn == None && r.outcome == AccountBanned
    // a session is established exactly when the record exists, is not banned and the password is accepted
    ensures r.signedIn.Some? <==> email in users && !users[email].banned && authOk
    ensures r.signedIn.Some? <==> r.outcome == SignedIn
    // no branch touches the descriptive fields
    ensures email in users ==> SameProfile(r.users[email], users[email])
    // failure: the counter (missing read as 0) goes up by one; the record is banned exactly when it reaches the threshold
    ensures email in users && !users[email].banned && !authOk ==>
              var before, after := users[email], r.users[email];
              && Attempts(after) == Attempts(before) + 1
              && after.banned == (Attempts(before) + 1 >= MaxFailedAttempts)
              && after.fcmToken == before.fcmToken
              && (BannedAt in after.stamps <==> BannedAt in before.stamps || after.banned)
              && after.stamps - {BannedAt} == before.stamps - {BannedAt}
              && r.outcome == (if after.banned then LockedOut else WrongPassword(Attempts(after)))
    // success: the counter is reset, the ban flag stays false, an admin's token is stored
    ensures email in users && !users[email].banned && authOk ==>
              var before, after := users[email], r.users[email];
              var newToken := IsAdmin(before) && token.Some?;
              && after.failedAttempts == Some(0) && !after.banned
              && after.fcmToken == (if newToken then token else before.fcmToken)
              && (LastLoginAt in after.stamps <==> LastLoginAt in before.stamps || newToken)
              && after.stamps - {LastLoginAt} == before.stamps - {LastLoginAt}
    // the session receives the record as read before the reset, with only an admin's token replaced
    ensures r.signedIn.Some? ==>
              var before := users[email];
              && r.signedIn.value.(fcmToken := before.fcmToken) == before
              && r.signedIn.value.fcmToken == (if IsAdmin(before) && token.Some? then token else before.fcmToken)
    // the lockout invariant is preserved
    ensures AllConsistent(users) ==> AllConsistent(r.users)
  {
    if email !in users then LoginResult(users, None, NoAccount)
    else
      var userData := users[email];
      if userData.banned then LoginResult(users, None, AccountBanned)
      else if authOk then
        var reset := userData.(failedAttempts := Some(0));
        if IsAdmin(userData) && token.Some? then
          var stored := reset.(fcmToken := token, stamps := reset.stamps + {LastLoginAt});
          LoginResult(users[email := stored], Some(userData.(fcmToken := token)), SignedIn)
        else
          LoginResult(users[email := reset], Some(userData), SignedIn)
      else
        var attempt := Attempts(userData) + 1;
        if attempt >= MaxFailedAttempts then
          var locked := userData.(failedAttempts := Some(attempt), banned := true,
                                  stamps := userData.stamps + {BannedAt});
          LoginResult(users[email := locked], None, LockedOut)
        else
          LoginResult(users[email := userData.(failedAttempts := Some(attempt))], None, WrongPassword(attempt))
  }

  /** Account creation: a duplicate email or a refused identity-service signup leaves the collection as it was. */
  function Create(users: Users, fullname: string, email: string, password: string,
                  phone: string, address: string, department: string, createOk: bool): (r: Users)
    ensures email in users ==> r == users
    ensures email !in users && !createOk ==> r == users
    ensures email !in users && createOk ==>
              && r.Keys == users.Keys + {email}
              && r - {email} == users
              && var a := r[email];
                 && a.fullname == fullname && a.email == email && a.password == password
                 && a.phone == phone && a.address == address && a.department == department
                 && a.role == UserRole && a.note == "" && a.avatar == ""
                 && a.failedAttempts == Some(0) && !a.banned && a.fcmToken == None && a.stamps == {}
    ensures AllConsistent(users) ==> AllConsistent(r)
  {
    if email in users || !createOk then users
    else users[email := NewAccount(fullname, email, password, phone, address, department)]
  }

  /** The admin ban: sets the flag, keeps the counter. An update of a missing document fails. */
  function Ban(users: Users, email: string): (r: Users)
    ensures r.Keys == users.Keys
    ensures email !in users ==> r == users
    ensures email in users ==>
              var before, after := users[email], r[email];
              && r == users[email := after]
              && after.banned && after.failedAttempts == before.failedAttempts
              && SameProfile(after, before) && after.fcmToken == before.fcmToken
              && after.stamps == before.stamps + {BannedAt}
    ensures AllConsistent(users) ==> AllConsistent(r)
  {
    if email !in users then users
    else users[email := users[email].(banned := true, stamps := users[email].stamps + {BannedAt})]
  }

  /** The admin unban: clears the flag and the counter, whatever they were. */
  function Unban(users: Users, email: string): (r: Users)
    ensures r.Keys == users.Keys
    ensures email !in users ==> r == users
    ensures email in users ==>
              var before, after := users[email], r[email];
              && r == users[email := after]
              && !after.banned && after.failedAttempts == Some(0)
              && SameProfile(after, before) && after.fcmToken == before.fcmToken
              && after.stamps == before.stamps + {UnbannedAt}
    ensures AllConsistent(users) ==> AllConsistent(r)
  {
    if email !in users then users
    else users[email := users[email].(banned := false, failedAttempts := Some(0),
                                      stamps := users[email].stamps + {UnbannedAt})]
  }

  /** Account deletion: the record goes only when the identity service accepts the password. */
  function Delete(users: Users, email: string, authOk: bool): (r: Users)
    ensures !authOk ==> r == users
    ensures authOk ==> r.Keys == users.Keys - {email} && forall e :: e in r ==> r[e] == users[e]
    ensures AllConsistent(users) ==> AllConsistent(r)
  {
    if authOk then users - {email} else users
  }
}
