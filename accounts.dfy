/**
 * The account record kept in the `USERS` document collection, keyed by email,
 * and the lockout invariant that relates its failure counter to its ban flag.
 */
module Accounts {
  import opened Wrappers

  /** After this many consecutive failed sign-ins the account is banned. */
  const MaxFailedAttempts: nat := 5

  /** The role written by account creation, and the role that receives a push token. */
  const UserRole: string := "user"
  const AdminRole: string := "admin"

  /**
   * The server-assigned timestamps a record may carry. Their values are chosen
   * by the document store; the model only records which ones have been written.
   */
  datatype Stamp = BannedAt | UnbannedAt | LastLoginAt

  /**
   * One document of `USERS`. `failedAttempts` may be missing (records not made by
   * account creation); a missing `banned` behaves exactly like `false` and is
   * modelled as such. `fcmToken` is the push-messaging token of an admin device.
   */
  datatype Account = Account(
    fullname: string,
    email: string,
    password: string,
    phone: string,
    address: string,
    department: string,
    role: string,
    note: string,
    avatar: string,
    failedAttempts: Option<nat>,
    banned: bool,
    fcmToken: Option<string>,
    stamps: set<Stamp>)

  /** The failure counter as the sign-in code reads it: a missing value counts as 0. */
  function Attempts(a: Account): (n: nat) {
    match a.failedAttempts
    case Some(n) => n
    case None => 0
  }

  predicate IsAdmin(a: Account) {
    a.role == AdminRole
  }

  /** `a` and `b` agree on every descriptive field and on the role. */
  predicate SameProfile(a: Account, b: Account) {
    && a.fullname == b.fullname && a.email == b.email && a.password == b.password
    && a.phone == b.phone && a.address == b.address && a.department == b.department
    && a.role == b.role && a.note == b.note && a.avatar == b.avatar
  }

  /**
   * The lockout invariant: the counter never exceeds the threshold, and an
   * account that is not banned has fewer failures than the threshold.
   */
  predicate LockoutConsistent(a: Account) {
    Attempts(a) <= MaxFailedAttempts && (!a.banned ==> Attempts(a) < MaxFailedAttempts)
  }

  /** The record written for a new account: role "user", empty note and avatar, no failures, not banned. */
  function NewAccount(fullname: string, email: string, password: string,
                      phone: string, address: string, department: string): (a: Account)
    ensures LockoutConsistent(a) && a.failedAttempts == Some(0) && !a.banned
    ensures a.fullname == fullname && a.email == email && a.password == password
    ensures a.phone == phone && a.address == address && a.department == department
    ensures a.role == UserRole && a.note == "" && a.avatar == ""
  {
    Account(fullname, email, password, phone, address, department,
            UserRole, "", "", Some(0), false, None, {})
  }
}
