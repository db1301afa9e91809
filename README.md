# Session store and account lockout, modelled in Dafny

This project models the authentication and session module of a React Native
app (`store/index.js`). The module has two parts:

- **The session store.** A reducer over `{userLogin, services}`. It has two
  actions, `USER_LOGIN` and `LOGOUT`. Any other action type produces the error
  value `Error("Action not found")` instead of a state. When the provider
  mounts, it replays the session persisted under the device-storage key
  `userLogin`.
- **The account operations on the `USERS` document collection.** These are
  signup, sign-in with a failed-attempt lockout, logout, admin ban and unban,
  and account deletion.

The vendor services are replaced by values:

- The document collection is a `map<string, Account>` keyed by email.
- The identity service's answers are boolean inputs: `authOk` for sign-in and
  re-authentication, `createOk` for signup, `signOutOk` for sign-out.
- Its set of registered emails is the field `credentials`. The field compares
  email strings exactly (see "## Left out").
- The admin push token is an `Option<string>` input. `None` means fetching or
  storing the token failed, which sign-in ignores.
- Device storage is the field `storage`.

Files:

- `wrappers.dfy`: `Option` and `Result`.
- `accounts.dfy`: the account record, the threshold (5), the creation record,
  and the lockout invariant `LockoutConsistent`. The invariant says the counter
  is at most 5, and an unbanned account has fewer than 5 failures.
- `session.dfy`: the reducer, the initial state and the hydration step.
- `lockout.dfy`: each account operation as a pure transition on the
  collection. Each function's `ensures` states the operation's effect, and
  states that the lockout invariant is preserved.
- `lockout_properties.dfy`: properties spanning several operations. These cover
  runs of consecutive failures, the fresh-account scenario, idempotence of ban
  and unban, duplicate signup, the invariant over any sequence of operations,
  and "banned until released".
- `store.dfy`: class `App`, which holds `users`, `credentials`, `controller`
  (the session state) and `storage`. Each exported operation is an imperative
  method that follows the source step by step. Each method's `ensures` ties
  its new state to the matching function of `lockout.dfy` or `session.dfy`. The
  invariant `Mirrored()` says the session equals the persisted slot. Every
  method that touches either one keeps `Mirrored()`.

Design points where the model follows the code:

- On a successful sign-in, the session receives the record as it was read
  (lines 96 and 127). So its `failedAttempts` is the value from before the
  reset to 0 at line 108. For an admin, only `fcmToken` is replaced (line 121).
- A missing `failedAttempts` counts as 0 (line 132). The field is
  `Option<nat>`, read through `Attempts`.
- A missing `banned` behaves exactly like `false`, because it is only checked
  for truthiness at line 99. It is therefore a plain `bool`.
- `banUser` and `unbanUser` use `update`. An update of a document that does
  not exist is rejected by the document store, and the code shows its error
  alert. In the model, both `Ban` and `Unban` leave the collection unchanged
  for an unknown email and return `ok = false`.
- Written server timestamps are kept as a set of `Stamp` values, which records
  only whether each one was written. This is what makes banning twice or
  unbanning twice yield the same record in the model.
- `LOGOUT` keeps `services`, but a restart (`Remount`) starts again from the
  initial state. So after a restart `services` is empty, and only `userLogin`
  is restored.

## Model

| member | source | states |
|---|---|---|
| `SessionStore.Reduce` | store/index.js:11-20 | A result is a state exactly for `USER_LOGIN` and `LOGOUT`; any other type yields the error "Action not found". `USER_LOGIN` sets `userLogin` to the payload, `LOGOUT` sets it to none, and both keep `services`. |
| `SessionStore.InitialState` | store/index.js:23-26 | The provider starts with nobody logged in and no services. |
| `SessionStore.LogoutIdempotent` | store/index.js:15-16 | Logging out twice gives the same state as logging out once. |
| `SessionStore.UserLoginOverrides` | store/index.js:13-14 | A second `USER_LOGIN` gives the same state as that `USER_LOGIN` alone: the later session replaces the earlier one. |
| `SessionStore.UserLoginThenLogout` | store/index.js:13-16 | A `LOGOUT` after a `USER_LOGIN` gives the same state as the `LOGOUT` alone. |
| `SessionStore.Hydrate` | store/index.js:32-40 | A persisted session becomes `userLogin`, and `services` is kept. An empty slot leaves the state as it was. |
| `SessionStore.RestartRestoresMirror` | store/index.js:32-40 | A store mounted from the persisted slot holds that slot's session, or nobody if the slot is empty, and no services. |
| `Accounts.NewAccount` | store/index.js:67-79 | The signup record has role "user", no failures and no ban, so it satisfies the lockout invariant; its note and avatar are empty. |
| `Lockout.Login` | store/index.js:91-158 | A missing email or a banned record leaves the collection unchanged and gives no session, whatever the password. A session is given exactly when the record exists, is not banned and the password is accepted. On a failure, the counter (missing read as 0) becomes n+1 and `banned` becomes true exactly when n+1 >= 5. On a success, the counter is 0, `banned` stays false, and an admin's token is stored. The session is the record as read, with at most the token replaced. Only that record changes, its profile never changes, and the lockout invariant is preserved. |
| `Lockout.Create` | store/index.js:58-89 | An existing email, or a signup refused by the identity service, leaves the collection unchanged. Otherwise exactly one record is added, holding the given fields, role "user", empty note and avatar, counter 0 and no ban. The lockout invariant is preserved. |
| `Lockout.Ban` | store/index.js:168-179 | `banned` becomes true and `bannedAt` is recorded. The counter, the profile and the token are kept, and no other record changes. A missing email changes nothing. |
| `Lockout.Unban` | store/index.js:181-193 | `banned` becomes false, the counter becomes 0 and `unbannedAt` is recorded. The profile and the token are kept, and no other record changes. A missing email changes nothing. |
| `Lockout.Delete` | store/index.js:195-214 | The email's record is removed only when re-authentication succeeds; otherwise the collection is unchanged. Other records are kept. |
| `LockoutProperties.FailedLoginsWhileBanned` | store/index.js:99-102 | Any number of failed sign-ins on a banned record change nothing. |
| `LockoutProperties.ConsecutiveFailures` | store/index.js:132-148 | From an unbanned record with counter n, k consecutive failures give counter n+k and no ban while n+k < 5. With k >= 1 and n+k >= 5 the record is banned. The other records, the profile and the push token are kept. |
| `LockoutProperties.FreshAccountLockout` | store/index.js:95-148 | From counter 0, four wrong passwords leave the account unbanned with counter 4. The fifth bans it with counter 5. After that, the correct password gives no session and changes nothing. |
| `LockoutProperties.UnbanIdempotent` | store/index.js:181-187 | Unbanning twice is the same as unbanning once. |
| `LockoutProperties.BanIdempotent` | store/index.js:168-173 | Banning twice is the same as banning once. |
| `LockoutProperties.UnbanReopensAccount` | store/index.js:181-187 | After an unban, a correct password signs in, and a wrong one counts from 1 without banning. |
| `LockoutProperties.CreateTwiceKeepsFirst` | store/index.js:60-64 | A second signup with an email that already has a record leaves the collection, and so the first record, unchanged. |
| `LockoutProperties.RunPreservesConsistency` | store/index.js:58-214 | Every sequence of signups, sign-ins, bans, unbans and deletions keeps the lockout invariant of every record. |
| `LockoutProperties.BannedUntilReleased` | store/index.js:95-102 | A banned record stays banned through any sequence of operations, and no sign-in on it gives a session, until it is unbanned or deleted. |
| `Store.App.constructor` | store/index.js:22-40 | Mounting starts from the initial state hydrated from storage, so the session mirrors storage. |
| `Store.App.LoadUserData` | store/index.js:33-38 | A persisted session is dispatched as `USER_LOGIN`. |
| `Store.App.Remount` | store/index.js:22-40 | After a restart the session equals the persisted slot, so a mirrored session survives unchanged, and `services` is empty. |
| `Store.App.CreateAccount` | store/index.js:58-89 | The collection becomes `Lockout.Create` of the old one. The credential is added exactly when the email had no record and the identity service accepted the signup. |
| `Store.App.Login` | store/index.js:91-158 | The collection and the outcome are those of `Lockout.Login`. On a session, that record goes into both the session store and storage; otherwise both are untouched. The mirror is kept. |
| `Store.App.Logout` | store/index.js:160-166 | When sign-out succeeds, `LOGOUT` is dispatched (`userLogin` cleared, `services` kept) and storage is cleared. Otherwise nothing changes. The mirror is kept. |
| `Store.App.BanUser` | store/index.js:168-179 | The collection becomes `Lockout.Ban` of the old one; `ok` is true exactly when the record existed. |
| `Store.App.UnbanUser` | store/index.js:181-193 | The collection becomes `Lockout.Unban` of the old one; `ok` is true exactly when the record existed. |
| `Store.App.DeleteUserAccount` | store/index.js:195-214 | On re-authentication, both the credential and the record are removed. On rejection, nothing changes and `ok` is false. |
| `Store.FiveWrongPasswords` | store/index.js:130-148 | Through the object's methods: five wrong passwords on a fresh account ban it with counter 5. The session, storage, the credentials and every other record stay unchanged. |
| `Store.LockoutThenCorrectPassword` | store/index.js:95-102 | Through the object's methods: after that lockout, a correct password is refused as banned. The session, storage, the credentials and the other records stay unchanged. |

## Left out

- Firebase SDK calls (`auth()`, `firestore()`, `messaging()`) are foreign and networked. They are replaced by the collection map, the `credentials` set and the input booleans and token described above.
- Failures of the document-store and identity-service calls are not modelled. The document-store calls are the reads at lines 60 and 93, the `set` at line 67, the `update` calls at lines 108, 136 and 144, and the `delete` at line 207. The admin token write at line 116 is the exception: its failure is the `token = None` input, which the code swallows at lines 122-124. The identity-service call is `user.delete()` at line 204. Sign-in, signup and sign-out answers are inputs. Each operation is modelled as atomic and as reaching the store. As a result, the partial states the code can leave behind are not modelled. Examples are a credential created without a record, and a record deleted without its credential.
- BanUser and UnbanUser: the `update` calls at lines 170 and 183 fail in the model only when the document is missing (`ok = false`). Their other failures are not modelled, such as a network error caught at lines 175-178 and 189-192, which leaves the record unchanged. On an existing email both methods always succeed.
- Store.App.DeleteUserAccount: `credentials` compares emails as exact strings, but the identity service ignores letter case, while `USERS` document ids (lines 60, 67, 207) are case-sensitive. So the model does not capture this case: after `CreateAccount("A@x.com", ...)`, `deleteUserAccount("a@x.com", pw)` signs in to the "A@x.com" credential at line 198 and deletes it at line 204, while the `delete` at line 207 removes nothing. That leaves an orphan "A@x.com" record. In the model the credential "A@x.com" stays. Conversely, the free `createOk` input lets `credentials` hold two emails that differ only in case, which the service never allows.
- Device-storage failures are not modelled: the `getItem` at line 34, the `setItem` at line 128 and the `removeItem` at line 164 always succeed. The `removeItem` at line 164 is neither awaited nor caught. If it failed, `LOGOUT` would already have cleared the session while the slot still held it, and the next mount would sign the user back in. `Mirrored()`, and the Logout and Remount contracts built on it, hold only under this assumption.
- The `.catch` at line 130 also receives errors thrown inside the success handler. With it, a storage failure after a successful sign-in would count as a failed attempt. The model treats that branch as `authOk = false` only.
- Races between the separate read and write round trips, and concurrent logins on one account, are concurrency against a remote store and are not modelled.
- Alert dialogs, their texts, and console logging are UI. `LoginOutcome` records which message the sign-in would show; the other dialogs are not modelled. This includes the `navigation` callback of line 83, which refers to a name not defined in this file.
- The values of the server timestamps (`bannedAt`, `unbannedAt`, `lastLoginAt`) are server-assigned and modelled as present or absent only. `BanIdempotent` and `UnbanIdempotent` therefore hold up to timestamp values.
- The JSON serialisation of the persisted session (lines 36, 128) and the asynchrony of device storage are not modelled. Storage holds the record itself, and hydration runs at once on mount.
- React machinery is framework plumbing and is not modelled: `createContext`, `useMemo`, `useEffect`, and the error value returned by `useMyContextController` (lines 8-9, 22-54). React would store the reducer's error value as the next state. The model returns it as a `Failure` and never dispatches an unknown action itself.
- Plaintext password storage (line 70) is kept as a field but is not given any property. It is a security defect, not behaviour to verify.
- The `services` list is never filled or read in this file. Its element type is a type parameter.
