# Credential cache of the Lambda runtime interface emulator

This project models the credential cache in the emulator's `core` package. The
cache maps an opaque token to a credential record. The record holds an access key,
a secret key, a session token and an expiration time. A two-state service gate
(UNBLOCKED / BLOCKED) holds readers back while a caller rotates the credentials.

The model is one Dafny module, `Core` (`credentials.dfy`):

- `Credentials`, `ServiceState`, `Error`, `Result` and `Outcome` are datatypes.
  `Error` has two variants. `CredentialsNotFound` stands for `ErrCredentialsNotFound`.
  `CredentialsCount(n)` stands for the "there are n set of credentials" error.
- The pure functions `NewCredentials`, `Stored`, `Lookup` and `Rotated` specify
  what the operations do to the table.
- The class `CredentialsService` holds the table (`credentials`, a `map`) and the
  state (`currentState`). Its methods update them in place, as the Go methods do.
  The ghost field `gateHeld` stands for the service mutex being held between calls.
  `Valid()` states that the gate is held exactly while the state is `Blocked`.
  Every method keeps that invariant.
- `LastRangeKey` is the `for key := range` loop in `UpdateCredentials`. It visits
  the keys in an order the model leaves open and keeps the last one.
- The wall clock is the integer parameter `now`, in nanoseconds, which is the unit
  of a Go duration. A record written at `now` expires at `now + 16 * 60 * 10^9`.

## Model

| member | source | states |
|---|---|---|
| Core.NewCredentials | lambda/core/credentials.go:58-63 | the record carries the three given fields and expires exactly 16 minutes after `now`, so it is not yet expired when written |
| Core.Stored | lambda/core/credentials.go:58-63 | storing under `token` replaces its record with the new one, keeps every other token's record, and adds at most `token` to the key set |
| Core.Lookup | lambda/core/credentials.go:73-77 | the lookup succeeds exactly when the token is present, then with its stored record, and otherwise fails with `CredentialsNotFound` |
| Core.Rotated | lambda/core/credentials.go:106-118 | a rotation fails with the token count exactly when the table does not hold one token (including the empty table); otherwise the key set is unchanged, still of size one, and every record is the new one |
| Core.SoleKey | lambda/core/credentials.go:112-115 | in a one-token table the key found is the only key |
| Core.RotatedIsStoredUnderSoleKey | lambda/core/credentials.go:112-117 | on a one-token table a rotation equals storing the new record under the table's sole token |
| Core.StoredTwice | lambda/core/credentials.go:58-63 | writing twice to one token leaves one entry, holding the second write's record |
| Core.RotatedTwice | lambda/core/credentials.go:106-118 | a table left by a successful rotation can be rotated again, with the same result as rotating the original table |
| Core.LastRangeKey | lambda/core/credentials.go:112-115 | the range loop leaves the empty string for an empty table, and otherwise a key of the table |
| Core.CredentialsService.constructor | lambda/core/credentials.go:43-52 | a new service has an empty table and is Unblocked with the gate free |
| Core.CredentialsService.SetCredentials | lambda/core/credentials.go:54-64 | the table becomes the old table with `token` mapped to the new record; state and gate are unchanged |
| Core.CredentialsService.GetCredentials | lambda/core/credentials.go:66-78 | the result is the lookup of `token` in the table; the call changes nothing and proceeds only while the gate is free, that is, while the state is Unblocked |
| Core.CredentialsService.BlockService | lambda/core/credentials.go:80-91 | afterwards the state is Blocked and the gate is held; nothing changes when already Blocked; the table never changes |
| Core.CredentialsService.UnblockService | lambda/core/credentials.go:93-104 | afterwards the state is Unblocked and the gate is free; nothing changes when already Unblocked; the gate is released only while held, never twice; the table never changes |
| Core.CredentialsService.UpdateCredentials | lambda/core/credentials.go:106-119 | with exactly one token the table becomes its rotation and the call passes; otherwise it fails with the token count and leaves the table unchanged; state and gate never change |
| Core.RotationScenario | lambda/core/credentials.go:54-119 | store, read, block, update, unblock, read: the first read returns the first record and the second read returns the rotated one |

## Left out

- Locking: both `sync.Mutex` fields, the deferred unlocks and all interleavings are left out. A sequential model makes every call atomic. The service mutex held from `BlockService` to `UnblockService` is kept only as the ghost field `gateHeld`.
- Core.CredentialsService.GetCredentials: in Go a call made while the service is blocked waits until `UnblockService` runs. A single-threaded model cannot wait, so the method requires the gate to be free.
- Races: `BlockService` and `UnblockService` read `currentState` without a lock. `UpdateCredentials` reads the map's size and ranges over it without a lock. A sequential model cannot express these races.
- Time: `time.Now()` is replaced by the parameter `now`. The monotonic-clock reading inside a Go `time.Time` is not modelled.
- Logging and error text: the logrus calls and the `fmt.Errorf` messages are left out. An error is its variant and, for the count error, the integer count.
- The `CredentialsService` interface and the JSON field tags are left out.
- Pointers: `GetCredentials` returns a pointer to a copy of the stored record. The model returns the record as a value, which callers cannot use to change the table either.
- The error for a rotation on a table without exactly one token is an unnamed formatted error in the code. The model names it `CredentialsCount` and keeps the count it carries.
