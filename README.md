# Auth session: schema migration and storage adapter

This project is a Dafny model of the logic around the persisted
authentication record of the ImportEase desktop/browser client. The record
is one JSON object: `auth/session.json` on the desktop file backend, or the
`softwareAuth` slot of the browser's local storage. The model has three
parts.

- **The v1 to v2 session migration** (`SessionMigration`). It reads the
  stored session, treating a missing file as `{}`. It takes
  `_schemaVersion ?? 1` as the current version. If that version is already
  `>= 2`, it reports `{migrated: false, version}` and does not write.
  Otherwise it renames `subscriptionExpiry` to `planExpiry`, defaults a
  falsy `lastLoginAt` to the current time, and stamps `_schemaVersion: 2`
  on a shallow copy. It writes the copy back and reports
  `{migrated: true, version: 2}`. A raising read or write, or a version
  comparison that raises, becomes `{migrated: false, error}`.
- **The migration runner** (`MigrationRunner`). It walks a fixed registry
  in order and calls each migration. It builds a summary
  `{total, successful, failed, details}`. A migration that raises is
  recorded as failed, and the entries after it still run.
- **The auth storage adapter** (`AuthStorage`). `getAuthData` returns
  null for a missing or unreadable record. On the file backend it also
  returns null for a stored object with no keys; on the browser backend a
  stored `{}` is returned as it is. `setAuthData` has two
  write rules. On the file backend it merges the new record over the
  stored one and stamps `updatedAt`. On the browser backend it replaces
  the slot wholesale. A falsy record clears: the file backend writes `{}`
  and the browser backend removes the slot. `clearAuthData` is
  `setAuthData(null)`.

`Json` models parsed JSON values (`Value`, with `Document` for objects) and
three pieces of JavaScript behaviour: truthiness, the number coercion that
`>=` applies, and object spread. `Storage` models the two backends as maps,
held by the classes `FileStore` and `LocalStore`. A backend call that
raises is described by a `Faults` value passed to each operation. The
clock is the `now` string parameter. The choice of backend (`isElectron()`
in the source) is the `Backend` parameter.

Each operation that changes state is a method on the store objects. Its
postcondition ties the new store contents to a pure function of the old
ones (`Migration`, `Run` with `Summary`, `FilesAfterSet`, `ItemsAfterSet`).
The properties are proved about those functions.

Behaviours of the code worth noting:
- A returned error counts as failed only when its message is non-empty,
  because the runner tests `else if (result.error)`, a truthiness test.
- The version guard uses JavaScript's `>=`, so `_schemaVersion` need not
  be an integer. `"3"` and `[5]` count as current; `"v2"` and `{}` do
  not. An object with its own `toString` property, or an array holding
  one, cannot be converted to a primitive: the comparison raises a
  TypeError, and the migration reports it as an error and writes nothing.
- Clearing on the file backend writes a bare `{}` with no `updatedAt`
  stamp. Only merged writes are stamped.
- Any truthy value is written rather than cleared. On the file backend a
  non-object value is spread into the stored object: strings and arrays
  give index keys, and numbers and booleans give no keys.

## Model

| member | source | states |
|---|---|---|
| Json.ToNumber | electron/app/migrations/migrateAuthSession.js:24 | The number coercion `>=` applies to the version. Its contract: the conversion raises exactly when the value's string form does, that is for an object with its own `toString` or an array holding one at any depth. By its definition, null, booleans, integers and digit-only strings give a number. So do an empty array (0) and an array of one non-boolean element that itself gives a number; `[true]` reads as `"true"` and gives NaN. Every other value gives NaN. Strings that are not all digits are simplified (see Left out). |
| Json.Spread | client/src/utils/authStorage.js:36-37 | What `...v` copies: an object gives its own fields. An array or string of length n gives exactly n properties named "0" to "n-1", property i holding element i or the i-th character. Null, booleans and numbers give none. |
| SessionMigration.SchemaVersion | electron/app/migrations/migrateAuthSession.js:21 | `data._schemaVersion ?? 1`. A stored non-null version is taken as it is, and an absent or null one reads as 1. The result is never null. |
| SessionMigration.MigrateDocument | electron/app/migrations/migrateAuthSession.js:28-43 | The result carries `_schemaVersion` 2 and is current. `subscriptionExpiry` is gone and its value is under `planExpiry`; with no `subscriptionExpiry`, `planExpiry` is left as it was. A truthy `lastLoginAt` is kept, and anything else becomes `now`. Every other key keeps its input value and its presence. |
| SessionMigration.Migration | electron/app/migrations/migrateAuthSession.js:15-56 | It migrates exactly when the read succeeds, the version comparison does not raise and finds the version behind, and the write succeeds. It writes only when it migrates, and only the session file, with the transformed record. An already current record gives `{migrated:false, version}` and no write. A raising read, comparison or write gives `{migrated:false, error}` with the raised message and no change. |
| SessionMigration.MigrateAuthSession | electron/app/migrations/migrateAuthSession.js:15-56 | The imperative read, guard, transform and write on the file store. Its result and the new store are exactly those of `Migration`. |
| SessionMigration.UntaggedSessionMigrates | electron/app/migrations/migrateAuthSession.js:17-21 | A record without `_schemaVersion`, or no record at all, is taken as version 1. A fault-free call migrates it and stores version 2. |
| SessionMigration.MigrationIdempotent | electron/app/migrations/migrateAuthSession.js:20-26 | After a call that reported no error, any later call reports `migrated:false` and leaves the store unchanged. If its read succeeds, it also reports no error. |
| SessionMigration.RenameScenario | electron/app/migrations/migrateAuthSession.js:31-43 | `{subscriptionExpiry: "2024-01-01"}` becomes `{planExpiry: "2024-01-01", lastLoginAt: now, _schemaVersion: 2}`. |
| SessionMigration.MissingSessionScenario | electron/app/migrations/migrateAuthSession.js:17-46 | With no stored session the migration writes `{lastLoginAt: now, _schemaVersion: 2}`. |
| SessionMigration.UnconvertibleVersionFails | electron/app/migrations/migrateAuthSession.js:21-26 | A `_schemaVersion` of `{"toString": 0}` makes the comparison raise, so the call reports `{migrated:false, error: "Cannot convert object to primitive value"}` and the store is untouched. |
| SessionMigration.CurrentSessionScenario | electron/app/migrations/migrateAuthSession.js:23-26 | `{_schemaVersion: 2, foo: "bar"}` is reported as `{migrated:false, version:2}` and the store is untouched. |
| MigrationRunner.Call | electron/app/migrations/index.js:35-36 | A raising migration produces `Threw(message)`; the store is unchanged because `Raises` stands for a function that raises before writing. The session migration produces its returned result and store. |
| MigrationRunner.Invoke | electron/app/migrations/index.js:35-36 | Calling a registered function on the store has exactly the effect `Call` describes. |
| MigrationRunner.CountAppend | electron/app/migrations/index.js:42-48 | One more outcome adds 1 to `successful` iff it migrated. It adds 1 to `failed` iff it raised, or returned a non-migrated result with a non-empty error. |
| MigrationRunner.CountBound | electron/app/migrations/index.js:42-46 | No outcome counts as both successful and failed, and an "already current" result counts as neither. So `successful + failed` never exceeds the number of outcomes. |
| MigrationRunner.DetailOf | electron/app/migrations/index.js:37-53 | Every detail is tagged `file = name`. A returned result is recorded as it is (`{file, ...result}`). A raise is recorded as `{migrated:false, error: message}`. |
| MigrationRunner.Run | electron/app/migrations/index.js:34-56 | All n entries are called: there are exactly n outcomes. A raising entry yields `Threw` and does not stop later entries. The session migration always returns. |
| MigrationRunner.RunPrefix | electron/app/migrations/index.js:34-56 | Running more entries never changes the outcomes of the earlier ones: the first i outcomes of a longer run are those of the run of i entries. |
| MigrationRunner.RunOutcomeAt | electron/app/migrations/index.js:34-36 | Outcome i is entry i's function called on the store that entries 0 to i-1 left, with the faults of the i-th call. |
| MigrationRunner.Summary | electron/app/migrations/index.js:32-53 | `total` is the registry length. There is one detail per entry, in registry order, each built from that entry's outcome. `successful` is the number of outcomes that migrated and `failed` the number that raised or returned a non-empty error (`CountSucceeded`/`CountFailed`, which `CountAppend` characterises). `successful + failed <= total`. |
| MigrationRunner.RunRegistry | electron/app/migrations/index.js:16-69 | The imperative loop with its counters and details list. The summary returned is `Summary` of the outcomes of `Run`, and the store is the one `Run` leaves. It always returns. |
| MigrationRunner.RunMigrations | electron/app/migrations/index.js:26-32 | The runner over the registry of one entry, `auth/session.json`. `total` is 1, and there is one detail, tagged with that name. |
| MigrationRunner.RerunMigratesNothing | electron/app/migrations/index.js:5 | Run the registry twice in a row. If the first run's session migration reported no error, the second run has `successful == 0` and leaves the store unchanged. |
| MigrationRunner.RaiseIsIsolated | electron/app/migrations/index.js:47-55 | Take a raising entry anywhere in the registry. Its detail is `{file: name, migrated:false, error: message}`, `failed` is at least 1, and every entry still gets a detail. |
| AuthStorage.ReadFileRecord | client/src/utils/authStorage.js:8-13 | A file-backend read is null exactly when the read raises, the file is missing, or it holds an object with no keys. Otherwise it is the stored object. |
| AuthStorage.ReadBrowserRecord | client/src/utils/authStorage.js:16-18 | A browser-backend read is null when the read raises or the slot is empty. Otherwise it is the stored value. |
| AuthStorage.GetAuthData | client/src/utils/authStorage.js:6-22 | Any read fault yields null, never a raise. With a working read, the file backend returns the stored object whenever it has a key, and the browser backend returns the slot's value whenever the slot is present. A non-null file-backend result is always the non-empty stored object, and a non-null browser result is always the slot's value. |
| AuthStorage.Merge | client/src/utils/authStorage.js:35-39 | Given the existing record and the properties `...auth` copies (`Spread(auth)` at each call site), the keys are those of both plus `updatedAt`. The new record's values win, existing values survive where the new record has no key, and `updatedAt` is `now`. |
| AuthStorage.FilesAfterClear | client/src/utils/authStorage.js:27-29 | Unless the write raises, the session file becomes `{}`, so the next read is null. Every other file is untouched. A raising write changes nothing. |
| AuthStorage.FilesAfterSet | client/src/utils/authStorage.js:26-42 | A falsy record clears. A raising read or write changes nothing. Otherwise the session file becomes the merge of the stored record and the new one, and the next read returns exactly that merge. Other files are untouched. |
| AuthStorage.ItemsAfterClear | client/src/utils/authStorage.js:46-47 | Unless the removal raises, the slot is gone and the next read is null. Other slots are untouched. |
| AuthStorage.ItemsAfterSet | client/src/utils/authStorage.js:45-53 | A falsy record clears. A raising write changes nothing. Otherwise the slot is replaced wholesale and the next read returns exactly the record. Other slots are untouched. |
| AuthStorage.SetAuthData | client/src/utils/authStorage.js:24-57 | The imperative write on the chosen backend. The new contents of that backend are `FilesAfterSet` or `ItemsAfterSet` of the old ones, and the other backend is unchanged. It never raises. |
| AuthStorage.ClearAuthData | client/src/utils/authStorage.js:60-62 | Clearing leaves the chosen backend as `FilesAfterClear` or `ItemsAfterClear` describes, and the other backend unchanged. |
| AuthStorage.FileWriteThenRead | client/src/utils/authStorage.js:32-41 | After a fault-free file write of an object, the next read returns an object. Every written field other than `updatedAt` reads back as written, unnamed stored fields keep their values, and `updatedAt` reads back as `now`. |
| AuthStorage.ClearIsSetNull | client/src/utils/authStorage.js:60-62 | On both backends, `setAuthData(null)` has the same effect as clearing, whatever the clock reads. |

## Left out

- Logging with `console.log` and `console.error` is left out. It is observability only.
- `async`/`await` is left out. Each call is taken to finish before the next one starts, as the runner's `await` in its loop (electron/app/migrations/index.js:34-36) guarantees. Nothing in the storage adapter prevents two `setAuthData` calls from overlapping. Overlapping calls are not modelled: both could read the file (client/src/utils/authStorage.js:33) before either writes (line 41), and the later write would then drop the earlier record's fields.
- The clock is left out. `new Date().toISOString()` is the `now` parameter, and the model does not check that it is ISO-8601. One `now` serves a whole runner pass.
- Environment detection (`isElectron()`) is left out. The backend is the `Backend` parameter.
- The file service behind `readJson`/`writeJson` and the browser's `localStorage` are not part of this model. They are maps, and each call either succeeds as a whole or raises and changes nothing. A stored file is taken to hold a JSON object.
- `JSON.stringify` and `JSON.parse` are taken as mutual inverses. A browser slot is modelled by the value it encodes. A slot holding text that does not parse is a read fault in the model, and so is an empty string: the code returns null for both.
- JSON numbers are integers in the model. Fractions and NaN are not represented.
- Json.ToNumber: string-to-number conversion is modelled for digit-only strings only. A string with whitespace, a sign, a fraction, an exponent, a radix prefix or `Infinity` reads as NaN. So a `_schemaVersion` such as `" 2"` or `"2.5"` is treated as not current, where JavaScript would treat it as current.
- The order of keys in an object is not modelled, because documents are maps.
- Spreading a string: JavaScript splits it into UTF-16 code units and the model into Unicode scalar values, so a character outside the Basic Multilingual Plane gives two keys in JavaScript and one in the model.
- The runner's outer `catch` (electron/app/migrations/index.js:65-67) is not modelled. In the model nothing outside the per-entry guard can raise, so the runner always returns the complete summary.
- Apart from the version comparison, the session migration cannot raise in the model. Spreading and assigning properties on an object do not throw, so the other faults are those of `readJson` and `writeJson`. A thrown value without a `message` (an `undefined` error) is not modelled, because messages are strings.
- The shipped registry holds only the session migration. `MigrationFn.Raises` stands for a registered function that raises before it writes anything, so the runner's `catch` branch can be stated and proved. A function that writes and then raises is not modelled; the runner's `catch` would not undo its write.
