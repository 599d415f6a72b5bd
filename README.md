# Active Learn Hub storage service — local mode

`StorageService` is the single data-access object of the Active Learn Hub
front end. When the hosted backend is switched off it keeps everything in the
browser's `localStorage` under keys prefixed `ALH_`:

| key | contents |
|---|---|
| `ALH_users` | the registered accounts: name, normalised e-mail, password, role |
| `ALH_user` | the signed-in user's public record (no password) |
| `ALH_projects_<email>` | the signed-in user's projects |
| `ALH_data` | an object whose `badges` field lists the earned badges |
| `ALH_theme`, `ALH_fontSize`, `ALH_notifications`, `ALH_language` | raw-text settings |
| `ALH_migration_completed`, `ALH_migration_date` | markers set by `clearLocalStorage` |

This project models that local mode in Dafny. It covers:

- sign-up, sign-in, sign-out and the current user;
- saving, listing and deleting projects;
- saving and listing badges;
- saving and reading settings, and the default settings;
- `clearLocalStorage`.

It also models the pure pieces of the backend mode that are visible in the
file without any network call:

- the XP/level formula;
- the renaming between application fields and table columns for projects and badges;
- the settings row the migration builds from the local keys.

Layout:

- `wrappers.dfy`: `Option` and `Result`.
- `jsarray.dfy`: `find`, `findIndex`, `some` and `filter` as functions, with their laws.
- `email.dfy`: the address normalisation `email.toLowerCase().trim()`, ASCII letters and ASCII white space.
- `records.dfy`: the stored records, the error cases and JavaScript's `||` on strings.
- `layout.dfy`: the keys, the decoded value each key holds (`Value`), the invariant `WellShaped` that every key holds the shape the service writes, and the decoders that substitute the source's defaults for missing keys (`'[]'`, `'{}'`, `'{"badges":[]}'`, `null`).
- `accounts.dfy`, `projects.dfy`, `badges.dfy`, `settings.dfy`, `sweep.dfy`: each operation as a function on the decoded values, with its properties.
- `progress.dfy`: the XP total and level.
- `rows.dfy`: the row↔application field mappings.
- `service.dfy`: the store as a class `KeyValueStore` holding a `map`. The service is a class `StorageService` whose methods read and update that store. Each method is proved against the functions above, keeps `Valid()`, and states the whole new store.
- `scenarios.dfy`: short client runs on a fresh store, proved from the methods' contracts alone.

JavaScript semantics are written out where they matter:

- `project.id` is truthy only when present and non-empty.
- `x || 'dark'` falls back on a missing or empty string.
- `settings.notifications || 'true'` stores "true" for either boolean, and "[object Object]" for a preferences object.
- With no signed-in user, `user.email` is `undefined`, so projects go to the key `ALH_projects_undefined`.
- `Math.floor(x / 100)` is Dafny's `/`, which floors for every integer.

## Model

| member | source | states |
|---|---|---|
| JsArray.FindIndex | src/services/StorageService.js:187 | `findIndex` returns -1 exactly when no element matches; otherwise it returns the first matching index |
| JsArray.Find | src/services/StorageService.js:46 | `find` returns nothing exactly when no element matches; otherwise it returns the element at the first matching index |
| JsArray.FindAppended | src/services/StorageService.js:46 | when nothing in a list matches, `find` on the list with a matching element appended returns that element |
| JsArray.Any | src/services/StorageService.js:97 | `some` is true exactly when `findIndex` finds an index, and exactly when `find` finds an element |
| JsArray.Filter | src/services/StorageService.js:248 | `filter` keeps only elements that pass, drawn from the input, and never lengthens it |
| JsArray.FilterAppend | src/services/StorageService.js:248 | filtering distributes over concatenation |
| JsArray.FilterCounts | src/services/StorageService.js:248 | filtering keeps every occurrence of a passing element and no occurrence of a failing one (multiset count) |
| JsArray.FilterAllPass | src/services/StorageService.js:248 | filtering a list whose elements all pass returns it unchanged |
| JsArray.FilterNonePass | src/services/StorageService.js:248 | filtering a list whose elements all fail returns the empty list |
| Email.ToLowerPointwise | src/services/StorageService.js:95 | `toLowerCase` keeps the length, lowers each character, and leaves no upper-case letter |
| Email.TrimStartSpec | src/services/StorageService.js:95 | trimming the start drops a prefix of white space, and the result does not start with white space |
| Email.TrimEndSpec | src/services/StorageService.js:95 | trimming the end drops a suffix of white space, and the result does not end with white space |
| Email.TrimSpec | src/services/StorageService.js:95 | `trim` never lengthens, leaves no white space at either end, and keeps a lower-case text lower-case |
| Email.TrimStartSpaces | src/services/StorageService.js:95 | leading white space does not change the start-trimmed text |
| Email.TrimEndSpaces | src/services/StorageService.js:95 | trailing white space does not change the end-trimmed text |
| Email.TrimStartThenEnd | src/services/StorageService.js:95 | trailing white space does not change trimming at both ends |
| Email.TrimPadded | src/services/StorageService.js:95 | white-space padding on either side does not change `trim` |
| Email.ToLowerAppend | src/services/StorageService.js:95 | `toLowerCase` distributes over concatenation |
| Email.ToLowerUnchanged | src/services/StorageService.js:95 | `toLowerCase` leaves white space and lower-case text unchanged |
| Email.ToLowerCaseVariant | src/services/StorageService.js:95 | two spellings that differ only in letter case lower to the same text |
| Email.Normalize | src/services/StorageService.js:95 | a normalised address has no upper-case letter and no white space at either end |
| Email.NormalizeVariant | src/services/StorageService.js:46 | any case variant of an address, padded with white space, normalises to the same address, so signin finds what signup stored |
| Email.NormalizeIdempotent | src/services/StorageService.js:95 | normalising an already normalised address changes nothing |
| Records.PublicOf | src/services/StorageService.js:51-55 | the public record keeps name, address and role, and has no password field |
| Records.Truthy | src/services/StorageService.js:170 | an optional string is falsy exactly when it is missing or empty |
| Records.Or | src/services/StorageService.js:441-444 | the fallback operator gives the value when it is truthy and the fallback otherwise, so never empty when the fallback is not |
| Layout.TextKeyShaped | src/services/StorageService.js:441-444 | the four settings keys and the two migration markers hold raw text |
| Layout.UsersShaped | src/services/StorageService.js:103 | a user list is the shape `ALH_users` holds |
| Layout.CurrentUserShaped | src/services/StorageService.js:56 | a public record is the shape `ALH_user` holds |
| Layout.AppDataShaped | src/services/StorageService.js:357 | the application-data object is the shape `ALH_data` holds |
| Layout.ProjectsShaped | src/services/StorageService.js:194 | a project list is the shape the current user's projects key holds, which is no text key |
| Layout.UpdateShaped | src/services/StorageService.js:103 | writing a value of the right shape keeps the store well shaped |
| Layout.ProjectsKey | src/services/StorageService.js:183-184 | the projects key is `ALH_projects_` followed by the current user's address, or by `undefined` when nobody is signed in |
| Layout.StoredUsers | src/services/StorageService.js:45 | reading `ALH_users` gives the stored list, or [] when the key is missing |
| Layout.StoredCurrentUser | src/services/StorageService.js:132 | reading `ALH_user` gives a record exactly when one is stored, and then that record |
| Layout.StoredProjects | src/services/StorageService.js:184 | reading a projects key gives the stored list, or [] when the key is missing |
| Layout.StoredAppData | src/services/StorageService.js:352 | reading `ALH_data` gives the stored object, or `{badges: []}` when the key is missing |
| Layout.StoredText | src/services/StorageService.js:470 | reading a raw-text key gives a text exactly when one is stored, and then that text |
| Accounts.Login | src/services/StorageService.js:45-57 | signin fails as "user not found" exactly when no user has the normalised address; otherwise the first user with that address decides: signin succeeds exactly when that user's password matches, and then returns that user's public record; else it fails as "wrong password" |
| Accounts.NewUser | src/services/StorageService.js:101 | the stored record keeps the name and password, holds the normalised address (no upper case, no surrounding white space) and the role given, "Aluno" by default |
| Accounts.Register | src/services/StorageService.js:94-103 | signup fails with "email taken" exactly when some user has the normalised address; otherwise the list gains exactly the new record at its end |
| Accounts.RegisterKeepsEmailsDistinct | src/services/StorageService.js:97-102 | signup keeps the stored addresses pairwise distinct |
| Accounts.RegisterKeepsEmailsNormalized | src/services/StorageService.js:95-101 | signup stores only normalised addresses |
| Accounts.RegisterPreservesWellFormed | src/services/StorageService.js:94-103 | signup keeps the user list well formed: distinct and normalised addresses |
| Accounts.SignupThenLogin | src/services/StorageService.js:45-57 | after signup, signin with the same password and any case or padding of the address returns the name, the normalised address and the role, which defaults to "Aluno" |
| Accounts.SignupThenWrongPassword | src/services/StorageService.js:49 | after signup, signin with another password fails as "wrong password" |
| Accounts.SignupTwiceRefused | src/services/StorageService.js:97-99 | a second signup under any case or padding of a registered address is refused |
| Accounts.LoginIffCredentials | src/services/StorageService.js:45-57 | with distinct addresses, signin succeeds exactly when some user has the normalised address and the given password |
| Projects.DecimalString | src/services/StorageService.js:190 | the decimal rendering of the clock is a non-empty string of digits without a leading zero, one digit long exactly below ten, and reading it back gives the number |
| Projects.DecimalStringInjective | src/services/StorageService.js:190 | different clock readings render differently |
| Projects.NewProjectId | src/services/StorageService.js:190 | a new id is `proj_` followed by decimal digits without a leading zero that read back as the clock value |
| Projects.NewProjectIdsDistinct | src/services/StorageService.js:190 | ids `proj_<now>` issued at different times differ |
| Projects.SaveToList | src/services/StorageService.js:186-195 | a project without an id gets `proj_<now>` and is appended; a project with an id replaces the first stored project with that id, and every other entry is kept in place |
| Projects.SaveUnknownIdUnchanged | src/services/StorageService.js:186-188 | saving a project whose id no stored project has leaves the list unchanged |
| Projects.RemoveById | src/services/StorageService.js:248 | after deleting, no project carries the id |
| Projects.RemoveByIdKeepsOthers | src/services/StorageService.js:248 | deleting keeps every occurrence of every project with another id and drops all of those with the id |
| Projects.RemoveByIdAppend | src/services/StorageService.js:248 | deleting distributes over concatenation, so relative order is kept |
| Projects.RemoveByIdIdempotent | src/services/StorageService.js:246-249 | deleting twice is deleting once |
| Projects.RemoveAbsentId | src/services/StorageService.js:246-249 | deleting an id no project carries changes nothing |
| Badges.AddBadge | src/services/StorageService.js:352-360 | a badge whose id is already stored leaves the list as it was and comes back unstamped; otherwise it is stamped with the earning time and appended |
| Badges.AddBadgeIdempotent | src/services/StorageService.js:354 | saving the same badge a second time, at any time, changes nothing |
| Badges.AddBadgeKeepsIdsUnique | src/services/StorageService.js:354-356 | saving a badge keeps badge ids unique |
| Badges.AddBadgeTwiceSingleEntry | src/services/StorageService.js:354-356 | a new badge saved once or twice occurs exactly once |
| Progress.Level | src/services/StorageService.js:407 | the level is the one whose band of 100 XP contains the total: `100*(level-1) <= xp < 100*level` |
| Progress.AwardXp | src/services/StorageService.js:406-407 | the new total is the stored total (0 when missing) plus the award, and the new level is the band that total falls in |
| Progress.AwardXpExample | src/services/StorageService.js:406-407 | 95 XP plus 10 gives 105 XP at level 2 |
| Progress.LevelMonotone | src/services/StorageService.js:407 | more XP never gives a lower level |
| Progress.AwardXpAdditive | src/services/StorageService.js:406 | two awards in a row equal one award of their sum |
| Progress.AwardNeverLowersLevel | src/services/StorageService.js:406-407 | a non-negative award never lowers the level |
| Rows.ProjectInsertOf | src/services/StorageService.js:166-174 | the insert carries owner, name and description as given, a status that is never empty ("active" by default), `phase_data` or else `phases`, tags defaulting to [] and progress to 0 |
| Rows.ProjectFromRow | src/services/StorageService.js:216-226 | a row reads back with the backend's id and timestamps, `phase_data` as `phases`, `progress_percentage` as `progress`, and the other columns under their own names |
| Rows.BadgeInsertOf | src/services/StorageService.js:329-338 | the insert carries `id` as `badge_id`, `desc` as `description`, title, icon and XP, a category that is never empty ("special" by default), and metadata defaulting to `{}` |
| Rows.BadgeFromRow | src/services/StorageService.js:380-387 | a row reads back with `badge_id` as `id`, `description` as `desc`, title, icon, XP and the earning time, and no category or metadata |
| Rows.ProjectInsertThenRead | src/services/StorageService.js:166-174 | a project inserted and read back via lines 216-226 keeps its name and description, takes the backend's id and timestamps, and has status "active", tags [] and progress 0 filled in when missing |
| Rows.ProjectReadThenInsert | src/services/StorageService.js:216-226 | a row with a status, read and inserted again via lines 166-174, gives the same columns |
| Rows.BadgeInsertThenRead | src/services/StorageService.js:329-338 | a badge inserted and read back via lines 380-387 keeps id, title, description, icon and XP, takes the earning time, and loses category and metadata |
| Settings.DefaultSettings | src/services/StorageService.js:478-495 | the defaults: dark theme, pt-BR, every notification on except push, profile and achievements public, projects visible to the team |
| Settings.NotificationsText | src/services/StorageService.js:443 | the stored notifications text is never empty, and it is "true" exactly for a missing value, a boolean, "" or "true"; any other string is stored as itself, and an object as "[object Object]" |
| Settings.WriteSettings | src/services/StorageService.js:441-444 | saving binds the four settings keys to non-empty texts and keeps every other key with its value |
| Settings.ReadSettings | src/services/StorageService.js:469-474 | theme, font size and language each read as the stored text when it is non-empty and otherwise as the default ("dark", "medium", "pt-BR", theme and language as in `getDefaultSettings`); notifications read on exactly when the stored text is "true" |
| Settings.WriteSettingsFrame | src/services/StorageService.js:441-444 | saving settings keeps the store well shaped and touches no key but the four settings keys |
| Settings.SaveThenReadSettings | src/services/StorageService.js:441-444 | reading after saving gives each saved value or its default ("dark", "medium", "pt-BR"), and notifications on exactly when nothing, a boolean, "" or "true" was passed |
| Settings.FalseFlagSavedAsTrue | src/services/StorageService.js:443 | saving notifications as the boolean `false` reads back as on, because the falsy flag falls back to the stored text "true" |
| Settings.PrefsObjectSavedAsOff | src/services/StorageService.js:443 | notifications passed as a preferences object, the shape `getDefaultSettings` gives them, are stored as "[object Object]" and read back as off |
| Settings.MigratedSettings | src/services/StorageService.js:637-661 | no settings row exactly when all four texts are missing or empty; otherwise each value or its default, e-mail notification on exactly when the text is "true", and the other flags as in the defaults |
| Settings.MigratedSettingsOf | src/services/StorageService.js:637-661 | the migration builds no row exactly when every settings key is missing or empty; otherwise the row's theme, language, font size and e-mail flag equal what the local read returns |
| Settings.SavedSettingsMigrate | src/services/StorageService.js:637-661 | after a local save, the migration always builds a row, and it carries what the local read returns |
| Sweep.Swept | src/services/StorageService.js:679-683 | after the loop, the store holds exactly the keys it spares, the unprefixed ones and the two markers, each with its value |
| Sweep.Cleared | src/services/StorageService.js:674-687 | after clearing, the only prefixed keys left are the two markers, which read "true" and the time; every unprefixed key keeps its value |
| Sweep.ClearedWellShaped | src/services/StorageService.js:674-687 | clearing keeps the store well shaped |
| Sweep.ClearedDrops | src/services/StorageService.js:680-681 | every prefixed key other than the markers is gone after clearing |
| Sweep.ClearedEmptiesAccount | src/services/StorageService.js:680-681 | after clearing there are no users, no current user, no projects and no badges |
| Sweep.ClearedSettingsDefaults | src/services/StorageService.js:680-681 | after clearing, the local settings read as the defaults, with notifications off |
| Service.KeyValueStore.GetItem | src/services/StorageService.js:45 | `getItem` returns the stored value, or nothing for a missing key |
| Service.KeyValueStore.SetItem | src/services/StorageService.js:56 | `setItem` binds the key and changes nothing else |
| Service.KeyValueStore.RemoveItem | src/services/StorageService.js:115 | `removeItem` drops the key and changes nothing else |
| Service.KeyValueStore.Keys | src/services/StorageService.js:677 | the keys are exactly the stored keys |
| Service.StorageService.constructor | src/services/StorageService.js:2-5 | the service is bound to the given store and starts valid when that store holds well-shaped values |
| Service.StorageService.ReadUsers | src/services/StorageService.js:45 | reads the user list, or [] when none is stored |
| Service.StorageService.GetCurrentUser | src/services/StorageService.js:132 | returns the signed-in user's public record, or nothing |
| Service.StorageService.Login | src/services/StorageService.js:45-57 | returns the result of signin on the stored users; on success it records the user as current, and on failure it writes nothing |
| Service.StorageService.Signup | src/services/StorageService.js:94-107 | on success it stores the extended user list and the new current user; on conflict it writes nothing |
| Service.StorageService.Logout | src/services/StorageService.js:115 | removes exactly the current-user key |
| Service.StorageService.CurrentProjectsKey | src/services/StorageService.js:183-184 | the projects key of the signed-in user |
| Service.StorageService.GetProjects | src/services/StorageService.js:228-229 | the signed-in user's stored projects, or [] |
| Service.StorageService.SaveProject | src/services/StorageService.js:183-195 | writes the current user's list updated as `SaveToList` says, returns the saved project, and changes no other key |
| Service.StorageService.DeleteProject | src/services/StorageService.js:246-249 | writes the current user's list without the projects carrying the id, and changes no other key |
| Service.StorageService.ReadAppData | src/services/StorageService.js:352 | reads `ALH_data`, or `{badges: []}` when none is stored |
| Service.StorageService.SaveBadge | src/services/StorageService.js:352-360 | fails when `ALH_data` holds no badge list; otherwise returns the badge as `AddBadge` gives it and writes only when the id was new |
| Service.StorageService.GetBadges | src/services/StorageService.js:389-390 | the stored badges, or [] |
| Service.StorageService.SaveSettings | src/services/StorageService.js:441-444 | the store becomes exactly `WriteSettings` of the old store |
| Service.StorageService.ReadText | src/services/StorageService.js:470 | reads a raw-text key, or nothing |
| Service.StorageService.GetSettings | src/services/StorageService.js:469-474 | returns `ReadSettings` of the store |
| Service.StorageService.ClearLocalStorage | src/services/StorageService.js:674-687 | its loop over the stored keys leaves exactly the store `Cleared` describes |
| Scenarios.SaveThenList | src/services/StorageService.js:186-195 | on a fresh store, a project saved without an id is the only project listed, with id `proj_<now>` |
| Scenarios.SignupLogoutLogin | src/services/StorageService.js:94-115 | on a fresh store, signup, logout and signin with a case variant of the address return the public record, which becomes current; a second signup is refused |
| Scenarios.BadgeTwice | src/services/StorageService.js:352-360 | on a fresh store, a badge saved twice is listed once, with the first earning time |

## Left out

- The hosted-backend branches of every method (sessions, `profiles`, `projects`, `badges`, `user_settings`, `activity_logs`), `init` and its auth listener, `logActivity`, and the migration's two network loops. They are network I/O. Only their pure parts are modelled: the insert and read mappings, the XP formula and the settings row.
- The remote `saveBadge` (lines 342-347) goes on to award XP even after a duplicate-key error. That needs the backend and is not modelled.
- `saveActivity`, `getActivities`, `saveResource` and `getResources`. Their local branches do nothing: they return `[]` or the argument unchanged.
- `src/hooks/useMigration.js`, `src/auth/AuthProvider.jsx` and `src/lib/supabase.js` are not part of this model.
- JSON text is abstracted away. Each key holds its decoded value, and a key holding text of the wrong shape is excluded by `Valid()`.
- Clocks are parameters: `Date.now()` is a `nat` and ISO timestamps are strings.
- Email.Normalize: covers ASCII letters and ASCII white space only. Unicode case mapping and the rest of JavaScript's white-space set are not modelled.
- Progress.AwardXp: integers stand for JavaScript numbers. Floating-point rounding of very large or fractional totals is not modelled.
- Projects.SaveToList: returns a new list and a new record. That it assigns `project.id` on the caller's object is not modelled.
- Badges.AddBadge: likewise, setting `earnedAt` on the caller's object is modelled as returning the stamped copy.
- Service.KeyValueStore.Keys: returns a set. The iteration order of `Object.keys(localStorage)` is not modelled, and the result of clearing does not depend on it.
- Rows.ProjectInsertOf: `phase_data` and `phases` are JSON objects or missing. The `||` at line 171 skips falsy values, but a falsy primitive (`0`, `false`, `""`) in either field is not modelled.
- Rows.BadgeInsertOf: likewise, a badge's `metadata` is an object or missing. A falsy primitive there, which `metadata || {}` would replace, is not modelled.
- Settings.NotificationsText: a caller's notifications value is a boolean, a string or a preferences object. `null` behaves as a missing value; other JavaScript values (numbers, arrays) are not modelled.
