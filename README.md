# Task manager: owner-scoped tasks and per-account sessions

A Dafny model of the request handlers of a small task-tracking backend (Express and
Mongoose). It covers the parts of the user and task routers that do more than forward a
call. It also covers the avatar upload filter.

- **Sessions.** An account keeps an ordered list of bearer tokens. Logging in appends one.
  Logging out removes every entry equal to the request's token and keeps the rest in order.
  Logging out everywhere empties the list.
- **Profile update.** `PATCH /users/me` checks every key of the body against
  `name, email, password, age`. If any key is outside that list, nothing changes. Otherwise
  exactly the supplied fields take the supplied values.
- **Avatar.** Upload replaces the avatar when the file name passes the filter. Deletion
  clears it. `GET /users/:id/avatar` is 404 unless the user exists and has an avatar.
- **Tasks.** Every task has an owner. Create sets the owner to the principal, after the
  body's own fields, so a body `owner` is overridden. Get, update and delete look a task up
  by id and owner together, so another account's task answers exactly like a missing one.
  Update checks its allow-list `description, completed` before the lookup.
- **List queries.** `completed`, `sort`, `limit` and `skip` become a `match` on `completed`,
  a one-field sort and two integers, together with the principal's matching tasks.
- **Upload filter.** The name must end in `.jpg`, `.jpeg` or `.png`, case-sensitively. The
  size limit is 1 MiB.

Files: `http.dfy` (JSON bodies as field sequences, `body[key]`, the allow-list check,
replies), `upload.dfy`, `accounts.dfy` (class `Account`, the stored user document),
`tasks.dfy` (class `TaskStore`, an in-memory stand-in for the task collection: a map from
task id to task that starts empty).

A handler's change to an account or a task takes effect only when the store accepts the
save. A refused save leaves the stored document as it was.

Collaborators that are not part of this model are passed in as inputs:

- `saved`: whether the store accepted `save()`.
- `found`: what `User.findByCredentials` or `User.findById` returned, `null` for every failure.
- `token`: the token `generateAuthToken` signs.
- `resized`: the bytes `sharp` produced.

## Model

| member | source | states |
|---|---|---|
| `Http.Keys` | src/routers/user.js:62 | `Object.keys(body)` as the allow-list check and the copy loops walk it: one key per field, in body order, so a key is listed exactly when the body carries it |
| `Http.Lookup` | src/routers/user.js:71 | `body[key]` is absent exactly when no field has that key; otherwise it is the value of the last such field |
| `Http.LookupAppend` | src/routers/task.js:7 | a field appended after a body overrides earlier fields of its name and leaves every other key's value as it was (object spread then override) |
| `Http.AllAllowed` | src/routers/task.js:67 | `updates.every(u => allowed.includes(u))` holds exactly when every update is in the allow-list |
| `Http.AllowedBodyFields` | src/routers/user.js:64 | once the check passes, every key the body carries is allowed |
| `Accounts.Without` | src/routers/user.js:37 | the filtered token list holds exactly the old tokens other than the current one, and is no longer |
| `Accounts.WithoutConcat` | src/routers/user.js:37 | the filter distributes over concatenation, so the surviving tokens keep their relative order |
| `Accounts.WithoutCounts` | src/routers/user.js:37 | every occurrence of the current token is removed and every other token keeps its count |
| `Accounts.WithoutAbsent` | src/routers/user.js:37 | logout with a token not in the list leaves the list unchanged |
| `Accounts.WithoutIdempotent` | src/routers/user.js:37 | logging out twice with one token is the same as once |
| `Accounts.Account.constructor` | src/routers/user.js:11 | a new account takes name, email, password and age from the body and has no session and no avatar |
| `Accounts.Account.GenerateAuthToken` | src/routers/user.js:27 | issuing a token appends it to the session list |
| `Accounts.Account.HasSession` | src/routers/user.js:35 | the gate every route behind `authMiddleware` relies on: a request bearing a token is let through exactly while the stored session list holds it |
| `Accounts.Account.Logout` | src/routers/user.js:35-44 | when the save succeeds the new list is the filtered old list, the current token no longer has a session, reply 204. When it fails the stored list is as it was, so the token still authenticates, reply 500. Every other token keeps its status either way |
| `Accounts.Account.LogoutAll` | src/routers/user.js:46-55 | when the save succeeds the list is empty whatever it held and no token has a session, reply 204. When it fails the stored list is unchanged, reply 500 |
| `Accounts.Account.UpdateProfile` | src/routers/user.js:61-78 | a body with a key outside the four allowed ones yields 400 `Invalid update` and nothing changes. Otherwise, when the save succeeds, each of the four fields takes the body's value if supplied and keeps its value if not, reply 200 with the user. When the save fails the stored profile is unchanged, reply 400. Tokens and avatar are outside the frame |
| `Accounts.Account.UploadAvatar` | src/routers/user.js:92-101 | a name the filter rejects yields 400 with the filter's message and the avatar is unchanged. Otherwise the resized bytes become the avatar, reply 200 |
| `Accounts.Account.DeleteAvatar` | src/routers/user.js:103-108 | afterwards the avatar is absent and the avatar lookup answers 404 |
| `Accounts.AvatarReply` | src/routers/user.js:110-123 | 404 exactly when there is no user or no avatar. Otherwise 200, `image/png`, the stored bytes |
| `Accounts.Register` | src/routers/user.js:10-22 | the fresh account gets the body's profile fields. A failed first save yields 400 with no session. A failed token save yields 400 and an account stored without a session. 201 with user and token, the one session, only when both saves succeed |
| `Accounts.Login` | src/routers/user.js:24-33 | any credential failure yields 400 with an empty body. Otherwise, when the token is saved, it is appended and the reply is 200 with user and token. When the token save fails nothing is stored and the reply is 400 empty. The profile and avatar never change |
| `Accounts.ForeignFieldRefused` | src/routers/user.js:62-68 | a body that carries any key outside the allow-list fails the check |
| `Accounts.SessionScenario` | src/routers/user.js:24-55 | two logins, a logout of the first device, a repeated logout, a failed logout of the second device that keeps its session, then logout-all. The second device is logged in until the last step, and the list ends empty |
| `Upload.FileFilter` | src/middlewares/multer.js:5-11 | the callback gets `(undefined, true)` exactly when some position of the name starts a match of `\.(jpg\|jpeg\|png)` that reaches the end. Otherwise it gets the error `Please upload a image` |
| `Upload.FileSizeLimitIsOneMebibyte` | src/middlewares/multer.js:4 | the size limit is 1024 * 1024 = 1048576 bytes |
| `Upload.RejectsTrailingExtension` | src/middlewares/multer.js:6 | the match is anchored at the end: any name followed by `.exe` is rejected |
| `Upload.RejectsUpperCaseExtension` | src/middlewares/multer.js:6 | the match is case-sensitive: `.PNG`, `.JPG`, `.JPEG` are rejected |
| `Upload.AcceptsImageExtensions` | src/middlewares/multer.js:6-10 | any stem followed by `.jpg`, `.jpeg` or `.png` is accepted |
| `Upload.ExampleNames` | src/middlewares/multer.js:6-10 | `photo.png.exe` and `photo.PNG` are rejected, `photo.png` is accepted |
| `Tasks.CreatedTask` | src/routers/task.js:7 | a created task's owner is the principal even when the body names an owner. Description and completed are the body's, completed defaulting to false |
| `Tasks.CreatedTaskIncomplete` | src/routers/task.js:7 | a body without `completed` creates a task with `completed == false` |
| `Tasks.Document` | src/routers/task.js:7 | `{ ...req.body, owner }` carries the body's keys followed by `owner` |
| `Tasks.NewTask` | src/routers/task.js:7 | each field of the new task is the document's value when it has one. A document without `completed` gives `completed == false` |
| `Tasks.FindOwned` | src/routers/task.js:51 | a task is found exactly when the id exists and the principal owns it |
| `Tasks.ForeignLooksMissing` | src/routers/task.js:51-55 | a task owned by someone else is found exactly as a nonexistent one is: not at all |
| `Tasks.Listing` | src/routers/task.js:31-41 | the listing holds exactly the principal's tasks that pass the `completed` filter, unchanged |
| `Tasks.ListingAfterInsert` | src/routers/task.js:6-11 | a new task enters its owner's listing when it passes the filter, and no one else's |
| `Tasks.ListingIsolated` | src/routers/task.js:74-81 | updating (owner kept) or removing a task leaves the listing of every non-owner unchanged |
| `Tasks.Patched` | src/routers/task.js:80 | a supplied `description` or `completed` takes the body's value, an unsupplied one keeps the task's, and the owner never changes |
| `Tasks.PatchedKeepsOwner` | src/routers/task.js:80 | a task update never changes the owner, and an empty body changes nothing |
| `Tasks.CompletedFilter` | src/routers/task.js:21-23 | a missing or empty value means no filter. Any other value filters on `completed == (value == "true")` |
| `Tasks.CompletedFilterSelects` | src/routers/task.js:21-41 | with `completed=v` non-empty the listing is exactly the principal's tasks whose completed is `v == "true"`. Without it, all of them |
| `Tasks.Split` | src/routers/task.js:26 | splitting gives at least one part and no part contains the separator |
| `Tasks.JoinSplit` | src/routers/task.js:26 | joining the parts with the separator gives back the string |
| `Tasks.SplitJoin` | src/routers/task.js:26 | splitting a join of separator-free parts gives back the parts |
| `Tasks.SortFrom` | src/routers/task.js:25-28 | no or empty sort value means no sort. Otherwise the field is the text before the first colon and the order is 1 or -1 |
| `Tasks.SortFieldDirection` | src/routers/task.js:26-27 | `field:dir` sorts on `field`, with order -1 exactly when `dir` is `desc` |
| `Tasks.SortFieldOnly` | src/routers/task.js:26-27 | a sort value without a colon sorts ascending on the whole value |
| `Tasks.ParseInt` | src/routers/task.js:35-36 | an absent value gives no number (`NaN`) |
| `Tasks.ParseIntNumeral` | src/routers/task.js:35-36 | a decimal numeral followed by a non-digit parses to its number. A lone `0` followed by `x` is excluded, since that is a hexadecimal prefix |
| `Tasks.ParseIntNegativeNumeral` | src/routers/task.js:35-36 | after `-` the same numeral parses to its negation |
| `Tasks.UnsignedNumeral` | src/routers/task.js:35-36 | a decimal numeral is not read as a hexadecimal prefix and its digits stop where it ends |
| `Tasks.ParseIntUnsigned` | src/routers/task.js:35-36 | with no white space or sign in front, the result is the unsigned reading of the digits |
| `Tasks.ParseIntSigned` | src/routers/task.js:35-36 | after `-` or `+` the result is the unsigned reading, negated for `-` |
| `Tasks.TrimStart` | src/routers/task.js:35-36 | the skipped prefix leaves a suffix that is empty or starts with a non-space character |
| `Tasks.TrimStartSkipsSpace` | src/routers/task.js:35-36 | every skipped character is white space or a line terminator |
| `Tasks.ParseIntLeadingSpace` | src/routers/task.js:35-36 | white space before the number is skipped: `" 7"` parses like `"7"` |
| `Tasks.ParseIntHex` | src/routers/task.js:35-36 | with no radix, `0x1A` and `0X1a` give 26 and `-0x10` gives -16 |
| `Tasks.HexValue` | src/routers/task.js:35-36 | a `0x`-prefixed two-digit numeral parses to its hexadecimal value |
| `Tasks.ParseIntHexWithoutDigits` | src/routers/task.js:35-36 | a `0x` or `0X` prefix followed by no hexadecimal digit (as in `0x` or `0xg`) gives `NaN` |
| `Tasks.ParseIntNoDigits` | src/routers/task.js:35-36 | a value that starts with none of white space, a digit or a sign gives no number |
| `Tasks.OptionsOfQuery` | src/routers/task.js:18-38 | `?completed=c&sort=field:dir&limit=n&skip=m` becomes the filter for `c`, a sort on `field` that is descending exactly for `desc`, and limit `n` and skip `m`. An empty query string yields no filter, no sort and `NaN` for both numbers |
| `Tasks.TaskStore.Create` | src/routers/task.js:6-15 | on success the new task is stored under a fresh id, owned by the principal, reply 201 with it. On failure the collection is unchanged, reply 400 |
| `Tasks.TaskStore.List` | src/routers/task.js:17-45 | parses the query as the handler does (the options equal `Options(query)`). Replies 200 with the principal's tasks passing the filter |
| `Tasks.TaskStore.GetOne` | src/routers/task.js:47-61 | 200 with the task exactly when the id exists and the principal owns it, 404 otherwise |
| `Tasks.TaskStore.Update` | src/routers/task.js:63-87 | a key outside `description, completed` yields 400 `Invalid update` before any lookup, nothing changed. A missing or foreign id yields 404, nothing changed. Otherwise exactly that task changes, in the supplied fields only: reply 200, or 400 with nothing stored when the save fails. Every stored id stays below the next fresh id |
| `Tasks.TaskStore.Delete` | src/routers/task.js:89-103 | removes the task and replies 200 with it exactly when the principal owns it. Otherwise 404 and the collection is unchanged. Every stored id stays below the next fresh id |
| `Tasks.FixtureListing` | tests/fixtures/db.js:28-47 | in the fixtures user one lists exactly their two tasks, one with `completed=true`. User two cannot find user one's task |
| `Tasks.StrangerDeleteScenario` | tests/task.test.js:8-41 | a task user one creates with only a description is incomplete. User two's delete of it answers 404, and user one still fetches it with 200 |

## Left out

- Tasks.TaskStore.List: the reply does not apply the sort, limit and skip to the listing. Running them inside `populate` is library behaviour, so only their parsing is modelled. Listings are maps from id to task, with no order.
- Tasks.ParseInt: the result is an unbounded integer. It leaves out the floating-point rounding of numerals beyond 2^53, and `-0` (from `-0`) is the integer 0.
- Http.Keys: lists one key per field, so a body with a repeated key lists it twice, and keys are kept in body order. `Object.keys` of the parsed object lists each key once and puts integer-like keys first. Neither difference changes a result: the allow-list check and the copy loops give the same answer for a repeated or reordered key, because every copy of a key reads the same last value.
- Persistence: `save`, `remove`, `findOne`, `findOneAndDelete`, `findById`, `populate` and ObjectId generation. An in-memory map and a counter stand in for the collection. Whether a save succeeds is an input.
- Driver errors: the 400 of a malformed task id, the 500 of a failed listing or deletion, and the 500 of a failed account removal.
- The User and Task models are not part of this model. Schema validation and casting, password hashing, `findByCredentials`, JWT signing and the `tasks` virtual are abstract. A body's values are stored as supplied. The model assumes `new User(body)` takes only the four profile fields from a body.
- The auth middleware is not part of this model. It is reduced to `HasSession`: a token is accepted only while it is in the account's list.
- `GET /users/me` only echoes the authenticated user. `DELETE /users/me` only calls `remove()`, and the cascade of the owner's tasks lives in the User model.
- Image processing: the resize to a 250×250 PNG is an input (`resized`).
- Multer: only the file-size constant is modelled, not the enforcement of the limit, and not a request without a file.
- Emails: the welcome and cancellation emails are fire-and-forget I/O.
- Query values that arrive as arrays (a parameter given twice) are not modelled.
- The unhandled rejection of a failed avatar save is not modelled.
- Concurrency: interleaved requests on one account or task are not modelled.
- Limit and skip may be negative, as `parseInt` gives them. Any sort direction other than `desc` means ascending. A bad login answers 400.
