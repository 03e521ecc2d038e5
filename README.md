# Task manager backend — a verified model

This project models the request-handling core of a task-management REST API
built on Express and Mongoose. It covers the following parts:

- The task and user schemas: casting, trimming, lower-casing, validators,
  defaults, the password-hashing save hook and the JSON transforms.
- The `protect` authentication middleware and the `authorize` role
  middleware.
- The global error handler.
- The account handlers: register, login, me and the user list.
- The task handlers: list with filter, sort and pagination; read; create;
  update; delete; statistics.
- The task router. It has six registrations, in order. The create and
  update routes each run a validator chain per field, followed by the
  `validate` middleware.

Each source file is one module:

| module | source |
|---|---|
| `TaskModel` | `Task.js` |
| `UserModel` | `User.js` |
| `AuthGate` | `auth.js` |
| `Rbac` | `rbac.js` |
| `ErrorHandler` | `errorHandler.js` |
| `TaskController` | `taskController.js` |
| `AuthController` | `authController.js` |
| `TaskRoutes` | `taskRoutes.js`, with `validate.js` |

Three modules are shared by the others:

- `Base` holds the common datatypes.
- `Text` holds JavaScript's whitespace class, `trim`, the e-mail pattern,
  UTF-8 encoding and the two ways the program counts the length of a
  string. Mongoose's `minlength` and `maxlength` count UTF-16 code units
  (`Utf16Length`). The validator library's `isLength` counts code points
  and leaves out the presentation selectors U+FE0E and U+FE0F
  (`ValidatorLength`).
- `Ordering` holds a comparator sort standing for the database's `sort`.

The two collections are classes, `TaskController.TaskStore` and
`AuthController.UserStore`:

- Each maps identifiers to records and hands out identifiers from a
  `nextId` counter.
- Each keeps an invariant `Valid()` that every handler preserves.
- Every stored task satisfies the task schema.
- Every stored user satisfies the user schema and has a hashed password.
- No two users share an e-mail address; this is the unique index.

Foreign code is passed in as function parameters:

- `jsonwebtoken.verify` is `verify`, and token signing is `issue`.
- The ObjectId cast of `:id` is `castId`.
- The Date cast is `parseDate`. It gives an instant in milliseconds, which
  may be negative.
- The validator library's ISO 8601 recogniser is `isIso`.

bcrypt is the symbolic digest `Bcrypt(salt, key)`, with a salt passed in.
Here `key` is what bcryptjs reads of a password under the `$2a$` salt that
`genSalt` gives: its UTF-8 encoding followed by one zero byte, read over and
over from the start until 72 bytes are taken.
The clock is a parameter `now`.

The main results:

- `TaskRoutes.Serve`: for every authenticated, routed and screened
  request, the response and the new store are what that endpoint's
  handler promises (`TaskRoutes.Handled`). A handler failure is answered
  with the error handler's page for that error.
- `TaskRoutes.ScreenedCreateIsStored` and `TaskRoutes.Serve`: a body the
  create route lets through is always stored for the requester, provided
  its title and description are plain text and the Date cast reads its due
  date. `TaskRoutes.AstralTitleFailsSchema` shows that the first condition
  is needed.
- `TaskController.TaskStore.GetTasks`: a listing holds exactly the
  requester's visible tasks, with the requested filter, order and page.
- `TaskController.TaskStore.GetTaskStats`: each statistic is the number of
  visible tasks with that status or priority.
- `AuthController.RegisteredUserCanLogIn`: a registered user can log in with
  the same credentials. Another password works exactly when bcrypt reads
  the same 72-byte key from it. Text past the first 72 UTF-8 bytes is
  ignored (`UserModel.SeventyThirdByteIgnored`). A text holding U+0000 can
  share the key of a shorter one (`UserModel.NulCandidateMatches`). Among
  passwords of at most 72 bytes without U+0000, only the password itself
  matches (`UserModel.ShortPasswordsAreDistinct`).
- `TaskRoutes.StatsIsNeverAnId`: because `GET /stats` is registered before
  `GET /:id`, no task can be read under the id `stats`.

## Model

| member | source | states |
|---|---|---|
| Text.Trim | backend/src/models/Task.js:8 | the result has no whitespace at either end and is no longer than the input |
| Text.TrimIsCore | backend/src/models/Task.js:8 | the trimmed string is a contiguous part of the input with only whitespace before and after it |
| Text.TrimOfPadded | backend/src/routes/v1/taskRoutes.js:163 | a trimmed core padded with whitespace on both sides trims back to exactly that core |
| Text.TrimIdempotent | backend/src/routes/v1/taskRoutes.js:163 | trimming twice equals trimming once, so the route's trim and the schema's trim agree |
| Text.TrimOfTrimmed | backend/src/models/Task.js:8 | text with no whitespace at either end is left as it is |
| Text.PlainLengths | backend/src/models/Task.js:9-10 | on text without astral characters or presentation selectors, the schema's UTF-16 length and the validator's length both equal the number of characters |
| Text.RepeatedLengths | backend/src/routes/v1/taskRoutes.js:166 | `n` copies of a character are `n` times its UTF-16 units long for the schema, and `n` long for the validator, or 0 for a presentation selector |
| Text.TrimKeepsPlain | backend/src/routes/v1/taskRoutes.js:163-166 | trimming plain text gives plain text |
| Text.Utf8Char | backend/src/models/User.js:56 | a character encodes to 1 to 4 bytes, each below 256 |
| Text.DecodeEncodedChar | backend/src/models/User.js:56 | decoding a character's UTF-8 bytes gives the character back |
| Text.Utf8Append | backend/src/models/User.js:56 | the encoding of a concatenation is the concatenation of the encodings |
| Text.Utf8Injective | backend/src/models/User.js:56 | two strings with the same UTF-8 encoding are equal |
| Text.ToLower | backend/src/models/User.js:17 | lower-casing keeps the length, maps each character, and leaves no upper-case ASCII letter |
| Text.LowerKeepsWhite | backend/src/models/User.js:17-18 | lower-casing never changes whether a character is whitespace |
| Text.IsEmailMatchesPattern | backend/src/models/User.js:19 | the executable e-mail check accepts exactly the strings the pattern `^\S+@\S+\.\S+$` matches |
| Ordering.InsertSorted | backend/src/controllers/taskController.js:32 | inserting into an ordered sequence under a total preorder keeps it ordered |
| Ordering.SortBy | backend/src/controllers/taskController.js:32 | the output is ordered by the comparator and is a permutation of the input |
| UserModel.ParseRole | backend/src/models/User.js:27-34 | only `user` and `admin` are roles, and parsing inverts the role's name |
| UserModel.BcryptKey | backend/src/models/User.js:55-56 | the key is always 72 bytes: the UTF-8 encoding and a zero byte when they fit, repeated after that; otherwise the first 72 bytes of the encoding |
| UserModel.Cyclic | backend/src/models/User.js:55-56 | reading a stream cyclically gives exactly the requested number of bytes, and the stream itself comes first |
| UserModel.CyclicOfDoubled | backend/src/models/User.js:55-56 | a stream written twice is read cyclically as the stream once |
| UserModel.KeyPrefix | backend/src/models/User.js:55-56 | the key of a password of at most 72 bytes starts with its encoding, followed by the zero byte when it is shorter |
| UserModel.Utf8HasNoZero | backend/src/models/User.js:55-56 | only U+0000 encodes to a zero byte |
| UserModel.Compare | backend/src/models/User.js:64-66 | a candidate matches exactly when hashing it under the stored salt gives the stored digest |
| UserModel.NormalizeEmail | backend/src/models/User.js:17-18 | a stored e-mail is trimmed and lower-case |
| UserModel.CheckName | backend/src/models/User.js:6-11 | a name is accepted exactly when its trimmed length in UTF-16 units is 2 to 50, and is stored trimmed; a missing one is "Name is required" |
| UserModel.CheckEmail | backend/src/models/User.js:13-19 | an e-mail is accepted exactly when its normalised form is an e-mail, and is stored normalised |
| UserModel.CheckPassword | backend/src/models/User.js:21-26 | a password is accepted exactly when it has at least 6 UTF-16 units |
| UserModel.CheckRole | backend/src/models/User.js:27-34 | a missing role defaults to user; a given role is accepted exactly when it is `user` or `admin` |
| UserModel.NewUser | backend/src/models/User.js:4-35 | a user is created exactly when all four paths pass; it is well formed, and it holds the normalised e-mail and the plaintext password before the hook runs |
| UserModel.UserDocument.Save | backend/src/models/User.js:52-57 | a modified password is replaced by its digest under the salt; an unmodified one is kept |
| UserModel.UserDocument.ComparePassword | backend/src/models/User.js:64-66 | the document's password matches the candidate exactly when it is the candidate's digest |
| UserModel.HashedPasswordMatchesOnlyItself | backend/src/models/User.js:55-66 | after hashing, a candidate matches exactly when bcrypt reads the same 72-byte key from it as from the original |
| UserModel.ShortPasswordsAreDistinct | backend/src/models/User.js:55-66 | two passwords of at most 72 UTF-8 bytes without U+0000 give the same key only when they are equal |
| UserModel.NulRepeatSharesKey | backend/src/models/User.js:55-66 | a password, U+0000 and the password again have the password's key |
| UserModel.NulCandidateMatches | backend/src/models/User.js:55-66 | the text "abcdef", U+0000, "abcdef" differs from "abcdef" and matches its digest |
| UserModel.TrailingNulIgnored | backend/src/models/User.js:55-66 | a 71-byte password followed by U+0000 has the password's key |
| UserModel.LongPasswordIgnoresRest | backend/src/models/User.js:55-56 | text appended to a password of 72 or more UTF-8 bytes does not change its key |
| UserModel.SeventyThirdByteIgnored | backend/src/models/User.js:55-66 | 72 × "a" followed by "b" is a different password that matches the digest of 72 × "a" |
| UserModel.UserToJSON | backend/src/models/User.js:38-45 | the JSON form drops `password` and `__v` and keeps every other key with its value |
| UserModel.SerialisedUserIsPublic | backend/src/models/User.js:25-45 | a serialised user holds exactly the public fields, whether or not the password was selected |
| TaskModel.ParseStatus | backend/src/models/Task.js:18-25 | exactly the three status names parse, and parsing inverts naming |
| TaskModel.ParsePriority | backend/src/models/Task.js:26-33 | exactly the three priority names parse, and parsing inverts naming |
| TaskModel.EnumNamesRoundTrip | backend/src/models/Task.js:18-33 | every status and priority survives being named and parsed back |
| TaskModel.CheckTitle | backend/src/models/Task.js:5-11 | a title is accepted exactly when its trimmed length in UTF-16 units is 3 to 100, and is stored trimmed; an empty one is "Task title is required" |
| TaskModel.CheckDescription | backend/src/models/Task.js:12-17 | a description is accepted exactly when trimmed it has at most 500 UTF-16 units |
| TaskModel.CheckStatus | backend/src/models/Task.js:18-25 | a status is accepted exactly when it is one of the enum values, with the enum message otherwise |
| TaskModel.CheckPriority | backend/src/models/Task.js:26-33 | a priority is accepted exactly when it is one of the enum values, with the enum message otherwise |
| TaskModel.CheckDueDate | backend/src/models/Task.js:34-37 | an empty due date becomes null; any other value is accepted exactly when it casts to a date, and is stored as that instant |
| TaskModel.NewTask | backend/src/models/Task.js:3-43 | a task is created exactly when a title is given and every given path passes; it is well formed and owned by the creator; a given path stores its trimmed or cast value and a missing one its default; a due date that fails its cast is the first report, then a missing title |
| TaskModel.UpdatedTask | backend/src/controllers/taskController.js:154-157 | an update succeeds exactly when every named path passes; named paths take the new values, including the cast due date; the others and id, owner and creation time are kept; schema invariants are preserved |
| TaskModel.TaskToJSON | backend/src/models/Task.js:46-51 | the JSON form drops only `__v` |
| TaskModel.SerialisedTaskRoundTrip | backend/src/models/Task.js:46-51 | a serialised task has exactly the task keys and parses back to the same task |
| AuthGate.Split | backend/src/middleware/auth.js:17 | splitting gives at least one word; no word contains a space; there are two or more words exactly when the input has a space |
| AuthGate.SplitJoin | backend/src/middleware/auth.js:17 | joining the words of a split with spaces gives back the input |
| AuthGate.ExtractToken | backend/src/middleware/auth.js:13-20 | a token is taken exactly from a header that starts with `Bearer` and has a non-empty second word, and it is that word |
| AuthGate.ExtractTokenCases | backend/src/middleware/auth.js:13-25 | `Bearer <t>` yields `t`; a bare `Bearer`, `Bearer ` with nothing after it, another scheme, or no header yields none |
| AuthGate.ExtraWordsAreIgnored | backend/src/middleware/auth.js:17 | `Bearer <t> <more words>` yields `t` |
| AuthGate.Authenticate | backend/src/middleware/auth.js:8-56 | a request proceeds exactly when a token is present, verifies, and names an existing user; each failure gets its own 401 message, and an unexpected verification error is passed on |
| AuthGate.Protect | backend/src/middleware/auth.js:8-56 | the outcome is the decision above, and `req.user` is set exactly when the request proceeds |
| Rbac.DecisionStatus | backend/src/middleware/rbac.js:13-25 | no user gives 401 and a forbidden role gives 403 |
| Rbac.Authorize | backend/src/middleware/rbac.js:11-29 | no user is unauthenticated; otherwise the request proceeds exactly when the role is listed, and names the role when forbidden |
| Rbac.NoUserIsUnauthenticated | backend/src/middleware/rbac.js:13-18 | without a user the answer is 401 for every role list |
| Rbac.EmptyRoleListRejectsEveryone | backend/src/middleware/rbac.js:20-25 | an empty role list gives 403 to every user |
| Rbac.AdminAndUserAdmitsBoth | backend/src/middleware/rbac.js:8-9 | `authorize('admin', 'user')` admits everyone; `authorize('admin')` admits exactly admins and gives a plain user 403 |
| ErrorHandler.ResponseFor | backend/src/middleware/errorHandler.js:5-44 | precedence: ValidationError gives 400, then duplicate key gives 409, then CastError gives 400; otherwise the error's own status and message or 500; field errors only for validation; the stack only in development |
| ErrorHandler.HandleError | backend/src/middleware/errorHandler.js:5-44 | the handler's step-by-step overrides build exactly the response above |
| TaskController.CheckAccess | backend/src/controllers/taskController.js:61-77 | a missing task is reported before a denied one; access is granted exactly to the owner or an admin |
| TaskController.ListFilterSelects | backend/src/controllers/taskController.js:13-18 | the list filter matches exactly the visible tasks of the non-empty requested status and priority; owner-scoped unless admin |
| TaskController.SelectedMembers | backend/src/controllers/taskController.js:30 | the scan holds only stored tasks the filter matches, and every such task |
| TaskController.SelectedCountsMatches | backend/src/controllers/taskController.js:28-30 | `countDocuments` and `find` with the same filter see the same number of documents |
| TaskController.SortKeyFor | backend/src/controllers/taskController.js:21-24 | `oldest`, `priority` and `dueDate` select their orders; anything else is newest first |
| TaskController.PriorityRankIsNameOrder | backend/src/controllers/taskController.js:23 | the priority order is the descending string order of the stored names |
| TaskController.ComparatorIsTotalPreorder | backend/src/controllers/taskController.js:21-24 | every sort option is a total preorder on tasks |
| TaskController.Listing | backend/src/controllers/taskController.js:30-32 | the listing is ordered by the sort option and is a permutation of the selected tasks |
| TaskController.ListingIsScoped | backend/src/controllers/taskController.js:13-18 | in every order the database may return, each listed task is stored, is visible to the requester, and has the requested status and priority |
| TaskController.Window | backend/src/controllers/taskController.js:33-34 | skip and limit give the consecutive rows from the skip offset, at most `limit` rows, and nothing past the end |
| TaskController.PageCountIsCeiling | backend/src/controllers/taskController.js:41 | the page count is the least number of pages of `limit` rows holding `total` rows |
| TaskController.PageIsNonEmptyIffWithinPages | backend/src/controllers/taskController.js:27-41 | a page holds a row exactly when its number is at most the reported page count |
| TaskController.CountStats | backend/src/controllers/taskController.js:217-231 | the status counts and the priority counts each add up to the total; there are no rows exactly when the statistics are all zero |
| TaskController.CountStatsCounts | backend/src/controllers/taskController.js:223-228 | each status or priority count is the number of rows with that status or priority |
| TaskController.NarrowedMatch | backend/src/controllers/taskController.js:17-18 | adding a status or priority to a filter matches the tasks it matched that have that status or priority |
| TaskController.NarrowedByStatus | backend/src/controllers/taskController.js:223-225 | the status-narrowed selection is the tasks of that status among the scope's selection, in order |
| TaskController.NarrowedByPriority | backend/src/controllers/taskController.js:226-228 | the priority-narrowed selection is the tasks of that priority among the scope's selection, in order |
| TaskController.Whitelisted | backend/src/controllers/taskController.js:146-152 | updates hold exactly the allowed fields the body defines, with the body's values |
| TaskController.WhitelistIgnoresOtherFields | backend/src/controllers/taskController.js:146-152 | setting or removing a field outside the whitelist does not change the updates |
| TaskController.CollectUpdates | backend/src/controllers/taskController.js:146-152 | the copying loop computes exactly the whitelisted updates |
| TaskController.CreateFields | backend/src/controllers/taskController.js:95-104 | the schema receives the body's fields, with a falsy due date replaced by null |
| TaskController.ReplyStatus | backend/src/controllers/taskController.js:61-108 | 201 exactly for a created task, 404 exactly for a missing one, 403 exactly for a forbidden one, otherwise 200 |
| TaskController.Skip | backend/src/controllers/taskController.js:27 | pages from 1 skip a non-negative number of rows; page 0 skips minus one page |
| TaskController.TaskStore.GetTasks | backend/src/controllers/taskController.js:8-47 | a negative skip fails; otherwise the total is the number of matching tasks, the rows are the requested window of some order of the selection sorted by the option, with ties in any order, and the page count is the ceiling; a non-admin sees only their own tasks |
| TaskController.TaskStore.GetTask | backend/src/controllers/taskController.js:54-86 | a bad id is a cast error; then 404, 403 or the stored task, which the requester may access |
| TaskController.TaskStore.CreateTask | backend/src/controllers/taskController.js:93-116 | a valid task is stored under a fresh id and owned by the requester; an invalid one is a validation error and the store is unchanged |
| TaskController.TaskStore.UpdateTask | backend/src/controllers/taskController.js:123-167 | cast error, 404, 403, then the due date's own cast error, then the validated whitelisted update replaces exactly that task; no other change to the store |
| TaskController.TaskStore.DeleteTask | backend/src/controllers/taskController.js:174-206 | cast error, 404, 403, then exactly that task is removed |
| TaskController.TaskStore.GetTaskStats | backend/src/controllers/taskController.js:213-250 | the total is the size of the scope; each status and priority count equals the number of scoped tasks listed with that status or priority; all zero for an empty scope |
| AuthController.AuthStatus | backend/src/controllers/authController.js:16-76 | 201 exactly for a registration, 409 exactly for a conflict, 401 exactly for bad credentials, otherwise 200 |
| AuthController.FindByEmail | backend/src/controllers/authController.js:14 | a found user has the e-mail; when none is found, no stored user has it |
| AuthController.UserWithEmail | backend/src/controllers/authController.js:56 | the lookup uses the normalised e-mail of the body, and a body without one matches nobody |
| AuthController.RegisterFields | backend/src/controllers/authController.js:23-28 | the schema receives the body's fields, with `role \|\| 'user'` |
| AuthController.RegisteredRole | backend/src/controllers/authController.js:27 | a registration without a role creates a plain user; a given role is kept |
| AuthController.AllUsers | backend/src/controllers/authController.js:113 | every listed user is a stored user |
| AuthController.AllUsersListsEveryStored | backend/src/controllers/authController.js:113 | every user stored under an identifier below the bound is listed |
| AuthController.AllUsersCount | backend/src/controllers/authController.js:113 | the list has one entry per stored identifier below the bound |
| AuthController.NewestFirstIsTotalPreorder | backend/src/controllers/authController.js:113 | newest-first is a total preorder on users |
| AuthController.FreshEmailStaysUnique | backend/src/models/User.js:16 | adding a user under a new id with an unused e-mail keeps e-mails unique |
| AuthController.UserStore.Register | backend/src/controllers/authController.js:9-44 | 409 exactly when the e-mail is taken; otherwise a validation error, or the user is stored under a fresh id with a hashed password that matches the given one, and given a token |
| AuthController.UserStore.Insert | backend/src/controllers/authController.js:23-28 | the user is stored under the next id and the store invariant holds |
| AuthController.UserStore.Login | backend/src/controllers/authController.js:51-87 | an unknown e-mail and a wrong password get the same 401; a missing password makes bcrypt throw; otherwise the user and a token |
| AuthController.UserStore.GetMe | backend/src/controllers/authController.js:94-104 | the requester's own stored profile, or null |
| AuthController.UserStore.GetAllUsers | backend/src/controllers/authController.js:111-122 | every stored user is listed and every listed user is stored; newest first; a permutation of the identifier-ordered list; the count is the number of users |
| AuthController.RegisteredUserCanLogIn | backend/src/controllers/authController.js:51-87 | after registering, the same e-mail and password find the user and match; another password matches exactly when bcrypt reads the same 72-byte key from it |
| TaskRoutes.RuleErrors | backend/src/routes/v1/taskRoutes.js:162-167 | one report per failing rule, in order, all for the chain's field; none exactly when every rule passes |
| TaskRoutes.Validate | backend/src/middleware/validate.js:7-20 | a refused request always carries at least one report |
| TaskRoutes.OneRuleChain | backend/src/routes/v1/taskRoutes.js:168-172 | an optional one-rule chain skips a missing field; otherwise it reports exactly when the rule fails on the (trimmed) value |
| TaskRoutes.SharedChains | backend/src/routes/v1/taskRoutes.js:168-184 | the shared chains trim the description and report nothing exactly when the optional fields are acceptable |
| TaskRoutes.CreateTitleRun | backend/src/routes/v1/taskRoutes.js:162-167 | the create title chain writes back the trimmed title, passes exactly for 3 to 100 characters, and reports a missing title twice |
| TaskRoutes.CreateScreening | backend/src/routes/v1/taskRoutes.js:159-188 | `POST /` passes exactly when the title is present and acceptable and the optional fields are acceptable; the body passed on is sanitised; a missing title is reported first, as required and as too short |
| TaskRoutes.UpdateScreening | backend/src/routes/v1/taskRoutes.js:227-255 | `PUT /:id` passes exactly when a given title is acceptable and the optional fields are acceptable; the body passed on is sanitised |
| TaskRoutes.ScreenedTextIsAccepted | backend/src/routes/v1/taskRoutes.js:162-172 | a plain-text title or description the route accepts is accepted by the schema |
| TaskRoutes.ScreenedFieldsPass | backend/src/routes/v1/taskRoutes.js:159-187 | for plain text and a readable due date, every field `createTask` takes from a screened body passes its schema validator |
| TaskRoutes.ScreenedCreateIsStored | backend/src/routes/v1/taskRoutes.js:159-188 | a body the create route lets through, with plain text and a readable due date, always yields a valid new task |
| TaskRoutes.ScreenedUpdatesPass | backend/src/routes/v1/taskRoutes.js:227-254 | for plain text and a readable due date, every whitelisted update from a screened body passes its schema validator |
| TaskRoutes.ScreenedUpdateIsApplied | backend/src/routes/v1/taskRoutes.js:227-255 | a body the update route lets through, with plain text and a readable due date, passes the due date's cast and the update validators |
| TaskRoutes.AstralTitleLengths | backend/src/routes/v1/taskRoutes.js:166 | 60 emoji need no trimming, count 60 for the validator and 120 UTF-16 units |
| TaskRoutes.AstralTitleFailsSchema | backend/src/models/Task.js:10 | a title of 60 emoji passes `POST /` and then fails the schema's maximum of 100 |
| TaskRoutes.SelectorTitleLengths | backend/src/routes/v1/taskRoutes.js:166 | "ab" with U+FE0F needs no trimming, counts 2 for the validator and 3 UTF-16 units |
| TaskRoutes.SelectorTitleFailsRoute | backend/src/routes/v1/taskRoutes.js:166 | "ab" with U+FE0F passes the schema's minimum of 3 but `POST /` refuses it as too short |
| TaskRoutes.FirstMatch | backend/src/routes/v1/taskRoutes.js:60-277 | the chosen registration answers the request, and none before it does |
| TaskRoutes.FixedRoutes | backend/src/routes/v1/taskRoutes.js:60-159 | `GET /stats` gives the statistics, `GET /` the list, `POST /` the create |
| TaskRoutes.IdRoutes | backend/src/routes/v1/taskRoutes.js:122-277 | a non-empty segment is the id of read (unless `stats`), update and delete |
| TaskRoutes.UnroutedRequests | backend/src/routes/v1/taskRoutes.js:60-277 | exactly these requests are unrouted: other verbs, deeper paths, PUT or DELETE on the root, an empty id, and POST on an id |
| TaskRoutes.StatsIsNeverAnId | backend/src/routes/v1/taskRoutes.js:60-122 | no request reaches the read handler with the id `stats` |
| TaskRoutes.ResponseStatus | backend/src/middleware/validate.js:9-17 | 401 for the gate, 400 for validation, the handler's status, or the error handler's status |
| TaskRoutes.ForeignDeleteIsRefused | backend/src/controllers/taskController.js:174-206 | another user's `DELETE /:id` of a stored task is a 403, and the store is unchanged |
| TaskRoutes.OwnUpdateTouchesOnlyTarget | backend/src/controllers/taskController.js:123-167 | a successful `PUT /:id` leaves every other task as it was and keeps the target's id, owner and creation time |
| TaskRoutes.Invoke | backend/src/routes/v1/taskRoutes.js:60-277 | every endpoint's reply and new store are what its handler promises: the read-only ones leave the store unchanged, create, update and delete change it as their handlers state |
| TaskRoutes.Handle | backend/src/routes/v1/taskRoutes.js:60-277 | the handler's outcome as above; a handler failure becomes the error handler's response to that error, for that endpoint |
| TaskRoutes.Create | backend/src/routes/v1/taskRoutes.js:159-188 | `createTask` on the screened body meets the create handler's outcome; a failure it passes on becomes the error handler's response, for `POST /` |
| TaskRoutes.CreateRoute | backend/src/routes/v1/taskRoutes.js:159-188 | a refused body gets 400 with the reports and leaves the store unchanged; a passed one gets the create handler's outcome, and with plain text and a readable due date it is answered Created for the requester |
| TaskRoutes.Dispatch | backend/src/routes/v1/taskRoutes.js:60-277 | unrouted exactly when no registration answers; validation fails exactly when the route's chains refuse the body, with their reports; otherwise the routed handler's outcome on the screened body; the store changes only when a handler runs |
| TaskRoutes.Serve | backend/src/routes/v1/taskRoutes.js:17-277 | `protect` runs first for every path: its 401 exactly on a rejection, `req.user` set exactly on success, its unexpected errors to the error handler; the store is unchanged unless `protect` admits the user; then the routing, validation and handler outcomes as above |

## Left out

- The frontend, the server wiring, database connection code, the Swagger
  set-up and the application's own 404 page: not part of this model. An
  unrouted request ends in `Unrouted`.
- HEAD and OPTIONS handling and Express's path normalisation: paths are
  given as their segments. Trailing slashes, case-insensitive matching and
  URL decoding are not modelled.
- JWT signing and verification, and bcrypt's internals: foreign code,
  passed in as `verify` and `issue`, with digests kept symbolic. Only what
  bcrypt reads of a password, its 72-byte key, is modelled.
- `populate('createdBy', 'name email')`: `createdBy` stays the owner's id.
- The `updatedAt` timestamp, and concurrency between requests.
- Text.ToLower: only ASCII letters are lower-cased. The full Unicode
  case mapping has no counterpart here.
- ScreenedTextIsAccepted: holds only for plain text. The route's
  `isLength` and the schema's `maxlength` count astral characters and
  presentation selectors differently, as `AstralTitleFailsSchema` and
  `SelectorTitleFailsRoute` show.
- ScreenedFieldsPass: the same plain-text condition, and a due date the
  Date cast reads. The route's `isISO8601` also accepts week dates
  ("2009-W53-7") and ordinal dates ("2009-123"), which the Date cast does
  not read; such a body passes the route and then fails the schema.
- ScreenedCreateIsStored: stated under the same two conditions.
- ScreenedUpdatesPass: stated under the same two conditions.
- ScreenedUpdateIsApplied: stated under the same two conditions.
- CreateRoute: "a passed body is Created" is stated under the same two
  conditions.
- Dispatch: the create clause is stated under the same two conditions.
- Request bodies and query strings are maps from keys to strings. JSON
  numbers, booleans, arrays, objects and null in a body are not modelled.
  Neither are nested query values: Express's query parser reads
  `?status[$ne]=todo` as an object, which would reach the filter at
  taskController.js:17 as a query operator.
- ShortPasswordsAreDistinct: stated for passwords without U+0000. bcrypt
  ends the key with a zero byte, so a password holding U+0000 can share its
  key with a different one, as `NulCandidateMatches` and
  `TrailingNulIgnored` show.
- TaskController.TaskStore.GetTasks: `page` and `limit` arrive as already
  parsed naturals. Non-numeric text, which `parseInt` turns into NaN, is not
  modelled. Negative text is not modelled either: a negative page would give
  the negative-skip failure, and a negative limit would give MongoDB's
  single-batch limit and a negative page count.
- The order of tasks that tie under the sort option is left open, as it is
  by the database: `TaskController.ListAnswer` promises some order sorted by the option
  that is a permutation of the selection, and each request may pick a
  different one. `GetTasks` answers with `Listing`, whose insertion sort
  keeps ties in ascending id order, as one such order.
- TaskController.TaskStore.GetTaskStats: the reply carries the seven counts
  only. The `_id: null` key of the aggregation result is dropped.
- ErrorHandler.HandleError: the texts of MongoDB's own errors are not
  modelled, and neither is the console log in development. A duplicate-key
  error always carries its `keyValue` here. One without `keyValue` would
  make the handler itself throw, and that case is not modelled.
- Serve: the create clause is stated under the two conditions above.
- Sorting by `priority` orders the stored names in descending string order:
  medium, then low, then high. The model states this as written, in
  `TaskController.PriorityRankIsNameOrder`.
