# Task Manager server core in Dafny

This project models the request-handling core of the Task Manager server, an
Express and Mongoose application. It covers four parts:

- the authentication middleware, which turns an `Authorization` header into
  the requesting principal (`req.user`) or a 401 reply;
- the register and login controllers, which keep the user table and issue
  seven-day tokens;
- the task routes, which create tasks, update and delete them under ownership
  rules, and list tasks (assigned, created, overdue) and users;
- the assistant routes, which list the users a task can be assigned to,
  dispatch task listings on a path parameter, and create tasks with required
  fields and defaults.

The two collections are classes. `Users.UserStore` holds `map<Email, User>`;
`Tasks.TaskStore` holds `map<ObjectId, Task>`. The handlers that write
(register, create, update, delete) are methods that modify a store. The
decisions that only read are functions: the middleware, login, and the
listings. JWT verification and the bcrypt password comparison are function
parameters. The `_id` the driver assigns to a new document and the creation
time are also parameters.

A request body field is an `Input`: undefined, null, the empty string, or a
non-empty value. Only the last is truthy. An ObjectId is a number below
16^24. Its `toString()` is 24 lower-case hex digits. Casting a string to an
ObjectId accepts 24 hex digits in either case. The round trip between the two
is proved, and so `toString()` is injective. That fact is what turns the
handlers' string comparisons into comparisons of ids.

Modules, leaf first: `Common` (options, replies, body fields, JSON, `trim`),
`ObjectIds`, `Ordering` (a sort specified by a total preorder, and the
code-point order on strings), `Users`, `AuthMiddleware`, `AuthController`,
`Tasks` (documents, `$set`, the task store, queries), `TaskRoutes`,
`TaskAssistant`.

Authorization failures are 401; there is no separate forbidden status. The
middleware accepts only the flat `{ id }` payload. The server has no
notification code, and none is modelled.

## Model

| member | source | states |
|---|---|---|
| `Common.OrNull` | server/src/routes/task.js:17 | a field or null is the value exactly when the field is truthy, otherwise null |
| `Common.OrElse` | server/src/routes/taskAssistant.js:90 | a field or a fallback is the given value when truthy, otherwise the fallback |
| `Common.Trim` | server/src/controllers/auth.js:51 | the input is leading white space, then the result, then only white space; the result neither starts nor ends with white space |
| `Common.TrimmedAtUnique` | server/src/controllers/auth.js:51 | those conditions determine the trimmed string: two strings that both meet them for the same input and leading white space are equal |
| `Common.TrimIdempotent` | server/src/controllers/auth.js:51-52 | trimming twice is trimming once |
| `Common.EdgeWhitespaceTrimMoves` | server/src/controllers/auth.js:51-52 | a string with white space at an end is changed by trim |
| `ObjectIds.CastToHexStringRoundTrip` | server/src/middleware/auth.js:34 | casting an ObjectId's string form back yields the same ObjectId |
| `ObjectIds.ToHexStringInjective` | server/src/routes/task.js:102-104 | two ObjectIds have the same string form exactly when they are equal |
| `Ordering.SortedBy` | server/src/routes/task.js:41 | a sort yields each element of the set exactly once, ordered by the given total preorder |
| `Users.LookupById` | server/src/middleware/auth.js:34 | `findById` finds a user exactly when some stored user has that `_id`, and the one it finds has it |
| `Users.ListUsers` | server/src/routes/taskAssistant.js:13-15 | the listing holds exactly the summaries of the users not excluded, each once, sorted by name |
| `Users.ListedNamesTieOnlyWhenEqual` | server/src/routes/taskAssistant.js:15 | two listed users out of name order have the same name, so only equal names are left in either order |
| `Users.UserStore.FindOne` | server/src/controllers/auth.js:11 | `findOne({ email })` finds a user exactly when the address is stored, and returns that user |
| `Users.UserStore.Insert` | server/src/controllers/auth.js:24 | saving a new user adds it under its address and keeps addresses and ids unique |
| `AuthMiddleware.ExtractToken` | server/src/middleware/auth.js:14-16 | the token is the header after a leading "Bearer ", otherwise the whole header |
| `AuthMiddleware.ExtractAfterBearer` | server/src/middleware/auth.js:14-16 | only the prefix is removed: "Bearer " followed by a token yields that token |
| `AuthMiddleware.CatchMessage` | server/src/middleware/auth.js:53-60 | "Token expired" exactly for an expired token, "Invalid token signature" exactly for other JWT errors, "Invalid token" exactly for anything else |
| `AuthMiddleware.FindById` | server/src/middleware/auth.js:34 | the cast fails exactly for a value that is not a string of 24 hex digits; a user is found exactly when the cast id is some stored user's `_id`, and that user is returned |
| `AuthMiddleware.Authenticate` | server/src/middleware/auth.js:4-62 | a missing or empty header is rejected with "Authorization header missing"; "Bearer " alone is rejected with "No token found in header"; the request passes only with a verified payload whose top-level `id` casts to the principal's id, and the principal is a stored user's id, e-mail and name (`Users.ToPrincipal`); a token whose verification throws is answered with the message `CatchMessage` gives for that error |
| `AuthMiddleware.UncastableIdIsInvalid` | server/src/middleware/auth.js:34-60 | a verified payload whose top-level `id` is truthy but does not cast to an ObjectId makes the lookup throw, and the reply is "Invalid token" |
| `AuthMiddleware.NoTopLevelIdIsMalformed` | server/src/middleware/auth.js:27-31 | a verified payload without a truthy top-level `id` is rejected as "Malformed token payload" |
| `AuthMiddleware.StoredIdAuthenticates` | server/src/middleware/auth.js:14-48 | for any header with a token, "Bearer " or bare, a verified payload whose top-level `id` is a string casting (in either letter case) to a stored user's id passes with exactly that user's principal: its id, e-mail and name (`Users.ToPrincipal`) |
| `AuthMiddleware.UnknownIdRejected` | server/src/middleware/auth.js:14-38 | for any header with a token, "Bearer " or bare, a verified payload whose top-level `id` casts to an id no user has is rejected with "User not found" |
| `AuthController.DecodedPayload` | server/src/controllers/auth.js:27-29 | the payload a signed token verifies to holds the signed claims, `iat` equal to the signing time, and `exp` one token lifetime later |
| `AuthController.Register` | server/src/controllers/auth.js:6-36 | an address already stored gets 400 "User already exists" and the table is unchanged; otherwise exactly one user with the given name, address and password is added and the reply carries a `{ user: { id } }` token for seven days (`AuthController.IssuedGrant`) |
| `AuthController.Login` | server/src/controllers/auth.js:39-87 | a missing or empty field gives 400 and nothing else does; an unknown trimmed address gives 401 "Email not found"; a stored address whose password comparison fails gives 401 "Incorrect password"; success exactly when the trimmed address is stored and the untrimmed password matches, with a `{ user: { id } }` token for that user (`AuthController.IssuedGrant`); every failure is 400 or 401 |
| `AuthController.MissingCredentialsIgnoreTable` | server/src/controllers/auth.js:44-48 | a login missing either field gets the same reply whatever the user table holds |
| `AuthController.LoginAfterRegister` | server/src/controllers/auth.js:51-55 | after registering with an address that has no edge white space, logging in with the same address and password yields a token for the new user |
| `AuthController.UntrimmedRegistrationCannotLogIn` | server/src/controllers/auth.js:51-61 | a user registered with white space around the address cannot log in with that address: the lookup uses the trimmed address and gets 401 "Email not found" |
| `AuthController.PasswordComparedUntrimmed` | server/src/controllers/auth.js:67-74 | the password compared is the one typed, not its trim: with an exact comparison, a trailing space is refused with "Incorrect password" |
| `AuthController.IssuedTokenNeverAuthenticates` | server/src/controllers/auth.js:27 | a token issued by register or login is always rejected by the middleware, as "Malformed token payload" once it verifies |
| `AuthController.CanonicalTokenAuthenticates` | server/src/middleware/auth.js:27-46 | a verified token whose payload is `{ id }` for a stored user authenticates exactly that user |
| `Tasks.StoredText` | server/src/routes/task.js:11-15 | a given string field is stored as given and the empty string as empty; null (stored as null) and undefined (left absent) are both None |
| `Tasks.StoredDay` | server/src/routes/task.js:14 | a due date is stored exactly when one is given; the empty string and null (cast to a stored null) and undefined (left absent) are None |
| `Tasks.ApplySet` | server/src/routes/task.js:125-129 | `$set` never changes the id, the creator or the creation time |
| `Tasks.ApplySetIdempotent` | server/src/routes/task.js:127 | applying the same `$set` twice is applying it once |
| `Tasks.ApplyNoChanges` | server/src/routes/task.js:112 | an empty `$set` leaves the task as it was |
| `Tasks.TaskStore.FindById` | server/src/routes/task.js:95 | `findById` finds a task exactly when the id is stored, and the task found has that id |
| `Tasks.TaskStore.Insert` | server/src/routes/task.js:20 | saving a new task adds it under its id and nothing else changes |
| `Tasks.TaskStore.FindByIdAndUpdate` | server/src/routes/task.js:125-129 | the stored task gets the `$set` applied and is returned; a missing id changes nothing and returns null |
| `Tasks.TaskStore.FindByIdAndDelete` | server/src/routes/task.js:156 | exactly the task with that id is removed |
| `Tasks.SortOrderIsTotalPreorder` | server/src/routes/task.js:41 | by due date (missing dates first) and newest-first by creation time are both total preorders, so each query's sort is well defined |
| `Tasks.Find` | server/src/routes/task.js:38-41 | `find(filter).sort(order)` yields exactly the stored tasks matching the filter, each once, in order |
| `TaskRoutes.CreateTask` | server/src/routes/task.js:7-33 | the reply is 201 with the new task, now stored; its creator is the requester, a falsy assignee is null, and the body fields are stored as given |
| `TaskRoutes.UpdateDeniedExactlyForOthers` | server/src/routes/task.js:101-109 | the string comparison refuses an update exactly when the requester is neither the creator nor the assignee; with no assignee only the creator passes |
| `TaskRoutes.ReassignAllowedExactlyForCreator` | server/src/routes/task.js:120 | the intended reassignment test passes exactly for the creator |
| `TaskRoutes.UpdateFieldSemantics` | server/src/routes/task.js:111-122 | the `$set` document `TaskRoutes.UpdatedFields` builds acts as follows: after an update each truthy body field has its new value and every other field keeps its old one; the assignee changes only when given and the requester is the creator, and a falsy one clears it (with the corrected creator test; see Findings); id, creator and creation time never change |
| `TaskRoutes.UpdateIdempotent` | server/src/routes/task.js:112-129 | repeating the same update changes nothing further |
| `TaskRoutes.ReassignmentNeverAppliesAsWritten` | server/src/routes/task.js:120-122 | as written, the reassignment test never passes, so no update changes the assignee |
| `TaskRoutes.CreatorReassignmentLostAsWritten` | server/src/routes/task.js:119-122 | the creator assigning a new user leaves the assignee unchanged as written, and sets it to the new user as intended |
| `TaskRoutes.UpdateTask` | server/src/routes/task.js:88-138 | a missing id gets 404 and a requester who is neither creator nor assignee gets 401, both with the store unchanged; otherwise exactly that task is replaced by its update and returned |
| `TaskRoutes.DeleteTask` | server/src/routes/task.js:141-162 | a missing id gets 404 and a non-creator (the string test `TaskRoutes.DeleteDenied`) gets 401, both with the store unchanged; the creator removes exactly that task and gets "Task removed" |
| `TaskRoutes.AssignedTasks` | server/src/routes/task.js:36-48 | exactly the tasks assigned to the requester, each once, by due date |
| `TaskRoutes.CreatedTasks` | server/src/routes/task.js:51-63 | exactly the tasks the requester created, each once, newest first |
| `TaskRoutes.OverdueTasks` | server/src/routes/task.js:66-85 | exactly the tasks assigned to the requester, due before today and not completed, each once, by due date |
| `TaskRoutes.OverdueWithinAssigned` | server/src/routes/task.js:71-75 | a task is overdue for the requester exactly when it is in their assigned listing, past due and not completed |
| `TaskRoutes.CreatedTaskListed` | server/src/routes/task.js:11-20 | a new task appears in its creator's created listing and in its assignee's assigned listing |
| `TaskRoutes.AllUsers` | server/src/routes/task.js:165-177 | every user's id, name and e-mail, each once, sorted by name |
| `TaskAssistant.OtherUsers` | server/src/routes/taskAssistant.js:11-22 | the listing excludes the requester, includes every other user, and is sorted by name without repeats |
| `TaskAssistant.OtherUsersAreAllButRequester` | server/src/routes/taskAssistant.js:13 | the assistant's user listing is the full user listing without the requester |
| `TaskAssistant.TasksOfType` | server/src/routes/taskAssistant.js:27-70 | the switch (`TaskAssistant.FilterFor`) accepts only "assigned", "created" and "overdue", anything else gets 400 "Invalid task type"; each listing holds exactly its filter's tasks, each once, by due date |
| `TaskAssistant.TasksOfTypeAgreesWithTaskRoutes` | server/src/routes/taskAssistant.js:32-59 | the assigned and overdue listings equal the task routes' own; the created listing has the same tasks, sorted by due date rather than newest first |
| `TaskAssistant.CreatedTaskListedByType` | server/src/routes/taskAssistant.js:87-97 | a task the assistant created is listed as created for its creator and, being pending, as overdue for its assignee once past due |
| `TaskAssistant.CreateTask` | server/src/routes/taskAssistant.js:77-108 | a missing title, description or due date gets 400 and nothing is saved; otherwise the new task is stored and returned, with priority given or "medium", status "pending", the requester as creator and the assignee given or null |

## Left out

- I/O, `async` scheduling, logging, and the 500 "Server error" replies from the `catch` blocks of the handlers.
- `populate` joins: a reply carries the stored task, and its creator and assignee stay as ids rather than name and e-mail documents.
- Schema defaults are not modelled, because the Task and User models are not part of this model. A task created by the task routes leaves `status` unset, and `priority` unset when it is not given. Enum validation of status and priority is left out too.
- The User model's password hashing and `comparePassword` are not modelled; the comparison is a parameter. Register stores the password it is given.
- Token signing and verification are not modelled; verification is a parameter. A token is described by the claims it was signed with and the payload it decodes to.
- `AuthMiddleware.FindById`: only a string of 24 hex digits casts to an ObjectId. Mongoose also accepts 12-byte strings, numbers and ObjectId-like objects; the model treats those as cast errors ("Invalid token").
- Database errors inside the middleware's `try` are not modelled. They would end in "Invalid token".
- A stored null and an absent field are not told apart: both are None. So the 201 reply of the task routes' create carries `"title": null` for a null title but omits the key for a missing one, and the model gives the same task for both.
- Body fields that are not strings (numbers, booleans, objects) are not modelled.
- Dates are whole day numbers. "Before the start of today" is `dueDate < today`, and time zones are not modelled.
- Register with a missing name, e-mail or password is not modelled. When the e-mail given is already stored, the reply is still 400 "User already exists" (lines 11-14 of server/src/controllers/auth.js). Otherwise the outcome depends on a lookup with an undefined e-mail and on the User model's validation, and neither is modelled.
- `getProfile` and `protectedRoute` in the auth controller are left out: each is a single pass-through reply.
- The reply key `msg` of the assistant routes (the other routes use `message`) is not modelled; a `Fail` reply holds only the text.
- The server has no notification code, and none is modelled.
- `TaskRoutes.UpdateTask`: decides reassignment by the corrected test (the creator only). As written, no update ever reassigns; see Findings.

## Findings

| source | as written | input that shows it | evidently intended | confidence | as-written member | corrected member |
|---|---|---|---|---|---|---|
| server/src/routes/task.js:120 | `task.createdBy.toString() === req.user.id` compares a string with an ObjectId object (`req.user.id` is `user._id`), so it is always false | the creator sends `{ assignedTo: <another user's id> }`; the assignee stays as it was | only the creator may reassign, compared as strings like lines 102, 104 and 149 | not executed | `TaskRoutes.ReassignmentNeverAppliesAsWritten` | `TaskRoutes.ReassignAllowedExactlyForCreator` |
| server/src/controllers/auth.js:27 | tokens are signed with `{ user: { id } }`, but the middleware reads a top-level `decoded.id` (server/src/middleware/auth.js:27) | register, then send `Authorization: Bearer <the token>`; the reply is 401 "Malformed token payload" | one payload shape, with the id where the middleware reads it | not executed | `AuthController.IssuedTokenNeverAuthenticates` | `AuthController.CanonicalTokenAuthenticates` |
