# HireLens backend core in Dafny

HireLens runs proctored video interviews. An interviewer schedules a session, a candidate joins
it with an invite link, and the backend coordinates the two browsers. It relays WebRTC signalling
between the members of an interview room, records the proctoring events the candidate's browser
reports, and manages the interview record from "scheduled" through "ongoing" to "completed".

This project models the backend's logic and proves properties of it:

- the socket coordinator: the handshake, `join-interview`, `webrtc-signal`, `proctoring-event`
  and `disconnect`;
- the interview routes: schedule, list, lookup by token, get, logs, start and decision;
- the auth routes: register, login and `/me`;
- the Joi request validators;
- the User, Interview and Log models.

The model is divided as follows.

- **Data.**
  - Records and enumerations are datatypes.
  - The MongoDB collections are maps in one `Store.Database` object:
    - users are keyed by their normalised e-mail;
    - interviews and logs are keyed by the lowercase text of their ObjectId.
  - `Store.Database.Valid` says what the Mongoose validators and unique indexes guarantee about
    every stored document. Every handler that writes keeps it.
- **Documents.** Mongoose documents whose hooks assign fields in place are classes:
  - `UserModel.UserDocument` hashes the password in its pre-save hook;
  - `InterviewModel.InterviewDocument` generates the invite token in its pre-validate hook.
- **Coordinator.** `Socket.Coordinator` holds the connections, the socket.io rooms and an outbox
  of emitted events. Each handler is one atomic step. Its contract states:
  - the new connections and rooms;
  - for every connection, the events it has received, via `Socket.Received`.
- **Route handlers.**
  - Handlers that write to the store are methods over the `Database`.
  - Read-only handlers are methods without a `modifies` clause.
  - Each handler returns its `(status, message)` reply as `Http.Reply`.
  - The decision handler can attempt several replies, so it returns the list of replies it
    attempts.
- **External code.** jsonwebtoken, bcrypt, `crypto.randomBytes`, Joi's e-mail rule and the
  clock are parameters of the model:
  - jsonwebtoken is the `AuthRoutes.Jwt` pair of functions;
  - bcrypt is the `UserModel.Hasher` pair of functions;
  - `crypto.randomBytes` supplies the random bytes;
  - Joi's e-mail rule is the `isEmail` predicate;
  - the clock is a `now` timestamp.
  - New ObjectIds are also parameters, each required to be unused.

Where the code and the design description differ, the model follows the code.

- **No candidate binding on join.** `join-interview` does not bind a candidate to a session that
  has none. A session without a bound candidate admits only an admin or its interviewer.
- **Second join keeps the first room.** Joining a second interview replaces the connection's
  `interviewId`, but the connection stays a member of the first room.
- **Room names are taken as sent.** Rooms are named by the raw id string the client sent. An id
  written in upper case and the same id in lower case therefore name two rooms, although
  `findById` finds the same interview for both.
- **Only two status moves.** No handler sets "cancelled". The only status moves are
  scheduled → ongoing (start) and ongoing → completed (decision); see
  `InterviewRoutes.AdvancesIsForward`.
- **Trimmed name checked on save.** Joi checks the untrimmed name. The User schema checks the
  trimmed one. So a request that passes the validator can still fail on save, and `/register`
  answers it with its 500 reply; see `AuthRoutes.PaddedNameFailsOnSave`.

## Model

| member | source | states |
|---|---|---|
| Enums.ParseRole | backend/src/models/User.ts:35-40 | exactly "candidate", "interviewer" and "admin" parse, each to the role whose name it is |
| Enums.RoleRoundTrip | backend/src/models/User.ts:37 | every role parses back from its stored name |
| Enums.ParseStatus | backend/src/models/Interview.ts:39-44 | exactly the four status names parse, each to the status whose name it is |
| Enums.StatusRoundTrip | backend/src/models/Interview.ts:41 | every status parses back from its stored name |
| Enums.ParseOutcome | backend/src/models/Interview.ts:61-64 | exactly "pass" and "fail" parse |
| Enums.ParseLogType | backend/src/models/Log.ts:28-39 | exactly the six log type names parse, each to its type |
| Enums.ParseSeverity | backend/src/models/Log.ts:50-55 | exactly "low", "medium" and "high" parse |
| Text.Trim | backend/src/models/User.ts:20 | the result has no whitespace at either end, is the infix of the input that starts after its leading whitespace, and only whitespace follows it |
| Text.LeadingWsAreWhitespace | backend/src/models/User.ts:20 | what trimming drops at the front is whitespace; with `Text.Trim` it is exactly the leading whitespace |
| Text.TrimOfTrimmed | backend/src/models/User.ts:29 | a string without surrounding whitespace is its own trim |
| Text.TrimIdempotent | backend/src/models/User.ts:20 | trimming twice equals trimming once |
| Text.Lower | backend/src/models/User.ts:28 | same length, and every character is its lowercase form |
| Text.LowerTrimCommute | backend/src/models/User.ts:28-29 | lowercasing and trimming commute |
| Text.LowerCaseIsFixed | backend/src/models/User.ts:28 | a string has no upper-case letter exactly when lowercasing leaves it unchanged |
| Text.HexEncode | backend/src/models/Interview.ts:89 | two lowercase hexadecimal digits per byte |
| Text.HexRoundTrip | backend/src/models/Interview.ts:89 | decoding the hex text gives back the bytes |
| Text.HexDecode | backend/src/models/Interview.ts:89 | a decoded text had two digits per byte |
| Text.CastObjectId | backend/src/routes/interview.ts:186 | the cast succeeds exactly for 24 hex digits and yields their lowercase text |
| Text.CastCanonical | backend/src/routes/interview.ts:318 | the text of an ObjectId casts to itself |
| Json.SpreadWith | backend/src/socket/index.ts:117-120 | `{...data, fromUserId}` keeps every other field and sets `fromUserId`, overriding a client value |
| Sorting.CollectDesc | backend/src/routes/interview.ts:90-95 | the result holds each matching document exactly once, and nothing else, in non-increasing order of the sort field |
| UserModel.ProfileIgnoresHash | backend/src/routes/auth.ts:56-62 | the public profile of a user does not depend on the stored hash |
| UserModel.LowerPreservesPattern | backend/src/models/User.ts:28-31 | an address matches the pattern exactly when its lowercase form does |
| UserModel.PatternIsTrimmed | backend/src/models/User.ts:29-31 | a matching address has no surrounding whitespace |
| UserModel.PatternAccepts | backend/src/models/User.ts:31 | a dotted local part and a three-letter last label, "jo.an@mail.com", match |
| UserModel.PatternRefuses | backend/src/models/User.ts:31 | "jo@example.info" does not match, its last label having four letters |
| UserModel.NormalizeEmail | backend/src/models/User.ts:28-29 | the normalised address has no surrounding whitespace and is no longer than the input |
| UserModel.NormalizeEmailIdempotent | backend/src/models/User.ts:28-29 | normalising twice equals normalising once |
| UserModel.NormalizedIsLower | backend/src/models/User.ts:28-29 | a normalised address has no upper-case letter |
| UserModel.StoredEmailIsNormal | backend/src/models/User.ts:24-33 | a valid lowercase stored address is its own normal form |
| UserModel.UserDocument.constructor | backend/src/models/User.ts:15-50 | a new document has the trimmed name, the normalised address, the plain password, both timestamps `now`, and the password marked as modified |
| UserModel.UserDocument.Load | backend/src/models/User.ts:64 | a loaded document has nothing marked as modified |
| UserModel.UserDocument.PreSave | backend/src/models/User.ts:63-73 | the hash replaces the password only when the password was modified; otherwise the record is unchanged |
| UserModel.UserDocument.MarkSaved | backend/src/models/User.ts:64 | saving clears the modified mark and leaves the record alone |
| UserModel.ResaveKeepsHash | backend/src/models/User.ts:63-66 | a stored user loaded and saved again keeps its stored hash and every other field |
| UserModel.NewUserPasswordVerifies | backend/src/models/User.ts:63-80 | with a sound bcrypt, the password of a new user verifies against the stored hash, even after a second save |
| UserModel.ToJSON | backend/src/models/User.ts:53-58 | `passwordHash` is removed and every other field is kept unchanged |
| UserModel.SerialisedUserHidesHash | backend/src/models/User.ts:51-58 | a serialised user has exactly the six schema fields other than the hash plus the version key `__v`, and is the same whatever its hash |
| InterviewModel.GeneratedToken | backend/src/models/Interview.ts:89 | the token is 64 lowercase hex digits that decode to the 32 random bytes |
| InterviewModel.WithInviteToken | backend/src/models/Interview.ts:87-92 | the record then has a non-empty token; an existing token is kept, and a missing or empty one is replaced by the generated one |
| InterviewModel.InviteTokenIdempotent | backend/src/models/Interview.ts:87-92 | running the hook again with any other bytes changes nothing |
| InterviewModel.InterviewDocument.constructor | backend/src/models/Interview.ts:22-84 | the document holds the given record |
| InterviewModel.InterviewDocument.PreValidate | backend/src/models/Interview.ts:87-92 | the document afterwards is the record with its invite token ensured |
| LogModel.CreateLog | backend/src/models/Log.ts:21-64 | a log is created exactly when its type is known, its details are present, non-empty and at most 500 long, and its severity (default "medium") is known; it then is valid, unresolved, stamped `now`, and carries the given interview, type, details and severity |
| LogModel.SeverityDefaultsToMedium | backend/src/models/Log.ts:50-55 | an undefined severity is stored as medium |
| Validation.RegisterError | backend/src/middleware/validation.ts:24-41 | no error exactly when the name has 2 to 50 characters, the e-mail is present and valid, the password has at least 6 characters, and a given role is known |
| Validation.LoginError | backend/src/middleware/validation.ts:43-51 | no error exactly when the e-mail is valid and the password present and non-empty, with no length rule |
| Validation.ScheduleError | backend/src/middleware/validation.ts:53-68 | no error exactly when the title has 1 to 100 characters, the time is strictly after `now`, and the duration is from 15 to 180 |
| Validation.DecisionError | backend/src/middleware/validation.ts:70-78 | no error exactly when the result is "pass" or "fail" and any notes have 1 to 1000 characters |
| Store.InsertUser | backend/src/models/User.ts:24-33 | adding a valid user under an unused lowercase address and a fresh id keeps the collection valid |
| Store.StoredAddressesAreNormal | backend/src/routes/auth.ts:29-36 | every stored address is its own normal form, so looking up the normalised request address finds the user the query setters would find |
| Store.SaveInterview | backend/src/models/Interview.ts:75-79 | saving a valid interview whose token no other record holds keeps the collection valid |
| Store.Database.constructor | backend/src/models/User.ts:82 | the empty store is valid |
| Store.Database.AddUser | backend/src/routes/auth.ts:47 | the user is stored under its address, nothing else changes, and the store stays valid |
| Store.Database.PutInterview | backend/src/routes/interview.ts:387 | the interview is stored under its id, nothing else changes, and the store stays valid |
| Store.Database.AddLog | backend/src/socket/index.ts:150 | the log is stored under its fresh id, nothing else changes, and the store stays valid |
| Store.Database.PushLog | backend/src/socket/index.ts:153-155 | the log id is appended to the interview's `logs` and `updatedAt` is set; a missing interview stays missing |
| Store.Database.FindUserById | backend/src/socket/index.ts:41 | a user is found exactly when some stored user has the id, and it is that user |
| Store.Database.FindInterviewByToken | backend/src/routes/interview.ts:132 | found exactly when some interview holds the token, and then it is the only such interview |
| AuthRoutes.ExpiresIn | backend/src/routes/auth.ts:14 | `JWT_EXPIRES_IN \|\| "24h"`: an unset or empty variable gives "24h", any other value is used as it is |
| AuthRoutes.TokenEncodesUser | backend/src/routes/auth.ts:12-16 | with a sound jsonwebtoken, an issued token verifies to the id it was issued for |
| AuthRoutes.UserJson | backend/src/routes/auth.ts:56-62 | the response user has exactly the fields id, name, email, role and createdAt |
| AuthRoutes.ResponseHidesHash | backend/src/routes/auth.ts:55-63 | the response user has no `passwordHash` and does not depend on it |
| AuthRoutes.RegisterRole | backend/src/routes/auth.ts:44 | `role \|\| "candidate"`: an undefined or empty role gives candidate; any other value must name a role, and then gives that role |
| AuthRoutes.AcceptedBodyHasRole | backend/src/routes/auth.ts:44 | a body the validator accepts always yields a role, and no role gives candidate |
| AuthRoutes.NewUser | backend/src/routes/auth.ts:40-45 | the new document has the fresh id, the trimmed name, the normalised address, the defaulted role and the plain password |
| AuthRoutes.PaddedNameFailsOnSave | backend/src/routes/auth.ts:40-47 | a name " a " passes the validator but fails the schema's length rule once trimmed |
| AuthRoutes.Register | backend/src/routes/auth.ts:21-74 | a body the validator rejects gives 400 "Validation error" with the first rule it breaks, before any lookup; a known address gives 400 "User already exists with this email"; an invalid document gives the 500 reply; in all three the store is unchanged. Otherwise exactly the new user, with the hashed password, is added, and the reply is 201 with its profile and a token for its id |
| AuthRoutes.Login | backend/src/routes/auth.ts:79-131 | an unknown address and a wrong password both give 401 "Invalid credentials"; a right one gives 200 with the profile and a token for that user; the store is never written |
| AuthRoutes.RegisterThenLogin | backend/src/routes/auth.ts:21-131 | with a sound bcrypt, a user who registered under any accepted role (or none) logs in with the same password and gets the same profile, with that role, and a token for the registered id |
| AuthRoutes.Me | backend/src/routes/auth.ts:136-157 | the reply is 200 without a token, and its user object carries exactly the stored user's id, name, email, role and createdAt, never the hash |
| InterviewRoutes.IdCheckIsHex24 | backend/src/routes/interview.ts:178 | the id check passes exactly for 24 hex digits; the tests for "" and "undefined" are subsumed |
| InterviewRoutes.Guard | backend/src/routes/interview.ts:178-216 | a bad id gives 400 "Invalid interview ID", a missing record 404 "Interview not found", a user who is neither admin, bound candidate nor interviewer 403 "Access denied"; only the rest pass |
| InterviewRoutes.ScheduledInterview | backend/src/routes/interview.ts:29-37 | the session is scheduled, has no candidate, start or completion time, result, notes or logs, is run by the requester with the requested title, time and duration, carries the generated token, and is valid |
| InterviewRoutes.Schedule | backend/src/routes/interview.ts:19-68 | a candidate is refused; a body the validator rejects gives 400 "Validation error" with the first rule it breaks; a token collision gives 500; otherwise exactly the new session is stored and returned with 201; the store stays valid |
| InterviewRoutes.BuildQuery | backend/src/routes/interview.ts:78-88 | a candidate gets a `candidateId` filter and an interviewer an `interviewerId` filter, an admin neither; status only when truthy; the filter matches exactly the records in the user's scope |
| InterviewRoutes.PageCount | backend/src/routes/interview.ts:111 | the page count is the least `p` with `p * limit >= total` |
| InterviewRoutes.CeilingDivision | backend/src/routes/interview.ts:111 | `(total + limit - 1) / limit` is the ceiling of `total / limit` |
| InterviewRoutes.Window | backend/src/routes/interview.ts:94-95 | the page holds the entries from position `skip`, at most `limit` of them |
| InterviewRoutes.List | backend/src/routes/interview.ts:73-123 | the page is the window of at most `limit` entries starting at position `(page - 1) * limit` of all in-scope interviews, each once, newest scheduled time first; every entry is a stored in-scope interview; total is their number and pages its ceiling over the limit |
| InterviewRoutes.ByToken | backend/src/routes/interview.ts:128-168 | 200 with the interview holding the token, if any; otherwise 404 "Interview not found" |
| InterviewRoutes.GetInterview | backend/src/routes/interview.ts:173-242 | 200 with the record exactly when the guard passes, otherwise the guard's reply |
| InterviewRoutes.Logs | backend/src/routes/interview.ts:276-333 | past the guard, exactly the logs of that interview, each once, newest first |
| InterviewRoutes.AdvancesIsForward | backend/src/routes/interview.ts:377-387 | a status move never reaches cancelled or scheduled and cannot be undone |
| InterviewRoutes.Started | backend/src/routes/interview.ts:385-387 | the record is ongoing with `startedAt` set, and no other field but `updatedAt` changes |
| InterviewRoutes.Start | backend/src/routes/interview.ts:338-401 | a failed guard or a status other than scheduled leaves the store unchanged with its reply; otherwise exactly that record becomes ongoing and it is returned; statuses only advance |
| InterviewRoutes.Decided | backend/src/routes/interview.ts:456-461 | the saved record is completed, with `completedAt`, the result named in the body and the body's notes |
| InterviewRoutes.Attempt | backend/src/routes/interview.ts:427-446 | the first reply goes out; after a second attempt only the catch block's 500 is attempted |
| InterviewRoutes.DecisionAsWritten | backend/src/routes/interview.ts:406-477 | a record is saved exactly when an interviewer or admin sends a valid body for an existing ongoing interview, ownership aside |
| InterviewRoutes.DecisionFirstReply | backend/src/routes/interview.ts:406-432 | a user who may not decide gets only the `authorize` rejection; a body the validator rejects gets only the 400 "Validation error" reply with the first rule it breaks; a bad id gets only 400 "Invalid interview ID"; a missing interview is answered first with 404 "Interview not found" |
| InterviewRoutes.NonOwnerCompletesInterview | backend/src/routes/interview.ts:435-462 | an interviewer who does not run an ongoing interview is answered 403 and the interview is completed all the same |
| InterviewRoutes.DecisionCorrectedIsOwned | backend/src/routes/interview.ts:425-462 | with the returns in place, one reply is sent and only an ongoing interview the requester runs (or any, for an admin) is completed |
| InterviewRoutes.Decision | backend/src/routes/interview.ts:406-477 | the replies attempted and the record saved are exactly those of the handler as written (`InterviewRoutes.DecisionAsWritten`); no other record and no other collection changes, statuses only advance, and the store stays valid |
| InterviewRoutes.SaveDecision | backend/src/routes/interview.ts:456-462 | the loaded interview is saved completed, with the result, notes and completion time of the decision, and nothing else in the store changes |
| Socket.LeaveAll | backend/src/socket/index.ts:180 | the connection is in no room afterwards, other memberships are kept, and emptied rooms are gone |
| Socket.RoomKey | backend/src/socket/index.ts:144 | a room name of 24 hex digits is the lowercase text of an ObjectId |
| Socket.Coordinator.constructor | backend/src/socket/index.ts:21-27 | no connections, no rooms, no events, and a valid state |
| Socket.Coordinator.Send | backend/src/socket/index.ts:96 | exactly the one connection receives the event |
| Socket.Coordinator.Broadcast | backend/src/socket/index.ts:90-94 | every target receives the event exactly once and no other connection receives anything |
| Socket.Coordinator.Enter | backend/src/socket/index.ts:86-87 | the connection becomes a member of the room and records it as its interview; nothing is sent |
| Socket.Coordinator.Connect | backend/src/socket/index.ts:30-52 | a missing token, a bad token, and a user who does not exist each give their own message and create no connection; otherwise the stored user, without its hash, is attached |
| Socket.Coordinator.Join | backend/src/socket/index.ts:60-104 | a bad id, a missing interview or a refused user leaves rooms and connections unchanged and sends the one error to the joiner; admission is exactly admin, bound candidate or interviewer, and then the joiner enters the room, the other members get `user-joined`, and the joiner gets only `joined-interview` |
| Socket.Coordinator.Signal | backend/src/socket/index.ts:107-127 | outside a room the sender alone gets "Not in an interview room"; inside, every other member gets the payload with the sender's `fromUserId` |
| Socket.Coordinator.Proctoring | backend/src/socket/index.ts:130-177 | no room, another role, an invalid event or a failed save does nothing; otherwise one log under the room's interview with the defaulted severity is stored, its id is appended, and only the other members get the alert; a failed append stops before the alert |
| Socket.Coordinator.Disconnect | backend/src/socket/index.ts:180-189 | the connection leaves every room and the registry; a joined connection's room-mates each get one `user-left`, and a connection that never joined sends nothing |

## Left out

- Transport: socket.io transport, CORS, HTTP status plumbing and console logging.
- Libraries: jsonwebtoken, bcrypt and `crypto.randomBytes` are abstract parameters.
- Lookups and validation: Mongoose `populate` is not modelled, and neither are Joi's e-mail rule,
  type conversions and unknown-key rejection.
- Concurrency: each handler is one atomic step, so the interleavings of the awaits inside a
  handler are not modelled. Neither is the race between the existence check and the insert in
  `/register`.
- Clocks: dates are integer timestamps, token expiry is not modelled, and `now` is a parameter.
- Middleware: the `authenticate` and `authorize` middleware (backend/src/middleware/auth.ts) are
  not part of this model. The handlers receive the loaded user, and an `authorize` rejection is
  the opaque reply `Forbidden`.
- Shadowed route: the second `GET /token/:token` handler is shadowed by the first registration
  on that path and never runs.
- Socket.Coordinator.Connect: a token whose payload has no `userId`, and a 12-character `userId`,
  which Mongoose would also accept as an ObjectId, are not modelled.
- Socket.Coordinator.Join: database failures other than the ObjectId cast error are not modelled.
- Socket.Coordinator.Signal: the "Failed to send WebRTC signal" reply is not modelled, because
  nothing in the modelled handler can throw.
- Socket.Coordinator.Proctoring: it requires a fresh log id, and failures are limited to the two
  database calls.
- InterviewRoutes.GetInterview: the "Error checking access" reply is not modelled, because its
  access expression cannot throw on the modelled records.
- InterviewRoutes.List: it requires `page` and `limit` to be integers of at least 1. The code's
  results for zero, negative, fractional or non-numeric query values come from MongoDB's `skip`
  and `limit` and JavaScript's `Number`.
- InterviewRoutes.List: the order of interviews with equal scheduled times is left open, as
  MongoDB leaves it.
- InterviewRoutes.Schedule: it requires the requester's id to be an ObjectId and the new id to be
  unused.
- Validation.RegisterError: the lengths of the name and the password are counted in characters, not in UTF-16 code units as Joi counts them.
- Validation.ScheduleError: the title length is counted in characters, not UTF-16 code units. The duration is an integer here, though Joi `number()` and the Mongoose `Number` path also accept fractional values such as 30.5.
- Validation.DecisionError: the notes length is counted in characters, not UTF-16 code units.
- UserModel.ValidUser: the name length limits of the schema are counted in characters, not UTF-16 code units.
- LogModel.CreateLog: the 500-character limit on details is counted in characters, not UTF-16 code units.
- InterviewModel.ValidInterview: the duration is an integer here, though the Mongoose `Number` path accepts fractional minutes.
- Text.Lower: only ASCII letters are lowercased, unlike JavaScript's `toLowerCase`. So UserModel.LowerPreservesPattern holds of the model only: in the source the Kelvin sign U+212A lowercases to "k", so "\u212A@mail.com" becomes "k@mail.com", matches the pattern and registers, while the model refuses it on save.

## Findings

| source | as written | input that shows it | evidently intended | confidence | as-written member | corrected member |
|---|---|---|---|---|---|---|
| backend/src/routes/interview.ts:427-462 | after the 404 and 403 replies the decision handler does not return, so it goes on to the status check and saves the decision; its final reply then throws, the catch block's 500 reply throws again, and the handler's promise is rejected with nothing to catch it | an interviewer posts a valid decision for an ongoing interview that another interviewer runs: the reply is 403 "Access denied", yet the interview is saved as completed with that result | return after each of those replies, so only the interview's own interviewer or an admin completes it | not executed | InterviewRoutes.NonOwnerCompletesInterview | InterviewRoutes.DecisionCorrectedIsOwned |
