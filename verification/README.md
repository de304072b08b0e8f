# NutriSync core in Dafny

This project models the core of NutriSync as pure Dafny functions over
immutable data. NutriSync is a diet-tracking web application with three parts:

- an Express API backed by MongoDB, with users in three roles (patient,
  doctor and admin), JWT sessions, and food logs;
- a FastAPI service that turns a food photo into macronutrients using a
  vision model;
- a React single-page app that keeps the session and routes each role to
  its pages.

Each collection is a sequence in MongoDB's natural order. Each handler is a
function from the store and the request to an HTTP reply and the new store
(`Store.Outcome`). Anything the code gets from outside comes in as a
parameter:

- the clock and new object ids;
- how a JWT text decodes and how a token is encoded;
- `new Date(...)`, `json.loads`, Python's `float` and regular-expression
  tests;
- the vision-model call and the proxy's HTTP result;
- the random pick of a mock food;
- what `GET /me` answers.

Module layout, following the program:

| module | models |
|---|---|
| `Common`, `Strings`, `Json` | options and replies, the role enum, ObjectId shape, JS `trim`/`toLowerCase`/`startsWith`/`indexOf`, JSON values and truthiness |
| `UserModel`, `FoodLogModel`, `Store` | the two Mongoose schemas (setters, validation, defaults, the password hook) and the users/logs collections |
| `Tokens` | `signToken` and `jwt.verify` (seven-day expiry) |
| `AuthMiddleware` | `authenticate` and `authorize` |
| `Paging`, `Sorting`, `Listing`, `LogQuery` | `skip`/`limit` pagination, descending sorts, date windows and `$group` totals |
| `AuthRoutes`, `FoodRoutes`, `AdminRoutes`, `DoctorRoutes` | the four Express routers |
| `Reminders` | the reminder collection, the one-second polling loop and the reminder routes of `index.js` |
| `ImageUpload` | the multer upload and the analyze-image proxy of `index.js` |
| `AiService` | the Python `/analyze` endpoint |
| `AuthContext`, `AppRoutes` | the React session context and the role routing of `App.js` |

Where the code departs from its evident intent, the model follows the
code:

- `index.js` never mounts `routes/*.js`. The routers are modelled as they
  would behave once mounted.
- Assigning a patient is not kept bidirectional. Re-assigning leaves the
  patient in the old doctor's list (`AdminRoutes.ReassignBreaksBidirectional`).
  Deleting a user leaves its id in doctors' lists
  (`AdminRoutes.DeleteLeavesDanglingReference`).
- The reminder loop sends the message even when the `isReminded` update
  fails. In that case the message is sent again on the next tick
  (`Reminders.FailedUpdateSendsTwice`). At-most-once immediate delivery
  holds only when updates succeed (`Reminders.AtMostOnce`).
- With the routes spread out (`AppRoutes.Routed`), an administrator's
  interface shows the doctor dashboard, but the doctor API accepts only
  doctors (`AppRoutes.AdminDoctorPageRefused`). As written, an admin at
  `/doctor` sees a blank page (see Findings).
- Ids in requests are cast by Mongoose, so the hexadecimal digits may be
  upper or lower case, and stored ids print in lower case
  (`Common.CastId`). Two checks compare the request's text instead of
  casting it. The doctor router's assignment check (`DoctorRoutes.Gate`)
  refuses an upper-case spelling of an assigned patient's id
  (`DoctorRoutes.GateComparesText`). The admin router's self-deletion
  guard lets an upper-case spelling of the admin's own id through (see
  Findings).

## Model

| member | source | states |
|---|---|---|
| `Common.ParseRole` | models/User.js:15-19 | a string is accepted exactly when it is the name of one of the three roles, and it maps back to that role |
| `Common.FirstWhere` | routes/food.js:72-77 | the first position whose document satisfies the filter, with no earlier match; none exactly when no document matches |
| `Common.Filter` | routes/admin.js:14-28 | a filtered find keeps only matching stored documents and loses none of them |
| `Common.FilterMember` | routes/admin.js:14-28 | a document is in a filtered find iff it is stored and matches |
| `Common.FilterAppend` | routes/food.js:51-60 | filtering distributes over an appended document |
| `Common.RemoveAt` | routes/admin.js:78-79 | removing one document shifts the later ones down and keeps the others in order |
| `Common.CastId` | middleware/auth.js:19 | a string casts iff it is an ObjectId; the cast id is canonical (24 lower-case hex digits) and reads each digit case-insensitively |
| `Common.CastCanonical` | middleware/auth.js:19 | a stored id's own text casts to itself |
| `Strings.Trim` | models/User.js:6-13 | the trim setter yields the part of the input between the leading and trailing white space, with no white space at either end; empty iff the input is all white space |
| `Strings.TrimIdempotent` | models/User.js:6-13 | trimming twice equals trimming once |
| `Strings.Lower` | models/User.js:7-13 | the lowercase setter (ASCII letters only) keeps the length, leaves no upper-case ASCII letter and keeps every other character |
| `Strings.TrimLowerCommute` | models/User.js:7-13 | trimming and lower-casing commute, so the order of the two setters does not matter |
| `Strings.ContainsIff` | index.js:43-48 | an unanchored literal match holds iff the word occurs at some position |
| `Strings.Utf16Length` | models/User.js:14 | a string's length in UTF-16 code units lies between its character count and twice that |
| `Strings.Utf16OfBmp` | models/User.js:14 | a string without supplementary characters has one code unit per character |
| `Strings.Utf16Append` | models/User.js:14 | code-unit lengths add over concatenation |
| `Strings.FirstIndex` | ai-service/main.py:90-105 | the first occurrence of a character; none iff the character is absent |
| `Strings.LastIndex` | ai-service/main.py:90-105 | the last occurrence of a character; none iff the character is absent |
| `UserModel.ComparePassword` | models/User.js:38-40 | a candidate is accepted iff it hashes to the stored digest |
| `UserModel.CompareHashed` | models/User.js:31-40 | a digest made by the pre-save hook accepts exactly the password it was made from |
| `UserModel.NormalizeEmail` | models/User.js:7-13 | a stored email is the trimmed, lower-cased input and is itself trimmed and lower-case |
| `UserModel.NormalizeEmailIdempotent` | models/User.js:7-13 | normalising a stored email leaves it unchanged |
| `UserModel.CreateDocument` | models/User.js:5-35 | creation succeeds iff the name and email stay non-empty after the setters and the password has at least 6 UTF-16 code units; the document is well formed with a canonical id, has the hashed password and takes the defaults |
| `UserModel.PreSave` | models/User.js:31-35 | the hook re-hashes only a modified password and touches no other field |
| `UserModel.WithoutPassword` | models/User.js:43-47 | the projection drops the password and keeps every other field |
| `FoodLogModel.ParseMealType` | models/FoodLog.js:15 | a meal type is accepted exactly when it names one of the four enum values |
| `FoodLogModel.CreateDocument` | models/FoodLog.js:3-19 | creation succeeds iff the food is non-empty and the meal type is in the enum; the log holds the given fields and the schema defaults |
| `Store.FindUser` | middleware/auth.js:19 | `findById` of an already cast id finds the first document with that id, or none when no document has it |
| `Store.FindByEmail` | routes/auth.js:19-22 | `findOne({ email })` compares against the normalised email |
| `Store.FindAppended` | routes/auth.js:24 | a document inserted under a new id is the one later found by that id |
| `Store.FindUserUnique` | middleware/auth.js:19 | with unique ids the lookup finds position k iff k holds the id |
| `Store.ReplaceKeepsValid` | routes/admin.js:55-61 | replacing a document by one with the same id and email keeps ids and emails unique and documents well formed |
| `Store.AppendKeepsValid` | routes/auth.js:19-24 | inserting a well-formed document with a new id and a new email keeps the collection valid |
| `Tokens.SignToken` | middleware/auth.js:56-62 | a signed token carries the id and role, is correctly signed, and expires seven days after its issue second |
| `Tokens.Verify` | middleware/auth.js:18 | a bad signature or non-token is invalid; a signed token is expired iff its exp second has been reached; a signed, unexpired token yields exactly its id and role |
| `Tokens.SignThenVerify` | middleware/auth.js:18-62 | a fresh token verifies to its own claims until seven days after signing and is expired, never invalid, afterwards |
| `Tokens.ValidForSevenDays` | middleware/auth.js:18-62 | a token is valid at every instant from signing up to one second before the seventh anniversary |
| `Tokens.TamperedIsInvalid` | middleware/auth.js:27-32 | a signature mismatch is invalid whatever the clock says |
| `AuthMiddleware.FirstField` | middleware/auth.js:17 | the text up to the first space is a space-free prefix |
| `AuthMiddleware.ExtractToken` | middleware/auth.js:12-17 | a token is extracted iff the header starts with "Bearer "; it is the space-free field after the prefix |
| `AuthMiddleware.FirstFieldOfSpaceless` | middleware/auth.js:17 | a text without spaces is its own first field |
| `AuthMiddleware.BearerRoundTrip` | middleware/auth.js:12-17 | the header "Bearer " + t yields t back for a token without spaces |
| `AuthMiddleware.Authenticate` | middleware/auth.js:10-33 | every refusal is 401: no bearer header gives "No token provided", an expired token "Token expired", a bad token or a claimed id that does not cast "Invalid token", a cast id with no stored user "User not found"; it passes iff the token is valid, its id casts and a stored user has the cast id, and passes that user without its password |
| `AuthMiddleware.Authorize` | middleware/auth.js:39-51 | no user gives 401; a user passes iff their role is required, and otherwise gets 403 naming the required roles |
| `AuthMiddleware.Guard` | middleware/auth.js:10-51 | an authentication refusal is passed through; the chain passes iff authentication passes and the stored role is allowed; refusals are 401 or 403 |
| `AuthMiddleware.StoredRoleDecides` | middleware/auth.js:19-46 | authorisation judges the role now stored, not the role claimed in the token |
| `AuthMiddleware.DeletedUserRejected` | middleware/auth.js:19-23 | a valid token of a deleted user gets "User not found" |
| `AuthMiddleware.NoBearerNoEntry` | middleware/auth.js:12-15 | a missing header or one without the exact "Bearer " prefix never reaches a handler |
| `AuthRoutes.RegistrationRole` | routes/auth.js:15-17 | registration never grants admin; it grants doctor iff "doctor" was requested |
| `AuthRoutes.Register` | routes/auth.js:7-40 | a missing field gives 400; a taken email gives 409; success appends the new user and returns a token for its id and role; every failure leaves the store unchanged |
| `AuthRoutes.Login` | routes/auth.js:43-80 | a missing field gives 400; an unknown email and a wrong password both give the same 401 "Invalid credentials"; success (200) iff the email is stored and the password matches; of the modelled fields success changes only lastLogin, and it returns a token for that user; every failure leaves the store unchanged |
| `AuthRoutes.Me` | routes/auth.js:84-95 | answers the authenticated user's profile iff authentication passes, and the authentication error otherwise |
| `AuthRoutes.RegisterKeepsValid` | routes/auth.js:7-40 | registration keeps ids and emails unique and documents well formed |
| `AuthRoutes.WrongPasswordKeepsStore` | routes/auth.js:51-63 | a wrong password fails and leaves the store, lastLogin included, unchanged |
| `AuthRoutes.SessionOpensMe` | routes/auth.js:84-95 | a token signed for a stored user opens /me on that user during its lifetime |
| `AuthRoutes.RegisterThenMe` | routes/auth.js:24-35 | the token from a successful registration opens /me on the new id with the granted role |
| `AuthRoutes.LoginKeepsValid` | routes/auth.js:61-63 | a login keeps the users collection valid |
| `AuthRoutes.LoginThenMe` | routes/auth.js:61-75 | the token from a successful login opens /me on the account that logged in, with the normalised email |
| `Paging.CeilDiv` | routes/admin.js:38 | the page count is the least count of pages that holds every document |
| `Paging.CeilDivZero` | routes/admin.js:38 | the page count is zero iff there are no documents |
| `Paging.Window` | routes/food.js:33-34 | skip then limit yields a contiguous run of the input; limit 0 means no limit; a negative limit counts by its absolute value |
| `Paging.Paginate` | routes/food.js:22-36 | a page is refused iff its skip is negative; its items are the documents from the skip on, at most limit of them; total counts every document |
| `Paging.PageLocates` | routes/food.js:22-36 | the document at position i is item i mod limit of page i / limit + 1, within the advertised page count |
| `Paging.PageItemsFrom` | routes/food.js:22-36 | every item on a page is a listed document |
| `Paging.PageOf` | routes/food.js:22-36 | every document is on some page within the page count |
| `Sorting.Insert` | routes/food.js:24 | insertion into a sorted sequence keeps it sorted and adds exactly one element |
| `Sorting.SortDesc` | routes/food.js:24 | the sort is newest first and is a permutation of its input |
| `Sorting.SortKeepsMembers` | routes/food.js:24 | sorting keeps exactly the same documents |
| `Sorting.WindowSorted` | routes/food.js:24-26 | a page cut from a sorted listing is sorted |
| `Listing.ListingSound` | routes/admin.js:24-38 | a listing page echoes page and limit, totals all matches, has ceil(total/limit) pages, holds at most limit items, and item i is the match at position (page-1)*limit+i of the newest-first order |
| `Listing.ListingComplete` | routes/doctor.js:47-50 | every stored matching document is on some page within the page count |
| `LogQuery.ParseWindow` | routes/food.js:12-20 | a window exists iff every non-empty bound parses as a date; a bound is present iff its parameter is non-empty, and it is the parsed date |
| `LogQuery.OpenWindow` | routes/food.js:12-20 | without from and to every log is in the window |
| `LogQuery.Sum` | routes/food.js:95-107 | the totals count every matched log, and are zero for none |
| `LogQuery.SumAppend` | routes/food.js:95-121 | the totals of two runs of logs add up |
| `FoodRoutes.ListLogs` | routes/food.js:10-42 | fails only with 500 on a bad date or negative skip; otherwise the page at offset (page-1)*limit of the caller's own logs in the window and of the meal type, newest first, with their total, ceil(total/limit) pages and at most limit items |
| `FoodRoutes.OwnLogsListed` | routes/food.js:10-42 | every log of the caller in the window is on some page of the listing |
| `FoodRoutes.MealChoice` | routes/food.js:58 | an empty meal type becomes "snack"; any other is kept |
| `FoodRoutes.CreateLog` | routes/food.js:45-67 | no food gives 400; a meal type outside the enum gives 500; success appends a manual log of the caller with the requested meal type ("snack" when empty), the macros or 0 and the current time |
| `FoodRoutes.FindOwnedLog` | routes/food.js:72-77 | the first log with the given (already cast) id owned by the caller; none when no such log exists |
| `FoodRoutes.DeleteLog` | routes/food.js:70-84 | a malformed id gives 500; success iff a log whose id is the cast id belongs to the caller, and then exactly the first such log is removed; otherwise 404 and the store is unchanged |
| `FoodRoutes.OthersLogUntouched` | routes/food.js:70-84 | another user's log cannot be deleted: 404, and the store is unchanged |
| `FoodRoutes.TodaySummary` | routes/food.js:95-107 | today's figures count the caller's logs since the start of the day, and are zero without any |
| `FoodRoutes.CreateAddsToToday` | routes/food.js:45-107 | a meal logged today adds exactly one meal and its own macros to today's figures |
| `FoodRoutes.Handle` | routes/food.js:7 | an unauthenticated request gets 401 and changes nothing; only a successful create or delete by an authenticated user changes the store |
| `AdminRoutes.Project` | routes/admin.js:24-28 | each listed user appears in the same position without a password and with every other field kept |
| `AdminRoutes.ListUsers` | routes/admin.js:12-45 | echoes page and limit, totals all users matching the role and search filters, has ceil(total/limit) pages and at most limit items, and item i is the password-free match at offset (page-1)*limit+i of the newest-first order |
| `AdminRoutes.ProjectKeeps` | routes/admin.js:24-28 | every listed user appears, without its password, in the projected collection |
| `AdminRoutes.UserListed` | routes/admin.js:12-45 | every stored user matching the filters appears, without its password, on some page within the page count |
| `AdminRoutes.ChangeRole` | routes/admin.js:48-68 | a role outside the enum gives 400 and no change; a malformed id gives 500; an id that casts to no stored user gives 404; otherwise only the user with the cast id changes, to the requested role |
| `AdminRoutes.ChangeRoleKeepsValid` | routes/admin.js:55-61 | a role change keeps the users collection valid |
| `AdminRoutes.RoleChangeTakesEffect` | routes/admin.js:55-61 | after a role change an old token is judged by the new role |
| `AdminRoutes.Purge` | routes/admin.js:78-82 | removes the user at the position and exactly the food logs it owns |
| `AdminRoutes.DeleteById` | routes/admin.js:78-84 | a malformed id gives 500, an id that casts to no stored user 404; otherwise that user is removed with exactly its food logs |
| `AdminRoutes.DeleteUserAsWritten` | routes/admin.js:71-89 | as written: only the caller's id in the very same text is refused; any other text goes to the cast-and-delete |
| `AdminRoutes.SelfDeletionBypass` | routes/admin.js:74-82 | as written, the caller's own id in another spelling deletes the caller, answering 200 |
| `AdminRoutes.SelfDeletionExample` | routes/admin.js:74-82 | an admin with id "aaaa…a" deletes its own account by sending "AAAA…A" |
| `AdminRoutes.DeleteUser` | routes/admin.js:71-89 | corrected: the caller's id in any spelling gives 400 and no change; a malformed id gives 500, an id that casts to no stored user 404; otherwise the user is removed with exactly its food logs |
| `AdminRoutes.RemovedIsGone` | routes/admin.js:78 | with unique ids the removed user's id can no longer be found |
| `AdminRoutes.NoSelfDeletion` | routes/admin.js:74-76 | the corrected guard keeps the caller's own record whatever spelling of its id is sent |
| `AdminRoutes.DeletedIsGone` | routes/admin.js:78-82 | with unique ids a deleted user can no longer be found |
| `AdminRoutes.DeleteLeavesDanglingReference` | routes/admin.js:78-82 | a doctor who listed a deleted patient keeps the id in `assignedPatients` |
| `AdminRoutes.Lookup` | routes/admin.js:96-97 | an absent id finds nothing; a malformed one fails the cast; otherwise it is the lookup of the cast id |
| `AdminRoutes.WithPatient` | routes/admin.js:106-110 | the patient is in the doctor's list afterwards, appended only if absent |
| `AdminRoutes.AssignPatient` | routes/admin.js:92-121 | a malformed id gives 500; otherwise an unknown id or a non-doctor on the doctor side gives 400 "Invalid doctor", checked first, then the same on the patient side gives 400 "Invalid patient"; success iff the cast ids name a stored doctor and a stored patient; then only those two documents change, the doctor's list gains the cast patient id and the patient names the cast doctor id |
| `AdminRoutes.AssignIdempotent` | routes/admin.js:106-114 | repeating an assignment changes nothing |
| `AdminRoutes.SameIdsSameLookup` | routes/admin.js:96-97 | lookups by id depend only on the ids |
| `AdminRoutes.AssignKeepsValid` | routes/admin.js:106-114 | an assignment keeps the users collection valid |
| `AdminRoutes.ReassignBreaksBidirectional` | routes/admin.js:106-114 | re-assigning to a second doctor leaves the patient in the first doctor's list |
| `AdminRoutes.Handle` | routes/admin.js:9 | a refused caller gets the middleware's answer; a non-admin gets 403 "admin"; only an admin can change the store; a delete runs the route as written (`AdminRoutes.DeleteUserAsWritten`) |
| `DoctorRoutes.Populate` | routes/doctor.js:11-25 | one card per assigned id that names a stored user, in order, each that user's card |
| `DoctorRoutes.Patients` | routes/doctor.js:11-25 | fails with 404 iff the caller is not stored; otherwise lists cards only of the caller's assigned patients |
| `DoctorRoutes.PopulateExact` | routes/doctor.js:11-25 | without dangling ids the list has exactly the assigned ids, in order |
| `DoctorRoutes.ContactOf` | routes/doctor.js:55 | the patient's contact exists iff the id is stored |
| `DoctorRoutes.Gate` | routes/doctor.js:33-36 | the request passes iff the stored caller lists the patient; otherwise 403 "This patient is not assigned to you" |
| `DoctorRoutes.GateComparesText` | routes/doctor.js:33-36 | the check compares text: with canonical stored ids a non-canonical spelling of a patient id is refused with 403 |
| `DoctorRoutes.PatientLogs` | routes/doctor.js:28-71 | gated; otherwise the page at offset (page-1)*limit of the cast patient's logs in the window, newest first, with total, ceil(total/limit) pages and at most limit items; 500 on a bad id, date or page |
| `DoctorRoutes.PatientLogListed` | routes/doctor.js:28-66 | every log of an assigned patient in the window is on some page within the page count |
| `DoctorRoutes.FiguresOf` | routes/doctor.js:84-113 | the meal count, the exact averages and the calorie total; all zero for no meals |
| `DoctorRoutes.PatientSummary` | routes/doctor.js:74-119 | gated; otherwise the 7-day figures of the cast patient's logs, all zero when there are none; a malformed id gives 500 |
| `DoctorRoutes.RecentLogCounted` | routes/doctor.js:84-99 | a log of the patient from the last seven days adds one meal and its calories to the summary |
| `DoctorRoutes.Handle` | routes/doctor.js:8 | a refused caller gets the middleware's answer; only a stored doctor gets data |
| `DoctorRoutes.AdminRefused` | routes/doctor.js:8 | an authenticated admin gets 403 "doctor" from every doctor route |
| `DoctorRoutes.UnassignedRefused` | routes/doctor.js:33-36 | a doctor asking about an unassigned patient gets 403 from both patient routes |
| `Reminders.Tick` | index.js:160-221 | each due reminder is flagged unless its update fails, and nothing else changes; a message is sent exactly for the due reminders |
| `Reminders.Count` | index.js:206-212 | the number of messages sent for a reminder, zero iff none names it |
| `Reminders.CountAppend` | index.js:206-212 | counts of successive ticks add up |
| `Reminders.TickCount` | index.js:166-212 | within one tick a reminder with a unique id is sent once if due and not at all otherwise |
| `Reminders.Step` | index.js:160-165 | a failed find changes nothing and sends nothing |
| `Reminders.Run` | index.js:160-221 | sequential ticks keep the number of reminders |
| `Reminders.TickMonotone` | index.js:166-170 | a tick never clears the flag and changes no other field |
| `Reminders.StepKeepsSentOnce` | index.js:166-212 | a tick without failed updates keeps "sent at most once, and flagged once sent" |
| `Reminders.AtMostOnce` | index.js:160-221 | over any number of ticks without failed updates, each reminder is sent immediately at most once |
| `Reminders.RunKeepsIds` | index.js:166-170 | ticks change only flags, so ids stay in place |
| `Reminders.FailedUpdateSendsTwice` | index.js:166-212 | any due reminder whose update fails in one tick is sent again in any later tick: two messages in all |
| `Reminders.AddReminder` | index.js:236-257 | the new reminder is appended unreminded and the others are kept |
| `Reminders.DeleteReminder` | index.js:258-269 | a malformed id or one that casts to no reminder removes nothing; otherwise exactly the first reminder with the cast id goes and every other stays in order |
| `Reminders.AddedReminderFiresOnce` | index.js:160-257 | a newly added reminder is sent at most once over any run of ticks without failed updates |
| `ImageUpload.StripTrailingSlashes` | index.js:45 | removes exactly the trailing slashes |
| `ImageUpload.Basename` | index.js:45 | the last path segment, with no slash |
| `ImageUpload.ExtName` | index.js:45 | empty, or a dot followed by text without a dot or slash |
| `ImageUpload.ExtNameOfName` | index.js:45 | "stem.ext" has the extension ".ext" |
| `ImageUpload.DotfileHasNoExt` | index.js:45 | a dotfile has no extension |
| `ImageUpload.NothingMatchesEmpty` | index.js:44-45 | no image word matches the empty extension |
| `ImageUpload.DotfileRefused` | index.js:43-48 | the filter refuses a dotfile whatever its MIME type |
| `ImageUpload.DiskFileName` | index.js:38 | the disk name is digits, a dash and the original name |
| `ImageUpload.AiBody` | index.js:103-113 | the reply carries the service's food and macros, its confidence and details or null, the file name and source "ai" |
| `ImageUpload.MockBody` | index.js:119-142 | the reply carries the mock food and macros, the file name and source "mock", without confidence or details |
| `ImageUpload.AnalyzeImage` | index.js:36-143 | no file gives 400; a refused file or one over 10 MiB gives 500; otherwise success with source "ai" iff the service accepted, and then the service's food, macros, confidence and details, else the picked mock food without confidence or details |
| `ImageUpload.Forward` | index.js:67-101 | the proxy sees no answer iff the service's body is not JSON |
| `ImageUpload.ForwardAccepted` | index.js:103 | the proxy accepts exactly the service's successful analyses, with their food |
| `ImageUpload.ServiceDecidesSource` | index.js:61-143 | end to end, an accepted upload is labelled "ai" iff the service produced an analysis, and then shows its food |
| `ImageUpload.LooseMimeGetsMock` | index.js:43-48 | a MIME type the Node filter admits but the service does not list always gets a mock answer |
| `AiService.BraceSpan` | ai-service/main.py:99-104 | the span exists iff some `}` follows some `{`; it runs from the first `{` through the last `}`, and it is the only such span |
| `AiService.OuterBracesUnique` | ai-service/main.py:99-104 | at most one pair of positions is the first `{` and the last `}` |
| `AiService.BracePairsBound` | ai-service/main.py:90-105 | every brace pair lies within the first `{` and the last `}` |
| `AiService.ProseAroundObject` | ai-service/main.py:90-105 | prose without braces around an object is cut away exactly |
| `AiService.ExtractJson` | ai-service/main.py:90-105 | the result is a parse of the whole text or of the span from the first `{` to the last `}`, preferring the whole text; it fails iff neither parses |
| `AiService.ExtractFromProse` | ai-service/main.py:90-105 | a reply wrapped in brace-free prose yields the object it contains |
| `AiService.AnalysisData` | ai-service/main.py:119-150 | a missing key, an exception or an unparseable reply gives the fallback result; anything else is a parse of the reply text or its brace span |
| `AiService.PyFloat` | ai-service/main.py:187-198 | a number converts to itself; null, arrays and objects do not convert |
| `AiService.Shape` | ai-service/main.py:187-198 | shaping succeeds only for an object and fills every missing field with its default |
| `AiService.ShapeWellTyped` | ai-service/main.py:187-198 | a complete well-typed answer is reported as it stands |
| `AiService.ShapeFallback` | ai-service/main.py:108-116 | the fallback result shapes into 250/10/30/8 kcal/g with low confidence |
| `AiService.AnalyzeFoodImage` | ai-service/main.py:164-198 | an unlisted type gives 400; over 10 MiB gives 400; a missing key, an exception or a non-JSON reply gives the fallback analysis; a parsed reply gives 200 with the shaped result, or 500 when it cannot be shaped |
| `AiService.WellTypedReplyReported` | ai-service/main.py:181-198 | a reply whose extracted object is complete and well typed is reported with exactly its fields |
| `AiService.MissingMacrosAreZero` | ai-service/main.py:187-198 | an extracted object without macro fields is reported with zero macros |
| `AiService.SizeBoundary` | ai-service/main.py:177-179 | exactly 10 MiB is accepted, one byte more refused |
| `AiService.ResponseBody` | ai-service/main.py:164-198 | a success is serialised with success and food; a 400 has only a detail; a 500 has no JSON body |
| `AuthContext.AuthHeaders` | src/context/AuthContext.js:75-78 | the only header is Authorization; there is one iff a user with a non-empty token is signed in, and it is the bearer prefix followed by exactly the token |
| `AuthContext.HeaderRoundTrip` | src/context/AuthContext.js:75-78 | the header the client builds yields its own token in `authenticate` |
| `AuthContext.FlagsOf` | src/context/AuthContext.js:81-97 | authenticated iff a user is signed in; exactly the flag of the user's role is set |
| `AuthContext.Logout` | src/context/AuthContext.js:69-72 | after logout nobody is signed in, nothing is saved and no header is sent |
| `AuthContext.SignIn` | src/context/AuthContext.js:39-67 | a server error is thrown with its message or the fallback and leaves the client unchanged; success signs in and saves the server's user with the token text |
| `AuthContext.Startup` | src/context/AuthContext.js:12-37 | a user is restored iff a readable entry's token is accepted by /me, with the profile's id, role, name and email and the saved token; otherwise the entry is removed |
| `AuthContext.LogoutThenReload` | src/context/AuthContext.js:12-72 | after logout a reload starts signed out |
| `AuthContext.LoginHeaderOpensMe` | src/context/AuthContext.js:54-78 | after a successful login the client's header opens /me on the same account |
| `AuthContext.ReloadShowsStoredRole` | src/context/AuthContext.js:12-37 | a reload shows the role the server stores now |
| `AppRoutes.FirstMatch` | src/App.js:96-124 | a route matching the location with no earlier route matching; none iff no route matches |
| `AppRoutes.Switch` | src/App.js:96-124 | a rendered page always matches the location |
| `AppRoutes.DefaultTarget` | src/App.js:120-123 | doctors are sent to /doctor, everyone else to /dashboard |
| `AppRoutes.Children` | src/App.js:96-124 | the last child is the catch-all redirect |
| `AppRoutes.Flatten` | src/App.js:98-107 | no fragment remains once fragments are spread |
| `AppRoutes.SwitchOverRoutes` | src/App.js:96-124 | over plain routes and a redirect the Switch shows the first matching route, else redirects |
| `AppRoutes.FlatChildren` | src/App.js:96-124 | spread out, a role's children are its reachable routes followed by the redirect |
| `AppRoutes.RoutedAsWritten` | src/App.js:96-124 | as written, patients and admins are never redirected |
| `AppRoutes.StartupScreen` | src/App.js:53-71 | after start-up the spinner is gone; the sign-in page shows iff no saved session is accepted by /me; any page shown is one reachable for the stored role |
| `AppRoutes.RoleTable` | src/App.js:96-124 | a user sees a page iff a route reachable for their role matches the location, otherwise they are redirected to the role's default |
| `AppRoutes.OpensReachable` | src/App.js:96-124 | every reachable lower-case path opens its own page |
| `AppRoutes.RedirectLands` | src/App.js:120-123 | the default redirect lands on a page the role can open |
| `AppRoutes.AdminDoctorPageRefused` | src/App.js:110-117 | with the routes spread out an admin is shown /doctor, as written a blank page, and every doctor API request gets 403 |
| `AppRoutes.AdminPageBlankAsWritten` | src/App.js:98-117 | as written an admin at /admin sees a blank page; with the routes spread it sees the admin page |

## Left out

- Mounting: `index.js` does not mount the routers. They are modelled as if mounted.
- `GET /stats` of the admin router and the `ApiUsage` model: left out as a separate usage counter.
- The weekly per-day aggregation of the food summary (`weekByDay`): left out as display data. Only today's totals are modelled.
- Floating point: macros and averages are exact reals, and Python `float` and JavaScript `Number` are parameters.
- Regular expressions: the admin search is a parameter `RegexMatch`. The upload filter's literal alternatives are modelled exactly.
- JWT signing and bcrypt are abstract. A token is a record with a signature flag, and a digest keeps its preimage for comparison only.
- The weekly cron job and the Twilio client: immediate sends are recorded as a list of messages. The cron schedule derived from `remindAt` is not modelled.
- `GET /getAllReminder` only returns the list and is not modelled separately.
- Database failures: the store never fails. In the program a failing query reaches the handler's `catch` and answers 500.
- AuthMiddleware.Authenticate: a failing user lookup (the database, not a missing user) answers 401 "Invalid token" in the program; the model has no such input.
- Request bodies: every JSON field is assumed to be a string or absent. In the program an object such as `{"$ne": ""}` sent as `email` becomes a query operator, so registration answers 409 on any non-empty store and login matches the first user; a non-string password makes bcrypt throw (500).
- Timestamps: `updatedAt` is not modelled. Every `save()` (login, role change, assignment) also moves it. `createdAt` is a field set when the document is created.
- Concurrency: the model runs ticks one after another. Overlapping `setInterval` callbacks and interleaved requests are not modelled.
- Outbound HTTP: the vision-model call and the proxy's request are outcome parameters, and timeouts are part of `Unavailable`.
- Multer's disk write and the uploads directory are not modelled.
- UserModel.NormalizeEmail: lower-cases ASCII letters only. JavaScript's `toLowerCase` also maps other letters, so "JOSÉ@x.io" is stored as "josé@x.io" by the program and as "josÉ@x.io" by the model. The schema does not restrict emails to ASCII.
- Strings.Lower: ASCII-only for the same reason; the upload filter's patterns and the role names are ASCII.
- UserModel.CompareHashed: bcrypt hashes only the first 72 bytes of a password, so a digest also accepts a longer password that shares those bytes. The model's digest keeps the whole password.
- AuthRoutes.Login: "success iff the password matches" inherits the 72-byte bcrypt limit of `UserModel.CompareHashed`.
- Reminders.Tick: assumes the Twilio client is configured and the server clock is in India Standard Time. Otherwise `require('twilio')` or the weekly cron job built from slices of the date string throws inside the update callback, before the immediate send.
- Reminders.TickCount: counts immediate sends under the assumptions of `Reminders.Tick`; the weekly re-sends of the cron job are not counted.
- Listing.ListingComplete: relies on one fixed order among documents with equal sort keys. MongoDB does not fix that order, so separate page requests can repeat one such document and miss another.
- Listing.ListingSound: the same tie-order assumption fixes which document is item i of a page.
- FoodRoutes.ListLogs: the same tie-order assumption, for logs with equal `loggedAt`.
- FoodRoutes.OwnLogsListed: the same tie-order assumption, for logs with equal `loggedAt`.
- AdminRoutes.ListUsers: the same tie-order assumption, for users with equal `createdAt`.
- AdminRoutes.UserListed: the same tie-order assumption, for users with equal `createdAt`.
- DoctorRoutes.PatientLogs: the same tie-order assumption, for logs with equal `loggedAt`.
- DoctorRoutes.PatientLogListed: the same tie-order assumption, for logs with equal `loggedAt`.
- AdminRoutes.AssignPatient: the duplicate test compares the cast patient id. The program's `includes` on the raw text may miss an upper-case spelling of an id already listed and push a second copy.
- ObjectId casts accept only 24 hex digits. Mongoose also accepts 12-character strings, which is not modelled.
- The doctor summary's `Types.ObjectId(id)` without `new` is assumed to work, as it does in Mongoose 6 and earlier.
- Response validation in the Python service assumes pydantic v2: a string is not coerced to a number and vice versa.
- Non-numeric `page` or `limit` query values (NaN) are not modelled. The parameters are integers or absent.
- A saved session entry without a token (header "Bearer undefined") is not modelled.
- Presentational React (layouts, charts, sidebar, theme) is not modelled.
- `POST /deleteReminder` without an id is treated like an unknown id.
- `AppRoutes.Routed` has no contract of its own; it is the route table with the routes spread out. Its properties are stated by `AppRoutes.RoleTable`, `AppRoutes.OpensReachable` and `AppRoutes.RedirectLands`.

## Findings

| source | as written | input that shows it | evidently intended | confidence | as-written member | corrected member |
|---|---|---|---|---|---|---|
| src/App.js:96-124 | the tracker routes sit in a fragment that is a direct child of `Switch`; a child without `path` matches every location, so for patients and admins the fragment is always chosen | an admin opening `/admin` sees a blank page; a patient at an unknown path is not redirected | every route a direct child of `Switch`, the catch-all redirect last | not executed; react-router-dom 5 assumed | `AppRoutes.RoutedAsWritten`, `AppRoutes.AdminPageBlankAsWritten` | `AppRoutes.Routed`, `AppRoutes.RoleTable`, `AppRoutes.RedirectLands` |
| routes/admin.js:74-78 | the self-deletion guard compares the path text with the caller's id as strings, while `findByIdAndDelete` casts the path id case-insensitively | an admin whose id is "aaaa…a" (24 digits) sends DELETE /api/admin/users/AAAA…A and deletes its own account | refuse every spelling of the caller's own id | not executed | `AdminRoutes.DeleteUserAsWritten`, `AdminRoutes.SelfDeletionBypass`, `AdminRoutes.SelfDeletionExample` | `AdminRoutes.DeleteUser`, `AdminRoutes.NoSelfDeletion` |
