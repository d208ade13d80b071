# Alumni portal backend — a verified Dafny model

This project models the server side of an alumni portal: a Go web service, built on
Fiber and MongoDB, through which students, alumni, faculty and administrators
register, sign in, post jobs and projects, organise events, exchange messages and
upload images. The model replaces every MongoDB collection with an in-memory table
(a `seq` of records in store order), every handler with a `method` on a class that
owns those tables, and store failures with an input set `fails` naming the writes
that fail and the reads of the duplicate checks that fail. Token validation, token generation, password hashing, token
hashing, random draws and content sniffing are oracles passed in as parameters.
Time is an integer number of seconds.

The modules follow the source files:

- `Realtime` (websocket.dfy) is the WebSocket connection registry. The `Manager`
  class owns the client table and a ghost log of every write and close. Each case of
  the manager's event loop is one atomic method. The per-connection read loop is a
  method whose frames are dispatched by a pure function.
- `RateLimiting` (ratelimit.dfy) is the fixed-window limiter. `RateLimiter` holds
  the `rate_limits` records, and `Decide` is the function that specifies one check.
- `Accounts` (auth.dfy) covers registration, the OTP lifecycle, password reset and
  refresh-token rotation. These are methods of `AuthStore` over the users, OTP and
  refresh-token tables.
- `AuthMiddleware` (authmw.dfy) holds bearer-token extraction, the role gate and the
  two views of the stored user ID.
- `Routes` (routes.dfy) is the route table of `SetupRoutes`. It gives every endpoint
  its middleware chain, following the order in which the router registers groups and
  routes. `Serve` runs that chain for one request.
- `Jobs`, `Projects` and `Events` (jobs.dfy, projects.dfy, events.dfy) cover
  listings with their filters and pagination. They also cover the handlers that keep
  the counters `applicants_count`, `likes_count`, `views_count` and
  `current_attendees` in step with the interest, like and RSVP tables. `Engagement`
  is the shared (target, user) table behind interests and likes.
- `Messages` (messages.dfy) covers the conversation grouping of `GetConversations`,
  read-marking and the e-mail decision.
- `Uploads` (upload.dfy) covers image validation, tag splitting, file naming and the
  two upload handlers.
- `Validator` and `Otp` (validator.dfy, otp.dfy) hold the string checks and the OTP
  formatting.
- Helper modules:
  - `Paging` is the page/limit clamp, skip, `total_pages` and a stable sort.
  - `ObjectIds` covers ObjectID hex parsing and printing.
  - `Decimal` covers `%d` and `%06d`.
  - `Text` covers trimming and replacement.
  - `Tables` covers first match, count and select over tables.
  - `Wrappers` holds `Option`, `Reply` and `Checked`.

## Model

| member | source | states |
|---|---|---|
| Realtime.Manager.Register | handlers/websocket.go:55-69 | The client is stored under its ID, replacing any entry with that ID. No other entry changes. Exactly one "system" confirmation "Connected successfully" is written. A failed write leaves the client registered. |
| Realtime.Manager.Unregister | handlers/websocket.go:71-76 | A registered ID is removed and its connection closed. An absent ID leaves the table and the log unchanged. |
| Realtime.Manager.Broadcast | handlers/websocket.go:80-91 | Visits every registered client once, in some order. It writes exactly to those whose user is the message's receiver or sender, each once. After each failed write it logs a close, and the final table is `AfterBroadcast`: the addressed clients whose write failed are removed and the rest are unchanged. |
| Realtime.BroadcastEviction | handlers/websocket.go:82-89 | A client survives a broadcast iff it is not addressed or its write succeeded. A surviving entry is unchanged. |
| Realtime.Manager.SendNotificationToUser | handlers/websocket.go:200-212 | Writes to exactly the clients of that user, each once. It never removes a client, even when a write fails. |
| Realtime.Dispatch | handlers/websocket.go:145-193 | A "message" frame that decodes is broadcast with a fresh ID, the authenticated user as sender, the current time, unread, and type "new_message". A "ping" is answered with "pong". Non-text frames, undecodable frames and other types do nothing. |
| Realtime.Manager.constructor | handlers/websocket.go:41-48 | A new manager has no clients and has written nothing. |
| Realtime.WebSocketHandler | handlers/websocket.go:101-197 | Without a string "userID" local the connection is closed and nothing is registered. Otherwise the log is the confirmation write, then for each frame in turn what `Step` gives (a pong on this connection for a ping, the stamped message to exactly the clients it addresses for a chat message, nothing for anything else), then a close of this connection unless a failed broadcast already removed the client. The final table is the broadcasts' survivors without this client. |
| Realtime.ReadLoop | handlers/websocket.go:133-196 | The read loop ends with the table and log that `Served` gives for its frames, and every broadcast visited exactly the clients it addresses, each once. |
| Realtime.ServeFrame | handlers/websocket.go:145-193 | One frame changes the table and log as `Step` says, with the broadcast's visiting order covering exactly the addressed clients. |
| Realtime.ServedOnlyEvicts | handlers/websocket.go:84-89 | Serving frames never adds a client and never changes a kept one, and only appends to the log. |
| Realtime.PingsAnswered | handlers/websocket.go:182-188 | A run of pings, whether or not the rest of each frame decodes as a chat message, writes one pong per ping, stamped with that frame's time, on the client's own connection, in order, and evicts no client. |
| Realtime.Confirmation | handlers/websocket.go:61-66 | The confirmation is a "system" message "Connected successfully" stamped with the current time, with no ID, sender or receiver. |
| Realtime.Pong | handlers/websocket.go:183-190 | The reply to a ping has type and content "pong", the current time, and no ID, sender or receiver. |
| RateLimiting.Identifier | middleware/ratelimit.go:19-22 | The key is the "userID" local when it is a string, and the client IP when none is set. A set local of another type makes the type assertion fail. |
| RateLimiting.Decide | middleware/ratelimit.go:27-81 | A request is refused with 429 (section 4 of RFC 6585) iff the lookup succeeds and the first counting record has reached `maxAttempts`. A refusal or a 500 leaves the store unchanged. A failed lookup is treated as "no record": then, as with no record, a fresh one-attempt record is appended, or the reply is 500 "Rate limit check failed" when that insert fails. A record below the limit gets exactly one more attempt, or the reply is 500 "Rate limit update failed". |
| RateLimiting.DecisionOfMatch | middleware/ratelimit.go:30-81 | States the decision case by case. No counting record gives a fresh record, or 500 "Rate limit check failed" when the insert fails. A record at the limit gives 429. Otherwise the result is 500 "Rate limit update failed" when the update fails, and a pass otherwise. |
| RateLimiting.FirstMatch | middleware/ratelimit.go:31-36 | The lookup returns the first record for (identifier, action) whose window start is no older than the window, and nothing when no record qualifies. |
| RateLimiting.AttemptsPerWindow | middleware/ratelimit.go:30-81 | For `maxAttempts` ≥ 1, a run of requests within one window starting with no counting record passes exactly the first `maxAttempts` requests, and every later one gets 429. Once the window has passed, the next request passes with a fresh record. |
| RateLimiting.RunInWindow | middleware/ratelimit.go:60-81 | Within an open window a record with `a` attempts ends with `Raised(a, maxAttempts, n)` after n requests: one more per request until the limit, never past it, and unchanged when already at it. A request at the limit is refused. |
| RateLimiting.FreshAfterWindow | middleware/ratelimit.go:27-57 | After the window has passed, the old record no longer counts, and a fresh record with one attempt is created. |
| RateLimiting.RateLimiter.RateLimit | middleware/ratelimit.go:14-83 | The middleware decides as `Decide` says for its identifier, and updates the store to `Decide`'s records. An identifier that cannot be read gives 500 and no change. |
| RateLimiting.RateLimiter.CleanupRateLimits | middleware/ratelimit.go:85-109 | One cleanup tick deletes exactly the records whose window started before now − window and keeps the rest in order. A failed delete changes nothing. |
| RateLimiting.Kept | middleware/ratelimit.go:95-100 | The records a cleanup keeps are exactly the stored records whose window start is at or after the cutoff. |
| RateLimiting.CleanupKeepsDecisions | middleware/ratelimit.go:85-109 | A cleanup whose cutoff is no later than the current window's start never changes any limiter decision. |
| AuthMiddleware.StripBearer | middleware/auth.go:23 | The token is the header with its first occurrence of "Bearer " removed, wherever that occurs. A header without it is passed on unchanged. |
| AuthMiddleware.StripBearerRoundTrip | middleware/auth.go:23 | "Bearer " followed by a token is stripped back to that token. |
| AuthMiddleware.StripBearerOnlyFirst | middleware/auth.go:23 | Only the first prefix is removed, so a doubled prefix reaches validation with one prefix left. |
| AuthMiddleware.AuthRequired | middleware/auth.go:13-39 | An empty header gives 401 "Authorization header required" before any validation. A token that fails validation gives 401 "Invalid or expired token". On success the user's ID, e-mail and role are stored as locals. |
| AuthMiddleware.EmptyHeaderNeverValidated | middleware/auth.go:15-21 | The outcome for an empty header does not depend on the validator. |
| AuthMiddleware.RoleAllows | middleware/auth.go:45-49 | The search over the listed roles finds the caller's role iff it is listed. |
| AuthMiddleware.RoleRequired | middleware/auth.go:41-56 | The request passes iff the caller's role is one of the listed roles, and otherwise gets 403 "Insufficient permissions". An empty list refuses everyone. |
| AuthMiddleware.GetUserID | middleware/auth.go:59-76 | A stored ObjectID is returned unchanged and a stored hex string is parsed. An unparsable string, an absent local or any other type gives NilObjectID. |
| AuthMiddleware.GetUserIDAsString | middleware/auth.go:79-90 | A stored ObjectID gives its 24-digit lower-case hex, which parses back to the same ID. A stored string is returned unchanged, and anything else gives "". |
| AuthMiddleware.UserIdViewsAgree | middleware/auth.go:59-90 | Parsing the string view of a stored user ID gives the same ObjectID as `GetUserID`. |
| ObjectIds.HexRoundTrip | middleware/auth.go:59-90 | Parsing the hex form of an ObjectID gives the ObjectID back. |
| ObjectIds.FromHexCanonical | middleware/auth.go:66-72 | A parsed ObjectID prints back as the lower-case form of the text it was parsed from. |
| ObjectIds.FromHex | middleware/auth.go:66-72 | A string parses as an ObjectID iff it is exactly 24 hexadecimal digits. |
| Accounts.AuthStore.constructor | handlers/auth.go:24-28 | A new store has no users, OTPs or tokens, and its IDs are unique. |
| Accounts.AuthStore.Register | handlers/auth.go:30-150 | A body that does not parse or validate gives 400 with its message, and a weak password 400; neither changes anything. Otherwise the outcome is `SignedUp`: 409 iff the e-mail lookup succeeds and finds a user; a failed lookup lets the insert go ahead. 500 when hashing fails. Otherwise the new user is stored unverified and active, and its registration OTP is stored unused, expiring 600 s after creation, with the code formatted from the draw. 201 iff every step succeeds. Unique e-mails stay unique when the lookup succeeds. |
| Accounts.AuthStore.SignUp | handlers/auth.go:59-150 | The part of registration after the password check, as `SignedUp` says: 409 for an e-mail the lookup finds, 500 when hashing fails, then the user and its OTP are stored. No user with that e-mail existed before an insert the lookup allowed. |
| Accounts.AuthStore.CreateAccount | handlers/auth.go:78-134 | The user is inserted unless that insert fails, and then its OTP is stored. 201 iff the draw and both inserts succeed. |
| Accounts.AuthStore.StoreOtp | handlers/auth.go:108-134 | 500 "Failed to generate OTP" when the random source fails and 500 "Failed to store OTP" when the insert fails. Otherwise exactly one new unused OTP for that e-mail and purpose is appended. |
| Accounts.NewUser | handlers/auth.go:78-97 | A new user has the requested e-mail and a sanitised name, and is unverified and active. |
| Accounts.AuthStore.VerifyOTP | handlers/auth.go:260-419 | A body that does not parse or validate gives 400 and changes nothing. Outside the test bypass, no matching OTP gives 400 "Invalid or expired OTP". A match means equal e-mail and code, unused, and unexpired, whatever the purpose. On a match the OTP is marked used, the user is verified, and exactly one new refresh token is stored. 200 iff all of these succeed. |
| Accounts.AuthStore.VerifyAndIssue | handlers/auth.go:367-419 | Verifies the user with that e-mail and issues one refresh token for that user. 200 iff the user exists and every write succeeds. |
| Accounts.AuthStore.ForgotPassword | handlers/auth.go:503-577 | A body that does not parse or validate gives 400 and changes nothing. Otherwise the reply is the same 200 message whether or not a verified, active user has that e-mail. A password-reset OTP is created only when one does. 500 only when that creation fails. |
| Accounts.AuthStore.ResetPassword | handlers/auth.go:579-680 | A body that does not parse or validate gives 400, and a weak password 400; neither changes anything. A reset needs an OTP that matches and whose purpose is password_reset; otherwise 400. The matched OTP is consumed. On success the password hash is replaced, and every refresh token of that user is revoked. |
| Accounts.AuthStore.ApplyReset | handlers/auth.go:645-674 | The first user with that e-mail gets the new hash. Every refresh token of that user is revoked unless the revocation fails. |
| Accounts.AuthStore.RefreshToken | handlers/auth.go:682-788 | A body that does not parse gives 400 "Invalid request body" and changes nothing. Otherwise the outcome is `Rotated`: a token that fails validation gives 401; a refresh needs an unrevoked, unexpired stored token with that hash and an active user, otherwise 401. On success the old record is revoked and exactly one new unrevoked record is appended. 200 iff every write succeeds. |
| Accounts.AuthStore.Rotate | handlers/auth.go:695-788 | The rotation of a parsed refresh token, as `Rotated` says: 401 for a token that fails validation or has no live stored record and active user; otherwise the old record is revoked and exactly one new unrevoked record is appended, 200 iff every write succeeds. |
| Accounts.AuthStore.Logout | handlers/auth.go:790-825 | A body that does not parse gives 400 "Invalid request body" and changes nothing. Otherwise the first stored token with the presented token's hash is revoked. The reply is 200 whether or not one exists, and 500 when the update fails. |
| Accounts.MarkUsed | handlers/auth.go:357-360 | Marking the matched OTP used sets its is_used flag, changes no other field of it, and leaves every other record as it was. |
| Accounts.ConsumeRemovesOne | handlers/auth.go:341-365 | Consuming the matched OTP removes exactly one candidate for that (e-mail, code). |
| Accounts.SingleUse | handlers/auth.go:341-365 | Once the only OTP for an (e-mail, code) has been consumed, no later verification or reset with that code matches. |
| Accounts.PurposeOnlyForReset | handlers/auth.go:341-346 | Every OTP a reset accepts is also accepted by a verification. When all OTPs are for registration, no reset can match. This is the purpose asymmetry between the two handlers. |
| Accounts.RotationReplacesToken | handlers/auth.go:748-778 | A rotation keeps the number of unrevoked tokens the same. When the old token was the only live one with its hash, it can never refresh again. |
| Accounts.RevokeAllOf | handlers/auth.go:662-671 | Every token of that user is revoked and every other token is untouched. |
| Accounts.RevokeAllLeavesNoLive | handlers/auth.go:662-671 | After a reset no token of that user can refresh, and the number of unrevoked tokens never grows. |
| Accounts.RevokeAllKeepsIds | handlers/auth.go:662-671 | Revocation keeps token document IDs unique. |
| Routes.AuthRoutesFirst | routes/routes.go:253-264 | The seven /auth routes are exactly the routes registered before the protected group. Every other route is registered after it. |
| Routes.ChainHeads | routes/routes.go:253-264 | An /auth route runs only its own middleware. Every other route runs the bearer-token check first. |
| Routes.ProtectedRoutesNeedToken | routes/routes.go:264 | Every route outside /auth refuses a missing header with 401 "Authorization header required" and an invalid token with 401 "Invalid or expired token". A request is handled only with a valid header. |
| Routes.LimiterPlacement | routes/routes.go:255-260 | A rate limiter runs on a route iff the route is register, login or refresh, and then under the action of that name. |
| Routes.OnlyThreeRateLimited | routes/routes.go:253-261 | Only register, login and refresh are rate-limited. An /auth route is answered as its limiter decides: 429 on a refusal, 500 with the limiter's message ("Rate limit check failed" or "Rate limit update failed") on a store failure, and handled on a pass. An /auth route without a limiter is always handled. |
| Routes.GatedChain | middleware/auth.go:13-56 | The bearer check followed by a role gate handles a request iff the header is valid and the token's role is listed. A valid header with an unlisted role gets 403. The handler sees the token's user ID and role. |
| Routes.GatedRouteChain | routes/routes.go:267-329 | A role-gated route of the protected group runs exactly the bearer check and then its own role gate. |
| Routes.PostJobAlumniOnly | routes/routes.go:289 | POST /jobs/add is handled iff the caller holds a valid token with the alumni role. Students, faculty and admins get 403. |
| Routes.EventWritesAdminOnly | routes/routes.go:301-304 | Creating, updating and deleting events is handled iff the caller is an admin. |
| Routes.AdminGroupRoutes | routes/routes.go:332-350 | Every /admin route, the e-mail settings included, is registered after the admin group's gate and has no middleware of its own. |
| Routes.AdminGroupChain | routes/routes.go:332-350 | Every /admin route runs the bearer check and then the admin-only role gate. |
| Routes.AdminRoutesAdminOnly | routes/routes.go:332-350 | Every /admin route is handled iff the caller is an admin. |
| Routes.JobInterestRoles | routes/routes.go:293-295 | Showing and withdrawing interest are student-only. The interested-users list is for alumni and admins only. |
| Routes.GalleryCreateRoles | routes/routes.go:327 | /gallery/upload admits faculty and admins only. |
| Routes.UploadGalleryRoles | routes/routes.go:392-395 | /upload/gallery runs the bearer check twice and then admits faculty, alumni and students. Admins are refused. |
| Routes.WsGuardCheck | routes/routes.go:355-388 | The /ws/chat guard answers 426 Upgrade Required (section 6.5.15 of RFC 7231) to a request that is not a WebSocket upgrade. It answers 401 "Token required" without a query token and 401 "Invalid token" for one that fails validation. Otherwise it passes the request on. |
| Routes.ValidateTokenAndGetUserID | routes/routes.go:223-237 | Succeeds iff the token validates, and then gives the 24-digit hex of the token's user ID. |
| Routes.WsChatBehindBearerCheck | routes/routes.go:264 | As registered, /ws/chat runs the bearer-header check before its own guard. A browser socket carries only the query token, so it gets 401 "Authorization header required". |
| Routes.WsGuardCorrected | routes/routes.go:353-389 | With /ws/chat served ahead of the protected group, only the guard runs. Its 426 and 401 answers are as written, and an accepted request hands the token's user ID to the socket handler as a string. |
| Paging.Clamp | handlers/job.go:38-43 | A page below 1 becomes 1. A limit outside 1..100 becomes the default. Values in range are kept. |
| Paging.ClampIdempotent | handlers/job.go:38-43 | Clamping an already clamped window changes nothing. |
| Paging.TotalPages | handlers/job.go:137 | (total + limit − 1) / limit is the ceiling of total / limit: that many pages hold every document, and one fewer would not. |
| Paging.TotalPagesLeast | handlers/job.go:137 | No smaller page count can hold all the documents. |
| Paging.NonEmptyPages | handlers/job.go:96 | With skip = (page − 1) × limit, a page holds documents iff its number is at most total_pages. |
| Paging.PageOfIndex | handlers/job.go:96 | Document i of a listing is on page i / limit + 1 at position i mod limit. |
| Paging.SortBy | handlers/job.go:97-100 | The sort is ordered by its key and is a permutation of its input. |
| Paging.List | handlers/job.go:86-110 | A listing reports the filter's count as total, the matching total_pages, and the documents of the requested page of the sorted matches. |
| Paging.ListedDocuments | handlers/job.go:86-110 | Every listed document is a stored document the filter admits, and a page is in sort order. |
| Paging.ListingCoversAll | handlers/job.go:86-137 | Every matching document appears on some page numbered at most total_pages, at the position the skip arithmetic gives. |
| Jobs.GetJobs | handlers/job.go:29-141 | Lists only active jobs with no expiry or one after now, of the requested type and poster. The items are exactly the clamped page's slice of all matches sorted newest first, with the count of all matches as total. |
| Jobs.NewJob | handlers/job.go:161-180 | A new job is active with no applicants, posted by the caller, created and updated now, with the request's expiry, type and requirements. Its title, company, location, experience_required, salary_range and description are `SanitizeString` of the request's, hence markup-free and trimmed. |
| Jobs.JobBoard.CreateJob | handlers/job.go:143-202 | An invalid body gives 400. A failed insert gives 500. Otherwise exactly the new job is appended. The counters stay consistent when no interest already names the new ID, and become inconsistent when one does. No freshness of the ID in the interests table is required. |
| Jobs.Revise | handlers/job.go:340-386 | An update sets updated_at and exactly the fields the request fills in. Text fields are stored sanitised. The owner, counter and activity are untouched. |
| Jobs.EmptyUpdateOnlyTouches | handlers/job.go:340-386 | An update that fills in nothing only moves updated_at. |
| Jobs.ReviseIdempotent | handlers/job.go:340-386 | Applying the same update twice equals applying it once. |
| Jobs.JobBoard.UpdateJob | handlers/job.go:309-407 | A bad ID or body gives 400. Without an active job owned by the caller the reply is 404 and nothing changes. Otherwise that job, and only it, is revised. |
| Jobs.JobBoard.FindAndRevise | handlers/job.go:388-400 | The first job with that ID is revised, or the reply is 500 and nothing changes. |
| Jobs.JobBoard.DeleteJob | handlers/job.go:409-452 | A soft delete clears is_active on the first matching active job. For non-admins it only matches the caller's own jobs. The reply is 200 even when nothing matched. |
| Jobs.JobBoard.ShowInterest | handlers/job.go:454-517 | An interest the duplicate check finds gives 409 and changes nothing. When that check's read fails the insert goes ahead. A failed insert gives 500 with no change, and a failed counter update 500 with the interest kept. Success appends one interest and raises applicants_count by exactly 1, keeping every count equal to its number of interests. One interest per (job, user) stays true whenever the check's read succeeds. |
| Jobs.JobBoard.RemoveInterest | handlers/job.go:549-592 | No matching interest gives 404 and changes nothing. Otherwise the first matching interest is deleted; then a failed counter update gives 500 and success lowers applicants_count by exactly 1, keeping the counts consistent. With one interest per pair, none is left for the pair after a 200. |
| Jobs.JobBoard.Withdraw | handlers/job.go:565-592 | Deletes exactly the given interest, then lowers its job's applicants_count by 1 unless that update fails (500). Keeps one interest per pair and, after a 200, the counts consistent. |
| Jobs.Bump | handlers/job.go:498-508 | The `$inc` changes only applicants_count, and only on the job with that ID. |
| Jobs.BumpCounts | handlers/job.go:498-508 | With unique IDs the job with that ID moves by exactly delta, and every other job stays. |
| Engagement.AtMostOnePerPair | handlers/job.go:469-480 | With the duplicate check in place, each (target, user) pair has at most one document. |
| Engagement.AddKeepsUnique | handlers/job.go:482-496 | Inserting for a pair that has none keeps pairs and IDs unique. |
| Engagement.AddExistingPairDuplicates | handlers/job.go:469-496 | Inserting for a pair that already has a document, as happens when the duplicate check's read fails, breaks pair uniqueness: the pair then has at least two documents. |
| Engagement.RemovedPairIsGone | handlers/job.go:565-574 | After the delete, the pair has no document left. |
| Engagement.RemoveKeepsUnique | handlers/job.go:565-574 | A delete keeps document IDs unique, and keeps pairs unique when they were. |
| Engagement.AddCounts | handlers/job.go:482-508 | An insert raises its own target's count by one and no other target's count. |
| Engagement.RemoveCounts | handlers/job.go:565-586 | A delete lowers its own target's count by one and no other target's count. |
| Projects.GetProjects | handlers/project.go:25-120 | Lists only active projects of the requested type and author. The items are exactly the clamped page's slice of all matches sorted newest first, with the count of all matches as total. |
| Projects.NewProject | handlers/project.go:140-152 | A new project starts with likes_count = 0 and views_count = 0 and is active. Its title and description are `SanitizeString` of the request's, so markup-free and trimmed. Its project type, technologies, GitHub URL and demo URL are the request's. |
| Projects.Showcase.CreateProject | handlers/project.go:122-173 | An invalid body gives 400. A failed insert gives 500. Otherwise exactly the new project is appended. The like counts stay consistent when no like already names the new ID, and become inconsistent when one does. |
| Projects.Showcase.GetProjectByID | handlers/project.go:175-218 | Only active projects are found, and a missing one gives 404. A fetch raises views_count by one unless the update fails. The returned record carries the count from before the increment. |
| Projects.AddView | handlers/project.go:201-204 | The view increment changes only views_count, and only on the project with that ID. |
| Projects.AddViewCounts | handlers/project.go:201-204 | With unique IDs a fetch adds exactly one view to the fetched project and none to any other. |
| Projects.Showcase.LikeProject | handlers/project.go:356-416 | A like the duplicate check finds gives 409 and changes nothing. When that check's read fails the insert goes ahead. A failed insert gives 500 with no change, and a failed counter update 500 with the like kept. Success appends one like and raises likes_count by exactly 1, keeping the counts consistent. One like per (project, user) stays true whenever the check's read succeeds. |
| Projects.Showcase.UnlikeProject | handlers/project.go:418-461 | No matching like gives 404 and changes nothing. Otherwise the first matching like is deleted; then a failed counter update gives 500 and success lowers likes_count by 1, keeping the counts consistent. With one like per pair, none is left for the pair after a 200. |
| Projects.Showcase.Withdraw | handlers/project.go:434-461 | Deletes exactly the given like, then lowers its project's likes_count by 1 unless that update fails (500). Keeps one like per pair and, after a 200, the counts consistent. |
| Projects.AddLikes | handlers/project.go:400-404 | The likes `$inc` changes only likes_count, and only on the project with that ID. |
| Projects.AddLikesCounts | handlers/project.go:400-404 | With unique IDs the liked project moves by exactly delta, and every other project stays. |
| Projects.Showcase.DeleteProject | handlers/project.go:311-354 | A soft delete clears is_active on the first matching active project. For non-admins it only matches the caller's own projects. The reply is 200 even when nothing matched. |
| Events.GetEvents | handlers/event.go:25-109 | Lists only active events of the requested type, and with upcoming=true only events not yet begun. The items are exactly the clamped page's slice of all matches sorted soonest first, with the count of all matches as total. |
| Events.UpcomingListsNoPastEvent | handlers/event.go:46-48 | With upcoming=true no listed event has an event_date before now. |
| Events.NewEvent | handlers/event.go:129-140 | A new event starts with current_attendees = 0, is active, and keeps the request's date and capacity. Its title, description, location and event_type are `SanitizeString` of the request's: markup-free and trimmed. |
| Events.Calendar.CreateEvent | handlers/event.go:111-164 | An invalid body gives 400. A failed insert gives 500. Otherwise exactly the new event is appended. Every attendee count stays correct when no RSVP already names the new ID, and becomes wrong when an attending one does. |
| Events.Calendar.InsertNew | handlers/event.go:144-154 | Appending an event with no attendees keeps every attendee count correct when no attending RSVP names its ID, and breaks them when one does. |
| Events.ReviseEvent | handlers/event.go:272-303 | An update sets only the non-empty text fields, sanitised. It sets the date only when given, and max_attendees only when above 0. |
| Events.NonPositiveCapacityIgnored | handlers/event.go:293-295 | A max_attendees of zero or less in an update leaves the stored capacity unchanged. |
| Events.Calendar.UpdateEvent | handlers/event.go:242-316 | Only an active event with that ID is revised. Without one the reply is 404 and nothing changes. |
| Events.Upsert | handlers/event.go:384-422 | An existing RSVP for the pair has only its status overwritten and every other RSVP stays. Otherwise one RSVP is appended. |
| Events.UpsertLeavesOne | handlers/event.go:384-422 | After an RSVP the pair has exactly one RSVP, carrying the new status. |
| Events.UpsertIdempotent | handlers/event.go:384-422 | Answering twice with the same status equals answering once. |
| Events.UpsertAttendees | handlers/event.go:384-425 | An RSVP changes the number of attending RSVPs only for its own event, and only by the change of this user's status. |
| Events.SetCount | handlers/event.go:433-450 | The recount overwrites current_attendees of that event and touches nothing else. |
| Events.Calendar.RsvpEvent | handlers/event.go:354-431 | A bad ID or body gives 400. When the read for an earlier answer fails, a new RSVP is inserted even if one exists; otherwise the RSVP is upserted. A failed update or insert gives 500 with no change. Then current_attendees is set to the recount of attending RSVPs rather than incremented. max_attendees is never consulted, so the count may exceed it. A successful recount leaves every count correct, and one RSVP per (event, user) stays true whenever the read succeeds. |
| Events.Calendar.Record | handlers/event.go:384-450 | Writes the answer as `Answer` says and sets the event's current_attendees to the recount unless counting or setting fails. A successful recount keeps every count correct, and an upsert keeps one RSVP per pair. |
| Events.AnswerAttendees | handlers/event.go:384-441 | After an upsert or a plain insert the attending count changes only for its own event: minus the user's earlier answer if the read found it and it was attending, plus the new one if attending. |
| Messages.Conversations | handlers/message.go:29-82 | Conversations have distinct participants. Each last message is a stored message of the user whose other party is that participant. Conversations are ordered newest last message first. |
| Messages.ParticipantsCover | handlers/message.go:46-62 | Each participant is the other party of some message: the recipient when the user sent it, otherwise the sender. Every message's other party is a participant. |
| Messages.EveryMessageGrouped | handlers/message.go:38-62 | Every message the user sent or received falls into exactly one conversation, the one with its other party. |
| Messages.LastIsNewest | handlers/message.go:57-63 | A conversation's last message is its most recent message. |
| Messages.UnreadCountsSentUnread | handlers/message.go:64-77 | unread_count counts exactly the unread messages the participant sent to the user. |
| Messages.MessageStore.GetConversations | handlers/message.go:29-147 | The reply lists the grouped conversations whose participant record exists, in order. A failed aggregation or decode gives 500. |
| Messages.MarkRead | handlers/message.go:353-360 | Exactly the messages the participant sent to the user become read. Nothing else in any message changes. |
| Messages.MarkReadClearsOnlyThatConversation | handlers/message.go:353-360 | After opening a conversation its participant has no unread messages to the user, and every other participant's unread count is unchanged. |
| Messages.MarkReadIdempotent | handlers/message.go:353-360 | Opening the same conversation twice marks nothing more. |
| Messages.MessageStore.GetMessages | handlers/message.go:274-376 | A bad participant ID gives 400. Each failed read step gives its 500. Otherwise the clamped page of the two users' messages is returned, newest first, and the participant's messages to the user are marked read. |
| Messages.MessageStore.MarkAsRead | handlers/message.go:378-410 | Only a message whose recipient is the caller can become read, and nothing else changes. |
| Messages.KeepWhere | handlers/message.go:111-116 | The result loop keeps exactly the conversations with a known participant, in order. |
| Messages.EmailWanted | handlers/message.go:254-258 | The message e-mail is sent unless the recipient has stored preferences with message notifications off. |
| Uploads.ValidateImageFile | handlers/upload.go:177-228 | A file is accepted iff it is at most 5 MiB, its extension lower-cased as Go does is .jpg, .jpeg, .png or .gif, and its sniffed type is JPEG, PNG or GIF. The size check comes first, then the extension. |
| Uploads.ExtensionCaseIgnored | handlers/upload.go:184 | The extension check ignores case: an extension and its lower-cased form get the same verdict. |
| Uploads.DottedCapitalIExtension | handlers/upload.go:184-197 | A GIF named "a.GİF" is accepted, since its extension lower-cases to ".gif" as in Go. |
| Uploads.ToLowerIdempotent | handlers/upload.go:184 | Lower-casing twice is lower-casing once. |
| Uploads.Ext | handlers/upload.go:51 | The extension is the suffix from the final '.' of the last path element, or empty. |
| Uploads.ToLower | handlers/upload.go:184 | Lower-casing maps 'A'..'Z' to 'a'..'z', U+0130 to 'i' and U+212A (Kelvin sign) to 'k', and keeps every other character; no capital of these three kinds is left. |
| Uploads.Tags | handlers/upload.go:144-150 | An empty field gives no tags. Otherwise tag i is comma-separated piece i with its surrounding white space removed (`TrimSpace`, which by `Text.TrimSpaceAround` keeps a slice of the piece and drops only white space around it), so each tag is trimmed and comma-free. |
| Uploads.TagsRoundTrip | handlers/upload.go:144-150 | Trimmed, comma-free tags joined by commas split back to themselves. |
| Uploads.JoinSplit | handlers/upload.go:146 | Joining the pieces of a split with the separator gives back the string. |
| Uploads.SplitJoin | handlers/upload.go:146 | Splitting a join of separator-free pieces gives back the pieces. |
| Uploads.TrimTags | handlers/upload.go:147-149 | The loop trims every tag in place. |
| Uploads.BuildTags | handlers/upload.go:144-150 | The tag loop computes exactly `Tags` of the field. |
| Uploads.AvatarNameIdentifiesUser | handlers/upload.go:51-53 | An avatar name starts with the user's 24-digit hex, then '_', and ends with the file's extension. |
| Uploads.AvatarNamesDistinct | handlers/upload.go:51-53 | Two avatar names are equal only for the same user. |
| Uploads.Media.UploadAvatar | handlers/upload.go:31-87 | A missing or invalid file gives 400 and changes nothing. Otherwise the file is saved as "./public/avatars/<hex>_<unix seconds><ext>". The user's avatar_url becomes "/avatars/" followed by that name, and a failure at either step gives 500. |
| Uploads.NewGalleryItem | handlers/upload.go:122-156 | A gallery item's title and description are `SanitizeString` of the form's, markup-free and trimmed, and its tags are the split tags. Its URL is "/gallery/gallery_<unix seconds at naming><ext>", and created_at is a second, later clock reading. It has an event ID iff event_id parses, so an unparsable one is silently ignored. |
| Uploads.GalleryUrlKeepsExtension | handlers/upload.go:122-139 | An accepted image's gallery URL ends in the uploaded file's extension. |
| Uploads.Media.UploadGalleryImage | handlers/upload.go:89-175 | A missing or invalid file gives 400. A missing title gives 400 after the file checks and before anything is saved. Otherwise the file is saved and exactly one gallery item is inserted. 201 iff both steps succeed. |
| Validator.IsStrongPassword | utils/validator.go:25-36 | False for fewer than 8 UTF-8 bytes. True iff the password has at least 8 bytes, an ASCII upper-case letter, a lower-case letter, a digit and one of the listed special characters. |
| Validator.Utf8 | utils/validator.go:26 | The byte length Go measures is at least the number of characters, with equality exactly for ASCII text. |
| Text.TrimSpace | handlers/upload.go:148 | `strings.TrimSpace`: the result has no white space at either end, introduces no character, and is the input itself when that is already trimmed. |
| Text.TrimSpaceAround | handlers/upload.go:148 | For every input, the trimmed result is one contiguous slice of it, and everything before and after that slice is white space. |
| Validator.SanitizeString | utils/validator.go:38-46 | The output contains none of `<` `>` `"` `'` `/` and has no surrounding whitespace. An input already free of both comes back unchanged. |
| Validator.SanitizeIdempotent | utils/validator.go:38-46 | Sanitising twice equals sanitising once. |
| Validator.SanitizeIsReplaceChain | utils/validator.go:39-45 | The sanitiser is the source's five replacements, in their order, followed by trimming. |
| Validator.EscapedIsReplaced | utils/validator.go:39-44 | The replacement chain escapes each character independently. |
| Validator.TruncateString | utils/validator.go:47-52 | A string of at most maxLength bytes is returned unchanged. Otherwise the result is its first maxLength bytes followed by "...". |
| Validator.IsValidEmailMeaning | utils/validator.go:20-23 | The check accepts exactly a non-empty local part over [A-Za-z0-9._%+-], one "@", a non-empty domain over [A-Za-z0-9.-], a ".", and a final label of two or more ASCII letters. |
| Otp.GenerateOTP | utils/otp.go:9-16 | A failed draw gives "" with an error. Otherwise the code is exactly 6 decimal digits that read back as the drawn value. |
| Otp.NeverAllNines | utils/otp.go:10-11 | The drawn value lies below 999999, so "999999" is never produced. |
| Otp.CodesDistinct | utils/otp.go:15 | Distinct draws give distinct codes. |
| Decimal.DigitsRoundTrip | utils/otp.go:15 | The decimal digits of n read back as n, with no leading zero. |
| Decimal.ZeroPadded | utils/otp.go:15 | `%06d` pads with zeros to the width and keeps the value. |
| Decimal.FormatInt | handlers/upload.go:52 | `%d` writes a minus sign before the digits of a negative value, and the digits read back as its magnitude. |

## Left out

- MongoDB, its context timeouts and the aggregation engine are replaced by in-memory tables. A MongoDB "find" or "update one" is modelled as the first matching record in store order.
- Read failures are modelled only for the duplicate checks (the e-mail lookup of registration, and the pair lookups of interests, likes and RSVPs) and the rate limiter. A failed read there lets the insert go ahead, so e-mail and pair uniqueness are stated only for calls whose read succeeds. Other read failures are not modelled.
- Read failures in the listings (count, find, decode) are not modelled. `Jobs.GetJobs`, `Projects.GetProjects` and `Events.GetEvents` always succeed.
- The regular-expression filters of the listings are not modelled: location and search in jobs and projects, and the `$regex` search. The self-referential `$and` filter of the jobs search is left out too.
- Realtime: the goroutines, channels and mutex of the manager are not modelled. Each select case is one atomic method. Go's map iteration order is modelled as an arbitrary choice among the clients not yet visited.
- Realtime.WebSocketHandler: the "connect" frame only logs, and is dropped like any unknown type. Frames arrive as a sequence that ends where the read fails.
- Jobs.NewJob, Projects.NewProject and Events.NewEvent: created_at and updated_at are two clock readings in the source, taken while one document is built. The model reads the clock once for both.
- Realtime.ReadLoop: one set `failing` of connections whose writes fail holds for the whole session (and for `WebSocketHandler`), so a connection's writes fail in every frame or in none. A connection that fails only for some frames is not modelled.
- Login is not modelled. Its only state change is the refresh-token insert that `VerifyAndIssue` already models.
- Accounts: the JWT, bcrypt and sha256 functions and the random source are oracles. Sending e-mail is I/O and is not modelled.
- Accounts.AuthStore.VerifyOTP: the ENVIRONMENT variable and the test bypass code are a parameter. The `validate:` struct tags and body parsing are folded into `Checked` bodies, and parse-only bodies into an `Option`.
- The job and event creation notifications (`notifyStudentsAboutNewJob`, `notifyUsersAboutNewEvent`, `notifyJobPosterAboutInterest`) are e-mail I/O and are not modelled.
- `UpdateProject`, `GetJobByID`, `GetInterestedUsers`, `DeleteEvent`, `GetEventAttendees` and `SendMessage` are not modelled. They are lookup or `$set` glue of the same shape as the handlers modelled above.
- The user, admin, gallery, notification, analytics and e-mail-settings handlers are not modelled. Their only computation is the page clamp already modelled in `Paging`.
- `GetUserRole` is not modelled as a function. The role reaches the handlers as a parameter.
- Uploads: `http.DetectContentType` is an oracle. Its answer is part of the file header.
- Uploads: saving a file is recorded as adding its path to a set of files.
- Uploads.ToLower: non-ASCII letters whose lower case is also non-ASCII keep their case, whereas Go's `strings.ToLower` folds them. Every accepted extension is ASCII and such a letter stays non-ASCII either way, so no verdict of the extension check changes.
- Jobs.JobBoard.CreateJob, Projects.Showcase.CreateProject and Events.Calendar.CreateEvent: `ShowInterest`, `LikeProject` and `RSVPEvent` accept any parseable ID and never check that the target exists, so an interest, like or RSVP can name an ID before a document with that ID is created. The create methods allow this state and state its outcome: the new document's counter starts at 0 beside those marks, so the counts are then wrong.
- Counters are unbounded integers. The int64 overflow of `applicants_count`, `likes_count` and `views_count` is not modelled.
- When a counter's `$inc` fails after the interest or like insert has succeeded, the counter drifts from the table. The model states that 500 outcome exactly but does not claim consistency for it.
- Paging.SortBy: ties between equal sort keys keep store order (a stable sort). MongoDB does not promise any order for ties.
- Messages: the participant's user record is reduced to whether it exists. Its rendered fields are not modelled.
- Routes: Fiber's matching is modelled as "a group's middleware applies to the routes registered after it under its prefix". Path segments, HTTP methods beyond the route's own verb, and static file serving are not modelled.
- Routes: the handlers behind the routes are reduced to "handled". Their behaviour is modelled in the modules above.
- Environment parsing and the rate-limit defaults are parameters: the attempts per action and the window. The hourly ticker of the cleanup is one method call per tick.
- Validator.TruncateString works on bytes, as Go's slicing does. A cut inside a multi-byte character is therefore possible, as in the source.

## Findings

| source | as written | input that shows it | evidently intended | confidence | as-written member | corrected member |
|---|---|---|---|---|---|---|
| routes/routes.go:353-389 | The protected group `app.Group("", AuthRequired())` at routes/routes.go:264 installs the bearer check for every path registered after it, and /ws/chat is registered later on the same app. | A browser WebSocket request to /ws/chat?token=<valid> with an upgrade and no Authorization header gets 401 "Authorization header required", so the guard's query-token check is never reached. | /ws/chat is guarded only by its own check: 426 when not an upgrade, 401 without a valid query token, and otherwise the token's user ID handed to the socket handler. | not executed | Routes.WsChatBehindBearerCheck | Routes.WsGuardCorrected |
