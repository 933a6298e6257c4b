# TunRTC server core in Dafny

TunRTC is a WebRTC signalling server. Clients authenticate with a JWT, create
and join sessions (video rooms) over HTTP, and then exchange SDP offers, answers
and ICE candidates through a real-time relay, the SignalR hub. This project models
the server's core and proves properties of the model:

- **Records** (`models.dfy`, module `Models`):
  - sessions, participation rows, users and the connection audit log;
  - their enums and the defaults their initialisers give.
- **Session store** (`session_service.dfy`, module `SessionService`):
  - class `SessionStore`, holding the session table and the participant table as sequences;
  - its operations: create, join, get, list active, leave, end, update media flags;
  - the invariant the store keeps:
    - identity keys;
    - the unique session id;
    - the foreign key from rows to sessions;
    - at most one active row per (session, user);
    - no session over capacity.
  - history is kept: no row disappears, and a leave time is never unset.
- **Connection registry** (`connection_manager.dfy`, module `Connections`): class `ConnectionManager`, a map from connection id to (user, session).
- **Signalling relay** (`signaling_hub.dfy`, module `Signaling`): class `SignalingHub`, which holds the store and the registry, plus:
  - the transport's groups (session id to connection ids);
  - an outbox recording every send (its recipients and its message);
  - the connection log.

  Every hub method is one transition of that world.
- **Claims** (`claims.dfy`, module `Claims`): reading the caller's user id from the NameIdentifier claim (`int.TryParse`), and writing it (`Id.ToString()`).
- **Controllers** (`session_controller.dfy`, `auth_controller.dfy`, with `action_results.dfy`): the guard clauses of the HTTP endpoints, as pure functions.
  - A guard either answers at once, or names the service call it goes on to make.
  - A completion maps the service's result to the HTTP result.
- **User store** (`auth_service.dfy`, module `AuthService`): class `UserStore`, with register and login. Password hashing is SHA-256, an uninterpreted function giving 32 bytes, followed by Base64 (`base64.dfy`, module `Base64`), which is modelled with its decoder.
- **ICE server list** (`ice_server_service.dfy`): its assembly, as a loop.
- **Client-visible runs** (`scenarios.dfy`): runs on fresh objects.
  - Capacity is enforced.
  - A full session rejects even a re-joining member.
  - A reconnect keeps one row.
  - Chat reaches every member, while a status change reaches only the others.
  - A dropped connection is announced once.

Clock readings are integers (seconds) passed as `now`. Fresh GUIDs are parameters.
The username lookup through navigation properties is a parameter `username: int -> string`.

## Model

| member | source | states |
|---|---|---|
| Wrappers.FirstMatch | Server/Services/SessionService.cs:50-54 | FirstOrDefault: the index of the first matching element, no earlier element matches, and None exactly when no element matches |
| Models.NewSession | Server/Models/Session.cs:3-14 | a new session has capacity 10, no end time, status Active, type VideoCall, an empty name, and the generated id beside the numeric key |
| Models.NewParticipant | Server/Models/SessionParticipant.cs:3-14 | a new participant row is active (no leave time) and Connected, not muted, video enabled, with an empty connection id |
| Claims.GetUserId | Server/SignalR/SignalingHub.cs:30-34 | the user id is 0 when the claim is absent or not an Int32; a claim that parses gives exactly its parsed value, and a non-zero id always comes from such a claim |
| Claims.TrimStart | Server/SignalR/SignalingHub.cs:33 | int.TryParse drops leading white space: the result is a suffix that starts with no white space, and everything removed is white space |
| Claims.TrimEnd | Server/SignalR/SignalingHub.cs:33 | int.TryParse drops trailing white space: the result is a prefix that ends with no white space, and everything removed is white space |
| Claims.TryParseInt32 | Server/SignalR/SignalingHub.cs:33 | int.TryParse: a parsed value lies in the Int32 range, and an empty or all-white claim never parses |
| Claims.TryParsePadded | Server/SignalR/SignalingHub.cs:33 | a rendered Int32 with white space on either side still parses as that number |
| Claims.NatToStringDigits | Server/Services/AuthService.cs:109 | the decimal rendering of an id is non-empty, all digits, and reads back as the same number |
| Claims.UserIdClaimRoundTrip | Server/Services/AuthService.cs:107-113 | the claim the token issuer writes for an Int32 id parses back to that id, so the hub and the controllers see the user the token was issued for |
| Claims.IntToStringShape | Server/Services/AuthService.cs:109 | the rendering of an id has no white space at either end and reads back, sign included, as that id |
| SessionService.ActiveRows | Server/Services/SessionService.cs:119-121 | the active rows of a session: as many as its active count, every one active and from the table, and every active row included |
| SessionService.ActiveCountZero | Server/Services/SessionService.cs:62 | the active count of a session is 0 exactly when it has no active row |
| SessionService.ActiveCountAppend | Server/Services/SessionService.cs:74-84 | appending a row raises the count by one exactly when the row is active in that session |
| SessionService.ActiveCountMonotone | Server/Services/SessionService.cs:176-177 | a change that activates no row cannot raise a session's active count |
| SessionService.HistoryKeptTransitive | Server/Services/SessionService.cs:176-177 | "a leave time is never unset, no row changes session, user or join time" composes across operations |
| SessionService.DeactivatingKeepsInvariant | Server/Services/SessionService.cs:197-201 | leave, end and flag updates keep the store invariant: one active row per user, capacity respected |
| SessionService.CheckJoin | Server/Services/SessionService.cs:50-66 | the join is rejected when no Active session has the id, then when the active count has reached capacity, before membership is consulted; otherwise the index of the Active session with room |
| SessionService.JoinRows | Server/Services/SessionService.cs:69-92 | an admitted join appends exactly one row when the user has no active row in the session, and otherwise adds none; every row other than the user's active one is unchanged |
| SessionService.JoinRowsMembership | Server/Services/SessionService.cs:68-92 | after an admitted join the user holds an active Connected row bound to the new connection id |
| SessionService.JoinRowsCount | Server/Services/SessionService.cs:72-92 | a join adds one active row when the user was not a member and none when it was (the row is updated in place); other sessions' counts do not move |
| SessionService.JoinRowsOneActive | Server/Services/SessionService.cs:68-92 | a join never gives a user a second active row in the same session |
| SessionService.AdmittedJoinKeepsInvariant | Server/Services/SessionService.cs:61-92 | an admitted join keeps at most one active row per (session, user) and every active count within MaxParticipants |
| SessionService.RestampedSessionsKeepInvariant | Server/Services/SessionService.cs:193-194 | changing a session's status and end time keeps the store invariant |
| SessionService.EndKeepsInvariant | Server/Services/SessionService.cs:193-201 | ending a session (status Ended, every active row soft-left) keeps the store invariant and the participation history |
| SessionService.JoinRowsHistory | Server/Services/SessionService.cs:86-92 | a join keeps every earlier row's session, user, join time and leave time |
| SessionService.ActiveOnly | Server/Services/SessionService.cs:139 | exactly the sessions whose status is Active, and no more of them than the table has |
| SessionService.InsertNewestFirst | Server/Services/SessionService.cs:140 | inserting into a newest-first list keeps it newest first and adds exactly that element |
| SessionService.InsertStep | Server/Services/SessionService.cs:140 | the recursive step of the insertion: the head, newer than the new entry, followed by the entry inserted into the rest, is still newest first and holds exactly the old entries plus the new one |
| SessionService.SortNewestFirst | Server/Services/SessionService.cs:140 | OrderByDescending(CreatedAt): the result is newest first and a permutation of its input |
| SessionService.EndTarget | Server/Services/SessionService.cs:184-191 | End acts exactly when a session with the id exists and was created by the caller; its status is not consulted |
| SessionService.EndAllClears | Server/Services/SessionService.cs:196-201 | after ending, the session has no active row, each previously active row has the end time as its leave time and status Disconnected, and other sessions' rows are unchanged |
| SessionService.SessionStore.Create | Server/Services/SessionService.cs:17-45 | appends one Active session created by the caller with the requested name, capacity and type; reports it with 0 participants and the creator's name or "Unknown"; keeps the invariant |
| SessionService.SessionStore.Join | Server/Services/SessionService.cs:48-95 | both rejections return null and change nothing; an admitted join re-binds the user's active row or appends one, and returns the session as GetSession reads it; keeps the invariant and history |
| SessionService.Detail | Server/Services/SessionService.cs:110-131 | the session's response lists one entry for each active row of the session and for nothing else, and has as many entries as the active count |
| SessionService.SessionStore.GetSession | Server/Services/SessionService.cs:97-132 | null exactly when no session has the id, whatever its status; otherwise the id, name, capacity, status, type, creation time and creator's name of that session, CurrentParticipants equal to the number of listed participants and to the active count, and a participant entry exactly for each active row of the session |
| SessionService.SessionStore.ListActiveSessions | Server/Services/SessionService.cs:134-153 | one summary per Active session and no other (a permutation of them), newest first |
| SessionService.SessionStore.Leave | Server/Services/SessionService.cs:156-180 | false and no change when the session is missing or the user has no active row; otherwise that one row gets a leave time and Disconnected |
| SessionService.SessionStore.End | Server/Services/SessionService.cs:182-204 | false and no change unless the caller created the session; otherwise the session is Ended with an end time, and every active row of it is soft-left by the loop |
| SessionService.SessionStore.UpdateParticipantStatus | Server/Services/SessionService.cs:207-222 | false and no change when no active row has the connection id; otherwise only that row's mute and video flags change |
| Connections.BoundToAfterAdd | Server/Services/ConnectionManager.cs:18-21 | binding a connection moves it into its new session's set and out of every other session's set |
| Connections.BoundToAfterRemove | Server/Services/ConnectionManager.cs:23-26 | unbinding a connection removes it from every session's set and nothing else |
| Connections.ConnectionManager.AddConnection | Server/Services/ConnectionManager.cs:18-21 | inserts or overwrites the binding; the lookup then returns exactly (userId, sessionId); other bindings are unchanged; the count grows by one exactly when the id was new |
| Connections.ConnectionManager.RemoveConnection | Server/Services/ConnectionManager.cs:23-26 | deletes the binding when present and is a no-op otherwise (idempotent); other bindings are unchanged; the count drops by one exactly when the id was bound |
| Connections.ConnectionManager.GetConnectionInfo | Server/Services/ConnectionManager.cs:28-35 | the stored pair when the id is bound, null otherwise |
| Connections.ConnectionManager.GetConnectionsBySession | Server/Services/ConnectionManager.cs:37-43 | exactly the bound ids whose session is the argument |
| Connections.ConnectionManager.GetActiveConnectionsCount | Server/Services/ConnectionManager.cs:45-48 | the number of bindings |
| Signaling.AddToGroup | Server/SignalR/SignalingHub.cs:108 | the group gains the connection, and every other group is unchanged |
| Signaling.RemoveFromGroup | Server/SignalR/SignalingHub.cs:130 | the group loses the connection, and every other group is unchanged |
| Signaling.UnbindKeepsGrouped | Server/SignalR/SignalingHub.cs:130-131 | unbinding a connection, and taking it out of one group or of all groups, keeps every remaining binding inside its session's group |
| Signaling.OpenedLog | Server/SignalR/SignalingHub.cs:45-52 | the log row of a new connection is open (no disconnect time or reason) and records the user, the connection and the time |
| Signaling.CloseFirstOpenLog | Server/SignalR/SignalingHub.cs:79-87 | the connection's first open log row gets the disconnect time and reason, no other row changes, and with no open row the log is unchanged |
| Signaling.SignalingHub.OnConnected | Server/SignalR/SignalingHub.cs:36-56 | appends one open log row, with "Unknown" for a missing address or agent; groups and sends are unchanged |
| Signaling.SignalingHub.OnDisconnected | Server/SignalR/SignalingHub.cs:58-91 | only for a bound connection, ParticipantLeft goes to the other members of its session's group and the binding is removed, so a second disconnect sends nothing; the first open log row is closed with the exception message or "Normal disconnect"; the store is untouched |
| Signaling.SignalingHub.Drop | Server/SignalR/SignalingHub.cs:61-76 | for a bound connection, ParticipantLeft goes to the other members of its session's group and the binding is removed; an unbound connection sends nothing; the connection then leaves every group, and every remaining binding stays inside its group |
| Signaling.SignalingHub.JoinSession | Server/SignalR/SignalingHub.cs:96-120 | on a rejection only an Error goes to the caller, and groups, registry and rows are unchanged; on success the caller joins the group and is bound (overwriting any earlier binding), and ParticipantJoined goes to the group minus the caller |
| Signaling.SignalingHub.Subscribe | Server/SignalR/SignalingHub.cs:108-117 | the admitted caller enters the group and is bound (overwriting an earlier binding), and ParticipantJoined goes to the group minus the caller; every binding stays inside its group |
| Signaling.SignalingHub.LeaveSession | Server/SignalR/SignalingHub.cs:125-141 | whatever the store answers, the caller leaves the group and is unbound, and ParticipantLeft goes to the remaining members |
| Signaling.SignalingHub.Unsubscribe | Server/SignalR/SignalingHub.cs:130-138 | the caller leaves the group and is unbound, and ParticipantLeft goes to the members that remain; every other binding stays inside its group |
| Signaling.SignalingHub.SendOffer | Server/SignalR/SignalingHub.cs:146-159 | exactly one message, to the target alone, carrying the caller's connection and user ids; membership is not checked |
| Signaling.SignalingHub.SendAnswer | Server/SignalR/SignalingHub.cs:164-177 | exactly one message, to the target alone, carrying the caller's connection and user ids |
| Signaling.SignalingHub.SendIceCandidate | Server/SignalR/SignalingHub.cs:182-192 | exactly one message, to the target alone, carrying the caller's connection id and no user id |
| Signaling.SignalingHub.UpdateStatus | Server/SignalR/SignalingHub.cs:197-214 | the flags are stored on the caller's active row if it has one, and ParticipantStatusChanged goes to the other members whether or not a row was updated |
| Signaling.SignalingHub.SendMessage | Server/SignalR/SignalingHub.cs:219-233 | one ReceiveMessage to the whole group, the sender included, with the name claim or "Unknown" |
| SessionController.DefaultCreateSessionRequest | Server/Models/DTOs/SessionDTOs.cs:3-8 | a create request without a capacity or type asks for 10 participants and VideoCall |
| SessionController.CreateSessionGuard | Server/Controllers/SessionController.cs:37-53 | Unauthorized for user 0; then BadRequest for a blank name; then BadRequest for a capacity outside 2..100. The service is called exactly when all pass, so every session it creates has 2 <= max <= 100 |
| SessionController.CreateSession | Server/Controllers/SessionController.cs:35-62 | the guard's answer, else BadRequest when the service returns null, else Ok with its result |
| SessionController.JoinSessionGuard | Server/Controllers/SessionController.cs:72-85 | Unauthorized for user 0, BadRequest for a blank session id, else the service call with the freshly generated connection id |
| SessionController.JoinSession | Server/Controllers/SessionController.cs:70-94 | a null result (missing or full, indistinguishably) is NotFound, otherwise Ok |
| SessionController.GetSession | Server/Controllers/SessionController.cs:102-112 | NotFound ("Session not found") exactly when the service returns null, which is when no session has the id; otherwise Ok with exactly the service's response |
| SessionController.GetActiveSessions | Server/Controllers/SessionController.cs:119-123 | always Ok, newest first, holding exactly one summary per Active session and no other |
| SessionController.MemberGuard | Server/Controllers/SessionController.cs:133-139 | leave and end are refused with Unauthorized exactly for user 0; the session id is not checked |
| SessionController.LeaveSession | Server/Controllers/SessionController.cs:131-148 | Unauthorized for user 0, NotFound when the service returns false, Ok otherwise |
| SessionController.EndSession | Server/Controllers/SessionController.cs:156-173 | Unauthorized for user 0, Forbid when the service returns false, Ok otherwise |
| ActionResults.IsWhiteSpace | Server/Controllers/SessionController.cs:43 | char.IsWhiteSpace; every character int.TryParse skips is white space, and on ASCII the two agree exactly |
| ActionResults.AllWhiteSpace | Server/Controllers/SessionController.cs:43 | true exactly when every character of the string is white space |
| ActionResults.IsNullOrWhiteSpace | Server/Controllers/AuthController.cs:30-32 | string.IsNullOrWhiteSpace: true exactly for null or a string of white space only, the empty string included |
| AuthController.RegisterGuard | Server/Controllers/AuthController.cs:30-37 | BadRequest exactly when any of username, email or password is blank; otherwise the service gets the three fields |
| AuthController.Register | Server/Controllers/AuthController.cs:28-46 | the guard's BadRequest, else BadRequest when the service returns null, else Ok with its response |
| AuthController.LoginGuard | Server/Controllers/AuthController.cs:56-61 | BadRequest exactly when email or password is blank |
| AuthController.Login | Server/Controllers/AuthController.cs:54-70 | the guard's BadRequest, else Unauthorized when the service returns null, else Ok with its response |
| AuthController.CurrentUserGuard | Server/Controllers/AuthController.cs:81-88 | Unauthorized exactly when the id claim is missing or not an Int32; a claim of 0 still reaches the lookup |
| AuthController.GetCurrentUser | Server/Controllers/AuthController.cs:79-103 | NotFound for an unknown user, otherwise Ok with its id, name, email, creation and last-login times |
| AuthController.IssuedClaimPassesGuard | Server/Controllers/AuthController.cs:83-88 | the claim written for an Int32 user id passes the guard as that very id |
| Base64.Encode | Server/Services/AuthService.cs:133 | Convert.ToBase64String: four characters per started group of three bytes, of which exactly the last (3 - n mod 3) mod 3 are '=' |
| Base64.RoundTrip | Server/Services/AuthService.cs:133 | decoding undoes the encoding |
| Base64.Injective | Server/Services/AuthService.cs:133 | two byte strings have the same encoding exactly when they are equal |
| AuthService.HashPassword | Server/Services/AuthService.cs:129-134 | the stored hash of any password is 44 characters, of which only the last is '=' padding |
| AuthService.SameHashSameDigest | Server/Services/AuthService.cs:129-134 | two passwords hash alike exactly when their SHA-256 digests agree: the Base64 step loses nothing |
| AuthService.VerifyPassword | Server/Services/AuthService.cs:136-140 | a password verifies exactly when its hash equals the stored hash |
| AuthService.VerifyOwnHash | Server/Services/AuthService.cs:129-140 | a password always verifies against its own hash, and against another password's hash exactly when the two digests agree |
| AuthService.ExpiresAt | Server/Services/AuthService.cs:50-57 | the token expires the configured number of minutes after issue, 1440 when unset |
| AuthService.NewUser | Server/Services/AuthService.cs:37-44 | a registered user is active and has never logged in |
| AuthService.FoundByEmailIsOnly | Server/Services/AuthService.cs:63 | under unique emails, the lookup by email finds the one user with that email |
| AuthService.UserStore.Register | Server/Services/AuthService.cs:24-59 | null, with nothing added, exactly when the email or the username is taken; otherwise one active user holding the password's hash, with the response naming it and expiring as configured; uniqueness is kept |
| AuthService.UserStore.Login | Server/Services/AuthService.cs:61-88 | null and no change for an unknown email, a wrong password or an inactive user; otherwise only that user's last login changes, and the response carries its name and email |
| AuthService.UserStore.GetUserById | Server/Services/AuthService.cs:90-93 | the user with that key, and under identity keys one exists exactly for 1..count |
| AuthService.UserStore.GetUserByEmail | Server/Services/AuthService.cs:95-98 | the user with that email, and null exactly when there is none |
| AuthService.RegisterThenLogin | Server/Services/AuthService.cs:24-88 | after a successful registration, a login with the same email and password succeeds for that account; after a refused one, the login fails when nobody holds the email, and otherwise succeeds exactly when the account holding the email is active and the password hashes to its stored hash |
| IceServerService.GetIceServers | Server/Services/IceServerService.cs:14-51 | one entry per STUN URL, in order, with just that URL and no credentials; a TURN entry is added exactly when TURN is enabled with a non-empty URL list, and it comes last with the configured username and credential; the length is the STUN count plus that one |
| Scenarios.Caller | Server/Services/AuthService.cs:107-113 | a hub context built from a token for an Int32 user id yields that id (0 for 0) |
| Scenarios.TwoNewcomers | Server/Services/SessionService.cs:50-85 | in an Active session with room for two, users 1 and 2 are each admitted as newcomers with one new row, and the active count goes 1, then 2 |
| Scenarios.CapacityTwoVerdicts | Server/Services/SessionService.cs:61-66 | once two users are in, a session of capacity 2 rejects any join as full |
| Scenarios.CapacityIsEnforced | Server/Services/SessionService.cs:61-66 | in a capacity-2 session, the first join reports 1 participant, the second 2, and a third user is rejected |
| Scenarios.MemberRejoiningFullSessionIsRejected | Server/Services/SessionService.cs:61-72 | once a session is full, even a member re-joining it is rejected, and its row keeps its old connection |
| Scenarios.SmallSessionAdmits | Server/Services/SessionService.cs:50-72 | an Active capacity-10 session with no row, or one member's row, admits a join: a re-join for the member, a new row for anyone else |
| Scenarios.ReconnectKeepsOneRow | Server/Services/SessionService.cs:86-92 | a member reconnecting on a second connection keeps one Connected row, now bound to the second connection; dropping the first connection leaves that row as it is |
| Scenarios.ChatReachesAllStatusReachesOthers | Server/SignalR/SignalingHub.cs:203-230 | with two members, user 1's chat reaches both connections, while its status change reaches only the other |
| Scenarios.DropIsAnnouncedOnce | Server/SignalR/SignalingHub.cs:58-76 | an abrupt drop sends one ParticipantLeft, to the remaining member only, and removes the binding; a second disconnect signal sends nothing |

## Behaviour of the code that the model keeps

- **A full session is not a distinct result.** JoinSessionAsync returns null when no Active session has the id (SessionService.cs:56-59) and also when the active count has reached capacity (SessionService.cs:63-66). The controller turns both into one NotFound.
- **The capacity check and the insert are separate steps.** The count is read at SessionService.cs:62 and the row is saved at SessionService.cs:83-84, with no lock or transaction between them. The model runs each operation as one atomic step.
- **Name and capacity are checked only by the HTTP controller** (SessionController.cs:43-51). CreateSessionAsync accepts any value, so `SessionStore.Create` does too, and so does any other caller of the service.
- **A disconnect does not touch the store.** OnDisconnectedAsync (SignalingHub.cs:58-91) calls only the connection manager and the connection log, so the participant row stays active after a drop (`OnDisconnected` ensures the store is unchanged).
- **Joining a second session overwrites the binding.** JoinSession calls AddConnection (SignalingHub.cs:109) without looking for an earlier binding of the connection.
- **An existing member can be turned away.** The full check (SessionService.cs:63-66) runs before the membership lookup (SessionService.cs:69-70), so a member re-joining a full session is rejected (`MemberRejoiningFullSessionIsRejected`).

## Left out

- **Not modelled at all:**
  - Concurrency: races between joins, the thread-safety of the concurrent dictionary, and interleaved hub calls. Every operation is one atomic step.
  - Persistence failures ("Unavailable"): the store never fails.
  - ILogger calls.
  - The SignalR transport itself: delivery is the outbox, and a send to a vanished connection is a send nobody receives.
  - SHA-256 and the UTF-8 encoding of the password: one uninterpreted function `sha256` from the password to 32 bytes.
  - JWT signing, and the token's claims other than the id: the token is a string parameter.
  - `Guid.NewGuid` and `DateTime.UtcNow`: parameters. One `now` serves every clock reading of an operation, so `CreatedAt` and `ExpiresAt` of one call share a reading.
- **Records and mappings:**
  - The navigation properties `Creator` and `User`: a `username` function and, in Create, an optional creator name. The foreign keys guarantee the user exists.
  - Cascade deletes: nothing is ever deleted.
- **Behaviour a member does not capture:**
  - SessionService.SessionStore.Create: requires that no session already carries the freshly generated id. This stands for GUID uniqueness plus the unique index, whose violation would throw.
  - Connections.ConnectionManager.GetConnectionsBySession: returns a set. The source returns a list in dictionary enumeration order, which the model does not capture.
  - Claims.GetUserId: follows the integer style of `int.TryParse` (white space, an optional sign, digits, the Int32 range). Culture-specific sign symbols and trailing NUL characters are not modelled.
  - Signaling.SignalingHub.OnConnected: the address and user agent arrive as options. A missing User-Agent header reads as the empty string in the source, so only a missing HTTP context gives "Unknown".
  - Signaling.SignalingHub.OnDisconnected: after the hub's own handler, the transport drops the connection from every group. The model includes that step in the same transition.
  - AuthController.GetCurrentUser: the response body is modelled as a record. JSON property naming is not modelled.
- **Outside the modelled core:**
  - The HTTP pipeline, authorization attributes, CORS, the ICE-servers controller, the database seeder, the launcher and the client SDKs.
- **Parts of the audit log:** the session column of the connection log is never written by the hub, so it stays None.
