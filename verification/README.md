# Kinder core, modelled in Dafny

Kinder is a dating application: an Express/Sequelize back end with a socket.io chat, and a React
client. This project models the logic at the heart of both halves and proves properties of it.

Back end:
- the swipe/match engine (`POST /swipe`);
- candidate search (`POST /findPeople`);
- the chat routes (`GET /matches` and `GET /matches/:matchId/messages`);
- profile editing (`PUT /editProfile`, `GET /editProfile/getUser`, `POST /editProfile/saveUserImages`, `DELETE /editProfile/deleteUserImage`), each acting on the user named by the token;
- the account routes (`/register`, `/login`, `/refresh`, `/logout`, `/check`);
- the `authenticateToken` middleware;
- the socket handler: handshake authentication, online presence and status notifications, match
  rooms and message delivery.

Client:
- the chat screen (current user, incoming and historical messages, room switching, sending, the
  last-message preview);
- the swiping screen (photo carousel, swipes, card removal);
- the registration wizard (per-step validation, notices, final submission).

Layout, one module per source file plus shared modules:

| file | module | models |
|---|---|---|
| `js.dfy` | `Js` | JavaScript semantics the core relies on: `trim`, white space, `toString` of integers, `parseInt`, the truncating `%`, truthiness |
| `dates.dfy` | `Dates` | calendar dates, `calculateAge`, date-fns `subYears` |
| `models.dfy` | `Models` | the table rows (users, images, swipes, matches, messages) and the queries shared by several routes |
| `store.dfy` | `Store` | the `Database` class holding the tables; route handlers change its fields |
| `tokens.dfy` | `Tokens` | JWT claims, the four secrets, token lifetimes, and the soundness assumptions placed on `sign`/`verify` |
| `middleware.dfy` | `AuthMiddleware` | `authenticateToken` |
| `auth.dfy` | `AuthRoutes` | the account routes and the set of active refresh tokens |
| `swipe.dfy` | `SwipeRoute` | `POST /swipe` |
| `findpeople.dfy` | `FindPeople` | `POST /findPeople` |
| `chat_routes.dfy` | `ChatRoutes` | the two chat routes |
| `edit_profile.dfy` | `EditProfile` | the profile routes and `extractPublicId` |
| `socket.dfy` | `SocketHandler` | the socket.io handler (`SocketHub` class) |
| `chat_client.dfy` | `ChatClient` | `src/Components/Chat.js` (`ChatSession` class) |
| `main_screen.dfy` | `MainScreen` | `src/Components/MainScreen.js` (`CardDeck` class) |
| `register.dfy` | `RegisterForm` | `src/Components/Register.js` (`Wizard` class) |

Each request handler is modelled as one atomic step on the tables. Cryptography (`jwt.sign`,
`jwt.verify`, `bcrypt`, `jwtDecode`) enters as function-valued parameters. The `Tokens.Sound`
predicate states what the proofs assume of them: a token verifies to its payload under the secret
that signed it until it expires, and never verifies under another secret. The clock enters as a
`now` or `today` parameter.

## Model

| member | source | states |
|---|---|---|
| Js.Trim | backend/socket/socketHandler.js:188 | `String.prototype.trim`: white space cut from both ends; `TrimIsInnerSlice` and `TrimIdempotent` state what it means |
| Js.ParseInt | src/Components/Register.js:225-226 | the global `parseInt` without a radix: leading white space, an optional sign, a `0x` prefix, then the longest digit run, `None` for `NaN`; `ParseIntDecimal` and `ParseNegativeDigits` state what it reads |
| Js.TrimStart | backend/socket/socketHandler.js:188 | the result is a suffix of the input; everything cut off is white space; the result does not start with white space |
| Js.TrimEnd | backend/socket/socketHandler.js:214 | the result is a prefix of the input; everything cut off is white space; the result does not end with white space |
| Js.TrimIsInnerSlice | backend/socket/socketHandler.js:214 | `trim()` returns a contiguous slice of its input, with only white space cut on either side |
| Js.AllSpaceTrimStart | backend/socket/socketHandler.js:188 | a text made only of white space trims to empty |
| Js.TrimEmptyIff | backend/socket/socketHandler.js:188 | `content.trim() === ''` holds exactly when the content is all white space |
| Js.TrimIdempotent | backend/socket/socketHandler.js:214 | trimming twice gives the same text as trimming once, so the stored content is already trimmed |
| Js.Decimal | backend/socket/socketHandler.js:82 | `toString()` of a natural number is a non-empty string of digits with no leading zero |
| Js.DigitValue | src/Components/Register.js:225-226 | `0`-`9` read as 0 to 9 and letters of either case as 10 to 35; every other character reads as 36, a digit in no radix |
| Js.DigitRun | src/Components/Register.js:225-226 | `parseInt` reads the longest prefix of digits in the radix, stopping at the first non-digit |
| Js.DecimalValue | backend/socket/socketHandler.js:82 | the digits of `toString()` denote the number back |
| Js.DigitRunOfDigits | src/Components/Register.js:225-226 | a text made only of decimal digits is read whole |
| Js.ParseIntDecimal | src/Components/Register.js:225-226 | `parseInt(String(n)) == n` for every natural `n` |
| Js.ParseIntNegative | src/Components/Register.js:225-226 | `parseInt("-" + String(n)) == -n` |
| Js.ParseNegativeDigits | src/Components/Register.js:225-226 | a minus sign followed by a non-empty run of decimal digits parses as the negated value of those digits |
| Js.JsRem | src/Components/MainScreen.js:135-136 | JavaScript `%`: the result has the sign of the dividend and is smaller than the divisor in magnitude; it equals the mathematical remainder for non-negative operands |
| Dates.Age | src/Components/Register.js:5-24 | `calculateAge` (the same arithmetic as src/Components/MainScreen.js:215-224): the difference of the years, one less while this year's birthday is still ahead; `AgeAtLeastIff` and `AgeIsCompletedYears` state what it means |
| Dates.AgeAtLeastIff | src/Components/MainScreen.js:215-224 | `calculateAge` is at least `n` exactly when the n-th birthday is today or already past |
| Dates.AgeIsCompletedYears | src/Components/Register.js:15-20 | `calculateAge` counts completed years: the age-th birthday has passed, the next one has not |
| Dates.SubYears | backend/routes/findPeople.js:43-47 | `subYears` keeps month and day, moving 29 February to the 28th in a common year |
| Dates.SubYearsBoundIsAge | backend/routes/findPeople.js:41-43 | a date of birth on or before `subYears(today, n)` is exactly an age of at least `n` (today not 29 February) |
| Models.ParseDirection | backend/models/Swipe.js:31 | the swipe direction column accepts exactly "left" and "right" |
| Models.Other | backend/routes/Chat.js:47 | `user1_id === u ? user2 : user1` gives a party of the match, and the pair {result, u} is the match's pair |
| Models.MatchesOf | backend/routes/Chat.js:18-25 | the OR query returns exactly the matches involving the user |
| Models.ImageUrlsOf | backend/routes/findPeople.js:90-96 | a user's image list holds exactly the URLs of that user's image rows |
| Models.FirstImageUrl | backend/socket/socketHandler.js:219-225 | the URL of the user's first image row in table order, or null exactly when the user has no image |
| Models.FirstImageUrlIsLowestId | backend/socket/socketHandler.js:219-225 | while image ids ascend in table order, the first image row of the user is the user's row with the lowest id, the one `order: [['id', 'ASC']]` picks |
| Models.FirstImageUrlIsHead | backend/routes/Chat.js:123-125 | the first image is the head of the user's image list |
| AuthMiddleware.Split | backend/middleware/authMiddleware.js:7 | `split(" ")` gives at least one field and no field holds the separator |
| AuthMiddleware.JoinSplit | backend/middleware/authMiddleware.js:7 | joining the fields of `split` with the separator gives the input back |
| AuthMiddleware.SplitAfterField | backend/middleware/authMiddleware.js:7 | splitting `a + " " + b` yields the field `a` followed by the fields of `b` |
| AuthMiddleware.SplitNoSeparator | backend/middleware/authMiddleware.js:7 | a text without spaces splits into itself |
| AuthMiddleware.BearerToken | backend/middleware/authMiddleware.js:7 | a token is only taken from a present, non-empty header, and it contains no space |
| AuthMiddleware.BearerTokenOf | backend/middleware/authMiddleware.js:7 | the token is the second space-separated field, whatever scheme precedes it and whatever follows it |
| AuthMiddleware.Authenticate | backend/middleware/authMiddleware.js:4-26 | 401 exactly when no token is found; 403 exactly when the token does not verify under `JWT_SECRET`; otherwise the request proceeds with the decoded payload |
| AuthMiddleware.AccessTokenPasses | backend/middleware/authMiddleware.js:17-20 | a token signed with `JWT_SECRET` and not expired lets the request through with its claims |
| AuthMiddleware.ForeignTokenRefused | backend/middleware/authMiddleware.js:21-25 | a token signed with any other secret is answered 403 |
| AuthRoutes.RefreshedAccessTokenAsWritten | backend/routes/authRoutes.js:107-111 | the access token `/refresh` signs, as written: id and username, signed with `SECRET_KEY`, lasting 15 minutes |
| AuthRoutes.RefreshedAccessToken | backend/routes/authRoutes.js:107-111 | the access token `/refresh` issues in this model: the same claims and lifetime, signed with `JWT_SECRET` |
| AuthRoutes.Register | backend/routes/authRoutes.js:15-53 | username clash checked before email clash, neither changes the table; otherwise one account is added with the hashed password; unique usernames and emails are preserved |
| AuthRoutes.AuthService.constructor | backend/routes/authRoutes.js:14 | the refresh-token set starts empty |
| AuthRoutes.AuthService.Login | backend/routes/authRoutes.js:56-85 | 404 exactly for an unknown email; 400 when the password does not match; on success the access token carries the profile claims under `JWT_SECRET` for 15 minutes and the refresh token, signed with `JWT_REFRESH_SECRET` for 3 hours, joins the active set |
| AuthRoutes.AuthService.Refresh | backend/routes/authRoutes.js:87-127 | 401 without a cookie; 403 for a token not in the active set or failing to verify under `REFRESH_SECRET`, with the set unchanged; on success the old token is removed and the new refresh token added, and the new access token is the corrected one, signed with `JWT_SECRET` |
| AuthRoutes.AuthService.Logout | backend/routes/authRoutes.js:130-136 | a present cookie's token leaves the active set; without a cookie nothing changes |
| AuthRoutes.RefreshTokenSingleUse | backend/routes/authRoutes.js:92-105 | a refresh token that was exchanged, or was already unknown, is refused on its next use, unless the exchange re-minted the same token text (two refreshes in the same second sign identical claims) |
| AuthRoutes.LogoutRevokes | backend/routes/authRoutes.js:130-132 | after logout the token is refused by `/refresh` |
| AuthRoutes.LoginRefreshTokenAccepted | backend/routes/authRoutes.js:71-75 | the login refresh token verifies at `/refresh` exactly when `REFRESH_SECRET` equals `JWT_REFRESH_SECRET` |
| AuthRoutes.RefreshedTokenRefusedAsWritten | backend/routes/authRoutes.js:107-111 | as written, an access token from `/refresh` is refused by the middleware whenever `SECRET_KEY` differs from `JWT_SECRET`, as in the repository's test configuration |
| AuthRoutes.RefreshedTokenRefusedUnderTestSecrets | backend/routes/authRoutes.js:107-111 | with the secrets of the repository's route tests, an access token fresh from `/refresh` as written is refused by the middleware with 403 |
| AuthRoutes.RefreshedTokenAccepted | backend/routes/authRoutes.js:107-111 | with the access token signed by `JWT_SECRET`, it passes the middleware for its 15 minutes |
| AuthRoutes.Check | backend/routes/authRoutes.js:138-152 | `/check` answers 401, 403 or the decoded user exactly as the middleware decides |
| AuthRoutes.CheckWithoutHeader | backend/routes/authRoutes.js:139-143 | a request without a header gets "Access token is missing" |
| SwipeRoute.ResponseMessage | backend/routes/swipe.js:59-80 | the `message` text of each of the four answers |
| SwipeRoute.RemovePair | backend/routes/swipe.js:50-57 | `Swipe.destroy` keeps exactly the rows not between the two users, in order |
| SwipeRoute.RemovePairAppend | backend/routes/swipe.js:62-69 | the destroy filter works row by row across concatenated tables |
| SwipeRoute.MatchCreationKeepsPairsUnique | backend/routes/swipe.js:42-47 | creating a match for a pair that has none keeps every unordered pair matched at most once |
| SwipeRoute.CountPairZero | backend/routes/swipe.js:33-40 | a pair the look-up does not find has no match row |
| SwipeRoute.UniquePairsCountOne | backend/routes/swipe.js:33-40 | with unique pairs, a pair the look-up finds has exactly one match row |
| Store.Database.CreateSwipe | backend/routes/swipe.js:14-18 | `Swipe.create`: the row gets the next swipe id, the two users and the direction; it is appended, the counter moves on by one and the store invariant is kept |
| Store.Database.CreateMatch | backend/routes/swipe.js:44-47 | `Match.create`: the row gets the next match id and the two users; it is appended, the counter moves on by one and the store invariant is kept |
| SwipeRoute.DestroyPairSwipes | backend/routes/swipe.js:50-57 | the swipes table becomes exactly the rows not between the pair, in order, and the store invariant is kept |
| SwipeRoute.RecordSwipe | backend/routes/swipe.js:10-81 | 500 exactly when the insert fails (missing user or bad direction), with no change; otherwise the swipe is stored; "Swipe recorded" unless a right swipe meets a reverse right swipe; then a match is created when none exists and the pair's swipes are destroyed either way; unique pairs are preserved and a matched pair never gets a second match; the store invariant (keys and ids below the counters, images in id order) is kept |
| SwipeRoute.MutualSwipeScenario | backend/routes/swipe.js:22-59 | from a valid store, two users who swipe right on each other end with exactly one match and no swipes between them |
| SwipeRoute.SwipeAfterMatch | backend/routes/swipe.js:60-71 | in a valid store, a swipe between already matched users never creates a second match |
| FindPeople.InDobWindowAsWritten | backend/routes/findPeople.js:42-79 | the query's `dob BETWEEN subYears(today, maxAge) AND subYears(today, minAge)`, as written |
| FindPeople.Eligible | backend/routes/findPeople.js:73-84 | a candidate of the searched sex, in the age range counted with `calculateAge`, and not excluded (the corrected window) |
| FindPeople.Validate | backend/routes/findPeople.js:18-36 | the four 400 answers in order (missing id, missing fields, minimum below 18, bad range); accepted exactly when all fields are present and 18 ≤ min ≤ max |
| FindPeople.MatchedPartnerIds | backend/routes/findPeople.js:57-69 | one partner id per match of the user, and the ids are exactly the user's partners |
| FindPeople.ExcludedIds | backend/routes/findPeople.js:71 | the excluded ids are exactly the user and the user's partners |
| FindPeople.WindowAsWrittenMissesMaxAge | backend/routes/findPeople.js:47-80 | as written, on 2025-06-15 with ages 18 to 30, someone born 1995-01-01 (age 30) falls outside the `between` window |
| FindPeople.WindowAsWrittenOnlyOnBirthday | backend/routes/findPeople.js:43-80 | the window as written only admits ages in range, and admits someone of exactly the maximum age only on their birthday |
| FindPeople.Search | backend/routes/findPeople.js:12-98 | a 400 answer exactly when validation fails, with its reason |
| FindPeople.SearchFindsExactlyEligible | backend/routes/findPeople.js:74-98 | corrected age window: the result holds exactly the users of the searched sex whose completed age lies within the range, other than the user and unmatched with them, each with all of their images |
| ChatRoutes.Summaries | backend/routes/Chat.js:45-65 | one summary per match, in order, with the match id, the other party's id and name, and that party's first image or null; fails exactly when some other party is missing |
| ChatRoutes.ListMatches | backend/routes/Chat.js:13-73 | never 403; a user without matches gets an empty list |
| ChatRoutes.ListMatchesFails | backend/routes/Chat.js:69-72 | 500 exactly when some match of the user points at a missing user |
| ChatRoutes.ListMatchesEntries | backend/routes/Chat.js:45-67 | one entry per match of the user; each entry names a match between the user and the listed partner |
| ChatRoutes.MessagesOfMatch | backend/routes/Chat.js:99-100 | exactly the messages of the match, with their multiplicities |
| ChatRoutes.InsertByCreatedAt | backend/routes/Chat.js:101 | insertion keeps the order by creation time and adds exactly one element |
| ChatRoutes.SortByCreatedAt | backend/routes/Chat.js:101 | the result is ordered by creation time and is a permutation of the input |
| ChatRoutes.HistoryEntries | backend/routes/Chat.js:116-129 | one entry per message carrying the sender's name and first image; fails exactly when a sender is missing |
| ChatRoutes.MatchMessages | backend/routes/Chat.js:77-137 | 403 exactly when the user is not a party of the match |
| ChatRoutes.MatchMessagesContents | backend/routes/Chat.js:99-129 | a successful answer holds exactly the match's messages, ordered by creation time, each with its sender's first image |
| EditProfile.ExtensionDot | backend/routes/editProfile.js:174 | `\.[a-z]{3,4}$`: the dot is followed by 3 or 4 lower-case letters up to the end |
| EditProfile.DigitsEnd | backend/routes/editProfile.js:174 | `\d+` covers the maximal run of digits |
| EditProfile.VersionSlash | backend/routes/editProfile.js:174 | `/v\d+/` matches a slash, a `v`, digits and a slash |
| EditProfile.FirstMatchFrom | backend/routes/editProfile.js:174 | the search finds the leftmost position where the pattern matches, or reports there is none |
| EditProfile.ExtractPublicId | backend/routes/editProfile.js:172-176 | null exactly when the pattern matches nowhere; otherwise the capture of the leftmost match |
| EditProfile.LeftmostMatch | backend/routes/editProfile.js:172-176 | the capture at the first matching position is the result |
| EditProfile.NoMatchInPrefix | backend/routes/editProfile.js:174 | no match can start before the first `/v` |
| EditProfile.VersionSlashOfDecimal | backend/routes/editProfile.js:174 | a decimal version between `/v` and `/` is matched whole |
| EditProfile.DigitsEndAt | backend/routes/editProfile.js:174 | the digit run ends at the first non-digit |
| EditProfile.ExtensionDotOf | backend/routes/editProfile.js:174 | a final dot followed by 3 or 4 lower-case letters is the extension dot found |
| EditProfile.ExtractFromShape | backend/routes/editProfile.js:172-176 | a text of the upload-URL shape yields the identifier between the version and the extension |
| EditProfile.ExtractPublicIdOfUploadUrl | backend/routes/editProfile.js:172-176 | for a URL `prefix/v<version>/<id>.<ext>` the extracted public id is `id` |
| EditProfile.UploadUrlIndices | backend/routes/editProfile.js:172-176 | the parts of an upload URL sit at the positions the pattern needs |
| EditProfile.UpdateProfile | backend/routes/editProfile.js:28-45 | 404 exactly for an unknown user, changing nothing; otherwise only the searched sex, age bounds and bio of that user change |
| EditProfile.GetUser | backend/routes/editProfile.js:48-78 | null exactly for an unknown user; otherwise the user's username, email, date of birth, bio, sex, searched sex and age range, and the user's image URLs in table order, which are exactly the URLs of the user's rows |
| EditProfile.GetUserAfterSave | backend/routes/editProfile.js:63-73 | after `saveUserImages`, `getUser` shows the user's earlier photos followed by the saved URLs, and every other profile is unchanged |
| EditProfile.GetUserAfterDelete | backend/routes/editProfile.js:63-73 | after `deleteUserImage`, `getUser` no longer lists the URL for its owner and shows every other profile unchanged |
| EditProfile.UpdateThenGetUser | backend/routes/editProfile.js:38-73 | a profile read after an update shows the four updated fields and is otherwise unchanged |
| EditProfile.UrlsBeforeNull | backend/routes/editProfile.js:117-124 | the URLs stored before the loop reaches a null item, which is where it fails |
| EditProfile.SaveUserImages | backend/routes/editProfile.js:106-135 | 400 without a user or with no images, changing nothing; otherwise one row per URL before the first null is appended with fresh ids, and the answer is success exactly when every item was stored |
| EditProfile.InsertImage | backend/routes/editProfile.js:118-122 | one `create` appends a row with the next image id for that user and URL, advancing the id counter by one and keeping the table's invariant |
| EditProfile.ImageUrlsOfAppend | backend/routes/editProfile.js:117-124 | a user's image list over appended rows is the concatenation of the lists |
| EditProfile.ImageUrlsOfNewRows | backend/routes/editProfile.js:117-124 | the rows created for a user list exactly the saved URLs, in order |
| EditProfile.ImageUrlsOfOtherUser | backend/routes/editProfile.js:117-124 | the rows created for one user add nothing to another user's images |
| EditProfile.SavedImagesAppearInProfile | backend/routes/editProfile.js:117-124 | after saving, the user's image list is the old one followed by the saved URLs; other users' lists are unchanged |
| EditProfile.RemoveImage | backend/routes/editProfile.js:152-159 | the destroy keeps exactly the rows other than the user's rows with that URL |
| EditProfile.RemoveImageEffect | backend/routes/editProfile.js:152-159 | the URL is gone from the user's images and no other user's images change |
| EditProfile.DeleteUserImage | backend/routes/editProfile.js:138-169 | 400 for a URL with no public id; 500 when the URL or user is missing; otherwise the user's rows with that URL are destroyed, answering 404 exactly when none existed and reporting the count otherwise |
| EditProfile.DestroyImages | backend/routes/editProfile.js:152-159 | `destroy` leaves exactly the rows not matching the user and URL, and the count it answers is the number of rows removed, zero exactly when the table is unchanged |
| EditProfile.RemoveNothingKeeps | backend/routes/editProfile.js:159-161 | the destroy removed no row exactly when the table is unchanged |
| SocketHandler.ValidSendData | backend/socket/socketHandler.js:188 | the `send_message` data check: a truthy match id and a content string that is not empty once trimmed |
| SocketHandler.Admit | backend/socket/socketHandler.js:95-118 | the connection is refused without a token or with one that fails to verify under `JWT_SECRET`; otherwise the decoded payload becomes the socket's user |
| SocketHandler.JoinRoom | backend/socket/socketHandler.js:150 | `socket.join` adds the socket to that room and leaves every other room alone |
| SocketHandler.LeaveRoom | backend/socket/socketHandler.js:178 | `socket.leave` removes the socket from that room and leaves every other room alone |
| SocketHandler.LegacyRoomNamesCollide | backend/socket/socketHandler.js:150-243 | as written, the personal room of user 5 and the chat room of match 5 are the same room |
| SocketHandler.UserRoomJoinKeepsMatchRooms | backend/socket/socketHandler.js:150 | joining a personal room changes no match room's members |
| SocketHandler.PartnerIds | backend/socket/socketHandler.js:62-64 | the partner ids are exactly the other parties of the user's matches, excluding the user |
| SocketHandler.StatusEmissions | backend/socket/socketHandler.js:79-83 | one emission per partner, to that partner's personal room and its sockets |
| SocketHandler.StatusNotificationsReachPartners | backend/socket/socketHandler.js:51-88 | status notifications go to exactly the personal rooms of the user's partners, never the user's own, and carry online exactly when the user came online |
| SocketHandler.NoPartnerNoNotification | backend/socket/socketHandler.js:66-69 | a user without partners notifies nobody |
| SocketHandler.SocketHub.constructor | backend/socket/socketHandler.js:28-39 | nobody is online, no room exists, nothing is emitted |
| SocketHandler.SocketHub.NotifyMatchesAboutStatus | backend/socket/socketHandler.js:51-88 | the emission log grows by exactly the partner notifications |
| SocketHandler.SocketHub.Connect | backend/socket/socketHandler.js:124-157 | a socket without a user id is dropped with no change; otherwise it is added to its user's sockets and personal room, and partners are told the user is online exactly when it had no other socket; with personal and match rooms kept apart (the corrected naming), match rooms are untouched |
| SocketHandler.SocketHub.Disconnect | backend/socket/socketHandler.js:256-283 | the socket leaves its user's set; the user goes offline, and partners are told, exactly when that was the last socket; other users are untouched |
| SocketHandler.SocketHub.JoinMatch | backend/socket/socketHandler.js:164-171 | a falsy match id is ignored; otherwise the socket joins the match room |
| SocketHandler.SocketHub.LeaveMatch | backend/socket/socketHandler.js:173-180 | a falsy match id is ignored; otherwise the socket leaves the match room |
| SocketHandler.SocketHub.SendMessage | backend/socket/socketHandler.js:183-251 | invalid data and non-members are ignored with no change; otherwise the trimmed, non-empty message is stored with the next id and broadcast once to the match room with the sender's name and first image; the store invariant is kept |
| SocketHandler.SocketHub.Deliver | backend/socket/socketHandler.js:211-243 | the text, trimmed by `SendMessage`, is stored as a new row: it is appended to the table with the next message id, and one `new_message` emission goes to the members of the match room carrying the stored row, the sender's name and the sender's first image; the store invariant is kept |
| ChatClient.WellFormed | src/Components/Chat.js:146 | the `new_message` guard: a message with a truthy match id, sender id and id |
| ChatClient.CanSwitch | src/Components/Chat.js:166 | the room-switch guard: a selected partner with a truthy match id, a socket and a user |
| ChatClient.CanSend | src/Components/Chat.js:219 | the send guard: a draft not empty once trimmed, a selected partner with a truthy match id, and a connected socket |
| ChatClient.GetCurrentUserId | src/Components/Chat.js:11-25 | null exactly when there is no token, the token does not decode or it has no id; otherwise `Number(id)`, so a null id gives 0 |
| ChatClient.MountUser | src/Components/Chat.js:46-55 | the user is set exactly when the id is truthy |
| ChatClient.NullIdIsAuthError | src/Components/Chat.js:20-53 | a token whose id is null yields 0 and so shows the authentication error |
| ChatClient.NumericIdSignsIn | src/Components/Chat.js:20-49 | a token with a non-zero numeric id sets that user |
| ChatClient.SenderTypeOf | src/Components/Chat.js:150 | a message is "me" exactly when its sender is the current user |
| ChatClient.Format | src/Components/Chat.js:150 | a formatted message keeps its id, match, sender and content, and is "me" exactly for the user's own messages |
| ChatClient.MergeIncoming | src/Components/Chat.js:144-159 | a malformed message or a known id leaves the state alone; otherwise the message is appended to its match's list and no other list changes |
| ChatClient.MergeIdempotent | src/Components/Chat.js:153-156 | receiving the same message twice has the effect of receiving it once |
| ChatClient.MergeKeepsIdsDistinct | src/Components/Chat.js:151-158 | no list ever holds the same message id twice |
| ChatClient.FormatHistory | src/Components/Chat.js:196-197 | the history keeps every message's id and content in order and marks the user's own as "me" |
| ChatClient.Preview | src/Components/Chat.js:264-266 | "No messages yet" for a missing or empty list; otherwise "You: " for the user's own last message, then its content, cut to 25 characters plus "..." when longer |
| ChatClient.PreviewBounds | src/Components/Chat.js:264-266 | a preview has at most 33 characters, and a short last message is shown whole |
| ChatClient.JoinedRoomsAppend | src/Components/Chat.js:171-178 | the joined rooms after one more event are those before it, updated by that event |
| ChatClient.ChatSession.constructor | src/Components/Chat.js:28-41 | no current match, no messages, an empty draft and nothing emitted |
| ChatClient.ChatSession.SelectPartner | src/Components/Chat.js:165-186 | nothing happens unless partner, socket and user are set; leave is emitted only for a different previous match, join only when the match changes; history is loaded exactly when the match has no list; the left room is no longer joined |
| ChatClient.ChatSession.GoBackToList | src/Components/Chat.js:229-232 | the current match is forgotten |
| ChatClient.ChatSession.ReceiveMessage | src/Components/Chat.js:151-158 | the messages become the merge of the incoming message |
| ChatClient.ChatSession.ReceiveHistory | src/Components/Chat.js:196-197 | the match's list becomes the formatted history; other lists stay |
| ChatClient.ChatSession.Send | src/Components/Chat.js:217-223 | a message is sent exactly when the trimmed draft is non-empty and a match and a connected socket exist; it carries the trimmed draft, and the draft is cleared |
| ChatClient.SentMessagePassesServerValidation | src/Components/Chat.js:219-221 | whatever the client sends passes the server's validation of `send_message` |
| ChatClient.BackThenSwitchKeepsOldRoom | src/Components/Chat.js:171-232 | going back to the list and opening another chat leaves the client in both rooms |
| MainScreen.NextIndex | src/Components/MainScreen.js:128-138 | the photo index after a `next` or `prev` click, wrapping with JavaScript's `%`, unchanged for any other direction; `NextIndexInRange` states that it stays a valid index |
| MainScreen.FindPerson | src/Components/MainScreen.js:129 | `people.find`: the first card with the id, or none exactly when no card has it |
| MainScreen.NextIndexInRange | src/Components/MainScreen.js:131-138 | the next photo index stays within the photos |
| MainScreen.StepForward | src/Components/MainScreen.js:135 | "next" moves one photo forward and wraps from the last to the first |
| MainScreen.StepBack | src/Components/MainScreen.js:136 | "prev" moves one photo back and wraps from the first to the last |
| MainScreen.NextThenPrev | src/Components/MainScreen.js:135-136 | "next" then "prev", or "prev" then "next", returns to the same photo |
| MainScreen.ForwardIsRotation | src/Components/MainScreen.js:135 | k clicks on "next" move the index to (current + k) mod the photo count |
| MainScreen.ChangeImage | src/Components/MainScreen.js:128-140 | an unknown card or one with at most one photo changes nothing; otherwise only that card's index moves; every other index stays |
| MainScreen.ImageUrl | src/Components/MainScreen.js:267-270 | the photo at the card's stored index (0 when none is stored) when that index is within its photos, and the placeholder otherwise; hence always one of the card's photos or the placeholder |
| MainScreen.ShownImageIsOwn | src/Components/MainScreen.js:267-270 | while indices are in range, a card with photos shows one of its own photos |
| MainScreen.ForgetIndex | src/Components/MainScreen.js:145-149 | the swiped card's index is deleted and every other index stays |
| MainScreen.SwipeRequest | src/Components/MainScreen.js:152-160 | a request is sent exactly for "left" or "right", carrying the card's id and the direction |
| MainScreen.RemovePerson | src/Components/MainScreen.js:182 | the filter keeps exactly the cards with another id |
| MainScreen.RemovePersonAppend | src/Components/MainScreen.js:182 | the filter works card by card across concatenated lists |
| MainScreen.FindPersonAfterRemove | src/Components/MainScreen.js:182 | after removal the card cannot be found; any other card is found as before |
| MainScreen.TopCard | src/Components/MainScreen.js:197-211 | the top card is the last of the list, and there is none exactly when the list is empty |
| MainScreen.CardDeck.constructor | src/Components/MainScreen.js:8-11 | no cards, no indices and no swipe sent |
| MainScreen.CardDeck.Load | src/Components/MainScreen.js:112-116 | the fetched cards replace the deck, every new card starts at photo 0 and other indices stay |
| MainScreen.CardDeck.ImageChange | src/Components/MainScreen.js:128-140 | the indices change as `ChangeImage` says and stay in range |
| MainScreen.CardDeck.Swipe | src/Components/MainScreen.js:144-178 | the card's index is forgotten and a swipe request is recorded exactly for "left" or "right" |
| MainScreen.CardDeck.CardLeftScreen | src/Components/MainScreen.js:180-184 | the card leaves the deck and indices stay in range |
| RegisterForm.EmailValid | src/Components/Register.js:62 | the e-mail step's test `/\S+@\S+\.\S+/`: some non-space text, `@`, non-space text, a dot, non-space text |
| RegisterForm.PasswordValid | src/Components/Register.js:109 | at least 6 characters and equal to the confirmation |
| RegisterForm.DobValid | src/Components/Register.js:130-134 | a date is given and `calculateAge` of it is at least 18 |
| RegisterForm.AgeRangeValid | src/Components/Register.js:224-230 | both ages parse, both lie in 18..120 and the minimum is not above the maximum |
| RegisterForm.StepValid | src/Components/Register.js:62-250 | each step's `isValid`, by step index, for the nine steps |
| RegisterForm.CalculateAge | src/Components/Register.js:5-25 | 0 for a missing or invalid date; otherwise the completed years |
| RegisterForm.EmailOfParts | src/Components/Register.js:62 | `local@domain.tld` with non-empty parts and no white space in the domain passes |
| RegisterForm.EmailNeedsAtAndDot | src/Components/Register.js:62 | a text without `@` or without `.` fails |
| RegisterForm.EmailSpaceInDomain | src/Components/Register.js:62 | white space right after the only `@` fails |
| RegisterForm.DobStepIsAdulthood | src/Components/Register.js:130-134 | the date step passes exactly when a valid date was given and the 18th birthday is today or past |
| RegisterForm.AgeRangeStepValid | src/Components/Register.js:224-230 | a valid age step has both ages parsed by `parseInt`, with 18 <= minimum <= maximum <= 120 |
| RegisterForm.AgeRangeExtraCheckIsDead | src/Components/Register.js:266-271 | once the age step is valid, the extra "minimum above maximum" check can never fire |
| RegisterForm.AgeRangeOfDecimals | src/Components/Register.js:224-230 | for typed whole numbers the age step passes exactly when 18 ≤ min ≤ max ≤ 120 |
| RegisterForm.NoticeFor | src/Components/Register.js:276-316 | the notice for an invalid step: on the date step, too young exactly for a given date under 18 and the missing-date notice otherwise; on the password step, too short exactly under 6 characters, then the mismatch notice exactly when the two passwords differ, else the generic password notice; on the age step, minimum above maximum exactly when both parse in that order, then the missing-ages notice exactly when either is empty, else the out-of-range notice; the bio notice on the bio step; the fill-in notice naming the step on every other step |
| RegisterForm.BodyOf | src/Components/Register.js:358-369 | the request body carries the email, username, password, date of birth, location, sex, searched sex and bio as entered, with both ages passed through `parseInt` |
| RegisterForm.SubmittedRangePassesSearchValidation | src/Components/Register.js:224-230 | a registration that passes every step carries an age range the candidate search accepts |
| RegisterForm.Wizard.constructor | src/Components/Register.js:28-42 | the wizard starts at step 0 with the initial form |
| RegisterForm.Wizard.Edit | src/Components/Register.js:56 | the form becomes the edited one |
| RegisterForm.Wizard.Back | src/Components/Register.js:255-259 | the step decreases by one unless it is the first |
| RegisterForm.Wizard.Next | src/Components/Register.js:262-317 | the step advances exactly when its check passes; otherwise it stays and the step's notice is shown |
| RegisterForm.Wizard.Submit | src/Components/Register.js:321-369 | the body is sent exactly when every step passes; otherwise the wizard jumps to the first failing step |

## Left out

- Asynchrony: `notifyMatchesAboutStatus` is not awaited in the source. Here it runs inside `Connect`/`Disconnect`, and a failing query inside it is not modelled.
- Room cleanup on disconnect: socket.io removes a disconnected socket from all of its rooms; `Disconnect` changes only the online map.
- Time: dates are whole days (year, month, day). Time of day and time zones in `new Date(...)` parsing are not modelled.
- FindPeople.Validate: the user id is taken as an integer or absent; a string id in the body and `null` ages are not modelled (JavaScript compares `null < 18` as `0 < 18`, so they are rejected anyway).
- `/uploadImg`, the Cloudinary upload stream, is not modelled.
- EditProfile.DeleteUserImage: the call to `cloudinary.uploader.destroy` and its failures are not modelled, since they are an external service. The user id is taken from the request body, as the source does.
- Database constraints: foreign keys, column lengths, `allowNull` checks other than the swipe insert and the image URL, and Sequelize's create-time validation errors are not modelled.
- EditProfile.UpdateProfile: fields missing from the request body (`undefined` in an update) are not modelled; every field is given.
- AuthRoutes.Register: request fields are taken as present and typed; validation errors raised by `User.create` are not modelled.
- Cryptography: bcrypt, JWT signing and verification, and `jwtDecode` are parameters. Their internals, and the cookie options, are not modelled.
- Text length: JavaScript counts UTF-16 code units in `length` and `substring`; the model counts characters.
- Client effects: fetches, abort controllers, React rendering and the `alert` texts are not modelled. The alerts become the `RegisterForm.Notice` values.
- The token refresh helpers `checkToken`/`refreshToken` in `src/Components/MainScreen.js` are not modelled.
- ChatClient.ChatSession.ReceiveHistory: the history response overwrites the match's list, including live messages received while it was loading, as the source does. Ordering against concurrent `new_message` events is not modelled.
- AuthRoutes.AuthService.Refresh: as in the source, a token that fails verification stays in the active set.
- AuthRoutes.AuthService.Refresh: signs the new access token with JWT_SECRET, not SECRET_KEY as backend/routes/authRoutes.js:109 does; this is the corrected behaviour of the third finding, and `RefreshedAccessTokenAsWritten` with `RefreshedTokenRefusedAsWritten` are the as-written fragment.
- FindPeople.Search: filters candidates by completed age (`Eligible`), the corrected behaviour of the second finding, not by the `between` date-of-birth window of backend/routes/findPeople.js:47-80; `InDobWindowAsWritten` is the as-written fragment.
- FindPeople.SearchFindsExactlyEligible: states the corrected age filter of `Search`, not the route's date-of-birth window.
- SocketHandler.SocketHub.Connect: keys rooms by the tagged `Room` (personal or match), the corrected behaviour of the first finding; the source names every room by `id.toString()`, and `LegacyRoomName` is the as-written fragment. The same holds for the members below.
- SocketHandler.SocketHub.Connect: a token whose `id` is `null` is treated like one without an `id` and is dropped; the source lets it past the `typeof … === 'undefined'` test at backend/socket/socketHandler.js:126, and the handler then throws at `userId.toString()`, a crash the model does not represent.
- SocketHandler.SocketHub.Disconnect: notifies partners through their tagged personal rooms (corrected room naming).
- SocketHandler.SocketHub.NotifyMatchesAboutStatus: emits to the partners' tagged personal rooms (corrected room naming).
- SocketHandler.SocketHub.JoinMatch: joins the tagged match room, not the room named `matchId.toString()` that a user's personal room can share.
- SocketHandler.SocketHub.LeaveMatch: leaves the tagged match room (corrected room naming).
- SocketHandler.SocketHub.SendMessage: broadcasts to the tagged match room, so the sockets of a user whose id equals the match id do not receive it, unlike the source.
- SocketHandler.SocketHub.Deliver: emits to the tagged match room (corrected room naming).
- SwipeRoute.RecordSwipe: each request is taken as one atomic step. The source runs the reverse-swipe `findOne` (backend/routes/swipe.js:33-40) and then `Match.create` (backend/routes/swipe.js:42-45) with no transaction and no unique constraint, so two concurrent reciprocal swipes can create two matches for one pair; the promise that a matched pair never gets a second match holds for requests handled one after another.
- AuthRoutes.LoginRefreshTokenAccepted: login signs refresh tokens with `JWT_REFRESH_SECRET` while `/refresh` verifies them with `REFRESH_SECRET`. The lemma shows they interoperate only when the two are configured equal, as the repository's tests do; this is stated, not corrected.
- Dates.SubYearsBoundIsAge: stated for every day except 29 February, where date-fns clamps to the 28th.

## Findings

| source | as written | input that shows it | evidently intended | confidence | as-written member | corrected member |
|---|---|---|---|---|---|---|
| backend/socket/socketHandler.js:150-243 | personal rooms and match rooms are both named `id.toString()` | user 5 connects (joins room "5"); match 5 between users 7 and 8 broadcasts a message to room "5" | a user's personal room and a match's chat room are distinct rooms | high, not executed | SocketHandler.LegacyRoomNamesCollide | SocketHandler.UserRoomJoinKeepsMatchRooms |
| backend/routes/findPeople.js:47-80 | the earliest date of birth is `subYears(today, maxAge)`, so anyone who turned `maxAge` before today is excluded | today 2025-06-15, ages 18 to 30, date of birth 1995-01-01 (age 30) | ages from `minAge` to `maxAge` inclusive, as the comment at line 45 says | high, not executed | FindPeople.WindowAsWrittenMissesMaxAge | FindPeople.SearchFindsExactlyEligible |
| backend/routes/authRoutes.js:107-111 | `/refresh` signs the new access token with `SECRET_KEY`, while every verifier uses `JWT_SECRET` | the secrets of backend/tests/authRoutes.test.js:10-13 (`SECRET_KEY` "testsecretkey", `JWT_SECRET` "testsecret"): the refreshed token is answered 403 | the refreshed access token is signed with `JWT_SECRET`, like the one from `/login` | medium, not executed | AuthRoutes.RefreshedTokenRefusedAsWritten | AuthRoutes.RefreshedTokenAccepted |
