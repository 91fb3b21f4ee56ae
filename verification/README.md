# VARCord core in Dafny

VARCord is a single-page Discord look-alike written in browser JavaScript
(`script.js`). This project models its three pieces of real logic as pure
Dafny functions over immutable records, and proves what they promise:

- **Accounts** (`AuthManager`): the email, username and password
  validators, `register` with its accumulated error list, `login`, which
  hands out a copy of the user without the password, `logout`, and the
  user store loaded from saved users with a seeded test account.
- **Friends and direct messages** (`DiscordApp`): the conversation id
  `getDMId`, `addFriend`, `removeFriend`, `blockFriend`, opening a
  conversation, `sendMessage` with its 30-character preview and unread
  counter, and `groupMessagesByDate`.
- **The call session** (`DiscordApp`): `startCall`, `acceptCall`,
  `rejectCall`/`cleanupCall`, `endCall`, the delayed simulated answer, the
  simulated incoming call (F2), the peer connection's state-change,
  remote-track and data-channel callbacks, and the microphone, camera,
  speaker and screen-share buttons.

Module layout:

| file | module | contents |
|---|---|---|
| `wrappers.dfy` | `Wrappers` | `Option` and `Result` |
| `text.dfy` | `Text` | JavaScript string semantics: `\s` and `trim`, `includes`, the upper-cased initial, `split('@')[0]`, the default `sort` order |
| `auth.dfy` | `Auth` | users, validators, register, login, logout, loading the store |
| `social.dfy` | `Social` | friends, conversations, messages, sending |
| `history.dfy` | `History` | grouping a conversation by day |
| `media.dfy` | `Media` | the registry of media tracks and the track operations |
| `call.dfy` | `Call` | the call-session record and one transition per command or callback |
| `call_properties.dfy` | `CallProperties` | the safety invariant, leaks, timers, involutions, scenarios |

How the browser is represented:

- Every media track the page ever obtains is kept in an append-only
  registry and named by its position. Streams and peer-connection senders
  hold these names, so "the sender carries the same track object as the
  local stream" and "every track was stopped" can both be stated after a
  stream has been dropped.
- A peer connection is a record of its role, signaling state, connection
  state, `closed` flag and sender tracks. Connections the session lets go
  of are appended to `retired` with their `closed` flag, so it is
  observable which ones were closed and which were overwritten.
- Whatever the browser decides is a parameter of the operation it affects:
  whether `getUserMedia`/`getDisplayMedia` grants tracks and which
  (`Acquisition`, `VideoCapture`), and whether an offer or answer can be
  made (`offerOk`, `answerOk`). In the WebRTC 1.0 recommendation,
  `createAnswer` is rejected unless the connection holds a remote offer,
  which is the situation in both `acceptCall` and the simulated answer;
  `answerOk` lets either outcome be studied.
- The two-second `setTimeout` after a successful `startCall` is a counter of
  pending answers; the `AnswerFires` event fires one of them.
- `Date.now()` ids, time stamps and locale dates are parameters.

## Model

| member | source | states |
|---|---|---|
| Text.Trim | script.js:683 | `trim`: the result is the input with its leading whitespace run and its trailing whitespace run cut off and everything between kept; it is empty exactly when the input is all JavaScript whitespace, otherwise starts and ends with a non-space, and an already trimmed string is returned unchanged |
| Text.Initial | script.js:86 | `charAt(0).toUpperCase()`: empty for the empty string, otherwise one character, the upper-cased first one |
| Text.Upper | script.js:86 | lower-case ASCII letters map to their capitals, every other character is kept |
| Text.Before | script.js:703 | `split('@')[0]`: the longest prefix free of the separator, followed in the input by the separator when shorter |
| Text.Includes | script.js:1438 | `includes`: the pattern occurs at some position of the string (a definition; `Text.IncludesNeedsHead` states a consequence) |
| Text.IncludesNeedsHead | script.js:1438 | a pattern whose first character does not occur in the string is not included in it |
| Text.OrderedBefore | script.js:734 | the default `sort` order on strings: a prefix sorts first, otherwise the smaller character at the first difference decides (a definition; the next two rows state its properties) |
| Text.OrderedTotal | script.js:734 | any two ids are comparable in the default `sort` order |
| Text.OrderedAntisymmetric | script.js:734 | two ids that each sort no later than the other are equal |
| Auth.ValidateEmail | script.js:41-44 | accepts exactly the strings of the form local `@` domain with a non-empty local part free of whitespace and `@`, and a domain free of whitespace and `@` holding a `.` that is neither its first nor its last character |
| Auth.EmailPatternShape | script.js:42 | an accepted email has no whitespace, exactly one `@`, not at the front, and a dot strictly inside the domain |
| Auth.NoPatternWith | script.js:42 | a whitespace character anywhere, or a leading `@`, makes an email invalid |
| Auth.NoPatternWithTwoAts | script.js:42 | an email with two `@` is invalid |
| Auth.ValidUsername | script.js:50-52 | `validateUsername`: between 2 and 20 characters, so the empty string fails (a definition, used by `Auth.RegisterErrors`) |
| Auth.ValidPassword | script.js:46-48 | `validatePassword`: at least 3 characters, so the empty string fails (a definition, used by `Auth.RegisterErrors`) |
| Auth.RegisterErrors | script.js:54-79 | each of the five registration errors is reported exactly when its check fails |
| Auth.RegisterErrorsInOrder | script.js:56-79 | the errors are listed in the order the checks are made |
| Auth.Register | script.js:54-97 | registration fails exactly when some check fails, then leaves the store unchanged and returns all failing checks; on success the user is stored under its email with the given fields, status online and avatar the upper-cased first letter of the username, and every other account is kept |
| Auth.WithoutPassword | script.js:126-127 | the session copy keeps id, email, username, avatar and status, and has no password field |
| Auth.Login | script.js:99-132 | never changes the store; succeeds exactly when email and password are non-empty, the email is registered and the password matches, and then the session is the user without password; each failure reports the reason the source reports |
| Auth.Logout | script.js:134-137 | no one is logged in afterwards and the store is unchanged |
| Auth.IndexByEmail | script.js:11-14 | `forEach` with `Map.set`: the keys are exactly the saved emails, every entry is a saved user keyed by its own email, and under each email sits the last saved user with that email |
| Auth.LoadUsers | script.js:8-20 | an empty saved list gives exactly the test account; otherwise the keys are exactly the saved emails and under each sits the last saved user with it; every entry is keyed by its own email |
| Auth.LastWinsSnoc | script.js:12-14 | setting one more user over the map of the earlier ones keeps exactly the saved emails as keys and the last user under each |
| Auth.RegisterThenLogin | script.js:54-132 | a user who just registered can log in with the same email and password |
| Auth.RegisterTwiceFails | script.js:75-77 | registering the same form again fails with exactly the email-taken error |
| Auth.LoginThenLogout | script.js:99-137 | logging out after any login attempt leaves the store as it was and no one logged in |
| Auth.TestUserLogsIn | script.js:27-39 | the seeded test account has a valid email and can log in with password 123 |
| Social.DMId | script.js:733-736 | the conversation id starts with `dm_` |
| Social.DMIdSymmetric | script.js:733-736 | the conversation id of two users does not depend on which of them asks |
| Social.DMIdDeterminesPair | script.js:733-736 | for ids without `_`, equal conversation ids mean the same pair of users |
| Social.FindFriend | script.js:760 | `find` by id: the position of the first friend with that id, or none when no friend has it |
| Social.OtherParticipant | script.js:820 | `participants.find`: the first participant other than the current user (every earlier one is the current user), or none when every participant is the current user |
| Social.FirstTextChannel | script.js:746 | `channels.find`: the first channel of type text (no earlier channel is one), or none when the list has none |
| Social.NewFriend | script.js:700-710 | the friend record `addFriend` builds: clock id, the email, the name before `@`, online, not blocked, no unread messages, no last message, the upper-cased initial (a definition; `Social.AddFriend` states these fields) |
| Social.AddFriend | script.js:681-731 | fails exactly on an empty trimmed email, an email already among the friends, or the user's own email; on success appends one friend with the trimmed email, the name before `@`, status online, not blocked, no unread messages and the upper-cased initial, adds the conversation entry under its id only when absent, and changes nothing else |
| Social.AddFriendKeepsEmailsDistinct | script.js:690-693 | adding a friend keeps every friend email distinct |
| Social.WithoutFriend | script.js:739 | `filter`: exactly the friends with another id, in their original order: as many as survive, and each survivor at the position given by the number of survivors before it |
| Social.FilteredStep | script.js:739 | keeping or dropping the head in front of a filtered tail filters the whole list |
| Social.RemoveFriend | script.js:738-757 | the friend list is the old one with every friend of that id removed and the others kept in order, the conversation under its id is deleted, and an open conversation with that friend is closed with the server's first text channel selected instead; the user, the server's channels and the channel messages are unchanged |
| Social.AddThenRemoveFriend | script.js:681-742 | removing a friend just added with a fresh id restores the chat state |
| Social.RemoveAppended | script.js:738-742 | removing a friend appended under a fresh id, with its new conversation, restores the chat |
| Social.BlockFriend | script.js:759-772 | flips `isBlocked` of the first friend with that id and nothing else; no friend with that id means no change |
| Social.BlockTwiceRestores | script.js:759-762 | blocking twice restores the state |
| Social.OpenDM | script.js:774-798 | an unknown or blocked friend changes nothing; otherwise the conversation is created if absent, becomes the open one, the channel is deselected and the friend's unread count is reset, and nothing else changes |
| Social.Preview | script.js:824-827 | content of at most 30 characters is kept; longer content becomes its first 30 characters followed by `...` |
| Social.SendMessage | script.js:800-846 | blank input or nothing open changes nothing; in a conversation the message is appended to it and to the stored copy, the first friend who is its other participant gets the preview and one more unread message, and nothing else changes; in a channel it is appended to that channel's messages and nothing else changes |
| Social.AddFriendKeepsConversations | script.js:718-727 | adding a friend keeps every conversation stored under the id of its two participants |
| Social.RemoveFriendKeepsConversations | script.js:738-749 | removing a friend keeps the conversation invariant |
| Social.SendMessageKeepsConversations | script.js:813-820 | sending keeps the conversation invariant |
| Social.OpenDMKeepsConversations | script.js:778-789 | opening a conversation keeps the conversation invariant and the open conversation is the stored one |
| Social.BlockFriendKeepsConversations | script.js:759-772 | blocking keeps the conversation invariant |
| History.DateOf | script.js:1042 | `message.date || today`: a message's own date when it has a non-empty one, otherwise today's date (a definition; `History.GroupByDate` is stated over it) |
| History.FirstOnIsFirst | script.js:1041-1045 | the reference position of a day is its first message |
| History.GroupByDate | script.js:1039-1049 | one group per day, no day twice, each holding exactly that day's messages in their original order, every message placed, and groups in order of their day's first message |
| Media.Register | script.js:1177-1184 | newly obtained tracks get the next free names, live and enabled, and no existing track changes |
| Media.StopAll | script.js:1347 | exactly the listed tracks stop being live; nothing else changes |
| Media.StopKind | script.js:1452 | exactly the listed tracks of one kind stop being live; nothing else changes |
| Media.FirstOfKind | script.js:1397 | the position of the first listed track of a kind, or none when no listed track has it |
| Media.FirstOfKindByKinds | script.js:1397 | which track comes first depends only on the kinds of the listed tracks |
| Media.FirstOfKindAppend | script.js:1453 | appending a track does not change which track of a kind comes first once there is one |
| Media.Flip | script.js:1399 | exactly one track's `enabled` flag is inverted |
| Media.FlipTwice | script.js:1399 | inverting the same flag twice restores the registry |
| Call.StartCall | script.js:1165-1212 | no selected chat, a call in progress, or refused media leave the session untouched; otherwise the new tracks are the local stream and exactly what the new caller connection sends, the old connection is dropped unclosed, the chat data channel is opened, and the call is active, with an answer pending, only if the offer could be made |
| Call.AcceptCall | script.js:1214-1243 | the local stream is reused or captured; refused capture changes nothing; otherwise a callee connection sending the local tracks replaces the old one unclosed, the call is active, and the incoming call is dismissed only when the answer could be made |
| Call.Cleanup | script.js:1382-1393 | local tracks stopped, local stream and connection dropped with the connection closed, call inactive, but the remote stream and data channel kept |
| Call.RejectCall | script.js:1245-1249 | the incoming call is dismissed and the session cleaned up |
| Call.EndCall | script.js:1345-1380 | every local and remote track is stopped and no other, both streams, the connection (closed) and the data channel are dropped, the call is inactive, and nothing else changes |
| Call.AnswerDue | script.js:1305-1314 | a pending answer fires; the signaling state changes, to stable, exactly when a call is active, its connection awaits an answer and the answer could be made; nothing but that and the count changes |
| Call.Ring | script.js:1316-1327 | when not in a call, logged in and with a friend, the first friend is shown as calling; otherwise nothing changes |
| Call.ConnectionChanged | script.js:1270-1282 | the connection takes the new state; disconnected or failed ends the call; without a connection nothing happens |
| Call.RemoteStream | script.js:1254-1261 | the stream the peer sends, as new remote tracks, becomes the remote stream; nothing else changes |
| Call.ChannelOpened | script.js:1284-1291 | only a callee's connection takes the caller's data channel |
| Call.FirstLocal | script.js:1397 | `getAudioTracks()[0]`/`getVideoTracks()[0]`: the first local track of a kind (no earlier local track has it), possibly a stopped one, or none |
| Call.ToggleTrack | script.js:1395-1413 | only the `enabled` flag of the first local audio (or video) track is inverted; without one nothing happens |
| Call.ToggleSpeaker | script.js:1415-1431 | only the speaker mute flag is inverted |
| Call.SharingScreen | script.js:1436-1438 | the branch test of `toggleScreenShare`: the first local video track exists, is live and its label contains `screen` (a definition; `CallProperties.ScreenShareNeverReturnsToCamera` states its consequence) |
| Call.Capture | script.js:1440-1486 | a screen-share capture adds one live video track, carrying the end hook only when the toggle gets as far as setting it, then the capture's further tracks, which only a screen capture has; existing tracks are unchanged |
| Call.SwitchVideo | script.js:1446-1451 | the first sender with a video track is switched to the new track and no other sender changes |
| Call.SwitchToCapture | script.js:1436-1483 | during a call the old video tracks are stopped, the new track joins the local stream and the video sender, and nothing else changes |
| Call.ToggleScreenShare | script.js:1433-1495 | no local stream or refused capture changes nothing; without a connection the sender lookup throws, so the captured tracks are left running, unhooked, and nothing else changes; with one, `Call.SwitchToCapture` applies |
| Call.CaptureEnded | script.js:1486-1488 | a live track that ends stops being live; when its `onended` handler is the screen-share one, the toggle runs on the resulting session; a track that is not live, or not registered, changes nothing |
| CallProperties.StartKeepsSafe | script.js:1176-1199 | a call that starts keeps the session safe: active exactly with a local stream and a connection, and no captured track running outside the local stream |
| CallProperties.AcceptKeepsSafe | script.js:1214-1234 | accepting keeps the session safe |
| CallProperties.RejectKeepsSafe | script.js:1245-1249 | rejecting keeps the session safe |
| CallProperties.EndKeepsSafe | script.js:1345-1363 | hanging up keeps the session safe |
| CallProperties.RemoteStreamKeepsSafe | script.js:1254-1261 | a remote stream arriving keeps the session safe |
| CallProperties.ToggleTrackKeepsSafe | script.js:1395-1399 | the mute buttons keep the session safe |
| CallProperties.ToggleScreenKeepsSafe | script.js:1433-1495 | screen share keeps the session safe when the capture yields only its video track |
| CallProperties.StepKeepsSafe | script.js:1165-1515 | every event except a failing offer and a capture with extra tracks keeps the session safe |
| CallProperties.RunKeepsSafe | script.js:1165-1515 | so does every sequence of such events |
| CallProperties.EndStopsAllMedia | script.js:1345-1358 | after hanging up a safe session no captured track is running |
| CallProperties.EndCallIdempotent | script.js:1345-1363 | hanging up twice is hanging up once |
| CallProperties.OfferFailureLeaksMedia | script.js:1186-1211 | when the offer fails the tracks keep running with no call active; the next call captures over them and the old tracks and connection are never stopped or closed |
| CallProperties.ScreenExtrasLeak | script.js:1462-1467 | extra tracks of a screen capture run outside the session and survive hanging up |
| CallProperties.ScreenAudioLeaks | script.js:1462-1467 | this happens when sharing a screen with system audio from an ordinary camera call |
| CallProperties.StaleAnswerIgnored | script.js:1201-1205 | an answer firing after the call ended only uses up its timer |
| CallProperties.StaleAnswerReachesNextCall | script.js:1201-1205 | from any page not in a call: start a call, hang up and start another; the first call's answer timer fires against the second connection, which sends only the second call's new tracks, while the second call's own timer is still pending, and it is applied exactly when an answer can be made there |
| CallProperties.ToggleTrackTwice | script.js:1395-1399 | pressing the microphone or camera button twice restores the session |
| CallProperties.ScreenShareEffect | script.js:1436-1477 | during a call a screen-share press stops every local video track, adds exactly one live video track, screen or camera as the branch test decides, puts it on the video sender, and leaves signaling, connection state and pending answers alone |
| CallProperties.ScreenShareNeverReturnsToCamera | script.js:1436-1438 | once the local stream has had a video track, the branch test never again finds a live first video track |
| CallProperties.SecondPressSharesScreenAgain | script.js:1436-1488 | so the second press captures a screen again instead of the camera |
| CallProperties.CallLifecycle | script.js:1165-1380 | a call started from an idle page with any tracks, answered, connected and ended leaves no track running, its one connection closed and the session idle |
| CallProperties.RingThenReject | script.js:1245-1327 | ringing shows the first friend; rejecting captures no media and leaves the session idle |
| CallProperties.RejectKeepsRemote | script.js:1382-1393 | rejecting during a call of one's own keeps the remote track playing and the data channel set |

## Left out

- Rendering, modals, button labels, notifications, the Escape key and scrolling: user-interface side effects with no state of the model behind them.
- `localStorage` and JSON: saving users, the app data and the session, and restoring a session on reload. The stores are in-memory maps; `LoadUsers` starts from the already parsed list of saved users.
- `handleLogin`, `handleRegister` and `checkAuthState`: orchestration of `AuthManager` calls around the forms.
- Clock and locale values (`Date.now()` ids, `toLocaleTimeString`, `toLocaleDateString`, `createdAt`, `lastActive`, `lastActivity`): passed in as parameters or dropped.
- The `friends` and `servers` fields of a new user, which nothing in the core reads.
- The friends-list sort by `localeCompare` and activity time: locale-dependent ordering outside the core.
- Servers and channels beyond what `removeFriend` and `sendMessage` read (`createServer`, `createChannel`, the default server).
- WebRTC internals: SDP, ICE candidates and the STUN configuration. A connection is its role, states, `closed` flag and senders.
- The fake connection that `simulateIncomingAnswer` creates to produce an answer: whether that answer can be made is the `answerOk` parameter.
- The two-second delay itself: a scheduled answer is a pending count and fires when the `AnswerFires` event says so.
- Call.ConnectionChanged: the handler reads the state of the current connection even when an older, replaced connection fires it; the model applies the event to the current connection only.
- Call.RemoteStream: the browser fires `ontrack` once per track with the same stream; the model delivers a whole stream in one event, and a replaced remote stream is not stopped.
- `replaceTrack` failing, and a capture or `replaceTrack` resolving after the call ended: the model treats each command as completing at once.
- Call.StartCall: each press runs to completion before the next event. In the browser `isInCall` is set only after `getUserMedia` resolves, so a second press while the permission prompt is open passes the guard, captures a second stream and leaks the first; the model cannot show this interleaving.
- Call.AcceptCall: likewise runs to completion before the next event; an accept pressed twice while `getUserMedia` is pending, or a hang-up that lands while it is pending, is not modelled.
- Text.Upper: only ASCII letters are upper-cased; JavaScript's full Unicode case mapping is not modelled.
- Text.OrderedBefore: compares characters, which agrees with JavaScript's UTF-16 code-unit order only inside the Basic Multilingual Plane.
- Auth.Register: the username bounds (2 to 20) and the password minimum (3) count characters, whereas JavaScript's `length` counts UTF-16 code units; the two differ for characters outside the Basic Multilingual Plane.
- Social.Preview: the 30-character cut counts characters, whereas `length` and `substring` count UTF-16 code units, so a cut through a surrogate pair is not modelled.
- History.GroupByDate: returns the groups as a sequence in first-appearance order; a JavaScript object lists integer-like keys first, which locale dates, containing separators, are not.
