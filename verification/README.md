# MyFirstGame client rules in Dafny

A Dafny model of the decision logic inside the MyFirstGame Android client, a
small multiplayer game that talks to its server over HTTP and a WebSocket. The
model lifts the sequential rules out of the Kotlin classes and states them as
pure functions over immutable records:

- **`Reconnection`** (`reconnection.dfy`) covers `ReconnectionManager`. It has
  the exponential backoff delay and the retry loop. The loop runs over a
  sequence of callback outcomes (normal return or throw), and a run that still
  wants another outcome is a snapshot that `Continue` can resume. It also has
  `stopReconnection` and `setReconnectCallback`.
- **`GameRepository`** (`game_repository.dfy`) covers `GameRepository`. It
  models the ordered classifier of `processIncomingMessage`, which dispatches on
  prefixes and substrings, first match wins. JSON decoders are arbitrary
  partial functions. It also models the frame loop of `connectToGame`
  (Text, Close, Ping, Pong, other) and the send path of `sendPlayerUpdate`.
- **`LoginViewModel`** (`login_view_model.dfy`) covers the login and password
  character classes, `checkLogin`, `registerUser` with its ordered failure
  classification, and `resetState`.
- **`GroupViewModel`** (`group_view_model.dfy`) covers loading groups and
  invites, accepting and declining invites, starting and finishing a group
  game, and join, leave and reset. Each is a state transition gated by the
  repository's answer.
- **`PlayerViewModel`** (`player_view_model.dfy`) covers the initial state,
  `setPlayerLogin`, `updatePosition`, and the four collectors as a fold over
  received events.
- **`CreateGroupForm`** (`create_group.dfy`) covers the checks and the
  `GroupInfo` of `CreateGroupActivity.createGroup`.
- **`InvitesScreen`** (`invites.dfy`) covers the checks and requests of
  `InvitesActivity`.
- **`HomeScreen`** (`home.dfy`) covers the player-group lookup, the four
  player slots, the precondition chain of `startGroupGame`, the play button
  and the invite dialog of `Home`.
- **`GameLogger`** (`game_logger.dfy`) covers the log queue and the extra
  anti-cheat entry. It also covers the keep-the-five-newest retention rule over
  a listing of (name, last-modified) pairs, and the tolerant line-by-line
  reading of a log file.
- **`Domain`** (`domain.dfy`) and **`Basics`** (`basics.dfy`) hold the data
  classes and Kotlin's string behaviour: `trim`, `isBlank`, `toIntOrNull`,
  `startsWith` and `contains`, and how a nullable exception message renders
  in a string template.

Every repository call the client makes is an input of type `Call<T>`. It
either returned a value or threw an exception whose message may be null. Clock
readings, timestamps and the JSON encoder and decoder are parameters too.

Four facts about the code as written shape the model:

- Incoming messages are dispatched on their text, not on a parsed `type`
  field. The client tests the prefixes `player` and `otherPlayers`, then a
  leading `[` together with `login`, then the `"type":"game_started"`
  substring, and the first test that matches wins.
- The client never filters its own echo out of the other-players list and
  never merges updates. A `player…` message becomes a one-element list on the
  other-players flow, each emission replaces the whole list, and nothing is
  ever emitted on `playerUpdates`.
- After five failed attempts the reconnection loop only lowers its flag and
  leaves the counter at 5. No error status is emitted.
- `GameStartedNotification` (`repository/GameRepository.kt:68-72`) is declared
  without `@Serializable`, unlike the classes in `Serializable.kt`. Decoding it
  therefore most likely always throws into the catch-all, and the
  game-started branch never emits. The model keeps that decoder arbitrary, and
  `GameRepository.GameStartedNeedsDecoder` states the consequence of a decoder
  that always fails.

## Model

| member | source | states |
|---|---|---|
| Reconnection.CalculateDelay | app/src/main/java/com/example/myapplication/network/ReconnectionManager.kt:93-96 | for attempt k ≥ 1 the delay lies between 1000 and 30000 ms; it is 1000·2^(k−1) while k ≤ 5 and the 30000 cap afterwards |
| Reconnection.DelayDoubles | app/src/main/java/com/example/myapplication/network/ReconnectionManager.kt:93-96 | each attempt's delay is twice the previous one, capped at 30000 ms |
| Reconnection.DelayNondecreasing | app/src/main/java/com/example/myapplication/network/ReconnectionManager.kt:93-96 | a later attempt never waits less than an earlier one |
| Reconnection.DelaySchedule | app/src/main/java/com/example/myapplication/network/ReconnectionManager.kt:14-17 | attempts 1 to 5 wait 1000, 2000, 4000, 8000 and 16000 ms |
| Reconnection.NewManager | app/src/main/java/com/example/myapplication/network/ReconnectionManager.kt:20-25 | a new manager is idle with no callback and satisfies the counter invariant |
| Reconnection.SetReconnectCallback | app/src/main/java/com/example/myapplication/network/ReconnectionManager.kt:27-29 | the callback is stored; the counter, flag and launched jobs are unchanged; the invariant is preserved |
| Reconnection.SetReconnectCallbackLastWins | app/src/main/java/com/example/myapplication/network/ReconnectionManager.kt:27-29 | registering twice is the same as registering only the second callback |
| Reconnection.Begin | app/src/main/java/com/example/myapplication/network/ReconnectionManager.kt:37-42 | a fresh run starts with the flag up, the counter at 0 and one more job launched |
| Reconnection.RetryLoop | app/src/main/java/com/example/myapplication/network/ReconnectionManager.kt:43-81 | at most the remaining attempts are waited, and the i-th wait is the delay of attempt counter+i+1; the callback runs at most once per wait and once per outcome; the invariant is kept; a live run has consumed every outcome and still has its flag up; a finished run has its flag down |
| Reconnection.StartReconnection | app/src/main/java/com/example/myapplication/network/ReconnectionManager.kt:31-83 | while a loop is running the call changes nothing; otherwise one job is launched, every wait is drawn from the 1–16 s schedule, and the run is live exactly while the flag is up |
| Reconnection.RetryLoopSplit | app/src/main/java/com/example/myapplication/network/ReconnectionManager.kt:43-81 | driving the loop with outcomes a and then b (resuming the snapshot) gives the same run as driving it with a + b |
| Reconnection.StopReconnection | app/src/main/java/com/example/myapplication/network/ReconnectionManager.kt:85-88 | after a stop the flag is down and the counter is 0; the callback is kept; the loop makes no further attempt whatever outcomes follow |
| Reconnection.StopReconnectionIdempotent | app/src/main/java/com/example/myapplication/network/ReconnectionManager.kt:85-88 | stopping twice is stopping once |
| Reconnection.RetryLoopFirstReturn | app/src/main/java/com/example/myapplication/network/ReconnectionManager.kt:56-62 | when outcome p is the first normal return, the run ends after p + 1 invocations and waits, with the flag down and the counter reset |
| Reconnection.FirstSuccessEndsRun | app/src/main/java/com/example/myapplication/network/ReconnectionManager.kt:43-62 | when attempt k is the first to return normally, the callback ran k times after the first k scheduled waits, and the run ends with the flag down and the counter at 0 |
| Reconnection.MissingCallbackSucceeds | app/src/main/java/com/example/myapplication/network/ReconnectionManager.kt:54-62 | without a callback the first attempt succeeds after the 1 s wait, with no invocation |
| Reconnection.RetryLoopAllThrow | app/src/main/java/com/example/myapplication/network/ReconnectionManager.kt:64-79 | with only throwing outcomes the loop either uses up every remaining attempt and stops at counter 5, or runs out of outcomes while still live with the counter advanced by their number |
| Reconnection.ExhaustedRun | app/src/main/java/com/example/myapplication/network/ReconnectionManager.kt:43-79 | five throws in a row mean exactly five invocations after waits of 1, 2, 4, 8 and 16 s; the flag is down and the counter stays 5 |
| Reconnection.RunningAfterFailures | app/src/main/java/com/example/myapplication/network/ReconnectionManager.kt:43-64 | after fewer than five throws the loop is still running, and its counter equals the number of failed attempts |
| GameRepository.Classify | app/src/main/java/com/example/myapplication/repository/GameRepository.kt:225-258 | the prefix-stripped part handed to a decoder, put back behind its prefix, is the original message; list and game-started messages are decoded whole |
| GameRepository.ProcessIncomingMessage | app/src/main/java/com/example/myapplication/repository/GameRepository.kt:222-265 | at most one emission per message, never a player update; each of the four ordered branches emits its decoder's result (a `player` result as a one-element list) or nothing when decoding fails; an unrecognised message emits nothing |
| GameRepository.PlayerMessageRoundTrip | app/src/main/java/com/example/myapplication/repository/GameRepository.kt:226-234 | "player" followed by JSON that decodes to p emits exactly the list [p] on the other-players flow |
| GameRepository.OtherPlayersMessageRoundTrip | app/src/main/java/com/example/myapplication/repository/GameRepository.kt:236-242 | "otherPlayers" followed by JSON for a wrapper emits the wrapper's list unchanged |
| GameRepository.UnmatchedMessageIsDropped | app/src/main/java/com/example/myapplication/repository/GameRepository.kt:256-258 | a message none of the four tests accepts emits nothing, whatever the decoders do |
| GameRepository.GameStartedNeedsDecoder | app/src/main/java/com/example/myapplication/repository/GameRepository.kt:250-264 | when the game-started decoder fails on every input, no message yields a game-started emission |
| GameRepository.PlayerPrefixShadowsLaterTests | app/src/main/java/com/example/myapplication/repository/GameRepository.kt:225-236 | any message starting with "player" takes the first branch, even if a later test would also match |
| GameRepository.FrameLoop | app/src/main/java/com/example/myapplication/repository/GameRepository.kt:158-189 | the loop never emits player updates and only ever sends pongs; if the session is still set, every frame was consumed |
| GameRepository.FrameLoopWithoutClose | app/src/main/java/com/example/myapplication/repository/GameRepository.kt:158-189 | without a Close frame the loop consumes every frame, classifies the text frames in arrival order, answers each ping with a pong carrying its buffer, and keeps the session |
| GameRepository.FrameLoopStopsAtClose | app/src/main/java/com/example/myapplication/repository/GameRepository.kt:169-177 | the first Close clears the session and emits Disconnected after the earlier frames' emissions; no frame after it is looked at |
| GameRepository.FrameLoopNeverEmitsPlayerUpdates | app/src/main/java/com/example/myapplication/repository/GameRepository.kt:47-48 | no sequence of frames produces an emission on the player-updates flow |
| GameRepository.ConnectToGame | app/src/main/java/com/example/myapplication/repository/GameRepository.kt:118-189 | Connected is emitted first and the player's data is the first frame sent; the session stays stored iff no Close arrives, and a Close makes Disconnected the last emission |
| GameRepository.SendPlayerUpdate | app/src/main/java/com/example/myapplication/repository/GameRepository.kt:204-220 | a position is sent iff a session is stored; with none, nothing is sent and nothing is thrown; a failing send is rethrown as a NetworkException "Ошибка отправки обновления позиции: " + the original message |
| GameRepository.NoSendAfterClose | app/src/main/java/com/example/myapplication/repository/GameRepository.kt:174 | once the server has closed the session, position updates are dropped and no send error can arise |
| LoginViewModel.LoginAndPasswordDisjoint | app/src/main/java/com/example/myapplication/LoginViewModel.kt:17-18 | no string is both a valid login (ASCII letters) and a valid password (ASCII digits) |
| LoginViewModel.CredentialsConcatenate | app/src/main/java/com/example/myapplication/LoginViewModel.kt:17-18 | concatenating two valid logins gives a valid login, and two valid passwords give a valid password |
| LoginViewModel.CheckLogin | app/src/main/java/com/example/myapplication/LoginViewModel.kt:26-53 | invalid credentials give the generic error and no request; valid ones send a "login" request; a returned response is stored, and the state is Success iff the status is exactly LOGIN_SUCCESS, otherwise Error(message); a thrown exception gives "Ошибка сети: " plus its message |
| LoginViewModel.RegisterValidationMessage | app/src/main/java/com/example/myapplication/LoginViewModel.kt:84-88 | a bad login is reported before a bad password; the generic third message is never produced |
| LoginViewModel.ClassifyRegisterFailure | app/src/main/java/com/example/myapplication/LoginViewModel.kt:74-79 | the tests "Connect timeout", "timeout", "Network" are applied in order and the first match picks the text; otherwise the text is the generic one with the message, or "null" when there is no message |
| LoginViewModel.ConnectTimeoutMentionsTimeout | app/src/main/java/com/example/myapplication/LoginViewModel.kt:75-76 | every message matching the first test also matches the second, so the order of the tests decides the text |
| LoginViewModel.RegisterUser | app/src/main/java/com/example/myapplication/LoginViewModel.kt:55-93 | invalid credentials give the specific validation error, leave the stored response alone and make no request; valid ones send a "register" request; Success iff the status is exactly REGISTER_SUCCESS; the response is stored whatever its status; a throw gives the classified failure text |
| LoginViewModel.ResetState | app/src/main/java/com/example/myapplication/LoginViewModel.kt:95-98 | after a reset the state is Empty and no response is stored, as on a fresh view model |
| LoginViewModel.ResetThenInvalidLogin | app/src/main/java/com/example/myapplication/LoginViewModel.kt:48-51 | after a reset, a login that fails validation yields exactly the generic error with no stored response |
| Domain.FindGroup | app/src/main/java/com/example/myapplication/GroupViewModel.kt:223 | the result is the first index whose group has the id, or none when no group has it |
| Domain.Describe | app/src/main/java/com/example/myapplication/LoginViewModel.kt:45 | a present exception message renders as itself and a null one as "null", as a string template does |
| GroupViewModel.RemoveInvitesFor | app/src/main/java/com/example/myapplication/GroupViewModel.kt:131-133 | no invite for the group is left; every other invite is kept and nothing is added |
| GroupViewModel.RemoveInvitesForAppend | app/src/main/java/com/example/myapplication/GroupViewModel.kt:131-133 | removal works piecewise over a concatenation, so survivors keep their relative order |
| GroupViewModel.RemoveInvitesForIdempotent | app/src/main/java/com/example/myapplication/GroupViewModel.kt:160-162 | removing a group's invites a second time changes nothing |
| GroupViewModel.SetStatusOfFirst | app/src/main/java/com/example/myapplication/GroupViewModel.kt:180-184 | only the first group with the id gets the new status; the length and every other entry are unchanged; with no match the list is unchanged |
| GroupViewModel.LoadGroups | app/src/main/java/com/example/myapplication/GroupViewModel.kt:37-50 | on success the list is replaced wholesale and the state is Success("Группы загружены"); on failure only the state changes, to Error("Ошибка загрузки групп: " + message); invites and current group are never touched |
| GroupViewModel.LoadInvites | app/src/main/java/com/example/myapplication/GroupViewModel.kt:52-62 | on success only the invite list changes; a failure changes nothing |
| GroupViewModel.AcceptInvite | app/src/main/java/com/example/myapplication/GroupViewModel.kt:119-146 | a true answer removes the group's invites, sets Success("Приглашение принято") and requests a groups reload; false changes nothing; a throw changes only the state, to Error("Ошибка принятия приглашения: " + message), with no reload |
| GroupViewModel.DeclineInvite | app/src/main/java/com/example/myapplication/GroupViewModel.kt:148-172 | a true answer removes the group's invites and sets Success("Приглашение отклонено"), with no reload; false changes nothing; a throw changes only the state, to Error("Ошибка отклонения приглашения: " + message) |
| GroupViewModel.StartGroupGame | app/src/main/java/com/example/myapplication/GroupViewModel.kt:174-196 | on success the first matching group becomes "playing" and current, all other entries and the invites are untouched; with no match the groups and the current group are unchanged but the state is still Success; false changes nothing; a throw changes only the state, to Error("Ошибка запуска игры: " + message) |
| GroupViewModel.FinishGroupGame | app/src/main/java/com/example/myapplication/GroupViewModel.kt:198-220 | on success the first matching group becomes "finished" and the current group is cleared, invites untouched; with no match only the state changes; false changes nothing; a throw changes only the state, to Error("Ошибка завершения игры: " + message) |
| GroupViewModel.JoinGroup | app/src/main/java/com/example/myapplication/GroupViewModel.kt:222-228 | the current group becomes the first group with the id; with none, nothing changes |
| GroupViewModel.LeaveGroup | app/src/main/java/com/example/myapplication/GroupViewModel.kt:230-233 | the current group is cleared and nothing else changes |
| GroupViewModel.ResetState | app/src/main/java/com/example/myapplication/GroupViewModel.kt:235-237 | the state is Empty and nothing else changes |
| GroupViewModel.StartThenFinish | app/src/main/java/com/example/myapplication/GroupViewModel.kt:174-220 | a successful start then a successful finish of a listed group leaves just that group "finished" and no current group |
| GroupViewModel.FindGroupUnchangedByStatus | app/src/main/java/com/example/myapplication/GroupViewModel.kt:181-183 | changing a status never moves the first group with an id |
| GroupViewModel.AcceptInviteTwice | app/src/main/java/com/example/myapplication/GroupViewModel.kt:128-138 | accepting the same invite twice gives the same state as accepting it once |
| GroupViewModel.AcceptThenReload | app/src/main/java/com/example/myapplication/GroupViewModel.kt:128-138 | once the reload an acceptance launches has finished, the group's invites are gone, the current group is kept, and the list and state are the reload's: the fetched list with Success("Группы загружены"), or the old list with the load error |
| GroupViewModel.LeaveUndoesJoin | app/src/main/java/com/example/myapplication/GroupViewModel.kt:222-233 | joining a group and then leaving it ends where leaving straight away does |
| GroupViewModel.ResetCommutesWithMembership | app/src/main/java/com/example/myapplication/GroupViewModel.kt:222-237 | resetting the state commutes with joining and with leaving, so the reset touches only the state |
| PlayerViewModel.InitialPlayerVm | app/src/main/java/com/example/myapplication/PlayerViewModel.kt:19-25 | the own player has an empty login at (500, 500), there are no other players, and the status is Disconnected |
| PlayerViewModel.SetPlayerLogin | app/src/main/java/com/example/myapplication/PlayerViewModel.kt:85-87 | only the login changes |
| PlayerViewModel.UpdatePosition | app/src/main/java/com/example/myapplication/PlayerViewModel.kt:65-70 | the position moves by exactly (dx, dy) and nothing else changes |
| PlayerViewModel.UpdatePositionCompose | app/src/main/java/com/example/myapplication/PlayerViewModel.kt:65-70 | two moves equal one move by their sum |
| PlayerViewModel.UpdatePositionUndo | app/src/main/java/com/example/myapplication/PlayerViewModel.kt:65-70 | moving by the opposite offset restores the state |
| PlayerViewModel.LoginOnFreshViewModel | app/src/main/java/com/example/myapplication/PlayerViewModel.kt:19 | a login set on a fresh view model keeps the starting position (500, 500) |
| PlayerViewModel.Apply | app/src/main/java/com/example/myapplication/PlayerViewModel.kt:28-63 | repository events never touch the own data; an other-players event replaces the whole list; a status event sets the status; player-update and game-started events change nothing; an echo carrying the own login replaces the own data, and an echo for any other login leaves the state unchanged |
| PlayerViewModel.StatusIsLatest | app/src/main/java/com/example/myapplication/PlayerViewModel.kt:48-52 | after any sequence of events the status is the one carried by the last status event, or the starting one if there was none |
| PlayerViewModel.OtherPlayersIsLatest | app/src/main/java/com/example/myapplication/PlayerViewModel.kt:38-46 | after any sequence of events the list is the last one received, with no merging, or the starting one if none was |
| PlayerViewModel.OwnDataOnlyFromOwnEchoes | app/src/main/java/com/example/myapplication/PlayerViewModel.kt:30-62 | the login never changes, and the own data is the starting data or equals some received echo |
| PlayerViewModel.PlayerMessageReplacesOthers | app/src/main/java/com/example/myapplication/PlayerViewModel.kt:38-46 | a server "player" message replaces the other-players list with that single player, own login included |
| Basics.Trim | app/src/main/java/com/example/myapplication/CreateGroupActivity.kt:58 | the result is empty iff the input is blank, has no whitespace at either end, and uses only characters of the input |
| Basics.TrimPadded | app/src/main/java/com/example/myapplication/InvitesActivity.kt:80 | trim removes exactly the whitespace around a word whose ends are not whitespace |
| Basics.TrimIdempotent | app/src/main/java/com/example/myapplication/CreateGroupActivity.kt:59 | trimming twice is trimming once |
| Basics.ToIntOrNull | app/src/main/java/com/example/myapplication/CreateGroupActivity.kt:66 | a parsed value fits a 32-bit Int and comes from an optional sign followed by at least one digit; an unsigned digit string parses to its value when it fits and to null when it overflows; a signed one parses to the signed value, or null outside the Int range |
| Basics.ToIntOrNullShowInt | app/src/main/java/com/example/myapplication/CreateGroupActivity.kt:66 | parsing the decimal rendering of any 32-bit Int gives that Int back |
| CreateGroupForm.ParseMaxPlayers | app/src/main/java/com/example/myapplication/CreateGroupActivity.kt:59-66 | the trimmed text's Int value when it parses, else 5 |
| CreateGroupForm.ParseMaxPlayersShowInt | app/src/main/java/com/example/myapplication/CreateGroupActivity.kt:59-66 | a number typed with whitespace around it is read back as that number |
| CreateGroupForm.BlankMaxPlayersDefaults | app/src/main/java/com/example/myapplication/CreateGroupActivity.kt:66 | an empty or blank field means 5 players |
| CreateGroupForm.ValidateForm | app/src/main/java/com/example/myapplication/CreateGroupActivity.kt:57-79 | a blank name is rejected first; otherwise the form is accepted iff the count is within 2..10; an accepted form yields group id = creator, players = [creator], the parsed count and status "waiting" |
| CreateGroupForm.GroupIgnoresName | app/src/main/java/com/example/myapplication/CreateGroupActivity.kt:74-79 | the group name is never sent: any two non-blank names build the same group |
| CreateGroupForm.DefaultFormAccepted | app/src/main/java/com/example/myapplication/CreateGroupActivity.kt:44 | the form as first shown (count "5") accepts any non-blank name with five players |
| CreateGroupForm.AfterCreate | app/src/main/java/com/example/myapplication/CreateGroupActivity.kt:84-98 | the screen returns to the groups list, after the toast "Группа создана успешно!", iff the status is exactly "SUCCESS"; another status shows "Ошибка создания группы: " + message; a failure shows "Ошибка сети: " + the exception message |
| CreateGroupForm.CreateGroup | app/src/main/java/com/example/myapplication/CreateGroupActivity.kt:57-101 | a request is made iff validation passes, and it carries the validated group; a rejection shows its toast; navigation implies a request and a "SUCCESS" answer |
| InvitesScreen.CheckInvite | app/src/main/java/com/example/myapplication/InvitesActivity.kt:79-99 | a blank target is rejected first, then the own login; every other target is sent; a sent request has sender = own login, receivers = [trimmed target], the intent's group id and the fixed message |
| InvitesScreen.PaddedSelfInviteRejected | app/src/main/java/com/example/myapplication/InvitesActivity.kt:80-90 | the own login padded with whitespace is still refused as a self-invite |
| InvitesScreen.EmptyOwnLoginNeverSelf | app/src/main/java/com/example/myapplication/InvitesActivity.kt:82-90 | with an empty own login the self-invite check can never fire |
| InvitesScreen.AfterSend | app/src/main/java/com/example/myapplication/InvitesActivity.kt:101-113 | the input is cleared iff the status is exactly "SUCCESS"; other answers and failures give their toasts |
| InvitesScreen.AnswerRequest | app/src/main/java/com/example/myapplication/InvitesActivity.kt:117-149 | accept and decline send the own login and the invite's group id, with accept = true or false |
| InvitesScreen.AcceptAndDeclineDifferOnlyInFlag | app/src/main/java/com/example/myapplication/InvitesActivity.kt:117-149 | the accept and decline requests for an invite differ in the flag and nothing else |
| InvitesScreen.ReloadAfterAnswer | app/src/main/java/com/example/myapplication/InvitesActivity.kt:126-156 | the list is reloaded iff the repository answered true |
| InvitesScreen.LoadInvites | app/src/main/java/com/example/myapplication/InvitesActivity.kt:167-177 | a fetched list is shown as is; on failure the shown list stays and a toast appears |
| HomeScreen.AcceptLogin | app/src/main/java/com/example/myapplication/Home.kt:38-43 | the screen proceeds iff the login extra is present and non-empty |
| HomeScreen.FindPlayerGroup | app/src/main/java/com/example/myapplication/Home.kt:233-237 | the first group containing the login, whatever its status, or none when no group contains it |
| HomeScreen.CurrentPlayerGroup | app/src/main/java/com/example/myapplication/Home.kt:226-251 | a failed fetch means no group; otherwise the result is the first fetched group containing the login, and there is one whenever some fetched group contains it |
| HomeScreen.UpdateGroupPlayersDisplay | app/src/main/java/com/example/myapplication/Home.kt:204-224 | four slots; slot i shows a player iff i < the member count; a filled slot is black iff that member is the own login |
| HomeScreen.LoadPlayerGroupInfo | app/src/main/java/com/example/myapplication/Home.kt:180-221 | without a group the slots stay as they were; with one they show its first four members, and a filled slot is black iff that member is the own login |
| HomeScreen.StartGroupGame | app/src/main/java/com/example/myapplication/Home.kt:253-314 | a blank id is refused before any call; then an unknown id, then a group without the player; the server is asked iff every check passes; the game is entered, with that id, iff the server says true |
| HomeScreen.PlayPressed | app/src/main/java/com/example/myapplication/Home.kt:74-95 | a player in no group (or whose lookup failed) enters the "default" game; otherwise the group-start checks run; entering any other game implies the server was asked |
| HomeScreen.PlayReachesServer | app/src/main/java/com/example/myapplication/Home.kt:74-95 | with unique group ids and a non-blank id, a player found in a group always gets the start request sent, and enters that group's game on true |
| HomeScreen.DuplicateIdRefusesMember | app/src/main/java/com/example/myapplication/Home.kt:269-281 | when two groups share an id, a member of the second is refused as not a member |
| HomeScreen.DialogInvite | app/src/main/java/com/example/myapplication/Home.kt:108-142 | an invite is sent iff the untrimmed text is non-empty; it goes from the own login to [text], with a group id starting "temp_group_" and the game-invite message |
| HomeScreen.DialogGroupIdsDistinct | app/src/main/java/com/example/myapplication/Home.kt:140 | invites made at different clock readings name different temporary groups |
| HomeScreen.DialogSendsBlankText | app/src/main/java/com/example/myapplication/Home.kt:116-118 | whitespace-only dialog input is sent |
| HomeScreen.AfterDialogSend | app/src/main/java/com/example/myapplication/Home.kt:145-169 | success, refusal and failure each give their toast |
| GameLogger.Log | app/src/main/java/com/example/myapplication/logging/GameLogger.kt:63-73 | exactly one entry is appended to the queue and handed to writeToFile, with the given timestamp, level, tag, message and player and no action or data; earlier entries are kept |
| GameLogger.AnomalyMessage | app/src/main/java/com/example/myapplication/logging/GameLogger.kt:125-147 | a warning exists iff the action is MOVE, SHOOT or CONNECT, and it names the player |
| GameLogger.LogPlayerAction | app/src/main/java/com/example/myapplication/logging/GameLogger.kt:39-60 | one ANTI_CHEAT entry "Player action: " + action with the player, action and data, then for the three checked actions exactly one WARN/ANTI_CHEAT entry with the warning's own timestamp, the anomaly message and the player; everything queued is also handed to writeToFile |
| GameLogger.ClearSentLogs | app/src/main/java/com/example/myapplication/logging/GameLogger.kt:155-157 | the queue is emptied; what was handed to writeToFile stays recorded |
| GameLogger.QueueIsConcatenation | app/src/main/java/com/example/myapplication/logging/GameLogger.kt:35-73 | after a sequence of calls the queue, and what was handed to writeToFile, is the old content plus every call's entries in call order |
| GameLogger.QueueActions | app/src/main/java/com/example/myapplication/logging/GameLogger.kt:39-82 | the actions recorded in the queue are exactly the actions of the logPlayerAction calls, in call order; log never records one |
| GameLogger.QueueGrowth | app/src/main/java/com/example/myapplication/logging/GameLogger.kt:39-147 | every call queues one entry, plus one anti-cheat warning for each logPlayerAction call with MOVE, SHOOT or CONNECT |
| GameLogger.ServerLogsSinceClear | app/src/main/java/com/example/myapplication/logging/GameLogger.kt:150-157 | after a clear, the server gets exactly what was logged since, in order; everything logged stays handed to writeToFile |
| GameLogger.WrittenFilesAreCandidates | app/src/main/java/com/example/myapplication/logging/GameLogger.kt:91-109 | every file the logger writes passes the retention filter |
| GameLogger.Candidates | app/src/main/java/com/example/myapplication/logging/GameLogger.kt:108-109 | exactly the listed files whose names start "game_log_" and end ".json" |
| GameLogger.InsertNewestFirst | app/src/main/java/com/example/myapplication/logging/GameLogger.kt:110 | inserting into a newest-first list keeps it newest-first |
| GameLogger.SortNewestFirst | app/src/main/java/com/example/myapplication/logging/GameLogger.kt:110 | the result is a permutation of the input ordered by decreasing modification time |
| GameLogger.CleanupOldLogFiles | app/src/main/java/com/example/myapplication/logging/GameLogger.kt:106-122 | kept plus deleted is exactly the log files; nothing is deleted when there are at most five; otherwise five are kept, each at least as new as every deleted one; only log files are ever deleted |
| GameLogger.KeepNewerThanDelete | app/src/main/java/com/example/myapplication/logging/GameLogger.kt:110-116 | in a newest-first list, everything before the cut is at least as new as everything after it |
| GameLogger.NewestFileSurvives | app/src/main/java/com/example/myapplication/logging/GameLogger.kt:95-99 | a log file strictly newer than all others, such as the one just appended to, is never deleted |
| GameLogger.Lines | app/src/main/java/com/example/myapplication/logging/GameLogger.kt:95-96 | one line per written entry |
| GameLogger.GetLogsFromFile | app/src/main/java/com/example/myapplication/logging/GameLogger.kt:160-180 | a missing file gives no entries; otherwise every entry comes from a line whose trimmed text decodes to it, and there are at most as many entries as lines |
| GameLogger.DecodedFromLines | app/src/main/java/com/example/myapplication/logging/GameLogger.kt:166-172 | every entry read comes from a line that decodes to it |
| GameLogger.DecodedAppend | app/src/main/java/com/example/myapplication/logging/GameLogger.kt:166-172 | reading works line by line, so file order is kept |
| GameLogger.UndecodableLineDropped | app/src/main/java/com/example/myapplication/logging/GameLogger.kt:166-172 | an undecodable line is skipped and the lines around it are read as usual |
| GameLogger.ReadBackWritten | app/src/main/java/com/example/myapplication/logging/GameLogger.kt:95-172 | when the decoder inverts the encoder on the trimmed lines, reading the written lines gives back exactly the written entries |

## Left out

- The HTTP endpoints of `GameRepository` are left out: `authenticateUser`, `sendInvite`, the group and room calls, `createGroup` and `connectForNotifications`. They are thin client wrappers, and their results are `Call` inputs to the screens that use them.
- JSON encoding and decoding are left out. Decoders are arbitrary partial functions and the encoder is an arbitrary function.
- The connection-check job in `connectToGame` is left out. It only logs on a wall-clock timer.
- The error statuses emitted when the socket itself fails in `connectToGame` are left out. They come from exceptions of the WebSocket client, which is not part of this model.
- `GroupViewModel.createGroup` is left out. It depends on a random UUID and `createRoom`, and it reads the groups list before the `loadGroups` it launched has run.
- `NetworkManager.kt` is not part of this model: coroutine job orchestration and a racy connection flag. So `PlayerViewModel.connectToGame`, `disconnectFromGame` and the reconnection getters that forward to it are left out too.
- The getters `isReconnecting`, `getCurrentAttempt` and `getMaxAttempts` are left out. They are plain field reads of the `Manager` record and the constant `MaxReconnectAttempts`.
- Cancelling the reconnect job in the middle of a delay is not modelled separately. The job catches the cancellation like any exception, and the next loop test sees the flag down. The end state is the one `StopReconnection` gives.
- Reconnection.CalculateDelay: modelled only for attempts ≥ 1, the only values the loop passes.
- Reconnection.RetryLoop: the callback is modelled by its outcomes only, not by what it does.
- Logging calls made from the view models and activities are left out. They do not change any state the screens read.
- Toasts are modelled only as the texts the rules choose. Intents and navigation are modelled only as the group id handed on. Rendering, touch and drawing are left out.
- Timestamps, `System.currentTimeMillis` and file I/O are parameters. A log file is a sequence of lines; the directory is a listing of (name, last-modified) pairs.
- The unused constant `MAX_LOG_ENTRIES` is left out.
- GameLogger.Log: the entries handed to `writeToFile` are recorded whether or not the write succeeds. The source swallows every write exception, so an entry can be queued and never reach a file.
- GameLogger.QueueIsConcatenation: the record of entries handed to `writeToFile` is not pruned by the retention rule that runs after each write and deletes whole day files. `CleanupOldLogFiles` models that rule on its own.
- GroupViewModel.AcceptInvite: the groups reload it launches runs as a separate coroutine. The step only reports that it was requested, and `AcceptThenReload` states the state once the reload has finished, assuming no other operation interleaves.
- GroupViewModel.LoadGroups: the transient `Loading` state set before the fetch is not modelled, only the state once the fetch has finished.
- GameLogger.CleanupOldLogFiles: the contract does not say which of several equally old files is kept. That depends on the order `listFiles` returns. It also does not remove the deleted files from later listings.
- GameLogger.GetLogsFromFile: a file that cannot be read is treated like a missing file, which matches the empty list the catch-all returns.
- Basics.ToIntOrNull: accepts only ASCII digits, while Kotlin also accepts other Unicode decimal digits.
- Basics.IsWhitespace: lists the JVM whitespace and space-separator code points explicitly, not from a Unicode table.
- PlayerViewModel.UpdatePosition: coordinates are exact reals, with no `Float` rounding.
- Bounded 32-bit arithmetic appears only where the code parses an `Int`. Counters are small naturals that cannot overflow.
