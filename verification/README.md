# CentralSSH: verified model

CentralSSH is an SSH gateway. A client logs in by keyboard-interactive authentication
(section 3 of RFC 4256), selects a target, and is relayed to it; when the target's shell ends the
channel may fall back to a menu inside the session, from which another target is selected. This
project models the state machines and bounded trackers behind that, and proves what they keep over
whole runs.

## How the model is organised

| modules | what they model |
|---|---|
| `Session`, `Login`, `LoginSafety` | the login machine: six phases, each callback one atomic step over the connection, the configuration, the limiter and the abuse tracker |
| `Gateway`, `GatewaySafety` | the channel side: connecting, policy-guarded requests, the menu, reconnects and the relays' ends |
| `GatewayRuns`, `ConnectionRuns`, `TargetRuns`, `CommitRuns`, `Lockout` | runs of the whole gateway: any number of connections, each with its login and its channels, interleaved with reloads |
| `App`, `HandlerObject` | the shared objects and the connection object, whose methods change their fields in place; its two callbacks do the steps of `Login` and `Gateway` and keep the invariants proved of runs |
| `Examples`, `BanOverflow`, `SaveLoadExample` | concrete runs in which the code falls short |
| `Relay` | the loop that copies one backend channel to the frontend and hands it to the menu |
| `LineEditor` | the menu's byte automaton and line buffer |
| `Abuse`, `Fail2ban` | sliding window, bans with backoff, save and reload |
| `RateLimit`, `Auth` | token buckets with idle pruning, and credential checks |
| `Config`, `ConfigStore` | validation, policies, the document, and the store over memory and file |
| `Tokenizer`, `Version`, `Text` | the command tokenizer, release tags and manifests, and the text functions they use |

The source's objects are classes (`GatewayHandler`, `AppState`, `AbuseTracker`, `AbuseTrackerCore`,
`TokenBucket`, `BucketTable`, `AuthEngine`, `SessionBridge`, `MenuEditor`, `ConfigStore`). Their methods
are tied to functions of their abstract values, and the lemmas speak of those functions.

Time is nanoseconds (abuse tracker) or real seconds (limiter) on a clock that never goes back; ban
durations and tokens are exact. Argon2 and TOTP are uninterpreted functions; of a hash it is assumed,
where a lemma says so (`HashesVerify`), that it verifies its own password. Network calls, file writes,
salts and fresh secrets are inputs of a step that may succeed or fail. The login machine puts
what it does on record (`AuthEvent`); the properties over runs speak of these records, and
`RunsAreGenuine` ties each to the fact it stands for.

## Where the code falls short of the obvious property

Each of these is stated exactly: a condition on the inputs, in both directions, or a concrete input.

- The ban duration is capped after the product is formed, and the product panics when no `Duration`
  can hold it. With the default settings this happens from an address's 56th ban on
  (`BackoffExactly`, `DefaultsOverflow`, `OverflowReached`).
- A reload of the tracker replaces memory by the file, so what came after the last save is undone,
  a ban whose save failed included (`NewBanSurvivesReloadExactly`, `WindowRefinesHistory`).
- A tracker that is saved and loaded answers later calls as before only under a condition: a check of
  an expired ban saves in the live tracker and not in the restored one, which matters when a write fails
  and a reload follows (`SaveLoadInvisible`, `SaveLoadInvisibleToSuccess`, `RestoredDiffers`).
- `update_user_credentials` changes memory before the file and does not undo it when the write fails
  (`UpdateUserCredentials`).
- An enrollment commit always clears the change flag. When the stored password has meanwhile become a
  bootstrap text again, the store no longer validates (`UpdateKeepsValidExactly`,
  `CommitKeepsValidExactly`, `ResetRunInvalid`).
- The replay of a channel's request after a menu selection does not ask the new policy, and after a
  failed connect it goes to the old backend with no policy in force. This matters only for a client that
  sends a second request on a channel, against section 6.5 of RFC 4254, and that goes on sending on a
  channel which the gateway has closed, against its section 5.3 (`ReplayPermittedExactly`,
  `ForbiddenReplayReached`, `RunsAreSafe`).
- The target of a login is checked when it is selected, not again when the connection to it is made. It
  is still allowed then exactly when the last configuration taken over since the selection allows it
  (`ConnectedTargetAllowedExactly`, `BackendTargetAllowedExactly`, `RevokedTargetConnects`).
- A version with a newline makes a second manifest rewrite leave text of the first
  (`LastWriteWinsExactly`).
- The password check uses the last user record of a name and the lookups use the first; they agree
  because validation demands unique names (`LastIsFirst`).

## Model

| member | source | states |
|---|---|---|
| `GatewayRuns.AcceptanceIsEarned` | src/ssh/mod.rs:573-1237 | In every run of any number of interleaved connections with reloads, starting from a valid configuration: an acceptance on record is preceded, for the same user name, by a verified password and then a code for the stored secret, or a code for a fresh secret that was then committed (with a confirmed new password when a change was due), where a fresh secret is one the gateway has issued to that user in that session; each session is in a phase whose context satisfies the phase invariant |
| `GatewayRuns.AcceptRepliesAreEarned` | src/ssh/mod.rs:1700-1802 | Whatever the run before: a callback that answers Accept does so for a user who has passed both factors and for a target that user selected, and everything on the connection's record was a fact when recorded |
| `GatewayRuns.BackendEffectsAreEarned` | src/ssh/mod.rs:1239-1308 | Whatever a channel callback of any run asks of a backend, it asks of the current proxy session, whose user has passed both factors and has selected its target, which was known and allowed at that moment |
| `TargetRuns.RunAllowsExactly` | src/ssh/mod.rs:1221-1233 | After any run of the gateway a target is allowed to a user exactly when the configuration taken over last allows it, or, if none was taken over, when it was allowed at the start; logins, commits and channels change nothing that is allowed |
| `TargetRuns.SelectedStaysAllowedExactly` | src/ssh/mod.rs:1221-1233 | A target that was selected at some event is still allowed later exactly when the last configuration taken over since that event, if any, allows it |
| `TargetRuns.ConnectedTargetAllowedExactly` | src/ssh/mod.rs:1804-1826 | In every run from a valid configuration, the end of a login connects to its pending target; that target was selected at some event, and is allowed when connected exactly when the last configuration taken over since allows it |
| `TargetRuns.BackendTargetAllowedExactly` | src/ssh/mod.rs:1239-1308 | The same for the target of a backend session, at any later moment of the run |
| `Examples.RevokedTargetConnects` | src/ssh/mod.rs:1804-1826 | The condition is needed: a run from a valid configuration through password, code and selection, a reload of another valid configuration and the end of the login, ends connected to a target that is no longer allowed |
| `ConnectionRuns.GuardedEffectsAreEarned` | src/ssh/mod.rs:1851-2365 | In every lawful run of the gateway, a guarded operation that reaches a backend, other than by a forbidden replay, is permitted by the policy resolved for the user and the target of the current proxy session, and that user has passed both factors and selected that target |
| `ConnectionRuns.ConnectionsAreSafe` | src/ssh/mod.rs:1239-1468 | In every lawful run every connection is where its own part of the events brings a new one: policy lockstep and menu handover hold, and it is safe exactly when that part has no forbidden replay, so always with one request per channel or an orderly client |
| `CommitRuns.CommittedCredentialsLogIn` | src/ssh/mod.rs:932-1049 | In every run, a committed new password is one that the user confirmed and the policy allowed in that session, the committed secret is one issued to that user in that session, and after the commit the password passes the login check and the record asks for codes of that secret and no further change |
| `CommitRuns.CommittedUserVerifies` | src/auth/mod.rs:157-191 | After an update a password that the new hash verifies is accepted for that user, with the new secret |
| `GatewayRuns.ChannelKeeps` | src/ssh/mod.rs:1804-2341 | The channel side leaves login state and identity alone, and takes up backend sessions only for the user and for the pending or just selected target |
| `GatewayRuns.RunsAreGenuine` | src/ssh/mod.rs:573-1237 | Everything on record at the end of a run was a fact when it was recorded: password and code right by the configuration then in memory, the commit made there, the accepted or selected target known and among the user's allowed servers |
| `GatewayRuns.RunKeepsInv` | src/ssh/mod.rs:77-101 | Unique user names and the session invariant survive every event of every run |
| `GatewayRuns.PasswordChecksBounded` | src/ssh/mod.rs:609-645 | Over all connections, login passwords checked for one address in an interval number at most 30 + length, for one address and lower-cased user name at most 10 + length / 30 |
| `GatewayRuns.ChecksArePaid` | src/ssh/mod.rs:758-804 | Every login-password check is matched by a request that passed both tables, in the same callback and at the same time |
| `GatewayRuns.AdvancePays` | src/ssh/mod.rs:609-645 | One event checks at most one password, and only after both tokens for that very address and user name were granted |
| `GatewayRuns.LimiterStaysSound` | src/auth/mod.rs:42-71 | A callback leaves the limiter sound for the next one |
| `Lockout.BanLocksOut` | src/ssh/mod.rs:513-571 | Once an address has earned a ban in a run of the gateway, every later callback of every connection of that address is rejected until the expiry, leaves its session as it was and records nothing, provided some save since the ban precedes the first reload of the tracker |
| `Lockout.RunOpsTrack` | src/ssh/mod.rs:471-571 | The tracker in a run of the gateway is the tracker after the check of each callback and the failure or success it led to |
| `LoginSafety.CallbackKeeps` | src/ssh/mod.rs:1700-1802 | The phase invariant and the justification of acceptances survive a keyboard-interactive callback with any user name and any responses |
| `LoginSafety.PasswordResponseKeeps` | src/ssh/mod.rs:573-703 | The password phase keeps the session invariant; with unique names the record that decides the prompt is the record that is verified |
| `LoginSafety.ExistingTotpKeeps` | src/ssh/mod.rs:741-915 | The existing-code phase keeps the session invariant: selection is reached only with both factors verified for one record |
| `LoginSafety.ConfirmPasswordKeeps` | src/ssh/mod.rs:932-998 | A new hash enters the context only from a confirmed password that the carried policy allows |
| `LoginSafety.CommitKeeps` | src/ssh/mod.rs:1000-1049 | After a commit the selection context has a secret and no change flag, and the login is complete for that user |
| `LoginSafety.AdvanceKeeps` | src/ssh/mod.rs:705-739 | The phase chosen after the first factors fits the verified record |
| `LoginSafety.SelectionKeeps` | src/ssh/mod.rs:1200-1237 | A selection records an acceptance only for the user whose login is complete |
| `LoginSafety.EventsAreGenuine` | src/ssh/mod.rs:1700-1802 | What a callback records is true in the configuration of that callback |
| `LoginSafety.AcceptMeans` | src/ssh/mod.rs:1700-1802 | An accepting callback either repeats the answer to a connected client and changes nothing, or has just recorded a selection that is now the pending target |
| `LoginSafety.BannedIsRejected` | src/ssh/mod.rs:513-571 | While the address is banned every callback rejects and leaves the session as it was |
| `LoginSafety.RespondAnswers` | src/ssh/mod.rs:1759-1802 | Every prompt is the one the new phase expects, acceptance and rejection leave no phase behind; the tracker records a failure exactly for a rejection and for a wrong enrollment code, a success exactly when the stored code is right or the code for a fresh secret leads to a commit attempt, and otherwise nothing |
| `LoginSafety.StagedRecords` | src/ssh/mod.rs:1051-1198 | A staged login password is checked only after both tokens, and committed only after that check |
| `LoginSafety.EnrollmentRecords` | src/ssh/mod.rs:1051-1198 | An enrollment response never accepts and changes nothing but the phase and the user's own credentials |
| `LoginSafety.CommitKeepsValidExactly` | src/ssh/mod.rs:1000-1049 | A commit keeps the configuration valid except exactly when the stored password is a bootstrap text and no new one was chosen |
| `Examples.ResetRunInvalid` | src/ssh/mod.rs:1000-1049 | A run in which a password is reset between login and enrollment: both loaded configurations validate, and the one left in memory does not |
| `HandlerObject.GatewayHandler.AuthKeyboardInteractive` | src/ssh/mod.rs:1700-1802 | From a valid object (phases fit contexts and record, identity and backend session earned, policy and backend in lockstep, limiter sound) the callback does exactly the login step, with the outcome of the store's edit and write determined by the store, records it, and leaves the object valid; an acceptance is for a user who has passed both factors and selected the pending target |
| `HandlerObject.GatewayHandler.Deliver` | src/ssh/mod.rs:1804-2341 | From a valid object each channel callback, and the end of a relay, does exactly the gateway step and leaves the object valid; guarded operations are relayed as the policy permits except exactly for a forbidden replay, and a backend is asked only for a user who has passed both factors and selected it |
| `HandlerObject.GatewayHandler.AnswerAllowed` | src/ssh/mod.rs:1709-1802 | What follows the ban check is the step of the login machine, the outcome of a commit being that of the store |
| `HandlerObject.GatewayHandler.HandlePasswordResponse` | src/ssh/mod.rs:573-703 | The object's password phase is the step of the login machine: fields, shared state, reply and record |
| `HandlerObject.GatewayHandler.HandleExistingTotpResponse` | src/ssh/mod.rs:741-915 | The same for the existing-code phase |
| `HandlerObject.GatewayHandler.CheckPaidPassword` | src/ssh/mod.rs:609-645 | Both tables are asked before the password; a refused request leaves the password unchecked |
| `HandlerObject.GatewayHandler.HandleConfirmPasswordResponse` | src/ssh/mod.rs:932-998 | The same for the confirmation of a new password |
| `HandlerObject.GatewayHandler.HandleEnrollmentResponse` | src/ssh/mod.rs:1051-1198 | The same for the enrollment phase; a commit succeeds exactly when the user exists, the document can be edited and the write succeeds |
| `HandlerObject.GatewayHandler.CommitPendingUpdates` | src/ssh/mod.rs:1000-1049 | The same for the commit; it succeeds exactly when the user exists, the document can be edited and the write succeeds |
| `HandlerObject.GatewayHandler.HandleSelectionResponse` | src/ssh/mod.rs:1200-1237 | The same for the selection of a target; quitting clears the identity, target and policy |
| `HandlerObject.GatewayHandler.AdvanceAfterInitialAuth` | src/ssh/mod.rs:705-739 | The same for the choice of the next phase |
| `HandlerObject.GatewayHandler.constructor` | src/ssh/mod.rs:109-129 | A new connection is valid |
| `App.AppState.RejectFailure` | src/ssh/mod.rs:471-511 | A failure is recorded for the address and answered with a rejection after the delay that the tracker asks for, or ends the connection when the tracker panics |
| `App.AppState.CheckIp` | src/ssh/mod.rs:513-571 | The check before each callback is the tracker's check and its save |
| `App.AppState.ConsumeToken` | src/auth/mod.rs:114-137 | Both tokens are taken from the shared limiter |
| `App.AppState.UpdateUserCredentials` | src/config/mod.rs:267-305 | Memory is updated, and the call succeeds exactly when the user exists, the document can be edited and the write succeeds |
| `App.AppState.ReloadConfig` | src/config/mod.rs:211-237 | A reload takes over only a configuration that validates, and keeps the shared state valid |
| `GatewaySafety.RunsAreSafe` | src/ssh/mod.rs:1239-1468 | A run of a fresh connection, over any connects, failed connects, disconnects, menu selections and reloads, keeps lockstep and handover, and relays only permitted operations exactly when no menu selection replays a forbidden request; none does if each channel carries one request (section 6.5 of RFC 4254), and none does if nothing is delivered for a channel the gateway has closed or after a disconnect (section 5.3) |
| `GatewaySafety.AdvanceKeeps` | src/ssh/mod.rs:1239-1468 | Every callback keeps: a present policy is the one resolved for the authenticated user and the target of the current backend; a menu channel has no backend channel or relay, any other is outside escape sequences; a channel has at most one live relay; relays and active menus come only after a first connect |
| `GatewaySafety.AdvancePermittedExactly` | src/ssh/mod.rs:1851-2365 | Forwarding, cancel, sftp and SCP requests reach the backend only if the policy in force permits them, except exactly for a forbidden replay |
| `GatewaySafety.RequestsRelayedExactly` | src/ssh/mod.rs:1851-2365 | A guarded request reaches the current backend exactly when the policy in force permits it and the backend takes it; a denied exec or subsystem request disconnects the client, and a permitted one that the backend does not take closes its channel |
| `GatewaySafety.SelectionConnects` | src/ssh/mod.rs:1389-1468 | A selection that connects leaves the chosen, allowed target, its policy and the reopened channel in place, outside the menu |
| `GatewaySafety.RelayEndExactly` | src/ssh/proxy.rs:906-1012 | A relay that ends activates the menu exactly for a shell channel with `drop_to_menu`, leaves other channels alone, and forgets the channel in its own proxy session only |
| `GatewaySafety.RelayEndMatches` | src/ssh/proxy.rs:867-1012 | The gateway's end of a relay leaves menu and session of the channel as the relay loop leaves them |
| `GatewaySafety.ReplayPermittedExactly` | src/ssh/mod.rs:1389-1468 | The replay after a menu selection is permitted exactly when the new policy permits the stored request, or, after a failed connect, when there is no old backend or nothing guarded is replayed |
| `Examples.ForbiddenReplayReached` | src/ssh/mod.rs:1389-1468 | A run of a fresh connection under a valid configuration that follows the transport's rules and is not safe: a request permitted when made is replayed to a target whose policy forbids it; the client sends on a channel that the gateway has closed |
| `GatewaySafety.OrderlySuffices` | src/ssh/mod.rs:1999-2094 | A request on a menu channel closes the channel or the connection, so no replay is forbidden in a run that delivers nothing for closed channels or after a disconnect |
| `GatewaySafety.OneRequestSuffices` | src/ssh/proxy.rs:1034-1038 | With one request per channel a menu channel has stored a shell, so no replay is forbidden |
| `GatewaySafety.ConnectKeeps` | src/ssh/mod.rs:1239-1308 | Policy and proxy session are replaced together, and a failed connect leaves no policy behind |
| `GatewaySafety.ReconnectKeeps` | src/ssh/mod.rs:1389-1468 | Leaving the menu, connecting and reopening the channel keeps all invariants, whichever call fails |
| `GatewaySafety.MenuInputCases` | src/ssh/mod.rs:1310-1408 | Menu input edits its line and nothing else, or makes the selected reconnect |
| `GatewaySafety.RelayEndKeeps` | src/ssh/proxy.rs:906-1012 | The end of a relay, also one of an earlier proxy session, keeps all invariants when it hands the channel to the menu |
| `GatewaySafety.CloseKeeps` | src/ssh/mod.rs:2247-2273 | Closing a channel keeps all invariants; a menu channel keeps its state |
| `GatewaySafety.LoginLeavesConnected` | src/ssh/mod.rs:1700-1802 | Login callbacks leave proxy session and channels alone, can at most drop the policy, and change nothing of a connected session |
| `HandlerObject.GatewayHandler.ConnectSelectedTarget` | src/ssh/mod.rs:1239-1308 | The object's connect is the gateway step: policy and proxy session in place, effects, and whether the callback goes on |
| `HandlerObject.GatewayHandler.HandleMenuChannelInput` | src/ssh/mod.rs:1310-1468 | The object's menu callback is the gateway step: line, channel state, connect, reopened channel, replay |
| `HandlerObject.GatewayHandler.EditLine` | src/ssh/mod.rs:1320-1351 | The byte loop leaves in the channel what feeding the bytes to the editor leaves, and returns the first submitted line |
| `HandlerObject.GatewayHandler.Reconnect` | src/ssh/mod.rs:1389-1468 | The tail of the menu callback is the gateway's reconnect step |
| `HandlerObject.GatewayHandler.AuthSucceeded` | src/ssh/mod.rs:1804-1826 | Connects to the pending target for the accepted user, or disconnects |
| `HandlerObject.GatewayHandler.ChannelOpenSession` | src/ssh/mod.rs:1828-1849 | Opens the backend's channel and spawns its relay, keeping the state of a known channel |
| `HandlerObject.GatewayHandler.ShellRequest` | src/ssh/mod.rs:1969-1997 | The request is remembered and relayed through the proxy's channel maps |
| `HandlerObject.GatewayHandler.ExecRequest` | src/ssh/mod.rs:1999-2043 | The command is classified; an SCP command without permission is not relayed |
| `HandlerObject.GatewayHandler.SubsystemRequest` | src/ssh/mod.rs:2045-2094 | sftp without permission is not relayed |
| `HandlerObject.GatewayHandler.ChannelOpenDirectTcpip` | src/ssh/mod.rs:1851-1895 | Local forwarding is opened only with a backend and a policy that allows it, and its channel then reaches the backend |
| `HandlerObject.GatewayHandler.BackendOpens` | src/ssh/proxy.rs:256-318 | A channel that the backend of the current proxy session opens reaches that backend |
| `HandlerObject.GatewayHandler.RemoteForward` | src/ssh/mod.rs:2275-2341 | Remote forwarding is started or cancelled only with a backend and a policy that allows it |
| `HandlerObject.GatewayHandler.Data` | src/ssh/mod.rs:2186-2209 | Bytes go to the menu that owns the channel, and otherwise to the backend, over session and raw channels alike |
| `HandlerObject.GatewayHandler.ChannelClose` | src/ssh/mod.rs:2247-2273 | A channel outside the menu is forgotten, and the proxy session forgets its session channel or else its raw one |
| `HandlerObject.GatewayHandler.RelayEnded` | src/ssh/proxy.rs:906-1012 | A relay that ends takes its channel from its own proxy session and gives a shell channel to the menu |
| `Abuse.RunsAnswerLikeReferences` | src/abuse.rs:313-508 | Every run of checks, failures, successes, saves and reloads, whatever saves and reads fail, gets the answers of trackers that forget nothing, of which a save copies memory to file and a reload file to memory |
| `Abuse.SyncedRunsAnswerLikeReference` | src/abuse.rs:313-508 | When no reload reads a lagging file, saves and reloads are invisible: the answers are those of one tracker that forgets nothing and has no file |
| `Abuse.SaveLoadInvisible` | src/abuse.rs:486-508 | Saving any reachable tracker and loading it later changes no answer to any later calls that save alike in both or reload no lagging file |
| `Abuse.SaveLoadInvisibleToSuccess` | src/abuse.rs:486-508 | In particular the answers are the same to any later calls whose writes all succeed and of which no failure panics |
| `SaveLoadExample.RestoredDiffers` | src/abuse.rs:581-654 | A run of later calls, one of whose writes fails, that the saved tracker and the restored one answer differently |
| `Abuse.WindowRefinesHistory` | src/abuse.rs:388-456 | In every reachable tracker the window after a failure is exactly the failures of memory's history since the last clearing success inside `find_time`, and a ban follows exactly when they number `max_failures` (and its duration can be computed); a reload that reads the file undoes what came after the last save |
| `Abuse.RefsAreHistories` | src/abuse.rs:612-653 | What memory and file stand for after a run is what their histories make of a tracker without file |
| `Abuse.BanPersists` | src/abuse.rs:313-386 | After any past with any failed saves and reloads, once a failure has earned a ban, every check of that address before the expiry reports it, whatever happens in between, if some save since the failure precedes the first reload that reads the file |
| `Abuse.BanStaysHeld` | src/abuse.rs:313-508 | On any disk whose bans are sound, a ban that is held stays held in every run in which it is in the file already or is saved before the first reload |
| `Abuse.BansNeverShrink` | src/abuse.rs:388-484 | From a reachable tracker, in every run with a save before the first reload, or with the same ban and at least its count in the file already, no ban in force ends earlier than it did and no ban count goes down |
| `Abuse.DelayedExactly` | src/abuse.rs:442-456 | A failure is held back exactly when it earns no ban and another one at the same time would |
| `Abuse.NewBanSurvivesReloadExactly` | src/abuse.rs:567-654 | After a reload that reads the file, a fresh ban is in force exactly when the save that followed it has succeeded or the file held another ban still in force |
| `Abuse.StepRepresents` | src/abuse.rs:581-654 | Each operation keeps memory and file indistinguishable from their references, whether saves and reads succeed or fail |
| `Abuse.SnapshotRepresents` | src/abuse.rs:486-508 | Neither the filter of the save nor that of the load drops anything an answer depends on |
| `Abuse.DropStaleIsWindow` | src/abuse.rs:525-536 | Popping stale timestamps from the front is filtering them |
| `Abuse.PruneFailures` | src/abuse.rs:525-536 | The pruning loop leaves what follows the stale front |
| `Abuse.FailureWindow` | src/abuse.rs:388-420 | Pruning, pushing and pruning again leaves the window over the whole history |
| `Abuse.AbuseTrackerCore.CheckIp` | src/abuse.rs:313-386 | New entries and answer of a check, with the expired ban removed in place |
| `Abuse.AbuseTrackerCore.RecordFailure` | src/abuse.rs:388-456 | New entries and outcome of a failure; a panic leaves the failure recorded and no ban |
| `Abuse.AbuseTrackerCore.RecordSuccess` | src/abuse.rs:458-484 | A success clears the window unless a ban is in force |
| `Abuse.AbuseTrackerCore.SnapshotForPersistence` | src/abuse.rs:486-508 | Entries are pruned in place and those worth keeping are returned |
| `Abuse.AbuseTracker.constructor` | src/abuse.rs:552-565 | The tracker starts from what the load filter leaves of the file |
| `Abuse.AbuseTracker.CheckIp` | src/abuse.rs:581-589 | The check is followed by a save exactly when a ban is or was in force |
| `Abuse.AbuseTracker.RecordFailure` | src/abuse.rs:591-602 | The failure is followed by a save, unless it panics |
| `Abuse.AbuseTracker.RecordSuccess` | src/abuse.rs:604-610 | The success is followed by a save |
| `Abuse.AbuseTracker.LoadPersistedState` | src/abuse.rs:612-634 | Memory is replaced by what the load filter leaves of the file, and stays as it is if the file cannot be read |
| `Abuse.AbuseTracker.PersistIfEnabled` | src/abuse.rs:636-653 | A save prunes memory and replaces the file if the write succeeds |
| `Fail2ban.BackoffGrows` | src/abuse.rs:538-542 | For all validated settings computed ban durations do not shrink with the count and lie between the two bounds; once one overflows all later ones do |
| `Fail2ban.BackoffExactly` | src/abuse.rs:538-542 | The capped product is computed exactly when the product before the cap is a representable duration |
| `Fail2ban.DefaultsOverflow` | src/abuse.rs:20-29 | With the default settings the 55th ban is the last whose duration can be computed; the next panics |
| `BanOverflow.OverflowReached` | src/abuse.rs:421-426 | A run of rounds of failures, none while a ban is in force, that earns 55 bans and then panics instead of earning the 56th |
| `RateLimit.RateBound` | src/auth/mod.rs:42-71 | In every run and interval a key of one table is granted at most capacity + rate * length |
| `RateLimit.PassedBound` | src/auth/mod.rs:114-155 | The same for attempts that pass both tables, per address and per address and lower-cased user name |
| `RateLimit.PruningRefinesTotal` | src/auth/mod.rs:310-315 | Every request not turned away for size is decided as a table that never forgets decides it |
| `RateLimit.PruneKeepsAvailable` | src/auth/mod.rs:310-315 | A bucket is forgotten only when it is full again |
| `RateLimit.ConsumeTakesOne` | src/auth/mod.rs:52-71 | A grant takes one token from its own key, a refusal takes none, and other keys are untouched |
| `RateLimit.SizeBound` | src/auth/mod.rs:114-155 | In every run a table has at most 8192 entries |
| `RateLimit.TokenBucket.ConsumeOne` | src/auth/mod.rs:52-60 | The bucket after refilling and taking a token |
| `RateLimit.TokenBucket.Refill` | src/auth/mod.rs:62-71 | The level grows with elapsed time up to the capacity |
| `RateLimit.BucketTable.PruneBuckets` | src/auth/mod.rs:310-315 | The table keeps exactly the buckets that have not been idle too long |
| `RateLimit.BucketTable.ConsumeToken` | src/auth/mod.rs:124-137 | New table and outcome of one request: pruned, refused for size, or taken from its bucket |
| `Auth.AuthEngine.ConsumeRateLimitToken` | src/auth/mod.rs:114-137 | The address pays first; the user's table is asked only after it |
| `Auth.AuthEngine.ConsumeIpRateLimitToken` | src/auth/mod.rs:139-155 | The address table decides the request and the user table is untouched |
| `Auth.VerifyPasswordConstantTime` | src/auth/mod.rs:157-191 | The scan over all users verifies against the last match, or against the dummy hash |
| `Auth.LastIsFirst` | src/auth/mod.rs:157-191 | With unique names the record of the scan is the record of the lookup by name |
| `Auth.PasswordAcceptedExactly` | src/auth/mod.rs:157-191 | A login password is accepted exactly for a user whose stored hash verifies it |
| `Relay.SessionBridge.Run` | src/ssh/proxy.rs:769-799 | The frontend gets the transcript of the backend's messages, as much of it as it accepts; menu, session and error are settled by whether the relay gave up |
| `Relay.SessionBridge.RelayBackendSession` | src/ssh/proxy.rs:867-954 | The relay loop attempts the transcript, up to the closing message |
| `Relay.SessionBridge.RelayOne` | src/ssh/proxy.rs:880-939 | One message is relayed, suppressed for the menu, rejected, or ends the relay |
| `Relay.SessionBridge.ActivateMenuAfterDisconnect` | src/ssh/proxy.rs:956-1012 | A shell channel with `drop_to_menu` goes to the menu, and the menu is shown if the user has entries and the frontend listens |
| `Relay.SessionBridge.AbortProxySession` | src/ssh/proxy.rs:1185-1202 | The reason is recorded and the frontend disconnected |
| `Relay.SessionBridge.RecordError` | src/ssh/proxy.rs:1204-1209 | The first error is kept |
| `Relay.DataConserved` | src/ssh/proxy.rs:1093-1160 | Every data and extended-data byte reaches the frontend once, in order, on its own stream |
| `Relay.DataPrefixWhenLost` | src/ssh/proxy.rs:1093-1160 | A frontend that goes away has seen a beginning of each stream |
| `Relay.ShownIsPassing` | src/ssh/proxy.rs:1014-1091 | Without menu reuse the frontend sees the classified messages minus window adjustments, up to the first Close; with it also minus Eof, ExitStatus, ExitSignal and Close |
| `Relay.MenuOrClose` | src/ssh/proxy.rs:906-1012 | A transcript ends with one menu or one final close of the frontend channel, never both; the backend's own Close is relayed before the final close, once, exactly when it came and did not lead to the menu |
| `Relay.MenuHidesClose` | src/ssh/proxy.rs:906-954 | A Close that leads to the menu was not relayed |
| `LineEditor.MenuEditor.TakeByte` | src/ssh/mod.rs:1330-1350 | After each byte the buffer is what a stack of typed characters holds after escape sequences are removed, a terminal that plays the echo shows it, and a line is submitted exactly at a newline outside escape sequences |
| `LineEditor.MenuEditor.Input` | src/ssh/mod.rs:1320-1351 | The same for a chunk; chunking does not matter, and the first newline submits what was typed before it |
| `LineEditor.StripSnoc` | src/ssh/mod.rs:1491-1520 | The byte automaton keeps exactly the bytes that a parser of the whole stream keeps |
| `LineEditor.EraseShows` | src/ssh/mod.rs:1340-1344 | Echoing backspace, blank, backspace removes the last character from the display |
| `LineEditor.EchoShows` | src/ssh/mod.rs:1345-1348 | An echoed character extends what the display shows |
| `LineEditor.TypedIsPrintable` | src/ssh/mod.rs:1491-1520 | The buffer holds only printable ASCII |
| `Config.ValidateSemantics` | src/config/mod.rs:424-510 | Accepts exactly the valid configurations |
| `Config.ValidateServers` | src/config/mod.rs:450-468 | Accepts exactly valid servers |
| `Config.ValidateUsers` | src/config/mod.rs:469-507 | Accepts exactly lists of valid users with unique names |
| `Config.DocumentUpdateParses` | src/config/mod.rs:387-422 | Editing the document and parsing it is updating the parsed user; it succeeds exactly when the user exists |
| `Config.OtherItemsStay` | src/config/mod.rs:387-422 | An edit touches only the three credential fields |
| `Config.UpdateScope` | src/config/mod.rs:387-422 | Editing a document changes the credentials of the named user and nothing else, unread keys and other users included |
| `Config.UpdateKeepsValidExactly` | src/config/mod.rs:605-645 | A well-formed update keeps validity except exactly when it clears the change flag of a bootstrap password |
| `ConfigStore.ConfigStore.Reload` | src/config/mod.rs:211-237 | Memory is replaced exactly when both files parse, are secure and validate, and is unchanged otherwise |
| `ConfigStore.ConfigStore.UpdateUserCredentials` | src/config/mod.rs:267-305 | Memory gets the update; the call succeeds exactly when the user exists, the document can be edited and the write succeeds; then the document differs in this user's credentials only, memory is what it parses to, and validity is kept except exactly for a cleared bootstrap password; on failure the file is unchanged, though memory is not |
| `ConfigStore.ConfigStore.MigrateBootstrapPasswords` | src/config/mod.rs:239-265 | Returns the number of bootstrap passwords; on success all are migrated, the document differs in the credentials of these users only, memory is what it parses to, and with well-formed hashes a valid store stays valid |
| `ConfigStore.ConfigStore.MigrateUser` | src/config/mod.rs:243-258 | One turn of the loop migrates one user in memory and document alike |
| `ConfigStore.MigrationScope` | src/config/mod.rs:239-265 | Migration changes only password and change flag, and only of users with bootstrap passwords |
| `ConfigStore.MigrationIsComplete` | src/config/mod.rs:239-265 | After a migration a second one finds nothing |
| `ConfigStore.MigrationKeepsValid` | src/config/mod.rs:424-510 | Migration with well-formed hashes keeps the configuration valid |
| `Tokenizer.ShellLikeSplit` | src/ssh/mod.rs:2412-2445 | The loop over quotes, escapes and blanks computes unquoting followed by splitting into words |
| `Tokenizer.QuoteRoundTrip` | src/ssh/mod.rs:2412-2445 | Splitting inverts backslash quoting for every list of nonempty tokens |
| `Tokenizer.SplitConcat` | src/ssh/mod.rs:2412-2445 | Splitting two commands joined by a blank gives both token lists |
| `Tokenizer.SplitFailsExactly` | src/ssh/mod.rs:2412-2445 | Splitting fails exactly on an open quote or a dangling backslash |
| `Tokenizer.ClassifyScpExecRequest` | src/ssh/mod.rs:2367-2410 | The scan with its two-byte fast branch finds the first mode letter of the flag text |
| `Tokenizer.ModeFoundExactly` | src/ssh/mod.rs:2383-2408 | A mode is found exactly when a flag token before `--` carries a `t` or an `f` |
| `Version.NormalizeReleaseTag` | src/version_support.rs:22-29 | A tag is accepted exactly when it is `v` or `V` before a version of the grammar of Semantic Versioning 2.0.0, and the result is that version |
| `Version.ValidateSemver` | src/version_support.rs:73-83 | Accepts exactly the grammar |
| `Version.ValidateCore` | src/version_support.rs:109-121 | Accepts exactly three numeric identifiers |
| `Version.ValidateIdentifiers` | src/version_support.rs:123-141 | Accepts exactly lists of allowed identifiers |
| `Version.ValidateNumericIdentifier` | src/version_support.rs:143-163 | Accepts exactly the numbers without leading zeros |
| `Version.ParsesExactly` | src/version_support.rs:85-107 | A text is a version exactly when the parser's decomposition is well formed |
| `Version.SplitInvertsRender` | src/version_support.rs:85-107 | The parser recovers the parts of every rendered version |
| `Version.RenderInvertsSplit` | src/version_support.rs:85-107 | Rejoining the parser's parts gives the text back |
| `Version.DecompositionUnique` | src/version_support.rs:85-107 | A version has one decomposition |
| `Version.RewriteManifestVersion` | src/version_support.rs:41-71 | The first version line of the package section is replaced, and an error means there is none |
| `Version.RewriteChangesOneLine` | src/version_support.rs:41-71 | For a newline-free version exactly one line of the manifest changes |
| `Version.LastWriteWinsExactly` | src/version_support.rs:41-71 | Rewriting twice equals rewriting once exactly when the first version has no newline |

## Left out

- BanPersists: needs a successful save between the ban and the first reload that reads the file, because without one the ban can be lost; `NewBanSurvivesReloadExactly` says exactly when. Ban durations are within chrono's range.
- SaveLoadInvisible: for later calls that save differently it needs that no reload reads a lagging file, because the restored tracker has already dropped its expired bans and saves at fewer checks.
- The waiting before a rejection: `RejectFailure` returns how long it is; a callback's reply does not carry it.
- UpdateUserCredentials: agreement of memory and document is promised when they agreed before the call; another program that edits the file meanwhile breaks that.
- MigrateBootstrapPasswords: on failure only the file is promised to be unchanged, since users before the failing one stay migrated in memory.
- Changing the fail2ban settings while the tracker runs (`reload_from_config` with other settings): the settings of a run are fixed.
- Recent user names and target servers of an abuse entry (`push_recent_value`): only logs read them, and they would add an easy member.
- Floating-point rounding of tokens and of the backoff product, infinite or NaN multipliers, and wrap-around of the 32-bit ban and failure counters: exact numbers instead.
- The range limits of `chrono` dates: ban durations that exceed a `TimeDelta` are modelled, dates that overflow are not.
- Several clock readings inside one bucket call: a bucket is created and refilled at one instant; the reading before the lock may be stale.
- Interleaving inside a callback between its suspension points, and cancelled tasks: each callback is one step.
- Constant-time behaviour: timing is not expressible; comparing user names is string equality.
- Which of the two errors a wrong password and a wrong code give: the callbacks treat them alike.
- TOML, JSON and address parsing: documents are decoded tables, whose users may be `[[users]]` tables or an inline array; keys of other sections are carried along unread.
- Whitelists as networks: the whitelist is a set of addresses.
- Temporary files, fsync, ownership, modes and symbolic links: a write succeeds or fails as a whole, and the security checks of a reload are one boolean.
- `ProxySession` teardown beyond the channel map, pty, environment, window-change and signal requests, and the replay of a pty: none touches policy, target or menu state.
- The loop that copies a raw channel's bytes to the frontend, which keeps no state, and X11 and agent requests, which are refused; raw channels themselves are modelled.
- Extended data and end-of-file from the client: relayed over the same channel maps as data, without the menu.
- Channel success and failure messages to the client: what the backend is asked, disconnects, and closes after a request that the backend does not take are effects.
- Prompts, menus, QR codes, audit log entries and command-line handling: presentation.
- `src/crypto_policy.rs`: one filtering loop, an easy member.
- `runtime_version` (formatting) and generation of secrets and host keys.
