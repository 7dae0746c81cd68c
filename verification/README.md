# MATE session manager: a verified model

This project models the session manager of the MATE desktop and proves what
its design promises. Names below are those of the source; the model is in
terms of events (a client answers, a timer fires, the user clicks) and of the
state between them.

## What is modelled

- **The session life-cycle and the logout protocol** (`Session`): ten phases;
  startup waits for its applications; a logout first asks every client, turns
  refusals and silence into just-in-time inhibitors, lets an inhibit dialog
  override them, ends clients in rounds and exits; clients and the user can
  take it back. Each event is one function from state to state. Store
  notifications are synchronous in the source, so a handler can be overtaken by
  the dialog accepting itself and the phase ending underneath it; the functions
  have these nested calls in place, and the class in `SessionManager` runs them
  as callbacks, with the lists, loops and row-by-row reports of the source, and
  is proved to have the same effect, handler by handler; `Handle` puts the
  handlers together, so that what is proved of runs is true of the object.
- On top of it, over every run: the invariant (`SessionInvariant`), the order of
  phases (`SessionPhases`), startup (`SessionStartup`), registration
  (`SessionRegistration`), who is sent what (`SessionMessages`), the vote
  (`SessionVote`) and refusals (`SessionRefusals`), what can get stuck
  (`SessionLiveness`), the rounds of the end (`SessionRounds`), how it is left
  (`SessionExits`) and with what ending (`SessionRequests`), cancelling and
  inhibitors (`SessionUndo`), cookies (`CookieSupply`), and two runs that show
  where the code falls short (`SessionExamples`).
- **Presence and idle monitor** (`Presence`, `IdleMonitor`).
- **XSMP clients**: the SaveYourself conversation (`SaveYourself`) and what its
  requests are for (`SaveRequests`), the property array (`XsmpProperties`),
  command lines (`CommandLine`), and the object that holds them (`XsmpClient`).
- **The saved session** (`StartupId`, `SessionSave`, `SessionRelogin`).
- **Autostart preferences**: an application's record and its delayed save
  (`AutostartApp`), runs of edits and saves (`AutostartSaves`), the list over a
  stack of directories (`AutostartView`), and the objects (`AutostartManager`).
- **The signal callback registry** (`SignalHandler`).

## Main results

- `SessionInvariant.RunInv`, `SessionPhases.PhasesInOrder`: what holds between any
  two events, and the order of phases, on every run.
- `SessionVote.Unanimity`, `SessionRefusals.RefusalsOverRuns`: a logout that is not
  forced passes the query only with the agreement, departure or lifted refusal of
  everybody who could be reached; and refusals stand just as long as they should.
- `SessionMessages.QueryAsksEverybody`, `SessionMessages.LogoutSays`,
  `SessionRequests.QuitsAsRequested`: who is sent what, and what the session quits
  with.
- `SessionStartup.StartupStep`, `SessionRegistration.FiledOverRuns`: what startup
  waits for, and under which ids clients are filed.
- `SessionLiveness.StuckExactlyWhen`, `SessionLiveness.SilentLogoutEnds`: when a
  logout gets stuck, and that silence alone never holds it up.
- `SessionRounds.RoundsInOrder`, `SessionRounds.OneDeadline`,
  `SessionExits.ExitsExactlyWhen`, `SessionExits.EndIsNotCutShort`: the rounds of
  the end, their one deadline, and what ends them.
- `SessionUndo.EveryCancelUndoes`, `SessionUndo.StandingIsLedger`: a cancelled logout
  is undone, and only their owners change the inhibitors.
- `SessionManager.Manager.Handle`: the object takes the steps of the runs.
- `Presence.WatchOverRuns`, `Presence.StatusOverRuns`,
  `SaveYourself.ProtocolOverRuns`, `SaveRequests.EverySaveServes`,
  `SaveYourself.SameExactlyWhileRight`, `XsmpProperties.LastWriteWins`,
  `CommandLine.RoundTripExactlyWhen`.
- `SessionSave.SavedAsAWhole`, `SessionSave.FailureSparesExactlyWhen`,
  `SessionRelogin.NextLogin`, `StartupId.ConsecutiveIdsDiffer`.
- `AutostartApp.EditedSavedReadBack`, `AutostartSaves.SystemStandsExactlyWhen`,
  `AutostartView.ViewOverRuns`, `AutostartView.StepExactlyWhen`.
- `SignalHandler.TablesAgree`, `SignalHandler.AllRemoved`.

## How to read it

A run is a sequence of events, each with an `Env`: the order in which a hash
table is walked, which sends succeed, which applications start, the settings,
and the random draws. `Possible` says what the outside world owes: a walk visits
every client once, draws are fair, a generated startup id is new, and there are
fewer inhibitors than cookies. A bystander who sees only events and messages
(`Ballot`, `Round`, `Wish`, `IdsTold`, `Refused`, `Book`) states the properties of
the vote, of the rounds, of endings, ids and refusals, and of save requests; the
manager's own fields are related to the bystander's notes by invariants.

Functions and lemmas hold the specification and its properties. Classes follow
the source: fields updated in place, lists prepended to, tables walked in loops;
each method is proved equal to its function.

## Where the code does not do what it is meant to

Each of these is a concrete run or input together with the exact condition
under which the code is right.

- A suspend, hibernate or switch-user dialog that is open when a logout starts
  takes the place of the logout dialog; closing it leaves the session waiting
  for nothing (`StuckExactlyWhen`, `ForgottenDialog`).
- A logout dialog that was overtaken by a client giving in stays up, and when its
  last row goes it ends the session before the clients have answered
  (`StaleDialog`; for every event, `ExitsExactlyWhen`; over runs,
  `EndIsNotCutShort`).
- The queue of SaveYourself requests is tested against zero, which is a type, and
  not against -1, which is the empty queue (`CodeBreaksProtocol`,
  `GlobalSaveIsStuck`; at one report, `GuardIsRightExactlyWhen`; over whole
  conversations, `SameExactlyWhileRight`).
- The escape for a single quote in a command line is three single quotes, because
  the backslash belongs to the C literal; and empty arguments vanish
  (`QuoteIsLost`, `EmptyIsLost`, `RoundTripExactlyWhen`).
- When saving the session fails, the discard commands of the clients already saved
  are run, although the old session, which stands, may need what they discard
  (`StateLost`, `FailureSparesExactlyWhen`).
- Deleting the topmost system copy of an autostart file drops the application
  although a lower copy exists (`DeleteRightExactlyWhen`, `LowerCopyForgotten`).
- An edited name or comment does not survive saving when the file has a variant
  for the current language with an encoding (`NewNameIsHidden`,
  `EditedSavedReadBack`).
- Dropping the user's copy leaves the save timer marked as running, and the save
  made on disposal removes the system's copy (`HiddenShownAndDisposed`; for one
  save, `SystemCopyStandsExactlyWhen`; over edits and saves,
  `SystemStandsExactlyWhen`).

## Model

| member | source | states |
|---|---|---|
| SessionPhases.PhasesInOrder | mate-session/gsm-manager.c:539-596 | on every run: the phases entered are in order, none is rested in without reason (the application phase never), quitting is always named, and an exited session has quit |
| SessionPhases.PathIsOrderly | mate-session/gsm-manager.c:1597-1655 | a path of permitted edges starts with the startup phases once and in order, and never returns below the running one |
| SessionPhases.NothingLeftOver | mate-session/gsm-manager.c:1076-1112 | on every run: outside a logout there is no forced mode, no query timer, no list of awaited clients and no just-in-time inhibitor |
| SessionPhases.IdleChain | mate-session/gsm-presence.c:154-180 | on every run, from the running phase on: the idle watch is armed exactly when nothing inhibits idleness, the screensaver is off and a timeout is set; the monitor holds that watch and nothing else |
| SessionPhases.CookiesDistinct | mate-session/gsm-manager.c:1470-1482 | on every run: the cookies of all inhibitors are in range and pairwise different |
| SessionPhases.StartupIdsDistinct | mate-session/gsm-manager.c:2149-2215 | on every run: no two clients share a startup id, and every client on the bus has one |
| SessionRegistration.XsmpFiledAsTold | mate-session/gsm-xsmp-client.c:1113-1135 | an XSMP client is filed under the id it is told: the one it named, with the application of that id, or a new one; a refused one stays as it was |
| SessionRegistration.DBusFiledAsNamed | mate-session/gsm-manager.c:3796-3858 | a D-Bus client is filed under the id it named, or a new one, with its bus name and application |
| SessionRegistration.RegisteredNotAwaited | mate-session/gsm-manager.c:599-616 | the application of a registered client is not waited for any more |
| SessionRegistration.FiledOverRuns | mate-session/gsm-manager.c:2184-2245 | on every run: every client has the startup id it was told, or named, when it was last accepted, and no other |
| SessionInvariant.RunInv | mate-session/gsm-manager.c:539-596 | every state of every run satisfies the invariant: timers, lists, dialog, stores and idle watch fit the phase |
| SessionInvariant.StepInv | mate-session/gsm-manager.c:2316-2406 | every event, with all the callbacks it sets off, keeps the invariant |
| SessionInvariant.StartPhaseFrame | mate-session/gsm-manager.c:1597-1655 | starting a phase goes forward, stops at the running phase at the latest during startup, and leaves the stores alone |
| SessionStartup.StartupStep | mate-session/gsm-manager.c:749-767 | during startup a phase ends exactly when the session is started, its time is up or nothing is left to wait for; the next phase that rests waits for exactly the enabled, undelayed, launched applications of it, and those skipped had none |
| SessionStartup.PendingOverRuns | mate-session/gsm-manager.c:683-746 | on every run: no disabled or delayed application, and none of another phase, is waited for |
| SessionFrames.StepPhase | mate-session/gsm-manager.c:3531-3557 | an event moves the phase onward or takes a logout back; only a logout or halt request made while running starts a query |
| SessionFrames.ForcedAnswer | mate-session/gsm-manager.c:2340-2376 | under force a refusal counts as an agreement, and force stays |
| SessionVote.Unanimity | mate-session/gsm-manager.c:2316-2381 | on every run: whenever the query passes without force, every client that was there and could be reached when the logout began has agreed, has gone or had its refusal lifted by Uninhibit, and no logout inhibitor is left while there are clients |
| SessionVote.AllReachableAsked | mate-session/gsm-manager.c:961-983 | on every run: those who were sent the question are exactly the clients that were there and could be reached |
| SessionVote.VoteStep | mate-session/gsm-manager.c:1395-1416 | one event keeps a bystander's notes in step: whoever was asked still owes an answer, is excused, or holds a just-in-time inhibitor |
| SessionVote.QueryTimeoutVote | mate-session/gsm-manager.c:1485-1543 | the clients that stay silent are not forgotten when the query times out: each gets an inhibitor |
| SessionVote.DropAllVote | mate-session/gsm-manager.c:1979-1999 | clients that vanish with their bus name are excused one by one, and none of them is missed |
| SessionRefusals.RefusalsOverRuns | mate-session/gsm-manager.c:2340-2376 | on every run: a client holds as many just-in-time inhibitors as refusals of it stand, each "no" or silence counting one, and none after a "yes", a departure or a cancelled logout |
| SessionRefusals.RefusalsStep | mate-session/gsm-manager.c:1822-1932 | every event changes the number of refusals of every client just so |
| SessionRefusals.ThereOverRuns | mate-session/gsm-manager.c:1546-1581 | on every run: whoever holds a just-in-time inhibitor or is awaited in a query is connected, and awaited once |
| SessionLiveness.StuckExactlyWhen | mate-session/gsm-manager.c:1354-1392 | the query is left without timer and dialog exactly by accepting, declining or emptying an inhibit dialog that belongs to suspend, hibernate or switch user while nothing else keeps the query alive |
| SessionLiveness.StuckStays | mate-session/gsm-manager.c:1576-1580 | a session stuck like that stays stuck under everything but an answer, a disconnection or another sleep request |
| SessionLiveness.StuckRunsHung | mate-session/gsm-manager.c:1418-1422 | every run that ends up stuck went through a state in which only such a dialog kept the query alive |
| SessionLiveness.NeverStuck | mate-session/gsm-manager.c:1546-1581 | a run without requests to suspend, hibernate or switch users never gets stuck |
| SessionLiveness.SilentLogoutEnds | mate-session/gsm-manager.c:619-656 | with silent clients one query timeout, one accepted dialog and one phase timeout reach the exit, from any query not held up by a foreign dialog |
| SessionLiveness.SilentStartupEnds | mate-session/gsm-manager.c:749-767 | with silent applications one phase timeout per phase brings the session up |
| SessionExamples.ForgottenDialog | mate-session/gsm-manager.c:1375-1383 | a reachable session that waits for nothing: a suspend dialog left open at logout is declined after all clients agreed |
| SessionExamples.StaleDialog | mate-session/gsm-inhibit-dialog.c:691-713 | a reachable session that exits before its client has answered the end: a logout dialog left over from the query accepts itself when its last row goes |
| SessionRounds.RoundsInOrder | mate-session/gsm-manager.c:843-873 | on every run: within the end, messages to end go out only as last ones, on an answer, and only when all those told before have answered as often as they were told |
| SessionRounds.RoundStep | mate-session/gsm-manager.c:2382-2405 | one event keeps the count of messages and answers in step with the list of awaited clients |
| SessionMessages.QueryAsksEverybody | mate-session/gsm-manager.c:1546-1581 | a logout starts exactly on a logout or halt request made while running and not locked down, in the mode and with the ending requested; every client that can be reached is asked, once, forcefully exactly if so requested, and exactly these are awaited |
| SessionMessages.LogoutSays | mate-session/gsm-manager.c:539-596 | within a logout that is not taken back: every message fits its reason, whoever is concerned gets it and nobody twice: the first message to end with its flags, the stop on the exit, the saving of the session, the quitting |
| SessionMessages.EndPhaseSays | mate-session/gsm-manager.c:808-840 | the same for the end of one phase |
| SessionMessages.CancelSays | mate-session/gsm-manager.c:1076-1112 | a cancelled logout tells every client so, once, and nobody anything else |
| SessionMessages.AnswerRound | mate-session/gsm-manager.c:843-873 | the last round starts exactly when nobody else is awaited, nothing inhibits logout and somebody waits for it, and tells all who do |
| SessionMessages.SleepSays | mate-session/gsm-manager.c:3309-3420 | suspend, hibernate and switching users: done at once exactly if allowed and not inhibited, else asked about unless a dialog is up |
| SessionMessages.PerformedExactlyWhen | mate-session/gsm-manager.c:1354-1392 | the action of another dialog is performed exactly when it is accepted or loses its last row, and is not locked |
| SessionMessages.LastClientExits | mate-session/gsm-manager.c:2165-2181 | in a logout the departure of the last client leads to the exit whatever inhibits it |
| SessionRequests.QuitsAsRequested | mate-session/gsm-manager.c:3188-3245 | on every run: the session quits only on the exit, always when it gets there, with the ending of the latest request that started a logout and was not taken back; an open logout dialog asks for that |
| SessionRequests.QueryWaitsForDialog | mate-session/gsm-manager.c:1395-1457 | a query that is answered and inhibited waits for the dialog that is up, or for a new one about the ending that lists every inhibitor |
| SessionRequests.SaidOverRuns | mate-session/gsm-manager.c:961-983 | on every run, the three laws on messages hold between any two events |
| SessionRounds.OneDeadline | mate-session/gsm-manager.c:808-873 | however many rounds there are, the phase timer armed at the beginning of the end stands, and it ends the session |
| SessionRounds.AnswerExitsExactlyWhen | mate-session/gsm-manager.c:2382-2405 | an answer ends the session exactly when it is the last one awaited with nobody postponed and nothing inhibiting logout, or when it empties a logout dialog left over from the query |
| SessionRounds.AnswerExitsInOrder | mate-session/gsm-manager.c:2394-2404 | with no such dialog up, an answer ends the session only when both lists are empty and no logout inhibitor exists |
| SessionExits.ExitsExactlyWhen | mate-session/gsm-manager.c:2316-2406 | within the end, whatever the event, the session exits exactly if time is up, the last word is in or nobody is left, or if a logout dialog still up is accepted or loses its last row |
| SessionExits.ExitsInOrder | mate-session/gsm-manager.c:2382-2405 | with no such dialog up: exactly if time is up, the last word is in or nobody is left |
| SessionExits.EndIsNotCutShort | mate-session/gsm-manager.c:1979-1999 | on every run, by a bystander's count: the end is left before all who were told have answered only when time is up, nobody is left, or such a dialog is accepted or loses its last row |
| SessionExits.UninhibitExits | mate-session/gsm-inhibit-dialog.c:691-713 | Uninhibit within the end exits exactly when such a dialog is up and lists nothing else |
| SessionExits.DropAllWithinEnd | mate-session/gsm-manager.c:1979-1999 | dropping clients one by one within the end exits exactly when the inhibitors of the dropped ones are all that such a dialog lists, and else takes just those |
| SessionUndo.CancelUndoes | mate-session/gsm-manager.c:1076-1112 | cancelling undoes the logout: running, normal mode, no ending, empty lists, no timers, no dialog, just the standing inhibitors; every client is told |
| SessionUndo.EveryCancelUndoes | mate-session/gsm-manager.c:2333-2336 | both a client's cancel and the user's declining of the logout dialog undo the logout |
| SessionUndo.StandingStep | mate-session/gsm-manager.c:1745-1765 | no event but Inhibit, Uninhibit and the loss of a bus name changes the inhibitors that applications hold |
| SessionUndo.OwnersStep | mate-session/gsm-manager.c:2002-2042 | Inhibit adds exactly one, with the cookie it returns, Uninhibit takes exactly the one with the cookie, a lost bus name takes exactly its own |
| SessionUndo.StandingIsLedger | mate-session/gsm-manager.c:1745-1765 | over any run from any state, the inhibitors that applications hold are those from before, changed by the owners' events alone, one after the other |
| SessionUndo.LogoutLeavesNoTrace | mate-session/gsm-manager.c:1096-1099 | between two points outside a logout, whatever happened, the inhibitors are what the owners' events make of those from before, and the same if there were no such events, however many logouts were tried in between |
| SessionUndo.InhibitIsUndone | mate-session/gsm-manager.c:3974-4026 | Uninhibit with the cookie that Inhibit returned restores the store and the dialog exactly, and the idle watch untouched unless it was concerned |
| SessionUndo.ForceNeverInhibited | mate-session/gsm-manager.c:3923-3936 | force is found only within a logout, and while it holds no event adds an inhibitor |
| CookieSupply.FreeCookieExists | mate-session/gsm-manager.c:1460-1482 | while fewer cookies are held than there are, one is free |
| CookieSupply.FreshCookieIsFresh | mate-session/gsm-manager.c:1470-1482 | drawing until an unused cookie turns up ends, with an unused cookie in range |
| CookieSupply.CookiesSize | mate-session/gsm-manager.c:1470-1482 | an inhibitor store uses at most as many cookies as it has members |
| SessionManager.Manager.StartPhase | mate-session/gsm-manager.c:1597-1655 | refines the state function: lists and timers reset, then the work of the phase, then on at once if there is nothing to wait for |
| SessionManager.Manager.EndPhase | mate-session/gsm-manager.c:539-596 | refines the state function: clean up, save or quit where due, and start the next phase unless locked down or exited |
| SessionManager.Manager.DoPhaseStartup | mate-session/gsm-manager.c:749-767 | launches what belongs to the phase; waits with a timer if anything is pending, else ends the phase |
| SessionManager.Manager.StartApps | mate-session/gsm-manager.c:683-746 | the pending list becomes exactly the launched, enabled, undelayed applications of the phase, each once |
| SessionManager.Manager.DoPhaseQueryEndSession | mate-session/gsm-manager.c:1546-1581 | asks in the order of the walk, awaits exactly the clients that can be reached, and arms the query timer |
| SessionManager.Manager.DoPhaseEndSession | mate-session/gsm-manager.c:808-840 | tells every reachable client to end and arms the phase timer, or ends the phase when there are no clients |
| SessionManager.Manager.DoPhaseEndSessionPart2 | mate-session/gsm-manager.c:843-873 | tells those who asked to be last, and empties their list |
| SessionManager.Manager.DoPhaseExit | mate-session/gsm-manager.c:942-958 | tells every client to stop and quits |
| SessionManager.Manager.Ask | mate-session/gsm-manager.c:961-983 | the messages sent and the awaited list, prepended to, are those of the walk over the clients |
| SessionManager.Manager.IsInhibited | mate-session/gsm-manager.c:1001-1040 | finds whether any inhibitor has the flag |
| SessionManager.Manager.UpdateIdle | mate-session/gsm-manager.c:1584-1594 | sets idle detection to the absence of idle inhibitors |
| SessionManager.Manager.GenerateUniqueCookie | mate-session/gsm-manager.c:1470-1482 | returns the first drawn cookie not in use |
| SessionManager.Manager.AddInhibitor | mate-session/gsm-store.c:238-264 | the store, the idle watch and the rows of an open dialog all gain the inhibitor |
| SessionManager.Manager.RemoveInhibitors | mate-session/gsm-store.c:183-215 | removing first and reporting one by one afterwards comes to the closed form: store without them, rows without them, and the dialog accepting itself on the last report if it is emptied |
| SessionManager.ReportsAddUp | mate-session/gsm-store.c:200-212 | the reports of a removal, taken one by one with the dialog closing in the middle, add up to removing all at once |
| SessionManager.Manager.OnInhibitorRemoved | mate-session/gsm-manager.c:2611-2618 | one report reaches the idle watch first and the dialog second |
| SessionManager.InhibitDialog.OnInhibitorAdded | mate-session/gsm-inhibit-dialog.c:667-688 | the row list gains the inhibitor once |
| SessionManager.InhibitDialog.OnInhibitorRemoved | mate-session/gsm-inhibit-dialog.c:691-713 | the row list loses the inhibitor, and says when it is empty |
| SessionManager.InhibitDialog.OnResponse | mate-session/gsm-inhibit-dialog.c:117-135 | only the first response counts |
| SessionManager.InhibitDialog.constructor | mate-session/gsm-inhibit-dialog.c:843-864 | a new dialog shows exactly the inhibitors there are |
| SessionManager.Manager.DoInhibitDialogAction | mate-session/gsm-manager.c:1325-1351 | an ending action forces the logout on, another one is performed |
| SessionManager.Manager.Accept | mate-session/gsm-manager.c:1354-1392 | the dialog is gone before its action is carried out |
| SessionManager.Manager.Decline | mate-session/gsm-manager.c:1375-1383 | declining cancels the logout only when the dialog was about it |
| SessionManager.Manager.CancelEndSession | mate-session/gsm-manager.c:1076-1112 | refines the state function of cancelling, dialog first |
| SessionManager.Manager.QueryEndSessionComplete | mate-session/gsm-manager.c:1395-1457 | ends the phase when nothing inhibits logout, else makes sure a dialog is up |
| SessionManager.Manager.OnQueryTimeout | mate-session/gsm-manager.c:1485-1543 | one inhibitor for each silent client unless forced, then the query completes |
| SessionManager.Manager.HandleClientEndSessionResponse | mate-session/gsm-manager.c:2316-2406 | refines the state function of an answer, including the phase having changed under it |
| SessionManager.Manager.DisconnectClient | mate-session/gsm-manager.c:1822-1932 | the inhibitors of a client go, and during a query its going counts as agreement |
| SessionManager.Manager.OnClientDisconnected | mate-session/gsm-manager.c:2165-2181 | the client is dropped, and the last one ends the phase |
| SessionManager.Manager.RemoveClientsForConnection | mate-session/gsm-manager.c:1979-1999 | every D-Bus client of the connection is dropped in turn |
| SessionManager.Manager.OnBusNameLost | mate-session/gsm-manager.c:2045-2063 | first the inhibitors of the name go, then its clients |
| SessionManager.Manager.OnBusDisconnected | mate-session/gsm-manager.c:2066-2087 | all D-Bus clients are dropped |
| SessionManager.Manager.Start | mate-session/gsm-manager.c:1698-1707 | a session that has not started enters its first phase |
| SessionManager.Manager.OnPhaseTimeout | mate-session/gsm-manager.c:619-656 | the phase ends whatever was pending |
| SessionManager.Manager.AppRegistered | mate-session/gsm-manager.c:599-616 | the last pending application ends the phase |
| SessionManager.Manager.FindAppForStartupId | mate-session/gsm-manager.c:1784-1819 | looks among the pending applications during startup and among all of them later, and misses none |
| SessionManager.Manager.FindApp | mate-session/gsm-manager.c:3822-3828 | an application with that startup id if there is one, else one with that application id if there is one, else none |
| SessionManager.Manager.OnXsmpRegisterRequest | mate-session/gsm-manager.c:2184-2245 | the reply to each case of an XSMP registration, and its effect: the client is filed under the id in the reply |
| SessionManager.Manager.RegisterClient | mate-session/gsm-manager.c:3764-3867 | the reply to each case of a D-Bus registration, and its effect, with the application that the lookup finds and the id that was named |
| SessionManager.Manager.RegisterAs | mate-session/gsm-manager.c:3842-3867 | the client is added with its application, which may end the phase |
| SessionManager.Manager.Handle | mate-session/gsm-manager.c:2316-2406 | whatever the event, the object goes where the run goes, and keeps the invariant: so the theorems about runs are about the object |
| SessionManager.Manager.Inhibit | mate-session/gsm-manager.c:3906-3987 | each refusal, and a fresh cookie otherwise |
| SessionManager.Manager.Uninhibit | mate-session/gsm-manager.c:3990-4029 | an unknown cookie is refused, a known one takes its inhibitor away |
| SessionManager.Manager.Logout | mate-session/gsm-manager.c:3717-3761 | each refusal, and a logout in the requested mode otherwise, with logout as the ending |
| SessionManager.Manager.Halt | mate-session/gsm-manager.c:3188-3215 | a reboot or shutdown with its privileges settled ends the running phase, and that is how the session is to end |
| SessionManager.Manager.Sleep | mate-session/gsm-manager.c:3309-3420 | performed at once, or asked about in a dialog if inhibited, unless one is up |
| Presence.NextValid | mate-session/gsm-presence.c:339-353 | every event keeps one watch exactly while one is wanted, also when the serial number wraps, and sets the setting it is about and no other |
| Presence.ResetWatchValid | mate-session/gsm-presence.c:154-180 | rebuilding the watch restores the agreement from whatever the settings became |
| Presence.WatchOverRuns | mate-session/gsm-presence.c:154-211 | over every run the monitor holds one watch or none |
| Presence.IdleIsUndone | mate-session/gsm-presence.c:110-137 | the two alarms of a watch, one after the other, bring the status back |
| Presence.StatusOverRuns | mate-session/gsm-presence.c:110-212 | over every run: the status is idle from the screensaver or the idle alarm on until the screensaver goes, activity is seen or a status is chosen, and otherwise the chosen one |
| Presence.PresenceMonitor.ResetIdleWatch | mate-session/gsm-presence.c:154-180 | refines the state function: the old watch goes, a new one comes if wanted |
| Presence.PresenceMonitor.SetSessionIdle | mate-session/gsm-presence.c:110-137 | the status is kept aside while idle, and brought back |
| Presence.PresenceMonitor.SetIdleEnabled | mate-session/gsm-presence.c:339-353 | a change of setting rebuilds the watch, no change does nothing |
| Presence.PresenceMonitor.SetIdleTimeout | mate-session/gsm-presence.c:405-418 | a change of timeout rebuilds the watch, no change does nothing |
| Presence.PresenceMonitor.OnScreensaverChanged | mate-session/gsm-presence.c:183-198 | the screensaver takes over idleness and gives it back |
| Presence.PresenceMonitor.OnScreensaverGone | mate-session/gsm-presence.c:201-212 | a screensaver that leaves the bus counts as switched off |
| Presence.PresenceMonitor.OnAlarm | mate-session/gsm-presence.c:140-151 | an alarm of the live watch, and no other, changes the status |
| IdleMonitor.CounterRoundTrip | mate-session/gs-idle-monitor.c:73-87 | the two conversions between 64-bit integers and counter values are inverse to each other, on all values |
| IdleMonitor.WatchTable.GetNextSerial | mate-session/gs-idle-monitor.c:341-354 | serial numbers count up and wrap to 1 |
| IdleMonitor.WatchTable.Add | mate-session/gs-idle-monitor.c:471-491 | the table gains a watch with two alarms of its own |
| IdleMonitor.WatchTable.Remove | mate-session/gs-idle-monitor.c:494-501 | the table loses that watch |
| IdleMonitor.WatchTable.FindAlarm | mate-session/gs-idle-monitor.c:107-129 | finds the owner of an alarm if there is one, and which of the two alarms it is |
| SaveYourself.ProtocolOverRuns | mate-session/gsm-xsmp-client.c:422-477 | with the queue tested for emptiness, on every run: requests are of a known type, and none is sent while another is under way |
| SaveYourself.QueuedIsSentOnce | mate-session/gsm-xsmp-client.c:1320-1328 | a queued request is sent exactly once, when the client is done, unless the logout was cancelled |
| SaveYourself.QueuedStays | mate-session/gsm-xsmp-client.c:431-438 | further requests do not displace a queued one |
| SaveRequests.CallServes | mate-session/gsm-xsmp-client.c:751-824 | what the query and the end ask for: the client's own state exactly if the session is saved at its end, interaction exactly in a query that is not forced; sent at once, queued or dropped |
| SaveRequests.EverySaveServes | mate-session/gsm-xsmp-client.c:422-477 | over whole conversations: every request sent is for a reason in a bystander's book, in that order and of the kind it calls for, for the code too as long as its guard is right |
| SaveRequests.ReportsAcknowledged | mate-session/gsm-xsmp-client.c:1296-1318 | over whole conversations: exactly the reports that close a request are acknowledged, each at once |
| SaveYourself.GuardIsRightExactlyWhen | mate-session/gsm-xsmp-client.c:1321 | the guard in the code does what is intended exactly when a request is under way again, or a type other than zero is queued |
| SaveYourself.PlainDoneIsRightExactlyWhen | mate-session/gsm-xsmp-client.c:1296-1329 | without calls in between: exactly when a local or full save is queued |
| SaveYourself.SameExactlyWhileRight | mate-session/gsm-xsmp-client.c:1296-1329 | over whole conversations: the code does what is intended exactly if its guard is right at every report |
| SaveYourself.CodeBreaksProtocol | mate-session/gsm-xsmp-client.c:1321-1328 | a client that registers and finishes its first save is sent a request of type -1, and a second one on top of it |
| SaveYourself.GlobalSaveIsStuck | mate-session/gsm-xsmp-client.c:1321-1328 | a queued global save is never sent, and until the logout is cancelled neither is anything else |
| XsmpClient.Client.DoSaveYourself | mate-session/gsm-xsmp-client.c:422-477 | skipped, queued or sent, with the interaction style that belongs to the type |
| XsmpClient.Client.QueryEndSession | mate-session/gsm-xsmp-client.c:751-780 | refused without a connection, else a global save, with interaction unless forced |
| XsmpClient.Client.EndSession | mate-session/gsm-xsmp-client.c:783-824 | refused without a connection, else the second phase, or a save without interaction that takes in the client's own state exactly if asked to |
| XsmpClient.Client.CancelEndSession | mate-session/gsm-xsmp-client.c:504-529 | refused without a connection, else the queue is emptied |
| XsmpClient.Client.OnRegister | mate-session/gsm-xsmp-client.c:1091-1150 | a new client is asked to save at once |
| XsmpClient.Client.OnSaveYourselfRequest | mate-session/gsm-xsmp-client.c:1153-1215 | a global shutdown request asks for logout, a local one for a checkpoint, others are ignored |
| XsmpClient.Client.OnPhase2Request | mate-session/gsm-xsmp-client.c:1218-1236 | the request under way is closed |
| XsmpClient.Client.OnSaveYourselfDone | mate-session/gsm-xsmp-client.c:1296-1329 | the code as it is, with the session manager's own calls in the middle |
| XsmpProperties.LastWriteWins | mate-session/gsm-xsmp-client.c:282-330 | after any batches, duplicates within one included, no name is held twice and the array represents the map of last writes |
| XsmpProperties.PropertiesOfAClient | mate-session/gsm-xsmp-client.c:206-216 | from the empty array on |
| XsmpProperties.LookupAgrees | mate-session/gsm-xsmp-client.c:117-139 | searching the array is looking up the map |
| XsmpProperties.IndexOf | mate-session/gsm-xsmp-client.c:117-139 | the first property of that name, or none |
| XsmpClient.Client.FindProperty | mate-session/gsm-xsmp-client.c:117-139 | refines the search |
| XsmpClient.Client.DeleteProperty | mate-session/gsm-xsmp-client.c:219-248 | the last element takes the place of the removed one |
| XsmpClient.Client.SetProperties | mate-session/gsm-xsmp-client.c:282-307 | each property of the batch replaces the one of its name |
| XsmpClient.Client.DeleteProperties | mate-session/gsm-xsmp-client.c:310-330 | each named property goes |
| CommandLine.RoundTripExactlyWhen | mate-session/gsm-xsmp-client.c:349-391 | splitting a written command line by the shell's rules gives the arguments back exactly when there are some, none is empty and none holds a single quote |
| CommandLine.SplitsIntoNonEmpty | mate-session/gsm-xsmp-client.c:349-391 | without single quotes, exactly the empty arguments are lost |
| CommandLine.SplitMarks | mate-session/gsm-session-save.c:186-200 | splitting never makes up a double quote or backslash, and uses one up for every line out of which a single quote comes |
| CommandLine.QuoteIsLost | mate-session/gsm-xsmp-client.c:349-391 | the line written for one argument with a single quote, and that the shell rejects it |
| CommandLine.EmptyIsLost | mate-session/gsm-xsmp-client.c:349-391 | an empty argument that does not come back |
| XsmpClient.Client.PropToCommand | mate-session/gsm-xsmp-client.c:349-391 | refines the writing of a command line |
| XsmpClient.Client.GetCommand | mate-session/gsm-xsmp-client.c:394-419 | the command of a list property, none otherwise |
| StartupId.SameIdExactlyWhen | mate-session/gsm-util.c:449-457 | two ids are the same exactly when the sequence numbers and the stamps are |
| StartupId.ConsecutiveIdsDiffer | mate-session/gsm-util.c:449-457 | any ten thousand calls in a row return different ids |
| StartupId.Source.Generate | mate-session/gsm-util.c:411-458 | each call ends its id with the next sequence number |
| SessionSave.SavedAsAWhole | mate-session/gsm-session-save.c:118-168 | a failed save leaves the old session as it was; a complete one replaces it by exactly one file for each saved client, if the old files can be removed, and otherwise leaves just those that cannot |
| SessionSave.DiscardsWhatIsForgotten | mate-session/gsm-session-save.c:171-216 | the discard commands run are exactly those of old files that no new file mentions |
| SessionSave.FailureDiscards | mate-session/gsm-session-save.c:157-164 | when a client fails, the discard commands of exactly the clients saved before it are run |
| SessionSave.FailureSparesExactlyWhen | mate-session/gsm-session-save.c:157-164 | a failed save runs no command that a file of the standing session has exactly when none of the clients saved before the failure has such a command |
| SessionSave.StateLost | mate-session/gsm-session-save.c:157-164 | two clients, the second of which fails: the state of the first, which the old session needs, is discarded |
| SessionSave.SavedThenLoaded | mate-session/gsm-manager.c:4152-4186 | a saved session read back starts an application with an old startup id exactly if that client was saved, and only one |
| SessionSave.FailedExactlyWhen | mate-session/gsm-session-save.c:95-115 | the save fails exactly when some client does |
| SessionSave.Store.SaveOneClient | mate-session/gsm-session-save.c:43-115 | nothing, a file with its discard command remembered, or a failure |
| SessionSave.Store.ClearOneClient | mate-session/gsm-session-save.c:171-216 | an outdated discard command is run, and the file goes unless it is stuck |
| SessionSave.Store.ClearSavedSession | mate-session/gsm-session-save.c:219-255 | all that can go is gone, and the commands are run in the order of the directory |
| SessionSave.Store.SaveSession | mate-session/gsm-session-save.c:118-168 | refines the replacement of the saved session, and says for success and failure which commands are run and what is left of the draft |
| SessionRelogin.NextLogin | mate-session/gsm-session-save.c:72-80 | from any run: save and load start an application for a startup id exactly if an XSMP client was told that id when it was accepted, and saved; and never two |
| SessionRelogin.DistinctFiles | mate-session/gsm-session-save.c:72-80 | the clients of a session in order never write the same file |
| SignalHandler.TablesAgree | mate-session/mdm-signal-handler.c:326-453 | over any calls: what is listed under a signal has a record for it and conversely, the old action is kept exactly while a callback is registered, and the process catches exactly those signals that have one and can be caught |
| SignalHandler.AddIsUndone | mate-session/mdm-signal-handler.c:326-407 | adding and removing a callback leaves records, lists and dispositions as they were |
| SignalHandler.AddedIsFound | mate-session/mdm-signal-handler.c:326-355 | what is added is recorded as given, and found again by signal, function and data before anything that was there |
| SignalHandler.AddIsUndoneByFunc | mate-session/mdm-signal-handler.c:438-453 | removing by function right after adding takes back just that |
| SignalHandler.AllRemoved | mate-session/mdm-signal-handler.c:373-392 | with every callback removed the process reacts to every signal as it did before |
| SignalHandler.FindByFunc | mate-session/mdm-signal-handler.c:409-436 | the first on the list with that function and data, and none only if there is none |
| SignalHandler.FindsLatest | mate-session/mdm-signal-handler.c:409-436 | the lists are in order, so that what is found, and removed, is the latest registration with that function and data |
| SignalHandler.Handler.CatchSignal | mate-session/mdm-signal-handler.c:294-310 | refines catching a signal |
| SignalHandler.Handler.UncatchSignal | mate-session/mdm-signal-handler.c:312-324 | refines giving a signal back |
| SignalHandler.Handler.AddCallback | mate-session/mdm-signal-handler.c:326-355 | refines adding, and returns a new id |
| SignalHandler.Handler.RemoveCallback | mate-session/mdm-signal-handler.c:394-407 | refines removing, an unknown id does nothing |
| SignalHandler.Handler.RemoveCallbackByFunc | mate-session/mdm-signal-handler.c:438-453 | refines removing by function |
| AutostartApp.EditsAgree | capplet/gsp-app.c:729-778 | any edits before the save leave every key that was not edited as the base file has it |
| AutostartApp.EditTakesEffect | capplet/gsp-app.c:580-814 | an edit has the effect asked for and no other, and is going to be saved |
| AutostartApp.LoadedShowsName | capplet/gsp-app.c:925-947 | everything is loaded as the file says, but for a blank name, in whose place the command is shown |
| AutostartApp.SameFieldsExactlyWhen | capplet/gsp-app.c:311-400 | the comparison with the system's copy overlooks nothing but the difference between a missing and an empty text |
| AutostartApp.EditedSavedReadBack | capplet/gsp-app.c:417-504 | an application that was read, edited in any way and saved is read back as it was in memory: from the system's copy if that says the same, else exactly when no variant for a language with an encoding hides an edited name or comment |
| AutostartApp.NewNameIsHidden | capplet/gsp-keyfile.c:66-117 | a file with a variant for a language with an encoding: the new name is saved, and the old one read back |
| AutostartApp.ReadsBackExactlyWhen | capplet/gsp-app.c:432-504 | the same for one save, from any agreement of memory and base |
| AutostartApp.DroppedReadsBack | capplet/gsp-app.c:424-440 | when the user's copy is dropped, the system's gives back what was in memory |
| AutostartApp.OwnSaveIgnored | capplet/gsp-app.c:883-889 | the notice that its own save brings about changes nothing |
| AutostartApp.OnlyEditedKeysChange | capplet/gsp-app.c:462-490 | the written file says the same as its base about every key that was not edited, in every language |
| AutostartSaves.SystemCopyStandsExactlyWhen | capplet/gsp-app.c:417-504 | a save takes a copy away exactly if it finds the application reading from that copy and equal to the system's |
| AutostartSaves.SystemStandsExactlyWhen | capplet/gsp-app.c:424-440 | from any application as it was read, over any edits and saves: the system's files stand all along exactly if no save follows a dropped copy without an edit in between |
| AutostartSaves.HiddenShownAndDisposed | capplet/gsp-app.c:209-230 | hidden, shown again, saved by the timer and saved on disposal: the system's file is gone |
| AutostartApp.SetLocaleReads | capplet/gsp-keyfile.c:66-117 | reading after an edit gives the new text, unless a variant of a language looked at earlier stands in front |
| AutostartApp.PlainFilled | capplet/gsp-keyfile.c:66-117 | after an edit the plain key is not empty beside a text, and a text that was there stays |
| AutostartManager.Entry.ReadAgain | capplet/gsp-app.c:872-996 | skipped, noted as a lower copy, or every field loaded anew |
| AutostartManager.Entry.QueueSave | capplet/gsp-app.c:507-537 | the save goes to the user's directory, and starts from the file that was read |
| AutostartManager.Entry.ChangeHidden | capplet/gsp-app.c:580-598 | refines the edit |
| AutostartManager.Entry.Change | capplet/gsp-app.c:729-778 | refines the edit: what differs is taken over and marked |
| AutostartManager.Entry.Delete | capplet/gsp-app.c:781-814 | forgotten if only the user had it, hidden otherwise |
| AutostartManager.Entry.UserEqualSystem | capplet/gsp-app.c:311-400 | compares every field with the system's copy |
| AutostartManager.Entry.Save | capplet/gsp-app.c:417-504 | refines the save, to the new disk |
| AutostartManager.Entry.SetLocaleString | capplet/gsp-keyfile.c:66-117 | finds the first language without an encoding |
| AutostartView.ViewOverRuns | capplet/gsp-app-manager.c:367-524 | from the empty list on, through filling and any later changes: one application for each name, placed at its topmost copy, knowing its topmost system copy, and saying what the file in its place says |
| AutostartView.FoundLeavesEdits | capplet/gsp-app.c:891-912 | while a save is pending, and for a file below or just saved, nothing that was read or edited is touched; at most a higher system copy is noted |
| AutostartView.StepExactlyWhen | capplet/gsp-app-manager.c:367-439 | a file that comes, changes or goes keeps the agreement exactly unless it was the topmost copy, in a system directory, with another below it |
| AutostartView.DeleteRightExactlyWhen | capplet/gsp-app-manager.c:292-364 | the same for one deletion |
| AutostartView.LowerCopyForgotten | capplet/gsp-app-manager.c:317-323 | two system copies: deleting the upper one loses the application |
| AutostartView.SystemNeverAbove | capplet/gsp-app.c:979-984 | the check in the code never fails |
| AutostartView.FindBelow | capplet/gsp-app-manager.c:244-289 | the topmost directory below with a copy, if there is one |
| AutostartView.ReadingIsARun | capplet/gsp-app-manager.c:446-489 | reading a directory is a run of its own |
| AutostartManager.Manager.OnFileFound | capplet/gsp-app-manager.c:404-417 | refines the coming or changing of a file |
| AutostartManager.Manager.OnFileDeleted | capplet/gsp-app-manager.c:292-364 | refines the going of a file |
| AutostartManager.Manager.FindDirWithBasename | capplet/gsp-app-manager.c:244-289 | the minimum over the unordered directory list |
| AutostartManager.Manager.FillFromDir | capplet/gsp-app-manager.c:446-489 | refines the reading of a directory |

## Left out

- D-Bus, ICE, X11, login managers and MDM: a send succeeds or fails, an answer is an event.
- The order in which hash tables are walked: it is given with each event, and every order is allowed.
- Random numbers: each search for a cookie starts the stream of draws anew, so only which unused cookie is found is left open.
- Wrap-around of inhibitor, client, timer source and signal callback numbers.
- The logout and shutdown confirmation dialogs: a request counts once it is confirmed, and only while the session runs.
- SessionManager.Manager.Halt: privileges settled when the session no longer runs, or does not yet, are ignored, where the source ends whatever phase it is in.
- `shutdown_cb` in the main program, which sets the exit phase without starting it.
- Restarting applications, autostart conditions, delayed starts and the failsafe session.
- A second registration after a refused one connects the disconnection handler twice; here a client is disconnected once.
- Object lifetime: clients are named by number, and a client that left may still be on the list of awaited ones.
- SessionExamples.ForgottenDialog: a single run; the exact condition for all states is StuckExactlyWhen.
- SessionVote.Unanimity: a refusal may be lifted by calling Uninhibit with the cookie of a just-in-time inhibitor, which no caller is given.
- Files named in a startup id that is no valid file name, and damaged desktop files in a new session.
- Texts hold no NUL character; the shell's expansions other than quoting are not part of splitting.
- AutostartApp.EditedSavedReadBack: the base file is readable and has names that are not blank; icon and display settings are never edited; a deletion of what only the user has removes file and object, and no save follows it.
- AutostartSaves.SystemStandsExactlyWhen: no file is read anew between the edits and saves.
- AutostartView.ViewOverRuns: all files load and may be launched, no save is pending, and a deletion is reported while the rest of the files is as reported before.
- Creating and copying autostart files from the dialog, which can make a second application of one name.
- Settings, logging, environment export, the renderer check, the widgets and icons.
