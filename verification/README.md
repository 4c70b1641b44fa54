# UnityCore: a verified model

This project models the algorithms and protocols that UnityCore, the library behind the Unity desktop
shell, keeps behind its GLib and D-Bus wrappers, and proves what they promise. It is written in Dafny
4.11; `dafny verify dfyconfig.toml` checks all of it.

The code it follows works by changing objects step by step, and so does the model: every entity whose
methods update its fields is a class with those fields, every loop of the code is a loop with
invariants, and every method is proved against a specification function or a stated property. Signals
are ghost traces. Replies of remote services, timers and cancellations are events that can arrive in any
order, and the protocol theorems hold for every run of such events.

| file | what it models |
|---|---|
| `Flood.dfy` | which entries a state change reaches in a parent graph that may have cycles |
| `IndicatorEntry.dfy` | the indicator entry: active, geometry and show-now flood to its parents |
| `IndicatorSync.dfy` | one indicator: synchronising its entries, and the index of entries by window |
| `LocationDelta.dfy` | the delta protocol that reports entry geometries, over whole runs |
| `DBusIndicators.dfy` | snapshots of the panel service reconciled into live objects; the geometry cache |
| `Scopes.dfy` | the scope list edited in place, and a listener that follows its signals |
| `SessionManager.dfy` | the handshake that arms, confirms and cancels ending the session |
| `Waiting.dfy` | a request that waits for a connection signal or a timeout |
| `DBusProxy.dfy` | a D-Bus proxy: bounded reconnection, its signals, waiting calls |
| `ScopeProxy.dfy` | a scope's channel: creation, opening, closing, stale and cancelled replies |
| `OptionFilters.dfy` | multi-range and radio filters with re-entrant notification |
| `DesktopId.dfy` | the lossy desktop file id and the launcher's way back |
| `ScopeUri.dfy` | the parser of scope URIs |
| `CategoryView.dfy` | the per-category views of a result model |

## What the proofs found

- A change floods only through entries that still differ. An entry that already agrees stops it, so a
  parent behind that entry can keep the old value (`Flood.AgreeingEntryHidesItsParents`). All ancestors
  agree afterwards exactly under the condition of `Flood.AncestorsAgreeIff`.
- The panel service deletes a location when the width or the height is negative, not only for
  (0,0,-1,-1). It reads every id as reported exactly when no reported rectangle has a negative size, the
  default rectangle excepted (`LocationDelta.ServiceAgreesIff`).
- An entry object that a snapshot reuses keeps its old name hint and parent window. A line of the snapshot
  is shown with its own ones exactly when no old object with the line's id and priority has others
  (`DBusIndicators.LineIsShownFullyIff`). An application menu entry that moves to another window with the
  same priority stays listed for the old window (`DBusIndicators.MovedEntryStaysBehind`).
- The arming of a call ends with a request for the same action, any call, sleep, lock or cancellation, and
  with the failed reply of any session call, its own or an earlier one (`SessionManager.CallLastsIff`,
  `SessionManager.ErrorReplyDisarmsIff`). A late failure of an earlier logout call therefore disarms a
  reboot, whose confirmation is then asked for again (`SessionManager.LateErrorDisarmsAnotherCall`).
- The reply to an open request that arrives after the remote scope has disconnected still sets the
  channel and `connected`. That is the only way to be connected to a disconnected scope
  (`ScopeProxy.LateChannelReplyConnects`, `ScopeProxy.ConnectedWithoutRemoteIff`).
- When the remote scope goes and comes back while a channel is being opened, two open requests are
  outstanding, and the second reply replaces the first channel, which is never closed. The cases in which
  an open channel is given up without a close call are exactly those of `ScopeProxy.LosesIff`
  (`ScopeProxy.SecondOpenIff`, `ScopeProxy.ReplacedChannelIsLost`); they are the only gap in the balance
  of opened and closed channels (`ScopeProxy.ChannelsBalance`).
- A proxy gives up after six failed attempts, and also after one attempt that was cancelled or ended with
  neither a proxy nor an error (`DBusProxy.GivesUpIff`).
- The launcher tries a desktop file from its id exactly when every '/' of its name below the applications
  directory comes before every '-' and no name with fewer of its slashes restored is known
  (`DesktopId.LaunchTriesIff`). So a file in a directory with a dash in its name is never tried
  (`DesktopId.DashedDirectoryIsLost`), and `kde/foo.desktop` is not tried while `kde-foo.desktop` exists
  (`DesktopId.DashShadowsSubdirectory`).
- An option object that an update of a multi-range filter has replaced still runs the filter's handler.
  Switching it on leaves one interval exactly unless its position is inactive between two active
  neighbours (`OptionFilters.StaleChangeLeavesIntervalIff`, `OptionFilters.StaleChangeSplits`).
- Writing the filter state replaces the whole hints dictionary, so the show-all-button hint is gone from
  the row afterwards. Clearing a radio filter writes the row only if an option was active
  (`OptionFilters.OptionFilter.UpdateState`, `OptionFilters.OptionFilter.Clear`).

## Model

| member | source | states |
|---|---|---|
| Flood.ReachAbsorbs | UnityCore/IndicatorEntry.cpp:132-156 | a change visits the start if it differs, and every differing parent of what it visits |
| Flood.ReachIsLeast | UnityCore/IndicatorEntry.cpp:132-156 | they are the least such set: any set that holds the start and every differing parent of its differing members contains them |
| Flood.ReachFromNode | UnityCore/IndicatorEntry.cpp:137-142 | visiting a differing entry is marking it and then flooding from all its parents through what still differs |
| Flood.ReachInTurn | UnityCore/IndicatorEntry.cpp:141-142 | flooding from some parents and then from others through what is left reaches what flooding from all at once reaches, on any graph with any cycles |
| Flood.AncestorsAgreeIff | UnityCore/IndicatorEntry.cpp:132-156 | all ancestors agree after a flood if and only if no ancestor that agreed before has a parent that still differs afterwards |
| Flood.NothingHidden | UnityCore/IndicatorEntry.cpp:132-156 | they all agree if no entry that agrees has a parent that differs, which can be seen before the change |
| Flood.AgreeingEntryHidesItsParents | UnityCore/IndicatorEntry.cpp:134-135 | the "already equal" test can leave a differing grandparent behind, by a concrete graph |
| IndicatorEntry.Entry.SetActive | UnityCore/IndicatorEntry.cpp:132-143 | terminates on every finite parent graph; exactly the entries reached through differing entries change and each emits its two signals once; all others are untouched |
| IndicatorEntry.Entry.SetGeometry | UnityCore/IndicatorEntry.cpp:145-156 | the same for the rectangle |
| IndicatorEntry.Entry.SetShowNow | UnityCore/IndicatorEntry.cpp:230-241 | the same for show-now |
| IndicatorEntry.Entry.AddParent | UnityCore/IndicatorEntry.cpp:243-253 | a null or known parent changes nothing; a new one gets the geometry, and show-now and active flood from it with the child's value for a first parent and the disjunction for a later one; every entry's values and the signals of the three floods, in order |
| IndicatorEntry.Entry.RemoveParent | UnityCore/IndicatorEntry.cpp:255-261 | removes exactly the first occurrence, if any |
| IndicatorEntry.Entry.SetLabel | UnityCore/IndicatorEntry.cpp:158-167 | one update signal exactly when text, sensitivity or visibility changes |
| IndicatorEntry.Entry.SetImage | UnityCore/IndicatorEntry.cpp:169-182 | one update signal exactly when one of the four image properties changes |
| IndicatorEntry.Entry.SetPriority | UnityCore/IndicatorEntry.cpp:184-191 | one update signal exactly when the priority changes |
| IndicatorSync.SyncedOutcome | UnityCore/Indicator.cpp:52-101 | after any synchronisation the ids are distinct and are exactly the argument's, repeated ids in the argument included; an old object stays exactly if the argument holds it |
| IndicatorSync.SyncedIsExactlyWanted | UnityCore/Indicator.cpp:73-97 | when the argument repeats no id, exactly its objects are held |
| IndicatorSync.JoiningDistinct | UnityCore/Indicator.cpp:73-97 | appending what is missing never repeats an id, whatever the argument repeats |
| IndicatorSync.JoiningIsFirst | UnityCore/Indicator.cpp:73-97 | of several objects with the same new id the first one joins |
| IndicatorSync.SyncedInOrder | UnityCore/Indicator.cpp:52-101 | old objects come first and keep their order; the new ones follow in the order of the argument |
| IndicatorSync.OfWindowInOrder | UnityCore/AppmenuIndicator.cpp:36-53 | the entries of a window stand in the order of the flat list |
| IndicatorSync.OfWindowErase | UnityCore/AppmenuIndicator.cpp:42-53 | erasing an entry from the flat list is erasing it from the list of its window and from no other |
| IndicatorSync.EraseKeepsIndex | UnityCore/AppmenuIndicator.cpp:42-53 | the removal handler keeps the index equal to the filtered lists and stores no empty bucket |
| IndicatorSync.AppendKeepsIndex | UnityCore/AppmenuIndicator.cpp:38-40 | so does the addition handler |
| IndicatorSync.WindowChangesIff | UnityCore/AppmenuIndicator.cpp:68-83 | the entries of a window differ after a synchronisation if and only if one of them was dropped or a new one joined |
| IndicatorSync.ListChangesIff | UnityCore/Indicator.cpp:99-100 | the guard of the updated signal is true if and only if the entry list differs from before |
| IndicatorSync.TraceOfSync | UnityCore/Indicator.cpp:52-101 | the signals of a synchronisation follow from the old and the new list alone: one removal per entry that is gone, one addition per new one, the updated signal exactly if the lists differ, one window signal per window whose list differs |
| IndicatorSync.TraceTells | UnityCore/Indicator.cpp:52-101 | event by event: exactly the old entries that are gone are removed, then exactly the new ones added, then the list updated if it differs, then exactly the windows whose list differs, and no event is repeated |
| IndicatorSync.Indicator.EraseStale | UnityCore/Indicator.cpp:56-71 | erases in place what the argument does not hold, in order, with one signal each, keeping connections and index in step |
| IndicatorSync.Indicator.AppendMissing | UnityCore/Indicator.cpp:73-97 | appends the first entry of every missing id, with one signal each, keeping connections and index in step |
| IndicatorSync.Indicator.Sync | UnityCore/AppmenuIndicator.cpp:68-83 | the full list, trace and connections after a synchronisation; the window signal is emitted once for every window whose entry list changed and for no other |
| IndicatorSync.Indicator.GetEntry | UnityCore/Indicator.cpp:103-110 | finds the first entry with the id exactly if there is one |
| IndicatorSync.Indicator.GetEntriesForWindow | UnityCore/AppmenuIndicator.cpp:85-93 | the index answers with the order-preserving filter of the flat list, empty for an unknown window |
| LocationDelta.ApplyReads | services/panel-service.c:1960-2038 | the service reads an id as its one change in the message, as the default if that has a negative width or height, or as before if there is none |
| LocationDelta.DeltaKeepsCoherence | UnityCore/DBusIndicators.cpp:425-459 | applying any delta to a service that agreed with the cache makes it agree with the new report, every absent id read as the default rectangle |
| LocationDelta.DeltaTells | UnityCore/DBusIndicators.cpp:425-448 | the message holds exactly the reported rectangles that the cache reads otherwise and (0,0,-1,-1) for every cached id that is not reported any more |
| LocationDelta.RepeatSendsNothing | UnityCore/DBusIndicators.cpp:450-454 | reporting the same locations again needs no message |
| LocationDelta.ServiceAgreesIff | services/panel-service.c:1993-2018 | the service reads every id exactly as reported if and only if no reported rectangle has a negative size (the default excepted) |
| LocationDelta.NegativeSizeIsDropped | services/panel-service.c:1993-2018 | a concrete report of negative width is sent and then read as the default |
| LocationDelta.ReportKeepsAllCoherent | UnityCore/DBusIndicators.cpp:410-460 | a report for one panel leaves every other panel coherent too |
| LocationDelta.RunsStayCoherent | UnityCore/DBusIndicators.cpp:146-156 | in every run of reports, connections and disconnections, for every panel, the cache is the last report of the present connection and the service agrees with it |
| DBusIndicators.Compare | UnityCore/DBusIndicators.cpp:425-454 | the two loops compute exactly the needed changes, each id once; when there is none, the defaults that the lookups inserted have made the cache equal to the report |
| DBusIndicators.DBusIndicators.SyncGeometries | UnityCore/DBusIndicators.cpp:410-460 | nothing happens while disconnected or for an empty name; otherwise the cache equals the report on both return paths and a message is sent only for a non-empty delta; it is a report step of the run theorem |
| DBusIndicators.DBusIndicators.OnDisconnected | UnityCore/DBusIndicators.cpp:146-153 | every indicator is removed and announced once; it is the disconnection step of the run theorem, both sides starting from nothing |
| DBusIndicators.DBusIndicators.AddIndicator | UnityCore/Indicators.cpp:140-167 | a known name gives the same object and no signal, a new name a new empty one and one signal; the application menu kind exactly for "libappmenu.so" |
| DBusIndicators.DBusIndicators.RemoveIndicator | UnityCore/Indicators.cpp:178-187 | removes that name and no other, with one signal exactly if it was there |
| DBusIndicators.DBusIndicators.EntryFor | UnityCore/DBusIndicators.cpp:379-399 | an old object is used exactly if one has the line's id and priority; it or the new one shows the line; no other object is touched |
| DBusIndicators.DBusIndicators.GatherAll | UnityCore/DBusIndicators.cpp:350-403 | the lists built from the lines show them one by one, per indicator, while every indicator's own list is still as before |
| DBusIndicators.OutcomeMirrors | UnityCore/DBusIndicators.cpp:406-407 | synchronising to the collected list leaves exactly the snapshot's entries with its label, image and priority, and new objects with its name hint and window |
| DBusIndicators.OutcomeSurvivors | UnityCore/DBusIndicators.cpp:382-385 | an old object survives if and only if the snapshot repeats its id with its priority |
| DBusIndicators.LineIsShownFullyIff | UnityCore/DBusIndicators.cpp:379-399 | a line is shown with its name hint and window too if and only if no old object with its id and priority has others |
| DBusIndicators.MovedEntryStaysBehind | UnityCore/DBusIndicators.cpp:394-399 | a concrete snapshot that moves a menu entry to another window and leaves it listed for the old one |
| DBusIndicators.OutcomeOrdered | UnityCore/Indicator.cpp:52-101 | the surviving objects come first in their old order, then the new ones in the order of the snapshot |
| DBusIndicators.OutcomeReconciled | UnityCore/DBusIndicators.cpp:326-408 | all of this together for the list collected for one indicator |
| DBusIndicators.ReconciledTells | UnityCore/DBusIndicators.cpp:326-408 | field by field: every line is shown by an entry with its id, label, image and priority; every entry shows a line; new entries also have its name hint and window; an old object stays exactly when a line has its id and priority |
| DBusIndicators.HintsTell | UnityCore/DBusIndicators.cpp:379-399 | a line is shown with its name hint and window too exactly when no old object with its id and priority has another hint or window |
| DBusIndicators.OrderTells | UnityCore/Indicator.cpp:52-101 | old objects come first in their old order and the new ones behind them in the order of their lines |
| DBusIndicators.AddedEventsTell | UnityCore/DBusIndicators.cpp:350-403 | exactly the mentioned indicators that are not known are announced, each once, in the order of their first mention |
| DBusIndicators.DBusIndicators.Sync | UnityCore/DBusIndicators.cpp:326-408 | for distinct ids per indicator: mentioned indicators hold exactly the snapshot's non-empty ids with its label, image and priority, in a fixed order; old objects survive exactly with the same priority; name hint and window are exact except for the stale objects; a mentioned indicator emits exactly the signals of the change of its list; every old object keeps its priority, emits one update for each of label and image that changes, and looks the same when no line has its id; new indicators are announced once in the order of their first mention; unmentioned indicators and their entries are unchanged |
| Scopes.InsertFacts | UnityCore/Scopes.cpp:109-114 | an insertion adds exactly the new scope, at its place, and shifts the rest |
| Scopes.RemoveFacts | UnityCore/Scopes.cpp:142-155 | a removal takes out exactly one scope and closes the gap |
| Scopes.MoveFacts | UnityCore/Scopes.cpp:119-138 | erasing at one place and inserting at another permutes the list and keeps its ids distinct; only the scopes in between shift, by one place |
| Scopes.StartIsKept | UnityCore/Scopes.cpp:81-84 | removing a scope that is not requested never disturbs a list that starts with the request |
| Scopes.StartIsAll | UnityCore/Scopes.cpp:60-85 | a list of requested scopes that starts with the whole request is the request |
| Scopes.ReplayFrom | UnityCore/Scopes.cpp:96-155 | a listener that joins late with the list of that time holds the same as one that has followed all events |
| Scopes.ReplayPrefix | UnityCore/Scopes.cpp:96-155 | a listener that can follow all events could follow each of them when it came: additions within the list, removals of what is there, reorderings that only permute |
| Scopes.Scopes.InsertScope | UnityCore/Scopes.cpp:96-140 | nothing without data or when the scope cannot be created; otherwise each case with its exact list and event, which a listener that has followed all events can follow |
| Scopes.Scopes.MoveScope | UnityCore/Scopes.cpp:119-138 | a move is one erase, one insert and one reordering event, for which a listener that has followed all events holds a permutation of the new list |
| Scopes.Scopes.RemoveScope | UnityCore/Scopes.cpp:142-155 | removes exactly the scope with the id, with one event, or does nothing |
| Scopes.Scopes.InsertAll | UnityCore/Scopes.cpp:62-67 | after step i the first i+1 ids match the request (distinct ids that are there or can be created); the id set grows by the requested ids that can be created; every old object is kept |
| Scopes.Scopes.StaleIds | UnityCore/Scopes.cpp:70-80 | collects exactly the ids that are present and not requested |
| Scopes.Scopes.RemoveAll | UnityCore/Scopes.cpp:81-84 | removes exactly the stale scopes and keeps the requested prefix |
| Scopes.Scopes.UpdateScopes | UnityCore/Scopes.cpp:60-85 | for any request, duplicates included: no repeated id, exactly the requested ids that were there or can be created, old objects of requested ids kept; the events alone lead a listener from the empty list, or from the list before the update, to the new list; for distinct ids that are there or can be created the order is exactly the request's |
| SessionManager.GnomeManager.Open | UnityCore/GnomeSessionManager.cpp:282-364 | the branches of the Open request refine the step function that the run theorems are about |
| SessionManager.GnomeManager.Close | UnityCore/GnomeSessionManager.cpp:365-369 | closing asks to cancel, and neither arms nor disarms |
| SessionManager.GnomeManager.ConfirmAndClose | UnityCore/GnomeSessionManager.cpp:374-401 | a confirmation disarms, emits the confirmed signal and then the closed signal |
| SessionManager.GnomeManager.EndSession | UnityCore/GnomeSessionManager.cpp:688-776 | a call cancels what is armed, arms its action and sends the session call of the action, in this order |
| SessionManager.GnomeManager.OnReplied | UnityCore/GnomeSessionManager.cpp:699-731 | an error reply disarms and starts the fallback chain of its call; a success does nothing |
| SessionManager.GnomeManager.LockScreen | UnityCore/GnomeSessionManager.cpp:505-516 | locking cancels what is armed first, and requests a lock or the screensaver |
| SessionManager.StepBalances | UnityCore/GnomeSessionManager.cpp:282-409 | every handler keeps: armings = confirmations + cancellations while armed + error resets while armed + what is pending, and confirmed signals = confirmations |
| SessionManager.RunBalances | UnityCore/GnomeSessionManager.cpp:282-409 | the books balance at every point of every run |
| SessionManager.ConfirmsIff | UnityCore/GnomeSessionManager.cpp:307-361 | a confirmation of X is emitted if and only if an Open(X) of a known action is handled while X is armed, or while nothing is armed in non-interactive mode without inhibitors |
| SessionManager.WritesDecides | UnityCore/GnomeSessionManager.cpp:307-328 | a step that does not write leaves what is pending alone; one that writes and leaves an action pending has armed it |
| SessionManager.ConfirmationHasArming | UnityCore/GnomeSessionManager.cpp:307-361 | every confirmation in every run uses an arming that nothing ended in between: by the same request, by our own call, or by an earlier request with inhibitors |
| SessionManager.CallLastsIff | UnityCore/GnomeSessionManager.cpp:282-409 | from any state on, the arming of a call lasts if and only if none of a fixed list of events comes, whatever replies and requests for other actions come |
| SessionManager.CallThenOpenConfirms | UnityCore/GnomeSessionManager.cpp:338-361 | a later Open of the same action confirms on the arming of our own call if and only if nothing in between has ended that arming |
| SessionManager.ArmingServesOnce | UnityCore/GnomeSessionManager.cpp:374-390 | no arming serves two confirmations |
| SessionManager.LateErrorDisarmsAnotherCall | UnityCore/GnomeSessionManager.cpp:699-704 | a concrete run in which the failure of a logout disarms the reboot called after it |
| SessionManager.ErrorReplyEndsPending | UnityCore/GnomeSessionManager.cpp:699-704 | after an error reply nothing is armed, and what was armed before is what the reply took away |
| SessionManager.ErrorReplyDisarmsIff | UnityCore/GnomeSessionManager.cpp:688-776 | the error reply of any session call disarms a given call if and only if nothing has ended that call's arming before |
| SessionManager.OpenEmits | UnityCore/GnomeSessionManager.cpp:307-361 | a request for a known action emits exactly: confirmed and closed when it confirms; nothing while another action is armed; its request signal with inhibitors; or canceled and its request signal |
| SessionManager.UnknownOpenEmits | UnityCore/GnomeSessionManager.cpp:307-361 | a request for an unknown action emits at most canceled |
| SessionManager.CallEmits | UnityCore/GnomeSessionManager.cpp:688-776 | a call emits canceled if something was armed, and then sends the session call of its own action |
| SessionManager.SleepEmits | UnityCore/GnomeSessionManager.cpp:778-796 | suspending and hibernating emit canceled if something was armed, and then send the call of that name to logind |
| SessionManager.LockEmits | UnityCore/GnomeSessionManager.cpp:505-516 | locking emits canceled if something was armed, and then the lock request, or the screensaver request when locking is not possible |
| SessionManager.CancelAndCloseEmit | UnityCore/GnomeSessionManager.cpp:365-397 | cancelling emits canceled; closing emits the cancel request and closed |
| SessionManager.SessionFailureEmits | UnityCore/GnomeSessionManager.cpp:699-773 | the failed reply of each session call sends its own first fallback, by literal names, for a logout depending on the environment |
| SessionManager.LogindFailureEmits | UnityCore/GnomeSessionManager.cpp:713-796 | the failed reply of each logind call sends its own last fallback, by literal names |
| SessionManager.OtherReplyEmits | UnityCore/GnomeSessionManager.cpp:699-796 | a success sends nothing, and the failure of a last fallback neither |
| SessionManager.SentServes | UnityCore/GnomeSessionManager.cpp:688-796 | in every run, whatever remote call is sent carries out a call or sleep that the user asked for: at once, or as the fallback for a call that carried out the same and has just failed; so only a shutdown powers off and only a reboot restarts |
| SessionManager.SentIsAnsweredOrAwaited | UnityCore/GnomeSessionManager.cpp:688-796 | at every point of every run, each remote call was sent as often as it was answered and is awaited |
| Waiting.EndsOnce | UnityCore/GLibDBusProxy.cpp:331-352 | the first of timer and signal ends a waiting request with exactly one answer, or none if it was cancelled, and leaves neither timer nor slot |
| Waiting.SettledStays | UnityCore/GLibDBusProxy.cpp:341-351 | a request that has ended is out of reach of both |
| Waiting.IssuedCounts | UnityCore/GLibDBusProxy.cpp:345-352 | the requests that a signal lets through are exactly those that count one remote call more, each once |
| Waiting.IssuedInOrder | UnityCore/GLibDBusProxy.cpp:345-352 | they are let through in the order in which they were made |
| Waiting.FirstTurnEnds | UnityCore/GLibDBusProxy.cpp:321-358 | over any history of an owner's requests, the first turn that can end a waiting one ends it with exactly one answer, or none if cancelled by then, and nothing about it changes before or after |
| DBusProxy.Proxy.OnProxyConnectCallback | UnityCore/GLibDBusProxy.cpp:178-239 | the callback refines the step function: retry on an error while attempts are left, nothing on cancellation, and on success the signal and every waiting slot |
| DBusProxy.Proxy.EmitProxyAcquired | UnityCore/GLibDBusProxy.cpp:345-352 | runs every slot once, in order, issuing the calls that were not cancelled |
| DBusProxy.Proxy.OnReconnectionTimeout | UnityCore/GLibDBusProxy.cpp:148-154 | the retry timer is one-shot and connects only without a proxy |
| DBusProxy.Proxy.OnProxyNameOwnerChanged | UnityCore/GLibDBusProxy.cpp:241-262 | a signal exactly when the owner appears or vanishes |
| DBusProxy.Proxy.Call | UnityCore/GLibDBusProxy.cpp:382-426 | with a proxy the remote call is made at once, without one the request waits |
| DBusProxy.StepKeepsInv | UnityCore/GLibDBusProxy.cpp:144-262 | every event keeps the life-cycle invariant, from any state that satisfies it |
| DBusProxy.RunIsBounded | UnityCore/GLibDBusProxy.cpp:144-262 | in every run: one attempt or retry timer at a time, at most 1+5 attempts ever, one processed success, strictly alternating signals starting with connected and matching IsConnected, for every request at most one of a remote call and a timeout, and as many remote calls as it records |
| DBusProxy.RequestEndsOnce | UnityCore/GLibDBusProxy.cpp:321-358 | in every run, the first timer or success after a waiting call ends it with exactly one answer, or none if cancelled by then; nothing about it changes before or after |
| DBusProxy.CallIsAnswered | UnityCore/GLibDBusProxy.cpp:321-426 | said of the happenings alone: a call made without a proxy is issued by the first success or timed out by its own timer, whichever is first, unless its own cancellable was cancelled before, and nothing more comes of it |
| DBusProxy.FailureRetries | UnityCore/GLibDBusProxy.cpp:190-206 | a failed attempt starts the retry timer exactly if fewer than five failed before it |
| DBusProxy.TimerConnects | UnityCore/GLibDBusProxy.cpp:144-157 | the timer makes one more attempt exactly if there is no proxy |
| DBusProxy.GivesUpIff | UnityCore/GLibDBusProxy.cpp:144-209 | in every run without a proxy so far, nothing is under way exactly when six attempts have failed or one was cancelled or came to nothing; after six failures just six attempts were made |
| DBusProxy.SignalsChange | UnityCore/GLibDBusProxy.cpp:231-262 | a step signals exactly a change of the connected flag, once, with the new value |
| DBusProxy.ConnectedIsLastOwner | UnityCore/GLibDBusProxy.cpp:211-262 | in every run the connected flag is the last report about the owner of the name, and there is a proxy exactly when an attempt has succeeded |
| DBusProxy.RequestsLeaveConnection | UnityCore/GLibDBusProxy.cpp:321-426 | calls, their timers and cancellations leave the connection alone |
| ScopeProxy.HandlerIsIdempotent | UnityCore/ScopeProxy.cpp:348-351 | running the doubly registered connected handler twice has the effects of running it once |
| ScopeProxy.ConnectedChange | UnityCore/ScopeProxy.cpp:613-632 | what a changed remote property comes down to, with and without an open channel |
| ScopeProxy.ChannelOpened | UnityCore/ScopeProxy.cpp:391-425 | an open reply runs the waiting requests only if no channel was open before |
| ScopeProxy.StepIsAfter | UnityCore/ScopeProxy.cpp:299-441 | what each event comes down to, with the helpers and the doubly registered handler taken together: the whole new state as one update |
| ScopeProxy.RequestAfterDisconnectCreates | UnityCore/ScopeProxy.cpp:299-308 | a request after the scope was disconnected asks for a new proxy |
| ScopeProxy.Proxy.OnNotifyConnected | UnityCore/ScopeProxy.cpp:613-632 | the notification with both handlers refines the step function |
| ScopeProxy.Proxy.AssignConnected | UnityCore/ScopeProxy.cpp:475-488 | waiting slots run once, in order, only when connected changes to true, on the channel that is open then |
| ScopeProxy.Proxy.DestroyProxy | UnityCore/ScopeProxy.cpp:299-308 | disconnecting closes the channel, cancels the outstanding requests of the present cancellable and allows a new creation |
| ScopeProxy.Proxy.OnProxyReply | UnityCore/ScopeProxy.cpp:323-374 | a cancelled creation is dropped, a failed one can be retried, a successful one opens the channel if the remote scope is connected |
| ScopeProxy.Proxy.OnChannelReply | UnityCore/ScopeProxy.cpp:391-425 | a cancelled reply is dropped, a failed or empty one clears the channel, any other sets it and runs the waiting requests |
| ScopeProxy.Proxy.Request | UnityCore/ScopeProxy.cpp:497-530 | a search (or an activation, 557-582) goes out at once when connected, and otherwise waits and makes sure a proxy is being created |
| ScopeProxy.StepKeepsInv | UnityCore/ScopeProxy.cpp:299-441 | every event keeps the life-cycle invariant |
| ScopeProxy.StepKeepsMatch | UnityCore/ScopeProxy.cpp:497-611 | every event issues exactly the remote searches and activations that the requests record |
| ScopeProxy.RunIsSafe | UnityCore/ScopeProxy.cpp:299-441 | in every run: connected exactly with a channel, connected only with a proxy, at most one uncancelled creation outstanding, no search or activation without a channel, for every request at most one of a remote call and a timeout, and as many remote calls as it records |
| ScopeProxy.RequestEndsOnce | UnityCore/ScopeProxy.cpp:454-495 | in every run, the first timer or opening channel after a waiting search or activation ends it with exactly one answer, or none if cancelled by then; nothing about it changes before or after |
| ScopeProxy.StepWaiters | UnityCore/ScopeProxy.cpp:475-488 | what each event does to all waiting requests: an opening reply runs every slot, a timer ends its own request, a new request joins, and nothing else touches them |
| ScopeProxy.RequestIsAnswered | UnityCore/ScopeProxy.cpp:454-530 | said of the happenings: a request made without a channel goes out with the first reply that opens one or is timed out by its own timer, whichever is first, unless its own cancellable was cancelled before: by its caller, or for a request without one, by the proxy being destroyed |
| ScopeProxy.StepCalls | UnityCore/ScopeProxy.cpp:299-441 | the remote calls of every event that is not an open reply: exactly which, in which order and with which channel |
| ScopeProxy.RequestsUsePresentChannel | UnityCore/ScopeProxy.cpp:532-611 | in every run a search or activation goes out on the channel that is open then |
| ScopeProxy.StepCarriesPresent | UnityCore/ScopeProxy.cpp:475-611 | what one event sends carries the channel that is open after it, in the order in which the requests were made |
| ScopeProxy.RequestHasProxy | UnityCore/ScopeProxy.cpp:310-374 | in every run, from a request on until the scope is disconnected or a creation fails, there is a proxy or one creation is outstanding |
| ScopeProxy.ConnectedScopeHasChannel | UnityCore/ScopeProxy.cpp:366-441 | in every run without a failed opening, a connected remote scope has a channel or one is being opened |
| ScopeProxy.StepOpens | UnityCore/ScopeProxy.cpp:376-389 | which events add and answer an open request |
| ScopeProxy.LateChannelReplyConnects | UnityCore/ScopeProxy.cpp:613-632 | a concrete run that ends connected while the remote scope is disconnected |
| ScopeProxy.ConnectedWithoutRemoteIff | UnityCore/ScopeProxy.cpp:391-425 | a step leads there if and only if it is an uncancelled successful open reply that arrives while the remote scope is disconnected |
| ScopeProxy.LosesIff | UnityCore/ScopeProxy.cpp:427-441 | an open channel is given up without a close call if and only if the proxy is destroyed while the remote scope is disconnected, the remote scope disconnects, or an uncancelled open reply failed or brings another channel |
| ScopeProxy.StepAddsCalls | UnityCore/ScopeProxy.cpp:427-441 | a step makes one close call if it destroys a connected proxy with a channel or the remote scope connects again while there is one, and none otherwise; the call names the present channel |
| ScopeProxy.StepBalancesChannel | UnityCore/ScopeProxy.cpp:391-441 | the channel that a step finds or opens is closed by it, given up by it, or there after it |
| ScopeProxy.ChannelsBalance | UnityCore/ScopeProxy.cpp:391-441 | at every point of every run: replies that opened a new channel = close calls + channels given up without one + the present channel |
| ScopeProxy.OnlyPresentIsClosed | UnityCore/ScopeProxy.cpp:427-441 | in every run a close call is only made with a channel, and for that channel |
| ScopeProxy.SecondOpenIff | UnityCore/ScopeProxy.cpp:376-389 | a second open request is outstanding if and only if the remote scope connects again before the first is answered |
| ScopeProxy.ReplacedChannelIsLost | UnityCore/ScopeProxy.cpp:391-425 | a concrete run in which the second reply replaces a channel that is never closed |
| OptionFilters.RunAroundIsInterval | UnityCore/MultiRangeFilter.cpp:112-130 | the run around a position is one interval that contains it, and nothing else that was not active |
| OptionFilters.RunAroundIsMaximal | UnityCore/MultiRangeFilter.cpp:112-130 | and the largest one of formerly active positions |
| OptionFilters.FirstRunIsFirst | UnityCore/MultiRangeFilter.cpp:131-147 | the first run starts at the first active position and ends before the first gap |
| OptionFilters.NarrowedIsRun | UnityCore/MultiRangeFilter.cpp:115-129 | narrowing downwards and then upwards leaves exactly the run around the position, and the position as it is |
| OptionFilters.HandledIsToggle | UnityCore/MultiRangeFilter.cpp:93-150 | a toggle is the change of the option and then the handler |
| OptionFilters.ToggleLeavesInterval | UnityCore/MultiRangeFilter.cpp:93-150 | whatever the remote side had made active, a toggle leaves one interval or nothing, and switches on no other option |
| OptionFilters.RadioIsExclusive | UnityCore/RadioOptionFilter.cpp:82-99 | a radio option that is switched on is the only one left; one that is switched off leaves the others |
| OptionFilters.StaleChangeLeavesIntervalIff | UnityCore/MultiRangeFilter.cpp:93-150 | a replaced option object that is switched on leaves one interval if and only if its position is active or has an inactive or missing neighbour |
| OptionFilters.StaleChangeSplits | UnityCore/MultiRangeFilter.cpp:93-150 | a concrete row of three options that such an object leaves in two pieces |
| OptionFilters.OptionFilter.NarrowBelow | UnityCore/MultiRangeFilter.cpp:115-121 | the loop below the position, run while the handlers ignore its changes |
| OptionFilters.OptionFilter.NarrowAbove | UnityCore/MultiRangeFilter.cpp:123-130 | the loop above the position |
| OptionFilters.OptionFilter.KeepFirstRun | UnityCore/MultiRangeFilter.cpp:131-147 | the loop after switching off keeps exactly the first run |
| OptionFilters.OptionFilter.DeactivateOthers | UnityCore/RadioOptionFilter.cpp:89-96 | the radio handler leaves every option with another id inactive and the rest as it was |
| OptionFilters.OptionFilter.OptionChanged | UnityCore/MultiRangeFilter.cpp:93-150 | ignored under the derived class's flag and, by a multi-range filter, for an unknown id; otherwise the exact result for any reported state and id, with the row rewritten if it is valid |
| OptionFilters.OptionFilter.SetActive | UnityCore/MultiRangeFilter.cpp:120 | assigning an option inside the handler changes that option alone; assigning it from outside has the toggle's result; assigning the value it has does nothing |
| OptionFilters.OptionFilter.OnRowChanged | UnityCore/Filter.cpp:111-123 | rebuilds the options from the row exactly if the row is there and the base class's flag is not set |
| OptionFilters.OptionFilter.Update | UnityCore/MultiRangeFilter.cpp:54-91 | the rebuilt options, all new objects, encode to the row; a missing show-all hint keeps the old value |
| OptionFilters.OptionFilter.UpdateState | UnityCore/MultiRangeFilter.cpp:162-199 | writes the encoded options and "some option active" and drops the show-all hint; the two notifications it raises never rebuild the options |
| OptionFilters.OptionFilter.RowTells | UnityCore/MultiRangeFilter.cpp:162-199 | an agreeing row holds every option with its id, name, icon hint and flag, and filters exactly if one is active |
| OptionFilters.OptionFilter.Switch | UnityCore/MultiRangeFilter.cpp:93-150 | a local toggle ends at rest: row and memory agree, FILTERING is "some option active", multi-range options form an interval, and the option objects are the same |
| OptionFilters.OptionFilter.ClearMultiRange | UnityCore/MultiRangeFilter.cpp:39-52 | nothing is left active and the row agrees |
| OptionFilters.OptionFilter.ClearRadio | UnityCore/RadioOptionFilter.cpp:37-41 | nothing is left active; the row is written only if something was |
| OptionFilters.OptionFilter.Clear | UnityCore/MultiRangeFilter.cpp:39-52 | nothing is left active; the row is written by a multi-range filter always, by a radio filter only if something was active |
| OptionFilters.OptionFilter.OnRemoteChange | UnityCore/Filter.cpp:111-123 | a remote write of the row is decoded into memory |
| OptionFilters.OptionFilter.OnModelDestroyed | UnityCore/Filter.cpp:125-138 | the filter becomes invalid and stays at rest |
| DesktopId.GetDesktopID | UnityCore/DesktopUtilities.cpp:130-167 | an empty path has the empty id; any other has the id of the unescaped file, by the first applications directory that holds it |
| DesktopId.IdOfFileBelow | UnityCore/DesktopUtilities.cpp:147-168 | the id of a file below the applications directory of a data directory, if no earlier one holds it, is the rest of its path with every slash replaced by a dash |
| DesktopId.IdOfOtherFile | UnityCore/DesktopUtilities.cpp:147-172 | a file below none of them is its own id |
| DesktopId.SlashMakesNoDifference | UnityCore/DesktopUtilities.cpp:151-158 | a slash at the end of a data directory makes no difference |
| DesktopId.IdBelowUsrShare | UnityCore/DesktopUtilities.cpp:147-168 | a concrete file in a subdirectory below /usr/share and its id |
| DesktopId.EncodedEqualIff | UnityCore/DesktopUtilities.cpp:156-161 | two names get the same id if and only if they differ only in '/' against '-' |
| DesktopId.NextCandidate | dash/ApplicationStarterImp.cpp:61-64 | replacing the first '-' of the k-th candidate by '/' gives the next one |
| DesktopId.Launch | dash/ApplicationStarterImp.cpp:31-70 | looks up the candidates in order, at most (number of '-') + 1 of them, stops at the first that is known, and succeeds exactly if that one starts |
| DesktopId.CandidateRestoresIff | dash/ApplicationStarterImp.cpp:44-67 | the k-th candidate of an encoded name is the name if and only if its slashes come before its dashes and are k |
| DesktopId.LaunchReachesIff | dash/ApplicationStarterImp.cpp:61-67 | when no earlier one is found, the candidates include the name if and only if its slashes come before its dashes |
| DesktopId.LaunchTriesIff | dash/ApplicationStarterImp.cpp:44-67 | the lookups of a launch include the name if and only if its slashes come before its dashes and no candidate with fewer slashes is known; then it is the last one |
| DesktopId.DashShadowsSubdirectory | dash/ApplicationStarterImp.cpp:48-58 | a concrete pair of files of which the one with the dash keeps the other from being tried |
| DesktopId.DashedDirectoryIsLost | dash/ApplicationStarterImp.cpp:44-67 | no candidate leads back to a file in a directory with a dash in its name, by a concrete name |
| ScopeUri.JoinOfSplit | dash/DashViewPrivate.cpp:47-48 | splitting a component string and joining it again restores it |
| ScopeUri.SplitOfJoin | dash/DashViewPrivate.cpp:47-48 | joining tokens without '&' and splitting again restores them, empty tokens included |
| ScopeUri.ParseScopeUri | dash/DashViewPrivate.cpp:31-72 | the parser's loop computes the specified id and filters |
| ScopeUri.AppliedPiece | dash/DashViewPrivate.cpp:50-66 | a filter token sets its key to everything after its first '='; any other token changes nothing |
| ScopeUri.CollectedLastWins | dash/DashViewPrivate.cpp:50-66 | the filters hold exactly the keys of the filter tokens, each with its last value, whatever stands between them |
| ScopeUri.LastWinsIsUnique | dash/DashViewPrivate.cpp:50-66 | there is only one such map |
| ScopeUri.ParsedRoundTrip | dash/DashViewPrivate.cpp:31-72 | parsing an id without '?' followed by any list of clean tokens, the empty list included, gives back the id and the last-wins map |
| ScopeUri.PlainIdIsKept | dash/DashViewPrivate.cpp:31-45 | a URI without a question mark is an id with no filters |
| ScopeUri.GenreExample | dash/DashViewPrivate.cpp:31-72 | a concrete URI with one filter and what it parses to |
| CategoryView.FilteredHas | UnityCore/ScopeProxy.cpp:724-744 | a view holds exactly the rows of its category |
| CategoryView.FilteredAt | UnityCore/ScopeProxy.cpp:724-744 | each stands right after the earlier rows of the category, so order is kept and nothing repeats |
| CategoryView.View.constructor | UnityCore/ScopeProxy.cpp:724-744 | the map function's loop builds exactly the filtered rows |
| CategoryView.View.OnRowAdded | UnityCore/ScopeProxy.cpp:746-760 | after a row arrives at any position the view is again exactly the filtered rows, and it reports whether it used the row |
| CategoryView.View.InsertWithOriginalOrder | UnityCore/ScopeProxy.cpp:758 | the row lands between the view's rows from before and from after it in the model |
| CategoryView.Results.GetResultsForCategory | UnityCore/ScopeProxy.cpp:806-822 | without a model no view; otherwise a new view that starts exact and keeps all earlier views exact |
| CategoryView.Results.Insert | UnityCore/ScopeProxy.cpp:746-760 | any insertion at any position keeps every view of every category exact |

## Left out

- `Indicators::ActivateEntry`, `SetEntryShowNow`, `GetEntry` across indicators and the menu signals: they look up one entry and call a setter that is modelled.
- `Entry::operator=`: copies all fields but the flooded ones and starts no flood.
- Listeners that change an object while it is emitting: a handler is one step, except where the filters' own handlers re-enter.
- Lists under construction in a snapshot are kept by indicator name, where the code keeps them by the indicator object; the name identifies it.
- Snapshots whose ids repeat within an indicator, and rows whose option ids repeat: preconditions of `DBusIndicators.DBusIndicators.Sync` and of the filters. `IndicatorSync.Indicator.Sync` itself takes any argument.
- DBusIndicators.DBusIndicators.Sync: does not state the order in which the mentioned indicators synchronise, which is the hash table's.
- LocationDelta.ApplyReads: takes the service as a map from id to rectangle; entries that the service itself no longer knows and its closing of open menus are not modelled. The same holds for the lemmas built on it.
- The geometry of a new entry is a parameter: the code leaves it at the default of its rectangle type, which is not part of this model.
- Scopes.Scopes.InsertScope: whether a scope can be created is a parameter that depends on its id alone. It takes null data itself; a list given to `Scopes.Scopes.UpdateScopes` holds none.
- `Scopes::InsertScope` by id, `AppendScope` and the lookup functions: they fetch data and call what is modelled.
- Session action codes other than logout, shutdown and reboot are let through as the code does; only those three can be called. Inhibitors, interactive mode, the ability to lock and the environment's identifiers are inputs.
- SessionManager.GnomeManager.OnReplied: covers the fallback chains of logout, reboot, shutdown, suspend and hibernate, but not the answers of the last fallback, which are only logged.
- How long timers run, and when a caller destroys a proxy object: a timer is an event that may come at any time, and destruction is not an event.
- DBusProxy.Proxy.OnProxyConnectCallback: does not connect signal and property handlers, whose maps are not modelled. Calls with file descriptors wait in the same way as calls do.
- ScopeProxy.Proxy.OnChannelReply: does not set the results, filters and categories models, which only pass values on. The searches that a filter change starts are ordinary searches here; the blocking of that signal and the remembered search string are not modelled.
- A waiting request records that it was issued or timed out, not the arguments and results of its remote call.
- `RatingsFilter` (floating point) and `CheckOptionFilter` (options without a constraint).
- OptionFilters.OptionFilter.OnRowChanged: does not record the visible and filtering notifications, and the visible and collapsed columns of a row are not modelled.
- OptionFilters.OptionFilter.Update: does not record the option-added, option-removed and show-all notifications; they are listened to outside.
- OptionFilters.OptionFilter.UpdateState: does not record the filtering notification at its end.
- OptionFilters.OptionFilter.OnModelDestroyed: does not record the removed signal.
- DesktopId.GetDesktopID: takes URI unescaping as an arbitrary function. The desktop database and the start of a process are arbitrary predicates in `DesktopId.Launch`.
- CategoryView.View.InsertWithOriginalOrder: the insertion belongs to the Dee library, which is not part of this model; it is taken to insert before the next row of the model that the view holds. Removals are handled by that library alone.
- The Nux views, `Hud`, previews, `GLibDBusServer`, `ConnectionManager` and the GLib wrappers: user interface, or glue that appears here only as slots, timers and cancellables.
