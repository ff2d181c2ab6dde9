# System Time Manager: a verified model

The System Time Manager is a daemon of set-top boxes. It restores the last known good time at boot, follows the arrival of NTP, DTT and secure (DRM) time, tells listeners how good the time is, saves the time for the next boot, and drives `chronyd` when the internet comes up or the box wakes from deep sleep. This project models the parts in which its threads and its saved state have to agree, and proves what they guarantee.

## How the model is built

| module (file) | what it holds |
|---|---|
| `TimeTypes` | states, events, qualities and the broadcast record |
| `StateMachine` | the event table, its handlers on values, and the state as a closed form of the history |
| `Broadcasts` | what listeners are told, over every history |
| `SystemTimeManager` (`SysTimeMgr.dfy`) | the manager object with its loops and handlers, each proved against `StateMachine` |
| `MessageQueue` | senders, `processMsg`, power and query threads as atomic steps over two mutexes |
| `VersionFile` | the `key=value` parser and the build time |
| `SavedTime` | the object that holds and saves the time, its bounds, and any number of reboots |
| `ManagedTime` | the manager and the saved time together: where each saved time comes from and when the manager turns it back |
| `ChronyControl` | the decision trees that issue chrony commands, and the kernel-clock monitor |
| `NetworkState` | the shared object of the network threads, one method for each section under its mutex |
| `NetworkThreads`, `NetworkLatch`, `MakestepSafety` | the network threads as atomic steps, and the claims about the latch, shutdown and clock stepping |
| `PowerEvents` | the power event queue, its drain loop, its two-lock protocol and the deep-sleep messages |

Code that changes fields is a class whose methods carry the loops of the source. Each method is tied by its `ensures` to a function on values, and the theorems are about runs of those functions. Threads are transition systems cut where a mutex is taken, released or waited with. Waits may wake without cause, and `notify_one` may pick any waiter. Results of foreign calls (chrony, systemctl, clock, file system, time sources) are inputs, so every theorem holds for all of them. Runs and histories are sequences of any length, and the numbers of senders and callers are arbitrary.

## What was found

These are places where the code and its documentation, or a natural expectation, differ. The model follows the code, and each point is a theorem.

- A stale update advances the time held by 600 s but writes the stale value to the file, although the log says otherwise. A reboot then loses time, exactly when `SavedTime.RebootRegressesExactly` says (example: `SavedTime.StaleUpdateIsLost`). The manager can cause this by itself, in exactly three ways (`ManagedTime.ManagerKeepsTimeExactly`, example `ManagedTime.ProviderCanTurnBack`).
- Entering SECURE_TIME_ACQUIRED raises the quality to Good without a broadcast. `Broadcasts.LastBroadcastIsHonest` characterises when listeners hold an outdated quality (example `Broadcasts.UpgradeCanBeSilent`).
- Without a saved or build time the quality stays Unknown, yet the first timer expiry publishes the text "Poor" with it. `Broadcasts.LabelsMatchExactly` says when (example `Broadcasts.TextCanMislead`). The time-quality specification promises Poor in every case until a time is acquired; `StateMachine.PoorUntilAcquiredExactly` says when that holds.
- RUNNING is documented with the source "NTP + DRM" and SECURE_TIME_ACQUIRED with the source "Secure". The code names NTP if it came before all secure time, else DTT if it came first, else "Last Known", and "Last Known" again after every wake-up (`Broadcasts.SourceIsFirstComer`, `Broadcasts.NamesInUse`, example `Broadcasts.RunningCanNameNoSource`).
- The time-quality specification promises Secure quality when secure time follows NTP or DTT. It follows NTP only: after DTT the quality stays Good (`StateMachine.SecureTimeSecuresExactly`, example `StateMachine.SecureTimeAfterDtt`).
- RUNNING is documented as terminal. It is so exactly as long as no wake-up comes (`StateMachine.RunningIsTerminalExactly`, example `StateMachine.WakeLeavesRunning`). A wake-up leaves it for NTP_ACQUIRED, and only newer secure time leads back (`StateMachine.ReturnNeedsNewSecureTime`).
- The design rejects a reference that drifts by more than ten minutes. The filter accepts any reference that is behind (`SystemTimeManager.DriftRejectedExactly`, example `SystemTimeManager.LaggingReferenceAccepted`).
- The clock-file specification asks that a source returning zero is ignored and the reference used alone. The code compares the reference with 0, so it complies exactly with references of up to 600 (`SystemTimeManager.ZeroIgnoredExactly`, example `SystemTimeManager.ReferenceLostToZero`).
- The boot specification asks for a recovered time when at least one sync has one. The code uses the last sync alone, so it complies exactly if the last sync has one or none has (`SystemTimeManager.RecoversExactly`, example `SystemTimeManager.RecoveryCanFail`).
- "No events are lost" holds of the network latch as long as no callback comes while the retry thread sleeps. Callbacks that come only during or after a successful Subscribe meet that condition (`NetworkLatch.NoEdgeLost`, `NetworkLatch.SubscriptionKeepsRetryAwake`). Without it an edge can be forgotten, and `NetworkLatch.ForgottenExactly` says in which runs (example `NetworkLatch.EdgeCanBeForgotten`).
- A `/tmp/clock-event` left by an earlier instance of the daemon defeats the guard that clock steps wait for the monitor to see the kernel clock synchronised (`MakestepSafety.GuardHoldsExactly`, `MakestepSafety.StaleSentinelDefeatsGuard`).
- The power queue can miss a wake-up, because a push and its notify can fall between the consumer's look at the queue and its block (`PowerEvents.ForgottenExactly`, example `PowerEvents.WakeUpCanBeMissed`). Nothing is lost, reordered or repeated by it, and the next wake-up makes good for it (`PowerEvents.NothingLostOrReordered`, `PowerEvents.MissedIsOnlyDelayed`).

## Model

| member | source | states |
|---|---|---|
| StateMachine.StateIsHistory | systimemgr.cpp:167-200 | After any sequence of events and wake-ups the table machine is in the state given by four facts about the history (NTP seen, secure time held, DTT after a timer, timer seen), with that state's quality |
| StateMachine.ClassifyStep | systimemgr.cpp:542-589 | One event or wake-up changes the machine exactly as it changes those four facts |
| StateMachine.OrderIrrelevant | systimemgr.cpp:167-182 | Without wake-ups RUNNING is reached exactly by the histories with an NTP and a secure event, in whatever order |
| StateMachine.QualityMatchesState | systimemgr.cpp:550-589 | Over every history: SECURE quality exactly in RUNNING, GOOD exactly in the three acquired states |
| StateMachine.PoorUntilAcquiredExactly | systimemgr.cpp:639-707 | Over every history before NTP, secure and DTT time the quality is Poor exactly if a saved or build time was found |
| StateMachine.SecureTimeSecuresExactly | systimemgr.cpp:167-182 | After any history a secure-time event leaves the quality Secure exactly if NTP was seen |
| StateMachine.SecureTimeAfterDtt | systimemgr.cpp:574-579 | Timer expiry, DTT and secure time leave the quality Good |
| StateMachine.AfterRunning | systimemgr.cpp:823-828 | Once RUNNING was reached every later state is RUNNING or NTP_ACQUIRED |
| StateMachine.RunningIsTerminalExactly | systimemgr.cpp:823-828 | From any moment in RUNNING on, the machine stays there exactly if no wake-up comes |
| StateMachine.WakeLeavesRunning | systimemgr.cpp:825-828 | NTP, secure time and a wake-up end in NTP_ACQUIRED |
| StateMachine.ReturnNeedsNewSecureTime | systimemgr.cpp:817-828 | After a wake-up that followed NTP, the machine is RUNNING exactly if a secure event came after that wake-up and no later wake-up undid it |
| StateMachine.HandledExactly | systimemgr.cpp:167-198 | Which events find a handler, told by the history: every timer, NTP once, secure time while none is held, DTT only after a failed wait |
| StateMachine.RankStep | systimemgr.cpp:167-182 | A handled event keeps the state or raises its rank; a wake-up lowers the rank from RUNNING only |
| StateMachine.BoundedProgress | systimemgr.cpp:167-200 | A history with k wake-ups from RUNNING makes at most 4 + k handled state changes |
| StateMachine.SecureBroadcastCount | systimemgr.cpp:566-573 | Secure-success broadcasts minus wake-ups from RUNNING is 1 in RUNNING and 0 elsewhere |
| Broadcasts.LabelsMatchExactly | systimemgr.cpp:550-555 | All broadcasts carry the text of their own quality exactly if a saved or build time was found or no timer expiry came before all NTP and secure events |
| Broadcasts.TextCanMislead | systimemgr.cpp:550-555 | A first timer expiry without a time found publishes "Poor" with the quality Unknown |
| Broadcasts.LastBroadcastIsHonest | systimemgr.cpp:574-579 | With a time found at boot the last broadcast carries a matching text and the quality held, or Poor while it is Good, which is so exactly during a silent upgrade, told by the history, and implies SECURE_TIME_ACQUIRED |
| Broadcasts.UpgradeCanBeSilent | systimemgr.cpp:574-579 | After secure time as the first event the quality is Good while listeners were last told Poor |
| Broadcasts.SourceIsFirstComer | systimemgr.cpp:556-589 | Over every history the source named is NTP exactly if the first NTP event came before all secure time and no wake-up followed it, else DTT if the first DTT event after a timer expiry came before all NTP and secure time and no wake-up followed it, else the last known time |
| Broadcasts.NamesInUse | systimemgr.cpp:556-589 | No other source than NTP, DTT and Last Known is ever named |
| Broadcasts.RunningCanNameNoSource | systimemgr.cpp:566-573 | Secure time before NTP leads to RUNNING with the source Last Known |
| Broadcasts.BroadcastsExactly | systimemgr.cpp:550-589 | For each kind, the number of broadcasts ever made equals the number the history calls for: failure, NTP and DTT at most once, one for each wake-up, one for each entry into RUNNING |
| Broadcasts.EveryBroadcast | systimemgr.cpp:550-589 | The whole sequence of broadcasts, in order and with kind, quality, source and text of each, as a function of the history |
| Broadcasts.LastBroadcastNamesSource | systimemgr.cpp:708-718 | Over every history the last broadcast names the source held, so a change of source is always announced |
| StateMachine.ClockSetExactly | systimemgr.cpp:167-182 | Over every history the handler that sets the clock from a provider runs exactly on timer expiries after DTT time with no NTP seen and no secure time held |
| SystemTimeManager.SysTimeMgr.constructor | systimemgr.cpp:73-85 | The object before initialize: no state, unknown quality, last known source |
| SystemTimeManager.SysTimeMgr.Enter | systimemgr.cpp:167-181 | One table entry is set and every other lookup is unchanged |
| SystemTimeManager.SysTimeMgr.Initialize | systimemgr.cpp:164-182 | From setInitialTime to the end: the clock is the recovered one, failures included, the filled map answers every lookup as the table does, and the machine starts in NTP_WAIT, Poor and announced exactly if a time was found |
| SystemTimeManager.SysTimeMgr.SetInitialTime | systimemgr.cpp:639-707 | The last sync's time decides; without one nothing changes; otherwise Poor is announced and the clock moves only forward, failures included |
| SystemTimeManager.ClockRecoveredExactly | systimemgr.cpp:659-706 | Failures included, the clock found at boot is never turned back knowingly and set to nothing but the time recovered |
| SystemTimeManager.RecoversExactly | systimemgr.cpp:639-667 | A time some sync has leads to a recovered time, with Poor quality, exactly if the last sync has one or none has |
| SystemTimeManager.RecoveryCanFail | systimemgr.cpp:644-667 | With a first sync that returns 5 and a last one that returns 0 nothing is recovered |
| SystemTimeManager.SysTimeMgr.PublishStatus | systimemgr.cpp:708-734 | One broadcast is added, stamped with the quality and source of the moment, in the form that the sequence of all broadcasts is proved about |
| SystemTimeManager.SysTimeMgr.UpdateTimeSync | systimemgr.cpp:622-628 | Every sync receives the same value, once |
| SystemTimeManager.SysTimeMgr.TimerExpiryHandler | systimemgr.cpp:590-621 | The loop finds the last reference and the last other time, and every sync receives the filtered reference |
| SystemTimeManager.DriftFilter | systimemgr.cpp:593-620 | A non-zero time handed out is the last reference reading and at most 600 s ahead of the last non-zero other reading |
| SystemTimeManager.FilteredExactly | systimemgr.cpp:593-620 | By the positions of the last reference and the last other non-zero reading: the answer is the reference exactly if it leads the other by no more than 600 s, else 0 |
| SystemTimeManager.DriftRejectedExactly | systimemgr.cpp:615-618 | A drift above 600 s in either direction is answered with 0 exactly if the reference is not the one behind, or is 0 |
| SystemTimeManager.LaggingReferenceAccepted | systimemgr.cpp:615-618 | A reference 9000 s behind the secure time is handed out |
| SystemTimeManager.ZeroIgnoredExactly | systimemgr.cpp:593-620 | When no other source has a time, the reference is handed out exactly if it is at most 600 |
| SystemTimeManager.ReferenceLostToZero | systimemgr.cpp:593-620 | A present-day reference beside a source that returns zero is answered with 0 |
| SystemTimeManager.ReferenceSavedExactlyWhenRunning | systimemgr.cpp:566-621 | Over every history the syncs get the filtered reference exactly from handled events that leave NTP seen and secure time held, and 0 from all other handled events |
| SystemTimeManager.SysTimeMgr.UpdateTime | systimemgr.cpp:542-549 | Every sync is asked to find the time itself, then checkTime is called once on each source, in order |
| SystemTimeManager.SysTimeMgr.UpdateClockRealTime | systimemgr.cpp:904-934 | The clock is set to the first clock provider's time if that is not 0 and can be set; checkTime is called once on each source; the syncs receive 0 |
| SystemTimeManager.FirstProvider | systimemgr.cpp:911-918 | The time used is that of the first clock provider, whatever it is, and 0 without one |
| SystemTimeManager.ChecksExactly | systimemgr.cpp:542-549 | Over every history the sources are checked exactly on timer expiries after the first one, or after NTP or secure time, except in RUNNING |
| SystemTimeManager.SysTimeMgr.NtpFailed | systimemgr.cpp:550-555 | Refines the failed-wait handler of the machine; the syncs receive 0 |
| SystemTimeManager.SysTimeMgr.NtpAquired | systimemgr.cpp:556-565 | Refines the NTP handler of the machine; the syncs receive 0 |
| SystemTimeManager.SysTimeMgr.UpdateSecureTime | systimemgr.cpp:566-573 | Refines the handler that enters RUNNING; the syncs receive the filtered reference |
| SystemTimeManager.SysTimeMgr.SecureTimeAcquiredHandler | systimemgr.cpp:574-579 | Refines the silent secure-time handler: no broadcast |
| SystemTimeManager.SysTimeMgr.DttAquired | systimemgr.cpp:581-589 | Refines the DTT handler of the machine |
| SystemTimeManager.SysTimeMgr.RunStateMachine | systimemgr.cpp:185-200 | The whole new state: visible core, last event, what each sync received, the sources checked and the clock, for handled and unhandled events |
| SystemTimeManager.SysTimeMgr.SendMessage | systimemgr.cpp:629-637 | The event joins the end of the queue |
| SystemTimeManager.SysTimeMgr.ProcessOne | systimemgr.cpp:427-442 | The head of the queue leaves it and is run; core, clock, sources checked and what each sync receives are those of its handler |
| SystemTimeManager.SysTimeMgr.DeepSleepOff | systimemgr.cpp:817-896 | Refines the wake-up of the machine and issues the calls of the running time service; the clock is stepped exactly if chronyd runs and timesyncd does not |
| SystemTimeManager.SysTimeMgr.PowerHandler | systimemgr.cpp:798-816 | Only the message DEEP_SLEEP_OFF changes anything |
| SystemTimeManager.SysTimeMgr.GetTimeStatus | systimemgr.cpp:748-797 | The reply has the current quality, the text of that quality and the current source |
| SystemTimeManager.Boot | systimemgr.cpp:164-182 | A boot with rdkdefault alone, clock failures included, ends with the held time and the visible state that the history theorems start from, and, if the clock can be read and set, with the clock of the reboot theorems |
| MessageQueue.QueueIsFifo | systimemgr.cpp:427-442 | In every interleaving the events run are a prefix of those pushed, and a consumer blocked on a non-empty queue has a sender between its push and its notify |
| MessageQueue.StateOverInterleavings | systimemgr.cpp:185-200 | In every interleaving state, quality and last broadcast are the closed forms of the history in the order of the state mutex |
| MessageQueue.CallsAccounted | systimemgr.cpp:748-857 | In every interleaving the wake-ups in the history and the answers given are the calls made, except those still under way |
| MessageQueue.SendsAccounted | systimemgr.cpp:629-637 | In every interleaving each event was pushed as often as it was sent, except for the calls still under way |
| MessageQueue.EveryHistoryHappens | systimemgr.cpp:427-442 | One sender and one caller can bring about any history of events and wake-ups, through waits that wake without cause |
| MessageQueue.AnswersOverInterleavings | systimemgr.cpp:748-751 | Every status reply carries the quality and the source of one moment of that history between its query and the reply |
| MessageQueue.AnswersEndQueries | systimemgr.cpp:748-797 | Every answer was given by a step that ended a query of the same caller, and tells the quality and source held at that step |
| MessageQueue.NoDeadlock | systimemgr.cpp:429-440 | In every reachable state some thread can go on unless all are at rest with an empty queue, although the queue mutex is held while the state mutex is taken |
| MessageQueue.HolderMoves | systimemgr.cpp:429-440 | While some mutex is held a thread that has begun can take a step |
| MessageQueue.WorkDecreases | systimemgr.cpp:427-442 | Every step that continues begun work lowers a measure of what is left |
| MessageQueue.Drains | systimemgr.cpp:427-442 | After any run, without new calls the threads take at most that many steps, and when none can move every pushed event has run |
| MessageQueue.NotForgottenStep | systimemgr.cpp:630-636 | Every step keeps: a blocked consumer with work has a notification coming |
| VersionFile.Tokenize | systimerfactory/rdkdefaulttimesync.cpp:44-66 | Terminates for every text and token without leaving the text, and computes the recursive parse in which the first binding of a key wins |
| VersionFile.RoundTrip | systimerfactory/rdkdefaulttimesync.cpp:44-66 | Every list of well-formed pairs, written line by line, is read back as its map of first bindings |
| VersionFile.RoundTripExactly | systimerfactory/rdkdefaulttimesync.cpp:53-64 | A pair survives exactly if its key has no '=' and its value has no line break and no '=' in front |
| VersionFile.RoundTripUnended | systimerfactory/rdkdefaulttimesync.cpp:53-60 | A last line without a line break is read too, behind any other lines |
| VersionFile.LineOfPair | systimerfactory/rdkdefaulttimesync.cpp:53-60 | Any number of '=' separates a key from its value, and the next key starts behind the line break |
| VersionFile.TrailingKeyDropped | systimerfactory/rdkdefaulttimesync.cpp:55-56 | A last key followed by nothing but '=' binds nothing |
| VersionFile.FindCharacter | systimerfactory/rdkdefaulttimesync.cpp:53-58 | The search finds the first occurrence from a position on, or none exists |
| VersionFile.BuildTime | systimerfactory/rdkdefaulttimesync.cpp:68-91 | A missing file, key or readable date gives 0, otherwise the parsed date |
| VersionFile.BuildTimeFound | systimerfactory/rdkdefaulttimesync.cpp:78-86 | The quoted build time of a well-formed file reaches the date parser without quotes, wherever its line stands; an unreadable date gives 0 |
| VersionFile.BuildTimeMissing | systimerfactory/rdkdefaulttimesync.cpp:70-91 | Without a file the build time is 0; without its key the empty text is parsed |
| SavedTime.RdkDefaultTimeSync.constructor | systimerfactory/rdkdefaulttimesync.h:41-41 | Nothing is held before the first call |
| SavedTime.RdkDefaultTimeSync.GetTime | systimerfactory/rdkdefaulttimesync.cpp:93-134 | The later of saved and build time is returned and held |
| SavedTime.LoadedExactly | systimerfactory/rdkdefaulttimesync.cpp:105-133 | A boot loads the later of file and build time, and the build time or 0 without a file |
| SavedTime.RdkDefaultTimeSync.UpdateTime | systimerfactory/rdkdefaulttimesync.cpp:136-183 | A stale update adds 600 s to the time held, any other replaces it; the file receives the update itself, if it can be written |
| SavedTime.HeldBounds | systimerfactory/rdkdefaulttimesync.cpp:161-170 | Over any updates with s stale ones the time held never decreases, is at least the latest time seen and start + 600 s, and at most the latest time seen + 600 s, each time s |
| SavedTime.MaxOfIsMaximum | systimerfactory/rdkdefaulttimesync.cpp:161-165 | The latest time seen is the maximum of the start and all updates |
| SavedTime.FileAgreesExactly | systimerfactory/rdkdefaulttimesync.cpp:177-182 | After an update file and held time agree exactly if it was not stale; a stale one leaves the file behind by more than 600 s |
| SavedTime.FollowsExactly | systimerfactory/rdkdefaulttimesync.cpp:161-182 | Through any updates the file equals the time held after each of them exactly if none is stale |
| SavedTime.NoStaleExactly | systimerfactory/rdkdefaulttimesync.cpp:161-170 | No update is stale exactly if the updates ascend from the time held at the start |
| SavedTime.RebootRegressesExactly | systimerfactory/rdkdefaulttimesync.cpp:93-183 | A reboot starts below the time held exactly if the last update was stale and the build time is below it too |
| SavedTime.StaleUpdateIsLost | systimerfactory/rdkdefaulttimesync.cpp:166-182 | A concrete update one second too old after which the next boot starts 601 s earlier |
| SavedTime.InitialClockIsLatest | systimemgr.cpp:659-706 | After boot the clock is the latest of clock, saved and build time, exactly if one of the two times exists or the clock is not before 1970 |
| SavedTime.SessionIsExact | systimerfactory/rdkdefaulttimesync.cpp:136-183 | With a clock that is not turned back during a session no update is stale, the file equals the time held after every update, and the saved time does not decrease |
| SavedTime.RebootsNeverLoseTime | systimerfactory/rdkdefaulttimesync.cpp:93-183 | The same over any number of reboots with any hardware clock at each boot: no update is stale, the file equals the time held after each one, the saved time never decreases from a boot to a later one, and every boot starts from the latest of its three times |
| ManagedTime.HandedByHistory | systimemgr.cpp:566-628 | The clock is set from a provider exactly on timer expiries with DTT the best time and a provider that answers, and a reference is saved exactly from handled events that leave NTP seen and secure time held |
| ManagedTime.ManagerKeepsTimeExactly | systimemgr.cpp:542-628 | Over every history in which nobody else turns the clock back, no update is stale and the file follows the time held exactly if no provider or reference behind the latest time seen is handed out and no clock behind a reference handed out before |
| ManagedTime.NextBootKeepsTime | systimerfactory/rdkdefaulttimesync.cpp:93-183 | After such a session the next boot starts from no less than the time held |
| ManagedTime.ManagedRebootsKeepTimeExactly | systimerfactory/rdkdefaulttimesync.cpp:93-183 | Over any number of boots, each with any such history, every boot keeps time exactly if the manager never turns it back in any of them, and then the saved time never decreases from a boot to a later one |
| ManagedTime.ProviderCanTurnBack | systimemgr.cpp:904-934 | A run in which a DTT provider behind the time held sets the clock back and 500 is saved while 1600 is held |
| ManagedTime.Handle | systimemgr.cpp:185-200 | One input changes the manager and its only sync, rdkdefault, as the histories above say: core, clock, time held and, if it can be written, file |
| ChronyControl.ProcessInternetOnline | systimerfactory/networkstatussrc.cpp:110-277 | Issues exactly the calls of its documented cases, in order |
| ChronyControl.OnlineCallsExactly | systimerfactory/networkstatussrc.cpp:115-275 | For every call and every answer, when it belongs to a run, in terms of the replies alone, and the order of the calls |
| ChronyControl.MakestepExactly | systimerfactory/networkstatussrc.cpp:184-275 | The clock is stepped exactly if the first sync was done and either a selectable source shows an offset above 1.0 or, without one, the wait succeeded |
| ChronyControl.MakestepFollowsEvidence | systimerfactory/networkstatussrc.cpp:214-268 | A makestep is the last call of its run and directly follows its evidence |
| ChronyControl.EvidenceExactly | systimerfactory/networkstatussrc.cpp:214-268 | Evidence is a wait that succeeded or an offset above 1.0 in either direction |
| ChronyControl.OnlineExactly | systimerfactory/networkstatussrc.cpp:139-183 | Sources are marked online exactly before the first sync, with chronyd running and reporting none |
| ChronyControl.BurstExactly | systimerfactory/networkstatussrc.cpp:187-214 | A burst is issued exactly after the first sync without a selectable source, and each wait directly follows one |
| ChronyControl.RestartTimeService | systimemgr.cpp:860-895 | Issues exactly the calls that belong to the running service, in order: after a wake-up chronyd is stepped whatever the wait answers, and timesyncd is restarted exactly if it runs |
| ChronyControl.RestartCallsExactly | systimemgr.cpp:860-895 | For every call, when it belongs to a wake-up, and the order of the calls |
| ChronyControl.RunNTPSyncMonitor | systimemgr.cpp:313-424 | Stops at the first synchronised reading, failed readings skipped, and leaves its creatable files in order; the sentinel exists exactly if a synchronised reading was seen and it could be created |
| NetworkState.NetworkSharedState.HandleInternetStatusChange | systimerfactory/networkstatussrc.cpp:285-314 | The lower-cased status is always remembered; the latch is set and a notification sent exactly on a change to fully connected |
| NetworkState.LowerExactly | systimerfactory/networkstatussrc.cpp:293-295 | Upper-case letters are lowered and nothing else changes |
| NetworkState.StatusLabels | systimerfactory/networkstatussrc.cpp:287-291 | The label status is preferred to internetStatus, and without both the status is empty |
| NetworkState.RisesExactly | systimerfactory/networkstatussrc.cpp:297-306 | A delivery is signalled exactly if it is "fully_connected" in any case and the one before was not |
| NetworkState.NetworkSharedState.ProcessingSection | systimerfactory/networkstatussrc.cpp:331-345 | Waits, stops or clears the latch and runs, stopping first |
| NetworkState.NetworkSharedState.RetryCheck | systimerfactory/networkstatussrc.cpp:362-370 | The retry thread ends exactly if it is told to stop |
| NetworkState.NetworkSharedState.RetrySleepSection | systimerfactory/networkstatussrc.cpp:388-402 | Sleeps, ends or retries, stopping first even after the deadline |
| NetworkState.NetworkSharedState.RequestStop | systimerfactory/networkstatussrc.cpp:424-427 | Sets the stop flag and nothing else |
| NetworkState.RisingStep | systimerfactory/networkstatussrc.cpp:297-306 | A delivery adds a rising position exactly if it is signalled |
| NetworkLatch.LatchMeansEdge | systimerfactory/networkstatussrc.cpp:312-344 | In every interleaving the latch is set exactly if an edge arrived after the last clear |
| NetworkLatch.NoEdgeLost | systimerfactory/networkstatussrc.cpp:285-347 | If callbacks find the retry thread awake, then in every interleaving a processing thread that waits un-notified and unstopped has served every edge by a later start |
| NetworkLatch.EdgeServedSoon | systimerfactory/networkstatussrc.cpp:325-347 | Under that condition a pending edge is taken up within three own steps of the processing thread unless a stop is requested |
| NetworkLatch.SubscriptionKeepsRetryAwake | systimerfactory/networkstatussrc.cpp:355-404 | Callbacks only during or after a successful Subscribe find the retry thread awake |
| NetworkLatch.SubscribesUntilSuccess | systimerfactory/networkstatussrc.cpp:355-404 | A successful Subscribe is the last one ever started, and the retry thread ends without one only after the stop flag |
| NetworkLatch.LossExactly | systimerfactory/networkstatussrc.cpp:312-340 | A delivery to a waiting processing thread can be forgotten exactly if it rises while the retry thread sleeps |
| NetworkLatch.ForgottenExactly | systimerfactory/networkstatussrc.cpp:312-393 | In every run, whenever callbacks come, the processing thread waits on a set latch exactly if a rising delivery that found it waiting notified the retry thread and nothing woke it since |
| NetworkLatch.EdgeCanBeForgotten | systimerfactory/networkstatussrc.cpp:313-393 | A concrete run, with a callback during the retry sleep, that leaves the processing thread waiting on a set latch |
| NetworkLatch.Coalescing | systimerfactory/networkstatussrc.cpp:285-347 | Edges signalled equal the deliveries of the run that turn to fully connected; starts never outnumber edges, and makesteps never outnumber starts |
| NetworkLatch.StartsAccounted | systimerfactory/networkstatussrc.cpp:325-404 | Every start of processInternetOnline and of a Subscribe in a run is counted in its log |
| NetworkThreads.CommandsAccounted | systimerfactory/networkstatussrc.cpp:110-277 | Every processInternetOnline of a run issues its calls, in order |
| NetworkThreads.AttemptsFail | systimerfactory/networkstatussrc.cpp:358-404 | Any number of attempts to subscribe can fail, through sleeps that wake without cause and reach their deadline, and the next is still made |
| NetworkLatch.CleanShutdown | systimerfactory/networkstatussrc.cpp:325-428 | After the stop flag at most one start and one Subscribe follow, within 8 steps of the two threads; after notify_all neither waits, and both can go on without being woken until they have ended |
| NetworkLatch.ShutdownBounds | systimerfactory/networkstatussrc.cpp:325-428 | From any stopped state, only a thread already past its check can still start, and each own step uses up a measure |
| NetworkLatch.ShutdownCompletes | systimerfactory/networkstatussrc.cpp:412-428 | In every run, at any time after notify_all, no thread waits, and the two cannot go on without being woken exactly if both have ended |
| NetworkLatch.ShutdownHappens | systimerfactory/networkstatussrc.cpp:412-428 | A run that shuts both waiting threads down to their end |
| NetworkLatch.FlagAloneLeavesWaiters | systimerfactory/networkstatussrc.cpp:424-428 | A run in which the flag is set and, before notify_all, both threads wait and neither can go on |
| MakestepSafety.EveryMakestepJustified | systimerfactory/networkstatussrc.cpp:110-277 | In every interleaving each makestep belongs to a run begun after the monitor saw the clock synchronised, and follows a successful wait or an offset above 1.0 in that run |
| MakestepSafety.NoMakestepBeforeSync | systimerfactory/networkstatussrc.cpp:115-117 | Every makestep comes after the first synchronised reading of the monitor |
| MakestepSafety.StartsAfterSentinel | systimerfactory/networkstatussrc.cpp:115-117 | In every run, once the monitor has left the sentinel every later start finds the first sync done |
| MakestepSafety.SyncedEdgeSteps | systimerfactory/networkstatussrc.cpp:184-275 | Once synchronised the clock is stepped in some run from the start, after any number of failed attempts to subscribe, for all replies that call for it |
| MakestepSafety.GuardHoldsExactly | systimerfactory/networkstatussrc.cpp:115-117 | In all runs every makestep comes after the monitor saw the kernel clock synchronised, exactly if no sentinel exists at start |
| MakestepSafety.StaleSentinelDefeatsGuard | systimerfactory/networkstatussrc.cpp:115-275 | With a sentinel left by an earlier instance a run exists that steps the clock before the monitor has observed synchronisation, for all replies that lead to a step |
| PowerEvents.IpowerControllerSubscriber.PwrEventHandler | systimerfactory/ipowercontrollersubscriber.cpp:101-116 | The event joins the end of the queue |
| PowerEvents.IpowerControllerSubscriber.HandlePwrEventData | systimerfactory/ipowercontrollersubscriber.cpp:187-226 | The message of the event, and no other, is sent: a sleep for off and deep sleep, a wake-up on leaving deep sleep for on, light sleep or standby |
| PowerEvents.IpowerControllerSubscriber.Drain | systimerfactory/ipowercontrollersubscriber.cpp:166-180 | A drain pass handles the queue and all that arrives meanwhile, in order, once, sends their messages, and ends on an empty queue |
| PowerEvents.NothingLostOrReordered | systimerfactory/ipowercontrollersubscriber.cpp:101-181 | In every interleaving handled, in-hand and queued events together are exactly the pushes of the run, in order |
| PowerEvents.DrainEndsEmpty | systimerfactory/ipowercontrollersubscriber.cpp:169-179 | A drain pass ends only with an empty queue and everything pushed handled |
| PowerEvents.ForgottenExactly | systimerfactory/ipowercontrollersubscriber.cpp:157-165 | A blocked consumer without a coming notification has work exactly if in its run a notify fell between its look and its block, after a push, and nothing woke it since |
| PowerEvents.WakeUpCanBeMissed | systimerfactory/ipowercontrollersubscriber.cpp:108-163 | A concrete run that leaves the consumer blocked on a non-empty queue |
| PowerEvents.MissedIsOnlyDelayed | systimerfactory/ipowercontrollersubscriber.cpp:157-175 | From any such state and whatever follows, the first wake lets the consumer go on, and three own steps after it the forgotten event has been handled, before any other |
| PowerEvents.HandledSoon | systimerfactory/ipowercontrollersubscriber.cpp:157-180 | From any state the oldest unhandled event is handled next, within four own steps of the consumer, whatever the producers do |
| PowerEvents.DrainsExactly | systimerfactory/ipowercontrollersubscriber.cpp:157-180 | Without new events the threads take a bounded number of steps, and when none can move everything pushed has been handled exactly unless a wake-up was missed |
| PowerEvents.WakeFollowsSleep | systimerfactory/ipowercontrollersubscriber.cpp:196-219 | In a chained sequence an event wakes the manager exactly if the event before it reported deep sleep and it leads to a state that is on, light sleep or standby |
| PowerEvents.MessageExactly | systimerfactory/ipowercontrollersubscriber.cpp:196-219 | For every event, which message it sends |
| PowerEvents.MessagesCounted | systimerfactory/ipowercontrollersubscriber.cpp:196-219 | Over any events there are as many wake-ups as events that leave deep sleep awake, and as many sleeps as events that turn off or go to deep sleep |
| PowerEvents.MessagesInOrder | systimerfactory/ipowercontrollersubscriber.cpp:196-219 | The messages keep the order of their events |
| PowerEvents.MessagesAlternate | systimerfactory/ipowercontrollersubscriber.cpp:196-219 | In what is sent every wake-up stands right behind a sleep |

## Left out

- Logging, telemetry, milestones, the pid and status files, the wall-clock text and the 80-byte fields of a broadcast: output only.
- IARM, Thunder, MFR, PowerController, DRM and DTT clients: foreign calls; only their results appear, as inputs.
- `strptime` and `timegm` are a parameter, including what they leave in fields the format does not set; stream number parsing is folded into the saved number.
- Integer widths: times are unbounded integers, so overflow of `long long` is not modelled.
- The offset reading is a real number: NaN and infinities are not modelled.
- SystemTimeManager.SysTimeMgr.Initialize: reading the configuration, the factories and the map from file names to events, which fill other fields, are not modelled.
- ManagedTime.ManagerKeepsTimeExactly: file writes succeed, and clock steps by chrony that turn the clock back are outside its condition.
- ManagedTime.Handle: the clock step that chrony may make after a wake-up appears as the clock that the next input finds.
- The path monitor and its inotify reads: they lose events; the theorems are about the events that reach the queue.
- The endless loops of `processMsg`, `runEventProcessingLoop`, the retry loop and the power thread appear as their rounds and as steps of the transition systems, not as one method each.
- SystemTimeManager.SysTimeMgr.RunStateMachine: the source readings of one call are given at once, so a source that changes between two reads of the same call is not modelled.
- VersionFile.FindCharacter: states what `find` returns for one-character tokens, the only ones in use; for longer tokens only termination and the parse itself are covered.
- NetworkThreads.Next: processInternetOnline reads the sentinel when it starts and its commands enter the log together when it ends, so commands of the same run are not interleaved with other log entries.
- The unsubscribe at the end of the destructor and access to the Thunder client during shutdown are not modelled.
- The PowerController connection retry, the clearing of the power queue at deinit and the join of its thread, which has no stop flag, are not modelled.
- The IARM power backend, the factories and the simple publishers and subscribers are wrappers around what is modelled.
