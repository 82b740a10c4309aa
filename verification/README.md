# TelAF simulation: verified model of the Active Objects

This project models the state machines at the heart of the TelAF modem and application-processor
simulator (`sml/`) and proves what they promise over every sequence of events: the power coordination
round, the eCall session and its manager, the data-call manager, the scenario runner, the MQTT
connection, the SIM card with its subscription, and the profile store.

Each Active Object runs one event to completion at a time. For each, a `*Model.dfy` file gives the
event step as a function on a value and proves the properties of whole runs as lemmas; a second file
holds the object itself, a class with the implementation's fields, loops and handlers, whose methods
are proved to perform exactly that step. Timer expiries are ordinary events that may come at any time,
stale ones included. What is published goes into a log of typed messages.

| files | what they model |
|---|---|
| `PowerModel.dfy`, `PowerSubsystem.dfy` | FIFO of suspend/resume/shutdown requests, acknowledgement rounds, the duplicate scan |
| `EcallModel.dfy`, `EcallTheorems.dfy`, `EcallScript.dfy`, `EcallSession.dfy` | one eCall: nested state entries, HLAP timers, the redial loop, tables of its callbacks |
| `EcallManagerModel.dfy`, `EcallManagerLaws.dfy`, `EcallManager.dfy` | session table, timer maps, requests, what reaches the wire |
| `Addressing.dfy`, `DataCallModel.dfy`, `DataConnection.dfy` | interface names, per-bearer subnets, the call table |
| `Timeline.dfy`, `ScenarioModel.dfy`, `ScenarioRunner.dfy` | staging, ownership, the virtual clock |
| `SimModel.dfy`, `SimSubsystem.dfy` | card state and event-fed identity |
| `ProfileModel.dfy`, `ProfileStore.dfy` | profile ids, defaults, snapshots |
| `MqttModel.dfy`, `MqttClient.dfy` | connection lifecycle and backoff |
| `Common.dfy` | `Option` and `Filter` |

`dafny verify dfyconfig.toml` checks the whole project.

Where the properties one would hope for do not hold of the code, the exact condition is proved:

- the duplicate scan predicts the drained queue for registered machines, and for any other target
  exactly when it is not blind to an ALL_MACHINES request (`PowerModel.ScanExact`), because recording an
  ALL_MACHINES request writes every key of the state map, registered or not;
- an eCall session can be left waiting for a timer that nothing started exactly in the configurations
  `EcallTheorems.Strands` describes;
- a call in progress is always shown ACTIVE exactly for the configurations in
  `EcallScript.AlwaysShownActiveIff`: NG without an MSD stops at ALERTING, and so does a circuit-switched
  call whose MSD was pulled before its start;
- a data call removed from the table is last seen in NO_NET exactly when it was dropped or was
  DISCONNECTING (`DataCallModel.RemovalPublishes`);
- a bearer's gateway keeps its on-link status exactly for prefixes of at least /24 (IPv6 /64), or /0
  (`Addressing.OnLinkPreservedIff`).

Two comments in the code say more than the code does. The docstring of `force_ecall_redial_mode` calls
an out-of-range `succeed_at_attempt` unchecked, while `_apply_force_redial_mode` does check it, only to
log a warning; the model follows the code, where such a value never matches. The comment on
`SubscriptionAO._last_published` says a restore is never skipped; what is proved is that the last identity
event sent always equals the visible identity, which is what the comment is for.

## Model

| member | source | states |
|---|---|---|
| `PowerModel.StepInv` | sml/apss/power/__init__.py:302-460 | Every event in Ready keeps: queue non-empty iff a round is in flight; the head is then not RESUME, acked is a strict subset of expected, nobody has NACKed; registered machines have a recorded state. The finish/start-next cascade settles. |
| `PowerModel.ScanPredictsDrain` | sml/apss/power/__init__.py:313-317 | For a registered machine the reverse scan equals its state after the whole queue has been recorded. |
| `PowerModel.ScanExact` | sml/apss/power/__init__.py:307-317 | For any target, queue and state map the scan is right if and only if it is not blind: the target is unregistered, the newest request touching it is an ALL_MACHINES one, it has a recorded state by then, and that request asks for another state than the newest earlier request naming the target, or than its recorded state. |
| `PowerModel.RemovedMachineMispredicted` | sml/apss/power/__init__.py:313-317 | A run from start-up to a blind state: add a machine, remove it, suspend ALL_MACHINES; the scan says RESUME of it, the drain leaves SUSPEND. |
| `PowerModel.AcceptanceWrongIffBlind` | sml/apss/power/__init__.py:307-311 | For a single target outside a shutdown, acceptance and changing the drained state disagree exactly when the scan is blind for the target and the request asks for the scanned or the drained state. |
| `PowerModel.AcceptedIffChangesDrain` | sml/apss/power/__init__.py:283-311 | With no SHUTDOWN at the head, a request to registered machines is accepted exactly when it changes some target's drained state. |
| `PowerModel.StepSettles` | sml/apss/power/__init__.py:389-468 | ACKs, NACKs and timeouts never change where the queue leads; a timeout always shortens a non-empty queue. |
| `PowerModel.DrainedStateIsPredicted` | sml/apss/power/__init__.py:313-468 | Whatever mix of answers and timeouts empties the queue, each registered machine ends in the state the scan predicted beforehand. |
| `PowerModel.TimeoutsDrain` | sml/apss/power/__init__.py:404-460 | As many timeouts as queued requests empty the queue. |
| `PowerModel.StepConserves` | sml/apss/power/__init__.py:277-305 | One event owes exactly one more reply iff it is a request, and an accepted request joins the end of the ledger of answers given and owed. |
| `PowerModel.OneReplyEachInOrder` | sml/apss/power/__init__.py:277-460 | Over any run from start-up: requests received = replies sent + requests queued; accepted requests are answered in arrival order and the unanswered ones are the queue. |
| `PowerModel.RoundTracksAcks` | sml/apss/power/__init__.py:389-402 | While no NACK or timeout came and someone has not acknowledged, the round stays open, holds exactly the awaited machines that acknowledged, and nobody is answered. |
| `PowerModel.AnswerOkIffAllAcked` | sml/apss/power/__init__.py:389-441 | The event that ends a waiting round first reports it, naming exactly the silent machines and the refusing one, and answers its request: ok:true exactly when it completes the acknowledgements of all awaited machines and none NACKed. |
| `PowerModel.AdvanceClosesUnawaited` | sml/apss/power/__init__.py:319-355 | Starting queued requests closes exactly the longest prefix that waits for nobody (RESUME, or nothing to change once the earlier ones are recorded), each answered ok:true in order with no acknowledgement report; the next one waits for exactly the machines it changes. |
| `PowerModel.AcceptedWhenIdle` | sml/apss/power/__init__.py:302-355 | A request accepted with an empty queue changes some machine; a RESUME is answered ok:true at once, anything else waits for exactly those machines. |
| `PowerModel.TimeoutNamesSomeone` | sml/apss/power/__init__.py:404-441 | A TIMEOUT indication names at least one unresponsive machine and the request is answered ok:false. |
| `PowerModel.ShutdownRefusesAll` | sml/apss/power/__init__.py:286-292 | While a SHUTDOWN heads the queue every request is answered at once with the shutdown refusal and nothing else changes. |
| `PowerModel.NothingJoinsShutdown` | sml/apss/power/__init__.py:283-292 | As long as a SHUTDOWN waits for its answers, whatever is requested, the queue stays as it was. |
| `PowerModel.IntakeOutsideShutdown` | sml/apss/power/__init__.py:294-311 | Outside a shutdown a request whose targets are all due to be in its state already is refused as a duplicate, changing nothing; any other joins the end of a non-empty queue. |
| `PowerModel.AdvancePublishes` | sml/apss/power/__init__.py:319-355 | Starting queued requests publishes for each exactly the state updates of the machines it changes, then its ok:true unless it waits. |
| `PowerModel.ConfirmationIffLocalFailure` | sml/apss/power/__init__.py:443-455 | The event that ends a waiting round arms the local confirmation exactly when somebody was silent or refused and the request concerned the local machine. |
| `PowerModel.BystanderEffects` | sml/apss/power/__init__.py:470-514 | Registry changes, the confirmation, the name query, wakeups and reconnects: what each changes and publishes. |
| `PowerModel.StartsIdle` | sml/apss/power/__init__.py:89-103 | At start-up only the local machine is registered, resumed, and nothing is queued or armed. |
| `PowerSubsystem.Subsystem.constructor` | sml/apss/power/__init__.py:89-103 | Starts in the model's initial state with pending fields clear. |
| `PowerSubsystem.Subsystem.HandleSetState` | sml/apss/power/__init__.py:277-305 | Performs the model's request step; afterwards the pending fields mirror the queue head and the ack timer is armed iff a round is in flight. |
| `PowerSubsystem.Subsystem.ShouldEnqueue` | sml/apss/power/__init__.py:307-311 | True iff some resolved target's scanned state differs from the requested one. |
| `PowerSubsystem.Subsystem.LastQueuedState` | sml/apss/power/__init__.py:313-317 | The loop over the reversed queue computes the scan. |
| `PowerSubsystem.Subsystem.ProcessNextQueued` | sml/apss/power/__init__.py:319-355 | Starts rounds from the head until one waits or the queue is empty; terminates on queue length. |
| `PowerSubsystem.Subsystem.BeginRound` | sml/apss/power/__init__.py:322-350 | Announces the head to the machines it changes and awaits those, or nobody for RESUME. |
| `PowerSubsystem.Subsystem.FinishSetStateRound` | sml/apss/power/__init__.py:410-460 | Closes the round and starts the next ones. |
| `PowerSubsystem.Subsystem.CloseRound` | sml/apss/power/__init__.py:410-458 | Reports, records the requested state whatever the outcome, clears the pending fields, arms the ftimeout for a failed round involving the local machine, pops the head. |
| `PowerSubsystem.Subsystem.ReportRound` | sml/apss/power/__init__.py:411-441 | The acknowledgement status iff somebody was awaited, then the reply, ok iff nobody was silent or refused. |
| `PowerSubsystem.Subsystem.ApplyStateUpdate` | sml/apss/power/__init__.py:462-468 | ALL_MACHINES writes every key of the state map, any other name its resolved target. |
| `PowerSubsystem.Subsystem.RecordAck` | sml/apss/power/__init__.py:389-402 | Performs the model's acknowledgement step, strays ignored. |
| `PowerSubsystem.Subsystem.OnAckTimeout` | sml/apss/power/__init__.py:404-408 | Performs the model's timeout step, also for a stale expiry. |
| `PowerSubsystem.Subsystem.OnFTimeout` | sml/apss/power/__init__.py:470-475 | Rebroadcasts the local machine's recorded state. |
| `PowerSubsystem.Subsystem.ApplyAddMachine` | sml/apss/power/__init__.py:499-506 | Registers a machine, keeping an earlier recorded state. |
| `PowerSubsystem.Subsystem.ApplyRemoveMachine` | sml/apss/power/__init__.py:508-514 | Unregisters a machine, keeping its recorded state. |
| `PowerSubsystem.Subsystem.HandleGetMachineNames` | sml/apss/power/__init__.py:357-362 | Publishes the registered names. |
| `PowerSubsystem.Subsystem.HandleWakeupEvent` | sml/apss/power/__init__.py:368-383 | Relays a wakeup event as an indication. |
| `PowerSubsystem.Subsystem.DoResubscribe` | sml/apss/power/__init__.py:185-197 | A reconnect republishes readiness; queue, round and registry stay. |
| `PowerSubsystem.Subsystem.RunToCompletion` | sml/apss/power/__init__.py:617-657 | Any sequence of the modelled Ready events takes the object where the model's run leads, invariant kept. |
| `EcallModel.StepSound` | sml/mpss/ecall/session.py:346-385 | No event moves the redial index outside its table. |
| `EcallModel.StepPreserves` | sml/mpss/ecall/session.py:127-385 | Whatever every single callback preserves, every event preserves, through all nested state entries. |
| `EcallModel.StepDialMatches` | sml/mpss/ecall/session.py:127-385 | Each state fixes whether the last dial/end event was DIALING or ENDED, and every event keeps that. |
| `EcallModel.NeverActiveAfterEnded` | sml/mpss/ecall/session.py:127-385 | In every event sequence, repeated starts and stale timers included, ALERTING and ACTIVE are published only after a DIALING with no ENDED since. |
| `EcallTheorems.RetriesInOrder` | sml/mpss/ecall/session.py:379-382 | The retries announce willRedial=true and then the next table entry, in table order. |
| `EcallTheorems.LoopCounts` | sml/mpss/ecall/session.py:361-385 | Under anything but a start or hang-up, before its last attempt the redial loop stands at attempt k+1 after k redial timers with exactly the callbacks of k retries. |
| `EcallTheorems.LoopEnds` | sml/mpss/ecall/session.py:361-385 | The last redial timer gives one CALL_CONNECTED if succeedAt lies in the table, otherwise one MAX_REDIAL_ATTEMPTED and PSAPCallback; the redial trace is fixed by (gaps, succeedAt). |
| `EcallTheorems.LoopTraceFixed` | sml/mpss/ecall/session.py:346-385 | From the entry of a loop, whatever happens short of a start, a hang-up or a second drop, the redial callbacks are a function of (gaps, succeedAt) and the number of redial timers. |
| `EcallTheorems.OriginationRedialTrace` | sml/mpss/ecall/session.py:245-385 | The redial callbacks of a whole CALLORIG call from its start, unless hung up: the first delay, then one willRedial=true and the next delay per failed attempt, then one CALL_CONNECTED or MAX_REDIAL_ATTEMPTED, and nothing more ever. |
| `EcallTheorems.CallDropRedialTrace` | sml/mpss/ecall/session.py:212-385 | The same for a CALLDROP call dropped by T2 after any run before it, until it is hung up or dropped again. |
| `EcallTheorems.NoRedialBeforeDrop` | sml/mpss/ecall/session.py:127-231 | Without CALLORIG and before the first drop no run makes any redial callback. |
| `EcallTheorems.RunWaits` | sml/mpss/ecall/session.py:194-337 | For a non-stranding configuration, in every run a session resting in DecodeSendMSD, CRCCheckonMSD or DecodeMSD has its own T5, T7 or T6 expiry outstanding. |
| `EcallTheorems.AwaitedExpiryResumes` | sml/mpss/ecall/session.py:194-211 | Delivering that expiry takes the session to CallConversation. |
| `EcallTheorems.StrandingRun` | sml/mpss/ecall/session.py:245-385 | Every stranding configuration has a run that rests with its timer not running. |
| `EcallTheorems.NeverStrandedIff` | sml/mpss/ecall/session.py:194-385 | Over all event sequences a session is never stranded if and only if its configuration is not a stranding one: custom-number CS call reaching DecodeMSD with T6 forced to fail, or a redial that connects with T5 forced to fail. |
| `EcallTheorems.RedialOffStrandedIff` | sml/mpss/ecall/session.py:319-332 | With redial off some run strands the session if and only if it is a custom-number CS call with an MSD, T7 not failing and T6 forced to fail. |
| `EcallScript.StepFollowsScript` | sml/mpss/ecall/session.py:127-385 | Every event makes exactly the callbacks that a table over configuration and state lists, in order, and leaves the session where the table says; the nested state entries add up to it. |
| `EcallScript.StartPublishes` | sml/mpss/ecall/session.py:245-304 | One start publishes DIALING and ENDED for CALLORIG; otherwise DIALING, ALERTING and then ACTIVE, except for NG without an MSD and for a circuit-switched MSD pulled beforehand. |
| `EcallScript.InProgressShownActive` | sml/mpss/ecall/session.py:245-385 | In every run of a call that is circuit-switched or has an MSD, none having been pulled before its latest start, a call in progress was last shown ACTIVE. |
| `EcallScript.AlwaysShownActiveIff` | sml/mpss/ecall/session.py:267-304 | Over all event sequences a call in progress is always shown ACTIVE if and only if its origination fails first, or it is circuit-switched without an MSD, or NG with one. |
| `EcallSession.Session.constructor` | sml/mpss/ecall/session.py:80-118 | A fresh session in CallConnect that has called back nothing. |
| `EcallSession.Session.Start` | sml/mpss/ecall/session.py:127-131 | Performs the model's start, callbacks in order. |
| `EcallSession.Session.Hangup` | sml/mpss/ecall/session.py:133-162 | Performs the model's hang-up from every state. |
| `EcallSession.Session.MsdPullRequest` | sml/mpss/ecall/session.py:164-182 | Performs the model's MSD pull; the pull flag is set even when it is ignored. |
| `EcallSession.Session.NetworkDeregistrationRequest` | sml/mpss/ecall/session.py:184-192 | Stops T10 in PSAPCallback of a regulatory call, else nothing. |
| `EcallSession.Session.OnHlapTimerExpiry` | sml/mpss/ecall/session.py:194-231 | Performs the model's expiry of any timer in any state. |
| `EcallSession.Session.OnRedialTimerExpiry` | sml/mpss/ecall/session.py:361-385 | Performs the model's redial step. |
| `EcallSession.Session.EnterConnect` | sml/mpss/ecall/session.py:245-265 | Dial, ring, start T2 and T5, go on to DecodeSendMSD; or fail at once into redialing. |
| `EcallSession.Session.EnterDecodeSend` | sml/mpss/ecall/session.py:267-304 | The CS/NG, MSD, custom-number and pull branches of DecodeSendMSD. |
| `EcallSession.Session.EnterCrc` | sml/mpss/ecall/session.py:306-317 | CRC check: through to DecodeMSD or wait for T7. |
| `EcallSession.Session.EnterDecode` | sml/mpss/ecall/session.py:319-337 | Decode: settle in CallConversation or wait for T6. |
| `EcallSession.Session.EnterPsap` | sml/mpss/ecall/session.py:342-344 | PSAPCallback, T9 started for a regulatory call. |
| `EcallSession.Session.EnterRedial` | sml/mpss/ecall/session.py:346-359 | Redialing at attempt 1 with the first delay. |
| `EcallSession.Session.RedialFailed` | sml/mpss/ecall/session.py:377-385 | Next delay, or MAX_REDIAL_ATTEMPTED after the last entry. |
| `EcallManagerModel.StepInv` | sml/mpss/ecall/call_manager.py:283-341 | Every event keeps: a phone without a session has no HLAP or redial timer recorded and all six timers INACTIVE; tabled sessions are reachable ones and not terminal; both redial tables are non-empty. |
| `EcallManagerModel.NoSessionNoTimers` | sml/mpss/ecall/call_manager.py:328-341 | After any run a phone without a session holds nothing and reports all six timers INACTIVE. |
| `EcallManagerModel.DeregistrationFindsSession` | sml/mpss/ecall/call_manager.py:675-691 | A deregistration that is not refused always finds a live session. |
| `EcallManagerModel.EndFrees` | sml/mpss/ecall/call_manager.py:527-547 | An accepted end_ecall, whatever state the session is in, leaves the phone freed and is acknowledged last. |
| `EcallManagerModel.StaysFreed` | sml/mpss/ecall/call_manager.py:697-726 | A freed phone stays freed under every event but its own next start, stale timers and posted starts included. |
| `EcallManagerModel.NextStartAccepted` | sml/mpss/ecall/call_manager.py:477-547 | After an accepted end_ecall and anything short of a start on that phone, the next start_ecall is accepted, never DEVICE_IN_USE. |
| `EcallManagerModel.StepArmed` | sml/mpss/ecall/session.py:199-232 | An event leaves outstanding exactly what was outstanding, minus the delivered expiry, plus the timers its callbacks start. |
| `EcallManagerModel.CallbacksRecord` | sml/mpss/ecall/call_manager.py:291-304 | Acting on callbacks keeps recorded HLAP timers among the outstanding expiries, and each outstanding expiry recorded or posted at once; T5 and T6 are always recorded. |
| `EcallManagerModel.AwaitedExpiryDelivered` | sml/mpss/ecall/call_manager.py:716-720 | Through the manager, the awaited expiry puts a waiting session into CallConversation. |
| `EcallManagerModel.PublishedInOrder` | sml/mpss/ecall/call_manager.py:350-424 | After any run, for every call ever made on any phone, live or gone, the call states published on the wire have ALERTING and ACTIVE only after a DIALING with no ENDED since. |
| `EcallManagerModel.LiveSessionsMakeProgress` | sml/mpss/ecall/call_manager.py:350-424 | After any run the log shows of every live call exactly the states its session reported, in order, and unless stranding it waits only for an outstanding expiry that is recorded or, for T7 with no duration, was posted at once. |
| `EcallManagerLaws.StartCreates` | sml/mpss/ecall/call_manager.py:458-525 | Which call an accepted start_ecall tables, from the request and the settings alone: number, custom-number and NG flags, MSD, forced failures, redial mode and table, fresh state, next index; a busy phone only gets DEVICE_IN_USE. |
| `EcallManagerLaws.DriveHandles` | sml/mpss/ecall/call_manager.py:350-424 | Driving a session publishes exactly the indications of its table's callbacks, in order, under the call's phone and index. |
| `EcallManagerLaws.DeliveredEventsHandled` | sml/mpss/ecall/call_manager.py:697-726 | Posted starts and pulls, PSAP hang-ups and timer expiries are handled by the phone's session as its tables say; without one only the handle goes. |
| `EcallManagerLaws.UserHangupReleases` | sml/mpss/ecall/call_manager.py:702-709 | A user's hang-up shows what the PSAP's does and releases the phone. |
| `EcallManagerLaws.EndAnswered` | sml/mpss/ecall/call_manager.py:527-547 | end_ecall is refused without a call of that index, changing nothing; otherwise the hang-up is shown, the phone freed and the request answered last. |
| `EcallManagerLaws.StatusFollowsCallbacks` | sml/mpss/ecall/call_manager.py:350-424 | After any run the timers reported ACTIVE are exactly those the live call's session last said run; a phone without a call reports none. |
| `EcallManagerLaws.StartTimerSchedules` | sml/mpss/ecall/call_manager.py:283-304 | Starting a timer marks it active and schedules its expiry after its length, or posts it at once if that is nothing. |
| `EcallManagerLaws.StartRedialSchedules` | sml/mpss/ecall/call_manager.py:306-319 | A redial delay likewise. |
| `EcallManagerLaws.CallbackWindowEnds` | sml/mpss/ecall/call_manager.py:716-720 | T9 ends the callback window: in eCall-only mode the call stays with T10 started, otherwise the phone is freed. |
| `EcallManagerLaws.PullPosted` | sml/mpss/ecall/call_manager.py:566-576 | send_msd posts a pull iff the phone has a call. |
| `EcallManagerLaws.DeregistrationStopsT10` | sml/mpss/ecall/call_manager.py:675-691 | A deregistration is refused unless T9 is over and T10 runs, and stops T10 of a call waiting in its window. |
| `EcallManagerLaws.SettingEffects` | sml/mpss/ecall/call_manager.py:578-651 | Which event changes which setting, field by field; every other event keeps them all. |
| `EcallManagerLaws.RequestsAnswered` | sml/mpss/ecall/call_manager.py:551-673 | What each reading or setting request is answered with. |
| `EcallManager.Manager.constructor` | sml/mpss/ecall/call_manager.py:121-142 | Empty tables, default durations and redial tables. |
| `EcallManager.Manager.ClearCallSlot` | sml/mpss/ecall/call_manager.py:328-341 | Drops the session, each of the six timer handles, the redial handle and the statuses of one phone, nothing else. |
| `EcallManager.Manager.OnCallback` | sml/mpss/ecall/call_manager.py:350-424 | The manager's side of each session callback. |
| `EcallManager.Manager.ScheduleHlapExpiry` | sml/mpss/ecall/call_manager.py:291-304 | Records a handle for a positive duration, posts the expiry at once otherwise. |
| `EcallManager.Manager.ScheduleRedialExpiry` | sml/mpss/ecall/call_manager.py:306-319 | The same for the redial timer. |
| `EcallManager.Manager.HandleStartEcall` | sml/mpss/ecall/call_manager.py:477-525 | DEVICE_IN_USE iff a session that is neither in PSAPCallback nor terminal is tabled; otherwise a fresh session under the next index. |
| `EcallManager.Manager.HandleEndEcall` | sml/mpss/ecall/call_manager.py:527-547 | Performs the model's end step. |
| `EcallManager.Manager.HandleSendMsd` | sml/mpss/ecall/call_manager.py:566-576 | Refused without a session, otherwise posts the pull. |
| `EcallManager.Manager.HandleRequestNetworkDeregistration` | sml/mpss/ecall/call_manager.py:675-691 | Accepted iff T9 is inactive and T10 active, then delivered to the session. |
| `EcallManager.Manager.HandleRequestHlapTimerStatus` | sml/mpss/ecall/call_manager.py:665-673 | Reports the active timers of a phone. |
| `EcallManager.Manager.AnswerQuery` | sml/mpss/ecall/call_manager.py:267-276 | The reading requests, the always refused answer_ecall and the republishing of readiness change nothing but what is published. |
| `EcallManager.Manager.HandleConfigureEcallRedial` | sml/mpss/ecall/call_manager.py:600-612 | Replaces a redial table iff its length is in bounds (1-10 or 1-2). |
| `EcallManager.Manager.ApplySetting` | sml/mpss/ecall/call_manager.py:578-651 | Each configuration request or control action changes its own setting only and is answered, an operating mode with its indication too. |
| `EcallManager.Manager.RunSessionHangup` | sml/mpss/ecall/call_manager.py:702-709 | A user hang-up releases the slot, a PSAP one does not. |
| `EcallManager.Manager.RunHlapTimerExpiry` | sml/mpss/ecall/call_manager.py:716-720 | Pops the handle, then delivers the expiry to the session if any. |
| `EcallManager.Manager.RunRedialTimerExpiry` | sml/mpss/ecall/call_manager.py:722-726 | Pops the handle, then delivers the redial expiry if any. |
| `EcallManager.Manager.RunToCompletion` | sml/mpss/ecall/call_manager.py:823-868 | Any sequence of Ready events takes the object where the model's run leads, invariant kept. |
| `Addressing.DecimalParses` | sml/mpss/data/connection.py:81-81 | Parsing the decimal text of a number gives the number. |
| `Addressing.PoolNameIndex` | sml/mpss/data/connection.py:945-948 | The index read back from a pool-generated name is the one it was made from. |
| `Addressing.ForeignNameIsZero` | sml/mpss/data/connection.py:945-948 | A name without the pool's prefix, or with no number after it, counts as bearer 0. |
| `Addressing.PassedThrough` | sml/mpss/data/connection.py:94-112 | Text that is no address and an address that would overflow are passed on unchanged. |
| `Addressing.BearersInDifferentBlocks` | sml/mpss/data/connection.py:94-122 | Different indices give different /24 (IPv4) or /64 (IPv6) blocks when no address overflows. |
| `Addressing.OnLinkPreservedIff` | sml/mpss/data/connection.py:114-122 | For all seeds and non-overflowing bearers the gateway is on-link exactly when the seed's was, if and only if the prefix is at least /24 (/64) or is /0. |
| `Addressing.ShortPrefixBreaksOnLink` | sml/mpss/data/connection.py:114-122 | For every shorter non-zero prefix, a seed whose gateway is off-link on bearer 1. |
| `DataCallModel.AllocateFree` | sml/mpss/data/connection.py:74-85 | An allocated name was free; an unnamed request fails iff every pool name is taken. |
| `DataCallModel.FirstFreeSpec` | sml/mpss/data/connection.py:80-85 | The allocated pool name is the lowest-numbered free one. |
| `DataCallModel.StepInv` | sml/mpss/data/connection.py:625-696 | Every event keeps: in-use set = names in the call table, names distinct, tabled calls CONNECTING, CONNECTED or DISCONNECTING, addresses those of the bearer, a technology exactly once connected. |
| `DataCallModel.PoolMatchesTable` | sml/mpss/data/connection.py:758-987 | The same in every reachable state, stale and spurious connect/disconnect timers included. |
| `DataCallModel.NoResourcesIffPoolTaken` | sml/mpss/data/connection.py:649-657 | An unnamed start of a new call fails with NO_RESOURCES iff every pool name is held by some call. |
| `DataCallModel.StopPublishes` | sml/mpss/data/connection.py:678-696 | Stopping publishes DISCONNECTING iff the call had connected; a CONNECTING call stays CONNECTING. |
| `DataCallModel.RemovalPublishes` | sml/mpss/data/connection.py:758-769 | A call leaves the table only by its own forced drop or disconnect timer; its last indication is NO_NET iff it was dropped or was DISCONNECTING, otherwise the status it had. |
| `DataCallModel.StoppedWhileConnecting` | sml/mpss/data/connection.py:975-987 | A run whose call, stopped before it connected, is last seen CONNECTING. |
| `DataCallModel.ConnectConnects` | sml/mpss/data/connection.py:929-973 | The connect timer turns a CONNECTING call, and only that, into a CONNECTED one with addresses of exactly the families it asked for, and publishes it; in any other status it changes nothing. |
| `DataCallModel.ConnectAddresses` | sml/mpss/data/connection.py:940-968 | A bearer on a pool name gets the seed's address and gateway moved by its index times 256, or 2^64, unless they overflow. |
| `DataCallModel.BearerTechs` | sml/mpss/data/connection.py:48-56 | The bearer technology shown for each network technology. |
| `DataCallModel.StartNewCall` | sml/mpss/data/connection.py:649-676 | A start of a new call: refused iff the requested name is held or no pool name is left; otherwise CONNECTING on the requested or the lowest free pool name, answered and published. |
| `DataCallModel.StartAgain` | sml/mpss/data/connection.py:632-647 | A start of a profile that has a call changes nothing: in progress, mismatched name, or the same answer again. |
| `DataCallModel.RemovesCall` | sml/mpss/data/connection.py:758-769 | A forced drop and a disconnect timer take the call out and free its name. |
| `DataCallModel.StopTouchesOne` | sml/mpss/data/connection.py:678-696 | A stop without a call is refused; a stop of a call touches no other. |
| `DataCallModel.OrdinaryCall` | sml/mpss/data/connection.py:625-987 | A call started, connected, stopped and disconnected is published CONNECTING, CONNECTED, DISCONNECTING, NO_NET and leaves nothing behind. |
| `DataCallModel.ResubscribeTearsNothingDown` | sml/mpss/data/connection.py:601-619 | A reconnect only republishes readiness. |
| `DataCallModel.LiveBearersDistinct` | sml/mpss/data/connection.py:929-973 | After any run two live bearers on pool names are in different blocks unless an address overflows. |
| `DataCallModel.LiveGatewayOnLink` | sml/mpss/data/connection.py:940-968 | After any run a live bearer's gateway is on-link iff the seed's was, for prefixes from /24 (/64) up and for /0. |
| `DataConnection.IfnamePool.Allocate` | sml/mpss/data/connection.py:74-85 | The loop finds the lowest-numbered free pool name, or grants a free requested one, and marks only it. |
| `DataConnection.IfnamePool.Release` | sml/mpss/data/connection.py:87-88 | Takes exactly that name out of the in-use set. |
| `DataConnection.CallSession.OnConnected` | sml/mpss/data/connection.py:210-214 | Stores the addresses and the bearer technology; the status moves only from CONNECTING. |
| `DataConnection.CallSession.BeginDisconnecting` | sml/mpss/data/connection.py:219-221 | Clean-stop reason; the status moves only from CONNECTED. |
| `DataConnection.CallSession.Disconnected` | sml/mpss/data/connection.py:223-225 | Clears the bearer technology; the status moves only from DISCONNECTING. |
| `DataConnection.CallSession.ForceDrop` | sml/mpss/data/connection.py:227-230 | Network-drop reason, bearer technology cleared; any live status becomes NO_NET. |
| `DataConnection.Connections.HandleStart` | sml/mpss/data/connection.py:625-676 | Performs the model's start, all refusals included. |
| `DataConnection.Connections.HandleStop` | sml/mpss/data/connection.py:678-696 | Performs the model's stop. |
| `DataConnection.Connections.ApplyForceCallDrop` | sml/mpss/data/connection.py:758-769 | Performs the model's forced drop. |
| `DataConnection.Connections.OnConnectTimer` | sml/mpss/data/connection.py:929-973 | Performs the model's connect, ignored unless CONNECTING. |
| `DataConnection.Connections.OnDisconnectTimer` | sml/mpss/data/connection.py:975-987 | Performs the model's disconnect, whatever the status. |
| `DataConnection.Connections.DoResubscribe` | sml/mpss/data/connection.py:601-619 | A reconnect republishes readiness; calls and pool stay. |
| `DataConnection.Connections.RunToCompletion` | sml/mpss/data/connection.py:1176-1232 | Any sequence of the modelled Ready events takes the object where the model's run leads, invariant kept. |
| `Timeline.StageSorts` | sml/runtime/scenario_runner.py:158-164 | Staging sorts by time and keeps every step. |
| `Timeline.StageStable` | sml/runtime/scenario_runner.py:163-163 | Steps at one time keep their file order. |
| `Timeline.StageUnique` | sml/runtime/scenario_runner.py:163-163 | Any sorted sequence with the same steps in the same order at each time is the staged timeline. |
| `Timeline.FilterCommutesWithStage` | sml/runtime/scenario_runner.py:147-164 | Filtering then stable-sorting equals stable-sorting then filtering. |
| `Timeline.StagedPartIsPartOfStaged` | sml/runtime/loader.py:275-288 | What a process stages is its part of the global staged timeline, in global order; without an entry, all of it. |
| `Timeline.ProcessesPartitionTimeline` | sml/runtime/loader.py:275-288 | Any number of processes with disjoint domains covering the timeline hold every step exactly once between them, each in global order. |
| `ScenarioModel.StepOnInv` | sml/runtime/scenario_runner.py:424-545 | Every event keeps the position invariant, never moves clock or dispatches back, and changes nothing once Done. |
| `ScenarioModel.PlayedPrefix` | sml/runtime/scenario_runner.py:266-545 | Under any interleaving: dispatched = timeline[..next_idx], earlier times <= clock <= later times, the armed delay is the true distance (the clamp never acts), monotone, final once Done. |
| `ScenarioModel.StepsAdd` | sml/runtime/scenario_runner.py:300-314 | step(m) then step(n) equals step(m+n), executed counts adding. |
| `ScenarioModel.SeeksCompose` | sml/runtime/scenario_runner.py:316-329 | seek(a) then seek(b) equals seek(max(a,b)). |
| `ScenarioModel.SeekIsSteps` | sml/runtime/scenario_runner.py:316-329 | A forward seek is single steps up to the target followed by a clock set, and fires exactly the steps due by then. |
| `ScenarioModel.DueFromSpec` | sml/runtime/scenario_runner.py:324-327 | The steps a seek fires are those not later than its target. |
| `ScenarioModel.AutoplayStep` | sml/runtime/scenario_runner.py:461-477 | A StepDue while running executes exactly the next step and publishes progress, then arms the next or is done after the last. |
| `ScenarioModel.AutoplayCompletes` | sml/runtime/scenario_runner.py:424-477 | Started and left alone, a scenario dispatches its whole staged timeline in order and is done. |
| `ScenarioModel.PhasesFollowed` | sml/runtime/scenario_runner.py:424-545 | Which state each event leads to. |
| `ScenarioModel.SteeringEffects` | sml/runtime/scenario_runner.py:424-545 | Start, stop, pause, resume, abort and reconnect play nothing; what each publishes and posts. |
| `ScenarioModel.StepRequestEffects` | sml/runtime/scenario_runner.py:300-373 | A step request executes the next n steps or as many as are left, answers how many, and posts a stop at the end. |
| `ScenarioModel.SeekRequestEffects` | sml/runtime/scenario_runner.py:316-384 | A forward seek request executes exactly the steps due by its target and sets the clock; a backward one plays nothing. |
| `ScenarioRunner.Runner.constructor` | sml/runtime/scenario_runner.py:152-154 | Loaded: staged timeline, index 0, clock 0, idle. |
| `ScenarioRunner.Runner.ScheduleNextStepDue` | sml/runtime/scenario_runner.py:266-280 | Re-arms StepDue for the next step, nothing past the end. |
| `ScenarioRunner.Runner.DoStepSync` | sml/runtime/scenario_runner.py:300-314 | The loop executes min(n, remaining) steps and reports how many. |
| `ScenarioRunner.Runner.DoSeekSync` | sml/runtime/scenario_runner.py:316-329 | The loop fires the due steps and sets the clock; backward seeks do nothing. |
| `ScenarioRunner.Runner.RpcStep` | sml/runtime/scenario_runner.py:358-373 | Step request: answer, then stop at the end or re-arm. |
| `ScenarioRunner.Runner.RpcSeek` | sml/runtime/scenario_runner.py:375-384 | Seek request: answer, then stop at the end or re-arm. |
| `ScenarioRunner.Runner.OnStepDue` | sml/runtime/scenario_runner.py:461-477 | Executes one step and re-arms or finishes. |
| `ScenarioRunner.Runner.DoResubscribe` | sml/runtime/scenario_runner.py:234-258 | A reconnect republishes progress under the label of the live state; position and timer stay. |
| `ScenarioRunner.Runner.Handle` | sml/runtime/scenario_runner.py:424-545 | The four states' reactions to every event. |
| `ScenarioRunner.Runner.Play` | sml/runtime/scenario_runner.py:424-545 | Any interleaving takes the object where the model's run leads, invariant kept. |
| `SimModel.PublishCardStateAgrees` | sml/mpss/sim/card.py:305-309 | Publishing the card state brings event-fed and queried identity into agreement, whatever changed before. |
| `SimModel.HotswapSequence` | sml/mpss/sim/action_dispatcher.py:43-73 | A hotswap emits exactly three card states and then one identity, the new one, last, from any state. |
| `SimModel.ResubscribeAgrees` | sml/mpss/sim/subscription.py:193-210 | A resubscribe sends the visible identity again, deduplication notwithstanding. |
| `SimModel.EventsAgreeWithQueries` | sml/mpss/sim/subscription.py:100-151 | After any operations the last identity event is what get_iccid/get_imsi return: the provisioned identity iff PRESENT and READY, else empty. |
| `SimModel.StartedInv` | sml/mpss/sim/__init__.py:182-190 | Agreement holds once start-up has wired the two objects. |
| `SimModel.PowerEffects` | sml/mpss/sim/card.py:128-187 | Power makes an inserted card PRESENT, READY only if on, keeps an absent one ABSENT, and shows the identity iff readable. |
| `SimModel.SetPowerEffects` | sml/mpss/sim/card.py:281-297 | A power request does that after its answer; one for another slot does nothing. |
| `SimModel.ForcedEffects` | sml/mpss/sim/card.py:114-126 | A forced state is taken as given, the other kept; PRESENT and READY means powered. |
| `SimModel.StartedEffects` | sml/mpss/sim/__init__.py:179-190 | At start-up the card is inserted iff there is an identity, and what both objects announce. |
| `SimModel.ResubscribeEffects` | sml/mpss/sim/card.py:229-245 | A reconnect shows the card and then the identity once more, each before its readiness. |
| `SimModel.OtherSlotRefused` | sml/mpss/sim/subscription.py:229-265 | An identity query for another slot is refused. |
| `SimSubsystem.Subscription.PublishIdentity` | sml/mpss/sim/subscription.py:276-290 | Sends the identity unless it is the one last sent. |
| `SimSubsystem.Subscription.SetCardAvailable` | sml/mpss/sim/subscription.py:110-117 | Sets visibility; publishes the visible identity unless a hotswap is in progress. |
| `SimSubsystem.Sim.constructor` | sml/mpss/sim/__init__.py:179-190 | Creates and starts both objects and connects the callback. |
| `SimSubsystem.Sim.ForceCardState` | sml/mpss/sim/card.py:114-126 | Performs the model's forced state. |
| `SimSubsystem.Sim.ForcePower` | sml/mpss/sim/card.py:128-132 | Performs the model's forced power. |
| `SimSubsystem.Sim.ApplyPowerState` | sml/mpss/sim/card.py:159-187 | Presence and power as independent axes. |
| `SimSubsystem.Sim.HandleSetPower` | sml/mpss/sim/card.py:281-297 | Refused for another slot; otherwise response, then the card state. |
| `SimSubsystem.Sim.PublishCardState` | sml/mpss/sim/card.py:305-309 | Indication, then the availability callback. |
| `SimSubsystem.Sim.ReseatCard` | sml/mpss/sim/action_dispatcher.py:61-69 | Remove, insert, ready with identity indications held back. |
| `SimSubsystem.Sim.Hotswap` | sml/mpss/sim/action_dispatcher.py:43-73 | Performs the model's hotswap on both objects. |
| `SimSubsystem.Sim.Resubscribe` | sml/mpss/sim/card.py:229-245 | Both objects republish, the card first. |
| `SimSubsystem.Sim.HandleGetIccid` | sml/mpss/sim/subscription.py:229-246 | Answers with the visible ICCID, refused for another slot. |
| `SimSubsystem.Sim.HandleGetImsi` | sml/mpss/sim/subscription.py:248-265 | Answers with the visible IMSI, refused for another slot. |
| `ProfileModel.ReloadRoundTrip` | sml/mpss/data/profile.py:229-260 | Reloading the snapshot of a store gives its profiles and defaults. |
| `ProfileModel.ReloadRestoresAnyRun` | sml/mpss/data/profile.py:114-260 | With successful writes, after seeding and any operations and reloads, a reload gives exactly the in-memory profiles and defaults. |
| `ProfileModel.FailedWriteKeepsSnapshot` | sml/mpss/data/profile.py:241-244 | A failed write leaves the previous snapshot. |
| `ProfileModel.RunInv` | sml/mpss/data/profile.py:114-260 | After any operations and reloads, written or not, every default names an existing profile and every profile sits under its id, in memory and in what a reload would bring. |
| `ProfileModel.DiskIsLastWrite` | sml/mpss/data/profile.py:229-260 | Whatever writes failed in between, the disk holds the snapshot of the store at the last successful write, and a reload brings exactly that store back. |
| `ProfileModel.AnyListingLoads` | sml/mpss/data/profile.py:256-258 | A snapshot without repeated ids loads the same in whatever order the file lists it. |
| `ProfileModel.StepOnDisk` | sml/mpss/data/profile.py:162-227 | A successful change is on disk; a refused one changes nothing. |
| `ProfileModel.FreeIdExists` | sml/mpss/data/profile.py:174-179 | With fewer than 32 profiles, whatever their ids, an id in 1..32 is free: the second NO_RESOURCES branch is unreachable. |
| `ProfileModel.CreateReturnsLeastFree` | sml/mpss/data/profile.py:171-195 | Create fails iff 32 profiles exist; otherwise it returns the least free id in 1..32 and adds only that profile. |
| `ProfileModel.CreateEffects` | sml/mpss/data/profile.py:171-195 | A created profile has the given fields, blank ones otherwise, and becomes nobody's default. |
| `ProfileModel.ModifyEffects` | sml/mpss/data/profile.py:197-217 | A modify changes only the named profile and of it only the given fields; an unknown one is refused. |
| `ProfileModel.DeleteEffects` | sml/mpss/data/profile.py:219-227 | A delete removes the named profile and exactly the defaults naming it; an unknown one is refused. |
| `ProfileModel.SetDefaultEffects` | sml/mpss/data/profile.py:162-169 | A default is set for its operation only, and only to an existing profile. |
| `ProfileModel.SeedEffects` | sml/mpss/data/profile.py:114-129 | Every seed is stored field by field, later ones winning, other profiles kept, the last flagged one the default for local data. |
| `ProfileModel.LastListedLoads` | sml/mpss/data/profile.py:256-258 | Of the profiles a file lists under one id the last is loaded. |
| `ProfileStore.Store.Seed` | sml/mpss/data/profile.py:114-129 | The loop stores every seed in order, later ids winning, and records the default. |
| `ProfileStore.Store.SetDefault` | sml/mpss/data/profile.py:162-169 | Refused for an unknown profile. |
| `ProfileStore.Store.Create` | sml/mpss/data/profile.py:171-195 | The scan finds the least free id. |
| `ProfileStore.Store.Modify` | sml/mpss/data/profile.py:197-217 | Absent fields keep their value, the default flag too. |
| `ProfileStore.Store.Delete` | sml/mpss/data/profile.py:219-227 | Removes the profile and every default that named it. |
| `ProfileStore.Store.MaybePersist` | sml/mpss/data/profile.py:229-244 | Overwrites the snapshot iff the write succeeds. |
| `ProfileStore.Store.Load` | sml/mpss/data/profile.py:246-260 | Replaces the contents iff a file exists; of profiles with one id the last counts. |
| `ProfileStore.Restart` | sml/mpss/data/profile.py:246-260 | A fresh store that loads another's file, in whatever order it was written, holds what the other last wrote. |
| `MqttModel.StepLifecycle` | sml/common/mqtt_client.py:518-714 | Every event keeps the subsystem call counts and the timer handles tied to the state. |
| `MqttModel.LifecycleHolds` | sml/common/mqtt_client.py:177-254 | In every run each subsystem is started once on the first Operational entry, resubscribed on each later one if it can be, stopped at most once; each timer handle is set exactly in its own state. |
| `MqttModel.StoppingIsFinal` | sml/common/mqtt_client.py:686-714 | Stopping is never left. |
| `MqttModel.StopsOnlyAfterStart` | sml/common/mqtt_client.py:245-254 | A subsystem's stop always comes after its start. |
| `MqttModel.DelaysFollowFailures` | sml/common/mqtt_client.py:375-408 | In every run the k-th consecutive failure since the last clean CONNACK schedules min(floor(initial*multiplier^(k-1)), max). |
| `MqttModel.BackoffGrowsToCap` | sml/common/mqtt_client.py:394-408 | Delays of a streak start at min(initial, max), never shrink and never exceed max. |
| `MqttModel.DropRestartsBackoff` | sml/common/mqtt_client.py:549-591 | An established link's drop schedules min(initial, max) again. |
| `MqttModel.PhasesFollowed` | sml/common/mqtt_client.py:518-714 | Which state each event leads to; an event that leads nowhere changes nothing. |
| `MqttModel.FailureCounted` | sml/common/mqtt_client.py:549-591 | A refused CONNACK, a lost link and a connection timeout count one failure and schedule its delay. |
| `MqttModel.ConnectionCalls` | sml/common/mqtt_client.py:177-243 | A clean CONNACK forgets the failures and starts every subsystem, or resubscribes those that can be, each once, in order of registration. |
| `MqttModel.StopCalls` | sml/common/mqtt_client.py:245-254 | A stop clears both timers and stops every started subsystem, each once, last registered first. |
| `MqttModel.AttemptArms` | sml/common/mqtt_client.py:518-560 | A connection attempt arms its timeout iff one is configured. |
| `MqttClient.Client.StartSubAos` | sml/common/mqtt_client.py:177-219 | Starts each subsystem in order, once. |
| `MqttClient.Client.ResubscribeSubAos` | sml/common/mqtt_client.py:221-243 | Resubscribes each subsystem in order, passing over those without the operation. |
| `MqttClient.Client.StopSubAos` | sml/common/mqtt_client.py:245-254 | Stops each subsystem in reverse order, once. |
| `MqttClient.Client.ComputeNextDelay` | sml/common/mqtt_client.py:394-408 | The capped exponential delay for the recorded failures. |
| `MqttClient.Client.Handle` | sml/common/mqtt_client.py:518-714 | The flattened chart's reaction to every event. |
| `MqttClient.Client.RunAll` | sml/common/mqtt_client.py:518-714 | Any run from start-up takes the object where the model's run leads, lifecycle and timers as stated. |

## Left out

- The Off, Starting and Stopping states of the Active Objects, deferral of events until Ready, and the event queue of the miros library: each chart is its flattened Ready behaviour (the MQTT chart and the four states of the scenario runner are modelled whole). Stopping the eCall manager clears its tables but not its timer statuses, and stopping the data manager clears its table but not its pool; nothing can be asked of either afterwards.
- JSON, schema validation, envelopes, correlation of events, logging, sockets and threads: requests arrive as typed values and a refused payload is not an event.
- Timer handles are recorded as present or absent; the library's timer identifiers and its cancellation are not modelled, so every scheduled expiry may still arrive.
- Order inside one indication: the per-machine state updates of one request, and the sorted name lists of power messages, are sets here.
- eCall callbacks are appended to the session's own record and acted on by the manager right after the session method returns, not in the middle of it; the session reads nothing back from the manager except the operating mode, which is passed in.
- Settings of the eCall configuration that no call reads (audio muting, canned MSD, GNSS interval, MSD version) are not stored or reported.
- DataConnection.Connections.RunToCompletion: leaves out the list, bitrate, throughput, QoS, throttle, DNS and radio-technology events of Ready, which read or set fields outside the call table and the pool.
- PowerSubsystem.Subsystem.RunToCompletion: leaves out the two events that freeze and thaw the system's cgroup, which touch no field; the fields of a wakeup event are one value.
- Wall-clock time and rounding: timeline times, the virtual clock and the backoff base are exact reals; the wire truncates published times to whole milliseconds.
- Parsing of timeline `at` strings: steps carry their time in milliseconds, not negative.
- Addressing.ParseInt: accepts plain decimal digits with an optional sign; Python also accepts blanks and underscores, which pool-generated names never contain.
- Addressing.OnLinkPreservedIff: subnet masks appear as prefix lengths; the text form of masks and addresses is not parsed.
- MqttModel.DelaysFollowFailures: states the delays without jitter, for a non-negative initial delay and a multiplier of at least 1, as the configuration defaults have them.
- MqttClient.Client.ComputeNextDelay: does not apply jitter, which is random.
- EcallManagerModel.LiveSessionsMakeProgress: a T7 whose configured duration is nothing is posted at once instead of being recorded, and the posted event is not tracked further.
- Paho callbacks, publishing and message routing of the MQTT client; `ip` and `sysctl` calls for dummy interfaces; cgroup freezing.
- Network tables (`sml/mpss/net`), radio, serving-system and wakeup objects, action dispatchers other than the SIM hotswap, configuration models, command-line tools and the C/C++ stubs: keyed tables, routing and I/O that would add only easy members.
