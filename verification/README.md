# ProxySwitch and ProxiFyre: what their state machines keep

ProxySwitch is a desktop program that launches other programs and sends their traffic through
proxies. ProxiFyre is the service that does the routing. This project models the parts of the two
that carry state, arithmetic or interleaving, and proves what holds of them over all inputs, all
states and all runs. `dafny verify dfyconfig.toml` checks everything.

| file | what it models |
|---|---|
| `OnesComplement.dfy`, `Checksums.dfy` | the checksum routines over a mutable packet buffer, against RFC 1071, RFC 791, RFC 793, RFC 792 and RFC 768 |
| `HandleTable.dfy` | the WOW64 table of 32 adapter handles, its eviction search, its lookups, and the filter tables that pass through it |
| `SessionRegistry.dfy` | the session route server and the router's PID table |
| `IpcRecovery.dfy` | the client's interleaved tasks that add PIDs, notice a lost session, create it anew and replay, with service restarts and lost replies |
| `RecoveryEffects.dfy` | the same protocol by effects: when tasks end, what changes a status, a lock, the server |
| `SequentialRecovery.dfy` | one recovery that runs through without interruption, and a proof that the interleaved steps do the same when nothing interferes |
| `SessionLifecycle.dfy` | the life of a session: exits, merges, monitor, grace timers, correlated handoff, stop |
| `SessionEffects.dfy` | the same life by effects: what each event does to processes, status, timers, dialogs and handoffs |
| `Ancestry.dfy` | the walks over the process table, and the tracking loop above them |
| `Text.dfy`, `AppIdentity.dfy`, `RouteTable.dfy` | route keys, the route table, its owners, and the import |
| `BackendConfig.dfy` | the service config as the client builds it and the service reads it |
| `Sets.dfy`, `Wrappers.dfy` | small helpers |

How things are put. Code that changes state in place is a class, an array method or a loop, proved
against a function of the old state; the properties are lemmas about these functions, and hold of the
objects through these contracts (`LaunchSession.PerformAll` does so for whole runs). Protocols are
state machines: a step is one request under the server's lock, one handler, or one segment of a task
between two awaits. What a program learns from outside (the router's answer, whether a reply arrives,
which processes are dead, what a snapshot shows) is an argument of the step or of the method, so that
a lemma speaks about every such outcome. Case folding, file names, package lookup and the name the
service matches a program by are functions given as arguments. The two state machines are described
twice, by handlers as the code has them and by effects on each part of the state, and the two
descriptions are proved to agree.

Where the code does something other than its comments or a standard say, the model follows the code,
and a lemma says exactly when the promise holds:

* UDP checksums that come out as zero are stored as zero; RFC 768 asks for all ones (`StoredFieldZero`, `AllOnesNotSubstituted`).
* A createSession for a session that is open drops its PIDs from the registry but not from the router (`OrphansExact`, `RecoveryOrphans`).
* An externally started session probes the pipe twice, and can show an active route that nothing has acknowledged (`AttachOpensHonestly`, `DishonestAttach`).
* A stop can be undone by a handoff in its last await, after which the code does not look at the status again, or by a dialog; otherwise it lasts, also when it falls in the handoff's delay (`OnlyHandoffsRevive`, `StopIsUndone`, `StopLastsIff`).
* A grace window can end early (`FullWindowIff`). Grace periods that are negative or above 4294967 seconds are refused by the delay, no timer is set, and a session that is left alone then waits without end unless an older timer is pending (`GraceEndsIff`, `RefusedGraceWaitsForever`).
* The rollback of a failed launch takes away a route that was there before (`RollbackExact`).
* Route keys of two different proxies can coincide, exactly when one proxy id with a colon after it begins the other (`ProxiesCollideIff`, `KeysCollide`).

## Model

| member | source | states |
|---|---|---|
| OnesComplement.FoldCarries | ProxiFyre/ndisapi/ndisapi.cpp:3150-3152 | the carry-folding loop ends, keeps the value modulo 65535, and gives 0 only for 0 |
| OnesComplement.DeferredCarries | ProxiFyre/ndisapi/ndisapi.cpp:3144-3152 | deferring the carries computes the same word as adding with end-around carry, for any number of words (section 2 of RFC 1071) |
| OnesComplement.AccumulatorFits | ProxiFyre/ndisapi/ndisapi.cpp:3240-3259 | for every 16-bit segment length the 32-bit accumulator with the pseudo-header on top never wraps |
| OnesComplement.ComplementVerifies | ProxiFyre/ndisapi/ndisapi.cpp:3150-3155 | a sum plus the complement of its folded value folds to all ones |
| OnesComplement.ResidueSeparates | ProxiFyre/ndisapi/ndisapi.cpp:3144-3152 | two sums that differ in one word fold alike if and only if the words are equal or are 0x0000 and 0xFFFF over a non-zero rest |
| Checksums.SumWords | ProxiFyre/ndisapi/ndisapi.cpp:3194-3198 | the summing loop stays in bounds, including the padding byte, and its 32-bit accumulator holds the exact sum |
| Checksums.PadAndClear | ProxiFyre/ndisapi/ndisapi.cpp:3181-3191 | start and 32-bit length of the segment as the headers give them, an odd segment is padded in bounds, and the checksum field is cleared |
| Checksums.AddPseudoHeader | ProxiFyre/ndisapi/ndisapi.cpp:3251-3257 | adds both addresses, the protocol number and the length without wrapping |
| Checksums.RecalculateIPChecksum | ProxiFyre/ndisapi/ndisapi.cpp:3132-3159 | the frame afterwards, for every frame: in-bounds whatever the header length field holds |
| Checksums.RecalculateICMPChecksum | ProxiFyre/ndisapi/ndisapi.cpp:3166-3207 | the frame afterwards; another protocol is left alone |
| Checksums.RecalculateTCPChecksum | ProxiFyre/ndisapi/ndisapi.cpp:3214-3264 | the frame afterwards; another protocol is left alone |
| Checksums.RecalculateUDPChecksum | ProxiFyre/ndisapi/ndisapi.cpp:3274-3320 | the frame afterwards; another protocol is left alone |
| Checksums.StaysInsideIff | ProxiFyre/ndisapi/ndisapi.cpp:3181-3197 | all bytes that are padded and summed lie inside the frame exactly when the datagram fits it and is no shorter than its header, or shorter by the one byte whose length wraps around to nothing |
| Checksums.OnlyFieldAndPaddingChange | ProxiFyre/ndisapi/ndisapi.cpp:3166-3320 | only the two checksum bytes change and, for odd lengths, the byte after the datagram, which becomes zero |
| Checksums.RecalculatedVerifies | ProxiFyre/ndisapi/ndisapi.cpp:3166-3320 | every well-formed ICMP, TCP and UDP packet afterwards adds up to 0xFFFF over its padded segment, with the pseudo-header for TCP and UDP |
| Checksums.RecalculatedIdempotent | ProxiFyre/ndisapi/ndisapi.cpp:3166-3320 | a second recalculation changes nothing |
| Checksums.OldFieldIrrelevant | ProxiFyre/ndisapi/ndisapi.cpp:3166-3320 | the result does not depend on what the field held |
| Checksums.StoredFieldZero | ProxiFyre/ndisapi/ndisapi.cpp:3309-3319 | the stored field is 0x0000 exactly when the non-zero sum is a multiple of 65535, and never 0xFFFF for TCP and UDP |
| Checksums.AllOnesNotSubstituted | ProxiFyre/ndisapi/ndisapi.cpp:3315-3319 | a well-formed UDP packet, with a UDP length of 8, that is given a zero checksum, against RFC 768 |
| Checksums.OneWordChange | ProxiFyre/ndisapi/ndisapi.cpp:3166-3320 | a change of one summed payload or address word goes unnoticed exactly when it swaps 0x0000 and 0xFFFF over a non-zero rest |
| Checksums.IpRecalculatedVerifies | ProxiFyre/ndisapi/ndisapi.cpp:3132-3159 | every IP header of at least 20 bytes afterwards adds up to 0xFFFF |
| Checksums.IpRecalculatedStable | ProxiFyre/ndisapi/ndisapi.cpp:3132-3159 | only the header checksum changes; idempotent and independent of its old value |
| Checksums.TcpOnTheWire | ProxiFyre/ndisapi/ndisapi.cpp:3214-3264 | by byte offsets and numbers alone: segment, four address words, protocol 6 and length add up to 0xFFFF, and only bytes 16 and 17 of the TCP header and an odd segment's padding change |
| Checksums.UdpOnTheWire | ProxiFyre/ndisapi/ndisapi.cpp:3274-3320 | the same for UDP with protocol 17 and bytes 6 and 7 |
| Checksums.IcmpOnTheWire | ProxiFyre/ndisapi/ndisapi.cpp:3166-3207 | the same for ICMP, over the segment alone, with bytes 2 and 3 |
| Checksums.IpOnTheWire | ProxiFyre/ndisapi/ndisapi.cpp:3132-3159 | the same for the IP header, with its bytes 10 and 11 |
| HandleTable.CWow64Helper.From32to64Handle | ProxiFyre/ndisapi/ndisapi.cpp:103-118 | the handle in the slot |
| HandleTable.CWow64Helper.From64to32Handle | ProxiFyre/ndisapi/ndisapi.cpp:125-148 | the first of the slots 1..32 that holds the handle, or 0 |
| HandleTable.CWow64Helper.FindVictim | ProxiFyre/ndisapi/ndisapi.cpp:217-240 | the nested search gives a slot whose handle is not listed: the last one for a list of one adapter, the first one otherwise, and 0 only if every slot's handle is listed |
| HandleTable.CWow64Helper.Update | ProxiFyre/ndisapi/ndisapi.cpp:185-255 | the whole table after an update |
| HandleTable.VictimExists | ProxiFyre/ndisapi/ndisapi.cpp:217-245 | pigeonhole: when a listed handle has no slot, some slot can be evicted |
| HandleTable.UpdateSucceeds | ProxiFyre/ndisapi/ndisapi.cpp:185-255 | every listed handle gets a slot in 1..32, occupied slots stay distinct, listed adapters keep their slots |
| HandleTable.UpdateElsewhere | ProxiFyre/ndisapi/ndisapi.cpp:185-255 | what an update does to each slot: the first puts the list into slots 1, 2, ... in order; later ones leave slot 0 and listed adapters' slots, and write listed adapters only |
| HandleTable.RunConsistent | ProxiFyre/ndisapi/ndisapi.cpp:185-255 | so it is after any history of updates |
| HandleTable.HandleStable | ProxiFyre/ndisapi/ndisapi.cpp:185-255 | an adapter listed in every later update keeps its 32-bit handle |
| HandleTable.LookupsInvert | ProxiFyre/ndisapi/ndisapi.cpp:103-148 | in every reachable table the two lookups invert each other on mapped handles and occupied slots |
| HandleTable.TranslateToDriver | ProxiFyre/ndisapi/ndisapi.cpp:1780-1785 | the in-place 32-to-64 loop, filter by filter |
| HandleTable.TranslateFromDriver | ProxiFyre/ndisapi/ndisapi.cpp:2037-2041 | the in-place 64-to-32 loop, filter by filter |
| HandleTable.FilterRestored | ProxiFyre/ndisapi/ndisapi.cpp:1780-1785 | in every reachable table, filled or not, when a filter comes back as it was set: exactly for occupied slots, the first empty slot, and 0 in a full table |
| HandleTable.HighPartIgnored | ProxiFyre/ndisapi/ndisapi.cpp:1780-1785 | of an adapter field only the low 32 bits count |
| HandleTable.SetAndGet | ProxiFyre/ndisapi/ndisapi.cpp:2037-2041 | both loops one after the other on a filter table of any size restore exactly those filters |
| HandleTable.FilterSurvivesUpdates | ProxiFyre/ndisapi/ndisapi.cpp:1780-1785 | a filter comes back as it was set across any updates that list its adapter |
| SessionRegistry.SessionRouteServer.DoCreateSession | ProxiFyre/ProxiFyre/SessionRouteServer.cs:283-311 | reply and new state of createSession, error cases included |
| SessionRegistry.SessionRouteServer.DoAddPid | ProxiFyre/ProxiFyre/SessionRouteServer.cs:313-343 | reply and new state of addPid for either answer of the router |
| SessionRegistry.SessionRouteServer.DoRemovePid | ProxiFyre/ProxiFyre/SessionRouteServer.cs:345-363 | reply and new state of removePid |
| SessionRegistry.SessionRouteServer.DoCloseSession | ProxiFyre/ProxiFyre/SessionRouteServer.cs:365-394 | reply and new state of closeSession: all the session's PIDs leave the router |
| SessionRegistry.SessionRouteServer.Dispose | ProxiFyre/ProxiFyre/SessionRouteServer.cs:98-118 | neither sessions nor routes are left |
| SessionRegistry.NoOrphanedRoutes | ProxiFyre/ProxiFyre/SessionRouteServer.cs:283-394 | over every run without a replacing create, each routed PID is listed by an open session with the proxy it is routed to, that proxy is registered, and no sessions means no routes |
| SessionRegistry.OrphansExact | ProxiFyre/ProxiFyre/SessionRouteServer.cs:299-308 | what each request does to the orphaned routes; a replacing create orphans exactly the replaced PIDs that no other session lists |
| SessionRegistry.OrphanOrigin | ProxiFyre/ProxiFyre/SessionRouteServer.cs:299-308 | every orphan of a run goes back to a replacing create of that run |
| SessionRegistry.RepliesExact | ProxiFyre/ProxiFyre/SessionRouteServer.cs:283-394 | which request gets which reply, and that a refused one changes nothing |
| SessionRegistry.SessionsAfter | ProxiFyre/ProxiFyre/SessionRouteServer.cs:299-392 | what an accepted request makes of its session, and that it touches no other |
| SessionRegistry.RouteStep | ProxiFyre/ProxiFyre/SessionRouteServer.cs:330-380 | an add leaves the session's proxy and the given creation time for its PID, a removal or close no route, and every other route stays |
| SessionRegistry.RouteTaken | ProxiFyre/ProxiFyre/SessionRouteServer.cs:330-380 | over every run from startup a routed PID was taken by an accepted add and neither taken nor dropped since |
| SessionRegistry.TakenRouted | ProxiFyre/ProxiFyre/SessionRouteServer.cs:330-380 | and a PID taken so is routed, with the session's proxy and the creation time of that very add |
| IpcRecovery.InvStep | src/ProxySwitch/Services/SessionManager.cs:813-898 | every step keeps open sessions and routes in agreement with the endpoints of the sessions that own the PIDs |
| IpcRecovery.RecoveryLossless | src/ProxySwitch/Services/SessionManager.cs:813-898 | under every interleaving a routed PID stays routed through the same handle until its session is closed or the service restarts |
| IpcRecovery.AcknowledgedIsRouted | ProxiFyre/ProxiFyre/SessionRouteServer.cs:330-341 | when an add is acknowledged the router maps the PID to the session's handle |
| IpcRecovery.AcknowledgedAsKnown | src/ProxySwitch/Services/SessionManager.cs:818-868 | an acknowledged PID's route carries the creation time under which the client knows the process |
| IpcRecovery.AcknowledgedStays | src/ProxySwitch/Services/SessionManager.cs:818-832 | an acknowledged PID stays routed to the handle of its session's endpoint |
| IpcRecovery.ReachableInOrder | src/ProxySwitch/Services/SessionManager.cs:813-910 | in every state that a run from the start reaches, routes agree with endpoints, recoveries exclude one another, each held lock belongs to one of them, and what is shown of a session that opened honestly has been acknowledged |
| IpcRecovery.SuccessfulAddRouted | src/ProxySwitch/Services/SessionManager.cs:813-832 | whatever restarts and closes a run contains, a task that ends successfully, with or without recovery, got its own add acknowledged at a step of the run, and its PID is routed to its session's endpoint unless the session is closed or the service restarted after that step |
| IpcRecovery.RecoveryHasCause | src/ProxySwitch/Services/SessionManager.cs:818-826 | in every run, a task of the program's own that waits for the recovery lock or is past it got there because the server answered its add without having the session |
| IpcRecovery.OtherAnswersEnd | src/ProxySwitch/Services/SessionManager.cs:818-820 | every other answer ends the add at once with its own outcome, and touches neither locks nor the server |
| IpcRecovery.NeverBack | src/ProxySwitch/Services/SessionManager.cs:813-898 | every step of any task, lost replies included, leaves a task's phase or brings it nearer to the end |
| IpcRecovery.GoesOn | src/ProxySwitch/Services/SessionManager.cs:813-898 | a task whose requests get through is never stuck: a step of its own brings it nearer to its end, or it waits for a recovery in progress and such a step brings that one nearer to its end |
| IpcRecovery.CanAlwaysFinish | src/ProxySwitch/Services/SessionManager.cs:813-910 | from every state in which its requests got through, whoever holds the lock, finitely many steps of the lock's holder and of its own lead to its PID being routed |
| IpcRecovery.RestartToRouted | src/ProxySwitch/Services/SessionManager.cs:813-898 | after a service restart in the middle of any run, a task that has yet to add its process, and whose own requests get through, can only end successfully with its PID routed, whatever other tasks do (add refused, session created anew, replay, retry), and can always be brought to that end |
| IpcRecovery.ReplayReachesAll | src/ProxySwitch/Services/SessionManager.cs:853-881 | if no association fails, every live process of the replay's snapshot is counted and routed, whatever other tasks do meanwhile |
| IpcRecovery.RetrySucceeds | src/ProxySwitch/Services/SessionManager.cs:828-831 | the retried add after an undisturbed recovery is acknowledged if the router takes it |
| IpcRecovery.ExclusiveRun | src/ProxySwitch/Services/SessionManager.cs:849-910 | at most one task recovers a session at a time, and it holds the session's lock |
| IpcRecovery.HeldRun | src/ProxySwitch/Services/SessionManager.cs:849-910 | and each held lock belongs to a recovery in progress |
| IpcRecovery.HonestStatus | src/ProxySwitch/Services/SessionManager.cs:478-493 | in every run, however other sessions opened, an active route over the pipe of a session that did not open with it was earned by an earlier acknowledged add, at which the router mapped the PID to the session's handle |
| IpcRecovery.ActivationExact | src/ProxySwitch/Services/SessionManager.cs:886-890 | which resumptions turn a routing status active, and which of them look at the session first |
| IpcRecovery.AttachOpensHonestly | src/ProxySwitch/Services/SessionManager.cs:1918-1928 | an external session opens honestly unless the pipe comes up between its two probes while the service runs |
| IpcRecovery.DishonestAttach | src/ProxySwitch/Services/SessionManager.cs:1918-1928 | in that case it shows an active route before any acknowledgement |
| IpcRecovery.LaunchOpensHonestly | src/ProxySwitch/Services/SessionManager.cs:205-227 | a launched session always opens honestly |
| RecoveryEffects.EndsExact | src/ProxySwitch/Services/SessionManager.cs:813-898 | when a task ends, and with which outcome |
| RecoveryEffects.FailedExact | src/ProxySwitch/Services/SessionManager.cs:478-493 | when a routing status turns to failed |
| RecoveryEffects.OtherStatusesApplied | src/ProxySwitch/Services/SessionManager.cs:886-890 | every status but active and failed is only applied by the client itself |
| RecoveryEffects.ClientAfter | src/ProxySwitch/Services/SessionManager.cs:853-881 | what else the client keeps of a session changes only with its processes |
| RecoveryEffects.ComesIn | src/ProxySwitch/Services/SessionManager.cs:813-832 | sessions and tasks come in one at a time, and none goes away |
| RecoveryEffects.LocksAfter | src/ProxySwitch/Services/SessionManager.cs:849-910 | when a recovery lock is taken and when it is given back |
| RecoveryEffects.ServerAfter | ProxiFyre/ProxiFyre/SessionRouteServer.cs:98-118 | what reaches the server; a restart forgets all sessions and routes |
| RecoveryEffects.SendsExact | src/ProxySwitch/Services/SessionManager.cs:818-868 | what a task sends where it stands, with PID and creation time |
| RecoveryEffects.StartsExact | src/ProxySwitch/Services/SessionManager.cs:913-918 | how each kind of task starts, and which need an endpoint |
| RecoveryEffects.OpeningStatus | src/ProxySwitch/Services/SessionManager.cs:1918-1928 | what a session shows and how it is managed when it opens, for all outcomes of the probes |
| SequentialRecovery.RoutedSession.RecreateIpcSessionAndReplay | src/ProxySwitch/Services/SessionManager.cs:834-898 | registry, router and routing status after an uninterrupted recovery, error cases included |
| SequentialRecovery.RecoveryExact | src/ProxySwitch/Services/SessionManager.cs:853-881 | the session then lists exactly the live PIDs the router took, all routed to its proxy with their creation times, and no other session or route is touched |
| SequentialRecovery.RecoveryOrphans | src/ProxySwitch/Services/SessionManager.cs:2215-2221 | in any registry, the orphans after a recovery are exactly those from before, and the replaced session's routed PIDs that no other session lists, that are not taken |
| SequentialRecovery.ReplayLoop | src/ProxySwitch/Services/SessionManager.cs:864-881 | send by send and await by await, the replay serves exactly the adds of its snapshot in order and counts exactly those the router takes |
| SequentialRecovery.SoloRecovery | src/ProxySwitch/Services/SessionManager.cs:813-898 | a task that meets a lost session and is left alone runs, by the interleaved steps, into the state the sequential recovery and one more add give; the lock is free again and all other tasks and clients are as before |
| SessionLifecycle.LaunchSession.MarkProcessExited | src/ProxySwitch/Services/SessionManager.cs:1224-1232 | the first process with the PID is marked |
| SessionLifecycle.LaunchSession.HasLiveProcesses | src/ProxySwitch/Models/LaunchSession.cs:92-95 | true exactly when some process is live |
| SessionLifecycle.LaunchSession.BeginGraceWindowOrFinalize | src/ProxySwitch/Services/SessionManager.cs:1372-1400 | exited, or waiting with a timer, or waiting without one when the delay is refused |
| SessionLifecycle.LaunchSession.OnRootExited | src/ProxySwitch/Services/SessionManager.cs:288-324 | the whole new state when the root exits |
| SessionLifecycle.LaunchSession.OnMergedProcessExited | src/ProxySwitch/Services/SessionManager.cs:1239-1256 | the whole new state when a merged process exits |
| SessionLifecycle.LaunchSession.OnCorrelatedExited | src/ProxySwitch/Services/SessionManager.cs:1479-1492 | the whole new state when a correlated process exits |
| SessionLifecycle.LaunchSession.MonitorDescendants | src/ProxySwitch/Services/SessionManager.cs:1194-1220 | the whole new state after a monitor pass |
| SessionLifecycle.LaunchSession.TryMerge | src/ProxySwitch/Services/SessionManager.cs:1647-1683 | the whole new state after a merge in either role |
| SessionLifecycle.LaunchSession.AttachExternal | src/ProxySwitch/Services/SessionManager.cs:1855-1890 | the whole new state after an external process joins |
| SessionLifecycle.LaunchSession.ResumeHandoff | src/ProxySwitch/Services/SessionManager.cs:1301-1356 | the whole new state after each segment of the handoff, for every decision |
| SessionLifecycle.LaunchSession.FaultHandoff | src/ProxySwitch/Services/SessionManager.cs:312-322 | the whole new state when the handoff fails, where it can |
| SessionLifecycle.LaunchSession.AnswerPrompt | src/ProxySwitch/Services/SessionManager.cs:1497-1501 | the whole new state when the user attaches or ignores |
| SessionLifecycle.LaunchSession.OnGraceExpired | src/ProxySwitch/Services/SessionManager.cs:1389-1393 | the whole new state when a grace timer fires |
| SessionLifecycle.LaunchSession.StopSession | src/ProxySwitch/Services/SessionManager.cs:2282-2326 | the whole new state after a stop |
| SessionLifecycle.LaunchSession.OnDescendant | src/ProxySwitch/Services/SessionManager.cs:256-264 | a discovered descendant is tracked, once, whatever the status |
| SessionLifecycle.OnlyHandoffsRevive | src/ProxySwitch/Services/SessionManager.cs:1301-1356 | the steps out of exited are exactly the last resumption or failure of a handoff in its last await and the user's attach |
| SessionLifecycle.ExitedIsFinal | src/ProxySwitch/Services/SessionManager.cs:288-324 | a session that never entered checking-correlated never leaves exited, in any run |
| SessionLifecycle.OnlyLaunchedCheck | src/ProxySwitch/Services/SessionManager.cs:302-323 | checking-correlated is entered exactly when the root of a launched executable exits last |
| SessionLifecycle.StopIsUndone | src/ProxySwitch/Services/SessionManager.cs:1309-1324 | a run in which a stopped session is put back to waiting |
| SessionLifecycle.ExitedLastsIff | src/ProxySwitch/Services/SessionManager.cs:1301-1356 | an exited session leaves exited in some run exactly when a dialog or a handoff in its last await is pending |
| SessionLifecycle.StopLastsIff | src/ProxySwitch/Services/SessionManager.cs:2282-2326 | the same condition, before a stop, says whether the stop can be undone |
| SessionLifecycle.BoundedWaiting | src/ProxySwitch/Services/SessionManager.cs:1372-1400 | when the grace period is one that can be waited for, then while a session keeps waiting some timer is due within that period of the stretch's start, and no stretch lasts longer |
| SessionLifecycle.WaitEndsAtEarliestTimer | src/ProxySwitch/Services/SessionManager.cs:1384-1393 | an undisturbed wait lasts exactly until the earliest pending timer, which ends the session |
| SessionLifecycle.FullWindowIff | src/ProxySwitch/Services/SessionManager.cs:1384-1393 | when a timer is set for it, a wait can last the whole grace period exactly when no older timer is due earlier |
| SessionLifecycle.WaitEndsIff | src/ProxySwitch/Services/SessionManager.cs:1384-1399 | a waiting session that is left alone comes to an end in some run exactly when a timer is pending |
| SessionLifecycle.GraceEndsIff | src/ProxySwitch/Services/SessionManager.cs:1384-1399 | a grace window can end by itself exactly when its delay is accepted or an older timer is pending |
| SessionLifecycle.RefusedGraceWaitsForever | src/ProxySwitch/Services/SessionManager.cs:1384-1399 | with a refused grace period, negative or too long, and no older timer, time passes without bound and the session still waits |
| SessionLifecycle.MergeRescues | src/ProxySwitch/Services/SessionManager.cs:1672-1676 | a process that joins a waiting session, merged or from outside, is tracked and live, and the session runs again |
| SessionLifecycle.RescueLasts | src/ProxySwitch/Services/SessionManager.cs:1389-1393 | and goes on running, whatever timers of the old wait fire |
| SessionEffects.ProcessAfter | src/ProxySwitch/Services/SessionManager.cs:1224-1232 | PID and role of a tracked process stay, and it is live afterwards exactly if it was and the event does not record its exit |
| SessionEffects.NewProcess | src/ProxySwitch/Services/SessionManager.cs:1643-1683 | which event brings in which process in which role; a known PID is not tracked twice |
| SessionEffects.MergesAs | src/ProxySwitch/Services/SessionManager.cs:1596-1640 | the roles in which a process merges |
| SessionEffects.HistoryKept | src/ProxySwitch/Services/SessionManager.cs:1194-1232 | over every run each PID is tracked once, no process is forgotten or changes its role, and none that has exited comes back |
| SessionEffects.RootStaysFirst | src/ProxySwitch/Services/SessionManager.cs:228-241 | a session opens running with its live root, which stays its first process |
| SessionEffects.WaitsOrExits | src/ProxySwitch/Services/SessionManager.cs:1372-1400 | exactly which events make a session wait, and exactly which end it |
| SessionEffects.RunsAgain | src/ProxySwitch/Services/SessionManager.cs:1672-1676 | exactly which events make it run, run via a child, and run via a correlated process |
| SessionEffects.ChecksOrNever | src/ProxySwitch/Services/SessionManager.cs:302-309 | exactly when it checks for a correlated process; no event makes it start or fail |
| SessionEffects.TimersAfter | src/ProxySwitch/Services/SessionManager.cs:1384-1399 | when a grace timer is set, for when, and when it is used up |
| SessionEffects.PromptsAfter | src/ProxySwitch/Services/SessionManager.cs:1337-1349 | when a dialog is opened and answered |
| SessionEffects.HandoffsAfter | src/ProxySwitch/Services/SessionManager.cs:1301-1356 | how handoffs come in, go from stage to stage and end, each once |
| SessionEffects.FaultsWhen | src/ProxySwitch/Services/SessionManager.cs:1303-1311 | when a handoff can fail |
| SessionEffects.RestAfter | src/ProxySwitch/Services/SessionManager.cs:288-324 | time passes only by itself, and who the session is never changes |
| Ancestry.IsDescendantOf | src/ProxySwitch/Services/ProcessMonitor.cs:137-161 | true exactly when the parent chain reaches the ancestor with no stale link before the last, on any finite map; ends on cycles |
| Ancestry.InOrderDescends | src/ProxySwitch/Services/ProcessMonitor.cs:149-156 | in a snapshot where no known parent is younger than its known child, a process descends from all its ancestors |
| Ancestry.ReusedPidBlocks | src/ProxySwitch/Services/ProcessMonitor.cs:149-156 | behind a parent created after its child nothing is reached |
| Ancestry.IsAncestorOfAny | src/ProxySwitch/Services/ProcessMonitor.cs:187-200 | true exactly when an ancestor at distance 1..maxDepth is in the set |
| Ancestry.WalkBounded | src/ProxySwitch/Services/ProcessMonitor.cs:143-148 | the visited set is at most one larger than the map, which bounds the unbounded walk |
| Ancestry.CycleStays | src/ProxySwitch/Services/ProcessMonitor.cs:148-148 | once a process is met again the chain never leaves what has been seen: the guard loses no answer |
| Ancestry.TrackProcessTree | src/ProxySwitch/Services/ProcessMonitor.cs:80-129 | the PIDs reported over all rounds, in the order of the second query's answers |
| Ancestry.TableRead | src/ProxySwitch/Services/ProcessMonitor.cs:90-92 | the parent and creation maps say what the table says, and know no other process |
| Ancestry.ReportedExactlyOnce | src/ProxySwitch/Services/ProcessMonitor.cs:80-120 | the PIDs reported are exactly those seen below the root, never the root, and each once unless one answer of the second query repeats a PID |
| AppIdentity.NormalizeIdempotent | src/ProxySwitch/Services/AppIdentityResolver.cs:13-19 | normalized names are trimmed, carry the suffix, and stay as they are when normalized again |
| AppIdentity.NormalizeExact | src/ProxySwitch/Services/AppIdentityResolver.cs:13-19 | the white space at both ends goes, nothing else does, and the suffix is added exactly when it is missing |
| AppIdentity.EndsWithExeExact | src/ProxySwitch/Services/AppIdentityResolver.cs:17-17 | the suffix is recognized in any mixture of cases |
| AppIdentity.KeyEqualIff | src/ProxySwitch/Services/AppIdentityResolver.cs:245-257 | exactly when the keys of two routes are equal, whatever their proxy ids |
| AppIdentity.KeyInjective | src/ProxySwitch/Services/AppIdentityResolver.cs:245-257 | equal keys mean equal kind, proxy and identity when kinds have no colon and neither proxy id with a colon begins the other, as when ids have no colon |
| AppIdentity.KeyInjectiveForProxy | src/ProxySwitch/Services/ProxiFyreBackend.cs:365-368 | for routes of one proxy equal keys mean equal kind and identity, whatever the proxy id |
| AppIdentity.KeyIdentifiesProgram | src/ProxySwitch/Services/AppIdentityResolver.cs:245-257 | then keys are equal exactly for routes of one kind and one proxy that name the same program, if the package family names of two package routes are not confusable by a slash either |
| AppIdentity.ProxiesCollideIff | src/ProxySwitch/Services/AppIdentityResolver.cs:245-257 | two different proxy ids have routes with one key exactly when one of them with a colon begins the other |
| AppIdentity.KeysCollide | src/ProxySwitch/Services/AppIdentityResolver.cs:245-257 | two such routes |
| RouteTable.AppRoute.Refresh | src/ProxySwitch/Services/ProxiFyreBackend.cs:411-432 | the route's new fields; reports a change exactly when there is one |
| RouteTable.ProxiFyreBackend.EnsureRoute | src/ProxySwitch/Services/ProxiFyreBackend.cs:399-475 | the whole table afterwards; reports a change exactly when there is one |
| RouteTable.ProxiFyreBackend.RemoveRouteByExe | src/ProxySwitch/Services/ProxiFyreBackend.cs:591-605 | the table without the first matching route |
| RouteTable.ProxiFyreBackend.RemoveTmpRoutesForSession | src/ProxySwitch/Services/ProxiFyreBackend.cs:611-621 | the table without the session's temporary routes |
| RouteTable.ProxiFyreBackend.ImportPersistentRoutesFromAppConfig | src/ProxySwitch/Services/ProxiFyreBackend.cs:347-389 | the table after an import, and the number of routes it added |
| RouteTable.RunUnique | src/ProxySwitch/Services/ProxiFyreBackend.cs:399-475 | in every run of ensures, rollbacks and session ends there is at most one route per folded path and proxy |
| RouteTable.NeverDemoted | src/ProxySwitch/Services/ProxiFyreBackend.cs:413-419 | over any run of ensures, session ends and rollbacks of other targets a persistent route stays, persistent and enabled if it was; over ensures alone every route keeps its place |
| RouteTable.EnsureIdempotent | src/ProxySwitch/Services/ProxiFyreBackend.cs:399-475 | a repeated call changes nothing |
| RouteTable.EnsureTakesEffect | src/ProxySwitch/Services/ProxiFyreBackend.cs:411-470 | afterwards there is an enabled route for the target, managed, persistent and owned as the call and the older route say, and all others are as before |
| RouteTable.NewRouteNames | src/ProxySwitch/Services/ProxiFyreBackend.cs:438-462 | a new route names its program by package or by path |
| RouteTable.LatestSessionOwns | src/ProxySwitch/Services/ProxiFyreBackend.cs:420-425 | in every run of ensures, rollbacks and session ends a session-only route belongs to the session of the last call for its target |
| RouteTable.CleanupExact | src/ProxySwitch/Services/ProxiFyreBackend.cs:611-621 | a session's end keeps exactly the other routes, in order |
| RouteTable.CleanupSpares | src/ProxySwitch/Services/ProxiFyreBackend.cs:611-621 | a session's end removes its own temporary routes, all of them, and no others |
| RouteTable.KeptPositionsExact | src/ProxySwitch/Services/ProxiFyreBackend.cs:614-615 | the kept positions are those without a temporary route of the session |
| RouteTable.RollbackExact | src/ProxySwitch/Services/ProxiFyreBackend.cs:591-605 | ensure and rollback restore the table exactly when there was no route for the target before |
| RouteTable.LaunchAndEnd | src/ProxySwitch/Services/ProxiFyreBackend.cs:611-621 | a session-only launch that added its route leaves no trace after its session ends |
| RouteTable.ImportComplete | src/ProxySwitch/Services/ProxiFyreBackend.cs:347-389 | afterwards every enabled persistent file route with a proxy id has a same-key route, and the old routes are unchanged |
| RouteTable.ImportSound | src/ProxySwitch/Services/ProxiFyreBackend.cs:357-375 | only importable file routes are added, none with the proxy and key of an earlier one |
| RouteTable.ImportIdempotent | src/ProxySwitch/Services/ProxiFyreBackend.cs:347-389 | a second import adds nothing |
| RouteTable.ImportOwnConfig | src/ProxySwitch/Services/ProxiFyreBackend.cs:200-201 | importing a config built from the table adds nothing |
| RouteTable.ConfigRoundTrip | src/ProxySwitch/Services/ProxiFyreBackend.cs:200-201 | built and imported into an empty table, persistent routes come back exactly when no two share proxy and key |
| BackendConfig.BuildConfig | src/ProxySwitch/Services/ProxiFyreBackend.cs:156-202 | one rule per configured proxy with its routes' names; repeated proxy ids are an error |
| BackendConfig.BuildFailsIff | src/ProxySwitch/Services/ProxiFyreBackend.cs:158-158 | the config cannot be built exactly when two proxies have one id |
| BackendConfig.EndpointReads | src/ProxySwitch/Services/ProxiFyreBackend.cs:158-158 | an endpoint is the host, a colon and the port in decimal digits that read back as the port |
| BackendConfig.EndpointExact | src/ProxySwitch/Services/SessionManager.cs:917-917 | two proxies have one endpoint exactly when they have one host and one port |
| BackendConfig.AppNamesExact | src/ProxySwitch/Services/ProxiFyreBackend.cs:161-179 | a rule's names are those of its enabled routes that are not managed over the pipe, up to case |
| BackendConfig.AppNamesDistinct | src/ProxySwitch/Services/ProxiFyreBackend.cs:177-178 | each once up to case |
| BackendConfig.Start | ProxiFyre/ProxiFyre/Program.cs:87-114 | the proxy map and the associations the start loop makes, for every outcome of the registrations |
| BackendConfig.MeaningPreserved | ProxiFyre/ProxiFyre/Program.cs:87-114 | for every outcome of the registrations the service is told exactly the names and endpoints that the route table asks for of registered proxies, up to case, each with its registration's handle |
| BackendConfig.NothingLeftOut | ProxiFyre/ProxiFyre/Program.cs:87-114 | with all proxies registered it is told exactly what the route table asks for |
| BackendConfig.ProxyMapExact | ProxiFyre/ProxiFyre/Program.cs:98-106 | an endpoint is in the proxy map exactly when a proxy with it could be registered, with the handle of the last such one |
| BackendConfig.SessionFindsHandle | src/ProxySwitch/Services/SessionManager.cs:913-918 | createSession for a configured proxy is accepted exactly when a proxy at its host and port could be registered, and gets the handle of such a proxy |

## Left out

- Checksums.PadAndClear: does not model a datagram that `StaysInsideIff` shows to be read or written outside the frame; what the code then does depends on the memory beyond it.
- Checksums.RecalculateICMPChecksum: does not model such a datagram either.
- Checksums.RecalculateTCPChecksum: does not model such a datagram either.
- Checksums.RecalculateUDPChecksum: does not model such a datagram either.
- Jumbo frames: the frame size is that of a build without them.
- HandleTable.CWow64Helper.From32to64Handle: does not model an index above 32, which the code does not check and which lies outside its table.
- HandleTable.TranslateToDriver: does not model adapter fields with such an index.
- HandleTable.SetAndGet: does not model adapter fields with such an index.
- HandleTable.FilterRestored: does not model adapter fields with such an index.
- Driver calls, registry access and adapter names in ndisapi.cpp: no logic of their own.
- The pipe, its JSON text, its token and its access list: requests and replies are values, a missing text field is an empty one, and a reply may be lost before or after the server has acted.
- SessionRegistry.SessionRouteServer.DoRemovePid: does not model a refusal by the router, because its removal succeeds for every PID, listed or not, but for errors of its hash table.
- SessionRegistry.SessionRouteServer.DoCloseSession: does not model such errors either.
- The packet side of the router: only its PID table is modelled.
- Threads inside one handler: handlers and the segments between awaits are atomic steps.
- The discovery of Store App processes: each process it finds is an add of its own, with the same effect on the status.
- Which session a new process is merged into: the lifecycle of one session sees the merge as an event.
- The handoff scorer: its decision is an argument of the step.
- Browser sessions: their exit handler sets one status and has nothing to interact with.
- When the monitor loop runs: a pass may come at any time, which allows more runs than the code has.
- Late timers: time does not pass beyond a pending timer, so that the bound on waiting assumes timers that fire on time.
- The form of EnsureRoute for targets that are no executables: the same cases with another lookup.
- Destination rules, log levels, backups and the writing of files: values that are copied.
- ResolveBackendAppName and the migration of package routes: the name is a function of the route given as an argument.
- Process start and kill, service control, user interface, event log: outside the model.
