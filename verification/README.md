# A verified model of the gateway's control plane

The repository is the control plane of an LTE gateway (SGW-C and PGW-C). Its difficult parts are small state machines that
share tables, queues and timers. This project models them in Dafny and proves what they keep over every run. Where a
property is false of the code, a lemma names a run that breaks it and another states exactly when it holds.

| file | component |
|---|---|
| `NameResolver.dfy` | the DNS thread and the event thread that share a heap request, a socket pair and a mutex |
| `Sessions.dfy` | subscriber contexts, the session-id macros and the IMSI, TEID, SEID and PDN tables |
| `Pools.dfy` | the static address trie, the dynamic address FIFO and both pool generators |
| `Addresses.dfy` | who holds an address: attach, hand-over to the user plane, rejection and detach over both pools |
| `Association.dfy` | PFCP association set-up with buffered attaches (section 6.2.6 of 3GPP TS 29.244) |
| `Scheduler.dfy` | the per-subscriber procedure queue and its re-entrant completions |
| `Transactions.dfy` | the transaction map and its comparator, retries, clean-up and deferred freeing (section 6.4 of 3GPP TS 29.244) |
| `Bearers.dfy` | binding policy rules to bearers by QCI and ARP (section 6.1.1.4 of 3GPP TS 23.203) |
| `Config.dfy` | access point names as labels (section 9.1 of 3GPP TS 23.003, section 3.1 of RFC 1035) and rule selection |
| `Basics.dfy` | what several modules share |
| `Heartbeat.dfy` | peer supervision with queued, possibly stale timer events (section 6.2.2 of 3GPP TS 29.244) |

Form of the model. Each component has a value-level state and functions for its steps; the theorems are about all runs of
those steps. Where the code updates objects in place, a class with the same fields follows, and each of its methods is
proved to have exactly the effect of the step function. Message contents, clocks, name lookups and the results of
system calls are parameters; so are the results of timer starts in the heartbeat and of timer restarts on a retry, while the
first timer of a request is taken to start. A step is atomic: one message, one timer expiry or one event handled, except
in the name resolver, where a step is one action of one thread. Identities that the code takes from pointers (blocks,
procedures, transactions, peer records) are numbers that are never reused.

## Model

| member | source | states |
|---|---|---|
| `NameResolver.RequesterStep` | cp/upf.c:347-418 | one atomic action of the requester; it never touches the resolver's position or lookups, and frees at most the block of its own call |
| `NameResolver.ResolverStep` | cp/upf.c:316-344 | one atomic action of the resolver; it never touches the requester's variables and frees only in the freeing position |
| `NameResolver.RequesterCore` | cp/upf.c:347-418 | every requester action keeps the joint invariant: block ownership, lock, flags and both socket queues |
| `NameResolver.ResolverCore` | cp/upf.c:316-344 | every resolver action keeps that invariant |
| `NameResolver.RequesterFaults` | cp/upf.c:375-417 | a requester step faults exactly when it uses or frees a block that is not in the heap |
| `NameResolver.ResolverFaults` | cp/upf.c:327-342 | so does a resolver step |
| `NameResolver.StepKeeps` | cp/upf.c:316-418 | any action of either thread keeps the whole invariant, with freed blocks, lookups and returned answers |
| `NameResolver.EveryBlockFreedOnce` | cp/upf.c:323-417 | in every interleaving no block is used after being freed or freed twice, and a block is in the heap exactly while one side still has to deal with it |
| `NameResolver.AnswersMatchQuestions` | cp/upf.c:331-342 | an answer returned is the lookup made for that call under the name it asked; no answer is left over between calls |
| `NameResolver.AnsweredExactly` | cp/upf.c:375-417 | every call that returned has exactly one outcome, in order, under the name it asked; it has no answer if and only if its request write failed or it timed out and found no answer sent, and otherwise the answer is the lookup made for it |
| `NameResolver.EveryCallAnswered` | cp/upf.c:375-417 | when no request write fails and no poll times out, every call that returns has its answer |
| `NameResolver.StuckExactly` | cp/upf.c:369-417 | the threads stop exactly at rest, or with the requester reading an answer whose write failed; of the two, it is the second exactly when an answer write failed |
| `NameResolver.WorkRunsOut` | cp/upf.c:316-418 | between two calls the number of steps is bounded by a measure of the state |
| `NameResolver.StopsClean` | cp/upf.c:323-417 | if no answer write fails, the threads stop only with every call returned and every block freed |
| `NameResolver.EveryCallServed` | cp/upf.c:316-418 | when nothing fails and no poll times out, the threads stop only after every call was answered with its own lookup |
| `NameResolver.FailedWriteDeadlocks` | cp/upf.c:334-342 | a run in which a failed answer write leaves the requester reading for ever |
| `Sessions.TeidRecoveredExactly` | cp/vepc_cp_dp_api.h:76-86 | UE_SESS_ID of SESS_ID keeps 28 bits: it returns the TEID if and only if the TEID is below 2^28; UE_BEAR_ID returns the bearer's low four bits |
| `Sessions.SessIdInjective` | cp/vepc_cp_dp_api.h:86-86 | two session ids are equal exactly for equal TEIDs and equal low bearer bits |
| `Sessions.Tables.AttachedAgrees` | cp/ue.c:116-177 | adding a subscriber under an unused IMSI and TEID keeps the tables in agreement, although inserts never overwrite |
| `Sessions.Tables.EstablishedAgrees` | cp/procedures/proc_initial_attach.c:1708-1711 | the SEID insert always takes effect and keeps agreement |
| `Sessions.Tables.FinishedAgrees` | cp/pdn.c:79-128 | cleaning up PDN and subscriber keeps the tables in agreement |
| `Sessions.Tables.FinishedRemoves` | cp/ue.c:291-310 | it leaves no entry of the subscriber under any key, and every other subscriber with its PDN, its mark and all its entries |
| `Sessions.Gateway.Attach` | cp/ue.c:105-288 | a known IMSI is rejected without change; otherwise the TEID is new and the subscriber is in every table |
| `Sessions.Gateway.Establish` | cp/procedures/proc_initial_attach.c:1708-1711 | from then on the subscriber is found by its SEID |
| `Sessions.Gateway.Finish` | cp/pdn.c:79-128 | the assertion on the recovered TEID fails exactly for TEIDs from 2^28 on; otherwise every entry of the subscriber goes and every other stays |
| `Sessions.Gateway.FindForResponse` | cp/procedures/proc_initial_attach.c:599-625 | below 2^28 the subscriber found through the packed TEID is the one the SEID table holds |
| `Sessions.Gateway.Handle` | cp/ue.c:105-334 | one message keeps agreement, with its outcome and new tables stated for every case; only an attach that takes a TEID needs one below 2^28 to be left |
| `Sessions.Gateway.EndAndAttach` | cp/ue.c:105-334 | a subscriber whose session ended can attach again, as a new context |
| `Sessions.Gateway.Run` | cp/ue.c:105-334 | any sequence of attaches, establishments and ends keeps the tables in agreement and fails no assertion, up to an attach that finds no TEID below 2^28 left |
| `AddressRange.LowestBitDivides` | cpplib/ip_pool_mgmt.h:47-54 | the network size is the power of two that divides the mask with an odd quotient |
| `AddressRange.CountAddresses` | cpplib/ip_pool_mgmt.h:47-54 | the shifting loop ends for a non-zero mask with the lowest set bit of the mask, without overflow |
| `AddressRange.HostsAreInterval` | cpplib/ip_pool_mgmt.h:116-152 | without wrap-around the hosts are net+1 up to net+size-2 |
| `StaticPool.LeafInjective` | cpplib/ip_pool_mgmt.h:154-176 | the four bytes of an address lead to a leaf of its own |
| `StaticPool.Pool.FindNode` | cpplib/ip_pool_mgmt.h:178-243 | the walk ends at the address's leaf if there is one, otherwise at null |
| `StaticPool.Pool.ReserveIpNode` | cpplib/ip_pool_mgmt.h:178-211 | succeeds exactly for an address in the pool and not used; then exactly that address becomes used |
| `StaticPool.Pool.ReleaseIpNode` | cpplib/ip_pool_mgmt.h:213-243 | succeeds exactly for a used address; then exactly that address becomes unused |
| `StaticPool.Pool.AddIpaddrInPool` | cpplib/ip_pool_mgmt.h:154-176 | adds exactly that address to the pool and marks nothing, whichever nodes were missing |
| `StaticPool.Pool.GenPool` | cpplib/ip_pool_mgmt.h:116-152 | the trie then holds exactly the hosts of the network, none used |
| `StaticPool.Pool.RunCalls` | cpplib/ip_pool_mgmt.h:178-243 | any sequence of reserve and release calls answers and ends as a pair of member set and used set does |
| `StaticPool.ReservedOnce` | cpplib/ip_pool_mgmt.h:178-243 | between two successful reservations of an address there is a successful release of it |
| `DynamicPool.Pool.GenPool` | cpplib/ip_pool_mgmt.h:47-73 | appends the addresses from the highest offset down to 1, computed in 32 bits |
| `DynamicPool.Pool.GetIp` | cpplib/ip_pool_mgmt.h:75-82 | takes the head, 0 when empty |
| `DynamicPool.Pool.FreeIp` | cpplib/ip_pool_mgmt.h:84-88 | appends at the tail |
| `DynamicPool.DynamicPoolIsHosts` | cpplib/ip_pool_mgmt.h:47-73 | for an even mask the FIFO holds exactly the hosts, each once, in descending order when nothing wraps |
| `DynamicPool.PoolsAgreeExactly` | cpplib/ip_pool_mgmt.h:47-152 | both generators yield the same set if and only if the mask is even; an odd mask gives the FIFO 2^32 - 1 addresses and the trie none |
| `Addresses.CreateConserves` | cp/procedures/proc_initial_attach.c:341-391 | a create, accepted or refused, conserves addresses exactly if it succeeds, or a pool refuses it, or it had taken a dynamic address to give back |
| `Addresses.InitiateConserves` | cp/procedures/proc_initial_attach.c:222-247 | the hand-over to an allocating user plane conserves addresses exactly for a PDN that is not static |
| `Addresses.ResponseConserves` | cp/procedures/proc_initial_attach.c:638-639 | an address in a response conserves addresses exactly if it is the same or the PDN's address is not the gateway's |
| `Addresses.DeleteRequestConserves` | cp/gtpv2/msg/delete_session_request.c:91-95 | the early release conserves addresses exactly for a PDN that is not static |
| `Addresses.CleanupConserves` | cp/pdn.c:121-125 | clean-up always gives back what the PDN holds |
| `Addresses.ConservedExactly` | cp/procedures/proc_initial_attach.c:222-391 | every step keeps free plus held addresses equal to the pool, and used static addresses equal to the held ones, if and only if the step is sound |
| `Addresses.SoundRunsConserve` | cp/procedures/proc_initial_attach.c:222-391 | hence so does every run of sound steps |
| `Addresses.FifoBalance` | cp/ip_pool.c:18-51 | in every run, sound or not, the FIFO holds what was generated plus what came back less what went out |
| `Addresses.TakenReturnedOrHeld` | cp/ip_pool.c:18-51 | in a sound run an address has been returned as often as taken, once less while a PDN holds it |
| `Addresses.AddressesNeverShared` | cp/pdn.c:121-125 | in a sound run no address is held by two PDNs or both held and free |
| `Addresses.GeneratedPool` | cpplib/ip_pool_mgmt.h:47-73 | a generated pool of an even mask has no address twice, and lacks address 0 if and only if no host wraps round to it |
| `Addresses.GeneratedNeverShared` | cpplib/ip_pool_mgmt.h:47-73 | from such a pool, no two PDNs hold one address in a sound run |
| `Addresses.OneSourceAlways` | cp/procedures/proc_initial_attach.c:231-418 | in every run a PDN is flagged as addressed by the gateway or by the user plane, never both or neither |
| `Addresses.DeleteThenCleanup` | cp/gtpv2/msg/delete_session_request.c:91-95 | the double release of a static address does no harm when no step comes between |
| `Addresses.StaticAddressShared` | cp/gtpv2/msg/delete_session_request.c:91-95 | a run in which two live PDNs hold one static address and the first clean-up frees it under the second |
| `Addresses.RefusedCreateStopsPool` | cp/procedures/proc_initial_attach.c:384-390 | a refused create that had taken nothing queues address 0, and a later create is told the pool is empty while it is not |
| `Addresses.AddressKeeper.ProcessCreateSession` | cp/procedures/proc_initial_attach.c:341-391 | on the trie and the FIFO themselves: when a create is accepted, the PDN it adds with its flags and address, and what becomes used |
| `Addresses.AddressKeeper.InitiateSession` | cp/procedures/proc_initial_attach.c:222-247 | under an allocating user plane a PDN flagged control gives its address back, loses it and is flagged for the user plane; otherwise nothing changes; refused exactly when the PDN counts on a user plane that does not allocate |
| `Addresses.AddressKeeper.HandleEstablishResponse` | cp/procedures/proc_initial_attach.c:638-639 | an address in the response becomes the PDN's, whatever its flags; nothing else changes |
| `Addresses.AddressKeeper.CheckDeleteRequest` | cp/gtpv2/msg/delete_session_request.c:91-95 | a static PDN's address becomes unused, and nothing else changes |
| `Addresses.AddressKeeper.CleanupPdn` | cp/pdn.c:121-125 | the PDN is gone, and its address is back in the pool it came from, if it came from one |
| `Association.DrainEnds` | cp/procedures/proc_pfcp_assoc_setup.c:331-354 | on an associated UPF the success drain ends after as many passes as the buffer is long, one verdict each |
| `Association.DrainNeverEnds` | cp/procedures/proc_pfcp_assoc_setup.c:331-354 | otherwise no number of passes takes an attach out of the buffer |
| `Association.SuccessExactly` | cp/procedures/proc_pfcp_assoc_setup.c:331-354 | a success event is handled safely if and only if a procedure is set and the UPF is associated, or is down with nothing buffered |
| `Association.NextKeeps` | cp/procedures/proc_pfcp_assoc_setup.c:92-354 | every step, of the UPF's own association request too, keeps the invariant if a success event it handles is timely |
| `Association.QuietKeeps` | cp/cp_io_poll.c:42-57 | with inputs and events in one queue, a success event is timely if resets are handled only while no request is open and no success is queued |
| `Association.NoLostWakeUp` | cp/procedures/proc_pfcp_assoc_setup.c:92-354 | in every run with such resets a waiting attach has a running timer or a queued event to wake it, waiting attaches plus verdicts are exactly those that ever waited, and no drain or completion goes wrong |
| `Association.NoResetNoLostWakeUp` | cp/procedures/proc_pfcp_assoc_setup.c:92-354 | the same for every run in which no reset arrives, whatever else arrives and times out |
| `Association.WakingServesAll` | cp/procedures/proc_pfcp_assoc_setup.c:301-354 | the next waking event or time-out gives each waiting attach exactly one verdict and empties the buffer |
| `Association.WakingEnds` | cp/procedures/proc_pfcp_assoc_setup.c:301-388 | a waking event or time-out also ends the current procedure and its request, and leaves an association only if a success made it |
| `Association.StepDelivers` | cp/procedures/proc_pfcp_assoc_setup.c:146-354 | which verdicts a step delivers and which events it queues: failures on a failure event or a time-out, successes on a success event; a success is queued for an accepted response, a failure for a refused one or an unresolved name |
| `Association.SuccessNeedsAcceptance` | cp/procedures/proc_pfcp_assoc_setup.c:146-217 | in every run in which no accepted response is taken, no attach gets a success verdict |
| `Association.NeverAssociated` | cp/procedures/proc_pfcp_assoc_setup.c:146-217 | in every run without an accepted response or a request of the UPF, the UPF is never associated and every verdict is a failure |
| `Association.AssociatedServes` | cp/procedures/proc_initial_attach.c:222-254 | after an accepted response or a request of the UPF, attaches are served without waiting |
| `Association.UnassociatedWaits` | cp/procedures/proc_initial_attach.c:215-262 | without an association an attach waits at the head of the buffer; if no request is out, one goes out or its failure is queued |
| `Association.UntimelySuccessStrands` | cp/procedures/proc_pfcp_assoc_setup.c:331-354 | a success event after a reset and a new request cancels that request |
| `Association.StrandedForever` | cp/procedures/proc_initial_attach.c:215-221 | from then on every attach handled stays waiting, until a reset or an association request of the UPF arrives |
| `Association.StrandedReachable` | cp/upf.c:102-155 | a run strands the context |
| `Association.HangReachable` | cp/procedures/proc_pfcp_assoc_setup.c:340-350 | a run in which a reset stands in the queue before the success event, and the drain never ends |
| `Association.CrashReachable` | cp/procedures/proc_pfcp_assoc_setup.c:351-352 | a run in which the time-out of a superseded request leaves the success event no procedure to complete |
| `Association.UpfContext.InitiateUpfSession` | cp/procedures/proc_initial_attach.c:209-264 | the attach step on the context |
| `Association.UpfContext.SetupAssociation` | cp/procedures/proc_pfcp_assoc_setup.c:92-117 | a resolved name opens a request with a timer, an unresolved one queues the failure |
| `Association.UpfContext.InitiateAssociation` | cp/upf.c:143-155 | a set-up starts exactly when the link is down |
| `Association.UpfContext.UpfDownEvent` | cp/upf.c:102-119 | the link goes down and nothing else changes |
| `Association.UpfContext.HandleSetupResponse` | cp/pfcp/msg/pfcp_association_setup_response.c:45-68 | an unknown response changes nothing; an accepted one associates and queues the success, a refused one does not and queues the failure |
| `Association.UpfContext.HandleSetupRequest` | cp/pfcp/msg/pfcp_association_setup_request.c:133-133 | the UPF's own association request |
| `Association.UpfContext.DrainOnFailure` | cp/procedures/proc_pfcp_assoc_setup.c:301-329 | the failure drain, as a loop |
| `Association.UpfContext.DrainOnSuccess` | cp/procedures/proc_pfcp_assoc_setup.c:331-354 | the success drain, as a loop, with the endless loop and the missing procedure as outcomes |
| `Association.UpfContext.ProcessEvent` | cp/cp_io_poll.c:42-57 | one round of the event loop on the context |
| `Scheduler.AllowedExactly` | cp/procedures/proc.c:30-64 | a child may start at once exactly when its RAR parent is queued with only RARs behind it |
| `Scheduler.EveryRun` | cp/procedures/proc.c:23-303 | in every run, with re-entrant completions of any depth, a procedure is launched at most once, procedures other than RAR children in arrival order, and a non-empty queue is never idle |
| `Scheduler.PlainRun` | cp/procedures/proc.c:23-303 | without RARs exactly the head of a non-empty queue runs, launches are the first arrivals with none skipped, and no released subscriber is used |
| `Scheduler.EndReleases` | cp/procedures/proc.c:184-274 | the end of a running detach, network-initiated detach or failed attach leaves the subscriber released with an empty queue |
| `Scheduler.MildRun` | cp/procedures/proc.c:184-274 | a run that starts no detach and ends every attach successfully never releases the subscriber, takes in every procedure started, and each was launched or waits |
| `Scheduler.EndLaunches` | cp/procedures/proc.c:247-295 | a completion that releases nobody launches exactly the first k waiting procedures, as far as there are any: k is two for the last child of a running RAR, otherwise one |
| `Scheduler.RunnersAfter` | cp/procedures/proc.c:247-295 | hence how many procedures, and how many ordinary ones, run after a completion |
| `Scheduler.ExclusiveExactly` | cp/procedures/proc.c:283-295 | with no other ordinary procedure running, a completion leaves at most one running if and only if it is not that of a running RAR's last child with two ordinary procedures next |
| `Scheduler.AccompaniedExactly` | cp/procedures/proc.c:283-295 | the exact condition on the queue under which an ordinary procedure runs beside another after a completion |
| `Scheduler.StartExclusive` | cp/procedures/proc.c:23-66 | a start launches an ordinary procedure only on an empty queue |
| `Scheduler.StartsAtOnceExactly` | cp/procedures/proc.c:23-66 | a new procedure joins the queue and is counted for its parent; it is launched at once if and only if the queue was empty or it is a child of a queued RAR with only RARs behind |
| `Scheduler.RarSceneReached` | cp/procedures/proc_rar.c:44-74 | a RAR with its child running and two ordinary procedures waiting is reachable |
| `Scheduler.RarRunsTwoAtOnce` | cp/procedures/proc.c:247-295 | from there the child's end launches both waiting procedures at once |
| `Scheduler.LateSceneReached` | cp/procedures/proc_rar.c:44-74 | a RAR whose second child waits behind an ordinary procedure is reachable |
| `Scheduler.RunsBesideRar` | cp/procedures/proc.c:283-295 | there the first child's end launches the ordinary procedure beside the running RAR |
| `Scheduler.DanglesExactly` | cp/procedures/proc.c:247-295 | the last child's completion uses the subscriber after its release exactly if the parent's nested completion released it |
| `Scheduler.DetachSceneReached` | cp/procedures/proc_rar.c:44-74 | a detach that completes at once, waiting behind a RAR and its child, is reachable |
| `Scheduler.DanglingReachable` | cp/procedures/proc.c:283-295 | there the child's end goes on with a released subscriber |
| `Scheduler.Subscriber.IsAllowedBeside` | cp/procedures/proc.c:30-64 | the scan of the queue decides the exemption |
| `Scheduler.Subscriber.StartProcedure` | cp/procedures/proc.c:23-66 | has the effect of the start function, including everything the handler does inside |
| `Scheduler.Subscriber.EndProcedure` | cp/procedures/proc.c:148-303 | has the effect of the end function, including the parent's nested end and the next launch |
| `Scheduler.Subscriber.ChildProcDone` | cp/procedures/proc_rar.c:53-74 | the last child's end ends the parent |
| `TransactionTable.CompIsTotalOrder` | cpplib/spgw_tables.h:19-37 | the comparator is irreflexive and transitive, and only equal keys are equivalent |
| `TransactionTable.InsertLookup` | cpplib/spgw_tables.cpp:16-24 | after an insert, every lookup is as before except that a key that was absent is found |
| `TransactionTable.EraseLookup` | cpplib/spgw_tables.cpp:43-59 | after a delete, every lookup is as before except that the key is gone |
| `TransactionTable.SpgwTables.AddTrans` | cpplib/spgw_tables.cpp:16-24 | with the positionally filled key the map behaves as a finite map from address, port and sequence number; an entry stays |
| `TransactionTable.SpgwTables.FindTrans` | cpplib/spgw_tables.cpp:26-41 | finds exactly that map's entry |
| `TransactionTable.SpgwTables.DeleteTrans` | cpplib/spgw_tables.cpp:43-59 | removes and returns exactly that map's entry |
| `Transactions.CleanupFinishes` | cp/cp_transactions.c:209-233 | cleaning up an unfinished transaction finds its own entry, unlinks it, stops its timer and queues it |
| `Transactions.CleanupTwice` | cp/cp_transactions.c:209-263 | cleaning up again changes nothing |
| `Transactions.FaultExactly` | cp/cp_transactions.c:223-232 | a clean-up faults exactly on a dangling procedure or an entry that is not the transaction's own, a time-out handler on a dangling link |
| `Transactions.RetryOutcome` | cp/procedures/proc_detach.c:210-234 | an expiry on an unfinished transaction sends once more while the count stays below request_tries, otherwise fails it and ends the procedure; the counter does not wrap |
| `Transactions.SendExactly` | cp/procedures/proc_initial_attach.c:1698-1715 | sending keeps the invariant if and only if the procedure awaits no answer and the sequence number is not in flight |
| `Transactions.SendRecords` | cp/procedures/proc_initial_attach.c:1698-1715 | a send makes a record of the request to that peer, sent once, timed, linked, and found by its answer's name |
| `Transactions.ReportTaken` | cp/pfcp/msg/pfcp_session_report.c:35-80 | a report of a new name gets a table entry and a procedure that points to it; a known name changes nothing |
| `Transactions.NextKeeps` | cp/cp_transactions.c:137-263 | every step keeps the links between table, transactions and procedures, the counts and the freeing queue |
| `Transactions.RunKeeps` | cp/cp_transactions.c:137-263 | so does every run whose requests use sequence numbers not in flight |
| `Transactions.RequestsKept` | cp/cp_transactions.c:137-263 | no step changes the peer, sequence number or procedure of a transaction |
| `Transactions.EndTakesAway` | cp/procedures/proc.c:159-169 | a procedure's end takes it away and finishes, unlinks and queues the transaction it points to |
| `Transactions.OutcomesBounded` | cp/procedures/proc_s1_release.c:95-118 | in every such run a request is sent at most max(1, request_tries) times, has at most one outcome and no timer running after it, and no assertion fails |
| `Transactions.FreedOnce` | cpplib/delayed_task.cpp:10-29 | a finished transaction is in the freeing queue or freed, once in all; a freed one is in no table and linked to no procedure |
| `Transactions.ReapAll` | cp/cp_init.c:82-108 | as many rounds as blocks are queued free them all, in order |
| `Transactions.DoneStaysDone` | cp/cp_transactions.c:137-153 | once a transaction is finished, no later step of any run changes it |
| `Transactions.ExpiriesBounded` | cp/procedures/proc_service_request.c:104-128 | the eight-bit counter equals the number of expiries that found the transaction unfinished, at most max(1, request_tries) |
| `Transactions.AlwaysTimed` | cp/cp_transactions.c:40-94 | in every run whose timer restarts succeed, every unfinished request has its timer running |
| `Transactions.ReusedSequenceFaults` | cp/cp_transactions.c:223-226 | with a sequence number still in flight the clean-up assertion fails |
| `Transactions.TransactionKeeper.SendRequest` | cp/procedures/proc_initial_attach.c:1698-1715 | the send step on table and records |
| `Transactions.TransactionKeeper.HandleReport` | cp/pfcp/msg/pfcp_session_report.c:35-80 | the report step; accepted exactly when its name is not in the table |
| `Transactions.TransactionKeeper.ReceiveResponse` | cp/pfcp/msg/pfcp_session_delete_response.c:31-50 | the response step; found exactly when the sequence number is in the table |
| `Transactions.TransactionKeeper.FreeLater` | cp/cp_transactions.c:254-263 | queues a block unless it is marked already |
| `Transactions.TransactionKeeper.CleanupPfcpTrans` | cp/cp_transactions.c:209-233 | the clean-up on table and records |
| `Transactions.TransactionKeeper.Finish` | cp/procedures/proc.c:163-165 | the transaction part of a procedure's end |
| `Transactions.TransactionKeeper.TimeoutHandler` | cp/procedures/proc_detach.c:210-234 | the retry handler, through the procedure's link |
| `Transactions.TransactionKeeper.RetryCallback` | cp/cp_transactions.c:137-153 | the timer callback, silent for a marked transaction |
| `Transactions.TransactionKeeper.ReapOne` | cpplib/delayed_task.cpp:16-29 | one block leaves the queue, in order |
| `Bearers.DrainExactly` | cp/procedures/proc_bearer_create.c:652-739 | on rules to add, with room for any number cap of packet detection rules, the pass drains the list if and only if it fits: at most one new class, a slot for it and room in every bearer; then every bearer has gained its class's rules in order |
| `Bearers.CodeDrainsExactly` | cp/pfcp/common/pfcp_cp_session.c:72-104 | as the message is filled from the rule's two entries once per packet detection rule of the bearer, the code drains the list if and only if each class has at most one rule, for a bearer without packet detection rules, and at most one class is new |
| `Bearers.SecondRuleOverruns` | cp/procedures/proc_bearer_create.c:702-702 | two rules of one new class make the second fill read past the rule's entries |
| `Bearers.BusyBearerOverruns` | cp/procedures/proc_bearer_create.c:702-702 | so does one rule of the class of a bearer that has packet detection rules already, as a default bearer has |
| `Bearers.DrainKeeps` | cp/procedures/proc_bearer_create.c:652-739 | a drained pass over any rules, whatever the cap, keeps one bearer per class and the array bounds, and makes at most one bearer |
| `Bearers.DrainCounts` | cp/procedures/proc_bearer_create.c:861-923 | a drained list of rules to add leaves one entry and two packet detection rules more for each rule |
| `Bearers.GivenUpExactly` | cp/procedures/proc_bearer_create.c:718-733 | a list that also modifies rules is given up if and only if some rule modifies a class that the rules before it leave without a bearer |
| `Bearers.StopLeaves` | cp/procedures/proc_bearer_create.c:718-733 | it then leaves the list from that rule on, and the bearers as the rules before made them |
| `Bearers.OnlyAddsChange` | cp/procedures/proc_bearer_create.c:718-738 | without rules to add no bearer changes, and the list is drained exactly if every rule to modify has a bearer |
| `Bearers.DrainAppends` | cp/procedures/proc_bearer_create.c:652-739 | the outcome of any list is that of its first part continued with the rest |
| `Bearers.OpenKeepsExactly` | cp/procedures/proc_bearer_create.c:681-684 | making a bearer keeps every class served if and only if the slot num_bearer counts to is free |
| `Bearers.DefaultBearerLost` | cp/procedures/proc_bearer_create.c:681-684 | a default bearer with identity 6 is lost to the first dedicated bearer |
| `Bearers.PdnConnection.GetBearer` | cp/pdn.c:20-49 | the loop finds the first bearer of the class |
| `Bearers.PdnConnection.FillCreateInfo` | cp/pfcp/common/pfcp_cp_session.c:72-104 | the loop stays inside the rule's entries exactly for at most two rounds, and then copies them |
| `Bearers.PdnConnection.FillSessionModification` | cp/procedures/proc_bearer_create.c:652-739 | the loop, with the message filled for each rule, has the outcome and the state of the code's pass |
| `Apn.DecodeEncode` | cpplib/spgw_config.cpp:186-202 | a label reader gets back the labels written |
| `Apn.CountedIsEncoded` | cpplib/spgw_config.cpp:186-202 | what the backward loop leaves is the encoding of the labels between the dots |
| `Apn.RoundTrip` | cpplib/spgw_config.cpp:186-202 | every dotted name comes back from the loop's result |
| `Apn.EncodeLoop` | cpplib/spgw_config.cpp:266-276 | the in-place backward loop, for every name that fits with its length byte |
| `Apn.EncodeInPlace` | cpplib/spgw_config.cpp:186-202 | a requested name that fits with its terminator fills exactly the encoded bytes and a zero, and touches nothing behind |
| `Apn.EncodeProfileName` | cpplib/spgw_config.cpp:261-276 | a profile's name of up to 63 bytes fills exactly the encoded bytes of a zeroed field |
| `Apn.LengthExactly` | cpplib/spgw_config.cpp:277-277 | strlen of the buffer is the encoded length if and only if no label is empty |
| `Apn.SameFieldExactly` | cpplib/spgw_config.cpp:441-441 | strcmp finds two encoded names equal if and only if they agree in the labels before their first empty one |
| `Apn.SameNameExactly` | cpplib/spgw_config.cpp:441-441 | for names without empty labels that means equal names |
| `Apn.EmptyLabelAmbiguous` | cpplib/spgw_config.cpp:441-441 | with an empty label two names compare equal |
| `Selection.SortSorted` | cpplib/spgw_config.cpp:242-242 | sorting orders the rules by priority number |
| `Selection.SelectsBest` | cpplib/spgw_config.cpp:411-449 | the rule found matches, has the smallest priority number of those matching, and is the earliest in the file among ties |
| `Selection.SelectsNoneExactly` | cpplib/spgw_config.cpp:411-449 | none is found exactly when none matches |
| `Selection.OrderIrrelevant` | cpplib/spgw_config.cpp:26-32 | with distinct priorities the order of the file does not matter |
| `Selection.ImsiDecides` | cpplib/spgw_config.cpp:415-425 | a rule on a range of subscribers matches exactly the requests of a subscriber in it |
| `Selection.TacDecides` | cpplib/spgw_config.cpp:426-436 | a rule on network and area matches exactly the requests with its area code, whatever their network |
| `Selection.ApnDecides` | cpplib/spgw_config.cpp:437-445 | a rule on a name matches a request for a name if and only if the two agree up to their first empty labels; without empty labels, if and only if they are equal |
| `Selection.KeysConjoin` | cpplib/spgw_config.cpp:415-446 | a rule on several keys matches exactly when each key does, one on none everyone |
| `Selection.ConfigStore.LoadRules` | cpplib/spgw_config.cpp:240-242 | the store holds the sorted rules of the file |
| `Selection.ConfigStore.MatchSubSelection` | cpplib/spgw_config.cpp:411-449 | the loop returns the first match |
| `Heartbeat.CounterIsSilence` | cp/cp_peer.c:50-271 | in every run, stale events and failed timer starts included, the counter of a live peer is the number of transmit expiries handled since it was added or heard of, and never passes the number of tries it was added with |
| `Heartbeat.DownExactly` | cp/cp_peer.c:71-110 | a step takes a peer down if and only if it handles an event for its address after exactly as many such expiries as the peer was added with |
| `Heartbeat.StaleExactly` | cp/cp_peer.c:36-69 | an event queued before a peer's record was made is not an expiry of its timers, one queued since by its timer is |
| `Heartbeat.StaleChangesNothing` | cp/cp_peer.c:59-187 | a stale event that does not take the peer down changes no record, and no event changes another peer's |
| `Heartbeat.LifeRestarts` | cp/cp_peer.c:225-269 | a sign of life resets the counter and leaves the periodic timer alone running; adding the peer again starts it and changes nothing else |
| `Heartbeat.WatchedExactly` | cp/cp_peer.c:179-185 | a step leaves a live peer without a timer if and only if the start fails on which its last timer depended |
| `Heartbeat.AlwaysWatched` | cp/cp_peer.c:179-271 | in every run whose timer starts succeed a live peer has a timer armed |
| `Heartbeat.ForgottenStays` | cp/cp_peer.c:179-185 | a peer left without timer and event is never taken down until it is heard of or added again |
| `Heartbeat.ForgottenReachable` | cp/cp_peer.c:179-185 | a run in which a failed start leaves a peer so |
| `Heartbeat.PeerTable.AddNodeConnEntry` | cp/cp_peer.c:189-241 | the add step |
| `Heartbeat.PeerTable.ProcessResponse` | cp/cp_peer.c:243-271 | the sign-of-life step |
| `Heartbeat.PeerTable.TimerCallback` | cp/cp_peer.c:36-48 | an expiry is queued |
| `Heartbeat.PeerTable.HandleTimeoutEvent` | cp/cp_peer.c:50-187 | the event step; reports exactly whether a peer was removed |

## Left out

- The copy of a name into the resolver's 64-byte field: names that do not fit are not modelled.
- More than one thread calling the resolver: the code has one.
- The error returns after create_ue_context (cp/procedures/proc_initial_attach.c:399-465): the four fill functions they test never fail.
- The second PGW-only create path (cp/procedures/proc_initial_attach.c:1200-1240).
- Gx transactions, and the path of cp/ue.c:319-322 that hands one to the PFCP clean-up.
- GTP transactions: same shape as the PFCP ones, except that a clean-up reads the peer address through the procedure.
- Transactions.NextKeeps: a timer signal that arrives after its block was freed is not modelled; deferred freeing is there to outlive it.
- Transactions.TransactionKeeper.SendRequest: the node-level retry callback with its fixed limit of three is not modelled.
- Association.NextKeeps: an association time-out runs as one step with respect to the event loop, outside its queue.
- The limit on children of a RAR, the rule scans of the RAR handler, and progress of RAR children queued behind other work.
- Scheduler.EveryRun: completing a procedure that is not queued and running has no effect in the model.
- Sessions.Gateway.Attach: one PDN connection per subscriber; the call-id and Gx-session tables are not modelled. The TEID base is a constant: the assignment in cp/pfcp/common/pfcp_cp_session.c:1659, which turns a combined gateway into a PGW on its first dedicated bearer and so changes base and counter, is not modelled.
- Bearers.DrainExactly: the rule-name map, failed allocations and the contents of packet detection rules and of the message are not modelled.
- Rules to delete: the draining loop removes them unprocessed, so the loop after it never has one; only the draining loop is modelled.
- Apn.EncodeInPlace: a requested name of 63 bytes or more does not fit the field with its terminator and is not modelled.
- PLMN bytes in rule selection: the code compares the rule's bytes with themselves, and the model follows it.
- The parsing of the configuration, its profiles and its hot replacement.
- Scheduler.EndLaunches: the waiting procedures' handlers launch nothing of their own, and only RARs have children.
- Heartbeat.CounterIsSilence: the four kinds of peer count alike; sequence numbers and the contents of requests are not modelled.
- The UPF-by-address table, message reference counts, statistics, logging, SGW relocation, and all message encoders and decoders.
