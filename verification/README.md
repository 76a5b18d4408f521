# FlexRIC: the xApp - iApp - near-RIC - agent protocol, modelled and proved in Dafny

The project models the functional procedures that FlexRIC runs between xApps and E2
nodes (the RIC Subscription, Subscription Delete, Indication and Control procedures of
section 8.2 of O-RAN.WG3.E2AP-v01.01) together with FlexRIC's own E42 hop between an
xApp and the iApp, and the tables that keep the four parties consistent. `dafny verify
dfyconfig.toml` checks everything.

## What is modelled

**The protocol as one transition system** (`Protocol.dfy`). Any number of xApps and E2
agents, the iApp thread and the RIC thread of the near-RT RIC process, and FIFO
channels between them. A handler is one step, except for the handlers of the RIC
process: there receiving, taking the id-map lock, drawing an id and entering it in
`pending`, sending, inserting the pair, unlocking, looking a pair up and sending the
translated answer are steps of their own, which the other thread can come between. A C
assertion that fails, or a write past the end of an array, is the outcome `Abort`.

- `Tables.dfy` holds the tables of the parties as values, `Invariant.dfy` what every
  reachable state satisfies. Its core is the `View` of one request across the whole
  system: registry, call, pending table, channels and agent together.
- `RequestLife.dfy` proves what each event does to a view; `XappSteps.dfy`,
  `IappSteps.dfy`, `PendSteps.dfy`, `RicSteps.dfy` and `AgentSteps.dfy` prove that each
  step keeps the invariant and when an assertion can fail; `Stability.dfy` proves what no
  step takes back; `Runs.dfy` lifts this to runs.
- `EndToEnd.dfy` holds the main results about reachable states, and `History.dfy` relates
  states to the steps of their run: the calls made, the nodes set up, the timers fired.
- `Progress.dfy` shows that a waiting call is never stuck. `Totals.dfy`, `Work.dfy` and
  `Drain.dfy` give a measure that every internal step but an indication lowers, so that
  all calls complete.
- `Safety.dfy` and `Failures.dfy` prove when a run can fail, in both directions: the
  failing continuations are constructed.
- `Scenario.dfy` runs one subscription to the end.
- `LockSteps.dfy` ties the mutexes of `Locks.dfy` to the steps.

**The parts as objects**, in the form of the source: `NearRic.dfy` (counter, pending
table, id map, forwarding that overwrites the id in the message, translation back),
`Agent.dfy` (timers, epoll set, event dispatch), `Xapp.dfy`, `ActProc.dfy` and
`AssocReg.dfy` (procedure registry over an ordered array with tombstones, binary search
and compaction), `PendingXapp.dfy`, `SyncUi.dfy`, `RegE2Nodes.dfy`, `NodeTables.dfy`,
`PubSub.dfy`, `SeqRing.dfy` and `DbWriter.dfy`, `Locks.dfy`, `IdAlloc.dfy`,
`AssocTree.dfy`, `Orders.dfy` and `BiMapTrees.dfy`. Their methods are proved against
functions on values, and the properties are lemmas about those functions.

## Assumptions

- Channels are reliable and FIFO; one RIC lifetime; a node sets up once and does not
  leave (the node tables have their own model with shutdowns).
- Each xApp has one caller thread.
- The xApp sends a request before it records the pending timer and before it resets the
  wait flags (`src/xApp/msg_handler_xapp.c:507-516`, `src/xApp/e42_xapp.c:398-401`). The
  protocol model takes sending, recording and starting to wait as one step. What goes
  wrong without this is shown by `SyncUi.EarlySignalIsLost`.
- A new timer gets a descriptor that is not open; descriptors are reused after closing.
- Setup answers come before the 3000 ms resend, answers of an agent before the 3000 ms
  timers of the near-RIC (`src/ric/near_ric.c:341`), and answers to the calls of an xApp
  before its 5000 ms timers (`src/xApp/e42_xapp.c:252-254`) and the timeout of its wait
  (`src/xApp/sync_ui.c:82`).
- Messages are encoded by the default, ASN.1, and fit their buffers. Node ids are of the
  types that this encoding carries (gNB, gNB-CU, gNB-DU, eNB) and within its widths.
- The seven service models are loaded everywhere. Assertions on the contents of payloads
  and of control messages (as their supported action number) hold; those on types and
  functions are modelled. Answers report success with one admitted action.
- The ids of the E2 nodes are of one family (see below), and registered nodes are told
  apart by their whole id.
- Masking with `cap - 1` is taken as the remainder, since `cap` is a power of two.

## Where the code falls short of its intention

- Request ids come from one counter truncated to 16 bits, and the length of an array of
  connected nodes is a `uint8_t`. Runs without a bad call are safe for exactly up to
  64515 calls that open a procedure and up to 255 nodes (`Failures.SafeUpToIff`). The
  next request draws the id 0, and its answer fails the assertion `ric_req_id > 0`. With
  more nodes the iApp writes past the array that it takes of them, at the setup of an
  xApp and at the check of a request (`RegE2Nodes.Registry.Generate`,
  `Failures.CrowdedSetupFails`, `Failures.CrowdedReportFails`).
- The setup of an xApp fails the iApp while no node is connected: the encoding of the
  response asserts at least one (`src/lib/ap/enc/e2ap_msg_enc_asn.c:2716`).
- A control call is checked against the connected nodes by the iApp only, which it fails
  when the node is not connected; a report is checked by the xApp, against the nodes it
  was told of at its setup (`src/xApp/e42_xapp_api.c:150`).
- The traffic control model (RAN function 146) can be subscribed to, but the near-RIC
  asserts that an indication is of another type (`src/ric/msg_handler_ric.c:280`), and so
  does the xApp (`src/xApp/msg_handler_xapp.c:255`). The first indication after such a
  report stops the near-RIC (`Failures.OneTcReportFails`).
- The comparator and the equality of E2 node ids compare plmn and nb_id only as soon as
  two ids are of different classes. They form a total order exactly on id sets of one
  family: monolithic nodes, CUs and DUs, or one monolithic type besides MBMS stations
  (`Orders.NodeOrderIffOneFamily`).
- `valid_xapp_id` also accepts the next id and the ids below the first one
  (`EndToEnd.ValidXappIdIff`).
- `publish_ind_msg` walks the listeners of the first key: right exactly when all
  functions have the same listeners (`PubSub.PublishesRightIff`), as after the default
  loading.
- The agent's dispatch fails an assertion exactly when two setup timers are armed
  (`Agent.FdPartition`), as after a connection loss before the setup answer
  (`Agent.LossBeforeAnswer`).
- `bi_map_extract_left` compares a value with a key
  (`BiMapTrees.ExtractLeftIff`); only functions that nothing calls use it.
- The xApp's pending table compares kinds only; extraction is right exactly when the entry
  that it selects is the one asked for (`PendingXapp.CoarseIsExactIff`), as for a
  synchronous caller.
- Overwriting the request id writes 16 of its 32 bits (`NearRic.PatchLow`); that replaces
  the id because an xApp hands out ids below 65536.

## Model

| member | source | states |
|---|---|---|
| EndToEnd.EndToEndAgreement | src/xApp/e42_xapp.c:389-506 | In every reachable state with no call outstanding, each procedure registered at any xApp has a live subscription at an agent and each live subscription has its procedure, joined by one pair of the id map, on the same node and RAN function |
| EndToEnd.PairingIsOneToOne | src/ric/iApp/map_ric_id.c:128-145 | The pairing of procedures and subscriptions is one to one in every reachable state |
| EndToEnd.ProcedureHasSubscription | src/xApp/e42_xapp.c:389-413 | A procedure that no call is about has its subscription, even while other xApps are busy |
| EndToEnd.SubscriptionHasProcedure | src/agent/msg_handler_agent.c:132-163 | A subscription whose request no call is about has its registered procedure |
| History.LiveAreReports | src/xApp/e42_xapp.c:374-453 | On every run, with no call outstanding, the live subscriptions are exactly the report calls of the run whose handles it has not asked to remove, each at the node and for the RAN function that the call named |
| History.LiveFromReport | src/xApp/e42_xapp.c:389-413 | In every state of a run a live subscription at a node, for a RAN function, was asked for by a report step that names this node and function |
| History.RunRecorded | src/xApp/act_proc.c:74-103 | In every state of a run the keys of each xApp number its opening calls, what is registered under a key and what is bound for it is what that call named, and a report stays registered until its removal |
| History.ReportAsks | src/xApp/e42_xapp.c:389-401 | A report sends, registers, times and awaits the node and function that the caller names, under the xApp's next number, and changes nothing else |
| History.ControlAsks | src/xApp/e42_xapp.c:481-498 | So does a control call |
| History.RmAsks | src/xApp/e42_xapp.c:430-446 | The removal of a report sends, times and awaits the id that the report had under this handle |
| History.IndicationsArrive | src/agent/e2_agent.c:326-340 | On every run the indications that an xApp has received under an id are a front of what the timers of that subscription had to report, in order, and all of it when nothing is on its way |
| History.ToldIff | src/ric/iApp/msg_handler_iapp.c:175-194 | On every run an xApp knows a node if and only if the node was set up before the xApp |
| History.ReportForKnownNode | src/xApp/e42_xapp_api.c:141-156 | A report for a node that was set up before the xApp is never refused for its node: it fails exactly for an unknown function or after 65535 opening calls |
| History.NodesAreSetUp | src/ric/msg_handler_ric.c:348-378 | The connected nodes are those that a step has set up, each on the association of its own setup |
| EndToEnd.TraceShape | src/xApp/msg_handler_xapp.c:237-276 | On every run, what an xApp receives under one request number belongs to one id and is a prefix of SubResponse Indication* DeleteResponse, or one ControlAck, and no indication ever finds its procedure missing |
| EndToEnd.AnswersConserved | src/ric/iApp/msg_handler_iapp.c:84-141 | What an agent has emitted under a RIC id is what the xApp has received under its own id followed by what is in flight: nothing lost, doubled, reordered or changed |
| EndToEnd.PendingIsOutstanding | src/ric/near_ric.c:765-780 | The right side of `pending` is exactly the set of requests sent and not yet answered, wherever they or their answers are; its left side is exactly the live timers, in bijection |
| EndToEnd.AnswerRemovesOne | src/ric/msg_handler_ric.c:120-136 | Each answer removes exactly the entry of its request and one timer; an indication removes none |
| EndToEnd.AnswerComesHome | src/ric/iApp/msg_handler_iapp.c:84-141 | Any later answer under a drawn id comes from the node of the request and reaches the socket of the xApp that made it, with its original id restored and function and instance unchanged |
| EndToEnd.DeleteReachesSameNode | src/ric/iApp/msg_handler_iapp.c:270-293 | A later delete is looked up, entered and sent with the same node and the same RIC id as its subscription |
| EndToEnd.CoarseRefinesExact | src/xApp/pending_event_xapp.c:167-185 | In every reachable state the xApp's table, which compares kinds only, holds at most one entry, and an arriving answer extracts the entry of its own kind and id |
| EndToEnd.LastIdIsZero | src/ric/near_ric.c:760-762 | The id drawn in a reachable state is (1021 + k) mod 65536, and it is 0 exactly after 64515 forwarded requests |
| EndToEnd.ValidXappIdIff | src/ric/iApp/msg_handler_iapp.c:246-251 | In every reachable state the check of an xApp id accepts exactly the registered xApps, the next id, and the ids below the first one |
| Runs.ReachableInv | src/ric/iApp/msg_handler_iapp.c:296-326 | The system invariant holds after every run of at most 64515 forwarded requests and 65536 xApps, under every interleaving |
| Runs.AssertionsHold | src/ric/msg_handler_ric.c:257-294 | In every reachable state a step fails if and only if it is a call that the caller could have known to fail (unknown RAN function, a node the xApp was not told of, no keys left, unregistered handle, a control message that does not fit or is not admitted, a setup with no node connected, one xApp too many), the iApp has to list more than 255 nodes or to find one that is not connected, or the near-RIC handles an indication of the traffic control model |
| Safety.DecentNeverAborts | src/ric/iApp/msg_handler_iapp.c:312-321 | A run of at most 64515 opening calls, none of them bad, in which the iApp never has to list more than 255 nodes, never fails an assertion, under every interleaving |
| Safety.DecentFine | src/ric/near_ric.c:755-783 | The invariant holds after such a run, and the requests that have drawn an id and those that wait for one are together its opening calls |
| Failures.CallIsSafeIff | src/ric/msg_handler_ric.c:276-282 | After such a run, some continuation without further calls fails if and only if the step is bad (it fails at once, reports the traffic control model, or controls a node that is not connected), makes the iApp list more than 255 nodes (a setup or an opening call with more, or the 256th node while a request waits), or opens one procedure too many |
| Failures.SafeUpToIff | src/ric/iApp/map_ric_id.c:160-163 | Runs without a bad call, with at most n opening calls and at most m nodes, are safe if and only if m is at most 255 and n at most 64515, or there are no nodes at all |
| Safety.FewNodesRoomy | src/lib/msg_hand/e2_node_arr.h:34-37 | In a run of at most 255 node setups the iApp never has to list more nodes than fit |
| Failures.RestAfter | src/ric/near_ric.c:811-840 | For every n up to 64515 there is a run that has forwarded n requests and is at rest |
| Failures.OneTooMany | src/ric/iApp/map_ric_id.c:160-163 | There is a run without a bad call that fails with its 64516th opening call |
| Failures.OneTcReportFails | src/ric/msg_handler_ric.c:276-282 | There is a run with one report of the traffic control model and no other opening call that fails |
| Failures.CrowdedSetupFails | src/ric/iApp/msg_handler_iapp.c:175-194 | There is a run of 256 node setups and one xApp setup that fails |
| Failures.CrowdedReportFails | src/ric/iApp/msg_handler_iapp.c:254-268 | There is a run of 256 node setups and one report, not bad, that fails |
| Drain.DrainOut | src/ric/iApp/msg_handler_iapp.c:296-326 | From every sound state the system can go on by itself until nothing is left to do, losing no request |
| Drain.DrainingEnds | src/xApp/sync_ui.c:64-88 | Without indications no schedule is longer than the work that is left |
| Drain.DrainedQuiet | src/xApp/e42_xapp.c:389-506 | When nothing is left to do, the iApp is idle and has no request to refuse, every call has returned and all channels are empty |
| Work.DrainingWorks | src/ric/iApp/msg_handler_iapp.c:296-326 | Every internal step but an indication lowers the measure of work, keeps the number of requests, and brings in nothing that the near-RIC refuses |
| Runs.BoundForGood | src/ric/iApp/map_ric_id.c:128-145 | The binding of a drawn id never changes for the rest of the run |
| Runs.ReachableKnown | src/ric/iApp/map_ric_id.c:160-180 | Whatever has been looked up, delivered or received on any run had its pair in the id map |
| Progress.WaitingCallMoves | src/xApp/sync_ui.c:64-88 | While a call waits, a step on its own path can be taken: its channels, those of its node, or the threads between them; only an indication that the near-RIC refuses and a request that the iApp refuses fail |
| Progress.ThreadsMove | src/ric/iApp/msg_handler_iapp.c:312-321 | If one of the two threads of the RIC process is inside a handler, a step of one of the two can be taken, whoever holds the id-map lock |
| Scenario.OneSubscription | src/xApp/e42_xapp.c:389-413 | There is a reachable state at rest with one live subscription that is paired end to end |
| RicSteps.FindNoAbort | src/ric/iApp/map_ric_id.c:160-180 | Under every interleaving with the iApp thread the lookup of an answered id succeeds and function and instance agree |
| RicSteps.StopAbort | src/ric/msg_handler_ric.c:120-136 | Stopping the timer of an answered request never misses its entry; the handlers fail on refused indications alone |
| RicSteps.SendNoAbort | src/ric/iApp/map_xapps_sockaddr.c:130-145 | The xApp of a translated answer has a registered socket |
| RicSteps.RouteHome | src/ric/iApp/msg_handler_iapp.c:84-108 | What the lookup gives is the request that the answer's id was drawn for, at the socket of its xApp |
| RicSteps.Recv | src/ric/near_ric.c:398-411 | Receiving an answer keeps the invariant |
| RicSteps.Stop | src/ric/msg_handler_ric.c:120-136 | Stopping a timer keeps the invariant |
| RicSteps.Find | src/ric/iApp/map_ric_id.c:160-180 | The lookup keeps the invariant |
| RicSteps.Send | src/ric/iApp/msg_handler_iapp.c:96-108 | Sending the translated answer keeps the invariant |
| IappSteps.Recv | src/ric/iApp/msg_handler_iapp.c:296-303 | Receiving a request keeps the invariant |
| IappSteps.RecvAbort | src/ric/iApp/msg_handler_iapp.c:246-267 | In every state of the invariant the checks of a request fail exactly if its node is not connected or more than 255 nodes are; the xApp id always passes |
| IappSteps.AddPair | src/ric/iApp/map_ric_id.c:128-145 | Inserting the pair after the request has been sent keeps the invariant |
| IappSteps.AddNoAbort | src/ric/iApp/map_ric_id.c:138-142 | The new id is never in the map already |
| IappSteps.FindNoAbort | src/ric/iApp/map_ric_id.c:182-197 | A delete finds the pair of its subscription |
| PendSteps.PendNew | src/ric/near_ric.c:755-775 | Drawing an id and entering the request keeps the invariant: the new request is known nowhere else |
| PendSteps.PendDelete | src/ric/near_ric.c:785-801 | Entering a delete keeps the invariant |
| PendSteps.Send | src/ric/near_ric.c:777-782 | Sending after the entry was made keeps the invariant |
| PendSteps.PendNewNoAbort | src/ric/near_ric.c:755-775 | Neither the timer nor the (kind, id) of a new request is in the table already |
| PendSteps.PendDeleteNoAbort | src/ric/near_ric.c:785-801 | No delete of the same subscription is pending already |
| AgentSteps.Recv | src/agent/msg_handler_agent.c:132-250 | Handling a subscription, a delete or a control request at an agent keeps the invariant |
| AgentSteps.RecvNoAbort | src/agent/msg_handler_agent.c:132-189 | A subscription is new to the agent, and a delete finds its subscription |
| AgentSteps.Timer | src/agent/e2_agent.c:325-341 | An indication keeps the invariant |
| AgentSteps.Setup | src/ric/msg_handler_ric.c:348-378 | A new node keeps the invariant |
| XappSteps.Setup | src/ric/iApp/e42_iapp.c:159-165 | A new xApp keeps the invariant: its number is the number of no request, and it knows connected nodes only |
| XappSteps.SetupAbort | src/ric/iApp/msg_handler_iapp.c:175-194 | An xApp is refused exactly when all 65536 ids have been given out, no node is connected, or more than 255 are |
| XappSteps.Open | src/xApp/e42_xapp.c:389-401 | The calls that open a procedure keep the invariant |
| XappSteps.RmReport | src/xApp/e42_xapp.c:430-446 | The call that ends a subscription keeps the invariant |
| XappSteps.Recv | src/xApp/msg_handler_xapp.c:141-306 | The handlers of the answers at an xApp keep the invariant |
| XappSteps.RecvNoAbort | src/xApp/msg_handler_xapp.c:141-163 | Every response finds its procedure and its timer |
| XappSteps.Expected | src/xApp/msg_handler_xapp.c:141-163 | An answer that arrives is the one that the blocked call waits for |
| XappSteps.Return | src/xApp/e42_xapp.c:443-506 | The return of a call keeps the invariant |
| XappSteps.ReturnNoAbort | src/xApp/act_proc.c:91-103 | The procedure that a call removes is registered |
| RequestLife.ClosesOnce | src/ric/msg_handler_ric.c:155-213 | No two answers of one request close the same kind of request |
| RequestLife.Stopping | src/ric/msg_handler_ric.c:120-136 | While an answer is queued its entry is pending, and stopping its timer keeps the rest of the request's state consistent |
| RequestLife.Awaited | src/xApp/msg_handler_xapp.c:141-163 | What arrives tells what the call is waiting for |
| Stability.StepKeepsBound | src/ric/iApp/map_ric_id.c:128-145 | No step overwrites the binding of an id |
| NearRic.NearRicObj.FwdRequest | src/ric/near_ric.c:755-783 | The id handed back is the truncated counter, the message's id is overwritten in place, the entry is made under the new id before the message is sent; nothing else changes |
| NearRic.NearRicObj.FwdDelete | src/ric/near_ric.c:785-809 | A delete is entered and sent under the id it came with |
| NearRic.NearRicObj.HandleAnswer | src/ric/msg_handler_ric.c:155-314 | An answer removes exactly the entry of its request with its timer; an indication of an accepted type calls each listener of the first function once, in order, with this indication, which after the default loading are stdout, redis and influx |
| NearRic.IappObj.HandleRequest | src/ric/iApp/msg_handler_iapp.c:296-354 | The check of a registered node passes, and the pair that is stored joins the new id with the id the xApp used, although forwarding has overwritten it |
| NearRic.IappObj.HandleDelete | src/ric/iApp/msg_handler_iapp.c:270-293 | The delete goes to the stored node under the stored id |
| NearRic.IappObj.NotifyMsg | src/ric/iApp/msg_handler_iapp.c:84-243 | The answer is sent to the socket of the stored xApp under the stored id, for all four kinds |
| NearRic.IappObj.HandleSetup | src/ric/iApp/msg_handler_iapp.c:175-211 | Each xApp gets the next number, under which its socket is registered, and the list of all registered nodes |
| NearRic.HandlerIsItsSteps | src/ric/iApp/msg_handler_iapp.c:296-326 | Without interruption the five protocol steps amount to the request handler |
| NearRic.SetupIsItsStep | src/ric/iApp/msg_handler_iapp.c:175-211 | The protocol's setup step of an xApp that gets a list of all nodes: it knows exactly those, has the next number and its socket, and empty tables |
| NearRic.DeleteIsItsSteps | src/ric/iApp/msg_handler_iapp.c:270-293 | The same for the delete handler |
| NearRic.AnswerIsItsSteps | src/ric/msg_handler_ric.c:155-185 | The same for an answer, from the stopped timer to the translated message |
| IdAlloc.KthId | src/ric/near_ric.c:760-762 | The k-th id is (1021 + k) mod 65536, also through the overflow of the 32-bit counter |
| IdAlloc.CollideIff | src/ric/near_ric.c:817-818 | Two ids are equal exactly when a multiple of 65536 requests lies between them |
| IdAlloc.ConsecutiveDistinct | src/ric/near_ric.c:760-762 | Any 65536 consecutive ids are pairwise distinct |
| IdAlloc.ZeroIff | src/ric/near_ric.c:250 | When id 0 comes up; the first 64515 ids are not 0 |
| IdAlloc.XappsCollideIff | src/ric/iApp/msg_handler_iapp.c:189 | Stored xApp ids repeat exactly every 65536 setups |
| Locks.NoDeadlock | src/ric/iApp/msg_handler_iapp.c:313-321 | Any number of threads that take their mutexes by rank: in every reachable state in which work is left, some thread can go on |
| Locks.RicProcessNeverStuck | src/ric/iApp/msg_handler_iapp.c:313-321 | The iApp thread and the RIC thread, running any sequence of their handlers, never block each other for good |
| Locks.ProgramDisciplined | src/ric/near_ric.c:772-780 | Every handler takes its mutexes by rank and holds none in the end |
| Locks.RunExclusive | src/ric/iApp/map_ric_id.c:160-180 | No two threads hold the same mutex |
| LockSteps.HandlerTakes | src/ric/iApp/msg_handler_iapp.c:296-354 | The mutexes of a handler are those that its steps in the protocol take, in their order |
| LockSteps.LockIsMutex | src/ric/iApp/msg_handler_iapp.c:312-321 | In every state of the protocol the id-map lock changes hands exactly with the steps that lock and unlock its mutex, by the thread of the step |
| Agent.FdPartition | src/agent/e2_agent.c:181-232 | In every reachable state, under any reuse of descriptors, the epoll set is the disjoint union of the network fd, the subscription timers and the setup timers, and all events are dispatched if and only if at most one setup request is unanswered |
| Agent.LossBeforeAnswer | src/agent/not_handler_agent.c:9-21 | The start and a connection loss before the setup answer arm two timers, and the first one that fires is not dispatched |
| Agent.DispatchedToOwner | src/agent/e2_agent.c:263-294 | An event is taken by the branch of the table that holds its fd, and by no other |
| Agent.DispatchNeedsOneSetup | src/agent/e2_agent.c:215-231 | All events are dispatched if and only if at most one setup timer is armed |
| Agent.ProtocolRunsHandler | src/agent/msg_handler_agent.c:132-250 | The agents of the protocol take exactly the steps of this handler, and abort exactly when it may not be called |
| Agent.E2Agent.HandleSubscription | src/agent/msg_handler_agent.c:132-163 | The timer of a subscription enters both tables and the partition is kept |
| Agent.E2Agent.HandleDelete | src/agent/msg_handler_agent.c:175-192 | The subscription and its fd are gone from every table |
| Agent.E2Agent.HandleSetupResponse | src/agent/msg_handler_agent.c:266-290 | The setup timer is stopped and closed |
| Agent.E2Agent.ArmSetupTimer | src/agent/not_handler_agent.c:9-21 | One more setup timer is armed; the fds stay in disjoint tables, and there is at most one setup timer exactly if there was none |
| Agent.E2Agent.NextEvent | src/agent/e2_agent.c:263-294 | Each event is classified by the table that owns its fd |
| Xapp.XappObj.Open | src/xApp/e42_xapp.c:374-401 | The call registers the function and node that it names under the next key, sends them with that id, arms one timer and waits for it; other procedures stay |
| Xapp.XappObj.BeginRm | src/xApp/e42_xapp.c:430-443 | The delete carries the id that the report call had handed out |
| Xapp.XappObj.EndCall | src/xApp/e42_xapp.c:401-506 | A delete or a control call removes its own procedure and no other, a report none; its number is handed out as the handle |
| Xapp.XappObj.HandleAnswer | src/xApp/msg_handler_xapp.c:141-306 | The timer of the answered kind is stopped and the caller is signalled |
| Xapp.XappObj.HandleIndication | src/xApp/msg_handler_xapp.c:237-276 | An indication of an accepted type goes on, with its node, exactly when the procedure is registered |
| Xapp.XappObj.NextEvent | src/xApp/e42_xapp.c:59-107 | An event is the network's or that of an armed timer, never both or neither |
| PendingXapp.CoarseIsExactIff | src/xApp/pending_event_xapp.c:68-83 | In a table of any length with distinct events, extraction by kind and by (kind, id) agree if and only if no entry has the kind or the selected entry is the event itself |
| PendingXapp.TwoEntriesCanDiffer | src/xApp/pending_event_xapp.c:167-185 | Two entries of one kind for which the wrong timer is stopped |
| PendingXapp.CoarseRefinesExactRun | src/xApp/pending_event_xapp.c:95-185 | On every run of a synchronous caller each insertion and extraction gives what a table keyed by (kind, id) gives |
| PendingXapp.PendingEvents.Rm | src/xApp/pending_event_xapp.c:167-185 | The first entry of the kind is taken out and its fd returned |
| PendingXapp.PendingEvents.FindFd | src/xApp/pending_event_xapp.c:115-125 | The scan finds an fd exactly when it is in the table |
| SyncUi.FlagMeaning | src/xApp/sync_ui.c:64-98 | Under every interleaving and any spurious wake-ups, the flag is set exactly if a signal ran after the last reset |
| SyncUi.ReturnMeansSignalled | src/xApp/sync_ui.c:64-88 | A wait returns normally only if a signal ran after this call's reset |
| SyncUi.TestDecides | src/xApp/sync_ui.c:77-79 | The loop is left at a test if and only if a signal ran since the reset |
| SyncUi.AckHolds | src/xApp/sync_ui.c:85-87 | The check of msg_ack after the unlock never fails |
| SyncUi.OnlyTimeoutFails | src/xApp/sync_ui.c:77-87 | On every run an assertion fails if and only if the deadline comes while the caller sleeps |
| SyncUi.SignalledReturns | src/xApp/sync_ui.c:77-98 | On every run a caller that sleeps and has been signalled since its reset wakes, leaves the loop and returns when the mutex is free |
| SyncUi.EarlySignalIsLost | src/xApp/sync_ui.c:69-79 | A signal before the reset is lost: the caller sleeps |
| SyncUi.SyncObj.CondWait | src/xApp/sync_ui.c:64-98 | The first wake-up with a signal or at the deadline decides: a normal return if and only if it brings a signal before the deadline, a timeout if and only if it is at the deadline, still asleep if and only if there is none |
| ActProc.RegistryRoundTrip | src/xApp/act_proc.c:74-130 | On every run a lookup gives back the very id that was handed out, no key is handed out twice, and a control call leaves the live entries as they were |
| ActProc.ActProcs.GenerateRicGenId | src/xApp/e42_xapp.c:374-386 | The id that is handed out is that of the new entry, completed with its key |
| ActProc.ActProcs.Find | src/xApp/act_proc.c:105-130 | The lookup completes the stored id in place and returns it; the registry is the same to everyone |
| ActProc.ActProcs.Rm | src/xApp/act_proc.c:91-103 | Exactly the entry of the key is removed |
| ActProc.MapAgrees | src/xApp/act_proc.c:74-103 | The registry answers like the map that the protocol model uses |
| AssocReg.Registry.Find | src/util/alg_ds/alg/find.c:84-105 | The search finds exactly the live key, through tombstones |
| AssocReg.Registry.LowerBound | src/util/alg_ds/alg/lower_bound.c:13-42 | The binary search splits the buckets at the key |
| AssocReg.Registry.PushBack | src/util/alg_ds/ds/assoc_container/assoc_reg.c:174-196 | A new largest key at the end, whether or not the array is enlarged |
| AssocReg.Registry.Erase | src/util/alg_ds/ds/assoc_container/assoc_reg.c:223-244 | Only the entry of that key disappears, whatever compaction and shrinking do |
| AssocReg.Registry.Partition | src/util/alg_ds/ds/assoc_container/assoc_reg.c:60-73 | The live buckets move to the front in their order |
| AssocReg.LiveAt | src/util/alg_ds/ds/assoc_container/assoc_reg.c:223-244 | A bucket with a value is what a lookup of its key gives, and clearing the mark removes that entry only |
| DbWriter.Worker.Run | src/xApp/db/db.c:92-125 | Under any pushes of other threads, rows written followed by rows queued are the rows pushed, in order; the worker stops only when the queue is closed |
| DbWriter.Worker.Round | src/xApp/db/db.c:96-121 | One round writes the first 1, 10 or 100 rows of the queue, as the size that was read tells, or waits |
| DbWriter.BatchSize | src/xApp/db/db.c:96-112 | 100 rows exactly above 100, 10 exactly from 11 to 100, otherwise one |
| DbWriter.Worker.PopInto | src/util/alg_ds/ds/ts_queue/ts_queue.c:120-181 | The first rows leave the queue in order through the static buffer |
| DbWriter.StaticRows.CreateVal | src/xApp/db/db.c:62-88 | The buffer is written at its next index, within its bounds |
| DbWriter.BatchRefines | src/xApp/db/db.c:92-125 | A batch of any size is as many rounds of a writer that takes one row at a time |
| SeqRing.MaskSlot | src/util/alg_ds/ds/seq_container/seq_ring.c:12-21 | The overflow of the 32-bit indices does not disturb the masked position |
| SeqRing.Ring.PushBack | src/util/alg_ds/ds/seq_container/seq_ring.c:80-91 | The element is appended, also when the buffer is full and moves |
| SeqRing.Ring.Unrolled | src/util/alg_ds/ds/seq_container/seq_ring.c:30-48 | Doubling a full buffer keeps its elements in order, however it wraps |
| SeqRing.Ring.EraseFront | src/util/alg_ds/ds/seq_container/seq_ring.c:93-115 | The first elements are dropped, also across the end of the buffer |
| RegE2Nodes.Registry.Add | src/lib/msg_hand/reg_e2_nodes.c:87-117 | The node goes to its place in the order; exactly it is registered in addition, with the functions it brought, and all other entries stay as they are |
| RegE2Nodes.Registry.Rm | src/lib/msg_hand/reg_e2_nodes.c:272-291 | Exactly the node is removed; the other entries keep their functions |
| RegE2Nodes.Registry.Copy | src/lib/msg_hand/reg_e2_nodes.c:187-226 | The copy has the same nodes and functions in the same order |
| RegE2Nodes.Registry.Generate | src/lib/msg_hand/reg_e2_nodes.c:229-269 | The loop writes past the array if and only if there are more than 255 nodes, first at the truncated length; otherwise the array lists each node once with its RAN functions in the order of registration |
| RegE2Nodes.SnapshotOnce | src/lib/msg_hand/reg_e2_nodes.c:229-269 | Each registered node stands at exactly one position |
| RegE2Nodes.ListsTheAdded | src/lib/msg_hand/reg_e2_nodes.c:87-291 | After any changes the registry, and with it the array, lists exactly the nodes that were added and have not gone since, each with the functions it was added with, in their order |
| RegE2Nodes.Registry.ValidNode | src/ric/iApp/msg_handler_iapp.c:254-268 | True exactly for registered nodes |
| RegE2Nodes.Registry.AddAll | src/xApp/msg_handler_xapp.c:352-357 | The registry of an xApp becomes that of the iApp |
| RegE2Nodes.PutOrdered | src/lib/msg_hand/reg_e2_nodes.c:87-117 | Insertion keeps the order and adds exactly one node |
| RegE2Nodes.DropOrdered | src/lib/msg_hand/reg_e2_nodes.c:272-291 | Removal keeps the order and removes exactly one node |
| NodeTables.RegistriesAgree | src/ric/not_handler_ric.c:30-56 | After every event of any sequence of setups and shutdowns the three registries hold the same nodes, none twice, the bimap is a bijection, and conn_e2_nodes lists the surviving nodes in the order of their setups |
| NodeTables.SurvivorsKeep | src/ric/msg_handler_ric.c:348-378 | On every run the registries hold of each surviving node the functions, in their order, and the association that its own setup brought |
| NodeTables.EqualityIsIdentity | src/lib/ap/e2ap_types/common/e2ap_global_node_id.c:30-76 | Within a family without MBMS stations the equality of the scans is identity |
| NodeTables.NodeKeeper.HandleSetup | src/ric/msg_handler_ric.c:348-378 | A setup enters the node in all three, with the functions it offered |
| NodeTables.NodeKeeper.HandleShutdown | src/ric/not_handler_ric.c:23-57 | A shutdown removes the node of its association from all three |
| NodeTables.NodeKeeper.GenerateSetupResponse | src/ric/msg_handler_ric.c:68-116 | All offered functions are accepted, in order |
| PubSub.DefaultPublishes | src/ric/msg_handler_ric.c:230-254 | After the default loading exactly the listeners of the indicated function are called, once each and in order |
| PubSub.PublishesRightIff | src/ric/msg_handler_ric.c:230-254 | After any sequence of registrations, publishing calls the right listeners for every registered function if and only if all functions were given the same listeners in the same order |
| PubSub.LeastIsCalled | src/ric/msg_handler_ric.c:230-254 | After any registrations the listeners that are called are those of the least registered function |
| PubSub.BuiltHolds | src/ric/near_ric.c:101-125 | The table holds exactly the registered functions, each with its listeners in the order of registration |
| PubSub.CalledCanBeWrong | src/ric/msg_handler_ric.c:230-254 | Two functions with different listeners for which the wrong ones are called |
| PubSub.Publisher.LoadDefault | src/ric/near_ric.c:128-151 | Every loaded function gets stdout, redis, influx in this order |
| PubSub.Publisher.Register | src/ric/near_ric.c:101-125 | The listener goes to the end of its function's list |
| PubSub.Publisher.Publish | src/ric/msg_handler_ric.c:230-254 | The calls made are the list of the first key, in order |
| AssocTree.IndexAgreesWithScan | src/util/alg_ds/ds/assoc_container/assoc_rb_tree.c:392-409 | In any ordered tree of distinct keys the descent finds the entry that the linear scan finds |
| AssocTree.ScanFirst | src/util/alg_ds/alg/find.c:84-105 | The scan gives the first entry in order whose key is equal |
| AssocTree.BuiltIndexAgrees | src/util/alg_ds/ds/assoc_container/assoc_rb_tree.c:237-458 | The same after any sequence of insertions of new keys, extractions and rotations |
| AssocTree.InsertSplices | src/util/alg_ds/ds/assoc_container/assoc_rb_tree.c:237-276 | An insertion puts one entry between the others, whose order stays |
| AssocTree.RotateKeepsOrder | src/util/alg_ds/ds/assoc_container/assoc_rb_tree.c:133-180 | A rotation anywhere changes nothing that an iteration sees |
| AssocTree.RotateRaises | src/util/alg_ds/ds/assoc_container/assoc_rb_tree.c:133-180 | A rotation raises the child into the place of its parent, anywhere in the tree |
| AssocTree.RotateBack | src/util/alg_ds/ds/assoc_container/assoc_rb_tree.c:133-180 | The opposite rotation at the same place restores the tree |
| AssocTree.ExtractRemoves | src/util/alg_ds/ds/assoc_container/assoc_rb_tree.c:412-458 | An extraction removes exactly the entry that the descent finds |
| Orders.PendingRicOrder | src/lib/pending_event_ric.c:27-41 | (kind, ric id) is compared by a total order whose zero case is the equality: by kind, function, instance and number, the smaller first |
| Orders.XappRicIdOrder | src/ric/iApp/xapp_ric_id.c:7-39 | The same for (xApp id, ric id) |
| Orders.SctpInfoOrder | src/lib/ep/sctp_msg.c:33-106 | The same for port, address and family, with the socket equality of the near-RIC |
| Orders.RicGenIdOrder | src/lib/ap/e2ap_types/common/ric_gen_id.c:27-49 | The same for the ric id |
| Orders.CoarseIsNoOrder | src/lib/pending_events.c:27-38 | The comparator on kinds merges requests that the equality tells apart |
| Orders.PendingTableAgrees | src/lib/pending_event_ric.c:27-41 | In a pending table of the near-RIC, however it was built, ordered extraction and linear search select the same entry |
| Orders.XappRicIdTableAgrees | src/ric/iApp/xapp_ric_id.c:7-39 | The same for tables by xApp id and ric id |
| Orders.SctpInfoTableAgrees | src/lib/ep/sctp_msg.c:33-106 | The same for tables by socket address |
| Orders.RicGenIdTableAgrees | src/lib/ap/e2ap_types/common/ric_gen_id.c:27-49 | The same for the agent's table by ric id |
| Orders.NodeOrderIffOneFamily | src/lib/ap/e2ap_types/common/e2ap_global_node_id.c:113-172 | The comparator of node ids is a total order with the equality as its zero case if and only if the ids are of one family |
| Orders.NodeDirection | src/lib/ap/e2ap_types/common/e2ap_global_node_id.c:113-172 | Which of two node ids comes first: the larger by type, plmn, nb_id and CU/DU id within a class, by plmn and nb_id across classes |
| BiMapTrees.InsertRepresents | src/util/alg_ds/ds/assoc_container/bimap.c:55-73 | With the classes of both keys fresh the two trees stay inverse maps, also when a comparator looks at a part of the key only |
| BiMapTrees.ExtractRightRepresents | src/util/alg_ds/ds/assoc_container/bimap.c:101-120 | Extraction succeeds exactly if the class of the key is present, returns its partner and removes both sides |
| BiMapTrees.ExtractLeftIff | src/util/alg_ds/ds/assoc_container/bimap.c:77-98 | Extraction by the left key passes its check exactly if the bytes of the value read as a key of the same class |
| BiMapTrees.IdMapAgrees | src/ric/iApp/map_ric_id.c:128-197 | On the two trees of the id map, whose left one compares request ids alone, both lookups and the insertion are those of the map that the protocol uses |

## Left out

- Sockets, SCTP, epoll, timerfd, plugin loading, threads' start and stop, sqlite, printing: a new descriptor, a FIFO channel and a lock are all that is kept.
- ASN.1 and flatbuffers encoding: messages are datatypes, payloads are numbers. The ranges that the decoders assert hold for all ids and functions of the model; of the encoders' assertions, the one on the number of connected nodes is modelled.
- Service models, the action id and the content of subscriptions: they do not enter the keys of any table.
- Memory ownership and freeing.
- RIC timer expiry with several requests outstanding: `pend_event` of the RIC expects exactly one entry, so nothing is claimed.
- The direct RIC API (report and control services of the near-RIC): it shares the counter but bypasses the id map.
- Lost wake-ups of the xApp's wait, duplicate setups after a resend and subscriptions that survive a restart of the RIC: excluded by the assumptions.
- The colours of the red-black tree: the results hold for whatever rotations are made.
- Timeouts of calls and the xApp's setup resend have no steps in the protocol model.
- Runs.ReachableInv: covers the runs up to 64515 forwarded requests and 65536 xApps, which is as far as the code works; Failures.SafeUpToIff shows that it does not work further.
- Agent.E2Agent.HandleSetupResponse: with several setup timers armed, which of them an answer stops depends on the tree; stated for one.
- Xapp.XappObj.Open: the control message is of the function's own model and has a supported action; the node set of the object stands for its registry, whose filling is RegE2Nodes.Registry.AddAll.
- DbWriter.Worker.Run: at most 2^31 - 1 rows in all, so that the 32-bit indices of the ring suffice.
- RegE2Nodes.Registry.Add: the ids are of one family, without which the tree is not ordered.
- NodeTables.RegistriesAgree: nodes are told apart by their whole id, and only distinct nodes on distinct associations are set up.
- SyncUi.SyncObj.CondWait: what happens during the sleep is a parameter; the interleavings themselves are the subject of SyncUi.FlagMeaning.
- AssocReg.Registry.PushBack: the key counter stays below 2^32; the callers assert 2^16.
