# A verified model of the ATLAS IoT gateway

The project models, in Dafny, the stateful core of the ATLAS gateway and of the client library that
talks to it, and states what holds over whole runs of it.

Each part has two layers. A specification layer (datatypes, step functions, invariants, theorems over
all runs) says what the part does; an object layer (classes whose methods update fields, arrays or a
linked list in place, with the loops of the program) is proved to do exactly what the step functions
say, so the theorems hold of the objects.

* **Approved-command delivery** (`DeliveryModel`, `DeliveryInvariant`, `DeliverySafety`,
  `DeliveryTheorems`, `DeliveryEffects`, `DeliveryService`). The cloud sends numbered commands; the
  gateway stores each in its command table, queues it for the device, transmits the head of the queue
  over CoAP with retries, marks it executed, reports DONE and deletes it on acknowledgement. Every fault
  of the database, MQTT and CoAP is an input of the step function. The main result is exact: a step
  keeps memory, table and history consistent if and only if it is clean, where `Clean` is a guard that
  can be evaluated before the step. The guard asks that a resent number is the current one (a cloud that
  waits for each acknowledgement guarantees it), that the row insert and the update of the stored
  maximum do not split, that a lazy load is not cut short, and that a restart can read the stored
  maximum. Safety is matched by progress: without faults every command accepted is transmitted, executed
  and completed (`EverythingDelivered`), and in any run nothing enters the history without its cause
  (`EveryEntryCaused`).
* **Distributed firewall** (`PacketPolicer`, `FirewallModel`, `FirewallAgreement`,
  `FirewallConservation`, `FirewallTheorems`, `FirewallWindow`, `FirewallSender`, `FirewallEffects`,
  `FirewallWire`, `FirewallFormat`, `FirewallPlugin`, `FirewallGateway`, `FirewallEndToEnd`). The
  gateway keeps one policy per registered device, the broker plug-in keeps one policer per rule; both
  processes with their restarts, the connection and the messages in flight are one state. The classes
  are tied to it twice: their fields to the state, and the bytes they write to the messages they send.
* **Command format and stream reassembly** (`Memory`, `CommandCodec`, `ClientCodec`, `CommandXfer`). Two
  independent implementations of the type-length-value format, and the state machine that cuts a byte
  stream into commands.
* **Reputation** (`Reputation`, `ReputationExact`, `ReputationHistory`, `ReputationService`). The naive
  Bayes product, over real numbers, over histories of features, weights, thresholds and feedback.
* **Event plumbing** (`CoapClient`, `CoapClientEffects`, `CoapClientService`, `Scheduler`,
  `SchedulerList`). The table of CoAP requests and timeouts, and the client's linked-list scheduler with
  lazy deletion.

`Machine` holds the fixed-width integers and `Sequences` the slicing lemmas the parts share.

## What turned out false of the program

Where a property one would expect does not hold, the model keeps what the code does. The lemmas named
`…Example` give a failing run or input; the others say exactly when the property holds.

* A resend of an older number makes the gateway forget the later ones and accept one of them twice, with
  every database query, publication and transmission succeeding (`OlderResendRepeatsNumber`,
  `RepeatedNumberExample`; exact guard in `StepExact`).
* When the device confirms a command and the database then fails to mark it, the command stays in
  progress and nothing is sent to that device until the next restart (`StuckExample`, `StuckExactly`,
  `StuckUntilRestart`), which does end it (`RestartUnsticks`).
* A chain of failing ACKs makes three retries the first time and two after one that was given up
  (`AckChain`, for every starting counter).
* `operator==` of a policy assigns the packet rate. The stored policy is still always the one given
  (`SetPolicyStores`), but the cloud is told on the wrong condition (`CloudToldExactly`,
  `CloudToldExample`).
* A statistics request that arrives before its rule brings counts from an uninitialized policer into the
  totals (`InventedExample`). The counts of a run are right at every moment exactly when that never happens
  with a non-zero policer (`CountsExactIff`). Before the send, `Finds` says whether the rule is installed or
  on its way ahead of the request. It decides whether the request finds its rule (`FindsOnArrival`) and
  whether the counts stay right (`PacketCountsExact`, `NextRequestExact`), and the gateway can tell it from
  the messages it has sent over the present connection (`KnownToSender`).
* A rule that is installed again starts its window again, so a client that repeats its policy request gets
  twice its limit through in one window (`RepeatedRequestExample`). What a window lets through is bounded by
  the limits of all policers it has seen (`WindowBound`), and by the limit of the policy exactly when no
  policer is replaced or lost after it let a packet through (`WindowLimitExact`).
* Requests and reports for identities longer than the 16-bit nested length allows are dropped, or from
  65536 bytes on taken for another, shorter identity (`LongIdentityExample`; `RequestDecodes` and
  `ReportDecodes` for every length). The receiver's buffer is shorter still; exactly which requests and
  reports fit it and arrive as sent is in `DeliverableExactly` and `ReportDeliverableExactly`.
* The iterator of the client library swaps headers in place, so a second walk reads other types and lengths
  (`SecondWalkExample`). It is right exactly when every type and every length has two equal bytes
  (`SecondWalk`). Adding a command stays inside the reallocated buffer only while the 16-bit length does not
  wrap (`AddInBounds`); one command can bring it that far (`AddOverflowExample`).
* Naming a feature twice in a feedback can lift the reputation above 1 (`DuplicateExample`; exact in
  `BoundExact` over all counters and in `BoundExactAlways` over all histories).
* A successful transaction can lower the reputation (`PartialSuccessExample`; exact in
  `SuccessNeverLowersExact` and `SuccessNeverLowersAlways`). So can one that satisfies every feature
  (`NegativeThresholdExample`; exact in `FullNeverLowersExact` and `FullNeverLowersExactAlways`). A success
  can credit no feature at all (`UncreditedExample`; exact in `SuccessCreditsExact`).
* Deleting a descriptor marks its first entry even when that one is deleted already, so a re-registered
  descriptor can survive its deletion (`DeleteTwiceExample`, exact in `DeleteExact`).

## Model

| member | source | states |
|---|---|---|
| DeliverySafety.StepExact | atlas_gateway/src/claim_approve/AtlasApprove.cpp:113-335 | from a consistent state, for every event and every combination of faults, the next state is consistent if and only if the step is clean: queues equal the rows of the table, numbers agree and only grow, at most one request is in flight, nothing accepted is lost or reordered, every message sent is truthful |
| DeliverySafety.RunExact | atlas_gateway/src/claim_approve/AtlasApprove.cpp:49-335 | every state of a run from a fresh installation is consistent if and only if every step of it is clean |
| DeliverySafety.CleanKeeps | atlas_gateway/src/claim_approve/AtlasApprove.cpp:49-335 | every clean event of any kind, including restarts, keeps the whole invariant |
| DeliverySafety.UncleanBreaks | atlas_gateway/src/claim_approve/AtlasApprove.cpp:113-222 | every step outside the guard does break the invariant, so the guard cannot be weakened |
| DeliverySafety.InvLoaded | atlas_gateway/src/device/AtlasDeviceManager.cpp:331-375 | a lazy load that reads all rows of a device rebuilds queues that agree with the table |
| DeliverySafety.InvStore | atlas_gateway/src/claim_approve/AtlasApprove.cpp:187-211 | accepting a number above the current one keeps table, queue, history and numbers in agreement for all devices |
| DeliverySafety.InvMark | atlas_gateway/src/device/AtlasDevice.cpp:340-368 | moving the head command to the executed queue keeps order and conservation, and the DONE it sends names the oldest executed command |
| DeliverySafety.InvComplete | atlas_gateway/src/claim_approve/AtlasApprove.cpp:312-332 | deleting by sequence number removes exactly the acknowledged command of exactly that device |
| DeliverySafety.InvPush | atlas_gateway/src/device/AtlasDevice.cpp:410-459 | a transmission is always of the oldest accepted command not yet executed, and never a second one at the same time |
| DeliverySafety.ResponseInv | atlas_gateway/src/device/AtlasDevice.cpp:370-408 | every answer, timeout or error of a device keeps the invariant, whatever the database and CoAP do |
| DeliverySafety.HeadOfRecv | atlas_gateway/src/device/AtlasDevice.cpp:422-453 | the head of the received queue is the oldest command accepted and not marked executed |
| DeliverySafety.HeadOfExec | atlas_gateway/src/claim_approve/AtlasApprove.cpp:267-299 | the head of the executed queue is the oldest command the cloud has not acknowledged as done |
| DeliveryInvariant.SplitAt | atlas_gateway/src/sql/AtlasSQLite.cpp:1092-1142 | when executed rows precede unexecuted ones, the two queues are a cut of the row list at one point |
| DeliveryInvariant.DevRowsMark | atlas_gateway/src/sql/AtlasSQLite.cpp:1059-1090 | marking by sequence number commutes with looking at the rows of one device |
| DeliveryInvariant.DevRowsDelete | atlas_gateway/src/sql/AtlasSQLite.cpp:1144-1175 | deleting by sequence number commutes with looking at the rows of one device |
| DeliveryInvariant.MarkOldest | atlas_gateway/src/sql/AtlasSQLite.cpp:1059-1090 | marking the oldest unexecuted row moves exactly that command from the unexecuted to the end of the executed ones |
| DeliveryInvariant.DeleteOldest | atlas_gateway/src/sql/AtlasSQLite.cpp:1144-1175 | deleting the oldest executed row removes exactly the head of the executed commands |
| DeliveryTheorems.RestartRebuilds | atlas_gateway/src/device/AtlasDeviceManager.cpp:331-375 | crash refinement: restart and lazy load give back the same queues with no command in progress, and the same current number |
| DeliveryTheorems.CleanRunInv | atlas_gateway/src/claim_approve/AtlasApprove.cpp:49-335 | the last state of every clean run satisfies the invariant |
| DeliveryTheorems.OrderedConservation | atlas_gateway/src/claim_approve/AtlasApprove.cpp:203-211 | in every clean run, accepted commands of a device equal acknowledged, then executed, then received ones, in order |
| DeliveryTheorems.NumbersNeverRepeat | atlas_gateway/src/claim_approve/AtlasApprove.cpp:180-211 | over any clean run with restarts, accepted numbers strictly increase and are bounded by the current number |
| DeliveryTheorems.MessagesTruthful | atlas_gateway/src/claim_approve/AtlasApprove.cpp:224-299 | every ACK, DONE and PUT of a clean run names the command that the history before it calls for |
| DeliveryTheorems.TimeoutChain | atlas_gateway/src/device/AtlasDevice.cpp:370-408 | an unbroken chain of timeouts transmits at most four times in all, then stops; exactly four when CoAP accepts every request and the device stays registered |
| DeliveryTheorems.StuckExactly | atlas_gateway/src/device/AtlasDevice.cpp:340-395 | the head command becomes permanently in progress exactly when the device confirms it and the database cannot mark it |
| DeliveryTheorems.StuckExample | atlas_gateway/src/device/AtlasDevice.cpp:340-395 | a run of a registration, one command and its confirmation that ends there |
| DeliveryTheorems.StuckUntilRestart | atlas_gateway/src/device/AtlasDevice.cpp:422-427 | once stuck, no event but a restart sends that command again or transmits anything to the device |
| DeliveryTheorems.AckChain | atlas_gateway/src/claim_approve/AtlasApprove.cpp:224-265 | over runs of failing ACK alarms from any consistent state with retry counter c: exactly 3 - c further ACKs are attempted, then the alarm is off, the counter is 1 and more alarms change nothing; queues, rows and numbers are untouched |
| DeliveryTheorems.AckChainAfterCommand | atlas_gateway/src/claim_approve/AtlasApprove.cpp:203-265 | the same counted from the accepted command whose first ACK fails |
| DeliveryTheorems.CurrentIsLatest | atlas_gateway/src/claim_approve/AtlasApprove.cpp:180-211 | in every consistent state the current number is the last one accepted |
| DeliveryTheorems.OlderResendRepeatsNumber | atlas_gateway/src/claim_approve/AtlasApprove.cpp:113-150 | from every consistent state, whatever DONE, push and publication do, a resend of an older stored number followed by a new message with the current number makes the last two accepted numbers equal |
| DeliveryTheorems.RepeatedNumberExample | atlas_gateway/src/claim_approve/AtlasApprove.cpp:118-122 | from a fresh installation, four messages with no fault anywhere: the accepted numbers are 1, 2, 2 |
| DeliveryEffects.EverythingDelivered | atlas_gateway/src/claim_approve/AtlasApprove.cpp:73-335 | progress: from every consistent state, for a registered device with nothing on its way, one alarm, an answer to each request and an acknowledgement of each DONE complete all commands ever accepted for it, in order, with one transmission each, and leave no row and no queue entry |
| DeliveryEffects.EveryEntryCaused | atlas_gateway/src/claim_approve/AtlasApprove.cpp:113-335 | in every run, faults and unclean steps included: a command accepted was sent by the cloud with that device, number, type and payload, and signed if the gateway had an owner; one executed was confirmed by its device; one completed was acknowledged by its number; and every message and transmission has its event |
| DeliveryEffects.CommandRefused | atlas_gateway/src/claim_approve/AtlasApprove.cpp:152-174 | a command without number, identity or type, or without a valid signature while the gateway has an owner, changes nothing |
| DeliveryEffects.UnknownRefused | atlas_gateway/src/claim_approve/AtlasApprove.cpp:187-191 | neither does a new number for a device that is unknown or whose key cannot be read |
| DeliveryEffects.CommandAccepted | atlas_gateway/src/claim_approve/AtlasApprove.cpp:187-222 | what a new number adds to history, table, numbers and queue for each outcome of the insert, with its type and payload, and when it or the command before it is transmitted at once |
| DeliveryEffects.ResendAnswered | atlas_gateway/src/claim_approve/AtlasApprove.cpp:113-150 | a stored number not above the current one becomes current and is answered by DONE if its row is executed and by ACK otherwise; table and queues stay |
| DeliveryEffects.ResendAbsent | atlas_gateway/src/claim_approve/AtlasApprove.cpp:113-120 | one that is not stored, or cannot be looked up, changes nothing |
| DeliveryEffects.DoneAcknowledged | atlas_gateway/src/claim_approve/AtlasApprove.cpp:301-335 | the acknowledgement of the oldest executed command completes exactly that one: its row goes, it leaves the queue, the next is reported; every other number, or a failing delete, changes nothing |
| DeliveryEffects.UnknownIgnored | atlas_gateway/src/device/AtlasDeviceManager.cpp:352-375 | acknowledgements, registrations, expiries and alarms of a device that cannot be found change nothing |
| DeliveryEffects.AnswerConfirms | atlas_gateway/src/device/AtlasDevice.cpp:340-395 | a confirmed command is marked in exactly its row and moves to the executed queue, DONE names the oldest executed one, and the next command is transmitted if the device is registered |
| DeliveryEffects.AnswerFails | atlas_gateway/src/device/AtlasDevice.cpp:370-408 | a timeout, an error, a confirmation that cannot be marked and an answer nobody waits for leave table and queues alone; which of them transmits again, and what counters and flags then are |
| DeliveryEffects.AlarmPushes | atlas_gateway/src/claim_approve/AtlasApprove.cpp:73-94 | the alarm transmits the head of the queue exactly if the device is registered and it is not on its way, and reports the oldest executed command |
| DeliveryEffects.AckAlarmRepeats | atlas_gateway/src/claim_approve/AtlasApprove.cpp:96-111 | the ACK alarm repeats the current number while it is scheduled, and the one MQTT takes is the last |
| DeliveryEffects.FreshlyLoaded | atlas_gateway/src/device/AtlasDeviceManager.cpp:352-375 | a device brought to memory is not registered and has nothing on its way |
| DeliveryEffects.RestartUnsticks | atlas_gateway/src/claim_approve/AtlasApprove.cpp:49-64 | partner of StuckUntilRestart: after a restart and a registration the head command is transmitted again, from the same queues and numbers |
| DeliveryService.Gateway.constructor | atlas_gateway/src/claim_approve/AtlasApprove.cpp:42-47 | starts in the state of a fresh installation |
| DeliveryService.Gateway.Start | atlas_gateway/src/claim_approve/AtlasApprove.cpp:49-64 | loses the memory, keeps the tables, takes the stored maximum or zero when it cannot be read |
| DeliveryService.Gateway.SelectDeviceCommand | atlas_gateway/src/sql/AtlasSQLite.cpp:1092-1142 | the row loop fills the two queues with the rows of the device in insertion order, split by the executed flag, up to the row where the query fails |
| DeliveryService.Gateway.GetDevice | atlas_gateway/src/device/AtlasDeviceManager.cpp:352-375 | loads a device on first use only, and changes nothing for an unknown identity or when the query for its key fails |
| DeliveryService.Gateway.PushCommand | atlas_gateway/src/device/AtlasDevice.cpp:410-459 | performs the transmission step of the protocol and changes nothing when the send fails |
| DeliveryService.Gateway.ResponseCommandACK | atlas_gateway/src/claim_approve/AtlasApprove.cpp:224-265 | performs the ACK step with its retry counter |
| DeliveryService.Gateway.ResponseCommandDONE | atlas_gateway/src/claim_approve/AtlasApprove.cpp:267-299 | reports the head of the executed queue, nothing for an empty one |
| DeliveryService.Gateway.HandleOldCommand | atlas_gateway/src/claim_approve/AtlasApprove.cpp:113-150 | performs the step for a number not above the current one, for every outcome of the queries |
| DeliveryService.Gateway.InsertCommand | atlas_gateway/src/claim_approve/AtlasApprove.cpp:187-222 | performs the step for a number above the current one, for every way the insert and the update can fail |
| DeliveryService.Gateway.HandleClientCommand | atlas_gateway/src/claim_approve/AtlasApprove.cpp:152-222 | performs the whole step for a message of the cloud: refusals, resend, insert, ACK, push, as spelled out by CommandRefused, ResendAnswered and CommandAccepted |
| DeliveryService.Gateway.HandleCommandDoneAck | atlas_gateway/src/claim_approve/AtlasApprove.cpp:301-335 | performs the acknowledgement step, as spelled out by DoneAcknowledged, including all four refusals |
| DeliveryService.Gateway.MarkCommandAsDone | atlas_gateway/src/device/AtlasDevice.cpp:340-368 | marks, queues, reports and pops in this order, or changes nothing when the database fails |
| DeliveryService.Gateway.DeviceCmdRespCallback | atlas_gateway/src/device/AtlasDevice.cpp:370-408 | performs the response step of the protocol |
| DeliveryService.Gateway.StatusACKCallback | atlas_gateway/src/claim_approve/AtlasApprove.cpp:96-111 | performs the ACK alarm step |
| DeliveryService.Gateway.AlarmForDevice | atlas_gateway/src/claim_approve/AtlasApprove.cpp:78-92 | performs the push alarm step for one device and keeps the set of devices |
| DeliveryService.Gateway.AlarmCallback | atlas_gateway/src/claim_approve/AtlasApprove.cpp:73-94 | is a run of alarm steps that visits every device in memory exactly once |
| PacketPolicer.WindowCounter | atlas_gateway/src/mosquitto_plugin/filter/AtlasPacketPolicer.cpp:13-44 | over any trace of packets and window starts, the window counter is the number of packets since the last start modulo 2^32 and the limits never change |
| PacketPolicer.VerdictExact | atlas_gateway/src/mosquitto_plugin/filter/AtlasPacketPolicer.cpp:13-37 | after any trace, a packet passes if and only if it conforms and its position in the window, modulo 2^32, is at most the limit |
| PacketPolicer.NextVerdict | atlas_gateway/src/mosquitto_plugin/filter/AtlasPacketPolicer.cpp:13-37 | the same for the next packet after any trace |
| PacketPolicer.RateLimit | atlas_gateway/src/mosquitto_plugin/filter/AtlasPacketPolicer.cpp:13-44 | a window of fewer than 2^32 packets passes at most the limit |
| PacketPolicer.RateLimitTight | atlas_gateway/src/mosquitto_plugin/filter/AtlasPacketPolicer.cpp:13-44 | conforming traffic gets exactly the limit, or everything below it |
| PacketPolicer.EveryPacketCounted | atlas_gateway/src/mosquitto_plugin/filter/AtlasPacketPolicer.cpp:13-37 | passed plus dropped is the number of packets of the trace, modulo 2^32 |
| PacketPolicer.AtlasPacketPolicer.constructor | atlas_gateway/src/mosquitto_plugin/filter/AtlasPacketPolicer.cpp:6-11 | starts with clear counters and the QoS limit narrowed to eight bits |
| PacketPolicer.AtlasPacketPolicer.Filter | atlas_gateway/src/mosquitto_plugin/filter/AtlasPacketPolicer.cpp:13-37 | performs one step of the traces above and returns its verdict |
| PacketPolicer.AtlasPacketPolicer.RateLimitWindowStart | atlas_gateway/src/mosquitto_plugin/filter/AtlasPacketPolicer.cpp:39-44 | performs a window start and leaves the packet counts alone |
| FirewallAgreement.PluginApplies | atlas_gateway/src/mosquitto_plugin/filter/AtlasFilter.cpp:95-230 | refinement: seen through its rules, the plug-in's handling of any message is the simple map operation the agreement is stated with |
| FirewallAgreement.SyncApplies | atlas_gateway/src/device/AtlasDeviceManager.cpp:383-391 | answering the request for all rules, in any order of the device map, turns any rules within the policies into exactly the policies |
| FirewallAgreement.InstallsApply | atlas_gateway/src/device/AtlasDeviceManager.cpp:383-391 | the install messages overwrite the rules of the enumerated devices and touch no other rule |
| FirewallAgreement.PolicyAnnounced | atlas_gateway/src/pubsub_agent/AtlasPubSubAgent.cpp:74-101 | a policy change and the message that announces it, taken together, keep the agreement in every connection state |
| FirewallAgreement.StatsFirst | atlas_gateway/src/mosquitto_plugin/filter/AtlasFilter.cpp:121-131 | what was predicted when a statistics request was sent is kept while earlier messages are handled: it finds its rule if and only if that was predicted |
| FirewallAgreement.SetPolicyStores | atlas_gateway/src/device/AtlasDevice.cpp:157-168 | whatever the comparison operator assigns, the device ends with the policy it was given |
| FirewallAgreement.CloudToldExactly | atlas_gateway/src/policy/AtlasFirewallPolicy.cpp:30-36 | on which condition the cloud is told of a policy, and for which pairs that differs from a change of the policy |
| FirewallAgreement.FirstPolicyTold | atlas_gateway/src/device/AtlasDevice.cpp:157-168 | the first policy of a device is stored and always reported |
| FirewallAgreement.CloudToldExample | atlas_gateway/src/policy/AtlasFirewallPolicy.cpp:30-36 | a change of the packet rate alone is not reported |
| FirewallAgreement.StepInv | atlas_gateway/src/mosquitto_plugin/filter/AtlasFilter.cpp:95-360 | every event of gateway, plug-in and connection, a restart of the plug-in included, keeps the agreement invariant |
| FirewallAgreement.RunInv | atlas_gateway/src/mosquitto_plugin/filter/AtlasFilter.cpp:95-360 | the agreement invariant holds after any sequence of events |
| FirewallTheorems.RuleAgreement | atlas_gateway/src/mosquitto_plugin/filter/AtlasFilter.cpp:136-318 | in every connected run: once synchronized, rules plus messages in flight are exactly the policies; before, no rule exists without a policy |
| FirewallTheorems.PolicyMeansAlive | atlas_gateway/src/device/AtlasDevice.cpp:182-231 | in every run a device with a policy is registered and its keep-alive counter is 1 to 4 |
| FirewallTheorems.SilenceWithdraws | atlas_gateway/src/device/AtlasDevice.cpp:213-231 | the fourth missed keep-alive unregisters the device and withdraws its policy, the third does not |
| FirewallTheorems.ReconnectionRepairs | atlas_gateway/src/mosquitto_plugin/filter/AtlasFilter.cpp:281-318 | from every reachable state one reconnection and the delivery of the answer leave exactly the policies in the plug-in |
| FirewallTheorems.InventedExactly | atlas_gateway/src/mosquitto_plugin/filter/AtlasFilter.cpp:121-126 | every event adds to the counts from nowhere exactly what the uninitialized policer held when a request for that identity finds no rule, and otherwise nothing |
| FirewallTheorems.FindsOnArrival | atlas_gateway/src/mosquitto_plugin/filter/AtlasFilter.cpp:121-131 | over an open connection, a request sent now finds its rule after the earlier messages are handled if and only if the rule is installed or on its way and not withdrawn |
| FirewallTheorems.PromiseKept | atlas_gateway/src/mosquitto_plugin/filter/AtlasFilter.cpp:121-131 | in every run, a request reaching the plug-in finds its rule if and only if the sender could tell so |
| FirewallTheorems.SyncedFinds | atlas_gateway/src/mosquitto_plugin/filter/AtlasFilter.cpp:281-318 | in every run, once synchronized, a request for a device with a policy finds its rule |
| FirewallTheorems.CountsExactIff | atlas_gateway/src/mosquitto_plugin/filter/AtlasFilter.cpp:95-134 | for every run: gateway totals, reports in flight, plug-in counters and discarded counts equal the packets filtered at every moment, each of four counts modulo 2^32, if and only if no request ever met a missing rule with a non-zero uninitialized policer |
| FirewallTheorems.NextRequestExact | atlas_gateway/src/mosquitto_plugin/filter/AtlasFilter.cpp:95-134 | after any such run, the next request keeps the counts right, once delivered, if and only if its rule is there or ahead of it or the uninitialized policer is zero |
| FirewallTheorems.InventedExample | atlas_gateway/src/mosquitto_plugin/filter/AtlasFilter.cpp:121-126 | a run of a registration, a policy, a connection and one early request whose counts are wrong, for every non-zero uninitialized policer |
| FirewallTheorems.PacketCountsExact | atlas_gateway/src/mosquitto_plugin/filter/AtlasFilter.cpp:95-134 | when statistics of a device are requested only while its rule is installed or on its way, the counts of every run are right at every moment |
| FirewallTheorems.PolicersIndependent | atlas_gateway/src/mosquitto_plugin/filter/AtlasFilter.cpp:336-360 | over any traffic each policer sees its own packets and the window starts, nothing else |
| FirewallTheorems.InstalledVerdict | atlas_gateway/src/mosquitto_plugin/filter/AtlasFilter.cpp:336-347 | after an installation and any traffic, which packets to that destination pass, in terms of the policy and of the packets seen in the window |
| FirewallWindow.WindowBound | atlas_gateway/src/mosquitto_plugin/filter/AtlasFilter.cpp:95-230 | for every run without a window start, with any installs, removals, requests, lost connections and restarts in it: packets let through to a destination plus those still possible are at most what was left at the start plus the limits of the policers put in place |
| FirewallWindow.WindowStartBound | atlas_gateway/src/mosquitto_plugin/filter/AtlasFilter.cpp:31-52 | from a window start on, at most the limit of the rule plus the limits of the policers put in place since |
| FirewallWindow.MostInWindow | atlas_gateway/src/mosquitto_plugin/filter/AtlasFilter.cpp:336-347 | after anything at all in the window, the limit holds for whatever packets follow if and only if those let through and those the rule can still let through are within it |
| FirewallWindow.WindowLimitExact | atlas_gateway/src/mosquitto_plugin/filter/AtlasFilter.cpp:222-226 | for a device whose only policy is p, in a window so far: whatever packets follow, at most the limit of p is let through in this window if and only if no policer of the device was replaced or lost after it had let a packet through |
| FirewallWindow.RepeatedRequestDoubles | atlas_gateway/src/mosquitto_plugin/filter/AtlasFilter.cpp:222-226 | from every state with the rule in place, a full window, the same policy request again and a full window more let exactly twice the limit through, for every limit |
| FirewallWindow.RepeatedRequestExample | atlas_gateway/src/mosquitto_plugin/filter/AtlasFilter.cpp:222-226 | the same on a run from two processes just started |
| FirewallSender.KnownToSender | atlas_gateway/src/mosquitto_plugin/filter/AtlasFilter.cpp:281-318 | in every run, whether a request sent now finds its rule is decided by the messages sent over the present connection, applied to no rules at all |
| FirewallEffects.VerdictByPolicy | atlas_gateway/src/mosquitto_plugin/filter/AtlasFilter.cpp:336-360 | in every run, once synchronized with nothing on its way: a packet to a device without a policy passes; to one with a policy it passes if and only if it conforms and the window counter, with it, is at most the rate |
| FirewallEffects.UnruledPasses | atlas_gateway/src/mosquitto_plugin/filter/AtlasFilter.cpp:342-347 | a packet to a destination without a rule passes in every state, changes no rule and is counted as passed for its source |
| FirewallEffects.SourceCounted | atlas_gateway/src/mosquitto_plugin/filter/AtlasFilter.cpp:349-357 | every packet is counted exactly once for its source, passed or dropped by the verdict, modulo 2^32, and for no other client |
| FirewallEffects.RulesTracked | atlas_gateway/src/mosquitto_plugin/filter/AtlasFilter.cpp:222-226 | in every run a client with a rule has its own packets counted |
| FirewallEffects.ForgoneExactly | atlas_gateway/src/mosquitto_plugin/filter/AtlasFilter.cpp:54-230 | for every event and state, exactly which counts are given up: those of a rule replaced or removed, those lost with a process or a connection, those written without one, those of an unknown device; all else keeps them |
| FirewallEffects.RunForgoes | atlas_gateway/src/mosquitto_plugin/filter/AtlasFilter.cpp:54-230 | the same summed over every run |
| FirewallEffects.NothingLost | atlas_gateway/src/mosquitto_plugin/filter/AtlasFilter.cpp:54-134 | in a run with promised requests and without those losses, totals, reports in flight and plug-in counters alone equal the packets filtered, each count modulo 2^32 |
| FirewallEffects.FilteredExactly | atlas_gateway/src/mosquitto_plugin/filter/AtlasFilter.cpp:336-360 | the account of packets filtered grows by exactly the packets to the watched client under its rule and from it, by their verdicts |
| FirewallEffects.ReportAdds | atlas_gateway/src/device/AtlasDeviceManager.cpp:65-90 | a report of a known device raises each of its four totals by exactly its count, modulo 2^32, and no other totals |
| FirewallEffects.TotalsOnlyByReports | atlas_gateway/src/device/AtlasDeviceManager.cpp:65-90 | no other event changes any totals, restarts of both processes included |
| FirewallEffects.StatisticsArrive | atlas_gateway/src/device/AtlasDeviceManager.cpp:65-102 | from every reachable synchronized state with nothing on its way, alarm, answer and reception bring the counters of a device from the plug-in into its totals, clear them, lose nothing and leave limits and window of the rule alone |
| FirewallEffects.KeptAlive | atlas_gateway/src/device/AtlasDevice.cpp:199-231 | over any events without a new registration of the device and without a restart of the gateway: it is unregistered, and its policy withdrawn, if and only if its keep-alive expired four times with none coming in between; until then it has the policy it asked for last |
| FirewallEffects.RegistrationFills | atlas_gateway/src/device/AtlasDevice.cpp:182-197 | a registration starts the count of four anew and keeps the policy; a restart of the gateway forgets all devices |
| FirewallEffects.SilentUnlessUp | atlas_gateway/src/pubsub_agent/AtlasPubSubAgent.cpp:275-285 | nothing is sent to the plug-in over a connection that is not accepted |
| FirewallConservation.CountsConserved | atlas_gateway/src/mosquitto_plugin/filter/AtlasFilter.cpp:95-161 | in every run without exception, counts in the four places add up modulo 2^32 to packets filtered plus what uninitialized policers held |
| FirewallConservation.StepConserved | atlas_gateway/src/mosquitto_plugin/filter/AtlasFilter.cpp:95-360 | every event keeps that sum |
| FirewallConservation.PluginReceiveConserved | atlas_gateway/src/mosquitto_plugin/filter/AtlasFilter.cpp:95-230 | installs, removals and statistics requests move counts and lose none |
| FirewallConservation.FilterConserved | atlas_gateway/src/mosquitto_plugin/filter/AtlasFilter.cpp:336-360 | a packet is counted once for its destination and once for its source, also when a counter wraps |
| FirewallConservation.GatewayReceiveConserved | atlas_gateway/src/device/AtlasDeviceManager.cpp:65-90 | adding a report to 32-bit totals, or dropping it for an unknown device, keeps the sum |
| FirewallWire.RequestRoundTrip | atlas_gateway/src/pubsub_agent/AtlasPubSubAgent.cpp:45-101 | every request within the length limit of its kind decodes to itself at two levels of parsing; the empty identity is dropped |
| FirewallWire.RequestDecodesExactly | atlas_gateway/src/pubsub_agent/AtlasPubSubAgent.cpp:45-101 | a request decodes to itself if and only if its identity is not empty and within the limit: 65513 bytes for an install, 65531 for the others |
| FirewallWire.LongIdentityExample | atlas_gateway/src/pubsub_agent/AtlasPubSubAgent.cpp:74-101 | a removal for an identity of 65536 bytes more is decoded as the removal of another device |
| FirewallWire.RequestFitsExactly | atlas_gateway/src/commands/AtlasCommandXfer.h:13-68 | for every request and every identity, the receiver's 8192-byte buffer holds it if and only if the identity on the wire has at most 8166 bytes for an install and 8184 for the others, or so many that the nested length wraps |
| FirewallWire.DeliverableExactly | atlas_gateway/src/commands/AtlasCommandXfer.h:13-68 | the requests the stream results are stated for are exactly those that fit the buffer and are decoded as sent |
| FirewallWire.RequestDecodes | atlas_gateway/src/pubsub_agent/AtlasPubSubAgent.cpp:45-101 | what every request of any length decodes to: the request for the identity cut at its length modulo 2^16, or nothing when that is empty or over the limit |
| FirewallWire.ReportRoundTrip | atlas_gateway/src/mosquitto_plugin/filter/AtlasFilter.cpp:54-93 | every report of four 32-bit counts for an identity of 1 to 65499 bytes decodes to itself at the gateway |
| FirewallWire.ReportDecodes | atlas_gateway/src/mosquitto_plugin/filter/AtlasFilter.cpp:54-93 | what a report for an identity of any length decodes to, cut or dropped |
| FirewallWire.ReportFitsExactly | atlas_gateway/src/commands/AtlasCommandXfer.h:13-68 | the same limit for reports: 8152 bytes, or a wrapped length |
| FirewallWire.ReportDeliverableExactly | atlas_gateway/src/commands/AtlasCommandXfer.h:13-68 | the reports the stream result is stated for are exactly those that fit the buffer and are decoded as sent |
| FirewallWire.StreamDelivers | atlas_gateway/src/mosquitto_plugin/filter/AtlasFilter.cpp:232-273 | a sequence of requests, nested, serialized and sent as one stream, is received once each, in order and unchanged for every split into reads, within the buffer |
| FirewallWire.StreamPrefix | atlas_gateway/src/mosquitto_plugin/filter/AtlasFilter.cpp:253-268 | while the stream arrives, what is received is a prefix of what was sent |
| FirewallEndToEnd.BytesActAsMessages | atlas_gateway/src/mosquitto_plugin/filter/AtlasFilter.cpp:232-268 | end to end: for every state and every split of the bytes of the messages in flight, cutting the stream, parsing and handling it command by command gives the same state as receiving the messages one by one |
| FirewallEndToEnd.BytesActAsReports | atlas_gateway/src/pubsub_agent/AtlasPubSubAgent.cpp:195-232 | end to end in the other direction: for every state, every split of the bytes of the reports in flight and every enumeration of the devices, the gateway ends in the state that receiving the reports one by one leads to, within its buffer |
| FirewallWire.FramesOfSerialize | atlas_gateway/src/commands/AtlasCommandXfer.cpp:19-42 | cutting a serialized batch gives back its commands and no rest |
| FirewallFormat.RuleAcceptedExactly | atlas_gateway/src/mosquitto_plugin/filter/AtlasFilter.cpp:184-220 | which field lists make a rule: a last identity that is not empty and each of the three numbers in two bytes |
| FirewallFormat.RuleRead | atlas_gateway/src/mosquitto_plugin/filter/AtlasFilter.cpp:184-220 | what the rule says: the last identity and the last two-byte field of each kind |
| FirewallFormat.NamelessRefused | atlas_gateway/src/mosquitto_plugin/filter/AtlasFilter.cpp:95-182 | a message without an identity is no request and no report |
| FirewallFormat.ReportAcceptedExactly | atlas_gateway/src/pubsub_agent/AtlasPubSubAgent.cpp:131-176 | which field lists make a report: an identity and all four counts in four bytes |
| FirewallFormat.RequestAcceptedExactly | atlas_gateway/src/policy/AtlasPolicy.cpp:51-101 | which policy requests are accepted: each of the three fields occurs, none in another size than two bytes |
| FirewallFormat.InstallBytes | atlas_gateway/src/commands/AtlasCommandType.h:81-107 | the bytes of every install message, with command types and field order |
| FirewallFormat.IdentityBytes | atlas_gateway/src/commands/AtlasCommandType.h:81-98 | the bytes of removals and statistics requests |
| FirewallFormat.ReportBytesAre | atlas_gateway/src/commands/AtlasCommandType.h:93-121 | the bytes of reports |
| FirewallFormat.GetAllBytes | atlas_gateway/src/commands/AtlasCommandType.h:81-81 | the bytes of the request for all rules |
| FirewallFormat.NetworkOrder | atlas_gateway/src/commands/AtlasCommandBatch.cpp:28-44 | numbers are written and read high byte first |
| FirewallPlugin.ReceivesBytes | atlas_gateway/src/mosquitto_plugin/filter/AtlasFilter.cpp:232-251 | what the plug-in does with the bytes of a message is what the protocol does with the message; past the length limit, what it does with the identity the wire cuts, or nothing |
| FirewallPlugin.AtlasFilter.constructor | atlas_gateway/src/mosquitto_plugin/filter/AtlasFilter.cpp:20-29 | starts without rules, statistics or connection |
| FirewallPlugin.AtlasFilter.InstallFirewallRule | atlas_gateway/src/mosquitto_plugin/filter/AtlasFilter.cpp:166-230 | performs the install step for a complete field list and nothing for any missing or ill-sized field |
| FirewallPlugin.AtlasFilter.RemoveFirewallRule | atlas_gateway/src/mosquitto_plugin/filter/AtlasFilter.cpp:136-164 | performs the removal step, nothing for an empty identity |
| FirewallPlugin.AtlasFilter.GetFirewallRuleStats | atlas_gateway/src/mosquitto_plugin/filter/AtlasFilter.cpp:95-134 | performs the statistics step, including the policer the map access creates, and writes exactly the bytes of the report it sends |
| FirewallPlugin.AtlasFilter.TakeRuleStats | atlas_gateway/src/mosquitto_plugin/filter/AtlasFilter.cpp:122-126 | returns the counters of the rule, or of the policer created for it, and clears exactly these |
| FirewallPlugin.AtlasFilter.TakeTxStats | atlas_gateway/src/mosquitto_plugin/filter/AtlasFilter.cpp:127-130 | returns the transmit counters of the client and clears exactly these |
| FirewallPlugin.AtlasFilter.WriteFirewallStats | atlas_gateway/src/mosquitto_plugin/filter/AtlasFilter.cpp:54-93 | writes the bytes of the report and performs the sending step |
| FirewallPlugin.AtlasFilter.ProcessCommand | atlas_gateway/src/mosquitto_plugin/filter/AtlasFilter.cpp:232-251 | handles the commands of any buffer one after the other and writes exactly the bytes of the reports sent |
| FirewallPlugin.AtlasFilter.HandleRead | atlas_gateway/src/mosquitto_plugin/filter/AtlasFilter.cpp:253-268 | advances the stream state machine, handles the command a read completes and writes exactly the bytes of the report sent |
| FirewallPlugin.AtlasFilter.Filter | atlas_gateway/src/mosquitto_plugin/filter/AtlasFilter.cpp:336-360 | performs the packet step and returns its verdict, as spelled out by VerdictByPolicy and UnruledPasses |
| FirewallPlugin.AtlasFilter.TimerHandler | atlas_gateway/src/mosquitto_plugin/filter/AtlasFilter.cpp:31-52 | the loop starts a new window for every rule and changes nothing else |
| FirewallPlugin.AtlasFilter.GatewayConnect | atlas_gateway/src/mosquitto_plugin/filter/AtlasFilter.cpp:281-318 | forgets all rules, keeps the transmit statistics, resets the stream and asks for all rules |
| FirewallPlugin.ReadPolicy | atlas_gateway/src/mosquitto_plugin/filter/AtlasFilter.cpp:184-220 | the field loop returns the last well-sized field of each kind, or none if one is missing |
| FirewallPlugin.SerializeFields | atlas_gateway/src/commands/AtlasCommandBatch.cpp:7-56 | building a batch field by field gives the serialization of the list |
| FirewallGateway.ReceivesBytes | atlas_gateway/src/pubsub_agent/AtlasPubSubAgent.cpp:195-212 | what the gateway does with the bytes of a report is what the protocol does with the report; past the length limit, it adds the counts to the identity the wire cuts, or drops them |
| FirewallGateway.PolicyRequestDecodes | atlas_gateway/src/policy/AtlasPolicy.cpp:51-101 | a payload that says the three values, in any order, any number of times and among any other commands, gives exactly the policy asked for |
| FirewallGateway.Gateway.constructor | atlas_gateway/src/pubsub_agent/AtlasPubSubAgent.cpp:23-35 | starts without devices and without a connection, with the stored totals |
| FirewallGateway.Gateway.Write | atlas_gateway/src/pubsub_agent/AtlasPubSubAgent.cpp:275-285 | writes only over an accepted connection |
| FirewallGateway.Gateway.InstallFirewallRule | atlas_gateway/src/pubsub_agent/AtlasPubSubAgent.cpp:287-322 | sends the install message of the protocol and writes exactly its bytes |
| FirewallGateway.Gateway.RemoveFirewallRule | atlas_gateway/src/pubsub_agent/AtlasPubSubAgent.cpp:74-101 | sends the removal message and its bytes, nothing for an empty identity |
| FirewallGateway.Gateway.GetFirewallRuleStats | atlas_gateway/src/pubsub_agent/AtlasPubSubAgent.cpp:45-72 | sends the statistics request and its bytes, nothing for an empty identity |
| FirewallGateway.Gateway.RegisterNow | atlas_gateway/src/device/AtlasDevice.cpp:182-197 | performs the registration step, for a new device as for a known one |
| FirewallGateway.Gateway.KeepAliveNow | atlas_gateway/src/device/AtlasDevice.cpp:199-211 | performs the keep-alive step |
| FirewallGateway.Gateway.UninstallPolicy | atlas_gateway/src/device/AtlasDevice.cpp:65-73 | withdraws a policy together with its rule, writing exactly the bytes of the removal; nothing without a policy |
| FirewallGateway.Gateway.KeepAliveExpired | atlas_gateway/src/device/AtlasDevice.cpp:213-231 | performs the expiry step and writes exactly the bytes of the removal it sends |
| FirewallGateway.Gateway.SetPolicyInfo | atlas_gateway/src/device/AtlasDevice.cpp:157-168 | stores exactly the given policy whatever the comparison assigns, and returns whether the cloud is told |
| FirewallGateway.Gateway.FirewallPolicyCallback | atlas_gateway/src/policy/AtlasPolicy.cpp:24-110 | accepts exactly the well-formed requests of registered devices, stores the policy and writes exactly the bytes of its install message, and changes nothing otherwise |
| FirewallGateway.Gateway.InstallAllPolicies | atlas_gateway/src/device/AtlasDeviceManager.cpp:377-391 | the device loop sends one install message per policy, in order, with exactly these bytes |
| FirewallGateway.Gateway.GetAllFirewallRules | atlas_gateway/src/pubsub_agent/AtlasPubSubAgent.cpp:103-109 | performs the synchronization step and writes exactly its bytes |
| FirewallGateway.Gateway.HandlePluginCommand | atlas_gateway/src/pubsub_agent/AtlasPubSubAgent.cpp:195-212 | performs the step of one command from the plug-in, known or unknown, with its bytes |
| FirewallGateway.Gateway.ProcessCommand | atlas_gateway/src/pubsub_agent/AtlasPubSubAgent.cpp:195-212 | handles the commands of any buffer from the plug-in one after the other and writes exactly the bytes of the messages sent |
| FirewallGateway.Gateway.FirewallStatisticsAlarmCallback | atlas_gateway/src/device/AtlasDeviceManager.cpp:92-102 | the device loop is a sequence of statistics request steps and writes exactly the bytes of the requests |
| FirewallGateway.Gateway.UpdateFirewallStats | atlas_gateway/src/device/AtlasDeviceManager.cpp:65-90 | performs the report step, as spelled out by ReportAdds, nothing for an unknown device |
| FirewallGateway.Gateway.ProcessFirewallRuleStat | atlas_gateway/src/pubsub_agent/AtlasPubSubAgent.cpp:111-193 | adds a complete report, and nothing for an incomplete one |
| FirewallGateway.ReadPolicyRequest | atlas_gateway/src/policy/AtlasPolicy.cpp:60-94 | the field loop rejects any ill-sized policy field and otherwise takes the last of each kind |
| FirewallGateway.ReadStats | atlas_gateway/src/pubsub_agent/AtlasPubSubAgent.cpp:131-176 | the field loop returns the last identity and the last well-sized field of each count, or none if one is missing |
| CommandCodec.RoundTrip | atlas_gateway/src/commands/AtlasCommandBatch.cpp:7-92 | parsing what was serialized returns exactly the commands and leaves nothing over |
| CommandCodec.ParseSerialize | atlas_gateway/src/commands/AtlasCommandBatch.cpp:7-92 | the same with arbitrary bytes behind the batch |
| CommandCodec.SerializeParse | atlas_gateway/src/commands/AtlasCommandBatch.cpp:58-92 | every buffer is the serialization of what the parser reads from it followed by what it leaves |
| CommandCodec.RestIncomplete | atlas_gateway/src/commands/AtlasCommandBatch.cpp:58-92 | the parser stops only where no complete command starts |
| CommandCodec.CommandBatch.constructor | atlas_gateway/src/commands/AtlasCommandBatch.h:18-18 | starts empty |
| CommandCodec.CommandBatch.AddCommand | atlas_gateway/src/commands/AtlasCommandBatch.cpp:53-56 | appends the command |
| CommandCodec.CommandBatch.GetSerializedAddedCommands | atlas_gateway/src/commands/AtlasCommandBatch.cpp:7-51 | the two loops fill a fresh buffer of exactly the right size with the serialization; a missing value is zeros; an empty batch gives none |
| CommandCodec.MissingIsZeros | atlas_gateway/src/commands/AtlasCommandBatch.cpp:34-44 | a command without a value is sent with as many zeros as it declares, one with a value unchanged |
| CommandCodec.CommandBatch.SetRawCommands | atlas_gateway/src/commands/AtlasCommandBatch.cpp:94-109 | replaces the parsed commands by those of the buffer, and leaves them for a missing or empty one |
| CommandCodec.TotalLen | atlas_gateway/src/commands/AtlasCommandBatch.cpp:19-21 | the length loop gives the size of the serialization |
| CommandCodec.WriteAll | atlas_gateway/src/commands/AtlasCommandBatch.cpp:23-45 | the write loop leaves the serialization in the zeroed buffer |
| CommandCodec.PutCommand | atlas_gateway/src/commands/AtlasCommandBatch.cpp:28-44 | writes one command at its place and touches no other byte |
| CommandCodec.ParseCommands | atlas_gateway/src/commands/AtlasCommandBatch.cpp:58-92 | the walking loop returns the commands of the format for every buffer |
| ClientCodec.ReadBack | atlas_client/src/commands/atlas_command.c:114-138 | through a swapped header a caller reads the type, length and value that were sent |
| ClientCodec.SecondWalk | atlas_client/src/commands/atlas_command.c:114-138 | for every batch, a second walk over the buffer the first one left reads the types and lengths that were sent, and ends at the end, if and only if both bytes of every type and of every length are equal |
| ClientCodec.FirstWalk | atlas_client/src/commands/atlas_command.c:114-138 | a first walk over a received batch always reads them |
| ClientCodec.SecondWalkExample | atlas_client/src/commands/atlas_command.c:114-138 | a batch with the one type 1000 is read as type 59395 the second time |
| ClientCodec.AddInBounds | atlas_client/src/commands/atlas_command.c:30-57 | the command fits the reallocated buffer if and only if the 16-bit length does not wrap |
| ClientCodec.AddOverflowExample | atlas_client/src/commands/atlas_command.c:30-57 | after one command with a value of 65531 bytes the next one is written behind a buffer of three bytes |
| ClientCodec.ClientBatch.constructor | atlas_client/src/commands/atlas_command.c:7-15 | starts with no buffer |
| ClientCodec.ClientBatch.Add | atlas_client/src/commands/atlas_command.c:30-57 | the new buffer is the old contents followed by the encoded command |
| ClientCodec.ClientBatch.SetRaw | atlas_client/src/commands/atlas_command.c:70-111 | accepts a buffer if and only if the gateway's parser consumes all of it, copies it then, and leaves the batch alone otherwise |
| ClientCodec.ClientBatch.Get | atlas_client/src/commands/atlas_command.c:114-138 | from NULL or any current command, over a fresh or an already walked buffer: returns where the length read there leads, after swapping that header in place and touching no other byte, and null behind the end |
| ClientCodec.ClientBatch.ReadHeaders | atlas_client/src/commands/atlas_command.c:114-138 | walking any buffer whose headers stay inside it gives the headers of the walks above |
| ClientCodec.ClientBatch.Walk | atlas_client/src/telemetry/atlas_alert_utils.c:31-40 | one walk returns the list that was sent and leaves every header swapped exactly once |
| ClientCodec.ValidateBuffer | atlas_client/src/commands/atlas_command.c:79-104 | the validation loop agrees with the gateway's parser on every buffer |
| ClientCodec.BuildBatch | atlas_client/src/commands/atlas_command.c:30-57 | for every list of at most 65535 bytes, repeated adding gives the bytes of the gateway's serializer |
| ClientCodec.ReceiveBatch | atlas_client/src/commands/atlas_command.c:70-138 | for every buffer of 1 to 65535 bytes, validation and one walk return exactly what the gateway's parser returns, or refuse exactly what it does not consume |
| CommandXfer.ChunkingIndependence | atlas_gateway/src/commands/AtlasCommandXfer.cpp:12-42 | for every split of a stream into reads within the remaining length, exactly its complete commands are delivered, once and in order, and the buffer holds the rest |
| CommandXfer.BytesConserved | atlas_gateway/src/commands/AtlasCommandXfer.cpp:19-42 | delivered commands followed by the partial one are the bytes received |
| CommandXfer.FramesWhole | atlas_gateway/src/commands/AtlasCommandXfer.h:64-68 | every delivered command has the size its header declares |
| CommandXfer.BoundsExact | atlas_gateway/src/commands/AtlasCommandXfer.h:13-72 | reads of the remaining length stay inside the 8192-byte buffer if and only if no header received declares more than 8188 bytes |
| CommandXfer.CutConcat | atlas_gateway/src/commands/AtlasCommandXfer.cpp:19-42 | cutting a longer stream is cutting its beginning and then what that left together with the new bytes |
| CommandXfer.CommandTransfer.constructor | atlas_gateway/src/commands/AtlasCommandXfer.cpp:7-10 | starts waiting for a header |
| CommandXfer.CommandTransfer.Init | atlas_gateway/src/commands/AtlasCommandXfer.cpp:12-17 | forgets the current command |
| CommandXfer.CommandTransfer.HandleArrivedData | atlas_gateway/src/commands/AtlasCommandXfer.cpp:19-42 | advances the position and enters the payload phase with the declared length exactly when the header is complete |
| CommandXfer.CommandTransfer.HandleRead | atlas_gateway/src/pubsub_agent/AtlasPubSubAgent.cpp:214-232 | performs one read of the state machine on the array and hands out the command it completes |
| Reputation.HistoryBounded | atlas_gateway/src/reputation_impl/AtlasReputation_NaiveBayes.cpp:9-73 | over any history of features, weights, thresholds and duplicate-free feedback: successes of a feature <= successes <= transactions, and the reputation is in [0,1] |
| ReputationHistory.HistoryDetermines | atlas_gateway/src/reputation_impl/AtlasDeviceFeatureManager.cpp:7-21 | after every proper history: transactions, successes, the successes of each feature through all its reweightings, its last weight and the last threshold, in terms of the history alone |
| ReputationHistory.ReputationFormula | atlas_gateway/src/reputation_impl/AtlasReputation_NaiveBayes.cpp:9-73 | the reputation is the naive Bayes product (S / T) times all s / S, written without divisions |
| ReputationHistory.ReputationStored | atlas_gateway/src/reputation_impl/AtlasReputation_NaiveBayes.cpp:56-73 | after a feedback the stored reputation is the one of the counters; before the first it is 0 |
| ReputationExact.BoundExact | atlas_gateway/src/reputation_impl/AtlasReputation_NaiveBayes.cpp:9-73 | a feedback keeps successes of a feature <= successes <= transactions, for all counters at once, if and only if it is not satisfied or credits no feature twice |
| ReputationHistory.BoundExactAlways | atlas_gateway/src/reputation_impl/AtlasReputation_NaiveBayes.cpp:9-73 | the same over histories: after every history with these features, weights and threshold the feedback keeps the bound if and only if it is not satisfied or credits no feature twice; otherwise a history without any transaction breaks it |
| ReputationExact.DuplicateExample | atlas_gateway/src/reputation_impl/AtlasReputation_NaiveBayes.cpp:47-54 | a history with one feedback naming a feature twice gives reputation 2 |
| Reputation.FullNeverLowers | atlas_gateway/src/reputation_impl/AtlasReputation_NaiveBayes.cpp:30-73 | feedback at or above the threshold for every feature never lowers the reputation, when the threshold times the sum of the non-negative weights is at least the threshold |
| ReputationExact.FullNeverLowersExact | atlas_gateway/src/reputation_impl/AtlasReputation_NaiveBayes.cpp:30-73 | for non-negative weights: that holds for all counters and all such feedback if and only if the threshold times the sum of the weights is at least the threshold |
| ReputationHistory.FullNeverLowersExactAlways | atlas_gateway/src/reputation_impl/AtlasReputation_NaiveBayes.cpp:30-73 | the same over histories |
| ReputationExact.NegativeThresholdExample | atlas_gateway/src/reputation_impl/AtlasReputation_NaiveBayes.cpp:37-43 | a history with a weight of 2 and a threshold of -1 where it falls from 1 to one half |
| Reputation.BelowNeverRaises | atlas_gateway/src/reputation_impl/AtlasReputation_NaiveBayes.cpp:30-73 | a transaction below the threshold never raises the reputation |
| Reputation.NextFeedback | atlas_gateway/src/reputation_impl/AtlasReputation_NaiveBayes.cpp:30-73 | both, for the next feedback after any history |
| ReputationExact.SuccessNeverLowersExact | atlas_gateway/src/reputation_impl/AtlasReputation_NaiveBayes.cpp:30-73 | a satisfied duplicate-free feedback never lowers the reputation, whatever the counters, if and only if it credits every feature |
| ReputationHistory.SuccessNeverLowersAlways | atlas_gateway/src/reputation_impl/AtlasReputation_NaiveBayes.cpp:30-73 | the same over histories: otherwise a history of one transaction exists after which it falls |
| ReputationExact.PartialSuccessExample | atlas_gateway/src/reputation_impl/AtlasReputation_NaiveBayes.cpp:41-55 | a history where a successful transaction that credits only one of two features halves a reputation of 1 |
| Reputation.SuccessCredits | atlas_gateway/src/reputation_impl/AtlasReputation_NaiveBayes.cpp:37-55 | with non-negative weights of at most 1 in all, a positive threshold and no duplicates, every successful transaction credits some feature |
| Reputation.SuccessesAccounted | atlas_gateway/src/reputation_impl/AtlasReputation_NaiveBayes.cpp:37-55 | over every such history the feature successes together are at least the successes |
| ReputationExact.SuccessCreditsExact | atlas_gateway/src/reputation_impl/AtlasReputation_NaiveBayes.cpp:37-55 | for non-negative weights: every successful transaction credits some feature, whatever the duplicate-free feedback, if and only if the weights sum to at most 1 and the threshold is positive |
| ReputationExact.UncreditedExample | atlas_gateway/src/reputation_impl/AtlasReputation_NaiveBayes.cpp:37-55 | a history with weights above 1 where the success credits no feature |
| Reputation.NamedIsCovered | atlas_gateway/src/reputation_impl/AtlasReputation_NaiveBayes.cpp:37-39 | summing the weights a duplicate-free feedback names entry by entry or feature by feature is the same |
| ReputationService.FeatureManager.constructor | atlas_gateway/src/reputation_impl/AtlasDeviceFeatureManager.h:20-22 | starts with no transactions and threshold 0.8 |
| ReputationService.FeatureManager.Position | atlas_gateway/src/reputation_impl/AtlasDeviceFeatureManager.cpp:41-50 | the search loop returns the first feature of the type |
| ReputationService.FeatureManager.AddFeature | atlas_gateway/src/reputation_impl/AtlasDeviceFeatureManager.cpp:7-21 | appends a feature or changes the weight of the existing one, and keeps the types distinct |
| ReputationService.FeatureManager.ComputeReputationForFeature | atlas_gateway/src/reputation_impl/AtlasReputation_NaiveBayes.cpp:9-28 | the ratio of successes, zero when any of the three counters is zero |
| ReputationService.FeatureManager.ComputeReputation | atlas_gateway/src/reputation_impl/AtlasReputation_NaiveBayes.cpp:60-73 | the product loop returns the reputation of the counters and stores it, unless there was no transaction |
| ReputationService.FeatureManager.SatisfactionScore | atlas_gateway/src/reputation_impl/AtlasReputation_NaiveBayes.cpp:37-39 | the first loop returns the weighted score |
| ReputationService.FeatureManager.CreditFeatures | atlas_gateway/src/reputation_impl/AtlasReputation_NaiveBayes.cpp:45-54 | the second loop adds to each feature exactly the entries for it that reach the weighted threshold |
| ReputationService.FeatureManager.ComputeReputationFromFeedback | atlas_gateway/src/reputation_impl/AtlasReputation_NaiveBayes.cpp:30-58 | performs one transaction of the histories above |
| CoapClient.TimeoutsAreLive | atlas_gateway/src/coap/AtlasCoapClient.cpp:135-248 | between events of any run the armed timeouts are exactly the live requests, each with a watched descriptor |
| CoapClient.OneCompletion | atlas_gateway/src/coap/AtlasCoapClient.cpp:135-225 | over any run, with callbacks that send and cancel, the callback of a request runs at most once, and exactly once when the request is finished (section 5.3.2 of RFC 7252) |
| CoapClient.CompletionJustified | atlas_gateway/src/coap/AtlasCoapClient.cpp:123-185 | every completion is of a request still waiting, by the response with its token or by its timeout |
| CoapClient.NoCompletionAfterCancel | atlas_gateway/src/coap/AtlasCoapClient.cpp:393-401 | after a request is cancelled its callback never runs |
| CoapClient.TimeoutCompletes | atlas_gateway/src/coap/AtlasCoapClient.cpp:210-225 | the timeout of a live request finishes it and removes it from the table, whatever its callback does |
| CoapClient.RunInv | atlas_gateway/src/coap/AtlasCoapClient.cpp:123-248 | request table, timeouts, watched descriptors and record agree after any sequence of events |
| CoapClientEffects.ResponseCompletes | atlas_gateway/src/coap/AtlasCoapClient.cpp:135-185 | for every run: the response with session and token of a live request tells its callback the outcome, reset, success, client error or unknown by its kind, and removes request and timeout, whatever the callback does |
| CoapClientEffects.ForeignResponse | atlas_gateway/src/coap/AtlasCoapClient.cpp:146-161 | a response with another session or token, or for no live request, completes nothing and changes no live request |
| CoapClientEffects.TimeoutRecords | atlas_gateway/src/coap/AtlasCoapClient.cpp:210-225 | the timeout of a live request is reported as such first of all and removes request, timeout and descriptor |
| CoapClientEffects.LateAlarm | atlas_gateway/src/coap/AtlasCoapClient.cpp:210-225 | a timeout without its request does nothing |
| CoapClientEffects.SendStarts | atlas_gateway/src/coap/AtlasCoapClient.cpp:227-248 | a send makes a live request with the current token, a timeout and a watched descriptor, and moves the token on by one modulo 2^32; without a descriptor only the token moves |
| CoapClientEffects.CancelStops | atlas_gateway/src/coap/AtlasCoapClient.cpp:393-401 | a cancellation ends exactly its request |
| CoapClientEffects.UnwatchesFinished | atlas_gateway/src/coap/AtlasCoapClient.cpp:199-208 | after its descriptor is served, a context is watched if and only if its request is live |
| CoapClientEffects.CallbackActs | atlas_gateway/src/coap/AtlasCoapClient.cpp:163-184 | what the callback of a response sends and cancels takes effect as if called one by one, for every other context |
| CoapClientEffects.TimeoutCallbackActs | atlas_gateway/src/coap/AtlasCoapClient.cpp:210-225 | the same for the callback of a timeout |
| CoapClientService.AtlasCoapClient.constructor | atlas_gateway/src/coap/AtlasCoapClient.h:69-69 | starts with empty tables and token 0 |
| CoapClientService.AtlasCoapClient.AddRequest | atlas_gateway/src/coap/AtlasCoapClient.cpp:227-248 | adds the request with its timeout and descriptor, leaving every other request alone |
| CoapClientService.AtlasCoapClient.SendRequest | atlas_gateway/src/coap/AtlasCoapClient.cpp:329-390 | performs the send step; a failure uses up a token and changes no table |
| CoapClientService.AtlasCoapClient.CancelRequest | atlas_gateway/src/coap/AtlasCoapClient.cpp:393-401 | performs the cancel step, nothing for a null context |
| CoapClientService.AtlasCoapClient.Lookup | atlas_gateway/src/coap/AtlasCoapClient.cpp:146-146 | an absent context leaves an entry that is not live |
| CoapClientService.AtlasCoapClient.RunCallback | atlas_gateway/src/coap/AtlasCoapClient.cpp:163-180 | records the completion and performs what the callback sends and cancels |
| CoapClientService.AtlasCoapClient.MessageProcess | atlas_gateway/src/coap/AtlasCoapClient.cpp:135-185 | performs the response step, as spelled out by ResponseCompletes and ForeignResponse |
| CoapClientService.AtlasCoapClient.AlarmCallback | atlas_gateway/src/coap/AtlasCoapClient.cpp:210-225 | performs the timeout step |
| CoapClientService.AtlasCoapClient.ScheduleCallback | atlas_gateway/src/coap/AtlasCoapClient.cpp:199-208 | stops watching the descriptor exactly when the request is gone |
| Scheduler.DeleteExact | atlas_client/src/scheduler/atlas_scheduler.c:47-57 | deleting a descriptor leaves no live entry of it if and only if no entry but its first was live |
| Scheduler.DeleteTwiceExample | atlas_client/src/scheduler/atlas_scheduler.c:47-57 | register, delete, register, delete before a sweep leaves a live entry |
| Scheduler.DeleteSpares | atlas_client/src/scheduler/atlas_scheduler.c:47-57 | deleting touches no entry of another descriptor and revives none |
| Scheduler.AddRegisters | atlas_client/src/scheduler/atlas_scheduler.c:23-45 | registering adds one live entry behind the others, nothing for a negative descriptor or a missing callback |
| Scheduler.SweepClean | atlas_client/src/scheduler/atlas_scheduler.c:71-91 | a sweep leaves only live entries and all of them |
| Scheduler.SweepOrdered | atlas_client/src/scheduler/atlas_scheduler.c:71-91 | and keeps them in order, each exactly once |
| Scheduler.RoundCorrect | atlas_client/src/scheduler/atlas_scheduler.c:68-100 | for every list, every ready set and whatever callbacks add or delete: callbacks run in list order, at most once per ready descriptor, only for entries live at that moment, and no ready descriptor with an entry live at the end is passed over |
| Scheduler.CallbacksAct | atlas_client/src/scheduler/atlas_scheduler.c:95-99 | what callbacks add and delete takes effect at once: the list after a round is the swept one changed by all their operations in order, and each callback ran on an entry of the list as the ones before it left it |
| Scheduler.DispatchServes | atlas_client/src/scheduler/atlas_scheduler.c:95-99 | the pass, which ends by the measure (ready descriptors, entries left), leaves no entry both live and ready |
| Scheduler.DispatchExtends | atlas_client/src/scheduler/atlas_scheduler.c:95-99 | during a pass entries are only appended or marked, descriptors only cleared |
| SchedulerList.ClientScheduler.constructor | atlas_client/src/scheduler/atlas_scheduler.c:21-21 | starts with an empty list |
| SchedulerList.ClientScheduler.AddEntry | atlas_client/src/scheduler/atlas_scheduler.c:23-45 | appends to the linked list, nothing for a negative descriptor or a missing callback |
| SchedulerList.ClientScheduler.DelEntry | atlas_client/src/scheduler/atlas_scheduler.c:47-57 | marks exactly the first entry of the descriptor |
| SchedulerList.ClientScheduler.Unlink | atlas_client/src/scheduler/atlas_scheduler.c:76-79 | relinking at the head or behind the previous node takes exactly that node out |
| SchedulerList.ClientScheduler.Sweep | atlas_client/src/scheduler/atlas_scheduler.c:69-91 | the walk leaves a well-formed list of exactly the unmarked entries in order, with their descriptors and the largest of them |
| SchedulerList.ClientScheduler.RunCallback | atlas_client/src/scheduler/atlas_scheduler.c:97-97 | performs what a callback does to the list while the walk is inside it |
| SchedulerList.ClientScheduler.DispatchReady | atlas_client/src/scheduler/atlas_scheduler.c:95-99 | the walk over the list, as callbacks change it, is the dispatch pass and ends |
| SchedulerList.ClientScheduler.OneRound | atlas_client/src/scheduler/atlas_scheduler.c:68-100 | sweep and dispatch together are a round in the sense of RoundCorrect |

## Left out

- libcoap, boost::asio, MQTT, HTTP2, DTLS and sockets: a write is an append to an ordered channel that a lost connection discards; the lifetime of asynchronous write buffers is not modelled.
- HMAC and base64 of the command signature: a boolean input of the step.
- SQL preparation, binding and error text: only the table meaning of each operation, with its failure as an input. A failing update of the stored statistics is not modelled.
- A failed CoAP send in `pushCommand` (atlas_gateway/src/device/AtlasDevice.cpp:447-458) is a step that changes nothing; that the handler there catches another type than the one thrown is not modelled.
- DONE for an empty executed queue, which the drain call at atlas_gateway/src/claim_approve/AtlasApprove.cpp:334 can reach, is modelled as nothing sent.
- ClientCodec.ClientBatch.Add: requires that the 16-bit length does not wrap, because past it the program writes outside its buffer; `AddInBounds` says exactly when that is.
- ClientCodec.ClientBatch.Get: requires a buffer and that the header it visits lies inside it, because the program reads past the buffer otherwise. The host is little-endian, so the in-place conversion swaps bytes; on a big-endian host it does nothing.
- ClientCodec.ClientBatch.ReadHeaders: requires that every header of the walk lies inside the buffer, for the same reason.
- FirewallTheorems.RuleAgreement: speaks of messages. On the wire an install message for an identity of more than 8166 bytes does not fit the receiver's buffer (`RequestFitsExactly`), and past 65513 bytes it is not decoded as sent (`RequestDecodes`).
- CommandXfer.CommandTransfer.HandleRead: requires that the declared command fits the 8192-byte buffer, because the program writes past it otherwise; `BoundsExact` says exactly when that is.
- FirewallPlugin.AtlasFilter.HandleRead: requires the same for the same reason.
- FirewallWindow.WindowLimitExact: requires that packets of the window so far conform to the policy and that the 32-bit window counter cannot wrap; packets that arrive while there is no rule are not counted, as nothing limits them. `WindowBound` and `MostInWindow` allow any packets.
- ReputationService.FeatureManager.SatisfactionScore: requires that the feedback names existing features, because the index operator reads past the vector otherwise.
- ReputationService.FeatureManager.CreditFeatures: requires the same for the same reason.
- ReputationService.FeatureManager.ComputeReputationFromFeedback: requires that the feedback names existing features, because the index operator reads past the vector otherwise; counters do not overflow and doubles are real numbers, so rounding is not modelled.
- CoapClientService.AtlasCoapClient.SendRequest: requires a context never used before, as libcoap contexts are never given back by the gateway.
- SchedulerList.ClientScheduler.OneRound: descriptors are not limited to FD_SETSIZE, and select itself is an input.
- The mutex between the plug-in's packet filter and its socket thread: each locked section is one step.
- Creation of a device object by a statistics report: an unregistered device without a policy, which no theorem here depends on.
- `removeFeature`, feedback sampling, registration intervals and the most trusted device: single assignments, map look-ups or a maximum, with no invariant across operations.
- Client keep-alive counter, client CoAP list, telemetry builders, alerts, JSON text, logging, identity files, command line, reputation simulation, cloud and Android code.
