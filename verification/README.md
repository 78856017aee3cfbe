# ShirohaChat, verified

A Dafny 4.11 model of the ShirohaChat messenger and proofs of what it keeps and promises:

- **Server, two threads.** The main thread holds the sessions, the pending acknowledgements, the idempotency cache and
  the group sends in flight; the database thread holds the offline queue, the groups and the friendships. They talk
  through first-in first-out channels. `OfflineProtocol` is the offline-delivery protocol as a transition system
  (every handler is one atomic step); `ServerProtocol` puts message delivery and membership notifications on top. A
  channel is a log that only grows plus the position up to which it was served, so a run is a sequence of events and
  an event that cannot happen is skipped.
- **Idempotency cache.** `IdempotencyWindow` (the map with its order list, key by key), `Idempotency` (over whole
  server runs), `RequestOrigins` (which request an acceptance answers) and `DoubledKeys` (when a cached answer is
  overwritten).
- **Delivery, seen from outside.** `DeliveryOrder` (queued packets arrive in order), `Reconnects` (a disconnect forgets
  what was not acknowledged), `SendAnswers` (which sends are accepted, and why each ack says what it says).
- **Relations.** `Friends`, `GroupModel`, `GroupInvariant`, `Groups`: request and membership tables under every
  sequence of calls, and the batched member query. `FriendRules` and `GroupAnswers` say what becomes of one request or
  group and how each call is answered, `GroupNotices` who is told. `GroupDelivery` runs the group calls and the server
  together.
- **Client.** `Outbox` (message status, `pending_acks`, ack timers), `Addressing` (whom a message goes to),
  `DeliveredStatus` (when "delivered" is final), `GroupSync` and `SyncedGroups` (the local group replica), `UnreadCache`
  and `UnreadAgreement` (the shown session list next to the session table), `Receiving` (where a message is stored, and
  for how long) and `ShownSessions` (names); `EndToEnd` composes the outbox with the server over a network that loses,
  repeats and reorders.
- **Tokens.** `Base64Url` and `JsonWebToken`.

What the handlers compute is written once, as functions on values. The classes are the imperative form: fields changed
in place, loops where the source loops, and `ensures` that equate the new state with the function of the old one. The
lemmas about runs are about those functions, so they hold of the classes.

`dafny verify dfyconfig.toml` checks everything.

## What the model takes as input

Generated ids (UUIDs, row ids of the server aside), clock readings, formatted timestamps, SHA-256 and HMAC values,
JSON text, the members a query of the message store finds, the order in which the client's summary query returns rows,
and whether a network request goes out are inputs of the steps. Connection ids and tokens are fresh, server ids are
not empty, the clock does not run backwards, and SQL statements do what they say; a primary key that refuses a row is
modelled with its rollback.

## Findings

Some expected properties are false of the code. The model keeps the code as it is, gives the input as a run, and
proves when the property holds.

- A message can leave the offline queue unacknowledged: a load result that lists its row while the row waits for its
  ack takes it for a duplicate (server/src/services/offline_manager.cpp:98-105), after a second login
  (`QueueRuns.SecondLoginDeletesUnacked`) or with the user offline by then (`QueueRuns.OfflineDeletesUnacked`). Exact
  for one load result: `OfflineLedger.UnackedRemovalIff`; for runs, the only other causes are an ack or a row with the
  same msgId held instead: `OfflineLedger.DeletionNeedsAck`.
- A pending entry can outlive its row (offline_manager.cpp:98-109; `QueueRuns.EntriesOutliveRows`, also without any
  such removal: `QueueRuns.AckedRowPendingAgain`; exactly when: `QuiescentQueue.EntryOutlivesRowIff`).
- A packet can go to another user's session: a connection may log in again as somebody else
  (server/src/services/session_manager.cpp:43-63, not refused in server/src/handlers/auth_handler.cpp:141-171) while
  the user map still names it for its first user (`HandoffOwners.TakenOverSessionGetsPacket`; exactly when:
  `HandoffOwners.HandoffOwnerIff`).
- "Delivered" on the client is not final: a timer that was replaced but not stopped can still fail the message
  (client/src/ShirohaChat/UseCases/send_message_use_case.cpp:255-270;
  `DeliveredStatus.ReturnToSessionFailsDelivered`), and so can a failing ack that arrives late
  (send_message_use_case.cpp:227-238; `DeliveredStatus.LateFailureUndoesDelivered`). Exactly when:
  `DeliveredStatus.DeliveredIsFinalIff`.
- One msgId used for a group send in flight and for a private send is accepted twice at once, because the private
  branch does not look at the sends in flight (server/src/application/services/message_delivery_service.cpp:81-87,
  112-117; `DoubledKeys.MixedTypesAcceptTwice`; exactly when a cached answer is overwritten:
  `DoubledKeys.DoubledIff`).
- Request keys of different senders can meet when an id contains a colon (message_delivery_service.cpp:21-24; exactly
  when: `IdempotencyWindow.CollidingSenders`).
- Group requests are remembered under the client's msgId alone: two clients that use the same one at the same time get
  each other's answers (server/src/application/services/group_management_service.cpp:20-152; `GroupRequests.MetIds`;
  exactly when: `GroupRequests.OwnAnswerIff`).
- A group whose received entry names a user twice, once trimmed, is not saved, although its session is
  (client/src/ShirohaChat/Storage/group_repository.cpp:101-129; `GroupSync.RepeatedMemberIsNotSaved`; exactly when:
  `GroupSync.SavedIff`). The server's own lists name each member once (`GroupDelivery.LoadedExactly`).
- The UTF-8 size limit of a message never decides (message_delivery_service.cpp:50-56;
  `MessageDelivery.CharacterLimitDecides`).

## Model

| member | source | states |
|---|---|---|
| Packets.CommandRoundTrip | shared/protocol/commands.cpp:8-87 | every command is found again under its own wire name |
| Packets.DecodeEncode | shared/protocol/packet.cpp:12-128 | decoding what was encoded gives the packet back, for every packet, with the optional fields left out or not |
| Packets.DecodedIff | shared/protocol/packet.cpp:71-128 | a document is a packet exactly when it is an object that has the fields cmd and msgId |
| Packets.DecodeDefaults | shared/protocol/packet.cpp:71-128 | what a missing or differently typed field stands for, and that a command is known only by its exact wire name |
| DeliveryLoop.LoopIsPass | server/src/services/offline_manager.cpp:70-131 | for a recipient who is online the delivery loop is one pass over the decoded rows and never stops early |
| DeliveryLoop.HeldAfter | server/src/services/offline_manager.cpp:93-118 | after the pass exactly the msgIds pending before and those mentioned by rows that need an ack are pending, and old entries keep their row |
| DeliveryLoop.NewEntriesWereSent | server/src/services/offline_manager.cpp:93-118 | every new pending entry names a row of the result whose packet was sent |
| DeliveryLoop.UnshadowedIsSent | server/src/services/offline_manager.cpp:93-131 | a row that no pending entry or earlier row shadows is sent, and is held pending if it needs an ack |
| DeliveryLoop.RemovableIsReported | server/src/services/offline_manager.cpp:93-131 | rows without need of an ack and shadowed rows are reported for deletion |
| DeliveryLoop.ReportedIsRemovable | server/src/services/offline_manager.cpp:93-131 | nothing else is reported for deletion |
| DeliveryLoop.DeliveredOffline | server/src/services/offline_manager.cpp:93-131 | for a recipient who is offline nothing is sent and no entry is made; reported are exactly the rows up to the first whose msgId is not pending, where the loop stops |
| DeliveryLoop.UnreadableRow | server/src/services/offline_manager.cpp:75-91 | a row that cannot be decoded or names no message changes nothing for the other rows and is itself reported if the loop gets that far, wherever it stands and whether the user is online or not |
| DeliveryOrder.SentInOrder | server/src/services/offline_manager.cpp:70-131 | what the loop sends are the packets of the unshadowed rows, each once, in the order of the rows |
| DeliveryOrder.QueuedOrderKept | server/src/storage/offline_queue_repository.cpp:112-147 | in every run a load result is handed over in the order in which its rows were queued, to the session that the user map names, each unshadowed row once and nothing else |
| OfflineProtocol.RowInvStep | server/src/services/offline_manager.cpp:20-177 | each step keeps: rows are numbered, readable and issued once; load results list issued rows; every pending entry, posted deletion and deleted row names a row whose packet was handed to the connection that the user map names for its recipient |
| OfflineProtocol.EntriesAfterDelivery | server/src/services/offline_manager.cpp:93-118 | after a load result every pending entry still names a row of its user with its msgId, handed to the connection that the user map names for that user |
| OfflineProtocol.RemovableHanded | server/src/services/offline_manager.cpp:85-131 | a row reported for deletion had a packet with its msgId handed to the connection that the user map names for its recipient |
| HandoffOwners.RoutedToOwnSessionIff | server/src/services/session_manager.cpp:71-77 | a packet routed for a user goes to that user's own session exactly when the connection that the user map names logged in last as that user |
| HandoffOwners.HandoffOwnerIff | server/src/services/message_router.cpp:18-30 | so each hand-off of a run went to a session of its user exactly when its connection had logged in last as that user |
| HandoffOwners.OwnSessionsOnly | server/src/handlers/auth_handler.cpp:141-171 | when no connection logs in as two users, every hand-off of the run goes to a session of its user |
| HandoffOwners.TakenOverSessionGetsPacket | server/src/services/session_manager.cpp:43-63 | concrete run: a connection logs in as a second user and is still handed the packets of the first |
| NoStrandedMessage.NothingStrandedStep | server/src/services/offline_manager.cpp:20-177 | each step keeps every row and every enqueue in flight for an online user covered: by a pending entry, a deletion in flight, a load ahead of it, or a load result in flight |
| NoStrandedMessage.NothingStrandedEver | server/src/services/offline_manager.cpp:20-177 | so it holds in every reachable state, with detach removing the user map entry of another connection |
| NoStrandedMessage.StrandedNoneDisconnect | server/src/services/session_manager.cpp:24-41 | detaching strands nothing, whichever connection the user map names |
| NoStrandedMessage.ListedRowIsCovered | server/src/services/offline_manager.cpp:55-139 | a row listed in a handled load result of an online user is held pending or its deletion is posted |
| NoStrandedMessage.QuiescentRowsAwaitAcks | server/src/services/offline_manager.cpp:20-177 | with both channels empty every row left for an online user waits for that user's ack |
| QuiescentQueue.RowsUntilMarkedEver | server/src/storage/offline_queue_repository.cpp:82-181 | in every run a row ever inserted is in the table until a deletion naming it is served, and from then on for good not |
| QuiescentQueue.EntryOutlivesRowIff | server/src/services/offline_manager.cpp:98-109 | a pending entry's row is deleted, or its deletion on its way, exactly when a load result listing the row was handled while its msgId was pending already (and the loop got that far) or while its deletion was posted already |
| QuiescentQueue.QuiescentRowsExactly | server/src/services/offline_manager.cpp:20-177 | with both channels empty the rows of an online user are exactly those awaiting the ack that no such load result listed |
| QueueRuns.AckedRowPendingAgain | server/src/services/offline_manager.cpp:107-109 | concrete run: two load results list a row; the ack of the first delivery posts the deletion, and the second result makes the entry again for a row that is gone |
| QueueRuns.EntriesOutliveRows | server/src/services/offline_manager.cpp:98-109 | in that run, and after a second login before the ack, an entry is pending although its row is deleted |
| QuiescentQueue.QueuedPacketsDecode | server/src/services/offline_manager.cpp:75-91 | the undecodable and the empty-msgId branch are never taken for rows the server wrote |
| QuiescentQueue.DeletedWasHandedOver | server/src/services/offline_manager.cpp:55-168 | a row is deleted only after a packet with its msgId was handed to the connection that the user map named for its recipient |
| QuiescentQueue.EntryNamesSentRow | server/src/services/offline_manager.cpp:93-118 | in every run each pending entry (user, msgId) names a row of that user with that msgId which was routed for the user |
| OfflineLedger.ConservedStep | server/src/services/offline_manager.cpp:20-177 | each step keeps the multiset equation: submitted = handed over at once + enqueues in flight + rows + deleted rows |
| OfflineLedger.LedgerHolds | server/src/services/offline_manager.cpp:20-177 | conservation, a hand-off of its own for each parcel handed over at once, and the row invariant hold in every run |
| OfflineLedger.ParcelsSplit | server/src/storage/offline_queue_repository.cpp:149-181 | a deletion splits the table without losing or doubling a row |
| OfflineLedger.DeletionNeedsAck | server/src/services/offline_manager.cpp:93-177 | in every run a receive_message row is deleted only after its ack, beside another row with its msgId that was sent and held pending, or after a load result listed it while it waited for its ack |
| OfflineLedger.UnackedRemovalIff | server/src/services/offline_manager.cpp:93-118 | a load result removes a row that needs an ack exactly when, for an online user, its msgId was pending or an earlier row has it, and for an offline user, it and every row before it need an ack and have their msgId pending |
| Reconnects.EntrySentSinceDrop | server/src/services/offline_manager.cpp:170-177 | in every run each pending entry stems from a hand-off of its row's packet for that user made after the last disconnect of a connection authenticated as the user |
| Reconnects.NothingHeldSinceDrop | server/src/services/offline_manager.cpp:170-177 | from such a disconnect until a load result is handled with the user online, nothing is held for the user |
| Reconnects.ReconnectResends | server/src/services/offline_manager.cpp:55-131 | the first load result handled for the user online after it hands over the msgId of every listed row that needs an ack anew, and the row itself unless an earlier listed row has its msgId |
| Reconnects.ReconnectRun | server/src/services/session_manager.cpp:24-41 | from every reachable state with empty channels: a row that needs an ack, the only one of its user with its msgId, is handed over again to the session of the next login after its connection drops, stays in the table and waits for its ack, with no deletion posted |
| QueueRuns.SecondLoginDeletesUnacked | server/src/services/offline_manager.cpp:98-105 | concrete run: a second login deletes the only copy of a message that was never acknowledged |
| QueueRuns.OfflineDeletesUnacked | server/src/services/offline_manager.cpp:98-105 | concrete run: the same happens to a user who is offline by then, after the connection logged in as somebody else and left |
| ServerSessions.SessionManager.Attach | server/src/services/session_manager.cpp:16-22 | registers the session under its connection id |
| ServerSessions.SessionManager.Detach | server/src/services/session_manager.cpp:24-41 | removes the connection and the user map entry of its user, whichever connection that names |
| ServerSessions.SessionManager.Authenticate | server/src/services/session_manager.cpp:43-63 | marks the session and points the user map at it; unknown connections change nothing |
| ServerSessions.SessionManager.FindByUserId | server/src/services/session_manager.cpp:71-77 | finds the session exactly when the user is online in the protocol |
| ServerSessions.MessageRouter.RouteToUser | server/src/services/message_router.cpp:18-30 | hands over exactly when the user is online, and tells which |
| ServerSessions.MessageRouter.RouteToUsers | server/src/services/message_router.cpp:32-46 | the loop routes to everybody but the excluded user and returns exactly the users not reached |
| ServerSessions.RoutedOrUnreached | server/src/services/message_router.cpp:32-46 | each listed user is, once per listing, either handed the packet or reported; the excluded one neither |
| OfflineServices.OfflineManager.EnqueueIfOffline | server/src/services/offline_manager.cpp:20-36 | hand-off or one enqueue request, as in the protocol |
| OfflineServices.OfflineManager.EnqueueIfOfflineMany | server/src/services/offline_manager.cpp:38-47 | the loop with its exclusion |
| OfflineServices.OfflineManager.DeliverOnLogin | server/src/services/offline_manager.cpp:49-53 | posts the load request |
| OfflineServices.OfflineManager.OnOfflineLoaded | server/src/services/offline_manager.cpp:55-139 | the loop that routes anew for each row computes the delivery step of the protocol |
| OfflineServices.RoundExtends | server/src/services/offline_manager.cpp:70-131 | deciding the routing anew in each round equals deciding it once, since routing changes no session |
| OfflineServices.OfflineManager.DeliverForAck | server/src/services/offline_manager.cpp:93-118 | one row that needs an ack: duplicate, sent and held, or stop |
| OfflineServices.OfflineManager.HandleMessageReceivedAck | server/src/services/offline_manager.cpp:141-168 | erases the entry, drops an empty inner map, posts the deletion; unknown acks change nothing |
| OfflineServices.OfflineManager.OnUserDisconnected | server/src/services/offline_manager.cpp:170-177 | forgets the pending entries of the user |
| OfflineServices.OfflineManager.Disconnect | server/src/server_app.cpp:309-330 | detach and the signal it causes are the disconnect step of the protocol |
| OfflineServices.OfflineManager.LoginUser | server/src/handlers/auth_handler.cpp:141-171 | authenticate and deliver are the login step of the protocol |
| OfflineServices.OfflineQueueRepository.QueueOffline | server/src/storage/offline_queue_repository.cpp:82-110 | appends a row under the next id |
| OfflineServices.OfflineQueueRepository.LoadOffline | server/src/storage/offline_queue_repository.cpp:112-147 | the loop returns the rows of the user in id order |
| OfflineServices.OfflineQueueRepository.MarkOfflineDelivered | server/src/storage/offline_queue_repository.cpp:149-181 | removes exactly the rows with the given ids |
| IdempotencyWindow.PruneBounds | server/src/application/services/message_delivery_service.cpp:213-238 | after pruning at most 10000 entries are cached and every key is in the order list, also when a key stands there twice |
| IdempotencyWindow.PruneForgets | server/src/application/services/message_delivery_service.cpp:213-238 | what stays cached keeps its answer |
| IdempotencyWindow.PruneDropsOldest | server/src/application/services/message_delivery_service.cpp:213-238 | on a tidy cache pruning drops exactly the oldest max(expired, size - 10000) entries and keeps the rest as a suffix |
| Idempotency.RunsPruneOldest | server/src/application/services/message_delivery_service.cpp:213-238 | in every run whose order list holds no key that was inserted over its own cached answer the cache is tidy and pruning drops exactly those |
| IdempotencyWindow.PruneKeepsNewest | server/src/application/services/message_delivery_service.cpp:84-87 | an entry inserted now survives the pruning that follows |
| IdempotencyWindow.PruneKeepsKey | server/src/application/services/message_delivery_service.cpp:213-238 | key by key, also when other keys stand twice in the order list: pruning keeps the key's one insertion that is neither too old nor outnumbered, with its answer, and forgets it only when it is |
| IdempotencyWindow.PruneKeepsWindow | server/src/application/services/message_delivery_service.cpp:213-238 | so a cache that is the sliding window of the insertions stays that |
| IdempotencyWindow.InsertIsLate | server/src/application/services/message_delivery_service.cpp:84-87 | an uncached key is inserted again only late |
| IdempotencyWindow.KeyIdentifiesRequest | server/src/application/services/message_delivery_service.cpp:21-24 | without a colon in the sender ids the key determines sender and msgId |
| IdempotencyWindow.CollidingSenders | server/src/application/services/message_delivery_service.cpp:21-24 | keys of two senders can meet exactly when one id continues the other after a colon |
| DeliveryServices.MessageDeliveryService.PruneIdempotencyCache | server/src/application/services/message_delivery_service.cpp:213-238 | the while loop over map and list computes the recursive pruning |
| MessageDelivery.CharacterLimitDecides | server/src/application/services/message_delivery_service.cpp:50-56 | the byte limit never refuses a message that the character limit lets pass |
| MessageDelivery.RecipientsExact | server/src/services/offline_manager.cpp:38-47 | the fan-out lists every member but the sender exactly once |
| MessageDelivery.NotifyRecipientsExact | server/src/application/services/group_management_service.cpp:214-224 | a notification lists each member and the user removed or gone exactly once |
| GroupDelivery.LoadedExactly | server/src/storage/group_repository.cpp:522-580 | the loaded member list names each member of the group exactly once |
| GroupDelivery.DeploymentInvEver | server/src/server_app.cpp:160-182 | in every run of server and group calls together each member list in flight is that of the tables when the query was served |
| GroupDelivery.GroupMessageReachesOnce | server/src/application/services/message_delivery_service.cpp:144-205 | in every run, handling the member list of a group send brings each member but the sender, exactly once, as a hand-off or an enqueue request, a packet with the text, sender, session and nickname of a request received, and nobody else anything; without the group, or with a sender outside it, nobody anything |
| GroupDelivery.NotificationReachesOnce | server/src/application/services/group_management_service.cpp:181-225 | the same for a membership notification under the group's name: each member and the user removed or gone, exactly once |
| GroupNotices.EverybodyConcernedIsTold | server/src/application/services/group_management_service.cpp:107-225 | a successful group call on a user with an id is told to exactly those who are members before or after it, unless it dissolves the group |
| GroupNotices.NoticeSays | server/src/application/services/group_management_service.cpp:107-179 | the notification names the group and the kind of change, for a member who it is and who did it, for a new group its name |
| MessageDelivery.PrefixesDiffer | server/src/server_app.cpp:170-182 | no token has both prefixes |
| DeliveryServices.MessageDeliveryService.ProcessSendMessage | server/src/application/services/message_delivery_service.cpp:33-142 | all branches: new service state, acks, and the effects on sessions and channel |
| DeliveryServices.MessageDeliveryService.OnGroupMembersForMessage | server/src/application/services/message_delivery_service.cpp:144-205 | all branches: failure, not a member, accepted with fan-out |
| DeliveryServices.MessageDeliveryService.FanOut | server/src/application/services/message_delivery_service.cpp:190-204 | stores the message and submits it once for every recipient |
| SendAnswers.TakenIff | server/src/application/services/message_delivery_service.cpp:33-142 | in every run an uncached send is accepted at once or has its members asked for exactly when its text has at most 4096 UTF-16 units, a private session id is that of the two users, and a group send is not in flight already; otherwise it gets one ack, 413 or 400, or none when in flight, and has no effect |
| SendAnswers.CachedSend | server/src/application/services/message_delivery_service.cpp:38-48 | a send whose key is cached gets the cached answer under its own session and msgId, and has no effect |
| SendAnswers.AnswersJustified | server/src/application/services/message_delivery_service.cpp:33-205 | in every run each ack goes to the session of a request that arrived, under its msgId, and has its code for a reason that held: 413 size, 400 session id, 404 or 500 no member list, 403 not a member, 200 accepted under its key |
| DeliveryServices.ManyIsSubmitAll | server/src/services/offline_manager.cpp:38-47 | the fan-out loop performs exactly one submission per recipient |
| DeliveryServices.PerformedIsRun | server/src/application/services/message_delivery_service.cpp:33-205 | performing a handler's effects is a run of the offline protocol |
| ServerProtocol.EffectsHappen | server/src/application/services/message_delivery_service.cpp:90-109 | what a handler signals is posted and what it submits is in the ledger |
| FanOut.ServerRunsOffline | server/src/server_app.cpp:160-182 | every run of the server is a run of the offline protocol |
| FanOut.FanOutExact | server/src/application/services/message_delivery_service.cpp:190-204 | a fan-out makes one hand-off per online recipient and one enqueue per other, in order, and changes nothing else |
| FanOut.FanOutCounts | server/src/application/services/message_delivery_service.cpp:190-204 | each user gets as many packets as the list names that user, as hand-offs when online and as enqueue requests when not |
| GroupSends.GroupInvAct | server/src/application/services/message_delivery_service.cpp:112-205 | each server step keeps tokens, queries, results, the in-flight set and the answers matched |
| GroupSends.GroupInvEver | server/src/application/services/message_delivery_service.cpp:112-205 | in every run the in-flight set equals the keys of pending group sends, tokens and queries or results in flight match one to one, and each group send is answered once its result is handled and never twice |
| GroupSends.ReplyReachesAsker | server/src/server_app.cpp:170-182 | a member result goes to the service that asked, which still waits for it |
| GroupSends.AnsweredShape | server/src/application/services/message_delivery_service.cpp:33-142 | a send that asks for no members leaves the pending group sends alone and acks at most once |
| GroupRequests.OwnAnswerIff | server/src/application/services/group_management_service.cpp:20-179 | in every run a group request is answered with its own record exactly when no request with the same msgId waited at the same time |
| GroupRequests.MetIds | server/src/application/services/group_management_service.cpp:107-152 | concrete run: the first of two requests with one msgId is answered to the second client, the second never |
| GroupManagement.GroupManagementService.CreateGroup | server/src/application/services/group_management_service.cpp:20-36 | remembers the request and signals it with all its fields to the repository |
| GroupManagement.GroupManagementService.AddMember | server/src/application/services/group_management_service.cpp:38-55 | the same |
| GroupManagement.GroupManagementService.RemoveMember | server/src/application/services/group_management_service.cpp:57-74 | the same |
| GroupManagement.GroupManagementService.LeaveGroup | server/src/application/services/group_management_service.cpp:76-91 | the same, with the user as target and operator |
| GroupManagement.GroupManagementService.OnResult | server/src/application/services/group_management_service.cpp:107-179 | erases the record, answers with it, and asks for the members to notify only when the change succeeded |
| GroupManagement.GroupManagementService.OnGroupMembersForNotify | server/src/application/services/group_management_service.cpp:181-225 | erases the notification and submits it once for each recipient |
| Idempotency.SendStaysBounded | server/src/application/services/message_delivery_service.cpp:33-142 | at most 10000 answers are cached after a send, whatever the state was |
| Idempotency.ReplyStaysBounded | server/src/application/services/message_delivery_service.cpp:144-205 | and after a member list |
| Idempotency.RunInvAct | server/src/application/services/message_delivery_service.cpp:33-238 | each server step keeps the window of every key never inserted over its cached answer, the soundness of answers, and the requests that acceptances come from |
| Idempotency.RunInvEver | server/src/application/services/message_delivery_service.cpp:33-238 | and so every run does |
| Idempotency.AnswerMeansAccepted | server/src/application/services/message_delivery_service.cpp:38-205 | a 200 answer, fresh or repeated, names an acceptance in the history: stored, handed over or queued for each recipient, and made of a request received under that key: its text, session and sender, and its recipient or the other members of its group |
| Idempotency.RepeatsOnlyLate | server/src/application/services/message_delivery_service.cpp:84-87 | a key never inserted over its cached answer is accepted again only after more than 600000 ms or at least 10000 other insertions |
| Idempotency.RepeatReplays | server/src/application/services/message_delivery_service.cpp:38-48 | until then a repeated send with such a key gets the identical answer and has no effect |
| RequestOrigins.OriginAct | server/src/application/services/message_delivery_service.cpp:111-205 | each server step keeps: pending group sends are made of requests received within the limits, their queries and results name their group, and every acceptance is of such a request, its stored message and its packet agreeing with the request field by field |
| DoubledKeys.DoubledIff | server/src/application/services/message_delivery_service.cpp:78-188 | a key is inserted over its cached answer exactly when a private send with it is accepted while a group send with it is in flight, and the group send's member list is handled while that answer is still cached |
| DoubledKeys.DoubledNeedsBothTypes | server/src/application/services/message_delivery_service.cpp:78-188 | so both a private and a group request with that key were received |
| DoubledKeys.MixedTypesAcceptTwice | server/src/application/services/message_delivery_service.cpp:84-188 | concrete run: one msgId for both session types is accepted twice at once |
| Friends.FriendRepository.CreateFriendRequest | server/src/storage/friend_repository.cpp:102-228 | all branches of the call, with the state unchanged on every refusal |
| Friends.FriendRepository.DecideFriendRequest | server/src/storage/friend_repository.cpp:230-370 | all branches of the call |
| Friends.FriendRepository.LoadFriendList | server/src/storage/friend_repository.cpp:372-406 | the loop returns the other end of each friendship, newest first |
| Friends.PendingMeansNoEdge | server/src/storage/friend_repository.cpp:146-190 | a pending request and a friendship exclude each other |
| Friends.AcceptingInserts | server/src/storage/friend_repository.cpp:331-340 | accepting always inserts a new friendship: INSERT OR IGNORE never ignores |
| Friends.ApplyKeepsInv | server/src/storage/friend_repository.cpp:102-370 | each call keeps: one pending or accepted request per pair, normalized distinct edges, edges exactly for accepted requests |
| Friends.FriendInvEver | server/src/storage/friend_repository.cpp:102-370 | so it holds after every sequence of calls |
| Friends.HandledIsFinal | server/src/storage/friend_repository.cpp:268-276 | a decided request never changes again |
| Friends.FriendListsAgree | server/src/storage/friend_repository.cpp:372-406 | two users list each other or neither does, exactly when they are friends |
| FriendRules.CallFollowsRules | server/src/storage/friend_repository.cpp:102-370 | each call changes every request, seen on its own, as the rules for one request say: made by who may ask, settled by its addressee while pending |
| FriendRules.CreateAnswer | server/src/storage/friend_repository.cpp:102-228 | a request is created exactly when its sender may ask; otherwise 400, 404, 409 or 500 says why |
| FriendRules.DecideAnswer | server/src/storage/friend_repository.cpp:230-370 | a decision succeeds exactly when the addressee decides a pending request; otherwise 400, 403, 404 or 409 says why |
| FriendRules.SettledByAddressee | server/src/storage/friend_repository.cpp:263-282 | in every sequence of calls a request leaves pending exactly at a decision by the user it is addressed to, to accepted exactly when that decision accepts |
| FriendRules.FriendsIffAccepted | server/src/storage/friend_repository.cpp:263-340 | after every sequence of calls two users are friends exactly when one of them asked the other and the other accepted |
| FriendRules.NewestFriendsFirst | server/src/storage/friend_repository.cpp:372-406 | no friend is listed before one whose friendship is newer |
| GroupInvariant.CreateCounts | server/src/storage/group_repository.cpp:115-131 | the count that the limit is checked against is the size of {creator} with the trimmed non-empty invitees |
| GroupInvariant.CleanedElements | server/src/storage/group_repository.cpp:115-126 | the cleaning loop keeps exactly the trimmed non-empty invitees other than the creator, each once |
| GroupInvariant.CreateOutcome | server/src/storage/group_repository.cpp:105-242 | creation succeeds exactly when the id is new, the limit holds and all invitees are known; no member insert ever fails |
| GroupInvariant.CallFollowsRules | server/src/storage/group_repository.cpp:105-520 | each call keeps the table invariant and changes every group as the rules for one group, seen on its own, say |
| GroupInvariant.GroupInvEver | server/src/storage/group_repository.cpp:105-520 | the invariant holds after every sequence of calls |
| GroupInvariant.GroupsStaySound | server/src/storage/group_repository.cpp:105-520 | every group holds its creator and 1 to 50 distinct known members, and no member row outlives its group |
| GroupInvariant.DissolvedIff | server/src/storage/group_repository.cpp:459-494 | a group disappears exactly when its creator leaves as sole member, with all its rows |
| GroupAnswers.CreateAnswer | server/src/storage/group_repository.cpp:105-242 | creation succeeds or says why not (400, 404, 500); the group is stored under its name and creator, and the answer names its members, the creator first |
| GroupAnswers.InvitedInOrder | server/src/storage/group_repository.cpp:115-126 | invitees become members in the order in which they are first named |
| GroupAnswers.AddAnswer | server/src/storage/group_repository.cpp:244-346 | adding succeeds exactly by the rules for one group, and otherwise 403, 404, 400 or 409 says why; the row is that of an ordinary member |
| GroupAnswers.RemoveAnswer | server/src/storage/group_repository.cpp:348-421 | the same for removing: 403 or 404 |
| GroupAnswers.LeaveAnswer | server/src/storage/group_repository.cpp:423-520 | the same for leaving: 404, or 403 for a creator who is not alone |
| GroupAnswers.MembersInJoinOrder | server/src/storage/group_repository.cpp:553-557 | no member is listed before one who joined earlier |
| GroupAnswers.LoadedAnswer | server/src/storage/group_repository.cpp:522-580 | a member list is loaded exactly for a group that exists; otherwise the answer is 404 |
| GroupAnswers.GroupListExact | server/src/storage/group_repository.cpp:582-665 | a user's list has exactly the groups with the user as a member, last changed first and of these last created first |
| Groups.GroupRepository.CreateGroup | server/src/storage/group_repository.cpp:105-242 | all branches, with the transaction undone when an insert is refused |
| Groups.GroupRepository.CleanMembers | server/src/storage/group_repository.cpp:115-126 | the loop over seen and cleanedMembers |
| Groups.GroupRepository.AddMember | server/src/storage/group_repository.cpp:244-346 | all branches of the call |
| Groups.GroupRepository.RemoveMember | server/src/storage/group_repository.cpp:348-421 | all branches of the call |
| Groups.GroupRepository.LeaveGroup | server/src/storage/group_repository.cpp:423-520 | all branches of the call, with the cascade |
| Groups.GroupRepository.LoadGroupMembers | server/src/storage/group_repository.cpp:522-580 | name and members in the order of joining, or 404 |
| Groups.GroupRepository.LoadGroupList | server/src/storage/group_repository.cpp:582-665 | the single IN query sorted in through the index map gives the list of one query per group |
| Groups.BatchedRows | server/src/storage/group_repository.cpp:619-657 | out of the batched query the rows of one group are that group's own query, in order |
| Query.OrderThenWhere | server/src/storage/group_repository.cpp:553-557 | filtering an ordered result and ordering a filtered one agree row by row |
| Query.OrderBySorted | server/src/storage/group_repository.cpp:553-557 | the ordering puts no row before one that must precede it |
| SendMessages.SendMessageUseCase.SendMessage | client/src/ShirohaChat/UseCases/send_message_use_case.cpp:47-94 | all branches: rows, timer and request |
| SendMessages.SendMessageUseCase.ResendMessage | client/src/ShirohaChat/UseCases/send_message_use_case.cpp:96-145 | all branches, with the search loop over the oldest 1000 messages |
| SendMessages.SendMessageUseCase.RecoverPendingMessages | client/src/ShirohaChat/UseCases/send_message_use_case.cpp:147-181 | the loop over the pending messages of the session |
| SendMessages.SendMessageUseCase.OnAckReceived | client/src/ShirohaChat/UseCases/send_message_use_case.cpp:211-225 | stops the timer and settles the message; without a timer it does nothing |
| SendMessages.SendMessageUseCase.OnAckFailed | client/src/ShirohaChat/UseCases/send_message_use_case.cpp:227-253 | fails the message; the pending row goes for 0 < code < 500 only |
| SendMessages.SendMessageUseCase.OnTimeout | client/src/ShirohaChat/UseCases/send_message_use_case.cpp:255-260 | fails the message and forgets whatever timer is registered by then |
| SendMessages.SendMessageUseCase.StartAckTimer | client/src/ShirohaChat/UseCases/send_message_use_case.cpp:262-270 | registers a new timer and leaves a replaced one running |
| SendMessages.SendMessageUseCase.FailMessage | client/src/ShirohaChat/UseCases/send_message_use_case.cpp:272-286 | stops the registered timer and fails the message |
| Outbox.ClientInvAct | client/src/ShirohaChat/UseCases/send_message_use_case.cpp:47-286 | each handler keeps every sending message watched by a pending row and a running timer of its own |
| Outbox.SendingIsWatched | client/src/ShirohaChat/UseCases/send_message_use_case.cpp:47-286 | so it holds in every run, also when a replaced timer fires |
| Outbox.LeavesOnlyWhenSettled | client/src/ShirohaChat/UseCases/send_message_use_case.cpp:47-286 | a message leaves pending_acks only by a 200 ack, a failure with 0 < code < 500, or for want of a route when it is sent or its own session recovered |
| DeliveredStatus.DeliveredUntilUndone | client/src/ShirohaChat/UseCases/send_message_use_case.cpp:211-270 | in any run after its ack a message is shown as delivered, up to its next ack, exactly as long as none of its timers fires, no failing ack for it arrives and it is not sent again |
| DeliveredStatus.DeliveredIsFinalIff | client/src/ShirohaChat/UseCases/send_message_use_case.cpp:211-270 | unless it is sent again, an acknowledged message stays delivered in every run exactly when no replaced timer is left for it and no failing ack for it can still arrive |
| DeliveredStatus.ReturnToSessionFailsDelivered | client/src/ShirohaChat/UseCases/send_message_use_case.cpp:147-181 | concrete run: returning to the session before the ack lets the first timer fail the delivered message |
| DeliveredStatus.LateFailureUndoesDelivered | client/src/ShirohaChat/UseCases/send_message_use_case.cpp:227-238 | concrete run: the failing ack of a first send, arriving after the ack of the resend, fails the delivered message although no timer runs |
| DeliveredStatus.SendsCarryAct | client/src/ShirohaChat/UseCases/send_message_use_case.cpp:47-181 | each step keeps: every request handed to the network carries a stored message |
| Addressing.DispatchOutcome | client/src/ShirohaChat/UseCases/send_message_use_case.cpp:79-94 | a message goes out once, to the stored group or to the private peer who is somebody else; without such a route it fails and nothing goes out |
| Addressing.SendOutcome | client/src/ShirohaChat/UseCases/send_message_use_case.cpp:47-94 | which messages are stored, with which text and status, and which are sent |
| Addressing.ResendOutcome | client/src/ShirohaChat/UseCases/send_message_use_case.cpp:96-145 | a stored message of the session with a text goes out again under its msgId exactly when there is a route, and fails otherwise |
| Addressing.RecoverOrders | client/src/ShirohaChat/UseCases/send_message_use_case.cpp:147-181 | recovering sends every pending message of the session if there is a route, and nothing for another session |
| Addressing.FetchIsOldest | client/src/ShirohaChat/UseCases/send_message_use_case.cpp:105-115 | the search before a resend sees exactly the oldest messages of the session up to its limit |
| Addressing.SendsAddressed | client/src/ShirohaChat/UseCases/send_message_use_case.cpp:47-181 | in every run each request handed to the network was ordered by the user for that session and is addressed as the tables said at that moment: to the group without a recipient if the session was a stored group, else to the session's peer, who is neither empty nor the sender |
| EndToEnd.DeliveredMeansAccepted | client/src/ShirohaChat/UseCases/send_message_use_case.cpp:211-225 | over a network that loses, repeats and reorders, an own message shown as delivered was accepted by the server, for a request that it received, under the stored server id |
| EndToEnd.DeliveredIsStored | client/src/ShirohaChat/UseCases/send_message_use_case.cpp:211-225 | with user ids without a colon, what the server stored for it is that message: its session, its sender and its text, accepted for the recipient that the tables named when the user sent it |
| SessionAggregate.Session.ProcessIncomingMessage | shared/domain/session.cpp:28-40 | content, monotone time and counter |
| SessionAggregate.Session.MarkRead | shared/domain/session.cpp:42-45 | clears the counter only |
| SessionAggregate.Session.UpdateMetadata | shared/domain/session.cpp:47-52 | an empty peer keeps the known one |
| SessionAggregate.ProcessedAll | shared/domain/session.cpp:28-40 | after any messages in any order the time is the latest seen, the text the last received, the counter grown by the messages of others |
| SessionList.SessionListModel.Refresh | client/src/ShirohaChat/Core/session_list_model.cpp:59-70 | replaces the list, naming nameless rows after their id |
| SessionList.SessionListModel.UpsertSession | client/src/ShirohaChat/Core/session_list_model.cpp:72-115 | inserts at the front, or updates in place and moves to the front with the count kept or one higher |
| SessionList.SessionListModel.ClearUnread | client/src/ShirohaChat/Core/session_list_model.cpp:117-134 | clears the first row of the session |
| SessionList.SessionListModel.DisplayNameForSession | client/src/ShirohaChat/Core/session_list_model.cpp:136-147 | the name of the first row of the session |
| UnreadAgreement.UpsertRows | client/src/ShirohaChat/Core/session_list_model.cpp:72-115 | an upsert shows the session once, counts it as announced and leaves every other row alone |
| UnreadAgreement.StoredUnread | client/src/ShirohaChat/UseCases/receive_message_use_case.cpp:66-129 | the stored counter grows exactly when an increment is announced, and never for the active session |
| UnreadAgreement.LoadAgrees | client/src/ShirohaChat/UseCases/session_sync_use_case.cpp:120-182 | loading rebuilds the list from the table whatever it was, and changes no counter |
| UnreadAgreement.SwitchKeepsRead | client/src/ShirohaChat/UseCases/switch_session_use_case.cpp:20-62 | switching reads the new session in table and list, also when a failed sync reloads in between |
| UnreadAgreement.SyncUnread | client/src/ShirohaChat/UseCases/session_sync_use_case.cpp:206-262 | synchronizing keeps counters; new sessions start at 0 |
| UnreadAgreement.ActKeepsInv | client/src/ShirohaChat/Controllers/session_list_controller.cpp:58-203 | every event keeps rows distinct, covering the table and equal to its counters, and the active session read |
| UnreadAgreement.ListShowsTheTable | client/src/ShirohaChat/Controllers/session_list_controller.cpp:58-230 | from the first load on, every stored session is shown once with its stored counter and the active one with 0 |
| Receiving.TakenInIff | client/src/ShirohaChat/UseCases/receive_message_use_case.cpp:51-64 | a message is taken in exactly when it could be inserted, has a session, a sender and a text, and is not one's own private message |
| Receiving.ReceiveOutcome | client/src/ShirohaChat/UseCases/receive_message_use_case.cpp:45-134 | then the tables hold the old messages and this one under its session, the sender's id when none is given; that session exists with its name, kind, peer and counter; an unknown group and a nickname are stored; otherwise nothing changes |
| Receiving.StaysUnderHome | client/src/ShirohaChat/UseCases/receive_message_use_case.cpp:66-129 | in every run a message taken in stays stored under its session exactly until that session is deleted or a received group list no longer names its group |
| Receiving.SwitchOutcome | client/src/ShirohaChat/UseCases/switch_session_use_case.cpp:20-62 | the session entered is current, under its kind and name, and read |
| Receiving.DeleteOutcome | client/src/ShirohaChat/UseCases/switch_session_use_case.cpp:83-91 | deleting removes the session, exactly its messages and their pending acks, and leaves it if it is current |
| ShownSessions.LoadOutcome | client/src/ShirohaChat/UseCases/session_sync_use_case.cpp:120-182 | what loading makes of every session and how every row of the list shows it, group names winning over session names |
| ShownSessions.LoadTwice | client/src/ShirohaChat/UseCases/session_sync_use_case.cpp:120-182 | loading again changes nothing in the tables |
| ShownSessions.UpsertOutcome | client/src/ShirohaChat/Core/session_list_model.cpp:72-115 | an upserted session comes first, under its name or its id, with the other rows behind it in their order |
| ShownSessions.ReceivedShown | client/src/ShirohaChat/Controllers/session_list_controller.cpp:190-203 | a received message brings its session to the front under its name, and renames the current session exactly when it is that one |
| ShownSessions.SynchronizeOutcome | client/src/ShirohaChat/Controllers/session_list_controller.cpp:58-110 | after a group list the current session is left exactly when it was a stored group that is not listed any more, and a group that stays goes by its new name |
| ShownSessions.FriendEntered | client/src/ShirohaChat/Controllers/session_list_controller.cpp:140-146 | a new friend's session is entered exactly when no session is current |
| SessionUseCases.ReceiveMessageUseCase.OnIncomingMessage | client/src/ShirohaChat/UseCases/receive_message_use_case.cpp:45-134 | the transaction and the signal change table, list and current session as specified |
| SessionUseCases.ReceiveMessageUseCase.Commit | client/src/ShirohaChat/UseCases/receive_message_use_case.cpp:66-129 | the callback: what is stored, the sender's nickname included, and announced, or nothing |
| SessionUseCases.SwitchSessionUseCase.SwitchToSession | client/src/ShirohaChat/UseCases/switch_session_use_case.cpp:20-62 | the whole switch, with the early return and the nested group sync |
| SessionUseCases.SwitchSessionUseCase.StartPrivateChat | client/src/ShirohaChat/UseCases/switch_session_use_case.cpp:64-81 | saves the session and switches to it |
| SessionUseCases.SwitchSessionUseCase.DeleteSession | client/src/ShirohaChat/UseCases/switch_session_use_case.cpp:83-91 | removes session, messages and pending acks, and leaves the session if it is current |
| SessionUseCases.SwitchSessionUseCase.ClearCurrentSession | client/src/ShirohaChat/UseCases/switch_session_use_case.cpp:93-108 | no session is current afterwards |
| SessionUseCases.SwitchSessionUseCase.UpdateCurrentSessionInfo | client/src/ShirohaChat/UseCases/switch_session_use_case.cpp:114-141 | type and name of the current session only |
| ClientServices.LocalDatabase.UpsertUser | client/src/ShirohaChat/Storage/user_repository.cpp:24-47 | the upsert, keeping a known nickname |
| ClientServices.LocalDatabase.LoadSession | client/src/ShirohaChat/Storage/session_repository.cpp:31-70 | the session of the row, or none |
| ClientServices.LocalDatabase.SaveSession | client/src/ShirohaChat/Storage/session_repository.cpp:72-106 | the upsert, keeping a known peer |
| ClientServices.LocalDatabase.RemoveSession | client/src/ShirohaChat/Storage/session_repository.cpp:108-134 | removes pending acks, messages and session |
| ClientServices.LocalDatabase.SaveGroup | client/src/ShirohaChat/Storage/group_repository.cpp:71-133 | the insert loop saves exactly when no user repeats, and is undone otherwise |
| ClientServices.LocalDatabase.RemoveGroup | client/src/ShirohaChat/Storage/group_repository.cpp:135-152 | removes the group |
| ClientServices.SessionSyncUseCase.ApplyGroupList | client/src/ShirohaChat/UseCases/session_sync_use_case.cpp:206-262 | both loops compute the synchronized store and announce exactly the stale groups |
| ClientServices.SessionSyncUseCase.LoadSessions | client/src/ShirohaChat/UseCases/session_sync_use_case.cpp:120-182 | both loops and the refresh give the loaded store and list |
| ClientServices.SessionSyncUseCase.SyncGroupSessions | client/src/ShirohaChat/UseCases/session_sync_use_case.cpp:184-193 | loads at once exactly when no sync runs and the request cannot be sent |
| ClientServices.SessionSyncUseCase.CompleteInitialSessionLoad | client/src/ShirohaChat/UseCases/session_sync_use_case.cpp:264-271 | loads and clears the recovery flag |
| ClientServices.SessionSyncUseCase.ResolveGroupDisplayName | client/src/ShirohaChat/UseCases/session_sync_use_case.cpp:273-294 | the choice among fallback, stored name and id |
| GroupSync.EntriesPerGroup | client/src/ShirohaChat/UseCases/session_sync_use_case.cpp:210-251 | the entries change each group to its last savable entry and its session's name with it |
| GroupSync.MembersExact | client/src/ShirohaChat/UseCases/session_sync_use_case.cpp:228-236 | the members of a received group are the trimmed non-empty listed users, the creator alone in that role |
| GroupSync.SyncPerGroup | client/src/ShirohaChat/UseCases/session_sync_use_case.cpp:206-262 | what becomes of every group, session and message, for any store and list |
| GroupSync.SyncConverges | client/src/ShirohaChat/UseCases/session_sync_use_case.cpp:206-262 | without repeated members the stored groups are exactly the received ones, each as its last entry and with a session |
| GroupSync.SavedIff | client/src/ShirohaChat/Storage/group_repository.cpp:101-129 | for any list: a listed group arrives as its last entry describes it exactly when that entry names no user twice, or no entry for it can be saved and the store held that group already |
| GroupSync.RepeatedMemberIsNotSaved | client/src/ShirohaChat/Storage/group_repository.cpp:101-129 | a new group whose entry names a user twice gets a session but no group |
| GroupSync.SyncTwice | client/src/ShirohaChat/UseCases/session_sync_use_case.cpp:206-262 | applying the same list again changes nothing |
| SyncedGroups.EntryDescribes | client/src/ShirohaChat/UseCases/session_sync_use_case.cpp:217-240 | the group made of an entry has its name and creator, and as members exactly the listed users, or the creator if none is listed |
| SyncedGroups.ListedGroup | client/src/ShirohaChat/UseCases/session_sync_use_case.cpp:206-251 | a listed group is stored as its last entry describes it if that names nobody twice; its session takes the name and keeps kind, peer and counter |
| SyncedGroups.UnlistedGroup | client/src/ShirohaChat/UseCases/session_sync_use_case.cpp:253-262 | a stored group that is not listed goes with its session and messages; nothing else goes |
| Base64Url.Base64UrlEncode | server/src/auth/jwt_manager.cpp:22-34 | replace and chop loop give the RFC 4648 section 5 encoding without padding |
| Base64Url.Base64UrlDecode | server/src/auth/jwt_manager.cpp:44-61 | restores alphabet and padding and decodes |
| Base64Url.RoundTrip | server/src/auth/jwt_manager.cpp:22-61 | decoding an encoding gives the bytes back, for every byte string |
| Base64Url.FromToBase64 | server/src/auth/jwt_manager.cpp:60 | the bit-buffer decoder undoes the standard encoder |
| Base64Url.ReplacedIsPadded | server/src/auth/jwt_manager.cpp:24-27 | the replaced standard encoding is the URL encoding followed by its padding |
| Base64Url.EncodedLength | server/src/auth/jwt_manager.cpp:22-34 | the length of an encoding, never 1 modulo 4 |
| Base64Url.EncodedAlphabet | server/src/auth/jwt_manager.cpp:22-34 | no dot, plus, slash or equals sign in an encoding |
| Base64Url.EncodedGroup | server/src/auth/jwt_manager.cpp:22-34 | each group of three bytes, read as a number of 24 bits, is written with the characters of the URL alphabet for its four six-bit digits, most significant first |
| JsonWebToken.JwtManager.IssueToken | server/src/auth/jwt_manager.cpp:82-111 | header, payload and signature joined by dots |
| JsonWebToken.JwtManager.VerifyToken | server/src/auth/jwt_manager.cpp:113-173 | all checks in their order |
| JsonWebToken.TokenParts | server/src/auth/jwt_manager.cpp:82-120 | a token splits into exactly its three parts: the header, the claims sub, iat and exp, and the signature of both |
| JsonWebToken.IssuedVerifies | server/src/auth/jwt_manager.cpp:82-173 | a token verifies to its user exactly when the keys sign it alike, the user is not empty and now is at most iat + ttl + 60 |
| JsonWebToken.RefusalReason | server/src/auth/jwt_manager.cpp:152-168 | which refusal a token of one's own gets |
| JsonWebToken.AcceptedIff | server/src/auth/jwt_manager.cpp:113-173 | whoever made it: a token of three parts is accepted for a user exactly when its last part signs the first two and its payload claims that user and a time at most 60 seconds back |
| JsonWebToken.WrongForm | server/src/auth/jwt_manager.cpp:115-120 | a token without exactly two dots is refused for its form |
| JsonWebToken.OneSignature | server/src/auth/jwt_manager.cpp:126-133 | of two tokens with the same signed text only one last part can be accepted |

## Left out

- SQL failures, closed databases and rollbacks for other reasons than a primary key; schema migration; WAL.
- WebSocket, Qt event loop and timer mechanics: a hand-off is a call of `sendPacket`, a timer fires at most once.
- JSON text, UTF-8 and UTF-16 encoding of strings: a queued record is the result of parsing it, a string is a sequence of
  Unicode characters; text order compares code points, where Qt compares UTF-16 units.
- The integer widths of counters, ids and clocks, and times beyond the exact range of a double in a token.
- The handlers that only check packet fields and build acks, the friend management service, group list requests
  (`m_pendingGroupListRequests`), heartbeat, reconnect backoff and mock mode.
- SessionList.SessionListModel.UpsertSession: without the preview text, the time string and the avatar, which are no part of the model's rows.
- ClientServices.LocalDatabase.LoadSession: without the last message's content and time, which are read along and never written back.
- Receiving.ReceiveOutcome: without the text, time and server id of the stored message; the tables hold its session.
- Contacts, group creation times on the client, and nicknames stored by other use cases than receiving.
- The blocking start-up and shut-down calls between the threads: they are one of the schedules of the channels.
- Whether the user id a session resolves and the id of the receiving use case agree: both are `self` here, as after a login.
- Outbox.SendingIsWatched: for runs without session deletion, which removes messages and pending rows but not their timers.
- Ties in the order of rows keep table order; the theorems about queries hold for that tie-break.
- Outbox.ClientInvAct: a sent message is appended as the newest by timestamp; received ones are inserted anywhere.
- Idempotency.RepeatsOnlyLate: for keys never inserted over their cached answer; `DoubledKeys.DoubledIff` says exactly which those are, and `DoubledKeys.MixedTypesAcceptTwice` shows why.
- Idempotency.RepeatReplays: same condition.
- Idempotency.RunsPruneOldest: same condition, for the keys in the order list.
- EndToEnd.DeliveredIsStored: for user ids without a colon; with one, `IdempotencyWindow.CollidingSenders` shows the key of another sender's request.
- IdempotencyWindow.PruneDropsOldest: for a duplicate-free order list equal to the cache's keys, oldest first; the bound `IdempotencyWindow.PruneBounds` needs none of it.
