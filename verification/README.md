# Verified model of the OpenIM server's message and group core

This project models five stateful parts of the OpenIM server in Dafny and proves what they keep over
whole runs.

* **The message pipeline** (`internal/msgtransfer/online_history_msg_handler.go`, `pkg/msgprocessor`).
  Records received from Kafka are buffered per partition claim, cut into chunks of 1000 by a ticker,
  grouped by key and sent to one of a hundred workers. A worker classifies the messages of one key,
  gives them sequence numbers, stores them and pushes them.
  `ClaimBuffer`, `Distributor`, `Classifier`, `SeqStore`, `Worker` and `WorkerRun` hold the code in its
  imperative form. `Pipeline` is the protocol: receivers, tickers, distributor and workers take single steps
  in any interleaving. `PipelineTheorems`, `ClassifierTheorems` and `WorkerTheorems` say what runs keep,
  `Deliveries` which records reach a worker, position by position, and `PipelineWorker` joins the protocol
  with the worker: arrival order is number order.
* **The gateway's connection registry** (`internal/msggateway`). `UserMap` is the index from users to
  connections as an object and as a collection. `Gateway` is the protocol: a registration is three steps,
  with closes and kicks of other threads in between. `GatewayTheorems` has the multi-login policy and the
  two counters over every run, `GatewaySteps` what each step does to the index. `WsServer` is the server object; each handler is proved to carry out a run
  of the protocol.
* **Groups and roles** (`internal/rpc/group/group.go`). `Groups` says which of twelve calls are accepted
  and what they do. `GroupServer` has the handlers with their loops, early returns and length comparisons,
  each proved to answer and to leave the store as `Groups` says. `GroupTheorems` follows ownership through
  runs, `GroupMembership` who enters, who leaves and by whose hand. `GroupEffects` says what accepted calls change,
  `GroupPowers` who is granted and refused what. `GroupRaces` splits every call into its check and its write and
  lets calls overlap; `GroupCommits` says what late writes change.
* **Read watermarks** (`internal/rpc/msg`). `SeqStore` has the requests on the stored numbers, `Requests`
  what each changes, `Watermarks` what runs of them keep, `WatermarkRaces` what is left of it when requests overlap.
* **The online/offline push split** (`internal/push`, `internal/msggateway/hub_server.go`): `Push`.

`Conversation` and `Messages` hold conversation identifiers and option flags; `Batches`, `Positions` and
`Wrappers` hold shared values.

## What turned out not to hold

Some promises hold only under a condition. In each case the code is modelled as it is, a lemma or method gives
an input that breaks the promise, and another says exactly when it holds.

* The ticker reads the buffer's length and the running flag separately. A record that arrives between the
  two reads of the last look stays in the buffer (`LastLookRace`); nothing stays behind exactly when no
  non-empty record arrives after the last look (`ExitedClaim`), and schedules that let none arrive between
  the reads of any look lose nothing (`QuietRunLosesNothing`).
* `NewMsgOptions` fills one map and returns another, which is empty, and a missing flag counts as set. So the
  clone of a notification is always pushed and counted as unread, even when the notification asked for neither
  (`SilentNotificationGetsLoudClone`, `CloneInheritsPushIff`).
* A stored list longer than 100 is refused by the cache and goes nowhere (`OneTooMany`; `LongListNeverGoesOn`,
  `PushedIffSmall`).
* A failed write of a message to the cache is logged and forgotten: the message is pushed all the same
  (`PushedUncached`; `PushedIsCachedIff`).
* One key does not determine one conversation (`KeyDoesNotDetermineConversation`): a batch may be stored under
  an identifier it is not delivered under (`MixedBatchStoredElsewhere`); when it is not is
  `StoredAsDeliveredIff`. Two pairs of users whose identifiers hold underscores may share a conversation
  (`PairsCollide`); a pair without underscores shares it with no other (`PairsApart`).
* A failed write of a new maximum goes unreported, and numbers are given out again (`NumberGivenTwice`;
  `NumbersConsecutiveIff`). `MarkConversationAsRead` does not compare with the maximum (`ReadPastTheEnd`;
  `BoundKeptIff`).
* Overlapping requests can take a watermark back (`OverlapGoesBack`), and so can an insert whose own write of
  the sender's watermark comes late (`ArrivalGoesBack`). A late write takes it back exactly when the last write
  in between was another's and above what had been decided, or the request lowers it outright (`GoesBackIff`).
  When nothing else writes a watermark while a write of it is pending, it never goes back (`AloneNeverGoesBack`).
* A kick from outside a registration that removes a user's last connection leaves the user counter too high
  for good (`DriftHappens`; `DriftIsPermanent`, `UserCounter`).
* A transfer by an app manager that names the wrong old owner leaves two owners (`ManagerTransferExample`;
  `OneOwnerKeptIff`). So do two overlapping transfers by the owner itself (`TwoTransfersAtOnce`;
  `OneOwnerByCommitIff`, `NeverTwoOwnersRacing`).
* An owner is to stop being one only by its own act. A quit that was checked before its caller became owner
  unseats it afterwards (`LateQuitUnseats`); an owner against whom nothing was decided beforehand stays
  (`OwnerStaysRacing`), and which writes unseat one is `OwnerLostByCommitIff`.
* Muting or cancelling a mute overwrites a dismissal (`DismissalUndone`; `DismissedStaysIff`).
* Offline pushes are repeated for every gateway that answers (`PushedTwice`; `OncePerAnswer`).

## Assumptions

* A key arrives on one partition claim, because the producer partitions by key
  (`pkg/common/kafka/producer.go:65`).
* Each `UserMap` method and each `close` is atomic; a connection's registration is handled before its
  unregistration; the gateway's channels never fill up. That no user meets a remote address twice is assumed
  only where a theorem says `DistinctAddrs`.
* In `Groups`, `GroupTheorems` and `GroupMembership` every call is one step, and in `SeqStore` and
  `Watermarks` every request and insert is. The code checks first and writes later without checking again.
  `GroupRaces` and `WatermarkRaces` drop the assumption. There, a call on groups is a check and one database
  transaction. A request on watermarks is its reads, marks and smallest numbers in one step, an insert is its
  reading, numbering, cached messages and maximum in one step, and then each watermark is a write of its own;
  others may come in between, and any write may be missing.
* Inserts into one conversation do not overlap: one worker handles the key of a single or a super-group chat.
  Ordinary groups have the empty key, so a super-group's notification conversation, were an ordinary group to
  have its identifier, would be shared between two workers.
* The group service reads groups and members through a cache (`pkg/common/db/controller/group.go:208-262`);
  what it reads is taken as current.
* Webhooks are off and calls of other services succeed. Inserting a member that exists fails as a whole.
* Which accesses to the message and number stores fail is a parameter of every operation on them. Of the
  group store, a read that fails refuses the call; a write that fails is a write that is never made in
  `GroupRaces`.
* Hashing and decoding are arbitrary functions.

## Model

| member | source | states |
|---|---|---|
| Conversation.JoinSplit | pkg/msgprocessor/conversation.go:119-127 | splitting an identifier at underscores loses nothing, whatever it holds |
| Conversation.SplitAfterPrefix | pkg/msgprocessor/conversation.go:119-127 | a prefix without underscores comes back as exactly the first part |
| Conversation.RewriteReplacesPrefix | pkg/msgprocessor/conversation.go:119-127 | the rewrite replaces what stands before the first underscore by `n` and keeps the rest, underscores included |
| Conversation.RewriteUndoesPrefix | pkg/msgprocessor/conversation.go:27-58 | for every message of a known session type, rewriting its chat identifier gives its notification identifier |
| Conversation.RewriteIdempotent | pkg/msgprocessor/conversation.go:119-145 | rewriting twice is rewriting once; the result is a notification identifier exactly when there was an underscore |
| Conversation.StringLeqExact | pkg/msgprocessor/conversation.go:27-58 | strings are ordered by the first character in which they differ, or else by one being the beginning of the other |
| Conversation.SortedPairSymmetric | pkg/msgprocessor/conversation.go:27-58 | the sorted pair of two users does not depend on their order |
| Conversation.SingleChatSymmetric | pkg/msgprocessor/conversation.go:27-70 | both identifiers and the key of a single chat are the same from either side |
| Conversation.IdentifierExamples | pkg/msgprocessor/conversation.go:27-70 | both identifiers and the key of one message of each session type, with "10" sorted before "9" |
| Conversation.NotificationKeySymmetric | pkg/msgprocessor/conversation.go:60-70 | the key of a server notification is that of a single chat of the two, from either side, while its chat identifier keeps the direction |
| Conversation.PairsApart | pkg/msgprocessor/conversation.go:27-58 | two users without underscores in their identifiers share their sorted pair with no other pair |
| Conversation.PairsCollide | pkg/msgprocessor/conversation.go:27-58 | two pairs of users with underscores in their identifiers that share it |
| Conversation.ChatIDsAgree | pkg/msgprocessor/conversation.go:43-70 | two messages share their chat identifier if and only if they have one session type and one direction, or both an unknown type; one key is enough in single and super-group chats |
| Conversation.NotificationIDsAgree | pkg/msgprocessor/conversation.go:27-70 | two messages share their notification identifier if and only if their directions agree, whatever the session types; one key is enough among single and super-group chats |
| Conversation.GatewayIDIsOneOfTwo | pkg/msgprocessor/conversation.go:72-99 | the identifier recomputed on delivery is the chat or the notification identifier, chosen by the flag |
| Conversation.KeyDoesNotDetermineConversation | pkg/msgprocessor/conversation.go:60-70 | two messages share a key and not their chat conversation |
| Messages.With | pkg/msgprocessor/options.go:50-85 | setting a flag makes it read as set to, and leaves every other flag as it read, missing ones included |
| Messages.UnsetIff | pkg/msgprocessor/options.go:50-85 | a flag reads as unset only where a map holds it as false |
| Messages.MsgData.SetFlag | pkg/msgprocessor/options.go:50-85 | the flag changes in place and nothing else of the message does |
| Classifier.CloneNotification | internal/msgtransfer/online_history_msg_handler.go:194-225 | the clone is a new message with the flags moved to it; the original loses them in place |
| Classifier.Place | internal/msgtransfer/online_history_msg_handler.go:194-238 | what one message adds to the five lists, and that no message is added to two of the four that are stored or pushed |
| Classifier.GetPushStorageMsgList | internal/msgtransfer/online_history_msg_handler.go:180-238 | for a batch of distinct messages, the five lists denote the specified ones in order, the batch is edited as specified, lists have no repeats and are disjoint |
| ClassifierTheorems.ClassifierConserves | internal/msgtransfer/online_history_msg_handler.go:180-238 | the four lists together are, as a multiset, every input once and one clone for every notification that is also a message |
| ClassifierTheorems.CollectKeepsOrder | internal/msgtransfer/online_history_msg_handler.go:180-238 | every list's elements come from strictly increasing input positions, and from every position whose message belongs there |
| ClassifierTheorems.ListsByFlags | internal/msgtransfer/online_history_msg_handler.go:180-238 | by the flags alone, without the classifier's own functions: each list holds, in input order, exactly the messages whose flags send them there, unchanged but for the flags of cloned notifications |
| ClassifierTheorems.HistoryDecides | internal/msgtransfer/online_history_msg_handler.go:183-193 | every message of the two stored lists has the history flag and none of the two others has, and the chat lists hold exactly what is no notification |
| ClassifierTheorems.FlagsMoveToClone | internal/msgtransfer/online_history_msg_handler.go:194-225 | afterwards the clone and not the notification is pushed offline and counted as unread; no other flag of the notification moved |
| ClassifierTheorems.CloneInheritsPushIff | pkg/msgprocessor/options.go:44-48 | the clone has the notification's wish for offline push or unread count if and only if that wish was yes |
| ClassifierTheorems.SilentNotificationGetsLoudClone | pkg/msgprocessor/options.go:44-48 | a notification that asks for neither push nor count has a clone that gets both |
| ClassifierTheorems.OutputShape | internal/msgtransfer/online_history_msg_handler.go:180-238 | an output keeps its message's parties, and is delivered under the identifier its list would be stored under for it |
| ClassifierTheorems.StoredAsDeliveredIff | internal/msgtransfer/online_history_msg_handler.go:145-171 | a batch is stored under the identifiers it is delivered under if and only if every message is consistent in type and direction with the first |
| ClassifierTheorems.UniformBatchStoredAsDelivered | internal/msggateway/client.go:275-283 | a batch of one key, all of single or all of super-group chat, clones included, is delivered under the identifiers it is stored under |
| ClassifierTheorems.MixedBatchStoredElsewhere | internal/msgtransfer/online_history_msg_handler.go:145-171 | a batch of one key that is not stored under the identifiers it is delivered under |
| ClaimBuffer.ChunksConcat | internal/msgtransfer/online_history_msg_handler.go:475-487 | cutting after whole chunks cuts the two parts separately |
| ClaimBuffer.ChunksProperties | internal/msgtransfer/online_history_msg_handler.go:475-487 | the chunks concatenate to the buffer, each has 1 to 1000 records, all but the last 1000, and their number is the ceiling of the length over 1000 |
| ClaimBuffer.Cut | internal/msgtransfer/online_history_msg_handler.go:475-487 | the index loop emits slices that show exactly the chunks |
| ClaimBuffer.MessageBuffer.Receive | internal/msgtransfer/online_history_msg_handler.go:500-522 | a non-empty record is appended, in place or into a larger array; an empty one is skipped |
| ClaimBuffer.MessageBuffer.Tick | internal/msgtransfer/online_history_msg_handler.go:467-487 | the buffer is copied whole, emptied keeping its array, and the slices of the copy show its chunks |
| ClaimBuffer.MessageBuffer.SendWhileReceiving | internal/msgtransfer/online_history_msg_handler.go:467-522 | records appended into the reused array afterwards do not change what was emitted |
| Batches.OfKeyConcat | internal/msgtransfer/online_history_msg_handler.go:331-381 | the messages of a key in two batches one after another are those of the first, then those of the second |
| Distributor.GroupsArePermutation | internal/msgtransfer/online_history_msg_handler.go:331-381 | the groups of a batch together are a permutation of its decodable messages |
| Distributor.GroupSumRemove | internal/msgtransfer/online_history_msg_handler.go:383-400 | what the groups hold together does not depend on the order the map is iterated in |
| Distributor.Aggregate | internal/msgtransfer/online_history_msg_handler.go:331-381 | the grouping loop yields one group per key with a decodable message, the order-preserving filter of the batch |
| Distributor.DistributionCentre.Distribute | internal/msgtransfer/online_history_msg_handler.go:329-404 | in whatever order the map is iterated, a key's own worker gets one command with the key's messages in order and no other worker gets any |
| Deliveries.OfKeyHolds | internal/msgtransfer/online_history_msg_handler.go:331-381 | a group consists of exactly the decodable records of its key, each once, in order, each with its decoded message and its own headers |
| Deliveries.DecodedAllHolds | internal/msgtransfer/online_history_msg_handler.go:331-381 | the decodable messages of a batch are its decodable records, each once, in order |
| Deliveries.CmdsOfKeyHolds | internal/msgtransfer/online_history_msg_handler.go:383-400 | the commands of a key in a queue are exactly those that carry it, each once, in order |
| Deliveries.PayloadIsLists | internal/msgtransfer/online_history_msg_handler.go:383-400 | what a queue holds of a key are the lists of its commands one after another |
| Deliveries.SameWorkerIff | internal/msgtransfer/online_history_msg_handler.go:383-400 | two keys share a worker if and only if their hashes agree modulo 100 |
| Pipeline.ReceiveKeepsClaim | internal/msgtransfer/online_history_msg_handler.go:500-522 | receiving keeps handed-over, in-flight and buffered records together equal to the non-empty records received |
| Pipeline.TickKeepsClaim | internal/msgtransfer/online_history_msg_handler.go:455-487 | so does a tick, which also records what had arrived when it found nothing |
| Pipeline.SendChunkKeepsKey | internal/msgtransfer/online_history_msg_handler.go:329-381 | handing over a chunk moves each key's messages to its group and nowhere else |
| Pipeline.SendGroupKeepsKey | internal/msgtransfer/online_history_msg_handler.go:383-400 | sending any one group keeps every key's messages in order |
| Pipeline.TakeKeepsKey | internal/msgtransfer/online_history_msg_handler.go:128-144 | a worker taking a command keeps every key's messages in order |
| Pipeline.StepKeepsInv | internal/msgtransfer/online_history_msg_handler.go:329-527 | every step of every thread keeps the pipeline's invariant |
| Pipeline.ReachableInv | internal/msgtransfer/online_history_msg_handler.go:329-527 | the invariant holds in every reachable state, for any number of claims and any interleaving |
| PipelineTheorems.KeyOrder | internal/msgtransfer/online_history_msg_handler.go:329-527 | in every reachable state and for every key, taken, queued, grouped, in-flight and buffered messages are in this order exactly the non-empty decodable ones received |
| Deliveries.ReceivedHolds | internal/msgtransfer/online_history_msg_handler.go:331-522 | the messages that count for a key are the non-empty decodable records of the key received, each once, in order |
| Deliveries.ReceivedIsHistory | internal/msgtransfer/online_history_msg_handler.go:500-522 | what a claim has received is, over any run, what was given to it in that order |
| PipelineTheorems.WorkerSeesPrefix | internal/msgtransfer/online_history_msg_handler.go:329-400 | the worker of a key has handled a prefix of the key's messages in arrival order, and no other worker any of them |
| Deliveries.WorkerHolds | internal/msgtransfer/online_history_msg_handler.go:329-527 | in every reachable state, the messages a key's worker took are decoded records of the key as received, each once, in order and without a gap |
| PipelineTheorems.ExitedClaim | internal/msgtransfer/online_history_msg_handler.go:452-526 | once the ticker returned, exactly what was received before its last look was handed over; residue is absent if and only if nothing non-empty arrived later |
| PipelineTheorems.FinishedDelivers | internal/msgtransfer/online_history_msg_handler.go:425-527 | when all is finished, the key's worker has taken exactly the key's messages received before the last look |
| Deliveries.FinishedHolds | internal/msgtransfer/online_history_msg_handler.go:425-527 | when all is finished they are exactly the non-empty decodable records of the key received before the last look |
| PipelineTheorems.LastLookRace | internal/msgtransfer/online_history_msg_handler.go:459-465 | a finished run that received a message and handed over none |
| PipelineTheorems.QuietRunLosesNothing | internal/msgtransfer/online_history_msg_handler.go:455-522 | in every run in which no non-empty record arrives within a look at an empty buffer, an exited claim handed over all it received and holds nothing |
| PipelineTheorems.JoinedLooksLoseNothing | internal/msgtransfer/online_history_msg_handler.go:459-465 | the same holds in every run in which the two reads of a look stand next to each other |
| PipelineTheorems.ClosedStepWorks | internal/msgtransfer/online_history_msg_handler.go:455-493 | once the claims are closed, every step brings the end nearer by a measure |
| PipelineTheorems.ClosedProgress | internal/msgtransfer/online_history_msg_handler.go:89-96 | bounded queues and the unbuffered channel never block for good: while unfinished, some step is possible |
| PipelineTheorems.DrainTerminates | internal/msgtransfer/online_history_msg_handler.go:425-527 | after closing, every run ends within the measure, and one that cannot go on has finished |
| PipelineWorker.CommandsNeverEmpty | internal/msgtransfer/online_history_msg_handler.go:331-400 | in every reachable state no group and no command is empty |
| PipelineWorker.KeyGivesConversation | pkg/msgprocessor/conversation.go:43-70 | among single and super-group chats that do not share a key, the chat conversation and the key determine each other, and no notification conversation is a chat conversation |
| PipelineWorker.StoredInArrivalOrder | internal/msgtransfer/online_history_msg_handler.go:128-527 | in every reachable state a worker has handled, of each key, a prefix of its records; the chat messages numbered in the key's conversation are the stored ones of these in arrival order, less those of whole commands refused a number (all, if no list is refused); they carry the numbers after the conversation's maximum in that order if and only if every maximum that another insert follows was written |
| SeqStore.Number | pkg/common/db/controller/msg.go:382-423 | the loop gives consecutive numbers in place and records each sender's last one |
| SeqStore.LastSeqsKeys | pkg/common/db/controller/msg.go:382-423 | exactly the senders get a last number, within the batch's range |
| SeqStore.MsgStore.BatchInsertChat2Cache | pkg/common/db/controller/msg.go:382-423 | reply, stored numbers, cached messages and message numbers for every size and every failing access, failed message writes included |
| Requests.ReplyTells | pkg/common/db/controller/msg.go:382-423 | when an insert reports success, which numbers follow the one it reports, and when it calls a conversation new |
| SeqStore.MsgStore.SetConversationHasReadSeq | internal/rpc/msg/as_read.go:71-90 | the watermark is written unless beyond the maximum or the write fails, lower values too |
| SeqStore.MsgStore.MarkMsgsAsRead | internal/rpc/msg/as_read.go:92-141 | when it is refused or fails, what it has marked by then, marking that fails part-way included, and that the watermark moves only up |
| SeqStore.MsgStore.MarkConversationAsRead | internal/rpc/msg/as_read.go:143-214 | new state, receipt list and success for every kind of conversation and every failing access, marking that fails part-way included |
| SeqStore.MsgStore.GetMinSeqs | internal/rpc/msg/delete.go:29-35 | every conversation's smallest visible number is its maximum plus one |
| SeqStore.MsgStore.ClearConversation | internal/rpc/msg/delete.go:144-196 | new state after clearing for oneself or for all, for any part of the two writes failing |
| Watermarks.OneStep | internal/rpc/msg/as_read.go:71-214 | after one request a watermark exceeds the maximum, or goes back, if and only if a stated condition on the request held; the maximum never falls |
| Watermarks.BoundKeptIff | internal/rpc/msg/as_read.go:143-214 | a request keeps all watermarks within the maxima if and only if it overshoots for nobody |
| Watermarks.RunWatermarks | internal/rpc/msg/as_read.go:92-214 | over runs of requests one after another, failing ones included, without an overshoot unread is never negative, and a watermark not lowered explicitly never goes back |
| Watermarks.ReadPastTheEnd | internal/rpc/msg/as_read.go:143-214 | a request after which unread is negative |
| Watermarks.ClearSelf | internal/rpc/msg/delete.go:144-196 | after a self-only clear whose writes succeed, unread is zero and the smallest visible number is the watermark plus one; empty conversations, other users and other conversations are untouched |
| Watermarks.ClearHidesBeforeReading | internal/rpc/msg/delete.go:144-196 | whatever writes of a self-only clear fail, a watermark it moved stands at the maximum and the smallest visible number right after it |
| Watermarks.ClearAll | internal/rpc/msg/delete.go:144-196 | after a clear for all the shared smallest numbers move, as far as their writes succeed, and only the caller's watermark does |
| Watermarks.ReadListExact | internal/rpc/msg/as_read.go:155-181 | a receipt's list has no repeats, starts with the new range in order and holds exactly it and the requested numbers |
| Requests.ReceiptExact | internal/rpc/msg/as_read.go:155-181 | a receipt lists exactly the numbers newly passed and those requested, in single chats only |
| Watermarks.PassedIsMarked | internal/rpc/msg/as_read.go:151-181 | in a single chat, over any run that leaves the watermark to these calls, every number it passed is marked read |
| Watermarks.MarksStay | internal/rpc/msg/as_read.go:92-214 | no run takes a mark back |
| Requests.MarksAfter | internal/rpc/msg/as_read.go:92-214 | after any request exactly those marks are there that were and, unless it is refused or fails before, those of the numbers named or newly passed, as far as marking gets |
| Requests.InsertWatermark | pkg/common/db/controller/msg.go:401-421 | an insert puts the watermark of everyone who sent in it, and whose write succeeds, at the number of the last message sent, and moves no other |
| Requests.MarkingWatermark | internal/rpc/msg/as_read.go:71-214 | the exact watermark after each of the three requests, for every kind of conversation and every failing access |
| Requests.ClearWatermark | internal/rpc/msg/delete.go:144-196 | the exact watermark after a clear, for any part of its writes failing |
| Requests.NumbersAfter | pkg/common/db/controller/msg.go:382-423 | only an insert moves a maximum, by as many as it numbers, and only a clear moves smallest numbers, to the one after the maximum |
| Watermarks.NumbersConsecutiveIff | pkg/common/db/controller/msg.go:382-423 | over a run a conversation's numbers go on without gap or repetition if and only if every insert that another follows wrote its maximum |
| Watermarks.NumberGivenTwice | pkg/common/db/controller/msg.go:408-416 | two inserts, the first of whose maximum is not written, give out one number twice |
| WatermarkRaces.SplitIsWhole | internal/rpc/msg/as_read.go:71-214 | a request or insert whose writes follow its decision undisturbed, in whatever order, does what the whole does |
| WatermarkRaces.RacingKeepsBound | internal/rpc/msg/as_read.go:92-214 | however requests, inserts and their single watermark writes overlap and fail, unread is never negative as long as nothing overshoots when it begins |
| WatermarkRaces.GoesBackIff | internal/rpc/msg/as_read.go:115-124 | over any run between a request's decision and its write of a watermark, that write leaves it lower than it was if and only if the last write of it in between was another's and above what was decided, or there was none and the request lowers it outright |
| WatermarkRaces.AloneNeverGoesBack | internal/rpc/msg/as_read.go:71-214 | over every run in which nothing overshoots or lowers a watermark outright and nothing else that writes it begins while a write of it is pending, it never goes back |
| WatermarkRaces.OverlapGoesBack | internal/rpc/msg/as_read.go:115-124 | two overlapping requests after which a watermark is back from 5 to 2 |
| WatermarkRaces.ArrivalGoesBack | pkg/common/db/controller/msg.go:411-421 | an insert whose late write of its sender's watermark takes it back to 6, after the sender had marked the conversation read up to 7 |
| Worker.Worker.ToPushTopic | internal/msgtransfer/online_history_msg_handler.go:269-278 | the messages are pushed one by one in order |
| Worker.Worker.HandleMsg | internal/msgtransfer/online_history_msg_handler.go:280-327 | the log of effects, the creation of a new conversation included, the numbers and the cache, for every failure of the insert; stored messages change only in their number |
| Worker.CreatesIff | internal/msgtransfer/online_history_msg_handler.go:280-327 | a new conversation is created for every known session type but ordinary groups |
| Worker.Worker.HandleNotification | internal/msgtransfer/online_history_msg_handler.go:240-267 | the same for notifications, for which every failed insert stops and no conversation is created |
| Worker.Worker.Process | internal/msgtransfer/online_history_msg_handler.go:128-177 | the effects of one command, its lists as classified, stored under identifiers taken from the first message, every conversation's messages carrying the numbers its inserts give out |
| WorkerTheorems.PushedExactly | internal/msgtransfer/online_history_msg_handler.go:240-327 | over a run each list is pushed in order, whole or not at all, and stored lists exactly when accepted |
| WorkerTheorems.HandleFits | internal/msgtransfer/online_history_msg_handler.go:240-327 | every entry of the log is under its own key and conversation, and there are as many as there should be |
| WorkerTheorems.EntriesOfBatch | internal/msgtransfer/online_history_msg_handler.go:128-177 | chat messages are logged under the chat conversation, notifications under the notification conversation, and modifications once and last |
| WorkerTheorems.StoredBeforePushed | internal/msgtransfer/online_history_msg_handler.go:240-327 | over a run a message of a stored list is pushed only behind its accepted insert and its attempted hand-over to Mongo, under one conversation |
| WorkerTheorems.NotStoredNeverInserted | internal/msgtransfer/online_history_msg_handler.go:240-327 | whatever is inserted or handed over came from a stored list |
| WorkerTheorems.PushedIffSmall | pkg/common/db/table/unrelation/msg.go:28 | once numbering does not fail and every watermark is written, a stored message, chat or notification, is pushed if and only if its list has at most 100 messages |
| WorkerTheorems.PushedIff | internal/msgtransfer/online_history_msg_handler.go:240-327 | a stored message is pushed if and only if the maximum can be read, its list has at most 100 messages and all senders' watermarks are written, or, for chat messages, the error of a failed one is redis.Nil |
| WorkerTheorems.LongListNeverGoesOn | pkg/common/db/controller/msg.go:382-423 | messages of a longer list, chat or notification, are neither pushed nor handed over, whatever fails |
| WorkerTheorems.PushedIsCachedIff | pkg/common/db/controller/msg.go:405-416 | a stored message that is pushed is in the cache if and only if its own write succeeded |
| WorkerRun.Run | internal/msgtransfer/online_history_msg_handler.go:128-177 | handling any sequence of commands of separate messages yields the log of the run; no message is both stored and not stored, every push of a stored message is backed, and every conversation's messages carry the numbers the run gives out |
| WorkerRun.HistoryOfRun | internal/msgtransfer/online_history_msg_handler.go:183-193 | over a run every message of a stored list has the history flag and none of the others has |
| WorkerRun.OneTooMany | internal/msgtransfer/online_history_msg_handler.go:280-327 | a worker given 101 chat messages to keep and a store in which no access fails pushes none and hands none over |
| WorkerRun.PushedUncached | pkg/common/db/controller/msg.go:405-416 | a worker given one chat message whose write to the cache alone fails pushes it, and it is not in the cache |
| UserMap.OnPlatformExact | internal/msggateway/user_map.go:41-56 | the platform filter holds exactly the connections of that platform |
| UserMap.WithoutExact | internal/msggateway/user_map.go:73-116 | deleting by address leaves exactly the connections with other addresses, without repeats if there were none |
| UserMap.IndexIsCollection | internal/msggateway/user_map.go:33-116 | adding adds one connection, removing removes exactly the addresses named of one user, lists are never empty and hold only their own user |
| UserMap.UserMap.Get | internal/msggateway/user_map.go:41-56 | the loop returns the platform filter, and the two flags |
| UserMap.UserMap.GetAll | internal/msggateway/user_map.go:33-39 | all connections of the user, and whether the user is known |
| UserMap.UserMap.Set | internal/msggateway/user_map.go:58-71 | the index has one connection more |
| UserMap.UserMap.Delete | internal/msggateway/user_map.go:73-92 | the address is gone; true exactly when the user vanished |
| UserMap.UserMap.DeleteClients | internal/msggateway/user_map.go:94-116 | all addresses of the list are gone; true exactly when the user vanished |
| Gateway.RegisterCheckKeepsPolicy | internal/msggateway/n_ws_server.go:333-358 | kicking the connections found earlier leaves none on the platform, although others were removed meanwhile |
| Gateway.RegisterSetKeepsPolicy | internal/msggateway/n_ws_server.go:263-288 | adding the new connection keeps at most one per user and kicking platform |
| Gateway.RemovedByAddress | internal/msggateway/user_map.go:94-116 | with distinct addresses, removing by address removes exactly the connections meant |
| Gateway.KickedOutCounts | internal/msggateway/n_ws_server.go:328-358 | what a kick does to the number of users the counter accounts for |
| Gateway.StepKeepsInv | internal/msggateway/n_ws_server.go:172-419 | every step of loop, closers and kickers keeps the invariant |
| Gateway.ReachableInv | internal/msggateway/n_ws_server.go:172-419 | the invariant holds in every reachable state |
| GatewayTheorems.OnePerPlatformIff | internal/msggateway/n_ws_server.go:333-351 | every reachable state has at most one connection per user on a platform if and only if the policy kicks on it |
| GatewayTheorems.OnePerPlatformByPolicy | internal/msggateway/n_ws_server.go:333-351 | policy by policy: never two connections of a user on a platform where same-terminal logins kick, nor outside PCs where those are spared; on PCs then, and under all other policies, two may meet |
| GatewayTheorems.NewLoginStays | internal/msggateway/n_ws_server.go:263-288 | finishing a registration leaves, on its platform, the new connection alone if the policy kicks, and behind the old ones if not; other platforms and users keep theirs |
| GatewaySteps.IndexAfter | internal/msggateway/n_ws_server.go:263-419 | if no user met one address twice, exactly what every step takes out of and puts into the index, in every reachable state |
| GatewaySteps.CheckTakesOut | internal/msggateway/n_ws_server.go:333-358 | a registration's check, whatever came between, takes out exactly the user's connections on the platform of the login, if the policy ousts them |
| GatewaySteps.RegistrationExact | internal/msggateway/n_ws_server.go:263-288 | after a registration with nothing in between the new connection is in, the user's old ones on its platform are out if the policy ousts them, and all others are as they were |
| GatewaySteps.RemoteLoginNames | internal/msggateway/hub_server.go:206-226 | a queued kick names exactly the connections the user has on that platform when it is queued |
| GatewaySteps.SetsAfter | internal/msggateway/n_ws_server.go:263-419 | which connections each step makes accepted, registered, unregistered or closed |
| GatewaySteps.KickedAfter | internal/msggateway/n_ws_server.go:328-358 | which connections each step kicks, in every reachable state |
| GatewayTheorems.RegistryOfReachable | internal/msggateway/n_ws_server.go:263-419 | the index lists only registered, not unregistered connections, and, if no user met one address twice, all that are neither closed nor kicked; the connection counter is the number of registered, not unregistered ones |
| GatewayTheorems.SettledListsOpen | internal/msggateway/n_ws_server.go:263-419 | once settled, if no user met one address twice, the index holds exactly the open registered connections and the counter is their number |
| GatewayTheorems.UserCounter | internal/msggateway/n_ws_server.go:263-288 | the user counter is never below the number of users, and between events exceeds it by the number of kicks from outside a registration that removed the last connection of a user not just being registered |
| GatewayTheorems.DriftOnlyGrows | internal/msggateway/n_ws_server.go:328-358 | the excess never shrinks, and stays when no outside kick happens |
| GatewayTheorems.CounterExactWithoutOutsideKicks | internal/msggateway/n_ws_server.go:263-288 | runs of registrations, closes and unregistrations keep the counter exact between events |
| GatewayTheorems.DriftIsPermanent | internal/msggateway/n_ws_server.go:407-419 | once too high between events, the counter is too high in every later state |
| GatewayTheorems.DriftHappens | internal/msggateway/n_ws_server.go:328-331 | a settled reachable state without users whose counter says one |
| WsServer.Server.Close | internal/msggateway/client.go:240-251 | the first close posts the connection to be unregistered, later ones do nothing |
| WsServer.Server.KickOtherTokens | internal/msggateway/n_ws_server.go:359-403 | when both store accesses succeed, token by token: none comes or goes, the own one stays and every other one is marked kicked; other users' and platforms' tokens stay |
| WsServer.Server.MultiTerminalLoginChecker | internal/msggateway/n_ws_server.go:333-405 | for every policy: what leaves the index, what is closed, which tokens change |
| WsServer.Server.RegisterClient | internal/msggateway/n_ws_server.go:263-288 | the handler carries out a registration's run of the protocol; who is in the index afterwards (if no user met one address twice), who is closed and which tokens are kicked, told by user, platform and policy |
| WsServer.Server.UnregisterClient | internal/msggateway/n_ws_server.go:407-419 | the handler carries out the protocol's unregistration |
| WsServer.Server.KickUserConn | internal/msggateway/n_ws_server.go:328-331 | when no user met one address twice, the connection leaves the index, it alone does, and it is closed |
| WsServer.Server.KickUserOffline | internal/msggateway/hub_server.go:183-204 | when no user met one address twice, exactly the connections of the named users on the platform leave the index, by a run of the protocol |
| WsServer.Server.MultiTerminalLoginCheck | internal/msggateway/hub_server.go:206-226 | the connections found now are queued to be judged later, if the user is present |
| WsServer.Server.HandleRemoteLogin | internal/msggateway/n_ws_server.go:190-191 | the queued kick is carried out as a run of the protocol; what leaves the index and which tokens change |
| GroupServer.Server.CreateGroup | internal/rpc/group/group.go:193-243 | accepted if and only if the type is the working group, the operator is the owner or an app manager, nobody is named twice, all are known and the group is new; then exactly the founders are members with their roles |
| GroupServer.AllFound | internal/rpc/group/group.go:209-215 | among distinct users, as many found as asked for means all are known |
| GroupServer.Server.InviteUserToGroup | internal/rpc/group/group.go:359-447 | accepted if and only if the list is not empty, without repeats and all known, the group stands and the operator is a member or an app manager; the invited enter, or ask to where verification is needed and the operator does not run the group |
| GroupServer.Server.JoinGroup | internal/rpc/group/group.go:809-882 | accepted if and only if the user is known, the group stands and the user is not in it; it enters where joining is direct and asks elsewhere |
| GroupServer.Server.GroupApplicationResponse | internal/rpc/group/group.go:734-790 | accepted if and only if the answer is one of two, the operator runs the group and the request is open; the request is closed and, on agreement, a user not yet in the group enters |
| GroupServer.Server.CheckKick | internal/rpc/group/group.go:530-564 | the loop over a map of members passes exactly when everyone named is a member the operator may kick |
| GroupServer.Server.KickGroupMember | internal/rpc/group/group.go:514-579 | accepted if and only if the list is not empty, without repeats and without the operator, all are members and each may be kicked by the operator; exactly their rows go |
| GroupServer.Server.QuitGroup | internal/rpc/group/group.go:884-906 | accepted if and only if the one quitting is the operator, or the operator an app manager, and is a member other than the owner; exactly its row goes |
| GroupServer.Server.TransferGroupOwner | internal/rpc/group/group.go:1018-1056 | accepted if and only if the group stands, the two differ and are members, and the operator is the old owner itself or an app manager; the old takes the new one's role and the new one the ownership |
| GroupServer.Server.DismissGroup | internal/rpc/group/group.go:1183-1207 | accepted if and only if there is an owner, the operator is it or an app manager, and the group is not dismissed already or its members are to go; the status changes, and on request exactly the group's rows go |
| GroupServer.OneShort | internal/rpc/group/group.go:1374-1422 | among distinct users one of whom is missing, one row short means nobody else is |
| GroupServer.LengthsDecide | internal/rpc/group/group.go:1358-1422 | the difference of the two lengths decides membership, and the operator's index exists wherever it is used |
| GroupServer.FoundDecide | internal/rpc/group/group.go:1382-1411 | looking at all rows found, the operator's own included, decides exactly what the operator's role lets it edit |
| GroupServer.AllGroupsChecked | internal/rpc/group/group.go:1345-1422 | checking each group of the map once checks every edit |
| GroupServer.Server.CheckEdit | internal/rpc/group/group.go:1358-1422 | the check of one group passes exactly when its members may be edited |
| GroupServer.Server.UpdateGroupMembers | pkg/common/db/controller/group.go:380-394 | the updates apply one by one, all or none |
| GroupServer.Server.SetGroupMemberInfo | internal/rpc/group/group.go:1332-1436 | accepted if and only if every role is settable, in every group named the operator may edit everyone named, and every row exists; then exactly the edits are in force |
| GroupServer.Server.MuteGroup | internal/rpc/group/group.go:1308-1318 | accepted if and only if the group exists and the operator runs it; only the status changes |
| GroupServer.Server.CancelMuteGroup | internal/rpc/group/group.go:1320-1330 | accepted if and only if the group exists and the operator runs it; only the status changes |
| GroupServer.Server.SetGroupInfo | internal/rpc/group/group.go:928-971 | accepted if and only if the group stands and has an owner and the operator runs it; only the join rule changes |
| GroupTheorems.EditedRows | pkg/common/db/controller/group.go:380-394 | updating succeeds if and only if every row exists; no row comes or goes, and one that no edit gives a role keeps its own |
| GroupTheorems.EditedExact | internal/rpc/group/group.go:1358-1368 | when no user is named twice in a group, every edit's role is in force afterwards, whatever their order |
| GroupTheorems.AcceptedTargetsAreMembers | internal/rpc/group/group.go:1358-1422 | when the checks pass, every user named is a member, except an app manager naming itself, and any other operator is a member too |
| GroupTheorems.OwnersAfter | internal/rpc/group/group.go:193-1436 | after any accepted call the owners are exactly those it makes owner and those it does not unmake |
| GroupTheorems.OneOwnerKeptIff | internal/rpc/group/group.go:1018-1056 | an accepted call keeps every group at one owner at most if and only if it is not a transfer that names a non-owner as old owner of an owned group |
| GroupTheorems.WrongOwnerOnlyByManager | internal/rpc/group/group.go:1049-1053 | only an app manager's such transfer is accepted |
| GroupTheorems.NeverTwoOwners | internal/rpc/group/group.go:193-1436 | over every run of calls one after another by others than app managers no group has two owners |
| GroupTheorems.OwnerLostIff | internal/rpc/group/group.go:514-1436 | an owner loses ownership to a call by others than app managers if and only if that is its own transfer, its own edit of its role, or its dismissal with deletion |
| GroupTheorems.OwnerStays | internal/rpc/group/group.go:514-1436 | over runs, an owner who does none of these is still owner |
| GroupTheorems.TransferSwaps | pkg/common/db/controller/group.go:355-367 | an owner's transfer swaps the two roles and leaves all others |
| GroupTheorems.ManagerTransferExample | internal/rpc/group/group.go:1018-1056 | a transfer that leaves two owners |
| GroupTheorems.DismissedStaysIff | internal/rpc/group/group.go:1308-1330 | an accepted call keeps a group dismissed if and only if it is neither a mute nor its cancelling |
| GroupTheorems.DismissalUndone | internal/rpc/group/group.go:1320-1330 | an accepted call after which a dismissed group is not dismissed |
| GroupTheorems.DismissedEntryIff | internal/rpc/group/group.go:734-790 | someone enters a dismissed group if and only if a request of theirs is approved |
| GroupEffects.GroupAfter | internal/rpc/group/group.go:193-1330 | after any accepted call which groups exist, the status of each (dismissed, muted, restored or as created) and its join rule |
| GroupEffects.RequestAfter | internal/rpc/group/group.go:359-882 | after any accepted call every join request: opened by asking, answered as given, or as it was |
| GroupEffects.AskedOrLetIn | internal/rpc/group/group.go:359-882 | whoever an accepted invitation or application names is either let in or asked for, never both |
| GroupEffects.RoleAfter | internal/rpc/group/group.go:1018-1436 | the exact role of every member who stays, after any accepted call |
| GroupPowers.KickAcceptedIff | internal/rpc/group/group.go:514-579 | a kick is accepted if and only if all named are other members, named once, and rank below the one who kicks or that is an app manager |
| GroupPowers.EditsAcceptedIff | internal/rpc/group/group.go:1332-1436 | an edit of any number of members is accepted if and only if nobody is named twice in a group, all are members, only admin and ordinary roles are given, and the one who calls is an app manager, outranks each or is it |
| GroupPowers.OwnerMay | internal/rpc/group/group.go:514-1436 | what an owner is granted and refused |
| GroupPowers.AdminMay | internal/rpc/group/group.go:514-1436 | an admin mutes, kicks and edits ordinary members, and neither hands the group on nor ends it |
| GroupPowers.OrdinaryMay | internal/rpc/group/group.go:514-1436 | an ordinary member quits and edits itself, and is refused everything that decides about the group or others |
| GroupPowers.OutsiderMay | internal/rpc/group/group.go:359-1436 | whoever is neither member nor app manager can do nothing to a group but apply |
| GroupPowers.ManagerMay | internal/rpc/group/group.go:514-1330 | what an app manager is granted in any group |
| GroupPowers.ApplyAndAnswer | internal/rpc/group/group.go:734-882 | who may apply, and who may answer which request |
| GroupPowers.InviteAcceptedIff | internal/rpc/group/group.go:359-447 | who may invite whom: members also whom they can only ask for, those who run the group whom they can let in |
| GroupPowers.CreateAcceptedIff | internal/rpc/group/group.go:193-243 | who may create a group, with whom |
| GroupMembership.MembersAfter | internal/rpc/group/group.go:193-1436 | after any accepted call the members are exactly those it lets in and those it does not take out |
| GroupMembership.RoleChanges | internal/rpc/group/group.go:1018-1436 | a member's role changes only as a party of a transfer or by an edit that names it and gives exactly the new role |
| GroupMembership.NewcomerRole | internal/rpc/group/group.go:193-882 | founders get the roles they were named for, everyone who enters later is an ordinary member |
| GroupMembership.RunKeepsKnownRoles | internal/rpc/group/group.go:1347-1356 | no run introduces a role other than owner, admin and ordinary |
| GroupMembership.KicksGoDown | internal/rpc/group/group.go:530-564 | whoever is kicked by others than app managers ranks below the kicker |
| GroupMembership.ApprovalNeeded | internal/rpc/group/group.go:400-420 | a group that needs everybody verified is entered, and stops needing it, only by a call of someone who runs it |
| GroupMembership.OutsidersStayOut | internal/rpc/group/group.go:359-882 | over every run of calls by others nobody enters such a group |
| GroupMembership.OpensOnlyByAsking | internal/rpc/group/group.go:734-882 | a request is open only if it was, unanswered, or was asked for in this call |
| GroupMembership.AnsweredOnce | internal/rpc/group/group.go:754-756 | an answered request cannot be answered again, through any run, until someone asks again |
| GroupRaces.SplitIsWhole | internal/rpc/group/group.go:193-1436 | a call whose write follows its check at once does what the whole call does |
| GroupRaces.OwnersAfterCommit | internal/rpc/group/group.go:193-1436 | after any write, however late, the owners are exactly those it makes owner and those it does not unmake |
| GroupCommits.GroupAfterCommit | internal/rpc/group/group.go:193-1330 | after any late write which groups exist, with which status and join rule |
| GroupCommits.StatusDecided | internal/rpc/group/group.go:1183-1330 | which writes a dismissal, a mute and its cancelling decide |
| GroupCommits.RequestAfterCommit | internal/rpc/group/group.go:359-882 | after any late write every join request |
| GroupCommits.MembersAfterCommit | internal/rpc/group/group.go:193-1436 | after any late write the members are exactly those it lets in, who were none, and those it does not take out |
| GroupCommits.RoleAfterCommit | internal/rpc/group/group.go:1018-1436 | after any late write every member's role |
| GroupRaces.OneOwnerByCommitIff | pkg/common/db/controller/group.go:355-367 | a write keeps every group at one owner at most if and only if it is not a role swap while a third owns the group or decided when the new owner already did |
| GroupRaces.NeverTwoOwnersRacing | internal/rpc/group/group.go:1018-1056 | over every run of overlapping calls by others than app managers, late and missing writes included, with one transfer of a group under way at a time, no group has two owners |
| GroupRaces.TwoTransfersAtOnce | internal/rpc/group/group.go:1018-1056 | two overlapping transfers by the owner after which a group has two owners |
| GroupRaces.LateQuitUnseats | internal/rpc/group/group.go:884-906 | a quit written after a transfer to the one quitting leaves a group without owner |
| GroupRaces.OwnerStaysRacing | internal/rpc/group/group.go:514-1436 | over every run of overlapping calls by others than app managers, with one transfer of a group under way at a time, an owner against whom nothing was decided before and who begins no call that gives ownership up is still owner |
| GroupRaces.OwnerLostByCommitIff | internal/rpc/group/group.go:514-1436 | a write, however late, unseats an owner if and only if it was decided against that owner and does not make it owner again |
| Push.OnlinePushIffSent | internal/msggateway/hub_server.go:132-181 | a user counts as reached if and only if some platform reports success |
| Push.OneConnection | internal/msggateway/hub_server.go:153-170 | what is reported of a connection in the background, one whose write fails, one on a phone and one elsewhere, and which of them counts as reached |
| Push.SuperGroupOnlineBatchPushOneMsg | internal/msggateway/hub_server.go:132-181 | the nested loops yield one result per user asked for, in order |
| Push.GetConnsAndOnlinePush | internal/push/push_to_client.go:388-436 | whatever order gateways answer in, the merged result is that of the answering gateways, each once |
| Push.AnsweringExact | internal/push/push_to_client.go:388-436 | every gateway that answers counts as often as it was asked, and no other |
| Push.Push2User | internal/push/push_to_client.go:102-141 | who is handed to the offline pusher, early exits included |
| Push.SucceededExact | internal/push/push_to_client.go:123-125 | a user is in the success set if and only if it was asked for and some answering gateway reached it |
| Push.OfflinePushExact | internal/push/push_to_client.go:102-141 | a user is pushed offline exactly when that is wanted and it was asked for, not empty, not the sender and reached by no answering gateway; and then once for each answer and each time asked for |
| Push.OnlineOrOffline | internal/push/push_to_client.go:123-129 | success set and offline list are disjoint and together cover every user asked for but the empty one and the sender |
| Push.AnswerOrderIrrelevant | internal/push/push_to_client.go:412-432 | the order of the answers does not change the offline pushes |
| Push.OncePerAnswer | internal/push/push_to_client.go:388-436 | when nobody is asked for twice, offline pushes are free of repeats if and only if at most one gateway answers or nobody is left |
| Push.PushedTwice | internal/push/push_to_client.go:388-436 | two gateways answer and a user is pushed to offline twice |

## Left out

- 64-bit widths: numbers are unbounded, so a `MarkConversationAsRead` up to the largest 64-bit value is a loop like any other.
- Kafka, Redis, Mongo, gRPC, webhooks, websockets, encodings, contexts and logging: parameters or absent. The utility packages the code imports (hashing, slices, tokens) are not part of this model beyond their evident meaning.
- The role numbers, status numbers and platform numbers come from a protocol package that is not part of this model; only their being different matters, and of the roles their order.
- Distributor.DistributionCentre.Distribute: a full worker queue blocks the sender only in the protocol of `Pipeline`; here the queues have no bound.
- Worker.Worker.HandleMsg: of the creation of a new conversation only the attempt is modelled, not what the other service does with it.
- WorkerTheorems.StoredBeforePushed: takes it that no message object is in both a stored and a not-stored list of a run; `WorkerRun.Run` establishes it.
- Watermarks.RunWatermarks: requests one after another; overlapping ones are in `WatermarkRaces.RacingKeepsBound` and `WatermarkRaces.AloneNeverGoesBack`.
- GatewayTheorems.OnePerPlatformIff: connections are values, so a connection object that the pool hands out again while still referenced is not modelled.
- WsServer.Server.Close: the test of the flag outside the lock is not modelled; a close is one step.
- WsServer.Server.RegisterClient: the method runs uninterrupted; what may happen between its steps is in the protocol of `Gateway`.
- WsServer.Server.KickUserOffline: the loop runs uninterrupted; kicks interleaved with other events are in the protocol of `Gateway`.
- SeqStore.MsgStore.ClearConversation: the deletion of single messages is not modelled.
- GroupTheorems.NeverTwoOwners: calls one after another; overlapping ones are in `GroupRaces`.
- GroupTheorems.OwnerLostIff: calls one after another; overlapping ones are in `GroupRaces.OwnerStaysRacing` and `GroupRaces.OwnerLostByCommitIff`.
- WsServer.Server.KickUserConn: asks for distinct addresses among all connections ever accepted, although a kick in the queue removes by address only what was listed when it was asked for.
- GroupServer.Server.SetGroupMemberInfo: an edit without a role stands for one of another field; nickname and other fields are not kept.
- GroupServer.Server.SetGroupInfo: of the settable fields only the join rule is kept.
- GroupServer.Server.DismissGroup: which owner the database answers with, if there were several, is a parameter.
- Push.GetConnsAndOnlinePush: the branch for Kubernetes, which asks each gateway for its own users only, and the super-group push path in zookeeper mode are not modelled.
- The consumer that moves messages to Mongo, receive-option tables, member muting and list queries: single-branch facts or other services.
