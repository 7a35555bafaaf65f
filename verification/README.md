# A verified model of libzina's group protocol, command queue, codecs and app repository

libzina lets the devices of several users share groups. Each device edits a change set per group, stamps its name,
avatar and burn-time updates with vector clocks, sends it to every member device, waits for their ACKs, and applies
the change sets it receives. This project models that protocol, and with it the run-queue through which a device's
commands pass, the URL-safe base64 codec and big-endian buffers of its attachments, and the message numbering and
paging of its app repository. The model follows the code branch by branch; what is proved about it holds for all
inputs, all states or all runs, as each statement says.

## How the project is organised

| part | files |
|---|---|
| clocks, conflict rule, registers | `VectorClocks.dfy`, `UpdateOrder.dfy`, `Registers.dfy` |
| change sets and member lists | `ChangeSets.dfy`, `MemberUpdates.dfy` |
| one device: meaning of each operation, and the operations as a class | `GroupProtocol.dfy`, `GroupDevice.dfy` |
| runs of a device and what they keep | `GroupRuns.dfy`, `RegisterRuns.dfy`, `WaitRecords.dfy`, `RecordLife.dfy`, `CarryOver.dfy`, `Sends.dfy`, `Editing.dfy` |
| several devices | `ReplyChains.dfy`, `MemberAgreement.dfy`, `NewMembers.dfy`, `ReplyCollection.dfy`, `ClockClash.dfy` (and `RegisterRuns.DevicesConverge`) |
| run-queue, re-key and re-scan | `CommandQueue.dfy`, `CommandHandling.dfy` |
| attachments | `Attachments.dfy`, `Base64.dfy`, `ByteOrder.dfy` |
| app repository | `AppRepository.dfy`, `RepositoryReads.dfy`, `RepositoryAccess.dfy` |

A class method changes fields in place, as the source does, and its contract equates the new state with a function of
the old one; the lemmas about runs are then about those functions. A run is any sequence of events, so a statement
about runs covers every order of edits, sends, deliveries and departures. A concurrent region between two lock
operations is one step.

## Premises

- Convergence needs that a clock, and an update id, determine the update. The code does not provide this: a device
  replaces its clock by the winner's instead of merging, so that any three devices of a group can stamp two names with
  one clock (`ClockClash.OneClockForTwoNames` gives the runs), and missing metadata is repeated under the id of a later
  send. `Registers.OrderMattersExactlyWhen` says for two updates exactly when the order of arrival matters.
- Clocks come from counting up, so counters are not negative and sums fit 64 bits. The order on (sum, id) fails
  without it: `UpdateOrder.NegativeCounterBreaksRankOrder`.
- Fresh update ids have eight bytes; store operations succeed; time is a parameter.

## Where code and documentation, or code and intent, part

- A device never resends a stored change set: outside a send the lookup runs the statement for (group, update id) with
  the textual device id (`GroupUpdateImpl.cpp` 835-839, `GroupWaitForAck.cpp` 265-276): `WaitRecords.NeverResends`.
- A set without updates is to be dropped during a send, but under a lock that is already held and is not recursive
  (`GroupUpdateImpl.cpp` 813 and 822-827). A send locks up on its first device exactly when the set it began with had no
  update, for which undoing an edit that was never made is enough: `WaitRecords.SendLocksUpExactlyWhen`,
  `WaitRecords.UndoingNothingLocksUp`.
- Names that get into a set without an add list, or a remove list, of its own once its send has begun, carried over or
  by an edit between two devices, travel under an empty update id, so their ACK cannot clear the wait record, for the
  device concerned and for every later one of the same send: `WaitRecords.ListAckClearsExactlyWhen`.
- A send serves its devices before it files the set as pending (`GroupInterfaceImpl.cpp` 264-276). When all replies are
  back by then, the set is filed although nothing is awaited, and stays until a message happens to name its id again, the
  group is left, or a newer send replaces it: `ReplyCollection.AllRepliesCollectExactlyWhen` says exactly when a send
  that all devices answer is collected, `ReplyCollection.EarlyRepliesLeaveSetPending` and
  `ReplyCollection.NameAnsweredAtOnce` when and with which input it is not.
- The callback field of a prepared message is never set (`SendMessage.cpp` 353-392), yet the queue handler acts on it
  (`QueueHandling.cpp` 108-110). Such a message can release a re-key or re-scan caller before its own command has begun:
  `CommandQueue.StrayCallbackReturnsEarly`. The handshake is sound exactly when no such message carries a callback
  action: `CommandQueue.FlagsAreTruthfulExactlyWhen`.
- An ACK whose id has not eight bytes can spell another group's key and erase a set that is still awaited:
  `WaitRecords.AcksEraseOnlyCollectedExactlyWhen`.
- A change set whose member lists are present but all empty gets no ACK for them, although the code comments that one
  is always sent: `RegisterRuns.OtherUpdatesAreAcknowledgedOnce`.
- The user interface is told of gained and lost members wrongly when a stranger is added more often than removed in one
  set: `MemberUpdates.UpdateMembers` has the exact condition.
- After a re-scan the callback ping goes to the last listed device, not, as commented, to the last new one
  (`AppInterfaceImpl.cpp` 683-690): `CommandHandling.RescanUserDevicesCommand`. The two are the same exactly when the
  last listed device is new, `CommandHandling.LastListedIsLastNewExactlyWhen`; when it is this device itself, the ping
  goes there, `CommandHandling.CallbackPingToOneself`.
- The encoder writes its terminator up to two bytes past the length it advertises (`utilities.cpp` 200-205):
  `Base64.AdvertisedLengthSufficesExactlyWhen`.
- Inserting a known event is documented as an error but replaces its data: `AppRepository.InsertOutcome`.
- An offset of -1 is documented as starting `number` messages below the highest (`AppRepository.h` 230-234) but starts
  at the highest: `AppRepository.StartIsDocumentedExactlyWhen`. The documented start would leave out the newest event,
  `AppRepository.DocumentedStartLeavesOutNewest`, while the code's pages list them all,
  `AppRepository.PagingListsEveryEventOnce`.

## Model

| member | source | states |
|---|---|---|
| VectorClocks.CompareClocks | libs/libzina/vectorclock/VectorClock.h:195-240 | the walk over the merged nodes with its early exit yields the order defined by pointwise comparison |
| VectorClocks.WalkNodes | libs/libzina/vectorclock/VectorClock.h:214-228 | each flag is up exactly when its clock is ahead in some node, also when the walk stops early |
| VectorClocks.SumOfValues | libs/libzina/vectorclock/VectorClock.h:183-192 | the running 64-bit addition gives the wrapped sum whatever the node order, and the true sum for clocks made by counting |
| VectorClocks.DominatingClockHasLargerSum | libs/libzina/vectorclock/VectorClock.h:195-240 | After and Before imply strictly larger and smaller sums; Equal means the same counts |
| VectorClocks.IncrementAddsOne | libs/libzina/vectorclock/VectorClock.h:171-180 | counting up adds one to the sum and yields a clock that comes After |
| UpdateOrder.ResolveConflict | libs/libzina/interfaceApp/GroupInterfaceImpl.cpp:668-678 | larger sum, then larger id, and never Concurrent |
| UpdateOrder.DecisionIsRankOrder | libs/libzina/interfaceApp/GroupInterfaceImpl.cpp:697-703 | for unequal clocks the decision is After exactly when (sum, id) is lexicographically greater |
| UpdateOrder.DecisionIsStrictTotalOrder | libs/libzina/interfaceApp/GroupInterfaceImpl.cpp:668-703 | with distinct ids the decision is antisymmetric, total and transitive |
| UpdateOrder.NegativeCounterBreaksRankOrder | libs/libzina/vectorclock/VectorClock.h:218-219 | a negative counter, read as unsigned, wins against the rank |
| Registers.Judge | libs/libzina/interfaceApp/GroupInterfaceImpl.cpp:697-752 | every update gets a verdict, each code exactly for its pair of pointwise comparisons: the generic error exit is unreachable |
| Registers.VerdictMeaning | libs/libzina/interfaceApp/GroupInterfaceImpl.cpp:732-751 | which of the five codes: newer, older or no news by the pointwise counts alone, and in a conflict of the two by the rank |
| Registers.ReceiveFollowsRank | libs/libzina/interfaceApp/GroupInterfaceImpl.cpp:680-753 | an update is accepted exactly when it ranks higher, which is exactly when the stored rank rises; a rejected one changes nothing |
| Registers.AcceptedIsStored | libs/libzina/interfaceApp/GroupInterfaceImpl.cpp:704-722 | an accepted update is stored with its value, its clock and the first eight bytes of its id |
| Registers.SendRaisesRank | libs/libzina/interfaceApp/GroupUpdateImpl.cpp:354-401 | a local edit always raises the rank |
| Registers.ReplicasConverge | libs/libzina/interfaceApp/GroupInterfaceImpl.cpp:680-908 | the same set of updates in any order, with any repetition, gives the same value, clock and id: those of the greatest |
| Registers.OrderMattersExactlyWhen | libs/libzina/interfaceApp/GroupInterfaceImpl.cpp:717-722 | without the premise: the exact condition under which two updates do not commute |
| Registers.SameClockTwiceDiverges | libs/libzina/interfaceApp/GroupInterfaceImpl.cpp:747-751 | two updates under one clock leave readers of different orders disagreeing |
| Registers.SameClockTwiceExample | libs/libzina/interfaceApp/GroupInterfaceImpl.cpp:717-722 | a concrete such pair |
| ClockClash.OneClockForTwoNames | libs/libzina/interfaceApp/GroupInterfaceImpl.cpp:717-722 | runs in which three devices that hear of each other's names stamp two names with one clock, and readers then disagree for good |
| ClockClash.NamingMints | libs/libzina/interfaceApp/GroupUpdateImpl.cpp:700-795 | editing, preparing and finishing a name counts up the device's own entry, and the set sent carries exactly that clock |
| ChangeSets.RemoveSwappingLast | libs/libzina/interfaceApp/GroupUpdateImpl.cpp:202-221 | refines deletion of the first occurrence by moving the last entry into the gap |
| ChangeSets.SwapRemovedMeaning | libs/libzina/interfaceApp/GroupUpdateImpl.cpp:271-291 | on a repeat-free list swap deletion removes exactly the name and leaves no repeats |
| ChangeSets.AppendUnlessPresent | libs/libzina/interfaceApp/GroupUpdateImpl.cpp:233-249 | the scan for duplicates appends a name only if the list lacks it |
| ChangeSets.AppendedAllMeaning | libs/libzina/interfaceApp/GroupUpdateImpl.cpp:456-468 | appending many names yields the union, still repeat-free |
| MemberUpdates.CancelAdds | libs/libzina/interfaceApp/GroupInterfaceImpl.cpp:957-973 | each removed name cancels one entry: the multiset difference |
| MemberUpdates.InsertUnknown | libs/libzina/interfaceApp/GroupInterfaceImpl.cpp:975-1000 | members grow by the list; the list shrinks to the new ones, each once |
| MemberUpdates.DeleteKnown | libs/libzina/interfaceApp/GroupInterfaceImpl.cpp:1002-1028 | members shrink by the list; the list shrinks to those that were members, each once |
| MemberUpdates.UpdateMembers | libs/libzina/interfaceApp/GroupInterfaceImpl.cpp:929-1037 | for arbitrary lists the members are (old + add) - remove; the reported lists are right exactly when no stranger is added more often than removed, in particular for repeat-free add lists |
| GroupDevice.GroupDevice.ProcessAcks | libs/libzina/interfaceApp/GroupInterfaceImpl.cpp:630-666 | expiry, then each ACK erases its record, and a pending set only with the last record of its update |
| GroupDevice.GroupDevice.ProcessUpdate | libs/libzina/interfaceApp/GroupInterfaceImpl.cpp:680-753 | value, clock and id are replaced together or not at all; one ACK with the verdict |
| GroupDevice.GroupDevice.ProcessUpdateMembers | libs/libzina/interfaceApp/GroupInterfaceImpl.cpp:929-1037 | the member table of this group only changes, to (old + add) - remove; ACKs for the lists present; when the reports are right |
| GroupDevice.GroupDevice.InsertNewGroup | libs/libzina/interfaceApp/GroupInterfaceImpl.cpp:1102-1123 | the new group has the set's name and this user as only member |
| GroupDevice.GroupDevice.ProcessLeaveGroup | libs/libzina/interfaceApp/GroupUpdateImpl.cpp:545-567 | records, clocks, pending sets and members of this group go, those of others stay |
| GroupDevice.GroupDevice.AnswerForUnknownGroup | libs/libzina/interfaceApp/GroupInterfaceImpl.cpp:549-576 | a remove request is returned and remembered exactly when the set has updates, is not itself one for this user, and none was sent before |
| GroupDevice.GroupDevice.UpdateGroup | libs/libzina/interfaceApp/GroupInterfaceImpl.cpp:577-625 | ACKs, registers and members of a known group change as specified, with the ACKs in order |
| GroupDevice.GroupDevice.ProcessReceivedChangeSet | libs/libzina/interfaceApp/GroupInterfaceImpl.cpp:506-628 | all branches: sibling leave, implicit creation, unknown group, known group |
| GroupDevice.GroupDevice.CheckAndProcessChangeSet | libs/libzina/interfaceApp/GroupInterfaceImpl.cpp:410-502 | when a message is answered, and with what; an undecodable set is refused without effect |
| GroupDevice.GroupDevice.RemoveFromPendingChangeSets | libs/libzina/interfaceApp/GroupUpdateImpl.cpp:977-987 | the one entry under the key goes |
| GroupDevice.GroupDevice.GetCurrentGroupChangeSet | libs/libzina/interfaceApp/GroupUpdateImpl.cpp:94-111 | finds the group's set, or starts one if the device has the group |
| GroupDevice.GroupDevice.EditChangeSet | libs/libzina/interfaceApp/GroupUpdateImpl.cpp:494-673 | error codes in the source's order of checks, no effect on error, and only this group's set edited |
| GroupDevice.GroupDevice.EditedSet | libs/libzina/interfaceApp/GroupUpdateImpl.cpp:202-352 | the edits of one set |
| GroupDevice.GroupDevice.GetPendingGroupChangeSet | libs/libzina/interfaceApp/GroupUpdateImpl.cpp:65-75 | the first match found in any order is the group's only pending set |
| GroupDevice.GroupDevice.PrepareChangeSetClocks | libs/libzina/interfaceApp/GroupUpdateImpl.cpp:354-401 | the stored clock counted up goes into the set and back into the store, under the id of the send |
| GroupDevice.GroupDevice.AddMissingMetaData | libs/libzina/interfaceApp/GroupUpdateImpl.cpp:420-454 | missing updates repeat stored value and clock under the new id |
| GroupDevice.GroupDevice.AddExistingMembers | libs/libzina/interfaceApp/GroupUpdateImpl.cpp:456-468 | the member rows join the add list |
| GroupDevice.GroupDevice.PrepareAdds | libs/libzina/interfaceApp/GroupUpdateImpl.cpp:766-780 | members and the add list both become members + added |
| GroupDevice.GroupDevice.PrepareRemoves | libs/libzina/interfaceApp/GroupUpdateImpl.cpp:781-792 | the removed leave the table, this user excepted |
| GroupDevice.GroupDevice.PrepareChangeSetSend | libs/libzina/interfaceApp/GroupUpdateImpl.cpp:700-795 | error codes and the state in which a send begins; with an add list the rows are the members there were and the names added, each once |
| GroupDevice.GroupDevice.CollapsePending | libs/libzina/interfaceApp/GroupUpdateImpl.cpp:846-879 | unacknowledged names of the group's only pending set join, and their records go |
| GroupDevice.GroupDevice.RecordWaits | libs/libzina/interfaceApp/GroupUpdateImpl.cpp:893-921 | records under the id of this send, replacing older ones of clocked types only |
| GroupDevice.GroupDevice.CreateChangeSetDevice | libs/libzina/interfaceApp/GroupUpdateImpl.cpp:797-925 | all branches; only the branch of a send changes the state |
| GroupDevice.GroupDevice.GroupUpdateSendDone | libs/libzina/interfaceApp/GroupUpdateImpl.cpp:927-966 | older pending sets of the group go, the sent set becomes its only one |
| GroupRuns.AtMostOnePendingSet | libs/libzina/interfaceApp/GroupUpdateImpl.cpp:941-961 | over every run a group has at most one pending set, and all ids keep eight bytes |
| GroupRuns.SerializedWaits | libs/libzina/interfaceApp/GroupUpdateImpl.cpp:893-921 | every record after serializing is of this send or older and not replaced |
| GroupRuns.WaitsRecordedMeaning | libs/libzina/storage/sqlite/GroupWaitForAck.cpp:31-48 | exactly which records there are after recording one set |
| RegisterRuns.StepRaisesRankExactlyOnWrites | libs/libzina/interfaceApp/GroupInterfaceImpl.cpp:680-908 | in each step the stored rank rises exactly when the register is written, and else the register stays |
| RegisterRuns.RankNeverFalls | libs/libzina/interfaceApp/GroupUpdateImpl.cpp:735-759 | over every run of sends and receipts the rank never falls, and an equal rank means an equal register |
| RegisterRuns.AcksForMatchesExpected | libs/libzina/interfaceApp/GroupInterfaceImpl.cpp:577-625 | among all ACKs of a reply those of one type are exactly the one its update calls for |
| RegisterRuns.EveryUpdateIsAcknowledgedOnce | libs/libzina/interfaceApp/GroupInterfaceImpl.cpp:680-908 | a received clocked update gets exactly one ACK under its id, ACCEPTED exactly when the register is written |
| RegisterRuns.AckSaysExactly | libs/libzina/interfaceApp/GroupInterfaceImpl.cpp:717-752 | the one ACK a received message returns for an update, code included, told from pointwise counts and ranks only |
| RegisterRuns.AcksComeInOrder | libs/libzina/interfaceApp/GroupInterfaceImpl.cpp:577-625 | the ACKs of a reply follow the order name, avatar, burn time, message burns, added, removed |
| RegisterRuns.OtherUpdatesAreAcknowledgedOnce | libs/libzina/interfaceApp/GroupInterfaceImpl.cpp:910-955 | member lists and message burns get one ACK under their id, with its code, exactly unless all member lists of the set are empty |
| RegisterRuns.DevicesConverge | libs/libzina/interfaceApp/GroupInterfaceImpl.cpp:506-628 | two devices that agree and receive the same updates in any packing and order agree again, amid other traffic |
| WaitRecords.WaitRecordsAreLatest | libs/libzina/interfaceApp/GroupUpdateImpl.cpp:893-907 | over every run at most one record per (group, device, clocked type), with the id of the latest such update sent there |
| WaitRecords.PreparingStartsSending | libs/libzina/interfaceApp/GroupUpdateImpl.cpp:717-792 | a prepared set has the lists it began with, and the fresh id in every update |
| WaitRecords.SerializingKeepsSending | libs/libzina/interfaceApp/GroupUpdateImpl.cpp:841-925 | what is serialized carries the id of the send, except member lists the send did not begin with, which carry none; the send goes on unchanged for the next device |
| WaitRecords.UnacknowledgedNamesAreCarriedOver | libs/libzina/interfaceApp/GroupUpdateImpl.cpp:846-920 | exactly the older names the device has not acknowledged join the serialized lists; a record of this send covers them, the older records go |
| WaitRecords.ListAckClearsExactlyWhen | libs/libzina/interfaceApp/GroupUpdateImpl.cpp:856-885 | over a whole send, for every device and for add and remove lists alike, the returned ACK clears the device's record exactly when the set had that list when the send began, whatever is edited between two devices |
| WaitRecords.SendLocksUpExactlyWhen | libs/libzina/interfaceApp/GroupUpdateImpl.cpp:813-827 | over a whole send, serializing locks up exactly when the set had no update when the send began |
| WaitRecords.UndoingNothingLocksUp | libs/libzina/interfaceApp/GroupUpdateImpl.cpp:202-229 | a short run that reaches the lock-up from any idle device that has the group |
| WaitRecords.KeySplitsUniquely | libs/libzina/interfaceApp/GroupUpdateImpl.cpp:65-75 | the eight-byte prefix splits a key unambiguously |
| WaitRecords.AcksEraseOnlyCollectedExactlyWhen | libs/libzina/interfaceApp/GroupInterfaceImpl.cpp:643-662 | an ACK erases only collected sets, in every state whose ids fit, exactly when its own id has the fixed width (or spells no key) |
| WaitRecords.AllAcksCollectPendingSet | libs/libzina/interfaceApp/GroupInterfaceImpl.cpp:630-666 | once all awaited ACKs have come, in any order amid any other traffic, the pending set is gone |
| RecordLife.RecordGoesExactlyWhen | libs/libzina/interfaceApp/GroupInterfaceImpl.cpp:630-666 | a step takes a record away exactly when a processed message acknowledges it or comes with ACKs more than 31 days after it, the group is left, or a newer set for its device takes its place; else it keeps its time |
| RecordLife.NewRecordHasTime | libs/libzina/interfaceApp/GroupUpdateImpl.cpp:893-921 | a new record is of the send under way and the device served, with the time of serving |
| RecordLife.RecordStays | libs/libzina/interfaceApp/GroupInterfaceImpl.cpp:634-647 | over every run a record is there with its time if it is not acknowledged, its group not left, its device not served anew, and no message comes later than 31 days after it |
| RecordLife.AwaitedSetGoesExactlyWhen | libs/libzina/interfaceApp/GroupInterfaceImpl.cpp:643-662 | while a record of an update is left, its pending set goes exactly by finishing a later send, or by an ACK of another width that spells its key |
| RecordLife.AwaitedSetStays | libs/libzina/interfaceApp/GroupInterfaceImpl.cpp:643-662 | over every run, while such a record is spared, the pending set stays as it was filed |
| RecordLife.CollectedExactlyWhenAcknowledged | libs/libzina/interfaceApp/GroupInterfaceImpl.cpp:630-666 | over 31 days without a newer send, a departure or a misspelt ACK, the pending set is gone exactly when every awaited device and type has acknowledged it |
| RecordLife.NodesMeetExactlyWhen | libs/libzina/interfaceApp/GroupUpdateImpl.cpp:893-907 | two device ids share their records exactly when they are equal or agree in sixteen digits |
| CarryOver.UnacknowledgedNamesReachNextSend | libs/libzina/interfaceApp/GroupUpdateImpl.cpp:700-966 | over two sends of a group with any traffic before, between and within: a device that has not acknowledged the first send's add or remove list gets all its names with the second, and a record awaits them |
| CarryOver.FirstSendFiles | libs/libzina/interfaceApp/GroupUpdateImpl.cpp:927-966 | after a send the pending set has every name of each list it served, still awaited from the devices that did not answer |
| Sends.EveryDeviceIsServedTheEdits | libs/libzina/interfaceApp/GroupUpdateImpl.cpp:700-925 | every device of a send is served each edited value under the clock counted up by one and the fresh id, all messages named for burning, and every name of both lists |
| Sends.ServedSetIsFiled | libs/libzina/interfaceApp/GroupUpdateImpl.cpp:955-965 | what a send files under its id is the set as the last device left it |
| Sends.FinishOutcome | libs/libzina/interfaceApp/GroupUpdateImpl.cpp:927-966 | entry by entry: the group's set is filed, its older pending sets go, those of other groups stay, the id is cleared and the send is over |
| Sends.PreparingOutcome | libs/libzina/interfaceApp/GroupUpdateImpl.cpp:700-733 | each code exactly when, and no effect unless a send starts |
| Sends.SerializingOutcome | libs/libzina/interfaceApp/GroupUpdateImpl.cpp:797-840 | each code exactly when, and no effect unless a device is served |
| Sends.ResendsExactlyWhen | libs/libzina/interfaceApp/GroupUpdateImpl.cpp:829-839 | outside a send the stored set is returned exactly when a record of the group has the textual device id as its update id |
| WaitRecords.NeverResends | libs/libzina/interfaceApp/GroupUpdateImpl.cpp:835-839 | in every run outside a send nothing is serialized again |
| ReplyCollection.ReplyNamesExactly | libs/libzina/interfaceApp/GroupInterfaceImpl.cpp:577-625 | a receiver that keeps the group names in its reply exactly the updates of the set, member lists only if one of them names someone |
| ReplyCollection.ReplyAcknowledgesAllExactlyWhen | libs/libzina/interfaceApp/GroupInterfaceImpl.cpp:577-625 | for a set serialized during a send the reply acknowledges every record exactly when no list only joined on the way and the lists are not all empty |
| ReplyCollection.RecordsStemFromServing | libs/libzina/interfaceApp/GroupUpdateImpl.cpp:893-921 | every record a send makes belongs to a device it served and a type it carried there, and has been there ever since |
| ReplyCollection.AllRepliesCollectExactlyWhen | libs/libzina/interfaceApp/GroupUpdateImpl.cpp:700-966 | a send prepared under a fresh id, serialized for any devices with lists that a reply acknowledges (`ReplyCollection.ReplyAcknowledgesAllExactlyWhen`), finished, and answered by each of them, before the finish while the group was there or after it, amid any other traffic but a newer send, has its pending set collected exactly when a record of it was left at the finish (the group then being there), or a later step settles it: an ACK spells its key or the group is left |
| ReplyCollection.RunOnSettled | libs/libzina/interfaceApp/GroupInterfaceImpl.cpp:643-662 | over every run without a newer send, a pending set without records stays exactly until an ACK spells its key or the group is left |
| ReplyCollection.EarlyRepliesLeaveSetPending | libs/libzina/interfaceApp/GroupInterfaceImpl.cpp:264-276 | when every reply is back before the finish, the acknowledged set is filed as pending with nothing awaited |
| ReplyCollection.NameAnsweredAtOnce | libs/libzina/interfaceApp/GroupInterfaceImpl.cpp:264-276 | the input: a group is named, and the one device served answers before the finish |
| ReplyChains.AtMostThreeReplies | libs/libzina/interfaceApp/GroupInterfaceImpl.cpp:444-576 | whatever two devices store, one message causes at most three automatic replies |
| ReplyChains.ThreeRepliesHappen | libs/libzina/interfaceApp/GroupInterfaceImpl.cpp:444-576 | the bound is reached |
| ReplyChains.AcksAreNotAnswered | libs/libzina/interfaceApp/GroupInterfaceImpl.cpp:546-576 | a set of ACKs ends the chain |
| ReplyChains.RemoveRequestAnswer | libs/libzina/interfaceApp/GroupInterfaceImpl.cpp:553-574 | a remove request is ignored, acknowledged, or answered by one that is remembered |
| ReplyChains.UnknownGroupAnswer | libs/libzina/interfaceApp/GroupInterfaceImpl.cpp:546-576 | for a group the device neither has nor joins: exactly which messages are answered by a request to remove this user, and that nothing but the memory of it changes |
| ReplyChains.RemoveMemoryIsLatest | libs/libzina/interfaceApp/GroupInterfaceImpl.cpp:559-573 | over every run the device remembers exactly the last 31 it asked |
| ReplyChains.RemoveMemoryIsBounded | libs/libzina/interfaceApp/GroupInterfaceImpl.cpp:559-573 | over every run the memory of remove requests has no repeats and at most 31 keys |
| MemberAgreement.MembersAgreeExactlyWhen | libs/libzina/interfaceApp/GroupUpdateImpl.cpp:766-792 | sender and receiver of a set end with the same members exactly when the sender does not remove itself and the receiver starts inside members + added + removed |
| MemberAgreement.RemovalsAgreeExactlyWhen | libs/libzina/interfaceApp/GroupUpdateImpl.cpp:781-792 | sender and receiver of a set without an add list end with the same members exactly when the receiver has the group and stays, the sender does not remove itself, and their members differed in removed ones at most |
| NewMembers.NewMemberLearns | libs/libzina/interfaceApp/GroupUpdateImpl.cpp:420-454 | whenever in a send it is served, a device without the group ends with the sender's name, avatar and burn time and their clocks under the id of the send, edited or not; only what was never edited keeps its initial value |
| NewMembers.LeavingForgets | libs/libzina/interfaceApp/GroupUpdateImpl.cpp:545-567 | entry by entry: clocks, records and pending sets of the group go, and none of any other |
| NewMembers.LeaverLearnsAnew | libs/libzina/interfaceApp/GroupUpdateImpl.cpp:545-567 | a user who left and is added again takes over every update that counts an edit, whatever the device had counted before |
| NewMembers.CarriedOverMemberLearns | libs/libzina/interfaceApp/GroupUpdateImpl.cpp:881-886 | the same when the names only joined by carry-over, with what is stored when the device is served |
| NewMembers.ReceiverLearns | libs/libzina/interfaceApp/GroupInterfaceImpl.cpp:531-625 | a device without the group takes over every update that counts an edit from a set that adds someone; else it has the name in the set, no avatar and no burn time |
| MemberAgreement.RequestedRemovalIsObeyed | libs/libzina/interfaceApp/GroupInterfaceImpl.cpp:506-576 | the sender obeys the request a device without the group answers with: that user's membership ends and all else about the group stays, or the sender leaves if it is the same user |
| MemberAgreement.ReceivedMembers | libs/libzina/interfaceApp/GroupInterfaceImpl.cpp:531-625 | a receiver, also one that only now creates the group, ends with (its members + added) - removed |
| Editing.EditsRefineWishes | libs/libzina/interfaceApp/GroupUpdateImpl.cpp:202-335 | over every sequence of edits the two lists are repeat-free, disjoint, and equal to a map in which the last effective call wins |
| Editing.SettingsFollowEdits | libs/libzina/interfaceApp/GroupUpdateImpl.cpp:604-685 | over every sequence of edits the set holds for each of name, avatar and burn time the value set last, and all messages named for burning in order as this user's |
| Editing.EditOutcome | libs/libzina/interfaceApp/GroupUpdateImpl.cpp:494-673 | each code exactly when, in the order of the checks; a failed edit changes nothing, any other only the group's set |
| Editing.EditRepresents | libs/libzina/interfaceApp/GroupUpdateImpl.cpp:251-335 | one edit on the lists is one update of that map |
| CommandQueue.QueueKeepsHistory | libs/libzina/interfaceApp/QueueHandling.cpp:61-160 | under every interleaving completed plus queued commands are the appended batches in order, and a handler asleep beside a command has a wake-up coming |
| CommandQueue.StartedStays | libs/libzina/interfaceApp/QueueHandling.cpp:61-81 | whatever other threads do between the two regions of an append, the thread stays started and the append goes through |
| CommandQueue.PlanOwesWhatCommandOwes | libs/libzina/interfaceApp/AppInterfaceImpl.cpp:434-486 | whichever course a command takes, it passes on exactly the signal it owes |
| CommandQueue.EveryCallIsSignalledOnce | libs/libzina/interfaceApp/QueueHandling.cpp:99-155 | each submitted re-key or re-scan is signalled exactly once, or its one signal is still queued, whatever other producers append |
| CommandQueue.SignalledCallMayReturn | libs/libzina/interfaceApp/AppInterfaceImpl.cpp:234-313 | a caller whose own command is done finds its flag up, and every caller does once the queue is drained |
| CommandQueue.ReturnMeansOwnCommandIsDone | libs/libzina/interfaceApp/AppInterfaceImpl.cpp:234-313 | in runs without stray callbacks the flag a caller waits for is up exactly when its own command has been carried through |
| CommandQueue.StrayCallbackReturnsEarly | libs/libzina/interfaceApp/SendMessage.cpp:353-392 | a run in which a prepared message with a callback action lets a caller return while its own command is still queued |
| CommandQueue.FlagsAreTruthfulExactlyWhen | libs/libzina/interfaceApp/QueueHandling.cpp:99-110 | for any commands that other producers may append: in all runs a raised flag means the caller's own command is done, exactly when none of them is a message with a callback action |
| CommandHandling.CommandThread.CheckStartRunThread | libs/libzina/interfaceApp/QueueHandling.cpp:48-59 | the region under the thread lock is the Start step |
| CommandHandling.CommandThread.PushBack | libs/libzina/interfaceApp/QueueHandling.cpp:65-67 | the region under the queue lock appends the batch whole and notifies a sleeper |
| CommandHandling.CommandThread.AddMsgInfosToRunQueue | libs/libzina/interfaceApp/QueueHandling.cpp:72-81 | the two regions one after the other, undisturbed |
| CommandHandling.CommandThread.AddMsgInfoToRunQueue | libs/libzina/interfaceApp/QueueHandling.cpp:61-70 | the same for one command |
| CommandHandling.CommandThread.SendActionCallback | libs/libzina/interfaceApp/AppInterfaceImpl.cpp:732-752 | raises the flag of its kind only, and none for no action |
| CommandHandling.CommandThread.BeginCall | libs/libzina/interfaceApp/AppInterfaceImpl.cpp:234-245 | taking the lock of its kind and clearing the flag is the Begin step |
| CommandHandling.CommandThread.SubmitCall | libs/libzina/interfaceApp/AppInterfaceImpl.cpp:296-306 | appending the command under the wait lock is the Submit step |
| CommandHandling.CommandThread.ReturnFromCall | libs/libzina/interfaceApp/AppInterfaceImpl.cpp:305-312 | the wait loop ends exactly when its flag is up |
| CommandHandling.CommandThread.PopFront | libs/libzina/interfaceApp/QueueHandling.cpp:90-160 | popping the front and taking up the next is the Next step |
| CommandHandling.RescanUserDevicesCommand | libs/libzina/interfaceApp/AppInterfaceImpl.cpp:589-697 | known devices become known and listed, names of loadable conversations and of the local one become the last listed, each new device gets its ping and hellos addressed to it in list order, and exactly one signal is owed |
| CommandHandling.PingsFollowList | libs/libzina/interfaceApp/AppInterfaceImpl.cpp:675-680 | each listing of a new device contributes its ping and hellos, consecutive and addressed to it, in the order of the list, and there are no other messages |
| CommandHandling.LastListedIsLastNewExactlyWhen | libs/libzina/interfaceApp/AppInterfaceImpl.cpp:683-690 | the device of the callback ping is the last new one, as commented, exactly when the last listed device is new |
| CommandHandling.CallbackPingToOneself | libs/libzina/interfaceApp/AppInterfaceImpl.cpp:683-690 | a list for which it is this device itself |
| CommandHandling.NameListedMeaning | libs/libzina/interfaceApp/AppInterfaceImpl.cpp:637-673 | an id takes the name of its last entry, and none exactly when it is not listed |
| CommandHandling.ReKeyDeviceCommand | libs/libzina/interfaceApp/AppInterfaceImpl.cpp:434-486 | which conversations go or lose their ratchet state, and exactly when a ping rather than the command raises the signal |
| CommandHandling.VisitDevice | libs/libzina/interfaceApp/AppInterfaceImpl.cpp:637-673 | one listed device: renamed if known and loadable, this device's own conversation likewise, new otherwise |
| CommandHandling.UpdateKnownAndPingNew | libs/libzina/interfaceApp/AppInterfaceImpl.cpp:637-682 | each conversation takes the name listed last for it, each new device is pinged in order, and the device left over is the last of the list |
| CommandHandling.DeleteUnlisted | libs/libzina/interfaceApp/AppInterfaceImpl.cpp:605-632 | exactly the conversations of unlisted devices go |
| Base64.Encode | libs/libzina/attachments/utilities.cpp:175-207 | the output is the encoding, the reported length has no terminator, and one byte behind it is zeroed |
| Base64.ArmorWords | libs/libzina/attachments/utilities.cpp:190-198 | the loop writes every word of the encoding and nothing behind |
| Base64.AlphabetInverts | libs/libzina/attachments/utilities.cpp:163-226 | the decode map inverts the armor table, whose characters are neither white space nor invalid |
| Base64.EntryIsPlace | libs/libzina/attachments/utilities.cpp:216-226 | the decode map has entries for exactly the 64 characters of the alphabet, each its place there |
| Base64.CorruptExactlyWhen | libs/libzina/attachments/utilities.cpp:238-278 | decoding fails exactly for inputs shorter than two, and those with a character outside the alphabet that no white space hides |
| Base64.DecodedFits | libs/libzina/attachments/utilities.cpp:293-297 | what decoding yields fits the advertised length with two bytes to spare |
| Base64.BitsSurvive | libs/libzina/attachments/utilities.cpp:167-173 | the decoder's shifts restore the three bytes the encoder split |
| Base64.Decode | libs/libzina/attachments/utilities.cpp:238-278 | reads only inside the input, writes only the first three quarters of its length, and reports corrupt data exactly when some group is spoilt |
| Base64.FirstWord | libs/libzina/attachments/utilities.cpp:190-198 | the encoding is the first word followed by the encoding of the rest |
| Base64.GroupsOfEncoded | libs/libzina/attachments/utilities.cpp:238-278 | decoding an encoding yields the input padded with zeros |
| Base64.RoundTrip | libs/libzina/attachments/utilities.cpp:167-297 | decoding the encoder's output gives the zero-padded input, and the input itself exactly for non-empty multiples of three |
| Base64.PaddedLength | libs/libzina/attachments/utilities.cpp:190-207 | the padding is at most two bytes, none exactly for multiples of three |
| Base64.AdvertisedLengthSufficesExactlyWhen | libs/libzina/attachments/utilities.cpp:287-290 | a buffer of the advertised length is enough exactly for multiples of three, and never short by more than two |
| ByteOrder.FieldsSurvive | libs/libzina/attachments/utilities.cpp:27-147 | any sequence of fields stored and loaded in order comes back, and loading stops where storing did |
| ByteOrder.Cursor.StoreFields | libs/libzina/attachments/utilities.cpp:90-147 | the stores one after the other write the fields' bytes in order and touch nothing else |
| ByteOrder.Cursor.LoadFields | libs/libzina/attachments/utilities.cpp:27-88 | the loads one after the other return the fields and leave the pointer before the rest |
| ByteOrder.Cursor.StoreThenLoad | libs/libzina/attachments/utilities.cpp:27-147 | storing any fields and loading their kinds from the same place returns them, with both pointers at the same end |
| ByteOrder.UpperHalfComesFirst | libs/libzina/attachments/utilities.cpp:109-140 | network byte order: at every width the upper half of a number is stored before the lower |
| ByteOrder.ValuesSurvive | libs/libzina/attachments/utilities.cpp:46-140 | the loads invert the stores for every 16, 32 and 64-bit value |
| ByteOrder.Cursor.Store64 | libs/libzina/attachments/utilities.cpp:109-122 | eight bytes, most significant first, the rest of the buffer unchanged, the pointer behind them |
| ByteOrder.Cursor.Store32 | libs/libzina/attachments/utilities.cpp:124-132 | the same for four bytes |
| ByteOrder.Cursor.Store16 | libs/libzina/attachments/utilities.cpp:134-140 | the same for two bytes |
| ByteOrder.Cursor.Store8 | libs/libzina/attachments/utilities.cpp:142-147 | the same for one byte |
| ByteOrder.Cursor.StoreArray | libs/libzina/attachments/utilities.cpp:90-97 | the array is copied whole |
| ByteOrder.Cursor.StorePad | libs/libzina/attachments/utilities.cpp:99-106 | the padding fills exactly its length |
| ByteOrder.Cursor.Load64 | libs/libzina/attachments/utilities.cpp:46-60 | the value of the eight bytes at the pointer, which moves behind them |
| ByteOrder.Cursor.Load32 | libs/libzina/attachments/utilities.cpp:62-69 | the same for four bytes |
| ByteOrder.Cursor.Load16 | libs/libzina/attachments/utilities.cpp:72-79 | the same for two bytes |
| ByteOrder.Cursor.Load8 | libs/libzina/attachments/utilities.cpp:81-88 | the same for one byte |
| ByteOrder.Cursor.LoadArray | libs/libzina/attachments/utilities.cpp:27-43 | refuses, without moving, exactly when a given limit would be passed |
| AppRepository.RunIsSound | libs/libzina/appRepository/AppRepository.cpp:417-804 | over every run event numbers are distinct within a conversation, positive and below its next number, and foreign keys hold |
| AppRepository.NextNumberMovesExactlyWhen | libs/libzina/appRepository/AppRepository.cpp:1199-1227 | exactly which operations move a next number; a second store and a refused insert do not |
| AppRepository.NumbersAreConsecutive | libs/libzina/appRepository/AppRepository.cpp:573-610 | while a conversation lives, its events get consecutive numbers, never one twice, whatever is deleted |
| AppRepository.EventsKeepTheirNumber | libs/libzina/appRepository/AppRepository.cpp:612-632 | a stored event keeps its number through every run, updates included |
| AppRepository.InsertOutcome | libs/libzina/appRepository/AppRepository.cpp:573-610 | when an insert succeeds, which number and data result, that no other event, object or conversation changes, and that a refused one changes nothing |
| AppRepository.ConversationGoesExactlyWhen | libs/libzina/appRepository/AppRepository.cpp:500-518 | a conversation can be deleted exactly when it has no events |
| AppRepository.EventGoesExactlyWhen | libs/libzina/appRepository/AppRepository.cpp:764-783 | an event can be deleted exactly when it has no objects |
| AppRepository.EventsGoExactlyWhen | libs/libzina/appRepository/AppRepository.cpp:785-804 | a conversation's events go together, or none when one has an object |
| AppRepository.BetweenAnswers | libs/libzina/appRepository/AppRepository.cpp:713-716 | the recursive row list is the answer to the ordered query: the matching rows, each once, numbers falling |
| AppRepository.PageSplits | libs/libzina/appRepository/AppRepository.cpp:730-737 | behind a page come exactly the rows below its last number |
| AppRepository.PagingListsEveryEventOnce | libs/libzina/appRepository/AppRepository.cpp:713-762 | paging from the youngest with any page size ends, and lists every event once in descending order, as one call for all does |
| AppRepository.StartIsDocumentedExactlyWhen | libs/libzina/appRepository/AppRepository.cpp:730-734 | for which highest numbers and page sizes an offset of -1 starts where it is documented to |
| AppRepository.DocumentedStartLeavesOutNewest | libs/libzina/appRepository/AppRepository.h:230-234 | the documented start is below the code's and would leave out the newest event |
| AppRepository.OldestFirstMeaning | libs/libzina/appRepository/AppRepository.cpp:738-742 | a page from the oldest has rising numbers from the offset on, leaves out only younger events, and only when it is full |
| RepositoryReads.StoreOutcome | libs/libzina/appRepository/AppRepository.cpp:417-447 | storing gives the conversation exactly the data, keeps its next number (1 if new), always succeeds, and touches nothing else |
| RepositoryReads.OperationFailsExactlyWhen | libs/libzina/appRepository/AppRepository.cpp:417-973 | which operations are refused, and that a refused one changes nothing |
| RepositoryReads.ReadsFollowWrites | libs/libzina/appRepository/AppRepository.cpp:417-973 | after any run every conversation, event and object reads as the operations that were not refused last wrote it, or is gone once they deleted it |
| RepositoryReads.LastStoreIsRead | libs/libzina/appRepository/AppRepository.cpp:417-473 | over every run a conversation has the data of its last store since it was last deleted |
| RepositoryAccess.Repository.StoreConversation | libs/libzina/appRepository/AppRepository.cpp:417-447 | update, then insert-or-ignore: the data is the given one, other conversations stay, and it always succeeds |
| RepositoryAccess.Repository.DeleteConversation | libs/libzina/appRepository/AppRepository.cpp:500-518 | the statement under the foreign keys; soundness kept |
| RepositoryAccess.Repository.GetHighestMsgNum | libs/libzina/appRepository/AppRepository.cpp:550-571 | no event of the conversation has a larger number, the next new event gets the one behind it, and -1 means no conversation |
| RepositoryAccess.Repository.GetNextSequenceNum | libs/libzina/appRepository/AppRepository.cpp:1199-1227 | returns the next number and moves it on, or -1 |
| RepositoryAccess.Repository.InsertEvent | libs/libzina/appRepository/AppRepository.cpp:573-610 | the transaction with its rollback is atomic; soundness kept |
| RepositoryAccess.Repository.UpdateEvent | libs/libzina/appRepository/AppRepository.cpp:612-632 | replaces data, never the number |
| RepositoryAccess.Repository.LoadConversation | libs/libzina/appRepository/AppRepository.cpp:449-473 | the data, exactly when there is a row |
| RepositoryAccess.Repository.LoadEvent | libs/libzina/appRepository/AppRepository.cpp:634-660 | data and number, exactly when there is a row |
| RepositoryAccess.Repository.LoadEvents | libs/libzina/appRepository/AppRepository.cpp:721-762 | the data of exactly the selected rows in order, and the last row's number or the caller's own when there is none |
| RepositoryAccess.Repository.DeleteEvent | libs/libzina/appRepository/AppRepository.cpp:764-783 | the statement under the foreign keys; soundness kept |
| RepositoryAccess.Repository.DeleteEventName | libs/libzina/appRepository/AppRepository.cpp:785-804 | the same for all events of a conversation |
| RepositoryAccess.Repository.InsertObject | libs/libzina/appRepository/AppRepository.cpp:807-833 | insert-or-replace under the key (object, event), refused without the event |

## Left out

- Registers.ReplicasConverge: not without its premise that clocks and ids determine updates; the code breaks it, see Premises.
- Registers.Received: a received id shorter than eight bytes, of which the source stores eight bytes regardless, keeps its length here.
- GroupDevice.GroupDevice.ProcessUpdate: one method stands for the three functions for name, avatar and burn time, which differ only in the column they write; payloads of all three share one type.
- GroupDevice.GroupDevice.PrepareChangeSetSend: member rows come back in an order the store chooses, so the contract holds for whatever rows it returns; it does not name the order.
- GroupDevice.GroupDevice.CreateChangeSetDevice: that at most one pending set per group exists is its precondition; `GroupRuns.AtMostOnePendingSet` shows that every run meets it.
- GroupDevice.GroupDevice.GroupUpdateSendDone: as in the source, updateInProgress stays set when the group has no current set; nothing is claimed about sends that follow.
- MemberAgreement.MembersAgreeExactlyWhen: without an older pending set of the group, as `MemberAgreement.RemovalsAgreeExactlyWhen`; with one, `WaitRecords.UnacknowledgedNamesAreCarriedOver` says what joins.
- WaitRecords.AllAcksCollectPendingSet: not when a newer send of the group begins meanwhile, which replaces the pending set.
- CommandQueue.SignalledCallMayReturn: says that the flag is up, not that the caller is woken. Re-key and re-scan callers share one condition variable of which one waiter is notified.
- CommandHandling.RescanUserDevicesCommand: the number of hellos is a parameter of the device; what performGroupHello puts into them is not modelled.
- GroupDevice.GroupDevice.GetCurrentGroupChangeSet: the ACTIVE attribute of a group, which is set on insertion and cleared only when deleting the group or its members fails.
- GroupDevice.GroupDevice.EditChangeSet: the same attribute.
- ReplyCollection.AllRepliesCollectExactlyWhen: not for a group that is left during its send and missing at the finish with records made since; and no edits of the set between two devices of the send.
- ReplyCollection.EarlyRepliesLeaveSetPending: no edits between two devices either.
- WaitRecords.SendLocksUpExactlyWhen: no edits between two devices of a send, which the source allows.
- NewMembers.NewMemberLearns: no edits between two devices of a send.
- CarryOver.UnacknowledgedNamesReachNextSend: no edits between two devices of either send, and no other send of the group between the two.
- Sends.EveryDeviceIsServedTheEdits: no edits between two devices of a send.
- CommandHandling.CommandThread.AddMsgInfosToRunQueue: the two regions follow each other undisturbed; that steps between them do no harm is `CommandQueue.StartedStays`, and what every interleaving keeps is in the runs of `CommandQueue`.
- CommandHandling.CommandThread.AddMsgInfoToRunQueue: the same.
- CommandHandling.ReKeyDeviceCommand: resetting and storing the conversation is reduced to its flags; the keys themselves are not modelled.
- RepositoryAccess.Repository.InsertEvent: the next number is unbounded; the source's 32-bit counter overflows after 2^31 - 1 inserts into one conversation.
- RepositoryAccess.Repository.LoadEvents: offset + number - 1 is not reduced to 32 bits.
- AppRepository.PagingListsEveryEventOnce: no events are inserted or deleted between two pages.
- Base64.Encode: the two tables are given by their ranges, lengths are unbounded, and null pointers are not modelled.
- SQL failures, member counts and group size, and time columns.
- JSON and protocol-buffer encoding, and the hexadecimal decoding of device ids: the first sixteen hex digits stand for the eight bytes.
- performGroupHello and its wait records, which file the burn update under the avatar type.
- Callbacks to the user interface other than the two member lists.
- Lists that share a user once a send has begun: member rows and carried-over names are added without clearing the opposite list.
- Errors between preparing and finishing a send, and overlapping sends of two groups.
- Objects of the repository across conversations: their key omits the conversation, so a replace can move an object from one to another.
- The attachment status and data-retention tables, listConversations, and loading objects.
- Stopping the command thread, and what sending and receiving commands do beyond the queue.
- Random numbers, ratchets and encryption, HTTP and S3, provisioning, pre-keys, logging, and the user interfaces.
