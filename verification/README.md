# What the chat client's group and contact logic keeps

A Dafny model of the client's protocol logic in `crates/kutup-chat-core`: what a device accepts, who
gets which copy of a message, what is newest, and when something is tried again. Signatures and hashes
are functions no two inputs share; the home, the servers and the other devices answer anything at all;
the store is a map. What is left are state machines, merges, bounded loops and arithmetic, and those
are modelled branch by branch. Where the source updates something in place the model is a class whose
methods do, each proved to make of its state what a function says, and the lemmas are about that
function: for every input, every answer and every run.

Check it with `dafny verify dfyconfig.toml`.

| file | what it models |
|---|---|
| `HeldPen.dfy` | envelopes held for a group, and who gives one up when it is full |
| `CatchUps.dfy` | when a group may be caught up again for incoming content |
| `GroupGate.dfy`, `GroupTimeline.dfy` | accepting, refusing or holding content; the same over every run of home, device and clock |
| `ContactList.dfy`, `ContactListTransport.dfy`, `ContactListSync.dfy` | the account's contact list, requests to it that others come between or that get lost, and a device that keeps its contacts in it |
| `ContactListRounds.dfy`, `ContactListWorld.dfy` | several devices: rounds that converge, and every interleaving of their requests |
| `ContactChanges.dfy` | how the devices come to their records of a contact, and which states may stand at one order |
| `LegStates.dfy`, `DeliveryRound.dfy`, `GroupDelivery.dfy` | a group message's legs: one turn, one round, passes over the outbox |
| `Batches.dfy`, `SealedBatches.dfy` | cutting a server's submissions into batches, and whose answer is whose |
| `GroupChain.dfy`, `GroupSync.dfy`, `GroupRuns.dfy` | the verified chain of a group, reading the home's log, and every run of a record |
| `HomeTimeline.dfy` | what reading the log comes to, as the answers of the runs in `GroupTimeline.dfy` |
| `JoinEpochs.dfy` | joining again: epochs, pseudonyms and the claim loop |
| `SenderKeys.dfy` | who has this device's sender key |
| `RepairLimits.dfy` | once-an-hour limits across tabs and reloads |
| `Endorsements.dfy` | the endorsements a group's record keeps, and reading them |
| `Outbox.dfy` | passes over the messages to single accounts |
| `CivilClock.dfy` | an instant as a date and as text |
| `BanPadding.dfy` | padding of a sealed ban list |

Where a promise does not hold of the code, the code is modelled as it is, a lemma gives the input, and
another says exactly when the promise holds:

- A current member's content is never refused, except when it is received in the very millisecond a
  catch-up to the latest began: the moment kept of a catch-up is taken before the home is asked
  (`SameMillisecondIsRefused`, `RefusedExactly`).
- What the contact list says never falls, except over an entry removed to make room and made anew since
  the writing device read the list: the server starts such an entry over at its first revision, so a
  stale write can undo a block (`AStaleWriteUndoesABlock`, `FallsExactly`).
- Devices that converge agree on the order of a contact, and on its state whenever that order names a
  device (`NamedChangesAgree`); a message sent from another device of the account makes a change that names
  none (`OneOrderTwoStates`, `TwoStatesStay`), and then they agree exactly when those at the greatest order
  start with one state for it (`StatesAgreeExactly`).
- A stranger's arrival costs a member's envelope exactly when the sender asked for one turned from
  stranger to member in the pass (`AChangedStandingCostsAMember`, `ArrivalCostsExactly`).
- A key may come to a device that has left exactly when it was queued for that device, or lost sight of,
  and not stored, so that leaving does not make the key be replaced (`QueuedKeyOutlivesMembership`,
  `HoldersAreCurrentExactly`, `TheQueueTells`).
- A group refresh is answered exactly when it was not asked for within the hour, so asking again puts
  the answer off (`AskingAgainPutsItOff`, `RefreshExactly`, `NeverAnsweredAgain`).
- Messages to one account keep their order exactly when none is sent at once past one that waits
  (`SendingNowOvertakes`, `OrderKeptExactly`).
- A date's text sorts as its instant does only to the year 9999 (`TextOrderEndsWith9999`,
  `ShapedExactly`).

## Model

| member | source | states |
|---|---|---|
| `HeldPen.HeldEnvelopes.Keep` | crates/kutup-chat-core/src/group_gate.rs:78-136 | one offered envelope is held, dropped, or held in place of another, in its own group only; the choice is what the lemmas below are about |
| `HeldPen.VictimIsLastGreatest` | crates/kutup-chat-core/src/group_gate.rs:108-122 | who gives one up is the last of the greatest among those who may be asked, strangers before members, then the larger holding; nobody exactly when none may be asked |
| `HeldPen.PassLosesNothing` | crates/kutup-chat-core/src/group_gate.rs:72-136 | over any pass every envelope that waited or arrived is exactly one of waiting, dropped, given up |
| `HeldPen.PassStaysWithin` | crates/kutup-chat-core/src/group_gate.rs:78-136 | over any pass in which a sender's standing does not change: at most 256 waiting, 32 of a member, 8 of a stranger |
| `HeldPen.PassIsBounded` | crates/kutup-chat-core/src/group_gate.rs:78-136 | even when standings change: at most 256 waiting, 32 of any sender |
| `HeldPen.StrangersTakeNoMembersRoom` | crates/kutup-chat-core/src/group_gate.rs:106-118 | a stranger's arrival never lowers how many members' envelopes wait, nor does a member's while a stranger has one |
| `HeldPen.ArrivalCostsExactly` | crates/kutup-chat-core/src/group_gate.rs:92-122 | exactly when an arrival costs the members an envelope: a stranger's below its limit, to a full pen, whose victim's newest envelope is a member's; that victim was a stranger on an earlier arrival |
| `HeldPen.AChangedStandingCostsAMember` | crates/kutup-chat-core/src/group_gate.rs:46-57 | a full pen in which that happens |
| `HeldPen.EvictionEvensOut` | crates/kutup-chat-core/src/group_gate.rs:101-122 | a replacement among senders of one standing strictly lowers the sum of the squares of the senders' counts |
| `HeldPen.MemberDroppedOnlyWhenShared` | crates/kutup-chat-core/src/group_gate.rs:92-122 | a fresh envelope of a member below its limit is dropped exactly when the pen is full of members' envelopes and nobody holds more than one more than it, so at least 256 / (its own + 1) members share the pen |
| `HeldPen.DroppedExactly` | crates/kutup-chat-core/src/group_gate.rs:92-122 | for either standing: a fresh envelope below its sender's limit is dropped exactly when the pen is full and nobody may be asked for one |
| `CatchUps.Spacing` | crates/kutup-chat-core/src/group_gate.rs:224-232 | consecutive catch-ups of a group are at least two seconds apart, ten unless the later is for news, and the whole back-off after a failed one |
| `CatchUps.NewsIsBounded` | crates/kutup-chat-core/src/group_gate.rs:234-240 | catch-ups for news ask strictly further each time, so from any moment of a history on there are no more than the revisions held and the window of 64 past them |
| `CatchUps.CatchUpsAreBounded` | crates/kutup-chat-core/src/group_gate.rs:210-240 | a closed bound on a group's catch-ups in any stretch of its history, whoever writes what: one, one for every ten seconds, and one for each revision in reach not asked for before |
| `CatchUps.FailuresBackOff` | crates/kutup-chat-core/src/group_gate.rs:150-154 | failed catch-ups in a row, wherever in a history they begin, wait for the doubling back-off, capped at a quarter of an hour: at most eight, and one for each quarter |
| `GroupGate.GateExactly` | crates/kutup-chat-core/src/group_gate.rs:257-295 | each answer of the gate exactly when: accepted only of a confirmed member, refused only of a stranger, asked about at most at the first reading |
| `GroupGate.ContentGate.CatchUpForContent` | crates/kutup-chat-core/src/group_gate.rs:383-421 | what a catch-up leaves of the group's throttle and record, whatever the home answers |
| `GroupGate.ContentGate.DecideGroupContent` | crates/kutup-chat-core/src/group_gate.rs:480-530 | one reading of content, refused for a group this account is not in or a context that does not decode |
| `GroupGate.ContentGate.ReceiveGroupEnvelope` | crates/kutup-chat-core/src/group_gate.rs:568-646 | at most one catch-up for each content, and the error of asking twice is never given |
| `GroupTimeline.ReachableInv` | crates/kutup-chat-core/src/group_gate.rs:383-430 | over any interleaving of changes at the home, arrivals from anyone with any context or none, catch-ups and passes of the clock, what counts as caught up for honest content is level with it, but for one received in the millisecond that catch-up began |
| `GroupTimeline.RefusedExactly` | crates/kutup-chat-core/src/group_gate.rs:257-295 | in every reachable world, whatever else has arrived, exactly when a current member's content is refused |
| `GroupTimeline.NeverRefused` | crates/kutup-chat-core/src/group_gate.rs:257-295 | with an honest home, a current member's content is never refused, only accepted or held, with at most one catch-up, in every run in which none is received in that millisecond |
| `GroupTimeline.SameMillisecondIsRefused` | crates/kutup-chat-core/src/group_gate.rs:383-389 | the run in which that millisecond has an honest member's content refused |
| `GroupTimeline.AcceptedOnceReached` | crates/kutup-chat-core/src/group_gate.rs:588-646 | held content gets through: accepted once the home's answer reaches the latest and the member can be checked |
| `GroupTimeline.OnlyMembersAreAccepted` | crates/kutup-chat-core/src/group_gate.rs:257-295 | of whatever arrives, forged or unreadable too, nothing is accepted of anyone not in the state then held, and a stranger level with that state is refused |
| `GroupTimeline.HomeIsSpared` | crates/kutup-chat-core/src/group_gate.rs:210-240 | in any stretch of any run, whatever content comes from whomever, the home is asked no more than that bound allows |
| `HomeTimeline.CatchUpIsAnAnswer` | crates/kutup-chat-core/src/group_engine.rs:693-775 | what a catch-up with an honest home comes to is an answer of those runs: the record at a place of the chain as the last page found it, the latest exactly when that page says so |
| `ContactList.OrderIsTotal` | crates/kutup-chat-core/src/contact_list.rs:145-159 | the order of contact states is one total order |
| `ContactList.ListServer.StoreEntry` | crates/kutup-server/src/handlers/chat_contact_list.rs:151-206 | a write goes through exactly over the revision it started from and, for a new entry, with room; nothing else changes |
| `ContactList.ListServer.DeleteEntry` | crates/kutup-server/src/handlers/chat_contact_list.rs:223-258 | a removal goes through exactly at the revision read |
| `ContactList.Oldest` | crates/kutup-chat-core/src/contact_list.rs:540-566 | the oldest entry of a state, the first by id among the oldest; none exactly when there is none |
| `ContactListSync.ContactListDevice.EvictOneContact` | crates/kutup-chat-core/src/contact_list.rs:540-570 | the oldest rejection goes, or without any the oldest request sent; the list is read again when it has changed there; either request may have no answer |
| `ContactListSync.ContactListDevice.WriteContactEntry` | crates/kutup-chat-core/src/contact_list.rs:492-538 | all that one write may come to, whatever others make of the list between its requests and whichever of them are lost or have their answer lost; a full list makes room once |
| `ContactListSync.StoredIsCopied` | crates/kutup-chat-core/src/contact_list.rs:510-524 | a write counts as stored only when its answer says so, and is then in the device's copy |
| `ContactListSync.ContactListDevice.FlushContact` | crates/kutup-chat-core/src/contact_list.rs:449-490 | whatever others do to the list: no other contact is touched, this one never falls, and it is no longer due only when it is listed as it is, is the other person's request, or is a later version's to write; with nobody else at the list it is settled there |
| `ContactListSync.ContactListDevice.FlushContacts` | crates/kutup-chat-core/src/contact_list.rs:387-445 | whatever others make of the list between the requests, and at whichever request the pass breaks off: no contact is lost or falls, and only those due change, which are then due no more; undisturbed and with room, each of those due is written; a list found full is remembered, and only a whole pass over all that is due forgets it |
| `ContactListSync.ContactListDevice.SyncContactList` | crates/kutup-chat-core/src/contact_list.rs:571-678 | each contact is the list's where that is newer, and what the list lacks becomes due; nothing changes when the list can not be read |
| `ContactListRounds.RoundsConverge` | crates/kutup-chat-core/src/contact_list.rs:325-377 | from any state of any number of devices and the list, with room: a round of syncs, one of flushes and one of syncs bring the list to the greatest order that may be written, and every device to the list's, but one that holds a later request of the other person |
| `ContactListRounds.BlocksWinTies` | crates/kutup-chat-core/src/contact_list.rs:145-154 | so a block at the highest revision wins everywhere, whatever was accepted at that revision |
| `ContactListRounds.StatesAgreeExactly` | crates/kutup-chat-core/src/contact_list.rs:325-377 | exactly when they then agree on the state too: those that start at the greatest order that may be written have one state for it, the list's where the list is at it as well |
| `ContactListRounds.StatesConverge` | crates/kutup-chat-core/src/contact_list.rs:325-377 | so where each order has one state, every device ends with the list's state or a later request of the other person |
| `ContactListRounds.TiedStatesStay` | crates/kutup-chat-core/src/contact_list.rs:325-377 | devices that hold one order in different states keep them through any number of rounds |
| `ContactChanges.ActsOnlyRaise` | crates/kutup-chat-core/src/session.rs:1206-1306 | no act lowers a record, and one that changes it raises its revision by one |
| `ContactChanges.NamedOrdersHaveOneState` | crates/kutup-chat-core/src/session.rs:2020-2120 | whatever the account's devices do and learn of one another, an order that names a device stands for one state in every record there ever is |
| `ContactChanges.NamedChangesAgree` | crates/kutup-chat-core/src/contact_list.rs:325-377 | so after any history the rounds leave every device with the list's state, or a later request of the other person, when the greatest order that may be written names a device |
| `ContactChanges.OneOrderTwoStates` | crates/kutup-chat-core/src/session.rs:2095-2114 | one that names none may stand for two: what two devices do from no record at all that brings them to it |
| `ContactChanges.TwoStatesStay` | crates/kutup-chat-core/src/contact_list.rs:325-377 | and no number of rounds brings those two to one state |
| `ContactListWorld.EventKeepsInv` | crates/kutup-chat-core/src/contact_list.rs:278-323 | over any interleaving of several devices' requests and own changes, those at an equal revision too, each device's copy is the list as it was, but for entries removed since |
| `ContactListWorld.RecordsNeverFallInRuns` | crates/kutup-chat-core/src/contact_list.rs:449-490 | over any run, no device's own record of a contact is lost or falls |
| `ContactListWorld.FallsExactly` | crates/kutup-chat-core/src/contact_list.rs:492-538 | exactly when a write makes a listed entry fall in the order or overwrites one of a later version |
| `ContactListWorld.FallsOnlyAfterRemoval` | crates/kutup-chat-core/src/contact_list.rs:492-538 | that takes an entry removed, and made anew at the revision read, since the device read the list |
| `ContactListWorld.NoBlockMakesRoom` | crates/kutup-chat-core/src/contact_list.rs:540-570 | under the same condition no block is removed to make room |
| `ContactListWorld.ListedNeverFalls` | crates/kutup-chat-core/src/contact_list.rs:492-538 | over any run in which devices read the list after a removal, what is listed never falls while it stays listed, and a later version's entry is left as it is |
| `ContactListWorld.BlocksStay` | crates/kutup-chat-core/src/contact_list.rs:145-154 | over the same a listed block stays and what is listed never falls below it |
| `ContactListWorld.AStaleWriteUndoesABlock` | crates/kutup-server/src/handlers/chat_contact_list.rs:158-178 | without it a stale write undoes a block: the run, six requests of two devices |
| `LegStates.WaitsDouble` | crates/kutup-chat-core/src/group_send.rs:127-136 | a leg's wait starts at ten seconds, doubles each time, and stays at a quarter of an hour from the eighth on |
| `LegStates.AmendedCoversTheList` | crates/kutup-chat-core/src/group_send.rs:1409-1454 | after an amendment every listed device has a copy and every copy a listed device and registration; copies still good are kept, and only a device without one gets it pairwise |
| `LegStates.TurnProgress` | crates/kutup-chat-core/src/group_send.rs:763-902 | whatever the servers answer, a round leaves each leg done, waiting, or able to go again, with no more to go round with, and never undoes what is done |
| `LegStates.RoundLowers` | crates/kutup-chat-core/src/group_send.rs:763-902 | every round, for every answer (a 409 or 410 that names only some legs, or none, included), leaves strictly less to go round with |
| `LegStates.RoundsAreBounded` | crates/kutup-chat-core/src/group_send.rs:733-743 | without the limit of five a pass would end all the same, after at most 22 rounds for each leg |
| `LegStates.FailsExactly` | crates/kutup-chat-core/src/group_send.rs:795-902 | exactly when a round makes a leg fail: no limit, conflict, silence or error does |
| `LegStates.DeliveredExactly` | crates/kutup-chat-core/src/group_send.rs:817-831 | a leg counts as delivered exactly on its server's word that it is stored |
| `DeliveryRound.Delivery.Wait` | crates/kutup-chat-core/src/group_send.rs:127-136 | the leg after a wait, the doubling computed step by step |
| `DeliveryRound.Delivery.DeliverMulti` | crates/kutup-chat-core/src/group_send.rs:915-1309 | the loops over servers, expirations and answers leave every leg, the legs to go again and what was learned as each leg's own turn says |
| `DeliveryRound.Delivery.DeliverRound` | crates/kutup-chat-core/src/group_send.rs:763-902 | a round over both routes does to each leg exactly its own turn, against the entry as it was; each leg once in the next round |
| `DeliveryRound.BothRounds` | crates/kutup-chat-core/src/group_send.rs:777-797 | the legs of one route do not disturb those of the other |
| `GroupDelivery.GroupOutbox.DeliverGroupEntry` | crates/kutup-chat-core/src/group_send.rs:686-755 | a pass leaves the entry as five rounds at most make it, and learns what they told, round after round; delivered, pending and failed add up to the legs |
| `GroupDelivery.OneBookAfterPass` | crates/kutup-chat-core/src/group_send.rs:1361-1403 | whatever order a round's answers are told in, a pass leaves one sender-key book: only the order of the rounds counts |
| `GroupDelivery.GroupOutbox.SaveGroupEntry` | crates/kutup-chat-core/src/group_send.rs:1459-1492 | what is stored and shown, ciphertexts gone once no leg is left |
| `GroupDelivery.GroupOutbox.FlushGroupOutbox` | crates/kutup-chat-core/src/group_send.rs:1530-1556 | every message is tried once; one that can not go holds up no other |
| `GroupDelivery.CountsAddUp` | crates/kutup-chat-core/src/group_send.rs:744-754 | the summary's subtraction never goes below zero: delivered, failed and pending are all the legs |
| `GroupDelivery.PassKeeps` | crates/kutup-chat-core/src/group_send.rs:686-755 | a pass brings every leg onward and loses none: one not done waits for a moment or can go at once |
| `GroupDelivery.TriesKeep` | crates/kutup-chat-core/src/group_send.rs:686-755 | over any number of passes a leg done stays done as it was, only what is done has failed, and none gets more to go round with |
| `GroupDelivery.AfterTheWeekAllDone` | crates/kutup-chat-core/src/group_send.rs:711-725 | past the week every leg is done in one pass |
| `GroupDelivery.ShownExactly` | crates/kutup-chat-core/src/group_send.rs:1459-1492 | a message waits for nobody exactly when this account's server has it for every member not done; it has failed for nobody exactly when no leg has |
| `Batches.BatchChunks` | crates/kutup-chat-core/src/group_send.rs:1642-1663 | the cut with its running size is that of the lemmas below: the items in order, feasible, and no other cut has fewer |
| `Batches.CutIsLeast` | crates/kutup-chat-core/src/group_send.rs:1642-1663 | the chunks are the items in order, each of at most 64 and within the byte limit unless a single item, and no such cut has fewer |
| `Batches.EagerIsUnique` | crates/kutup-chat-core/src/group_send.rs:1649-1658 | the only cut in which no item starts a chunk the one before had room for |
| `SealedBatches.SendSealedBatches` | crates/kutup-chat-core/src/group_send.rs:1562-1616 | each valid submission has exactly what its own server's batch brought it, in its place; one that goes nowhere has nothing |
| `SealedBatches.OnlyItsOwnAnswer` | crates/kutup-chat-core/src/group_send.rs:1589-1613 | an outcome comes only from the submission's own server, in an answer of as many results as items, from the result in its place that names its account and send |
| `SealedBatches.ItemsToAre` | crates/kutup-chat-core/src/group_send.rs:1566-1586 | every submission that can go is one item of its own server's, and no other's |
| `GroupChain.GroupRecord.AcceptChange` | crates/kutup-chat-core/src/group.rs:942-993 | a change is taken exactly as the acceptance lemmas say, or the record is left as it was |
| `GroupChain.GroupRecord.AcceptState` | crates/kutup-chat-core/src/group.rs:1001-1059 | the same of a whole state |
| `GroupChain.AcceptedIsNext` | crates/kutup-chat-core/src/group.rs:942-993 | an accepted change is the very next of the chain, linked to the head held, notarised with the state this device computed, by an identity no older than the last |
| `GroupChain.AcceptedStateIsLater` | crates/kutup-chat-core/src/group.rs:1001-1059 | a whole state is only taken by a device that is joining, takes it strictly further, and has this account as a member |
| `GroupChain.HeadIsHistory` | crates/kutup-chat-proto/src/group/check.rs:187-240 | two chains that come to one head are the same, change by change |
| `GroupChain.ForkExactly` | crates/kutup-chat-core/src/group.rs:1078-1092 | a message's context says exactly how the sender's history stands to this device's: current is the same history and state, a fork two histories of one length |
| `GroupChain.StoreNeverGoesBack` | crates/kutup-chat-core/src/group.rs:372-406 | however many writers store a record, the store never goes back, drops a verified state, or takes another at one revision |
| `GroupRuns.FirstRecordIsSound` | crates/kutup-chat-core/src/group.rs:454-508 | every record a device comes to, by creating a group, from the list, by recovery, an invitation or a link, is one such a run may begin with |
| `GroupRuns.RunNeverGoesBack` | crates/kutup-chat-core/src/group.rs:622-700 | over any run of changes, whole states, rejoins, links, claims and refusals, against any home: revision and notary sequence only move forward, and the store takes every record |
| `GroupSync.GroupEngine.SyncGroup` | crates/kutup-chat-core/src/group_engine.rs:682-789 | against any home: at most 256 pages, each asked from one past the revision held, the record a replay of exactly what was read; current only after a page with nothing more; partial only after all 256 |
| `GroupSync.GroupEngine.SaveGroup` | crates/kutup-chat-core/src/group_engine.rs:153-161 | a write of a record goes through exactly when it does not take the stored one back |
| `GroupSync.GroupEngine.TakeNotFound` | crates/kutup-chat-core/src/group_engine.rs:802-814 | a "not found" makes the group gone exactly once it has lasted a week |
| `GroupSync.GroupEngine.TakeWholeState` | crates/kutup-chat-core/src/group_engine.rs:816-872 | current only with the state the home served, accepted and stored; otherwise the record is as it was |
| `GroupSync.CurrentIsTheWholeLog` | crates/kutup-chat-core/src/group_engine.rs:693-775 | against an honest home, wherever it cuts its pages, which shows a member the log only from where it joined and whose log may grow between pages: current means a replay of the whole log as the last page found it |
| `GroupSync.JoinedLaterTakesNothing` | crates/kutup-server/src/chat_groups/gateway.rs:1024-1055 | a record from before its account joined anew gets nothing from such a log: only a whole state takes it on |
| `GroupSync.NextOfLogIsTaken` | crates/kutup-chat-core/src/group.rs:958-993 | a change of an honest log is taken exactly when its notary is the home's over the state the chain comes to |
| `JoinEpochs.StartIsTheLeast` | crates/kutup-chat-core/src/group.rs:634-647 | a join starts at the least epoch past every ended membership's, here or listed, and not below a current one's, or is refused when none below 64 is |
| `JoinEpochs.JoiningNeverGoesBack` | crates/kutup-chat-core/src/group.rs:679-700 | a new record keeps the verified state and its notary, has a pseudonym the ended membership did not have, and is one the store takes |
| `JoinEpochs.LastClaimIsLeastUnused` | crates/kutup-chat-core/src/group_invite.rs:144-182 | against a home with any used pseudonyms, the last claim is at the least unused epoch from the start, or all up to 63 are used |
| `JoinEpochs.Joining.Claim` | crates/kutup-chat-core/src/group_invite.rs:144-182 | the loop claims at each epoch from the start to that one, once, at most 64 less the start in all, and each move is saved first |
| `JoinEpochs.Joining.ClaimGroupInvite` | crates/kutup-chat-core/src/group_invite.rs:105-182 | the claims start past an ended membership's epoch the list names; the limit is reached exactly when every epoch from there is used |
| `CivilClock.FieldsAreTheInstant` | crates/kutup-chat-core/src/clock.rs:31-51 | for every count of milliseconds the fields are a valid Gregorian date and time whose day number, counting years and months one by one, is the input's |
| `CivilClock.FieldsAreUnique` | crates/kutup-chat-core/src/clock.rs:31-51 | and the date and time of an instant is that instant's: the two undo each other |
| `CivilClock.FieldsKeepOrder` | crates/kutup-chat-core/src/clock.rs:31-51 | dates and times, field by field, follow one another exactly as the instants do |
| `CivilClock.ShapedExactly` | crates/kutup-chat-core/src/clock.rs:45-50 | the text has the form of section 5.6 of RFC 3339 exactly for the instants of the years 0000 to 9999 |
| `CivilClock.TextKeepsOrder` | crates/kutup-chat-core/src/clock.rs:45-50 | within those years it sorts exactly as the instants do |
| `CivilClock.TextOrderEndsWith9999` | crates/kutup-chat-core/src/clock.rs:45-50 | past them it does not: the first instant of the year 10000 sorts before the one it follows |
| `SenderKeys.KeyKeeper.DistributeSenderKey` | crates/kutup-chat-core/src/group_send.rs:258-395 | what is handed to whom, and the book after the servers' answers; a failure to seal changes nothing |
| `SenderKeys.KeyKeeper.SettleQueuedKeys` | crates/kutup-chat-core/src/group_send.rs:1361-1403 | the book after what a pass learned, item by item |
| `SenderKeys.ToldInAnyOrder` | crates/kutup-chat-core/src/group_send.rs:1372-1395 | what is told of different accounts leaves one book in whatever order and however often |
| `SenderKeys.KeyIsCurrentAtEncryption` | crates/kutup-chat-core/src/group.rs:198-202 | whatever came before, each device the book has as holding the key at an encryption is one the message goes to, under that registration, and the key is under 90 days old; a key that may be kept is |
| `SenderKeys.HandedExactly` | crates/kutup-chat-core/src/group.rs:205-217 | the key is handed to exactly the current devices that neither hold it nor had it queued within the hour |
| `SenderKeys.HandOutIsRemembered` | crates/kutup-chat-core/src/group_send.rs:341-391 | a hand-out its server stored or queued is in the book after it, unless the account's devices were said to have changed in the same |
| `SenderKeys.NotHandedTwice` | crates/kutup-chat-core/src/group_send.rs:341-391 | a key a hand-out brought to a device is not handed to it again within the hour, and once stored never, over any history of hand-outs, passes and repairs that keeps the key and says nothing of changed devices |
| `SenderKeys.QueuedKeyOutlivesMembership` | crates/kutup-chat-core/src/group.rs:194-202 | two hand-outs after which a device that only had the key queued, and left, may yet have the key of the next message |
| `SenderKeys.HoldersAreCurrentExactly` | crates/kutup-chat-core/src/group.rs:194-202 | over any history, repairs the book does not enter included, exactly when every device the key may have come to is one the message goes to: the key is replaced, or no device has left that it was only queued for or that the book lost sight of |
| `SenderKeys.TheQueueTells` | crates/kutup-chat-core/src/group.rs:194-202 | where the book lost sight of none, that is exactly when the key is replaced or no device in its queue has left |
| `RepairLimits.RepairEngine.LoadRepairLimits` | crates/kutup-chat-core/src/engine.rs:2402-2416 | loading leaves each key's latest moment of this tab's and the store's |
| `RepairLimits.RepairEngine.MayTryRecovery` | crates/kutup-chat-core/src/group_recover.rs:179-196 | one try: allowed or not, and the limits after it here and in the store |
| `RepairLimits.RepairEngine.ResendMessage` | crates/kutup-chat-core/src/engine.rs:2482-2527 | one message asked for again: recorded before it goes, the record undone when it fails |
| `RepairLimits.MergeIsLatest` | crates/kutup-chat-core/src/engine.rs:2402-2416 | merging is a pointwise maximum: in any order, any number of times |
| `RepairLimits.OnceAnHour` | crates/kutup-chat-core/src/engine.rs:2402-2446 | however tabs take turns and reload, two recoveries of a group, resends of a message to a peer that went, resets of a session, or answers to a device's refresh are at least an hour apart |
| `RepairLimits.TenRecoveriesAnHour` | crates/kutup-chat-core/src/group_recover.rs:179-196 | in no stretch of under an hour are more than ten recoveries tried, by all tabs together |
| `RepairLimits.RepairEngine.MayAnswerGroupRefresh` | crates/kutup-chat-core/src/group_heal.rs:224-242 | one request for any list of keys: what is answered of each, and the limits after it here and in the store |
| `RepairLimits.RefreshExactly` | crates/kutup-chat-core/src/group_heal.rs:224-242 | exactly which keys of a request are answered: those not noted within the hour, once each; all of them are noted, answered or not |
| `RepairLimits.AskingPutsOff` | crates/kutup-chat-core/src/group_heal.rs:224-242 | over any run, a key asked for is not answered by that tab within the hour, whenever it was last answered |
| `RepairLimits.NeverAnsweredAgain` | crates/kutup-chat-core/src/group_heal.rs:224-242 | so a device that keeps asking, each time within the hour, is never answered again |
| `RepairLimits.AskingAgainPutsItOff` | crates/kutup-chat-core/src/group_heal.rs:224-242 | the three requests of a device that is refused a hundred minutes after its only answer |
| `Endorsements.NewestTwoAreKept` | crates/kutup-chat-core/src/group_endorse.rs:199-209 | whatever is offered for a member in whatever order, what is kept is exactly the newest two distinct expirations, sorted, each as last offered |
| `Endorsements.GroupEndorsements.SharedExpiration` | crates/kutup-chat-core/src/group_endorse.rs:176-195 | exactly the greatest expiration all the accounts hold a usable endorsement of; none exactly when there is none |
| `Endorsements.GroupEndorsements.Read` | crates/kutup-chat-core/src/group_endorse.rs:474-611 | a read with any pages and servers that do not answer loses nothing, never lowers the cursor, takes every item of every page, puts a blob off exactly when a check of one of its server's, it or one before it in this read, got no answer, and leaves only what members hold and has not expired |
| `Endorsements.NoteKeeps` | crates/kutup-chat-core/src/group_endorse.rs:508-606 | a blob looked at is decided, settling what waited under its pseudonym and expiration, or is on the retry list, which has one for each such pair |
| `Endorsements.CheckedKeepsSilence` | crates/kutup-chat-core/src/group_endorse.rs:618-646 | one more check keeps it: the servers found unreachable are those of the checks without an answer, and each blob is kept, refused or put off accordingly |
| `Endorsements.OnlyTheSilentAreDeferred` | crates/kutup-chat-core/src/group_endorse.rs:618-646 | so in a read in which no check of a server's blobs goes unanswered, none of them is put off, whatever other servers do |
| `Endorsements.GoodIsHeld` | crates/kutup-chat-core/src/group_endorse.rs:570-600 | a blob that checks out is held from then on, unless two newer ones are |
| `Endorsements.GroupEndorsements.Forget` | crates/kutup-chat-core/src/group_endorse.rs:228-235 | a refused token's endorsement goes, and nothing else |
| `Outbox.MessageOutbox.FlushOutbox` | crates/kutup-chat-core/src/engine.rs:1703-1760 | the pass over the queue with its set of accounts waited for is that of the lemmas below |
| `Outbox.PassKeepsOrder` | crates/kutup-chat-core/src/engine.rs:1703-1760 | in every pass the messages tried for an account are the first of its queue, all delivered but perhaps the last |
| `Outbox.TriedExactly` | crates/kutup-chat-core/src/engine.rs:1709-1742 | exactly which entries a pass tries: controls and other accounts' failures never hold one up |
| `Outbox.DeliveredInOrder` | crates/kutup-chat-core/src/engine.rs:1692-1760 | over any number of passes each account's messages are delivered in the order written, each once and none lost, if none is sent at once past one that waits |
| `Outbox.OrderKeptExactly` | crates/kutup-chat-core/src/engine.rs:1692-1760 | and only then: a run of distinct messages keeps an account's order exactly when none was ever sent past one that waited |
| `Outbox.SendingNowOvertakes` | crates/kutup-chat-core/src/engine.rs:1640-1650 | one sent at once does overtake |
| `BanPadding.PadBanList` | crates/kutup-chat-core/src/group.rs:1352-1361 | the least bucket with room, filled with the plaintext, a marker and zeros; none exactly when it does not fit |
| `BanPadding.ReadsExactly` | crates/kutup-chat-core/src/group.rs:1364-1376 | what reads back is exactly what is padded to a bucket, as that plaintext and no other |
| `BanPadding.ReadUndoesPad` | crates/kutup-chat-core/src/group.rs:1345-1376 | reading undoes padding of everything that fits, so no two plaintexts are padded alike |
| `BanPadding.LengthSaysOnlyTheBucket` | crates/kutup-chat-core/src/group.rs:1345-1361 | the padded length says which bucket and nothing else |
| `BanPadding.LargerBucketsReadToo` | crates/kutup-chat-core/src/group.rs:1364-1376 | padding does not undo reading |

## Left out

- Cryptography, wire formats and storage: sealing, signatures, base64, JSON and the databases; what
  opens, verifies, parses or fails is a parameter, and a stored write is atomic.
- What happens between the awaits of one operation on a device: an operation's requests are answered by
  anything, but this device's own records do not change under it.
- The fork note, the nudge of a pending join request and the safety-number events: they show state and
  decide nothing that is modelled.
- The kept gateway key and its confirmation at the end of a catch-up: they change no verified state.
- The self-authority checks of members' manifests: whether a member is verified, not confirmable now or
  neither is a parameter of the gate.
- The actions of a group change: any function of the state and the change, with its revision, its
  predecessor, its group and its named result checked as the code does.
- Account identity, profiles, prekeys, call links, avatars, settings and the display of groups.
- The group list and invite links' own loops: easier twins of the contact list and of the claim loop.
- Message kinds and the limits of payloads; random moments are any value in their range.
- Machine integers that can not overflow here are unbounded: milliseconds divided into days, the sums of
  envelope sizes below the byte limit. Saturation and wrap-around where they matter are written out.
- LegStates.TurnProgress: one round's answers are fixed before the round, one for each question the
  round asks; an account's devices fetched twice in a round may differ between the two uses only.
- LegStates.RoundLowers: the clock is one moment for a whole pass, as it is in the source.
- GroupDelivery.TriesKeep: failures of the local store within a pass are not modelled.
- SealedBatches.SendSealedBatches: a batch's answer is a function of its server and items; each is sent
  once in a call.
- ContactListTransport.ListTransport.FetchContactList: a list that does not open or read is a request without an answer.
- ContactChanges.ActsOnlyRaise: the refusal of a revision past 64 bits is not modelled.
- ContactListRounds.RoundsConverge: the list has room; a full list is in ContactListSync and
  ContactListWorld, for which no convergence is claimed.
- GroupTimeline.NeverRefused: stated of content honestly sent, other content arriving in the runs; the
  pairwise path, silences and blocks are decided before the gate and not part of the run.
- GroupSync.GroupEngine.SyncGroup: the home's identity history is a set of sequences, and one answer of
  it serves the catch-up; a group's genesis is checked by a parameter, and the moment of the last
  catch-up is kept but not stated.
- JoinEpochs.Joining.ClaimGroupInvite: what follows a taken claim is GroupSync.GroupEngine.TakeWholeState.
- SenderKeys.KeyKeeper.DistributeSenderKey: the book's sorted list of devices is a set, and its list of
  queued keys a map by device.
- RepairLimits.OnceAnHour: tabs take turns, an operation reads the clock once, and the two kinds of
  limits share one map by key.
- Endorsements.GroupEndorsements.Read: within one read a blob is checked with one result, and who the
  verified members are does not change.
- Outbox.DeliveredInOrder: a message is written behind those already queued; one with an earlier written
  date is not modelled.
- CivilClock.ShapedExactly: stated for all integers, of which the source has those of 64 bits.
