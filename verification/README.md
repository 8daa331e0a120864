# Verified models of the device's partition updater and location core

This project models the parts of the repository that are state machines, protocols or data structures, and proves
what they keep. Each part has a model on values, on which the theorems are proved, and classes or in-place methods
with the fields, loops and updates of the C++ code, each proved to do what the model says.

- `Bytes`, `GptHeader`, `BootChain`, `GptDisk`, `GptCalls`, `GptUpdate`, `GptExample`: the failsafe update of the GUID
  partition table. The device is a byte string with two header blocks and two entry arrays; every block write is a step, any
  call may be cut at any write, and a cut write of more than one block leaves arbitrary bytes. The checksum is any
  function from bytes to 32-bit values. Field offsets are those of sections 5.3.2 and 5.3.3 of the UEFI
  Specification.
- `RankTree`, `LocHeap`: the rank heap, as a tree value and as linked nodes with exchanged data.
- `AgpsMachine`, `NativeAgps`, `AgpsAnswers`, `Agps`: the AGPS connection state machine, the closed loop with its
  native driver and a FIFO queue of answers, which requests it answers, and the machine and manager as objects that
  share subscriber objects.
- `HintProtocol`, `InteractionHandler`: the interaction hint protocol as interleaved steps of clients and worker, and
  the handler with one method for each critical section.
- `LocUnorderedSetMap`, `SubscriptionIndex`, `SystemStatusOsObserver`: the container, the subscription index over it,
  and the observer with one method for each message.
- `Estimator`, `GapFill`, `AdapterArray`, `NetworkTable`: the elapsed-realtime estimator, and the adapter array and
  the network handle table, which close gaps in the same way.

Assumptions that the code makes of its callers appear as preconditions: both headers describe one layout with
entries of 128 bytes and a header size from 92 to the block size; `ranks` is a total preorder with consistent signs;
times are normalized and do not run backwards; `duration + 650` does not overflow; a network handle
keeps its type and network types are known.

## What the code does that its comments do not say

- `LocUnorderedSetMap::update` hands back the values that old and new have in common, though its comment and those
  in `updateSubscription` speak of the values that are gone. The model follows the code, with the described update
  beside it: `SubscriptionIndex` proves that the two maps stay converse as described, and as coded exactly while no
  update finds its client with items. `RepeatedUpdateGoesDeaf` is a run that shows the effect. Notification needs
  less: it stays exact while no update names an item that its client wants already (`AlwaysHearsWantsIff`), so a
  change to other items does no harm (`ChangeStillHears`).
- A `requestData` that adds an item is not passed on to the framework; `RunTidy` says when the two differ.
- `removeAndReturnInterset` advances an iterator after erasing its element, and the public `trimOrRemove` reads the
  key of an erased entry. The model takes the evident meaning of both loops: every element is visited, and the key
  is recorded.
- A DENIED that reaches the AGPS machine in RELEASING is taken for the RELEASED that is still queued. From then on
  answers can trail the commands; `InStepIff` gives the exact condition and `TrailingAnswers` a run.
- Requests of type ANY, C2K and WIFI go to the internet machine, whose driver answers only WWAN_ANY. `requestATL`
  sets the type of the machine whatever its state, so such a request can also strand the release of a connection
  that is open. `AwaitingIff`, `SettlesIff` and `InStepIff` give the exact conditions over requests of every type;
  `JoiningStrandsTheRelease` is a run.
- A request for a handle that is listed as inactive is ignored by `addSubscriber`. In RELEASING, and in PENDING with
  no denial coming, it is told only of the close of its old connection: `AnsweredIff`, `AskingAgainIsOverlooked`.
- `LocHeap.h` says that `remove` looks for an object of the same rank; the code compares addresses.
- `Exit` leaves a held hint on: `ExitKeepsHint`.
- After a reset the first trusted fix is compared with a data time of zero, so it hardly ever keeps the rhythm; it
  starts the count either way, and `SixthIsReference` asks for the rhythm only after it.
- An adapter added to a full array is dropped without an error: `AlwaysHoldsAllIff`.
- The first cached network item is not collated, so a first event that is a disconnect leaves a phantom handle in
  the table (`OnePhantom`). While it holds a slot, a tenth connected handle finds none, and stays missing even
  after the phantom has gone, until it connects again (`PhantomCostsAHandle`). `AlwaysExactIff` gives the exact condition.

## Model

| member | source | states |
|---|---|---|
| `Bytes.PutOfGet` | gpt-utils/gpt-utils.cpp:90-107 | storing the four bytes that were read restores the buffer |
| `Bytes.PutBytes` | gpt-utils/gpt-utils.cpp:104-107 | stores a 32-bit value little-endian in place and touches no other byte |
| `Bytes.MemCpy` | gpt-utils/gpt-utils.cpp:255-262 | a copy puts exactly the source bytes at the destination and touches nothing else |
| `GptHeader.VariantState` | gpt-utils/gpt-utils.cpp:405-465 | a re-sealed header is never a checksum failure, and good exactly when its signature was kept |
| `GptHeader.SpoilVariant` | gpt-utils/gpt-utils.cpp:471-527 | setting BAD_SIGNATURE changes the signature and the header checksum and no other field |
| `GptHeader.MendVariant` | gpt-utils/gpt-utils.cpp:471-527 | setting OK restores the whole nine-byte signature and the checksum, whatever edits came before |
| `GptHeader.EntryCrcVariant` | gpt-utils/gpt-utils.cpp:355-366 | stamping a new entry-array checksum replaces the old one and only that |
| `GptHeader.SealOfValid` | gpt-utils/gpt-utils.cpp:361-366 | recomputing the checksum of a header that has the right one changes nothing |
| `GptHeader.SpoilMendIdentity` | gpt-utils/gpt-utils.cpp:471-527 | on a valid header set-state to BAD_SIGNATURE and back is the identity on every byte |
| `GptHeader.ChecksumCovers` | gpt-utils/gpt-utils.cpp:441-447 | two headers have the same checksum under every checksum function exactly when their sizes and all bytes up to the size, other than the checksum field, agree |
| `GptHeader.StateIgnoresTail` | gpt-utils/gpt-utils.cpp:441-447 | bytes past the header size do not change the state |
| `GptHeader.FieldDecidesCrc` | gpt-utils/gpt-utils.cpp:439-447 | a header is BAD_CRC exactly when its checksum field differs from its checksum, whatever its signature, and OK exactly when they agree and it carries the nine signature bytes |
| `GptHeader.EditedStates` | gpt-utils/gpt-utils.cpp:355-366 | on every header: spoiled it is BAD_SIGNATURE, mended it is OK, and with a new entry checksum it holds that and keeps the state its signature gives |
| `BootChain.MatchesOneName` | gpt-utils/gpt-utils.cpp:191-228 | no entry matches two separate names, with or without the backup suffix |
| `BootChain.SwapListSeparate` | gpt-utils/gpt-utils.h:82 | the listed names are pairwise separate: none is another, or another plus "bak" |
| `BootChain.VisitedSeparate` | gpt-utils/gpt-utils.cpp:238-246 | leaving out the xbl names on UFS keeps the visited names separate |
| `BootChain.VisitedIff` | gpt-utils/gpt-utils.cpp:238-246 | a pass visits a listed name exactly unless the device is UFS and the name begins with xbl |
| `BootChain.VisitedInOrder` | gpt-utils/gpt-utils.cpp:238-246 | it visits them in the order of the list |
| `BootChain.ShippedVisited` | gpt-utils/gpt-utils.h:82 | of the shipped names all are visited, but for xbl on UFS |
| `BootChain.PassExchanges` | gpt-utils/gpt-utils.cpp:230-271 | by the list and the untouched array alone: a pass exchanges the first two entries of every listed name that has two, xbl left out on UFS, and moves nothing else |
| `BootChain.TwinsAreListed` | gpt-utils/gpt-utils.cpp:230-271 | a pass finds a backup exactly when some listed name, other than xbl on UFS, has two entries |
| `BootChain.SwapMovesToPartner` | gpt-utils/gpt-utils.cpp:230-271 | a pass leaves at each position the entry of its partner, read off the untouched array: different names touch disjoint entries |
| `BootChain.PartnerInvolution` | gpt-utils/gpt-utils.cpp:230-271 | being partners is symmetric |
| `BootChain.SwapSameNames` | gpt-utils/gpt-utils.cpp:230-271 | after a pass every position still matches exactly the names it matched before |
| `BootChain.SwapPermutes` | gpt-utils/gpt-utils.cpp:230-271 | a pass is a permutation of the entries |
| `BootChain.SwapInvolution` | gpt-utils/gpt-utils.cpp:230-271 | two passes restore the entry array |
| `BootChain.SwappedTwice` | gpt-utils/gpt-utils.cpp:230-271 | the same on the bytes of the array |
| `BootChain.NoTwinsNoChange` | gpt-utils/gpt-utils.cpp:250-270 | when no visited name has a backup the array is unchanged |
| `BootChain.NameMatches` | gpt-utils/gpt-utils.cpp:205-222 | the byte-wise name test decides whether an entry is called the name or its backup form, for every entry, terminated or not |
| `BootChain.PentrySeek` | gpt-utils/gpt-utils.cpp:191-228 | returns the first matching entry at or after the start, or none |
| `BootChain.SwapEntries` | gpt-utils/gpt-utils.cpp:258-262 | exchanges two 128-byte entries in place |
| `BootChain.SwapListed` | gpt-utils/gpt-utils.cpp:246-265 | exchanges the first two entries of one name, and says whether there were two |
| `BootChain.BootChainSwap` | gpt-utils/gpt-utils.cpp:230-271 | the in-place pass exchanges exactly the first two entries of every listed name that has two, xbl left out on UFS, and returns 1, with the array unchanged, exactly when there is no such name |
| `GptDisk.PerformConcat` | gpt-utils/gpt-utils.cpp:143-189 | writes issued in two batches and cut anywhere behave as one list of writes cut at the same place |
| `GptDisk.PlanKeepsLayout` | gpt-utils/gpt-utils.cpp:747-927 | no write of any stage changes where either header says its table lies |
| `GptDisk.AfterChain` | gpt-utils/gpt-utils.cpp:287-390 | rebuilding the secondary table changes the secondary entries and their checksum and nothing else |
| `GptDisk.BlockDevice.BlkRead` | gpt-utils/gpt-utils.cpp:143-189 | reads exactly the addressed bytes |
| `GptDisk.BlockDevice.BlkWrite` | gpt-utils/gpt-utils.cpp:143-189 | performs one write, whole or cut when the device has used up its writes |
| `GptDisk.BlockDevice.GetState` | gpt-utils/gpt-utils.cpp:405-469 | returns BAD_CRC, BAD_SIGNATURE or OK as the header on the device deserves, the checksum first |
| `GptDisk.BlockDevice.SetState` | gpt-utils/gpt-utils.cpp:471-527 | performs the one header write that sets the state |
| `GptDisk.BlockDevice.SetBootChain` | gpt-utils/gpt-utils.cpp:287-402 | rebuilds the secondary table from the primary entries: refuses a bad entry checksum, writes nothing without a pair, else two writes |
| `GptDisk.BlockDevice.PreparePartitions` | gpt-utils/gpt-utils.cpp:747-927 | one update call, cut after any number of writes, does what its plan says and leaves the device so |
| `GptCalls.CutAfter` | gpt-utils/gpt-utils.cpp:143-189 | a call cut after some writes has made exactly those, in order, and torn the next |
| `GptCalls.TornHoldsAnything` | gpt-utils/gpt-utils.cpp:143-189 | a torn write of one block has not happened; a longer one can have left any bytes in its region, and changes nothing elsewhere |
| `GptCalls.TurnOf` | gpt-utils/gpt-utils.cpp:779-814 | on every disk with a layout, by the states of its two headers alone: which call goes on, which returns 0 and which -1 without a write |
| `GptCalls.BrokenRefuses` | gpt-utils/gpt-utils.cpp:779-791 | a BAD_CRC header, or two BAD_SIGNATURE ones, refuse every call without a write |
| `GptCalls.WhenBothGood` | gpt-utils/gpt-utils.cpp:817-860 | both headers good: BACKUP and FINALIZE return -1; MAIN returns -1 on a wrong entry checksum, 0 without a listed pair, and else makes its three writes: secondary header, exchanged entries, spoiled primary header |
| `GptCalls.WhenPrimarySpoiled` | gpt-utils/gpt-utils.cpp:861-897 | primary spoiled: MAIN returns 0 and FINALIZE -1 without a write; BACKUP mends the primary and spoils the secondary |
| `GptCalls.WhenSecondarySpoiled` | gpt-utils/gpt-utils.cpp:898-917 | secondary spoiled: BACKUP returns 0 and MAIN -1 without a write; FINALIZE returns -1 on a wrong entry checksum and else writes header and entries from the primary table and mends the header |
| `GptCalls.MainLeaves` | gpt-utils/gpt-utils.cpp:817-860 | a whole MAIN, from any such disk, leaves primary spoiled and secondary good, with the listed pairs exchanged and the right checksum |
| `GptCalls.BackupLeaves` | gpt-utils/gpt-utils.cpp:861-897 | a whole BACKUP leaves primary good, secondary spoiled and all entries alone |
| `GptCalls.FinalizeLeaves` | gpt-utils/gpt-utils.cpp:898-917 | a whole FINALIZE leaves both good, with the primary entries in both tables |
| `GptUpdate.StateStep` | gpt-utils/gpt-utils.cpp:471-527 | set-state happens whole or not at all: a cut leaves the disk as it was, else just that signature state differs |
| `GptUpdate.ChainStep` | gpt-utils/gpt-utils.cpp:287-402 | rebuilding the secondary table, whole or cut at either write, even with the entry array half written, changes only its checksum and its entries |
| `GptUpdate.CallStep` | gpt-utils/gpt-utils.cpp:747-927 | every call of any stage, cut anywhere, keeps one copy of the table safe |
| `GptUpdate.CrashSafety` | gpt-utils/gpt-utils.cpp:747-927 | at every write boundary of every run of calls, wrong stages and restarts included: no BAD_CRC, the stage is defined, one copy is fully valid, and the primary entries are the original ones |
| `GptUpdate.CrashResumption` | gpt-utils/gpt-utils.cpp:793-917 | from any crash point of any run, running the stages from the decoded one through FINALIZE succeeds and restores every byte, given one backup pair |
| `GptUpdate.FullCycle` | gpt-utils/gpt-utils.cpp:816-917 | MAIN, BACKUP, FINALIZE on an intact disk restore every byte, and all succeed exactly when there is a backup pair |
| `GptUpdate.NoPairNoWrite` | gpt-utils/gpt-utils.cpp:250-270 | without a backup pair no run of calls writes anything |
| `GptUpdate.WhatBoots` | gpt-utils/gpt-utils.cpp:816-917 | after MAIN only the secondary copy, with exchanged entries, is valid; after BACKUP only the primary one, with the original entries |
| `GptExample.IntactDiskExists` | gpt-utils/gpt-utils.cpp:747-927 | a concrete device meets all assumptions of the update theorems at once, with the shipped names as a pass visits them, on UFS and elsewhere |
| `GptUpdate.RepeatedStages` | gpt-utils/gpt-utils.cpp:807-814 | repeating MAIN or BACKUP succeeds without a write, repeating FINALIZE fails without a write |
| `RankTree.CheckNodesIsHeap` | gps/utils/LocHeap.cpp:199-222 | the self-check holds exactly of heap-ordered trees with right cached sizes |
| `RankTree.RootRanksHighest` | gps/utils/LocHeap.h:36-92 | nothing in an ordered tree outranks its root |
| `RankTree.PushKeepsHeap` | gps/utils/LocHeap.cpp:109-126 | push adds exactly one element and keeps order and sizes |
| `RankTree.PushSide` | gps/utils/LocHeap.cpp:115-125 | the four-way branch is: left exactly when the left size is not larger |
| `RankTree.PopKeepsHeap` | gps/utils/LocHeap.cpp:136-166 | pop takes out the root, keeps order and sizes though it recurses on a tree whose root is out of order, and does not raise the height |
| `RankTree.PopSide` | gps/utils/LocHeap.cpp:136-166 | the data that goes up is that of the only child, or of the left one exactly when it outranks the right one; that subtree loses the node |
| `RankTree.RemoveIsExact` | gps/utils/LocHeap.cpp:172-195 | remove finds an object exactly when the tree holds it, takes out one occurrence, keeps order and sizes, and changes nothing otherwise |
| `RankTree.PruningNeedsOrder` | gps/utils/LocHeap.cpp:172-195 | without heap order the pruned search misses an object |
| `RankTree.PushKeepsBalance` | gps/utils/LocHeap.cpp:115-125 | push keeps left size minus right size at 0 or 1 at every node |
| `RankTree.BalancedHeight` | gps/utils/LocHeap.cpp:115-125 | such a tree of n nodes has height floor(log2 n) + 1 |
| `RankTree.BuildBalanced` | gps/utils/LocHeap.cpp:230-236 | any run of pushes builds a balanced heap of least height |
| `RankTree.StepRefinesQueue` | gps/utils/LocHeap.cpp:230-272 | push, pop and remove refine a multiset priority queue |
| `RankTree.DrainSorts` | gps/utils/LocHeap.cpp:247-255 | draining after any run of operations gives the contents, each once, in rank order |
| `LocHeap.LocHeapNode.Push` | gps/utils/LocHeap.cpp:109-126 | the linked nodes, with data exchanged in place, become the pushed tree |
| `LocHeap.LocHeapNode.Pop` | gps/utils/LocHeap.cpp:136-166 | the linked nodes become the popped tree, the link is cleared when the last node goes, and the popped node carries the old root data |
| `LocHeap.LocHeapNode.Remove` | gps/utils/LocHeap.cpp:172-195 | the linked nodes become the tree after the pruned removal; null exactly when nothing was removed |
| `LocHeap.LocHeapNode.CheckNodes` | gps/utils/LocHeap.cpp:199-222 | the in-place self-check decides the same predicate |
| `LocHeap.LocHeap.Push` | gps/utils/LocHeap.cpp:230-237 | the heap takes one object, empty or not |
| `LocHeap.LocHeap.Peek` | gps/utils/LocHeap.cpp:239-245 | returns the root without taking it |
| `LocHeap.LocHeap.Pop` | gps/utils/LocHeap.cpp:247-255 | returns the root and leaves the popped tree, or none when empty |
| `LocHeap.LocHeap.Remove` | gps/utils/LocHeap.cpp:258-272 | returns the object when it was in the heap and leaves the tree without it, else none |
| `AgpsMachine.KeptMembers` | gps/gnss/Agps.cpp:310-343 | who stays when some are told and erased: exactly the others |
| `AgpsMachine.NotesTerminals` | gps/gnss/Agps.cpp:310-343 | everybody erased by a notification was told exactly one terminal status |
| `AgpsMachine.ProcessKeepsAgreement` | gps/gnss/Agps.cpp:73-283 | every event in every state keeps list and state in agreement |
| `AgpsMachine.ProcessKeepsSound` | gps/gnss/Agps.cpp:73-283 | what a modem restart leaves standing, every event keeps: distinct handles, empty list in RELEASED |
| `AgpsMachine.ProcessKeepsLink` | gps/gnss/Agps.cpp:73-308 | whatever the list holds, a request goes out only with no connection outstanding, a release only with one, and it is outstanding exactly in PENDING and ACQUIRED |
| `AgpsMachine.WhoIsTold` | gps/gnss/Agps.cpp:310-380 | an event makes exactly the status callbacks it calls for, each as often as there are subscribers addressed by it, which with distinct handles is at most once |
| `AgpsMachine.SubscribeOutcome` | gps/gnss/Agps.cpp:73-107 | in each state, for any list: who is listed afterwards, who is told, and what is asked for |
| `AgpsMachine.UnsubscribeOutcome` | gps/gnss/Agps.cpp:109-171 | in each state but RELEASED, for any list: a waiting subscriber stays, inactive and untold; another is told of its close and goes; the connection is given back exactly when nobody active is left |
| `AgpsMachine.ProcessConserves` | gps/gnss/Agps.cpp:73-283 | subscribers added are still listed or were told one terminal status as they left |
| `NativeAgps.RunKeepsAccount` | gps/gnss/Agps.cpp:563-675 | over every run with modem restarts: the requests that added a subscriber or were refused = listed + told for good + dropped, handles distinct, connection discipline kept; a request whose handle is still listed adds nobody |
| `NativeAgps.RunKeepsAgreement` | gps/gnss/Agps.cpp:73-283 | over every run without a restart: list empty exactly in RELEASED, an active subscriber in PENDING and ACQUIRED, an inactive one in RELEASING |
| `NativeAgps.RequestsByType` | gps/gnss/Agps.cpp:539-562 | after every run a request of type SUPL, SUPL_ES or INVALID is refused at once and changes nothing else, as there is no AGNSS machine; one of another type is listed and sets the type |
| `NativeAgps.ReleaseFindsNobodyInReleased` | gps/gnss/Agps.cpp:599-625 | in every run, releaseATL in RELEASED finds nobody and changes nothing, so the UNSUBSCRIBE branch of RELEASED is not reached |
| `NativeAgps.Moves` | gps/gnss/Agps.cpp:73-283 | to which state each event takes each state, for any list |
| `NativeAgps.ProcessReplies` | gps/gnss/NativeAgpsHandler.cpp:105-127 | the driver answers a command of type WWAN_ANY once: for entering PENDING, or for taking the connection down; and nothing else |
| `NativeAgps.UnheardMeans` | gps/gnss/NativeAgpsHandler.cpp:105-127 | the guard Unheard holds exactly when the action makes the machine issue a command of a type the driver ignores |
| `NativeAgps.AwaitingIff` | gps/gnss/NativeAgpsHandler.cpp:105-127 | for every run of requests of any type: PENDING has a GRANTED or DENIED queued and RELEASING a RELEASED, throughout, exactly when no command goes unheard without an answer left over to stand in for its own |
| `NativeAgps.Quiescence` | gps/gnss/NativeAgpsHandler.cpp:105-127 | in every run whose commands are all heard an empty queue means RELEASED or ACQUIRED |
| `NativeAgps.WwanIsHeard` | gps/gnss/Agps.cpp:563-597 | all commands are heard when every request is of type WWAN_ANY or has no machine |
| `NativeAgps.QueueDrains` | gps/gnss/NativeAgpsHandler.cpp:105-127 | left alone the loop settles within one delivery more than the queue is long, unless the close that is due asks again with a type the driver ignores |
| `NativeAgps.DrainsIff` | gps/gnss/NativeAgpsHandler.cpp:105-127 | a loop in step settles, left alone, exactly when that is not so |
| `NativeAgps.SettlesIff` | gps/gnss/Agps.cpp:537-625 | from a settled world, RELEASED or ACQUIRED, the loop settles again after any action exactly when its command is heard |
| `NativeAgps.JoiningStrandsTheRelease` | gps/gnss/Agps.cpp:587-596 | a WIFI request that joins an open WWAN_ANY connection changes its type, and the release that follows waits in RELEASING for good |
| `NativeAgps.StepInStep` | gps/gnss/Agps.cpp:243-283 | one action keeps machine and driver in step exactly when it neither delivers a DENIED in RELEASING nor gives an unheard command |
| `NativeAgps.InStepIff` | gps/gnss/Agps.cpp:243-283 | every run keeps the queue and the granted connection in step with the state throughout exactly when no DENIED is delivered in RELEASING and every command is heard |
| `NativeAgps.TrailingAnswers` | gps/gnss/Agps.cpp:243-283 | a run in which a denial is taken for a close: a subscriber nobody released is closed, and a granted request is never given back |
| `AgpsAnswers.AnsweredIff` | gps/gnss/Agps.cpp:392-411 | once the loop has settled a request has been answered by an open status, if its command and the close that may be due are heard, exactly unless it reaches the machine while its handle is listed as inactive and the state is RELEASING, or PENDING with no denial coming |
| `AgpsAnswers.WwanAnsweredIff` | gps/gnss/Agps.cpp:563-597 | the same after every run of requests of type WWAN_ANY or without a machine, with no other assumption |
| `AgpsAnswers.AskingAgainIsOverlooked` | gps/gnss/Agps.cpp:392-411 | a run that comes to it: a subscriber that releases its connection and asks again before the close has come |
| `Agps.AgpsStateMachine.AddSubscriber` | gps/gnss/Agps.cpp:392-411 | appends a copy, unless the handle is listed |
| `Agps.AgpsStateMachine.DeleteSubscriber` | gps/gnss/Agps.cpp:413-430 | the erase loop removes exactly the subscribers with the handle |
| `Agps.AgpsStateMachine.AnyActiveSubscribers` | gps/gnss/Agps.cpp:432-442 | whether a listed subscriber is active |
| `Agps.AgpsStateMachine.GetSubscriber` | gps/gnss/Agps.cpp:465-478 | the listed object with the handle, or null exactly when there is none |
| `Agps.AgpsStateMachine.DropAllSubscribers` | gps/gnss/Agps.cpp:495-506 | empties the list |
| `Agps.AgpsStateMachine.NotifyEventToSubscriber` | gps/gnss/Agps.cpp:345-380 | one callback of the kind the event means, and the deletion if asked for |
| `Agps.AgpsStateMachine.NotifyAllSubscribers` | gps/gnss/Agps.cpp:310-343 | the erase loop tells the addressed subscribers in order and, if asked to, takes out exactly them |
| `Agps.AgpsStateMachine.ProcessAgpsEventSubscribe` | gps/gnss/Agps.cpp:73-107 | does what the transition function says in each state |
| `Agps.AgpsStateMachine.ProcessAgpsEventUnsubscribe` | gps/gnss/Agps.cpp:109-171 | the same, marking the listed object itself inactive |
| `Agps.AgpsStateMachine.ProcessAgpsEventGranted` | gps/gnss/Agps.cpp:173-194 | the same |
| `Agps.AgpsStateMachine.ProcessAgpsEventReleased` | gps/gnss/Agps.cpp:196-241 | the same |
| `Agps.AgpsStateMachine.ProcessAgpsEventDenied` | gps/gnss/Agps.cpp:243-283 | the same |
| `Agps.AgpsManager.RequestATL` | gps/gnss/Agps.cpp:563-597 | a SUPL, SUPL_ES or INVALID request goes to the AGNSS machine and every other to the internet one, or is refused at once with one status when that machine is absent; the other machine sees nothing; SUPL_ES asks for SUPL without the emergency PDN |
| `Agps.AgpsManager.ReleaseATL` | gps/gnss/Agps.cpp:599-625 | the first machine that lists the handle has it unsubscribe; an unlisted handle changes nothing |
| `Agps.AgpsManager.ReportAtl` | gps/gnss/Agps.cpp:627-662 | the event goes to the AGNSS machine for SUPL, SUPL_ES and INVALID, to the internet machine for every other type, and to no other machine |
| `Agps.FreedIs` | gps/gnss/Agps.cpp:599-625 | what an unsubscription makes of a machine: the listed subscriber with the handle unsubscribes, and without one nothing happens |
| `Agps.AgpsManager.HandleModemSSR` | gps/gnss/Agps.cpp:664-675 | empties both lists and leaves both states |
| `HintProtocol.DiffIsClose` | power/InteractionHandler.cpp:118-123 | the millisecond difference is less than 1 ms off and not negative for times that do not run backwards |
| `HintProtocol.RunSafe` | power/InteractionHandler.cpp:62-190 | under every interleaving: hint on exactly in INTERACTION and WAITING, PerfLock and PerfRel alternate, every wait begins with the eventfd at zero, and the hint ends only after a wait begun after the last accepted Acquire |
| `HintProtocol.LawfulMeans` | power/InteractionHandler.cpp:169-182 | before every PerfRel there is a wait begun with a clear eventfd after which no request was accepted |
| `HintProtocol.HintEnds` | power/InteractionHandler.cpp:237-251 | left alone the worker ends the hint within two rounds, wherever it is and whatever is signalled |
| `HintProtocol.RequestHolds` | power/InteractionHandler.cpp:125-167 | from every safe state after Init a request leaves the hint on and held; unless the held hint outlasts it, it is accepted, sets the duration and its start, signals a waiting worker, and turns the hint on from IDLE |
| `HintProtocol.RequestIgnored` | power/InteractionHandler.cpp:128-132 | before Init and after Exit a request does nothing |
| `HintProtocol.ClampedEnds` | power/InteractionHandler.cpp:134-141 | the duration is 1400 ms exactly up to a request of 750, 5650 ms exactly from 5000, and the request plus 650 between |
| `HintProtocol.FirstRound` | power/InteractionHandler.cpp:62-251 | Init and a request turn the hint on; one round of the worker ends it; the marks are those four in order |
| `HintProtocol.ExitSignals` | power/InteractionHandler.cpp:86-100 | Exit leaves one more signal, for the wait it has to end, and no mark |
| `HintProtocol.ExitKeepsHint` | power/InteractionHandler.cpp:86-100 | the hint stays as Exit found it, so a held one is never ended, exactly in INTERACTION and WAITING |
| `HintProtocol.ExitJoins` | power/InteractionHandler.cpp:86-100 | after Exit the worker reaches its end within three steps of its own |
| `HintProtocol.DeadlineStep` | power/InteractionHandler.cpp:125-167 | with the hint held no Acquire brings the deadline forward, and it ends up at what was asked for or is there already to within 1 ms |
| `HintProtocol.DeadlinesNeverShorten` | power/InteractionHandler.cpp:125-167 | the same over every stretch of a run with the hint held |
| `InteractionHandler.InteractionHandler.Init` | power/InteractionHandler.cpp:62-84 | succeeds unless a descriptor fails to open, and is the Init step |
| `InteractionHandler.InteractionHandler.Exit` | power/InteractionHandler.cpp:86-100 | is the Exit step: one signal and UNINITIALIZED, nothing when already so |
| `InteractionHandler.InteractionHandler.CalcTimespecDiffMs` | power/InteractionHandler.cpp:118-123 | the difference, with its error bound |
| `InteractionHandler.InteractionHandler.Acquire` | power/InteractionHandler.cpp:125-167 | is the Acquire step: ignored, covered, or accepted with a signal or a hint as the state says |
| `InteractionHandler.InteractionHandler.Release` | power/InteractionHandler.cpp:169-182 | is the Release step: ends the hint, or clears the eventfd |
| `InteractionHandler.InteractionHandler.RoutineTakes` | power/InteractionHandler.cpp:237-251 | is the critical section at the head of the worker loop |
| `LocUnorderedSetMap.AddedHas` | gps/utils/LocUnorderedSetMap.h:150-181 | adding relates exactly the given keys and values more, and leaves no empty entry |
| `LocUnorderedSetMap.TrimmedHas` | gps/utils/LocUnorderedSetMap.h:84-96 | trimming takes out exactly the given pairs and the entries left empty |
| `LocUnorderedSetMap.SetMap.Add` | gps/utils/LocUnorderedSetMap.h:169-181 | the loop adds to every key and returns the new ones |
| `LocUnorderedSetMap.SetMap.TrimOrRemove` | gps/utils/LocUnorderedSetMap.h:135-148 | the loop trims every key, and returns the keys and values that are gone |
| `LocUnorderedSetMap.SetMap.Update` | gps/utils/LocUnorderedSetMap.h:183-197 | replaces the entry and hands back the values old and new have in common, taking them out of the new ones |
| `LocUnorderedSetMap.TrimSet` | gps/utils/LocUnorderedSetMap.h:49-58 | the loop takes one set from another and records what it took |
| `LocUnorderedSetMap.RemoveAndReturnInterset` | gps/utils/LocUnorderedSetMap.h:60-77 | the loop returns the intersection and takes it out of both sets |
| `SubscriptionIndex.UpdateHas` | gps/core/SystemStatusOsObserver.cpp:142-212 | who is listed for what after an update, in both maps, for either reading of update |
| `SubscriptionIndex.UpdateConverse` | gps/core/SystemStatusOsObserver.cpp:142-212 | as coded an update keeps the maps converse exactly when the client had no items |
| `SubscriptionIndex.StepConverse` | gps/core/SystemStatusOsObserver.cpp:94-294 | every other message keeps them converse |
| `SubscriptionIndex.RunConverse` | gps/core/SystemStatusOsObserver.cpp:94-294 | over runs: always by the described update, and as coded throughout a run exactly when no update finds its client with items |
| `SubscriptionIndex.IndexHoldsWants` | gps/core/SystemStatusOsObserver.cpp:94-294 | the client map holds exactly what the messages asked for; so does the item map under the same condition |
| `SubscriptionIndex.RunTidy` | gps/core/SystemStatusOsObserver.cpp:62-294 | over every run: no empty entries, and the framework knows only items with clients; it knows exactly those throughout if and only if no requestData adds an item without clients while a subscription object is set |
| `SubscriptionIndex.NotifyExact` | gps/core/SystemStatusOsObserver.cpp:311-344 | when every client is on the lists of its items, converse or not, each client gets exactly the items it subscribes to for which some taken datum brings a value other than the one known when it comes, with the last such value, and nobody gets an empty delivery |
| `SubscriptionIndex.RefreshMeans` | gps/core/SystemStatusOsObserver.cpp:558-589 | by the data and the old cache alone: an item counts as updated exactly when a taken datum of it differs from the last one taken before it, or else from the cached value, or there is none; and the cache holds the last value known |
| `SubscriptionIndex.StaleSendsNothing` | gps/core/SystemStatusOsObserver.cpp:311-344 | a notification of values known already sends nothing to anybody and changes nothing, whatever the maps hold |
| `SubscriptionIndex.SubscribeSends` | gps/core/SystemStatusOsObserver.cpp:108-112 | a subscription or request for data sends its client exactly the cached ones of its items, with their values |
| `SubscriptionIndex.UpdateSends` | gps/core/SystemStatusOsObserver.cpp:173-177 | an update sends its client exactly the cached ones of the items it did not have |
| `SubscriptionIndex.QuietMessages` | gps/core/SystemStatusOsObserver.cpp:214-294 | the other messages send nothing |
| `SubscriptionIndex.EmptyMessages` | gps/core/SystemStatusOsObserver.cpp:134-139 | an empty list or a null client changes nothing |
| `SubscriptionIndex.ExactIff` | gps/core/SystemStatusOsObserver.cpp:311-344 | that is the exact condition: any notification reaches exactly the clients of its updated items if and only if every client is on the lists of its items |
| `SubscriptionIndex.StepForward` | gps/core/SystemStatusOsObserver.cpp:94-294 | one message keeps every client on the lists of its items exactly unless, as coded, it is an update that repeats one of the items its client has |
| `SubscriptionIndex.AlwaysHearsWantsIff` | gps/core/SystemStatusOsObserver.cpp:142-212 | for every run, by the messages alone: throughout it any notification reaches exactly the clients that want its updated items if and only if no update names an item that its client wants already; by the described update always |
| `SubscriptionIndex.ChangeStillHears` | gps/core/SystemStatusOsObserver.cpp:142-212 | a client that changes to other items breaks the converse and loses no notification |
| `SubscriptionIndex.CacheHoldsLast` | gps/core/SystemStatusOsObserver.cpp:558-589 | the cache holds the last value taken |
| `SubscriptionIndex.RepeatedUpdateGoesDeaf` | gps/core/SystemStatusOsObserver.cpp:142-212 | as coded, a client that repeats its subscription as an update is no longer notified and the framework is unsubscribed |
| `SystemStatusOsObserver.SystemStatusOsObserver.SetSubscriptionObj` | gps/core/SystemStatusOsObserver.cpp:62-89 | the new object is told of every item that has a client |
| `SystemStatusOsObserver.SystemStatusOsObserver.SendCachedDataItems` | gps/core/SystemStatusOsObserver.cpp:530-556 | sends the cached ones of the items, if there are any |
| `SystemStatusOsObserver.SystemStatusOsObserver.Subscribe` | gps/core/SystemStatusOsObserver.cpp:94-140 | does what the Subscribe or RequestData message says |
| `SystemStatusOsObserver.SystemStatusOsObserver.UpdateSubscription` | gps/core/SystemStatusOsObserver.cpp:142-212 | does what the Update message says, as coded |
| `SystemStatusOsObserver.SystemStatusOsObserver.Unsubscribe` | gps/core/SystemStatusOsObserver.cpp:214-253 | does what the Unsubscribe message says |
| `SystemStatusOsObserver.SystemStatusOsObserver.UnsubscribeAll` | gps/core/SystemStatusOsObserver.cpp:255-294 | does what the UnsubscribeAll message says |
| `SystemStatusOsObserver.SystemStatusOsObserver.UpdateCache` | gps/core/SystemStatusOsObserver.cpp:558-589 | caches a taken item, and says whether it is new or changed |
| `SystemStatusOsObserver.SystemStatusOsObserver.Notify` | gps/core/SystemStatusOsObserver.cpp:299-376 | does what the Notify message says, with loops over items and clients |
| `Estimator.WallClockImmunity` | gps/core/LocApiBase.cpp:938-988 | after a reference fix with boot time b and data time d, every later trusted fix in rhythm at t returns b + (t - d) - initial travel time, whatever UTC did and whatever untrusted fixes came between |
| `Estimator.SixthIsReference` | gps/core/LocApiBase.cpp:938-996 | from a reset, after any untrusted fixes: the first trusted fix, whatever time between fixes it announces, gets the default travel time; when the trusted fixes after it keep the rhythm, the next four get it too and the sixth is the reference |
| `Estimator.MismatchStartsOver` | gps/core/LocApiBase.cpp:964-966 | a fix out of rhythm discards the reference and starts the count again |
| `Estimator.OtherFixes` | gps/core/LocApiBase.cpp:938-988 | in every reachable state an untrusted fix gets the default travel time and changes nothing, failing clocks give -1 and change nothing, and the reference gets the default travel time |
| `Estimator.RhythmKept` | gps/core/LocApiBase.cpp:960-986 | a counted fix starts the count again at five exactly when the announced time between fixes is not the time since the last counted one, or since zero after a reset; then it goes down by one; before zero the clock difference stays |
| `Estimator.ElapsedRealtimeEstimator.Reset` | gps/core/LocApiBase.cpp:990-996 | returns to the initial state |
| `Estimator.ElapsedRealtimeEstimator.GetElapsedRealtimeEstimateNanos` | gps/core/LocApiBase.cpp:938-988 | returns the estimate, or -1 without clocks, and updates the fields |
| `AdapterArray.RemoveKeeps` | gps/core/LocApiBase.cpp:242-276 | moving the last adapter into the gap drops exactly the given one |
| `AdapterArray.RunRefinesSet` | gps/core/LocApiBase.cpp:231-276 | over every run the array holds exactly the adapters registered while there was a slot, once each, and the close message goes out exactly when it becomes empty |
| `AdapterArray.AlwaysHoldsAllIff` | gps/core/LocApiBase.cpp:231-240 | over every run: the array holds exactly the adapters added and not removed, throughout, if and only if they are never more than ten; an eleventh is dropped without a word |
| `AdapterArray.SentTells` | gps/core/LocApiBase.cpp:231-276 | open goes out exactly when the array grows, for the adapter that came, close exactly when it becomes empty, open again exactly when it shrinks to a non-empty one |
| `AdapterArray.LocApiBase.AddAdapter` | gps/core/LocApiBase.cpp:231-240 | fills the first free slot, unless the adapter is there or no slot is free |
| `AdapterArray.LocApiBase.RemoveAdapter` | gps/core/LocApiBase.cpp:242-276 | removes in place and sends close or open |
| `AdapterArray.LocApiBase.GetEvtMask` | gps/core/LocApiBase.cpp:168-175 | the union over exactly the registered adapters minus the excluded events |
| `NetworkTable.ConnectKeeps` | gps/core/SystemStatus.h:526-539 | connecting adds one entry for a new handle with room, else nothing |
| `NetworkTable.DisconnectKeeps` | gps/core/SystemStatus.h:540-569 | disconnecting drops exactly the entry with handle and type |
| `NetworkTable.OddTypesKeep` | gps/core/SystemStatus.h:540-541 | a disconnect of a type without a bit in the mask leaves the table alone |
| `NetworkTable.RunTable` | gps/core/SystemStatus.cpp:1354-1372 | over every run with fixed known types the newest table is a hole-free prefix without duplicates of exactly the handles followed, at most ten, and the history holds one to five items |
| `NetworkTable.NewestItem` | gps/core/SystemStatus.h:514-530 | over every run the newest item has the connection of the last event and the first APN named since the last event of type mobile |
| `NetworkTable.HistoryChanges` | gps/core/SystemStatus.cpp:1354-1372 | over every run no two neighbours in the history agree in connection, table and APN |
| `NetworkTable.AlwaysExactIff` | gps/core/SystemStatus.cpp:1354-1372 | over every such run the newest table holds exactly the connected handles after every event if and only if the first event is a connect and never more than ten handles are connected |
| `NetworkTable.TrackedIsConnected` | gps/core/SystemStatus.cpp:1354-1372 | while no connect is turned away for want of a slot, the handles followed are the connected ones, plus the first event's when that was a disconnect not heard of again |
| `NetworkTable.TableIsConnectedIff` | gps/core/SystemStatus.cpp:1354-1372 | after a run in which every connect found room among the handles followed, the newest table holds exactly the connected handles if and only if there is no such phantom |
| `NetworkTable.OnePhantom` | gps/core/SystemStatus.cpp:1354-1372 | a single disconnect is such a run: its handle is in the table and not connected |
| `NetworkTable.PhantomCostsAHandle` | gps/core/SystemStatus.h:526-539 | a run with at most ten handles connected in which the phantom holds the tenth slot, so that a connected handle is missing even after the phantom has gone |
| `NetworkTable.SystemStatusNetworkInfo.Equals` | gps/core/SystemStatus.h:507-513 | compares connection, table and APN |
| `NetworkTable.SystemStatusNetworkInfo.Collate` | gps/core/SystemStatus.h:514-585 | collates the cached table into the item in place |
| `NetworkTable.NetworkReport.SetItemInReport` | gps/core/SystemStatus.cpp:1354-1372 | caches an item that differs from the newest one, and drops the oldest beyond five |

## Left out

- GptDisk.BlockDevice.BlkRead: does not model a failing read; a read that fails ends a call early without a write, which is a call cut at that point.
- GptDisk.BlockDevice.BlkWrite: does not model a short write, which the code reports as success when `fsync` succeeds and goes on after; a write that fails is a cut, as every stage stops there, and the next call may write again.
- GptDisk.BlockDevice.PreparePartitions: does not model opening the device, `fsync`, nor the UFS boot LUN switch, an ioctl on another device.
- GptUpdate.CrashSafety: assumes that the write of a single header block is atomic; only longer writes may be torn.
- LocHeap.LocHeapNode.Push: does not model the wrap-around of the 32-bit size, which needs two thousand million nodes.
- Agps.AgpsManager.RequestATL: does not model APN type masks, APN names and bearers, which are passed through to callbacks.
- Agps.AgpsStateMachine.DeleteSubscriber: does not model the freeing of deleted subscribers.
- HintProtocol.RunSafe: covers one Init to Exit period; a second Init while the first worker is still ending is not modelled.
- InteractionHandler.InteractionHandler.WaitForIdle: returns at any time, whatever poll and the idle file say; the unlocked read of the duration is not modelled.
- InteractionHandler.InteractionHandler.CalcTimespecDiffMs: does not model a `size_t` or `long` of 32 bits.
- SystemStatusOsObserver.SystemStatusOsObserver.SetSubscriptionObj: does not model the framework's `requestData`, which is called beside `subscribe` here and for a request for data.
- SystemStatusOsObserver.SystemStatusOsObserver.Notify: whether SystemStatus takes an item is a parameter of each datum, and contents are compared as one value.
- Estimator.ElapsedRealtimeEstimator.GetElapsedRealtimeEstimateNanos: does not model 64-bit wrap-around, nor the threshold wrapping after 2^63 fixes.
- AdapterArray.LocApiBase.GetEvtMask: a mask is the set of its bits.
- NetworkTable.SystemStatusNetworkInfo.Collate: does not model the mask of all types, which does not mirror the table after a disconnect, nor copying the table back into the original data item.
- NetworkTable.NetworkReport.SetItemInReport: does not model the reported timestamps.
- The multi-LUN loop of `prepare_boot_update` and the `gpt_disk_*` functions, which commit only the primary table.
- `BatchingAdapter`, `GeofenceAdapter` and `BiDict`: their accounting depends on counters and ids of the modem.
- turnOn and turnOff reference counts, backhaul requests, logging, IPC, dlopen loading, NMEA parsing and reports.
- Lights, power hint dispatch, power statistics and Bluetooth glue: small finite cases or foreign calls.
