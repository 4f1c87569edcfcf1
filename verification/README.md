# A verified model of Redis 7.0.15 internals

This project models the parts of the Redis server where a small mistake loses data or splits a
cluster, and proves what they promise. It is written in Dafny 4.11; `dafny verify dfyconfig.toml`
checks it.

Stateful code is modelled by classes and methods that update fields and arrays, each proved against
a specification function; the theorems over whole runs are about those functions.

| modules | what they model | main results |
|---|---|---|
| `ClusterNode`, `ClusterElection`, `FailoverRuns` | replica election in a cluster | one winner per epoch in every run, under the exact condition on votes counted early; winners lead and take over; nobody wins against reasons to refuse |
| `EpochCollision` | resolution of equal config epochs | at most 2^r - 1 bumps per node in every run; quiet exactly when epochs are distinct |
| `Bitmap`, `SlotTable`, `SlotClaims`, `SlotRanges` | who serves which hash slot | owners, bitmaps and counters agree; exactly when claims converge, from any table and in any order; the printed ranges are fewest and load back |
| `SlotKeys` | the keys of a slot, linked through the dictionary entries | the lists stay exact under add, delete, reallocation |
| `Crc16` | the slot of a key | the table-driven checksum is polynomial division; hash tags |
| `AofManifest`, `AofRewrite`, `AofRun` | manifest, rotation and background rewrite of the append-only file | every crash point of every run recovers the dataset up to the first step that breaks the log, with the exact condition of each such step; what was flushed is kept |
| `AofLog`, `AofLoad`, `AofCut`, `AofHistory`, `AofRestart` | feeding and loading the log, with transactions | replaying any prefix runs a prefix of the history and no part of a transaction; exactly when the next restart finds everything |
| `AofFlush`, `Durability`, `AofFiles` | writing and syncing the log, over one file or several | every byte is accounted for over whole runs; acknowledged writes survive; exactly when a rotation is harmless |
| `AclRules`, `AclMeaning`, `AclDescribe`, `AclText`, `AclRoundTrip` | ACL command rules | after any rules a command may run exactly if one grants it and no later one denies it; the description of a selector, written as text and read again, rebuilds the selector |
| `BitString`, `MachineWord`, `BitPos`, `BitCount`, `BitField`, `BitOp` | bit commands | word-wise searches and counts, overflow policies and bitwise folds equal their bit-by-bit meaning |
| `BlockedKeys`, `BlockedRuns`, `BlockedServing` | clients blocked on keys | the indexes mirror each other, the ready loop ends, and every run unblocks exactly the clients who are due, first come first served |
| `Kqueue` | merging of kqueue events | each descriptor fires once with all its events |

Some expected properties do not hold of the code. Each has a concrete counterexample and an exact
condition:

- An election ACK that arrives after a replica has scheduled its next attempt and before it asks for
  votes again is counted for the next attempt, so an epoch can have two winners
  (`ClusterElection.TwoWinnersOfOneEpoch`, `RequestAccounting`).
- An owner of greater epoch that no longer claims a slot keeps the best claimant out until it is heard
  itself, so hearing every master once does not settle a slot (`SlotClaims.OneRoundIsNotEnough`,
  `Converges`).
- If replacing the manifest fails after its rename, ending a rewrite removes the base file the
  manifest names (`AofRun.LateFailureLosesEverything`, `AofRewrite.AofServer.BackgroundRewriteDone`).
- Commands left in the buffer by a failing flush when a rewrite forks run twice after it
  (`AofRun.UnflushedCommandRunsTwice`, `AofRun.RewriteBreaksIff`).
- Bytes left in the buffer by a failing flush when the log is rotated become the beginning of the new
  file, which is replayed from database 0: a command of another database without a SELECT of its own
  moves to database 0 (`AofFiles.LeftoverInWrongDatabase`, `AofRun.LeftoverRunsElsewhere`), and if the
  old file ends inside a command or a transaction the server refuses to start
  (`AofRun.SplitCommandLosesEverything`). The exact conditions are `AofFiles.RotationIff` and
  `AofRun.RewriteBreaksIff`.
- Incremental files are not opened for append, so undoing a short write leaves the offset past the
  end, the next write leaves a hole and the loader stops there (`AofFlush.LeaveHole`,
  `Durability.HoleStopsLoader`, `AofFlush.Aof.WriteFailed`).
- A log cut in the middle of a command of an open transaction keeps the MULTI, and what is logged
  later is lost or mixed with it at the next load; a log cut inside a timestamp annotation is not
  cut back, and the next command joins that line (`AofRestart.OpenTransaction`, `LaterInMulti`,
  `AfterNote`, `NextRestartIff`).
- Skipping the slot update for an unchanged claim leaves an owner-not-claiming mark, with which an
  older claim wins (`SlotClaims.StaleMarkLosesSlot`, `SkipIsHarmlessIff`).
- An ACL first argument with a space is accepted and its description does not read back
  (`AclText.SpacedArgument`, `DescriptionReadsBackIff`).
- BITFIELD SET with OVERFLOW SAT saturates very negative values upwards
  (`BitField.SaturatesUpwards`, `SignedSet`, `UnsignedSet`).

Where code and comments disagree the model follows the code: the comment on
handleClientsBlockedOnKeys (`redis-7.0.15/src/blocked.c:612-620`) says that clients blocked for another type are
moved to the other end of their list and that this breaks fairness, but the serving loops leave them
in place, and `BlockedRuns.FirstComeFirstServed` proves serving in order of arrival with mixed types
too.

## Model

| member | source | states |
|---|---|---|
| `ClusterNode.ClusterState.ProcessHeader` | redis-7.0.15/src/cluster.c:2220-2231 | the state after a header arrives is `SeeHeader` of the old one: an unknown sender changes nothing; otherwise own current epoch and the recorded epoch of the sender only grow |
| `ClusterNode.ClusterState.HandleConfigEpochCollision` | redis-7.0.15/src/cluster.c:1389-1404 | only the master with the smaller name, holding the same configEpoch as another master, bumps; the new epoch is one above its currentEpoch |
| `ClusterNode.ClusterState.ProcessPing` | redis-7.0.15/src/cluster.c:2508-2515 | the whole effect of a ping on the epochs, equal to the specification `ReceivePing` about which `EpochCollision` proves its run theorems |
| `ClusterNode.ClusterState.ProcessUpdate` | redis-7.0.15/src/cluster.c:2604-2625 | an UPDATE message of a known sender changes an epoch only to a strictly greater one, equal to `ReceiveUpdate` |
| `ClusterNode.ClusterState.SendFailoverAuthIfNeeded` | redis-7.0.15/src/cluster.c:3335-3436 | a vote is granted exactly under `Grants` (every refusal, including a claimed slot whose owner has a newer epoch), and a grant is remembered in lastVoteEpoch |
| `ClusterNode.ClusterState.ProcessAuthRequest` | redis-7.0.15/src/cluster.c:2568-2570 | a vote request first updates the epochs and is then voted on, and does neither if the candidate is unknown |
| `ClusterNode.ClusterState.ProcessAuthAck` | redis-7.0.15/src/cluster.c:2571-2583 | which ACKs are counted, equal to `ReceiveAck`: those of known masters with slots and a recent epoch; the code does not ask whether a request was sent |
| `ClusterNode.ClusterState.HandleSlaveFailover` | redis-7.0.15/src/cluster.c:3575-3745 | the candidate's whole state machine (manual failover, data age, scheduling, rank delay, request, quorum), equal to `Failover` |
| `ClusterElection.VoteStep` | redis-7.0.15/src/cluster.c:3335-3436 | delivering a vote request to any node keeps the election invariant: one ballot per voter and epoch, counts backed by ballots |
| `ClusterElection.AckStep` | redis-7.0.15/src/cluster.c:2571-2583 | delivering any ACK, however late, keeps the election invariant: what is counted during an election was cast in it |
| `ClusterElection.FailoverStep` | redis-7.0.15/src/cluster.c:3575-3745 | a candidate's timer step keeps the election invariant unless it opens an election with votes already counted; a new request always opens an epoch nobody has voted the candidate in |
| `ClusterElection.Preserved` | redis-7.0.15/src/cluster.c:3335-3745 | every event of the election protocol keeps the invariant, with messages delayed and reordered at will |
| `ClusterElection.RunInvariant` | redis-7.0.15/src/cluster.c:3335-3745 | the invariant holds in every state of every run in which no election starts with votes already counted |
| `ClusterElection.MajoritiesMeet` | redis-7.0.15/src/cluster.c:3578-3725 | two quorums of more than half the masters share a voter |
| `ClusterElection.ElectionSafety` | redis-7.0.15/src/cluster.c:3335-3745 | in every such run, at most one replica ever wins a given epoch |
| `ClusterElection.RequestAccounting` | redis-7.0.15/src/cluster.c:3711-3717 | exact condition: when a replica asks for votes, its count is backed by ballots of the new election if and only if it is zero |
| `ClusterElection.TwoWinnersOfOneEpoch` | redis-7.0.15/src/cluster.c:3642-3717 | a reachable state of four nodes that know each other in which two replicas have won the same epoch, because ACKs of an expired attempt were counted before the next one asked for votes |
| `FailoverRuns.WinnersLead` | redis-7.0.15/src/cluster.c:3725-3741 | in every run, also one in which late votes were counted: whoever wins an election is a master from then on, with a configuration epoch no smaller than that of the election |
| `FailoverRuns.WinnerTakesSlot` | redis-7.0.15/src/cluster.c:1867-1950 | in every run: a node that knows the old owner of a slot under an older epoch than the election gives the slot to the winner at its first claim |
| `FailoverRuns.Refuses` | redis-7.0.15/src/cluster.c:3335-3436 | a master votes if and only if none of the reasons to refuse holds, among them a claimed slot it knows under a newer epoch; what a request does to its epochs |
| `FailoverRuns.RefusedNeverWins` | redis-7.0.15/src/cluster.c:3335-3436 | in every run: a candidate never wins an election in which half of the electorate has such a reason at every delivery of its request |
| `FailoverRuns.ActsOnlyFor` | redis-7.0.15/src/cluster.c:3598-3640 | a replica does something only for a failed master with slots or by a manual failover, which alone overrides old data and the no-failover option |
| `FailoverRuns.StepsInTime` | redis-7.0.15/src/cluster.c:3642-3741 | when an attempt is scheduled, when votes are asked for and when the election is won, by the clock, and what each step leaves behind |
| `FailoverRuns.AttemptGoesThrough` | redis-7.0.15/src/cluster.c:3642-3741 | an automatic attempt is scheduled, asks for votes when its delay is over, and succeeds with a majority |
| `FailoverRuns.ManualGoesThrough` | redis-7.0.15/src/cluster.c:3642-3741 | a manual failover does the same at once, also if the master is up, the data old or failover disabled |
| `FailoverRuns.BetterRankFirst` | redis-7.0.15/src/cluster.c:3654-3662 | of two replicas that schedule an attempt at the same time the one with newer data asks first |
| `FailoverRuns.AsksAfterDelay` | redis-7.0.15/src/cluster.c:3654-3717 | in every run a replica asks for votes no sooner than half a second, and a second for every replica with newer data, after its attempt was scheduled |
| `FailoverRuns.AckEffect` | redis-7.0.15/src/cluster.c:2571-2583 | an ACK adds one vote if and only if it comes from a known master with slots and is not older than the election |
| `EpochCollision.PingEffect` | redis-7.0.15/src/cluster.c:1389-1404 | what a ping may change: a collision with a greater name moves the receiver to exactly one above every epoch seen, nothing else changes the configEpoch, and otherwise the current epoch is the greater of the two |
| `EpochCollision.QuietPing` | redis-7.0.15/src/cluster.c:2508-2515 | no ping makes a replica move, nor does one of a replica or of an unknown node |
| `EpochCollision.UpdateEffect` | redis-7.0.15/src/cluster.c:2604-2625 | an UPDATE raises exactly the recorded epoch it is about, or the receiver's own, and one of an unknown sender changes nothing |
| `EpochCollision.Preserved` | redis-7.0.15/src/cluster.c:1389-1404 | every delivery and every send keeps the invariant of the epochs, also with stale and repeated packets |
| `EpochCollision.RunInvariant` | redis-7.0.15/src/cluster.c:1389-1404 | the invariant holds in every state of every run |
| `EpochCollision.FewValuesAbove` | redis-7.0.15/src/cluster.c:1389-1404 | the masters with greater names ever hold at most 2^r - 1 config epochs that this node could collide with |
| `EpochCollision.BumpsAreSpent` | redis-7.0.15/src/cluster.c:1389-1404 | every bump of a node uses up an epoch value that is never used for a bump again |
| `EpochCollision.CollisionsAreBounded` | redis-7.0.15/src/cluster.c:1368-1404 | in every run a node resolves at most 2^r - 1 collisions, r being the number of masters with greater names: the process stops |
| `EpochCollision.SettledIffDistinct` | redis-7.0.15/src/cluster.c:1368-1404 | in every state of every run: no ping that could be sent now makes a node move if and only if all masters have distinct config epochs |
| `Bitmap.SetBitSpec` | redis-7.0.15/src/cluster.c:4295-4299 | setting bit `pos` sets that bit and no other |
| `Bitmap.ClearBitSpec` | redis-7.0.15/src/cluster.c:4302-4306 | clearing bit `pos` clears that bit and no other |
| `Bitmap.SameBits` | redis-7.0.15/src/cluster.c:2453-2454 | two bitmaps with equal bits are equal byte by byte, so memcmp compares sets of slots |
| `SlotTable.AddAgrees` | redis-7.0.15/src/cluster.c:4326-4374 | binding a free slot keeps owner array, bitmaps and counters in agreement |
| `SlotTable.DelAgrees` | redis-7.0.15/src/cluster.c:4351-4392 | freeing an owned slot keeps owner array, bitmaps and counters in agreement |
| `SlotTable.ClusterSlots.AddSlot` | redis-7.0.15/src/cluster.c:4367-4374 | succeeds exactly on a free slot, changes that slot only and keeps the agreement |
| `SlotTable.ClusterSlots.DelSlot` | redis-7.0.15/src/cluster.c:4377-4392 | succeeds exactly on an owned slot; the serverAssert on the owner's bit holds in every valid table |
| `SlotTable.ClusterSlots.GetSlotBit` | redis-7.0.15/src/cluster.c:4359-4361 | the bit of a node's bitmap is set exactly for the slots the owner array gives it |
| `SlotTable.ClusterSlots.CounterExact` | redis-7.0.15/src/cluster.c:4326-4356 | numslots is the number of slots the owner array gives the node, so it is zero exactly if it owns none |
| `SlotTable.ClusterSlots.DelNodeSlots` | redis-7.0.15/src/cluster.c:4396-4406 | frees exactly the slots of the node and returns how many it had |
| `SlotTable.ClusterSlots.UpdateSlotsConfigWith` | redis-7.0.15/src/cluster.c:1867-1950 | slot by slot who owns it after a claim, which owner-not-claiming marks change, and that the dirty slots are exactly those lost with keys, in order; a claim of the node itself changes nothing |
| `SlotTable.ClusterSlots.ProcessClaim` | redis-7.0.15/src/cluster.c:2450-2462 | a ping's claim, with the shortcut on equal bitmaps, is the specification `Receive` on the abstract view |
| `SlotTable.ClusterSlots.DiffersIffBytesDiffer` | redis-7.0.15/src/cluster.c:2450-2456 | the bytes differ if and only if the claim differs from the owner array |
| `SlotTable.ClusterSlots.FailoverReplaceYourMaster` | redis-7.0.15/src/cluster.c:3537-3553 | exactly the old master's slots change hands, all to this node |
| `SlotClaims.StaysWithBest` | redis-7.0.15/src/cluster.c:1867-1950 | once the claimant with the greatest epoch owns a slot under that epoch, no sequence of claims takes it away, whatever the rest of the table says |
| `SlotClaims.Converges` | redis-7.0.15/src/cluster.c:1867-1950 | for every table and every order and repetition of claims: a slot ends with its claimant of greatest epoch if and only if that claimant is heard (after the owner, if the owner has a greater epoch and no longer claims the slot), or it has the slot and nobody challenges it |
| `SlotClaims.UnclaimedStays` | redis-7.0.15/src/cluster.c:1867-1950 | a slot nobody claims keeps its owner in every run |
| `SlotClaims.AllNodesAgree` | redis-7.0.15/src/cluster.c:1867-1950 | two nodes that believe different things and hear claims in different orders agree on every claimed slot once each has heard enough in that sense |
| `SlotClaims.TwoRoundsSuffice` | redis-7.0.15/src/cluster.c:1867-1950 | hearing every master in each of two rounds is enough if and only if the slot is not bound to a node that has left with a greater epoch |
| `SlotClaims.OneRoundIsNotEnough` | redis-7.0.15/src/cluster.c:1867-1950 | hearing every master once is not enough: an owner that dropped the slot shuts out the best claimant until it is heard, and an older claimant comes first |
| `SlotClaims.SlotEffect` | redis-7.0.15/src/cluster.c:1867-1950 | what one ping does to one slot, whether the rest of its claim is news or not |
| `SlotClaims.EpochOnlyGrows` | redis-7.0.15/src/cluster.c:2220-2231 | the recorded epoch of a sender never falls and reaches the one it claims with; those of others stay |
| `SlotClaims.ImportingStays` | redis-7.0.15/src/cluster.c:1905-1909 | a slot that is being imported changes hands by no claim |
| `SlotClaims.ImportingStaysForever` | redis-7.0.15/src/cluster.c:1905-1909 | nor by any sequence of claims |
| `SlotClaims.SkipIsHarmlessIff` | redis-7.0.15/src/cluster.c:2450-2462 | skipping the update on equal bitmaps changes no owner, and loses nothing if and only if no claimed slot carries the owner-not-claiming mark |
| `SlotClaims.StaleMarkLosesSlot` | redis-7.0.15/src/cluster.c:1883-1919 | with such a mark left behind, a claimant with an older epoch takes the slot from its owner |
| `SlotRanges.RunsSeparated` | redis-7.0.15/src/cluster.c:4719-4740 | the ranges of a node are increasing, non-empty and never adjacent |
| `SlotRanges.RunsCover` | redis-7.0.15/src/cluster.c:4719-4740 | a slot lies in a printed range if and only if the node owns it |
| `SlotRanges.RunsFewest` | redis-7.0.15/src/cluster.c:4719-4740 | no list of ranges that covers exactly the slots of the node is shorter |
| `SlotRanges.FewRuns` | redis-7.0.15/src/cluster.c:4763-4792 | a node has no more ranges than slots, which is the room allocated for them |
| `SlotRanges.GenNodeDescription` | redis-7.0.15/src/cluster.c:4719-4740 | the per-node scan, with its early stop, prints the maximal ranges |
| `SlotRanges.GenNodesSlotsInfo` | redis-7.0.15/src/cluster.c:4763-4792 | the single pass over all slots stores for every node not filtered out the same ranges; the serverAssert on the room holds |
| `SlotRanges.LoadRanges` | redis-7.0.15/src/cluster.c:323-374 | fails exactly on a bound outside the slots; otherwise fills exactly the free slots of the ranges and keeps the table valid |
| `SlotRanges.LoadConfig` | redis-7.0.15/src/cluster.c:323-374 | reading the ranges of all nodes back rebuilds the owner array |
| `SlotRanges.SaveAndLoad` | redis-7.0.15/src/cluster.c:4763-4792 | writing the ranges of every node and loading them into an empty table gives the same owner array |
| `SlotKeys.Pushed` | redis-7.0.15/src/cluster.c:6985-7000 | linking an entry at the front of a slot's list keeps it a doubly linked list of exactly the keys of the slot |
| `SlotKeys.Unlinked` | redis-7.0.15/src/cluster.c:7002-7021 | unlinking any entry keeps the list and drops exactly its key |
| `SlotKeys.Replaced` | redis-7.0.15/src/cluster.c:7025-7040 | moving an entry to another address keeps the list, its order and its keys |
| `SlotKeys.OthersKept` | redis-7.0.15/src/cluster.c:6985-7040 | a change of one slot's list leaves every other slot's list, head and count correct |
| `SlotKeys.SlotIndex.AddEntry` | redis-7.0.15/src/cluster.c:6985-7000 | the new key heads the list of its slot; all lists and counters stay exact |
| `SlotKeys.SlotIndex.DelEntry` | redis-7.0.15/src/cluster.c:7002-7021 | the entry leaves its list, the others keep their order; all lists and counters stay exact |
| `SlotKeys.SlotIndex.ReplaceEntry` | redis-7.0.15/src/cluster.c:7025-7040 | after a reallocation the list holds the new address in the old place and no pointer to the old one |
| `SlotKeys.SlotIndex.DelKeysInSlot` | redis-7.0.15/src/cluster.c:7061-7073 | removes exactly the keys of the slot, returns their number, and leaves an empty list |
| `Crc16.StepXor` | redis-7.0.15/src/crc16.c:34-41 | a division step is linear over exclusive or |
| `Crc16.TableIsDivision` | redis-7.0.15/src/crc16.c:48-81 | every one of the 256 table entries is eight division steps by the XMODEM polynomial |
| `Crc16.RoundIs` | redis-7.0.15/src/crc16.c:82-88 | a table round is the bitwise division of one more byte |
| `Crc16.Crc16` | redis-7.0.15/src/crc16.c:82-88 | the loop computes the fold of rounds |
| `Crc16.CrcIsRemainder` | redis-7.0.15/src/crc16.c:34-88 | for every message the table-driven checksum is the remainder of long division, bit by bit, of the message polynomial |
| `Crc16.ResidueIsZero` | redis-7.0.15/src/crc16.c:34-88 | a message followed by its own checksum has checksum zero |
| `Crc16.CheckValue` | redis-7.0.15/src/crc16.c:34-44 | the published check value of this checksum, for the digits 1 to 9 |
| `Crc16.KeyHashSlot` | redis-7.0.15/src/cluster.c:939-958 | the slot is the checksum modulo 16384 of the hash tag, or of the key if it has no non-empty tag |
| `Crc16.SlotIsModulo` | redis-7.0.15/src/cluster.c:939-958 | the slot is the checksum modulo 16384 |
| `Crc16.TagOfTag` | redis-7.0.15/src/cluster.c:939-958 | the tag of a tag is the tag itself, for all keys |
| `Crc16.SameTagSameSlot` | redis-7.0.15/src/cluster.c:939-958 | any key with tag t, whatever precedes and follows the braces, is in the slot of t |
| `Crc16.WholeKeyHashed` | redis-7.0.15/src/cluster.c:939-958 | a part of the key is hashed only if it stands between the first opening brace and the first closing one after it and is not empty; otherwise the whole key is |
| `AofRewrite.AofServer.Feed` | redis-7.0.15/src/aof.c:1309-1348 | a command runs on its database and is buffered, with a SELECT exactly if another database was fed last, in the two states that log; disk plus buffer still replays to the live dataset, each command on its database |
| `AofRewrite.AofServer.Flush` | redis-7.0.15/src/aof.c:1062-1263 | any number of buffered items, and possibly a part of one more, reach the file; every crash point stays recoverable if and only if no part is written to a log that is not the last one listed on disk |
| `AofRewrite.AofServer.PersistManifest` | redis-7.0.15/src/aof.c:525-607 | the manifest on disk after success, failure before the rename and failure after the rename |
| `AofRewrite.AofServer.OpenNewIncrAofForAppend` | redis-7.0.15/src/aof.c:790-853 | the whole state after opening a new log, for every outcome; with a valid server before, it is valid after if and only if the closed log does not end inside a command and what is left in the buffer runs alike from database 0, where the replay of a new file begins |
| `AofRewrite.AofServer.RewriteAppendOnlyFileBackground` | redis-7.0.15/src/aof.c:2431-2483 | the whole state after starting a rewrite; it is safe if and only if the flush, the rotation and the fork are each safe in that sense, in particular whenever the flush wrote everything |
| `AofRewrite.AofServer.StartAppendOnly` | redis-7.0.15/src/aof.c:974-1015 | turning the log on leaves the server valid, waiting for its first rewrite, or off if that could not be started |
| `AofRewrite.AofServer.StopAppendOnly` | redis-7.0.15/src/aof.c:951-970 | turning the log off, also during a rewrite, keeps every crash point recoverable under the exact condition of its flush |
| `AofRewrite.AofServer.DelHistoryFiles` | redis-7.0.15/src/aof.c:668-692 | deletes history files only, and every one of them that can be unlinked, keeps the load at every crash point, and empties the list |
| `AofRewrite.AofServer.BackgroundRewriteDone` | redis-7.0.15/src/aof.c:2572-2724 | installing a rewrite keeps recovery at every crash point if and only if the manifest was not reported as failed after its rename while the log was on; state, buffer and dataset after each outcome; which files the new manifest names, and that the ones it makes history are gone if they can be unlinked |
| `AofRewrite.AofServer.DraftManifest` | redis-7.0.15/src/aof.c:427-472 | the next manifest in memory is well-formed and, with a log open, lists one base and exactly the log being written |
| `AofRewrite.AofServer.MarkRewrittenIncrAofAsHistory` | redis-7.0.15/src/aof.c:492-522 | all incremental files except the one being written become history, in order |
| `AofRewrite.AofServer.Restart` | redis-7.0.15/src/aof.c:713-763 | a new process that loads the disk and cuts a torn log back is valid; its dataset is what the disk loads to, and running the lost buffer on it gives the old dataset |
| `AofRewrite.AofServer.PurgeHistory` | redis-7.0.15/src/aof.c:668-692 | removing history files outside a rewrite keeps the server valid, and every one that can be unlinked goes |
| `AofRewrite.AofServer.Serve` | redis-7.0.15/src/aof.c:2431-2724 | any sequence of commands, flushes, rewrites, exits, switches and restarts up to the first event that breaks the log: loading any state the disk was in, then the buffer of that moment, gives the dataset of that moment; what every event does to dataset, buffer and state; with complete flushes before rewrites and no late manifest failure no event breaks it |
| `AofRewrite.AofServer.WriteDisk` | redis-7.0.15/src/aof.c:525-607 | every change of the disk is recorded as a crash point; nothing else changes it |
| `AofRewrite.FlushKeeps` | redis-7.0.15/src/aof.c:1062-1263 | the exact condition under which a flush, complete or not, keeps the invariant and its crash point recoverable |
| `AofRewrite.RotateKeeps` | redis-7.0.15/src/aof.c:816-845 | creating, listing and switching to the new log: each crash point and the state after it are recoverable exactly if the old log is whole and the leftover runs alike from database 0 |
| `AofRewrite.OpenedEffect` | redis-7.0.15/src/aof.c:790-853 | what opening a new log leaves in memory, on disk and in the descriptor, for each state and outcome; no old file changes |
| `AofManifest.HistoryNotCurrent` | redis-7.0.15/src/aof.c:668-692 | no history file is ever one the manifest on disk asks to load |
| `AofRewrite.ForkKeeps` | redis-7.0.15/src/aof.c:2451-2479 | after a new log was opened: the child's snapshot plus the new log is the dataset if and only if running the remaining buffer again, from database 0, changes nothing |
| `AofManifest.NewMemoryOk` | redis-7.0.15/src/aof.c:427-522 | the drafted manifest keeps sequence numbers increasing and history older than everything in use |
| `AofManifest.RewrittenHistory` | redis-7.0.15/src/aof.c:427-522 | a finished rewrite makes history of the old base, of all older history and of every log but the one being written, if there is one; which base and log remain |
| `AofRewrite.NewPairLoads` | redis-7.0.15/src/aof.c:2572-2700 | the child's base and the log written since the fork load to the live dataset |
| `AofManifest.LoadEmptyTail` | redis-7.0.15/src/aof.c:1708-1739 | an empty log added to the list changes nothing that is loaded if the log before it is whole; if that one is torn nothing loads |
| `AofManifest.LoadAppend` | redis-7.0.15/src/aof.c:1384-1630 | items appended to the last listed log are replayed last, on the database that log has selected |
| `AofManifest.LoadsIff` | redis-7.0.15/src/aof.c:1634-1757 | exactly when the server starts: a manifest with positive, increasing sequence numbers, a snapshot if a base is listed, every listed log present, and none but the last ending inside a command |
| `AofManifest.SameFromAny` | redis-7.0.15/src/aof.c:1325-1332 | items that begin with a SELECT run alike from any database, for every dataset |
| `AofRun.RewriteBreaksIff` | redis-7.0.15/src/aof.c:2443-2479 | exactly when starting a rewrite loses, repeats or moves a command, said of what is in the log and in the buffer: a torn log is closed or no longer last, the leftover starts with a command and the log did not end on database 0, or the child is forked with a command in the buffer |
| `AofRun.CarriesIff` | redis-7.0.15/src/aof.c:2443-2447 | a leftover runs alike in the new log if and only if the old log ends on database 0 or the leftover begins with a SELECT |
| `AofRun.CarriesIf` | redis-7.0.15/src/aof.c:2443-2447 | that condition suffices for every dataset |
| `AofRun.FlushReaches` | redis-7.0.15/src/aof.c:1062-1263 | after a flush what a restart would find lacks exactly the commands among the items left in the buffer; after a complete one it lacks nothing |
| `AofRun.FlushedIsKept` | redis-7.0.15/src/aof.c:1062-1263 | in every run, while the log is on: whatever has reached the disk stays a prefix of the history, through any number of flushes, rewrites and crashes |
| `AofRun.HistoryIs` | redis-7.0.15/src/aof.c:1309-1348 | in every run the history is the sequence of its commands, less exactly the commands in the buffer at each crash |
| `AofRun.LeftoverRuns` | redis-7.0.15/src/aof.c:2445-2447 | for every server and dataset: a buffer left over by a rotation is run from database 0 by the next restart |
| `AofRun.LeftoverRunsElsewhere` | redis-7.0.15/src/aof.c:2445-2447 | a run of the handlers in which a command on database 1, left in the buffer by a rotation, is restored on database 0, without any rewrite |
| `AofRun.SplitCommandLosesEverything` | redis-7.0.15/src/aof.c:1729-1734 | if a rotation closes a log that ends inside a command, nothing loads any more |
| `AofRun.BufferRunsAgain` | redis-7.0.15/src/aof.c:2440-2483 | for every server right after a rotation: if the child is forked with commands in the buffer, the rewritten log loads to the dataset with the buffer run once more |
| `AofRun.UnflushedCommandRunsTwice` | redis-7.0.15/src/aof.c:2440-2483 | a run of the handlers from an empty server to a valid state from which such a rewrite loads a command twice |
| `AofRun.LateFailureLosesEverything` | redis-7.0.15/src/aof.c:2654-2668 | after a manifest that is in place but reported as failed, the undo unlinks the base it names and nothing loads |
| `AofLog.DigitsRoundTrip` | redis-7.0.15/src/aof.c:1265-1293 | printing a number in decimal and reading it gives it back, for all numbers |
| `AofLog.CatAppendOnlyGenericCommand` | redis-7.0.15/src/aof.c:1265-1293 | appends exactly the protocol form of the command |
| `AofLog.CommandReads` | redis-7.0.15/src/aof.c:1455-1573 | the loader reads every printed command back, arguments of any bytes included, whatever follows |
| `AofLog.CommandTears` | redis-7.0.15/src/aof.c:1455-1573 | every proper non-empty prefix of a command is recognised as torn, never as a command or a format error |
| `AofLog.Feeder.Feed` | redis-7.0.15/src/aof.c:1309-1348 | timestamp, SELECT when the database changes, then the command, and the database selected afterwards |
| `AofLog.Feeder.FeedAll` | redis-7.0.15/src/aof.c:1309-1348 | a run of writes appends their concatenation with each SELECT where the database changes |
| `AofLoad.Fgets` | redis-7.0.15/src/aof.c:1471-1478 | the line read by fgets, bounded by the buffer |
| `AofLoad.LoadArgs` | redis-7.0.15/src/aof.c:1491-1521 | the argument loop equals the grammar `ReadArgs` on the rest of the file |
| `AofLoad.LoadItem` | redis-7.0.15/src/aof.c:1471-1521 | one round of parsing equals the grammar `ReadItem`, and makes progress |
| `AofLoad.LoadSingleAppendOnlyFile` | redis-7.0.15/src/aof.c:1384-1630 | the whole loader, with transactions, truncation and its error exits, equals the specification `Load` |
| `AofLoad.LoadsCommand` | redis-7.0.15/src/aof.c:1455-1573 | a printed command at the front of the rest is processed and loading goes on behind it |
| `AofLoad.ProcessEffect` | redis-7.0.15/src/aof.c:1534-1559 | what one command does to the loader, in and out of a transaction, with the two offsets it keeps |
| `AofLoad.SelectEffect` | redis-7.0.15/src/aof.c:1534-1559 | a SELECT of an existing database, in canonical form, selects it |
| `AofCut.LoadsTokens` | redis-7.0.15/src/aof.c:1455-1573 | whole commands and annotations at the front are taken in one after the other, in or out of a transaction |
| `AofCut.CutFrom` | redis-7.0.15/src/aof.c:1455-1627 | the first k bytes of any log, from any state of the loader: the whole commands are processed, then a cut inside a command is a torn file and any other cut an end of file |
| `AofCut.TrimmedThrough` | redis-7.0.15/src/aof.c:1559 | the last valid offset is the end of the last whole command, before any annotation that follows it |
| `AofCut.CutLog` | redis-7.0.15/src/aof.c:1455-1627 | a log with any transactions, cut at any byte: what has run, the status, and where the file is cut back to, or that the server refuses to start |
| `AofCut.Refuses` | redis-7.0.15/src/aof.c:1471-1532 | whatever was logged before, the loader fails on an unknown command, another first byte, a count of zero arguments or a missing argument, and has run exactly what came before |
| `AofHistory.UnitThrough` | redis-7.0.15/src/server.c:3232-3278 | replaying what a write or a transaction fed runs exactly it, each command in its database, with SELECTs queued inside the transaction |
| `AofHistory.PartialUnit` | redis-7.0.15/src/aof.c:1534-1547 | part of a write or of a transaction runs nothing; once MULTI is in, the rest is queued |
| `AofHistory.RunQueueIs` | redis-7.0.15/src/multi.c:196-243 | EXEC runs the queue in order, each command in the database selected by the ones before |
| `AofHistory.CrashKeepsPrefix` | redis-7.0.15/src/aof.c:1309-1573 | whatever prefix of the fed bytes is in the file, loading it runs exactly the writes and transactions wholly in it, each transaction as a whole or not at all; the exact status: the server refuses to start only if the file ends inside a command or a transaction and may not be cut back |
| `AofRestart.FedLogReplays` | redis-7.0.15/src/aof.c:1309-1348 | loading what any history of writes and transactions fed runs exactly that history |
| `AofRestart.OpenTransaction` | redis-7.0.15/src/aof.c:1564-1615 | a history cut inside a transaction: nothing of it runs; the file is cut back to before its MULTI, unless the cut is inside a command |
| `AofRestart.LaterInMulti` | redis-7.0.15/src/aof.c:1534-1547 | what is logged behind a transaction that was never closed is lost, unless it brings an EXEC, which then also runs the rest of the open transaction; the transaction stays open exactly if none does |
| `AofRestart.AfterNote` | redis-7.0.15/src/aof.c:1471-1479 | what is logged behind an unfinished annotation is read if it starts with an annotation and otherwise makes the load fail |
| `AofRestart.NextRestartIff` | redis-7.0.15/src/aof.c:1564-1615 | restart on any prefix of a fed log, log on, restart again: the second restart finds the surviving units and all later ones if and only if the cut was harmless, with the exact condition on where it fell and the exact status of both loads |
| `AofFlush.Aof.OpenOnStart` | redis-7.0.15/src/aof.c:741-757 | the file found at start-up, opened for append, is aligned and synced |
| `AofFlush.Aof.OpenNew` | redis-7.0.15/src/aof.c:816-845 | a new incremental file is not opened for append; the buffer is meant for it, the old file is kept in the account |
| `AofFlush.Aof.AofWrite` | redis-7.0.15/src/aof.c:1024-1041 | how many bytes are reported and which bytes are in the file for every script of interrupted, short and failing writes |
| `AofFlush.Aof.WriteFailed` | redis-7.0.15/src/aof.c:1141-1214 | after a failed or short write file plus buffer is what was fed; the next write is placed right if and only if no short write was undone in a file without append mode |
| `AofFlush.Aof.WriteBuffer` | redis-7.0.15/src/aof.c:1124-1230 | the same for the write with its retry and its exit |
| `AofFlush.Aof.TryFsync` | redis-7.0.15/src/aof.c:1232-1263 | what each fsync policy has synced or asked for on return |
| `AofFlush.Aof.Flush` | redis-7.0.15/src/aof.c:1062-1263 | no flush loses, repeats or reorders a byte; the exact condition for the next one to be placed right; with policy always, the exact condition under which the server exits, otherwise all that was fed is in the file on return, and on disk unless fsync is switched off |
| `AofFlush.Aof.Serve` | redis-7.0.15/src/aof.c:1062-1263 | over any run up to an exit or a misplaced file: closed files, file and buffer together are what was there before and then the data of the events; each rotation closes one more file and nothing else does; no file is misplaced in append mode or if no short write is undone |
| `AofFlush.Aof.ServeAlways` | redis-7.0.15/src/aof.c:1062-1263 | policy always: the same account; after every flush the file holds all fed bytes, and the disk does, with every closed file, unless fsync is switched off |
| `AofFlush.Aof.ServeEverySecond` | redis-7.0.15/src/aof.c:1083-1122 | policy everysec with a disk that works, over any run with a clock that does not go back: a flush leaves the buffer only while an fsync is running and for less than two seconds; the first flush of a new second that finds no fsync running asks for the whole file to be synced |
| `AofFlush.PutPut` | redis-7.0.15/src/aof.c:1024-1041 | two writes in a row are one write of both |
| `AofFlush.PutAt` | redis-7.0.15/src/aof.c:1024-1041 | a write changes the bytes it is given and no others |
| `AofFlush.HoleFollows` | redis-7.0.15/src/aof.c:1176-1192 | a write past the end leaves zeros in the file, which then differs from what was fed |
| `AofFlush.LeaveHole` | redis-7.0.15/src/aof.c:1141-1214 | a run of the flush code that rotates, writes short, takes it back and writes again leaves zeros in the file that nobody fed |
| `AofFlush.ShortNeedsError` | redis-7.0.15/src/aof.c:1024-1041 | the whole buffer is written unless some write fails |
| `Durability.StopAnyTime` | redis-7.0.15/src/aof.c:1062-1348 | the server may stop at any moment, also in a failing flush: the file replays to a prefix of the writes and transactions, with the exact status, and to all of them once the buffer is empty |
| `Durability.Acknowledge` | redis-7.0.15/src/aof.c:1062-1348 | policy always, with failing writes and fsyncs: whatever the disk remembers between what was synced and what was written replays to a prefix of the history that contains every acknowledged write and transaction, with the exact status |
| `Durability.HoleStopsLoader` | redis-7.0.15/src/aof.c:1141-1214 | after any history, such a hole makes the next load run the history before it and fail |
| `AofFiles.LoadAppendOnlyFiles` | redis-7.0.15/src/aof.c:1634-1757 | the loop over the files equals the specification `LoadFiles`: a fresh client per file, an empty file is skipped, a truncated file that is not the last one is fatal |
| `AofFiles.FilesReplay` | redis-7.0.15/src/aof.c:1634-1757 | any number of rotations with an empty buffer, the last file cut at any byte: the files replay to a prefix of the whole history, with the exact status |
| `AofFiles.RotationIff` | redis-7.0.15/src/aof.c:2443-2447 | a rotation with bytes left in the buffer, at any byte of any history: the files replay everything fed before and after if and only if the file was closed between two commands, outside a transaction, and its last database is 0 or the leftover selects one before it writes |
| `AofFiles.NothingLeft` | redis-7.0.15/src/aof.c:2443-2447 | a flush that writes everything meets that condition |
| `AofFiles.ThroughRuns` | redis-7.0.15/src/aof.c:1522-1557 | from any state of the loader: commands run in the order of the file, each on the database selected before it, wherever transactions begin and end |
| `AofFiles.DbMatters` | redis-7.0.15/src/networking.c:135 | commands run alike from two databases if and only if they select one before the first write |
| `AofFiles.LeftoverInWrongDatabase` | redis-7.0.15/src/aof.c:1325-1332 | two writes to the same database other than 0, the second one left over: it is replayed on database 0 |
| `AofFiles.RotateAndGoOn` | redis-7.0.15/src/aof.c:2443-2447 | the flush code, a rotation and further writes: with the files it leaves, the restart finds everything under exactly that condition, and whenever the flush wrote everything |
| `AclRules.ApplyKeeps` | redis-7.0.15/src/acl.c:997-1157 | every rule keeps the selector well-formed; only +@all and -@all touch the reserved bit |
| `AclRules.Reachable` | redis-7.0.15/src/acl.c:997-1157 | every selector built by rules is well-formed |
| `AclRules.SameDecides` | redis-7.0.15/src/acl.c:1612-1637 | selectors that differ at most in the ALLCOMMANDS flag decide alike on all commands with an id in the bitmap; on the whole table if and only if the flags agree or no id overflows |
| `AclRules.SameKept` | redis-7.0.15/src/acl.c:997-1157 | applying one more rule to both keeps them so |
| `AclRules.SameForever` | redis-7.0.15/src/acl.c:997-1157 | no later sequence of rules can tell them apart |
| `AclRules.UnresetAreSubs` | redis-7.0.15/src/acl.c:556-570 | a category rule keeps first arguments only of subcommands, which cannot have any |
| `AclRules.OrderIrrelevant` | redis-7.0.15/src/acl.c:556-570 | the result of any rules does not depend on the iteration order of the command dictionary |
| `AclRules.CommandIds.GetCommandId` | redis-7.0.15/src/acl.c:1456-1481 | one id per name for ever, never the reserved one, distinct names get distinct ids |
| `AclMeaning.RulesDecide` | redis-7.0.15/src/acl.c:997-1157 | after any sequence of rules a command may run, with a given first argument or none, if and only if some rule grants it and no later one denies it |
| `AclMeaning.CategoryRule` | redis-7.0.15/src/acl.c:541-570 | a category rule allows or denies exactly the commands in the category and the direct subcommands of containers in it, module commands aside; every other command keeps every decision |
| `AclMeaning.SingleRule` | redis-7.0.15/src/acl.c:541-553 | a rule for one command allows or denies it and its subcommands, and no other command |
| `AclMeaning.FirstArgRule` | redis-7.0.15/src/acl.c:1092-1146 | a first argument is allowed for its command in any case of letters, and nothing else changes |
| `AclMeaning.OverflowingCommand` | redis-7.0.15/src/acl.c:528-537 | a command past the end of the bitmap may run only while all may; denying ends that exactly if a denied command has a bit |
| `AclMeaning.SameTextIff` | redis-7.0.15/src/acl.c:1628-1637 | texts are compared letter by letter up to the case of A to Z |
| `AclDescribe.AclSelector.SetCommandBit` | redis-7.0.15/src/acl.c:528-537 | changes one bit, and drops ALLCOMMANDS when clearing |
| `AclDescribe.AclSelector.ChangePerm` | redis-7.0.15/src/acl.c:541-554 | changes a command and its subcommands and resets its first arguments |
| `AclDescribe.AclSelector.SetBitsForCategory` | redis-7.0.15/src/acl.c:556-570 | the recursion over the tables touches exactly the commands of the category |
| `AclDescribe.AclSelector.AddAllowedFirstArg` | redis-7.0.15/src/acl.c:905-931 | a first argument is added once |
| `AclDescribe.AclSelector.SetSelector` | redis-7.0.15/src/acl.c:997-1157 | one rule on the selector in place equals the specification `Apply` |
| `AclDescribe.AclSelector.CheckCommand` | redis-7.0.15/src/acl.c:1612-1637 | allowed exactly by the flag, the bit, or a listed first argument |
| `AclDescribe.CountCategoryBits` | redis-7.0.15/src/acl.c:585-601 | counts the commands of a category that are on and off, subcommands included |
| `AclDescribe.CountIsSize` | redis-7.0.15/src/acl.c:585-601 | the counts of a category are the numbers of its commands, at any depth, with the bit on and off |
| `AclDescribe.BestCategory` | redis-7.0.15/src/acl.c:704-733 | picks a category with more agreements than differences, minimal in differences, then maximal in agreements; none only if there is none |
| `AclDescribe.DescribeSingleCommands` | redis-7.0.15/src/acl.c:618-651 | afterwards every command of the table has the right bit and first arguments, and none outside is touched |
| `AclDescribe.AddCategories` | redis-7.0.15/src/acl.c:690-755 | the category loop ends, and the rules written so far describe the fake selector |
| `AclDescribe.EmitsList` | redis-7.0.15/src/acl.c:636-646 | the rules for a list of first arguments rebuild that list in order and nothing else |
| `AclDescribe.FullyDescribed` | redis-7.0.15/src/acl.c:755-773 | once all commands are done, the rules rebuild all bits and first arguments: the final comparison, which would panic, always succeeds |
| `AclDescribe.DescribeCommandRules` | redis-7.0.15/src/acl.c:660-773 | for every reachable selector the printed rules are legal and, applied to a new selector, give the same one up to the ALLCOMMANDS flag |
| `AclText.SplitLen` | redis-7.0.15/src/sds.c:926-972 | the splitting loop equals the pieces between separators |
| `AclText.SplitJoin` | redis-7.0.15/src/sds.c:926-972 | joining and splitting gives the pieces back if and only if none contains the separator |
| `AclText.JoinPieces` | redis-7.0.15/src/sds.c:926-972 | joining what was split always gives the text back |
| `AclText.FindsNode` | redis-7.0.15/src/server.c:3020-3074 | the full name of every command and subcommand is looked up to itself |
| `AclText.ReadsBack` | redis-7.0.15/src/acl.c:1082-1157 | every legal rule is parsed back from its text |
| `AclText.ReadsOnly` | redis-7.0.15/src/acl.c:1082-1157 | what the parser accepts is the printed form of the rule it understands, up to the case of letters, or one of the two old words for all and no commands |
| `AclText.Spelled` | redis-7.0.15/src/acl.c:1082-1157 | how each kind of rule is written |
| `AclText.ReadsLegal` | redis-7.0.15/src/acl.c:1082-1157 | every text the parser accepts is a legal rule, or a first argument of a command past the bitmap |
| `AclText.DescriptionReadsBackIff` | redis-7.0.15/src/acl.c:618-773 | the description splits back into its rules if and only if no first argument contains a space |
| `AclText.SpacedArgument` | redis-7.0.15/src/acl.c:618-773 | such a first argument is accepted and does not read back |
| `AclRoundTrip.ReadableIff` | redis-7.0.15/src/acl.c:618-773 | a rule with a space is emitted if and only if a first argument the selector needs holds one |
| `AclRoundTrip.WriteAndRead` | redis-7.0.15/src/acl.c:618-773 | describing, printing, splitting, parsing and applying: the text falls into its rules again if and only if no needed first argument holds a space, and the selector read back is then the same up to the ALLCOMMANDS flag |
| `BitString.FirstInIs` | redis-7.0.15/src/bitops.c:94-100 | the reference answer is the least matching position of a range, or -1 exactly if there is none |
| `BitString.RangeIs` | redis-7.0.15/src/bitops.c:833-837 | which bits a range takes in, for both units: those at or after the start and at or before the end, each counted from the end of the string if negative |
| `BitPos.RedisBitpos` | redis-7.0.15/src/bitops.c:101-186 | for every string and alignment the word-wise search returns the first position of the bit, one past the end for a missing 0, -1 for a missing 1 |
| `BitPos.SearchRange` | redis-7.0.15/src/bitops.c:930-1001 | first byte, middle and last byte with their masks give the first position inside the bit range |
| `BitPos.BitposCommand` | redis-7.0.15/src/bitops.c:877-1001 | the reply for all start, end and BYTE or BIT forms is the least matching position of the clamped range, past the end only if no end was given |
| `BitPos.AnswerMeans` | redis-7.0.15/src/bitops.c:877-1001 | the reply is the least matching bit among those the range takes in; without one it is -1, or the end of the string when looking for a zero without an explicit end |
| `BitCount.StepsCount` | redis-7.0.15/src/bitops.c:66-88 | the shift-and-mask steps leave in every byte of the word the number of bits of that byte |
| `BitCount.AddSums` | redis-7.0.15/src/bitops.c:66-88 | adding seven such words never carries from one byte to the next |
| `BitCount.TimesSums` | redis-7.0.15/src/bitops.c:66-88 | multiplying by 0x01010101 brings the sum of the four bytes to the top |
| `BitCount.PopBlock` | redis-7.0.15/src/bitops.c:50-88 | 28 bytes at a time are counted exactly |
| `BitCount.RedisPopcount` | redis-7.0.15/src/bitops.c:40-92 | for every string and alignment the result is the number of bits set |
| `BitCount.EdgeCounts` | redis-7.0.15/src/bitops.c:855-868 | the masked first and last byte hold exactly the bits outside the range |
| `BitCount.BitcountCommand` | redis-7.0.15/src/bitops.c:796-873 | the reply for all forms is the number of set bits in the clamped range |
| `BitCount.CountMeans` | redis-7.0.15/src/bitops.c:796-873 | the reply is the number of set bits among those the range takes in, or zero for two negative ends in the wrong order |
| `BitCount.WholeRange` | redis-7.0.15/src/bitops.c:833-837 | 0 to -1, and minus the length to -1, are the whole string, as bytes and as bits |
| `BitField.GetUnsigned` | redis-7.0.15/src/bitops.c:229-241 | reads the field at any bit offset, most significant bit first |
| `BitField.GetSigned` | redis-7.0.15/src/bitops.c:243-263 | reads the field as two's complement |
| `BitField.SignCopied` | redis-7.0.15/src/bitops.c:243-263 | setting all bits above a set sign bit gives the two's complement of the field |
| `BitField.ReadsBytes` | redis-7.0.15/src/bitops.c:229-242 | a field of one byte is the byte, one of two bytes is big-endian |
| `BitField.SetUnsigned` | redis-7.0.15/src/bitops.c:209-222 | the field then reads as the value modulo 2^bits, and no other bit changes |
| `BitField.WrapUnsignedIs` | redis-7.0.15/src/bitops.c:314-322 | clearing the bits above the field gives the sum modulo 2^bits |
| `BitField.WrapSignedIs` | redis-7.0.15/src/bitops.c:358-377 | testing the sign bit and setting or clearing the bits above gives the two's complement of the sum modulo 2^bits, for all widths |
| `BitField.UnsignedExact` | redis-7.0.15/src/bitops.c:288-323 | INCRBY: overflow is reported exactly if the true sum does not fit; wrapping and saturation give the mathematical value |
| `BitField.UnsignedSet` | redis-7.0.15/src/bitops.c:288-323 | SET: the same, except that saturation is right if and only if the value is not negative |
| `BitField.SignedExact` | redis-7.0.15/src/bitops.c:325-378 | signed INCRBY for all widths up to 64: overflow exactly if the true sum does not fit, wrapped and saturated values exact |
| `BitField.SignedSet` | redis-7.0.15/src/bitops.c:325-378 | signed SET: saturation is right if and only if the distance to the maximum fits in 63 bits |
| `BitField.SaturatesUpwards` | redis-7.0.15/src/bitops.c:325-378 | the smallest 64-bit value set in an 8-bit field with SAT gives 127 |
| `BitField.Execute` | redis-7.0.15/src/bitops.c:1136-1214 | SET and INCRBY under every policy: fails exactly if the policy is fail and the number asked for does not fit, and then changes nothing; otherwise the field is that number if it fits, one that differs by a multiple of the width, or the nearest one that fits, with the exact exception; the reply; no other bit changes |
| `BitField.StoredRight` | redis-7.0.15/src/bitops.c:1154-1200 | the checks decide exactly whether the number fits, and what they put in its place is right |
| `BitField.ReadBack` | redis-7.0.15/src/bitops.c:209-263 | a fitting value that was stored is read back |
| `BitField.Get` | redis-7.0.15/src/bitops.c:1215-1248 | reading through the nine-byte window equals reading the string extended by zeros |
| `BitOp.Lengths` | redis-7.0.15/src/bitops.c:639-682 | minimum and maximum of the lengths, attained by a source |
| `BitOp.Settled` | redis-7.0.15/src/bitops.c:738-768 | stopping early on 0 for AND or 0xff for OR does not change the byte |
| `BitOp.WordLane` | redis-7.0.15/src/bitops.c:684-737 | the bytes of a loaded machine word are the bytes of the string |
| `BitOp.CombineLane` | redis-7.0.15/src/bitops.c:684-737 | every byte of two words combined by AND, OR, XOR or NOT is the combination of their bytes |
| `BitOp.CombineWord` | redis-7.0.15/src/bitops.c:684-737 | combining a word of a source into the result combines eight bytes and changes no other |
| `BitOp.FastPath` | redis-7.0.15/src/bitops.c:684-737 | every byte done four machine words at a time is the fold of all sources |
| `BitOp.Bitop` | redis-7.0.15/src/bitops.c:607-771 | the result is as long as the longest source and every byte is the fold of the sources padded with zeros; NOT of several sources is refused |
| `BitOp.AndBits` | redis-7.0.15/src/bitops.c:639-771 | a bit is set if and only if it is set in all sources |
| `BitOp.OrBits` | redis-7.0.15/src/bitops.c:639-771 | a bit is set if and only if it is set in some source |
| `BitOp.XorBits` | redis-7.0.15/src/bitops.c:639-771 | a bit is set if and only if it is set in an odd number of sources |
| `BitOp.NotBits` | redis-7.0.15/src/bitops.c:747-749 | NOT sets the bits its source does not have |
| `BlockedKeys.Registry.constructor` | redis-7.0.15/src/blocked.c:729-769 | no client waits, the ready list is empty |
| `BlockedKeys.Registry.BlockForKeys` | redis-7.0.15/src/blocked.c:729-769 | the client joins the end of the list of each distinct key, and the two indexes stay mirror images |
| `BlockedKeys.Registry.BlockClient` | redis-7.0.15/src/blocked.c:89-106 | the counters per type and in total stay exact |
| `BlockedKeys.Registry.UnblockWaitingData` | redis-7.0.15/src/blocked.c:777-811 | the client leaves exactly the lists it was on; empty lists are removed |
| `BlockedKeys.Registry.UnblockClient` | redis-7.0.15/src/blocked.c:179-215 | one client leaves every list of every key and the counters, and is queued once |
| `BlockedKeys.Registry.QueueForReprocessing` | redis-7.0.15/src/blocked.c:168-175 | a client is in the queue at most once |
| `BlockedKeys.Registry.SignalKeyAsReady` | redis-7.0.15/src/blocked.c:830-866 | a key somebody waits for with that type becomes ready; it enters the list at most once |
| `BlockedKeys.Registry.ServeClients` | redis-7.0.15/src/blocked.c:285-598 | whom a serving loop serves, for every choice of whom the data suits: the first of them in arrival order; exactly these leave the lists, the others keep their places; a served client can only make keys ready |
| `BlockedKeys.Registry.ServeBatch` | redis-7.0.15/src/blocked.c:285-388 | one pass for a key serves exactly the clients the specification names; for a list or a sorted set these are the first that blocked, in that order, and nobody of the type is passed over while elements remain |
| `BlockedKeys.Registry.ServeOne` | redis-7.0.15/src/blocked.c:296-333 | the served client leaves every list; a key it moves its element to is ready if a client waits for it |
| `BlockedKeys.Registry.HandleKey` | redis-7.0.15/src/blocked.c:621-690 | who has left after one ready key, as a function of the lists before and of what is stored at the key; everybody else keeps their place; new keys become ready only if a client was served |
| `BlockedKeys.Registry.HandleClientsBlockedOnKeys` | redis-7.0.15/src/blocked.c:621-697 | the loop over ready lists ends, with no key left ready and all indexes exact; the keys that were ready are handled first, in their order, and exactly the clients these passes serve have left |
| `BlockedKeys.Registry.TakeUnblocked` | redis-7.0.15/src/blocked.c:127-150 | clients are taken in the order they were queued |
| `BlockedKeys.Registry.Serve` | redis-7.0.15/src/blocked.c:89-866 | any sequence of blocking, timeouts, writes and event loop steps: what each event does to the blocked clients, the lists and the ready keys |
| `BlockedKeys.ServedFair` | redis-7.0.15/src/blocked.c:285-333 | in a list ordered by arrival no served client arrived after one that was passed over |
| `BlockedKeys.LosesEverywhere` | redis-7.0.15/src/blocked.c:777-811 | a client that leaves the lists it recorded is on no list at all |
| `BlockedKeys.GainKeeps` | redis-7.0.15/src/blocked.c:729-769 | joining at the end keeps every list ordered by arrival |
| `BlockedKeys.LoseKeeps` | redis-7.0.15/src/blocked.c:777-811 | leaving keeps every list ordered by arrival |
| `BlockedKeys.GoneOn` | redis-7.0.15/src/blocked.c:636-690 | whom a sequence of passes serves is whom its first part serves and then whom the rest serves from the lists left |
| `BlockedRuns.WaitingInOrder` | redis-7.0.15/src/blocked.c:729-811 | in every run from the empty registry, at every moment: the list of each key holds exactly the blocked clients whose command names the key, in the order of these commands |
| `BlockedRuns.FirstComeFirstServed` | redis-7.0.15/src/blocked.c:285-388 | in every run each pass for a list or a sorted set serves those whose blocking command came first, in that order, and passes nobody over while elements remain |
| `BlockedServing.KeyGone` | redis-7.0.15/src/blocked.c:657-680 | who is unblocked by one ready key: a client that waits for a list or a sorted set if that is stored there and few enough of its kind are ahead, a stream reader with new entries, a group member whose stream is gone, a module client its module accepts; nobody else |
| `BlockedServing.ReadyKeysServed` | redis-7.0.15/src/blocked.c:621-697 | in every run, after a command: the keys that were ready are handled first, in their order, and at each key exactly those clients are unblocked and leave all queues |
| `BlockedServing.FirstReadyKey` | redis-7.0.15/src/blocked.c:285-388 | in every run: if the first ready key holds a list or a sorted set, every client of that type before whom few enough others blocked is unblocked afterwards |
| `BlockedServing.AheadIsEarlier` | redis-7.0.15/src/blocked.c:288-297 | those ahead in the queue of a key are the clients whose blocking command came earlier |
| `BlockedServing.BlocksNow` | redis-7.0.15/src/blocked.c:729-769 | a client that has to wait for a list, a sorted set, a stream or a module is blocked, last in the queue of each of its keys; all others keep their places |
| `BlockedServing.BlockedWrittenServed` | redis-7.0.15/src/blocked.c:285-388 | in every run: a client waits for a key, the key is written with its type, and after the command it is unblocked, if few enough blocked for the key before it |
| `Kqueue.FieldAdd` | redis-7.0.15/src/ae_kqueue.c:54-56 | adding to one of the four fields of a byte leaves the others |
| `Kqueue.FieldReset` | redis-7.0.15/src/ae_kqueue.c:58-60 | clearing one field leaves the others |
| `Kqueue.UnionMeans` | redis-7.0.15/src/ae_kqueue.c:146-163 | the readable and writable bits say whether such an event occurred for the descriptor |
| `Kqueue.MergedIs` | redis-7.0.15/src/ae_kqueue.c:146-180 | the fired list has every descriptor with an event exactly once, with the union of its events |
| `Kqueue.Collect` | redis-7.0.15/src/ae_kqueue.c:146-163 | after the first pass the packed masks hold the union of the events of every descriptor |
| `Kqueue.Poll` | redis-7.0.15/src/ae_kqueue.c:146-180 | the two passes compute that list and leave the packed masks all zero again |

## Left out

- Epochs are unbounded; the wrap-around of 64-bit counters is not modelled.
- Clocks, random delays, fork, sockets and disk outcomes are parameters of the steps.
- Failure detection (PFAIL, FAIL), gossip, handshakes, and changes of role and of the electorate during an election are not modelled.
- CLUSTER FAILOVER TAKEOVER, CLUSTER RESET, BUMPEPOCH and a voter that restarts without its nodes.conf are not modelled.
- ClusterElection.ElectionSafety: asks that no election starts with votes already counted, because without that the property is false.
- ClusterNode.ClusterState.ProcessUpdate: models the config epoch; the change of role and of slots by an UPDATE are not part of it.
- EpochCollision.CollisionsAreBounded: counts bumps caused by collisions among masters; epochs won by elections are not part of its runs.
- SlotTable.ClusterSlots.UpdateSlotsConfigWith: does not model migrating and importing state changes, the replica switching to the new owner, nor deleting the keys of dirty slots.
- SlotClaims.Converges: is about masters with distinct config epochs and fixed claims, and a slot that is not being imported and on which the best claimant carries no stale owner-not-claiming mark; what such a mark does is the subject of SlotClaims.StaleMarkLosesSlot.
- SlotRanges.LoadRanges: does not read the migrating and importing entries of a line.
- SlotRanges.LoadConfig: works on ranges of numbers; the other fields of a nodes.conf line and their text are not modelled.
- SlotKeys.SlotIndex.AddEntry: entries are addresses in a map instead of heap objects, and the caller gives the fresh address; a pointer cast in the metadata is not captured.
- AofRewrite.AofServer.Serve: commands and files are abstract (a snapshot, or a list of SELECTs and commands and whether the beginning of one more follows); bytes and transactions are the subject of the log modules. A crash while the log is not on, the limit on failing rewrites, timestamps and checksums of the base file are not modelled.
- AofRewrite.AofServer.Restart: a log that ends inside a command is cut back to the last whole one, as with aof-load-truncated; what a cut inside a transaction or an annotation leaves is the subject of AofRestart.NextRestartIff.
- AofFiles.LoadAppendOnlyFiles: all files are present and none is an RDB file; the upgrade from a log without a manifest is not modelled.
- AofLoad.LoadSingleAppendOnlyFile: an RDB preamble is not modelled; executing a command is a parameter that classifies it.
- AofHistory.CrashKeepsPrefix: a transaction is MULTI, writes and EXEC as the server propagates them; DISCARD, WATCH and nested commands in a fed transaction do not occur there.
- AofFlush.Aof.AofWrite: a write that takes zero bytes counts as taking one, since the original would loop.
- Durability.Acknowledge: asks that fsync is not switched off during rewrites, which is the documented condition of that policy.
- AclRules.ApplyKeeps: covers command rules; key and channel patterns, passwords, selectors in parentheses and the flags of a user are not modelled.
- The command bitmap of a selector is an array of booleans; its packing into 64-bit words is not modelled.
- AclDescribe.DescribeCommandRules: promises nothing about commands whose id is past the bitmap, which the original cannot describe either.
- The table of bit counts of a byte in bitops.c is modelled by a function of the byte; its 256 literals are not.
- BitPos.BitposCommand: replies for a missing key, argument parsing and type errors are not modelled; the same holds of BitCount.BitcountCommand.
- BitField.Execute: one operation on a string that is already long enough; parsing and growing the string are not modelled.
- BlockedKeys.Registry.ServeClients: whom a stream or module key suits, and how many clients the elements of a list or sorted set last for, are parameters; the data moved to the client is not modelled.
- BlockedKeys.Registry.ServeOne: a client blocked by a module leaves the lists at once; the original only schedules it to be unblocked by the next step of the event loop.
- Timeouts, clients postponed by CLIENT PAUSE and clients waiting for replicas are not modelled.
- Kqueue.Poll: covers the merging of events; registration and waiting are system calls.
- The data types themselves (listpack, ziplist, quicklist, rax, skip list, HyperLogLog), RDB files, replication, Lua, modules, Sentinel and the client protocol would need models of their own.
- The JavaScript and packaging files around the server hold no logic of this kind.
