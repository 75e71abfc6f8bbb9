# Granite: a model of its Raft core and its storage engine

Granite is a replicated key-value store. This project models its two cores and proves what they promise.

**Raft** (`Raft*.dfy`). `RaftTypes` and `RaftHandlers` give the node state and each locked region of the
program as a function; `RaftNode` is the node as an object, with the program's loops, proved equal to those
functions; `RaftState` is the state file, byte by byte. `RaftCluster` is the cluster as a step system: messages
may be lost, repeated and reordered, a timeout may fire at any time, a node may crash and restart at any time,
also between the two times that a handler writes the state file.
`RaftElection`, `RaftLogs`, `RaftRetention` and `RaftCommit` hold the invariants, `RaftSafety` puts them together
and states the theorems over whole runs. `RaftExact` says of each handler, by its fields alone, exactly what it does.
Over runs, `RaftProposals` shows that nothing is applied but what clients proposed, `RaftDelivery` that nothing
committed or countable is held back, `RaftRepair` that a log is repaired, and `RaftProgress` that a command gets through:
from every state of every run, elected, replicated, committed and handed over on a quorum.

The program departs from Figure 2 of the Raft paper ("In Search of an Understandable Consensus Algorithm
(Extended Version)") in three places, and the model follows the program:

- a candidate that gets a request of its own term forgets its vote within that term
  (`internal/raft/replication.go:130-135`), so a node can vote twice in a term;
- a follower caps its commit index by its own last index (`internal/raft/replication.go:167-173`);
- `matchIndex` is overwritten and can go backwards (`internal/raft/replication.go:92-95`).

The proofs use history that no handler reads: for each term its leader, the log it was elected with, the
longest log it had and who voted for it with which log; and all handovers to the apply channel.

**Storage** (`Bytes`, `Storage`, `Wal`, `SkipList`, `MemTable`, `SSTable`, `Compaction`, `Lsm`, `Engine`) and
**commands** (`StateMachine`). Files are byte sequences, the checksum is an arbitrary function, and a nil slice
differs from an empty one, as it does in the program. The skip list is the linked structure itself, in the heap.
`StoreRuns` and `StoreReads` are about whole runs of the store, with flushes, compactions and crashes wherever
they fall; `TableFiles`, `FileRuns` and `FilesExist` carry those runs down to the bytes of the table files.

Six promises do not hold of the code as written. For each there is a concrete input, and a lemma that says
exactly when the code does meet the promise:

- a key of 65529 to 65535 bytes goes into the write-ahead log and aborts every later recovery
  (`Wal.UnreadableKey`, `Wal.TornTail`);
- a lookup beyond the last key of a table can find index bytes that look like a record
  (`SSTable.PhantomFound`, `SSTable.GetExact`);
- a compacted table is placed in front of newer tables and can bring old values back
  (`Lsm.OldValueReturns`, `Lsm.PlacementExact`);
- a put of an empty value reads as absent after recovery (`StoreReads.EmptyComesAndGoes`, `StoreRuns.NormalExact`,
  `StoreRuns.CrashRecovery`);
- the nil value that recovery makes of it reads as absent until a flush turns it into an empty value
  (`StoreReads.EmptyComesAndGoes`, `Lsm.FlushExact`);
- two replicas that applied the same commands can answer a key differently once one of them has compacted
  (`StateMachines.AnswersDiverge`, `StateMachines.CompactionDivergesExactly`).

## Model

| member | source | states |
|---|---|---|
| RaftSafety.ElectionSafety | internal/raft/election.go:79-164 | In every run two nodes that lead in the same term, at any two times, are the same node, although a candidate's vote is cleared within its term. |
| RaftSafety.LogMatchingInRuns | internal/raft/replication.go:139-163 | Logs of any two nodes, at any two times of a run, that hold the same term at a position agree on everything up to it. |
| RaftSafety.LogShape | internal/raft/replication.go:143-163 | In every run entry indices are positions, the sentinel stays at 0, terms never decrease along a log, and lastApplied <= commitIndex < log length. |
| RaftSafety.LeaderCompletenessInRuns | internal/raft/replication.go:183-211 | What a quorum holds of the current term, committed in term t, is a prefix of the log of every leader of a later term, at any later time. |
| RaftSafety.LeadersHaveCommitted | internal/raft/replication.go:183-211 | What any node ever had committed is a prefix of the log of every node that leads, then or later, in a term not smaller than that node's was. |
| RaftSafety.StateMachineSafety | internal/raft/replication.go:213-237 | Any two handovers of one index, on any nodes, in any incarnations and at any times of a run, carry the same command. |
| RaftSafety.MatchIndexSound | internal/raft/replication.go:90-103 | While a leader leads, a peer still in its term agrees with the leader's log up to the recorded matchIndex, despite stale and repeated replies. |
| RaftSafety.RequestsReachCommit | internal/raft/replication.go:36-61 | Every request in flight carries LeaderCommit <= PrevLogIndex + number of entries. |
| RaftSafety.FollowerCommitInRuns | internal/raft/replication.go:139-176 | In every run, handling a request never lowers the commit index, never cuts at or below it, and raises it only to the leader's commit index within the prefix just checked. |
| RaftSafety.CommittedForever | internal/raft/replication.go:143-173 | What a node once had committed is in its log, and committed, in every later state of the run. |
| RaftSafety.ReplicasAgree | internal/raft/replication.go:167-176 | Of the committed prefixes of any two nodes at any two times, one is a prefix of the other. |
| RaftSafety.RestartKeepsState | internal/raft/node.go:278-343 | At every state of every run, crash and restart leaves term, vote and log unchanged. |
| RaftSafety.RestartFromBytes | internal/raft/node.go:239-343 | At every state of every run the bytes of the state file decode to the term, vote and log in memory if and only if these fit their fields. |
| RaftSafety.RequestsNumbered | internal/raft/replication.go:48-61 | The entries of every request in flight carry the positions they are sent for. |
| RaftSafety.NeverOverruns | internal/raft/replication.go:213-216 | No request of a run makes its receiver index outside its log. |
| RaftSafety.StepInv | internal/raft/replication.go:29-181 | Every enabled step of the cluster keeps the election, log, retention and commit invariants and the equality of memory and disk. |
| RaftSafety.RunInv | internal/raft/node.go:80-112 | The initial cluster meets these invariants, and so does every state of every run. |
| RaftSafety.RunGrows | internal/raft/replication.go:213-237 | From one state of a run to any later one, elections, leaders' logs, acknowledgements and handovers are only added to. |
| RaftElection.NewReign | internal/raft/election.go:87-100 | A candidate with a quorum of votes wins only in a term that had no leader before. |
| RaftElection.ElectionStep | internal/raft/election.go:11-164 | Once a term has a leader its voters stay locked to it: every step keeps this, the reset of a candidate's vote included. |
| RaftElection.CrashInHandlerStep | internal/raft/replication.go:130-135 | A crash right after a handler stored a new term, or cleared the vote within the term, keeps the election invariant. |
| RaftLogs.LogMatching | internal/raft/replication.go:139-148 | Logs built from the leaders' logs that share a term at a position agree up to it. |
| RaftLogs.MergeResult | internal/raft/replication.go:150-163 | The append loop leaves the log alone if it already contains what the leader vouches for, and leaves exactly that otherwise. |
| RaftLogs.AppendEffect | internal/raft/replication.go:139-165 | After a request the follower's log is unchanged, cut at the mismatch, or exactly the prefix the leader vouches for; a success contains that prefix. |
| RaftLogs.SharedSurvives | internal/raft/replication.go:143-163 | No request cuts into what the follower shares with the leader's log. |
| RaftRetention.LeaderCompleteness | internal/raft/election.go:137-153 | What a quorum acknowledged in a term is in the log every later leader was elected with. |
| RaftRetention.VoteCovered | internal/raft/election.go:137-153 | A granted vote was cast with a log that the candidate's log is at least as up to date as, and that kept what the voter had acknowledged. |
| RaftRetention.ElectorateCovered | internal/raft/election.go:137-160 | The same holds of every voter of a new leader, the leader itself included. |
| RaftRetention.ElectedWith | internal/raft/election.go:142-147 | If a voter of a later leader acknowledged an entry and every leader in between had it, the up-to-date check puts it into the winner's log. |
| RaftCommit.FollowerCommitRule | internal/raft/replication.go:139-176 | A follower that accepts a request commits only what is committed cluster-wide, and hands over only that. |
| RaftCommit.CommittedStays | internal/raft/replication.go:143-163 | Neither truncation cuts at or below the commit index. |
| RaftCommit.HeldIsCommitted | internal/raft/replication.go:186-209 | A position of the current term that the count finds at a quorum is acknowledged by a quorum. |
| RaftCommit.QuorumIndexPicks | internal/raft/replication.go:186-209 | The downward search picks the old commit index or a later position of the current term that a quorum holds. |
| RaftExact.VoteExactly | internal/raft/election.go:117-164 | On every request: a vote is granted if and only if the term is not over, the node has no other vote in it, and the candidate's last entry is of a later term or of the same term and no earlier index; the new state and the term of the answer are given field by field. |
| RaftExact.VoteCountedExactly | internal/raft/election.go:69-83 | A granting answer is counted if and only if the node is still a candidate in the term it asked for; an answer of a higher term makes it a follower of that term. |
| RaftExact.MergeExactly | internal/raft/replication.go:150-163 | The append loop keeps the entries present by term and from the first difference on takes those of the request, for every log and request. |
| RaftExact.AppendAnsweredExactly | internal/raft/replication.go:116-181 | On every request: success if and only if the term is not over and the log has the previous entry; the answer carries the term from before; role, vote and commit index follow as given. |
| RaftExact.AppendedExactly | internal/raft/replication.go:139-165 | A gap leaves the log, a conflict at the previous entry cuts it there, otherwise the entries are merged. |
| RaftExact.DrainExactly | internal/raft/replication.go:213-237 | The messages handed over are exactly the entries behind lastApplied up to the commit index, in order. |
| RaftExact.QuorumIndexExactly | internal/raft/replication.go:186-209 | The downward search finds the highest position of the current term above the commit index that a quorum's match indices reach, and the commit index if there is none. |
| RaftExact.AdvanceExactly | internal/raft/replication.go:183-237 | The leader's commit index becomes that position, and exactly the new entries up to it are handed over. |
| RaftExact.LearnsExactly | internal/raft/replication.go:81-114 | What an answer does: a higher term unseats, a success with entries sets matchIndex and nextIndex to their end and commits, a refusal lowers nextIndex but not below 1, anything else does nothing. |
| RaftProposals.EntriesWereProposed | internal/raft/node.go:139-168 | In every run each entry of each log is the data of a client's proposal to the leader of its term, at its index. |
| RaftProposals.HandoversWereProposed | internal/raft/replication.go:213-237 | In every run each handover is the data of a client's proposal under the index it was proposed at. |
| RaftProposals.ProposalStored | internal/raft/node.go:139-168 | In every run a proposal makes the leader's log longer by an entry with the next index, the leader's term and the client's data, on disk too, and changes no other node. |
| RaftDelivery.CommittedIsDelivered | internal/raft/replication.go:213-237 | At every state of every run each node has handed over every entry it has committed. |
| RaftDelivery.HeldIsCommittedInRuns | internal/raft/replication.go:183-211 | At every state of every run a leader has committed every position of its term that the match indices of a quorum, itself included, reach. |
| RaftDelivery.RequestCarries | internal/raft/replication.go:36-61 | In every run the request that is sent has the leader's term, commit index, previous entry by nextIndex, and the whole rest of its log. |
| RaftDelivery.StepServes | internal/raft/replication.go:29-237 | Every enabled step keeps it so that all nodes have handed over what they committed and leaders have committed what they can count. |
| RaftProgress.CanBeElected | internal/raft/election.go:11-109 | From every reachable state a node whose next term is new to a quorum, and whose log is no older than theirs, has enough votes to take office once the quorum has handled its request and the answers are counted. |
| RaftProgress.CommandsGetThrough | internal/raft/replication.go:29-237 | Every run that ends with such a node can go on, with steps between it and the quorum only, until a command proposed to it is committed behind its log and handed over on every node of the quorum. |
| RaftProgress.StaleLeaderYields | internal/raft/replication.go:81-88 | A leader that sends to a node of a higher term is refused, takes that term from the answer and becomes a follower without a vote. |
| RaftProgress.StaleCandidateYields | internal/raft/election.go:69-77 | A candidate that asks a node of a higher term is refused, takes that term from the answer and becomes a follower without a vote. |
| RaftCluster.QuorumsMeet | internal/config/config.go:59-65 | Two quorums of one cluster have a member in common. |
| RaftCluster.QuorumIsMajority | internal/config/config.go:59-65 | A set of nodes is as large as a quorum if and only if it is more than half of the cluster. |
| RaftRepair.RepairTerminates | internal/raft/replication.go:36-113 | With no interference, at most nextIndex rounds of request, handler and reply make the leader's log a prefix of the follower's, and the follower has then committed and handed over what the leader had committed when the last request was sent. |
| RaftRepair.RoundProgress | internal/raft/replication.go:104-113 | One round repairs the follower in that sense or lowers nextIndex, which never falls below 1. |
| RaftState.StateRoundTripExactly | internal/raft/node.go:239-343 | The state file decodes to the encoded term, vote and log if and only if all lengths and numbers fit their fields and the log is not empty. |
| RaftState.TornStateNoticed | internal/raft/node.go:278-343 | Every proper prefix of a state file is reported as an error, and leaves in memory exactly the fields and entries that are whole in it. |
| RaftState.LoadedFits | internal/raft/node.go:278-343 | Whatever file is loaded without error fits the fields and has a log. |
| RaftNode.Node.constructor | internal/raft/node.go:80-112 | A new node is the boot state of what its state file gives, for every file, whole or broken, and for none. |
| RaftNode.Node.Load | internal/raft/node.go:278-354 | Loading sets term, vote and log as the decoding function says, including what a broken file leaves behind. |
| RaftNode.Node.PersistState | internal/raft/node.go:239-276 | The file written is the encoding of term, vote and log. |
| RaftNode.Node.OnElectionTimeout | internal/raft/election.go:11-37 | The node stands for the next term with a vote for itself and no others, persisted, and asks with the index and term of its last entry; a leader ignores the timeout. |
| RaftNode.Node.HandleRequestVote | internal/raft/election.go:117-164 | The vote handler of the model, state and answer, on every request; the answer grants exactly if the term is not over, the vote is free and the candidate's last entry is not behind. |
| RaftNode.Node.ReceiveVote | internal/raft/election.go:66-83 | The vote reply handler of the model; the peer is counted exactly if it granted in the candidate's own term. |
| RaftNode.Node.HasQuorum | internal/raft/election.go:87-90 | The counting loop succeeds exactly if a peer granted and the grants with the own vote reach the quorum. |
| RaftNode.Node.BecomeLeader | internal/raft/election.go:91-109 | Only a candidate still in the term of the election takes office, with nextIndex behind the last entry and matchIndex 0 for exactly the peers. |
| RaftNode.Node.ProposeEntry | internal/raft/node.go:139-168 | A leader appends the client's data with the next index and its term and persists; any other role answers 0, 0, false. |
| RaftNode.Node.BuildAppendEntries | internal/raft/replication.go:29-61 | The request carries term, commit index, the entry before nextIndex and the whole rest of the log from nextIndex on. |
| RaftNode.Node.HandleAppendEntries | internal/raft/replication.go:116-181 | On every request, the append handler of the model: state, answer and messages handed over; it succeeds exactly if the log has the previous entry of a term that is not over, and aborts exactly if the entries make the commit index run past the log. |
| RaftNode.Node.MergeEntries | internal/raft/replication.go:150-163 | The loop over the entries leaves the merge of the model. |
| RaftNode.Node.FollowLeaderCommit | internal/raft/replication.go:167-176 | The commit index becomes the smaller of the leader's and the own last index, if that is higher; aborts exactly if that lies outside the log. |
| RaftNode.Node.ApplyCommittedEntries | internal/raft/replication.go:213-237 | Exactly the entries between lastApplied and commitIndex are handed over, in order; a commit index beyond the log aborts at its end. |
| RaftNode.Node.FindQuorumIndex | internal/raft/replication.go:183-199 | The downward loop finds the highest position of the current term above the commit index that a quorum's match indices reach. |
| RaftNode.Node.MaybeAdvanceCommitIndex | internal/raft/replication.go:183-211 | That position is committed and handed over. |
| RaftNode.Node.ReceiveAppendAnswer | internal/raft/replication.go:74-114 | The append reply handler of the model, for the request the reply answers. |
| Bytes.RoundTrip | internal/storage/sstable.go:60-64 | A number below 256^k written little-endian in k bytes is read back. |
| Bytes.BytesBack | internal/storage/sstable.go:60-64 | The bytes of a field are the little-endian bytes of its value. |
| Bytes.Le16 | internal/storage/compaction.go:257-259 | The hand-written reader is the little-endian value of two bytes. |
| Bytes.Le32 | internal/storage/compaction.go:261-263 | The same for four bytes. |
| Bytes.Le64 | internal/storage/compaction.go:265-268 | The same for eight bytes. |
| Bytes.LessTotal | internal/storage/memtable.go:46-46 | The comparison of keys is total; with its irreflexivity and transitivity it is a strict order. |
| Wal.Log.Append | internal/storage/wal.go:33-71 | A key over 65535 bytes is refused; otherwise the file grows by exactly one encoded record. |
| Wal.ReadRecords | internal/storage/wal.go:93-153 | The reading loop computes the reading function on every file. |
| Wal.ReadRecordAt | internal/storage/wal.go:106-150 | Header, length, checksum and slicing decide between a record, the end and an abort, with the 16-bit sum of the key length. |
| Wal.TornTail | internal/storage/wal.go:106-150 | A log cut at any byte reads as exactly the records wholly inside the cut if and only if none of them has a key over 65528 bytes; otherwise reading aborts. |
| Wal.ReadOneSound | internal/storage/wal.go:106-150 | A record is read from any bytes if and only if they start with an encoded record with matching checksum and a key up to 65528 bytes; reading aborts if and only if its key is longer. |
| Wal.ReadSound | internal/storage/wal.go:93-153 | Whatever a file holds, it starts with exactly the records that are read, byte for byte, and behind them no whole record with matching checksum starts, or one that aborts the reader. |
| Wal.UnreadableKey | internal/storage/wal.go:140-141 | A key of 65529 bytes is accepted by Append and aborts the reader. |
| Wal.ComputeValidSize | internal/storage/recovery.go:63-80 | The loop adds up the sizes of the records read. |
| Wal.ValidSizeIsBoundary | internal/storage/recovery.go:63-88 | The valid size of a torn log is the boundary behind its last whole record, and the truncated file is the log of those records. |
| Wal.TruncateThenAppend | internal/storage/recovery.go:45-58 | After truncation, appended records read back behind the kept ones. |
| SkipList.List.constructor | internal/storage/memtable.go:26-31 | A new list is well-formed and empty. |
| SkipList.List.Put | internal/storage/memtable.go:41-82 | For every choice of level the linked structure stays well-formed and its entries become the sorted insertion or replacement. |
| SkipList.List.FindPredecessors | internal/storage/memtable.go:42-50 | The search finds, at every level in use, the last node before the key. |
| SkipList.List.Splice | internal/storage/memtable.go:76-79 | Splicing the new node level by level makes every pointer of every level lead to the next node that is tall enough. |
| SkipList.List.Get | internal/storage/memtable.go:84-98 | The node returned holds what the map of the entries says of the key; nil exactly if the key is absent. |
| SkipList.List.Iterate | internal/storage/memtable.go:106-118 | The entries in order, all of them. |
| SkipList.PutIsUpdate | internal/storage/memtable.go:41-82 | Inserting into the sorted entries is updating a map. |
| SkipList.SortedTable | internal/storage/memtable.go:106-118 | Sorted entries are exactly the map's, one per key, so the length is the map's size. |
| SkipList.OneMoreSpliced | internal/storage/memtable.go:76-79 | One turn of the splice loop makes one more level right and leaves the others right. |
| MemTables.PutsRefineMap | internal/storage/memtable.go:41-118 | Any run of puts leaves a strictly sorted list that holds exactly the last write of each key and is as long as the map is large. |
| MemTables.SizeOfRun | internal/storage/memtable.go:132-155 | Over any run of writes the size is the weight of the current entries plus 64 per write. |
| MemTables.FullInTime | internal/storage/engine.go:157-160 | A fresh MemTable reaches the flush threshold no later than with its 1,048,576th write. |
| MemTables.MemTable.Set | internal/storage/memtable.go:132-155 | A put or delete updates the map and the size as charged, and keeps the accounting. |
| MemTables.MemTable.Put | internal/storage/memtable.go:132-143 | The key's write becomes a put of the value, and the size is charged for it. |
| MemTables.MemTable.Delete | internal/storage/memtable.go:145-155 | The key's write becomes a delete, and the size is charged for it. |
| MemTables.MemTable.Get | internal/storage/memtable.go:157-171 | Not found, nil for a delete, or the value, as the map says. |
| MemTables.MemTable.Entries | internal/storage/memtable.go:179-183 | The entries are strictly sorted and make up the map. |
| MemTables.MemTable.Len | internal/storage/memtable.go:185-189 | The length is the number of keys. |
| SSTable.WriteTable | internal/storage/sstable.go:26-124 | Nothing is written without entries; otherwise the file is records, sparse index and footer. |
| SSTable.WriteRecords | internal/storage/sstable.go:45-79 | The write loop emits the records and indexes every 16th at its offset. |
| SSTable.OpenReader | internal/storage/sstable.go:131-187 | Opening any file: refused, aborted, or the parsed index. |
| SSTable.OpenBack | internal/storage/sstable.go:131-187 | Opening a written table gives the index it was written with. |
| SSTable.IndexEntryIs | internal/storage/sstable.go:48-54 | Index entry m has the key and the byte offset of record 16 m. |
| SSTable.FindStart | internal/storage/sstable.go:194-206 | The binary search computes the halving function on every index. |
| SSTable.SearchLands | internal/storage/sstable.go:194-206 | The search ends at the first entry or at one not above the key. |
| SSTable.ScanFrom | internal/storage/sstable.go:218-258 | The scan answers as the first record not below the key decides, over all bytes from the start on. |
| SSTable.GetFrom | internal/storage/sstable.go:189-259 | Search and scan together compute the lookup function; it fails exactly if the index leads to a negative offset. |
| SSTable.GetFinds | internal/storage/sstable.go:189-259 | For strictly sorted non-empty entries and every key up to the last one, lookup through index and bytes is a plain lookup. |
| SSTable.GetExact | internal/storage/sstable.go:219-256 | For every key the lookup is right if and only if not both the key lies beyond the last one and the bytes behind the records expose a record of it. |
| SSTable.PhantomFound | internal/storage/sstable.go:219-256 | A table of one key that answers another key with an empty value. |
| SSTable.StoppingAtIndex | internal/storage/sstable.go:219-256 | A lookup through the sparse index whose scan stopped where the index begins would be right for every key of every sorted table. |
| SSTable.ReadAllRecords | internal/storage/compaction.go:179-237 | The reading loop computes the reading function on every file. |
| SSTable.ReadTableBack | internal/storage/compaction.go:179-237 | Reading a written table in full gives its entries, empty values as nil. |
| Compaction.SortSorts | internal/storage/compaction.go:131-137 | The sort keeps the records as a multiset and orders them by key, newest file first. |
| Compaction.MergeRecords | internal/storage/compaction.go:139-158 | The loop keeps the first record of each key unless it is a delete. |
| Compaction.MergeMeans | internal/storage/compaction.go:113-158 | The merge is strictly sorted and holds exactly the newest record of each key over all tables, deletes dropped. |
| Compaction.MergedNewest | internal/storage/compaction.go:139-158 | For each key the merge has exactly what the newest table with the key says, unless that is a delete, and nothing for other keys. |
| Compaction.CompactFiles | internal/storage/compaction.go:95-177 | Failure, abort, nothing left, or the file of the merge, for every list of files. |
| Compaction.CompactBack | internal/storage/compaction.go:95-177 | Compacting written tables, bytes to bytes, gives the file of a sorted list that means what the tables meant together less the deletes. |
| Compaction.MergedSize | internal/storage/compaction.go:139-158 | The merge has no more bytes of records than the tables have together. |
| Lsm.FlushExact | internal/storage/engine.go:157-194 | A flush leaves the read of a key unchanged if and only if the MemTable has no put of a nil value for it. |
| Lsm.BottomKeepsReads | internal/storage/compaction.go:139-158 | With the merge where the two oldest tables were, no read changes, although deletes are dropped. |
| Lsm.PlacedByName | internal/storage/engine.go:211-235 | The merge ends up behind the survivors with larger names and in front of the others. |
| Lsm.PlacementExact | internal/storage/engine.go:207-235 | Placed there, the merge leaves a read unchanged if and only if the MemTable or a table in front has the key, or the merge has not, or no table behind has, or both say the same. |
| Lsm.OldValueReturns | internal/storage/compaction.go:168-168 | Four tables whose compaction makes a key read as its old value. |
| StoreRuns.CrashRecovery | internal/storage/engine.go:29-66 | After any run of writes, flushes, compactions and crashes, cut at any byte behind the last flush and reopened, the log reads back and every key reads as its last write wholly on disk, if and only if that is no put of an empty value. |
| StoreRuns.AnyCutExact | internal/storage/recovery.go:20-58 | Were flushed records cut off too, a key would read right if and only if the log still has it or no table shows it. |
| StoreRuns.NormalExact | internal/storage/wal.go:143-147 | Reading the log back loses exactly the puts of empty values. |
| StoreRuns.ReadsRefineMap | internal/storage/engine.go:87-155 | Wherever flushes fall, every key reads as its last write, deletes included; with non-empty values this holds through crashes. |
| StoreRuns.RunInv | internal/storage/engine.go:157-194 | In every run each key in a table was written in the part of the log that was there at the last flush, and tables stay ordered by name. |
| StoreRuns.CompactShape | internal/storage/engine.go:207-235 | Compacting the two oldest tables under the newest name puts their merge in front of all others. |
| StoreReads.CompactExactInRuns | internal/storage/engine.go:207-235 | At every compaction of every run, the read of a key is unchanged if and only if the MemTable has it, or the merge has not, or no newer table has, or those say the same. |
| StoreReads.ReadsSomeWrite | internal/storage/engine.go:106-136 | In every run a key reads as a value that was put, or as absent if it was never written, was deleted or was put empty. |
| StoreReads.WritingAgainHeals | internal/storage/engine.go:87-136 | Whatever happened before, once all keys written so far are written again, a key reads as its last write since, if each compaction since kept its read. |
| StoreReads.CompactionSpoilsExactly | internal/storage/engine.go:207-235 | A compaction at that point leaves the key right if and only if it keeps its read. |
| StoreReads.CompactionDiverges | internal/storage/compaction.go:168-168 | A run of four writes and flushes that reads the newest value, and one compaction later the old one; with values of 64 MiB and more each flush falls on a MemTable the engine flushes. |
| StoreReads.EmptyComesAndGoes | internal/storage/wal.go:143-147 | A run in which a key put with an empty value reads as found, as absent after a crash, and as found again once a write of another key has filled the MemTable and it is flushed. |
| TableFiles.FileGet | internal/storage/sstable.go:189-259 | A lookup in a written file says what the file means if and only if no bytes behind its records expose the key beyond its last key. |
| TableFiles.FilesFind | internal/storage/engine.go:121-135 | Searching the files from newest to oldest shows what their meanings show if and only if no file that answers wrongly comes before the tables that have the key and says something else. |
| TableFiles.NewTable | internal/storage/engine.go:167-191 | The file of a flushed MemTable, opened, stands for its entries in front of the others. |
| TableFiles.EntriesWritable | internal/storage/sstable.go:56-107 | The entries of a MemTable can be written without overflow, by the size it charged for them. |
| FileRuns.SearchFiles | internal/storage/engine.go:121-135 | The loop over the files skips those that cannot be read and answers by the first that finds the key. |
| FileRuns.ReplaceFiles | internal/storage/engine.go:207-235 | The removed files leave the list, and the new file goes where its name puts it if it opens, is left out if it is refused, and aborts the program if reading it panics. |
| FileRuns.MaybeCompact | internal/storage/compaction.go:61-93 | From four files on the two oldest are read, merged, written and replaced; a compaction that fails changes nothing, and one that panics aborts the program. |
| FileRuns.OpenFiles | internal/storage/engine.go:57-65 | The loop over the files skips those that are refused, aborts on one whose reading panics, and otherwise opens all with their indexes, in order. |
| FileRuns.ReopenedExactly | internal/storage/engine.go:57-65 | Opening the files aborts if and only if reading one of them panics, and otherwise has every file that is not refused. |
| FileRuns.MergedWritable | internal/storage/compaction.go:168-171 | The merge of two tables can be written, by the sizes of their files. |
| FileRuns.CompactedMeans | internal/storage/compaction.go:95-177 | Compacting the files does not abort, keeps every file one that was written from sorted entries, and means compacting the tables. |
| FileRuns.ReopenedSame | internal/storage/engine.go:57-65 | Written files open again with the indexes they had; none is skipped and none aborts the program. |
| FileRuns.FilesMirror | internal/storage/engine.go:157-194 | In every run the files on disk were written from sorted entries and mean the tables of the store. |
| FileRuns.FileReadsExact | internal/storage/engine.go:106-136 | In every run, reading through the bytes of the files gives what the store says if and only if the MemTable has the key or no file misleads. |
| FilesExist.DataWithinLog | internal/storage/sstable.go:45-79 | Sorted entries that all stem from records of a log take up no more bytes than the log. |
| FilesExist.FileWithinLog | internal/storage/engine.go:157-194 | In a store whose tables were written in its log, every table file, merged ones included, is at most three times as long as the log, and 16 bytes. |
| FilesExist.EveryRunHasFiles | internal/storage/engine.go:157-235 | Every run of the store whose log stays below 2^63/20 bytes has files: each flush can be written, each compaction goes through, each file opens again, and nothing aborts. |
| Engines.Engine.Put | internal/storage/engine.go:87-104 | Empty and oversized keys are refused; otherwise log and MemTable take the write, and the flush happens exactly if the size reaches the threshold. |
| Engines.Engine.Delete | internal/storage/engine.go:138-155 | The same for a delete. |
| Engines.Engine.MaybeFlush | internal/storage/engine.go:157-194 | Exactly a full MemTable becomes the newest table and is replaced by an empty one; the log stays. |
| Engines.Engine.Get | internal/storage/engine.go:106-136 | An empty key is an error; otherwise the answer is the newest-first read of the state. |
| Engines.Engine.ApplyCompactionResult | internal/storage/engine.go:207-235 | The removed tables leave the list, and the new one goes where its name puts it. |
| Engines.Engine.MaybeCompact | internal/storage/compaction.go:61-93 | From four tables on the two oldest are merged; below, nothing happens. |
| Engines.ReplayRecords | internal/storage/recovery.go:17-37 | The replay loop leaves the fold of the records, with its size; records of other kinds are skipped. |
| Engines.Open | internal/storage/engine.go:29-85 | On every torn log, opening aborts exactly if a whole record has an unreadable key, and otherwise gives the state after the crash, with the log cut to its whole records. |
| StateMachines.DecodeExact | internal/raft/state_machine.go:86-110 | A command decodes to what was encoded if and only if key and value fit their length fields. |
| StateMachines.EncodeCommand | internal/raft/state_machine.go:86-94 | The buffer filled in place is the encoding. |
| StateMachines.EncodeCommandByShifts | internal/rpc/server.go:174-186 | The server's encoder writes the same bytes. |
| StateMachines.EncodedOutcome | internal/raft/state_machine.go:86-120 | An encoded command is about its key exactly if it is a put or a delete of a non-empty key; a delete then means absent, a put its value. |
| StateMachines.DeleteEffect | internal/raft/state_machine.go:115-116 | An encoded delete of a non-empty key writes a delete record without a value. |
| StateMachines.StateMachine.ApplyCommand | internal/raft/state_machine.go:96-120 | The engine's state takes exactly the write the command stands for, with a flush exactly if that fills the MemTable; the command fails, and changes nothing, exactly if it does not decode to a put or delete of a non-empty key. |
| StateMachines.StateMachine.HandleApplyMsg | internal/raft/state_machine.go:62-84 | A message at or below lastApplied changes nothing; otherwise the engine's state takes the command, and lastApplied becomes its index exactly if it decodes to a put or delete of a non-empty key. |
| StateMachines.WritesOfLog | internal/raft/state_machine.go:62-84 | Under in-order delivery the writes are exactly those of the commands, rejected ones skipped. |
| StateMachines.OneMoreMessage | internal/raft/state_machine.go:62-84 | From any state of a replica that was handed the log in order, the next message is not ignored, and the engine's state after it continues the run, which then has applied one message more. |
| StateMachines.ReplayAfterRestart | internal/raft/node.go:92-93 | A replica that gets the log again from index 1 up to the old position or further answers a key as a single pass would, whatever crashes, flushes and compactions there were before. |
| StateMachines.AnswersFold | internal/raft/state_machine.go:62-120 | What a replica answers is the fold of the commands it was handed, rejected ones skipped, if each compaction since it started kept the read of the key. |
| StateMachines.LastCommandAnswers | internal/raft/state_machine.go:62-120 | What a replica answers for a key is decided by the last command about it that it was handed: absent after a delete, the value after a put, absent if there was none, if each compaction since it started kept the read of the key. |
| StateMachines.SameAnswers | internal/raft/state_machine.go:62-120 | Two replicas, on any nodes and in any incarnations, that were handed the log in order to the same index answer a key alike under that condition. |
| StateMachines.CompactionDivergesExactly | internal/storage/engine.go:207-235 | A compaction makes such a replica answer differently from the others if and only if it does not keep the read of the key. |
| StateMachines.AnswersDiverge | internal/storage/compaction.go:168-168 | Two replicas with the same commands, one of which compacted, that answer a key differently; with values of 64 MiB and more each flush falls on a MemTable the engine flushes. |

## Left out

- Snapshots (`internal/raft/snapshot.go`): nothing takes or sends one, and replication indexes the log by slice position, which a cut would break; runs are without snapshots, and a snapshot message to the state machine is not modelled.
- Overflow of the apply channel (`internal/raft/replication.go:229-235`): safety is stated about handovers; the store-level results assume in-order delivery.
- The unlocked window of a flush (`internal/storage/engine.go:174-178`) and concurrent readers: a flush and a compaction are each one step with one writer.
- A compaction that starts before an earlier result was applied, and files on disk that are not in the engine's list.
- Timers and heartbeats as time: a timeout may fire at any time, so that elections and rounds do take place is not claimed, only where they lead (`RaftProgress`).
- gRPC, the client pool, generated code, logging, `cmd/`, scripts and validation of the configuration.
- Failures of the file system: writes, syncs and renames succeed, and a rename is atomic. What a broken state file leaves in memory is modelled.
- Wrap-around of terms, indices and 64-bit sizes; Raft terms and indices are unbounded numbers, and files are shorter than 2^63 bytes.
- Values of 2^32 bytes and more: `Engines.Engine.Put` takes them, the results about logs and tables are for values that fit the four-byte field.
- A nil and an empty command are not told apart in the Raft log; the state file does not tell them apart either.
- Clocks and randomness: the level of a skip-list node and the name of a new table are arguments; a new table's name is taken to be larger than the earlier ones.
- Sorting by the library: `sort.SliceStable` and `sort.Slice` are insertion sorts here, proved to order and to keep what they sort.
- Engines.Engine.Put: holds the MemTable by its entries and size, as the contract of `MemTables.MemTable.Set` gives them, not as the linked structure.
- Engines.Engine.Get: takes the lookup in a table at its meaning; `FileRuns.SearchFiles` is the loop over the bytes, and `FileRuns.FileReadsExact` says for every run when the two answer alike.
- Engines.Engine.ApplyCompactionResult: takes the new table at its meaning; `FileRuns.ReplaceFiles` opens its bytes. Removing the old files from disk is not modelled.
- Engines.Engine.MaybeCompact: takes the merge at its meaning; `FileRuns.MaybeCompact` and `FileRuns.CompactedMeans` give it from bytes to bytes.
- The flush on shutdown (`internal/storage/engine.go:250-279`): it adds a table as every flush does.
