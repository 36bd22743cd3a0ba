# VaultFS: a verified model of its consensus, log, clocks, leases and garbage collection

VaultFS is a distributed file system written in Go. This project models the
parts of it whose correctness is hardest to see from the code, and proves what
they are for:

- **Raft** (`internal/raft`). `RaftLog`, `RaftNode` and `RaftServer` model one
  node: classes with the fields and the loops of the source, each method proved
  equal to a function on the node's state. `RaftCluster` puts any number of
  nodes on a network that loses, delays, reorders and repeats messages; one
  section run under the node lock is one step, and every sequence of actions is
  a run, because an action whose guard fails does nothing. `RaftHistory` and
  `RaftInvariant` keep a record of who was elected, who voted with which log and
  who acknowledged what, and state the invariant; `RaftGrowth` and the three
  `...Steps` modules prove that every step keeps it; `RaftSafety`, `RaftRuns`,
  `RaftVoting` and `RaftBackup` draw the theorems about whole runs from it.
  `RaftExact` and `RaftDelivery` say exactly what each section decides, in terms
  of log entries and recorded indexes, and `RaftProgress` that no reachable
  state is stuck.
- **The write-ahead log** (`internal/wal`). `WalCodec` and `WalReplay` model the
  record format and its replay, `WalNames` the segment file names and their
  order, `Wal` the log with its rotation and recovery, `WalDurability` runs of
  appends, restarts and crashes at any byte.
- **Vector clocks** (`internal/clock`). `VectorClock` models the operations,
  `Causality` runs of communicating nodes.
- **Chunk leases** (`internal/metadata`) in `ChunkLeases`, and **chunk garbage
  collection** (`internal/chunk`) in `ChunkGc`, with theorems about whole
  histories of calls and sweeps.

`Bytes` and `Options` hold what these share. `dafny verify dfyconfig.toml`
checks the whole project.

## Where the code and what is said about it differ

The model follows the code. These are proved rather than assumed away:

- A node does not vote at most once per term. Stepping down from candidate in
  the same term clears the vote (internal/raft/replication.go:154-157).
  `RaftVoting.VotesTwiceInOneTerm` is a run in which a node votes twice,
  `RaftVoting.VoteForgottenIff` says exactly when a vote is forgotten,
  `RaftVoting.SecondVoteNeedsForgetting` that nothing else makes a node vote
  twice, and `RaftVoting.SecondVoteNeedsLeader` why it does no harm: by then the
  term has its leader. Election safety is proved all the same; its invariant is that
  members of the winning quorum are never the ones who forget.
- The commit quorum is called a majority (internal/raft/replication.go:116-127)
  but is half the nodes when their number is even. `RaftRuns.QuorumArithmetic`
  says when it is a majority and that it meets every vote quorum in any case.
- Names sort like ids (internal/wal/segment.go:22) only for ids below 10^16:
  `WalNames.NameOrderIff`.
- An acknowledged entry is not always durable (internal/wal/entry.go:3-4).
  Appending does not check the size that decoding enforces, so a record above
  128 MiB is acknowledged and then makes the whole log unreadable.
  `WalDurability.Durability` says exactly which runs are durable,
  `WalDurability.OversizedLost` what happens in the others, and
  `WalCodec.RoundTrip` which records come back.
- Counters of vector clocks wrap at 2^64: `VectorClock.IncrementMovesForward`
  and `Causality.CausalityIffNoWrap` say exactly when that matters.

## Model

| member | source | states |
|---|---|---|
| RaftSafety.StateMachineSafety | internal/raft/node.go:178-199 | in every run of a cluster of any size, two entries delivered at the same index by any two nodes at any two moments are the same entry |
| RaftSafety.LeaderCompletenessTheorem | internal/raft/replication.go:118-142 | whatever a node has taken as committed while in some term is in the log of every leader of a later term, at whichever moments the two are observed |
| RaftSafety.ElectionSafety | internal/raft/election.go:70-84 | at no two moments of a run do two different nodes lead the same term |
| RaftSafety.LogMatchingTheorem | internal/raft/replication.go:161-186 | two logs of a run, at any moments, that hold the same term at the same index are identical up to that index |
| RaftSafety.LogShape | internal/raft/node.go:91-93 | in every reachable state entry j has index j+1 and terms neither decrease along a log nor exceed the node's term |
| RaftSafety.CommitAgreement | internal/raft/replication.go:188-197 | the committed prefixes of any two nodes at any two moments agree as far as both reach |
| RaftSafety.DeliveryStream | internal/raft/node.go:178-199 | what a node has delivered is exactly indexes 1, 2, 3, ... up to lastApplied, is a prefix of its log and is committed, although the log is read after the lock is released; a read in the middle of an AppendEntries is `RaftRuns.ReadWhileMerging` |
| RaftSafety.StepKeeps | internal/raft/replication.go:34-201 | every action of every node, applied to any state that satisfies the invariant, leads to one that does, and the record of elections, votes and acknowledgements only grows |
| RaftSafety.RunInv | internal/raft/node.go:131-176 | every state reachable from the initial one by any sequence of actions satisfies the invariant |
| RaftProgress.NeverStuck | internal/raft/replication.go:34-142 | from every reachable state, any majority whose logs are short of compaction can go on without the other nodes so that a leader among them appends a given command and all of them deliver its log, command included |
| RaftProgress.Elect | internal/raft/election.go:16-96 | from every reachable state a node that is not leader can become leader of its next term with the votes of any peers that make a majority with it, are not ahead in term and have no more up-to-date log |
| RaftProgress.CatchUp | internal/raft/replication.go:34-114 | from every reachable state a leader can bring any peer not ahead in term up to date: the peer then holds its whole log and its commit index, and matchIndex is the length of the log |
| RaftProgress.CommitEverywhere | internal/raft/replication.go:34-142 | a leader whose last entry is of its own term can have its whole log committed by itself and any peers that make a majority with it |
| RaftProgress.DeliverAll | internal/raft/node.go:178-199 | from every reachable state a node whose log is short of compaction can deliver exactly its log up to its commit index |
| RaftProgress.StepDown | internal/raft/replication.go:73-76 | a leader that exchanges AppendEntries with a node of a newer term becomes a follower of that term |
| RaftExact.CommitIffQuorum | internal/raft/replication.go:118-142 | in every reachable state a leader has committed an entry of its term if and only if at least half of all nodes, itself included, have a matchIndex that reaches it; its own matchIndex is the length of its log |
| RaftExact.CommitExact | internal/raft/replication.go:118-142 | the commit index becomes the greatest index that half the cluster, rounded up, has reached, if that is forward and an entry of the current term; otherwise nothing changes |
| RaftExact.CommitNeedsQuorum | internal/raft/replication.go:127-130 | with fewer recorded indexes than that nothing changes |
| RaftExact.VoteGrantedIff | internal/raft/election.go:99-141 | a vote is granted if and only if the request is of a newer term, or of the same term with no vote given to somebody else, and the candidate's log is at least as up to date; the reply carries the greater term, and the new state is given in every case |
| RaftExact.VoteReplyTaken | internal/raft/election.go:70-84 | a newer term in a vote reply makes the node step down, a refusal or stale reply changes nothing, a vote adds one to the tally |
| RaftExact.WinsExactly | internal/raft/election.go:78-83 | in every run, once a granted vote of the current term is taken, the candidate is leader if and only if the voters counted make a majority with it |
| RaftExact.AloneWins | internal/raft/election.go:44-52 | in every run of a cluster of one the candidate becomes leader |
| RaftExact.LeaderStarts | internal/raft/node.go:224-238 | a new leader has nextIndex one past its log and matchIndex 0 for every peer, and its whole log recorded for itself |
| RaftExact.AppendAcceptedIff | internal/raft/replication.go:145-169 | AppendEntries is accepted if and only if it is not stale and the entry before its own is in the log with that term; whoever hears it follows its sender; the reply carries the greater term; a rejection leaves log and commit index alone |
| RaftExact.ReplyTaken | internal/raft/replication.go:73-87 | a newer term in a reply makes the leader step down, a stale reply changes nothing, an accepted request raises matchIndex as far as it reached and sets nextIndex to one past that |
| RaftExact.RequestExact | internal/raft/replication.go:41-59 | on any log, compacted or not, there is no request if and only if the entry before nextIndex is compacted away; the request carries everything from nextIndex on that is held, and the commit index |
| RaftExact.CompactedIsAppended | internal/raft/replication.go:173-177 | entries whose first index is compacted are all put behind the log |
| RaftDelivery.PassCompletes | internal/raft/node.go:178-199 | in every run a pass of the apply loop that is not stopped ends with exactly the log delivered up to the commit index it began with |
| RaftDelivery.PassStarts | internal/raft/node.go:179-186 | a pass begins if and only if something committed is not applied, with the commit index of that moment |
| RaftDelivery.PassReads | internal/raft/node.go:187 | what was delivered and what the pass takes in are together the log up to that commit index |
| RaftDelivery.PassDelivers | internal/raft/node.go:188-199 | entries are delivered one by one and applied as far as delivered, and the pass ends when none is left |
| RaftHistory.LeaderCompleteness | internal/raft/election.go:113-121 | once a commit quorum has acknowledged an entry of a leader's own term, every later leader started with it and everything before it |
| RaftHistory.LogMatching | internal/raft/replication.go:161-169 | logs whose prefixes all stem from the leaders of their terms agree up to any index where their terms agree |
| RaftHistory.QuorumsMeet | internal/raft/replication.go:127 | a vote quorum (more than half) and a commit quorum (at least half) of any set of nodes share a node |
| RaftHistory.VotePassesOn | internal/raft/election.go:133-141 | the up-to-date check carries a held committed prefix from a voter to the candidate it votes for |
| RaftElectionSteps.NoRival | internal/raft/election.go:78-83 | a candidate that collects a quorum stands in a term nobody has won, although votes can be forgotten |
| RaftReplicationSteps.HeardOk | internal/raft/replication.go:154-158 | a receiver that adopts the sender's term keeps the member invariant; a same-term step down only touches nodes outside the winning quorum |
| RaftReplicationSteps.MergeResult | internal/raft/replication.go:171-186 | after merging, the log agrees with the leader's as far as was sent, is either unchanged or exactly what was sent, and has lost nothing the two logs had in common |
| RaftReplicationSteps.LeaderHasCommitted | internal/raft/replication.go:171-186 | whatever a node has committed is in the log of the leader it hears, so merging cannot remove it |
| RaftReplicationSteps.RejectionHint | internal/raft/replication.go:162-169 | a rejection asks for an index from 1 up to the rejected one and leaves log and commit index alone |
| RaftLeaderSteps.SentArgs | internal/raft/replication.go:41-60 | a leader never needs a snapshot here, and what it sends reaches from nextIndex to the end of its log |
| RaftLeaderSteps.QuorumIndexCommitted | internal/raft/replication.go:127-137 | an entry of the current term that enough matchIndex values reach has been acknowledged by a commit quorum |
| RaftRuns.CommittedForever | internal/raft/replication.go:171-197 | between any two moments of a run a node's term and commit index do not decrease, no entry at or below its commit index is truncated or replaced, and its deliveries only get longer |
| RaftRuns.AnnouncedCommitCarried | internal/raft/replication.go:189-197 | every AppendEntries ever sent has leaderCommit <= prevLogIndex + number of entries, so a follower that accepts it, at any later time, commits exactly the greater of its own and the announced index |
| RaftRuns.MatchIndexHeld | internal/raft/replication.go:81-87 | the leader's log up to matchIndex of a peer is a prefix of the peer's log while the peer is in that term |
| RaftRuns.ReadWhileMerging | internal/raft/replication.go:179-184 | in every run, an apply loop that reads the log between the truncation and the append of an AppendEntries reads what it would have read before or after both |
| RaftRuns.HalfwayIs | internal/raft/replication.go:179-184 | in between, the log is what precedes the first conflicting entry |
| RaftRuns.CompactionTermStands | internal/raft/node.go:203-208 | in every run the term read for the last applied entry is still that entry's term at any later moment, when the snapshot is set |
| RaftRuns.QuorumArithmetic | internal/raft/election.go:39-40 | for every cluster size two vote quorums meet, a vote quorum meets a commit quorum, and a commit quorum is a majority if and only if the number of nodes is odd |
| RaftVoting.VoteForgottenIff | internal/raft/replication.go:154-157 | in every run a step changes the vote of the node's current term if and only if the node receives AppendEntries of that term while a candidate |
| RaftVoting.VotesTwiceInOneTerm | internal/raft/node.go:216-221 | a run of three nodes in which one node votes for itself and for another candidate in term 1 |
| RaftVoting.SecondVoteNeedsLeader | internal/raft/election.go:113-124 | a node votes for two candidates in one term only if somebody already led that term at an earlier moment |
| RaftVoting.SecondVoteNeedsForgetting | internal/raft/replication.go:154-157 | a node votes for two candidates in one term only after a step of that term in which it received AppendEntries while a candidate; without one it votes at most once |
| RaftVoting.ElectionHappened | internal/raft/node.go:224-229 | every term in the record of elections was led by some node at some moment of the run |
| RaftBackup.FastBackUp | internal/raft/replication.go:88-113 | at any moment of any run a leader probing a peer not ahead in term is rejected fewer times than nextIndex and then accepted; if it had to back off, the first probe accepted starts exactly one past the longest common prefix |
| RaftBackup.ProbingEnds | internal/raft/replication.go:88-113 | the same from any leader and follower of one history: which probe is the first accepted, where it starts, and that both logs are unchanged until then |
| RaftBackup.ProbeRejected | internal/raft/replication.go:90-109 | a rejected probe strictly lowers nextIndex, never below one past the common prefix, and changes neither log |
| RaftBackup.ProbeSent | internal/raft/replication.go:161-169 | a probe is accepted if and only if nextIndex is at most one past the common prefix |
| RaftBackup.ConflictTermBehind | internal/raft/replication.go:92-106 | if the leader has entries of the conflicting term, its last one lies between the common prefix and the rejected index, so the leader never moves forward |
| RaftBackup.BackUpFinds | internal/raft/replication.go:94-106 | on a log with sorted terms the scan stops one past the last entry of the term, or at the fallback if and only if there is none |
| RaftBackup.RunStartIs | internal/raft/replication.go:211-221 | the hint is the first index of the run of the conflicting term that ends at the rejected index |
| RaftBackup.PrevMatchesIff | internal/raft/replication.go:162-168 | the entry before the probe matches if and only if it lies in the common prefix |
| RaftBackup.RejectionTaken | internal/raft/replication.go:88-113 | a rejection moves nextIndex to one past the last entry of the conflicting term, to the hint, or back by one but not below 1, and changes nothing else |
| RaftBackup.RunStartHeld | internal/raft/replication.go:211-221 | on a compacted log the hint is the start of the run among the entries still held |
| RaftBackup.BackUpHeld | internal/raft/replication.go:92-106 | on a compacted log the scan finds the last entry of the term among the entries still held, or returns the hint |
| RaftServer.Node.constructor | internal/raft/node.go:50-63 | a new node is a follower in term 0 with an empty log |
| RaftServer.Node.BecomeFollower | internal/raft/node.go:216-221 | sets role and term and clears the vote, whether or not the term changes |
| RaftServer.Node.BecomeLeader | internal/raft/node.go:224-245 | only a candidate becomes leader; every peer starts at nextIndex last+1 and matchIndex 0, the node itself at its last index |
| RaftServer.PeerTables | internal/raft/node.go:230-236 | the loop gives every peer, and nobody else, the two initial values |
| RaftServer.Node.LogUpToDate | internal/raft/election.go:133-141 | compares last terms first and last indexes if they are equal; `RaftExact.VoteGrantedIff` says what that decides |
| RaftServer.Node.StartElection | internal/raft/election.go:16-39 | unless leader, the node becomes a candidate in the next term with its own vote; the request carries its last index and term |
| RaftServer.Node.FinishAlone | internal/raft/election.go:39-52 | a cluster of one elects itself unless the term or role has changed |
| RaftServer.Node.HandleRequestVote | internal/raft/election.go:99-128 | new state and reply for every request and state: stale term, newer term, vote already given, log behind, granted; `RaftExact.VoteGrantedIff` says exactly when which |
| RaftServer.Node.CountVote | internal/raft/election.go:70-84 | new state and tally for every reply; the node becomes leader at most once per election |
| RaftServer.Node.PrepareAppend | internal/raft/replication.go:34-60 | the request for a peer, or none when not leader or when the previous entry is unavailable |
| RaftServer.Node.FinishAppend | internal/raft/replication.go:70-114 | new state for every reply: newer term, stale reply, success, and the three ways to back up |
| RaftServer.Node.LastOfTerm | internal/raft/replication.go:92-106 | the loop returns one past the last entry of the term, or the fallback |
| RaftServer.Node.AdvanceCommitIndex | internal/raft/replication.go:118-142 | moves the commit index to the greatest index a commit quorum reaches, only forward and only over an entry of the current term; `RaftExact.CommitExact` says so about entries and recorded indexes |
| RaftServer.SortedIndexes | internal/raft/replication.go:119-124 | lists every recorded matchIndex once, in descending order |
| RaftServer.SortedPick | internal/raft/replication.go:126-131 | in descending order position q-1 holds the greatest index that at least q nodes reach |
| RaftServer.QuorumIndexUnique | internal/raft/replication.go:131 | there is only one such index |
| RaftNode.QuorumIndexExists | internal/raft/replication.go:128-131 | there is such an index whenever the quorum is not larger than the table |
| RaftServer.Node.HandleAppendEntries | internal/raft/replication.go:145-201 | new state and reply for every request and state, including compacted logs |
| RaftServer.Node.Merge | internal/raft/replication.go:172-186 | the loop keeps entries already present and replaces the tail at the first gap or conflicting term |
| RaftServer.Node.ConflictHint | internal/raft/replication.go:205-222 | one past the end with term 0 for a short log, otherwise the start of the run of the conflicting term |
| RaftServer.Node.Propose | internal/raft/node.go:84-108 | only a leader appends, at the next index and its term, and then tries to commit |
| RaftServer.Node.Deliver | internal/raft/node.go:188-199 | puts the entries on the channel in order and ends with lastApplied at the last of them |
| RaftServer.Node.CompactIfLong | internal/raft/node.go:201-211 | a log of 10,000 entries or more is compacted up to lastApplied when that entry's term is available |
| RaftServer.Node.ApplyCommitted | internal/raft/node.go:178-212 | an undisturbed pass delivers exactly the entries between lastApplied and the commit index that the log still holds; `RaftServer.PassExact` says so about entries |
| RaftServer.PassExact | internal/raft/node.go:184-199 | on an uncompacted log an undisturbed pass delivers the entries after lastApplied up to the commit index and ends with lastApplied there |
| RaftServer.CompactsExactly | internal/raft/node.go:201-211 | a log of 10,000 entries or more keeps exactly what comes after lastApplied and remembers that index and term; a shorter one is unchanged |
| RaftLog.CompactedRefinesFull | internal/raft/log.go:15-143 | after any contiguous appends, truncations above the snapshot and compactions of held entries, every query answers as the log that never compacts, at every index above the snapshot and Term also at it; the index invariant holds |
| RaftLog.CallsRepresent | internal/raft/log.go:79-143 | the compacted log is always the tail of the full one behind the snapshot point |
| RaftLog.CallsBeyond | internal/raft/log.go:87-143 | truncating in the compacted part or compacting beyond the end leaves only the snapshot, and compacting below it changes nothing |
| RaftLog.LogBuffer.constructor | internal/raft/log.go:26-28 | a new log is empty with no snapshot |
| RaftLog.LogBuffer.LastIndex | internal/raft/log.go:37-42 | the last entry's index, or the snapshot's |
| RaftLog.LogBuffer.LastTerm | internal/raft/log.go:51-56 | the last entry's term, or the snapshot's |
| RaftLog.LogBuffer.Term | internal/raft/log.go:59-77 | found, compacted or not found, with 0 always found, and no subtraction below zero |
| RaftLog.LogBuffer.Append | internal/raft/log.go:80-84 | the new log is the old one with the entries behind it |
| RaftLog.LogBuffer.TruncateAfter | internal/raft/log.go:87-99 | entries from the index on are gone; all of them if it is compacted |
| RaftLog.LogBuffer.Slice | internal/raft/log.go:103-121 | the entries held in the range, nothing if it starts in the compacted part |
| RaftLog.LogBuffer.SetSnapshot | internal/raft/log.go:125-143 | drops the entries up to the index and records index and term, only forward |
| WalDurability.Durability | internal/wal/wal.go:75-128 | after every run of appends, rotations, restarts and crashes at any byte from an empty directory, all steps have succeeded and reading gives exactly the acknowledged entries in order plus each interrupted one whose bytes all reached the disk, if and only if no append or interrupted append put the header of a record above 128 MiB on disk; otherwise nothing can be read; LastIndex is the greatest of those indexes while the log is open. Segment ids stay below 10^16 |
| WalDurability.OversizedLost | internal/wal/wal.go:75-109 | an append above 128 MiB is acknowledged, after which reading fails and the log cannot be opened again |
| WalDurability.OversizedExample | internal/wal/entry.go:85-87 | one append of 128 MiB of data is such a run |
| WalDurability.RunHolds | internal/wal/recovery.go:48-103 | after every such run, unless reopening failed, files, segment list, sizes and last index are those of the acknowledged entries split into segments 1, 2, 3, ...; reopening has failed or a segment is unreadable if and only if a record was above 128 MiB |
| WalDurability.CrashHolds | internal/wal/recovery.go:62-79 | a crash after any number of bytes of a record, after any rotation, leaves a directory that reopens if and only if no record above 128 MiB has its header on disk, and then to the entries before it, with the record if and only if it is complete |
| WalDurability.ReopenIdempotent | internal/wal/recovery.go:48-103 | for every directory, a log that opened opens again to the same segments, sizes and last index and leaves every file as it is |
| WalDurability.RecoveryExact | internal/wal/recovery.go:48-103 | for every directory that opens: segments in string order with the ids of their names and the sizes of their files, the last open, only its file cut back to its records, all entries readable, and the last index their greatest |
| WalDurability.RecoveryFailsIff | internal/wal/recovery.go:56-65 | a directory does not open if and only if a segment name is no number or a segment reports an error |
| WalDurability.SegmentSizes | internal/wal/wal.go:90-96 | in a run with one limit a segment file larger than a non-negative limit is exactly one record |
| WalDurability.RotatesExactly | internal/wal/wal.go:90-98 | after any run an append starts a new segment if and only if the record does not fit behind the bytes of the last file, and is the end of the file it goes to |
| WalDurability.ShortRuns | internal/wal/segment.go:22-25 | no run of fewer than 10^16 - 1 events reaches a segment id whose name sorts wrongly |
| WalDurability.ReadBack | internal/wal/wal.go:113-128 | reading an open log gives the entries of its segments in creation order, or nothing if one of them is above 128 MiB |
| WalReplay.ReplayCanonical | internal/wal/recovery.go:21-43 | for any bytes, the part replay keeps is the concatenated encodings of the entries it returns |
| WalReplay.RecoveryIdempotent | internal/wal/recovery.go:62-79 | replaying what was kept gives the same result, and the next record written adds exactly its entry, or makes replay fail if it is above 128 MiB |
| WalReplay.ReplayAfterCrash | internal/wal/recovery.go:28-42 | records followed by a prefix of one more replay to the records, plus the last if and only if the prefix is all of it; replay fails if and only if that record is above 128 MiB and its header is there |
| WalReplay.ReplayRecords | internal/wal/recovery.go:28-42 | records followed by anything that does not start with a good record replay to exactly those records, with an error if and only if the length field is out of range |
| WalReplay.ReplayOversized | internal/wal/recovery.go:30-38 | replay fails whenever one of the records is above 128 MiB, whatever follows |
| WalReplay.ReplayFile | internal/wal/recovery.go:21-43 | the loop over the reader ends and returns the entries, the valid length and whether a bad length was met |
| WalReplay.DecodeFrom | internal/wal/entry.go:72-105 | the result for every content of the reader: end, cut short, too large, too small, bad checksum, decoded; a decoded record is consumed |
| WalReplay.Encode | internal/wal/entry.go:47-65 | the writer has received header and payload of the entry, nothing else |
| WalReplay.PutNumber | internal/wal/entry.go:49-56 | fills its bytes of the buffer with the little-endian number and leaves the others |
| WalReplay.Reader.ReadFull | internal/wal/entry.go:74-95 | all the bytes asked for, or whether there were none or too few |
| WalCodec.RoundTrip | internal/wal/entry.go:47-105 | decoding an encoding followed by any bytes gives the entry and leaves those bytes if and only if the payload is within 128 MiB; otherwise it is refused as too large |
| WalCodec.DecodeIsInverse | internal/wal/entry.go:72-110 | every successful decode consumed exactly the encoding of its result, of the size encodedSize computes |
| WalCodec.DecodeOutcome | internal/wal/entry.go:82-104 | the outcome for any length, checksum and bytes that follow: too large, too small, cut short, bad checksum or the entry |
| WalCodec.DecodeShort | internal/wal/entry.go:73-80 | fewer bytes than a header are a cut record, none the end |
| WalCodec.PrefixFree | internal/wal/entry.go:45-65 | no record, of whatever size, is a proper prefix of another |
| WalCodec.UniqueParse | internal/wal/entry.go:45-65 | a concatenation of records of whatever size determines the records |
| WalCodec.CutRecord | internal/wal/entry.go:73-95 | a record cut at any byte is reported as cut short, as the end of the file if nothing is left, or as too large if it is and its header is complete |
| WalNames.NameRoundTrip | internal/wal/segment.go:23-36 | every 64-bit id is recovered from its file name |
| WalNames.IdOfName | internal/wal/segment.go:28-36 | a segment name has an id if and only if it is a decimal number that fits 64 bits |
| WalNames.NameOrder | internal/wal/segment.go:21-25 | for ids below 10^16 string order of names is numeric order of ids |
| WalNames.NameOrderIff | internal/wal/segment.go:21-25 | names of all ids below a limit sort like the ids if and only if the limit is at most 10^16 |
| WalNames.ListingUnique | internal/wal/recovery.go:49-54 | a directory has one sorted list of segment files |
| Wal.Log.ListSegments | internal/wal/recovery.go:49-54 | the files whose names end in .wal, each once, in string order |
| Wal.FilesListed | internal/wal/recovery.go:49-54 | that list is sorted and complete for every directory |
| Wal.Log.RecoverFiles | internal/wal/recovery.go:48-103 | segments, sizes, last index and the truncated last file for every directory, or failure with the files untouched |
| Wal.Log.OpenForWrite | internal/wal/segment.go:52-69 | the file keeps its valid part only and becomes the active segment |
| Wal.Log.HighestIndex | internal/wal/recovery.go:67-71 | the greatest of the entries' indexes and the one so far |
| Wal.MaxIndexIs | internal/wal/recovery.go:67-71 | the last index is the greatest index of any entry, 0 without entries |
| Wal.Log.RotateSegment | internal/wal/wal.go:152-165 | the active segment is closed and an empty next one active, or only closed if the next file exists |
| Wal.Log.WriteBytes | internal/wal/segment.go:72-79 | the bytes are behind the active file's contents and its size has grown by their number |
| Wal.Log.Append | internal/wal/wal.go:75-109 | rotates if the record does not fit, writes it and raises the last index; states what a refused append leaves |
| Wal.RefusedIff | internal/wal/wal.go:90-103 | an append is refused if and only if it needs a new segment whose file exists, or needs none and the active one was closed by a failed rotation; what it leaves |
| Wal.Log.ReadEntries | internal/wal/wal.go:113-128 | the entries of all segments in order, or nothing if a file is missing or malformed |
| Causality.ClocksAreCausality | internal/clock/vector.go:23-90 | in every run where no node has 2^64 events, one event causally precedes another if and only if its clock is before the other's; clocks are equal only for the same event and concurrent exactly for causally unrelated ones |
| Causality.CausalityIffNoWrap | internal/clock/vector.go:21-27 | clock order is causality throughout a run if and only if no node has 2^64 events in it |
| Causality.WrapBreaks | internal/clock/vector.go:21-27 | in any other run some event is not before an event it caused |
| Causality.LongRunWraps | internal/clock/vector.go:21-27 | 2^64 local events at one node are such a run |
| Causality.CounterBound | internal/clock/vector.go:23-40 | no counter exceeds the number of events at its node so far, and a node's own counter equals it |
| Causality.CountedReaches | internal/clock/vector.go:29-40 | an event whose clock has counted another has it in its causal past |
| VectorClock.ExactlyOne | internal/clock/vector.go:69-90 | any two clocks are exactly one of before, after, equal or concurrent; concurrent means each is ahead somewhere |
| VectorClock.BeforeTransitive | internal/clock/vector.go:42-67 | before composes with at-most on either side |
| VectorClock.MergeIsLeastUpperBound | internal/clock/vector.go:32-40 | the merge is at most a clock if and only if both merged clocks are |
| VectorClock.IncrementMovesForward | internal/clock/vector.go:23-27 | incrementing moves a clock forward if and only if its counter does not wrap |
| VectorClock.Clone | internal/clock/vector.go:93-99 | the copying loop yields the same clock |
| VectorClock.Increment | internal/clock/vector.go:23-27 | one counter grows by one modulo 2^64 |
| VectorClock.Merge | internal/clock/vector.go:32-40 | the loop yields the merged clock |
| VectorClock.HappensBefore | internal/clock/vector.go:49-67 | the two loops decide whether all counters are at most and one is less, absent keys being 0 |
| VectorClock.Equal | internal/clock/vector.go:76-90 | decides whether all counters are equal, absent keys being 0 |
| VectorClock.Concurrent | internal/clock/vector.go:71-73 | decides whether neither is before the other and they differ |
| ChunkLeases.LeaseExclusion | internal/metadata/lease.go:57-106 | in every history of calls with a clock that does not run backwards, no chunk has two different holders whose last lease received and not given back is unexpired |
| ChunkLeases.BeliefIsTrue | internal/metadata/lease.go:57-106 | such a lease is the one in the manager's table |
| ChunkLeases.LeaseStands | internal/metadata/lease.go:57-119 | a lease given at time t is what its holder holds until t plus the lifetime, and not longer, while it makes no further call about the chunk; until then every check answers it and every grant to another node is refused |
| ChunkLeases.GrantAnswered | internal/metadata/lease.go:60-77 | a grant is refused if and only if another node holds an unexpired lease it has not given back; otherwise it gives a full lifetime from now |
| ChunkLeases.OwnAnswered | internal/metadata/lease.go:81-106 | a renewal or revocation succeeds if and only if the caller holds the lease; a renewal gives a full lifetime from now |
| ChunkLeases.CheckAnswered | internal/metadata/lease.go:110-119 | a check answers the lease somebody holds, and absence if and only if nobody does |
| ChunkLeases.CountAnswered | internal/metadata/lease.go:122-134 | a count is the number of chunks on which somebody holds a lease |
| ChunkLeases.SweepAnswered | internal/metadata/lease.go:138-151 | a sweep keeps exactly the unexpired leases and returns how many it removed |
| ChunkLeases.HoldingIffLive | internal/metadata/lease.go:57-106 | the unexpired leases in the table are exactly those somebody was last given and has not given back |
| ChunkLeases.SweepsInvisible | internal/metadata/lease.go:136-151 | removing all sweeps from a history changes no answer of the other calls |
| ChunkLeases.LeaseManager.constructor | internal/metadata/lease.go:46-55 | an empty table; a non-positive lifetime is replaced by 60 s |
| ChunkLeases.LeaseManager.GrantLease | internal/metadata/lease.go:60-77 | table and answer for a grant: refused only to another node while a lease is unexpired |
| ChunkLeases.LeaseManager.RenewLease | internal/metadata/lease.go:81-92 | table and answer for a renewal: only an unexpired lease of the caller is extended; `ChunkLeases.OwnAnswered` says by how much |
| ChunkLeases.LeaseManager.RevokeLease | internal/metadata/lease.go:96-106 | table and answer for a revocation: only an unexpired lease of the caller is removed |
| ChunkLeases.LeaseManager.CheckLease | internal/metadata/lease.go:110-119 | the unexpired lease on the chunk, if any |
| ChunkLeases.LeaseManager.CountLeases | internal/metadata/lease.go:122-134 | the loop counts the unexpired leases |
| ChunkLeases.LeaseManager.SweepExpired | internal/metadata/lease.go:138-151 | exactly the expired leases are gone, and their number is returned |
| ChunkGc.GraceRespected | internal/chunk/gc.go:62-105 | in every history of sweeps a chunk is deleted only if a look started its timer at least the grace period before, every look since found it unreferenced and every sweep completed since listed it |
| ChunkGc.DeletedIffDue | internal/chunk/gc.go:62-105 | with a clock that does not run backwards, a look deletes a chunk if and only if it finds it unreferenced, deleting works, and a look at least the grace period earlier found it orphaned, with no look since finding it referenced or deleting it and no completed sweep missing it |
| ChunkGc.TimerRuns | internal/chunk/gc.go:85-92 | since such a look the chunk has had a timer, at most as late as that look |
| ChunkGc.TimerStarted | internal/chunk/gc.go:85-92 | every running timer shows the time of such a look |
| ChunkGc.TimersExact | internal/chunk/gc.go:107-115 | after a completed sweep a chunk has a timer if and only if the sweep's last look at it found it unreferenced and did not delete it |
| ChunkGc.Collector.constructor | internal/chunk/gc.go:33-41 | no timers |
| ChunkGc.Collector.SweepOnce | internal/chunk/gc.go:62-116 | timers, deleted chunks and outcome of a pass, whether it fails to list, is cancelled or completes; `ChunkGc.DeletedIffDue` says which chunks those are |
| ChunkGc.Collector.Examine | internal/chunk/gc.go:77-103 | timer and deletion for one look, as `ChunkGc.DeletedIffDue` characterises them |
| ChunkGc.Collector.Forget | internal/chunk/gc.go:107-114 | exactly the timers of chunks not listed are gone |

## Left out

- Raft with compaction or snapshots at cluster level: a compacted log can be asked for entries it no longer has, and an installed snapshot keeps a suffix without comparing terms, so the run theorems do not extend to it. A node's apply loop stops in the model where the source would compact (10,000 entries); `CompactIfLong` and `RaftLog` cover compaction of one log.
- Snapshot transfer (internal/raft/snapshot.go): carries no state.
- Restarts of Raft nodes: term, vote and log are kept in memory only.
- Timers, goroutines, channels and signalling: they are the arbitrary order of actions; nothing is said about time or about what must happen; `RaftProgress` says what can.
- Configuration: the peers of every node are all the other nodes, each once; node ids are not empty.
- Repeated vote replies: a candidate counts each peer once per election, as one call has one reply; append replies may be handled any number of times.
- Delivery between the channel send and the update of lastApplied: one step of the model, since only the apply loop touches either.
- RaftServer.Node.CompactIfLong: states a compaction that nothing interrupts; that the term it read still holds when the snapshot is set is `RaftRuns.CompactionTermStands`.
- RaftServer.Node.ApplyCommitted: states a pass that nothing interrupts; the interleavings of its three sections with other steps are in `RaftCluster` and `RaftSafety.DeliveryStream`.
- 64-bit terms and log indexes: natural numbers in Raft, so their wrap-around is not modelled; the one subtraction that can wrap (nextIndex 0) is written out.
- Errors of the operating system and short writes in the write-ahead log; a tail that is not a prefix of the record in flight.
- Segment ids that need more than sixteen digits in runs of the write-ahead log: names stop sorting like ids there.
- Payloads of 2^64 bytes or more, which no slice can hold.
- CRC-32: any function from payloads to 32-bit numbers.
- Wall clocks: a parameter of every call.
- Chunk deletion, listing and reference checks in garbage collection: part of the sweep's input.
- Leases across several masters: each master has a table of its own.
- The master, the namespace, the chunk store and its map, chunk versions, Lamport clocks, the monitor, the BadgerDB store, the client, transports, certificates, metrics and commands: easy or input and output only.
