# dRoole in Dafny: Raft consensus, its write-ahead log, and the node's small state machines

A model of the stateful cores of dRoole, a distributed rule engine written in C, with machine-checked proofs
about every input, every run and every interleaving.

`dafny verify dfyconfig.toml` checks the whole project.

## The parts

**Raft** (`src/cluster/raft_core.c`). `RaftNode.Node` is the node as an object: its handlers, `become_*`
transitions and ticks update its fields in place, with the source's loops. Each method is proved equal to a pure
step function of `RaftStep`. `Cluster` makes a transition system out of those step functions: any number of nodes
and a network that may lose, duplicate, delay and reorder messages, with restarts from disk at any step. The
theorems about runs are proved through inductive invariants kept by every step:

- `ElectionSafety` - votes, quorums, candidates, leaders
- `Matching` - every log is made of prefixes of leader logs
- `Ballots` - what a vote says about the voter's log, and what its candidate's log had
- `Retention` - what an acknowledged prefix means for later leaders
- `Commitment` - what commit and apply mean, in honest runs
- `Honesty` - what honest runs are, exactly; `Replication` - one that commits and applies
- `PlainRuns` - the runs of the source as it stands, whose leaders send no entries
- `Divergence` - one of those, in which two nodes apply different payloads
- `Handlers` - what each entry point promises its callers: stale answers, when a vote must be given, stepping down,
  progress and back-off
- `RunTheorems`, `CommitRule`, `Applying`, `RaftLog`, `RaftCompaction`, `RaftSnapshot` - the theorems beside the
  safety chain

The code departs from the published algorithm (D. Ongaro and J. Ousterhout, "In Search of an Understandable
Consensus Algorithm", extended version), and the invariants are those of the code:

- A step-down in the same term erases the recorded vote, so "one vote per term" does not hold. What holds is that
  grants to *other* nodes are never erased within a term, that a stepped-down candidate's vote for itself is dead,
  and that a leader is never stepped down in its own term.
- Replies carry the term from before the step-up, so a grant or an acknowledgement given while stepping up is
  thrown away by its receiver. Counting stays exact.
- An absent entry reads as term 0, so the consistency check can pass with no entry at the anchor. It does so only
  for empty batches.

**Write-ahead log** (`src/cluster/raft_persistence.c`). `Crc` and `Wal`: the table-driven CRC against the
bit-at-a-time definition of section 8 of RFC 1952, the file format, and recovery from a torn or damaged tail.
`RaftCompaction`: the in-place truncation after a snapshot. `RaftSnapshot`: what it does to applying and to a restart.

**Logger** (`src/common/logger.c`). `Logger`: the producer and the worker as interleaved steps over the ring.

**RPC session** (`src/protocol/rpc_handler.c`, `src/protocol/serializer.c`). `RpcSession` is one event of a session
as a function of the session and the unread bytes; `RpcHandler.ClientSession` does the same with buffers and
counters; `Serializer` is the header format; `RpcReplies` says what becomes of a complete request.

**Descriptor table** (`src/common/event_loop.c`). `FdTable`: linked hash chains that stand for a finite map.

## Assumptions

- Fixed membership: each node's peers are exactly the other nodes. Ids are distinct and not empty; in the file
  format they have at most 36 bytes.
- Handlers are atomic, and sending only queues a message. Persisting saves this node's own state and succeeds.
  Allocation succeeds.
- Ticks fire at any time, which covers every choice of timers.
- Raft terms and indices are unbounded; the logger's counters wrap at 2^64, the descriptor hash at 2^32, and the
  file format's fields have their widths.
- In the cluster no snapshot is taken: `last_snapshot_index` is 0. `RaftNode`, `RaftCompaction` and `RaftSnapshot` have it.
- A leader may send any contiguous slice of its log from `next_index` on. The source sends the empty slice, which is
  one of them; `Divergence` uses only that one.
- Memory is sequentially consistent in the logger.

## Findings

- **State Machine Safety is false of the code without a hypothesis.** A successful AppendEntries reports the
  follower's whole last index, checked or not, and commits up to it. `Divergence.DivergenceTheorem` builds, for any two
  payloads, a run of three nodes with empty heartbeats and no restarts in which two nodes apply the one and the other
  at index 2. It holds in every *honest* run: of each success, the prefix it reports, if the leader will count the
  report, and the prefix it newly commits are shared with the leader (`Commitment.StateMachineSafetyTheorem`).
  - `Honesty.HonestGuards`: which successes are honest, from the request and the two logs before the call.
  - `Honesty.HonestyTheorem`: a run is honest if and only if at every moment every counted acknowledgement is true
    and every committed prefix is one that a majority has acknowledged.
  - `Honesty.LateIsHonest`: late, short and repeated requests are no obstacle: a follower that has only entries of
    this leader answers honestly. `Honesty.TightRunIsHonest`: so does any run in which each success leaves the log no
    longer than the index just checked. `Replication.ReplicationTheorem` is an honest run that commits and applies.
- **Every commit of the source as it stands rests on a false acknowledgement.** Its leaders attach no entries
  (`src/cluster/raft_core.c:322-326`), so entries never leave the node that created them. An honest run of two nodes or
  more then commits and applies nothing (`PlainRuns.HonestRunsAreIdle`), so the safe side above says nothing about
  those runs of this sender that do. What does hold of all of them: no two nodes ever have an entry of the same term
  (`PlainRuns.EntriesStayHome`), each applies exactly its own log (`PlainRuns.AppliesOwnLog`), and so two nodes agree at
  an index if and only if two separate submissions happen to carry the same payload (`PlainRuns.AgreementByChance`).
  A success is honest exactly when it is not counted or comes from an empty log, and raises no commit index
  (`PlainRuns.PlainGuards`).
- **The logger can lose an accepted message at shutdown**: one published after the worker loaded the write counter
  and before it tests the flag (`Logger.LostAtShutdown`), or one in flight that is published after the worker has left
  (`Logger.LostInFlight`). `Logger.DrainedForGood` says exactly when nothing is lost, from the exit on.
- The packed `RpcHeader` has 90 bytes; the comment at `src/protocol/rpc_handler.c:233` says 91.
- `loop_mod_fd` keeps the new handler when `epoll_ctl` fails, unlike `loop_add_fd`, which rolls back. That is the only
  failure that changes the map (`FdTable.UndoTheorem`, with `FdTable.ModKeepsHandler` as an instance).
- `loop_del_fd` frees the context also when `epoll_ctl` fails; the kernel is left with a pointer to it exactly then
  (`FdTable.EventLoop.DelFd`, over whole sequences `FdTable.Perform`; `FdTable.DanglingInstance` is an instance).
- The append loop does not check that a batch continues the log. Among contiguous batches, a gap appears exactly when
  a non-empty one starts beyond the end of the log, and committed entries are lost exactly when its terms disagree with
  them (`Applying.GapIff`, `Applying.SpareIff`); for any batch `Applying.PassesIff` has the condition pass by pass,
  and `Applying.GapBreaksApplying` an instance. No leader of any run sends such a batch (`RunTheorems.WellCutTheorem`),
  and in honest runs none is ever delivered (`Honesty.AllowedTheorem`).
- **A compacted log does not survive a restart.** `raft_save_snapshot` does not rewrite the file, and the file has no
  place for `last_snapshot_index`, which restoring leaves 0. A node that has persisted its log reads after a restart
  what it read before if and only if it had no snapshot (`RaftSnapshot.RestartIffNoSnapshot`); if nothing was persisted
  since the snapshot, the uncompacted log comes back and all is well (`RaftSnapshot.RestartAfterCompaction`).
  `RaftSnapshot.RestartMisplaces` is an instance.
- **Compaction is visible to requests anchored below the cut.** Anchor 0 skips the consistency check, and entries at or
  below the snapshot are not found, so a redelivered batch is appended after the end
  (`RaftSnapshot.RedeliveryBelowCut`). The loop keeps the log gap-free exactly for batches that are empty or anchored
  from the cut on (`RaftSnapshot.CompactionVisibleIff`), and exactly anchor 0 or anchor term 0 gets that far
  (`RaftSnapshot.BelowCut`).
- The cut of a snapshot is never compared with `last_applied`. Entries are lost to the apply loop exactly when the cut
  is above it and something is left to apply (`RaftSnapshot.CompactionKeepsApplying`).

## Model

| member | source | states |
|---|---|---|
| `Commitment.StateMachineSafetyTheorem` | src/cluster/raft_core.c:285-303 | in every honest run any two nodes at any two moments, restarts included, have applied the same payload at the same index |
| `Commitment.LeaderCompletenessTheorem` | src/cluster/raft_core.c:335-352 | in every honest run, every leader of a later term has, at any moment, all that a node has committed |
| `Honesty.HonestyTheorem` | src/cluster/raft_core.c:505-516 | a run is honest if and only if in all its states every counted acknowledgement is true and every committed prefix is one a majority has acknowledged |
| `Honesty.HonestGuards` | src/cluster/raft_core.c:470-516 | for every success of every run, before the call: its report is honest iff the request's term is new to the follower, or it overwrites, or both logs have the same term where the follower's ends; its commit iff that does not rise, or it overwrites, or the terms agree at the lesser of leader_commit and the last index |
| `Honesty.SharedIff` | src/cluster/raft_core.c:505-516 | for every success of every run and every index: the prefix is shared with the leader exactly when it is empty or both logs have it with the same term at its end |
| `Honesty.LateIsHonest` | src/cluster/raft_core.c:429-516 | a follower with only this leader's entries answers any late, short or repeated request honestly |
| `Honesty.TightRunIsHonest` | src/cluster/raft_core.c:515-515 | if each success leaves the log no longer than prev_log_index plus the batch, the run is honest |
| `Honesty.AllowedTheorem` | src/cluster/raft_core.c:470-512 | in every honest run every delivered request meets the hypothesis of the apply theorem |
| `Replication.ReplicationTheorem` | src/cluster/raft_core.c:429-516 | for any payload, an honest run in which a leader and a follower both apply it |
| `PlainRuns.HonestRunsAreIdle` | src/cluster/raft_core.c:313-332 | with the source's empty batches, an honest run of two nodes or more commits and applies nothing |
| `PlainRuns.EntriesStayHome` | src/cluster/raft_core.c:313-332 | with empty batches, honest or not, no two nodes ever hold entries of the same term |
| `PlainRuns.AppliesOwnLog` | src/cluster/raft_core.c:285-303 | with empty batches each node applies exactly its own log up to last_applied, entries of terms it led |
| `PlainRuns.AgreementByChance` | src/cluster/raft_core.c:285-303 | with empty batches two nodes have applied the same at an index if and only if their own entries, of different terms, carry the same payload |
| `PlainRuns.PlainGuards` | src/cluster/raft_core.c:505-516 | with empty batches a report is honest iff it is not counted or the log is empty, and a commit iff it does not rise |
| `PlainRuns.PlainHonestIff` | src/cluster/raft_core.c:505-516 | with empty batches a run is honest iff every success meets both |
| `Divergence.DivergenceTheorem` | src/cluster/raft_core.c:505-516 | without that hypothesis: for any two payloads a run of plain heartbeats in which two nodes apply them at one index |
| `Matching.ElectionSafetyTheorem` | src/cluster/raft_core.c:81-154 | in every run at most one node ever leads a given term |
| `Matching.LogMatchingTheorem` | src/cluster/raft_core.c:459-500 | logs of any two nodes at any two moments that share term and position of one entry are identical up to it, payloads included |
| `Matching.LeaderAppendOnlyTheorem` | src/cluster/raft_core.c:439-500 | from leading a term until its term changes, a node's log only grows, even across a restart |
| `RunTheorems.VoteCountTheorem` | src/cluster/raft_core.c:518-546 | a candidate has counted one vote plus one per flagged peer, and each flagged peer granted it, in an earlier step, in exactly this term |
| `RunTheorems.MajorityTheorem` | src/cluster/raft_core.c:533-546 | behind every leader is a strict majority whose other members each granted it in that term |
| `RunTheorems.PersistTheorem` | src/cluster/raft_core.c:71-75 | after every step of every run the persisted term, vote and log are those in memory, so a restart keeps them |
| `RunTheorems.TermsTheorem` | src/cluster/raft_core.c:81-111 | terms never decrease along a run, restarts included |
| `RunTheorems.GapFreeTheorem` | src/cluster/raft_core.c:54-69 | entry n of every log of every run has index n |
| `RunTheorems.AbsentAnchorTheorem` | src/cluster/raft_core.c:459-468 | an anchor beyond the receiver's log passes the consistency check only with no entries, and the log stays as it was |
| `RunTheorems.WellCutTheorem` | src/cluster/raft_core.c:313-332 | every AppendEntries ever sent has contiguous indices after its anchor and non-zero terms |
| `RunTheorems.LeaderIdTheorem` | src/cluster/raft_core.c:598-600 | at every moment of every run the leader a node names is nobody or the one elected in its term |
| `Handlers.TermRule` | src/cluster/raft_core.c:379-577 | whatever the message, the term becomes the greater of the two, and a greater one makes a follower |
| `Handlers.StepDownRule` | src/cluster/raft_core.c:81-92 | stepping down forgets vote, count and leader, but for what the message then gives, and keeps the log unless it brings entries |
| `Handlers.RoleRule` | src/cluster/raft_core.c:379-577 | a role changes only by a greater term, an AppendEntries of the own term or a won election |
| `Handlers.UpToDateTotal` | src/cluster/raft_core.c:406-417 | of any two logs at least one is up to date for the other, and both only if they end alike |
| `Handlers.GrantedIff` | src/cluster/raft_core.c:379-427 | a vote is given if and only if the term is not stale, the vote is free and the log lexicographically at least as good; the one reply carries the term from before |
| `Handlers.Campaign` | src/cluster/raft_core.c:94-131 | next term, own vote, flags cleared, and to each peer one request that describes the own log |
| `Handlers.CountedIff` | src/cluster/raft_core.c:526-546 | exactly a first grant of the own term from a known peer counts, and exactly a strict majority makes a leader |
| `Handlers.SubmitRule` | src/cluster/raft_core.c:248-279 | only a leader takes a submission, as one entry of its term, next in order |
| `Handlers.StaleAnswer` | src/cluster/raft_core.c:434-448 | a stale request changes nothing and is answered with the node's own term |
| `Handlers.StaleLeaderStepsDown` | src/cluster/raft_core.c:444-557 | a deposed leader that gets that answer becomes a follower in the newer term |
| `Handlers.StaleCandidateStepsDown` | src/cluster/raft_core.c:382-524 | so does a candidate of an old term |
| `Handlers.AppendAnswer` | src/cluster/raft_core.c:429-516 | success if and only if not stale and the anchor is 0 or its terms agree; what the one answer carries |
| `Handlers.AppendEffect` | src/cluster/raft_core.c:439-516 | term, role, log, commit index, known leader and vote after a request that is not stale |
| `Handlers.ProgressRule` | src/cluster/raft_core.c:548-577 | a success sets the answering peer's progress, a refusal lowers its next index by one while above 1, nothing else changes |
| `Handlers.BackOffTheorem` | src/cluster/raft_core.c:567-576 | k refusals lower the next index by k, down to 1 and no further |
| `Handlers.HeartbeatRule` | src/cluster/raft_core.c:305-332 | when due, one empty request to each peer, about the entry before its next index, with the commit index from before |
| `Handlers.SliceRule` | src/cluster/raft_core.c:313-332 | a request with entries carries exactly those from the next index on |
| `ElectionSafety.StepElection` | src/cluster/raft_core.c:379-546 | every action keeps the election invariant: grants to others unique per term, quorums made of real votes, leaders recorded |
| `ElectionSafety.NoRival` | src/cluster/raft_core.c:533-546 | a candidate with a majority of votes of its term finds no leader of that term, although votes can be erased |
| `ElectionSafety.GrantIsExact` | src/cluster/raft_core.c:382-427 | a grant that is counted, not discarded, is a vote of exactly the candidate's term |
| `ElectionSafety.LeaderNotDeposed` | src/cluster/raft_core.c:455-457 | a leader never receives an AppendEntries of its own term |
| `Matching.StepLog` | src/cluster/raft_core.c:429-516 | every action keeps the log invariant: each log is prefix by prefix that of the leaders who wrote it |
| `Matching.Accepted` | src/cluster/raft_core.c:459-500 | a batch that passes the check leaves the old log, or exactly the leader's up to the end of the batch |
| `Ballots.StepBallot` | src/cluster/raft_core.c:406-417 | every action keeps what votes say: the candidate's log was at least as up to date as the voter's, as it then was |
| `Retention.LeaderCompleteness` | src/cluster/raft_core.c:335-352 | a prefix of the leader's term held by a majority is in the log of every later leader |
| `Retention.StepRetention` | src/cluster/raft_core.c:470-516 | every action whose counted report is honest keeps what was acknowledged, until a later leader that deviates |
| `Retention.AckIsExact` | src/cluster/raft_core.c:548-577 | an acknowledgement that is counted speaks of exactly the leader's term |
| `Commitment.StepCommit` | src/cluster/raft_core.c:305-373 | every honest action keeps: commit indices cover only prefixes a majority holds, and applied payloads are those of the log |
| `CommitRule.CommitRuleTheorem` | src/cluster/raft_core.c:335-352 | for every leader of every run, the commit loop commits the majority rank of the match indices if that entry is of the current term, and else nothing |
| `CommitRule.GuardIsRank` | src/cluster/raft_core.c:339-350 | the loop's count is a strict majority exactly when the sorted match indices reach n at the middle |
| `RaftStep.GreatestCommittable` | src/cluster/raft_core.c:335-352 | the greatest index above the old one with the current term and a strict majority, or the old one |
| `Applying.ApplyTheorem` | src/cluster/raft_core.c:285-303 | over every history of calls to a fresh node whose accepted batches leave no gap and contradict nothing committed: applied up to commit up to last index, payloads exactly those of entries 1 to last_applied, each once and in order |
| `Applying.AllowedIff` | src/cluster/raft_core.c:470-512 | that condition holds throughout a history if and only if at every call the log stays gap-free and keeps what was committed |
| `Applying.GapIff` | src/cluster/raft_core.c:470-500 | after any snapshot, a contiguous batch above it leaves a gap-free log if and only if it is empty or starts no later than the log ends |
| `Applying.SpareIff` | src/cluster/raft_core.c:470-500 | it keeps the first n entries if and only if its terms agree with theirs |
| `Applying.PassesIff` | src/cluster/raft_core.c:470-500 | for any batch after any snapshot, every pass leaves a gap-free log if and only if each index is in turn above the snapshot and at most one beyond the end |
| `Applying.AnchorIff` | src/cluster/raft_core.c:470-500 | for consecutive indices: if and only if the batch is empty or its anchor is neither below the snapshot nor beyond the end |
| `Applying.GapBreaksApplying` | src/cluster/raft_core.c:470-512 | an instance: commit index 5 over a log of one entry |
| `RaftLog.AppendAllIsSplice` | src/cluster/raft_core.c:470-500 | the conflict, truncate and append loop is the one-shot splice, for every contiguous batch at a present anchor |
| `RaftLog.AppendAllBeyond` | src/cluster/raft_core.c:470-500 | for a batch beyond the end of the log the loop appends all of it, leaving the gap |
| `RaftLog.SpliceKeepsIndices` | src/cluster/raft_core.c:470-500 | splicing keeps indices gap-free, keeps what is before the anchor, and ends no earlier than the batch |
| `RaftLog.SpliceIdempotent` | src/cluster/raft_core.c:470-500 | redelivering a batch changes nothing |
| `RaftLog.SpliceKeepsShared` | src/cluster/raft_core.c:470-500 | a late or shorter slice of the same leader log never undoes a prefix already shared with it |
| `RaftLog.SpliceOutcome` | src/cluster/raft_core.c:470-500 | splicing a slice of a log that agrees up to the anchor gives the old log or the leader's up to the slice's end |
| `RaftNode.Node.constructor` | src/cluster/raft_core.c:160-178 | a fresh follower in term 0 with an empty log |
| `RaftNode.Node.FindPeer` | src/cluster/raft_core.c:18-25 | the position of the first peer with that id, or the number of peers |
| `RaftNode.Node.AddPeer` | src/cluster/raft_core.c:202-225 | one more peer at the end, or refusal of a known id |
| `RaftNode.Node.BecomeFollower` | src/cluster/raft_core.c:81-92 | the step function, persisted |
| `RaftNode.Node.BecomeCandidate` | src/cluster/raft_core.c:94-131 | the step function, persisted, with a vote request to every peer |
| `RaftNode.Node.BecomeLeader` | src/cluster/raft_core.c:133-154 | the step function, progress reset before the no-op entry, persisted |
| `RaftNode.Node.Submit` | src/cluster/raft_core.c:248-279 | one more entry of the current term, persisted, or refusal by a non-leader |
| `RaftNode.Node.ApplyCommittedEntries` | src/cluster/raft_core.c:285-303 | the apply loop is the recursive step function |
| `RaftNode.Node.CountReplicas` | src/cluster/raft_core.c:339-344 | one for itself plus one per peer whose match index reaches n |
| `RaftNode.Node.AdvanceCommitIndex` | src/cluster/raft_core.c:335-352 | the upward loop ends at the greatest committable index |
| `RaftNode.Node.LeaderTick` | src/cluster/raft_core.c:305-353 | heartbeats when due, then the commit loop |
| `RaftNode.Node.Tick` | src/cluster/raft_core.c:355-373 | leader work or campaign, then apply, and a node in step with its disk stays so |
| `RaftNode.Node.HandleRequestVote` | src/cluster/raft_core.c:379-427 | new state and reply are those of the step function, and a node in step with its disk stays so |
| `RaftNode.Node.HandleAppendEntries` | src/cluster/raft_core.c:429-516 | new state and reply are those of the step function, and a node in step with its disk stays so |
| `RaftNode.Node.AppendBatch` | src/cluster/raft_core.c:470-500 | the in-place loop over the batch is the fold of single appends |
| `RaftNode.Node.HandleVoteReply` | src/cluster/raft_core.c:518-546 | the step function, each peer counted once |
| `RaftNode.Node.HandleAppendReply` | src/cluster/raft_core.c:548-577 | the step function: progress of the one peer that answered |
| `RaftNode.Node.SaveSnapshot` | src/cluster/raft_persistence.c:392-409 | the in-place filter keeps exactly the entries after the cut, in order |
| `RaftCompaction.KeepAfterIsSuffix` | src/cluster/raft_persistence.c:396-409 | on a gap-free log that is a suffix |
| `RaftCompaction.CompactionInvisible` | src/cluster/raft_persistence.c:392-409 | for every cut from the old snapshot to the last index: gap-free, same terms from the cut on, same entries after it, same last index and term |
| `RaftCompaction.CompactionKeepsVotes` | src/cluster/raft_core.c:406-417 | every vote decision and reply is the same after compaction |
| `RaftCompaction.CompactionCommutesWithLoop` | src/cluster/raft_core.c:470-500 | appending a batch anchored at or above the cut, inside the log or beyond it, and compacting commute |
| `RaftCompaction.CompactionKeepsAppends` | src/cluster/raft_core.c:429-516 | AppendEntries anchored at or above the cut, stale, refused or accepted, gets the same answer, but for the snapshot index a refusal names, and leaves the same node but for the entries up to the cut |
| `RaftSnapshot.BelowCut` | src/cluster/raft_core.c:459-468 | a request anchored below the cut passes a compacted node's check if and only if its anchor or its anchor term is 0 |
| `RaftSnapshot.CompactionVisibleIff` | src/cluster/raft_core.c:470-500 | on the compacted log every pass stays gap-free if and only if the batch is empty or anchored from the cut on; on the uncompacted one it always does |
| `RaftSnapshot.RedeliveryBelowCut` | src/cluster/raft_core.c:470-516 | an instance: entry 1 delivered again lands after entry 2, and the last index falls to 1 |
| `RaftSnapshot.CompactionKeepsApplying` | src/cluster/raft_persistence.c:392-409 | what will be applied is unchanged by compaction if and only if the cut is not above last_applied or nothing is left to apply |
| `RaftSnapshot.RestartIffNoSnapshot` | src/cluster/raft_persistence.c:249-354 | a node with its log on disk reads after a restart what it read before, be it only above its snapshot, if and only if it had no snapshot |
| `RaftSnapshot.RestartAfterCompaction` | src/cluster/raft_persistence.c:356-414 | with nothing persisted since, a restart brings the uncompacted log back and reads from the cut on are unchanged; with something persisted, only if nothing was cut |
| `RaftSnapshot.RestartMisplaces` | src/cluster/raft_persistence.c:356-414 | an instance: the entry of index 2 found at index 1 and none at 2 |
| `Crc.TableCorrect` | src/cluster/raft_persistence.c:93-137 | all 256 table entries are eight steps of the reflected polynomial 0xEDB88320 |
| `Crc.Crc32` | src/cluster/raft_persistence.c:139-145 | the table-driven loop equals the bit-at-a-time checksum on every buffer |
| `Crc.CheckValue` | src/cluster/raft_persistence.c:139-145 | the checksum of nothing is 0 and that of "123456789" is 0xCBF43926 |
| `Crc.OneByteChangesChecksum` | src/cluster/raft_persistence.c:139-145 | changing one byte of any buffer changes its checksum |
| `Wal.PersistState` | src/cluster/raft_persistence.c:190-239 | the loop writes exactly the file of the node's term, vote and log |
| `Wal.RestoreState` | src/cluster/raft_persistence.c:249-354 | no file and unreadable headers leave the node alone; otherwise it gets exactly what the file says, and that is its persisted state |
| `Wal.ReadRecords` | src/cluster/raft_persistence.c:280-347 | the read loop appends exactly the records before the first bad one |
| `Wal.HeaderLayout` | src/cluster/raft_persistence.c:68-79 | byte by byte, where the header's fields are and that the rest is zero |
| `Wal.RecordLayout` | src/cluster/raft_persistence.c:81-87 | where a record's fields are, and that it ends in the checksum of all before |
| `Bytes.BigEndianDigit` | src/cluster/raft_persistence.c:190-214 | byte i of k is the digit of weight 256^(k-1-i) |
| `Wal.RoundTrip` | src/cluster/raft_persistence.c:190-347 | reading a written file gives back every term, vote and log |
| `Wal.TornTail` | src/cluster/raft_persistence.c:280-347 | cut anywhere after the header, the file gives the term, the vote and the entries whose whole records survive |
| `Wal.SurvivingIsLongest` | src/cluster/raft_persistence.c:204-239 | those entries are the longest prefix that fits |
| `Wal.DamagedRecord` | src/cluster/raft_persistence.c:291-327 | one byte changed in a record, outside data_len: exactly the entries before it are kept |
| `Wal.Reboot` | src/cluster/raft_persistence.c:249-354 | creating a node, adding its peers and restoring any file gives the object that restarts from what can be read of it, in step with its disk |
| `Wal.RebootFromOwnFile` | src/cluster/raft_persistence.c:249-354 | from the bytes it persisted, that is exactly the restart of the cluster model |
| `Logger.RingTheorem` | src/common/logger.c:46-115 | under every interleaving, counters wrapping: printed is a prefix of accepted, no unread slot is overwritten, at most 4096 are in the ring |
| `Logger.FullIff` | src/common/logger.c:98-101 | the full test turns a message away if and only if the counters loaded are a whole ring apart |
| `Logger.DroppedIff` | src/common/logger.c:97-115 | over every run, a log_msg is dropped if and only if the ring held 4096 unreleased messages when it loaded the read counter |
| `Logger.PublishesItsMessage` | src/common/logger.c:97-115 | under every interleaving, what a call publishes is the message it was made with, after all accepted before |
| `Logger.WorkerCatchesUp` | src/common/logger.c:46-91 | from its loop's top the worker, left alone, prints and releases everything in one pass |
| `Logger.ShutdownDrains` | src/common/logger.c:46-55 | after shutdown, with the producer at rest, it prints everything and leaves |
| `Logger.LeavesAfterShutdown` | src/common/logger.c:46-55 | it leaves only after shutdown |
| `Logger.DrainedAtExit` | src/common/logger.c:46-55 | the worker leaves with everything printed if and only if the write counter it loaded is still current, as it is after the loop-head test |
| `Logger.DrainedForGood` | src/common/logger.c:46-55 | at every moment after that: everything accepted is printed if and only if the counter was current at exit and nothing has been published since |
| `Logger.LostInFlight` | src/common/logger.c:113-133 | for any message, an interleaving that leaves by the loop-head test and publishes it afterwards |
| `Logger.LostAtShutdown` | src/common/logger.c:50-55 | for any message, an interleaving that accepts it and exits without printing it |
| `Logger.StepKeeps` | src/common/logger.c:97-115 | every step of either thread, and shutdown, keeps the ring invariant |
| `Logger.Ring.constructor` | src/common/logger.c:117-127 | an empty ring that satisfies the invariant |
| `Logger.Ring.ProducerStep` | src/common/logger.c:97-115 | one shared access of log_msg in place is the step function and keeps the invariant |
| `Logger.Ring.WorkerStep` | src/common/logger.c:46-91 | one shared access of the worker in place is the step function and keeps the invariant |
| `Serializer.FieldPositions` | src/protocol/serializer.c:16-46 | where each field is, integers big-endian |
| `Serializer.UnpackPacked` | src/protocol/serializer.c:16-56 | unpacking a packed header gives it back |
| `Serializer.PackUnpacked` | src/protocol/serializer.c:16-56 | every 90 bytes are the packing of the header read from them |
| `Serializer.PackRpc` | src/protocol/serializer.c:16-46 | field after field at a running offset writes the packed header and nothing after it |
| `RpcSession.ChunkTheorem` | src/protocol/rpc_handler.c:235-300 | however a valid message is split over events, with anything after it: no byte beyond it is read, and it is handed to processing once, exactly when its last byte is read |
| `RpcSession.RunTracks` | src/protocol/rpc_handler.c:440-515 | after any events on any input, the session's buffers and phase are determined by how many bytes it has taken |
| `RpcSession.RefusalTheorem` | src/protocol/rpc_handler.c:252-261 | a wrong magic or an oversized length ends the session after the header, and nothing is processed |
| `RpcSession.CompletionTheorem` | src/protocol/rpc_handler.c:458-506 | fed a byte or more now and then, with any would-blocks between, a message is processed after at most one feeding per byte |
| `RpcSession.WaitingChangesNothing` | src/protocol/rpc_handler.c:151-167 | a would-block leaves a reading session exactly as it is |
| `RpcSession.ResponseTheorem` | src/protocol/rpc_handler.c:416-431 | what is sent is always a prefix of the response, all of it when the session is done, and its header announces the payload length |
| `RpcReplies.FateTheorem` | src/protocol/rpc_handler.c:305-411 | however it was split, at the event that takes a message's last byte the session replies, finishes or ends as its command, its size and that event's join answer call for |
| `RpcReplies.FateTable` | src/protocol/rpc_handler.c:310-409 | command 1 of 89 bytes, not refused, is answered; 3, and 16 from 68 bytes on, are done with; all else ends the session |
| `RpcReplies.AcceptableTable` | src/protocol/rpc_handler.c:253-261 | a header is accepted if and only if it has the magic number and announces at most 10485760 bytes |
| `RpcReplies.AnswerParts` | src/protocol/rpc_handler.c:334-362 | an answer unpacks to command 2, the payload's length and the origin, and the payload follows |
| `RpcReplies.JoinTheorem` | src/protocol/rpc_handler.c:311-374 | from the event that completes a join on, the response is that header and that event's answer, and what is sent a prefix of it |
| `RpcReplies.IdComesBack` | src/protocol/rpc_handler.c:341-342 | a padded name of at most 36 bytes is copied unchanged |
| `RpcReplies.SentTheorem` | src/protocol/rpc_handler.c:416-431 | while sending, events that find room send the whole response in at most one event per byte |
| `RpcReplies.EventAfterDone` | src/protocol/rpc_handler.c:501-514 | a session that is done ends at the next event |
| `RpcReplies.ReadEnds` | src/protocol/rpc_handler.c:151-167 | an error, a failed recv and the end of the stream end a reading session, and nothing was taken |
| `RpcReplies.WriteWaitsOrEnds` | src/protocol/rpc_handler.c:173-187 | a sending session waits without room and ends on a broken connection |
| `RpcSession.Pass` | src/protocol/rpc_handler.c:458-506 | one pass keeps the buffers in bounds, and the loop repeats only after the phase has dropped in rank |
| `RpcHandler.ClientSession.constructor` | src/protocol/rpc_handler.c:192-204 | an empty session reading its header |
| `RpcHandler.ClientSession.HandleReadingHeader` | src/protocol/rpc_handler.c:235-280 | the header buffer, counter and transition are those of the step function |
| `RpcHandler.ClientSession.HandleReadingPayload` | src/protocol/rpc_handler.c:285-300 | the payload buffer, counter and transition are those of the step function |
| `RpcHandler.ClientSession.HandleProcessing` | src/protocol/rpc_handler.c:305-411 | each command's state effect, and the packed response |
| `RpcHandler.ClientSession.HandleSendingResponse` | src/protocol/rpc_handler.c:416-431 | the sent counter and transition are those of the step function |
| `RpcHandler.ClientSession.OnClientEvent` | src/protocol/rpc_handler.c:440-515 | the loop with keep_processing ends and equals the event function |
| `FdTable.CollisionTheorem` | src/common/event_loop.c:40-42 | two descriptors share a bucket if and only if they agree modulo 256, for all ints |
| `FdTable.FdOnce` | src/common/event_loop.c:66-79 | a descriptor sits at most once, and only in its own bucket |
| `FdTable.EventLoop.constructor` | src/common/event_loop.c:106-108 | an empty table stands for the empty map |
| `FdTable.EventLoop.Find` | src/common/event_loop.c:48-60 | the chain search agrees with the map, present or absent |
| `FdTable.EventLoop.Insert` | src/common/event_loop.c:66-79 | the context goes to the front of its chain, other chains stay; a known descriptor changes nothing |
| `FdTable.EventLoop.Remove` | src/common/event_loop.c:85-100 | exactly this context leaves its chain, the order of the rest and the other chains stay |
| `FdTable.EventLoop.AddFd` | src/common/event_loop.c:202-242 | refines the map's add; every failure, a rollback included, leaves the chains and the kernel's list as they were; a success registers the descriptor with its new context |
| `FdTable.EventLoop.ModFd` | src/common/event_loop.c:248-278 | refines the map's modify, the handler replaced before the kernel is asked; no dangling pointer arises |
| `FdTable.EventLoop.DelFd` | src/common/event_loop.c:285-312 | refines the map's delete; the kernel is left with a pointer to the freed context if and only if its call fails for a registered descriptor |
| `FdTable.Perform` | src/common/event_loop.c:202-312 | any sequence of operations on the table gives the answers and the contents of the same sequence on the map, and leaves a dangling pointer if and only if a descriptor is then registered that the map has not |
| `FdTable.RegisteredKnown` | src/common/event_loop.c:202-312 | that never happens while every kernel delete succeeds |
| `FdTable.DanglingInstance` | src/common/event_loop.c:298-309 | an instance: add, then delete with the kernel refusing |
| `FdTable.AnswerTable` | src/common/event_loop.c:202-312 | each answer by what is asked and what is there |
| `FdTable.UpdateRule` | src/common/event_loop.c:202-312 | an operation touches no other descriptor, and a success leaves its own with the handler or without |
| `FdTable.UndoTheorem` | src/common/event_loop.c:202-312 | a delete undoes a successful add; a failed operation changes the map if and only if it is a modify with another handler whose epoll call fails |
| `FdTable.ModKeepsHandler` | src/common/event_loop.c:261-275 | an instance: the answer is failure and the new handler is in place |

## Left out

- Liveness and timing: election timeouts, heartbeat intervals and an eventual leader depend on clocks and random
  timeouts, and grants given while stepping up are discarded.
- Unconditional Leader Completeness and State Machine Safety: false of the code, see `Divergence.DivergenceTheorem`.
  Honesty is exact for true acknowledgements and majority-backed commits, not for the payloads applied: a run may break
  it and never apply two payloads at one index.
- `src/cluster/raft_rpc_integration.c`: its send callback does blocking I/O and calls response handlers from inside
  the core's send loops, outside the queueing contract assumed here.
- `raft_add_peer` and `raft_remove_peer` during a run, and `raft_handle_install_snapshot`: there is no
  reconfiguration protocol, and installation is a stub.
- Sockets, epoll, timers and the file system: results of those calls are parameters.
- `src/cluster/cluster_manager.c`, `src/main.c`, `src/cluster/kv_store.c`, `src/cluster/rule_engine.c` and gossip
  packing: start-up, networking and linear scans that would add only easy members.
- Processing of a request beyond its effect on the session: the answer of `cluster_handle_join_req` is a parameter.
- Allocation failure, freed memory, log formatting, and weak memory ordering in the logger.
- RaftNode.Node.HandleAppendEntries: the log and the peers are fields of type seq that the methods reassign, so
  growth by realloc and aliasing of payload buffers are not modelled.
- RaftCompaction.CompactionKeepsAppends: anchors from the cut on; below it the handlers differ, see
  `RaftSnapshot.CompactionVisibleIff`.
- Applying.ApplyTheorem: accepted batches are contiguous, which the code does not check; every batch of every run is.
- Wal.DamagedRecord: says nothing about a changed data_len field, whose damage moves the record's end.
