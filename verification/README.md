# A verified model of the replicated write-ahead log

The repository is a write-ahead log (`wal-core`) and a Raft cluster that replicates one (`wal-replication`). This
project models both in Dafny and proves what they promise, and where the code promises less than one might read into
it, exactly when the promise holds.

**The cluster.** `NodeModel` is the Raft actor as a value, one function per handler. `Cluster` puts nodes on a network
that keeps every request for ever, so that it may arrive late, repeatedly or never; an answer may be lost. A node is
either idle or inside one of its rounds and takes no message then. It may crash at any time, also between the durable
writes of one step; it restarts with term, vote, log and snapshot only. `Elections` proves the election theorems for
all runs. `Ledger`, `Merge`, `Coupling`, `Steps` and `Safety` build up the history of reigns, acknowledgments and
commits behind a run, and `Theorems` states log matching, leader completeness, state-machine safety and the commit
index results for all runs in which no log is compacted; `Witness` gives one that commits while its leader steps down.
`RaftNode` is the actor as a mutable object; its methods are proved to do what the functions of `NodeModel` say and to
write to disk exactly what the crash model assumes. `Backtracking` bounds the rejected rounds. `Departures`, `Holders`
and `Search` state where the code differs from the Raft paper (Ongaro and Ousterhout, "In Search of an Understandable
Consensus Algorithm", extended version, 2014): on old entries and installed snapshots, on what a counted
acknowledgment is worth, and on the search for the next index, each with the exact condition.

`Commits`, `Votes`, `Rounds` and `Deference` are the other side of safety: followers do commit, votes are granted and
elections won, replication goes on after every answer, and higher terms get around, each exactly when. `Coverage` is
about snapshots over whole runs.

**The log stack.** `EntryCodec`, `SnapshotCodec`, `Snapshots`, `PersistentState` and `SegmentNames` are the formats on
disk. `SegmentedLog` is the write-ahead log as a list of segments with theorems over whole runs; `WalStore` has the
objects (directory, segment, checkpoint, log), each proved to carry out the operations of `SegmentedLog` on the bytes
of its files. `Recovery` is the replicated log as records and their replay. `Survival` is what a replay that starts in
the middle of a log's history makes of it, `Markers` the exact condition under which a snapshot marker keeps the log
recoverable, with the theorem over whole runs, and `LostEntries` two runs that miss it; `RaftLogStore` has the object.
`Canonical` says exactly which bytes each decoder accepts, `Damage` what reading and opening a damaged log report, and
`Pending` that recovery returns everything that has not been applied.

CRC-32 is a parameter, any function from payloads to 32-bit numbers. Whether a snapshot file could be saved is a
parameter of the steps that save one. Writes are durable once made and a rename replaces a file in one step.

## Findings

Each is a lemma about the code as it is.

- Compaction deletes sealed segments that still hold append records of retained entries: after reopening they are gone
  (`LostEntries.TailIsLost`), and entries truncated earlier can be back (`LostEntries.TruncatedReturns`). A marker is
  harmless exactly under the condition of `Markers.MarkerIsExact`; `Markers.UntruncatedMarker` and `Markers.StaleMarker`
  are what it comes to for the first kind of run and for the second.
- A log whose last entries sat in a truncated segment restarts its numbering at 1 (`SegmentedLog.NumbersAreReused`),
  although `crates/wal-core/src/wal.rs:107-112` says that the sequence continues without reuse. When it continues is
  `SegmentedLog.ReopenRestoresNext`.
- A write torn by a crash makes the next open fail (`WalStore.CrashInAppend`), although
  `crates/wal-core/src/wal.rs:90-93` says that opening recovers from an interrupted run.
- Opening a log does not look at segments before the last one that holds an entry: damage there shows only when the log
  is read (`Damage.DamagedLogOpens`). The number of an entry is not covered by its checksum
  (`Canonical.NumberIsNotCovered`).
- A refused append always seals the active segment, even an empty one, and leaves one more file
  (`SegmentedLog.RefusedAppendRotates`).
- A vote for the empty name is forgotten by a restart (`PersistentState.RoundTrip`).
- Installing a snapshot counts as acknowledging the write of the round, so that a write can be reported which only the
  leader holds (`Holders.InstallAcksTheWrite`). A reported write is on a quorum for certain exactly when appends alone
  make the quorum (`Holders.QuorumHolds`).
- After a crash between saving a snapshot and compacting the log a leader sends a snapshot that is ahead of its log; the
  request that follows it is then refused (`Rounds.InstalledAccepts`).
- Installing a snapshot keeps later entries that may conflict with it (`Departures.InstallKeepsTail`).
- A compacted follower that is sent entries from the very beginning stores the old ones again
  (`Departures.OldEntriesAreDuplicated`). Its log comes out right exactly under `Departures.CopiesMustBeHarmless`.
- The search for the next index may never end (`Search.SearchGoesOnForEver`): a follower's hint leads to its snapshot
  point, and from below it back to its end. It ends exactly under the condition of `Search.SearchEnds`.

## Model

| member | source | states |
|---|---|---|
| `Theorems.StateMachineSafety` | crates/wal-replication/src/raft/node.rs:381-442 | In every run with loss, delay, repetition, crashes and restarts and without compaction, any two nodes at any two moments hold the same entries at every index at or below both their commit indexes, whoever set them |
| `Theorems.ReportedWritesSurvive` | crates/wal-replication/src/raft/node.rs:613-643 | Leader completeness: once a client write is answered with an index, every node that leads the same or a later term from then on has the writer's log up to that index, even if the writer stepped down while it counted |
| `Theorems.ClientFindsItsData` | crates/wal-replication/src/raft/node.rs:613-643 | The index a client is given is where its own payload sits, with the term it was taken in, in the log of every leader of that or a later term from then on |
| `Theorems.RoundHasItsData` | crates/wal-replication/src/raft/node.rs:613-626 | The entry a replication round is about is the one the client handed in when the round began, last in the log and in the leader's term |
| `Theorems.LogMatching` | crates/wal-replication/src/raft/node.rs:393-429 | If any two logs at any two moments hold the same term at an index they are identical up to it; so term and index determine the data |
| `Theorems.LogsSorted` | crates/wal-replication/src/raft/log.rs:131-142 | In every reachable log entries are numbered from 1 without gaps, and terms start at 1 and never decrease |
| `Theorems.CommitWithinLog` | crates/wal-replication/src/raft/node.rs:431-434 | In every reachable state no commit index points past the end of its node's log |
| `Theorems.RequestsReachTheirCommit` | crates/wal-replication/src/raft/node.rs:736-761 | Every AppendEntries request ever sent, heartbeats included, reaches at least as far as the commit index it carries |
| `Theorems.CommitsOnlyAdvance` | crates/wal-replication/src/raft/node.rs:431-434 | Between two crashes a node's commit index never decreases, and no truncation touches an entry at or below it |
| `Commits.AcceptanceCommits` | crates/wal-replication/src/raft/node.rs:431-434 | An accepted AppendEntries request commits every index up to the leader's commit that the follower now holds, and moves the commit index for no other reason |
| `Commits.AcceptedRequestCommits` | crates/wal-replication/src/raft/node.rs:393-434 | In every run without compaction an accepted request leaves the follower's commit index at or above the commit index it carries |
| `Commits.FollowersLearn` | crates/wal-replication/src/raft/node.rs:431-434 | So commitment reaches the followers: a peer that accepts a request of a leader's round or heartbeat has then committed all the leader had committed meanwhile, and holds the same entries there |
| `Commits.RunQuotes` | crates/wal-replication/src/raft/node.rs:736-761 | In every run the requests a waiting leader has sent carry its present commit index, its term and its name |
| `Commits.InstallationCommits` | crates/wal-replication/src/raft/node.rs:813-813 | An effective snapshot installation leaves the commit index at the larger of the old one and the snapshot's last index |
| `Witness.WritesAreReported` | crates/wal-replication/src/raft/node.rs:513-734 | Such runs exist: one of three members, from the first timeout on, in which the elected leader's write is acknowledged by one peer, refused with a higher term by the other, and reported although the leader steps down as it counts |
| `Elections.ElectionSafety` | crates/wal-replication/src/raft/node.rs:511-597 | Over whole runs, compaction and snapshots included, at most one node is ever leader of a term |
| `Elections.OneVotePerTerm` | crates/wal-replication/src/raft/node.rs:455-509 | No node ever answers two vote requests of one term, from different candidates, with its vote, whatever crashes and restarts lie between |
| `Elections.VoteIsKept` | crates/wal-replication/src/raft/node.rs:455-517 | Whatever a node has voted in a term, for itself when it stood or for another, is what it has voted whenever it is in that term, across crashes and restarts |
| `Elections.GrantsFollowTheVote` | crates/wal-replication/src/raft/node.rs:455-517 | A node that has voted in a term, for itself included, grants no other candidate a vote of that term, before or after |
| `Elections.TermsNeverDecrease` | crates/wal-replication/src/persistent_state.rs:55-59 | A node's current term never decreases, across crashes in the middle of a step as well |
| `Elections.LeaderWasElected` | crates/wal-replication/src/raft/node.rs:562-579 | Whoever leads a term counted a quorum of votes for it at some earlier event of the run |
| `Elections.QuorumIsMajority` | crates/wal-replication/src/config.rs:47-54 | In a configured cluster the quorum of any node is a strict majority of the members |
| `Elections.MajoritiesMeet` | crates/wal-replication/src/config.rs:52-54 | Two majorities of the same members share one |
| `Elections.WritesHaveNoVote` | crates/wal-replication/src/raft/node.rs:513-517 | A crash between the durable writes of any step leaves at most a higher term without a vote; a vote found on disk had been cast before the step |
| `Elections.StepKeepsTallied` | crates/wal-replication/src/raft/node.rs:455-597 | Every event keeps the books of terms, votes and elections that the election theorems rest on |
| `Votes.VoteGranted` | crates/wal-replication/src/raft/node.rs:455-509 | A vote is granted if and only if the candidate's term is not over for the voter, the voter has no other favourite in it, and the candidate's log does not end before the voter's |
| `Votes.VotesCompare` | crates/wal-replication/src/raft/node.rs:483-486 | Of any two nodes in lower terms at least one grants the other's request |
| `Votes.SomeoneIsElectable` | crates/wal-replication/src/raft/node.rs:483-486 | Among any nodes in lower terms there is one whose request all of them grant |
| `Votes.VoteIsRepeated` | crates/wal-replication/src/raft/node.rs:467-509 | A granted vote is cast for the one who asked, and asking again gets the same answer and changes nothing |
| `Votes.AsksForItself` | crates/wal-replication/src/raft/node.rs:513-529 | When its timer runs out a node votes for itself in the next term and asks for votes on the end of its own log |
| `Votes.QuorumElects` | crates/wal-replication/src/raft/node.rs:545-597 | A candidate that hears of no higher term becomes leader, and names itself as such, if and only if its own vote and those granted are a quorum, and a follower of the same term otherwise |
| `Votes.HigherTermEndsElection` | crates/wal-replication/src/raft/node.rs:549-556 | The first higher term among the answers ends the candidacy, in that term and without a vote |
| `Votes.ElectionIsWon` | crates/wal-replication/src/raft/node.rs:511-579 | A whole election: a node whose term nobody exceeds wins if and only if it and the peers it reaches whose logs do not end after its own are a quorum |
| `Deference.AnswersCarryTheTerm` | crates/wal-replication/src/raft/node.rs:381-509 | Whoever serves a request of any kind is afterwards in the higher of both terms and answers with it; a new term makes it a follower that has voted for no one but the one who asked |
| `Deference.LeaderIsKnown` | crates/wal-replication/src/raft/node.rs:598-611 | An AppendEntries or InstallSnapshot request of a term that is not over makes its sender the known leader; a vote request never changes who is |
| `Deference.HeartbeatDefers` | crates/wal-replication/src/raft/node.rs:893-900 | A leader steps down over a heartbeat if and only if some answer carries a higher term, and to such a term; otherwise nothing changes |
| `Deference.RoundDefers` | crates/wal-replication/src/raft/node.rs:694-733 | The same for a replication round, with nothing but the peers' indexes changed otherwise |
| `Deference.RequestsComeFromLeaders` | crates/wal-replication/src/raft/node.rs:647-761 | In every run each AppendEntries or InstallSnapshot request ever sent names a sender that led the request's term by then |
| `Deference.HintsNameLeaders` | crates/wal-replication/src/raft/node.rs:613-618 | In every run whoever a node names to a redirected client has been a leader |
| `Deference.WritesAreRedirected` | crates/wal-replication/src/raft/node.rs:613-618 | A node that does not lead refuses a write with that name and changes nothing |
| `Ledger.LeaderCompleteness` | crates/wal-replication/src/raft/node.rs:483-486 | What a quorum acknowledged in one term is in the log every later leader started from; by induction over terms, from the overlap of acknowledging and voting quorums and the up-to-date check |
| `Ledger.CandidateCaughtUp` | crates/wal-replication/src/raft/node.rs:483-486 | A candidate whose last term and length are at least those of a log with the committed entries has them too |
| `Ledger.TracedLogsMatch` | crates/wal-replication/src/raft/node.rs:393-411 | Log matching for any two logs each of whose prefixes was some leader's log |
| `Steps.MergeAdvances` | crates/wal-replication/src/raft/node.rs:413-429 | An accepted request moves a follower's log towards the leader's at every write on the way, never losing what it shared, and in the end the whole request is there |
| `Steps.CommitSurvives` | crates/wal-replication/src/raft/node.rs:413-434 | An advance towards the log of a leader of the same or a later term keeps everything committed |
| `Safety.StepKeepsKnown` | crates/wal-replication/src/raft/node.rs:381-761 | Every event of an uncompacted run keeps the coupling of nodes, requests and answers to the history of reigns, acknowledgments and commits, which itself only grows |
| `Safety.RoundCount` | crates/wal-replication/src/raft/node.rs:647-734 | When a round reaches the quorum, a majority of members, the leader among them, has acknowledged the new entry in its term |
| `Cluster.ConfiguredKept` | crates/wal-replication/src/config.rs:47-54 | No event changes the membership or any node's configuration |
| `Durability.StepIsDurable` | crates/wal-replication/src/raft/node.rs:381-900 | A step changes what a restart would find only through the durable writes listed for it, and the last of them leaves the disk in step with memory |
| `Merge.MergeIsSplice` | crates/wal-replication/src/raft/node.rs:413-429 | Exact merge: the old log if every entry matches, otherwise the old log cut at the first conflict or gap followed by the rest of the request; every log on disk meanwhile is a prefix of that result past the match |
| `Merge.MergeDelivers` | crates/wal-replication/src/raft/node.rs:413-429 | After the merge every entry of the request is found at its index with its term |
| `Merge.MergeIsIdempotent` | crates/wal-replication/src/raft/node.rs:413-429 | Delivering an accepted request again changes nothing |
| `Backtracking.RejectedRound` | crates/wal-replication/src/raft/node.rs:703-709 | A rejected round leaves the follower's log alone, strictly lowers the next index, and uses up part of what can still conflict |
| `Backtracking.BacktrackingBound` | crates/wal-replication/src/raft/node.rs:394-411 | With a stable follower log there are at most one more rejected rounds than distinct terms in it |
| `Backtracking.FirstIndexIsAccepted` | crates/wal-replication/src/raft/node.rs:394-411 | At next index 1 the round is accepted |
| `Backtracking.BoundIsMet` | crates/wal-replication/src/raft/node.rs:394-411 | The bound is reached: two rejections against a log of one entry |
| `Rounds.AcceptedIff` | crates/wal-replication/src/raft/node.rs:381-411 | A request is accepted if and only if its term is not over and the log has the previous entry, or none is asked for |
| `Rounds.AcceptedIsStored` | crates/wal-replication/src/raft/node.rs:385-429 | A peer that accepts follows the sender in its term and holds every entry of the request |
| `Rounds.AskedIsAccepted` | crates/wal-replication/src/raft/node.rs:393-434 | A request for the leader's entries past an index is accepted by every peer that has the leader's entry there; afterwards it has the leader's terms up to the end of the request, and has committed what the leader has of them |
| `Rounds.AfterAppend` | crates/wal-replication/src/raft/node.rs:703-706 | After an acknowledgment the next request to the peer carries exactly the leader's entries past the acknowledged index |
| `Rounds.AfterInstall` | crates/wal-replication/src/raft/node.rs:721-726 | After an installed snapshot the next request is an AppendEntries with exactly the leader's entries past its snapshot point |
| `Rounds.AfterRefusal` | crates/wal-replication/src/raft/node.rs:707-709 | After a refusal it goes on at the hint, or stays where it was without one |
| `Rounds.UnknownPeerIsAsked` | crates/wal-replication/src/raft/node.rs:736-739 | A peer without an index is asked about the last entry of the round alone |
| `Rounds.InstalledAccepts` | crates/wal-replication/src/raft/node.rs:794-828 | A peer that installed the leader's snapshot accepts that next request if and only if the snapshot ends at the leader's own snapshot point |
| `Rounds.NewLeaderAsks` | crates/wal-replication/src/raft/node.rs:581-592 | The first request of a new leader is its new entry alone, behind the end of the log it was elected with |
| `Rounds.SteadyRound` | crates/wal-replication/src/raft/node.rs:647-761 | Once a peer has acknowledged the last entry, a further write reaches it in one round: it gets just the new entry, accepts it, and learns of all commits |
| `Rounds.StaysInStep` | crates/wal-replication/src/raft/node.rs:613-734 | And so for every write after that: the peer stays in step whatever the others answer, whether or not the write commits and the log is compacted |
| `Rounds.HeartbeatIsAccepted` | crates/wal-replication/src/raft/node.rs:875-892 | A heartbeat is accepted if and only if the peer has the leader's last entry; it changes no log, and who accepts it has committed what the leader has |
| `Rounds.RoundMovesIndexes` | crates/wal-replication/src/raft/node.rs:694-733 | Over a whole round without a higher term each peer's next and match index move as that peer answered, and nothing else in the leader changes |
| `Rounds.ReplicationResumes` | crates/wal-replication/src/raft/node.rs:712-733 | When a counted answer is a successful installation, the peer is next asked for the entries past the leader's snapshot point |
| `Departures.MergeOneLands` | crates/wal-replication/src/raft/node.rs:414-428 | A request entry lands at its own index exactly when that index is past the follower's snapshot point or is that point with the same term; otherwise a copy is appended at the end |
| `Departures.OldEntriesAreDuplicated` | crates/wal-replication/src/raft/node.rs:394-428 | A request for entries 1, 2, ... below the snapshot point is answered with success by a compacted follower, which stores all of them again behind its log |
| `Departures.MergeFromTheStart` | crates/wal-replication/src/raft/node.rs:413-429 | Any request from the very beginning merges into a compacted log as if copies of the entries up to the snapshot point had been at its end and only the entries after that point had been sent |
| `Departures.CopiesMustBeHarmless` | crates/wal-replication/src/raft/node.rs:394-429 | Such a request leaves the log it should, the follower's own with the entries after its snapshot point merged in, if and only if there are no copies, or a conflict before the log's end cuts them off, or the copies not cut off are the very entries sent for those places |
| `Departures.InstallKeepsTail` | crates/wal-replication/src/raft/log.rs:190-211 | Installing a snapshot agrees with section 7 of the Raft paper exactly when the log has the snapshot's last term at its last index or no later entries; it never changes a later entry |
| `Departures.EverySuccessCounts` | crates/wal-replication/src/raft/node.rs:694-733 | Without a higher term a round commits exactly when the leader and all peers that succeeded, at appending or at installing a snapshot, make a quorum |
| `Coverage.SnapshotsCoverLogs` | crates/wal-replication/src/raft/node.rs:794-871 | In every run, compaction, installations and crashes between any two writes included, each node has a snapshot on disk that reaches as far as its log has been compacted, with the same term if it reaches no further |
| `Coverage.SnapshotIsThere` | crates/wal-replication/src/raft/node.rs:654-672 | So a compacted leader of any run sends its snapshot if and only if the peer's next entry is compacted away |
| `Coverage.CommitCounts` | crates/wal-replication/src/raft/node.rs:625-641 | A committed write sets the commit index to it, and at the hundredth since the last snapshot compacts the log up to it and starts the count again |
| `Coverage.EveryHundredthCompacts` | crates/wal-replication/src/raft/node.rs:630-641 | In a series of commits the log is compacted at exactly every hundredth, and holds no entry then |
| `Coverage.InstallAcknowledged` | crates/wal-replication/src/raft/node.rs:765-828 | A snapshot is acknowledged if and only if its term is not over and the node is past it already or could save it |
| `Coverage.InstallStartsOver` | crates/wal-replication/src/raft/node.rs:783-815 | An effective installation leaves that snapshot, a log that starts just behind it and a count of 0; any other changes neither log, snapshot, commit index nor count |
| `Holders.HoldersOfRound` | crates/wal-replication/src/raft/node.rs:647-733 | Of the peers that answered a round with success, those that hold its entry afterwards are those that appended and those that had it before they installed the snapshot |
| `Holders.QuorumHolds` | crates/wal-replication/src/raft/node.rs:625-733 | A round's entry is on a quorum, whatever the logs of the installing peers held before, if and only if the leader and the peers that appended are a quorum |
| `Holders.CommittedWithoutQuorum` | crates/wal-replication/src/raft/node.rs:625-733 | Whenever snapshots make up for missing appends, the write is reported although fewer than a quorum may hold it |
| `Holders.InstallAcksTheWrite` | crates/wal-replication/src/raft/node.rs:654-733 | It happens among three: a leader that compacted with one peer's help reports a write that it alone holds, on the success of the other peer's snapshot installation |
| `Search.RoundFollowsHint` | crates/wal-replication/src/raft/node.rs:654-709 | A round sends the snapshot exactly when the next index is compacted away; otherwise it is accepted exactly if the logs give no hint, and when rejected the follower's log stays and the next index becomes the hint |
| `Search.SearchEnds` | crates/wal-replication/src/raft/node.rs:394-411 | For logs that match where both know the terms: the search for the next index ends, with an accepted request or a snapshot, if and only if the follower has compacted at most one entry, or the leader as much as the follower, or it starts at the beginning or where a snapshot is due, or both have the marker's term at one decisive index; otherwise it never ends |
| `Search.SearchGoesOnForEver` | crates/wal-replication/src/raft/log.rs:255-263 | A concrete pair of matching logs for which it never ends: a follower with one entry of the marker's term behind its snapshot, which the uncompacted leader replaced in a later term |
| `RaftNode.Node.Start` | crates/wal-replication/src/raft/node.rs:268-317 | A restarted node has the term, vote, log and snapshot of the disk and forgets everything else |
| `RaftNode.Node.OnAppendEntries` | crates/wal-replication/src/raft/node.rs:381-442 | State, answer and sequence of durable writes are those of the model the theorems are about |
| `RaftNode.Node.MergeEntries` | crates/wal-replication/src/raft/node.rs:413-429 | The entry loop leaves the merged log and one durable write per truncation and append, in order |
| `RaftNode.Node.OnRequestVote` | crates/wal-replication/src/raft/node.rs:455-509 | State, answer and durable writes of a vote request |
| `RaftNode.Node.OnInstallSnapshot` | crates/wal-replication/src/raft/node.rs:765-828 | State, answer and durable writes of a snapshot request; the snapshot file is written before the log is reset |
| `RaftNode.Node.BeginElection` | crates/wal-replication/src/raft/node.rs:513-543 | A new term and then the own vote are written, in this order, before any vote request goes out |
| `RaftNode.Node.FinishElection` | crates/wal-replication/src/raft/node.rs:545-579 | Counting the votes, with stepping down at the first higher term |
| `RaftNode.Node.BecomeLeader` | crates/wal-replication/src/raft/node.rs:581-597 | Every peer's next index is one past the log and its match index 0; nothing else changes |
| `RaftNode.Node.BuildRound` | crates/wal-replication/src/raft/node.rs:654-689 | The requests of a round: a snapshot for a peer whose next entry is compacted away, otherwise the entries from its next index on |
| `RaftNode.Node.BeginWrite` | crates/wal-replication/src/raft/node.rs:613-624 | A leader appends durably and starts a round, unless the log cannot append, which ends the write with nothing changed; any other node refuses with its hint |
| `RaftNode.Node.CountReplies` | crates/wal-replication/src/raft/node.rs:694-733 | Both counting loops: acknowledgments, index updates, and the early return at a higher term that keeps the count so far |
| `RaftNode.Node.FinishWrite` | crates/wal-replication/src/raft/node.rs:625-643 | The commit rule and the snapshot trigger, also after stepping down mid-count |
| `RaftNode.Node.TakeSnapshot` | crates/wal-replication/src/raft/node.rs:832-871 | The snapshot is saved before the log is compacted, and nothing happens if it cannot be saved |
| `RaftNode.Node.FinishHeartbeat` | crates/wal-replication/src/raft/node.rs:893-900 | Only a higher term in a response changes anything |
| `Log.MutatorsKeepValid` | crates/wal-replication/src/raft/log.rs:131-211 | Append, truncation, compaction and snapshot installation keep `entries[i].index == snapshot_index + 1 + i` |
| `Log.TermAtIsSearch` | crates/wal-replication/src/raft/log.rs:227-239 | The offset arithmetic finds exactly the term of the entry numbered so, or of the snapshot point |
| `Log.EntriesFromIsSearch` | crates/wal-replication/src/raft/log.rs:245-252 | Exactly the retained entries with that index or a higher one, in order |
| `Log.FirstIndexIsLeast` | crates/wal-replication/src/raft/log.rs:255-263 | The least index that carries the term, the snapshot point included; none exactly when no index does |
| `Log.LastIsGreatest` | crates/wal-replication/src/raft/log.rs:214-225 | The last index is the greatest one that has a term, and the last term is the term it has; 0 exactly for a log that knows of none |
| `Markers.RecoveryIsExact` | crates/wal-replication/src/raft/log.rs:68-211 | In a run of appends, truncations, compactions, installed snapshots and reopenings, refused ones included, opening the log gives exactly what memory holds at every point if and only if every marker that took effect was good |
| `Markers.MarkerIsExact` | crates/wal-replication/src/raft/log.rs:160-211 | A marker written to a recoverable log leaves it recoverable if and only if it deletes no record, or the surviving records contain the append of the first entry the log retains and each surviving append above the marker that the log has truncated is cut off again, by position, in the replay; compaction and installation agree |
| `Markers.StepIsExact` | crates/wal-replication/src/raft/log.rs:131-211 | Every other operation keeps a recoverable log recoverable |
| `Markers.CoveredMarker` | crates/wal-replication/src/raft/log.rs:160-184 | A marker at or past the end of the log and of every surviving append is good |
| `Markers.StaleMarker` | crates/wal-replication/src/raft/log.rs:97-107 | If each surviving truncation is above the number of appends before it, a marker at or past the end is good if and only if it deletes nothing or every surviving append is at or below it |
| `Markers.UntruncatedMarker` | crates/wal-replication/src/raft/log.rs:170-178 | If what survives is just the append records from some index on, a marker is good if and only if it deletes nothing, or that index is no later than the first retained entry, or nothing is retained |
| `Survival.ReplayIsExactAbove` | crates/wal-replication/src/raft/log.rs:82-107 | Replaying only the last records of a log's history gives its entries above an index if and only if the first of them was appended by one of these records and every other append above the index that was truncated is cut off in the replay |
| `Recovery.MarkerLeaves` | crates/wal-core/src/wal.rs:231-249 | What a marker leaves on disk: the records of the segment it was written to, and itself |
| `LostEntries.TailIsLost` | crates/wal-replication/src/raft/log.rs:170-178 | A concrete run in which a compaction that retains entries 2 and 3 is reopened with entry 3 alone |
| `LostEntries.TruncatedReturns` | crates/wal-replication/src/raft/log.rs:97-107 | A concrete run in which a truncated entry is back after compaction and reopening |
| `Recovery.ReplayRedoes` | crates/wal-replication/src/raft/log.rs:82-107 | Replaying the record of an append or truncation does to a valid log what the operation did |
| `Recovery.ReplayRedoesSnapshot` | crates/wal-replication/src/raft/log.rs:108-115 | On a valid log compaction, installation and the replay of their marker coincide |
| `Recovery.ReplayPlaces` | crates/wal-replication/src/raft/log.rs:83-107 | Replaying an append puts the entry at its index and leaves all others; entries at or before the snapshot point and truncations outside the log are passed over |
| `Recovery.ReplayTwice` | crates/wal-replication/src/raft/log.rs:78-118 | A record replayed twice in a row does no more than once |
| `Recovery.PayloadsDecode` | crates/wal-replication/src/raft/log.rs:283-315 | Each of the three record encodings decodes to the record it was made from |
| `Canonical.RecordIsEncoded` | crates/wal-replication/src/raft/log.rs:76-118 | Whatever the replay takes for a record is one: an append exactly as encoded, a truncation or marker possibly with bytes behind it |
| `Canonical.TrailingBytesAreIgnored` | crates/wal-replication/src/raft/log.rs:97-115 | Those bytes do not matter |
| `Canonical.RecordLayouts` | crates/wal-replication/src/raft/log.rs:283-316 | The documented bytes of each record, on an example |
| `RaftLogStore.Rebuild` | crates/wal-replication/src/raft/log.rs:72-118 | The replay loop computes the fold over all records |
| `RaftLogStore.RaftLog.Open` | crates/wal-replication/src/raft/log.rs:68-126 | For any directory: an unreadable record is the error, otherwise memory is the replay of every readable record; an intact directory opens with its numbering resumed |
| `RaftLogStore.OpeningReopens` | crates/wal-replication/src/raft/log.rs:68-126 | What opening finds after a log left its files is what the run model says of reopening |
| `RaftLogStore.RaftLog.Append` | crates/wal-replication/src/raft/log.rs:131-142 | Memory and disk move together; a record over the segment cap is refused and leaves memory alone |
| `RaftLogStore.RaftLog.TruncateFrom` | crates/wal-replication/src/raft/log.rs:145-154 | Memory and disk of a truncation; out-of-range calls write nothing |
| `RaftLogStore.RaftLog.Compact` | crates/wal-replication/src/raft/log.rs:160-184 | Memory, marker, checkpoint and deleted segments of a compaction |
| `RaftLogStore.RaftLog.InstallSnapshot` | crates/wal-replication/src/raft/log.rs:190-211 | The same for a snapshot from the leader |
| `SegmentedLog.RunHoldsAccepted` | crates/wal-core/src/wal.rs:113-178 | In any run of appends, rotations, refused appends, truncations and reopenings that never finds the log emptied, it holds a suffix of the accepted payloads numbered from 1 without gaps, and only truncation loses any |
| `SegmentedLog.ReadsFindEverything` | crates/wal-core/src/wal.rs:184-203 | Reading from any point at or past every truncation bound returns, in order, every accepted entry so numbered |
| `SegmentedLog.AppendOutcome` | crates/wal-core/src/wal.rs:156-178 | An append fails exactly when 16 bytes and the payload exceed the cap, and then leaves all entries and the numbering as they were |
| `SegmentedLog.RefusedAppendRotates` | crates/wal-core/src/wal.rs:156-172 | A refused append always seals the active segment, even an empty one, and starts the next |
| `SegmentedLog.FromIsSuffix` | crates/wal-core/src/wal.rs:184-203 | On a gapless log reading from a number cuts off exactly the entries before it |
| `SegmentedLog.TruncateLosesNothing` | crates/wal-core/src/wal.rs:231-249 | Truncating before `b` removes a prefix of entries all below `b`, and reads from `b` or later see no difference |
| `SegmentedLog.TruncateKeepsPending` | crates/wal-core/src/wal.rs:223-249 | Truncating up to one past the checkpoint leaves recovery unchanged, before and after reopening |
| `SegmentedLog.ReopenRestoresNext` | crates/wal-core/src/wal.rs:113-149 | Reopening keeps the entries and resumes the numbering if and only if an entry survives or none was ever appended |
| `SegmentedLog.NumbersAreReused` | crates/wal-core/src/wal.rs:286-307 | A concrete run in which sequence number 1 is given out twice |
| `SegmentedLog.RunIsWellFormed` | crates/wal-core/src/wal.rs:113-277 | In every run segment ids ascend and sequences are gapless and end just below the next |
| `SegmentedLog.SegmentsAreHalfFull` | crates/wal-core/src/wal.rs:156-178 | Without refused appends every segment stays within the cap, any two neighbours exceed it together, and `n >= 2` segments of `total` bytes satisfy `(n - 1) * max < 2 * total` |
| `SegmentedLog.SizeIsLength` | crates/wal-core/src/segment.rs:84-96 | The length of a segment file is the sum of its encoded entries |
| `WalStore.Wal.Open` | crates/wal-core/src/wal.rs:113-149 | A fresh directory starts at segment and sequence 1; otherwise numbering resumes from the last readable entry, damage in the last segments is an error, and intact files give back the log they hold |
| `WalStore.ReadingIsReopen` | crates/wal-core/src/wal.rs:113-149 | A directory has only one reading: ids and entries are determined by its files |
| `WalStore.Wal.Append` | crates/wal-core/src/wal.rs:156-178 | The files hold the appended log; the result is the sequence number or the size error, the latter only for an entry larger than a segment |
| `WalStore.Wal.Rotate` | crates/wal-core/src/wal.rs:264-277 | The active segment is sealed and an empty one with the next id takes its place, which never collides with an existing file |
| `WalStore.Wal.ReadFrom` | crates/wal-core/src/wal.rs:184-203 | For any files: the entries at or past the number, segment by segment, or the first decoding error |
| `WalStore.Wal.ReadsBack` | crates/wal-core/src/wal.rs:184-203 | Of an intact log that is exactly the surviving entries |
| `WalStore.Wal.Recover` | crates/wal-core/src/wal.rs:223-225 | Exactly the surviving entries past the checkpoint |
| `WalStore.CheckpointReads` | crates/wal-core/src/checkpoint.rs:30-44 | A checkpoint file says what was written to it, whatever follows; a missing one, or one shorter than 8 bytes, says 0 |
| `Pending.RecoveryIsComplete` | crates/wal-core/src/wal.rs:209-249 | In any run that truncates no further than it has applied, and never finds the log emptied, recovery returns exactly the accepted entries past the highest applied number, and every accepted entry if nothing was applied |
| `Pending.Session` | crates/wal-core/src/wal.rs:113-225 | On the files: a new log that is given any payloads, told how many are applied and opened again returns exactly the others from recovery |
| `WalStore.Wal.TruncateBefore` | crates/wal-core/src/wal.rs:231-249 | For any files: the sealed segments whose highest number is below the bound are deleted up to the first that cannot be read, which is the error and leaves the list of segments as it was; of an intact log exactly those are deleted |
| `WalStore.Wal.Checkpoint` | crates/wal-core/src/wal.rs:209-211 | The checkpoint becomes the larger of old and new, in memory and on disk |
| `WalStore.HighestSequenceOnDisk` | crates/wal-core/src/wal.rs:286-307 | The last number of the most recent non-empty segment, searched backwards, or the first decoding error met |
| `WalStore.HighestIsLast` | crates/wal-core/src/wal.rs:286-307 | On intact segments that is the number of the last entry of the whole log |
| `WalStore.CrashInAppend` | crates/wal-core/src/entry.rs:54-66 | A crash inside the write of an entry: with none or all of its bytes the log reopens without or with it, with some the next open fails at the torn entry's offset |
| `WalStore.CrashInTruncate` | crates/wal-core/src/wal.rs:235-245 | A crash between two deletions leaves a whole log that reads the same from the bound on |
| `Damage.DamagedLogReads` | crates/wal-core/src/wal.rs:184-203 | A log with the payload of one entry replaced by one of another checksum reads as the mismatch at that entry, from wherever it is read |
| `Damage.DamagedLogOpens` | crates/wal-core/src/wal.rs:286-307 | Such a log fails to open, with that error, if and only if no later segment holds an entry; otherwise its numbering resumes as if nothing had happened |
| `WalStore.Disk.ListSegments` | crates/wal-core/src/segment.rs:189-204 | The ids in ascending order, each once |
| `WalStore.ListingIsUnique` | crates/wal-core/src/segment.rs:189-204 | Two ascending lists of the same ids are equal |
| `WalStore.Segment.Create` | crates/wal-core/src/segment.rs:51-64 | A new empty file, or an error if the id is taken |
| `WalStore.Segment.Append` | crates/wal-core/src/segment.rs:84-96 | The bytes go to the end of the file exactly if they fit under the cap |
| `WalStore.CheckpointFile.Open` | crates/wal-core/src/checkpoint.rs:30-44 | The durable value; a missing or short file counts as 0 |
| `WalStore.CheckpointFile.Advance` | crates/wal-core/src/checkpoint.rs:55-64 | The checkpoint never goes back and memory equals disk |
| `SegmentNames.NameRoundTrip` | crates/wal-core/src/segment.rs:162-186 | The id of every segment comes back from its 20-digit name |
| `SegmentNames.NamesSortLikeIds` | crates/wal-core/src/segment.rs:189-204 | Names in lexicographic order are ids in numeric order |
| `SegmentNames.NamesAreFramed` | crates/wal-core/src/segment.rs:167-186 | A file name has this id if and only if it is `wal-`, a number below 2^64 in digits that has that value, perhaps after a plus sign, and `.seg` |
| `SegmentNames.NameLayout` | crates/wal-core/src/segment.rs:162-165 | The documented form of a name, on an example |
| `EntryCodec.DecodeInverts` | crates/wal-core/src/entry.rs:34-86 | An entry comes back from its encoding with its length, whatever bytes follow |
| `Canonical.DecodeIsExact` | crates/wal-core/src/entry.rs:54-86 | Decoding succeeds if and only if the bytes start with the encoding of an entry |
| `Canonical.DecodedIsEncoded` | crates/wal-core/src/entry.rs:54-86 | And the entry and length it returns are that encoding's |
| `Canonical.DamageIsReported` | crates/wal-core/src/entry.rs:71-77 | A payload replaced by another of the same length is a checksum mismatch at its place, with both checksums, unless these are equal |
| `Canonical.NumberIsNotCovered` | crates/wal-core/src/entry.rs:15-16 | The checksum covers the payload only: another sequence number in the header is read as that number |
| `Canonical.SegmentIsExact` | crates/wal-core/src/segment.rs:140-157 | A segment reads as these entries if and only if it is their encodings and nothing else |
| `Canonical.DamagedSegment` | crates/wal-core/src/segment.rs:140-157 | A segment with one damaged payload reads as the mismatch at that entry's offset, whatever follows |
| `Canonical.EntryLayout` | crates/wal-core/src/entry.rs:5-14 | The documented layout of an entry, on an example |
| `EntryCodec.TornSegment` | crates/wal-core/src/segment.rs:140-157 | Any byte prefix of a segment reads as its complete entries if cut on a boundary and otherwise as an unexpected end at the torn entry, never as a wrong entry or a checksum error |
| `EntryCodec.CompleteIsMaximal` | crates/wal-core/src/segment.rs:147-156 | The entries counted as complete are all whose bytes lie before the cut |
| `EntryCodec.ParseInverts` | crates/wal-core/src/segment.rs:140-157 | A whole segment reads back exactly |
| `EntryCodec.ReadEntries` | crates/wal-core/src/segment.rs:140-157 | The read loop returns all entries or the first error |
| `SnapshotCodec.RoundTrip` | crates/wal-replication/src/raft/snapshot.rs:105-149 | Decoding inverts encoding, whatever bytes follow |
| `SnapshotCodec.ProperPrefixIsRejected` | crates/wal-replication/src/raft/snapshot.rs:118-149 | A payload cut anywhere after its count is rejected |
| `SnapshotCodec.PrefixFree` | crates/wal-replication/src/raft/snapshot.rs:105-115 | No encoding is the start of another list's |
| `Canonical.PayloadIsExact` | crates/wal-replication/src/raft/snapshot.rs:118-149 | A snapshot payload decodes to these entries if and only if it starts with their encoding, or is shorter than a count and they are none |
| `Canonical.SnapshotLayout` | crates/wal-replication/src/raft/snapshot.rs:105-115 | The bytes of a snapshot payload, on an example |
| `SnapshotCodec.EncodeEntries` | crates/wal-replication/src/raft/snapshot.rs:105-115 | The encoding loop writes the count and every entry's fields in order |
| `SnapshotCodec.DecodeEntries` | crates/wal-replication/src/raft/snapshot.rs:118-149 | The decoding loop computes the recursive reading of the payload, its error cases included |
| `Snapshots.FileRoundTrip` | crates/wal-replication/src/raft/snapshot.rs:38-97 | A saved snapshot file loads back, and one cut short anywhere is refused with the right error |
| `Canonical.SnapshotFileIsExact` | crates/wal-replication/src/raft/snapshot.rs:62-97 | A file loads as this snapshot if and only if it starts with its bytes |
| `Canonical.SnapshotFileLayout` | crates/wal-replication/src/raft/snapshot.rs:42-46 | The bytes of a snapshot file, on an example |
| `Snapshots.SnapshotFile.Save` | crates/wal-replication/src/raft/snapshot.rs:36-58 | The file becomes the encoding of the snapshot, in one step |
| `Snapshots.SnapshotFile.Load` | crates/wal-replication/src/raft/snapshot.rs:62-97 | Missing, found or invalid, according to the file |
| `Snapshots.SnapshotConserves` | crates/wal-replication/src/raft/node.rs:832-871 | The entries decoded from the snapshot followed by those left in memory are the entries held before, and the snapshot is labelled with its last entry |
| `Snapshots.TwoSnapshots` | crates/wal-replication/src/raft/node.rs:842-849 | Successive snapshots share no entry: each covers only what came after the previous one |
| `PersistentState.RoundTrip` | crates/wal-replication/src/persistent_state.rs:68-89 | A term and vote come back from the file if and only if the vote is not for the empty name |
| `Canonical.StateFileCut` | crates/wal-replication/src/persistent_state.rs:77-89 | A state file cut short gives term 0 below 12 bytes, and otherwise its term, with the vote only if it is whole |
| `Canonical.NoStateFile` | crates/wal-replication/src/persistent_state.rs:31-43 | Without a state file a node is in term 0 and has not voted |
| `Canonical.StateLayout` | crates/wal-replication/src/persistent_state.rs:68-75 | The bytes of a state file, on an example |
| `PersistentState.PersistentState.AdvanceTerm` | crates/wal-replication/src/persistent_state.rs:55-59 | The new term without a vote, in memory and on disk |
| `PersistentState.PersistentState.RecordVote` | crates/wal-replication/src/persistent_state.rs:62-65 | The vote in memory, and on disk unless the name is empty |

## Left out

- Log safety in runs with compaction or InstallSnapshot, where the findings above break the arguments it rests on.
  Election safety covers such runs.
- Empty node names: the cluster model restarts with the vote that was cast, which the state file preserves for other
  names only (`PersistentState.RoundTrip`). UTF-8 decoding of names is not modelled.
- A torn log record in the cluster: such a node does not come up again (`WalStore.CrashInAppend`), which in the model is
  a node that takes no further step. Crashes of the cluster model fall between complete durable writes.
- `RaftNode.Node` holds its term, vote and log as values and lists its durable writes; that the files behind them
  hold the same is proved in `PersistentState`, `RaftLogStore` and `Snapshots`, not through one object.
- I/O errors, and a record over the 64 MiB cap inside the actor, whose result the handlers partly ignore.
- Merge.MergeIsSplice: does not cover a request without a previous index to a compacted follower, which is no splice;
  what that one does is `Departures.MergeFromTheStart`, and when it is the splice `Departures.CopiesMustBeHarmless`.
- Merge.MergeDelivers: does not cover that request either, as it fails there for the entries that are stored again
  (`Departures.MergeOneLands` says for which).
- Merge.MergeIsIdempotent: nor does this, as those entries are stored once more each time
  (`Departures.OldEntriesAreDuplicated`).
- File names that two ids could share, and segment files whose name does not parse.
- 64-bit overflow of indexes, terms and sequence numbers; payloads and counts of 2^32 or more (excluded by precondition).
- Time, randomness, tasks and channels: election timeouts are steps that may happen at any time. What each
  step leads to is proved, not that any step ever happens.
- gRPC, the server binary, metrics, tracing and benchmarks.
- Client reads, which return the log from an index on without looking at the commit index
  (`crates/wal-replication/src/raft/node.rs:372-375`).
