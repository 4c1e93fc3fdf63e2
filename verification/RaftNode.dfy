/** The Raft actor as an object. Each method carries out a function of `NodeModel`, and `journal` shows that it writes
    to disk exactly what, and in the order that, the crash model of the cluster assumes. A handler that waits for its
    peers is two methods, before and after the wait. */
module RaftNode {
  import opened Bytes
  import opened Log
  import opened SnapshotCodec
  import opened NodeModel

  class Node {
    const config: Config
    var currentTerm: nat
    var votedFor: Option<NodeId>
    var log: Log
    var role: Role
    var commitIndex: nat
    var currentLeader: Option<NodeId>
    var nextIndex: map<NodeId, nat>
    var matchIndex: map<NodeId, nat>
    var snapshot: Option<Snapshot>
    var entriesSinceSnapshot: nat
    var phase: Phase
    /** The contents of the disk after each durable write so far. */
    ghost var journal: seq<Durable>

    function State(): NodeState
      reads this
    {
      NodeState(config, currentTerm, votedFor, log, role, commitIndex, currentLeader, nextIndex, matchIndex,
                snapshot, entriesSinceSnapshot, phase)
    }

    constructor Start(config: Config, disk: Durable)
      ensures State() == Restart(config, disk) && journal == []
    {
      this.config := config;
      currentTerm, votedFor, log, snapshot := disk.term, disk.votedFor, disk.log, disk.snapshot;
      role, commitIndex, currentLeader := Follower, 0, None;
      nextIndex, matchIndex := map[], map[];
      entriesSinceSnapshot, phase := 0, Idle;
      journal := [];
    }

    // ---- Durable writes ----

    method AdvanceTerm(newTerm: nat)
      modifies this
      ensures State() == old(State()).AdvanceTerm(newTerm)
      ensures journal == old(journal) + [State().Disk()]
    {
      currentTerm, votedFor := newTerm, None;
      journal := journal + [State().Disk()];
    }

    method RecordVote(candidate: NodeId)
      modifies this
      ensures State() == old(State()).RecordVote(candidate)
      ensures journal == old(journal) + [State().Disk()]
    {
      votedFor := Some(candidate);
      journal := journal + [State().Disk()];
    }

    method LogAppend(term: nat, data: Bytes) returns (index: nat)
      modifies this
      ensures State() == old(State()).(log := old(log).Append(term, data)) && index == log.LastIndex()
      ensures journal == old(journal) + [State().Disk()]
    {
      index := log.LastIndex() + 1;
      log := log.Append(term, data);
      journal := journal + [State().Disk()];
    }

    method LogTruncate(from: nat)
      modifies this
      ensures State() == old(State()).(log := old(log).TruncateFrom(from))
      ensures journal == old(journal) + if old(log).Truncates(from) then [State().Disk()] else []
    {
      if log.Truncates(from) {
        log := log.TruncateFrom(from);
        journal := journal + [State().Disk()];
      }
    }

    method SaveSnapshot(snap: Snapshot)
      modifies this
      ensures State() == old(State()) && journal == old(journal) + [State().(snapshot := Some(snap)).Disk()]
    {
      journal := journal + [State().(snapshot := Some(snap)).Disk()];
    }

    // ---- Roles ----

    method BecomeFollower(leader: Option<NodeId>)
      modifies this
      ensures State() == old(State()).BecomeFollower(leader) && journal == old(journal)
    {
      role := Follower;
      if leader.Some? {
        currentLeader := leader;
      }
    }

    method ResetPeers(next: nat)
      modifies this`nextIndex, this`matchIndex
      ensures nextIndex == SetAll(old(nextIndex), config.peers, next)
      ensures matchIndex == SetAll(old(matchIndex), config.peers, 0)
    {
      var i := 0;
      while i < |config.peers|
        invariant 0 <= i <= |config.peers|
        invariant nextIndex == SetAll(old(nextIndex), config.peers[..i], next)
        invariant matchIndex == SetAll(old(matchIndex), config.peers[..i], 0)
      {
        SetNext(old(nextIndex), config.peers, i, next);
        SetNext(old(matchIndex), config.peers, i, 0);
        nextIndex := nextIndex[config.peers[i] := next];
        matchIndex := matchIndex[config.peers[i] := 0];
        i := i + 1;
      }
      assert config.peers[..i] == config.peers;
    }

    method BecomeLeader()
      modifies this
      ensures State() == old(State()).BecomeLeader() && journal == old(journal)
    {
      role := Leader;
      currentLeader := Some(config.id);
      ResetPeers(log.LastIndex() + 1);
    }

    // ---- Requests ----

    method Reject(conflictIndex: nat, conflictTerm: nat) returns (resp: AppendResponse)
      ensures resp == AppendResponse(currentTerm, false, conflictIndex, conflictTerm)
    {
      resp := AppendResponse(currentTerm, false, conflictIndex, conflictTerm);
    }

    method MergeEntry(e: LogEntry)
      modifies this
      ensures State() == old(State()).(log := MergeOne(old(log), e))
      ensures journal == old(journal) + WithLogs(old(State()), MergeOneWrites(old(log), e))
    {
      match log.TermAt(e.index) {
        case Some(t) =>
          if t != e.term {
            LogTruncate(e.index);
            var _ := LogAppend(e.term, e.data);
          }
        case None =>
          var _ := LogAppend(e.term, e.data);
      }
    }

    method MergeEntries(entries: seq<LogEntry>)
      modifies this
      ensures State() == old(State()).(log := Merge(old(log), entries))
      ensures journal == old(journal) + WithLogs(old(State()), MergeWrites(old(log), entries))
    {
      ghost var s, start := State(), journal;
      var i := 0;
      MergeStart(s, entries, start);
      while i < |entries|
        invariant 0 <= i <= |entries|
        invariant Merging(s, State(), entries, i, start, journal)
      {
        MergeNext(s, State(), entries, i, start, journal);
        MergeEntry(entries[i]);
        i := i + 1;
      }
      MergeEnd(s, State(), entries, start, journal);
    }

    method OnAppendEntries(req: AppendRequest) returns (resp: AppendResponse)
      modifies this
      ensures (State(), resp) == NodeModel.OnAppendEntries(old(State()), req)
      ensures journal == old(journal) + AppendWrites(old(State()), req)
    {
      if req.term < currentTerm {
        resp := Reject(0, 0);
        return;
      }
      if req.term > currentTerm {
        AdvanceTerm(req.term);
      }
      BecomeFollower(Some(req.leader));
      if req.prevLogIndex > 0 {
        match log.TermAt(req.prevLogIndex) {
          case None =>
            resp := Reject(log.LastIndex() + 1, 0);
            return;
          case Some(t) =>
            if t != req.prevLogTerm {
              var first := log.FirstIndexOfTerm(t);
              resp := Reject(if first.Some? then first.value else req.prevLogIndex, t);
              return;
            }
        }
      }
      MergeEntries(req.entries);
      if req.leaderCommit > commitIndex {
        commitIndex := Min(req.leaderCommit, log.LastIndex());
      }
      resp := AppendResponse(currentTerm, true, 0, 0);
    }

    method OnRequestVote(req: VoteRequest) returns (resp: VoteResponse)
      modifies this
      ensures (State(), resp) == NodeModel.OnRequestVote(old(State()), req)
      ensures journal == old(journal) + VoteWrites(old(State()), req)
    {
      if req.term > currentTerm {
        AdvanceTerm(req.term);
        role := Follower;
      }
      if req.term < currentTerm {
        return VoteResponse(currentTerm, false);
      }
      var votedForOther := votedFor.Some? && votedFor.value != req.candidate;
      if votedForOther {
        return VoteResponse(currentTerm, false);
      }
      var logOk := req.lastLogTerm > log.LastTerm()
      || (req.lastLogTerm == log.LastTerm() && req.lastLogIndex >= log.LastIndex());
      if !logOk {
        return VoteResponse(currentTerm, false);
      }
      RecordVote(req.candidate);
      resp := VoteResponse(currentTerm, true);
    }

    method OnInstallSnapshot(req: InstallRequest, saved: bool) returns (resp: InstallResponse)
      modifies this
      ensures (State(), resp) == NodeModel.OnInstallSnapshot(old(State()), req, saved)
      ensures journal == old(journal) + InstallWrites(old(State()), req, saved)
    {
      if req.term < currentTerm {
        return InstallResponse(currentTerm, false);
      }
      if req.term > currentTerm {
        AdvanceTerm(req.term);
      }
      BecomeFollower(Some(req.leader));
      if req.snapshot.lastIndex <= log.snapshotIndex {
        return InstallResponse(currentTerm, true);
      }
      if !saved {
        return InstallResponse(currentTerm, false);
      }
      SaveSnapshot(req.snapshot);
      log := log.InstallSnapshot(req.snapshot.lastIndex, req.snapshot.lastTerm);
      journal := journal + [State().(snapshot := Some(req.snapshot)).Disk()];
      commitIndex := Max(commitIndex, req.snapshot.lastIndex);
      entriesSinceSnapshot := 0;
      snapshot := Some(req.snapshot);
      resp := InstallResponse(currentTerm, true);
    }

    // ---- Elections ----

    method BeginElection()
      requires phase.Idle? && role != Leader
      modifies this
      ensures State() == NodeModel.BeginElection(old(State()))
      ensures journal == old(journal) + Writes(old(State()), Timeout)
    {
      var newTerm := currentTerm + 1;
      AdvanceTerm(newTerm);
      RecordVote(config.id);
      role := Candidate;
      phase := Electing(VoteRequest(newTerm, config.id, log.LastIndex(), log.LastTerm()));
    }

    method FinishElection(results: seq<Option<VoteResponse>>)
      requires Ready(State(), VotesCounted(results))
      modifies this
      ensures State() == NodeModel.FinishElection(old(State()), results)
      ensures journal == old(journal) + Writes(old(State()), VotesCounted(results))
    {
      var votes := 1;
      var i := 0;
      while i < |results|
        invariant 0 <= i <= |results|
        invariant State() == old(State()) && journal == old(journal)
        invariant CountVotes(State(), results, i, votes) == CountVotes(old(State()), results, 0, 1)
      {
        if results[i].Some? {
          var resp := results[i].value;
          if resp.term > currentTerm {
            AdvanceTerm(resp.term);
            BecomeFollower(None);
            phase := Idle;
            return;
          }
          if resp.granted {
            votes := votes + 1;
          }
        }
        i := i + 1;
      }
      if role == Candidate {
        if votes >= config.Quorum() {
          BecomeLeader();
        } else {
          role := Follower;
        }
      }
      phase := Idle;
    }

    // ---- Heartbeats ----

    method BeginHeartbeat()
      requires phase.Idle? && role == Leader
      modifies this
      ensures State() == NodeModel.BeginHeartbeat(old(State())) && journal == old(journal)
    {
      phase := Heartbeating(AppendRequest(currentTerm, config.id, log.LastIndex(), log.LastTerm(), [], commitIndex));
    }

    method FinishHeartbeat(results: seq<Option<AppendResponse>>)
      requires Ready(State(), BeatsCounted(results))
      modifies this
      ensures State() == NodeModel.FinishHeartbeat(old(State()), results)
      ensures journal == old(journal) + Writes(old(State()), BeatsCounted(results))
    {
      var i := 0;
      while i < |results|
        invariant 0 <= i <= |results|
        invariant State() == old(State()) && journal == old(journal)
        invariant CountBeats(State(), results, i) == CountBeats(old(State()), results, 0)
      {
        if results[i].Some? && results[i].value.term > currentTerm {
          AdvanceTerm(results[i].value.term);
          BecomeFollower(None);
          phase := Idle;
          return;
        }
        i := i + 1;
      }
      phase := Idle;
    }

    // ---- Client writes ----

    method BuildAppendFor(peer: NodeId, upTo: nat) returns (req: AppendRequest)
      ensures req == BuildAppend(State(), peer, upTo)
    {
      var next := if peer in nextIndex then nextIndex[peer] else upTo + 1;
      var prevLogIndex := if next == 0 then 0 else next - 1;
      var prevTerm := log.TermAt(prevLogIndex);
      var entries := UpTo(log.EntriesFrom(next), upTo);
      req := AppendRequest(currentTerm, config.id, prevLogIndex, if prevTerm.Some? then prevTerm.value else 0,
                           entries, commitIndex);
    }

    /** The requests of a round, one per peer. */
    method BuildRound(upTo: nat) returns (sent: seq<Request>)
      ensures sent == BuildRequests(State(), upTo)
    {
      sent := [];
      var i := 0;
      while i < |config.peers|
        invariant 0 <= i <= |config.peers|
        invariant sent == BuildRequests(State(), upTo)[..i]
      {
        var peer := config.peers[i];
        var next := if peer in nextIndex then nextIndex[peer] else upTo + 1;
        if next <= log.snapshotIndex && snapshot.Some? {
          sent := sent + [InstallCall(InstallRequest(currentTerm, config.id, snapshot.value))];
        } else {
          var req := BuildAppendFor(peer, upTo);
          sent := sent + [AppendCall(req)];
        }
        i := i + 1;
      }
    }

    /** `stored`: whether the log could append the entry; if not, the write ends there. */
    method BeginWrite(data: Bytes, stored: bool) returns (refused: Option<WriteError>)
      requires phase.Idle?
      modifies this
      ensures old(role) == Leader && !stored ==>
                State() == old(State()) && refused == Some(AppendFailed) && journal == old(journal)
      ensures old(role) != Leader || stored ==>
                && (State(), refused) == NodeModel.BeginWrite(old(State()), data)
                && journal == old(journal) + Writes(old(State()), ClientWrite(data))
    {
      if role != Leader {
        return Some(NotLeader(currentLeader));
      }
      if !stored {
        return Some(AppendFailed);
      }
      var index := LogAppend(currentTerm, data);
      var sent := BuildRound(index);
      phase := Replicating(index, sent);
      refused := None;
    }

    /** Counts the AppendEntries responses; true if a higher term ended the count. */
    method CountAppends(results: seq<Option<Response>>, upTo: nat) returns (acks: nat, steppedDown: bool)
      requires |results| == |config.peers|
      modifies this
      ensures Count(State(), acks, steppedDown)
              == NodeModel.CountAppends(old(State()), config.peers, results, 0, upTo, 1)
      ensures journal == old(journal) + CountedWrites(old(State()), State())
    {
      acks := 1;
      var i := 0;
      while i < |results|
        invariant 0 <= i <= |results|
        invariant NodeModel.CountAppends(State(), config.peers, results, i, upTo, acks)
                  == NodeModel.CountAppends(old(State()), config.peers, results, 0, upTo, 1)
        invariant currentTerm == old(currentTerm) && journal == old(journal)
      {
        if results[i].Some? && results[i].value.AppendReply? {
          var resp, peer := results[i].value.append, config.peers[i];
          if resp.term > currentTerm {
            AdvanceTerm(resp.term);
            BecomeFollower(None);
            return acks, true;
          }
          if resp.success {
            acks := acks + 1;
            matchIndex := matchIndex[peer := upTo];
            nextIndex := nextIndex[peer := upTo + 1];
          } else if resp.conflictIndex > 0 {
            nextIndex := nextIndex[peer := resp.conflictIndex];
          }
        }
        i := i + 1;
      }
      steppedDown := false;
    }

    /** Counts the InstallSnapshot responses on top of the `acks` so far. */
    method CountInstalls(results: seq<Option<Response>>, acks: nat) returns (total: nat, steppedDown: bool)
      requires |results| == |config.peers|
      modifies this
      ensures Count(State(), total, steppedDown)
              == NodeModel.CountInstalls(old(State()), config.peers, results, 0, acks)
      ensures journal == old(journal) + CountedWrites(old(State()), State())
    {
      total := acks;
      var i := 0;
      while i < |results|
        invariant 0 <= i <= |results|
        invariant NodeModel.CountInstalls(State(), config.peers, results, i, total)
                  == NodeModel.CountInstalls(old(State()), config.peers, results, 0, acks)
        invariant currentTerm == old(currentTerm) && journal == old(journal)
      {
        if results[i].Some? && results[i].value.InstallReply? {
          var resp, peer := results[i].value.install, config.peers[i];
          if resp.term > currentTerm {
            AdvanceTerm(resp.term);
            BecomeFollower(None);
            return total, true;
          }
          if resp.success {
            var snapIdx := log.snapshotIndex;
            matchIndex := matchIndex[peer := snapIdx];
            nextIndex := nextIndex[peer := snapIdx + 1];
            total := total + 1;
          }
        }
        i := i + 1;
      }
      steppedDown := false;
    }

    method CountReplies(results: seq<Option<Response>>, upTo: nat) returns (acks: nat)
      requires |results| == |config.peers|
      modifies this
      ensures var c := NodeModel.CountReplies(old(State()), results, upTo); State() == c.node && acks == c.count
      ensures journal == old(journal) + CountedWrites(old(State()), State())
    {
      var steppedDown;
      acks, steppedDown := CountAppends(results, upTo);
      CountedOnce(old(State()), config.peers, results, 0, upTo, 1);
      if steppedDown {
        return;
      }
      acks, steppedDown := CountInstalls(results, acks);
    }

    /** The committed entries held in memory, as a snapshot. */
    method EncodeCommitted() returns (snap: Snapshot)
      ensures snap.lastIndex == commitIndex
      ensures snap.lastTerm == match log.TermAt(commitIndex) case None => log.snapshotTerm case Some(t) => t
      ensures snap.data == EntriesBytes(UpTo(log.EntriesFrom(log.snapshotIndex + 1), commitIndex))
    {
      var term := log.TermAt(commitIndex);
      var lastTerm := if term.Some? then term.value else log.snapshotTerm;
      var data := EncodeEntries(UpTo(log.EntriesFrom(log.snapshotIndex + 1), commitIndex));
      snap := Snapshot(commitIndex, lastTerm, data);
    }

    method LogCompact(index: nat, term: nat, snap: Snapshot)
      modifies this
      ensures State() == old(State()).(log := old(log).Compact(index, term))
      ensures journal == old(journal)
                         + if index > old(log).snapshotIndex then [State().(snapshot := Some(snap)).Disk()] else []
    {
      if index > log.snapshotIndex {
        log := log.Compact(index, term);
        journal := journal + [State().(snapshot := Some(snap)).Disk()];
      }
    }

    method TakeSnapshot(saved: bool)
      modifies this
      ensures State() == NodeModel.TakeSnapshot(old(State()), saved)
      ensures journal == old(journal) + SnapshotWrites(old(State()), saved)
    {
      if commitIndex == 0 {
        return;
      }
      var snap := EncodeCommitted();
      if !saved {
        return;
      }
      SaveSnapshot(snap);
      LogCompact(snap.lastIndex, snap.lastTerm, snap);
      entriesSinceSnapshot := 0;
      snapshot := Some(snap);
    }

    method FinishWrite(results: seq<Option<Response>>, saved: bool) returns (r: WriteResult)
      requires Ready(State(), WriteCounted(results, saved))
      modifies this
      ensures (State(), r) == NodeModel.FinishWrite(old(State()), old(phase).upTo, results, saved)
      ensures journal == old(journal) + Writes(old(State()), WriteCounted(results, saved))
    {
      var index := phase.upTo;
      var acks := CountReplies(results, index);
      phase := Idle;
      if acks < config.Quorum() {
        return Failed(QuorumNotReached);
      }
      commitIndex := index;
      entriesSinceSnapshot := entriesSinceSnapshot + 1;
      if entriesSinceSnapshot >= SNAPSHOT_TRIGGER {
        TakeSnapshot(saved);
      }
      r := Committed(index);
    }
  }

  /** Merging from `s` has done the first `i` entries and reached `n`. */
  ghost predicate Merging(s: NodeState, n: NodeState, entries: seq<LogEntry>, i: nat, start: seq<Durable>,
      journal: seq<Durable>) {
    && i <= |entries|
    && n == s.(log := n.log)
    && Merge(n.log, entries[i..]) == Merge(s.log, entries)
    && journal + WithLogs(s, MergeWrites(n.log, entries[i..])) == start + WithLogs(s, MergeWrites(s.log, entries))
  }

  lemma MergeStart(s: NodeState, entries: seq<LogEntry>, start: seq<Durable>)
    ensures Merging(s, s, entries, 0, start, start)
  {
    assert entries[0..] == entries;
  }

  lemma MergeNext(s: NodeState, n: NodeState, entries: seq<LogEntry>, i: nat, start: seq<Durable>,
      journal: seq<Durable>)
    requires i < |entries| && Merging(s, n, entries, i, start, journal)
    ensures Merging(s, n.(log := MergeOne(n.log, entries[i])), entries, i + 1, start,
                    journal + WithLogs(n, MergeOneWrites(n.log, entries[i])))
  {
    var e, rest := entries[i], entries[i + 1..];
    assert entries[i..][0] == e && entries[i..][1..] == rest;
    var next, now, later := MergeOne(n.log, e), MergeOneWrites(n.log, e), MergeWrites(MergeOne(n.log, e), rest);
    assert MergeWrites(n.log, entries[i..]) == now + later;
    assert WithLogs(n, now) == WithLogs(s, now);
    assert journal + WithLogs(s, now + later) == (journal + WithLogs(s, now)) + WithLogs(s, later);
  }

  lemma MergeEnd(s: NodeState, n: NodeState, entries: seq<LogEntry>, start: seq<Durable>, journal: seq<Durable>)
    requires Merging(s, n, entries, |entries|, start, journal)
    ensures n == s.(log := Merge(s.log, entries))
    ensures journal == start + WithLogs(s, MergeWrites(s.log, entries))
  {
    assert entries[|entries|..] == [];
    assert journal + [] == journal;
  }

  lemma SetNext(m: map<NodeId, nat>, peers: seq<NodeId>, i: nat, v: nat)
    requires i < |peers|
    ensures SetAll(m, peers[..i + 1], v) == SetAll(m, peers[..i], v)[peers[i] := v]
  {
    assert peers[..i + 1][..i] == peers[..i];
  }

  /** Only stepping down moves the term while responses are counted. */
  lemma {:induction false} CountedOnce(s: NodeState, peers: seq<NodeId>, results: seq<Option<Response>>, i: nat,
      upTo: nat,
                                       acks: nat)
    requires |peers| == |results| && i <= |results|
    ensures var c := NodeModel.CountAppends(s, peers, results, i, upTo, acks);
            !c.steppedDown ==> c.node.term == s.term
    decreases |results| - i
  {
    if i < |results| {
      if !(results[i].Some? && results[i].value.AppendReply?) {
        CountedOnce(s, peers, results, i + 1, upTo, acks);
      } else if results[i].value.append.term <= s.term {
        var resp := results[i].value.append;
        CountedOnce(TakeAppendReply(s, peers[i], resp, upTo), peers, results, i + 1, upTo,
                    if resp.success then acks + 1 else acks);
      }
    }
  }
}
