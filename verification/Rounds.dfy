/** Replication goes on: what a leader asks next of a peer that answered, and that the peer accepts it. */
module Rounds {
  import opened Bytes
  import opened Log
  import opened NodeModel
  import C = Cluster
  import opened Departures
  import opened Holders
  import M = Merge

  // ---- When a request is accepted ----

  /** A request is accepted exactly in a term that is not over, by a log that has the previous entry. */
  lemma AcceptedIff(p: NodeState, req: AppendRequest)
    ensures OnAppendEntries(p, req).1.success
            <==> req.term >= p.term
                 && (req.prevLogIndex == 0 || p.log.TermAt(req.prevLogIndex) == Some(req.prevLogTerm))
  {}

  /** A peer that accepts a request follows its sender, and afterwards holds every entry the request carries. */
  lemma AcceptedIsStored(p: NodeState, req: AppendRequest)
    requires OnAppendEntries(p, req).1.success && M.Fitting(p.log, req.prevLogIndex, req.entries)
    ensures var n := OnAppendEntries(p, req).0;
            && n.role == Follower && n.currentLeader == Some(req.leader) && n.term == req.term
            && n.log.Valid() && forall i :: 0 <= i < |req.entries| ==> M.Matches(n.log, req.entries[i])
  {
    if req.entries == [] {
      assert Merge(p.log, req.entries) == p.log;
    } else {
      M.MergeDelivers(p.log, req.prevLogIndex, req.entries, 0);
    }
    forall i | 0 <= i < |req.entries|
      ensures M.Matches(Merge(p.log, req.entries), req.entries[i])
    {
      M.MergeDelivers(p.log, req.prevLogIndex, req.entries, i);
    }
  }

  // ---- The request for the entries past an index ----

  /** The leader asks for its own entries from just past `prev` up to `upTo`. */
  ghost predicate AsksPast(s: NodeState, req: Request, prev: nat, upTo: nat) {
    && req.AppendCall? && s.log.snapshotIndex <= prev <= upTo <= s.log.LastIndex()
    && req.append.prevLogIndex == prev
    && (prev > 0 ==> s.log.TermAt(prev) == Some(req.append.prevLogTerm))
    && req.append.entries == s.log.entries[prev - s.log.snapshotIndex..upTo - s.log.snapshotIndex]
    && req.append.term == s.term && req.append.leader == s.config.id && req.append.leaderCommit == s.commitIndex
  }

  lemma AsksFrom(s: NodeState, peer: NodeId, prev: nat, upTo: nat)
    requires s.log.Valid() && s.log.snapshotIndex <= prev <= upTo <= s.log.LastIndex()
    requires s.NextFor(peer, upTo) == prev + 1
    ensures AsksPast(s, BuildRequest(s, peer, upTo), prev, upTo)
  {
    var tail := s.log.entries[prev - s.log.snapshotIndex..];
    assert s.log.EntriesFrom(prev + 1) == tail;
    FiltersAreSlices(tail, prev, upTo);
  }

  /** A peer the leader has no index for is only asked whether it has the last entry of the round. */
  lemma UnknownPeerIsAsked(s: NodeState, peer: NodeId, upTo: nat)
    requires s.log.Valid() && s.log.snapshotIndex <= upTo <= s.log.LastIndex() && peer !in s.nextIndex
    ensures AsksPast(s, BuildRequest(s, peer, upTo), upTo, upTo)
  {
    AsksFrom(s, peer, upTo, upTo);
  }

  /** After an acknowledgment the leader asks for nothing up to the acknowledged index again. */
  lemma AfterAppend(s: NodeState, peer: NodeId, resp: AppendResponse, acked: nat, upTo: nat)
    requires s.log.Valid() && s.log.snapshotIndex <= acked <= upTo <= s.log.LastIndex() && resp.success
    ensures var t := TakeAppendReply(s, peer, resp, acked);
            && AsksPast(t, BuildRequest(t, peer, upTo), acked, upTo)
            && peer in t.matchIndex && t.matchIndex[peer] == acked
  {
    AsksFrom(TakeAppendReply(s, peer, resp, acked), peer, acked, upTo);
  }

  /** After an installed snapshot it goes on with the first entry past its own snapshot point. */
  lemma AfterInstall(s: NodeState, peer: NodeId, resp: InstallResponse, upTo: nat)
    requires s.log.Valid() && s.log.snapshotIndex <= upTo <= s.log.LastIndex() && resp.success
    ensures var t := TakeInstallReply(s, peer, resp);
            && AsksPast(t, BuildRequest(t, peer, upTo), s.log.snapshotIndex, upTo)
            && peer in t.matchIndex && t.matchIndex[peer] == s.log.snapshotIndex
  {
    AsksFrom(TakeInstallReply(s, peer, resp), peer, s.log.snapshotIndex, upTo);
  }

  /** After a refusal it asks about the entry before the hint, or the same again if there is no hint. */
  lemma AfterRefusal(s: NodeState, peer: NodeId, resp: AppendResponse, acked: nat, upTo: nat)
    requires !resp.success
    ensures var t := TakeAppendReply(s, peer, resp, acked);
            && t.matchIndex == s.matchIndex
            && t.NextFor(peer, upTo) == if resp.conflictIndex > 0 then resp.conflictIndex else s.NextFor(peer, upTo)
  {}

  // ---- And that it is accepted ----

  /** A request for the entries past an index is accepted by every peer that has the leader's entry there and is not
      ahead in terms; afterwards the peer has the leader's entries from there on, and has committed what the leader has
      of them. */
  lemma AskedIsAccepted(s: NodeState, p: NodeState, req: Request, prev: nat, upTo: nat)
    requires AsksPast(s, req, prev, upTo) && s.log.Valid() && p.log.Valid() && p.term <= s.term
    requires p.log.snapshotIndex <= prev && (prev > 0 ==> p.log.TermAt(prev) == s.log.TermAt(prev))
    ensures OnAppendEntries(p, req.append).1.success
    ensures var n := OnAppendEntries(p, req.append).0;
            && (forall i: nat :: prev < i <= upTo ==> n.log.TermAt(i).Some? && n.log.TermAt(i) == s.log.TermAt(i))
            && n.log.LastIndex() >= upTo && (s.commitIndex <= upTo ==> n.commitIndex >= s.commitIndex)
  {
    AcceptedIff(p, req.append);
    AskedFits(s, p, req, prev, upTo);
    AcceptedIsStored(p, req.append);
    var n := OnAppendEntries(p, req.append).0;
    forall i: nat | prev < i <= upTo
      ensures n.log.TermAt(i).Some? && n.log.TermAt(i) == s.log.TermAt(i)
    {
      AskedEntry(s, req, prev, upTo, i);
      assert M.Matches(n.log, req.append.entries[i - prev - 1]);
    }
    EndReached(p, req.append, prev, upTo);
  }

  lemma AskedEntry(s: NodeState, req: Request, prev: nat, upTo: nat, i: nat)
    requires AsksPast(s, req, prev, upTo) && s.log.Valid() && prev < i <= upTo
    ensures i - prev - 1 < |req.append.entries|
    ensures req.append.entries[i - prev - 1].index == i
    ensures s.log.TermAt(i) == Some(req.append.entries[i - prev - 1].term)
  {}

  lemma EndReached(p: NodeState, req: AppendRequest, prev: nat, upTo: nat)
    requires OnAppendEntries(p, req).1.success && M.Fitting(p.log, prev, req.entries)
    requires prev == req.prevLogIndex && prev + |req.entries| == upTo
    ensures OnAppendEntries(p, req).0.log.LastIndex() >= upTo
  {
    if prev < upTo {
      M.MergeDelivers(p.log, prev, req.entries, upTo - prev - 1);
    }
  }

  lemma AskedFits(s: NodeState, p: NodeState, req: Request, prev: nat, upTo: nat)
    requires AsksPast(s, req, prev, upTo) && s.log.Valid() && p.log.Valid()
    requires p.log.snapshotIndex <= prev && (prev > 0 ==> p.log.TermAt(prev) == s.log.TermAt(prev))
    ensures M.Fitting(p.log, prev, req.append.entries)
  {
    assert prev <= p.log.LastIndex();
  }

  /** A peer that installs the leader's snapshot accepts the next request exactly if the snapshot is one of the leader's
      own snapshot point; otherwise it was sent one that is ahead of the log it came from. */
  lemma InstalledAccepts(s: NodeState, p: NodeState, peer: NodeId, resp: InstallResponse, upTo: nat)
    requires s.log.Valid() && p.log.Valid() && p.term <= s.term && s.snapshot.Some? && resp.success
    requires 0 < s.log.snapshotIndex <= s.snapshot.value.lastIndex && s.log.snapshotIndex <= upTo <= s.log.LastIndex()
    requires s.snapshot.value.lastIndex == s.log.snapshotIndex ==> s.snapshot.value.lastTerm == s.log.snapshotTerm
    requires p.log.snapshotIndex < s.snapshot.value.lastIndex
    ensures var q := OnInstallSnapshot(p, InstallRequest(s.term, s.config.id, s.snapshot.value), true).0;
            var next := BuildRequest(TakeInstallReply(s, peer, resp), peer, upTo);
            && next.AppendCall?
            && (OnAppendEntries(q, next.append).1.success <==> s.snapshot.value.lastIndex == s.log.snapshotIndex)
  {
    var q := OnInstallSnapshot(p, InstallRequest(s.term, s.config.id, s.snapshot.value), true).0;
    var t := TakeInstallReply(s, peer, resp);
    AfterInstall(s, peer, resp, upTo);
    AcceptedIff(q, BuildRequest(t, peer, upTo).append);
  }

  // ---- A new leader, and the steady state ----

  /** The first thing a new leader sends to a peer is its new entry, behind the end of the log it was elected with. */
  lemma NewLeaderAsks(s: NodeState, data: Bytes, peer: NodeId)
    requires s.log.Valid() && peer in s.config.peers
    ensures var u := NodeModel.BeginWrite(s.BecomeLeader(), data).0;
            && u.log == s.log.Append(s.term, data) && u.phase.Replicating? && u.phase.upTo == s.log.LastIndex() + 1
            && AsksPast(u, BuildRequest(u, peer, u.phase.upTo), s.log.LastIndex(), u.phase.upTo)
  {
    var u := NodeModel.BeginWrite(s.BecomeLeader(), data).0;
    assert s.BecomeLeader().nextIndex[peer] == s.log.LastIndex() + 1;
    AsksFrom(u, peer, s.log.LastIndex(), u.phase.upTo);
  }

  /** The peer has the leader's last entry, and the leader knows. */
  ghost predicate InStep(s: NodeState, p: NodeState, peer: NodeId) {
    && s.role == Leader && s.phase.Idle? && s.log.Valid() && p.log.Valid() && p.term <= s.term
    && s.commitIndex <= s.log.LastIndex() && p.log.snapshotIndex <= s.log.LastIndex()
    && peer in s.nextIndex && s.nextIndex[peer] == s.log.LastIndex() + 1
    && (s.log.LastIndex() > 0 ==> p.log.TermAt(s.log.LastIndex()) == Some(s.log.LastTerm()))
  }

  /** What a write does to the leader itself. */
  lemma WriteAppends(s: NodeState, data: Bytes)
    requires s.role == Leader && s.log.Valid()
    ensures var u := NodeModel.BeginWrite(s, data).0;
            && u == s.(log := s.log.Append(s.term, data), phase := u.phase) && u.log.Valid()
            && u.phase.Replicating? && u.phase.upTo == u.log.LastIndex() == s.log.LastIndex() + 1
            && u.log.TermAt(s.log.LastIndex() + 1) == Some(s.term)
            && (s.log.LastIndex() > 0 ==> u.log.TermAt(s.log.LastIndex()) == Some(s.log.LastTerm()))
  {}

  lemma NewestOnly(log: Log, term: nat, data: Bytes)
    ensures var n := |log.entries|;
            log.Append(term, data).entries[n..n + 1] == [LogEntry(term, log.LastIndex() + 1, data)]
  {}

  /** What a peer in step is then sent. */
  lemma SteadyRequest(s: NodeState, p: NodeState, peer: NodeId, data: Bytes)
    requires InStep(s, p, peer)
    ensures var u := NodeModel.BeginWrite(s, data).0;
            var upTo := s.log.LastIndex() + 1;
            && AsksPast(u, BuildRequest(u, peer, upTo), upTo - 1, upTo)
            && BuildRequest(u, peer, upTo).append.entries == [LogEntry(s.term, upTo, data)]
  {
    var last := s.log.LastIndex();
    WriteAppends(s, data);
    NewestOnly(s.log, s.term, data);
    AsksFrom(NodeModel.BeginWrite(s, data).0, peer, last, last + 1);
  }

  /** Once a peer has acknowledged the leader's last entry, every further write reaches it in one round: it is sent just
      the new entry, accepts it, and learns what has been committed. */
  lemma SteadyRound(s: NodeState, p: NodeState, peer: NodeId, data: Bytes)
    requires InStep(s, p, peer)
    ensures var u := NodeModel.BeginWrite(s, data).0;
            var upTo := s.log.LastIndex() + 1;
            var req := BuildRequest(u, peer, upTo);
            && req.AppendCall? && req.append.entries == [LogEntry(s.term, upTo, data)]
            && OnAppendEntries(p, req.append).1.success
            && OnAppendEntries(p, req.append).0.log.TermAt(upTo) == Some(s.term)
            && OnAppendEntries(p, req.append).0.commitIndex >= s.commitIndex
  {
    var u, upTo := NodeModel.BeginWrite(s, data).0, s.log.LastIndex() + 1;
    WriteAppends(s, data);
    SteadyRequest(s, p, peer, data);
    AskedIsAccepted(u, p, BuildRequest(u, peer, upTo), upTo - 1, upTo);
  }

  // ---- Heartbeats ----

  /** A heartbeat is accepted exactly by a peer that has the leader's last entry; it never changes a log, and who
      accepts it has committed what the leader has. */
  lemma HeartbeatIsAccepted(s: NodeState, p: NodeState)
    requires s.role == Leader && s.phase.Idle? && p.term <= s.term && s.log.Valid() && p.log.Valid()
    requires s.commitIndex <= s.log.LastIndex()
    ensures Step(s, Timeout).phase.Heartbeating?
    ensures var beat := Step(s, Timeout).phase.beat;
            var (q, resp) := OnAppendEntries(p, beat);
            && beat.term == s.term && beat.leader == s.config.id && q.log == p.log
            && q.role == Follower && q.currentLeader == Some(s.config.id) && q.term == s.term
            && (resp.success <==> s.log.LastIndex() == 0
                                  || p.log.TermAt(s.log.LastIndex()) == Some(s.log.LastTerm()))
            && (resp.success ==> q.commitIndex >= s.commitIndex)
  {}

  // ---- All peers of a round ----

  /** Where a leader goes on with a peer after its answer, or the lack of one. */
  function NextAfter(s: NodeState, peer: NodeId, result: Option<Response>, upTo: nat): nat
    requires peer in s.nextIndex
  {
    match result
    case Some(AppendReply(resp)) =>
      if resp.success then upTo + 1 else if resp.conflictIndex > 0 then resp.conflictIndex else s.nextIndex[peer]
    case Some(InstallReply(resp)) => if resp.success then s.log.snapshotIndex + 1 else s.nextIndex[peer]
    case _ => s.nextIndex[peer]
  }

  /** The highest index it knows to be there. */
  function MatchAfter(s: NodeState, peer: NodeId, result: Option<Response>, upTo: nat): nat
    requires peer in s.matchIndex
  {
    match result
    case Some(AppendReply(resp)) => if resp.success then upTo else s.matchIndex[peer]
    case Some(InstallReply(resp)) => if resp.success then s.log.snapshotIndex else s.matchIndex[peer]
    case _ => s.matchIndex[peer]
  }

  ghost predicate Knows(s: NodeState, peers: seq<NodeId>) {
    forall k :: 0 <= k < |peers| ==> peers[k] in s.nextIndex && peers[k] in s.matchIndex
  }

  function OnlyAppend(result: Option<Response>): Option<Response> {
    match result
    case Some(AppendReply(_)) => result
    case _ => None
  }

  function OnlyInstall(result: Option<Response>): Option<Response> {
    match result
    case Some(InstallReply(_)) => result
    case _ => None
  }

  /** Node `t` is `s` except that the indexes of peer `k` have followed this answer. */
  ghost predicate Moved(s: NodeState, t: NodeState, peer: NodeId, result: Option<Response>, upTo: nat) {
    && peer in s.nextIndex && peer in s.matchIndex && peer in t.nextIndex && peer in t.matchIndex
    && t.nextIndex[peer] == NextAfter(s, peer, result, upTo)
    && t.matchIndex[peer] == MatchAfter(s, peer, result, upTo)
  }

  lemma {:induction false} AppendsMove(s: NodeState, peers: seq<NodeId>, results: seq<Option<Response>>, i: nat,
      upTo: nat, acks: nat, k: nat)
    requires |peers| == |results| && i <= |results| && k < |results| && NoHigherTerm(results, s.term)
    requires C.Distinct(peers) && Knows(s, peers)
    ensures var t := CountAppends(s, peers, results, i, upTo, acks).node;
            && C.SameButIndexes(s, t) && Knows(t, peers)
            && Moved(s, t, peers[k], if i <= k then OnlyAppend(results[k]) else None, upTo)
    decreases |results| - i
  {
    if i < |results| {
      if results[i].Some? && results[i].value.AppendReply? {
        var resp := results[i].value.append;
        var u := TakeAppendReply(s, peers[i], resp, upTo);
        AppendsMove(u, peers, results, i + 1, upTo, if resp.success then acks + 1 else acks, k);
      } else {
        AppendsMove(s, peers, results, i + 1, upTo, acks, k);
      }
    }
  }

  lemma {:induction false} InstallsMove(s: NodeState, peers: seq<NodeId>, results: seq<Option<Response>>, i: nat,
      upTo: nat, acks: nat, k: nat)
    requires |peers| == |results| && i <= |results| && k < |results| && NoHigherTerm(results, s.term)
    requires C.Distinct(peers) && Knows(s, peers)
    ensures var t := CountInstalls(s, peers, results, i, acks).node;
            && C.SameButIndexes(s, t) && Knows(t, peers)
            && Moved(s, t, peers[k], if i <= k then OnlyInstall(results[k]) else None, upTo)
    decreases |results| - i
  {
    if i < |results| {
      if results[i].Some? && results[i].value.InstallReply? {
        var resp := results[i].value.install;
        var u := TakeInstallReply(s, peers[i], resp);
        InstallsMove(u, peers, results, i + 1, upTo, if resp.success then acks + 1 else acks, k);
      } else {
        InstallsMove(s, peers, results, i + 1, upTo, acks, k);
      }
    }
  }

  /** A round that meets no higher term moves each peer's indexes as that peer answered, and changes nothing else in the
      leader. */
  lemma RoundMovesIndexes(s: NodeState, results: seq<Option<Response>>, upTo: nat, k: nat)
    requires |results| == |s.config.peers| && k < |results| && NoHigherTerm(results, s.term)
    requires C.Distinct(s.config.peers) && Knows(s, s.config.peers)
    ensures var t := CountReplies(s, results, upTo).node;
            C.SameButIndexes(s, t) && Moved(s, t, s.config.peers[k], results[k], upTo)
  {
    var peers := s.config.peers;
    AppendsMove(s, peers, results, 0, upTo, 1, k);
    AppendsCounted(s, peers, results, 0, upTo, 1);
    var c := CountAppends(s, peers, results, 0, upTo, 1);
    InstallsMove(c.node, peers, results, 0, upTo, c.count, k);
  }

  /** So replication resumes after a snapshot: once the success of its installation is counted, the peer is asked for
      the entries past the leader's snapshot point. */
  lemma ReplicationResumes(s: NodeState, results: seq<Option<Response>>, k: nat, acked: nat, upTo: nat)
    requires |results| == |s.config.peers| && k < |results| && NoHigherTerm(results, s.term)
    requires C.Distinct(s.config.peers) && Knows(s, s.config.peers)
    requires s.log.Valid() && s.log.snapshotIndex <= upTo <= s.log.LastIndex()
    requires Installed(results[k])
    ensures var t := CountReplies(s, results, acked).node;
            AsksPast(t, BuildRequest(t, s.config.peers[k], upTo), s.log.snapshotIndex, upTo)
  {
    RoundMovesIndexes(s, results, acked, k);
    AsksFrom(CountReplies(s, results, acked).node, s.config.peers[k], s.log.snapshotIndex, upTo);
  }

  lemma CompactedEnd(s: NodeState, saved: bool)
    requires s.log.Valid() && s.log.entries != [] && s.commitIndex == s.log.LastIndex()
    ensures var t := TakeSnapshot(s, saved);
            && t.log.Valid() && t.log.LastIndex() == s.log.LastIndex() && t.log.LastTerm() == s.log.LastTerm()
            && t == s.(log := t.log, snapshot := t.snapshot, sinceSnapshot := t.sinceSnapshot)
  {
    MutatorsKeepValid(s.log, s.commitIndex, s.log.LastTerm(), []);
  }

  /** The leader after a round of which it counted the success of peer `k`. */
  lemma CountedInStep(u: NodeState, results: seq<Option<Response>>, saved: bool, k: nat)
    requires u.role == Leader && u.log.Valid() && u.log.entries != [] && u.commitIndex <= u.log.LastIndex()
    requires |results| == |u.config.peers| && k < |results| && NoHigherTerm(results, u.term)
    requires C.Distinct(u.config.peers) && Knows(u, u.config.peers)
    requires results[k].Some? && results[k].value.AppendReply? && results[k].value.append.success
    ensures var t := FinishWrite(u, u.log.LastIndex(), results, saved).0;
            && t.role == Leader && t.phase.Idle? && t.log.Valid() && t.term == u.term && t.config == u.config
            && t.commitIndex <= t.log.LastIndex() == u.log.LastIndex() && t.log.LastTerm() == u.log.LastTerm()
            && u.config.peers[k] in t.nextIndex && t.nextIndex[u.config.peers[k]] == u.log.LastIndex() + 1
  {
    var upTo := u.log.LastIndex();
    RoundMovesIndexes(u, results, upTo, k);
    var n := CountReplies(u, results, upTo).node.(phase := Idle);
    CompactedEnd(n.(commitIndex := upTo, sinceSnapshot := n.sinceSnapshot + 1), saved);
  }

  /** A peer that is in step stays so: after each write whose round it answered, whatever the others did, whether or not
      the write was committed and the log compacted. */
  lemma StaysInStep(s: NodeState, p: NodeState, data: Bytes, results: seq<Option<Response>>, saved: bool, k: nat)
    requires |results| == |s.config.peers| && k < |results| && NoHigherTerm(results, s.term)
    requires C.Distinct(s.config.peers) && Knows(s, s.config.peers) && InStep(s, p, s.config.peers[k])
    requires var u := NodeModel.BeginWrite(s, data).0;
             var req := BuildRequest(u, s.config.peers[k], s.log.LastIndex() + 1);
             req.AppendCall? && results[k] == Some(AppendReply(OnAppendEntries(p, req.append).1))
    ensures var u, upTo := NodeModel.BeginWrite(s, data).0, s.log.LastIndex() + 1;
            var req := BuildRequest(u, s.config.peers[k], upTo);
            InStep(FinishWrite(u, upTo, results, saved).0, OnAppendEntries(p, req.append).0, s.config.peers[k])
  {
    var peer := s.config.peers[k];
    var u, upTo := NodeModel.BeginWrite(s, data).0, s.log.LastIndex() + 1;
    WriteAppends(s, data);
    SteadyRequest(s, p, peer, data);
    SteadyRound(s, p, peer, data);
    CountedInStep(u, results, saved, k);
    var req := BuildRequest(u, peer, upTo).append;
    AskedFits(u, p, BuildRequest(u, peer, upTo), upTo - 1, upTo);
    AcceptedIsStored(p, req);
    MergeKeepsSnapshot(p.log, req.entries);
  }

  lemma {:induction false} MergeKeepsSnapshot(log: Log, entries: seq<LogEntry>)
    ensures Merge(log, entries).snapshotIndex == log.snapshotIndex
    decreases |entries|
  {
    if entries != [] {
      MergeKeepsSnapshot(MergeOne(log, entries[0]), entries[1..]);
    }
  }
}
