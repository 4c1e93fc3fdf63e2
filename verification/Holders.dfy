/** Who holds the entry of a replication round that its leader reports as committed, when some of the acknowledgments
    were for a snapshot. */
module Holders {
  import opened Bytes
  import opened Log
  import opened NodeModel
  import M = Merge
  import opened Departures

  /** A peer as a request of the round finds it, and whether it could save a snapshot. */
  datatype Peer = Peer(state: NodeState, saved: bool) {
    function Served(req: Request): NodeState {
      Serve(state, req, saved).0
    }

    function Reply(req: Request): Response {
      Serve(state, req, saved).1
    }
  }

  ghost predicate PositiveTerms(log: Log) {
    forall i: nat :: log.TermAt(i) != Some(0)
  }

  /** A leader in the round of the entry it appended last. A compacted log comes with its snapshot. */
  ghost predicate InRound(s: NodeState, upTo: nat) {
    && s.phase == Replicating(upTo, BuildRequests(s, upTo))
    && s.log.Valid() && s.log.entries != [] && s.log.LastTerm() == s.term && s.log.LastIndex() == upTo
    && (s.log.snapshotIndex > 0 ==> s.snapshot.Some?)
    && (s.snapshot.Some? ==> 0 < s.snapshot.value.lastIndex <= s.log.snapshotIndex)
    && forall p :: p in s.nextIndex ==> s.nextIndex[p] >= 1
  }

  /** A peer whose log a request from the very beginning does not reach behind its snapshot. */
  ghost predicate Sound(p: Peer, req: Request) {
    && p.state.log.Valid() && PositiveTerms(p.state.log)
    && (req.AppendCall? && req.append.prevLogIndex == 0 ==> p.state.log.snapshotIndex == 0)
  }

  /** The results are what these peers answered, or nothing. */
  ghost predicate Answers(s: NodeState, results: seq<Option<Response>>, peers: seq<Peer>)
    requires s.phase.Replicating?
  {
    && |results| == |peers| == |s.phase.sent|
    && (forall i :: 0 <= i < |peers| ==> Sound(peers[i], s.phase.sent[i]))
    && (forall i :: 0 <= i < |results| && results[i].Some? ==> results[i].value == peers[i].Reply(s.phase.sent[i]))
  }

  predicate Succeeded(r: Option<Response>) {
    match r
    case Some(AppendReply(resp)) => resp.success
    case Some(InstallReply(resp)) => resp.success
    case _ => false
  }

  predicate Installed(r: Option<Response>) {
    match r
    case Some(InstallReply(resp)) => resp.success
    case _ => false
  }

  /** How many peers from the i-th on answered success and then hold the entry. */
  function Held(s: NodeState, upTo: nat, results: seq<Option<Response>>, peers: seq<Peer>, i: nat): nat
    requires s.phase.Replicating? && i <= |results| == |peers| == |s.phase.sent|
    decreases |results| - i
  {
    if i == |results| then 0
    else Held(s, upTo, results, peers, i + 1)
         + if Succeeded(results[i]) && peers[i].Served(s.phase.sent[i]).log.TermAt(upTo) == Some(s.term) then 1 else 0
  }

  /** How many installed the snapshot and had the entry already. */
  function HadBefore(s: NodeState, upTo: nat, results: seq<Option<Response>>, peers: seq<Peer>, i: nat): nat
    requires i <= |results| == |peers|
    decreases |results| - i
  {
    if i == |results| then 0
    else HadBefore(s, upTo, results, peers, i + 1)
         + if Installed(results[i]) && peers[i].state.log.TermAt(upTo) == Some(s.term) then 1 else 0
  }

  // ---- One peer ----

  /** Installing a snapshot that ends before an index changes nothing about that index. */
  lemma InstallLeavesEntry(p: Peer, req: InstallRequest, upTo: nat)
    requires p.state.log.Valid() && 0 < req.snapshot.lastIndex < upTo
    ensures p.Served(InstallCall(req)).log.TermAt(upTo) == p.state.log.TermAt(upTo)
  {
    if p.state.log.snapshotIndex < req.snapshot.lastIndex {
      InstallKeepsTail(p.state.log, req.snapshot.lastIndex, req.snapshot.lastTerm);
    }
  }

  lemma QuotedEnd(log: Log, next: nat)
    requires log.Valid() && log.snapshotIndex < next <= log.LastIndex()
    ensures var quoted := UpTo(log.EntriesFrom(next), log.LastIndex());
            && Numbered(quoted, next - 1)
            && |quoted| == log.LastIndex() + 1 - next
            && quoted[|quoted| - 1] == log.entries[|log.entries| - 1]
  {
    var tail := log.entries[next - log.snapshotIndex - 1..];
    FiltersAreSlices(tail, next - 1, log.LastIndex());
    assert tail[..|tail|] == tail;
  }

  /** A request for the entries from a peer's next index on that carries the leader's last entry, or that checks for it,
      or that asks about an index the leader does not have. */
  ghost predicate ReachesEnd(s: NodeState, req: AppendRequest, upTo: nat) {
    && req.term == s.term && req.prevLogIndex >= s.log.snapshotIndex && Numbered(req.entries, req.prevLogIndex)
    && if req.prevLogIndex < upTo
       then req.prevLogIndex + |req.entries| == upTo && req.entries[|req.entries| - 1].term == s.term
       else req.prevLogTerm == if req.prevLogIndex == upTo then s.term else 0
  }

  lemma BeyondEnd(s: NodeState, peer: NodeId, upTo: nat)
    requires InRound(s, upTo) && s.NextFor(peer, upTo) > upTo
    ensures ReachesEnd(s, BuildAppend(s, peer, upTo), upTo)
  {
    assert s.log.EntriesFrom(s.NextFor(peer, upTo)) == [];
  }

  lemma RequestReachesEnd(s: NodeState, peer: NodeId, upTo: nat)
    requires InRound(s, upTo) && BuildRequest(s, peer, upTo).AppendCall?
    ensures BuildRequest(s, peer, upTo) == AppendCall(BuildAppend(s, peer, upTo))
    ensures ReachesEnd(s, BuildAppend(s, peer, upTo), upTo)
  {
    var next := s.NextFor(peer, upTo);
    assert next > s.log.snapshotIndex;
    if next <= upTo {
      QuotedEnd(s.log, next);
    } else {
      BeyondEnd(s, peer, upTo);
    }
  }

  lemma AppendHolds(s: NodeState, peer: NodeId, upTo: nat, p: Peer)
    requires InRound(s, upTo) && BuildRequest(s, peer, upTo).AppendCall?
    requires Sound(p, BuildRequest(s, peer, upTo))
    requires p.Reply(BuildRequest(s, peer, upTo)).append.success
    ensures p.Served(BuildRequest(s, peer, upTo)).log.TermAt(upTo) == Some(s.term)
  {
    RequestReachesEnd(s, peer, upTo);
    var req := BuildAppend(s, peer, upTo);
    var log := Follow(p.state, req.term, req.leader).log;
    assert log == p.state.log && Conflict(log, req.prevLogIndex, req.prevLogTerm) == None;
    if req.prevLogIndex < upTo {
      M.MergeDelivers(log, req.prevLogIndex, req.entries, |req.entries| - 1);
    } else {
      assert log.TermAt(req.prevLogIndex) == Some(req.prevLogTerm);
    }
  }

  // ---- The whole round ----

  lemma PeerHolds(s: NodeState, upTo: nat, results: seq<Option<Response>>, peers: seq<Peer>, i: nat)
    requires InRound(s, upTo) && Answers(s, results, peers) && i < |peers| && Succeeded(results[i])
    ensures if Installed(results[i])
            then peers[i].Served(s.phase.sent[i]).log.TermAt(upTo) == peers[i].state.log.TermAt(upTo)
            else results[i].value.AppendReply? && peers[i].Served(s.phase.sent[i]).log.TermAt(upTo) == Some(s.term)
  {
    var req := s.phase.sent[i];
    assert req == BuildRequest(s, s.config.peers[i], upTo) && Sound(peers[i], req);
    if req.InstallCall? {
      InstallLeavesEntry(peers[i], req.install, upTo);
    } else {
      AppendHolds(s, s.config.peers[i], upTo, peers[i]);
    }
  }

  /** The holders among the peers that answered success are those that appended, and those that had the entry before
      they installed the snapshot. */
  lemma {:induction false} HoldersOfRound(s: NodeState, upTo: nat, results: seq<Option<Response>>,
      peers: seq<Peer>, i: nat)
    requires InRound(s, upTo) && Answers(s, results, peers) && i <= |results|
    ensures Held(s, upTo, results, peers, i)
            == AppendSuccesses(results, i) + HadBefore(s, upTo, results, peers, i)
    decreases |results| - i
  {
    if i < |results| {
      HoldersOfRound(s, upTo, results, peers, i + 1);
      if Succeeded(results[i]) {
        PeerHolds(s, upTo, results, peers, i);
      }
    }
  }

  /** The same answers from peers that had no log at all before they installed the snapshot. */
  function Emptied(results: seq<Option<Response>>, peers: seq<Peer>): (r: seq<Peer>)
    requires |results| == |peers|
    ensures |r| == |peers|
    ensures forall i :: 0 <= i < |r| ==>
              r[i] == if Installed(results[i]) then Peer(peers[i].state.(log := EMPTY), true) else peers[i]
  {
    seq(|peers|, i requires 0 <= i < |peers| =>
          if Installed(results[i]) then Peer(peers[i].state.(log := EMPTY), true) else peers[i])
  }

  lemma EmptiedAnswersAlike(s: NodeState, upTo: nat, results: seq<Option<Response>>, peers: seq<Peer>)
    requires InRound(s, upTo) && Answers(s, results, peers)
    ensures Answers(s, results, Emptied(results, peers))
  {
    var others := Emptied(results, peers);
    forall i | 0 <= i < |peers|
      ensures Sound(others[i], s.phase.sent[i])
      ensures results[i].Some? ==> results[i].value == others[i].Reply(s.phase.sent[i])
    {
      assert Sound(peers[i], s.phase.sent[i]);
      assert s.phase.sent[i] == BuildRequest(s, s.config.peers[i], upTo);
    }
  }

  lemma {:induction false} EmptiedHadNothing(s: NodeState, upTo: nat, results: seq<Option<Response>>,
      peers: seq<Peer>, i: nat)
    requires i <= |results| == |peers|
    ensures HadBefore(s, upTo, results, Emptied(results, peers), i) == 0
    decreases |results| - i
  {
    if i < |results| {
      EmptiedHadNothing(s, upTo, results, peers, i + 1);
    }
  }

  /** The exact condition: the leader's answer that its entry is on a quorum can be relied on, whatever the logs of the
      peers that installed a snapshot held, if and only if the leader and the peers that appended are a quorum. */
  lemma QuorumHolds(s: NodeState, upTo: nat, results: seq<Option<Response>>, peers: seq<Peer>)
    requires InRound(s, upTo) && Answers(s, results, peers)
    ensures (forall others :: Answers(s, results, others) ==>
               1 + Held(s, upTo, results, others, 0) >= s.config.Quorum())
            <==> 1 + AppendSuccesses(results, 0) >= s.config.Quorum()
  {
    forall others | Answers(s, results, others)
      ensures Held(s, upTo, results, others, 0) >= AppendSuccesses(results, 0)
    {
      HoldersOfRound(s, upTo, results, others, 0);
    }
    var empty := Emptied(results, peers);
    EmptiedAnswersAlike(s, upTo, results, peers);
    HoldersOfRound(s, upTo, results, empty, 0);
    EmptiedHadNothing(s, upTo, results, peers, 0);
  }

  /** So whenever snapshots make up for missing appends, the leader reports an entry that need not be on a quorum. */
  lemma CommittedWithoutQuorum(s: NodeState, upTo: nat, results: seq<Option<Response>>, peers: seq<Peer>, saved: bool)
    requires InRound(s, upTo) && Answers(s, results, peers) && NoHigherTerm(results, s.term)
    requires 1 + AppendSuccesses(results, 0) < s.config.Quorum() <= 1 + Successes(results, 0)
    ensures FinishWrite(s, upTo, results, saved).1 == Committed(upTo)
    ensures exists others :: Answers(s, results, others) && 1 + Held(s, upTo, results, others, 0) < s.config.Quorum()
  {
    EverySuccessCounts(s, upTo, results, saved);
    QuorumHolds(s, upTo, results, peers);
  }

  lemma PhaseIsNotSentTo(s: NodeState, peer: NodeId, upTo: nat, phase: Phase)
    ensures BuildRequest(s.(phase := phase), peer, upTo) == BuildRequest(s, peer, upTo)
  {
    assert BuildAppend(s.(phase := phase), peer, upTo) == BuildAppend(s, peer, upTo);
  }

  lemma PhaseIsNotSent(s: NodeState, upTo: nat, phase: Phase)
    ensures BuildRequests(s.(phase := phase), upTo) == BuildRequests(s, upTo)
  {
    var other := s.(phase := phase);
    forall i | 0 <= i < |s.config.peers|
      ensures BuildRequests(other, upTo)[i] == BuildRequests(s, upTo)[i]
    {
      PhaseIsNotSentTo(s, s.config.peers[i], upTo, phase);
    }
  }

  /** A leader's write starts such a round. */
  lemma WriteBegins(a: NodeState, data: Bytes)
    requires a.role == Leader && a.log.Valid() && (a.log.snapshotIndex > 0 ==> a.snapshot.Some?)
    requires a.snapshot.Some? ==> 0 < a.snapshot.value.lastIndex <= a.log.snapshotIndex
    requires forall p :: p in a.nextIndex ==> a.nextIndex[p] >= 1
    ensures InRound(NodeModel.BeginWrite(a, data).0, a.log.LastIndex() + 1)
  {
    var b, upTo := a.(log := a.log.Append(a.term, data)), a.log.LastIndex() + 1;
    PhaseIsNotSent(b, upTo, Replicating(upTo, BuildRequests(b, upTo)));
    assert b.log.Valid() && b.log.LastIndex() == upTo;
  }

  /** It happens in a cluster of three: the leader compacted its log with the help of one peer, which is now down, and
      appends an entry; the other peer had fallen behind, installs the snapshot, and its success commits the entry,
      which only the leader has. */
  lemma InstallAcksTheWrite(compacted: nat, term: nat, first: Bytes, data: Bytes,
      leader: NodeId, down: NodeId, behind: NodeId)
    returns (s: NodeState, peer: Peer, reply: Response)
    requires compacted >= 1 && term >= 1 && leader != down && down != behind && behind != leader
    ensures s.config == Config(leader, [down, behind]) && s.role == Leader
    ensures s.log == Log(compacted, term, [LogEntry(term, compacted + 1, data)]) && InRound(s, compacted + 1)
    ensures s.phase.sent[1].InstallCall? && reply == peer.Reply(s.phase.sent[1])
    ensures FinishWrite(s, compacted + 1, [None, Some(reply)], true).1 == Committed(compacted + 1)
    ensures peer.Served(s.phase.sent[1]).log == Log(compacted, term, [])
  {
    var before := Restart(Config(leader, [down, behind]),
                          Durable(term, Some(leader), Log(compacted, term, []), Some(Snapshot(compacted, term, first))))
    .(role := Leader, currentLeader := Some(leader),
      nextIndex := map[down := compacted + 1, behind := 1], matchIndex := map[down := compacted, behind := 0]);
    WriteBegins(before, data);
    s := NodeModel.BeginWrite(before, data).0;
    peer := Peer(Restart(Config(behind, [leader, down]), Durable(term, Some(leader), EMPTY, None)), true);
    assert s.phase.sent[1] == BuildRequest(s, behind, compacted + 1);
    reply := peer.Reply(s.phase.sent[1]);
    OneInstallCommits(s, compacted + 1, reply);
  }

  lemma OneInstallCommits(s: NodeState, upTo: nat, reply: Response)
    requires |s.config.peers| == 2 && reply.InstallReply? && reply.install.success && reply.install.term <= s.term
    ensures FinishWrite(s, upTo, [None, Some(reply)], true).1 == Committed(upTo)
  {
    var results: seq<Option<Response>> := [None, Some(reply)];
    assert Successes(results, 2) == 0 && Successes(results, 1) == 1 && Successes(results, 0) == 1;
    EverySuccessCounts(s, upTo, results, true);
  }
}
