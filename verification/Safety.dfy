/** The Raft safety theorems for runs of the cluster in which no node compacts its log. */
module Safety {
  import opened Bytes
  import opened Log
  import opened NodeModel
  import opened Cluster
  import opened Elections
  import opened Ledger
  import opened Coupling
  import opened Steps

  // ---- One lemma per step: the histories move on, and what is sent and answered is sound ----

  ghost predicate AnswersSound(m: Ledger, answers: set<Answer>) {
    forall ans :: ans in answers ==> AnswerOk(m, ans)
  }

  /** A heartbeat quotes the end of the leader's log. */
  lemma BeatOk(l: Ledger, n: NodeId, a: NodeState, t: Tally)
    requires NodeCoupled(t, l, n, a) && a.role == Leader
    ensures AppendsOk(l, Sent(BeginHeartbeat(a)))
  {}

  lemma BeatTurn(s: Cluster, n: NodeId, a: NodeState, t: Tally, l: Ledger)
    requires Local(t, l, n, a) && a.role == Leader
    ensures Turn(s, n, BeginHeartbeat(a), t, l, Record(t, n, a, BeginHeartbeat(a)), l)
    ensures AppendsOk(l, Sent(BeginHeartbeat(a)))
  {
    BeatOk(l, n, a, t);
    LeaderTurn(s, n, a, BeginHeartbeat(a), t, l);
  }

  lemma ElectionTurn(s: Cluster, n: NodeId, a: NodeState, t: Tally, l: Ledger) returns (m: Ledger)
    requires Local(t, l, n, a) && CandidatesReached(t)
    ensures Turn(s, n, BeginElection(a), t, l, Record(t, n, a, BeginElection(a)), m)
  {
    assert Casts(n, a, BeginElection(a), n);
    m := CastTurn(s, n, a, BeginElection(a), t, l, n);
  }

  lemma ClientWriteTurn(s: Cluster, n: NodeId, a: NodeState, data: Bytes, t: Tally, l: Ledger) returns (m: Ledger)
    requires Local(t, l, n, a) && a.phase.Idle?
    ensures Turn(s, n, BeginWrite(a, data).0, t, l, Record(t, n, a, BeginWrite(a, data).0), m)
    ensures AppendsOk(m, Sent(BeginWrite(a, data).0))
  {
    if a.role == Leader {
      m := WriteTurn(s, n, a, BeginWrite(a, data).0, data, t, l);
    } else {
      m := l;
      SameRecord(t, n, a, a);
      RaiseTurn(s, n, a, t, l, a.term);
    }
  }

  /** A vote request makes a node cast a first vote in its term, or changes at most its term and role. */
  lemma VoteCases(n: NodeId, a: NodeState, r: VoteRequest)
    requires a.phase.Idle? && a.role != Candidate && r.candidate != n
    requires a.role == Leader ==> a.votedFor.Some?
    ensures var (b, x) := OnRequestVote(a, r);
            || b == a
            || Quiet(a, b)
            || (Casts(n, a, b, r.candidate) && b.term == r.term && UpToDate(r.lastLogTerm, r.lastLogIndex, a.log))
  {}

  /** A node that may vote for `c` sees the log `c` has while its election is under way. */
  lemma CandidateAtLeast(s: Cluster, t: Tally, l: Ledger, r: VoteRequest, log: Log)
    requires VoteCallOk(s, t, r) && NodeOk(t, r.candidate, s.nodes[r.candidate])
    requires NodeCoupled(t, l, r.candidate, s.nodes[r.candidate])
    requires log.snapshotTerm == log.snapshotIndex == 0 && UpToDate(r.lastLogTerm, r.lastLogIndex, log)
    ensures var c := s.nodes[r.candidate];
            c.phase.Electing? && c.term == r.term ==> AtLeast(c.log.entries, log.entries)
  {}

  lemma VoteTurn(s: Cluster, n: NodeId, a: NodeState, b: NodeState, r: VoteRequest, t: Tally, l: Ledger)
      returns (m: Ledger)
    requires Local(t, l, n, a) && CandidatesReached(t)
    requires VoteCallOk(s, t, r) && r.candidate != n && NodeOk(t, r.candidate, s.nodes[r.candidate])
    requires NodeCoupled(t, l, r.candidate, s.nodes[r.candidate])
    requires
      || b == a
      || Quiet(a, b)
      || (Casts(n, a, b, r.candidate) && b.term == r.term && UpToDate(r.lastLogTerm, r.lastLogIndex, a.log))
    ensures Turn(s, n, b, t, l, Record(t, n, a, b), m)
  {
    m := l;
    if b == a || Quiet(a, b) {
      StayTurn(s, n, a, b, t, l);
    } else {
      CandidateAtLeast(s, t, l, r, a.log);
      m := CastTurn(s, n, a, b, t, l, r.candidate);
    }
  }

  // ---- AppendEntries ----

  /** In an uncompacted log, a conflict hint never points past the index that was checked. */
  lemma HintWithinCheck(log: Log, prev: nat, prevTerm: nat)
    requires log.Valid() && log.snapshotIndex == 0
    ensures Conflict(log, prev, prevTerm).Some? ==> Conflict(log, prev, prevTerm).value.0 <= prev
  {
    if prev > 0 && log.TermAt(prev).Some? {
      FirstIndexIsLeast(log, log.TermAt(prev).value);
    }
  }

  /** The commit index a follower takes over is one the leader's log, and now its own, has committed. */
  lemma CommitIsLeaders(l: Ledger, a: NodeState, r: AppendRequest, after: seq<LogEntry>)
    requires AppendOk(l, r) && Agree(after, l.reigns[r.term].log, r.prevLogIndex + |r.entries|)
    ensures var c := if r.leaderCommit > a.commitIndex then Min(r.leaderCommit, |after|) else a.commitIndex;
            c <= a.commitIndex
            || (c == r.leaderCommit && Agree(after, l.reigns[r.term].log, c)
                && CommittedPrefix(l, l.reigns[r.term].log, c, r.term))
  {}

  /** An accepted request, seen as the follower's move under the leader of its term. */
  lemma AcceptFollows(l: Ledger, n: NodeId, a: NodeState, r: AppendRequest)
    requires n in l.logs && a.log == Log(0, 0, l.logs[n]) && a.phase.Idle?
    requires AppendOk(l, r) && Traced(l, l.logs[n]) && Traced(l, l.reigns[r.term].log)
    requires Numbered(l.logs[n], 0) && Numbered(l.reigns[r.term].log, 0)
    requires OnAppendEntries(a, r).1.success
    ensures var (b, end) := (OnAppendEntries(a, r).0, r.prevLogIndex + |r.entries|);
            && Follows(a, b, l, b.log.entries) && CommitFollows(a, b, l)
            && b.term == r.term && Agree(b.log.entries, l.reigns[r.term].log, end)
  {
    var b := OnAppendEntries(a, r).0;
    MergeAdvances(l, l.logs[n], r);
    assert b.log == Merge(a.log, r.entries);
    CommitIsLeaders(l, a, r, b.log.entries);
    assert b.log.LastIndex() == |b.log.entries|;
  }

  /** A rejected request changes at most the term, and its hint lies within what was quoted. */
  lemma RejectQuiet(a: NodeState, r: AppendRequest)
    requires a.phase.Idle? && a.log.Valid() && a.log.snapshotIndex == 0
    requires !OnAppendEntries(a, r).1.success
    ensures var (b, x) := OnAppendEntries(a, r);
            (b == a || Quiet(a, b)) && x.conflictIndex <= r.prevLogIndex
  {
    HintWithinCheck(a.log, r.prevLogIndex, r.prevLogTerm);
  }

  /** What either outcome of an AppendEntries request amounts to. */
  ghost predicate AppendOutcome(l: Ledger, a: NodeState, r: AppendRequest, b: NodeState, x: AppendResponse) {
    if x.success then
      && Follows(a, b, l, b.log.entries) && CommitFollows(a, b, l)
      && b.term == r.term && Agree(b.log.entries, l.reigns[r.term].log, r.prevLogIndex + |r.entries|)
    else
      (b == a || Quiet(a, b)) && x.conflictIndex <= r.prevLogIndex
  }

  lemma AppendCases(t: Tally, l: Ledger, n: NodeId, a: NodeState, r: AppendRequest)
    requires LedgerOk(t, l) && NodeCoupled(t, l, n, a) && a.phase.Idle? && AppendOk(l, r)
    ensures AppendOutcome(l, a, r, OnAppendEntries(a, r).0, OnAppendEntries(a, r).1)
  {
    LogNumbered(t, l, n);
    if OnAppendEntries(a, r).1.success {
      ReignFacts(t, l, n, r.term);
      AcceptFollows(l, n, a, r);
    } else {
      RejectQuiet(a, r);
    }
  }

  lemma AcceptedAck(l: Ledger, a: NodeState, r: AppendRequest, b: NodeState, x: AppendResponse, n: NodeId)
    requires AppendOutcome(l, a, r, b, x) && x.success
    ensures Acknowledges(l, n, b.term, b.log.entries, {Ack(n, r.term, r.prevLogIndex + |r.entries|)})
  {}

  lemma AppendTurn(s: Cluster, n: NodeId, a: NodeState, r: AppendRequest, b: NodeState, x: AppendResponse, t: Tally,
      l: Ledger)
    returns (m: Ledger)
    requires Local(t, l, n, a) && AppendOutcome(l, a, r, b, x)
    ensures Turn(s, n, b, t, l, Record(t, n, a, b), m)
    ensures x.success ==> Ack(n, r.term, r.prevLogIndex + |r.entries|) in m.acks
  {
    m := l;
    if x.success {
      var acks := {Ack(n, r.term, r.prevLogIndex + |r.entries|)};
      AcceptedAck(l, a, r, b, x, n);
      m := FollowTurn(s, n, a, b, t, l, b.log.entries, acks);
    } else {
      StayTurn(s, n, a, b, t, l);
    }
  }

  lemma StayTurn(s: Cluster, n: NodeId, a: NodeState, b: NodeState, t: Tally, l: Ledger)
    requires Local(t, l, n, a) && (b == a || Quiet(a, b))
    ensures Turn(s, n, b, t, l, Record(t, n, a, b), l)
  {
    if b == a {
      SameRecord(t, n, a, a);
      RaiseTurn(s, n, a, t, l, a.term);
    } else {
      QuietTurn(s, n, a, b, t, l);
    }
  }

  lemma ReignFacts(t: Tally, l: Ledger, n: NodeId, term: nat)
    requires LedgerOk(t, l) && n in l.logs && term in l.reigns
    ensures Traced(l, l.logs[n]) && Traced(l, l.reigns[term].log) && Numbered(l.reigns[term].log, 0)
  {
    assert LogOk(t, l, n) && ReignOk(t, l, term);
  }

  // ---- Ends of rounds ----

  lemma VotesLostIsQuiet(a: NodeState, votes: seq<Option<VoteResponse>>)
    requires |votes| == |a.config.peers| && FinishElection(a, votes).role != Leader
    ensures Quiet(a, FinishElection(a, votes))
  {
    CountVotesEffect(a, votes, 0, 1);
  }

  lemma VotesLostTurn(s: Cluster, n: NodeId, a: NodeState, votes: seq<Option<VoteResponse>>, t: Tally, l: Ledger)
    requires Local(t, l, n, a) && a.phase.Electing? && |votes| == |a.config.peers|
    requires FinishElection(a, votes).role != Leader
    ensures Turn(s, n, FinishElection(a, votes), t, l, Record(t, n, a, FinishElection(a, votes)), l)
  {
    VotesLostIsQuiet(a, votes);
    QuietTurn(s, n, a, FinishElection(a, votes), t, l);
  }

  /** The end of an election: defeat, a higher term, or victory. */
  lemma VotesCountedTurn(s: Cluster, n: NodeId, a: NodeState, votes: seq<Option<VoteResponse>>, t: Tally, l: Ledger)
    returns (m: Ledger)
    requires Local(t, l, n, a) && a.phase.Electing? && |votes| == |a.config.peers|
    requires FinishElection(a, votes).role == Leader ==>
               a.term !in t.wins && |Supporters(t, a.term, n)| >= Majority(t.terms.Keys)
    ensures Turn(s, n, FinishElection(a, votes), t, l, Record(t, n, a, FinishElection(a, votes)), m)
  {
    var b := FinishElection(a, votes);
    if b.role == Leader {
      CountVotesEffect(a, votes, 0, 1);
      m := WinTurn(s, n, a, b, t, l);
    } else {
      m := l;
      VotesLostTurn(s, n, a, votes, t, l);
    }
  }

  lemma BeatsCountedTurn(s: Cluster, n: NodeId, a: NodeState, beats: seq<Option<AppendResponse>>, t: Tally, l: Ledger)
    requires Local(t, l, n, a) && a.phase.Heartbeating? && |beats| == |a.config.peers|
    ensures Turn(s, n, FinishHeartbeat(a, beats), t, l, Record(t, n, a, FinishHeartbeat(a, beats)), l)
  {
    var b := FinishHeartbeat(a, beats);
    CountBeatsEffect(a, beats, 0);
    if b.term == a.term {
      LeaderTurn(s, n, a, b, t, l);
    } else {
      QuietTurn(s, n, a, b, t, l);
    }
  }

  /** In an uncompacted run, the end of a write either leaves the leader as it was but for its indexes, or makes it
      step down; and it moves the commit index to the new entry exactly when a quorum was counted. */
  lemma WriteEnds(a: NodeState, results: seq<Option<Response>>, saved: bool)
    requires a.phase.Replicating? && |results| == |a.config.peers| && a.log.snapshotIndex == 0 && a.phase.upTo > 0
    requires FinishWrite(a, a.phase.upTo, results, saved).0.log.snapshotIndex == 0
    ensures var (b, x) := FinishWrite(a, a.phase.upTo, results, saved);
            var c := CountReplies(a, results, a.phase.upTo);
            && b == c.node.(phase := Idle, commitIndex := b.commitIndex, sinceSnapshot := b.sinceSnapshot)
            && (x.Committed? <==> c.count >= a.config.Quorum())
            && b.commitIndex == (if x.Committed? then a.phase.upTo else a.commitIndex)
  {
    CountRepliesEffect(a, results, a.phase.upTo);
  }

  /** The responses counted in a round are acknowledgments on record, or hints within the leader's log. */
  lemma RoundReplies(s: Cluster, l: Ledger, n: NodeId, a: NodeState, results: seq<Option<Response>>)
    requires a.phase.Replicating? && RoundOk(l, n, a)
    requires |results| == |a.config.peers| && Answered(s, a, WriteCounted(results, false))
    requires AnswersOk(s, l)
    ensures forall i :: 0 <= i < |results| ==> ReplyOk(l, a, a.phase.upTo, i, results[i])
  {
    forall i | 0 <= i < |results|
      ensures ReplyOk(l, a, a.phase.upTo, i, results[i])
    {
      if results[i].Some? {
        assert Carries(a.phase.sent[i], a.term, a.phase.upTo);
        assert AnswerOk(l, Answer(a.config.peers[i], a.phase.sent[i], results[i].value));
      }
    }
  }

  /** The count of a round is at most the number of members on record as holding the new entry. */
  lemma RoundCount(s: Cluster, l: Ledger, n: NodeId, a: NodeState, results: seq<Option<Response>>)
    requires a.phase.Replicating? && RoundOk(l, n, a) && a.role == Leader && LeaderOk(l, a)
    requires a.log == Log(0, 0, a.log.entries)
    requires |results| == |a.config.peers| && Answered(s, a, WriteCounted(results, false))
    requires AnswersOk(s, l)
    requires Distinct(a.config.peers) && n !in PeerSet(a.config.peers)
    ensures var c := CountReplies(a, results, a.phase.upTo);
            && c.count <= |Ackers(l, Commit(a.term, a.phase.upTo))|
            && (!c.steppedDown ==> IndexesOk(c.node))
  {
    var upTo, ackers := a.phase.upTo, Ackers(l, Commit(a.term, a.phase.upTo));
    RoundReplies(s, l, n, a, results);
    forall j | 0 <= j < |results|
      ensures a.config.peers[j] != n
      ensures Ack(a.config.peers[j], a.term, upTo) in l.acks ==> a.config.peers[j] in ackers
    {
      assert a.config.peers[j] in PeerSet(a.config.peers);
      assert Ack(a.config.peers[j], a.term, upTo).node == a.config.peers[j];
    }
    assert Ack(n, a.term, upTo).node == n;
    CountedAcks(l, a, results, 0, upTo, {n}, ackers);
    var c := CountAppends(a, a.config.peers, results, 0, upTo, 1);
    forall j | 0 <= j < |results| && results[j].Some?
      ensures results[j].value.AppendReply?
    {
      assert ReplyOk(l, a, upTo, j, results[j]);
    }
    NoInstalls(c.node, a.config.peers, results, 0, c.count);
  }

  /** A node that already moved takes note of a commit of its own log. */
  lemma CommitTurn(s: Cluster, n: NodeId, b: NodeState, b': NodeState, t: Tally, l: Ledger, u: Tally, d: Commit)
    returns (m: Ledger)
    requires Turn(s, n, b, t, l, u, l) && CommitOk(u, l, d) && d.term <= b.term
    requires b.log.entries == l.reigns[d.term].log && d.upTo == |b.log.entries|
    requires b' == b.(commitIndex := d.upTo, sinceSnapshot := b'.sinceSnapshot)
    ensures d in m.commits
    ensures Turn(s, n, b', t, l, u, m)
  {
    m := l.(commits := l.commits + {d});
    CommitKeeps(u, l, d);
    CommitExtends(s, n, t, l, u, m);
    CommitCoupled(l, u, n, b, b', d, m);
  }

  lemma CommitCoupled(l: Ledger, u: Tally, n: NodeId, b: NodeState, b': NodeState, d: Commit, m: Ledger)
    requires NodeCoupled(u, l, n, b) && d.term in l.reigns && d.term <= b.term
    requires b.log.entries == l.reigns[d.term].log && d.upTo == |b.log.entries|
    requires b' == b.(commitIndex := d.upTo, sinceSnapshot := b'.sinceSnapshot)
    requires m == l.(commits := l.commits + {d})
    ensures NodeCoupled(u, m, n, b')
  {
    assert Covers(m, d, b'.log.entries, d.upTo, b'.term);
  }

  lemma CommitExtends(s: Cluster, n: NodeId, t: Tally, l: Ledger, u: Tally, m: Ledger)
    requires Extends(s, n, t, l, u, l) && m == l.(commits := m.commits) && l.commits <= m.commits
    ensures Extends(s, n, t, l, u, m)
  {}

  /** The leader's own part of a round's end: it keeps leading, or steps down. */
  lemma CountedTurn(s: Cluster, n: NodeId, a: NodeState, c: Count, since: nat, t: Tally, l: Ledger)
    requires Local(t, l, n, a) && a.role == Leader && CountedFrom(a, c)
    requires !c.steppedDown ==> IndexesOk(c.node)
    ensures var b := c.node.(phase := Idle);
            Turn(s, n, b, t, l, Record(t, n, a, b), l)
  {
    var b := c.node.(phase := Idle);
    if c.steppedDown {
      QuietTurn(s, n, a, b, t, l);
    } else {
      LeaderTurn(s, n, a, b, t, l);
    }
  }

  /** A count that reaches the quorum commits the leader's new entry. */
  lemma QuorumCommits(t: Tally, u: Tally, l: Ledger, n: NodeId, a: NodeState)
    requires NodeCoupled(t, l, n, a) && a.role == Leader && a.phase.Replicating?
    requires u.terms.Keys == t.terms.Keys
    requires |Ackers(l, Commit(a.term, a.phase.upTo))| >= Majority(t.terms.Keys)
    ensures CommitOk(u, l, Commit(a.term, a.phase.upTo))
    ensures a.log.entries == l.reigns[a.term].log && a.phase.upTo == |a.log.entries|
  {}

  /** The end of a client write: the leader notes the commit, even one it counted before it had to step down. */
  lemma WriteCountedTurn(
    s: Cluster, n: NodeId, a: NodeState, results: seq<Option<Response>>, saved: bool, b: NodeState, x: WriteResult,
    t: Tally, l: Ledger)
    returns (m: Ledger)
    requires Local(t, l, n, a) && a.phase.Replicating?
    requires |results| == |a.config.peers| && Answered(s, a, WriteCounted(results, false)) && AnswersOk(s, l)
    requires Distinct(a.config.peers) && n !in PeerSet(a.config.peers)
    requires a.config.Quorum() == Majority(t.terms.Keys)
    requires (b, x) == FinishWrite(a, a.phase.upTo, results, saved) && b.log.snapshotIndex == 0
    ensures Turn(s, n, b, t, l, Record(t, n, a, b), m)
    ensures x.Committed? ==> Commit(a.term, a.phase.upTo) in m.commits
  {
    var c, d := CountReplies(a, results, a.phase.upTo), Commit(a.term, a.phase.upTo);
    WriteEnds(a, results, saved);
    RoundCount(s, l, n, a, results);
    CountRepliesEffect(a, results, a.phase.upTo);
    m := WriteEndTurn(s, n, a, c, b, x.Committed?, t, l);
  }

  lemma WriteEndTurn(s: Cluster, n: NodeId, a: NodeState, c: Count, b: NodeState, committed: bool, t: Tally, l: Ledger)
    returns (m: Ledger)
    requires Local(t, l, n, a) && a.phase.Replicating? && CountedFrom(a, c)
    requires !c.steppedDown ==> IndexesOk(c.node)
    requires b == c.node.(phase := Idle, commitIndex := b.commitIndex, sinceSnapshot := b.sinceSnapshot)
    requires b.commitIndex == if committed then a.phase.upTo else a.commitIndex
    requires committed ==> |Ackers(l, Commit(a.term, a.phase.upTo))| >= Majority(t.terms.Keys)
    ensures Turn(s, n, b, t, l, Record(t, n, a, b), m)
    ensures committed ==> Commit(a.term, a.phase.upTo) in m.commits
  {
    var d, b0, u := Commit(a.term, a.phase.upTo), c.node.(phase := Idle), Record(t, n, a, b);
    CountedTurn(s, n, a, c, b.sinceSnapshot, t, l);
    assert Record(t, n, a, b0) == u && u.terms.Keys == t.terms.Keys;
    m := l;
    if committed {
      QuorumCommits(t, u, l, n, a);
      m := CommitTurn(s, n, b0, b, t, l, u, d);
    } else {
      OnlyCountsSince(u, l, n, b0, b);
    }
  }

  lemma OnlyCountsSince(u: Tally, l: Ledger, n: NodeId, b0: NodeState, b: NodeState)
    requires NodeCoupled(u, l, n, b0) && b == b0.(sinceSnapshot := b.sinceSnapshot)
    ensures NodeCoupled(u, l, n, b)
  {}

  // ---- Crashes ----

  /** What a step interrupted before its last write leaves: at most a higher term, or a log on its way
      to the merged one. */
  lemma CrashCases(a: NodeState, act: Action, k: nat)
    requires Ready(a, act) && k + 1 < |Writes(a, act)|
    requires act.Deliver? ==> !act.req.InstallCall?
    ensures var b := Restart(a.config, Writes(a, act)[k]);
            || Quiet(a, b)
            || (&& act.Deliver? && act.req.AppendCall? && act.req.append.term >= a.term
                && var f := Follow(a, act.req.append.term, act.req.append.leader);
                && OnAppendEntries(a, act.req.append).1.success
                && b.log in MergeWrites(f.log, act.req.append.entries)
                && b == Restart(a.config, f.(log := b.log).Disk()))
  {
    match act
    case WriteCounted(results, saved) => CountRepliesEffect(a, results, a.phase.upTo);
    case _ =>
  }

  lemma CrashDuringTurn(s: Cluster, n: NodeId, a: NodeState, act: Action, k: nat, t: Tally, l: Ledger)
    returns (m: Ledger)
    requires Local(t, l, n, a) && Ready(a, act) && k + 1 < |Writes(a, act)|
    requires act.Deliver? ==> !act.req.InstallCall? && (act.req.AppendCall? ==> AppendOk(l, act.req.append))
    ensures var b := Restart(a.config, Writes(a, act)[k]);
            Turn(s, n, b, t, l, Record(t, n, a, b), m)
  {
    var b := Restart(a.config, Writes(a, act)[k]);
    m := l;
    CrashCases(a, act, k);
    if Quiet(a, b) {
      QuietTurn(s, n, a, b, t, l);
    } else {
      CutMergeFollows(t, l, n, a, act.req.append, b);
      assert Acknowledges(l, n, b.term, b.log.entries, {});
      m := FollowTurn(s, n, a, b, t, l, b.log.entries, {});
    }
  }

  lemma CutMergeFollows(t: Tally, l: Ledger, n: NodeId, a: NodeState, r: AppendRequest, b: NodeState)
    requires LedgerOk(t, l) && NodeCoupled(t, l, n, a) && AppendOk(l, r) && r.term >= a.term
    requires OnAppendEntries(a, r).1.success
    requires b.log in MergeWrites(a.log, r.entries)
    requires b == Restart(a.config, Follow(a, r.term, r.leader).(log := b.log).Disk())
    ensures b.term == r.term && Follows(a, b, l, b.log.entries) && CommitFollows(a, b, l)
  {
    LogNumbered(t, l, n);
    ReignFacts(t, l, n, r.term);
    MergeAdvances(l, l.logs[n], r);
  }

  // ---- Any step ----

  /** What is known of the whole cluster before a step. */
  ghost predicate Known(s: Cluster, t: Tally, l: Ledger) {
    Configured(s) && Tallied(s, t) && Coupled(s, t, l)
  }

  lemma KnownLocal(s: Cluster, t: Tally, l: Ledger, n: NodeId)
    requires Known(s, t, l) && n in s.nodes
    ensures Local(t, l, n, s.nodes[n])
    ensures CandidatesReached(t)
  {
    assert NodeOk(t, n, s.nodes[n]);
  }

  /** The requests a step sends are sound in the history after it. */
  ghost predicate SendsSound(n: NodeId, b: NodeState, m: Ledger) {
    if b.phase.Electing? then b.phase.ballot.candidate == n else AppendsOk(m, Sent(b))
  }

  lemma TimerTurn(s: Cluster, n: NodeId, act: Action, t: Tally, l: Ledger) returns (m: Ledger)
    requires Known(s, t, l) && CanAct(s, n, act) && (act.Timeout? || act.ClientWrite?)
    ensures Turn(s, n, Step(s.nodes[n], act), t, l, Record(t, n, s.nodes[n], Step(s.nodes[n], act)), m)
    ensures SendsSound(n, Step(s.nodes[n], act), m)
  {
    var a := s.nodes[n];
    KnownLocal(s, t, l, n);
    m := l;
    if act.ClientWrite? {
      m := ClientWriteTurn(s, n, a, act.data, t, l);
    } else if a.role == Leader {
      BeatTurn(s, n, a, t, l);
    } else {
      m := ElectionTurn(s, n, a, t, l);
    }
  }

  lemma KnownCall(s: Cluster, t: Tally, l: Ledger, p: Packet)
    requires Known(s, t, l) && p in s.calls
    ensures CallOk(s, t, l, p)
  {}

  lemma DeliverVote(s: Cluster, n: NodeId, r: VoteRequest, t: Tally, l: Ledger) returns (m: Ledger)
    requires Known(s, t, l) && n in s.nodes && s.nodes[n].phase.Idle? && Packet(n, VoteCall(r)) in s.calls
    ensures var a, b := s.nodes[n], OnRequestVote(s.nodes[n], r).0;
            Turn(s, n, b, t, l, Record(t, n, a, b), m)
  {
    KnownCall(s, t, l, Packet(n, VoteCall(r)));
    KnownLocal(s, t, l, n);
    KnownLocal(s, t, l, r.candidate);
    VoteCases(n, s.nodes[n], r);
    m := VoteTurn(s, n, s.nodes[n], OnRequestVote(s.nodes[n], r).0, r, t, l);
  }

  lemma OutcomeAnswerOk(l: Ledger, a: NodeState, r: AppendRequest, b: NodeState, x: AppendResponse, n: NodeId,
      m: Ledger)
    requires AppendOutcome(l, a, r, b, x)
    requires x.success ==> Ack(n, r.term, r.prevLogIndex + |r.entries|) in m.acks
    ensures AnswerOk(m, Answer(n, AppendCall(r), AppendReply(x)))
  {}

  lemma DeliverAppend(s: Cluster, n: NodeId, r: AppendRequest, b: NodeState, x: AppendResponse, t: Tally, l: Ledger)
    returns (m: Ledger)
    requires Known(s, t, l) && n in s.nodes && Packet(n, AppendCall(r)) in s.calls
    requires AppendOutcome(l, s.nodes[n], r, b, x)
    ensures Turn(s, n, b, t, l, Record(t, n, s.nodes[n], b), m)
    ensures AnswerOk(m, Answer(n, AppendCall(r), AppendReply(x)))
  {
    KnownLocal(s, t, l, n);
    m := AppendTurn(s, n, s.nodes[n], r, b, x, t, l);
    OutcomeAnswerOk(l, s.nodes[n], r, b, x, n, m);
  }

  lemma KnownOutcome(s: Cluster, n: NodeId, r: AppendRequest, t: Tally, l: Ledger)
    requires Known(s, t, l) && n in s.nodes && s.nodes[n].phase.Idle? && Packet(n, AppendCall(r)) in s.calls
    ensures AppendOutcome(l, s.nodes[n], r, OnAppendEntries(s.nodes[n], r).0, OnAppendEntries(s.nodes[n], r).1)
  {
    KnownCall(s, t, l, Packet(n, AppendCall(r)));
    KnownLocal(s, t, l, n);
    AppendCases(t, l, n, s.nodes[n], r);
  }

  /** Handlers leave the actor between rounds. */
  lemma ServeIdle(a: NodeState, req: Request, saved: bool)
    ensures Serve(a, req, saved).0.phase == a.phase
  {}

  lemma DeliverTurn(s: Cluster, n: NodeId, req: Request, b: NodeState, x: Response, t: Tally, l: Ledger)
      returns (m: Ledger)
    requires Known(s, t, l) && n in s.nodes && s.nodes[n].phase.Idle? && Packet(n, req) in s.calls
    requires req.VoteCall? ==> b == OnRequestVote(s.nodes[n], req.vote).0
    requires req.AppendCall? ==>
               (b, x) == (OnAppendEntries(s.nodes[n], req.append).0,
                          AppendReply(OnAppendEntries(s.nodes[n], req.append).1))
    ensures Turn(s, n, b, t, l, Record(t, n, s.nodes[n], b), m)
    ensures AnswerOk(m, Answer(n, req, x))
  {
    KnownCall(s, t, l, Packet(n, req));
    match req
    case VoteCall(r) => m := DeliverVote(s, n, r, t, l);
    case AppendCall(r) =>
      KnownOutcome(s, n, r, t, l);
      m := DeliverAppend(s, n, r, b, x.append, t, l);
  }

  lemma CountVotesTurn(s: Cluster, n: NodeId, act: Action, t: Tally, l: Ledger) returns (m: Ledger)
    requires Known(s, t, l) && CanAct(s, n, act) && act.VotesCounted?
    ensures var a, b := s.nodes[n], FinishElection(s.nodes[n], act.votes);
            Turn(s, n, b, t, l, Record(t, n, a, b), m)
  {
    KnownLocal(s, t, l, n);
    if FinishElection(s.nodes[n], act.votes).role == Leader {
      WinnerIsFirst(s, t, n, act);
    }
    m := VotesCountedTurn(s, n, s.nodes[n], act.votes, t, l);
  }

  lemma CountWriteTurn(s: Cluster, n: NodeId, act: Action, b: NodeState, x: WriteResult, t: Tally, l: Ledger)
      returns (m: Ledger)
    requires Known(s, t, l) && CanAct(s, n, act) && act.WriteCounted?
    requires (b, x) == FinishWrite(s.nodes[n], s.nodes[n].phase.upTo, act.results, act.saved)
    requires b.log.snapshotIndex == 0
    ensures Turn(s, n, b, t, l, Record(t, n, s.nodes[n], b), m)
    ensures x.Committed? ==> Commit(s.nodes[n].term, s.nodes[n].phase.upTo) in m.commits
  {
    KnownLocal(s, t, l, n);
    QuorumIsMajority(s, n);
    m := WriteCountedTurn(s, n, s.nodes[n], act.results, act.saved, b, x, t, l);
  }

  lemma CountBeatsTurn(s: Cluster, n: NodeId, act: Action, t: Tally, l: Ledger)
    requires Known(s, t, l) && CanAct(s, n, act) && act.BeatsCounted?
    ensures var a, b := s.nodes[n], FinishHeartbeat(s.nodes[n], act.beats);
            Turn(s, n, b, t, l, Record(t, n, a, b), l)
  {
    KnownLocal(s, t, l, n);
    BeatsCountedTurn(s, n, s.nodes[n], act.beats, t, l);
  }

  /** After its round a node is idle again. */
  lemma RoundsEnd(a: NodeState, act: Action)
    requires Ready(a, act) && (act.VotesCounted? || act.WriteCounted? || act.BeatsCounted?)
    ensures Step(a, act).phase.Idle?
  {}

  /** The write this event ends, if it does, was answered with an index. */
  ghost predicate CommitsWrite(a: NodeState, act: Action) {
    && Ready(a, act) && act.WriteCounted?
    && FinishWrite(a, a.phase.upTo, act.results, act.saved).1.Committed?
  }

  /** Besides the node's own move: what it sends and answers is sound, and a write it reports is on record. */
  ghost predicate Progress(n: NodeId, a: NodeState, act: Action, b: NodeState, m: Ledger)
    requires Ready(a, act)
  {
    && SendsSound(n, b, m)
    && AnswersSound(m, AnswersOf(n, a, act))
    && (CommitsWrite(a, act) ==> Commit(a.term, a.phase.upTo) in m.commits)
  }

  lemma TimerProgress(n: NodeId, a: NodeState, act: Action, b: NodeState, m: Ledger)
    requires Ready(a, act) && (act.Timeout? || act.ClientWrite?) && SendsSound(n, b, m)
    ensures Progress(n, a, act, b, m)
  {}

  lemma DeliverProgress(n: NodeId, a: NodeState, act: Action, b: NodeState, m: Ledger)
    requires Ready(a, act) && act.Deliver? && b == Step(a, act)
    requires AnswerOk(m, Answer(n, act.req, Serve(a, act.req, act.saved).1))
    ensures Progress(n, a, act, b, m)
  {
    ServeIdle(a, act.req, act.saved);
  }

  lemma CountProgress(n: NodeId, a: NodeState, act: Action, b: NodeState, m: Ledger)
    requires Ready(a, act) && (act.VotesCounted? || act.WriteCounted? || act.BeatsCounted?) && b == Step(a, act)
    requires CommitsWrite(a, act) ==> Commit(a.term, a.phase.upTo) in m.commits
    ensures Progress(n, a, act, b, m)
  {
    RoundsEnd(a, act);
  }

  lemma WriteActTurn(s: Cluster, n: NodeId, act: Action, b: NodeState, t: Tally, l: Ledger) returns (m: Ledger)
    requires Known(s, t, l) && CanAct(s, n, act) && act.WriteCounted?
    requires b == Step(s.nodes[n], act) && b.log.snapshotIndex == 0
    ensures Turn(s, n, b, t, l, Record(t, n, s.nodes[n], b), m)
    ensures CommitsWrite(s.nodes[n], act) ==> Commit(s.nodes[n].term, s.nodes[n].phase.upTo) in m.commits
  {
    var x := FinishWrite(s.nodes[n], s.nodes[n].phase.upTo, act.results, act.saved).1;
    m := CountWriteTurn(s, n, act, b, x, t, l);
  }

  lemma CountTurn(s: Cluster, n: NodeId, act: Action, b: NodeState, t: Tally, l: Ledger) returns (m: Ledger)
    requires Known(s, t, l) && CanAct(s, n, act) && (act.VotesCounted? || act.WriteCounted? || act.BeatsCounted?)
    requires b == Step(s.nodes[n], act) && b.log.snapshotIndex == 0
    ensures Turn(s, n, b, t, l, Record(t, n, s.nodes[n], b), m)
    ensures CommitsWrite(s.nodes[n], act) ==> Commit(s.nodes[n].term, s.nodes[n].phase.upTo) in m.commits
  {
    m := l;
    if act.VotesCounted? {
      m := CountVotesTurn(s, n, act, t, l);
      assert !CommitsWrite(s.nodes[n], act);
    } else if act.WriteCounted? {
      m := WriteActTurn(s, n, act, b, t, l);
    } else {
      CountBeatsTurn(s, n, act, t, l);
      assert !CommitsWrite(s.nodes[n], act);
    }
  }

  lemma ActTurn(s: Cluster, n: NodeId, act: Action, b: NodeState, t: Tally, l: Ledger) returns (m: Ledger)
    requires Known(s, t, l) && CanAct(s, n, act)
    requires b == Step(s.nodes[n], act) && b.log.snapshotIndex == 0
    ensures Turn(s, n, b, t, l, Record(t, n, s.nodes[n], b), m)
    ensures Progress(n, s.nodes[n], act, b, m)
  {
    if act.Deliver? {
      m := DeliverActTurn(s, n, act, b, t, l);
    } else if act.Timeout? || act.ClientWrite? {
      m := TimerTurn(s, n, act, t, l);
      TimerProgress(n, s.nodes[n], act, b, m);
    } else {
      m := CountTurn(s, n, act, b, t, l);
      CountProgress(n, s.nodes[n], act, b, m);
    }
  }

  lemma DeliverActTurn(s: Cluster, n: NodeId, act: Action, b: NodeState, t: Tally, l: Ledger) returns (m: Ledger)
    requires Known(s, t, l) && CanAct(s, n, act) && act.Deliver?
    requires b == Step(s.nodes[n], act) && b.log.snapshotIndex == 0
    ensures Turn(s, n, b, t, l, Record(t, n, s.nodes[n], b), m)
    ensures Progress(n, s.nodes[n], act, b, m)
  {
    m := DeliverTurn(s, n, act.req, b, Serve(s.nodes[n], act.req, act.saved).1, t, l);
    DeliverProgress(n, s.nodes[n], act, b, m);
  }

  lemma CrashTurn(s: Cluster, e: Event, b: NodeState, t: Tally, l: Ledger) returns (m: Ledger)
    requires Known(s, t, l) && Enabled(s, e) && !e.Act?
    requires b == NodeAfter(s, e)
    ensures Turn(s, e.node, b, t, l, Record(t, e.node, s.nodes[e.node], b), m)
  {
    var n, a := e.node, s.nodes[e.node];
    m := l;
    KnownLocal(s, t, l, n);
    if e.Crash? {
      assert Quiet(a, b);
      QuietTurn(s, n, a, b, t, l);
    } else {
      if e.action.Deliver? {
        KnownCall(s, t, l, Packet(n, e.action.req));
      }
      m := CrashDuringTurn(s, n, a, e.action, e.k, t, l);
    }
  }

  /** The new requests of a step are sound in the cluster after it. */
  lemma SentOk(s: Cluster, n: NodeId, b: NodeState, u: Tally, m: Ledger, s': Cluster, p: Packet)
    requires SendsSound(n, b, m) && p in Sent(b)
    requires n in s'.nodes && s'.nodes[n] == b && n in u.terms && NodeOk(u, n, b)
    requires b.phase.Electing? ==> b.term >= 1
    requires n !in PeerSet(b.config.peers)
    ensures CallOk(s', u, m, p)
  {
    assert p.to in PeerSet(b.config.peers);
  }

  lemma NewCallsOk(s: Cluster, n: NodeId, act: Action, b: NodeState, u: Tally, m: Ledger, s': Cluster)
    requires CanAct(s, n, act) && SendsSound(n, b, m)
    requires s'.calls == s.calls + Sent(b) && n in s'.nodes && s'.nodes[n] == b
    requires n in u.terms && NodeOk(u, n, b) && b.term >= s.nodes[n].term
    requires b.phase.Electing? ==> b.term > s.nodes[n].term
    requires n !in PeerSet(b.config.peers)
    ensures forall p :: p in s'.calls && p !in s.calls ==> CallOk(s', u, m, p)
  {
    forall p | p in Sent(b)
      ensures CallOk(s', u, m, p)
    {
      SentOk(s, n, b, u, m, s', p);
    }
  }

  /** Event `e` is node `n` answering a client write with the index of its entry. */
  ghost predicate ReportsWrite(s: Cluster, e: Event, n: NodeId, index: nat) {
    && Enabled(s, e) && e.Act? && e.node == n
    && CommitsWrite(s.nodes[n], e.action) && s.nodes[n].phase.upTo == index
  }

  ghost predicate WriteOnRecord(s: Cluster, e: Event, m: Ledger) {
    forall n, index: nat {:trigger ReportsWrite(s, e, n, index)} :: ReportsWrite(s, e, n, index) ==>
      Commit(s.nodes[n].term, index) in m.commits
  }

  lemma EventTurn(s: Cluster, e: Event, b: NodeState, s': Cluster, t: Tally, u: Tally, l: Ledger) returns (m: Ledger)
    requires Known(s, t, l) && Enabled(s, e) && Uncompacted(s')
    requires b == NodeAfter(s, e) && s' == Apply(s, e) && u == Record(t, e.node, s.nodes[e.node], b)
    ensures Turn(s, e.node, b, t, l, u, m)
    ensures e.Act? ==> Progress(e.node, s.nodes[e.node], e.action, b, m)
  {
    assert s'.nodes[e.node] == b;
    if e.Act? {
      m := ActTurn(s, e.node, e.action, b, t, l);
    } else {
      m := CrashTurn(s, e, b, t, l);
    }
  }

  /** What an event adds to the network is sound in the history after it. */
  ghost predicate TrafficOk(s: Cluster, u: Tally, m: Ledger, s': Cluster) {
    && (forall p :: p in s'.calls && p !in s.calls ==> CallOk(s', u, m, p))
    && (forall ans :: ans in s'.answers && ans !in s.answers ==> AnswerOk(m, ans))
  }

  lemma EventTraffic(s: Cluster, e: Event, b: NodeState, s': Cluster, u: Tally, m: Ledger)
    requires Enabled(s, e) && b == NodeAfter(s, e) && s' == Apply(s, e)
    requires e.node in u.terms && NodeOk(u, e.node, b) && VoteMove(e.node, s.nodes[e.node], b)
    requires e.node !in PeerSet(b.config.peers)
    requires e.Act? ==> Progress(e.node, s.nodes[e.node], e.action, b, m)
    ensures TrafficOk(s, u, m, s')
    ensures WriteOnRecord(s, e, m)
  {
    assert s'.nodes[e.node] == b;
    if e.Act? {
      NewCallsOk(s, e.node, e.action, b, u, m, s');
    }
  }

  lemma TrafficCoupled(s: Cluster, n: NodeId, b: NodeState, s': Cluster, t: Tally, u: Tally, l: Ledger, m: Ledger)
    requires Known(s, t, l) && n in s.nodes && VoteMove(n, s.nodes[n], b)
    requires Turn(s, n, b, t, l, u, m) && TrafficOk(s, u, m, s') && s'.nodes == s.nodes[n := b]
    ensures Coupled(s', u, m)
  {
    TurnKeepsCoupled(s, n, b, t, l, u, m, s');
  }

  lemma EventTallied(s: Cluster, e: Event, b: NodeState, s': Cluster, t: Tally, u: Tally)
    requires Configured(s) && Tallied(s, t) && Enabled(s, e)
    requires b == NodeAfter(s, e) && s' == Apply(s, e) && u == Record(t, e.node, s.nodes[e.node], b)
    ensures Configured(s') && Tallied(s', u) && VoteMove(e.node, s.nodes[e.node], b)
    ensures e.node !in PeerSet(b.config.peers) && s'.nodes == s.nodes[e.node := b]
    ensures e.node in u.terms && NodeOk(u, e.node, b)
  {
    StepKeepsTallied(s, e, t);
    EventMove(s, e, t);
    ConfiguredKept(s, e);
    assert s'.nodes[e.node] == b;
  }

  /** One step of an uncompacted cluster, in terms of both histories. */
  lemma StepKeepsKnown(s: Cluster, e: Event, s': Cluster, t: Tally, l: Ledger) returns (u: Tally, m: Ledger)
    requires Known(s, t, l) && Enabled(s, e) && s' == Apply(s, e) && Uncompacted(s')
    ensures Known(s', u, m) && Grows(l, m) && WriteOnRecord(s, e, m)
  {
    var b := NodeAfter(s, e);
    u := Record(t, e.node, s.nodes[e.node], b);
    EventTallied(s, e, b, s', t, u);
    m := EventTurn(s, e, b, s', t, u, l);
    EventTraffic(s, e, b, s', u, m);
    TrafficCoupled(s, e.node, b, s', t, u, l, m);
  }
}
