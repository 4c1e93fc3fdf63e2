/** Election safety, for every run: crashes, lost messages, compaction and snapshots included. */
module Elections {
  import opened Bytes
  import opened Log
  import opened NodeModel
  import opened Cluster

  /** Who won a term, and the members whose votes it won with. */
  datatype Win = Win(leader: NodeId, voters: set<NodeId>)

  /** The election history of a run so far. `ballots[(v, t)]` is the candidate `v` voted for in term `t`. */
  datatype Tally = Tally(
    terms: map<NodeId, nat>,
    ballots: map<(NodeId, nat), NodeId>,
    wins: map<nat, Win>)

  function Majority(members: set<NodeId>): nat {
    |members| / 2 + 1
  }

  /** The members that voted for `n` in `term`. */
  function Supporters(t: Tally, term: nat, n: NodeId): set<NodeId> {
    set v | v in t.terms.Keys && (v, term) in t.ballots && t.ballots[(v, term)] == n
  }

  // ---- The history alone is consistent ----

  ghost predicate BallotsOk(t: Tally) {
    forall v, term :: (v, term) in t.ballots ==> v in t.terms && term <= t.terms[v]
  }

  ghost predicate WinOk(t: Tally, term: nat)
    requires term in t.wins
  {
    var w := t.wins[term];
    && w.leader in t.terms && term <= t.terms[w.leader]
    && w.voters <= Supporters(t, term, w.leader)
    && |w.voters| >= Majority(t.terms.Keys)
  }

  ghost predicate TallyOk(t: Tally) {
    && BallotsOk(t)
    && forall term :: term in t.wins ==> WinOk(t, term)
  }

  // ---- The history matches the state of the cluster ----

  ghost predicate PhaseOk(t: Tally, n: NodeId, a: NodeState) {
    match a.phase
    case Idle => a.role != Candidate
    case Electing(ballot) =>
      && a.role == Candidate
      && ballot == VoteRequest(a.term, n, a.log.LastIndex(), a.log.LastTerm())
      && a.votedFor == Some(n)
      && !(a.term in t.wins && t.wins[a.term].leader == n)
    case Replicating(_, _) => a.role == Leader
    case Heartbeating(_) => a.role == Leader
  }

  ghost predicate NodeOk(t: Tally, n: NodeId, a: NodeState)
    requires n in t.terms
  {
    && a.term == t.terms[n]
    && a.votedFor == (if (n, a.term) in t.ballots then Some(t.ballots[(n, a.term)]) else None)
    && (a.role == Leader ==> a.term in t.wins && t.wins[a.term].leader == n && a.votedFor == Some(n))
    && PhaseOk(t, n, a)
  }

  ghost predicate GrantOk(t: Tally, ans: Answer) {
    ans.req.VoteCall? && ans.resp.VoteReply? && ans.resp.vote.granted ==>
      ans.from in t.terms
      && (ans.from, ans.req.vote.term) in t.ballots
      && t.ballots[(ans.from, ans.req.vote.term)] == ans.req.vote.candidate
  }

  ghost predicate Tallied(s: Cluster, t: Tally) {
    && t.terms.Keys == s.nodes.Keys
    && TallyOk(t)
    && (forall n :: n in s.nodes ==> NodeOk(t, n, s.nodes[n]))
    && (forall ans :: ans in s.answers ==> GrantOk(t, ans))
  }

  /** History is only ever added to. */
  ghost predicate TallyGrows(t: Tally, u: Tally) {
    && u.terms.Keys == t.terms.Keys
    && (forall n :: n in t.terms ==> t.terms[n] <= u.terms[n])
    && (forall b :: b in t.ballots ==> b in u.ballots && u.ballots[b] == t.ballots[b])
    && (forall term :: term in t.wins ==> term in u.wins && u.wins[term] == t.wins[term])
  }

  // ---- How one step of one node extends the history ----

  /** Moves node `n` to state `b`: its term, its vote, and its victory when it has just become leader. */
  function Record(t: Tally, n: NodeId, a: NodeState, b: NodeState): Tally {
    var terms := t.terms[n := b.term];
    var ballots := if b.votedFor.Some? && (n, b.term) !in t.ballots
                   then t.ballots[(n, b.term) := b.votedFor.value] else t.ballots;
    var u := Tally(terms, ballots, t.wins);
    if b.role == Leader && a.role != Leader
    then u.(wins := t.wins[b.term := Win(n, Supporters(u, b.term, n))]) else u
  }

  /** The effect on term, vote and role that every step has. */
  ghost predicate VoteMove(n: NodeId, a: NodeState, b: NodeState) {
    && b.term >= a.term
    && (b.term == a.term && a.votedFor.Some? ==> b.votedFor == a.votedFor)
    && (b.role == Leader ==> b.term == a.term && (a.role == Leader || a.phase.Electing?))
    && match b.phase
       case Idle => b.role != Candidate
       case Electing(ballot) =>
         && b.role == Candidate && b.term > a.term && b.votedFor == Some(n)
         && ballot == VoteRequest(b.term, n, b.log.LastIndex(), b.log.LastTerm())
       case _ => b.role == Leader
  }

  lemma StepIsVoteMove(n: NodeId, a: NodeState, act: Action)
    requires Ready(a, act) && a.config.id == n
    requires a.phase.Idle? ==> a.role != Candidate
    requires a.phase.Electing? ==> a.role == Candidate
    requires a.phase.Replicating? || a.phase.Heartbeating? ==> a.role == Leader
    ensures VoteMove(n, a, Step(a, act))
  {
    match act
    case VotesCounted(votes) => CountVotesEffect(a, votes, 0, 1);
    case WriteCounted(results, saved) => CountRepliesEffect(a, results, a.phase.upTo);
    case BeatsCounted(beats) => CountBeatsEffect(a, beats, 0);
    case Timeout =>
    case ClientWrite(data) =>
    case Deliver(req, saved) =>
  }

  /** What a node that restarts in mid-step finds: at most a higher term, and no vote it had not cast before. */
  ghost predicate NoNewVote(a: NodeState, d: Durable) {
    && d.term >= a.term
    && (d.term == a.term ==> d.votedFor == a.votedFor)
    && (d.votedFor.Some? ==> d.votedFor == a.votedFor && d.term == a.term)
  }

  lemma FinishWritesNoVote(a: NodeState, results: seq<Option<Response>>, saved: bool, k: nat)
    requires a.phase.Replicating? && |results| == |a.config.peers|
    requires k + 1 < |FinishWrites(a, a.phase.upTo, results, saved)|
    ensures NoNewVote(a, FinishWrites(a, a.phase.upTo, results, saved)[k])
  {
    CountRepliesEffect(a, results, a.phase.upTo);
  }

  lemma DeliverWritesNoVote(a: NodeState, act: Action, k: nat)
    requires Ready(a, act) && act.Deliver? && k + 1 < |Writes(a, act)|
    ensures NoNewVote(a, Writes(a, act)[k])
  {}

  /** A crash in mid-step leaves at most a higher term behind; no new vote is on disk yet. */
  lemma WritesHaveNoVote(a: NodeState, act: Action, k: nat)
    requires Ready(a, act) && k + 1 < |Writes(a, act)|
    ensures NoNewVote(a, Writes(a, act)[k])
  {
    if act.WriteCounted? {
      FinishWritesNoVote(a, act.results, act.saved, k);
    } else if act.Deliver? {
      DeliverWritesNoVote(a, act, k);
    }
  }

  lemma WritesAreVoteMoves(n: NodeId, a: NodeState, act: Action, k: nat)
    requires Ready(a, act) && k + 1 < |Writes(a, act)|
    ensures VoteMove(n, a, Restart(a.config, Writes(a, act)[k]))
    ensures Writes(a, act)[k].votedFor.Some? ==>
              a.votedFor == Writes(a, act)[k].votedFor && a.term == Writes(a, act)[k].term
  {
    WritesHaveNoVote(a, act, k);
  }

  // ---- Quorums ----

  lemma SubsetSize<T>(a: set<T>, b: set<T>)
    requires a <= b
    ensures |a| <= |b|
  {
    assert b == a + (b - a);
  }

  /** Two majorities of the same members share one. */
  lemma MajoritiesMeet(members: set<NodeId>, a: set<NodeId>, b: set<NodeId>) returns (v: NodeId)
    requires a <= members && b <= members
    requires |a| >= Majority(members) && |b| >= Majority(members)
    ensures v in a && v in b
  {
    SubsetSize(a + b, members);
    assert |a + b| + |a * b| == |a| + |b|;
    v :| v in a * b;
  }

  lemma PeerCount(peers: seq<NodeId>)
    requires Distinct(peers)
    ensures |PeerSet(peers)| == |peers|
  {
    if peers != [] {
      var rest := peers[..|peers| - 1];
      PeerCount(rest);
      assert PeerSet(peers) == PeerSet(rest) + {peers[|peers| - 1]};
    }
  }

  /** `quorum()` is a majority of the members, and one node per peer plus itself is all of them. */
  lemma QuorumIsMajority(s: Cluster, n: NodeId)
    requires Configured(s) && n in s.nodes
    ensures s.nodes[n].config.Quorum() == Majority(s.nodes.Keys)
  {
    var peers := s.nodes[n].config.peers;
    PeerCount(peers);
    assert s.nodes.Keys == PeerSet(peers) + {n};
  }

  /** Every vote counted was cast by a different member, so the count never exceeds the supporters.
      `seen` are the voters counted before the i-th result. */
  lemma {:induction false} VotesAreSupporters(
    a: NodeState, votes: seq<Option<VoteResponse>>, i: nat, seen: set<NodeId>, supporters: set<NodeId>)
    requires |votes| == |a.config.peers| && i <= |votes|
    requires Distinct(a.config.peers)
    requires seen <= supporters
    requires forall j :: i <= j < |votes| ==> a.config.peers[j] !in seen
    requires forall j :: 0 <= j < |votes| && votes[j].Some? && votes[j].value.granted ==>
               a.config.peers[j] in supporters
    ensures CountVotes(a, votes, i, |seen|).count <= |supporters|
    decreases |votes| - i
  {
    SubsetSize(seen, supporters);
    if i < |votes| {
      if votes[i].Some? && votes[i].value.granted {
        VotesAreSupporters(a, votes, i + 1, seen + {a.config.peers[i]}, supporters);
      } else {
        VotesAreSupporters(a, votes, i + 1, seen, supporters);
      }
    }
  }

  // ---- The history stays consistent ----

  /** A term that has a winner gives no second candidate a majority. */
  lemma NoSecondWinner(t: Tally, term: nat, n: NodeId)
    requires TallyOk(t) && term in t.wins
    requires |Supporters(t, term, n)| >= Majority(t.terms.Keys)
    ensures t.wins[term].leader == n
  {
    assert WinOk(t, term);
    var v := MajoritiesMeet(t.terms.Keys, t.wins[term].voters, Supporters(t, term, n));
  }

  /** The members whose granted votes a candidate counts are its supporters. */
  lemma GrantersSupport(s: Cluster, t: Tally, n: NodeId, a: NodeState, votes: seq<Option<VoteResponse>>)
    requires n in t.terms && NodeOk(t, n, a) && a.phase.Electing?
    requires |votes| == |a.config.peers| && Answered(s, a, VotesCounted(votes))
    requires forall ans :: ans in s.answers ==> GrantOk(t, ans)
    requires Distinct(a.config.peers) && n !in PeerSet(a.config.peers)
    ensures CountVotes(a, votes, 0, 1).count <= |Supporters(t, a.term, n)|
  {
    var supporters := Supporters(t, a.term, n);
    forall j | 0 <= j < |votes| && votes[j].Some? && votes[j].value.granted
      ensures a.config.peers[j] in supporters
    {
      assert GrantOk(t, Answer(a.config.peers[j], VoteCall(a.phase.ballot), VoteReply(votes[j].value)));
    }
    assert forall j :: 0 <= j < |votes| ==> a.config.peers[j] in PeerSet(a.config.peers);
    VotesAreSupporters(a, votes, 0, {n}, supporters);
  }

  /** A node that becomes leader stays in its term, has a majority of supporters, and nobody won that term before. */
  lemma WinnerIsFirst(s: Cluster, t: Tally, n: NodeId, act: Action)
    requires Configured(s) && Tallied(s, t) && CanAct(s, n, act)
    requires Step(s.nodes[n], act).role == Leader && s.nodes[n].role != Leader
    ensures act.VotesCounted?
    ensures Step(s.nodes[n], act) == s.nodes[n].BecomeLeader().(phase := Idle)
    ensures |Supporters(t, s.nodes[n].term, n)| >= Majority(t.terms.Keys)
    ensures s.nodes[n].term !in t.wins
  {
    var a := s.nodes[n];
    assert NodeOk(t, n, a);
    OnlyCountingElects(n, a, act);
    GrantersSupport(s, t, n, a, act.votes);
    QuorumIsMajority(s, n);
    if a.term in t.wins {
      NoSecondWinner(t, a.term, n);
    }
  }

  lemma OnlyCountingElects(n: NodeId, a: NodeState, act: Action)
    requires Ready(a, act) && a.config.id == n
    requires a.role != Leader && Step(a, act).role == Leader
    requires a.phase.Idle? ==> a.role != Candidate
    requires a.phase.Electing? ==> a.role == Candidate
    requires a.phase.Replicating? || a.phase.Heartbeating? ==> a.role == Leader
    ensures act.VotesCounted?
    ensures Step(a, act) == a.BecomeLeader().(phase := Idle)
    ensures CountVotes(a, act.votes, 0, 1).count >= a.config.Quorum()
  {
    StepIsVoteMove(n, a, act);
    CountVotesEffect(a, act.votes, 0, 1);
  }

  lemma RecordKeepsTally(t: Tally, n: NodeId, a: NodeState, b: NodeState)
    requires TallyOk(t) && n in t.terms && NodeOk(t, n, a) && VoteMove(n, a, b)
    requires b.role == Leader && a.role != Leader ==>
               && b.term == a.term && b.term !in t.wins && a.votedFor == Some(n)
               && |Supporters(t, a.term, n)| >= Majority(t.terms.Keys)
    ensures TallyOk(Record(t, n, a, b))
    ensures TallyGrows(t, Record(t, n, a, b))
    ensures b.config == a.config ==> NodeOk(Record(t, n, a, b), n, b)
  {
    var u := Record(t, n, a, b);
    assert u.terms.Keys == t.terms.Keys;
    assert b.term > a.term ==> (n, b.term) !in t.ballots;
    forall term, m | true
      ensures Supporters(t, term, m) <= Supporters(u, term, m)
    {}
    forall term | term in u.wins
      ensures WinOk(u, term)
    {
      if term in t.wins {
        assert WinOk(t, term);
      } else {
        assert Supporters(u, term, n) == Supporters(t, term, n);
      }
    }
    if b.phase.Electing? && b.term in t.wins {
      assert WinOk(t, b.term);
    }
  }

  /** A node that did nothing is still described correctly by the longer history. */
  lemma OthersStayOk(t: Tally, n: NodeId, a: NodeState, b: NodeState, m: NodeId, c: NodeState)
    requires TallyOk(t) && n in t.terms && NodeOk(t, n, a) && VoteMove(n, a, b)
    requires m in t.terms && m != n && NodeOk(t, m, c)
    requires TallyGrows(t, Record(t, n, a, b))
    ensures NodeOk(Record(t, n, a, b), m, c)
  {}

  /** The step taken at a node is a legal vote move, and a victory if it makes the node leader. */
  lemma EventMove(s: Cluster, e: Event, t: Tally)
    requires Configured(s) && Tallied(s, t) && Enabled(s, e)
    ensures var a, b := s.nodes[e.node], NodeAfter(s, e);
            && VoteMove(e.node, a, b)
            && (b.role == Leader && a.role != Leader ==>
                  && b.term == a.term && b.term !in t.wins && a.votedFor == Some(e.node)
                  && |Supporters(t, a.term, e.node)| >= Majority(t.terms.Keys))
  {
    var n, a, b := e.node, s.nodes[e.node], NodeAfter(s, e);
    assert NodeOk(t, n, a);
    match e
    case Act(_, act) =>
      StepIsVoteMove(n, a, act);
      if b.role == Leader && a.role != Leader {
        WinnerIsFirst(s, t, n, act);
      }
    case Crash(_) =>
    case CrashDuring(_, act, k) => WritesAreVoteMoves(n, a, act, k);
  }

  /** A vote is on record when it is answered. */
  lemma NewGrantOk(t: Tally, n: NodeId, a: NodeState, act: Action, ans: Answer)
    requires n in t.terms && NodeOk(t, n, a) && Ready(a, act)
    requires BallotsOk(t)
    requires ans in AnswersOf(n, a, act)
    ensures GrantOk(Record(t, n, a, Step(a, act)), ans)
  {}

  ghost predicate NewAnswersOk(t: Tally, before: set<Answer>, after: set<Answer>) {
    forall ans :: ans in after && ans !in before ==> GrantOk(t, ans)
  }

  lemma MoveKeepsTallied(s: Cluster, t: Tally, n: NodeId, b: NodeState, s': Cluster)
    requires Tallied(s, t) && n in s.nodes
    requires s'.nodes == s.nodes[n := b] && b.config == s.nodes[n].config
    requires VoteMove(n, s.nodes[n], b)
    requires b.role == Leader && s.nodes[n].role != Leader ==>
               && b.term == s.nodes[n].term && b.term !in t.wins && s.nodes[n].votedFor == Some(n)
               && |Supporters(t, s.nodes[n].term, n)| >= Majority(t.terms.Keys)
    requires NewAnswersOk(Record(t, n, s.nodes[n], b), s.answers, s'.answers)
    ensures Tallied(s', Record(t, n, s.nodes[n], b))
    ensures TallyGrows(t, Record(t, n, s.nodes[n], b))
  {
    var a := s.nodes[n];
    assert NodeOk(t, n, a);
    RecordKeepsTally(t, n, a, b);
    var u := Record(t, n, a, b);
    forall m | m in s'.nodes
      ensures NodeOk(u, m, s'.nodes[m])
    {
      if m != n {
        OthersStayOk(t, n, a, b, m, s.nodes[m]);
      }
    }
    forall ans | ans in s'.answers
      ensures GrantOk(u, ans)
    {
      if ans in s.answers {
        assert GrantOk(t, ans);
      }
    }
  }

  lemma EventAnswersOk(s: Cluster, e: Event, t: Tally)
    requires Tallied(s, t) && Enabled(s, e)
    ensures NewAnswersOk(Record(t, e.node, s.nodes[e.node], NodeAfter(s, e)), s.answers, Apply(s, e).answers)
  {
    var n, a := e.node, s.nodes[e.node];
    assert NodeOk(t, n, a);
    if e.Act? {
      forall ans | ans in AnswersOf(n, a, e.action)
        ensures GrantOk(Record(t, n, a, Step(a, e.action)), ans)
      {
        NewGrantOk(t, n, a, e.action, ans);
      }
    }
  }

  lemma StepKeepsTallied(s: Cluster, e: Event, t: Tally)
    requires Configured(s) && Tallied(s, t) && Enabled(s, e)
    ensures Tallied(Apply(s, e), Record(t, e.node, s.nodes[e.node], NodeAfter(s, e)))
    ensures TallyGrows(t, Record(t, e.node, s.nodes[e.node], NodeAfter(s, e)))
    ensures Configured(Apply(s, e))
  {
    EventMove(s, e, t);
    ConfiguredKept(s, e);
    EventAnswersOk(s, e, t);
    MoveKeepsTallied(s, t, e.node, NodeAfter(s, e), Apply(s, e));
  }

  // ---- Whole runs ----

  /** The map from each of the names to `v`. */
  ghost function Everywhere<V>(names: set<NodeId>, v: V): (m: map<NodeId, V>)
    ensures m.Keys == names && forall n :: n in names ==> m[n] == v
  {
    if names == {} then map[] else
      var n :| n in names;
      Everywhere(names - {n}, v)[n := v]
  }

  /** The election history of a run up to its k-th state. */
  ghost function TallyAt(run: Run, k: nat): Tally
    requires IsRun(run) && k < |run.states|
  {
    if k == 0 then Tally(Everywhere(run.states[0].nodes.Keys, 0), map[], map[])
    else
      assert StepOk(run, k - 1);
      var s, e := run.states[k - 1], run.events[k - 1];
      Record(TallyAt(run, k - 1), e.node, s.nodes[e.node], NodeAfter(s, e))
  }

  lemma InitTallied(s: Cluster)
    requires Init(s)
    ensures Tallied(s, Tally(Everywhere(s.nodes.Keys, 0), map[], map[]))
  {
    var t := Tally(Everywhere(s.nodes.Keys, 0), map[], map[]);
    assert TallyOk(t);
    forall n | n in s.nodes
      ensures NodeOk(t, n, s.nodes[n])
    {
      assert s.nodes[n] == Restart(s.nodes[n].config, FRESH_DISK);
    }
  }

  /** One step of a run, in terms of its history. */
  lemma TallyTurn(run: Run, k: nat)
    requires IsRun(run) && 0 < k < |run.states|
    requires Configured(run.states[k - 1]) && Tallied(run.states[k - 1], TallyAt(run, k - 1))
    ensures Configured(run.states[k]) && Tallied(run.states[k], TallyAt(run, k))
    ensures TallyGrows(TallyAt(run, k - 1), TallyAt(run, k))
  {
    assert StepOk(run, k - 1);
    StepKeepsTallied(run.states[k - 1], run.events[k - 1], TallyAt(run, k - 1));
  }

  lemma {:induction false} TalliedAt(run: Run, k: nat)
    requires IsRun(run) && k < |run.states|
    ensures Configured(run.states[k])
    ensures Tallied(run.states[k], TallyAt(run, k))
  {
    if k == 0 {
      InitTallied(run.states[0]);
    } else {
      TalliedAt(run, k - 1);
      TallyTurn(run, k);
    }
  }

  lemma TallyGrowsOnce(run: Run, k: nat)
    requires IsRun(run) && 0 < k < |run.states|
    ensures TallyGrows(TallyAt(run, k - 1), TallyAt(run, k))
  {
    TalliedAt(run, k - 1);
    TallyTurn(run, k);
  }

  lemma {:induction false} TallyGrowsAlong(run: Run, i: nat, j: nat)
    requires IsRun(run) && i <= j < |run.states|
    ensures TallyGrows(TallyAt(run, i), TallyAt(run, j))
    decreases j
  {
    if i < j {
      TallyGrowsAlong(run, i, j - 1);
      TallyGrowsOnce(run, j);
      GrowthAddsUp(TallyAt(run, i), TallyAt(run, j - 1), TallyAt(run, j));
    }
  }

  lemma GrowthAddsUp(t: Tally, u: Tally, v: Tally)
    requires TallyGrows(t, u) && TallyGrows(u, v)
    ensures TallyGrows(t, v)
  {}

  /** At most one node is ever leader of a term, over the whole run. */
  lemma ElectionSafety(run: Run, i: nat, j: nat, m: NodeId, n: NodeId)
    requires IsRun(run) && i < |run.states| && j < |run.states|
    requires m in run.states[i].nodes && n in run.states[j].nodes
    requires run.states[i].nodes[m].role == Leader && run.states[j].nodes[n].role == Leader
    requires run.states[i].nodes[m].term == run.states[j].nodes[n].term
    ensures m == n
  {
    var last := |run.states| - 1;
    TalliedAt(run, i);
    TalliedAt(run, j);
    TallyGrowsAlong(run, i, last);
    TallyGrowsAlong(run, j, last);
    assert NodeOk(TallyAt(run, i), m, run.states[i].nodes[m]);
    assert NodeOk(TallyAt(run, j), n, run.states[j].nodes[n]);
  }

  /** No node ever grants its vote to two candidates in one term, whatever crashes lie between. */
  lemma OneVotePerTerm(run: Run, i: nat, j: nat, x: Answer, y: Answer)
    requires IsRun(run) && i < |run.states| && j < |run.states|
    requires x in run.states[i].answers && y in run.states[j].answers
    requires x.from == y.from
    requires x.req.VoteCall? && x.resp.VoteReply? && x.resp.vote.granted
    requires y.req.VoteCall? && y.resp.VoteReply? && y.resp.vote.granted
    requires x.req.vote.term == y.req.vote.term
    ensures x.req.vote.candidate == y.req.vote.candidate
  {
    var last := |run.states| - 1;
    TalliedAt(run, i);
    TalliedAt(run, j);
    TallyGrowsAlong(run, i, last);
    TallyGrowsAlong(run, j, last);
    assert GrantOk(TallyAt(run, i), x) && GrantOk(TallyAt(run, j), y);
  }

  lemma BallotOnRecord(run: Run, i: nat, n: NodeId, last: nat)
    requires IsRun(run) && i <= last < |run.states| && n in run.states[i].nodes
    requires run.states[i].nodes[n].votedFor.Some?
    ensures var a := run.states[i].nodes[n];
            && (n, a.term) in TallyAt(run, last).ballots
            && TallyAt(run, last).ballots[(n, a.term)] == a.votedFor.value
  {
    TalliedAt(run, i);
    TallyGrowsAlong(run, i, last);
    assert NodeOk(TallyAt(run, i), n, run.states[i].nodes[n]);
  }

  /** Whatever a node has voted in a term, for itself or for another, it keeps to in that term, across restarts. */
  lemma VoteIsKept(run: Run, i: nat, j: nat, n: NodeId)
    requires IsRun(run) && i < |run.states| && j < |run.states|
    requires n in run.states[i].nodes && n in run.states[j].nodes
    requires run.states[i].nodes[n].term == run.states[j].nodes[n].term
    requires run.states[i].nodes[n].votedFor.Some? && run.states[j].nodes[n].votedFor.Some?
    ensures run.states[i].nodes[n].votedFor == run.states[j].nodes[n].votedFor
  {
    BallotOnRecord(run, i, n, |run.states| - 1);
    BallotOnRecord(run, j, n, |run.states| - 1);
  }

  /** And it never grants a vote to anyone else in that term, before or after. */
  lemma GrantsFollowTheVote(run: Run, i: nat, j: nat, n: NodeId, x: Answer)
    requires IsRun(run) && i < |run.states| && j < |run.states| && n in run.states[i].nodes
    requires run.states[i].nodes[n].votedFor.Some?
    requires x in run.states[j].answers && x.from == n && x.req.VoteCall?
    requires x.resp.VoteReply? && x.resp.vote.granted && x.req.vote.term == run.states[i].nodes[n].term
    ensures run.states[i].nodes[n].votedFor == Some(x.req.vote.candidate)
  {
    BallotOnRecord(run, i, n, |run.states| - 1);
    TalliedAt(run, j);
    TallyGrowsAlong(run, j, |run.states| - 1);
    assert GrantOk(TallyAt(run, j), x);
  }

  /** A node's current term never decreases, across crashes and restarts. */
  lemma TermsNeverDecrease(run: Run, i: nat, j: nat, n: NodeId)
    requires IsRun(run) && i <= j < |run.states| && n in run.states[i].nodes
    ensures n in run.states[j].nodes && run.states[i].nodes[n].term <= run.states[j].nodes[n].term
  {
    TalliedAt(run, i);
    TalliedAt(run, j);
    TallyGrowsAlong(run, i, j);
    assert NodeOk(TallyAt(run, i), n, run.states[i].nodes[n]);
    assert NodeOk(TallyAt(run, j), n, run.states[j].nodes[n]);
  }

  ghost predicate Leads(s: Cluster, n: NodeId, term: nat) {
    n in s.nodes && s.nodes[n].role == Leader && s.nodes[n].term == term
  }

  /** Event `e` is node `n` counting a quorum of votes for `term`. */
  ghost predicate Elects(s: Cluster, e: Event, n: NodeId, term: nat) {
    && Enabled(s, e)
    && e.Act? && e.node == n && e.action.VotesCounted?
    && s.nodes[n].phase.ballot.term == term
    && CountVotes(s.nodes[n], e.action.votes, 0, 1).count >= s.nodes[n].config.Quorum()
  }

  /** A node that leads after an event led the same term before it, or just counted a quorum for it. */
  lemma LeadersAreMade(s: Cluster, e: Event, t: Tally, n: NodeId, term: nat)
    requires Configured(s) && Tallied(s, t) && Enabled(s, e)
    requires Leads(Apply(s, e), n, term)
    ensures Leads(s, n, term) || Elects(s, e, n, term)
  {
    if e.node == n {
      EventMove(s, e, t);
      assert NodeOk(t, n, s.nodes[n]);
      if s.nodes[n].role != Leader {
        OnlyCountingElects(n, s.nodes[n], e.action);
      }
    }
  }

  lemma LeaderBefore(run: Run, i: nat, n: NodeId, term: nat)
    requires IsRun(run) && 0 < i < |run.states|
    requires Leads(run.states[i], n, term)
    ensures Leads(run.states[i - 1], n, term) || Elects(run.states[i - 1], run.events[i - 1], n, term)
  {
    TalliedAt(run, i - 1);
    assert StepOk(run, i - 1);
    LeadersAreMade(run.states[i - 1], run.events[i - 1], TallyAt(run, i - 1), n, term);
  }

  /** A leader was elected in its present term: at some earlier event it counted a quorum of votes for it. */
  lemma {:induction false} LeaderWasElected(run: Run, i: nat, n: NodeId, term: nat) returns (k: nat)
    requires IsRun(run) && i < |run.states|
    requires Leads(run.states[i], n, term)
    ensures k < i && Elects(run.states[k], run.events[k], n, term)
    decreases i
  {
    assert i > 0;
    LeaderBefore(run, i, n, term);
    k := i - 1;
    if !Elects(run.states[k], run.events[k], n, term) {
      k := LeaderWasElected(run, k, n, term);
    }
  }
}
